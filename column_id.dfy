/**
 * The column-id parsing shared by the column evaluators: the integer after
 * the last '_' of a domain name, read as `std::stoi` reads it, and the
 * `column_<id>` names written back with `operator<<`.
 */
module ColumnId {
  import opened Results

  const IntMin: int := -0x8000_0000
  const IntMax: int := 0x7FFF_FFFF

  /** The exceptions `std::stoi` raises. */
  datatype StoiError = InvalidArgument | OutOfRange

  predicate IsDigit(c: char) { '0' <= c <= '9' }

  /** The characters `isspace` accepts in the C locale. */
  predicate IsSpace(c: char) {
    c == ' ' || c == '\t' || c == '\n' || c == '\U{B}' || c == '\U{C}' || c == '\r'
  }

  /** Index of the last occurrence of `c` in `s`, as `find_last_of` finds it. */
  function FindLastOf(s: string, c: char): (r: Option<nat>)
    ensures r.None? <==> c !in s
    ensures r.Some? ==> r.value < |s| && s[r.value] == c && c !in s[r.value + 1..]
  {
    if |s| == 0 then None
    else if s[|s| - 1] == c then Some(|s| - 1)
    else
      var r := FindLastOf(s[..|s| - 1], c);
      assert s == s[..|s| - 1] + [s[|s| - 1]];
      r
  }

  /**
   * `s.substr(pos + 1)` with `pos = s.find_last_of('_')`: when there is no
   * '_', `pos` is `npos` and `npos + 1` wraps to 0, so the whole string is kept.
   */
  function SuffixAfterLastUnderscore(s: string): (r: string)
    ensures '_' !in r
    ensures '_' !in s ==> r == s
    ensures |r| <= |s| && r == s[|s| - |r|..]
  {
    match FindLastOf(s, '_')
    case None => s
    case Some(pos) => s[pos + 1..]
  }

  function SkipSpace(s: string): (r: string)
    ensures |r| <= |s| && r == s[|s| - |r|..]
    ensures |r| > 0 ==> !IsSpace(r[0])
  {
    if |s| > 0 && IsSpace(s[0]) then SkipSpace(s[1..]) else s
  }

  /** Length of the run of decimal digits at the front of `s`. */
  function DigitRun(s: string): (k: nat)
    ensures k <= |s|
    ensures forall i :: 0 <= i < k ==> IsDigit(s[i])
    ensures k < |s| ==> !IsDigit(s[k])
  {
    if |s| > 0 && IsDigit(s[0]) then 1 + DigitRun(s[1..]) else 0
  }

  /** The value of a string of decimal digits, most significant first. */
  function DigitsValue(s: string): nat
    requires forall i :: 0 <= i < |s| ==> IsDigit(s[i])
  {
    if |s| == 0 then 0
    else
      assert IsDigit(s[|s| - 1]);
      10 * DigitsValue(s[..|s| - 1]) + (s[|s| - 1] as int - '0' as int)
  }

  /** `std::stoi(s)`: leading white space, an optional sign, then the longest digit run. */
  function Stoi(s: string): (r: Result<int, StoiError>)
    ensures r.Ok? ==> IntMin <= r.value <= IntMax
    ensures r == Err(InvalidArgument) <==> DigitRun(Unsigned(SkipSpace(s))) == 0
  {
    var t := SkipSpace(s);
    var u := Unsigned(t);
    var k := DigitRun(u);
    if k == 0 then Err(InvalidArgument)
    else
      var magnitude: int := DigitsValue(u[..k]);
      var v: int := if |t| > 0 && t[0] == '-' then 0 - magnitude else magnitude;
      if v < IntMin || v > IntMax then Err(OutOfRange) else Ok(v)
  }

  /** `s` without its leading sign character, if it has one. */
  function Unsigned(t: string): string
  {
    if |t| > 0 && (t[0] == '-' || t[0] == '+') then t[1..] else t
  }

  /** The column id of a domain name: `std::stoi` of the text after its last '_'. */
  function ColumnIdOf(domain: string): (r: Result<int, StoiError>)
    ensures r.Ok? ==> IntMin <= r.value <= IntMax
  {
    Stoi(SuffixAfterLastUnderscore(domain))
  }

  function DigitChar(d: nat): (c: char)
    requires d < 10
    ensures IsDigit(c) && c as int - '0' as int == d
  {
    ('0' as int + d) as char
  }

  /** The decimal digits of `n`, most significant first, with no leading zero. */
  function Digits(n: nat): (s: string)
    ensures |s| > 0
    ensures forall i :: 0 <= i < |s| ==> IsDigit(s[i])
  {
    if n < 10 then [DigitChar(n)] else Digits(n / 10) + [DigitChar(n % 10)]
  }

  /** `n` written by `operator<<` on a stream: an optional '-', then its digits. */
  function IntToString(n: int): string
  {
    if n < 0 then "-" + Digits(-n) else Digits(n)
  }

  /** The text `"column_" << id`. */
  function ColumnDomain(id: int): string { "column_" + IntToString(id) }

  /** The text `"surface_column_" << id`. */
  function SurfaceColumnDomain(id: int): string { "surface_column_" + IntToString(id) }

  lemma {:induction false} DigitsValueOfDigits(n: nat)
    ensures DigitsValue(Digits(n)) == n
  {
    if n >= 10 {
      var s := Digits(n);
      assert s[..|s| - 1] == Digits(n / 10);
      DigitsValueOfDigits(n / 10);
    }
  }

  /** Reading back what `operator<<` wrote gives the same integer. */
  lemma StoiOfIntToString(n: int)
    requires IntMin <= n <= IntMax
    ensures Stoi(IntToString(n)) == Ok(n)
  {
    var s := IntToString(n);
    var m := if n < 0 then -n else n;
    var d := Digits(m);
    assert SkipSpace(s) == s;
    assert Unsigned(s) == d;
    DigitRunOfAllDigits(d);
    assert d[..|d|] == d;
    DigitsValueOfDigits(m);
  }

  lemma {:induction false} DigitRunOfAllDigits(s: string)
    requires forall i :: 0 <= i < |s| ==> IsDigit(s[i])
    ensures DigitRun(s) == |s|
  {
    if |s| > 0 { DigitRunOfAllDigits(s[1..]); }
  }

  /**
   * The round trip the column evaluators rely on: the id parsed from a domain
   * ending in `_<id>` is that id, whatever comes before the '_'.
   */
  lemma ColumnIdOfSuffix(prefix: string, id: int)
    requires IntMin <= id <= IntMax
    ensures ColumnIdOf(prefix + "_" + IntToString(id)) == Ok(id)
  {
    var t := IntToString(id);
    var s := prefix + "_" + t;
    assert '_' !in t by {
      var m := if id < 0 then -id else id;
      assert forall i :: 0 <= i < |Digits(m)| ==> Digits(m)[i] != '_';
    }
    assert s[|prefix|] == '_';
    assert s[|prefix| + 1..] == t;
    assert SuffixAfterLastUnderscore(s) == t;
    StoiOfIntToString(id);
  }

  /** `column_<id>` names the column it was built from. */
  lemma ColumnIdOfColumnDomain(id: int)
    requires IntMin <= id <= IntMax
    ensures ColumnIdOf(ColumnDomain(id)) == Ok(id)
  {
    var t := IntToString(id);
    assert "column" + "_" == "column_";
    assert ColumnDomain(id) == ("column" + "_") + t;
    ColumnIdOfSuffix("column", id);
  }

  /** `surface_column_<id>` names the column it was built from. */
  lemma ColumnIdOfSurfaceColumnDomain(id: int)
    requires IntMin <= id <= IntMax
    ensures ColumnIdOf(SurfaceColumnDomain(id)) == Ok(id)
  {
    var t := IntToString(id);
    assert "surface_column" + "_" == "surface_column_";
    assert SurfaceColumnDomain(id) == ("surface_column" + "_") + t;
    ColumnIdOfSuffix("surface_column", id);
  }

  /** Distinct ids give distinct `column_<id>` names. */
  lemma ColumnDomainInjective(a: int, b: int)
    requires IntMin <= a <= IntMax && IntMin <= b <= IntMax
    requires ColumnDomain(a) == ColumnDomain(b)
    ensures a == b
  {
    ColumnIdOfColumnDomain(a);
    ColumnIdOfColumnDomain(b);
  }
}
