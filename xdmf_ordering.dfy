/**
 * Structured reordering of mesh elements for the visualisation reader:
 * completing the list of sort keys, sorting element ids by their centroid
 * coordinates, and gathering data columns through the resulting map.
 * Centroids are rounded to a fixed number of decimals before they are
 * sorted, so they are modelled as integers (the rounded value scaled by a
 * power of ten).
 */
module XdmfOrdering {
  import opened Results
  import opened NumpyIndex

  datatype OrderError = UnsupportedDimension(dim: nat) | UnknownField(name: string)

  /** `name` put in front of the keys, unless they already mention it. */
  function PutFront(name: string, keys: seq<string>): (r: seq<string>)
    ensures name in r
    ensures r == keys || (r == [name] + keys && name !in keys)
  {
    if name !in keys then [name] + keys else keys
  }

  /** `[name]` when `keys` lacks it, nothing otherwise. */
  function Missing(name: string, keys: seq<string>): seq<string>
  {
    if name !in keys then [name] else []
  }

  /** The axes the key list leaves out, in the order they end up in front: z (3-D only), y, x. */
  function MissingAxes(order: seq<string>, dim: nat): seq<string>
  {
    (if dim > 2 then Missing("z", order) else []) + Missing("y", order) + Missing("x", order)
  }

  /** The completion prefix holds at most three names, each absent from the keys and each once. */
  lemma MissingAxesFresh(order: seq<string>, dim: nat)
    ensures |MissingAxes(order, dim)| <= 3
    ensures forall k :: 0 <= k < |MissingAxes(order, dim)| ==> MissingAxes(order, dim)[k] !in order
    ensures forall p, q :: 0 <= p < q < |MissingAxes(order, dim)| ==> MissingAxes(order, dim)[p] != MissingAxes(order, dim)[q]
  {
    AxisNamesDistinct();
  }

  /**
   * The sort keys after completion: a missing "x" is put in front, then a
   * missing "y" in front of that, then (in 3-D) a missing "z"; the given keys
   * follow in their own order.
   */
  function CompletedOrder(order: seq<string>, dim: nat): (full: seq<string>)
    ensures "x" in full && "y" in full && (dim > 2 ==> "z" in full)
  {
    var withX := PutFront("x", order);
    var withY := PutFront("y", withX);
    if dim > 2 then PutFront("z", withY) else withY
  }

  /** The three axis names are different names. */
  lemma AxisNamesDistinct()
    ensures "x" != "y" && "y" != "z" && "x" != "z"
  {
    assert "x"[0] != "y"[0] && "y"[0] != "z"[0] && "x"[0] != "z"[0];
  }

  /** Putting a name in front of a list that holds `other` neither adds nor removes `other`. */
  lemma MissingAfterPutFront(name: string, other: string, keys: seq<string>)
    requires name != other
    ensures Missing(other, PutFront(name, keys)) == Missing(other, keys)
  {
    assert other in PutFront(name, keys) <==> other in keys;
  }

  /** Two successive put-fronts of different names add exactly the missing ones, last one first. */
  lemma PutFrontTwice(a: string, b: string, keys: seq<string>)
    requires a != b
    ensures PutFront(b, PutFront(a, keys)) == Missing(b, keys) + (Missing(a, keys) + keys)
  {
    MissingAfterPutFront(a, b, keys);
  }

  /** Three successive put-fronts of different names add exactly the missing ones, last one first. */
  lemma PutFrontThrice(a: string, b: string, c: string, keys: seq<string>)
    requires a != b && a != c && b != c
    ensures PutFront(c, PutFront(b, PutFront(a, keys))) == Missing(c, keys) + (Missing(b, keys) + (Missing(a, keys) + keys))
  {
    PutFrontTwice(a, b, keys);
    MissingAfterPutFront(a, c, keys);
    MissingAfterPutFront(b, c, PutFront(a, keys));
  }

  /** Completion only puts the missing axes in front: the given keys follow, unchanged. */
  lemma CompletedOrderShape(order: seq<string>, dim: nat)
    ensures CompletedOrder(order, dim) == MissingAxes(order, dim) + order
  {
    AxisNamesDistinct();
    if dim > 2 {
      PutFrontThrice("x", "y", "z", order);
      ConcatRegroup(Missing("z", order), Missing("y", order), Missing("x", order), order);
    } else {
      PutFrontTwice("x", "y", order);
      ConcatRegroup([], Missing("y", order), Missing("x", order), order);
    }
  }

  /** Regrouping a four-part concatenation (with an empty first part, also dropping it). */
  lemma ConcatRegroup(p: seq<string>, q: seq<string>, r: seq<string>, t: seq<string>)
    ensures p + (q + (r + t)) == p + q + r + t
    ensures p == [] ==> q + (r + t) == p + q + r + t
  {
  }

  /** The list insertions of `structuredOrdering`, on a copy of `order`. */
  method CompleteOrder(order: seq<string>, dim: nat) returns (full: seq<string>)
    ensures full == CompletedOrder(order, dim)
  {
    full := order;
    if "x" !in full {
      full := ["x"] + full;
    }
    if "y" !in full {
      full := ["y"] + full;
    }
    if dim > 2 && "z" !in full {
      full := ["z"] + full;
    }
  }

  /** The fields of the structured array that is sorted, in declaration order. */
  function Fields(dim: nat): seq<string>
  {
    if dim == 3 then ["id", "x", "y", "z"] else ["id", "x", "y"]
  }

  /** The names of `fields` that `listed` does not mention, in their own order. */
  function Unlisted(fields: seq<string>, listed: seq<string>): (r: seq<string>)
    ensures forall f :: f in r <==> f in fields && f !in listed
  {
    if |fields| == 0 then []
    else (if fields[0] in listed then [] else [fields[0]]) + Unlisted(fields[1..], listed)
  }

  /** numpy sorts by the given fields, then breaks ties by the other fields in declaration order. */
  function SortKey(full: seq<string>, dim: nat): (key: seq<string>)
    ensures "id" in key
    ensures forall f :: f in key <==> f in full || f in Fields(dim)
  {
    full + Unlisted(Fields(dim), full)
  }

  /** Centroids of a 2-D or 3-D mesh, one row of `dim` coordinates per element. */
  predicate ValidCoords(coords: seq<seq<int>>, dim: nat)
  {
    (dim == 2 || dim == 3) && forall i :: 0 <= i < |coords| ==> |coords[i]| == dim
  }

  predicate ValidKey(key: seq<string>, dim: nat)
  {
    forall k :: 0 <= k < |key| ==> key[k] in Fields(dim)
  }

  /** The value of field `name` in the record of element `e`. */
  function FieldValue(coords: seq<seq<int>>, dim: nat, e: nat, name: string): int
    requires ValidCoords(coords, dim) && e < |coords| && name in Fields(dim)
  {
    if name == "id" then e
    else if name == "x" then coords[e][0]
    else if name == "y" then coords[e][1]
    else coords[e][2]
  }

  /** Record `a` sorts strictly before record `b`: lexicographic over the key fields. */
  function KeyLess(coords: seq<seq<int>>, dim: nat, key: seq<string>, a: nat, b: nat): bool
    requires ValidCoords(coords, dim) && ValidKey(key, dim) && a < |coords| && b < |coords|
  {
    if |key| == 0 then false
    else
      var va := FieldValue(coords, dim, a, key[0]);
      var vb := FieldValue(coords, dim, b, key[0]);
      if va < vb then true
      else if va > vb then false
      else KeyLess(coords, dim, key[1..], a, b)
  }

  lemma {:induction false} KeyLessIrreflexive(coords: seq<seq<int>>, dim: nat, key: seq<string>, a: nat)
    requires ValidCoords(coords, dim) && ValidKey(key, dim) && a < |coords|
    ensures !KeyLess(coords, dim, key, a, a)
  {
    if |key| > 0 { KeyLessIrreflexive(coords, dim, key[1..], a); }
  }

  lemma {:induction false} KeyLessAsymmetric(coords: seq<seq<int>>, dim: nat, key: seq<string>, a: nat, b: nat)
    requires ValidCoords(coords, dim) && ValidKey(key, dim) && a < |coords| && b < |coords|
    requires KeyLess(coords, dim, key, a, b)
    ensures !KeyLess(coords, dim, key, b, a)
  {
    if FieldValue(coords, dim, a, key[0]) == FieldValue(coords, dim, b, key[0]) {
      KeyLessAsymmetric(coords, dim, key[1..], a, b);
    }
  }

  lemma {:induction false} KeyLessTransitive(coords: seq<seq<int>>, dim: nat, key: seq<string>, a: nat, b: nat, c: nat)
    requires ValidCoords(coords, dim) && ValidKey(key, dim) && a < |coords| && b < |coords| && c < |coords|
    requires KeyLess(coords, dim, key, a, b) && KeyLess(coords, dim, key, b, c)
    ensures KeyLess(coords, dim, key, a, c)
  {
    var va, vb, vc := FieldValue(coords, dim, a, key[0]), FieldValue(coords, dim, b, key[0]), FieldValue(coords, dim, c, key[0]);
    if va == vb && vb == vc {
      KeyLessTransitive(coords, dim, key[1..], a, b, c);
    }
  }

  /** With "id" among the key fields, any two different elements are ordered one way or the other. */
  lemma {:induction false} KeyLessTotal(coords: seq<seq<int>>, dim: nat, key: seq<string>, a: nat, b: nat)
    requires ValidCoords(coords, dim) && ValidKey(key, dim) && a < |coords| && b < |coords|
    requires "id" in key && a != b
    ensures KeyLess(coords, dim, key, a, b) || KeyLess(coords, dim, key, b, a)
  {
    if key[0] != "id" && FieldValue(coords, dim, a, key[0]) == FieldValue(coords, dim, b, key[0]) {
      KeyLessTotal(coords, dim, key[1..], a, b);
    }
  }

  /**
   * What the sort needs of its comparison on the ids below `n`: it is
   * asymmetric, and "not after" is transitive.
   */
  ghost predicate SortOrder(less: (nat, nat) -> bool, n: nat)
  {
    && (forall x: nat, y: nat :: x < n && y < n && less(x, y) ==> !less(y, x))
    && (forall x: nat, y: nat, z: nat :: x < n && y < n && z < n && !less(y, x) && !less(z, y) ==> !less(z, x))
  }

  /** The record order on element ids is such an order. */
  lemma KeyOrder(coords: seq<seq<int>>, dim: nat, key: seq<string>, less: (nat, nat) -> bool)
    requires ValidCoords(coords, dim) && ValidKey(key, dim) && "id" in key
    requires forall x: nat, y: nat :: less(x, y) == (x < |coords| && y < |coords| && KeyLess(coords, dim, key, x, y))
    ensures SortOrder(less, |coords|)
  {
    var n := |coords|;
    forall x: nat, y: nat | x < n && y < n && less(x, y) ensures !less(y, x) {
      KeyLessAsymmetric(coords, dim, key, x, y);
    }
    forall x: nat, y: nat, z: nat | x < n && y < n && z < n && !less(y, x) && !less(z, y) ensures !less(z, x) {
      if KeyLess(coords, dim, key, z, x) && x != y && y != z {
        KeyLessTotal(coords, dim, key, x, y);
        KeyLessTransitive(coords, dim, key, z, x, y);
      }
    }
  }

  predicate IdsInRange(s: seq<nat>, n: nat)
  {
    forall k :: 0 <= k < |s| ==> s[k] < n
  }

  /** The first `k` ids are in order: no later one sorts before an earlier one. */
  ghost predicate SortedPrefix(less: (nat, nat) -> bool, s: seq<nat>, k: nat)
    requires k <= |s|
  {
    forall p, q :: 0 <= p < q < k ==> !less(s[q], s[p])
  }

  /**
   * Midway through inserting `s[j]` into the sorted `s[..i+1]`: apart from
   * position `j` the prefix is in order, and nothing after `j` sorts before `s[j]`.
   */
  ghost predicate Inserting(less: (nat, nat) -> bool, s: seq<nat>, i: nat, j: nat)
    requires j <= i < |s|
  {
    && (forall p, q :: 0 <= p < q <= i && p != j && q != j ==> !less(s[q], s[p]))
    && (forall q :: j < q <= i ==> !less(s[q], s[j]))
  }

  /** Swapping `s[j]` with a predecessor it sorts before moves the insertion point down. */
  lemma InsertStep(less: (nat, nat) -> bool, n: nat, s: seq<nat>, i: nat, j: nat)
    requires SortOrder(less, n) && IdsInRange(s, n)
    requires 0 < j <= i < |s| && Inserting(less, s, i, j) && less(s[j], s[j - 1])
    ensures Inserting(less, s[j - 1 := s[j]][j := s[j - 1]], i, j - 1)
  {
    var t := s[j - 1 := s[j]][j := s[j - 1]];
    forall p, q | 0 <= p < q <= i && p != j - 1 && q != j - 1
      ensures !less(t[q], t[p])
    {
      if q == j {
        assert t[q] == s[j - 1] && t[p] == s[p];
      } else if p == j {
        assert t[p] == s[j - 1] && t[q] == s[q];
      }
    }
    forall q | j - 1 < q <= i
      ensures !less(t[q], t[j - 1])
    {
      if q == j {
        assert s[j - 1] < n && s[j] < n;
      }
    }
  }

  /** Once `s[j]` no longer sorts before its predecessor, the prefix `s[..i+1]` is in order. */
  lemma InsertEnd(less: (nat, nat) -> bool, n: nat, s: seq<nat>, i: nat, j: nat)
    requires SortOrder(less, n) && IdsInRange(s, n)
    requires j <= i < |s| && Inserting(less, s, i, j) && (j == 0 || !less(s[j], s[j - 1]))
    ensures SortedPrefix(less, s, i + 1)
  {
    forall p, q | 0 <= p < q <= i
      ensures !less(s[q], s[p])
    {
      if p < j && q > j {
        assert !less(s[j], s[p]) by {
          if p < j - 1 {
            assert s[p] < n && s[j - 1] < n && s[j] < n;
            assert !less(s[j - 1], s[p]);
          }
        }
        assert s[p] < n && s[j] < n && s[q] < n;
      } else if q == j && p < j - 1 {
        assert s[p] < n && s[j - 1] < n && s[j] < n;
        assert !less(s[j - 1], s[p]);
      }
    }
  }

  /** The sort of the element records, done on their ids: an insertion sort in place. */
  method SortIds(less: (nat, nat) -> bool, n: nat, a: array<nat>)
    requires SortOrder(less, n) && IdsInRange(a[..], n)
    modifies a
    ensures IdsInRange(a[..], n)
    ensures multiset(a[..]) == old(multiset(a[..]))
    ensures SortedPrefix(less, a[..], a.Length)
  {
    if a.Length == 0 { return; }
    var i := 1;
    while i < a.Length
      invariant 1 <= i <= a.Length
      invariant IdsInRange(a[..], n)
      invariant multiset(a[..]) == old(multiset(a[..]))
      invariant SortedPrefix(less, a[..], i)
    {
      InsertLast(less, n, a, i);
      i := i + 1;
    }
  }

  /** Moves `a[i]` down into the sorted prefix `a[..i]`. */
  method InsertLast(less: (nat, nat) -> bool, n: nat, a: array<nat>, i: nat)
    requires SortOrder(less, n) && IdsInRange(a[..], n)
    requires i < a.Length && SortedPrefix(less, a[..], i)
    modifies a
    ensures IdsInRange(a[..], n)
    ensures multiset(a[..]) == old(multiset(a[..]))
    ensures SortedPrefix(less, a[..], i + 1)
  {
    var j := i;
    while j > 0 && less(a[j], a[j - 1])
      invariant 0 <= j <= i
      invariant IdsInRange(a[..], n)
      invariant multiset(a[..]) == old(multiset(a[..]))
      invariant Inserting(less, a[..], i, j)
    {
      ghost var s := a[..];
      a[j - 1], a[j] := a[j], a[j - 1];
      assert a[..] == s[j - 1 := s[j]][j := s[j - 1]];
      InsertStep(less, n, s, i, j);
      j := j - 1;
    }
    InsertEnd(less, n, a[..], i, j);
  }

  /** A permutation of `0..n-1`. */
  predicate IsPermutation(m: seq<int>, n: nat)
  {
    multiset(m) == multiset(Range(n))
  }

  lemma PermutationInRange(m: seq<int>, n: nat)
    requires IsPermutation(m, n)
    ensures |m| == n
    ensures forall k :: 0 <= k < |m| ==> 0 <= m[k] < n
    ensures forall v :: 0 <= v < n ==> v in m
  {
    assert |multiset(m)| == |multiset(Range(n))|;
    forall k | 0 <= k < |m| ensures 0 <= m[k] < n {
      assert m[k] in multiset(Range(n));
    }
    forall v | 0 <= v < n ensures v in m {
      assert Range(n)[v] == v;
      assert v in multiset(Range(n));
    }
  }

  lemma {:induction false} RangeCountsOnce(n: nat, v: int)
    ensures multiset(Range(n))[v] <= 1
  {
    if n > 0 {
      assert Range(n) == Range(n - 1) + [n - 1];
      RangeCountsOnce(n - 1, v);
      if v == n - 1 {
        assert n - 1 !in Range(n - 1);
      }
    }
  }

  lemma PermutationDistinct(m: seq<int>, n: nat, p: nat, q: nat)
    requires IsPermutation(m, n) && p < q < |m|
    ensures m[p] != m[q]
  {
    if m[p] == m[q] {
      var v := m[p];
      assert m == m[..p] + [v] + m[p + 1..q] + [v] + m[q + 1..];
      assert multiset(m)[v] >= 2;
      RangeCountsOnce(n, v);
    }
  }

  datatype Ordering = Ordering(ordered: seq<seq<int>>, newToOld: seq<int>)

  /**
   * The map is a permutation of the element ids that lists them in strictly
   * increasing key order, and each ordered centroid is the centroid of the
   * element the map names.
   */
  ghost predicate IsStructuredOrdering(coords: seq<seq<int>>, dim: nat, key: seq<string>, o: Ordering)
    requires ValidCoords(coords, dim) && ValidKey(key, dim)
  {
    && IsPermutation(o.newToOld, |coords|)
    && |o.newToOld| == |coords| && |o.ordered| == |coords|
    && (forall i :: 0 <= i < |coords| ==> 0 <= o.newToOld[i] < |coords| && o.ordered[i] == coords[o.newToOld[i]])
    && (forall p, q :: 0 <= p < q < |coords| ==>
          0 <= o.newToOld[p] < |coords| && 0 <= o.newToOld[q] < |coords| && KeyLess(coords, dim, key, o.newToOld[p], o.newToOld[q]))
  }

  /** Completed keys that are all record fields give a sort key over the record fields. */
  lemma KnownFieldsKey(full: seq<string>, dim: nat)
    requires |Unlisted(full, Fields(dim))| == 0
    ensures forall f :: f in full ==> f in Fields(dim)
    ensures ValidKey(SortKey(full, dim), dim) && "id" in SortKey(full, dim)
  {
    assert Unlisted(full, Fields(dim)) == [];
    var key := SortKey(full, dim);
    forall k | 0 <= k < |key| ensures key[k] in Fields(dim) {
      assert key[k] in key;
    }
  }

  /** The record sort: all element ids, each once, in non-decreasing key order. */
  method SortedRecordIds(coords: seq<seq<int>>, dim: nat, key: seq<string>) returns (ids: seq<nat>)
    requires ValidCoords(coords, dim) && ValidKey(key, dim) && "id" in key
    ensures |ids| == |coords| && multiset(ids) == multiset(Range(|coords|)) && IdsInRange(ids, |coords|)
    ensures forall p, q :: 0 <= p < q < |ids| ==> !KeyLess(coords, dim, key, ids[q], ids[p])
  {
    var less := (x: nat, y: nat) => x < |coords| && y < |coords| && KeyLess(coords, dim, key, x, y);
    KeyOrder(coords, dim, key, less);
    var a := new nat[|coords|](e => e);
    assert a[..] == Range(|coords|);
    SortIds(less, |coords|, a);
    ids := a[..];
    forall p, q | 0 <= p < q < |ids| ensures !KeyLess(coords, dim, key, ids[q], ids[p]) {
      assert !less(ids[q], ids[p]);
    }
  }

  /**
   * `structuredOrdering`: complete the key list, sort the element records by
   * it, and return the reordered coordinates with the map from new positions
   * to old ones.  Only 2-D and 3-D coordinates can be sorted, and only by
   * fields the records have.
   */
  method StructuredOrdering(coords: seq<seq<int>>, dim: nat, order: seq<string>) returns (r: Result<Ordering, OrderError>)
    requires forall i :: 0 <= i < |coords| ==> |coords[i]| == dim
    ensures r.Ok? <==> (dim == 2 || dim == 3) && forall f :: f in CompletedOrder(order, dim) ==> f in Fields(dim)
    ensures r.Err? && dim != 2 && dim != 3 ==> r.error == UnsupportedDimension(dim)
    ensures r.Err? && (dim == 2 || dim == 3) ==>
              r.error.UnknownField? && r.error.name in CompletedOrder(order, dim) && r.error.name !in Fields(dim)
    ensures r.Ok? ==> ValidKey(SortKey(CompletedOrder(order, dim), dim), dim)
                      && IsStructuredOrdering(coords, dim, SortKey(CompletedOrder(order, dim), dim), r.value)
  {
    var full := CompleteOrder(order, dim);
    if dim != 2 && dim != 3 {
      return Err(UnsupportedDimension(dim));
    }
    var unknown := Unlisted(full, Fields(dim));
    if |unknown| > 0 {
      assert unknown[0] in unknown;
      return Err(UnknownField(unknown[0]));
    }
    var o := OrderRecords(coords, dim, full);
    r := Ok(o);
  }

  /** Sorting the records by the completed keys, once they are known to be fields, and gathering them. */
  method OrderRecords(coords: seq<seq<int>>, dim: nat, full: seq<string>) returns (o: Ordering)
    requires ValidCoords(coords, dim) && |Unlisted(full, Fields(dim))| == 0
    ensures ValidKey(SortKey(full, dim), dim) && IsStructuredOrdering(coords, dim, SortKey(full, dim), o)
  {
    var key := SortKey(full, dim);
    KnownFieldsKey(full, dim);
    var ids := SortedRecordIds(coords, dim, key);
    var ordered := seq(|ids|, i requires 0 <= i < |ids| => coords[ids[i]]);
    SortedIdsOrdering(coords, dim, key, ids, ordered);
    o := Ordering(ordered, ids);
  }

  /** Sorted ids that are a permutation of all ids make a structured ordering. */
  lemma SortedIdsOrdering(coords: seq<seq<int>>, dim: nat, key: seq<string>, ids: seq<nat>, ordered: seq<seq<int>>)
    requires ValidCoords(coords, dim) && ValidKey(key, dim) && "id" in key
    requires multiset(ids) == multiset(Range(|coords|)) && IdsInRange(ids, |coords|)
    requires forall p, q :: 0 <= p < q < |ids| ==> !KeyLess(coords, dim, key, ids[q], ids[p])
    requires |ordered| == |ids| && forall i :: 0 <= i < |ids| ==> ordered[i] == coords[ids[i]]
    ensures IsStructuredOrdering(coords, dim, key, Ordering(ordered, ids))
  {
    var m: seq<int> := ids;
    assert multiset(m) == multiset(ids);
    PermutationInRange(m, |coords|);
    forall p, q | 0 <= p < q < |coords|
      ensures KeyLess(coords, dim, key, m[p], m[q])
    {
      PermutationDistinct(m, |coords|, p, q);
      KeyLessTotal(coords, dim, key, m[p], m[q]);
    }
  }

  /**
   * The map does not depend on how the records are sorted: two orderings
   * that both meet the specification are the same, because the element id
   * breaks every tie.
   */
  lemma StructuredOrderingUnique(coords: seq<seq<int>>, dim: nat, key: seq<string>, o1: Ordering, o2: Ordering)
    requires ValidCoords(coords, dim) && ValidKey(key, dim)
    requires IsStructuredOrdering(coords, dim, key, o1) && IsStructuredOrdering(coords, dim, key, o2)
    ensures o1 == o2
  {
    var n := |coords|;
    if n > 0 {
      SameUpTo(coords, dim, key, o1.newToOld, o2.newToOld, n - 1);
    }
    assert o1.newToOld == o2.newToOld;
    assert o1.ordered == o2.ordered;
  }

  lemma {:induction false} SameUpTo(coords: seq<seq<int>>, dim: nat, key: seq<string>, m1: seq<int>, m2: seq<int>, p: nat)
    requires ValidCoords(coords, dim) && ValidKey(key, dim)
    requires IsPermutation(m1, |coords|) && IsPermutation(m2, |coords|)
    requires |m1| == |coords| && |m2| == |coords| && p < |coords|
    requires forall i :: 0 <= i < |coords| ==> 0 <= m1[i] < |coords| && 0 <= m2[i] < |coords|
    requires forall i, j :: 0 <= i < j < |coords| ==> KeyLess(coords, dim, key, m1[i], m1[j])
    requires forall i, j :: 0 <= i < j < |coords| ==> KeyLess(coords, dim, key, m2[i], m2[j])
    ensures forall i :: 0 <= i <= p ==> m1[i] == m2[i]
  {
    if p > 0 {
      SameUpTo(coords, dim, key, m1, m2, p - 1);
    }
    var q1 := MatchAtOrAfter(m1, m2, |coords|, p);
    var q2 := MatchAtOrAfter(m2, m1, |coords|, p);
    SameAt(coords, dim, key, m1, m2, p, q1, q2);
  }

  /** In two permutations that agree below `p`, the id at `p` of the first sits at `p` or later in the second. */
  lemma MatchAtOrAfter(m1: seq<int>, m2: seq<int>, n: nat, p: nat) returns (q: nat)
    requires IsPermutation(m1, n) && IsPermutation(m2, n) && p < |m1| == |m2|
    requires forall i :: 0 <= i < p ==> m1[i] == m2[i]
    ensures p <= q < |m2| && m2[q] == m1[p]
  {
    PermutationInRange(m1, n);
    PermutationInRange(m2, n);
    assert m1[p] in m2;
    var k :| 0 <= k < |m2| && m2[k] == m1[p];
    if k < p {
      PermutationDistinct(m1, n, k, p);
    }
    q := k;
  }

  /**
   * Two strictly sorted id lists that hold each other's id at `p` at `p` or
   * later agree at `p`; the sortedness is needed only between `p` and those places.
   */
  lemma SameAt(coords: seq<seq<int>>, dim: nat, key: seq<string>, m1: seq<int>, m2: seq<int>, p: nat, q1: nat, q2: nat)
    requires ValidCoords(coords, dim) && ValidKey(key, dim)
    requires p <= q1 < |m2| && p <= q2 < |m1| && p < |m1| && p < |m2|
    requires 0 <= m1[p] < |coords| && 0 <= m2[p] < |coords|
    requires m2[q1] == m1[p] && m1[q2] == m2[p]
    requires p < q1 ==> KeyLess(coords, dim, key, m2[p], m2[q1])
    requires p < q2 ==> KeyLess(coords, dim, key, m1[p], m1[q2])
    ensures m1[p] == m2[p]
  {
    if m1[p] != m2[p] {
      KeyLessAsymmetric(coords, dim, key, m2[p], m1[p]);
    }
  }

  /** A 1-D array, or a 2-D array of `rows` each `width` long. */
  datatype NdArray<T> = Flat(items: seq<T>) | Grid(width: nat, rows: seq<seq<T>>) {
    predicate WellShaped() {
      Grid? ==> forall r :: 0 <= r < |rows| ==> |rows[r]| == width
    }

    /** The length of axis 1 (of the expanded row for 1-D data), the one `reorder` gathers along. */
    function Width(): nat {
      if Flat? then |items| else width
    }
  }

  /** Column i of every row is column `m[i]` of that row; an index out of range raises. */
  function Gather<T>(width: nat, rows: seq<seq<T>>, m: seq<int>): (r: Result<seq<seq<T>>, IndexError>)
    requires forall row :: 0 <= row < |rows| ==> |rows[row]| == width
    ensures r.Ok? <==> InBounds(m, width)
    ensures r.Ok? ==> |r.value| == |rows| && forall row :: 0 <= row < |rows| ==> |r.value[row]| == |m|
    ensures r.Ok? ==> forall row, i :: 0 <= row < |rows| && 0 <= i < |m| ==>
              r.value[row][i] == rows[row][NormalizeIndex(m[i], width).value]
  {
    var checked := Take(Range(width), m);
    if checked.Err? then Err(checked.error)
    else Ok(seq(|rows|, row requires 0 <= row < |rows| =>
              seq(|m|, i requires 0 <= i < |m| => rows[row][NormalizeIndex(m[i], width).value])))
  }

  /**
   * `reorder`: gathers the data along its last axis through the map.  1-D
   * data is gathered as a single row and comes back 1-D.
   */
  function Reorder<T>(data: NdArray<T>, m: seq<int>): (r: Result<NdArray<T>, IndexError>)
    requires data.WellShaped()
    ensures r.Ok? <==> InBounds(m, data.Width())
    ensures r.Ok? ==> r.value.WellShaped() && r.value.Flat? == data.Flat? && r.value.Width() == |m|
    ensures r.Ok? && data.Flat? ==> forall i :: 0 <= i < |m| ==>
              r.value.items[i] == data.items[NormalizeIndex(m[i], |data.items|).value]
    ensures r.Ok? && data.Grid? ==> |r.value.rows| == |data.rows| && forall row, i :: 0 <= row < |data.rows| && 0 <= i < |m| ==>
              r.value.rows[row][i] == data.rows[row][NormalizeIndex(m[i], data.width).value]
  {
    match data
    case Flat(items) =>
      var gathered := Gather(|items|, [items], m);
      if gathered.Err? then Err(gathered.error) else Ok(Flat(gathered.value[0]))
    case Grid(width, rows) =>
      var gathered := Gather(width, rows, m);
      if gathered.Err? then Err(gathered.error) else Ok(Grid(|m|, gathered.value))
  }

  /**
   * The map argument of `reorder`: a numpy array of integers, or a Python list
   * or tuple, which `reorder` first turns into an array.
   */
  datatype MapArg = IntArray(ids: seq<int>) | PyList(ids: seq<int>)

  /**
   * `reorder` on the map as passed: an empty list or tuple becomes a float
   * array, which numpy refuses as an index; any other map gathers as `Reorder`.
   */
  function ReorderMapArg<T>(data: NdArray<T>, arg: MapArg): (r: Result<NdArray<T>, IndexError>)
    requires data.WellShaped()
    ensures r.Ok? <==> !(arg.PyList? && |arg.ids| == 0) && InBounds(arg.ids, data.Width())
    ensures arg.PyList? && |arg.ids| == 0 ==> r == Err(NonIntegerIndices)
    ensures r.Ok? ==> r == Reorder(data, arg.ids)
  {
    if arg.PyList? && |arg.ids| == 0 then Err(NonIntegerIndices) else Reorder(data, arg.ids)
  }

  /** An empty integer array reorders every row to nothing; an empty list raises. */
  lemma EmptyMaps<T>(data: NdArray<T>)
    requires data.WellShaped()
    ensures ReorderMapArg(data, IntArray([])).Ok?
    ensures ReorderMapArg(data, IntArray([])).value.Width() == 0
    ensures ReorderMapArg(data, PyList([])).Err?
  {
  }

  /** The map that undoes a permutation: where each old position went. */
  function Inverse(m: seq<int>): (inv: seq<int>)
    requires IsPermutation(m, |m|)
    ensures |inv| == |m|
    ensures forall j :: 0 <= j < |m| ==> 0 <= inv[j] < |m| && m[inv[j]] == j
  {
    PermutationInRange(m, |m|);
    seq(|m|, j requires 0 <= j < |m| => FirstIndex(m, j).value)
  }

  /** Gathering through a permutation and then through its inverse gives the data back. */
  lemma ReorderRoundTrip<T>(data: NdArray<T>, m: seq<int>)
    requires data.WellShaped() && IsPermutation(m, data.Width()) && |m| == data.Width()
    ensures Reorder(data, m).Ok?
    ensures Reorder(Reorder(data, m).value, Inverse(m)) == Ok(data)
  {
    PermutationInRange(m, |m|);
    var mid := Reorder(data, m).value;
    var inv := Inverse(m);
    var back := Reorder(mid, inv).value;
    match data
    case Flat(items) =>
      assert back.items == items;
    case Grid(width, rows) =>
      forall row | 0 <= row < |rows| ensures back.rows[row] == rows[row] {
        assert |back.rows[row]| == width;
      }
      assert back.rows == rows;
  }
}
