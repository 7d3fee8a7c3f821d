/**
 * The parts of numpy indexing the visualisation reader relies on: integer
 * indices that may count from the end, integer-list ("fancy") indexing, and
 * Python slices.
 */
module NumpyIndex {
  import opened Results

  datatype IndexError =
    | IndexOutOfBounds(index: int, size: nat)
    | ZeroSliceStep
    | NonIntegerIndices   // an index array of floats, such as `np.array([])`

  /** Index `i` on an axis of length `n`: negative indices count from the end. */
  function NormalizeIndex(i: int, n: nat): (r: Result<nat, IndexError>)
    ensures r.Ok? <==> -(n as int) <= i < n
    ensures r.Ok? ==> r.value < n && r.value == (if i < 0 then i + n else i)
    ensures r.Err? ==> r.error == IndexOutOfBounds(i, n)
  {
    if -(n as int) <= i < n then Ok(if i < 0 then i + n else i) else Err(IndexOutOfBounds(i, n))
  }

  predicate InBounds(indices: seq<int>, n: nat)
  {
    forall k :: 0 <= k < |indices| ==> -(n as int) <= indices[k] < n
  }

  /** `s[indices]` for a list of integers: one element per index, in the order given. */
  function Take<T>(s: seq<T>, indices: seq<int>): (r: Result<seq<T>, IndexError>)
    ensures r.Ok? <==> InBounds(indices, |s|)
    ensures r.Ok? ==> |r.value| == |indices|
    ensures r.Ok? ==> forall k :: 0 <= k < |indices| ==> r.value[k] == s[NormalizeIndex(indices[k], |s|).value]
  {
    if |indices| == 0 then Ok([])
    else
      var first := NormalizeIndex(indices[0], |s|);
      if first.Err? then Err(first.error)
      else
        var rest := Take(s, indices[1..]);
        if rest.Err? then
          assert !InBounds(indices[1..], |s|);
          Err(rest.error)
        else Ok([s[first.value]] + rest.value)
  }

  /** `start, start + step, ...` while short of `stop` in the direction of `step`. */
  function Progression(start: int, stop: int, step: int): (r: seq<int>)
    requires step != 0
    ensures |r| > 0 ==> r[0] == start
    ensures forall k :: 0 <= k < |r| - 1 ==> r[k + 1] == r[k] + step
    ensures forall k :: 0 <= k < |r| ==> if step > 0 then start <= r[k] < stop else stop < r[k] <= start
    ensures |r| == 0 <==> (if step > 0 then start >= stop else start <= stop)
    ensures |r| > 0 ==> if step > 0 then r[|r| - 1] + step >= stop else r[|r| - 1] + step <= stop
    decreases if step > 0 then stop - start else start - stop
  {
    if (step > 0 && start < stop) || (step < 0 && start > stop) then
      [start] + Progression(start + step, stop, step)
    else []
  }

  /** A slice bound, adjusted as Python adjusts it for a sequence of length `n`. */
  function AdjustBound(bound: int, n: nat, step: int): (b: int)
    requires step != 0
    ensures if step > 0 then 0 <= b <= n else -1 <= b <= n - 1
    ensures 0 <= bound < n ==> b == bound
    ensures -(n as int) <= bound < 0 ==> b == bound + n
    ensures bound < -(n as int) ==> b == (if step > 0 then 0 else -1)
    ensures bound >= n ==> b == (if step > 0 then n else n - 1)
  {
    if bound < 0 then
      if bound + n < 0 then (if step < 0 then -1 else 0) else bound + n
    else if bound >= n then (if step < 0 then n - 1 else n)
    else bound
  }

  /** Where a slice starts: the adjusted `start`, or the end the step walks away from. */
  function SliceStart(n: nat, start: Option<int>, step: int): int
    requires step != 0
  {
    if start.Some? then AdjustBound(start.value, n, step) else if step < 0 then n - 1 else 0
  }

  /** Where a slice stops: the adjusted `stop`, or just past the end the step walks towards. */
  function SliceStop(n: nat, stop: Option<int>, step: int): int
    requires step != 0
  {
    if stop.Some? then AdjustBound(stop.value, n, step) else if step < 0 then -1 else n
  }

  /** The indices `s[start:stop:step]` selects from a sequence of length `n`. */
  function SliceIndices(n: nat, start: Option<int>, stop: Option<int>, step: Option<int>): (r: Result<seq<int>, IndexError>)
    ensures r.Err? <==> step == Some(0)
    ensures r.Err? ==> r.error == ZeroSliceStep
    ensures r.Ok? ==> var st := if step.Some? then step.value else 1;
                      r.value == Progression(SliceStart(n, start, st), SliceStop(n, stop, st), st)
    ensures r.Ok? ==> forall k :: 0 <= k < |r.value| ==> 0 <= r.value[k] < n
    ensures r.Ok? ==> forall k :: 0 <= k < |r.value| - 1 ==> r.value[k + 1] - r.value[k] == (if step.Some? then step.value else 1)
  {
    var st := if step.Some? then step.value else 1;
    if st == 0 then Err(ZeroSliceStep)
    else
      Ok(Progression(SliceStart(n, start, st), SliceStop(n, stop, st), st))
  }

  function Range(n: nat): (r: seq<int>)
    ensures |r| == n && forall k :: 0 <= k < n ==> r[k] == k
  {
    seq(n, k => k)
  }

  /** `s[:]` keeps every index in order, and `s[::-1]` takes them all backwards. */
  lemma FullSlices(n: nat)
    ensures SliceIndices(n, None, None, None) == Ok(Range(n))
    ensures SliceIndices(n, None, None, Some(-1)).Ok?
    ensures var r := SliceIndices(n, None, None, Some(-1)).value;
            |r| == n && forall k :: 0 <= k < n ==> r[k] == n - 1 - k
  {
    ProgressionCount(0, n, 1);
    assert Progression(0, n, 1) == Range(n);
    ProgressionCount(n - 1, -1, -1);
  }

  /** A progression from `start` ends after exactly `|stop - start|` steps of one. */
  lemma {:induction false} ProgressionCount(start: int, stop: int, step: int)
    requires step == 1 || step == -1
    ensures var r := Progression(start, stop, step);
            |r| == (if step > 0 then (if stop > start then stop - start else 0)
                    else (if start > stop then start - stop else 0))
            && forall k :: 0 <= k < |r| ==> r[k] == (if step > 0 then start + k else start - k)
    decreases if step > 0 then stop - start else start - stop
  {
    if (step > 0 && start < stop) || (step < 0 && start > stop) {
      ProgressionCount(start + step, stop, step);
    }
  }

  /** Where `x` first occurs in `s`, if anywhere. */
  function FirstIndex<T(==)>(s: seq<T>, x: T): (r: Option<nat>)
    ensures r.None? <==> x !in s
    ensures r.Some? ==> r.value < |s| && s[r.value] == x && x !in s[..r.value]
  {
    if |s| == 0 then None
    else if s[0] == x then Some(0)
    else
      var r := FirstIndex(s[1..], x);
      if r.None? then None
      else
        assert s[..r.value + 1] == [s[0]] + s[1..][..r.value];
        Some(r.value + 1)
  }
}
