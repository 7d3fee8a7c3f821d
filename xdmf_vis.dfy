/**
 * The bookkeeping of the visualisation-file reader: default file names, the
 * time unit, variable-name mangling and the filters over the list of
 * output cycles.  Opening and reading the HDF5 files is not modelled: the
 * cycles and times `loadTimes` would read are inputs.
 */
module XdmfVis {
  import opened Results
  import opened NumpyIndex

  datatype VisError = InvalidTimeUnit(unit: string) | BadIndex(e: IndexError)

  /** The data file: the given name, or `visdump[_<domain>]_data.h5`. */
  function DataFilename(domain: Option<string>, filename: Option<string>): (r: string)
    ensures filename.Some? ==> r == filename.value
    ensures filename.None? && domain.None? ==> r == "visdump_data.h5"
    ensures filename.None? && domain.Some? ==> r == "visdump_" + domain.value + "_data.h5"
  {
    if filename.Some? then filename.value
    else if domain.None? then "visdump_data.h5"
    else "visdump_" + domain.value + "_data.h5"
  }

  /** The mesh file: the given name, or `visdump[_<domain>]_mesh.h5`. */
  function MeshFilename(domain: Option<string>, meshFilename: Option<string>): (r: string)
    ensures meshFilename.Some? ==> r == meshFilename.value
    ensures meshFilename.None? && domain.None? ==> r == "visdump_mesh.h5"
    ensures meshFilename.None? && domain.Some? ==> r == "visdump_" + domain.value + "_mesh.h5"
  {
    if meshFilename.Some? then meshFilename.value
    else if domain.None? then "visdump_mesh.h5"
    else "visdump_" + domain.value + "_mesh.h5"
  }

  /**
   * Default names tell domains apart and never clash: the default data file
   * of one domain is never the default data file of another, nor of no
   * domain, nor any default mesh file.
   */
  lemma DefaultFilenamesDistinct(d1: Option<string>, d2: Option<string>)
    ensures DataFilename(d1, None) == DataFilename(d2, None) ==> d1 == d2
    ensures DataFilename(d1, None) != MeshFilename(d2, None)
  {
    var a := DataFilename(d1, None);
    var b := DataFilename(d2, None);
    if a == b && d1.Some? && d2.Some? {
      assert |d1.value| == |d2.value|;
      var n1 := d1.value;
      var n2 := d2.value;
      forall k | 0 <= k < |n1| ensures n1[k] == n2[k] {
        assert a[8 + k] == n1[k] && b[8 + k] == n2[k];
      }
      assert n1 == n2;
    }
    assert d1.None? != d2.None? ==> |a| != |b|;
    var m := MeshFilename(d2, None);
    assert a[|a| - 7] == 'd' && m[|m| - 7] == 'm';
  }

  /** The multiplier from years to the requested unit; any other unit is a ValueError. */
  function TimeFactor(unit: string): (r: Result<real, VisError>)
    ensures r.Ok? <==> unit in {"yr", "noleap", "d", "hr", "s"}
    ensures r.Err? ==> r.error == InvalidTimeUnit(unit)
    ensures r.Ok? ==> r.value >= 1.0
    ensures unit == "yr" ==> r == Ok(1.0)
  {
    if unit == "yr" then Ok(1.0)
    else if unit == "noleap" then Ok(365.25 / 365.0)
    else if unit == "d" then Ok(365.25)
    else if unit == "hr" then Ok(365.25 * 24.0)
    else if unit == "s" then Ok(365.25 * 24.0 * 3600.0)
    else Err(InvalidTimeUnit(unit))
  }

  /** The units agree with each other: a day is 24 hours, an hour 3600 seconds, a year 365.25 days. */
  lemma TimeFactorsAgree()
    ensures TimeFactor("s").value == 3600.0 * TimeFactor("hr").value
    ensures TimeFactor("hr").value == 24.0 * TimeFactor("d").value
    ensures TimeFactor("d").value == 365.25 * TimeFactor("yr").value
    ensures 365.0 * TimeFactor("noleap").value == TimeFactor("d").value
  {
  }

  /** Python truthiness of the domain: `None` and `''` are false. */
  predicate HasDomain(domain: Option<string>) { domain.Some? && domain.value != "" }

  /**
   * `variable`: prefix `<domain>-` when there is a domain and the name has no
   * '-', then append `.cell.0` when the name has no '.'.
   */
  function VariableName(domain: Option<string>, vname: string): (r: string)
    ensures '.' in r
    ensures HasDomain(domain) ==> '-' in r
    ensures var p := if HasDomain(domain) && '-' !in vname then domain.value + "-" + vname else vname;
            r == (if '.' in p then p else p + ".cell.0")
  {
    var prefixed := if HasDomain(domain) && '-' !in vname then domain.value + "-" + vname else vname;
    assert HasDomain(domain) && '-' !in vname ==> prefixed[|domain.value|] == '-';
    if '.' !in prefixed then
      var r := prefixed + ".cell.0";
      assert r[|prefixed|] == '.';
      r
    else prefixed
  }

  /** A name that already has a '-' and a '.' is left as it is. */
  lemma VariableNameKeepsMangled(domain: Option<string>, vname: string)
    requires '-' in vname && '.' in vname
    ensures VariableName(domain, vname) == vname
  {
  }

  /** Mangling a mangled name changes nothing. */
  lemma VariableNameIdempotent(domain: Option<string>, vname: string)
    ensures VariableName(domain, VariableName(domain, vname)) == VariableName(domain, vname)
  {
    var once := VariableName(domain, vname);
    if HasDomain(domain) {
      VariableNameKeepsMangled(domain, once);
    }
  }

  /** The index of the first stored cycle equal to each requested one; a missing cycle raises. */
  function CycleIndices<T(==)>(cycles: seq<T>, requested: seq<T>): (r: Result<seq<int>, VisError>)
    ensures r.Ok? <==> forall k :: 0 <= k < |requested| ==> requested[k] in cycles
    ensures r.Ok? ==> |r.value| == |requested|
    ensures r.Ok? ==> forall k :: 0 <= k < |requested| ==>
              0 <= r.value[k] < |cycles| && cycles[r.value[k]] == requested[k]
              && requested[k] !in cycles[..r.value[k]]
  {
    if |requested| == 0 then Ok([])
    else
      var first := FirstIndex(cycles, requested[0]);
      if first.None? then Err(BadIndex(IndexOutOfBounds(0, 0)))
      else
        var rest := CycleIndices(cycles, requested[1..]);
        if rest.Err? then
          assert requested[1..][0] !in cycles || exists k :: 1 <= k < |requested| && requested[k] !in cycles;
          rest
        else Ok([first.value] + rest.value)
  }

  /** A value as Python compares it: an `int` never equals a `str`. */
  datatype PyValue = PyInt(i: int) | PyStr(s: string)

  /**
   * The cycle lookup as written: `loadTimes` keeps the cycles as the HDF5
   * group names, which are strings, while `filterCycles` looks up integers.
   */
  function CycleIndicesAsWritten(cycleNames: seq<string>, requested: seq<int>): Result<seq<int>, VisError>
  {
    CycleIndices(seq(|cycleNames|, k requires 0 <= k < |cycleNames| => PyStr(cycleNames[k])),
                 seq(|requested|, k requires 0 <= k < |requested| => PyInt(requested[k])))
  }

  /** As written, asking for any cycle at all raises, even one that was written. */
  lemma CycleIndicesAsWrittenAlwaysFails(cycleNames: seq<string>, requested: seq<int>)
    requires |requested| > 0
    ensures CycleIndicesAsWritten(cycleNames, requested).Err?
  {
    var names := seq(|cycleNames|, k requires 0 <= k < |cycleNames| => PyStr(cycleNames[k]));
    var wanted := seq(|requested|, k requires 0 <= k < |requested| => PyInt(requested[k]));
    assert wanted[0] !in names;
  }

  /** The concrete case: cycle 10 was written (group "10") and asking for it still raises. */
  lemma CycleTenNotFoundAsWritten()
    ensures CycleIndicesAsWritten(["0", "10"], [10]).Err?
    ensures CycleIndices([0, 10], [10]) == Ok([1])
  {
    CycleIndicesAsWrittenAlwaysFails(["0", "10"], [10]);
    var stored: seq<int> := [0, 10];
    var wanted: seq<int> := [10];
    FirstIndexUnique(stored, 10, 1);
    assert wanted[1..] == [];
    var r := CycleIndices(stored, wanted);
    assert r.Ok? && |r.value| == 1;
    assert stored[r.value[0]] == 10 && 10 !in stored[..r.value[0]];
    assert r.value[0] == 1;
    assert r.value == [1];
  }

  /** What `filterIndices` accepts: one index, a list of indices, or a slice. */
  datatype Indexer = AtIndex(i: int) | AtIndices(indices: seq<int>)
                   | AtSlice(start: Option<int>, stop: Option<int>, step: Option<int>)

  /** What `filterCycles` accepts: one cycle or a list of cycles. */
  datatype CycleRequest = OneCycle(c: int) | CycleList(cs: seq<int>)

  function Requested(request: CycleRequest): (r: seq<int>)
    ensures request.OneCycle? ==> r == [request.c]
    ensures request.CycleList? ==> r == request.cs
  {
    match request
    case OneCycle(c) => [c]
    case CycleList(cs) => cs
  }

  /** The positions an indexer selects out of `n`, or the error it raises. */
  function Selection(indexer: Indexer, n: nat): (r: Result<seq<int>, IndexError>)
    ensures r.Ok? ==> InBounds(r.value, n)
    ensures indexer.AtIndices? ==> (r.Ok? <==> InBounds(indexer.indices, n)) && (r.Ok? ==> r.value == indexer.indices)
    ensures indexer.AtIndex? ==> (r.Ok? <==> -(n as int) <= indexer.i < n) && (r.Ok? ==> r.value == [indexer.i])
    ensures indexer.AtSlice? ==> (r.Err? <==> indexer.step == Some(0))
                                 && r == SliceIndices(n, indexer.start, indexer.stop, indexer.step)
  {
    match indexer
    case AtIndex(i) => if -(n as int) <= i < n then Ok([i]) else Err(IndexOutOfBounds(i, n))
    case AtIndices(indices) =>
      var checked := Take(Range(n), indices);
      if checked.Err? then Err(checked.error) else Ok(indices)
    case AtSlice(start, stop, step) => SliceIndices(n, start, stop, step)
  }

  class VisFile {
    var directory: string
    var domain: Option<string>
    var filename: string
    var meshFilename: string
    var timeUnit: string
    var timeFactor: real
    /** Cycle numbers, in increasing order after loading. */
    var cycles: seq<int>
    /** The time of each cycle, in `timeUnit`. */
    var times: seq<real>

    /** Cycles and times stay aligned. */
    ghost predicate Valid()
      reads this
    {
      |cycles| == |times|
    }

    /** The set-up once the time unit is known to be valid; `NewVisFile` raises for any other unit. */
    constructor (directory: string, domain: Option<string>, filename: Option<string>,
                 meshFilename: Option<string>, timeUnit: string, cycles: seq<int>, times: seq<real>)
      requires TimeFactor(timeUnit).Ok? && |cycles| == |times|
      ensures Valid()
      ensures this.directory == directory && this.domain == domain
      ensures this.filename == DataFilename(domain, filename)
      ensures this.meshFilename == MeshFilename(domain, meshFilename)
      ensures this.timeUnit == timeUnit && this.timeFactor == TimeFactor(timeUnit).value
      ensures this.cycles == cycles && this.times == times
    {
      this.directory := directory;
      this.domain := domain;
      this.filename := DataFilename(domain, filename);
      this.meshFilename := MeshFilename(domain, meshFilename);
      this.timeUnit := timeUnit;
      this.timeFactor := TimeFactor(timeUnit).value;
      this.cycles := cycles;
      this.times := times;
    }

    /**
     * `filterIndices`: keep the cycles and times at the selected positions, in
     * the order and with the repeats the indexer gives; a bad index raises
     * and keeps everything.
     */
    method FilterIndices(indexer: Indexer) returns (r: Outcome<VisError>)
      requires Valid()
      modifies this
      ensures Valid()
      ensures directory == old(directory) && domain == old(domain) && filename == old(filename)
      ensures meshFilename == old(meshFilename) && timeUnit == old(timeUnit) && timeFactor == old(timeFactor)
      ensures r.Pass? <==> Selection(indexer, |old(cycles)|).Ok?
      ensures r.Fail? ==> cycles == old(cycles) && times == old(times)
      ensures r.Pass? ==> var sel := Selection(indexer, |old(cycles)|).value;
                          Take(old(cycles), sel) == Ok(cycles) && Take(old(times), sel) == Ok(times)
    {
      var sel := Selection(indexer, |cycles|);
      if sel.Err? {
        return Fail(BadIndex(sel.error));
      }
      var newCycles := Take(cycles, sel.value);
      var newTimes := Take(times, sel.value);
      cycles := newCycles.value;
      times := newTimes.value;
      r := Pass;
    }

    /**
     * `filterCycles`, comparing cycle numbers as numbers: afterwards the cycles
     * are exactly the requested ones, in the requested order and with
     * repeats, and each keeps the time of the first stored copy of that cycle.
     * A cycle that is not stored raises and keeps everything.
     */
    method FilterCycles(request: CycleRequest) returns (r: Outcome<VisError>)
      requires Valid()
      modifies this
      ensures Valid()
      ensures directory == old(directory) && domain == old(domain) && filename == old(filename)
      ensures meshFilename == old(meshFilename) && timeUnit == old(timeUnit) && timeFactor == old(timeFactor)
      ensures r.Pass? <==> forall c :: c in Requested(request) ==> c in old(cycles)
      ensures r.Fail? ==> cycles == old(cycles) && times == old(times)
      ensures r.Pass? ==> cycles == Requested(request)
      ensures r.Pass? ==> forall k :: 0 <= k < |times| ==>
                times[k] == old(times)[FirstIndex(old(cycles), Requested(request)[k]).value]
    {
      var wanted := Requested(request);
      var inds := CycleIndices(cycles, wanted);
      if inds.Err? {
        ghost var missing := MissingCycle(cycles, wanted);
        return Fail(inds.error);
      }
      CycleSelection(cycles, times, wanted, inds.value);
      r := FilterIndices(AtIndices(inds.value));
    }
  }

  /** When the lookup fails, some requested cycle is not stored. */
  lemma MissingCycle<T>(cycles: seq<T>, wanted: seq<T>) returns (c: T)
    requires CycleIndices(cycles, wanted).Err?
    ensures c in wanted && c !in cycles
  {
    var k :| 0 <= k < |wanted| && wanted[k] !in cycles;
    c := wanted[k];
  }

  /**
   * Selecting the first positions of the requested cycles is in bounds, gives
   * back the requested cycles, and pairs each with the time of its first copy.
   */
  lemma CycleSelection<T>(cycles: seq<T>, times: seq<real>, wanted: seq<T>, inds: seq<int>)
    requires |cycles| == |times| && CycleIndices(cycles, wanted) == Ok(inds)
    ensures Selection(AtIndices(inds), |cycles|) == Ok(inds)
    ensures Take(cycles, inds) == Ok(wanted)
    ensures Take(times, inds).Ok? && forall k :: 0 <= k < |wanted| ==>
              Take(times, inds).value[k] == times[FirstIndex(cycles, wanted[k]).value]
  {
    assert InBounds(inds, |cycles|);
    PickedCycles(cycles, wanted, inds);
    PairedTimes(cycles, times, wanted, inds);
  }

  lemma PickedCycles<T>(cycles: seq<T>, wanted: seq<T>, inds: seq<int>)
    requires CycleIndices(cycles, wanted) == Ok(inds)
    ensures Take(cycles, inds) == Ok(wanted)
  {
    assert InBounds(inds, |cycles|);
    var picked := Take(cycles, inds).value;
    forall k | 0 <= k < |wanted| ensures picked[k] == wanted[k] {
      assert NormalizeIndex(inds[k], |cycles|).value == inds[k];
    }
    assert picked == wanted;
  }

  lemma PairedTimes<T>(cycles: seq<T>, times: seq<real>, wanted: seq<T>, inds: seq<int>)
    requires |cycles| == |times| && CycleIndices(cycles, wanted) == Ok(inds)
    ensures Take(times, inds).Ok? && forall k :: 0 <= k < |wanted| ==>
              Take(times, inds).value[k] == times[FirstIndex(cycles, wanted[k]).value]
  {
    forall k | 0 <= k < |wanted| ensures FirstIndex(cycles, wanted[k]) == Some(inds[k]) {
      FirstIndexUnique(cycles, wanted[k], inds[k]);
    }
    assert InBounds(inds, |times|);
    var paired := Take(times, inds).value;
    forall k | 0 <= k < |wanted| ensures paired[k] == times[inds[k]] {
      assert NormalizeIndex(inds[k], |times|).value == inds[k];
    }
  }

  /**
   * `VisFile(...)`: an unknown time unit raises ValueError before anything is
   * stored; otherwise the file is set up with the default names and the
   * loaded cycles and times.
   */
  method NewVisFile(directory: string, domain: Option<string>, filename: Option<string>,
                    meshFilename: Option<string>, timeUnit: string, cycles: seq<int>, times: seq<real>)
    returns (r: Result<VisFile, VisError>)
    requires |cycles| == |times|
    ensures r.Err? <==> TimeFactor(timeUnit).Err?
    ensures r.Err? ==> r.error == InvalidTimeUnit(timeUnit)
    ensures r.Ok? ==> && fresh(r.value) && r.value.Valid()
                      && r.value.directory == directory && r.value.domain == domain
                      && r.value.timeUnit == timeUnit
                      && r.value.filename == DataFilename(domain, filename)
                      && r.value.meshFilename == MeshFilename(domain, meshFilename)
                      && r.value.timeFactor == TimeFactor(timeUnit).value
                      && r.value.cycles == cycles && r.value.times == times
  {
    var factor := TimeFactor(timeUnit);
    if factor.Err? {
      return Err(factor.error);
    }
    var f := new VisFile(directory, domain, filename, meshFilename, timeUnit, cycles, times);
    r := Ok(f);
  }

  /** The first index of `x` is the only index of `x` with no earlier copy. */
  lemma FirstIndexUnique<T>(s: seq<T>, x: T, i: int)
    requires 0 <= i < |s| && s[i] == x && x !in s[..i]
    ensures FirstIndex(s, x) == Some(i)
  {
  }
}
