/** The initial-elevation evaluator: the elevation of the top face of a column. */
module InitialElevation {
  import opened Results
  import opened Keys
  import opened ColumnId
  import ColumnEvaluator

  datatype ElevationKeys = ElevationKeys(domain: string, columnId: int, bpKey: string)

  /**
   * The constructor: the column id is the integer after the last '_' of the
   * domain and the base-porosity key lives on `column_<id>`.  Unlike the
   * subsidence evaluator, it adds no dependency.
   */
  function Configure(ops: KeyOps, myKey: string): (r: Result<ElevationKeys, StoiError>)
    ensures r.Ok? <==> ColumnIdOf(ops.getDomain(myKey)).Ok?
    ensures r.Err? ==> r.error == ColumnIdOf(ops.getDomain(myKey)).error
    ensures r.Ok? ==>
      && r.value.domain == ops.getDomain(myKey)
      && Ok(r.value.columnId) == ColumnIdOf(r.value.domain)
      && r.value.bpKey == ops.getKey(ColumnDomain(r.value.columnId), "base_porosity")
  {
    var domain := ops.getDomain(myKey);
    var id := ColumnIdOf(domain);
    if id.Err? then Err(id.error)
    else Ok(ElevationKeys(domain, id.value, ops.getKey(ColumnDomain(id.value), "base_porosity")))
  }

  class InitialElevationEvaluator {
    var myKey: string
    var keys: ElevationKeys
    /** The base evaluator's dependencies; this constructor adds none. */
    var dependencies: set<string>
    /** Declared without an initialiser and set by no constructor: its first value is unspecified. */
    var updatedOnce: bool

    /** Stores the keys derived from `myKey`; `NewInitialElevationEvaluator` derives them or raises. */
    constructor (myKey: string, keys: ElevationKeys, dependencies: set<string>, updatedOnce: bool)
      ensures this.myKey == myKey && this.keys == keys
      ensures this.dependencies == dependencies && this.updatedOnce == updatedOnce
    {
      this.myKey := myKey;
      this.keys := keys;
      this.dependencies := dependencies;
      this.updatedOnce := updatedOnce;
    }

    /** `EvaluateField_`: cell 0 gets the z of face 0's centroid in the `column_<id>` mesh. */
    method EvaluateField(result: array<real>, topZ: real)
      requires result.Length >= 1
      modifies result
      ensures result[0] == topZ
      ensures forall c :: 1 <= c < result.Length ==> result[c] == old(result[c])
    {
      result[0] := topZ;
    }

    /** `HasFieldChanged`: the same one-shot rule as the subsidence evaluator's. */
    method HasFieldChanged(baseChanged: bool, result: array<real>, topZ: real) returns (changed: bool)
      requires result.Length >= 1
      modifies this, result
      ensures myKey == old(myKey) && keys == old(keys) && dependencies == old(dependencies)
      ensures var s := ColumnEvaluator.Step(old(updatedOnce), baseChanged);
              updatedOnce == s.updatedOnce && changed == s.changed
      ensures !old(updatedOnce) ==> result[0] == topZ
                                    && forall c :: 1 <= c < result.Length ==> result[c] == old(result[c])
      ensures old(updatedOnce) ==> unchanged(result)
    {
      changed := baseChanged;
      if !updatedOnce {
        EvaluateField(result, topZ);
        updatedOnce := true;
        return true;
      }
    }

    /** `EnsureCompatibility`, with the field's mesh presence and the parameter list as inputs. */
    function EnsureCompatibility(plist: ParameterList, hasMesh: bool)
      : (r: Result<ColumnEvaluator.CompatibilityPlan, ColumnEvaluator.CompatibilityError>)
      reads this
      ensures r == ColumnEvaluator.EnsureCompatibility(myKey, plist, hasMesh, dependencies)
      ensures myKey == "" ==> r.Err?
      ensures r.Ok? ==> r.value.recurseInto == (if hasMesh then dependencies else {})
      ensures r.Ok? && "visualize " + myKey !in plist ==> r.value.visualize
      ensures r.Ok? && "checkpoint " + myKey !in plist ==> !r.value.checkpoint
      ensures r.Ok? ==> GetBoolOr(plist, "visualize " + myKey, true) == Ok(r.value.visualize)
                        && GetBoolOr(plist, "checkpoint " + myKey, false) == Ok(r.value.checkpoint)
    {
      ColumnEvaluator.EnsureCompatibility(myKey, plist, hasMesh, dependencies)
    }
  }

  /** Construction: `std::stoi` of the domain suffix either yields the column id or throws. */
  method NewInitialElevationEvaluator(ops: KeyOps, myKey: string, dependencies: set<string>, updatedOnce: bool)
    returns (r: Result<InitialElevationEvaluator, StoiError>)
    ensures r.Ok? <==> ColumnIdOf(ops.getDomain(myKey)).Ok?
    ensures r.Err? ==> r.error == ColumnIdOf(ops.getDomain(myKey)).error
    ensures r.Ok? ==> && fresh(r.value) && r.value.myKey == myKey && r.value.updatedOnce == updatedOnce
                      && r.value.keys == Configure(ops, myKey).value && r.value.dependencies == dependencies
  {
    var k := Configure(ops, myKey);
    if k.Err? {
      r := Err(k.error);
    } else {
      var e := new InitialElevationEvaluator(myKey, k.value, dependencies, updatedOnce);
      r := Ok(e);
    }
  }
}
