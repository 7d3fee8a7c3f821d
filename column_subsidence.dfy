/**
 * The column-subsidence evaluator: how far the top of a column has sunk below
 * its initial elevation, never negative.
 */
module ColumnSubsidence {
  import opened Results
  import opened Keys
  import opened ColumnId
  import ColumnEvaluator

  /** The keys the constructor derives from the evaluated key. */
  datatype SubsidenceKeys = SubsidenceKeys(
    domain: string, columnId: int, bpKey: string, initElevKey: string, dependencies: set<string>)

  /**
   * The initial-elevation key as the constructor writes it: the text
   * "surface_column_<id>" is streamed into the wrong stream, so the key is
   * built from an empty domain.
   */
  function InitElevKeyAsWritten(ops: KeyOps, columnId: int): string
  {
    ops.getKey("", "initial_elevation")
  }

  /** The initial-elevation key the constructor evidently means: the surface column of the same id. */
  function InitElevKey(ops: KeyOps, columnId: int): string
  {
    ops.getKey(SurfaceColumnDomain(columnId), "initial_elevation")
  }

  /**
   * The constructor as written: the column id is the integer after the last
   * '_' of the domain; the base-porosity key lives on `column_<id>`; the
   * initial-elevation key is built from the empty stream; both keys join the
   * dependencies.  An id `std::stoi` cannot read raises.
   */
  function Configure(ops: KeyOps, myKey: string, dependencies: set<string>): (r: Result<SubsidenceKeys, StoiError>)
    ensures r.Ok? <==> ColumnIdOf(ops.getDomain(myKey)).Ok?
    ensures r.Err? ==> r.error == ColumnIdOf(ops.getDomain(myKey)).error
    ensures r.Ok? ==>
      && r.value.domain == ops.getDomain(myKey)
      && Ok(r.value.columnId) == ColumnIdOf(r.value.domain)
      && r.value.bpKey == ops.getKey(ColumnDomain(r.value.columnId), "base_porosity")
      && r.value.initElevKey == ops.getKey("", "initial_elevation")
      && r.value.dependencies == dependencies + {r.value.bpKey, r.value.initElevKey}
  {
    var domain := ops.getDomain(myKey);
    var id := ColumnIdOf(domain);
    if id.Err? then Err(id.error)
    else
      var bpKey := ops.getKey(ColumnDomain(id.value), "base_porosity");
      var initElevKey := InitElevKeyAsWritten(ops, id.value);
      Ok(SubsidenceKeys(domain, id.value, bpKey, initElevKey, dependencies + {bpKey} + {initElevKey}))
  }

  /**
   * The constructor as evidently intended: the same, except that the
   * initial-elevation key lives on `surface_column_<id>`.
   */
  function ConfigureIntended(ops: KeyOps, myKey: string, dependencies: set<string>): (r: Result<SubsidenceKeys, StoiError>)
    ensures r.Ok? <==> Configure(ops, myKey, dependencies).Ok?
    ensures r.Err? ==> r.error == ColumnIdOf(ops.getDomain(myKey)).error
    ensures r.Ok? ==> var w := Configure(ops, myKey, dependencies).value;
      && r.value.domain == w.domain && r.value.columnId == w.columnId && r.value.bpKey == w.bpKey
      && r.value.initElevKey == ops.getKey(SurfaceColumnDomain(r.value.columnId), "initial_elevation")
      && r.value.dependencies == dependencies + {r.value.bpKey, r.value.initElevKey}
  {
    var domain := ops.getDomain(myKey);
    var id := ColumnIdOf(domain);
    if id.Err? then Err(id.error)
    else
      var bpKey := ops.getKey(ColumnDomain(id.value), "base_porosity");
      var initElevKey := InitElevKey(ops, id.value);
      Ok(SubsidenceKeys(domain, id.value, bpKey, initElevKey, dependencies + {bpKey} + {initElevKey}))
  }

  /**
   * As written, every column's evaluator reads the same initial-elevation
   * field, whatever its id: two different columns get the same key and the
   * same extra dependency.
   */
  lemma InitElevKeyAsWrittenIgnoresColumn(ops: KeyOps, prefix: string, a: int, b: int)
    requires IntMin <= a <= IntMax && IntMin <= b <= IntMax && a != b
    ensures ColumnIdOf(prefix + "_" + IntToString(a)) != ColumnIdOf(prefix + "_" + IntToString(b))
    ensures InitElevKeyAsWritten(ops, a) == InitElevKeyAsWritten(ops, b)
  {
    ColumnIdOfSuffix(prefix, a);
    ColumnIdOfSuffix(prefix, b);
  }

  /**
   * As written, the constructors of two columns with different ids, each
   * reading its own base porosity, depend on one and the same
   * initial-elevation key.
   */
  lemma ConfigureSharesInitElevKey(ops: KeyOps, key1: string, key2: string, deps: set<string>)
    requires Configure(ops, key1, deps).Ok? && Configure(ops, key2, deps).Ok?
    requires ColumnIdOf(ops.getDomain(key1)) != ColumnIdOf(ops.getDomain(key2))
    ensures Configure(ops, key1, deps).value.columnId != Configure(ops, key2, deps).value.columnId
    ensures Configure(ops, key1, deps).value.initElevKey == Configure(ops, key2, deps).value.initElevKey
  {
  }

  /** The corrected key names the surface column whose id is this column's id. */
  lemma InitElevKeyNamesSameColumn(ops: KeyOps, myKey: string, dependencies: set<string>)
    requires ConfigureIntended(ops, myKey, dependencies).Ok?
    ensures var k := ConfigureIntended(ops, myKey, dependencies).value;
            exists d :: k.initElevKey == ops.getKey(d, "initial_elevation")
                        && ColumnIdOf(d) == ColumnIdOf(ops.getDomain(myKey))
  {
    var k := ConfigureIntended(ops, myKey, dependencies).value;
    var d := SurfaceColumnDomain(k.columnId);
    ColumnIdOfSurfaceColumnDomain(k.columnId);
    assert k.initElevKey == ops.getKey(d, "initial_elevation") && ColumnIdOf(d) == ColumnIdOf(ops.getDomain(myKey));
  }

  /** The subsidence of the column top: `max(initial elevation - top z, 0)`. */
  function Subsidence(initElev: real, topZ: real): (r: real)
    ensures r >= 0.0 && r >= initElev - topZ
    ensures r == 0.0 || r == initElev - topZ
  {
    if initElev - topZ > 0.0 then initElev - topZ else 0.0
  }

  class ColumnSubsidenceEvaluator {
    var myKey: string
    var keys: SubsidenceKeys
    /** Not initialised by the constructor shown; its first value is taken as given. */
    var updatedOnce: bool

    /**
     * Stores the keys derived from `myKey`; `NewColumnSubsidenceEvaluator` derives
     * them (with the corrected initial-elevation key) or raises.
     */
    constructor (myKey: string, keys: SubsidenceKeys, updatedOnce: bool)
      ensures this.myKey == myKey && this.keys == keys && this.updatedOnce == updatedOnce
    {
      this.myKey := myKey;
      this.keys := keys;
      this.updatedOnce := updatedOnce;
    }

    /**
     * `EvaluateField_`: cell 0 of the result gets the subsidence, from cell 0
     * of the initial elevation and the z of face 0's centroid in the column mesh.
     */
    method EvaluateField(result: array<real>, initElev: real, topZ: real)
      requires result.Length >= 1
      modifies result
      ensures result[0] == Subsidence(initElev, topZ) && result[0] >= 0.0
      ensures forall c :: 1 <= c < result.Length ==> result[c] == old(result[c])
    {
      result[0] := Subsidence(initElev, topZ);
    }

    /**
     * `HasFieldChanged`: the first call with the flag down evaluates the field
     * and answers true; every later call answers what the base answered.
     */
    method HasFieldChanged(baseChanged: bool, result: array<real>, initElev: real, topZ: real)
      returns (changed: bool)
      requires result.Length >= 1
      modifies this, result
      ensures myKey == old(myKey) && keys == old(keys)
      ensures var s := ColumnEvaluator.Step(old(updatedOnce), baseChanged);
              updatedOnce == s.updatedOnce && changed == s.changed
      ensures !old(updatedOnce) ==> result[0] == Subsidence(initElev, topZ)
                                    && forall c :: 1 <= c < result.Length ==> result[c] == old(result[c])
      ensures old(updatedOnce) ==> unchanged(result)
    {
      changed := baseChanged;
      if !updatedOnce {
        EvaluateField(result, initElev, topZ);
        updatedOnce := true;
        return true;
      }
    }

    /** `EnsureCompatibility`, with the field's mesh presence and the parameter list as inputs. */
    function EnsureCompatibility(plist: ParameterList, hasMesh: bool)
      : (r: Result<ColumnEvaluator.CompatibilityPlan, ColumnEvaluator.CompatibilityError>)
      reads this
      ensures r == ColumnEvaluator.EnsureCompatibility(myKey, plist, hasMesh, keys.dependencies)
      ensures myKey == "" ==> r.Err?
      ensures r.Ok? ==> r.value.recurseInto == (if hasMesh then keys.dependencies else {})
      ensures r.Ok? && "visualize " + myKey !in plist ==> r.value.visualize
      ensures r.Ok? && "checkpoint " + myKey !in plist ==> !r.value.checkpoint
      ensures r.Ok? ==> GetBoolOr(plist, "visualize " + myKey, true) == Ok(r.value.visualize)
                        && GetBoolOr(plist, "checkpoint " + myKey, false) == Ok(r.value.checkpoint)
    {
      ColumnEvaluator.EnsureCompatibility(myKey, plist, hasMesh, keys.dependencies)
    }
  }

  /** Construction: `std::stoi` of the domain suffix either yields the column id or throws. */
  method NewColumnSubsidenceEvaluator(ops: KeyOps, myKey: string, dependencies: set<string>, updatedOnce: bool)
    returns (r: Result<ColumnSubsidenceEvaluator, StoiError>)
    ensures r.Ok? <==> ColumnIdOf(ops.getDomain(myKey)).Ok?
    ensures r.Err? ==> r.error == ColumnIdOf(ops.getDomain(myKey)).error
    ensures r.Ok? ==> && fresh(r.value) && r.value.myKey == myKey && r.value.updatedOnce == updatedOnce
                      && r.value.keys == ConfigureIntended(ops, myKey, dependencies).value
  {
    var k := ConfigureIntended(ops, myKey, dependencies);
    if k.Err? {
      r := Err(k.error);
    } else {
      var e := new ColumnSubsidenceEvaluator(myKey, k.value, updatedOnce);
      r := Ok(e);
    }
  }
}
