/** The drag exponent evaluator: a per-cell choice between the initial and the evolving drag exponent. */
module DragExponent {
  import opened Results
  import opened Keys
  import SubgridSelect

  const Names := SubgridSelect.SelectorNames("drag_exponent", "drag exponent initial key", "drag exponent evolution key")

  /** The constructor: key defaulting and the three dependencies. */
  function Configure(ops: KeyOps, plist: ParameterList, myKey: string, dependencies: set<string>)
    : (r: Result<SubgridSelect.SelectorEvaluator, ParamError>)
    ensures r.Ok? <==> && GetString(plist, "drag exponent initial key").Ok?
                       && GetString(plist, "drag exponent evolution key").Ok?
                       && GetString(plist, "polygon entity key").Ok?
    ensures r.Ok? ==>
      && r.value.myKey == (if myKey == "" then ops.getKey(ops.getDomain(""), "drag_exponent") else myKey)
      && Ok(r.value.initKey) == GetString(plist, "drag exponent initial key")
      && Ok(r.value.evolveKey) == GetString(plist, "drag exponent evolution key")
      && Ok(r.value.entityKey) == GetString(plist, "polygon entity key")
      && r.value.dependencies == dependencies + {r.value.initKey, r.value.evolveKey, r.value.entityKey}
  {
    SubgridSelect.Configure(ops, Names, plist, myKey, dependencies)
  }

  /** `EvaluateField_`: initial value where the polygon flag is 1, evolution value elsewhere. */
  method EvaluateField(ops: KeyOps, ev: SubgridSelect.SelectorEvaluator, result: array<real>,
                       initial: array<real>, evolved: array<real>, entity: array<real>)
    returns (r: Outcome<SubgridSelect.EvalError>)
    requires initial.Length == result.Length && evolved.Length == result.Length && entity.Length == result.Length
    modifies result
    ensures r.Pass? <==> ops.getDomain(ev.initKey) != ""
    ensures r.Fail? ==> unchanged(result)
    ensures r.Pass? ==> forall c :: 0 <= c < result.Length ==>
              result[c] == (if old(entity[c]) == 1.0 then old(initial[c]) else old(evolved[c]))
  {
    r := SubgridSelect.EvaluateField(ops, ev, result, initial, evolved, entity);
  }
}
