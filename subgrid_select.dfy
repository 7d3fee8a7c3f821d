/**
 * What the depression-depth, excluded-volume and drag-exponent evaluators
 * share: each reads an "initial" field, an "evolution" field and a
 * polygon-entity flag, and writes into every cell the initial value where
 * the flag is exactly 1 (high-centred polygon) and the evolution value
 * elsewhere.
 */
module SubgridSelect {
  import opened Results
  import opened Keys

  /** The names that tell the three evaluators apart. */
  datatype SelectorNames = SelectorNames(
    variable: string,      // default variable of the evaluated key
    initParam: string,     // parameter naming the initial key
    evolveParam: string)   // parameter naming the evolution key

  const EntityParam: string := "polygon entity key"

  /** A configured evaluator: the key it computes and the three keys it reads. */
  datatype SelectorEvaluator = SelectorEvaluator(
    myKey: string, initKey: string, evolveKey: string, entityKey: string,
    dependencies: set<string>)

  datatype EvalError = EmptyDomain

  /**
   * The constructor: the evaluated key defaults to `variable` on the domain of
   * the (empty) key, and the three configured keys join the dependencies.
   */
  function Configure(ops: KeyOps, names: SelectorNames, plist: ParameterList,
                     myKey: string, dependencies: set<string>): (r: Result<SelectorEvaluator, ParamError>)
    ensures r.Ok? <==> (forall p :: p in [names.initParam, names.evolveParam, EntityParam] ==> GetString(plist, p).Ok?)
    ensures r.Ok? ==>
      && r.value.myKey == (if myKey == "" then ops.getKey(ops.getDomain(myKey), names.variable) else myKey)
      && GetString(plist, names.initParam) == Ok(r.value.initKey)
      && GetString(plist, names.evolveParam) == Ok(r.value.evolveKey)
      && GetString(plist, EntityParam) == Ok(r.value.entityKey)
      && r.value.dependencies == dependencies + {r.value.initKey, r.value.evolveKey, r.value.entityKey}
  {
    var domainName := ops.getDomain(myKey);
    var key := if myKey == "" then ops.getKey(domainName, names.variable) else myKey;
    var init := GetString(plist, names.initParam);
    if init.Err? then Err(init.error)
    else
      var evolve := GetString(plist, names.evolveParam);
      if evolve.Err? then Err(evolve.error)
      else
        var entity := GetString(plist, EntityParam);
        if entity.Err? then Err(entity.error)
        else Ok(SelectorEvaluator(key, init.value, evolve.value, entity.value,
                                  dependencies + {init.value} + {evolve.value} + {entity.value}))
  }

  /** The value written into one cell. */
  function Select(flag: real, initial: real, evolved: real): real
  {
    if flag == 1.0 then initial else evolved
  }

  /**
   * `EvaluateField_`: asserts that the initial key has a domain, then writes
   * every cell of the result.  The inputs are only read; they may even share a
   * buffer with the result, since cell c is read before it is written.
   */
  method EvaluateField(ops: KeyOps, ev: SelectorEvaluator, result: array<real>,
                       initial: array<real>, evolved: array<real>, entity: array<real>)
    returns (r: Outcome<EvalError>)
    requires initial.Length == result.Length && evolved.Length == result.Length && entity.Length == result.Length
    modifies result
    ensures r.Pass? <==> ops.getDomain(ev.initKey) != ""
    ensures r.Fail? ==> unchanged(result)
    ensures r.Pass? ==> forall c :: 0 <= c < result.Length ==>
              result[c] == Select(old(entity[c]), old(initial[c]), old(evolved[c]))
  {
    if ops.getDomain(ev.initKey) == "" {
      return Fail(EmptyDomain);
    }
    var ncells := result.Length;
    var c := 0;
    while c != ncells
      invariant 0 <= c <= ncells
      invariant forall c' :: 0 <= c' < c ==> result[c'] == Select(old(entity[c']), old(initial[c']), old(evolved[c']))
      invariant forall c' :: c <= c' < ncells ==>
                  initial[c'] == old(initial[c']) && evolved[c'] == old(evolved[c']) && entity[c'] == old(entity[c'])
    {
      if entity[c] == 1.0 {
        result[c] := initial[c];
      } else {
        result[c] := evolved[c];
      }
      c := c + 1;
    }
    r := Pass;
  }
}
