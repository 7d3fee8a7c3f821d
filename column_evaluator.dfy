/**
 * What the column-subsidence and initial-elevation evaluators share: the
 * "update once" override of `HasFieldChanged` and the override of
 * `EnsureCompatibility`.  The base evaluator's own answer is an input.
 */
module ColumnEvaluator {
  import opened Results
  import opened Keys

  /** One call of `HasFieldChanged`: the new flag, the answer, and whether it forced an update. */
  datatype StepResult = StepResult(updatedOnce: bool, changed: bool, forcedUpdate: bool)

  /** The base is always asked first; the first call with the flag down forces an update and answers true. */
  function Step(updatedOnce: bool, baseChanged: bool): StepResult
  {
    if !updatedOnce then StepResult(true, true, true) else StepResult(true, baseChanged, false)
  }

  /** A run of calls, given the base's answer to each. */
  datatype Trace = Trace(updatedOnce: bool, answers: seq<bool>, forcedUpdates: nat)

  function Run(updatedOnce: bool, baseAnswers: seq<bool>): Trace
    decreases |baseAnswers|
  {
    if |baseAnswers| == 0 then Trace(updatedOnce, [], 0)
    else
      var s := Step(updatedOnce, baseAnswers[0]);
      var rest := Run(s.updatedOnce, baseAnswers[1..]);
      Trace(rest.updatedOnce, [s.changed] + rest.answers, rest.forcedUpdates + (if s.forcedUpdate then 1 else 0))
  }

  /**
   * Over any run of calls: the flag is never lowered again, at most one call
   * forces an update (exactly one when the flag started down), that call is
   * the first and answers true, and every other call passes on the base's answer.
   */
  lemma {:induction false} RunForcesAtMostOnce(updatedOnce: bool, baseAnswers: seq<bool>)
    ensures Run(updatedOnce, baseAnswers).updatedOnce == (updatedOnce || |baseAnswers| > 0)
    ensures |Run(updatedOnce, baseAnswers).answers| == |baseAnswers|
    ensures Run(updatedOnce, baseAnswers).forcedUpdates == (if !updatedOnce && |baseAnswers| > 0 then 1 else 0)
    ensures !updatedOnce && |baseAnswers| > 0 ==> Run(updatedOnce, baseAnswers).answers[0]
    ensures forall i :: 0 <= i < |baseAnswers| && (updatedOnce || i > 0) ==>
              Run(updatedOnce, baseAnswers).answers[i] == baseAnswers[i]
    decreases |baseAnswers|
  {
    if |baseAnswers| > 0 {
      var s := Step(updatedOnce, baseAnswers[0]);
      RunForcesAtMostOnce(s.updatedOnce, baseAnswers[1..]);
      var rest := Run(s.updatedOnce, baseAnswers[1..]);
      assert Run(updatedOnce, baseAnswers).answers == [s.changed] + rest.answers;
      forall i | 1 <= i < |baseAnswers|
        ensures Run(updatedOnce, baseAnswers).answers[i] == baseAnswers[i]
      {
        assert baseAnswers[1..][i - 1] == baseAnswers[i];
      }
    }
  }

  /** What `EnsureCompatibility` decides: the I/O flags of the field and the dependencies it recurses into. */
  datatype CompatibilityPlan = CompatibilityPlan(visualize: bool, checkpoint: bool, recurseInto: set<string>)

  datatype CompatibilityError = EmptyKey | BadParameter(e: ParamError)

  /**
   * The key must be non-empty; "visualize <key>" defaults to true and
   * "checkpoint <key>" to false; the dependencies are visited only when the
   * field's space has a mesh.
   */
  function EnsureCompatibility(myKey: string, plist: ParameterList, hasMesh: bool,
                               dependencies: set<string>): (r: Result<CompatibilityPlan, CompatibilityError>)
    ensures myKey == "" ==> r == Err(EmptyKey)
    ensures r.Ok? <==> myKey != "" && GetBoolOr(plist, "visualize " + myKey, true).Ok?
                                   && GetBoolOr(plist, "checkpoint " + myKey, false).Ok?
    ensures r.Ok? && "visualize " + myKey !in plist ==> r.value.visualize
    ensures r.Ok? && "checkpoint " + myKey !in plist ==> !r.value.checkpoint
    ensures r.Ok? ==> GetBoolOr(plist, "visualize " + myKey, true) == Ok(r.value.visualize)
                      && GetBoolOr(plist, "checkpoint " + myKey, false) == Ok(r.value.checkpoint)
    ensures r.Err? && myKey != "" ==> r.error.BadParameter?
    ensures r.Ok? ==> r.value.recurseInto == (if hasMesh then dependencies else {})
  {
    if myKey == "" then Err(EmptyKey)
    else
      var vis := GetBoolOr(plist, "visualize " + myKey, true);
      if vis.Err? then Err(BadParameter(vis.error))
      else
        var checkpoint := GetBoolOr(plist, "checkpoint " + myKey, false);
        if checkpoint.Err? then Err(BadParameter(checkpoint.error))
        else Ok(CompatibilityPlan(vis.value, checkpoint.value, if hasMesh then dependencies else {}))
  }

  /**
   * A flag stored in the parameter list wins over the default: the plan
   * carries exactly the stored value, for visualisation and for checkpointing.
   */
  lemma StoredFlagsWin(myKey: string, plist: ParameterList, hasMesh: bool, dependencies: set<string>)
    requires EnsureCompatibility(myKey, plist, hasMesh, dependencies).Ok?
    ensures var plan := EnsureCompatibility(myKey, plist, hasMesh, dependencies).value;
            && ("visualize " + myKey in plist ==> plist["visualize " + myKey] == PBool(plan.visualize))
            && ("checkpoint " + myKey in plist ==> plist["checkpoint " + myKey] == PBool(plan.checkpoint))
  {
  }
}
