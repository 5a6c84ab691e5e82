/**
 * The current `update` of `storage/operators/update/update.ts`: clone the
 * document, then run `$set`, `$unset`, `$push`, `$pull` and `$inc` on the
 * clone.
 */
module Update {
  import opened Wrappers
  import opened Json
  import opened Errors
  import opened Composition
  import SetOperator
  import LegacyUpdate

  /** The `$inc` operand: a number per key path. */
  type Increments = seq<(string, int)>

  /** The operands of an update; an omitted operator is `None`; `assignments` is the `$set` operand. */
  datatype UpdateOperators = UpdateOperators(
    assignments: Option<Fields>,
    unset: Option<Fields>,
    push: Option<Fields>,
    pull: Option<Fields>,
    inc: Option<Increments>)

  /** The body of `$inc`, which this model does not interpret; like `$set` it is given the criteria. */
  type IncOperator = (Value, Fields, Option<Increments>) -> Result<(bool, Value), DbError>

  /** The operator bodies `update` calls besides `$set`, and the query engine `$set` matches array elements with. */
  datatype Bodies = Bodies(
    unset: LegacyUpdate.Operator,
    push: LegacyUpdate.Operator,
    pull: LegacyUpdate.Operator,
    inc: IncOperator,
    matches: Matcher)

  /** `$inc` as a step. */
  function IncStep(body: IncOperator, criteria: Fields, operand: Option<Increments>): Step
  {
    (document: Value) => body(document, criteria, operand)
  }

  /** `$unset`, `$push`, `$pull` and `$inc`, the operators `update` runs after `$set`, in that order. */
  function OperatorSteps(criteria: Fields, operators: UpdateOperators, bodies: Bodies): (steps: seq<Step>)
    ensures |steps| == 4
    ensures steps[0] == LegacyUpdate.OperatorStep(bodies.unset, operators.unset)
    ensures steps[1] == LegacyUpdate.OperatorStep(bodies.push, operators.push)
    ensures steps[2] == LegacyUpdate.OperatorStep(bodies.pull, operators.pull)
    ensures steps[3] == IncStep(bodies.inc, criteria, operators.inc)
  {
    [LegacyUpdate.OperatorStep(bodies.unset, operators.unset),
     LegacyUpdate.OperatorStep(bodies.push, operators.push),
     LegacyUpdate.OperatorStep(bodies.pull, operators.pull),
     IncStep(bodies.inc, criteria, operators.inc)]
  }

  /** The five operators in the order `update` runs them. */
  function Steps(criteria: Fields, operators: UpdateOperators, bodies: Bodies): (steps: seq<Step>)
    ensures |steps| == 5
    ensures steps[0] == LegacyUpdate.SetStep(criteria, operators.assignments, bodies.matches)
    ensures steps[1] == LegacyUpdate.OperatorStep(bodies.unset, operators.unset)
    ensures steps[2] == LegacyUpdate.OperatorStep(bodies.push, operators.push)
    ensures steps[3] == LegacyUpdate.OperatorStep(bodies.pull, operators.pull)
    ensures steps[4] == IncStep(bodies.inc, criteria, operators.inc)
  {
    [LegacyUpdate.SetStep(criteria, operators.assignments, bodies.matches)] + OperatorSteps(criteria, operators, bodies)
  }

  /** `$unset`, `$push`, `$pull` and `$inc` run on the document in place, stopping at the first that throws. */
  method RunOperators(document: JsonRef, criteria: Fields, operators: UpdateOperators, bodies: Bodies) returns (modified: Result<bool, DbError>)
    modifies document
    ensures var r := Compose(old(document.value), OperatorSteps(criteria, operators, bodies));
      && (r.Err? ==> modified == Err(r.error))
      && (r.Ok? ==> modified == Ok(r.value.modified) && document.value == r.value.document)
  {
    var steps := OperatorSteps(criteria, operators, bodies);
    ghost var spec := Compose(document.value, steps);
    assert steps[0..] == steps;
    ghost var taken := false;
    ComposeAdvance(document.value, steps, 0, taken);
    var unsetModified := RunStep(document, steps[0]);
    if unsetModified.Err? {
      return Err(unsetModified.error);
    }
    taken := taken || unsetModified.value;
    assert spec == Then(taken, Compose(document.value, steps[1..]));
    ComposeAdvance(document.value, steps, 1, taken);
    var pushModified := RunStep(document, steps[1]);
    if pushModified.Err? {
      return Err(pushModified.error);
    }
    taken := taken || pushModified.value;
    assert spec == Then(taken, Compose(document.value, steps[2..]));
    ComposeAdvance(document.value, steps, 2, taken);
    var pullModified := RunStep(document, steps[2]);
    if pullModified.Err? {
      return Err(pullModified.error);
    }
    taken := taken || pullModified.value;
    assert spec == Then(taken, Compose(document.value, steps[3..]));
    ComposeAdvance(document.value, steps, 3, taken);
    var incModified := RunStep(document, steps[3]);
    if incModified.Err? {
      return Err(incModified.error);
    }
    taken := taken || incModified.value;
    assert spec == Then(taken, Compose(document.value, steps[4..]));
    assert steps[4..] == [];
    modified := Ok(unsetModified.value || pushModified.value || pullModified.value || incModified.value);
  }

  function UpdateSpec(criteria: Fields, operators: UpdateOperators, document: Value, bodies: Bodies): Result<UpdateResult, DbError>
  {
    Compose(document, Steps(criteria, operators, bodies))
  }

  /**
   * `update(criteria, operators, document)`: the input document is left
   * as it is; the operators change a fresh copy, which is returned.
   */
  method Update(criteria: Fields, operators: UpdateOperators, document: JsonRef, bodies: Bodies)
    returns (modified: Result<bool, DbError>, updated: JsonRef)
    ensures fresh(updated) && unchanged(document)
    ensures var r := UpdateSpec(criteria, operators, document.value, bodies);
      && (r.Err? ==> modified == Err(r.error))
      && (r.Ok? ==> modified == Ok(r.value.modified) && updated.value == r.value.document)
  {
    var steps := Steps(criteria, operators, bodies);
    assert steps[0..] == steps;
    updated := document.Clone();
    ComposeAdvance(updated.value, steps, 0, false);
    var setModified := LegacyUpdate.RunSet(updated, criteria, operators.assignments, bodies.matches);
    if setModified.Err? {
      return Err(setModified.error), updated;
    }
    assert steps[1..] == OperatorSteps(criteria, operators, bodies);
    var operatorsModified := RunOperators(updated, criteria, operators, bodies);
    if operatorsModified.Err? {
      return Err(operatorsModified.error), updated;
    }
    modified := Ok(setModified.value || operatorsModified.value);
  }

  /** The operands of the older `update`, which has no `$inc`. */
  function Legacy(operators: UpdateOperators): LegacyUpdate.UpdateOperators
  {
    LegacyUpdate.UpdateOperators(operators.assignments, operators.unset, operators.push, operators.pull)
  }

  function LegacyBodies(bodies: Bodies): LegacyUpdate.Bodies
  {
    LegacyUpdate.Bodies(bodies.unset, bodies.push, bodies.pull, bodies.matches)
  }

  /**
   * The current `update` adds one operator at the end and changes nothing
   * else: without an `$inc` operand, and with an `$inc` body that then
   * leaves the document alone, it agrees with the older one.
   */
  lemma WithoutIncMatchesLegacy(criteria: Fields, operators: UpdateOperators, document: Value, bodies: Bodies)
    requires operators.inc.None?
    requires forall d :: bodies.inc(d, criteria, None) == Ok((false, d))
    ensures UpdateSpec(criteria, operators, document, bodies) ==
      LegacyUpdate.UpdateSpec(criteria, Legacy(operators), document, LegacyBodies(bodies))
  {
    var steps := Steps(criteria, operators, bodies);
    var legacy := LegacyUpdate.Steps(criteria, Legacy(operators), LegacyBodies(bodies));
    var inc := IncStep(bodies.inc, criteria, None);
    assert steps == legacy + [inc];
    assert forall d :: inc(d) == Ok((false, d));
    ComposeDropsNoop(document, legacy, inc);
  }

  /**
   * The criteria reach only `$set` and `$inc`: without a `$set`, and with an
   * `$inc` body that does not look at them, they play no part.
   */
  lemma CriteriaReachOnlySetAndInc(c1: Fields, c2: Fields, operators: UpdateOperators, document: Value, bodies: Bodies)
    requires operators.assignments.None?
    requires forall d :: bodies.inc(d, c1, operators.inc) == bodies.inc(d, c2, operators.inc)
    ensures UpdateSpec(c1, operators, document, bodies) == UpdateSpec(c2, operators, document, bodies)
  {
    var s1 := Steps(c1, operators, bodies);
    var s2 := Steps(c2, operators, bodies);
    assert s1[0](document) == s2[0](document);
    forall d ensures s1[4](d) == s2[4](d) {
      assert s1[4](d) == bodies.inc(d, c1, operators.inc);
    }
    assert s1[0..] == s1 && s2[0..] == s2;
    match s1[0](document)
    case Err(e) =>
    case Ok((modified, next)) =>
      ComposeFrom(document, s1, 0);
      ComposeFrom(document, s2, 0);
      StepsAgreeFrom(next, s1, s2, 1);
  }

  /** Runs whose steps agree on every document from index `k` on agree from there. */
  lemma {:induction false} StepsAgreeFrom(document: Value, s1: seq<Step>, s2: seq<Step>, k: nat)
    requires |s1| == |s2| && k <= |s1|
    requires forall i, d :: k <= i < |s1| ==> s1[i](d) == s2[i](d)
    ensures Compose(document, s1[k..]) == Compose(document, s2[k..])
    decreases |s1| - k
  {
    if k < |s1| {
      assert s1[k..][0] == s1[k] && s2[k..][0] == s2[k];
      assert s1[k..][1..] == s1[k + 1..] && s2[k..][1..] == s2[k + 1..];
      match s1[k](document)
      case Err(e) =>
      case Ok((modified, next)) =>
        StepsAgreeFrom(next, s1, s2, k + 1);
    }
  }
}
