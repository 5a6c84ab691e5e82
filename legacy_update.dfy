/**
 * The older `update` of `Storage/Operators/Update/Update.ts`: clone the
 * document, then run `$set`, `$unset`, `$push` and `$pull` on the clone.
 */
module LegacyUpdate {
  import opened Wrappers
  import opened Json
  import opened Errors
  import opened Composition
  import SetOperator

  /** The operands of an update; an omitted operator is `None`; `assignments` is the `$set` operand. */
  datatype UpdateOperators = UpdateOperators(
    assignments: Option<Fields>,
    unset: Option<Fields>,
    push: Option<Fields>,
    pull: Option<Fields>)

  /**
   * The body of an operator that takes no criteria (`$unset`, `$push`,
   * `$pull`), which this model does not interpret: the new document and
   * its `modified` flag, or what it throws.
   */
  type Operator = (Value, Option<Fields>) -> Result<(bool, Value), DbError>

  /** The operator bodies `update` calls besides `$set`, and the query engine `$set` matches array elements with. */
  datatype Bodies = Bodies(unset: Operator, push: Operator, pull: Operator, matches: Matcher)

  /** What `$set` does to a document, as a step's outcome. */
  function SetResult(document: Value, criteria: Fields, assignments: Option<Fields>, matches: Matcher): Result<(bool, Value), DbError>
  {
    var s := SetOperator.SetSpec(document, criteria, assignments, matches);
    match s.modified
    case Err(e) => Err(e)
    case Ok(modified) => Ok((modified, s.document))
  }

  /** `$set` as a step: the only operator that is given the criteria. */
  function SetStep(criteria: Fields, assignments: Option<Fields>, matches: Matcher): Step
  {
    (document: Value) => SetResult(document, criteria, assignments, matches)
  }

  /** `$set` run on the document in place, reported as the step it is. */
  method RunSet(document: JsonRef, criteria: Fields, assignments: Option<Fields>, matches: Matcher) returns (modified: Result<bool, DbError>)
    modifies document
    ensures var step := SetStep(criteria, assignments, matches)(old(document.value));
      && (step.Err? ==> modified == Err(step.error))
      && (step.Ok? ==> modified == Ok(step.value.0) && document.value == step.value.1)
  {
    modified := SetOperator.Set(document, criteria, assignments, matches);
  }

  /** An operator without criteria as a step. */
  function OperatorStep(body: Operator, operand: Option<Fields>): Step
  {
    (document: Value) => body(document, operand)
  }

  /** `$unset`, `$push` and `$pull`, the operators `update` runs after `$set`, in that order. */
  function OperatorSteps(operators: UpdateOperators, bodies: Bodies): (steps: seq<Step>)
    ensures |steps| == 3
    ensures steps[0] == OperatorStep(bodies.unset, operators.unset)
    ensures steps[1] == OperatorStep(bodies.push, operators.push)
    ensures steps[2] == OperatorStep(bodies.pull, operators.pull)
  {
    [OperatorStep(bodies.unset, operators.unset),
     OperatorStep(bodies.push, operators.push),
     OperatorStep(bodies.pull, operators.pull)]
  }

  /** The four operators in the order `update` runs them. */
  function Steps(criteria: Fields, operators: UpdateOperators, bodies: Bodies): (steps: seq<Step>)
    ensures |steps| == 4
    ensures steps[0] == SetStep(criteria, operators.assignments, bodies.matches)
    ensures steps[1] == OperatorStep(bodies.unset, operators.unset)
    ensures steps[2] == OperatorStep(bodies.push, operators.push)
    ensures steps[3] == OperatorStep(bodies.pull, operators.pull)
  {
    [SetStep(criteria, operators.assignments, bodies.matches)] + OperatorSteps(operators, bodies)
  }

  /** `$unset`, `$push` and `$pull` run on the document in place, stopping at the first that throws. */
  method RunOperators(document: JsonRef, operators: UpdateOperators, bodies: Bodies) returns (modified: Result<bool, DbError>)
    modifies document
    ensures var r := Compose(old(document.value), OperatorSteps(operators, bodies));
      && (r.Err? ==> modified == Err(r.error))
      && (r.Ok? ==> modified == Ok(r.value.modified) && document.value == r.value.document)
  {
    var steps := OperatorSteps(operators, bodies);
    ghost var spec := Compose(document.value, steps);
    assert steps[0..] == steps;
    ghost var taken := false;
    ComposeAdvance(document.value, steps, 0, taken);
    var unsetModified := RunStep(document, steps[0]);
    if unsetModified.Err? {
      return Err(unsetModified.error);
    }
    taken := taken || unsetModified.value;
    assert spec == Then(taken, Compose(document.value, steps[1..]));
    ComposeAdvance(document.value, steps, 1, taken);
    var pushModified := RunStep(document, steps[1]);
    if pushModified.Err? {
      return Err(pushModified.error);
    }
    taken := taken || pushModified.value;
    assert spec == Then(taken, Compose(document.value, steps[2..]));
    ComposeAdvance(document.value, steps, 2, taken);
    var pullModified := RunStep(document, steps[2]);
    if pullModified.Err? {
      return Err(pullModified.error);
    }
    taken := taken || pullModified.value;
    assert spec == Then(taken, Compose(document.value, steps[3..]));
    assert steps[3..] == [];
    modified := Ok(unsetModified.value || pushModified.value || pullModified.value);
  }

  function UpdateSpec(criteria: Fields, operators: UpdateOperators, document: Value, bodies: Bodies): Result<UpdateResult, DbError>
  {
    Compose(document, Steps(criteria, operators, bodies))
  }

  /**
   * `update(criteria, operators, document)`: the input document is left
   * as it is; the operators change a fresh copy, which is returned.
   */
  method Update(criteria: Fields, operators: UpdateOperators, document: JsonRef, bodies: Bodies)
    returns (modified: Result<bool, DbError>, updated: JsonRef)
    ensures fresh(updated) && unchanged(document)
    ensures var r := UpdateSpec(criteria, operators, document.value, bodies);
      && (r.Err? ==> modified == Err(r.error))
      && (r.Ok? ==> modified == Ok(r.value.modified) && updated.value == r.value.document)
  {
    var steps := Steps(criteria, operators, bodies);
    assert steps[0..] == steps;
    updated := document.Clone();
    ComposeAdvance(updated.value, steps, 0, false);
    var setModified := RunSet(updated, criteria, operators.assignments, bodies.matches);
    if setModified.Err? {
      return Err(setModified.error), updated;
    }
    assert steps[1..] == OperatorSteps(operators, bodies);
    var operatorsModified := RunOperators(updated, operators, bodies);
    if operatorsModified.Err? {
      return Err(operatorsModified.error), updated;
    }
    modified := Ok(setModified.value || operatorsModified.value);
  }

  /** Without a `$set` the criteria play no part: the other three operators never see them. */
  lemma CriteriaReachOnlySet(c1: Fields, c2: Fields, operators: UpdateOperators, document: Value, bodies: Bodies)
    requires operators.assignments.None?
    ensures UpdateSpec(c1, operators, document, bodies) == UpdateSpec(c2, operators, document, bodies)
  {
    assert SetStep(c1, None, bodies.matches)(document) == SetStep(c2, None, bodies.matches)(document);
    assert Steps(c1, operators, bodies)[1..] == Steps(c2, operators, bodies)[1..];
  }
}
