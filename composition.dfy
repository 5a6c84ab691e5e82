/**
 * Running update operators one after the other on the same document: each
 * operator sees what the previous ones wrote, the first one to throw ends
 * the run, and the run is modified when any operator reports a change.
 */
module Composition {
  import opened Wrappers
  import opened Json
  import opened Errors

  /** One operator applied to the document: its `modified` flag and the document after it, or what it throws. */
  type Step = Value -> Result<(bool, Value), DbError>

  /** The outcome of `update`: the OR of the operators' flags and the updated copy. */
  datatype UpdateResult = UpdateResult(modified: bool, document: Value)

  /** The steps run in order on `document`, each on the previous one's output. */
  function Compose(document: Value, steps: seq<Step>): Result<UpdateResult, DbError>
    decreases |steps|
  {
    if steps == [] then Ok(UpdateResult(false, document))
    else
      match steps[0](document)
      case Err(e) => Err(e)
      case Ok((modified, next)) => Then(modified, Compose(next, steps[1..]))
  }

  /** A run from step `k` on that gets through step `k` goes on from the document step `k` left. */
  lemma ComposeFrom(document: Value, steps: seq<Step>, k: nat)
    requires k < |steps| && steps[k](document).Ok?
    ensures Compose(document, steps[k..]) ==
      Then(steps[k](document).value.0, Compose(steps[k](document).value.1, steps[k + 1..]))
  {
    assert steps[k..][0] == steps[k];
    assert steps[k..][1..] == steps[k + 1..];
  }

  /**
   * One step further into a run, with the flags of the steps already taken
   * ORed in: a failing step ends the run with its error, a step that goes
   * through adds its flag and hands its document to the steps after it.
   */
  lemma ComposeAdvance(document: Value, steps: seq<Step>, k: nat, taken: bool)
    requires k < |steps|
    ensures steps[k](document).Err? ==>
      Then(taken, Compose(document, steps[k..])) == Err(steps[k](document).error)
    ensures steps[k](document).Ok? ==>
      Then(taken, Compose(document, steps[k..])) ==
      Then(taken || steps[k](document).value.0, Compose(steps[k](document).value.1, steps[k + 1..]))
  {
    assert steps[k..][0] == steps[k];
    assert steps[k..][1..] == steps[k + 1..];
  }

  /** A step's flag ORed into the outcome of the steps after it. */
  function Then(modified: bool, rest: Result<UpdateResult, DbError>): (r: Result<UpdateResult, DbError>)
    ensures rest.Err? ==> r == rest
    ensures rest.Ok? ==> r == Ok(UpdateResult(modified || rest.value.modified, rest.value.document))
  {
    match rest
    case Err(e) => Err(e)
    case Ok(r) => Ok(UpdateResult(modified || r.modified, r.document))
  }

  /** Each step's own outcome when the run goes through: its flag and the document it leaves. */
  function Trace(document: Value, steps: seq<Step>): (r: Result<seq<(bool, Value)>, DbError>)
    ensures r.Ok? ==> |r.value| == |steps|
    decreases |steps|
  {
    if steps == [] then Ok([])
    else
      match steps[0](document)
      case Err(e) => Err(e)
      case Ok((modified, next)) =>
        match Trace(next, steps[1..])
        case Err(e) => Err(e)
        case Ok(rest) => Ok([(modified, next)] + rest)
  }

  /** A run succeeds exactly when every step does, and otherwise fails with the first step's error. */
  lemma {:induction false} ComposeOkIffTrace(document: Value, steps: seq<Step>)
    ensures Compose(document, steps).Ok? <==> Trace(document, steps).Ok?
    ensures Compose(document, steps).Err? ==> Compose(document, steps).error == Trace(document, steps).error
    decreases |steps|
  {
    if steps != [] {
      match steps[0](document)
      case Err(e) =>
      case Ok((modified, next)) =>
        ComposeOkIffTrace(next, steps[1..]);
    }
  }

  /** In a run that goes through, the first step ran on the input and every later step on the document the step before it left. */
  lemma {:induction false} TraceChains(document: Value, steps: seq<Step>)
    ensures Trace(document, steps).Ok? ==>
      var t := Trace(document, steps).value;
      && (steps != [] ==> steps[0](document) == Ok(t[0]))
      && (forall i :: 0 < i < |t| ==> steps[i](t[i - 1].1) == Ok(t[i]))
    decreases |steps|
  {
    if steps != [] {
      match steps[0](document)
      case Err(e) =>
      case Ok((modified, next)) =>
        TraceChains(next, steps[1..]);
        if Trace(document, steps).Ok? {
          var t := Trace(document, steps).value;
          var rest := Trace(next, steps[1..]).value;
          assert t == [(modified, next)] + rest;
          forall i | 0 < i < |t| ensures steps[i](t[i - 1].1) == Ok(t[i]) {
            assert steps[i] == steps[1..][i - 1];
            if i > 1 {
              assert t[i - 1] == rest[i - 2];
            }
          }
        }
    }
  }

  /**
   * A run whose steps all go through is modified iff some step reported a
   * change, and its document is the one the last step left.
   */
  lemma {:induction false} ComposeIsOrOfTrace(document: Value, steps: seq<Step>)
    ensures Trace(document, steps).Ok? ==>
      && Compose(document, steps).Ok?
      && var t := Trace(document, steps).value;
      && var r := Compose(document, steps).value;
      && (r.modified <==> exists i :: 0 <= i < |t| && t[i].0)
      && r.document == (if steps == [] then document else t[|t| - 1].1)
    decreases |steps|
  {
    ComposeOkIffTrace(document, steps);
    if steps != [] {
      match steps[0](document)
      case Err(e) =>
      case Ok((modified, next)) =>
        ComposeIsOrOfTrace(next, steps[1..]);
        if Trace(document, steps).Ok? {
          var t := Trace(document, steps).value;
          var rest := Trace(next, steps[1..]).value;
          assert t == [(modified, next)] + rest;
          var r := Compose(document, steps).value;
          var r' := Compose(next, steps[1..]).value;
          assert r.modified == (modified || r'.modified);
          if exists i :: 0 <= i < |t| && t[i].0 {
            var i :| 0 <= i < |t| && t[i].0;
            if i > 0 { assert rest[i - 1] == t[i]; }
          }
          if modified {
            assert t[0].0;
          }
          if r.modified && !modified {
            var i :| 0 <= i < |rest| && rest[i].0;
            assert t[i + 1] == rest[i];
          }
        }
    }
  }

  /** A step that changes nothing and reports nothing can be dropped from the end of a run. */
  lemma {:induction false} ComposeDropsNoop(document: Value, steps: seq<Step>, noop: Step)
    requires forall d :: noop(d) == Ok((false, d))
    ensures Compose(document, steps + [noop]) == Compose(document, steps)
    decreases |steps|
  {
    if steps == [] {
      assert Compose(document, [noop]) == Ok(UpdateResult(false, document)) by {
        assert [noop][1..] == [];
      }
    } else {
      assert (steps + [noop])[0] == steps[0];
      assert (steps + [noop])[1..] == steps[1..] + [noop];
      match steps[0](document)
      case Err(e) =>
      case Ok((modified, next)) =>
        ComposeDropsNoop(next, steps[1..], noop);
    }
  }

  /** One step on a mutable document: the document takes the step's output unless the step throws. */
  method RunStep(document: JsonRef, step: Step) returns (modified: Result<bool, DbError>)
    modifies document
    ensures step(old(document.value)).Err? ==> modified == Err(step(old(document.value)).error) && document.value == old(document.value)
    ensures step(old(document.value)).Ok? ==>
      modified == Ok(step(old(document.value)).value.0) && document.value == step(old(document.value)).value.1
  {
    match step(document.value)
    case Err(e) =>
      modified := Err(e);
    case Ok((changed, next)) =>
      document.value := next;
      modified := Ok(changed);
  }
}
