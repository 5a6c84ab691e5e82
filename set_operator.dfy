/**
 * The `$set` update operator: every key of the `$set` object is either a
 * plain dot path, written directly, or a positional path (`field.$.sub`),
 * which rewrites the first array element the query criteria select.
 */
module SetOperator {
  import opened Wrappers
  import opened Json
  import opened Errors
  import opened PositionalUtils

  /** How a `$set` run ends: its `modified` flag or the error it throws, and the document as it is then. */
  datatype SetOutcome = SetOutcome(modified: Result<bool, DbError>, document: Value)

  /** The positional rewrite callback of `$set`: the selected element or sub-field receives `$set[key]`, whatever it held. */
  function Assign(value: Value): UpdateValue
  {
    (data: Value, key: string, target: string) => value
  }

  /** How a positional key is applied: the document, the key and `$set[key]` give the flag and new document, or an error. */
  type PositionalStep = (Value, string, Value) -> Result<(bool, Value), DbError>

  /** The positional write of `$set`: `setPositionalData` with the selected element or sub-field receiving `$set[key]`. */
  function Positional(criteria: Fields, matches: Matcher): PositionalStep
  {
    (document: Value, key: string, value: Value) => PositionalWrite(document, criteria, key, Assign(value), Assign(value), matches)
  }

  /**
   * One key of `$set`: a positional key goes through `positional`, any other
   * key is written at its dot path and counts as a change.
   */
  function KeyStep(document: Value, key: string, value: Value, positional: PositionalStep): Result<(bool, Value), DbError>
  {
    if '$' in key then positional(document, key, value)
    else Ok((true, SetPath(document, SplitPath(key), value)))
  }

  /**
   * The keys of `assignments` (the `$set` object) from index `i` on, applied to `document` in
   * enumeration order, with `modified` the flag accumulated so far.
   */
  function SetFrom(document: Value, assignments: Fields, i: nat, modified: bool, positional: PositionalStep): SetOutcome
    requires i <= |assignments|
    decreases |assignments| - i
  {
    if i == |assignments| then SetOutcome(Ok(modified), document)
    else
      var key := assignments[i].0;
      var step := KeyStep(document, key, Lookup(assignments, key), positional);
      if step.Err? then SetOutcome(Err(step.error), document)
      else SetFrom(step.value.1, assignments, i + 1, modified || step.value.0, positional)
  }

  /** `$set(document, criteria, $set)`: an omitted `$set` is `{}`, which changes nothing and reports no modification. */
  function SetSpec(document: Value, criteria: Fields, assignments: Option<Fields>, matches: Matcher): (r: SetOutcome)
    ensures assignments.None? ==> r == SetOutcome(Ok(false), document)
    ensures assignments.Some? && assignments.value == [] ==> r == SetOutcome(Ok(false), document)
  {
    SetFrom(document, if assignments.Some? then assignments.value else [], 0, false, Positional(criteria, matches))
  }

  /** `$set`, mutating the document in place key by key. */
  method Set(document: JsonRef, criteria: Fields, assignments: Option<Fields>, matches: Matcher) returns (modified: Result<bool, DbError>)
    modifies document
    ensures var s := SetSpec(old(document.value), criteria, assignments, matches);
      modified == s.modified && document.value == s.document
  {
    var fields := if assignments.Some? then assignments.value else [];
    ghost var positional := Positional(criteria, matches);
    var flag := false;
    var i := 0;
    while i < |fields|
      invariant 0 <= i <= |fields|
      invariant SetFrom(document.value, fields, i, flag, positional) == SetSpec(old(document.value), criteria, assignments, matches)
    {
      var key := fields[i].0;
      var value := Lookup(fields, key);
      ghost var step := KeyStep(document.value, key, value, positional);
      if '$' in key {
        assert step == PositionalWrite(document.value, criteria, key, Assign(value), Assign(value), matches);
        var changed := SetPositionalData(document, criteria, key, Assign(value), Assign(value), matches);
        if changed.Err? {
          return Err(changed.error);
        }
        flag := flag || changed.value;
      } else {
        document.value := SetPath(document.value, SplitPath(key), value);
        flag := true;
      }
      i := i + 1;
    }
    modified := Ok(flag);
  }

  /**
   * The flag is an OR: starting from `modified` instead of `false` leaves the
   * document and any error as they are and ORs `modified` into the result.
   */
  lemma {:induction false} SetFromIsOr(document: Value, assignments: Fields, i: nat, modified: bool, positional: PositionalStep)
    requires i <= |assignments|
    ensures var r := SetFrom(document, assignments, i, modified, positional);
      var r0 := SetFrom(document, assignments, i, false, positional);
      && r.document == r0.document
      && (r0.modified.Err? ==> r.modified == r0.modified)
      && (r0.modified.Ok? ==> r.modified == Ok(modified || r0.modified.value))
    decreases |assignments| - i
  {
    if i < |assignments| {
      var key := assignments[i].0;
      var step := KeyStep(document, key, Lookup(assignments, key), positional);
      if step.Ok? {
        var (changed, written) := step.value;
        assert SetFrom(document, assignments, i, modified, positional) == SetFrom(written, assignments, i + 1, modified || changed, positional);
        assert SetFrom(document, assignments, i, false, positional) == SetFrom(written, assignments, i + 1, changed, positional);
        SetFromIsOr(written, assignments, i + 1, modified || changed, positional);
        SetFromIsOr(written, assignments, i + 1, changed, positional);
      }
    }
  }

  /** A key without `$` still to come makes a run that does not throw report a modification. */
  lemma {:induction false} PlainKeyReportsModified(document: Value, assignments: Fields, i: nat, modified: bool, positional: PositionalStep, j: nat)
    requires i <= j < |assignments| && '$' !in assignments[j].0
    ensures var r := SetFrom(document, assignments, i, modified, positional);
      r.modified.Ok? ==> r.modified.value
    decreases |assignments| - i
  {
    var key := assignments[i].0;
    var step := KeyStep(document, key, Lookup(assignments, key), positional);
    if step.Ok? {
      if i == j {
        SetFromIsOr(step.value.1, assignments, i + 1, modified || step.value.0, positional);
      } else {
        PlainKeyReportsModified(step.value.1, assignments, i + 1, modified || step.value.0, positional, j);
      }
    }
  }

  /** A `$set` with no positional key never throws; it reports a modification exactly when it has a key. */
  lemma {:induction false} PlainSetNeverFails(document: Value, assignments: Fields, i: nat, modified: bool, positional: PositionalStep)
    requires i <= |assignments|
    requires forall j :: i <= j < |assignments| ==> '$' !in assignments[j].0
    ensures var r := SetFrom(document, assignments, i, modified, positional);
      r.modified == Ok(modified || i < |assignments|)
    decreases |assignments| - i
  {
    if i < |assignments| {
      var key := assignments[i].0;
      PlainSetNeverFails(SetPath(document, SplitPath(key), Lookup(assignments, key)), assignments, i + 1, true, positional);
    }
  }

  /** A plain key writes its value at its dot path: reading the path back gives `$set[key]`. */
  lemma PlainSetWritesValue(document: Value, criteria: Fields, key: string, value: Value, matches: Matcher)
    requires document.Obj? && '$' !in key && NoArrayOnPath(document, SplitPath(key))
    ensures var r := SetSpec(document, criteria, Some([(key, value)]), matches);
      r.modified == Ok(true) && GetPath(r.document, SplitPath(key)) == value
  {
    var assignments := [(key, value)];
    assert Lookup(assignments, key) == value;
    var written := SetPath(document, SplitPath(key), value);
    assert SetFrom(document, assignments, 0, false, Positional(criteria, matches)) == SetFrom(written, assignments, 1, true, Positional(criteria, matches));
    GetAfterSetPath(document, SplitPath(key), value);
  }

  /**
   * Writing a property the value it already has still reports a
   * modification: `{a: 1}` with `$set: {a: 1}` gives `modified = true` and
   * the same document.
   */
  lemma IdenticalPlainSetReportsModified(matches: Matcher)
    ensures var document := Obj([("a", Num(1))]);
      SetSpec(document, [], Some([("a", Num(1))]), matches) == SetOutcome(Ok(true), document)
  {
    var document := Obj([("a", Num(1))]);
    assert Text.IndexOf("a", '.') == 1;
    assert SplitPath("a") == ["a"];
    assert KeyIndex(document.fields, "a") == 0;
  }

  /**
   * A positional key whose array path reads undefined throws "NOT ARRAY" and
   * stops the run there, with the earlier keys' writes in place.
   */
  lemma PositionalOnUndefinedThrows(document: Value, criteria: Fields, assignments: Fields, i: nat, modified: bool, matches: Matcher)
    requires i < |assignments| && '$' in assignments[i].0
    requires GetPositionalFilter(criteria, assignments[i].0).Ok?
    requires GetPath(document, SplitPath(GetPositionalFilter(criteria, assignments[i].0).value.path)).Undefined?
    ensures SetFrom(document, assignments, i, modified, Positional(criteria, matches)) == SetOutcome(Err(NotArray), document)
  {
    var key := assignments[i].0;
    var value := Lookup(assignments, key);
    PositionalWriteErrors(document, criteria, key, Assign(value), Assign(value), matches);
    assert KeyStep(document, key, value, Positional(criteria, matches)) == Err(NotArray);
  }

  /**
   * With a filter that is not an object the first element strictly equal to
   * it is replaced by `$set[key]` itself, whatever the target sub-path says.
   */
  lemma ScalarFilterReplacesWhole(items: seq<Value>, key: string, filter: Value, target: string, value: Value)
    ensures var i := FirstMatch(items, x => x == filter);
      ValueUpdated(items, key, filter, target, Assign(value)) ==
        if i < |items| then items[i := value] else items
    ensures ValueUpdated(items, key, filter, target, Assign(value)) == ValueUpdated(items, key, filter, "", Assign(value))
  {
  }

  /**
   * With an object filter only the first matching element changes: it
   * becomes `$set[key]` when the target is empty, else `$set[key]` is written
   * at the target sub-path inside it.
   */
  lemma QueryFilterWritesTarget(items: seq<Value>, key: string, filter: Value, target: string, value: Value, matches: Matcher)
    ensures var i := FirstMatch(items, x => matches(filter, x));
      var r := QueryUpdated(items, key, filter, target, Assign(value), matches);
      && |r| == |items|
      && (forall j :: 0 <= j < |items| && j != i ==> r[j] == items[j])
      && (i < |items| && target == "" ==> r[i] == value)
      && (i < |items| && target != "" ==> r[i] == SetPath(items[i], SplitPath(target), value))
  {
  }
}
