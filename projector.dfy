/**
 * The projector method decorators: `@On`, `@Once` and `@All` record, per
 * class, which method handles which event and how. The list of a class
 * never holds two entries with the same event and method; registering such
 * a pair a second time is a "Projection Violation".
 */
module Projector {
  import opened Wrappers

  /** The projection methods: "on", "once" and "all". */
  const On := "on"
  const Once := "once"
  const All := "all"

  /** One recorded mapping: the decorated method's key, the event and the projection method. */
  datatype Projection = Projection(key: string, event: string, kind: string)

  /** What a method decorator was created with; an omitted method is `None`. */
  datatype Mapping = Mapping(event: string, kind: Option<string>)

  /** "Projection Violation: <method> <event> has already been registered on <class>". */
  datatype ProjectionViolation = ProjectionViolation(kind: string, event: string, className: string)

  /** A class whose projections are recorded; distinct classes may share a name. */
  datatype ClassRef = ClassRef(id: nat, name: string)

  /** `createMappingDecorator(method)`: a decorator factory that fixes the method. */
  function CreateMappingDecorator(kind: string): (decorator: string -> Mapping)
    ensures forall event :: decorator(event) == Mapping(event, Some(kind))
  {
    event => Mapping(event, Some(kind))
  }

  /** `@On(event)`. */
  function OnEvent(event: string): (m: Mapping)
    ensures m.event == event && m.kind == Some(On)
  {
    CreateMappingDecorator(On)(event)
  }

  /** `@Once(event)`. */
  function OnceEvent(event: string): (m: Mapping)
    ensures m.event == event && m.kind == Some(Once)
  {
    CreateMappingDecorator(Once)(event)
  }

  /** `@All(event)`. */
  function AllEvents(event: string): (m: Mapping)
    ensures m.event == event && m.kind == Some(All)
  {
    CreateMappingDecorator(All)(event)
  }

  /** The method `RequestMapping` records: the given one, or "on" when omitted. */
  function MethodOf(mapping: Mapping): (kind: string)
    ensures mapping.kind.None? ==> kind == On
    ensures mapping.kind.Some? ==> kind == mapping.kind.value
  {
    match mapping.kind
    case None => On
    case Some(m) => m
  }

  /** No two entries of a list share both event and method. */
  predicate NoDuplicates(projections: seq<Projection>)
  {
    forall i, j :: 0 <= i < j < |projections| ==>
      !(projections[i].event == projections[j].event && projections[i].kind == projections[j].kind)
  }

  /** `projections.find(...)`: the index of the first entry with that event and method, or the length. */
  function FindProjection(projections: seq<Projection>, event: string, kind: string): (i: nat)
    ensures i <= |projections|
    ensures i < |projections| ==> projections[i].event == event && projections[i].kind == kind
    ensures forall j :: 0 <= j < i ==> !(projections[j].event == event && projections[j].kind == kind)
  {
    if projections == [] then 0
    else if projections[0].event == event && projections[0].kind == kind then 0
    else 1 + FindProjection(projections[1..], event, kind)
  }

  /**
   * What `RequestMapping` does to a class's list: a violation when the
   * event is already mapped with that method, otherwise the list with the
   * new entry at its end.
   */
  function Register(projections: seq<Projection>, className: string, key: string, mapping: Mapping): (r: Result<seq<Projection>, ProjectionViolation>)
    ensures r.Err? <==> exists i :: 0 <= i < |projections| && projections[i].event == mapping.event && projections[i].kind == MethodOf(mapping)
    ensures r.Err? ==> r.error == ProjectionViolation(MethodOf(mapping), mapping.event, className)
    ensures r.Ok? ==> r.value == projections + [Projection(key, mapping.event, MethodOf(mapping))]
    ensures r.Ok? && NoDuplicates(projections) ==> NoDuplicates(r.value)
  {
    var kind := MethodOf(mapping);
    if FindProjection(projections, mapping.event, kind) < |projections| then
      Err(ProjectionViolation(kind, mapping.event, className))
    else
      Ok(projections + [Projection(key, mapping.event, kind)])
  }

  /** Once a pair is registered, registering it again, under any key, is a violation. */
  lemma RegisterTwiceFails(projections: seq<Projection>, className: string, key: string, other: string, mapping: Mapping)
    requires Register(projections, className, key, mapping).Ok?
    ensures Register(Register(projections, className, key, mapping).value, className, other, mapping).Err?
  {
    var registered := Register(projections, className, key, mapping).value;
    assert registered[|projections|].event == mapping.event;
  }

  /** The same event may be registered under each of the three methods. */
  lemma {:induction false} SameEventEveryMethod(className: string, event: string, k1: string, k2: string, k3: string)
    ensures var first := Register([], className, k1, OnEvent(event));
      && first.Ok?
      && var second := Register(first.value, className, k2, OnceEvent(event));
      && second.Ok?
      && var third := Register(second.value, className, k3, AllEvents(event));
      && third.Ok?
      && third.value == [Projection(k1, event, On), Projection(k2, event, Once), Projection(k3, event, All)]
  {
    var first := Register([], className, k1, OnEvent(event));
    assert first.value == [Projection(k1, event, On)];
    var second := Register(first.value, className, k2, OnceEvent(event));
    assert second.Ok? by {
      assert FindProjection(first.value, event, Once) == 1;
    }
    var third := Register(second.value, className, k3, AllEvents(event));
    assert third.Ok? by {
      assert second.value == [Projection(k1, event, On), Projection(k2, event, Once)];
      assert FindProjection(second.value, event, All) == 2;
    }
  }

  /** The metadata store: each class's list of projections. */
  class Registry {
    var lists: map<ClassRef, seq<Projection>>

    constructor ()
      ensures lists == map[]
    {
      lists := map[];
    }

    /** A class's list; a class with none yet has the empty list. */
    function Projections(target: ClassRef): seq<Projection>
      reads this
    {
      if target in lists then lists[target] else []
    }

    /** Every class's list is free of duplicates. */
    predicate Valid()
      reads this
    {
      forall c :: c in lists ==> NoDuplicates(lists[c])
    }

    /**
     * `RequestMapping(mapping)` applied to the method `key` of the class
     * `target`: on a violation nothing is recorded; otherwise the entry is
     * appended to that class's list alone.
     */
    method RequestMapping(target: ClassRef, key: string, mapping: Mapping) returns (r: Result<(), ProjectionViolation>)
      modifies this
      ensures var registered := Register(old(Projections(target)), target.name, key, mapping);
        && (registered.Err? ==> r == Err(registered.error) && lists == old(lists))
        && (registered.Ok? ==> r == Ok(()) && lists == old(lists)[target := registered.value])
      ensures forall c :: c != target ==> Projections(c) == old(Projections(c))
      ensures old(Valid()) ==> Valid()
    {
      var projections := Projections(target);
      var kind := MethodOf(mapping);
      var found := FindProjection(projections, mapping.event, kind);
      if found < |projections| {
        return Err(ProjectionViolation(kind, mapping.event, target.name));
      }
      projections := projections + [Projection(key, mapping.event, kind)];
      lists := lists[target := projections];
      r := Ok(());
    }
  }
}
