/**
 * The router's route table and lookups: registering a route tree flattens
 * it into a table in pre-order with parent links, the routing tree of a
 * route is its ancestor chain, lookups return the first route that
 * matches, and `goto` turns a path into the pathname and search it pushes
 * onto the history.
 *
 * A route's parent is the index of its parent's entry in the table. A
 * route without children has `children == []`: registering an empty child
 * list adds nothing, so this is the same as an absent one.
 */
module Router {
  import opened Wrappers
  import opened Json
  import Text

  datatype Route = Route(id: Option<string>, name: Option<string>, path: string, children: seq<Route>)

  /** A registered route and the index of its parent's entry, if it has a parent. */
  datatype Entry = Entry(route: Route, parent: Option<nat>)

  type Params = map<string, string>

  /** `route.match(path)`: the path parameters when the route's pattern matches, `None` for `false`. */
  type RouteMatcher = (Route, string) -> Option<Params>

  /** A route resolved for a path: the route, its parameters and the search string. */
  datatype Resolved = Resolved(route: Route, params: Params, search: string)

  /** What `goto` pushes onto the history. */
  datatype Location = Location(pathname: string, search: string)

  /** The constructor's base: "" and "/" both mean no base; any other base is kept as given. */
  function NormaliseBase(base: string): (b: string)
    ensures base == "" || base == "/" ==> b == ""
    ensures base != "" && base != "/" ==> b == base
  {
    if base == "" || base == "/" then "" else base
  }

  /*
   * The route table
   */

  /** Every parent link points to an earlier entry, whose route lists the child among its children. */
  predicate WellFormed(table: seq<Entry>)
  {
    forall k :: 0 <= k < |table| && table[k].parent.Some? ==>
      table[k].parent.value < k && table[k].route in table[table[k].parent.value].route.children
  }

  /**
   * The entries `register(routes, parent)` appends to a table that already
   * holds `offset` entries: each route, then its own subtree, then the next
   * route, every route linked to the parent it was registered under.
   */
  function Flatten(routes: seq<Route>, parent: Option<nat>, offset: nat): seq<Entry>
    decreases routes
  {
    if routes == [] then []
    else
      var subtree := Flatten(routes[0].children, Some(offset), offset + 1);
      [Entry(routes[0], parent)] + subtree + Flatten(routes[1..], parent, offset + 1 + |subtree|)
  }

  /**
   * Registering a list of routes under a parent whose children they are
   * (or under none) keeps the table well formed: every route comes after
   * its parent and is linked to it.
   */
  lemma {:induction false} FlattenKeepsWellFormed(table: seq<Entry>, routes: seq<Route>, parent: Option<nat>)
    requires WellFormed(table)
    requires parent.Some? ==> parent.value < |table| && forall i :: 0 <= i < |routes| ==> routes[i] in table[parent.value].route.children
    ensures WellFormed(table + Flatten(routes, parent, |table|))
    decreases routes
  {
    if routes != [] {
      var head := Entry(routes[0], parent);
      var t1 := table + [head];
      assert WellFormed(t1) by {
        forall k | 0 <= k < |t1| && t1[k].parent.Some?
          ensures t1[k].parent.value < k && t1[k].route in t1[t1[k].parent.value].route.children
        {
          if k < |table| {
            assert t1[k] == table[k];
            assert t1[table[k].parent.value] == table[table[k].parent.value];
          } else {
            assert routes[0] in table[parent.value].route.children;
            assert t1[parent.value] == table[parent.value];
          }
        }
      }
      var subtree := Flatten(routes[0].children, Some(|table|), |table| + 1);
      FlattenKeepsWellFormed(t1, routes[0].children, Some(|table|));
      var t2 := t1 + subtree;
      if parent.Some? {
        forall i | 0 <= i < |routes[1..]| ensures routes[1..][i] in t2[parent.value].route.children {
          assert t2[parent.value] == table[parent.value];
          assert routes[1..][i] == routes[i + 1];
        }
      }
      FlattenKeepsWellFormed(t2, routes[1..], parent);
      assert table + Flatten(routes, parent, |table|) == t2 + Flatten(routes[1..], parent, |t2|);
    }
  }

  /** `[...tree].reverse()`. */
  function Reverse<T>(s: seq<T>): (r: seq<T>)
    ensures |r| == |s|
    ensures forall i :: 0 <= i < |s| ==> r[i] == s[|s| - 1 - i]
  {
    if s == [] then [] else Reverse(s[1..]) + [s[0]]
  }

  /**
   * The indices of the ancestors of entry `k`, root first and ending with
   * `k`: a root, then each entry the parent of the next.
   */
  function Ancestors(table: seq<Entry>, k: nat): (chain: seq<nat>)
    requires WellFormed(table) && k < |table|
    ensures |chain| >= 1 && chain[|chain| - 1] == k
    ensures forall i :: 0 <= i < |chain| ==> chain[i] < |table|
    ensures table[chain[0]].parent.None?
    ensures forall i :: 0 <= i < |chain| - 1 ==> table[chain[i + 1]].parent == Some(chain[i])
    decreases k
  {
    match table[k].parent
    case None => [k]
    case Some(p) => Ancestors(table, p) + [k]
  }

  function RoutesAt(table: seq<Entry>, indices: seq<nat>): (r: seq<Route>)
    requires forall i :: 0 <= i < |indices| ==> indices[i] < |table|
    ensures |r| == |indices|
    ensures forall i :: 0 <= i < |r| ==> r[i] == table[indices[i]].route
  {
    seq(|indices|, i requires 0 <= i < |indices| => table[indices[i]].route)
  }

  /**
   * `#getRoutingTree(route, tree)`: push the route, climb to its parent, and
   * at the root push it and reverse what was collected.
   */
  function RoutingTree(table: seq<Entry>, k: nat, tree: seq<Route>): seq<Route>
    requires WellFormed(table) && k < |table|
    decreases k
  {
    match table[k].parent
    case None => Reverse(tree + [table[k].route])
    case Some(p) => RoutingTree(table, p, tree + [table[k].route])
  }

  /** The routing tree of an entry is its ancestors' routes, root first and ending with the entry's own route. */
  lemma {:induction false} RoutingTreeIsAncestorChain(table: seq<Entry>, k: nat, tree: seq<Route>)
    requires WellFormed(table) && k < |table|
    ensures RoutingTree(table, k, tree) == RoutesAt(table, Ancestors(table, k)) + Reverse(tree)
    decreases k
  {
    var route := table[k].route;
    ReverseSnoc(tree, route);
    match table[k].parent
    case None =>
      assert RoutesAt(table, [k]) == [route];
    case Some(p) =>
      RoutingTreeIsAncestorChain(table, p, tree + [route]);
      assert RoutesAt(table, Ancestors(table, p) + [k]) == RoutesAt(table, Ancestors(table, p)) + [route];
  }

  lemma ReverseSnoc<T>(s: seq<T>, x: T)
    ensures Reverse(s + [x]) == [x] + Reverse(s)
  {
    assert |Reverse(s + [x])| == |[x] + Reverse(s)|;
    forall i | 0 <= i < |s| + 1 ensures Reverse(s + [x])[i] == ([x] + Reverse(s))[i] {
    }
  }

  /*
   * Lookups
   */

  /** Index of the first entry from `from` on whose route matches `path`, or `|table|`. */
  function FirstMatchFrom(table: seq<Entry>, path: string, matchRoute: RouteMatcher, from: nat): (k: nat)
    requires from <= |table|
    ensures from <= k <= |table|
    ensures k < |table| ==> matchRoute(table[k].route, path).Some?
    ensures forall j :: from <= j < k ==> matchRoute(table[j].route, path).None?
    decreases |table| - from
  {
    if from == |table| then from
    else if matchRoute(table[from].route, path).Some? then from
    else FirstMatchFrom(table, path, matchRoute, from + 1)
  }

  /** Index of the first entry whose route has the id, or `|table|`. */
  function IndexById(table: seq<Entry>, id: string): (k: nat)
    ensures k <= |table|
    ensures k < |table| ==> table[k].route.id == Some(id)
    ensures forall j :: 0 <= j < k ==> table[j].route.id != Some(id)
  {
    if table == [] then 0
    else if table[0].route.id == Some(id) then 0
    else 1 + IndexById(table[1..], id)
  }

  /**
   * Splitting a joined path: one trailing "/" dropped, then the pathname up
   * to the first "?" ("/" when empty) and the search up to the next one.
   */
  function SplitLocation(joined: string): (l: Location)
    ensures l.pathname != ""
    ensures '?' !in l.pathname && '?' !in l.search
  {
    var stripped := if |joined| > 0 && joined[|joined| - 1] == '/' then joined[..|joined| - 1] else joined;
    var parts := Text.Split(stripped, '?');
    Location(if parts[0] == "" then "/" else parts[0], if |parts| > 1 && parts[1] != "" then parts[1] else "")
  }

  /** The location `goto` pushes: the base followed by the path with its first occurrence of the base removed, split. */
  function GotoLocation(base: string, path: string): (l: Location)
    ensures l.pathname != ""
    ensures '?' !in l.pathname && '?' !in l.search
  {
    SplitLocation(base + Text.ReplaceFirst(path, base, ""))
  }

  /** Without a base, a path holding no "?" and not ending in "/" is pushed as it is, with no search. */
  lemma GotoWithoutBase(path: string)
    requires path != "" && '?' !in path && path[|path| - 1] != '/'
    ensures GotoLocation("", path) == Location(path, "")
  {
    Text.ReplaceEmptyByEmpty(path);
    assert "" + path == path;
    Text.SplitWithoutSeparator(path, '?');
  }

  /** A path whose only "?" follows its pathname keeps the part after it as the search. */
  lemma GotoSplitsSearch(pathname: string, search: string)
    requires pathname != "" && '?' !in pathname && '?' !in search
    requires search != "" && search[|search| - 1] != '/'
    ensures GotoLocation("", pathname + "?" + search) == Location(pathname, search)
  {
    var path := pathname + "?" + search;
    Text.ReplaceEmptyByEmpty(path);
    assert "" + path == path;
    assert path[|path| - 1] == search[|search| - 1];
    Text.SplitAtFirst(pathname, search, '?');
    Text.SplitWithoutSeparator(search, '?');
    assert Text.Split(path, '?') == [pathname, search];
  }

  /**
   * A path that already starts with the base gets the base once: the
   * leading base is the occurrence removed, so the result is the same as
   * for the path without it.
   */
  lemma GotoBaseNotDoubled(base: string, path: string)
    requires base != "" && !Text.Includes(path, base)
    ensures GotoLocation(base, base + path) == GotoLocation(base, path)
  {
    var s := base + path;
    assert s[0..|base|] == base;
    Text.FindFirstAt(s, base, 0);
    assert s[|base|..] == path;
    assert Text.ReplaceFirst(s, base, "") == path;
  }

  /** With a base the path does not contain, a plain path is pushed as the base followed by the path. */
  lemma GotoWithBase(base: string, path: string)
    requires base != "" && !Text.Includes(path, base)
    requires path != "" && '?' !in base + path && path[|path| - 1] != '/'
    ensures GotoLocation(base, path) == Location(base + path, "")
    ensures GotoLocation(base, base + path) == Location(base + path, "")
  {
    GotoBaseNotDoubled(base, path);
    var joined := base + path;
    assert joined[|joined| - 1] == path[|path| - 1];
    Text.SplitWithoutSeparator(joined, '?');
  }

  /** The search ends at a second "?": whatever follows it is dropped. */
  lemma GotoStopsAtSecondQuery(pathname: string, search: string, rest: string)
    requires pathname != "" && '?' !in pathname && '?' !in search && search != ""
    ensures GotoLocation("", pathname + "?" + search + "?" + rest) == Location(pathname, search)
  {
    var path := pathname + "?" + search + "?" + rest;
    Text.ReplaceEmptyByEmpty(path);
    assert "" + path == path;
    var kept := if |rest| > 0 && rest[|rest| - 1] == '/' then rest[..|rest| - 1] else rest;
    var tail := search + "?" + kept;
    var stripped := pathname + "?" + tail;
    assert stripped == if path[|path| - 1] == '/' then path[..|path| - 1] else path;
    Text.SplitAtFirst(pathname, tail, '?');
    Text.SplitAtFirst(search, kept, '?');
    Text.AppendAssociates([pathname], [search], Text.Split(kept, '?'));
    SplitLocationOfParts(path, stripped, pathname, search, Text.Split(kept, '?'));
  }

  /** A joined path whose stripped form splits into a pathname, a search and more gives those two. */
  lemma SplitLocationOfParts(joined: string, stripped: string, pathname: string, search: string, more: seq<string>)
    requires stripped == if |joined| > 0 && joined[|joined| - 1] == '/' then joined[..|joined| - 1] else joined
    requires Text.Split(stripped, '?') == [pathname] + [search] + more
    requires pathname != "" && search != ""
    ensures SplitLocation(joined) == Location(pathname, search)
  {
  }

  /** The root path goes to "/" with no search. */
  lemma GotoRoot()
    ensures GotoLocation("", "/") == Location("/", "")
  {
    Text.ReplaceEmptyByEmpty("/");
    assert "" + "/" == "/";
    assert "/"[..0] == "";
    Text.SplitWithoutSeparator("", '?');
  }

  class Router {
    const base: string
    const matchRoute: RouteMatcher
    /** The registered routes, in registration order. */
    var table: seq<Entry>
    /** The last route handed to `setRoute`, if any. */
    var resolved: Option<Resolved>
    /** Every location pushed onto the history, with its state, oldest first. */
    var pushed: seq<(Location, Fields)>

    constructor (base: string, matchRoute: RouteMatcher)
      ensures this.base == NormaliseBase(base) && this.matchRoute == matchRoute
      ensures table == [] && resolved.None? && pushed == []
    {
      this.base := NormaliseBase(base);
      this.matchRoute := matchRoute;
      table := [];
      resolved := None;
      pushed := [];
    }

    /** `register(routes, parent)`: each route is appended, then its children registered under it. */
    method Register(routes: seq<Route>, parent: Option<nat>)
      modifies this`table
      ensures table == old(table) + Flatten(routes, parent, |old(table)|)
      decreases routes
    {
      var i := 0;
      while i < |routes|
        invariant 0 <= i <= |routes|
        invariant table == old(table) + Flatten(routes[..i], parent, |old(table)|)
      {
        var route := routes[i];
        var index := |table|;
        ghost var before := table;
        table := table + [Entry(route, parent)];
        if route.children != [] {
          Register(route.children, Some(index));
        } else {
          assert Flatten(route.children, Some(index), index + 1) == [];
        }
        assert table == before + [Entry(route, parent)] + Flatten(route.children, Some(index), index + 1);
        RegisterStep(old(table), routes, i, parent);
        i := i + 1;
      }
      assert routes[..i] == routes;
    }

    /** The `routes` getter: a new array holding the table, so changing it leaves the table alone. */
    method Routes() returns (copy: array<Entry>)
      ensures fresh(copy) && copy[..] == table
    {
      copy := new Entry[|table|](k requires 0 <= k < |table| reads this => table[k]);
    }

    /** The `resolved` getter: an error until a route has been set, then that route. */
    function Resolution(): (r: Result<Resolved, string>)
      reads this
      ensures r.Err? <==> resolved.None?
      ensures r.Ok? ==> Some(r.value) == resolved
    {
      match resolved
      case None => Err("No route has been resolved yet")
      case Some(route) => Ok(route)
    }

    method SetRoute(route: Resolved)
      modifies this`resolved
      ensures Resolution() == Ok(route)
    {
      resolved := Some(route);
    }

    /** `getRoute(path)`: the first registered route that matches, with its parameters. */
    function GetRoute(path: string): (r: Option<(Route, Params)>)
      reads this
      ensures r.None? <==> forall k :: 0 <= k < |table| ==> matchRoute(table[k].route, path).None?
      ensures r.Some? ==> exists k :: (0 <= k < |table| && r.value.0 == table[k].route &&
        Some(r.value.1) == matchRoute(table[k].route, path) &&
        forall j :: 0 <= j < k ==> matchRoute(table[j].route, path).None?)
    {
      var k := FirstMatchFrom(table, path, matchRoute, 0);
      if k == |table| then None else Some((table[k].route, matchRoute(table[k].route, path).value))
    }

    /** `getResolvedRoute(path, search)`: the matched route with its parameters and the search. */
    function GetResolvedRoute(path: string, search: string): (r: Option<Resolved>)
      reads this
      ensures r.None? <==> GetRoute(path).None?
      ensures r.Some? ==> r.value == Resolved(GetRoute(path).value.0, GetRoute(path).value.1, search)
    {
      match GetRoute(path)
      case None => None
      case Some((route, params)) => Some(Resolved(route, params, search))
    }

    /** `getRouteById(id)`: the first registered route with that id. */
    function GetRouteById(id: string): (r: Option<Route>)
      reads this
      ensures r.None? <==> forall k :: 0 <= k < |table| ==> table[k].route.id != Some(id)
      ensures r.Some? ==> r.value.id == Some(id) && r.value == table[IndexById(table, id)].route
    {
      var k := IndexById(table, id);
      if k == |table| then None else Some(table[k].route)
    }

    /** `goto(path, state)`: one history push of the split path. */
    method Goto(path: string, state: Fields)
      modifies this`pushed
      ensures pushed == old(pushed) + [(GotoLocation(base, path), state)]
    {
      pushed := pushed + [(GotoLocation(base, path), state)];
    }
  }

  /** One turn of `register`'s loop extends the flattened prefix by the next route and its subtree. */
  lemma RegisterStep(start: seq<Entry>, routes: seq<Route>, i: nat, parent: Option<nat>)
    requires i < |routes|
    ensures var before := start + Flatten(routes[..i], parent, |start|);
      before + [Entry(routes[i], parent)] + Flatten(routes[i].children, Some(|before|), |before| + 1)
      == start + Flatten(routes[..i + 1], parent, |start|)
  {
    var prefix := Flatten(routes[..i], parent, |start|);
    var entry := Entry(routes[i], parent);
    var tail := Flatten(routes[i].children, Some(|start| + |prefix|), |start| + |prefix| + 1);
    assert routes[..i + 1] == routes[..i] + [routes[i]];
    FlattenSnoc(routes[..i], routes[i], parent, |start|);
    Text.AppendAssociates(start, prefix + [entry], tail);
    Text.AppendAssociates(start, prefix, [entry]);
  }

  /** Each route's own entries, given the table length at which they start. */
  type Subtrees = (Route, nat) -> seq<Entry>

  /** A run of sibling routes, each followed by the entries `subtrees` gives it, laid out from `offset` on. */
  function Siblings(routes: seq<Route>, parent: Option<nat>, offset: nat, subtrees: Subtrees): seq<Entry>
    decreases |routes|
  {
    if routes == [] then []
    else
      var subtree := subtrees(routes[0], offset);
      [Entry(routes[0], parent)] + subtree + Siblings(routes[1..], parent, offset + 1 + |subtree|, subtrees)
  }

  /** The subtrees `register` lays out: a route's children, registered under it. */
  function Children(): Subtrees
  {
    (route: Route, offset: nat) => Flatten(route.children, Some(offset), offset + 1)
  }

  /** `Flatten` is a run of siblings whose subtrees are their children, flattened. */
  lemma {:induction false} FlattenIsSiblings(routes: seq<Route>, parent: Option<nat>, offset: nat)
    ensures Flatten(routes, parent, offset) == Siblings(routes, parent, offset, Children())
    decreases |routes|
  {
    if routes != [] {
      var subtree := Flatten(routes[0].children, Some(offset), offset + 1);
      assert Children()(routes[0], offset) == subtree;
      FlattenIsSiblings(routes[1..], parent, offset + 1 + |subtree|);
    }
  }

  /** One more sibling at the end adds its entry and its subtree after the others. */
  lemma {:induction false} SiblingsSnoc(routes: seq<Route>, route: Route, parent: Option<nat>, offset: nat, subtrees: Subtrees)
    ensures Siblings(routes + [route], parent, offset, subtrees) ==
      var before := Siblings(routes, parent, offset, subtrees);
      before + [Entry(route, parent)] + subtrees(route, offset + |before|)
    decreases |routes|
  {
    if routes == [] {
      assert [route][1..] == [];
    } else {
      var head := [Entry(routes[0], parent)];
      var subtree := subtrees(routes[0], offset);
      var next := offset + 1 + |subtree|;
      var rest := Siblings(routes[1..], parent, next, subtrees);
      var entry := Entry(route, parent);
      var tail := subtrees(route, next + |rest|);
      assert (routes + [route])[0] == routes[0];
      assert (routes + [route])[1..] == routes[1..] + [route];
      SiblingsSnoc(routes[1..], route, parent, next, subtrees);
      Text.AppendAssociates(head + subtree, rest + [entry], tail);
      Text.AppendAssociates(head + subtree, rest, [entry]);
    }
  }

  /** Registering one more route appends it and its subtree after what the earlier routes produced. */
  lemma FlattenSnoc(routes: seq<Route>, route: Route, parent: Option<nat>, offset: nat)
    ensures Flatten(routes + [route], parent, offset) ==
      var before := Flatten(routes, parent, offset);
      before + [Entry(route, parent)] + Flatten(route.children, Some(offset + |before|), offset + |before| + 1)
  {
    FlattenIsSiblings(routes + [route], parent, offset);
    FlattenIsSiblings(routes, parent, offset);
    SiblingsSnoc(routes, route, parent, offset, Children());
  }
}
