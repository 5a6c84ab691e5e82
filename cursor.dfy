/**
 * The query cursor the store hands out, and `addOptions`, which narrows it
 * by sort, skip and limit. Sorting is done by the query engine, which this
 * model does not interpret.
 */
module Cursors {
  import opened Wrappers

  /** `{[key]: 1 | -1}`: sort direction per key path. */
  type SortSpec = seq<(string, int)>

  /** The query engine's sort: the documents in the order the specification asks for. */
  type Sorter<!T> = (seq<T>, SortSpec) -> seq<T>

  /** The options `addOptions` reads; an absent option is `None`. */
  datatype Options = Options(sort: Option<SortSpec>, skip: Option<nat>, limit: Option<nat>)

  function Min(a: nat, b: nat): nat
  {
    if a <= b then a else b
  }

  /** The documents after dropping the first `n`. */
  function Skipped<T>(documents: seq<T>, n: nat): (r: seq<T>)
    ensures |r| == |documents| - Min(n, |documents|)
    ensures forall i :: 0 <= i < |r| ==> r[i] == documents[n + i]
  {
    documents[Min(n, |documents|)..]
  }

  /** The first `n` documents. */
  function Limited<T>(documents: seq<T>, n: nat): (r: seq<T>)
    ensures |r| == Min(n, |documents|)
    ensures forall i :: 0 <= i < |r| ==> r[i] == documents[i]
  {
    documents[..Min(n, |documents|)]
  }

  /** The documents `addOptions` leaves in the cursor: sorted if asked, then skipped, then limited. */
  function ApplyOptions<T>(documents: seq<T>, options: Options, sorter: Sorter<T>): seq<T>
  {
    var sorted := if options.sort.Some? then sorter(documents, options.sort.value) else documents;
    var skipped := if options.skip.Some? then Skipped(sorted, options.skip.value) else sorted;
    if options.limit.Some? then Limited(skipped, options.limit.value) else skipped
  }

  /**
   * The options select a window of the (possibly sorted) documents: it
   * starts after the skipped ones, holds at most `limit` of them, and
   * takes every document up to that bound.
   */
  lemma ApplyOptionsWindow<T>(documents: seq<T>, options: Options, sorter: Sorter<T>)
    ensures var sorted := if options.sort.Some? then sorter(documents, options.sort.value) else documents;
      var from := if options.skip.Some? then Min(options.skip.value, |sorted|) else 0;
      var r := ApplyOptions(documents, options, sorter);
      && |r| == (if options.limit.Some? then Min(options.limit.value, |sorted| - from) else |sorted| - from)
      && (forall i :: 0 <= i < |r| ==> r[i] == sorted[from + i])
  {
  }

  /** Without options the cursor is left as it is. */
  lemma NoOptionsKeepCursor<T>(documents: seq<T>, sorter: Sorter<T>)
    ensures ApplyOptions(documents, Options(None, None, None), sorter) == documents
  {
  }

  class Cursor<T> {
    /** The documents the cursor yields, in order. */
    var documents: seq<T>

    constructor (documents: seq<T>)
      ensures this.documents == documents
    {
      this.documents := documents;
    }

    method Sort(sorter: Sorter<T>, spec: SortSpec)
      modifies this
      ensures documents == sorter(old(documents), spec)
    {
      documents := sorter(documents, spec);
    }

    method Skip(n: nat)
      modifies this
      ensures documents == Skipped(old(documents), n)
    {
      documents := Skipped(documents, n);
    }

    method Limit(n: nat)
      modifies this
      ensures documents == Limited(old(documents), n)
    {
      documents := Limited(documents, n);
    }

    /** `cursor.all()`. */
    function All(): seq<T>
      reads this
    {
      documents
    }

    /** `cursor.count()`: how many documents `all()` yields. */
    function Count(): (n: nat)
      reads this
      ensures n == |All()|
    {
      |documents|
    }
  }

  /** `addOptions`: sort when a sort is given, then skip and limit when they are set. */
  method AddOptions<T>(cursor: Cursor<T>, options: Options, sorter: Sorter<T>) returns (same: Cursor<T>)
    modifies cursor
    ensures same == cursor
    ensures cursor.documents == ApplyOptions(old(cursor.documents), options, sorter)
  {
    if options.sort.Some? {
      cursor.Sort(sorter, options.sort.value);
    }
    if options.skip.Some? {
      cursor.Skip(options.skip.value);
    }
    if options.limit.Some? {
      cursor.Limit(options.limit.value);
    }
    return cursor;
  }
}
