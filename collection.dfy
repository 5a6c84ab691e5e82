/**
 * The `Collection` facade: queries run against the storage's documents,
 * and mutators that look documents up and then hand one request per
 * document to the storage. The storage's own handling of a request is not
 * part of this model; each request is recorded in the order it is issued,
 * and the storage's reply to it is represented by the request itself.
 */
module Collection {
  import opened Wrappers
  import opened Json
  import opened Errors
  import opened Documents
  import opened Cursors
  import Update

  /** A call the collection makes on its storage. */
  datatype Request =
    | InsertRequest(document: Value)
    | UpdateRequest(id: string, criteria: Fields, actions: Update.UpdateOperators)
    | ReplaceRequest(id: string, replacement: Document)
    | DeleteRequest(id: string)
    | FlushRequest

  /** One entry of a result list: the storage's reply to a request, or a failure raised before any request. */
  datatype Reply = Answered(request: Request) | Failed(error: DbError)

  /** `new Query(criteria).find(documents)`: the documents the criteria match, in storage order. */
  function Select(data: seq<Document>, criteria: Fields, matches: Matcher): (r: seq<Document>)
    ensures |r| <= |data|
    ensures forall d :: d in r <==> d in data && matches(Obj(criteria), d)
  {
    if data == [] then []
    else
      var rest := Select(data[1..], criteria, matches);
      assert forall d :: d in data <==> d == data[0] || d in data[1..];
      if matches(Obj(criteria), data[0]) then [data[0]] + rest else rest
  }

  /** Selecting from two runs of documents selects from each in turn: the query keeps storage order. */
  lemma {:induction false} SelectAppend(a: seq<Document>, b: seq<Document>, criteria: Fields, matches: Matcher)
    ensures Select(a + b, criteria, matches) == Select(a, criteria, matches) + Select(b, criteria, matches)
  {
    if a == [] {
      assert a + b == b;
    } else {
      assert (a + b)[0] == a[0];
      assert (a + b)[1..] == a[1..] + b;
      SelectAppend(a[1..], b, criteria, matches);
    }
  }

  /** A single document is kept exactly when the criteria match it, once. */
  lemma SelectOne(d: Document, criteria: Fields, matches: Matcher)
    ensures Select([d], criteria, matches) == if matches(Obj(criteria), d) then [d] else []
  {
    assert [d][1..] == [];
  }

  /** The first document selected is the first stored document the criteria match. */
  lemma {:induction false} SelectFirst(data: seq<Document>, criteria: Fields, matches: Matcher, k: nat)
    requires k < |data| && matches(Obj(criteria), data[k])
    requires forall j :: 0 <= j < k ==> !matches(Obj(criteria), data[j])
    ensures Select(data, criteria, matches) != [] && Select(data, criteria, matches)[0] == data[k]
  {
    if k > 0 {
      SelectFirst(data[1..], criteria, matches, k - 1);
    }
  }

  /** The per-document requests `updateMany` issues, in match order. */
  function PerDocumentUpdates(documents: seq<Document>, criteria: Fields, actions: Update.UpdateOperators): (r: seq<Request>)
    ensures |r| == |documents|
    ensures forall i :: 0 <= i < |r| ==> r[i] == UpdateRequest(Id(documents[i]), criteria, actions)
  {
    seq(|documents|, i requires 0 <= i < |documents| => UpdateRequest(Id(documents[i]), criteria, actions))
  }

  function Answers(requests: seq<Request>): (r: seq<Reply>)
    ensures |r| == |requests|
    ensures forall i :: 0 <= i < |r| ==> r[i] == Answered(requests[i])
  {
    seq(|requests|, i requires 0 <= i < |requests| => Answered(requests[i]))
  }

  class Collection {
    const name: string
    /** The query engine's matcher and sorter. */
    const matches: Matcher
    const sorter: Sorter<Document>
    /** The storage's document list, which queries search. */
    var data: seq<Document>
    /** The storage's documents by id. */
    var documents: map<string, Document>
    /** Every request issued to the storage so far, oldest first. */
    var requests: seq<Request>

    constructor (name: string, matches: Matcher, sorter: Sorter<Document>, data: seq<Document>, documents: map<string, Document>)
      ensures this.name == name && this.matches == matches && this.sorter == sorter
      ensures this.data == data && this.documents == documents && requests == []
    {
      this.name := name;
      this.matches := matches;
      this.sorter := sorter;
      this.data := data;
      this.documents := documents;
      requests := [];
    }

    /** What `query` yields: the matching documents, narrowed by the options when there are any. */
    function QueryDocuments(criteria: Fields, options: Option<Options>): seq<Document>
      reads this
    {
      var found := Select(data, criteria, matches);
      if options.Some? then ApplyOptions(found, options.value, sorter) else found
    }

    /** `query`: a fresh cursor over the matching documents, with the options applied when given. */
    method Query(criteria: Fields, options: Option<Options>) returns (cursor: Cursor<Document>)
      ensures fresh(cursor)
      ensures cursor.documents == QueryDocuments(criteria, options)
    {
      cursor := new Cursor(Select(data, criteria, matches));
      if options.Some? {
        cursor := AddOptions(cursor, options.value, sorter);
      }
    }

    /** `find`: every document the query yields. */
    function Find(criteria: Fields, options: Option<Options>): (r: seq<Document>)
      reads this
      ensures options.None? ==> forall d :: d in r <==> d in data && matches(Obj(criteria), d)
    {
      QueryDocuments(criteria, options)
    }

    /** `findOne`: the first document the query yields, undefined when there is none. */
    function FindOne(criteria: Fields, options: Option<Options>): (r: Option<Document>)
      reads this
      ensures r.None? <==> Find(criteria, options) == []
      ensures r.Some? ==> r.value == Find(criteria, options)[0]
    {
      var found := QueryDocuments(criteria, options);
      if |found| > 0 then Some(found[0]) else None
    }

    /** `count`: how many documents the same query yields. */
    function Count(criteria: Fields, options: Option<Options>): (n: nat)
      reads this
      ensures n == |Find(criteria, options)|
      ensures n == 0 <==> FindOne(criteria, options).None?
    {
      |QueryDocuments(criteria, options)|
    }

    /** `findById`: the storage's document with that id, read from its map without a query. */
    function FindById(id: string): (r: Option<Document>)
      reads this
      ensures r.Some? <==> id in documents
      ensures r.Some? ==> r.value == documents[id]
    {
      if id in documents then Some(documents[id]) else None
    }

    method InsertOne(document: Value) returns (reply: Reply)
      modifies this`requests
      ensures requests == old(requests) + [InsertRequest(document)]
      ensures reply == Answered(InsertRequest(document))
    {
      requests := requests + [InsertRequest(document)];
      reply := Answered(InsertRequest(document));
    }

    /** `insertMany`: one insert per document, replies in input order. */
    method InsertMany(batch: seq<Value>) returns (replies: seq<Reply>)
      modifies this`requests
      ensures requests == old(requests) + seq(|batch|, i requires 0 <= i < |batch| => InsertRequest(batch[i]))
      ensures replies == seq(|batch|, i requires 0 <= i < |batch| => Answered(InsertRequest(batch[i])))
    {
      replies := [];
      var i := 0;
      while i < |batch|
        invariant 0 <= i <= |batch|
        invariant requests == old(requests) + seq(i, k requires 0 <= k < i => InsertRequest(batch[k]))
        invariant replies == seq(i, k requires 0 <= k < i => Answered(InsertRequest(batch[k])))
      {
        var reply := InsertOne(batch[i]);
        replies := replies + [reply];
        i := i + 1;
      }
    }

    /**
     * `updateOne`: the first matching document is updated by its id; with no
     * match the result is a single failure and the storage is not called.
     */
    method UpdateOne(criteria: Fields, actions: Update.UpdateOperators) returns (replies: seq<Reply>)
      modifies this`requests
      ensures FindOne(criteria, None).None? ==>
        replies == [Failed(DocumentNotFound(criteria))] && requests == old(requests)
      ensures FindOne(criteria, None).Some? ==>
        var request := UpdateRequest(Id(Find(criteria, None)[0]), criteria, actions);
        replies == [Answered(request)] && requests == old(requests) + [request]
    {
      var document := FindOne(criteria, None);
      if document.None? {
        return [Failed(DocumentNotFound(criteria))];
      }
      var request := UpdateRequest(Id(document.value), criteria, actions);
      requests := requests + [request];
      replies := [Answered(request)];
    }

    /**
     * `updateMany`: with no match an empty result and no storage call;
     * otherwise one update per matching document, replies in match order.
     */
    method UpdateMany(criteria: Fields, actions: Update.UpdateOperators) returns (replies: seq<Reply>)
      modifies this`requests
      ensures var issued := PerDocumentUpdates(Find(criteria, None), criteria, actions);
        requests == old(requests) + issued && replies == Answers(issued)
      ensures Find(criteria, None) == [] ==> replies == [] && requests == old(requests)
    {
      var matched := Find(criteria, None);
      if |matched| == 0 {
        return [];
      }
      replies := [];
      var i := 0;
      while i < |matched|
        invariant 0 <= i <= |matched|
        invariant matched == Find(criteria, None)
        invariant requests == old(requests) + PerDocumentUpdates(matched[..i], criteria, actions)
        invariant replies == Answers(PerDocumentUpdates(matched[..i], criteria, actions))
      {
        var request := UpdateRequest(Id(matched[i]), criteria, actions);
        requests := requests + [request];
        replies := replies + [Answered(request)];
        assert PerDocumentUpdates(matched[..i + 1], criteria, actions) == PerDocumentUpdates(matched[..i], criteria, actions) + [request];
        i := i + 1;
      }
      assert matched[..i] == matched;
    }

    /** `replaceOne`: the first matching document is replaced by its id; with no match the result is empty. */
    method ReplaceOne(criteria: Fields, document: Document) returns (replies: seq<Reply>)
      modifies this`requests
      ensures FindOne(criteria, None).None? ==> replies == [] && requests == old(requests)
      ensures FindOne(criteria, None).Some? ==>
        var request := ReplaceRequest(Id(Find(criteria, None)[0]), document);
        replies == [Answered(request)] && requests == old(requests) + [request]
    {
      var found := FindOne(criteria, None);
      if found.None? {
        return [];
      }
      var request := ReplaceRequest(Id(found.value), document);
      requests := requests + [request];
      replies := [Answered(request)];
    }

    /** `delete`: one delete request, its reply the only entry. */
    method Delete(id: string) returns (replies: seq<Reply>)
      modifies this`requests
      ensures requests == old(requests) + [DeleteRequest(id)] && replies == [Answered(DeleteRequest(id))]
    {
      requests := requests + [DeleteRequest(id)];
      replies := [Answered(DeleteRequest(id))];
    }

    /** `flush`: removes every document through the storage. */
    method Flush()
      modifies this`requests
      ensures requests == old(requests) + [FlushRequest]
    {
      requests := requests + [FlushRequest];
    }
  }

  /** Without a sort the options pick a contiguous run of the documents the plain query yields, starting after the skipped ones. */
  lemma OptionsSelectWindow(c: Collection, criteria: Fields, options: Options)
    requires options.sort.None?
    ensures var all := c.Find(criteria, None);
      var r := c.Find(criteria, Some(options));
      var from := if options.skip.Some? then Min(options.skip.value, |all|) else 0;
      && from + |r| <= |all|
      && r == all[from..from + |r|]
      && (options.limit.None? ==> from + |r| == |all|)
  {
    var all := c.Find(criteria, None);
    var r := c.Find(criteria, Some(options));
    ApplyOptionsWindow(all, options, c.sorter);
  }
}
