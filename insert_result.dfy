/** The acknowledgements an insert returns (`storage/operators/insert/result.ts`). */
module InsertResult {
  import opened Documents

  datatype InsertManyResult =
    | ManyNotAcknowledged
    | ManyAcknowledged(insertedCount: nat, insertedIds: map<nat, string>)

  datatype InsertOneResult =
    | OneNotAcknowledged
    | OneAcknowledged(insertedId: string)

  /**
   * The `reduce` that builds `insertedIds`: each document in turn adds the
   * entry from its index to its id.
   */
  function IdsByIndex(documents: seq<Document>): (ids: map<nat, string>)
    ensures forall i :: i in ids ==> i < |documents|
    ensures forall i :: 0 <= i < |documents| ==> i in ids && ids[i] == Id(documents[i])
  {
    if documents == [] then map[]
    else
      var n := |documents| - 1;
      var earlier := IdsByIndex(documents[..n]);
      var last := Id(documents[n]);
      assert forall i :: 0 <= i < n ==> documents[..n][i] == documents[i];
      earlier[n := last]
  }

  /** `getInsertManyResult`: always acknowledged, counting the documents and mapping each index to that document's id. */
  function GetInsertManyResult(documents: seq<Document>): (r: InsertManyResult)
    ensures r.ManyAcknowledged?
    ensures r.insertedCount == |documents|
    ensures forall i: nat :: i in r.insertedIds <==> i < |documents|
    ensures forall i: nat :: i < |documents| ==> r.insertedIds[i] == Id(documents[i])
  {
    ManyAcknowledged(|documents|, IdsByIndex(documents))
  }

  /** No documents: a count of 0 and no ids. */
  lemma EmptyInsertMany()
    ensures GetInsertManyResult([]) == ManyAcknowledged(0, map[])
  {
  }

  /** `getInsertOneResult`: acknowledged, with the document's id. */
  function GetInsertOneResult(document: Document): (r: InsertOneResult)
    ensures r.OneAcknowledged? && r.insertedId == Id(document)
  {
    OneAcknowledged(Id(document))
  }

  /** Inserting one document acknowledges the id that inserting it as a batch of one maps index 0 to. */
  lemma InsertOneAgreesWithMany(document: Document)
    ensures GetInsertManyResult([document]).insertedIds == map[0 := GetInsertOneResult(document).insertedId]
  {
    var ids := GetInsertManyResult([document]).insertedIds;
    assert ids.Keys == {0} by {
      assert forall i: nat :: i in ids.Keys <==> i == 0;
    }
  }
}
