/**
 * The parts of the abstract `Storage` base class that it implements itself:
 * its loading status, and the change broadcast shared by every storage of
 * the same name across browser tabs. Local changes are emitted on the
 * storage's own streams and posted to the channel; messages received from
 * the channel are emitted only, never posted again.
 */
module Storage {
  import opened Wrappers
  import opened Json
  import Cursors

  datatype Status = Loading | Ready

  /** The `type` of a broadcast: a flush or one of the change kinds. */
  datatype BroadcastType = FlushAll | InsertOne | UpdateOne | InsertMany | UpdateMany | Remove

  /** A message on the channel: `{name, type, data}`. */
  datatype Message = Message(name: string, kind: BroadcastType, data: Option<Value>)

  /** What the change stream emits: a local `{type, data}`, or a received message passed on as it came. */
  datatype Change = Local(kind: BroadcastType, data: Option<Value>) | Relayed(message: Message)

  /** An emission on the storage's streams: on the flush stream, or a change on the change stream. */
  datatype Emission = Flushed | Changed(change: Change)

  /** What `broadcast(type, data)` emits locally: a flush for "flush", otherwise `{type, data}` on the change stream. */
  function LocalEmission(kind: BroadcastType, data: Option<Value>): (e: Emission)
    ensures e.Flushed? <==> kind == FlushAll
    ensures e.Changed? ==> e.change == Local(kind, data)
  {
    if kind == FlushAll then Flushed else Changed(Local(kind, data))
  }

  /**
   * What a storage named `self` emits for a message from the channel:
   * nothing for another storage's message, a flush for "flush", and
   * otherwise the message itself on the change stream.
   */
  function ReceivedEmission(self: string, message: Message): (e: Option<Emission>)
    ensures e.None? <==> message.name != self
    ensures e.Some? ==> (e.value.Flushed? <==> message.kind == FlushAll)
    ensures e.Some? && e.value.Changed? ==> e.value.change == Relayed(message)
  {
    if message.name != self then None
    else if message.kind == FlushAll then Some(Flushed)
    else Some(Changed(Relayed(message)))
  }

  /**
   * A broadcast reaches every same-named storage in other tabs as the same
   * kind of emission, with the same type and data, and is ignored by
   * storages of any other name.
   */
  lemma ReceivedMirrorsLocal(name: string, other: string, kind: BroadcastType, data: Option<Value>)
    ensures var posted := Message(name, kind, data);
      var local := LocalEmission(kind, data);
      var received := ReceivedEmission(name, posted);
      && received.Some?
      && (received.value.Flushed? <==> local.Flushed?)
      && (local.Changed? ==>
            (received.value.change.message.kind == local.change.kind &&
             received.value.change.message.data == local.change.data))
      && (other != name ==> ReceivedEmission(other, posted).None?)
  {
  }

  /** The options of a storage query; `addOptions` reads only sort, skip and limit. */
  datatype Range = Range(from: string, to: string)
  datatype Offset = Offset(value: string, direction: int)
  datatype StorageOptions = StorageOptions(
    sort: Option<Cursors.SortSpec>,
    skip: Option<nat>,
    range: Option<Range>,
    offset: Option<Offset>,
    limit: Option<nat>,
    index: Option<Fields>)

  function CursorOptions(options: StorageOptions): Cursors.Options
  {
    Cursors.Options(options.sort, options.skip, options.limit)
  }

  /** The storage's `addOptions`: the same sort, skip and limit as the collection's; range, offset and index play no part. */
  method AddOptions<T>(cursor: Cursors.Cursor<T>, options: StorageOptions, sorter: Cursors.Sorter<T>) returns (same: Cursors.Cursor<T>)
    modifies cursor
    ensures same == cursor
    ensures cursor.documents == Cursors.ApplyOptions(old(cursor.documents), CursorOptions(options), sorter)
  {
    same := Cursors.AddOptions(cursor, CursorOptions(options), sorter);
  }

  class Storage {
    const name: string
    const id: string
    var status: Status
    /** How many times the flush stream has emitted. */
    var flushes: nat
    /** Everything the change stream has emitted, oldest first. */
    var changes: seq<Change>
    /** Every message posted to the channel, oldest first. */
    var posted: seq<Message>

    /** A new storage is loading; `id` stands for the generated identifier. */
    constructor (name: string, id: string)
      ensures this.name == name && this.id == id
      ensures status == Loading && flushes == 0 && changes == [] && posted == []
      ensures Is(Loading) && !Is(Ready)
    {
      this.name := name;
      this.id := id;
      status := Loading;
      flushes := 0;
      changes := [];
      posted := [];
    }

    /** `is(status)`: the storage is in exactly the status asked about. */
    predicate Is(s: Status): (r: bool)
      reads this
      ensures r <==> status == s
    {
      status == s
    }

    method Emit(e: Emission)
      modifies this`flushes, this`changes
      ensures e.Flushed? ==> flushes == old(flushes) + 1 && changes == old(changes)
      ensures e.Changed? ==> flushes == old(flushes) && changes == old(changes) + [e.change]
    {
      match e
      case Flushed => flushes := flushes + 1;
      case Changed(change) => changes := changes + [change];
    }

    /** `broadcast(type, data)`: emit locally, then post exactly one `{name, type, data}` message. */
    method Broadcast(kind: BroadcastType, data: Option<Value>)
      modifies this`flushes, this`changes, this`posted
      ensures posted == old(posted) + [Message(name, kind, data)]
      ensures status == old(status)
      ensures kind == FlushAll ==> flushes == old(flushes) + 1 && changes == old(changes)
      ensures kind != FlushAll ==> flushes == old(flushes) && changes == old(changes) + [Local(kind, data)]
    {
      Emit(LocalEmission(kind, data));
      posted := posted + [Message(name, kind, data)];
    }

    /** The channel's `onmessage`: emit what the message calls for; never post. */
    method OnMessage(message: Message)
      modifies this`flushes, this`changes
      ensures posted == old(posted) && status == old(status)
      ensures message.name != name ==> flushes == old(flushes) && changes == old(changes)
      ensures message.name == name && message.kind == FlushAll ==> flushes == old(flushes) + 1 && changes == old(changes)
      ensures message.name == name && message.kind != FlushAll ==> flushes == old(flushes) && changes == old(changes) + [Relayed(message)]
    {
      var e := ReceivedEmission(name, message);
      if e.None? {
        return;
      }
      Emit(e.value);
    }
  }
}
