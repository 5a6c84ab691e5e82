/**
 * The router's query-string store. `set` and `unset` never touch the
 * current store: they build a new one from a copy and push it onto the
 * history through `replace`, once per call. The store's properties keep
 * their insertion order, as a JavaScript object's do.
 */
module QueryStore {
  import opened Wrappers
  import opened Json
  import Text

  /** A value `set` accepts for a single key: `string | number`. */
  datatype QueryValue = StringValue(s: string) | NumberValue(n: int)

  /** `String(value)`, where an omitted value is undefined. */
  function Stringify(value: Option<QueryValue>): string
  {
    match value
    case None => "undefined"
    case Some(StringValue(s)) => s
    case Some(NumberValue(n)) => Text.IntToString(n)
  }

  /** Writing a property keeps the names distinct. */
  lemma SetFieldKeepsUnique(fields: Fields, k: string, x: Value)
    requires UniqueKeys(fields)
    ensures UniqueKeys(SetField(fields, k, x))
  {
    var i := KeyIndex(fields, k);
    var r := SetField(fields, k, x);
    if i < |fields| {
      assert r == fields[i := (k, x)];
    } else {
      assert r == fields + [(k, x)];
    }
  }

  /** `delete obj[k]`: the first property named `k` goes, every other one keeps its place. */
  function RemoveField(fields: Fields, k: string): (r: Fields)
    ensures |r| <= |fields|
  {
    if fields == [] then []
    else if fields[0].0 == k then fields[1..]
    else [fields[0]] + RemoveField(fields[1..], k)
  }

  /** Deleting a property leaves every other property's value and presence as it was. */
  lemma {:induction false} RemoveFieldKeepsOthers(fields: Fields, k: string, k': string)
    requires k' != k
    ensures Lookup(RemoveField(fields, k), k') == Lookup(fields, k')
    ensures HasKey(RemoveField(fields, k), k') <==> HasKey(fields, k')
  {
    if fields != [] && fields[0].0 != k {
      var rest := RemoveField(fields[1..], k);
      var r := [fields[0]] + rest;
      assert r[1..] == rest;
      if fields[0].0 != k' {
        RemoveFieldKeepsOthers(fields[1..], k, k');
      }
    }
  }

  /** In an object with distinct names, a deleted property is gone and the names stay distinct. */
  lemma {:induction false} RemoveFieldUnique(fields: Fields, k: string)
    requires UniqueKeys(fields)
    ensures !HasKey(RemoveField(fields, k), k) && UniqueKeys(RemoveField(fields, k))
  {
    if fields == [] {
    } else if fields[0].0 == k {
    } else {
      var rest := RemoveField(fields[1..], k);
      var r := [fields[0]] + rest;
      RemoveFieldUnique(fields[1..], k);
      assert r[1..] == rest;
      assert !HasKey(fields[1..], fields[0].0);
      RemoveFieldKeepsOthers(fields[1..], k, fields[0].0);
      forall j | 0 <= j < |rest| ensures rest[j].0 != fields[0].0 {
        assert KeyIndex(rest, rest[j].0) <= j;
      }
    }
  }

  /** One key of `unset`: deleted only when it reads as something other than undefined. */
  function UnsetKey(store: Fields, k: string): (r: Fields)
    ensures Lookup(store, k) == Undefined ==> r == store
    ensures UniqueKeys(store) ==> Lookup(r, k) == Undefined && UniqueKeys(r)
    ensures forall k' :: k' != k ==> Lookup(r, k') == Lookup(store, k') && (HasKey(r, k') <==> HasKey(store, k'))
  {
    if Lookup(store, k) != Undefined then
      forall k' | k' != k
        ensures Lookup(RemoveField(store, k), k') == Lookup(store, k')
        ensures HasKey(RemoveField(store, k), k') <==> HasKey(store, k')
      {
        RemoveFieldKeepsOthers(store, k, k');
      }
      assert UniqueKeys(store) ==> !HasKey(RemoveField(store, k), k) && UniqueKeys(RemoveField(store, k)) by {
        if UniqueKeys(store) {
          RemoveFieldUnique(store, k);
        }
      }
      RemoveField(store, k)
    else store
  }

  /** `unset([k1, ..., kn])`: each listed key unset in turn. */
  function UnsetAll(store: Fields, keys: seq<string>): (r: Fields)
    ensures forall k :: k !in keys ==> Lookup(r, k) == Lookup(store, k) && (HasKey(r, k) <==> HasKey(store, k))
    ensures UniqueKeys(store) ==> UniqueKeys(r) && forall k :: k in keys ==> Lookup(r, k) == Undefined
  {
    if keys == [] then store
    else
      var before := keys[..|keys| - 1];
      var last := keys[|keys| - 1];
      assert keys == before + [last];
      var prior := UnsetAll(store, before);
      UnsetKey(prior, last)
  }

  /** `{...store, ...object}`: each of the object's properties written over the store in turn. */
  function Merge(store: Fields, entries: Fields): (r: Fields)
    ensures forall k :: HasKey(r, k) <==> HasKey(store, k) || HasKey(entries, k)
    ensures UniqueKeys(entries) ==>
      forall k :: Lookup(r, k) == if HasKey(entries, k) then Lookup(entries, k) else Lookup(store, k)
    ensures UniqueKeys(store) ==> UniqueKeys(r)
    decreases |entries|
  {
    if entries == [] then store
    else
      var written := SetField(store, entries[0].0, entries[0].1);
      var r := Merge(written, entries[1..]);
      assert forall k :: HasKey(entries, k) <==> k == entries[0].0 || HasKey(entries[1..], k);
      assert UniqueKeys(entries) ==> !HasKey(entries[1..], entries[0].0) && UniqueKeys(entries[1..]);
      assert forall k :: k != entries[0].0 ==> Lookup(entries, k) == Lookup(entries[1..], k);
      assert UniqueKeys(store) ==> UniqueKeys(written) by {
        if UniqueKeys(store) {
          SetFieldKeepsUnique(store, entries[0].0, entries[0].1);
        }
      }
      r
  }

  /** Setting a key the store lacks and unsetting it again gives back the store. */
  lemma {:induction false} SetThenUnsetRestores(store: Fields, k: string, s: string)
    requires !HasKey(store, k)
    ensures UnsetKey(SetField(store, k, Str(s)), k) == store
  {
    assert SetField(store, k, Str(s)) == store + [(k, Str(s))];
    RemoveAppended(store, k, Str(s));
  }

  lemma {:induction false} RemoveAppended(fields: Fields, k: string, x: Value)
    requires !HasKey(fields, k)
    ensures RemoveField(fields + [(k, x)], k) == fields
  {
    if fields == [] {
    } else {
      assert fields[0].0 != k;
      assert !HasKey(fields[1..], k);
      assert (fields + [(k, x)])[1..] == fields[1..] + [(k, x)];
      RemoveAppended(fields[1..], k, x);
    }
  }

  /** What `set` was called with: a key and a value, or an object of entries. */
  datatype SetArgument = KeyValue(key: string, value: Option<QueryValue>) | Entries(entries: Fields)

  /** What `unset` was called with: nothing, one key, or a list of keys. */
  datatype UnsetArgument = Everything | OneKey(key: string) | Keys(keys: seq<string>)

  /** The store `unset` pushes. */
  function Unsetting(store: Fields, argument: UnsetArgument): Fields
  {
    match argument
    case Everything => []
    case OneKey(k) => UnsetKey(store, k)
    case Keys(keys) => UnsetAll(store, keys)
  }

  class Query {
    /** The current store, `this.get()`. */
    var current: Fields
    /** Every store pushed onto the history, as the object `toQueryString` is given, oldest first. */
    var pushed: seq<Fields>

    constructor (current: Fields)
      ensures this.current == current && pushed == []
    {
      this.current := current;
      pushed := [];
    }

    /** `replace(store)`: one history push of the store. */
    method Replace(store: Fields)
      modifies this`pushed
      ensures pushed == old(pushed) + [store]
    {
      pushed := pushed + [store];
    }

    /** `set(key, value)` or `set(object)`: push the current store with the key or the object's entries written over it. */
    method Set(argument: SetArgument)
      modifies this`pushed
      ensures argument.KeyValue? ==>
        pushed == old(pushed) + [SetField(current, argument.key, Str(Stringify(argument.value)))]
      ensures argument.Entries? ==> pushed == old(pushed) + [Merge(current, argument.entries)]
    {
      match argument
      case KeyValue(key, value) =>
        Replace(SetField(current, key, Str(Stringify(value))));
      case Entries(entries) =>
        Replace(Merge(current, entries));
    }

    /** `unset(key)`: push a copy of the current store with the keys deleted, or the empty store when no key is given. */
    method Unset(argument: UnsetArgument)
      modifies this`pushed
      ensures pushed == old(pushed) + [Unsetting(current, argument)]
    {
      if !argument.Everything? {
        var copy := current;
        if argument.Keys? {
          var keys := argument.keys;
          var i := 0;
          while i < |keys|
            invariant 0 <= i <= |keys|
            invariant copy == UnsetAll(current, keys[..i])
          {
            assert keys[..i + 1][..i] == keys[..i];
            if Lookup(copy, keys[i]) != Undefined {
              copy := RemoveField(copy, keys[i]);
            }
            i := i + 1;
          }
          assert keys[..i] == keys;
        } else {
          if Lookup(copy, argument.key) != Undefined {
            copy := RemoveField(copy, argument.key);
          }
        }
        Replace(copy);
      } else {
        Replace([]);
      }
    }
  }
}
