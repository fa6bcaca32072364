/**
 * The key-value cache store the repository caches are written against: Get answers an
 * item or an error (cache.ErrCacheMiss for an absent key), Set writes an item. The store
 * is outside the repository packages; this model of it has a set of keys whose reads
 * fail with a store error and a switch that makes every write fail, so that callers'
 * handling of both can be stated.
 */
module CacheStore {
  import opened Wrappers
  import opened Utf8
  import opened Identity

  /** cache.Item: the expiration is kept as a number of seconds and never acted on here. */
  datatype Item = Item(key: string, value: Bytes, expiration: nat)

  datatype Entry = Entry(value: Bytes, expiration: nat)

  type Entries = map<string, Entry>

  /** The error a failing read answers; it is neither a miss nor repository.ErrNotFound. */
  const StoreFailure: Error := Failure("cache: store failure")

  /** What Get(key) answers for the given contents. */
  function Lookup(entries: Entries, faults: set<string>, key: string): (r: Result<Item, Error>)
    ensures r.Ok? <==> key !in faults && key in entries
    ensures r.Ok? ==> r.value.key == key && r.value.value == entries[key].value
    ensures r.Err? ==> r.error == (if key in faults then StoreFailure else CacheMiss)
  {
    if key in faults then Err(StoreFailure)
    else if key in entries then Ok(Item(key, entries[key].value, entries[key].expiration))
    else Err(CacheMiss)
  }

  /** The contents after Set(item): the item under its key, unless writes fail. */
  function Stored(entries: Entries, failWrites: bool, item: Item): (r: Entries)
    ensures failWrites ==> r == entries
    ensures !failWrites ==> item.key in r && r[item.key] == Entry(item.value, item.expiration)
    ensures !failWrites ==> forall k :: k in entries && k != item.key ==> k in r && r[k] == entries[k]
    ensures r.Keys <= entries.Keys + {item.key}
  {
    if failWrites then entries else entries[item.key := Entry(item.value, item.expiration)]
  }

  class Store {
    var entries: Entries
    const faults: set<string>
    const failWrites: bool

    constructor (entries: Entries, faults: set<string>, failWrites: bool)
      ensures this.entries == entries && this.faults == faults && this.failWrites == failWrites
    {
      this.entries := entries;
      this.faults := faults;
      this.failWrites := failWrites;
    }

    function Get(key: string): Result<Item, Error>
      reads this
    {
      Lookup(entries, faults, key)
    }

    /** Set; its error is dropped by every caller in the repository packages, so it is not returned. */
    method Set(item: Item)
      modifies this
      ensures entries == Stored(old(entries), failWrites, item)
    {
      entries := Stored(entries, failWrites, item);
    }
  }
}
