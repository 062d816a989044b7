/** lib/localStorage.ts: `getData` and `setData` over the browser's key-value store.
    Serialisation through JSON is taken as the identity on the stored records, so the
    text under a key is either the empty string or a serialised array of records. */
module Storage {

  /** What `localStorage.getItem(key)` can hold for a key that is present. */
  datatype Raw<T> = Blank | Json(items: seq<T>)

  /** `getData(key)`: the stored array, or `[]` outside a browser, for a key never written,
      or for a key holding the empty string. */
  function Get<T>(inBrowser: bool, entries: map<string, Raw<T>>, key: string): (r: seq<T>)
    ensures !inBrowser ==> r == []
    ensures key !in entries || entries[key].Blank? ==> r == []
    ensures r != [] ==> inBrowser && key in entries && entries[key] == Json(r)
    ensures inBrowser && key in entries && entries[key].Json? ==> r == entries[key].items
  {
    if !inBrowser then []
    else if key !in entries then []
    else match entries[key]
      case Blank => []
      case Json(items) => items
  }

  /** The entries after `setData(key, data)`. */
  function Put<T>(entries: map<string, Raw<T>>, key: string, data: seq<T>): (r: map<string, Raw<T>>)
    ensures Get(true, r, key) == data
    ensures r.Keys == entries.Keys + {key}
    ensures forall k :: k in entries && k != key ==> r[k] == entries[k]
  {
    entries[key := Json(data)]
  }

  /** A write does not disturb what a read of any other key returns. */
  lemma PutOtherKey<T>(inBrowser: bool, entries: map<string, Raw<T>>, key: string, data: seq<T>, other: string)
    requires other != key
    ensures Get(inBrowser, Put(entries, key, data), other) == Get(inBrowser, entries, other)
  {
  }

  /** A write replaces the value under its key: a second write leaves no trace of the first. */
  lemma PutReplaces<T>(entries: map<string, Raw<T>>, key: string, first: seq<T>, second: seq<T>)
    ensures Put(Put(entries, key, first), key, second) == Put(entries, key, second)
  {
  }

  /** The browser's store. `inBrowser` stands for `typeof window !== "undefined"`. */
  class Store<T> {
    const inBrowser: bool
    var entries: map<string, Raw<T>>

    /** A store holding what earlier sessions left in it. */
    constructor (inBrowser: bool, entries: map<string, Raw<T>>)
      ensures this.inBrowser == inBrowser && this.entries == entries
    {
      this.inBrowser := inBrowser;
      this.entries := entries;
    }

    function GetData(key: string): seq<T>
      reads this
    {
      Get(inBrowser, entries, key)
    }

    /** `setData(key, data)`: replaces the whole value under `key`. */
    method SetData(key: string, data: seq<T>)
      requires inBrowser
      modifies this
      ensures entries == Put(old(entries), key, data)
      ensures GetData(key) == data
      ensures forall k :: k != key ==> GetData(k) == old(GetData(k))
    {
      entries := entries[key := Json(data)];
    }
  }
}
