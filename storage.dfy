/**
 * The browser's local storage, reduced to what the pages use: string keys
 * mapped to the values the pages serialise. Values keep their type, so a
 * value read back is the value written.
 */
module Storage {
  import opened Options

  class KeyValueStore<V> {
    var entries: map<string, V>

    /** The store as the browser holds it when the page starts. */
    constructor (initial: map<string, V>)
      ensures entries == initial
    {
      entries := initial;
    }

    /** `getItem(key)`: the stored value, or nothing when the key is absent. */
    function GetItem(key: string): (r: Option<V>)
      reads this
      ensures r.Some? <==> key in entries
      ensures r.Some? ==> r.value == entries[key]
    {
      if key in entries then Some(entries[key]) else None
    }

    /** `setItem(key, value)`: replaces the value under `key` and nothing else. */
    method SetItem(key: string, value: V)
      modifies this
      ensures entries == old(entries)[key := value]
    {
      entries := entries[key := value];
    }
  }
}
