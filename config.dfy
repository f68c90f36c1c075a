/**
  The key/value configuration store: a dictionary read once from the
  configuration file, queried with a fallback default, and updated in place,
  each update optionally asking for the file to be written again.
 */
module ConfigStore {

  /** What the configuration file holds when the store is created. */
  datatype StoredFile<K(==), V> = Missing | Present(contents: map<K, V>)

  class Config<K(==), V> {
    var dict: map<K, V>
    /** How many writes of the file have been requested so far. */
    ghost var saveRequests: nat

    /** Starts from the file's contents, or from the empty map when there is no file. */
    constructor (stored: StoredFile<K, V>)
      ensures stored.Present? ==> dict == stored.contents
      ensures stored.Missing? ==> dict == map[]
      ensures stored.Missing? ==> forall k, d :: Get(k, d) == d
      ensures saveRequests == 0
    {
      dict := if stored.Present? then stored.contents else map[];
      saveRequests := 0;
    }

    /** The stored value of `key`, or `default` when the key is absent. */
    function Get(key: K, default: V): (r: V)
      reads this
      ensures key in dict ==> r == dict[key]
      ensures key !in dict ==> r == default
    {
      if key in dict then dict[key] else default
    }

    /** Stores `value` under `key`; with `save` it requests one write of the file. */
    method Set(key: K, value: V, save: bool)
      modifies this
      ensures forall d :: Get(key, d) == value
      ensures forall k :: k != key ==> (k in dict <==> k in old(dict))
      ensures forall k :: k != key && k in dict ==> dict[k] == old(dict)[k]
      ensures dict.Keys == old(dict.Keys) + {key}
      ensures saveRequests == old(saveRequests) + (if save then 1 else 0)
    {
      dict := dict[key := value];
      if save {
        SaveConfig();
      }
    }

    /** Requests a background write of the current dictionary. */
    method SaveConfig()
      modifies this`saveRequests
      ensures saveRequests == old(saveRequests) + 1
    {
      saveRequests := saveRequests + 1;
    }
  }
}
