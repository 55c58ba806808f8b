/** The in-memory hash table at the bottom of the storage stack: one map from
    key to value. The Go code guards it with a readers-writer lock; the model
    is sequential, so every operation is a function and a write returns the
    new table. */
module HashTable {

  datatype HashTable = HashTable(data: map<string, string>)

  /** `NewHashTable`: a table that holds no key. */
  function New(): (h: HashTable)
    ensures forall key :: Get(h, key) == ("", false)
  {
    HashTable(map[])
  }

  /** `Get`: the value under `key` and whether it was there; an absent key
      reads as Go's zero value, the empty string. */
  function Get(h: HashTable, key: string): (r: (string, bool))
    ensures r.1 <==> key in h.data
    ensures r.1 ==> r.0 == h.data[key]
    ensures !r.1 ==> r.0 == ""
  {
    if key in h.data then (h.data[key], true) else ("", false)
  }

  /** `Set`: an unconditional upsert. Afterwards `key` reads back as `value`,
      and every other key reads as before. */
  function Set(h: HashTable, key: string, value: string): (h': HashTable)
    ensures Get(h', key) == (value, true)
    ensures forall k :: k != key ==> Get(h', k) == Get(h, k)
    ensures h'.data.Keys == h.data.Keys + {key}
  {
    HashTable(h.data[key := value])
  }

  /** `Del`: afterwards `key` is absent and every other key reads as before;
      deleting an absent key leaves the table as it was. */
  function Del(h: HashTable, key: string): (h': HashTable)
    ensures !Get(h', key).1
    ensures forall k :: k != key ==> Get(h', k) == Get(h, k)
    ensures h'.data.Keys == h.data.Keys - {key}
    ensures key !in h.data ==> h' == h
  {
    HashTable(h.data - {key})
  }

  /** `Get` observes everything: two tables that answer every `Get` alike
      are the same table. */
  lemma GetDeterminesTable(h1: HashTable, h2: HashTable)
    requires forall k :: Get(h1, k) == Get(h2, k)
    ensures h1 == h2
  {
    assert h1.data.Keys == h2.data.Keys by {
      forall k ensures k in h1.data <==> k in h2.data {
        assert Get(h1, k).1 == Get(h2, k).1;
      }
    }
    forall k | k in h1.data ensures h1.data[k] == h2.data[k] {
      assert Get(h1, k) == Get(h2, k);
    }
  }

  /** A second `Set` of the same key overwrites the first. */
  lemma SetOverwrites(h: HashTable, key: string, v1: string, v2: string)
    ensures Set(Set(h, key, v1), key, v2) == Set(h, key, v2)
  {
    GetDeterminesTable(Set(Set(h, key, v1), key, v2), Set(h, key, v2));
  }

  /** Writing a key's current value back changes nothing. */
  lemma SetSameValueIsNoOp(h: HashTable, key: string)
    requires Get(h, key).1
    ensures Set(h, key, Get(h, key).0) == h
  {
    GetDeterminesTable(Set(h, key, Get(h, key).0), h);
  }

  /** `Del` is idempotent. */
  lemma DelIdempotent(h: HashTable, key: string)
    ensures Del(Del(h, key), key) == Del(h, key)
  {
  }

  /** Deleting right after setting undoes the set, whatever was there. */
  lemma DelAfterSet(h: HashTable, key: string, value: string)
    ensures Del(Set(h, key, value), key) == Del(h, key)
  {
    GetDeterminesTable(Del(Set(h, key, value), key), Del(h, key));
  }

  /** Writes to different keys commute. */
  lemma SetsOnDistinctKeysCommute(h: HashTable, k1: string, v1: string, k2: string, v2: string)
    requires k1 != k2
    ensures Set(Set(h, k1, v1), k2, v2) == Set(Set(h, k2, v2), k1, v1)
  {
    GetDeterminesTable(Set(Set(h, k1, v1), k2, v2), Set(Set(h, k2, v2), k1, v1));
  }
}
