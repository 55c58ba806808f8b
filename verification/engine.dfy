/** The in-memory engine: a thin wrapper that owns a hash table and hands
    every call to it. The request context it receives is ignored, so the
    model drops it. */
module Engine {
  import opened Wrappers
  import opened Logging
  import HashTable

  datatype Engine = Engine(hashTable: HashTable.HashTable, logger: Option<Logger>)

  /** `NewEngine`: an engine over a fresh, empty table. The logger is kept
      as given, nil or not. */
  function New(logger: Option<Logger>): (e: Engine)
    ensures e.hashTable == HashTable.New()
    ensures forall key :: !Get(e, key).1
    ensures e.logger == logger
  {
    Engine(HashTable.New(), logger)
  }

  /** `Get` answers exactly what the table answers. */
  function Get(e: Engine, key: string): (r: (string, bool))
    ensures r == HashTable.Get(e.hashTable, key)
    ensures r.1 <==> key in e.hashTable.data
  {
    HashTable.Get(e.hashTable, key)
  }

  /** `Set` has exactly the effect of the table's `Set`. */
  function Set(e: Engine, key: string, value: string): (e': Engine)
    ensures e'.hashTable == HashTable.Set(e.hashTable, key, value)
    ensures e'.logger == e.logger
    ensures Get(e', key) == (value, true)
  {
    e.(hashTable := HashTable.Set(e.hashTable, key, value))
  }

  /** `Del` has exactly the effect of the table's `Del`. */
  function Del(e: Engine, key: string): (e': Engine)
    ensures e'.hashTable == HashTable.Del(e.hashTable, key)
    ensures e'.logger == e.logger
    ensures !Get(e', key).1
  {
    e.(hashTable := HashTable.Del(e.hashTable, key))
  }
}
