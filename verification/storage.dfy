/** The storage layer between the dispatcher and the engine. It forwards
    writes unchanged and turns the engine's "absent" answer into the
    `not found` error. */
module Storage {
  import opened Wrappers
  import opened Logging
  import Engine

  /** `errNotFound`, the only error storage reports. */
  datatype StorageError = NotFound {
    function Message(): string {
      "not found"
    }
  }

  datatype Storage = Storage(engine: Engine.Engine, logger: Logger)

  /** The key-value map the storage currently holds. */
  function Store(s: Storage): map<string, string> {
    s.engine.hashTable.data
  }

  /** `New`: refuses a nil logger with `invalid logger`, otherwise wraps the
      engine as given. */
  function New(logger: Option<Logger>, engine: Engine.Engine): (r: Result<Storage, string>)
    ensures logger.None? <==> r.Failure?
    ensures r.Failure? ==> r.error == "invalid logger"
    ensures r.Success? ==> r.value.engine == engine && r.value.logger == logger.value
  {
    if logger.None? then Failure("invalid logger") else Success(Storage(engine, logger.value))
  }

  /** `Get`: the stored value with no error, or the empty string with
      `NotFound` when the engine does not have the key. */
  function Get(s: Storage, key: string): (r: (string, Option<StorageError>))
    ensures key in Store(s) ==> r == (Store(s)[key], None)
    ensures key !in Store(s) ==> r == ("", Some(NotFound))
    ensures r.1.None? <==> Engine.Get(s.engine, key).1
  {
    var (value, found) := Engine.Get(s.engine, key);
    if found then (value, None) else ("", Some(NotFound))
  }

  /** `Set`: forwards key and value unchanged to the engine; it cannot fail. */
  function Set(s: Storage, key: string, value: string): (s': Storage)
    ensures s' == s.(engine := Engine.Set(s.engine, key, value))
    ensures Store(s') == Store(s)[key := value]
  {
    s.(engine := Engine.Set(s.engine, key, value))
  }

  /** `Del`: forwards the key to the engine; it cannot fail, whether or not
      the key was there. */
  function Del(s: Storage, key: string): (s': Storage)
    ensures s' == s.(engine := Engine.Del(s.engine, key))
    ensures Store(s') == Store(s) - {key}
  {
    s.(engine := Engine.Del(s.engine, key))
  }

  /** After `Set(k, v)`, `Get(k)` returns `v` without error. */
  lemma SetThenGet(s: Storage, key: string, value: string)
    ensures Get(Set(s, key, value), key) == (value, None)
  {
  }

  /** After `Del(k)`, `Get(k)` fails with `not found`, whether or not `k`
      existed before. */
  lemma DelThenGet(s: Storage, key: string)
    ensures Get(Del(s, key), key) == ("", Some(NotFound))
    ensures Get(Del(s, key), key).1.value.Message() == "not found"
  {
  }
}
