/** The dispatcher. It splits the request itself (it never calls the parser
    it is given), upper-cases the first token, routes it through a table of
    handlers, and renders every outcome as response text. A handler only
    checks that it has at least the arguments it needs: extra arguments are
    ignored. */
module Database {
  import opened Wrappers
  import opened Logging
  import opened Strings
  import Sorting
  import Storage
  import Compute
  import Command
  import Query
  import HashTable

  /** The three registered handlers. */
  datatype Handler = GetHandler | SetHandler | DelHandler

  datatype Database = Database(
    compute: Compute.Compute,
    storage: Storage.Storage,
    logger: Logger,
    commands: map<string, Handler>)

  /** The handler table `New` registers. */
  const Registered: map<string, Handler> :=
    map["GET" := GetHandler, "SET" := SetHandler, "DEL" := DelHandler]

  /** The key-value map behind the database. */
  function Store(db: Database): map<string, string> {
    Storage.Store(db.storage)
  }

  /** `New`: refuses a nil compute, then a nil logger; otherwise keeps the
      parts it is given and registers exactly GET, SET and DEL, each bound to
      its own handler. The storage is not checked. */
  function New(compute: Option<Compute.Compute>, storage: Storage.Storage, logger: Option<Logger>)
    : (r: Result<Database, string>)
    ensures compute.None? ==> r == Failure("invalid compute")
    ensures compute.Some? && logger.None? ==> r == Failure("invalid logger")
    ensures r.Success? <==> compute.Some? && logger.Some?
    ensures r.Success? ==> r.value.commands.Keys == {"GET", "SET", "DEL"}
    ensures r.Success? ==>
      && r.value.commands["GET"] == GetHandler
      && r.value.commands["SET"] == SetHandler
      && r.value.commands["DEL"] == DelHandler
    ensures r.Success? ==> IsRegistered(r.value)
    ensures r.Success? ==> r.value.compute == compute.value && r.value.logger == logger.value
    ensures r.Success? ==> r.value.storage == storage && Store(r.value) == Storage.Store(storage)
  {
    if compute.None? then Failure("invalid compute")
    else if logger.None? then Failure("invalid logger")
    else Success(Database(compute.value, storage, logger.value, Registered))
  }

  const EmptyCommand: string := "Empty command"
  const Ok: string := "[OK]"
  const SetUsage: string := "Invalid SET command. Usage: SET <key> <value>"
  const GetUsage: string := "Invalid GET command. Usage: GET <key>"
  const DelUsage: string := "Invalid DEL command. Usage: DEL <key>"

  const AvailableCommands: string := "Invalid command. Available commands: "

  /** The answer to an unregistered command: the registered names, sorted
      and comma-joined. Any strictly ascending listing of the names gives the
      same text, so the order in which Go's map yields them does not matter. */
  function InvalidCommandMessage(commands: map<string, Handler>): (r: string)
    ensures AvailableCommands <= r
    ensures forall names :: Sorting.StrictlySorted(names) && (forall x :: x in names <==> x in commands) ==>
      r == AvailableCommands + Join(names, ", ")
  {
    var sorted := Sorting.SortedList(commands.Keys);
    assert forall names :: Sorting.StrictlySorted(names) && (forall x :: x in names <==> x in commands) ==>
      names == sorted by {
      forall names | Sorting.StrictlySorted(names) && (forall x :: x in names <==> x in commands)
        ensures names == sorted
      {
        Sorting.SortedUnique(names, sorted);
      }
    }
    AvailableCommands + Join(sorted, ", ")
  }

  lemma SortedRegisteredNames(names: set<string>)
    requires names == {"GET", "SET", "DEL"}
    ensures Sorting.SortedList(names) == ["DEL", "GET", "SET"]
  {
    var expected := ["DEL", "GET", "SET"];
    assert Sorting.Less("DEL", "GET");
    assert Sorting.Less("GET", "SET");
    assert Sorting.Less("DEL", "SET");
    assert Sorting.StrictlySorted(expected);
    var sorted := Sorting.SortedList(names);
    assert forall x :: x in sorted <==> x in expected;
    Sorting.SortedUnique(sorted, expected);
  }

  lemma JoinRegisteredNames()
    ensures Join(["DEL", "GET", "SET"], ", ") == "DEL, GET, SET"
  {
    assert ["DEL", "GET", "SET"][1..] == ["GET", "SET"];
    assert ["GET", "SET"][1..] == ["SET"];
  }

  /** With the names `New` registers, the answer lists DEL, GET and SET. */
  lemma RegisteredInvalidCommandMessage(commands: map<string, Handler>)
    requires commands.Keys == {"GET", "SET", "DEL"}
    ensures InvalidCommandMessage(commands) == AvailableCommands + "DEL, GET, SET"
  {
    SortedRegisteredNames(commands.Keys);
    JoinRegisteredNames();
  }

  /** `handleSetRequest`: with at least two arguments, stores the second
      under the first and answers `[OK]`; further arguments are ignored.
      With fewer it answers the usage text and changes nothing. */
  function HandleSet(db: Database, args: seq<string>): (r: (string, Database))
    ensures |args| < 2 ==> r == (SetUsage, db)
    ensures |args| >= 2 ==> r.0 == Ok && Store(r.1) == Store(db)[args[0] := args[1]]
    ensures r.1 == db.(storage := r.1.storage)
  {
    if |args| < 2 then (SetUsage, db)
    else
      var key := args[0];
      var value := args[1];
      (Ok, db.(storage := Storage.Set(db.storage, key, value)))
  }

  /** `handleGetRequest`: the stored value, or `[error] not found` when the
      key is absent, or the usage text when no key is given. Never changes
      the database. */
  function HandleGet(db: Database, args: seq<string>): (r: (string, Database))
    ensures r.1 == db
    ensures |args| < 1 ==> r.0 == GetUsage
    ensures |args| >= 1 && args[0] in Store(db) ==> r.0 == Store(db)[args[0]]
    ensures |args| >= 1 && args[0] !in Store(db) ==> r.0 == "[error] not found"
  {
    if |args| < 1 then (GetUsage, db)
    else
      var key := args[0];
      var (value, err) := Storage.Get(db.storage, key);
      if err.Some? then ("[error] " + err.value.Message(), db) else (value, db)
  }

  /** `handleDelRequest`: removes the key, present or not, and answers
      `[OK]`; the usage text when no key is given. */
  function HandleDel(db: Database, args: seq<string>): (r: (string, Database))
    ensures |args| < 1 ==> r == (DelUsage, db)
    ensures |args| >= 1 ==> r.0 == Ok && Store(r.1) == Store(db) - {args[0]}
    ensures r.1 == db.(storage := r.1.storage)
  {
    if |args| < 1 then (DelUsage, db)
    else
      var key := args[0];
      (Ok, db.(storage := Storage.Del(db.storage, key)))
  }

  /** Calls one handler with the arguments that follow the command. */
  function Run(db: Database, handler: Handler, args: seq<string>): (r: (string, Database))
    ensures r.1 == db.(storage := r.1.storage)
  {
    match handler
    case GetHandler => HandleGet(db, args)
    case SetHandler => HandleSet(db, args)
    case DelHandler => HandleDel(db, args)
  }

  /** `HandleRequest`: the response text and the database afterwards. Only
      the storage can change; an empty request and an unregistered command
      change nothing; otherwise the handler registered under the upper-cased
      first token runs on the remaining tokens, in their original case. The
      concrete answers to whole requests on a database `New` built are the
      lemmas below: `HandleSetRequest`, `HandleGetRequest`,
      `HandleDelRequest`, `UnknownCommand`, `MissingArguments` and
      `DispatcherAgreesWithParser`. */
  function HandleRequest(db: Database, request: string): (r: (string, Database))
    ensures r.1 == db.(storage := r.1.storage)
    ensures Fields(request) == [] ==> r == (EmptyCommand, db)
    ensures Fields(request) != [] && ToUpper(Fields(request)[0]) !in db.commands ==>
      r == (InvalidCommandMessage(db.commands), db)
    ensures Fields(request) != [] && ToUpper(Fields(request)[0]) in db.commands ==>
      r == Run(db, db.commands[ToUpper(Fields(request)[0])], Fields(request)[1..])
  {
    var parts := Fields(request);
    if |parts| == 0 then (EmptyCommand, db)
    else
      var command := ToUpper(parts[0]);
      if command !in db.commands then (InvalidCommandMessage(db.commands), db)
      else Run(db, db.commands[command], parts[1..])
  }

  /** A database as `New` builds it. */
  predicate IsRegistered(db: Database) {
    db.commands == Registered
  }

  /** Requests spelt as tokens separated by single spaces. */
  function SetRequest(key: string, value: string): string {
    Join(["SET", key, value], " ")
  }

  function GetRequest(key: string): string {
    Join(["GET", key], " ")
  }

  function DelRequest(key: string): string {
    Join(["DEL", key], " ")
  }

  /** The registered names are tokens. */
  lemma RegisteredNamesAreTokens()
    ensures IsToken("SET") && IsToken("GET") && IsToken("DEL")
  {
    Compute.NamesAreTokens(Command.Set);
    Compute.NamesAreTokens(Command.Get);
    Compute.NamesAreTokens(Command.Del);
  }

  lemma FieldsOfSetRequest(key: string, value: string)
    requires IsToken(key) && IsToken(value)
    ensures Fields(SetRequest(key, value)) == ["SET", key, value]
  {
    RegisteredNamesAreTokens();
    FieldsOfJoin(["SET", key, value]);
  }

  lemma FieldsOfKeyRequest(key: string)
    requires IsToken(key)
    ensures Fields(GetRequest(key)) == ["GET", key]
    ensures Fields(DelRequest(key)) == ["DEL", key]
  {
    RegisteredNamesAreTokens();
    FieldsOfJoin(["GET", key]);
    FieldsOfJoin(["DEL", key]);
  }

  /** The registered names are their own upper case. */
  lemma RegisteredNamesAreUpperCase()
    ensures ToUpper("GET") == "GET" && ToUpper("SET") == "SET" && ToUpper("DEL") == "DEL"
  {
    ToUpperOfUpperCase("GET");
    ToUpperOfUpperCase("SET");
    ToUpperOfUpperCase("DEL");
  }

  /** What `SET key value` does to a registered database: `[OK]`, and the
      key now holds the value while every other key keeps its binding. */
  lemma HandleSetRequest(db: Database, key: string, value: string)
    requires IsRegistered(db) && IsToken(key) && IsToken(value)
    ensures HandleRequest(db, SetRequest(key, value)).0 == Ok
    ensures Store(HandleRequest(db, SetRequest(key, value)).1) == Store(db)[key := value]
  {
    FieldsOfSetRequest(key, value);
    RegisteredNamesAreUpperCase();
  }

  /** What `GET key` answers on a registered database, and that it changes
      nothing. */
  lemma HandleGetRequest(db: Database, key: string)
    requires IsRegistered(db) && IsToken(key)
    ensures HandleRequest(db, GetRequest(key)).1 == db
    ensures key in Store(db) ==> HandleRequest(db, GetRequest(key)).0 == Store(db)[key]
    ensures key !in Store(db) ==> HandleRequest(db, GetRequest(key)).0 == "[error] not found"
  {
    FieldsOfKeyRequest(key);
    RegisteredNamesAreUpperCase();
  }

  /** What `DEL key` does to a registered database: `[OK]` whether or not
      the key existed, and only that key is gone. */
  lemma HandleDelRequest(db: Database, key: string)
    requires IsRegistered(db) && IsToken(key)
    ensures HandleRequest(db, DelRequest(key)).0 == Ok
    ensures Store(HandleRequest(db, DelRequest(key)).1) == Store(db) - {key}
  {
    FieldsOfKeyRequest(key);
    RegisteredNamesAreUpperCase();
  }

  /** After `SET key value`, `GET key` answers the value. */
  lemma SetThenGet(db: Database, key: string, value: string)
    requires IsRegistered(db) && IsToken(key) && IsToken(value)
    ensures HandleRequest(HandleRequest(db, SetRequest(key, value)).1, GetRequest(key)).0 == value
  {
    HandleSetRequest(db, key, value);
    HandleGetRequest(HandleRequest(db, SetRequest(key, value)).1, key);
  }

  /** After `DEL key`, `GET key` answers `[error] not found`, whether or not
      the key existed. */
  lemma DelThenGet(db: Database, key: string)
    requires IsRegistered(db) && IsToken(key)
    ensures HandleRequest(HandleRequest(db, DelRequest(key)).1, GetRequest(key)).0 == "[error] not found"
  {
    HandleDelRequest(db, key);
    HandleGetRequest(HandleRequest(db, DelRequest(key)).1, key);
  }

  /** `DEL` is idempotent: deleting twice answers and leaves the same as
      deleting once. */
  lemma DelIdempotent(db: Database, key: string)
    requires IsRegistered(db) && IsToken(key)
    ensures var once := HandleRequest(db, DelRequest(key));
            HandleRequest(once.1, DelRequest(key)) == once
  {
    var once := HandleRequest(db, DelRequest(key));
    HandleDelRequest(db, key);
    HandleDelRequest(once.1, key);
    FieldsOfKeyRequest(key);
    RegisteredNamesAreUpperCase();
  }

  /** A blank request answers `Empty command` and changes nothing. */
  lemma BlankRequest(db: Database, request: string)
    requires AllSpace(request)
    ensures HandleRequest(db, request) == (EmptyCommand, db)
  {
    FieldsOfAllSpace(request);
  }

  /** On a registered database, a first token that is not GET, SET or DEL in
      any letter case answers the sorted list of commands and changes
      nothing. */
  lemma UnknownCommand(db: Database, request: string)
    requires IsRegistered(db)
    requires Fields(request) != []
    requires var name := ToUpper(Fields(request)[0]); name != "GET" && name != "SET" && name != "DEL"
    ensures HandleRequest(db, request) == (AvailableCommands + "DEL, GET, SET", db)
  {
    assert Registered.Keys == {"GET", "SET", "DEL"};
    assert ToUpper(Fields(request)[0]) !in db.commands;
    RegisteredInvalidCommandMessage(db.commands);
  }

  /** Too few arguments answer the handler's usage text and change nothing. */
  lemma MissingArguments(db: Database, key: string)
    requires IsRegistered(db) && IsToken(key)
    ensures HandleRequest(db, Join(["SET", key], " ")) == (SetUsage, db)
    ensures HandleRequest(db, "GET") == (GetUsage, db)
    ensures HandleRequest(db, "DEL") == (DelUsage, db)
  {
    RegisteredNamesAreUpperCase();
    FieldsOfKeyRequest(key);
    RegisteredNamesAreTokens();
    FieldsOfJoin(["SET", key]);
    FieldsOfToken("GET");
    FieldsOfToken("DEL");
  }

  /** Routing looks at the command token only through its upper case: two
      requests whose first tokens differ only in ASCII letter case and whose
      other tokens agree get the same answer and the same effect. */
  lemma RoutingIgnoresCase(db: Database, a: string, b: string)
    requires Fields(a) != [] && Fields(b) != []
    requires EqualIgnoringCase(Fields(a)[0], Fields(b)[0])
    requires Fields(a)[1..] == Fields(b)[1..]
    ensures HandleRequest(db, a) == HandleRequest(db, b)
  {
    ToUpperEqualIffEqualIgnoringCase(Fields(a)[0], Fields(b)[0]);
  }

  /** `get key` behaves as `GET key`; the key keeps its case. */
  lemma LowerCaseGet(db: Database, key: string)
    requires IsToken(key)
    ensures HandleRequest(db, Join(["get", key], " ")) == HandleRequest(db, GetRequest(key))
  {
    FieldsOfKeyRequest(key);
    RegisteredNamesAreTokens();
    assert IsToken("get");
    FieldsOfJoin(["get", key]);
    RoutingIgnoresCase(db, Join(["get", key], " "), GetRequest(key));
  }

  /** The number of arguments a handler reads. */
  function Needed(handler: Handler): nat {
    if handler == SetHandler then 2 else 1
  }

  /** Arguments beyond those a handler reads are ignored: a request answers
      and acts as the same request cut after the arguments it needs. */
  lemma ExtraArgumentsIgnored(db: Database, a: string, b: string)
    requires IsRegistered(db)
    requires Fields(a) != [] && ToUpper(Fields(a)[0]) in Registered
    requires |Fields(a)| >= 1 + Needed(Registered[ToUpper(Fields(a)[0])])
    requires Fields(b) == Fields(a)[..1 + Needed(Registered[ToUpper(Fields(a)[0])])]
    ensures HandleRequest(db, a) == HandleRequest(db, b)
  {
  }

  /** Store contents the dispatcher can produce: every key and value is a
      token, since both come from splitting a request on white space. */
  predicate TokenStore(store: map<string, string>) {
    forall key :: key in store ==> IsToken(key) && IsToken(store[key])
  }

  /** Every request keeps the store made of tokens. */
  lemma HandleRequestKeepsTokenStore(db: Database, request: string)
    requires TokenStore(Store(db))
    ensures TokenStore(Store(HandleRequest(db, request).1))
  {
    var parts := Fields(request);
    if parts != [] && ToUpper(parts[0]) in db.commands && db.commands[ToUpper(parts[0])] == SetHandler && |parts| >= 3 {
      assert IsToken(parts[1]) && IsToken(parts[2]);
    }
  }

  /** The not-found answer holds a space, so no stored token equals it. */
  lemma NotFoundIsNotAToken()
    ensures !IsToken("[error] not found")
  {
    assert IsSpace("[error] not found"[7]);
  }

  /** In a store of tokens a GET answer cannot be mistaken: it is the
      not-found text exactly when the key is absent. */
  lemma GetAnswerIsUnambiguous(db: Database, key: string)
    requires IsRegistered(db) && IsToken(key) && TokenStore(Store(db))
    ensures HandleRequest(db, GetRequest(key)).0 == "[error] not found" <==> key !in Store(db)
  {
    HandleGetRequest(db, key);
    NotFoundIsNotAToken();
  }

  /** A second SET of the same key overwrites the first: the pair leaves
      the database exactly as the second SET alone. */
  lemma SetOverwrites(db: Database, key: string, v1: string, v2: string)
    requires IsRegistered(db) && IsToken(key) && IsToken(v1) && IsToken(v2)
    ensures HandleRequest(HandleRequest(db, SetRequest(key, v1)).1, SetRequest(key, v2)).1
         == HandleRequest(db, SetRequest(key, v2)).1
  {
    FieldsOfSetRequest(key, v1);
    FieldsOfSetRequest(key, v2);
    RegisteredNamesAreUpperCase();
    HashTable.SetOverwrites(db.storage.engine.hashTable, key, v1, v2);
  }

  /** Every request the parser accepts is executed by the dispatcher as the
      parsed query says: SET stores, GET reads, DEL removes. */
  lemma DispatcherAgreesWithParser(c: Compute.Compute, db: Database, request: string)
    requires IsRegistered(db)
    requires Compute.Parse(c, request).1.None?
    ensures var q := Compute.Parse(c, request).0;
      && (q.commandId == Command.Set ==>
            HandleRequest(db, request) == (Ok, db.(storage := Storage.Set(db.storage, q.args[0], q.args[1]))))
      && (q.commandId == Command.Get && q.args[0] in Store(db) ==>
            HandleRequest(db, request) == (Store(db)[q.args[0]], db))
      && (q.commandId == Command.Get && q.args[0] !in Store(db) ==>
            HandleRequest(db, request) == ("[error] not found", db))
      && (q.commandId == Command.Del ==>
            HandleRequest(db, request) == (Ok, db.(storage := Storage.Del(db.storage, q.args[0]))))
  {
    RegisteredNamesAreUpperCase();
  }

  /** A lower-case command: the parser rejects it, the dispatcher serves it
      as the upper-case one. */
  lemma LowerCaseCommandDiverges(c: Compute.Compute, db: Database, key: string)
    requires IsToken(key)
    ensures Compute.Parse(c, Join(["get", key], " ")).1 == Some(Compute.InvalidCommand)
    ensures HandleRequest(db, Join(["get", key], " ")) == HandleRequest(db, GetRequest(key))
  {
    RegisteredNamesAreTokens();
    assert IsToken("get");
    FieldsOfJoin(["get", key]);
    LowerCaseGet(db, key);
  }

  /** An extra argument: the parser rejects it, the dispatcher ignores the
      extra token. */
  lemma ExtraArgumentDiverges(c: Compute.Compute, db: Database, key: string, extra: string)
    requires IsRegistered(db) && IsToken(key) && IsToken(extra)
    ensures Compute.Parse(c, Join(["GET", key, extra], " ")).1 == Some(Compute.InvalidArguments)
    ensures HandleRequest(db, Join(["GET", key, extra], " ")) == HandleRequest(db, GetRequest(key))
  {
    RegisteredNamesAreTokens();
    FieldsOfJoin(["GET", key, extra]);
    FieldsOfKeyRequest(key);
    RegisteredNamesAreUpperCase();
    ExtraArgumentsIgnored(db, Join(["GET", key, extra], " "), GetRequest(key));
  }

  /** A client session in which every request ends in white space (a raw
      TCP client may send a trailing newline), which changes nothing. */
  lemma ClientSession(db: Database, key: string, value: string, eol: string)
    requires IsRegistered(db) && IsToken(key) && IsToken(value) && AllSpace(eol)
    ensures var r1 := HandleRequest(db, SetRequest(key, value) + eol);
            var r2 := HandleRequest(r1.1, GetRequest(key) + eol);
            var r3 := HandleRequest(r2.1, DelRequest(key) + eol);
            var r4 := HandleRequest(r3.1, GetRequest(key) + eol);
            r1.0 == Ok && r2.0 == value && r3.0 == Ok && r4.0 == "[error] not found"
  {
    FieldsIgnoresTrailingSpace(SetRequest(key, value), eol);
    FieldsIgnoresTrailingSpace(GetRequest(key), eol);
    FieldsIgnoresTrailingSpace(DelRequest(key), eol);
    var r1 := HandleRequest(db, SetRequest(key, value) + eol);
    HandleSetRequest(db, key, value);
    var r2 := HandleRequest(r1.1, GetRequest(key) + eol);
    HandleGetRequest(r1.1, key);
    var r3 := HandleRequest(r2.1, DelRequest(key) + eol);
    HandleDelRequest(r2.1, key);
    HandleGetRequest(r3.1, key);
  }
}
