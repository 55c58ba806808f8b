# In-memory key-value store: request pipeline

A Dafny model of the request pipeline of a small in-memory key-value
database. The pipeline takes request text in and gives response text out,
and it covers four pieces:

- **Storage stack.** `HashTable` is one `map<string,string>` with `Get`, `Set`
  and `Del`. The in-memory `Engine` hands every call to its table. `Storage`
  turns "absent" into the `not found` error.
- **Command table.** It maps the names `SET`, `GET`, `DEL` to command
  identifiers and each identifier to its arity (2, 1, 1).
- **Parser.** `Compute.Parse` splits a request on white space and looks up the
  command in exact case. It then checks that the argument count is exact. It
  fails with `empty request`, `invalid command` or `invalid arguments`, in that
  order, and it returns the zero query with every error.
- **Dispatcher.** `Database.HandleRequest` splits the request itself,
  upper-cases the first token and routes it through a table of handlers. It
  answers `Empty command`, the sorted list of commands, a usage text, `[OK]`,
  the stored value or `[error] not found`.

The model is functional. Each Go method that mutates state becomes a function
that returns the new value. The database is threaded through
`HandleRequest(db, request)`, which returns `(response, db')`. The key-value
map is `Database.Store(db)`.

The dispatcher never calls the parser it is constructed with. Its handlers
check `len(args) < n`, so they ignore extra arguments. Its routing is
case-insensitive. The parser is case-sensitive and demands an exact count.
The model keeps both behaviours:

- `Database.DispatcherAgreesWithParser` shows that the dispatcher executes
  every request the parser accepts as the parsed query says.
- `Database.LowerCaseCommandDiverges` and `Database.ExtraArgumentDiverges`
  show requests the parser rejects but the dispatcher serves.

Files, one module each:

- `wrappers.dfy`: `Option` (Go's nil) and `Result`.
- `logging.dfy`: the logger placeholder.
- `strings.dfy`: `strings.Fields`, `strings.ToUpper` and `strings.Join`.
- `sorting.dfy`: `sort.Strings` over the handler names.
- `hash_table.dfy`, `engine.dfy` and `storage.dfy`: the storage stack.
- `command.dfy`, `query.dfy` and `compute.dfy`: the parser.
- `database.dfy`: the dispatcher.

Two facts about the code that shape the model:

- `Parse` builds the query with `NewQuery` before it checks the argument
  count. On a count mismatch it discards that query and returns the zero
  query (`internal/database/compute/compute.go:46-52`). The model does the
  same, and a failed parse never exposes the built query.
- The dispatcher routes by command name and never calls the parser
  (`internal/database/database.go:57-75`). The model routes by name too.

## Model

| member | source | states |
|---|---|---|
| Strings.Fields | internal/database/compute/compute.go:32 | splitting yields non-empty tokens without white space (white space is Go's `unicode.IsSpace` set), and together they hold exactly the request's non-space characters, in order |
| Strings.FieldsOfJoin | internal/database/compute/compute.go:32 | tokens joined with single spaces split back into the same tokens |
| Strings.FieldsOfTokenThenSpace | internal/database/database.go:58 | a token followed by white space comes out first, and splitting continues after the white space (runs of white space separate, never produce empty tokens) |
| Strings.FieldsOfAllSpace | internal/database/compute/compute.go:32-36 | an empty or all-white-space request has no tokens |
| Strings.FieldsSkipsLeadingSpace | internal/database/database.go:58 | leading white space does not change the tokens |
| Strings.FieldsIgnoresTrailingSpace | internal/database/database.go:58 | trailing white space, such as the newline a raw TCP client may send, does not change the tokens |
| Strings.ToUpper | internal/database/database.go:63 | upper-casing keeps the length and upper-cases each character on its own, in place |
| Strings.Join | internal/database/database.go:71 | the joined text starts with the first part; `Strings.FieldsOfJoin` gives its inverse for the single-space separator and `Database.JoinRegisteredNames` its value on the registered names |
| Database.JoinRegisteredNames | internal/database/database.go:71 | the sorted names `DEL`, `GET`, `SET` joined with `, ` are exactly `DEL, GET, SET` |
| Strings.ToUpperChar | internal/database/database.go:63 | upper-casing a character leaves no lower-case ASCII letter, maps `a`..`z` onto `A`..`Z` and leaves every other character alone |
| Strings.ToUpperEqualIffEqualIgnoringCase | internal/database/database.go:63-64 | two names route alike exactly when they differ only in ASCII letter case (both directions) |
| Strings.ToUpperIdempotent | internal/database/database.go:63 | upper-casing twice is upper-casing once |
| Sorting.SortedList | internal/database/database.go:66-70 | the listing of the handler names is strictly ascending in Go's string order, holds every name and nothing else, once each |
| Sorting.SortedUnique | internal/database/database.go:66-70 | a set has one strictly sorted listing, so the answer does not depend on the map's random iteration order |
| HashTable.New | internal/database/storage/engine/in_memory/hash_table.go:10-14 | a fresh table answers every `Get` with `("", false)` |
| HashTable.Get | internal/database/storage/engine/in_memory/hash_table.go:23-29 | found exactly when the key is present, then with its value; otherwise Go's zero value `""`; the table is not changed (it is not returned) |
| HashTable.Set | internal/database/storage/engine/in_memory/hash_table.go:16-21 | afterwards `Get(key)` is `(value, true)` and every other key reads as before |
| HashTable.Del | internal/database/storage/engine/in_memory/hash_table.go:31-36 | afterwards `Get(key)` is not found and every other key reads as before; deleting an absent key leaves the table unchanged |
| HashTable.GetDeterminesTable | internal/database/storage/engine/in_memory/hash_table.go:5-8 | two tables that answer every `Get` alike are equal, so the `Get` contracts above fix each operation's effect |
| HashTable.SetOverwrites | internal/database/storage/engine/in_memory/hash_table.go:20 | a second `Set` of a key overwrites the first as if it had never happened |
| HashTable.SetSameValueIsNoOp | internal/database/storage/engine/in_memory/hash_table.go:20 | writing back a key's current value changes nothing |
| HashTable.DelIdempotent | internal/database/storage/engine/in_memory/hash_table.go:35 | deleting twice is deleting once |
| HashTable.DelAfterSet | internal/database/storage/engine/in_memory/hash_table.go:16-36 | deleting right after a `Set` undoes it, whatever the key held before |
| HashTable.SetsOnDistinctKeysCommute | internal/database/storage/engine/in_memory/hash_table.go:20 | writes to different keys commute |
| Engine.New | internal/database/storage/engine/in_memory/engine.go:14-19 | a new engine owns a fresh empty table and keeps the logger as given |
| Engine.Get | internal/database/storage/engine/in_memory/engine.go:21-23 | answers exactly what the table answers |
| Engine.Set | internal/database/storage/engine/in_memory/engine.go:25-27 | has exactly the table's `Set` effect, and the key then reads back |
| Engine.Del | internal/database/storage/engine/in_memory/engine.go:29-31 | has exactly the table's `Del` effect, and the key is then absent |
| Storage.New | internal/database/storage/storage.go:25-34 | fails with `invalid logger` exactly when the logger is nil; otherwise wraps the engine as given |
| Storage.Get | internal/database/storage/storage.go:36-43 | a present key gives its value and no error; an absent key gives `""` and `NotFound` (text `not found`); the error is absent exactly when the engine finds the key |
| Storage.Set | internal/database/storage/storage.go:45-47 | forwards key and value unchanged to the engine, cannot fail, and the store becomes `store[key := value]` |
| Storage.Del | internal/database/storage/storage.go:49-51 | forwards the key to the engine, cannot fail, and the store loses exactly that key |
| Storage.SetThenGet | internal/database/storage/storage.go:36-47 | after `Set(k, v)`, `Get(k)` returns `v` without error |
| Storage.DelThenGet | internal/database/storage/storage.go:36-51 | after `Del(k)`, `Get(k)` fails with `not found` whether or not `k` existed |
| Command.Code | internal/database/compute/command.go:3-8 | identifiers are the integers 0 to 3, and 0 is the unknown command |
| Command.CommandNameToCommandId | internal/database/compute/command.go:17-32 | exactly `SET`, `GET` and `DEL` in upper case map to their identifiers; every other name, `UNKNOWN` and `get` included, is unknown |
| Command.NameRoundTrip | internal/database/compute/command.go:10-22 | looking up an identifier's registered name gives the identifier back, and a known identifier is reached from that name only |
| Command.CommandArgumentsNumber | internal/database/compute/command.go:34-42 | SET takes 2 arguments, GET and DEL 1, and the unknown command reads as the map's zero value 0 (and only it) |
| Query.NewQuery | internal/database/compute/query.go:8-21 | the accessors give back exactly the identifier and arguments passed in |
| Query.Zero | internal/database/compute/query.go:3-6 | the zero query has the unknown command and no arguments |
| Compute.New | internal/database/compute/compute.go:21-29 | fails with `invalid logger` exactly when the logger is nil |
| Compute.Parse | internal/database/compute/compute.go:31-55 | each of the three errors occurs exactly under its condition, in the fixed order; every error carries the zero query; a success carries a well-formed query of token 0's command and the remaining tokens |
| Compute.ParseRender | internal/database/compute/compute.go:46-54 | parsing the single-spaced rendering of any well-formed query gives that query back with no error |
| Compute.ParseAcceptsOnlyRenderings | internal/database/compute/compute.go:31-55 | an accepted request splits into the same tokens as its query's rendering |
| Compute.ParseEmptyRequest | internal/database/compute/compute_test.go:17-24 | `""` and a blank request fail with `EmptyRequest` |
| Compute.ParseInvalidCommand | internal/database/compute/compute_test.go:26-33 | `invalid` fails with `InvalidCommand` |
| Compute.ParseMissingArgument | internal/database/compute/compute_test.go:35-42 | `GET` fails with `InvalidArguments` |
| Compute.ParseValidGet | internal/database/compute/compute_test.go:44-52 | `GET key` gives the GET query with arguments `["key"]` |
| Compute.ParseIsCaseSensitive | internal/database/compute/compute.go:38-44 | `get key` fails with `InvalidCommand` |
| Compute.ParseChecksCommandBeforeArguments | internal/database/compute/compute.go:40-52 | `FOO a b c` fails with `InvalidCommand`, not an argument error |
| Compute.ParseRejectsExtraArguments | internal/database/compute/compute.go:48-52 | `GET key extra` fails with `InvalidArguments`: too many arguments fail |
| Compute.ParseRejectsMissingValue | internal/database/compute/compute.go:46-52 | `SET key` fails with `InvalidArguments`: too few arguments fail |
| Database.New | internal/database/database.go:33-55 | a nil compute fails with `invalid compute`, then a nil logger with `invalid logger`; success exactly when both are given; the database keeps the given compute, storage and logger and registers exactly GET, SET and DEL, each bound to its own handler (GET to the get handler, SET to the set handler, DEL to the delete handler), which is the registered table every request lemma assumes |
| Database.InvalidCommandMessage | internal/database/database.go:65-71 | the unknown-command answer starts with `Invalid command. Available commands: ` and is followed by the names joined with `, ` in any strictly ascending listing, so the map's random iteration order cannot change it |
| Database.RegisteredInvalidCommandMessage | internal/database/database.go:65-72 | with the names GET, SET and DEL registered, the unknown-command answer is exactly `Invalid command. Available commands: ` followed by `DEL, GET, SET` |
| Database.HandleSet | internal/database/database.go:77-88 | fewer than two arguments answer the SET usage text and change nothing; otherwise `[OK]`, the store gains `args[0] := args[1]`, and later arguments are ignored |
| Database.HandleGet | internal/database/database.go:90-103 | no argument answers the GET usage text; a present key answers its value, an absent one `[error] not found`; nothing changes |
| Database.HandleDel | internal/database/database.go:105-115 | no argument answers the DEL usage text and changes nothing; otherwise `[OK]` and the store loses exactly that key, present or not |
| Database.HandleRequest | internal/database/database.go:57-75 | only the storage can change, whatever the request; the concrete answers to whole requests are the lemmas `HandleSetRequest`, `HandleGetRequest`, `HandleDelRequest`, `UnknownCommand`, `MissingArguments` and `DispatcherAgreesWithParser` below |
| Database.BlankRequest | internal/database/database.go:58-61 | an empty or all-white-space request answers `Empty command` and changes nothing |
| Database.UnknownCommand | internal/database/database.go:63-72 | a command that is not GET, SET or DEL in any case answers the sorted listing and changes nothing |
| Database.MissingArguments | internal/database/database.go:77-107 | `SET key`, `GET` and `DEL` answer their usage texts and change nothing |
| Database.RoutingIgnoresCase | internal/database/database.go:63-64 | requests whose command tokens differ only in letter case, with the same arguments, get the same answer and effect |
| Database.LowerCaseGet | internal/database/database.go:63-74 | `get key` behaves as `GET key`, with the key in its original case |
| Database.ExtraArgumentsIgnored | internal/database/database.go:77-112 | a request answers and acts as the same request cut after the arguments its handler reads |
| Database.HandleSetRequest | internal/database/database.go:77-88 | `SET k v` answers `[OK]` and the store becomes `store[k := v]` (other keys unchanged) |
| Database.HandleGetRequest | internal/database/database.go:90-103 | `GET k` answers the stored value or `[error] not found` and changes nothing |
| Database.HandleDelRequest | internal/database/database.go:105-115 | `DEL k` answers `[OK]` whether or not `k` existed, and the store loses only `k` |
| Database.SetThenGet | internal/database/database.go:85-102 | after `SET k v`, `GET k` answers `v` |
| Database.DelThenGet | internal/database/database.go:97-112 | after `DEL k`, `GET k` answers `[error] not found` |
| Database.DelIdempotent | internal/database/database.go:105-115 | a second `DEL k` answers and leaves the same as the first |
| Database.SetOverwrites | internal/database/database.go:85 | `SET k v1` then `SET k v2` leaves the database exactly as `SET k v2` alone |
| Database.HandleRequestKeepsTokenStore | internal/database/database.go:57-88 | every request keeps every stored key and value a white-space-free token |
| Database.GetAnswerIsUnambiguous | internal/database/database.go:97-102 | in such a store, `GET k` answers `[error] not found` exactly when `k` is absent |
| Database.DispatcherAgreesWithParser | internal/database/database.go:57-75 | every request the parser accepts is executed as its query says: SET stores, GET reads or reports not found, DEL removes |
| Database.LowerCaseCommandDiverges | internal/database/compute/compute.go:38-44 | `get k` is an invalid command to the parser but is served as `GET k` by the dispatcher |
| Database.ExtraArgumentDiverges | internal/database/database.go:90-96 | `GET k x` has invalid arguments to the parser but is served as `GET k` by the dispatcher |
| Database.ClientSession | internal/database/database.go:57-115 | with trailing white space on each request, `SET k v`, `GET k`, `DEL k`, `GET k` answer `[OK]`, `v`, `[OK]`, `[error] not found` |

## Left out

- The TCP server and client are not modelled: the accept loop, connection ceiling, deadlines, connection counter, shutdown, the buffer and its overflow check, and the option setters. They are socket I/O and goroutine coordination.
- The readers-writer lock in the hash table is not modelled: the model is sequential, and the lock only matters under concurrency.
- `context.Context` parameters and all logging are not modelled. They do not affect any result, so a logger is only an optional placeholder value.
- Configuration loading, command-line flags, logger construction, the `CreateDatabase` wiring and the interactive clients are not modelled. They are I/O and thin wrappers over external libraries.
- Strings.ToUpper: upper-cases ASCII letters only. Go's `strings.ToUpper` also maps non-ASCII letters, so a first token such as `ſet` (long s) is routed as `SET` by Go but not by the model.
- Strings.Fields: works on Unicode scalar values, while Go's strings are bytes. Invalid UTF-8, which Go's `strings.Fields` treats as non-space, is not represented.
- Storage.New: the `Engine` parameter is an interface in Go. The model fixes it to the in-memory engine, the only implementation.
- Database.New: Go does not check the storage for nil. A nil storage would panic on the first request that reaches the storage: SET with two arguments, or GET or DEL with a key. Empty requests, unknown commands and usage answers never touch it. The model takes a storage value, so that case does not arise.
- Command.Code: Go's `CommandID` is an `int`, and `commandArgumentsNumber` would return 0 for any integer other than 1 to 3. The model's identifier type has only the four named values.
