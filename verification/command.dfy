/** The command table: command names, their identifiers, and the number of
    arguments each command takes. */
module Command {

  /** `CommandID`. The Go code numbers the identifiers 0 to 3 in this order. */
  datatype CommandId = Unknown | Set | Get | Del

  /** The integer behind each identifier. */
  function Code(id: CommandId): (n: int)
    ensures 0 <= n <= 3
    ensures n == 0 <==> id == Unknown
  {
    match id
    case Unknown => 0
    case Set => 1
    case Get => 2
    case Del => 3
  }

  /** The identifiers are distinct integers. */
  lemma CodesDistinct(a: CommandId, b: CommandId)
    ensures Code(a) == Code(b) <==> a == b
  {
  }

  const UnknownCommand: string := "UNKNOWN"
  const SetCommand: string := "SET"
  const GetCommand: string := "GET"
  const DelCommand: string := "DEL"

  /** `namesToID`. */
  const NamesToId: map<string, CommandId> :=
    map[UnknownCommand := Unknown, SetCommand := Set, GetCommand := Get, DelCommand := Del]

  /** `commandNameToCommandID`: exactly `SET`, `GET` and `DEL`, spelt in
      upper case, name a command; every other name, `UNKNOWN` included, is
      the unknown command. */
  function CommandNameToCommandId(name: string): (id: CommandId)
    ensures id == Set <==> name == "SET"
    ensures id == Get <==> name == "GET"
    ensures id == Del <==> name == "DEL"
    ensures id == Unknown <==> name != "SET" && name != "GET" && name != "DEL"
  {
    if name in NamesToId then NamesToId[name] else Unknown
  }

  /** The name registered for each identifier. */
  function Name(id: CommandId): string {
    match id
    case Unknown => UnknownCommand
    case Set => SetCommand
    case Get => GetCommand
    case Del => DelCommand
  }

  /** Looking up an identifier's own name gives the identifier back, and a
      known identifier is reached from its name only. */
  lemma NameRoundTrip(id: CommandId, name: string)
    ensures CommandNameToCommandId(Name(id)) == id
    ensures id != Unknown && CommandNameToCommandId(name) == id ==> name == Name(id)
  {
  }

  /** `argsNumberForCommand`. */
  const ArgsNumberForCommand: map<CommandId, int> := map[Set := 2, Get := 1, Del := 1]

  /** `commandArgumentsNumber`: SET takes two arguments, GET and DEL one; the
      unknown command has no entry and reads as the map's zero value. */
  function CommandArgumentsNumber(id: CommandId): (n: int)
    ensures id == Set ==> n == 2
    ensures id == Get || id == Del ==> n == 1
    ensures n == 0 <==> id == Unknown
  {
    assert ArgsNumberForCommand.Keys == {Set, Get, Del};
    assert id.Set? || id.Get? || id.Del? || id.Unknown?;
    if id in ArgsNumberForCommand then ArgsNumberForCommand[id] else 0
  }
}
