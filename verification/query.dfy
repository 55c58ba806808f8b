/** A parsed request: a command identifier and its arguments. */
module Query {
  import Command

  datatype Query = Query(commandId: Command.CommandId, args: seq<string>)

  /** `CommandID()`. */
  function CommandId(q: Query): Command.CommandId {
    q.commandId
  }

  /** `Arguments()`. */
  function Arguments(q: Query): seq<string> {
    q.args
  }

  /** `NewQuery`: the accessors give back exactly what was passed in; the
      arguments are neither copied, trimmed nor reordered. */
  function NewQuery(id: Command.CommandId, arguments: seq<string>): (q: Query)
    ensures CommandId(q) == id
    ensures Arguments(q) == arguments
  {
    Query(id, arguments)
  }

  /** The zero value `Query{}`: the unknown command and no arguments (a nil
      slice, which has length zero). */
  function Zero(): (q: Query)
    ensures CommandId(q) == Command.Unknown
    ensures Arguments(q) == []
  {
    Query(Command.Unknown, [])
  }
}
