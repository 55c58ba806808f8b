/** The request parser: turns request text into a typed query, or into one
    of three errors, checked in a fixed order (empty request, then unknown
    command, then wrong number of arguments). */
module Compute {
  import opened Wrappers
  import opened Logging
  import opened Strings
  import Command
  import Query

  /** The errors `Parse` returns, with their texts. */
  datatype ParseError = EmptyRequest | InvalidCommand | InvalidArguments {
    function Message(): string {
      match this
      case EmptyRequest => "empty request"
      case InvalidCommand => "invalid command"
      case InvalidArguments => "invalid arguments"
    }
  }

  datatype Compute = Compute(logger: Logger)

  /** `New`: refuses a nil logger with `invalid logger`. */
  function New(logger: Option<Logger>): (r: Result<Compute, string>)
    ensures logger.None? <==> r.Failure?
    ensures r.Failure? ==> r.error == "invalid logger"
    ensures r.Success? ==> r.value.logger == logger.value
  {
    if logger.None? then Failure("invalid logger") else Success(Compute(logger.value))
  }

  /** `Parse`. The tokens are the request's white-space separated fields;
      the first must be a command name in exact case, and the number of
      remaining tokens must equal the command's arity. Every error comes with
      the zero query; a success carries a well-formed query built from the
      tokens. */
  function Parse(c: Compute, request: string): (r: (Query.Query, Option<ParseError>))
    ensures r.1 == Some(EmptyRequest) <==> Fields(request) == []
    ensures r.1 == Some(InvalidCommand) <==>
      Fields(request) != [] && Command.CommandNameToCommandId(Fields(request)[0]) == Command.Unknown
    ensures r.1 == Some(InvalidArguments) <==>
      && Fields(request) != []
      && Command.CommandNameToCommandId(Fields(request)[0]) != Command.Unknown
      && |Fields(request)| - 1 != Command.CommandArgumentsNumber(Command.CommandNameToCommandId(Fields(request)[0]))
    ensures r.1.Some? ==> r.0 == Query.Zero()
    ensures r.1.None? ==> WellFormed(r.0)
    ensures r.1.None? ==>
      && Query.CommandId(r.0) == Command.CommandNameToCommandId(Fields(request)[0])
      && Query.Arguments(r.0) == Fields(request)[1..]
  {
    var tokens := Fields(request);
    if |tokens| == 0 then (Query.Zero(), Some(EmptyRequest))
    else
      var command := tokens[0];
      var commandId := Command.CommandNameToCommandId(command);
      if commandId == Command.Unknown then (Query.Zero(), Some(InvalidCommand))
      else
        var query := Query.NewQuery(commandId, tokens[1..]);
        var argumentsNumber := Command.CommandArgumentsNumber(commandId);
        if |Query.Arguments(query)| != argumentsNumber then (Query.Zero(), Some(InvalidArguments))
        else (query, None)
  }

  /** The queries a successful parse can produce: a known command, exactly
      its number of arguments, each a token. */
  predicate WellFormed(q: Query.Query) {
    && Query.CommandId(q) != Command.Unknown
    && |Query.Arguments(q)| == Command.CommandArgumentsNumber(Query.CommandId(q))
    && forall i :: 0 <= i < |Query.Arguments(q)| ==> IsToken(Query.Arguments(q)[i])
  }

  /** The canonical request text of a query: its command name and arguments
      separated by single spaces. */
  function Render(q: Query.Query): string {
    Join([Command.Name(Query.CommandId(q))] + Query.Arguments(q), " ")
  }

  lemma NamesAreTokens(id: Command.CommandId)
    ensures IsToken(Command.Name(id))
  {
  }

  /** Parsing the rendering of a well-formed query gives the query back. */
  lemma ParseRender(c: Compute, q: Query.Query)
    requires WellFormed(q)
    ensures Parse(c, Render(q)) == (q, None)
  {
    var tokens := [Command.Name(Query.CommandId(q))] + Query.Arguments(q);
    NamesAreTokens(Query.CommandId(q));
    FieldsOfJoin(tokens);
    assert tokens[1..] == Query.Arguments(q);
    Command.NameRoundTrip(Query.CommandId(q), tokens[0]);
  }

  /** A request the parser accepts is its query's rendering up to white
      space: both split into the same fields. */
  lemma ParseAcceptsOnlyRenderings(c: Compute, request: string)
    requires Parse(c, request).1.None?
    ensures Fields(Render(Parse(c, request).0)) == Fields(request)
  {
    var q := Parse(c, request).0;
    var tokens := Fields(request);
    Command.NameRoundTrip(Query.CommandId(q), tokens[0]);
    NamesAreTokens(Query.CommandId(q));
    FieldsOfJoin([Command.Name(Query.CommandId(q))] + Query.Arguments(q));
    assert [tokens[0]] + tokens[1..] == tokens;
  }

  /** The Go tests: an empty request, an unknown command, a missing
      argument, and a valid GET. */
  lemma ParseEmptyRequest(c: Compute)
    ensures Parse(c, "") == (Query.Zero(), Some(EmptyRequest))
    ensures Parse(c, " \t\n") == (Query.Zero(), Some(EmptyRequest))
  {
    FieldsOfAllSpace(" \t\n");
  }

  lemma ParseInvalidCommand(c: Compute)
    ensures Parse(c, "invalid") == (Query.Zero(), Some(InvalidCommand))
  {
    FieldsOfToken("invalid");
  }

  lemma ParseMissingArgument(c: Compute)
    ensures Parse(c, "GET") == (Query.Zero(), Some(InvalidArguments))
  {
    FieldsOfToken("GET");
  }

  lemma ParseValidGet(c: Compute)
    ensures Parse(c, "GET key") == (Query.Query(Command.Get, ["key"]), None)
  {
    assert Join(["GET", "key"], " ") == "GET key";
    FieldsOfJoin(["GET", "key"]);
  }

  /** Command names are case sensitive: lower-case `get` is no command. */
  lemma ParseIsCaseSensitive(c: Compute)
    ensures Parse(c, "get key") == (Query.Zero(), Some(InvalidCommand))
  {
    assert Join(["get", "key"], " ") == "get key";
    FieldsOfJoin(["get", "key"]);
  }

  /** An unknown command is reported as such even when its argument count
      would also be wrong for every command. */
  lemma ParseChecksCommandBeforeArguments(c: Compute)
    ensures Parse(c, "FOO a b c") == (Query.Zero(), Some(InvalidCommand))
  {
    assert Join(["FOO", "a", "b", "c"], " ") == "FOO a b c";
    FieldsOfJoin(["FOO", "a", "b", "c"]);
  }

  /** The argument count must be exact: too many fails like too few. */
  lemma ParseRejectsExtraArguments(c: Compute)
    ensures Parse(c, "GET key extra") == (Query.Zero(), Some(InvalidArguments))
  {
    assert Join(["GET", "key", "extra"], " ") == "GET key extra";
    FieldsOfJoin(["GET", "key", "extra"]);
  }

  lemma ParseRejectsMissingValue(c: Compute)
    ensures Parse(c, "SET key") == (Query.Zero(), Some(InvalidArguments))
  {
    assert Join(["SET", "key"], " ") == "SET key";
    FieldsOfJoin(["SET", "key"]);
  }
}
