/** Exceptions as the bus sees them: a kind, a message and an optional cause
    (PHP's `$previous`), plus the two message templates the bus formats with
    `sprintf`. */
module Errors {
  import opened Wrappers
  import opened Requests

  datatype ErrorKind =
    | CannotFindHandlerException
    | CannotHandleTheCommandException       // thrown by BasicCommandBus
    | CannotExecuteTheCommandException      // thrown by CommandBus
    | HandlerException(className: ClassName) // Handler\Exception or a subclass of it
    | OtherException(className: ClassName)   // anything else a collaborator throws

  datatype Error = Error(kind: ErrorKind, message: string, previous: Option<Error>)

  /** A `sprintf` format with exactly one `%s`, split at the placeholder. */
  datatype Template = Template(prefix: string, suffix: string)

  const NotFoundTemplate := Template("Cannot find handler for command: '", "'.")
  const CannotBeHandledTemplate := Template("Command '", "' cannot be handled.")

  /** `sprintf(template, name)`: the prefix, then exactly the class name,
      then the suffix. */
  function Format(t: Template, name: ClassName): (m: string)
    ensures |m| == |t.prefix| + |name| + |t.suffix|
    ensures m[..|t.prefix|] == t.prefix
    ensures m[|t.prefix|..|t.prefix| + |name|] == name
    ensures m[|t.prefix| + |name|..] == t.suffix
  {
    t.prefix + name + t.suffix
  }

  /** Recovers the class name from a formatted message, if it has the shape. */
  function Parse(t: Template, message: string): (r: Option<ClassName>)
    ensures r.Some? ==> |r.value| + |t.prefix| + |t.suffix| == |message|
  {
    if |t.prefix| + |t.suffix| <= |message|
       && message[..|t.prefix|] == t.prefix
       && message[|message| - |t.suffix|..] == t.suffix
    then Some(message[|t.prefix|..|message| - |t.suffix|])
    else None
  }

  /** Every class name survives formatting: the message names the class. */
  lemma ParseFormat(t: Template, name: ClassName)
    ensures Parse(t, Format(t, name)) == Some(name)
  {
    var m := Format(t, name);
    assert m[..|t.prefix|] == t.prefix;
    assert m[|m| - |t.suffix|..] == t.suffix;
    assert m[|t.prefix|..|m| - |t.suffix|] == name;
  }

  /** Every message that parses is exactly the formatting of what it names. */
  lemma FormatParse(t: Template, message: string)
    requires Parse(t, message).Some?
    ensures Format(t, Parse(t, message).value) == message
  {
    var name := Parse(t, message).value;
    assert message == message[..|t.prefix|] + name + message[|message| - |t.suffix|..];
  }

  /** Distinct class names give distinct messages. */
  lemma FormatInjective(t: Template, a: ClassName, b: ClassName)
    requires Format(t, a) == Format(t, b)
    ensures a == b
  {
    ParseFormat(t, a);
    ParseFormat(t, b);
  }

  /** The exception `findHandler` throws. */
  function CannotFindHandler(name: ClassName): (e: Error)
    ensures e.kind == CannotFindHandlerException && e.previous == None
    ensures Parse(NotFoundTemplate, e.message) == Some(name)
  {
    ParseFormat(NotFoundTemplate, name);
    Error(CannotFindHandlerException, Format(NotFoundTemplate, name), None)
  }

  /** The exception `tryToHandleCommand` throws after a handler failure;
      `kind` is the bus variant's own wrapper class. */
  function CannotBeHandled(kind: ErrorKind, name: ClassName, cause: Error): (e: Error)
    ensures e.kind == kind && e.previous == Some(cause)
    ensures Parse(CannotBeHandledTemplate, e.message) == Some(name)
  {
    ParseFormat(CannotBeHandledTemplate, name);
    Error(kind, Format(CannotBeHandledTemplate, name), Some(cause))
  }
}
