/** What the parameter types exchange with the command-line framework. */
module Params {
  import opened Wrappers
  import opened PyInt
  import opened PyRepr
  import opened Registry

  /** The value convert receives: a str from the command line, or an int default. */
  datatype Input = IntIn(i: int) | StrIn(s: string)

  /** convert's outcome: the level, or the message self.fail is called with. */
  datatype Converted = Level(value: LevelValue) | Invalid(message: string)

  /** The outcome of the legacy LogLevelType.convert, which also passes None through. */
  datatype LegacyOutcome =
    | Passthrough
    | LegacyLevel(level: int)
    | LegacyInvalid(message: string)
      /** A NameError: the module reads a global it never bound. */
    | Unbound(name: string)

  /** A shell completion suggestion. */
  datatype CompletionItem = CompletionItem(value: string)

  /** int(value): an int is itself, a str is parsed. */
  function IntOf(value: Input): Option<int>
  {
    match value
    case IntIn(i) => Some(i)
    case StrIn(s) => ParseInt(s)
  }

  /** The text of f"{value!r}: invalid log level". */
  function InvalidMessage(value: string): string
  {
    Repr(value) + ": invalid log level"
  }

  /** The message names the original input: different inputs give different messages. */
  lemma InvalidMessageInjective(a: string, b: string)
    requires InvalidMessage(a) == InvalidMessage(b)
    ensures a == b
  {
    var suffix := ": invalid log level";
    assert Repr(a) == InvalidMessage(a)[..|InvalidMessage(a)| - |suffix|];
    assert Repr(b) == InvalidMessage(b)[..|InvalidMessage(b)| - |suffix|];
    ReprInjective(a, b);
  }

  /** An input with nothing to escape is quoted as is: 'x': invalid log level. */
  lemma InvalidMessagePlain(value: string)
    requires forall i :: 0 <= i < |value| ==> IsPlain(value[i])
    ensures InvalidMessage(value) == "'" + value + "': invalid log level"
  {
    ReprPlain(value);
  }
}
