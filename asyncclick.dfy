/** The AsyncLogLevel parameter type for asyncclick, a thin adapter over LevelParser. */
module AsyncClick {
  import opened Wrappers
  import opened Text
  import opened Registry
  import opened Core
  import opened Params

  class AsyncLogLevel {
    /** self.parser, the only state the adapter has. */
    const parser: LevelParser

    constructor (extra: Extra, known: map<string, int>)
      ensures fresh(parser)
      ensures parser.Valid() && parser.extra == extra && parser.known == known
    {
      parser := new LevelParser(extra, known);
    }

    /** An integer first; otherwise parser.parse, its KeyError becoming the failure message. */
    function Convert(value: Input): (r: Converted)
      requires parser.Valid()
      ensures IntOf(value).Some? ==> r == Level(Num(IntOf(value).value))
      ensures IntOf(value).None? ==>
                value.StrIn? &&
                r == match Resolve(parser.extra, parser.known, Upper(value.s))
                     case Some(v) => Level(v)
                     case None => Invalid(InvalidMessage(value.s))
    {
      match IntOf(value)
      case Some(n) => Level(Num(n))
      case None =>
        match parser.Parse(value.s)
        case Some(v) => Level(v)
        case None => Invalid(InvalidMessage(value.s))
    }

    function GetMetavar(): (r: string)
      requires parser.Valid()
      ensures r == Metavar(DisplayNames(parser.extra))
    {
      parser.metavar
    }

    method ShellComplete(incomplete: string) returns (items: seq<CompletionItem>)
      requires parser.Valid()
      ensures |items| == |Completions(Build(parser.extra, parser.known).keys, Upper(incomplete))|
      ensures forall i :: 0 <= i < |items| ==>
                items[i] == CompletionItem(Completions(Build(parser.extra, parser.known).keys, Upper(incomplete))[i])
    {
      var cs := parser.GetCompletions(incomplete);
      items := seq(|cs|, i requires 0 <= i < |cs| => CompletionItem(cs[i]));
    }
  }
}
