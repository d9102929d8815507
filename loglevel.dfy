/** The LogLevel parameter type for Click, which repeats the core's logic inline. */
module ClickLogLevel {
  import opened Wrappers
  import opened Text
  import opened PyInt
  import opened Registry
  import opened Core
  import opened Params

  class LogLevel {
    ghost const extra: Extra
    ghost const known: map<string, int>
    /** self.levels */
    const levels: Reg
    /** self.metavar */
    const metavar: string

    ghost predicate Valid()
    {
      levels == Build(extra, known) && metavar == Metavar(DisplayNames(extra))
    }

    constructor (extra: Extra, known: map<string, int>)
      ensures this.extra == extra && this.known == known
      ensures Valid()
    {
      var lv, names := BuildRegistry(extra, known);
      this.extra := extra;
      this.known := known;
      levels := lv;
      metavar := Metavar(names);
    }

    /**
     * An integer first, whitespace allowed; then the name, case-insensitively;
     * else the failure message quoting the input as given.
     */
    function Convert(value: Input): (r: Converted)
      requires Valid()
      ensures IntOf(value).Some? ==> r == Level(Num(IntOf(value).value))
      ensures IntOf(value).None? ==>
                value.StrIn? &&
                r == match Resolve(extra, known, Upper(value.s))
                     case Some(v) => Level(v)
                     case None => Invalid(InvalidMessage(value.s))
    {
      match IntOf(value)
      case Some(n) => Level(Num(n))
      case None =>
        var key := Upper(value.s);
        BuildResolve(extra, known, key);
        if key in levels.values then Level(levels.values[key]) else Invalid(InvalidMessage(value.s))
    }

    function GetMetavar(): (r: string)
      requires Valid()
      ensures r == Metavar(DisplayNames(extra))
    {
      metavar
    }

    method GetCompletions(incomplete: string) returns (out: seq<string>)
      requires Valid()
      ensures out == Completions(Build(extra, known).keys, Upper(incomplete))
    {
      out := FilterByPrefix(levels.keys, incomplete);
    }

    method ShellComplete(incomplete: string) returns (items: seq<CompletionItem>)
      requires Valid()
      ensures |items| == |Completions(Build(extra, known).keys, Upper(incomplete))|
      ensures forall i :: 0 <= i < |items| ==>
                items[i] == CompletionItem(Completions(Build(extra, known).keys, Upper(incomplete))[i])
    {
      var cs := GetCompletions(incomplete);
      items := seq(|cs|, i requires 0 <= i < |cs| => CompletionItem(cs[i]));
    }
  }
}
