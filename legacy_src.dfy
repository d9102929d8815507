/** LogLevelType from src/click_loglevel.py: the six standard names only, None passed through. */
module LegacySrc {
  import opened Wrappers
  import opened Text
  import opened Core
  import opened Params

  /** LogLevelType.convert. */
  function Convert(value: Option<Input>): (r: LegacyOutcome)
    ensures value.None? ==> r == Passthrough
    ensures value.Some? && IntOf(value.value).Some? ==> r == LegacyLevel(IntOf(value.value).value)
    ensures value.Some? && IntOf(value.value).None? ==>
              value.value.StrIn? &&
              r == if Upper(value.value.s) in LEVELS then LegacyLevel(StandardValue(Upper(value.value.s)).value)
                   else LegacyInvalid(InvalidMessage(value.value.s))
  {
    match value
    case None => Passthrough
    case Some(v) =>
      match IntOf(v)
      case Some(n) => LegacyLevel(n)
      case None =>
        var vupper := Upper(v.s);
        if vupper in LEVELS then LegacyLevel(StandardValue(vupper).value)
        else LegacyInvalid(InvalidMessage(v.s))
  }

  /** LogLevelType.get_metavar. */
  function GetMetavar(): (r: string)
    ensures r == "[" + "NOTSET" + "|" + "DEBUG" + "|" + "INFO" + "|" + "WARNING" + "|" + "ERROR" + "|" + "CRITICAL" + "]"
  {
    StandardMetavar();
    Metavar(LEVELS)
  }
}
