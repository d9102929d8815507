/**
 * LogLevelType from the top-level click_loglevel.py. It is the legacy type
 * of src/click_loglevel.py except that the module never imports logging, so
 * a standard name reaches getattr(logging, ...) and raises NameError.
 */
module LegacyTop {
  import opened Wrappers
  import opened Text
  import opened Core
  import opened Params

  /** LogLevelType.convert. */
  function Convert(value: Option<Input>): (r: LegacyOutcome)
    ensures value.None? ==> r == Passthrough
    ensures value.Some? && IntOf(value.value).Some? ==> r == LegacyLevel(IntOf(value.value).value)
    ensures value.Some? && IntOf(value.value).None? ==>
              value.value.StrIn? &&
              r == if Upper(value.value.s) in LEVELS then Unbound("logging")
                   else LegacyInvalid(InvalidMessage(value.value.s))
  {
    match value
    case None => Passthrough
    case Some(v) =>
      match IntOf(v)
      case Some(n) => LegacyLevel(n)
      case None =>
        var vupper := Upper(v.s);
        if vupper in LEVELS then Unbound("logging")
        else LegacyInvalid(InvalidMessage(v.s))
  }

  /** LogLevelType.get_metavar. */
  function GetMetavar(): (r: string)
    ensures r == "[" + "NOTSET" + "|" + "DEBUG" + "|" + "INFO" + "|" + "WARNING" + "|" + "ERROR" + "|" + "CRITICAL" + "]"
  {
    StandardMetavar();
    Metavar(LEVELS)
  }
}
