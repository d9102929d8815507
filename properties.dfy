/**
 * Properties that relate the parameter types to one another and to the
 * core, and the concrete cases the repository's tests check.
 */
module Properties {
  import opened Wrappers
  import opened Text
  import opened PyInt
  import opened PyRepr
  import opened Registry
  import opened Core
  import opened Params
  import opened ClickLogLevel
  import opened AsyncClick
  import LegacySrc
  import LegacyTop

  /** Strings that agree up to case are both integers with the same value, or both not integers. */
  lemma UpperKeepsIntParse(a: string, b: string)
    requires Upper(a) == Upper(b)
    ensures ParseInt(a) == ParseInt(b)
  {
    if exists i :: 0 <= i < |a| && IsAsciiLetter(a[i]) {
      var i :| 0 <= i < |a| && IsAsciiLetter(a[i]);
      UpperKeepsLetters(a, i);
      UpperKeepsLetters(b, i);
      NotIntWithLetter(a, i);
      NotIntWithLetter(b, i);
    } else {
      forall i | 0 <= i < |b|
        ensures !IsAsciiLetter(b[i])
      {
        UpperKeepsLetters(a, i);
        UpperKeepsLetters(b, i);
      }
      assert a == Upper(a);
      assert b == Upper(b);
    }
  }

  /** A name starting with a letter is never read as an integer, in any case. */
  lemma LetterNameNotInt(s: string, name: string)
    requires |name| > 0 && IsAsciiLetter(name[0]) && Upper(s) == name
    ensures ParseInt(s) == None
  {
    UpperKeepsLetters(s, 0);
    NotIntWithLetter(s, 0);
  }

  /** parse depends only on the upper-cased input. */
  lemma ParseCaseInsensitive(p: LevelParser, a: string, b: string)
    requires p.Valid() && Upper(a) == Upper(b)
    ensures p.Parse(a) == p.Parse(b)
  {
  }

  /**
   * convert is case-insensitive: inputs that agree up to case both succeed
   * with the same level or both fail.
   */
  lemma ConvertCaseInsensitive(ll: LogLevel, a: string, b: string)
    requires ll.Valid() && Upper(a) == Upper(b)
    ensures ll.Convert(StrIn(a)).Level? <==> ll.Convert(StrIn(b)).Level?
    ensures ll.Convert(StrIn(a)).Level? ==> ll.Convert(StrIn(a)) == ll.Convert(StrIn(b))
  {
    UpperKeepsIntParse(a, b);
  }

  /** " 42 " and every other padded integer converts to that integer, whatever the registry holds. */
  lemma ConvertPaddedInt(ll: LogLevel, n: int, w1: string, w2: string)
    requires ll.Valid() && AllSpace(w1) && AllSpace(w2)
    ensures ll.Convert(StrIn(w1 + Str(n) + w2)) == Level(Num(n))
  {
    ParseIntStr(n, w1, w2);
  }

  /** LogLevel's constructor builds the same registry and metavar as LevelParser's. */
  lemma LogLevelMatchesParser(ll: LogLevel, p: LevelParser)
    requires ll.Valid() && p.Valid() && ll.extra == p.extra && ll.known == p.known
    ensures ll.levels == p.levels && ll.metavar == p.metavar
  {
  }

  /** Both legacy types read a padded integer as that integer. */
  lemma LegacyPaddedInt(n: int, w1: string, w2: string)
    requires AllSpace(w1) && AllSpace(w2)
    ensures LegacySrc.Convert(Some(StrIn(w1 + Str(n) + w2))) == LegacyLevel(n)
    ensures LegacyTop.Convert(Some(StrIn(w1 + Str(n) + w2))) == LegacyLevel(n)
  {
    ParseIntStr(n, w1, w2);
  }

  /** With no extras, the six standard names convert, in any case, to 0, 10, 20, 30, 40, 50. */
  lemma ConvertStandardName(ll: LogLevel, s: string, i: int)
    requires ll.Valid() && ll.extra == NoExtra
    requires 0 <= i < |LEVELS| && Upper(s) == LEVELS[i]
    ensures ll.Convert(StrIn(s)) == Level(Num(StandardValue(LEVELS[i]).value))
  {
    LetterNameNotInt(s, LEVELS[i]);
  }

  /** Anything else fails, with the message quoting the input as given. */
  lemma ConvertUnknownName(ll: LogLevel, s: string)
    requires ll.Valid() && ll.extra == NoExtra
    requires ParseInt(s) == None && Upper(s) !in LEVELS
    ensures ll.Convert(StrIn(s)) == Invalid(InvalidMessage(s))
  {
  }

  /**
   * Mapping extras: a name converts, in any case, to the value of the last
   * extra with the same upper-cased form.
   */
  lemma ConvertMappingExtra(ll: LogLevel, items: seq<(string, int)>, s: string, j: int)
    requires ll.Valid() && ll.extra == MappingExtra(items)
    requires ParseInt(s) == None
    requires 0 <= j < |items| && Upper(s) == Upper(items[j].0)
    requires forall j' :: j < j' < |items| ==> Upper(items[j'].0) != Upper(items[j].0)
    ensures ll.Convert(StrIn(s)) == Level(Num(items[j].1))
  {
    MappingLastWins(items, ll.known, j);
    BuildResolve(ll.extra, ll.known, Upper(s));
  }

  /** The Click and the asyncclick types built from the same extras behave alike. */
  lemma AdaptersAgree(ll: LogLevel, al: AsyncLogLevel, v: Input)
    requires ll.Valid() && al.parser.Valid()
    requires ll.extra == al.parser.extra && ll.known == al.parser.known
    ensures ll.Convert(v) == al.Convert(v)
    ensures ll.GetMetavar() == al.GetMetavar()
  {
  }

  /**
   * The legacy outcome that a current outcome corresponds to. A Text value
   * comes only from a name extra, so it never reaches LegacyMatchesLogLevel,
   * which has no extras; it is mapped to the failure with that text.
   */
  function AsLegacy(c: Converted): LegacyOutcome
  {
    match c
    case Level(Num(n)) => LegacyLevel(n)
    case Level(Text(t)) => LegacyInvalid(t)
    case Invalid(m) => LegacyInvalid(m)
  }

  /** The legacy type of src/click_loglevel.py converts exactly as LogLevel with no extras. */
  lemma LegacyMatchesLogLevel(ll: LogLevel, v: Input)
    requires ll.Valid() && ll.extra == NoExtra
    ensures LegacySrc.Convert(Some(v)) == AsLegacy(ll.Convert(v))
  {
    if IntOf(v).None? {
      var key := Upper(v.s);
      assert StandardValue(key).Some? <==> key in LEVELS;
    }
  }

  /**
   * The top-level legacy type agrees with the one under src/ except on the
   * standard names, where it raises NameError instead of giving a level.
   */
  lemma LegacyTopDiffers(v: Option<Input>)
    ensures (LegacySrc.Convert(v).LegacyLevel? && v.Some? && IntOf(v.value).None?)
            ==> LegacyTop.Convert(v) == Unbound("logging")
    ensures !(LegacySrc.Convert(v).LegacyLevel? && v.Some? && IntOf(v.value).None?)
            ==> LegacyTop.Convert(v) == LegacySrc.Convert(v)
  {
  }

  /** The top-level legacy type never turns a name into a level. */
  lemma LegacyTopNoNames(s: string)
    requires LegacyTop.Convert(Some(StrIn(s))).LegacyLevel?
    ensures ParseInt(s).Some?
  {
  }

  // ---------------------------------------------------------------------
  // Cases from the repository's tests

  lemma VerboseNotInt()
    ensures ParseInt("VERBOSE") == None
  {
    NotIntWithLetter("VERBOSE", 0);
  }

  lemma VerboseNotStandard()
    ensures Upper("VERBOSE") !in LEVELS
  {
    UpperFixesUpper("VERBOSE");
    forall i | 0 <= i < |LEVELS|
      ensures LEVELS[i] != "VERBOSE"
    {
      assert LEVELS[i][0] != 'V';
    }
  }

  lemma VerboseMessage()
    ensures InvalidMessage("VERBOSE") == "'VERBOSE'" + ": invalid log level"
  {
    ReprPlain("VERBOSE");
  }

  /** "VERBOSE" is not a level of the legacy type. */
  lemma LegacyRejectsVerbose()
    ensures LegacySrc.Convert(Some(StrIn("VERBOSE"))) == LegacyInvalid("'VERBOSE'" + ": invalid log level")
  {
    VerboseNotInt();
    VerboseNotStandard();
    VerboseMessage();
  }

  /** "wArNiNg" and every other casing of a standard name reach the level in the legacy type. */
  lemma LegacyStandardName(s: string, i: int)
    requires 0 <= i < |LEVELS| && Upper(s) == LEVELS[i]
    ensures LegacySrc.Convert(Some(StrIn(s))) == LegacyLevel(StandardValue(LEVELS[i]).value)
  {
    LetterNameNotInt(s, LEVELS[i]);
  }

  /** None passes through both legacy types. */
  lemma LegacyNone()
    ensures LegacySrc.Convert(None) == Passthrough && LegacyTop.Convert(None) == Passthrough
  {
  }

  lemma MetavarNoExtras()
    ensures Metavar(DisplayNames(NoExtra)) == "[" + "NOTSET" + "|" + "DEBUG" + "|" + "INFO" + "|" + "WARNING" + "|" + "ERROR" + "|" + "CRITICAL" + "]"
  {
    assert DisplayNames(NoExtra) == LEVELS;
    StandardMetavar();
  }

  /** Mixed-case mapping extras appear in the metavar in their own case, after the standard names. */
  lemma MetavarMixedCaseMapping()
    ensures Metavar(DisplayNames(MappingExtra([("Verbose", 15), ("Notice", 25)])))
         == "[" + Join("|", LEVELS) + "|" + "Verbose" + "|" + "Notice" + "]"
  {
    var items := [("Verbose", 15), ("Notice", 25)];
    assert ExtraNames(MappingExtra(items)) == ["Verbose", "Notice"];
    assert DisplayNames(MappingExtra(items)) == LEVELS + ["Verbose", "Notice"];
    JoinAppend("|", LEVELS, ["Verbose", "Notice"]);
    JoinCons("|", "Verbose", ["Notice"]);
    assert ["Verbose"] + ["Notice"] == ["Verbose", "Notice"];
  }

  /** So do name extras. */
  lemma MetavarMixedCaseNames()
    ensures Metavar(DisplayNames(NamesExtra(["Verbose", "Notice"])))
         == "[" + Join("|", LEVELS) + "|" + "Verbose" + "|" + "Notice" + "]"
  {
    JoinAppend("|", LEVELS, ["Verbose", "Notice"]);
    JoinCons("|", "Verbose", ["Notice"]);
    assert ["Verbose"] + ["Notice"] == ["Verbose", "Notice"];
  }

  /** The extras of the completion tests: {"Verbose": 5, "Notice": 25}. */
  const VERBOSE_NOTICE := MappingExtra([("Verbose", 5), ("Notice", 25)])

  lemma VerboseNoticeKeys(known: map<string, int>)
    ensures Build(VERBOSE_NOTICE, known).keys == LEVELS + ["VERBOSE", "NOTICE"]
  {
    var es := Entries(VERBOSE_NOTICE, known);
    assert Upper("Verbose") == "VERBOSE";
    assert Upper("Notice") == "NOTICE";
    assert |es| == 2 && es[0].0 == "VERBOSE" && es[1].0 == "NOTICE";
    assert es[1..][1..] == [];
    assert Names(es[1..]) == ["NOTICE"];
    assert Names(es) == ["VERBOSE", "NOTICE"];
    BuildKeys(VERBOSE_NOTICE, known);
    assert "VERBOSE" !in LEVELS;
    assert "NOTICE" !in LEVELS + ["VERBOSE"];
    var ks := ["VERBOSE", "NOTICE"];
    assert ks[1..] == ["NOTICE"] && ks[1..][1..] == [];
    assert Novel(LEVELS + ["VERBOSE"], ["NOTICE"]) == ["NOTICE"];
    assert Novel(LEVELS, ks) == ks;
  }

  lemma StandardCompletionsN()
    ensures Completions(LEVELS, "N") == ["NOTSET"]
  {
    var k := LEVELS;
    assert Completions(k[..1], "N") == ["NOTSET"] by {
      assert k[..1][..0] == [];
      assert "NOTSET"[..1] == "N";
    }
    assert k[..2][..1] == k[..1];
    assert Completions(k[..2], "N") == ["NOTSET"] by { assert "DEBUG"[..1][0] != 'N'; }
    assert k[..3][..2] == k[..2];
    assert Completions(k[..3], "N") == ["NOTSET"] by { assert "INFO"[..1][0] != 'N'; }
    assert k[..4][..3] == k[..3];
    assert Completions(k[..4], "N") == ["NOTSET"] by { assert "WARNING"[..1][0] != 'N'; }
    assert k[..5][..4] == k[..4];
    assert Completions(k[..5], "N") == ["NOTSET"] by { assert "ERROR"[..1][0] != 'N'; }
    assert k[..6][..5] == k[..5];
    assert Completions(k[..6], "N") == ["NOTSET"] by { assert "CRITICAL"[..1][0] != 'N'; }
    assert k[..6] == k;
  }

  /** No standard name starts with V or Q. */
  lemma StandardCompletionsNone(p: string)
    requires p == "V" || p == "Q"
    ensures Completions(LEVELS, p) == []
  {
    forall i | 0 <= i < |LEVELS|
      ensures !StartsWith(LEVELS[i], p)
    {
      assert LEVELS[i][..1][0] != p[0];
    }
    CompletionsNoMatch(LEVELS, p);
  }

  /** With {"Verbose": 5, "Notice": 25}, "n" completes to NOTSET and NOTICE, in that order. */
  lemma CompletionsOfN(known: map<string, int>)
    ensures Completions(Build(VERBOSE_NOTICE, known).keys, Upper("n")) == ["NOTSET", "NOTICE"]
  {
    VerboseNoticeKeys(known);
    assert Upper("n") == "N";
    CompletionsAppend(LEVELS, ["VERBOSE", "NOTICE"], "N");
    StandardCompletionsN();
    var k := ["VERBOSE", "NOTICE"];
    assert k[..1] == ["VERBOSE"] && k[..1][..0] == [];
    assert "VERBOSE"[..1][0] != 'N';
    assert "NOTICE"[..1] == "N";
  }

  /** With {"Verbose": 5, "Notice": 25}, "v" completes to the upper-cased VERBOSE only. */
  lemma CompletionsOfV(known: map<string, int>)
    ensures Completions(Build(VERBOSE_NOTICE, known).keys, Upper("v")) == ["VERBOSE"]
  {
    VerboseNoticeKeys(known);
    assert Upper("v") == "V";
    CompletionsAppend(LEVELS, ["VERBOSE", "NOTICE"], "V");
    StandardCompletionsNone("V");
    var k := ["VERBOSE", "NOTICE"];
    assert k[..1] == ["VERBOSE"] && k[..1][..0] == [];
    assert "VERBOSE"[..1] == "V";
    assert "NOTICE"[..1][0] != 'V';
  }

  /** Without extras, "v" and "Q" complete to nothing. */
  lemma CompletionsNoExtras(known: map<string, int>)
    ensures Completions(Build(NoExtra, known).keys, Upper("v")) == []
    ensures Completions(Build(NoExtra, known).keys, Upper("Q")) == []
  {
    StandardSpec();
    assert Upper("v") == "V";
    assert Upper("Q") == "Q";
    StandardCompletionsNone("V");
    StandardCompletionsNone("Q");
  }
}
