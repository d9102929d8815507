/**
 * LevelParser, the shared core: the registry of level names, the metavar
 * string listing them, name lookup and prefix completion.
 */
module Core {
  import opened Wrappers
  import opened Text
  import opened Registry

  /** The six standard level names, in the order the registry lists them. */
  const LEVELS: seq<string> := ["NOTSET", "DEBUG", "INFO", "WARNING", "ERROR", "CRITICAL"]

  /** getattr(logging, name) for the standard names. */
  function StandardValue(name: string): Option<int>
  {
    if name == "NOTSET" then Some(0)
    else if name == "DEBUG" then Some(10)
    else if name == "INFO" then Some(20)
    else if name == "WARNING" then Some(30)
    else if name == "ERROR" then Some(40)
    else if name == "CRITICAL" then Some(50)
    else None
  }

  /** {lv: getattr(logging, lv) for lv in LEVELS}. */
  function Standard(): Reg
  {
    Reg(LEVELS, map lv | lv in LEVELS :: Num(StandardValue(lv).value))
  }

  /** The extra argument: absent, a mapping name -> value, or an iterable of names. */
  datatype Extra = NoExtra | MappingExtra(items: seq<(string, int)>) | NamesExtra(names: seq<string>)

  /** logging.getLevelName(name) for a str, over logging's table known of registered names. */
  function GetLevelName(known: map<string, int>, name: string): LevelValue
  {
    if name in known then Num(known[name]) else Text("Level " + name)
  }

  /** The assignments self.levels[lv.upper()] = value for the items of a mapping, in order. */
  function MappingEntries(items: seq<(string, int)>): seq<(string, LevelValue)>
  {
    seq(|items|, i requires 0 <= i < |items| => (Upper(items[i].0), Num(items[i].1)))
  }

  /** The assignments self.levels[lv.upper()] = logging.getLevelName(lv) for a list of names, in order. */
  function NameEntries(known: map<string, int>, names: seq<string>): seq<(string, LevelValue)>
  {
    seq(|names|, i requires 0 <= i < |names| => (Upper(names[i]), GetLevelName(known, names[i])))
  }

  /** The assignments the constructor makes for the extras, in order. */
  function Entries(extra: Extra, known: map<string, int>): seq<(string, LevelValue)>
  {
    match extra
    case NoExtra => []
    case MappingExtra(items) => MappingEntries(items)
    case NamesExtra(names) => NameEntries(known, names)
  }

  /** The registry the constructor builds. */
  function Build(extra: Extra, known: map<string, int>): Reg
  {
    Overlay(Standard(), Entries(extra, known))
  }

  /** The extra names exactly as given: the mapping's keys, or the names. */
  function ExtraNames(extra: Extra): seq<string>
  {
    match extra
    case NoExtra => []
    case MappingExtra(items) => seq(|items|, i requires 0 <= i < |items| => items[i].0)
    case NamesExtra(names) => names
  }

  /** level_names: the standard names, then the extra names in their own case, duplicates kept. */
  function DisplayNames(extra: Extra): seq<string>
  {
    LEVELS + ExtraNames(extra)
  }

  /** "[" + "|".join(names) + "]". */
  function Metavar(names: seq<string>): string
  {
    "[" + Join("|", names) + "]"
  }

  /**
   * What a lookup of an upper-cased key should find: the value of the last
   * extra whose upper-cased name is key, else the standard level of that
   * name, else nothing.
   */
  function Resolve(extra: Extra, known: map<string, int>, key: string): Option<LevelValue>
  {
    match LastWrite(Entries(extra, known), key)
    case Some(v) => Some(v)
    case None => if StandardValue(key).Some? then Some(Num(StandardValue(key).value)) else None
  }

  /** The keys, in order, that start with prefix. */
  function Completions(keys: seq<string>, prefix: string): seq<string>
    decreases |keys|
  {
    if |keys| == 0 then []
    else
      var last := keys[|keys| - 1];
      Completions(keys[..|keys| - 1], prefix) + (if StartsWith(last, prefix) then [last] else [])
  }

  /** a is b with some elements left out, order kept. */
  predicate Subsequence(a: seq<string>, b: seq<string>)
    decreases |b|
  {
    if |a| == 0 then true
    else if |b| == 0 then false
    else if a[|a| - 1] == b[|b| - 1] then Subsequence(a[..|a| - 1], b[..|b| - 1])
    else Subsequence(a, b[..|b| - 1])
  }

  // ---------------------------------------------------------------------
  // The standard registry and the registry the constructor builds

  lemma StandardSpec()
    ensures Valid(Standard())
    ensures Standard().keys == LEVELS
    ensures forall k :: Get(Standard(), k) == if StandardValue(k).Some? then Some(Num(StandardValue(k).value)) else None
  {
    var s := Standard();
    forall i, j | 0 <= i < j < |LEVELS|
      ensures LEVELS[i] != LEVELS[j]
    {
    }
    forall k
      ensures Get(s, k) == if StandardValue(k).Some? then Some(Num(StandardValue(k).value)) else None
    {
      assert StandardValue(k).Some? <==> k in LEVELS;
    }
  }

  /** With no extras the registry is the six standard names with 0, 10, 20, 30, 40, 50, in that order. */
  lemma NoExtraRegistry(known: map<string, int>)
    ensures Build(NoExtra, known).keys == ["NOTSET", "DEBUG", "INFO", "WARNING", "ERROR", "CRITICAL"]
    ensures Build(NoExtra, known).values
         == map["NOTSET" := Num(0), "DEBUG" := Num(10), "INFO" := Num(20),
                "WARNING" := Num(30), "ERROR" := Num(40), "CRITICAL" := Num(50)]
  {
    StandardSpec();
  }

  lemma BuildValid(extra: Extra, known: map<string, int>)
    ensures Valid(Build(extra, known))
  {
    StandardSpec();
    OverlayValid(Standard(), Entries(extra, known));
  }

  /** Looking a key up in the built registry finds exactly what Resolve says. */
  lemma BuildResolve(extra: Extra, known: map<string, int>, key: string)
    ensures Get(Build(extra, known), key) == Resolve(extra, known, key)
  {
    StandardSpec();
    OverlayGet(Standard(), Entries(extra, known), key);
  }

  /**
   * Mapping extras: an upper-cased key holds the value of the last extra
   * whose upper-cased name it is, whatever the standard value was.
   */
  lemma MappingLastWins(items: seq<(string, int)>, known: map<string, int>, j: int)
    requires 0 <= j < |items|
    requires forall j' :: j < j' < |items| ==> Upper(items[j'].0) != Upper(items[j].0)
    ensures Get(Build(MappingExtra(items), known), Upper(items[j].0)) == Some(Num(items[j].1))
  {
    var es := Entries(MappingExtra(items), known);
    LastWriteAt(es, j, Upper(items[j].0));
    BuildResolve(MappingExtra(items), known, Upper(items[j].0));
  }

  /** Name extras: an upper-cased key holds getLevelName of the last name with that upper form. */
  lemma NamesLastWins(names: seq<string>, known: map<string, int>, j: int)
    requires 0 <= j < |names|
    requires forall j' :: j < j' < |names| ==> Upper(names[j']) != Upper(names[j])
    ensures Get(Build(NamesExtra(names), known), Upper(names[j])) == Some(GetLevelName(known, names[j]))
  {
    var es := Entries(NamesExtra(names), known);
    LastWriteAt(es, j, Upper(names[j]));
    BuildResolve(NamesExtra(names), known, Upper(names[j]));
  }

  /** A key no extra names keeps its standard value, or stays absent. */
  lemma UntouchedKey(extra: Extra, known: map<string, int>, key: string)
    requires forall j :: 0 <= j < |Entries(extra, known)| ==> Entries(extra, known)[j].0 != key
    ensures Get(Build(extra, known), key)
         == if StandardValue(key).Some? then Some(Num(StandardValue(key).value)) else None
  {
    LastWriteNone(Entries(extra, known), key);
    BuildResolve(extra, known, key);
  }

  /**
   * The standard names keep the first six places, even when an extra
   * overrides one; the new upper-cased names follow, each once, in the order
   * the caller first gave them.
   */
  lemma BuildKeys(extra: Extra, known: map<string, int>)
    ensures Build(extra, known).keys == LEVELS + Novel(LEVELS, Names(Entries(extra, known)))
  {
    StandardSpec();
    OverlayKeys(Standard(), Entries(extra, known));
  }

  /** The six standard names are upper-case. */
  lemma LevelsUpper(i: int)
    requires 0 <= i < |LEVELS|
    ensures IsUpper(LEVELS[i])
  {
    if i == 0 { assert IsUpper("NOTSET"); }
    else if i == 1 { assert IsUpper("DEBUG"); }
    else if i == 2 { assert IsUpper("INFO"); }
    else if i == 3 { assert IsUpper("WARNING"); }
    else if i == 4 { assert IsUpper("ERROR"); }
    else { assert IsUpper("CRITICAL"); }
  }

  /** Every registry key is upper-case. */
  lemma BuildKeysUpper(extra: Extra, known: map<string, int>, i: int)
    requires 0 <= i < |Build(extra, known).keys|
    ensures IsUpper(Build(extra, known).keys[i])
  {
    var es := Entries(extra, known);
    var k := Build(extra, known).keys[i];
    StandardSpec();
    OverlayKeySet(Standard(), es, k);
    if k in LEVELS {
      var j :| 0 <= j < |LEVELS| && LEVELS[j] == k;
      LevelsUpper(j);
    } else {
      var j :| 0 <= j < |es| && es[j].0 == k;
      match extra {
        case MappingExtra(items) => UpperIsUpper(items[j].0);
        case NamesExtra(names) => UpperIsUpper(names[j]);
      }
    }
  }

  /**
   * The metavar is the display names between brackets, joined by "|": when
   * no name has a "|" in it, splitting the inside on "|" gives them back.
   */
  lemma MetavarSplit(names: seq<string>)
    requires |names| >= 1
    requires forall i :: 0 <= i < |names| ==> '|' !in names[i]
    ensures var m := Metavar(names);
      |m| >= 2 && m[0] == '[' && m[|m| - 1] == ']' && Split(m[1..|m| - 1], '|') == names
  {
    JoinSplit(names, '|');
    var m := Metavar(names);
    assert m[1..|m| - 1] == Join("|", names);
  }

  /** The metavar lists the standard names and then every extra name as given. */
  lemma MetavarOfExtras(extra: Extra)
    requires forall i :: 0 <= i < |ExtraNames(extra)| ==> '|' !in ExtraNames(extra)[i]
    ensures var m := Metavar(DisplayNames(extra));
      Split(m[1..|m| - 1], '|') == LEVELS + ExtraNames(extra)
  {
    var names := DisplayNames(extra);
    forall i | 0 <= i < |names|
      ensures '|' !in names[i]
    {
      if i >= |LEVELS| {
        assert names[i] == ExtraNames(extra)[i - |LEVELS|];
      }
    }
    MetavarSplit(names);
  }

  /** The metavar of the standard names alone. */
  lemma StandardMetavar()
    ensures Metavar(LEVELS) == "[" + "NOTSET" + "|" + "DEBUG" + "|" + "INFO" + "|" + "WARNING" + "|" + "ERROR" + "|" + "CRITICAL" + "]"
  {
    var sep := "|";
    assert Join(sep, ["CRITICAL"]) == "CRITICAL";
    JoinCons(sep, "ERROR", ["CRITICAL"]);
    assert ["ERROR"] + ["CRITICAL"] == ["ERROR", "CRITICAL"];
    JoinCons(sep, "WARNING", ["ERROR", "CRITICAL"]);
    assert ["WARNING"] + ["ERROR", "CRITICAL"] == ["WARNING", "ERROR", "CRITICAL"];
    JoinCons(sep, "INFO", ["WARNING", "ERROR", "CRITICAL"]);
    assert ["INFO"] + ["WARNING", "ERROR", "CRITICAL"] == ["INFO", "WARNING", "ERROR", "CRITICAL"];
    JoinCons(sep, "DEBUG", ["INFO", "WARNING", "ERROR", "CRITICAL"]);
    assert ["DEBUG"] + ["INFO", "WARNING", "ERROR", "CRITICAL"] == ["DEBUG", "INFO", "WARNING", "ERROR", "CRITICAL"];
    JoinCons(sep, "NOTSET", ["DEBUG", "INFO", "WARNING", "ERROR", "CRITICAL"]);
    assert ["NOTSET"] + ["DEBUG", "INFO", "WARNING", "ERROR", "CRITICAL"] == LEVELS;
  }

  // ---------------------------------------------------------------------
  // Completions

  lemma {:induction false} CompletionsMembers(keys: seq<string>, prefix: string, x: string)
    ensures x in Completions(keys, prefix) <==> x in keys && StartsWith(x, prefix)
    decreases |keys|
  {
    if |keys| > 0 {
      CompletionsMembers(keys[..|keys| - 1], prefix, x);
      assert keys == keys[..|keys| - 1] + [keys[|keys| - 1]];
    }
  }

  lemma {:induction false} CompletionsSubsequence(keys: seq<string>, prefix: string)
    ensures Subsequence(Completions(keys, prefix), keys)
    decreases |keys|
  {
    if |keys| > 0 {
      var init := keys[..|keys| - 1];
      var c := Completions(init, prefix);
      CompletionsSubsequence(init, prefix);
      if StartsWith(keys[|keys| - 1], prefix) {
        assert (c + [keys[|keys| - 1]])[..|c|] == c;
      } else {
        assert c + [] == c;
        SubsequenceSkip(c, keys);
      }
    }
  }

  /** A subsequence of b without its last element is a subsequence of b. */
  lemma SubsequenceSkip(a: seq<string>, b: seq<string>)
    requires |b| > 0 && Subsequence(a, b[..|b| - 1])
    ensures Subsequence(a, b)
    decreases |b|, 0
  {
    if |a| > 0 && a[|a| - 1] == b[|b| - 1] {
      SubsequenceDrop(a, b[..|b| - 1]);
    }
  }

  /** Dropping the last element of a keeps it a subsequence. */
  lemma SubsequenceDrop(a: seq<string>, b: seq<string>)
    requires |a| > 0 && Subsequence(a, b)
    ensures Subsequence(a[..|a| - 1], b)
    decreases |b|, 1
  {
    if |b| > 0 && |a| > 1 {
      if a[|a| - 1] == b[|b| - 1] {
        SubsequenceSkip(a[..|a| - 1], b);
      } else {
        SubsequenceDrop(a, b[..|b| - 1]);
        SubsequenceSkip(a[..|a| - 1], b);
      }
    }
  }

  /** An empty prefix completes to every key, in order. */
  lemma {:induction false} CompletionsEmptyPrefix(keys: seq<string>)
    ensures Completions(keys, "") == keys
    decreases |keys|
  {
    if |keys| > 0 {
      CompletionsEmptyPrefix(keys[..|keys| - 1]);
      assert keys[|keys| - 1][..0] == "";
      assert keys[..|keys| - 1] + [keys[|keys| - 1]] == keys;
    }
  }

  /** Filtering a concatenation filters each part. */
  lemma {:induction false} CompletionsAppend(a: seq<string>, b: seq<string>, prefix: string)
    ensures Completions(a + b, prefix) == Completions(a, prefix) + Completions(b, prefix)
    decreases |b|
  {
    if |b| > 0 {
      var b' := b[..|b| - 1];
      assert (a + b)[..|a + b| - 1] == a + b';
      CompletionsAppend(a, b', prefix);
    } else {
      assert a + b == a;
    }
  }

  /**
   * Completions come from the upper-cased registry keys: every one is
   * upper-case, and an extra completes as its upper-cased name.
   */
  lemma CompletionsUpperCased(extra: Extra, known: map<string, int>, incomplete: string, j: int)
    requires 0 <= j < |ExtraNames(extra)|
    requires StartsWith(Upper(ExtraNames(extra)[j]), Upper(incomplete))
    ensures Upper(ExtraNames(extra)[j]) in Completions(Build(extra, known).keys, Upper(incomplete))
    ensures forall x :: x in Completions(Build(extra, known).keys, Upper(incomplete)) ==> IsUpper(x)
  {
    var keys := Build(extra, known).keys;
    var es := Entries(extra, known);
    var name := Upper(ExtraNames(extra)[j]);
    StandardSpec();
    assert es[j].0 == name;
    OverlayKeySet(Standard(), es, name);
    CompletionsMembers(keys, Upper(incomplete), name);
    forall x | x in Completions(keys, Upper(incomplete))
      ensures IsUpper(x)
    {
      CompletionsMembers(keys, Upper(incomplete), x);
      var i :| 0 <= i < |keys| && keys[i] == x;
      BuildKeysUpper(extra, known, i);
    }
  }

  /** With no key starting with the prefix there are no completions. */
  lemma CompletionsNoMatch(keys: seq<string>, prefix: string)
    requires forall i :: 0 <= i < |keys| ==> !StartsWith(keys[i], prefix)
    ensures Completions(keys, prefix) == []
  {
    var c := Completions(keys, prefix);
    if |c| > 0 {
      assert c[0] in c;
      CompletionsMembers(keys, prefix, c[0]);
      assert false;
    }
  }

  // ---------------------------------------------------------------------
  // The constructor's loops and the completion generator

  /** The loop over extra.items() in LevelParser.__init__. */
  method OverlayMapping(start: Reg, items: seq<(string, int)>) returns (levels: Reg)
    ensures levels == Overlay(start, MappingEntries(items))
  {
    ghost var es := MappingEntries(items);
    ghost var target := Overlay(start, es);
    levels := start;
    var i := 0;
    while i < |items|
      invariant 0 <= i <= |items|
      invariant Overlay(levels, es[i..]) == target
    {
      assert es[i..][0] == (Upper(items[i].0), Num(items[i].1));
      assert es[i..][1..] == es[i + 1..];
      levels := Set(levels, Upper(items[i].0), Num(items[i].1));
      i := i + 1;
    }
  }

  /** The loop over a list of names in LevelParser.__init__, which also extends level_names. */
  method OverlayNames(start: Reg, startNames: seq<string>, known: map<string, int>, ns: seq<string>)
    returns (levels: Reg, names: seq<string>)
    ensures levels == Overlay(start, NameEntries(known, ns))
    ensures names == startNames + ns
  {
    ghost var es := NameEntries(known, ns);
    ghost var target := Overlay(start, es);
    levels, names := start, startNames;
    var i := 0;
    while i < |ns|
      invariant 0 <= i <= |ns|
      invariant Overlay(levels, es[i..]) == target
      invariant names == startNames + ns[..i]
    {
      assert es[i..][0] == (Upper(ns[i]), GetLevelName(known, ns[i]));
      assert es[i..][1..] == es[i + 1..];
      levels := Set(levels, Upper(ns[i]), GetLevelName(known, ns[i]));
      names := names + [ns[i]];
      i := i + 1;
      assert ns[..i] == ns[..i - 1] + [ns[i - 1]];
    }
    assert ns[..|ns|] == ns;
  }

  /** The body of LevelParser.__init__: fills the registry and the display list. */
  method BuildRegistry(extra: Extra, known: map<string, int>) returns (levels: Reg, names: seq<string>)
    ensures levels == Build(extra, known)
    ensures names == DisplayNames(extra)
  {
    levels := Standard();
    names := LEVELS;
    match extra {
      case NoExtra =>
      case MappingExtra(items) =>
        levels := OverlayMapping(levels, items);
        names := names + seq(|items|, j requires 0 <= j < |items| => items[j].0);
      case NamesExtra(ns) =>
        levels, names := OverlayNames(levels, names, known, ns);
    }
  }

  /** The get_completions generator: the keys, in order, that start with incomplete.upper(). */
  method FilterByPrefix(keys: seq<string>, incomplete: string) returns (out: seq<string>)
    ensures out == Completions(keys, Upper(incomplete))
  {
    var prefix := Upper(incomplete);
    out := [];
    var i := 0;
    while i < |keys|
      invariant 0 <= i <= |keys|
      invariant out == Completions(keys[..i], prefix)
    {
      assert keys[..i + 1][..i] == keys[..i];
      if StartsWith(keys[i], prefix) {
        out := out + [keys[i]];
      }
      i := i + 1;
    }
    assert keys[..|keys|] == keys;
  }

  // ---------------------------------------------------------------------
  // LevelParser

  class LevelParser {
    /** The constructor's arguments, kept to state what the fields hold. */
    ghost const extra: Extra
    ghost const known: map<string, int>
    /** self.levels */
    const levels: Reg
    /** self.metavar */
    const metavar: string

    ghost predicate Valid()
    {
      levels == Build(extra, known) && metavar == Metavar(DisplayNames(extra))
    }

    constructor (extra: Extra, known: map<string, int>)
      ensures this.extra == extra && this.known == known
      ensures Valid()
    {
      var lv, names := BuildRegistry(extra, known);
      this.extra := extra;
      this.known := known;
      levels := lv;
      metavar := Metavar(names);
    }

    /** self.levels[value.upper()]; None is the KeyError. */
    function Parse(value: string): (r: Option<LevelValue>)
      requires Valid()
      ensures r == Resolve(extra, known, Upper(value))
    {
      BuildResolve(extra, known, Upper(value));
      Get(levels, Upper(value))
    }

    method GetCompletions(incomplete: string) returns (out: seq<string>)
      requires Valid()
      ensures out == Completions(Build(extra, known).keys, Upper(incomplete))
    {
      out := FilterByPrefix(levels.keys, incomplete);
    }
  }
}
