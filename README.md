# click-loglevel, modelled in Dafny

click-loglevel gives command-line programs a "log level" option type. Each
type converts a string to a logging level. It accepts:

- an integer, kept as is, with surrounding whitespace allowed;
- one of the six standard names NOTSET, DEBUG, INFO, WARNING, ERROR and
  CRITICAL, in any case, giving 0, 10, 20, 30, 40 or 50;
- a custom name supplied as `extra` at construction, also in any case.

Anything else fails with the message `'<input>': invalid log level`, where
the input is quoted as Python's `repr` quotes it. Each type also offers a
metavar string for help output, such as `[NOTSET|DEBUG|INFO|WARNING|ERROR|CRITICAL]`,
and the registered names that start with a typed prefix, for shell completion.

The model covers five classes:

- `Core.LevelParser` (`src/click_loglevel/core.py`) holds the registry of
  upper-cased names, the metavar, `parse` and `get_completions`.
- `ClickLogLevel.LogLevel` (`src/click_loglevel/__init__.py`) is the Click
  parameter type. It repeats the parser's logic inline.
- `AsyncClick.AsyncLogLevel` (`src/click_loglevel/asyncclick.py`) is the
  asyncclick parameter type. It wraps a `LevelParser`.
- `LegacySrc` (`src/click_loglevel.py`) is the early `LogLevelType`: standard
  names only, with `None` passed through.
- `LegacyTop` (`click_loglevel.py`) is another copy of `LogLevelType`. That
  module never imports `logging`, so a standard name raises `NameError`. The
  model gives this as the outcome `Unbound("logging")`.

Supporting modules:

- `Registry` models a Python `dict`. It keeps the keys in insertion order. A
  new key is appended; assigning to a key already present keeps its position.
  `Overlay` applies a list of assignments. Its reference semantics is
  `LastWrite`: a key holds the value of the last assignment to it.
- `Text` models `str.upper`, `str.startswith`, `str.join` and `str.split`.
  `Upper` folds ASCII letters only.
- `PyInt` models `int(str)`: surrounding whitespace (tab, line feed, vertical
  tab, form feed, carriage return and space), an optional sign and decimal digits. It also gives a decimal `Str` to state round trips.
- `PyRepr` models `repr` of a `str` for ASCII text, with a decoder `Unrepr`.
- `Params` holds the values exchanged with the framework and the failure message.
- `Properties` holds lemmas relating the classes to each other, and the
  concrete cases from the repository's tests.

Two modelling choices:

- `logging.getLevelName(name)` looks names up in logging's global table. The
  model passes that table as the parameter `known: map<string, int>`. It
  returns the string `"Level " + name` for a name that is not registered,
  so registry values are `Num(int) | Text(string)`.
- The constructors run once and the fields are never reassigned. So the
  fields are `const`, filled by the loops of `Core.BuildRegistry`, which has
  one loop per kind of `extra`. The predicate `Valid()` ties them to the
  functions `Build` and `Metavar`. The `get_completions` generator is the
  loop of `Core.FilterByPrefix`, proved equal to the function `Completions`.

Two behaviours follow from how the code stores names:

- Completions come from the upper-cased registry keys, so the extra
  `"Verbose"` completes as `"VERBOSE"` (`src/click_loglevel/core.py:15,19,28`;
  `test/test_completions.py:46,51`). `Core.CompletionsUpperCased` and
  `Properties.CompletionsOfV` state this.
- For a list of names the stored value is `logging.getLevelName(lv)`, which
  is a string for a name logging does not know (`src/click_loglevel/core.py:19`).

`LogLevel.__init__` (`src/click_loglevel/__init__.py:52-64`) is the same code
as `LevelParser.__init__` (`src/click_loglevel/core.py:9-21`), so both
constructors of the model call the one builder `Core.BuildRegistry`.
`Properties.LogLevelMatchesParser` records that agreement; it holds by that
sharing and needs no further proof.

## Model

| member | source | states |
|---|---|---|
| Text.Upper | src/click_loglevel/core.py:24 | `str.upper` keeps the length; `Text.UpperIsUpper` and `Text.UpperFixesUpper` state the rest |
| Text.UpperIsUpper | src/click_loglevel/core.py:24 | the result of `upper` has no lower-case letter, and upper-casing it again changes nothing |
| Text.UpperFixesUpper | src/click_loglevel/core.py:24 | a string with no lower-case letter is its own upper form |
| Text.UpperKeepsLetters | src/click_loglevel/core.py:24 | upper-casing keeps each position a letter exactly when it was one |
| Text.JoinCons | src/click_loglevel/core.py:21 | joining x in front of a non-empty list puts one separator after x |
| Text.JoinAppend | src/click_loglevel/core.py:21 | joining two non-empty lists is the two joins with one separator between |
| Text.Split | src/click_loglevel/core.py:21 | `str.split` on one character never returns an empty list |
| Text.JoinSplit | src/click_loglevel/core.py:21 | splitting a join on a separator no part contains gives back exactly the parts |
| PyInt.Lead | src/click_loglevel/__init__.py:70 | the whitespace prefix that `int()` skips is maximal |
| PyInt.Trail | src/click_loglevel/__init__.py:70 | the whitespace suffix that `int()` skips is maximal |
| PyInt.StripPadded | src/click_loglevel/__init__.py:70 | stripping whitespace around a string that starts and ends with non-space characters gives that string |
| PyInt.StrShape | src/click_loglevel/__init__.py:70 | `str(i)` has no whitespace at either end and is an optional minus followed by digits that read back as the magnitude of i |
| PyInt.ParseIntStr | src/click_loglevel/__init__.py:70 | `int()` of any decimal integer written with whitespace around it is that integer |
| PyInt.NotIntWithStray | src/click_loglevel/__init__.py:70 | a string holding a character that is not a digit, skipped whitespace or a sign is not an integer for `int()` |
| PyInt.NotIntWithLetter | src/click_loglevel/__init__.py:70 | a string holding an ASCII letter is not an integer for `int()` |
| PyInt.SeparatorNotInt | src/click_loglevel/__init__.py:70 | the separators 0x1C to 0x1F are not padding: a string holding one is not an integer |
| PyInt.SeparatorExample | src/click_loglevel/__init__.py:70 | `int("\x1c42")` and `int("42\x1f")` fail |
| PyInt.DecimalDigits | src/click_loglevel/__init__.py:70 | the decimal form of n is non-empty digits and reads back as n |
| PyRepr.UnescapeEscape | src/click_loglevel/__init__.py:76 | decoding the escaped body of `repr` gives the string back |
| PyRepr.ReprRoundTrip | src/click_loglevel/__init__.py:76 | `Unrepr(repr(s)) == s` for every string |
| PyRepr.ReprInjective | src/click_loglevel/__init__.py:76 | different strings have different `repr`s |
| PyRepr.ReprPlain | src/click_loglevel/__init__.py:76 | a string with nothing to escape is quoted in single quotes as it is |
| Params.InvalidMessageInjective | src/click_loglevel/__init__.py:76 | the failure message determines the input it quotes |
| Params.InvalidMessagePlain | src/click_loglevel/__init__.py:76 | for plain input the message is `'<input>': invalid log level` |
| Registry.SetValid | src/click_loglevel/core.py:15 | a dict assignment keeps the keys distinct and the key list equal to the key set |
| Registry.OverlayValid | src/click_loglevel/core.py:14-15 | a series of assignments keeps the dict well formed |
| Registry.OverlayGet | src/click_loglevel/core.py:14-19 | after the assignments, a key holds its last assigned value, or else its old value |
| Registry.LastWriteAt | src/click_loglevel/core.py:14-19 | an assignment that no later one overrides is the one that counts |
| Registry.LastWriteNone | src/click_loglevel/core.py:14-19 | a key that is never assigned has no last write |
| Registry.NovelSpec | src/click_loglevel/core.py:14-19 | the newly added keys are exactly the assigned keys that were not already present, each listed once |
| Registry.OverlayKeys | src/click_loglevel/core.py:14-19 | the key order after the assignments is the old keys, then the new keys in order of first assignment |
| Registry.OverlayKeepsPosition | src/click_loglevel/core.py:14-19 | a key already present keeps its index |
| Registry.NamesMembership | src/click_loglevel/core.py:14-19 | a key is among the assigned names exactly when some assignment names it |
| Registry.OverlayKeySet | src/click_loglevel/core.py:14-19 | a key is in the dict afterwards exactly when it was there before or was assigned |
| Core.StandardSpec | src/click_loglevel/core.py:5-10 | the standard registry is well formed, lists the six names in order, and maps each to its logging value |
| Core.NoExtraRegistry | src/click_loglevel/core.py:10 | with no extras the registry is NOTSET 0, DEBUG 10, INFO 20, WARNING 30, ERROR 40, CRITICAL 50, in that order |
| Core.BuildValid | src/click_loglevel/core.py:9-20 | the built registry is well formed |
| Core.BuildResolve | src/click_loglevel/core.py:9-20 | a lookup in the built registry gives the last extra for that upper-cased name, else the standard value, else nothing |
| Core.MappingLastWins | src/click_loglevel/core.py:13-15 | a mapping extra is found, under its upper-cased name, with its value unless a later extra has the same upper form |
| Core.NamesLastWins | src/click_loglevel/core.py:17-19 | a name extra is found under its upper-cased name with `logging.getLevelName` of the name |
| Core.UntouchedKey | src/click_loglevel/core.py:10-20 | a key that no extra names keeps its standard value, or stays absent |
| Core.BuildKeys | src/click_loglevel/core.py:10-20 | the registry lists the six standard names, then each new upper-cased extra once, in first-given order |
| Core.LevelsUpper | src/click_loglevel/core.py:5 | the six standard names are upper-case |
| Core.BuildKeysUpper | src/click_loglevel/core.py:10-20 | every registry key is upper-case |
| Core.MetavarSplit | src/click_loglevel/core.py:21 | the metavar is brackets around the names, and splitting its inside on `\|` gives the names back |
| Core.MetavarOfExtras | src/click_loglevel/core.py:11-21 | the metavar lists the standard names and then every extra name as given, duplicates and case kept |
| Core.StandardMetavar | src/click_loglevel/core.py:21 | the metavar of the standard names is `[NOTSET\|DEBUG\|INFO\|WARNING\|ERROR\|CRITICAL]` |
| Core.CompletionsMembers | src/click_loglevel/core.py:26-30 | a completion is exactly a key that starts with the prefix |
| Core.CompletionsSubsequence | src/click_loglevel/core.py:26-30 | completions keep the registry order |
| Core.CompletionsEmptyPrefix | src/click_loglevel/core.py:26-30 | the empty prefix completes to every key, in order |
| Core.CompletionsAppend | src/click_loglevel/core.py:26-30 | completing over two key lists in a row is completing over each |
| Core.CompletionsUpperCased | src/click_loglevel/core.py:15-30 | every completion is upper-case, and a matching extra completes as its upper-cased name |
| Core.CompletionsNoMatch | src/click_loglevel/core.py:26-30 | when no key starts with the prefix there are no completions |
| Core.OverlayMapping | src/click_loglevel/core.py:14-15 | the loop over `extra.items()` performs exactly the mapping's assignments |
| Core.OverlayNames | src/click_loglevel/core.py:18-20 | the loop over the names performs their assignments and appends the names to the display list |
| Core.BuildRegistry | src/click_loglevel/core.py:10-20 | the constructor's body gives the built registry and the display names |
| Core.FilterByPrefix | src/click_loglevel/core.py:27-30 | the generator loop yields exactly the completions of the upper-cased prefix |
| Core.LevelParser.constructor | src/click_loglevel/core.py:9-21 | the fields hold the built registry and the metavar of the display names |
| Core.LevelParser.Parse | src/click_loglevel/core.py:23-24 | `parse` finds what `Resolve` gives for the upper-cased input; `None` is the `KeyError` |
| Core.LevelParser.GetCompletions | src/click_loglevel/core.py:26-30 | the completions of the upper-cased prefix over the registry keys |
| ClickLogLevel.LogLevel.constructor | src/click_loglevel/__init__.py:52-64 | the same registry and metavar as the parser's constructor |
| ClickLogLevel.LogLevel.Convert | src/click_loglevel/__init__.py:66-76 | an integer converts to itself; otherwise a found name gives its value and an unknown one gives the failure message quoting the input |
| ClickLogLevel.LogLevel.GetMetavar | src/click_loglevel/__init__.py:78-79 | the metavar of the standard and extra names |
| ClickLogLevel.LogLevel.GetCompletions | src/click_loglevel/__init__.py:86-90 | the completions of the upper-cased prefix |
| ClickLogLevel.LogLevel.ShellComplete | src/click_loglevel/__init__.py:81-84 | one completion item per completion, in order |
| AsyncClick.AsyncLogLevel.constructor | src/click_loglevel/asyncclick.py:25-26 | a fresh, well-formed parser for the given extras |
| AsyncClick.AsyncLogLevel.Convert | src/click_loglevel/asyncclick.py:28-41 | integer first, then the parser's lookup, its `KeyError` giving the failure message |
| AsyncClick.AsyncLogLevel.GetMetavar | src/click_loglevel/asyncclick.py:43-48 | the parser's metavar |
| AsyncClick.AsyncLogLevel.ShellComplete | src/click_loglevel/asyncclick.py:50-53 | one completion item per completion of the parser, in order |
| LegacySrc.Convert | src/click_loglevel.py:20-30 | `None` passes through; an integer is itself; a standard name in any case gives its value; anything else fails with the message |
| LegacySrc.GetMetavar | src/click_loglevel.py:32-33 | `[NOTSET\|DEBUG\|INFO\|WARNING\|ERROR\|CRITICAL]` |
| LegacyTop.Convert | click_loglevel.py:7-17 | as in `src/click_loglevel.py`, except a standard name raises `NameError` for `logging` |
| LegacyTop.GetMetavar | click_loglevel.py:19-20 | `[NOTSET\|DEBUG\|INFO\|WARNING\|ERROR\|CRITICAL]` |
| Properties.UpperKeepsIntParse | src/click_loglevel/__init__.py:69-74 | strings equal up to case are both the same integer or both not integers |
| Properties.LetterNameNotInt | src/click_loglevel/__init__.py:69-74 | a name starting with a letter, in any case, never takes the integer path |
| Properties.ParseCaseInsensitive | src/click_loglevel/core.py:23-24 | `parse` gives the same result for inputs equal up to case |
| Properties.ConvertCaseInsensitive | src/click_loglevel/__init__.py:66-76 | inputs equal up to case both convert to the same level, or both fail |
| Properties.ConvertPaddedInt | src/click_loglevel/__init__.py:69-70 | a padded integer such as `" 42 "` converts to that integer, whatever the extras |
| Properties.LogLevelMatchesParser | src/click_loglevel/__init__.py:52-64 | `LogLevel`'s inline constructor builds the same registry and metavar as `LevelParser`'s |
| Properties.LegacyPaddedInt | src/click_loglevel.py:23-24 | both legacy types read a padded integer as that integer |
| Properties.ConvertStandardName | src/click_loglevel/__init__.py:53-74 | with no extras, each standard name in any case converts to its logging value |
| Properties.ConvertUnknownName | src/click_loglevel/__init__.py:73-76 | with no extras, a non-integer that is not a standard name fails with the message quoting it |
| Properties.ConvertMappingExtra | src/click_loglevel/__init__.py:56-74 | a mapping extra converts, in any case, to the value of the last extra with the same upper form |
| Properties.AdaptersAgree | src/click_loglevel/asyncclick.py:28-48 | the Click and asyncclick types built from the same extras convert every input alike and have the same metavar |
| Properties.LegacyMatchesLogLevel | src/click_loglevel.py:20-30 | the legacy type converts every input exactly as `LogLevel` with no extras |
| Properties.LegacyTopDiffers | click_loglevel.py:13-17 | the two legacy types agree except on standard names, where the top-level one raises `NameError` |
| Properties.LegacyTopNoNames | click_loglevel.py:7-17 | the top-level legacy type gives a level only for an integer |
| Properties.VerboseNotInt | test/test_logleveltype.py:68-73 | `"VERBOSE"` is not an integer |
| Properties.VerboseNotStandard | test/test_logleveltype.py:68-73 | `"VERBOSE"` is not a standard name in any case |
| Properties.VerboseMessage | test/test_logleveltype.py:73 | the message for `VERBOSE` is `'VERBOSE': invalid log level` |
| Properties.LegacyRejectsVerbose | test/test_logleveltype.py:68-73 | the legacy type rejects `"VERBOSE"` with `'VERBOSE': invalid log level` |
| Properties.LegacyStandardName | test/test_logleveltype.py:45 | every casing of a standard name gives its value in the legacy type |
| Properties.LegacyNone | test/test_logleveltype.py:50-58 | `None` passes through both legacy types |
| Properties.MetavarNoExtras | test/test_loglevel.py:75-78 | without extras the metavar is `[NOTSET\|DEBUG\|INFO\|WARNING\|ERROR\|CRITICAL]` |
| Properties.MetavarMixedCaseMapping | test/test_loglevel.py:188-196 | mapping extras `{"Verbose": 15, "Notice": 25}` appear in the metavar as given, after the standard names |
| Properties.MetavarMixedCaseNames | test/test_loglevel.py:188-196 | name extras `["Verbose", "Notice"]` appear in the metavar as given |
| Properties.VerboseNoticeKeys | test/test_completions.py:51 | with `{"Verbose": 5, "Notice": 25}` the keys are the standard names, then VERBOSE and NOTICE |
| Properties.StandardCompletionsN | test/test_completions.py:15 | among the standard names, `N` completes to NOTSET only |
| Properties.StandardCompletionsNone | test/test_completions.py:19-20 | no standard name starts with `V` or `Q` |
| Properties.CompletionsOfN | test/test_completions.py:38 | with those extras, `n` completes to NOTSET and then NOTICE |
| Properties.CompletionsOfV | test/test_completions.py:46 | with those extras, `v` completes to VERBOSE only |
| Properties.CompletionsNoExtras | test/test_completions.py:19-20 | without extras, `v` and `Q` complete to nothing |

## Left out

- The Click and asyncclick machinery is left out: `click.ParamType`, parameters, contexts, help rendering and process exit. The `self.fail` call is modelled as an `Invalid` outcome carrying its message.
- `CompletionItem` is modelled as a value holding only its string. Its other attributes belong to the framework.
- logging's global name table is a parameter (`known`), not global state. `logging.addLevelName` is not modelled.
- `int()` is modelled for ASCII input only: whitespace, an optional sign, and decimal digits. Underscores between digits and non-ASCII digits or spaces, which Python also accepts, are not modelled.
- PyInt.ParseIntStr: does not model the limit of 4300 digits past which `int()` raises `ValueError` (Python 3.11 and later, adjustable with `sys.set_int_max_str_digits`), so it also promises integers of more digits.
- Properties.ConvertPaddedInt: states the integer path for integers of any length; past 4300 digits Python's `int()` fails and the name lookup runs instead, which the model does not capture.
- Properties.LegacyPaddedInt: same as `Properties.ConvertPaddedInt`, for both legacy types; the 4300-digit limit is not modelled.
- `str.upper` is modelled on ASCII letters only. Unicode case mapping, including mappings that change the length such as `"ß"` to `"SS"`, is not modelled.
- `repr` is modelled for ASCII text. It switches to double quotes when the string has a single quote and no double quote. Non-ASCII characters are not modelled: Python prints the printable ones as they are and escapes the others with `\x`, `\u` or `\U`.
- `get_completions` is a lazy generator. It is modelled as the list it yields.
- Running under an event loop is not modelled for `AsyncLogLevel`: its methods are synchronous there too.
- `AsyncLogLevel.get_metavar` takes an unused `ctx` argument. The model leaves it out.
- The `__version__` and author metadata are not modelled.
- An `extra` that is an arbitrary iterable or mapping is modelled as a finite list of names or of (name, value) pairs. For a mapping, the list holds the distinct keys in the order `items()` gives them.
- Extras that differ only in case have undefined behaviour, according to the docstrings. The model does what the code does: the last assignment wins, and the metavar lists both spellings.
- Type checks that Python does not enforce are not modelled. Passing a non-int value in a mapping is an example.

## Findings

| source | as written | input that shows it | evidently intended | confidence | as-written member | corrected member |
|---|---|---|---|---|---|---|
| click_loglevel.py:1-15 | the module reads `logging` without importing it | `convert("INFO")` raises `NameError` | return `logging.INFO`, as `src/click_loglevel.py:28` does | high; not executed | LegacyTop.Convert (with Properties.LegacyTopDiffers) | LegacySrc.Convert (with Properties.LegacyStandardName) |
