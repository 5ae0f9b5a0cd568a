# py-cricinfo scorecard core in Dafny

This project models the part of py-cricinfo that turns a raw, already-deserialised
Cricinfo match into an ordered scorecard. The model covers the current package
(`pycricinfo`) and the legacy package (`cricinfo`). It has five parts:

- the raw payload clean-ups: `replace_empty_objects_with_null`, and
  `set_empty_dicts_to_none`, which works in place;
- the per-period player records and their `find`, `batted` and `bowled` accessors,
  the roster player's `keeper` and `athlete_name`, and the match header's
  `summary`, `competition` and first-match search `get_batting_linescore_for_period`;
- the stat-to-field mapping `add_linescore_stats_as_properties`, in its three
  versions: current player innings, legacy player innings and team linescore. It
  keeps segment 1 (or 0) of a dotted stat name, turns camelCase into snake_case,
  lower-cases it and writes the looked-up value into a dictionary. The model
  also covers the team statistics list of `create_additional_attributes`;
- the scorecard builder `create`, `_enrich_roster` and `_enrich_player` of both
  versions:
  - the number of innings (2 or 4);
  - each innings seeded from its batting linescore;
  - every record classified as batting, bowling or nothing by `bool(x) and bool(int(x))`;
  - each contribution appended to its period's innings;
- the terminal rendering:
  - `score_summary`, `player_display` and `overs_display`;
  - the coloured batting row and the bowling row;
  - the stable sort by batting or bowling order;
  - the header-less tables;
  - the order in which `Scorecard.to_table` prints its tables.

The modules follow the program's structure:

| module | models |
|---|---|
| `Wrappers`, `Errors` | Option and Result, and the model's error values |
| `PyText` | the Python string behaviour the core relies on: `str.split`, `str.lower`, the snake-case regex, `str(int)` and `int(str)` |
| `Payload` | the JSON tree and the two clean-ups |
| `Linescores` | a player's per-period record and its accessors |
| `Rosters` | players, positions and rosters |
| `Matches` | the header, competitions, competitors and the first batting linescore |
| `StatFields` | the stat-to-field writers and the team statistics list |
| `PlayerInnings` | the batting and bowling innings records, their display rules and their validation |
| `Scorecards` | classification, seeding and the walk over rosters, players and records |
| `Tables` | rows, tables and printing |

The statistics lookup (`statistics.find`, and the legacy `gs`) lives in a file
that is not part of this model. It is a parameter `find: Lookup`, a function from
the statistics tree and a stat name to a scalar.

Pydantic's validation of the written dictionary becomes an explicit check:
- every required field has to be present with the right type;
- the optional counts may be missing or `None`;
- the `not_out`/`notouts` and `runs`/`conceded` aliases are honoured.

A failure becomes an `Err`, the way pydantic raises a validation error.

Python exceptions become `Err` results:
- a `TypeError` for a non-string stat name;
- an indexing error for a match without competitions or a period out of range;
- a `TypeError` for a missing batting linescore, which is subscripted while `None`;
- a `ValueError` from `int(x)` on a flag that is not numeric.

Printing is modelled as a `Screen` object that keeps the list of tables printed so
far. A PrettyTable is modelled as a `Table` object with the header flag, field
names, alignments, rows and row dividers it is given.

Only the legacy `Innings.to_table` and `HeaderlessTableMixin` are part of this
model (cricinfo/output_models/scorecard.py). The current `Scorecard.to_table` calls the
current `Innings` class and mixin, imported from `pycricinfo/output_models/innings.py`
and `pycricinfo/output_models/common.py`, and those definitions are not part of this
model. The rendering modelled is therefore the legacy one, for both versions.

The docstring of `replace_empty_objects_with_null` says that lists holding only
`None` are replaced as well. The code does not do this. The model follows the
code (`Payload.AllNoneListKept`), and `Payload.ReplaceAsDocumented` is the
documented behaviour, for comparison (see Findings).

## Model

| member | source | states |
|---|---|---|
| Payload.Truthy | pycricinfo/source_models/api/match.py:95-96 | Python's `bool(v)` on a JSON value: `None`, `False`, zero, the empty string and empty containers are false |
| Payload.AllNone | pycricinfo/utils.py:26 | `all(value is None for value in d.values())`, true of the empty dict |
| Payload.ReplaceEmptyObjectsWithNull | pycricinfo/utils.py:10-32 | a value that is neither dict nor list is returned unchanged; a dict becomes `None` exactly when all its values are `None`, the empty dict included; otherwise the dict keeps its keys in order and each entry is its key with the recursive rewrite of its value; a list keeps its length and each item is the recursive rewrite of the original item |
| Payload.ReplaceFixedPoints | pycricinfo/utils.py:25-32 | the clean-up leaves a value unchanged if and only if no dict anywhere in it has only `None` values |
| Payload.AllNoneListKept | pycricinfo/utils.py:29-30 | a list of only `None` values is kept as it is, not replaced by `None` |
| Payload.ReplaceAsDocumented | pycricinfo/utils.py:11-13 | the rewrite as documented: a dict or a list becomes `None` exactly when all its values or items are `None`; otherwise each value or item is rewritten in place, keys and length kept |
| Payload.AllNoneListReplaced | pycricinfo/utils.py:12 | as documented, a list of only `None` values becomes `None` |
| Payload.DocumentedAgreesWithoutNoneLists | pycricinfo/utils.py:10-32 | where no list of only `None` occurs anywhere inside the value, the documented rewrite and the code give the same result |
| Payload.NotIdempotent | pycricinfo/utils.py:26-28 | the all-`None` test uses the original values: `{a: {b: None}}` becomes `{a: None}`, and a second pass turns that into `None` |
| Payload.IsEmptyDict | pycricinfo/source_models/common.py:15 | `isinstance(value, dict) and not value`: a dict with no entries |
| Payload.NullIfEmpty | pycricinfo/source_models/common.py:14-16 | one entry: its key is kept; an empty dict value becomes `None`; any other value is unchanged |
| Payload.EmptyDictsToNone | pycricinfo/source_models/common.py:13-17 | the keys stay the same and in order; empty dict values become `None`; other values are unchanged; no empty dict remains at the top level |
| Payload.EmptyDictsToNoneIdempotent | pycricinfo/source_models/common.py:13-17 | a second pass changes nothing |
| Payload.NestedEmptyDictKept | pycricinfo/source_models/common.py:15 | a non-empty dict holding an empty dict is not recursed into |
| Payload.RawDict.constructor | pycricinfo/source_models/common.py:13 | the raw input dictionary, holding the given entries in order |
| Payload.RawDict.SetEmptyDictsToNone | pycricinfo/source_models/common.py:13-17 | the dictionary's entries are replaced in place by their cleaned-up form, and the same object is returned |
| Linescores.Find | pycricinfo/source_models/linescores.py:18-19 | `find(name)` is the statistics lookup of the record's statistics |
| Linescores.Batted | pycricinfo/source_models/api/linescores.py:14-17 | `batted` is the raw lookup of "batted", not coerced |
| Linescores.Bowled | pycricinfo/source_models/api/linescores.py:19-22 | `bowled` is the raw lookup of "bowled", not coerced |
| Linescores.FlagsReadOnlyStatistics | pycricinfo/source_models/linescores.py:12-29 | the two flags depend only on the statistics, not on the period or the media id |
| Rosters.Keeper | pycricinfo/models/source/api/roster.py:27-30 | a player is a keeper if and only if the position abbreviation is exactly "WK" |
| Rosters.KeeperIsExact | pycricinfo/models/source/api/roster.py:30 | a missing abbreviation, "wk", "Wk" or "WK " gives no keeper |
| Rosters.AthleteName | pycricinfo/models/source/api/roster.py:22-25 | the athlete's display name |
| Matches.CompetitionOf | pycricinfo/source_models/api/match.py:162-165 | the first competition; an error if and only if there is none |
| Matches.Summary | pycricinfo/source_models/match.py:81-84 | the first competition's status summary; an error if and only if there is no competition |
| Matches.FirstBattingIn | pycricinfo/source_models/match.py:93-95 | the inner loop over one competitor's linescores: the first one whose period matches and that is batting, paired with the team, or nothing |
| Matches.FirstBatting | pycricinfo/source_models/match.py:91-95 | the nested loop with its early return: the first competitor whose inner loop finds a match decides the result; nothing when none does (related to `FirstMatchIndex` by `FirstBattingIsFirstMatch`) |
| Matches.BattingLinescoreForPeriod | cricinfo/source_models/match.py:78-82 | succeeds if and only if there is a competition, and then yields the first batting linescore of the period among the first competition's competitors |
| Matches.Flatten | pycricinfo/source_models/match.py:92-93 | the search order of the nested loops as one list: every competitor's (team, linescore) pairs, competitor by competitor |
| Matches.FirstMatchIndex | pycricinfo/source_models/match.py:91-95 | the index of the first (team, linescore) pair with the period and the batting flag: every earlier pair fails the test, and the pair found passes it |
| Matches.FirstMatchIndexAppend | pycricinfo/source_models/match.py:92-95 | the search over two lists together finds a match in the first list if there is one, else searches the second |
| Matches.FirstBattingInIsFirstPair | pycricinfo/source_models/api/match.py:169-171 | the inner loop over one competitor's linescores returns the first matching pair |
| Matches.FirstBattingIsFirstMatch | pycricinfo/source_models/api/match.py:167-171 | the nested loops return the first match in competitor order, then linescore order, or nothing |
| Matches.BattingLinescoreSound | pycricinfo/source_models/api/match.py:167-171 | the lookup returns nothing if and only if no competitor has a batting linescore for the period; a result it returns is such a linescore together with its competitor's team |
| Matches.FlattenIndex | pycricinfo/source_models/match.py:92-93 | each position of the search order is one competitor's linescore |
| Matches.InFlatten | pycricinfo/source_models/match.py:92-93 | every competitor's linescore has a position in the search order |
| Matches.OnlyFirstCompetitionSearched | cricinfo/source_models/match.py:73-82 | competitions after the first never change the result |
| PyText.IsSpace | pycricinfo/output_models/scorecard.py:122 | the ASCII whitespace that `int()` strips from a string: space, tab, line feed, carriage return, vertical tab, form feed and U+001C to U+001F |
| PyText.ToLower | pycricinfo/source_models/api/match.py:108 | `str.lower()` on ASCII: each character mapped through `LowerChar`, the length kept (facts in `ToLowerFacts`) |
| PyText.Split | cricinfo/output_models/scorecard.py:38 | `str.split` with one separator character: at least one piece |
| PyText.SplitPiecesFree | cricinfo/output_models/scorecard.py:38 | no piece holds the separator |
| PyText.SplitJoin | cricinfo/output_models/scorecard.py:38 | joining the pieces with the separator gives back the string |
| PyText.SplitConcat | cricinfo/output_models/scorecard.py:38 | splitting `a + sep + b` gives the pieces of `a` followed by those of `b` |
| PyText.SplitConcatStep | cricinfo/output_models/scorecard.py:38 | one more character in front of the left side keeps `SplitConcat` true |
| PyText.SplitCons | cricinfo/output_models/scorecard.py:38 | the pieces of a non-empty string are those of its tail with the first character pushed in front |
| PyText.SplitConsAppend | cricinfo/output_models/scorecard.py:38 | pushing a character in front of the pieces commutes with appending more pieces |
| PyText.JoinPush | cricinfo/output_models/scorecard.py:38 | pushing a character in front of the pieces puts it in front of their join |
| PyText.SplitWithoutSeparator | cricinfo/output_models/scorecard.py:38-39 | a name without a dot splits into itself |
| PyText.ToLowerFacts | cricinfo/output_models/scorecard.py:40 | `lower()` maps each character to its lower-case form and leaves no upper-case letter |
| PyText.ToLowerAppend | cricinfo/output_models/scorecard.py:40 | lower-casing distributes over concatenation |
| PyText.UnderscoreBeforeUpper | pycricinfo/source_models/api/match.py:50 | an underscore placed before every upper-case ASCII letter, every character kept in order |
| PyText.SnakeCase | pycricinfo/source_models/api/match.py:50 | `SNAKE_CASE_REGEX.sub("_", s)`: the first character kept as it is, then an underscore before every later upper-case letter (facts in `SnakeCaseInserts` and `SnakeCaseAt`, built on `UnderscoreBeforeUpperAppend`) |
| PyText.UnderscoreBeforeUpperFacts | cricinfo/output_models/scorecard.py:18 | inserting `_` before each capital adds one character per capital; with the underscores removed the text is the input; a text without capitals is unchanged (where each `_` goes: `UnderscoreBeforeUpperAt`) |
| PyText.UnderscoreBeforeUpperAppend | cricinfo/output_models/scorecard.py:18 | the rewrite of a concatenation is the concatenation of the rewrites, so each part is rewritten on its own |
| PyText.UnderscoreBeforeUpperAt | cricinfo/output_models/scorecard.py:18 | a character anywhere in the text gets an `_` directly in front of it exactly when it is upper-case, and no `_` is inserted anywhere else |
| PyText.SnakeCaseInserts | pycricinfo/source_models/api/match.py:50 | the regex `(?<!^)(?=[A-Z])` adds one character per capital after the start, keeps the first character, and with the underscores removed gives the input back (where each `_` goes: `SnakeCaseAt`) |
| PyText.SnakeCaseAt | pycricinfo/source_models/api/match.py:50 | every character after the first gets an `_` directly in front of it exactly when it is an ASCII capital; the characters before it are rewritten as on their own |
| PyText.SnakeCaseOfCamel | pycricinfo/source_models/api/match.py:50 | a camelCase word with one capital gets an `_` before that capital |
| PyText.SnakeCaseIdentity | cricinfo/output_models/scorecard.py:18 | a word with no capital after its first character is unchanged |
| PyText.NatToString | cricinfo/output_models/scorecard.py:74 | `str(n)` for a natural number: its decimal digits, most significant first, at least one |
| PyText.ValidDigits | pycricinfo/output_models/scorecard.py:122 | the digit strings `int()` accepts: ASCII digits, starting and ending with a digit, with single underscores between digits |
| PyText.DigitsValue | pycricinfo/output_models/scorecard.py:122 | the value of such a digit string in base ten, underscores ignored (inverted by `DigitsValueOfNat`) |
| PyText.IntToString | cricinfo/output_models/scorecard.py:74 | `str(int)`: digits, with a leading `-` if and only if negative |
| PyText.ParseInt | pycricinfo/output_models/scorecard.py:122 | `int(str)` on an optionally signed decimal surrounded by whitespace; a returned number had a digit |
| PyText.TrimStart | pycricinfo/output_models/scorecard.py:122 | leading whitespace removed: the result is empty or starts with a non-space |
| PyText.TrimEnd | pycricinfo/output_models/scorecard.py:122 | trailing whitespace removed: the result is empty or ends with a non-space |
| PyText.TrimStartIsSuffix | pycricinfo/output_models/scorecard.py:122 | stripping leading whitespace drops a prefix and keeps the rest of the string |
| PyText.TrimEndIsPrefix | pycricinfo/output_models/scorecard.py:122 | stripping trailing whitespace keeps a prefix of the string |
| PyText.TrimmedIsInfix | pycricinfo/output_models/scorecard.py:122 | every character of the stripped string comes from the original |
| PyText.DigitsValueOfNat | cricinfo/output_models/scorecard.py:74 | the value of the decimal digits `str(n)` prints is n again |
| PyText.IntRoundTrip | pycricinfo/output_models/scorecard.py:122 | `int(str(i)) == i` for every integer |
| StatFields.StatSegment | pycricinfo/output_models/scorecard.py:37-38 | `name.split(".")`, then piece 1 when there are several pieces, else piece 0 |
| StatFields.StatKey | pycricinfo/output_models/scorecard.py:39 | the dictionary key of a statistic name: its segment, snake-cased by the regex, then lower-cased (shape in `StatKeyShape`) |
| StatFields.WriteStats | pycricinfo/output_models/scorecard.py:34-39 | the write loop as a function: the names in order, each looked-up value stored under its key over what was there; with `keepNone` false a `None` value is skipped, as pycricinfo/source_models/api/match.py:106-108 does |
| StatFields.StatSegmentDotFree | pycricinfo/output_models/scorecard.py:37-38 | the kept segment holds no dot |
| StatFields.StatSegmentOf | pycricinfo/output_models/scorecard.py:37-38 | for `a.b.c…` the kept segment is `b`, the second, not the last |
| StatFields.StatSegmentOfPlain | pycricinfo/source_models/api/match.py:103-104 | a name without a dot is its own segment |
| StatFields.StatKeyShape | pycricinfo/output_models/scorecard.py:39 | a key has no capital letter and, apart from underscores, is the lower-cased segment |
| StatFields.StatKeyOfPlainName | pycricinfo/output_models/scorecard.py:37-39 | a lower-case name without a dot is its own key |
| StatFields.StatKeyOfCamel | pycricinfo/source_models/api/match.py:103-108 | a camelCase name with one capital becomes snake_case |
| StatFields.RunRateKey | pycricinfo/source_models/api/match.py:50 | `runRate` has key `run_rate` |
| StatFields.StatKeys | pycricinfo/source_models/api/match.py:103-104 | the keys of a list of names, one per name |
| StatFields.WriteStatsSnoc | pycricinfo/output_models/scorecard.py:34-39 | one more name writes its value over what the earlier names left |
| StatFields.LastWriter | pycricinfo/output_models/scorecard.py:34-39 | the last name that writes a key: it writes the key and no later name does |
| StatFields.WriteStatsValue | pycricinfo/output_models/scorecard.py:34-39 | after the loop every key holds the value of the last name that wrote it; a key no name wrote is as it was, present or absent |
| StatFields.WriteStatsUntouched | pycricinfo/source_models/api/match.py:106-108 | keys no name maps to are untouched |
| StatFields.WriteStatsOwnKey | pycricinfo/source_models/api/match.py:103-108 | a name whose key no other name shares, and whose value is written, leaves that value under its key |
| StatFields.FirstNonString | pycricinfo/output_models/scorecard.py:34-36 | the first argument that is not a string, or the end |
| StatFields.FirstNonStringStep | pycricinfo/output_models/scorecard.py:34-36 | before the first non-string argument, argument `i` is a string exactly when the bound lies beyond `i` |
| StatFields.AsArgs | pycricinfo/output_models/scorecard.py:49-58 | literal names as arguments: all strings, with their texts unchanged |
| StatFields.TextsSnoc | pycricinfo/output_models/scorecard.py:34-39 | the names up to one more argument are the earlier names and that one |
| StatFields.StatData.constructor | pycricinfo/output_models/scorecard.py:30 | the data dictionary being filled, empty at first |
| StatFields.StatData.AddLinescoreStats | pycricinfo/output_models/scorecard.py:30-40 | without a linescore nothing changes; otherwise the names before the first non-string are written in order, `None` values included; a non-string name raises `TypeError` |
| StatFields.StatData.WriteArgs | pycricinfo/output_models/scorecard.py:34-39 | the shared loop: writes the leading string arguments and reports the first non-string |
| StatFields.StatData.AddLegacyLinescoreStats | cricinfo/output_models/scorecard.py:32-41 | without a linescore nothing changes; otherwise every name is written in order through `gs`, `None` values included |
| StatFields.StatData.AddTeamLinescoreStats | pycricinfo/source_models/api/match.py:77-109 | falsy statistics leave the data unchanged; statistics that are not a dict are an error; otherwise only the non-`None` values are written, and a non-string name raises `TypeError` |
| StatFields.StatData.CreateAdditionalAttributes | pycricinfo/source_models/api/match.py:111-125 | the corrected (intended) eight-name list, with "bpo" and "byes" separate (see Findings): falsy statistics change nothing, a non-dict is an error, otherwise the eight names are written and a found `byes` value is stored under `byes` |
| StatFields.StatData.CreateAdditionalAttributesAsWritten | pycricinfo/source_models/api/match.py:111-125 | the seven names as spelled, "bpobyes" among them: the same error and no-change cases, and the `byes` entry stays exactly as it was, present or absent |
| StatFields.TeamStatNamesAsWritten | pycricinfo/source_models/api/match.py:114-124 | as written, the adjacent literals give 7 names, with "bpobyes" and without "bpo" or "byes" |
| StatFields.TeamStatNames | pycricinfo/source_models/api/match.py:114-124 | the intended 8 names, with "bpo" and "byes" as separate names and every other name kept |
| StatFields.AsWrittenKeysOtherThanByes | pycricinfo/source_models/api/match.py:116-117 | no name of the list as written has the key `byes` |
| StatFields.CorrectedKeysOtherThanByes | pycricinfo/source_models/api/match.py:116-117 | in the intended list exactly one name has the key `byes` |
| StatFields.ByesNeverWrittenAsWritten | pycricinfo/source_models/api/match.py:111-125 | as written, `byes` is never written: the data keeps whatever it held under `byes` |
| StatFields.ByesWrittenWhenFound | pycricinfo/source_models/api/match.py:111-125 | with the intended list, a found `byes` value is written under `byes` |
| PlayerInnings.IsSet | pycricinfo/output_models/innings.py:25 | the truthiness of an `Optional[bool]` flag: set only when it is `True`; `None` and `False` are not |
| PlayerInnings.PlayerDisplay | pycricinfo/output_models/innings.py:22-25 | the name, then " (c)" if and only if the captain flag is set, then the keeper mark if and only if the keeper flag is set; `None` flags add nothing |
| PlayerInnings.PlayerDisplayShowsFlags | cricinfo/output_models/scorecard.py:63 | the display of a name determines both flags |
| PlayerInnings.IsWhole | pycricinfo/output_models/innings.py:38 | `overs % 1 == 0`: the value has no fractional part |
| PlayerInnings.OversDisplay | pycricinfo/output_models/innings.py:35-38 | keeps the value; an integer exactly when the overs are whole; fractional overs unchanged |
| PlayerInnings.OversDisplayIdempotent | cricinfo/output_models/scorecard.py:89-90 | displaying displayed overs changes nothing |
| PlayerInnings.StatKeyOfDotted | pycricinfo/output_models/scorecard.py:37-39 | `prefix.seg` with a lower-case `seg` has key `seg` |
| PlayerInnings.BattingStatNames | pycricinfo/output_models/scorecard.py:49-58 | the seven names `create_batting_attributes` passes, in order |
| PlayerInnings.BowlingStatNames | pycricinfo/output_models/scorecard.py:68 | the five names `create_bowling_attributes` passes, in order |
| PlayerInnings.PlainKeyAt | pycricinfo/output_models/scorecard.py:52-57 | a plain lower-case name in a list has itself as key |
| PlayerInnings.DottedKeyAt | pycricinfo/output_models/scorecard.py:51-55 | a dotted name in a list has its second segment as key |
| PlayerInnings.CamelKeyAt | pycricinfo/output_models/scorecard.py:53 | a camelCase name in a list has its snake_case key |
| PlayerInnings.DismissalTextKey | pycricinfo/output_models/scorecard.py:51 | "batting.dismissal_text" has key `dismissal_text` |
| PlayerInnings.BallsFacedKey | pycricinfo/output_models/scorecard.py:53 | "ballsFaced" has key `balls_faced` |
| PlayerInnings.BattingOrderKey | pycricinfo/output_models/scorecard.py:55 | "batting.order" has key `order` |
| PlayerInnings.BattingKeys | pycricinfo/output_models/scorecard.py:49-58 | the seven batting names have the keys dismissal_text, runs, balls_faced, notouts, order, fours and sixes |
| PlayerInnings.BowlingOrderKey | pycricinfo/output_models/scorecard.py:68 | "bowling.order" has key `order` |
| PlayerInnings.BowlingKeys | cricinfo/output_models/scorecard.py:95 | the five bowling names have the keys overs, maidens, conceded, wickets and order |
| PlayerInnings.WrittenUnderKeys | pycricinfo/output_models/scorecard.py:34-39 | names with distinct keys fill a fresh dictionary with exactly those keys, each holding its own name's value |
| PlayerInnings.RequiredInt | pycricinfo/output_models/innings.py:8 | a required integer field: present and an integer, or an error naming the field |
| PlayerInnings.OptionalInt | pycricinfo/output_models/innings.py:17-19 | an optional integer field: missing or `None` gives `None`, not 0; an integer is kept; anything else is an error |
| PlayerInnings.RequiredStr | pycricinfo/output_models/innings.py:12-13 | a required string field, or an error naming the field |
| PlayerInnings.RequiredBool | pycricinfo/output_models/innings.py:20 | a required boolean field, or an error naming the field |
| PlayerInnings.RequiredNumber | pycricinfo/output_models/innings.py:30 | `float \| int` overs: an integer or a float, kept as it is, or an error |
| PlayerInnings.AliasKey | pycricinfo/output_models/innings.py:20 | the first alias is used when present, else the second |
| PlayerInnings.ValidateBatting | pycricinfo/output_models/innings.py:11-20 | a batting innings is built if and only if every field has its type; its fields are those of the dictionary, `not_out` taken from `not_out` or else `notouts`; otherwise the error names a field |
| PlayerInnings.ValidateBowling | pycricinfo/output_models/innings.py:28-33 | a bowling innings is built if and only if every field has its type; `overs` keeps its int or float form; `runs` is taken from `runs` or else `conceded`; otherwise the error names a field |
| PlayerInnings.BattingData | pycricinfo/output_models/scorecard.py:49-58 | the dictionary `create_batting_attributes` builds: the seven batting names written into an empty dict, `None` values included (contents in `BattingDataFirst` and `BattingDataRest`) |
| PlayerInnings.BattingDataFirst | pycricinfo/output_models/scorecard.py:49-58 | the batting dictionary holds the looked-up order, dismissal text and runs under their keys |
| PlayerInnings.BattingDataRest | pycricinfo/output_models/scorecard.py:49-58 | the batting dictionary holds the looked-up balls faced, fours, sixes and not-out flag under their keys, and no `not_out` key |
| PlayerInnings.ValidateBattingData | pycricinfo/output_models/innings.py:11-20 | validating any dictionary holding the seven looked-up values, and no `not_out` key, builds an innings exactly when the values have their types, with `not_out` taken from `notouts` |
| PlayerInnings.BattingFromStatistics | pycricinfo/output_models/scorecard.py:43-59 | a batting innings is built from a record if and only if the looked-up statistics have the right types; its display name, captain and keeper flags are the ones given, and its other fields are the values of batting.order, batting.dismissal_text, runs, ballsFaced, fours, sixes and notouts |
| PlayerInnings.BowlingData | pycricinfo/output_models/scorecard.py:68 | the dictionary `create_bowling_attributes` builds: the five bowling names written into an empty dict, `None` values included (contents in `BowlingDataFacts`) |
| PlayerInnings.BowlingDataFacts | pycricinfo/output_models/scorecard.py:68 | the bowling dictionary holds the five looked-up values under their keys, with no `runs` key |
| PlayerInnings.ValidateBowlingData | pycricinfo/output_models/innings.py:28-33 | validating any dictionary holding the five looked-up values, and no `runs` key, builds an innings exactly when the values have their types, with `runs` taken from `conceded` |
| PlayerInnings.BowlingFromStatistics | pycricinfo/output_models/scorecard.py:62-68 | a bowling innings is built if and only if the looked-up statistics have the right types; its display name is the one given, its overs are the int or float found under "overs", and its order, maidens, runs and wickets are the values of bowling.order, maidens, "conceded" and wickets |
| Scorecards.PyBool | pycricinfo/output_models/scorecard.py:122 | Python's `bool(x)` on a looked-up scalar: `None`, `False`, zero and the empty string are false, everything else true |
| Scorecards.TruncateReal | pycricinfo/output_models/scorecard.py:122 | `int(float)` truncates toward zero |
| Scorecards.PyInt | pycricinfo/output_models/scorecard.py:122 | `int(x)` on integers, booleans, floats and numeric strings; an error otherwise |
| Scorecards.Flag | pycricinfo/output_models/scorecard.py:122 | `bool(x) and bool(int(x))`: false for a falsy value; true if and only if `x` is truthy and converts to a non-zero integer; an error if and only if it is truthy and does not convert |
| Scorecards.FlagOfPrintedInt | pycricinfo/output_models/scorecard.py:122 | a numeric string is set if and only if its number is not zero, so "0" is not set |
| Scorecards.FlagOfIntBoolNone | cricinfo/output_models/scorecard.py:169 | 0, `False` and `None` are not set; other integers and `True` are |
| Scorecards.FlagOfFloat | pycricinfo/output_models/scorecard.py:122 | a float is set if and only if its magnitude is at least 1 |
| Scorecards.FlagOfWord | pycricinfo/output_models/scorecard.py:122 | a non-numeric string raises an error |
| Scorecards.Classify | pycricinfo/output_models/scorecard.py:121-135 | batting if and only if the batted flag is set; bowling if and only if the batted flag is clear and the bowled flag is set; nothing if both are clear; an error if a flag that is tested does not convert |
| Scorecards.BowledIgnoredWhenBatting | cricinfo/output_models/scorecard.py:169-175 | once the batted flag is set, the bowled flag is not looked at |
| Scorecards.BattingFor | pycricinfo/output_models/scorecard.py:123-129 | a batting innings carries the athlete's display name and the player's captain and keeper flags |
| Scorecards.BowlingFor | pycricinfo/output_models/scorecard.py:132-134 | a bowling innings carries the athlete's display name |
| Scorecards.ContributionOf | pycricinfo/output_models/scorecard.py:121-135 | a record contributes its batting innings if and only if it is a batting record, its bowling innings if and only if it is a bowling record, and nothing if and only if it is neither |
| Scorecards.AddTo | pycricinfo/output_models/scorecard.py:130-135 | a batting innings is appended to the batters, a bowling innings to the bowlers, and nothing else changes |
| Scorecards.Place | pycricinfo/output_models/scorecard.py:130-135 | a contribution goes to innings `period - 1`, and every other innings is unchanged; a period outside 1 to the number of innings is an error |
| Scorecards.PyIndex | cricinfo/output_models/scorecard.py:174 | Python list indexing: negative indices count from the end, and an index outside the list is an error |
| Scorecards.PlaceAsWritten | cricinfo/output_models/scorecard.py:174-178 | placing with Python's `innings[period - 1]`, keeping the length |
| Scorecards.PlaceAgreesInRange | pycricinfo/output_models/scorecard.py:130-135 | for periods from 1 to the number of innings, the code as written and the model agree |
| Scorecards.PeriodZeroLandsInLastInnings | cricinfo/output_models/scorecard.py:174 | as written, a period 0 batting record lands in the fourth innings; the model reports it as out of range |
| Scorecards.RecordEntries | pycricinfo/output_models/scorecard.py:121 | a player's records in order, each with its player |
| Scorecards.PlayerEntries | pycricinfo/output_models/scorecard.py:116-117 | the records of a roster's players, player by player, each in its own order |
| Scorecards.RosterEntries | pycricinfo/output_models/scorecard.py:108-109 | the records of every roster, roster by roster |
| Scorecards.Steps | pycricinfo/output_models/scorecard.py:108-135 | each record in walk order gives its period and its contribution |
| Scorecards.StepsAppend | pycricinfo/output_models/scorecard.py:108-117 | the steps of two walks in a row are the steps of each |
| Scorecards.Fold | pycricinfo/output_models/scorecard.py:121-135 | the walk: each step's contribution placed into the innings left by the steps before it; the first error ends the walk with that error |
| Scorecards.Enrich | pycricinfo/output_models/scorecard.py:108-117 | `_enrich_roster` over the records in roster, player and record order: the walk over their steps |
| Scorecards.FoldAppend | pycricinfo/output_models/scorecard.py:108-117 | walking two lists of records in a row is walking the first and then the second |
| Scorecards.FoldFailsFrom | pycricinfo/output_models/scorecard.py:108-117 | once the walk fails, it fails with that error |
| Scorecards.FoldStep | pycricinfo/output_models/scorecard.py:121-135 | walking one more record either fails with that record's error or places its contribution |
| Scorecards.BattersIn | pycricinfo/output_models/scorecard.py:122-130 | the batting innings the walk appends to the innings of one period, in walk order |
| Scorecards.BowlersIn | pycricinfo/output_models/scorecard.py:131-135 | the bowling innings the walk appends to the innings of one period, in walk order |
| Scorecards.Grown | pycricinfo/output_models/scorecard.py:130-135 | each innings with the batting and bowling records of its period appended in walk order |
| Scorecards.GrownStep | pycricinfo/output_models/scorecard.py:130-135 | one more record is appended to its own innings' list only |
| Scorecards.FoldCollects | pycricinfo/output_models/scorecard.py:108-135 | a successful walk changes nothing but the two lists of each innings, and appends to each exactly its period's records in roster, player and record order |
| Scorecards.FoldCollectsStep | pycricinfo/output_models/scorecard.py:121-135 | one more placed record keeps the walk equal to the innings grown record by record |
| Scorecards.StepFits | pycricinfo/output_models/scorecard.py:121-135 | one record goes through: it classifies and validates, and a contribution's period is one of the innings |
| Scorecards.FoldSucceeds | pycricinfo/output_models/scorecard.py:120-135 | the walk succeeds if and only if every record classifies, validates, and has its period in range when it contributes |
| Scorecards.FoldKeepsLength | pycricinfo/output_models/scorecard.py:108-109 | the walk keeps the number of innings |
| Scorecards.InningsFor | pycricinfo/output_models/scorecard.py:97-106 | innings `i` is seeded if and only if there is a competition with a batting linescore for `i`; it has number `i` and takes team, runs, wickets and description from that linescore, with empty lists; otherwise the error names the missing competition or period |
| Scorecards.SeedInnings | pycricinfo/output_models/scorecard.py:95-107 | innings 1 to `n` built in order from the periods' batting linescores; the first period that fails ends the seeding with its error |
| Scorecards.AllPeriodsBat | pycricinfo/output_models/scorecard.py:96-97 | the header has a competition, and every period 1 to `n` has a batting linescore in it |
| Scorecards.SeedShape | pycricinfo/output_models/scorecard.py:95-107 | seeding `n` innings succeeds if and only if each period 1 to `n` has a batting linescore; the innings are numbered 1 to `n` in order; a failure names the first period without one |
| Scorecards.SeedFailsFrom | cricinfo/output_models/scorecard.py:147-154 | once a period has no batting linescore, seeding more periods fails the same way |
| Scorecards.InningsCount | pycricinfo/output_models/scorecard.py:96 | 2 innings if and only if the current version builds a limited-overs match, otherwise 4; the legacy version always builds 4 (cricinfo/output_models/scorecard.py:148) |
| Scorecards.Build | pycricinfo/output_models/scorecard.py:90-112 | `create`: the header's summary and first competition, then `n` innings seeded, then every roster walked, then the scorecard of the title, summary and innings; each step's failure is the result |
| Scorecards.BuildShape | pycricinfo/output_models/scorecard.py:90-112 | a built scorecard has the header's title and summary and the right number of innings, numbered in order; each innings carries its period's batting linescore and exactly the batting and bowling records of that period in walk order |
| Scorecards.BuildFailsWithoutBatting | pycricinfo/output_models/scorecard.py:97-106 | the first period without a batting linescore makes the build fail, naming it |
| Scorecards.BuildNeedsCompetition | cricinfo/output_models/scorecard.py:143-148 | a match without competitions fails to build |
| Scorecards.InningsList.constructor | pycricinfo/output_models/scorecard.py:95 | `innings = []`: an empty list |
| Scorecards.InningsList.Append | pycricinfo/output_models/scorecard.py:98 | the innings list grows by one innings at the end |
| Scorecards.InningsList.Add | pycricinfo/output_models/scorecard.py:130-135 | the in-place append does what `Place` describes, and leaves the list unchanged on error |
| Scorecards.MakeBatting | cricinfo/output_models/scorecard.py:65-69 | filling a fresh dictionary with the current or the legacy writer and validating it gives the batting innings of `BattingFor` |
| Scorecards.MakeBowling | cricinfo/output_models/scorecard.py:92-95 | likewise for the bowling innings of `BowlingFor` |
| Scorecards.MakeContribution | cricinfo/output_models/scorecard.py:169-177 | classifying a record and then building its batting or bowling innings gives that record's contribution, or its error |
| Scorecards.EnrichPlayer | pycricinfo/output_models/scorecard.py:119-135 | the player's records are walked in order, in place, with the result of the walk specification |
| Scorecards.EnrichRoster | pycricinfo/output_models/scorecard.py:114-117 | the roster's players are walked in order, with the result of the walk specification |
| Scorecards.SeedList | pycricinfo/output_models/scorecard.py:95-107 | the imperative seeding loop builds a fresh list holding exactly the seeded innings, or reports the seeding error |
| Scorecards.EnrichRosters | pycricinfo/output_models/scorecard.py:108-109 | walking every roster in turn, in place, leaves the list holding the walk's result, or reports its error |
| Scorecards.PlayerEntriesPrefix | pycricinfo/output_models/scorecard.py:116-117 | the records of a roster split at any player into those before and those after |
| Scorecards.RosterEntriesPrefix | pycricinfo/output_models/scorecard.py:108-109 | the records of the rosters split at any roster into those before and those after |
| Scorecards.CreateScorecard | cricinfo/output_models/scorecard.py:140-159 | the imperative builder of either version computes `Build`: seeding, then walking every roster |
| Tables.ColourRow | cricinfo/output_models/scorecard.py:43-44 | keeps the number of cells; each cell is the colour, the cell and RESET |
| Tables.ColourRowRoundTrip | cricinfo/output_models/scorecard.py:43-44 | removing the colour and RESET gives back each cell |
| Tables.RedIsNotReset | cricinfo/output_models/scorecard.py:78 | a RESET-coloured cell does not start with RED |
| Tables.OptionalText | cricinfo/output_models/scorecard.py:75-77 | the printed form of an optional count: the word `None`, or the decimal numeral |
| Tables.RunsText | cricinfo/output_models/scorecard.py:74 | the runs cell: the numeral, then `*` exactly for a not-out batter |
| Tables.OptionalTextRoundTrip | cricinfo/output_models/scorecard.py:75-77 | an optional count printed as "None" or a number reads back as itself |
| Tables.RunsTextReadBack | cricinfo/output_models/scorecard.py:74 | the runs cell ends in `*` if and only if not out, and the rest reads back as the runs |
| Tables.BattingCells | cricinfo/output_models/scorecard.py:71-78 | the six cells of a batting row before colouring: display name, dismissal text, runs cell, balls faced, fours and sixes |
| Tables.BattingColour | cricinfo/output_models/scorecard.py:78 | red for a not-out batter, otherwise the reset code |
| Tables.BattingRow | cricinfo/output_models/scorecard.py:71-78 | a batting row has six cells |
| Tables.BattingRowRedIffNotOut | cricinfo/output_models/scorecard.py:71-78 | every cell of a batting row starts with RED if and only if the batter is not out |
| Tables.BattingRowReadBack | cricinfo/output_models/scorecard.py:71-78 | the uncoloured cells are the player display, the dismissal, the runs with the not-out marker, and the three optional counts, all of which read back |
| Tables.BowlingRow | cricinfo/output_models/scorecard.py:97-98 | the bowling row is exactly the name, the overs display, maidens, runs and wickets |
| Tables.BattingTableRow | cricinfo/output_models/scorecard.py:72 | the table row holds the six coloured strings |
| Tables.NumeralFree | cricinfo/output_models/scorecard.py:111-113 | a printed number holds no space, slash or colon |
| Tables.ScoreSummary | cricinfo/output_models/scorecard.py:111-113 | the summary starts with the runs, followed by a space when the description is "all out" and by a `/` otherwise |
| Tables.AllOutSummaryReadBack | cricinfo/output_models/scorecard.py:111-113 | an "all out" summary is the runs, "all" and "out" |
| Tables.ScoreSummaryReadBack | cricinfo/output_models/scorecard.py:111-113 | any other summary is the runs, a slash and the wickets, and both read back |
| Tables.InningsSummary | cricinfo/output_models/scorecard.py:109-113 | an innings' `score_summary`: the score summary of its runs, wickets and description |
| Tables.InningsHeading | cricinfo/output_models/scorecard.py:116 | the heading row: "Innings ", the number, ": ", the team's display name, a space, and the score summary |
| Tables.InningsHeadingNumber | cricinfo/output_models/scorecard.py:116 | the heading starts "Innings N:", and N reads back as the innings number |
| Tables.HeadingNumberReadBack | cricinfo/output_models/scorecard.py:116 | whatever text follows the colon, the heading splits at its first colon into the word and a number that reads back |
| Tables.Insert | cricinfo/output_models/scorecard.py:131 | inserting one item adds one |
| Tables.BattingOrder | cricinfo/output_models/scorecard.py:131 | the sort key `lambda b: b.order` for a batting innings |
| Tables.BowlingOrder | cricinfo/output_models/scorecard.py:131 | the sort key `lambda b: b.order` for a bowling innings |
| Tables.SortBy | cricinfo/output_models/scorecard.py:131 | sorting keeps the length |
| Tables.InsertPermutes | cricinfo/output_models/scorecard.py:131 | inserting adds the item to the multiset |
| Tables.InsertMembers | cricinfo/output_models/scorecard.py:131 | every item after inserting is the new one or an old one |
| Tables.InsertSorted | cricinfo/output_models/scorecard.py:131 | inserting into a sorted list keeps it sorted |
| Tables.InsertWithKey | cricinfo/output_models/scorecard.py:131 | inserting puts the item before the old items with its own key |
| Tables.SortSortsAndPermutes | cricinfo/output_models/scorecard.py:131 | `sorted` by order gives a sorted permutation |
| Tables.SortStable | cricinfo/output_models/scorecard.py:131 | the sort is stable: the items with one key keep their order |
| Tables.SortKeepsSorted | cricinfo/output_models/scorecard.py:131 | an already sorted list is unchanged |
| Tables.Table.constructor | cricinfo/output_models/scorecard.py:22 | a new table has a header, and no field names, alignments or rows |
| Tables.Table.SetHeader | cricinfo/output_models/scorecard.py:23 | only the header flag changes |
| Tables.Table.SetFieldNames | cricinfo/output_models/scorecard.py:127 | only the field names change |
| Tables.Table.AlignLeft | cricinfo/output_models/scorecard.py:128-129 | only the named field's alignment changes, to left |
| Tables.Table.AddRow | cricinfo/output_models/scorecard.py:25 | the row and its divider flag are appended |
| Tables.Screen.constructor | cricinfo/output_models/scorecard.py:26 | the terminal before anything is printed: no tables |
| Tables.Table.Contents | cricinfo/output_models/scorecard.py:26 | what `print(table)` shows of a table: its header flag, field names, alignments, rows and dividers |
| Tables.Screen.Print | cricinfo/output_models/scorecard.py:26 | the table's contents are appended to what was printed |
| Tables.Headerless | cricinfo/output_models/scorecard.py:20-26 | a header-less table with one single-cell row per entry, and that entry's divider |
| Tables.HeaderlessSnoc | cricinfo/output_models/scorecard.py:24-25 | one more entry is one more row |
| Tables.PrintHeaderless | cricinfo/output_models/scorecard.py:20-26 | printing a header-less table appends exactly that table |
| Tables.AlignAll | cricinfo/output_models/scorecard.py:128-129 | the named fields are aligned left, and the other alignments are unchanged |
| Tables.NoDividers | cricinfo/output_models/scorecard.py:132 | rows added by a player innings table have no divider |
| Tables.RowsOf | cricinfo/output_models/scorecard.py:131-132 | one row per item, in the items' order |
| Tables.PlayerInningsTable | cricinfo/output_models/scorecard.py:124-133 | the player table: the field names, the named fields left-aligned, one row per item in the stable order of `order`, no dividers |
| Tables.PlayerInningsTableRows | cricinfo/output_models/scorecard.py:124-133 | the printed rows are those of a sorted permutation of the items that keeps the order of each key |
| Tables.PrintPlayerInnings | cricinfo/output_models/scorecard.py:124-133 | printing a player innings table appends exactly that table |
| Tables.InningsTables | cricinfo/output_models/scorecard.py:115-122 | an innings prints three tables |
| Tables.InningsTablesShape | cricinfo/output_models/scorecard.py:115-122 | the heading table, then a batting table with a row per batter, then a bowling table with a row per bowler |
| Tables.PrintInnings | cricinfo/output_models/scorecard.py:115-122 | printing an innings appends its three tables |
| Tables.Triples | cricinfo/output_models/scorecard.py:183-184 | three tables per innings |
| Tables.TriplesAt | cricinfo/output_models/scorecard.py:183-184 | innings `i`'s tables are tables `3i` to `3i + 2` |
| Tables.AllInningsTables | pycricinfo/output_models/scorecard.py:83-84 | three tables per innings |
| Tables.AllInningsTablesSnoc | pycricinfo/output_models/scorecard.py:83-84 | one more innings appends its three tables |
| Tables.HeadedTriplesAt | pycricinfo/output_models/scorecard.py:80-84 | after one heading table, innings `i`'s tables are tables `3i + 1` to `3i + 3` |
| Tables.ScorecardTables | cricinfo/output_models/scorecard.py:180-184 | what `Scorecard.to_table` prints: the title (with a divider) and summary table, then each innings' three tables in list order |
| Tables.ScorecardHeadingShape | pycricinfo/output_models/scorecard.py:81 | the first table holds the title with a divider under it, then the summary |
| Tables.ScorecardTablesOrder | pycricinfo/output_models/scorecard.py:80-84 | the scorecard prints one heading table, then each innings' three tables in list order |
| Tables.PrintScorecard | cricinfo/output_models/scorecard.py:180-184 | printing a scorecard appends exactly its tables |
| Tables.AfterMoreInnings | cricinfo/output_models/scorecard.py:183-184 | the tables printed after `i + 1` innings are those after `i` and then innings `i`'s |

## Left out

- The statistics lookup `statistics.find` / `gs` is in a file that is not part of this model. It is the `Lookup` parameter.
- Pydantic's type coercion is left out. Validation is strict: a field must already have its type. A numeric string for `runs`, say, is an error in the model where pydantic would convert it.
- Python floats are exact reals, so `overs % 1 == 0` is exact.
- PrettyTable's layout, column widths and number formatting are left out. A table is its header flag, field names, alignments, rows and dividers.
- Printing to the terminal is an append to `Screen.printed`.
- The current `Innings` class, its `to_table` and the current `HeaderlessTableMixin` are not part of this model. The legacy rendering is the one modelled.
- The legacy roster player (`cricinfo/source_models/roster.py`) is not part of this model. Both versions use the current `MatchPlayer`'s `captain`, `keeper` and athlete.
- The network, the web API, the command line and file I/O are left out: the API clients, routing, configuration and the `load_*` helpers.
- Scorecards.Place: a record whose period is outside 1 to the number of innings is reported as `PeriodOutOfRange`. Python raises `IndexError` for too large a period, and lets a period of 0 or below wrap to the end of the list (see Findings).
- Scorecards.InningsFor: a missing batting linescore is reported as `NoBattingLinescore`. Python raises `TypeError` when it subscripts the `None` result.
- Matches.CompetitionOf: a header without competitions is reported as `NoCompetition`. Python raises `IndexError`.
- Scorecards.PyInt: `int()` of a string accepts decimal digits, with single underscores between digits, an optional sign and surrounding whitespace. Only the ASCII whitespace characters are stripped (space, tab, line feed, carriage return, vertical tab, form feed and U+001C to U+001F); Unicode whitespace such as U+0085 or U+00A0 and non-ASCII digits are not accepted.
- PyText.ToLower: lowers ASCII letters only, where Python's `str.lower()` is Unicode-aware. Every name lowered in this model is an ASCII literal, so the results are the same.
- StatFields.StatData.AddTeamLinescoreStats: `TeamStatisticsCategory.model_validate(stats_dict)` (pycricinfo/source_models/api/match.py:98) checks a schema defined in a file that is not part of this model. The model takes every truthy dict as valid statistics and reports every truthy value that is not a dict as `InvalidField("statistics")`. A dict that the schema would reject is therefore written from, not an error. The same holds for `StatFields.StatData.CreateAdditionalAttributes` and `StatFields.StatData.CreateAdditionalAttributesAsWritten`, which call it.
- StatFields.StatData.CreateAdditionalAttributes: writes the intended eight names, with "bpo" and "byes" separate, not the seven the source spells. The as-written behaviour is `StatFields.StatData.CreateAdditionalAttributesAsWritten` (see Findings).
- The innings' `team_name` field of the current version is the team's display name, so it is not stored separately.

## Findings

| source | as written | input that shows it | evidently intended | confidence | as-written member | corrected member |
|---|---|---|---|---|---|---|
| pycricinfo/source_models/api/match.py:116-117 | the adjacent literals `"bpo" "byes"` concatenate into `"bpobyes"`, so 7 names are looked up | any team statistics with a `byes` value: it is never written | 8 names, with `"bpo"` and `"byes"` separate | high, not executed | StatFields.ByesNeverWrittenAsWritten | StatFields.ByesWrittenWhenFound |
| pycricinfo/utils.py:12-30 | a list is rewritten item by item and is never itself replaced, so `[None, None]` stays a list | `[None, None]`, or `[]`, is returned as a list | the docstring: lists that contain only `None` values become `None`, like such dicts | medium (the docstring and the code disagree, and either may be the intent), not executed | Payload.AllNoneListKept | Payload.AllNoneListReplaced |
| cricinfo/output_models/scorecard.py:174 | `innings[linescore.period - 1]` with period 0 indexes `innings[-1]` | a batting record with period 0 in a four-innings match is appended to innings 4 | a record is placed only in the innings of its own period, and a period out of range is an error | low, not executed | Scorecards.PeriodZeroLandsInLastInnings | Scorecards.Place |
