/** `add_linescore_stats_as_properties`, in its three versions: each looks up a list of
    statistic names and writes the values into the dictionary a model validator is
    about to read, under a key derived from the name. */
module StatFields {
  import opened Wrappers
  import opened Errors
  import opened PyText
  import opened Payload
  import opened Linescores

  /** Piece 1 of the dotted name when there is one, else piece 0: `"batting.order"`
      gives `"order"`, and so does `"batting.order.extra"` (not the last piece). */
  function StatSegment(name: string): string
  {
    var parts := Split(name, '.');
    if |parts| > 1 then parts[1] else parts[0]
  }

  /** The segment is one piece of the name, so it holds no dot. */
  lemma StatSegmentDotFree(name: string)
    ensures '.' !in StatSegment(name)
  {
    SplitPiecesFree(name, '.');
  }

  /** The dictionary key for a statistic name: its segment in snake case, lower-cased. */
  function StatKey(name: string): (k: string)
  {
    ToLower(SnakeCase(StatSegment(name)))
  }

  /** The key has no upper-case letter, and with its underscores removed it is the
      segment lower-cased: the conversion only inserts separators and folds case. */
  lemma StatKeyShape(name: string)
    ensures forall i :: 0 <= i < |StatKey(name)| ==> !IsUpper(StatKey(name)[i])
    ensures Unscored(StatKey(name)) == ToLower(Unscored(StatSegment(name)))
  {
    ToLowerUnscored(SnakeCase(StatSegment(name)));
    ToLowerFacts(SnakeCase(StatSegment(name)));
    SnakeCaseInserts(StatSegment(name));
  }

  lemma {:induction false} ToLowerUnscored(s: string)
    ensures Unscored(ToLower(s)) == ToLower(Unscored(s))
  {
    if s != [] {
      ToLowerUnscored(s[1..]);
      assert ToLower(s)[1..] == ToLower(s[1..]);
      assert (if s[0] == '_' then [] else [s[0]]) + Unscored(s[1..]) == Unscored(s);
      ToLowerAppend(if s[0] == '_' then [] else [s[0]], Unscored(s[1..]));
    }
  }

  /** A name without a dot is its own segment. */
  lemma StatSegmentOfPlain(seg: string)
    requires '.' !in seg
    ensures StatSegment(seg) == seg
  {
    SplitWithoutSeparator(seg, '.');
  }

  /** A dotted name uses its second piece, whatever follows that piece. */
  lemma StatSegmentOf(prefix: string, seg: string, rest: string)
    requires '.' !in prefix && '.' !in seg
    requires rest == [] || rest[0] == '.'
    ensures StatSegment(prefix + "." + seg + rest) == seg
  {
    var name := prefix + "." + seg + rest;
    assert name == prefix + ['.'] + (seg + rest);
    SplitConcat(prefix, seg + rest, '.');
    SplitWithoutSeparator(prefix, '.');
    var tail := Split(seg + rest, '.');
    assert Split(name, '.') == [prefix] + tail;
    if rest == [] {
      assert seg + rest == seg;
      SplitWithoutSeparator(seg, '.');
    } else {
      assert seg + rest == seg + ['.'] + rest[1..];
      SplitConcat(seg, rest[1..], '.');
      SplitWithoutSeparator(seg, '.');
      assert tail[0] == seg;
    }
  }

  /** A lower-case, dot-free name is its own key. */
  lemma StatKeyOfPlainName(name: string)
    requires '.' !in name && NoUpper(name)
    ensures StatKey(name) == name
  {
    StatSegmentOfPlain(name);
    NoUpperCount(name);
    SnakeCaseIdentity(name);
    NoUpperLower(name);
  }

  /** A dot-free camel-case name with one hump: the upper-case letter is lowered and
      an underscore goes before it (`"runRate"` gives `"run_rate"`). */
  lemma StatKeyOfCamel(a: string, u: char, b: string)
    requires a != [] && '.' !in a && '.' !in b && '.' != u
    requires NoUpper(a) && NoUpper(b) && IsUpper(u)
    ensures StatKey(a + [u] + b) == a + "_" + [LowerChar(u)] + b
  {
    var s := a + [u] + b;
    assert '.' !in s;
    StatSegmentOfPlain(s);
    SnakeCaseOfCamel(a, u, b);
    ToLowerOfCamel(a, u, b);
  }

  lemma {:induction false} NoUpperCount(s: string)
    requires forall i :: 0 <= i < |s| ==> !IsUpper(s[i])
    ensures CountUpper(s) == 0
    ensures s != [] ==> CountUpper(s[1..]) == 0
  {
    if s != [] {
      NoUpperCount(s[1..]);
    }
  }

  /** The keys of a list of names, in order. */
  function StatKeys(names: seq<string>): (ks: seq<string>)
    ensures |ks| == |names|
    ensures forall i :: 0 <= i < |names| ==> ks[i] == StatKey(names[i])
  {
    seq(|names|, i requires 0 <= i < |names| => StatKey(names[i]))
  }

  // ---------------------------------------------------------------------------
  // The dictionary after the loop

  /** Whether looking up `name` writes `key`: the name's key matches and, when `None`
      values are skipped, the value is not `None`. The facts below hold for any way
      `keyOf` of turning a name into a key; the code uses `StatKey`. */
  predicate Writes(keyOf: string -> string, find: Lookup, stats: Json, name: string, keepNone: bool, key: string)
  {
    keyOf(name) == key && (keepNone || find(stats, name) != NoneVal)
  }

  /** The dictionary after looking up `names` in order, each value overwriting what the
      key held before; with `keepNone` false a `None` value writes nothing. */
  function WriteStats(keyOf: string -> string, items: map<string, Scalar>, find: Lookup, stats: Json, names: seq<string>, keepNone: bool): map<string, Scalar>
  {
    if names == [] then items
    else
      var prev := WriteStats(keyOf, items, find, stats, names[..|names| - 1], keepNone);
      var name := names[|names| - 1];
      var v := find(stats, name);
      if keepNone || v != NoneVal then prev[keyOf(name) := v] else prev
  }

  /** One more name: its value is written over what the earlier names left. */
  lemma WriteStatsSnoc(keyOf: string -> string, items: map<string, Scalar>, find: Lookup, stats: Json, names: seq<string>, name: string, keepNone: bool)
    ensures var prev := WriteStats(keyOf, items, find, stats, names, keepNone);
            var v := find(stats, name);
            WriteStats(keyOf, items, find, stats, names + [name], keepNone)
            == if keepNone || v != NoneVal then prev[keyOf(name) := v] else prev
  {
    assert (names + [name])[..|names|] == names;
  }

  /** The last name that writes `key`, or -1. */
  function LastWriter(keyOf: string -> string, find: Lookup, stats: Json, names: seq<string>, keepNone: bool, key: string): (w: int)
    ensures -1 <= w < |names|
    ensures w >= 0 ==> Writes(keyOf, find, stats, names[w], keepNone, key)
    ensures forall j :: w < j < |names| ==> !Writes(keyOf, find, stats, names[j], keepNone, key)
  {
    if names == [] then -1
    else if Writes(keyOf, find, stats, names[|names| - 1], keepNone, key) then |names| - 1
    else
      var init := names[..|names| - 1];
      var w := LastWriter(keyOf, find, stats, init, keepNone, key);
      assert forall j :: 0 <= j < |init| ==> init[j] == names[j];
      w
  }

  /** Every key holds the value of the last name that wrote it; a key no name wrote
      is exactly as it was, present or absent. */
  lemma {:induction false} WriteStatsValue(keyOf: string -> string, items: map<string, Scalar>, find: Lookup, stats: Json, names: seq<string>, keepNone: bool, key: string)
    ensures var r := WriteStats(keyOf, items, find, stats, names, keepNone);
            var w := LastWriter(keyOf, find, stats, names, keepNone, key);
            && (w >= 0 ==> key in r && r[key] == find(stats, names[w]))
            && (w < 0 ==> (key in r <==> key in items) && (key in items ==> r[key] == items[key]))
  {
    if names != [] {
      WriteStatsValue(keyOf, items, find, stats, names[..|names| - 1], keepNone, key);
    }
  }

  // ---------------------------------------------------------------------------
  // The `*args` of the current versions may hold non-strings.

  /** The index of the first argument that is not a string, or `|names|`. */
  function FirstNonString(names: seq<Scalar>): (k: nat)
    ensures k <= |names|
    ensures forall j :: 0 <= j < k ==> names[j].StrVal?
    ensures k < |names| ==> !names[k].StrVal?
  {
    if names == [] then 0
    else if !names[0].StrVal? then 0
    else 1 + FirstNonString(names[1..])
  }

  /** A string argument before the first non-string moves the bound one further. */
  lemma FirstNonStringStep(names: seq<Scalar>, i: nat)
    requires i <= FirstNonString(names) && i < |names|
    ensures names[i].StrVal? <==> i + 1 <= FirstNonString(names)
  {
  }

  function NameText(v: Scalar): string
  {
    if v.StrVal? then v.s else ""
  }

  function Texts(names: seq<Scalar>): (r: seq<string>)
    ensures |r| == |names|
    ensures forall i :: 0 <= i < |names| ==> r[i] == NameText(names[i])
  {
    seq(|names|, i requires 0 <= i < |names| => NameText(names[i]))
  }

  /** Names written in the source as string literals. */
  function AsArgs(names: seq<string>): (r: seq<Scalar>)
    ensures |r| == |names|
    ensures forall i :: 0 <= i < |names| ==> r[i] == StrVal(names[i])
    ensures FirstNonString(r) == |r|
    ensures Texts(r) == names
  {
    var r := seq(|names|, i requires 0 <= i < |names| => StrVal(names[i]));
    assert forall i :: 0 <= i < |r| ==> r[i].StrVal?;
    assert FirstNonString(r) == |r|;
    r
  }

  lemma TextsSnoc(names: seq<Scalar>, i: nat)
    requires i < |names|
    ensures Texts(names[..i + 1]) == Texts(names[..i]) + [NameText(names[i])]
  {
  }

  /** The dictionary a model validator receives, with the entries this code writes. */
  class StatData {
    var items: map<string, Scalar>

    constructor ()
      ensures items == map[]
    {
      items := map[];
    }

    /** The current player-innings version: nothing is done without a linescore; a
        non-string name raises TypeError after the names before it were written; every
        looked-up value is written, `None` included. */
    method AddLinescoreStats(linescore: Option<PeriodRecord>, find: Lookup, names: seq<Scalar>) returns (err: Option<Error>)
      modifies this
      ensures linescore.None? ==> err.None? && items == old(items)
      ensures linescore.Some? ==>
                var k := FirstNonString(names);
                && (err.Some? <==> k < |names|)
                && (err.Some? ==> err.value == NonStringStatName)
                && items == WriteStats(StatKey, old(items), find, linescore.value.statistics, Texts(names[..k]), true)
    {
      if linescore.None? {
        return None;
      }
      err := WriteArgs(find, linescore.value.statistics, names, true);
    }

    /** The loop shared by the two current versions: the strings of `names` in order,
        up to the first argument that is not a string, which raises TypeError. */
    method WriteArgs(find: Lookup, stats: Json, names: seq<Scalar>, keepNone: bool) returns (err: Option<Error>)
      modifies this
      ensures var k := FirstNonString(names);
              && (err.Some? <==> k < |names|)
              && (err.Some? ==> err.value == NonStringStatName)
              && items == WriteStats(StatKey, old(items), find, stats, Texts(names[..k]), keepNone)
    {
      ghost var written: seq<string> := [];
      for i := 0 to |names|
        invariant i <= FirstNonString(names)
        invariant written == Texts(names[..i])
        invariant items == WriteStats(StatKey, old(items), find, stats, written, keepNone)
      {
        FirstNonStringStep(names, i);
        if !names[i].StrVal? {
          return Some(NonStringStatName);
        }
        var name := names[i].s;
        var value := find(stats, name);
        WriteStatsSnoc(StatKey, old(items), find, stats, written, name, keepNone);
        TextsSnoc(names, i);
        if keepNone || value != NoneVal {
          items := items[StatKey(name) := value];
        }
        written := written + [name];
      }
      assert FirstNonString(names) == |names|;
      assert names[..|names|] == names;
      return None;
    }

    /** The legacy version: no check on the names, every value written. */
    method AddLegacyLinescoreStats(linescore: Option<PeriodRecord>, gs: Lookup, names: seq<string>)
      modifies this
      ensures linescore.None? ==> items == old(items)
      ensures linescore.Some? ==> items == WriteStats(StatKey, old(items), gs, linescore.value.statistics, names, true)
    {
      if linescore.None? {
        return;
      }
      var stats := linescore.value.statistics;
      for i := 0 to |names|
        invariant items == WriteStats(StatKey, old(items), gs, stats, names[..i], true)
      {
        assert names[..i + 1] == names[..i] + [names[i]];
        WriteStatsSnoc(StatKey, old(items), gs, stats, names[..i], names[i], true);
        items := items[StatKey(names[i]) := gs(stats, names[i])];
      }
      assert names[..|names|] == names;
    }

    /** The team-linescore version: nothing is done when the raw statistics are falsy;
        statistics that are not a dict fail validation; a non-string name raises
        TypeError; only values that are not `None` are written. */
    method AddTeamLinescoreStats(statistics: Json, find: Lookup, names: seq<Scalar>) returns (err: Option<Error>)
      modifies this
      ensures !Truthy(statistics) ==> err.None? && items == old(items)
      ensures Truthy(statistics) && !statistics.JDict? ==> err == Some(InvalidField("statistics")) && items == old(items)
      ensures Truthy(statistics) && statistics.JDict? ==>
                var k := FirstNonString(names);
                && (err.Some? <==> k < |names|)
                && (err.Some? ==> err.value == NonStringStatName)
                && items == WriteStats(StatKey, old(items), find, statistics, Texts(names[..k]), false)
    {
      if !Truthy(statistics) {
        return None;
      }
      if !statistics.JDict? {
        return Some(InvalidField("statistics"));
      }
      err := WriteArgs(find, statistics, names, false);
    }

    /** `TeamLinescore.create_additional_attributes`, with the name list corrected to
        look up "bpo" and "byes" separately. */
    method CreateAdditionalAttributes(statistics: Json, find: Lookup) returns (err: Option<Error>)
      modifies this
      ensures err.None? || (Truthy(statistics) && !statistics.JDict? && err == Some(InvalidField("statistics")))
      ensures Truthy(statistics) && statistics.JDict? ==>
                items == WriteStats(StatKey, old(items), find, statistics, TeamStatNames(), false)
      ensures !(Truthy(statistics) && statistics.JDict?) ==> items == old(items)
      ensures Truthy(statistics) && statistics.JDict? && find(statistics, "byes") != NoneVal ==>
                "byes" in items && items["byes"] == find(statistics, "byes")
    {
      err := AddTeamLinescoreStats(statistics, find, AsArgs(TeamStatNames()));
      assert AsArgs(TeamStatNames())[..|TeamStatNames()|] == AsArgs(TeamStatNames());
      if find(statistics, "byes") != NoneVal {
        ByesWrittenWhenFound(old(items), find, statistics);
      }
    }

    /** `TeamLinescore.create_additional_attributes` as the source spells it: seven
        names, one of them "bpobyes", so the "byes" entry is never written. */
    method CreateAdditionalAttributesAsWritten(statistics: Json, find: Lookup) returns (err: Option<Error>)
      modifies this
      ensures err.None? || (Truthy(statistics) && !statistics.JDict? && err == Some(InvalidField("statistics")))
      ensures Truthy(statistics) && statistics.JDict? ==>
                items == WriteStats(StatKey, old(items), find, statistics, TeamStatNamesAsWritten(), false)
      ensures !(Truthy(statistics) && statistics.JDict?) ==> items == old(items)
      ensures ("byes" in items <==> "byes" in old(items)) && ("byes" in items ==> items["byes"] == old(items)["byes"])
    {
      err := AddTeamLinescoreStats(statistics, find, AsArgs(TeamStatNamesAsWritten()));
      assert AsArgs(TeamStatNamesAsWritten())[..|TeamStatNamesAsWritten()|] == AsArgs(TeamStatNamesAsWritten());
      ByesNeverWrittenAsWritten(old(items), find, statistics);
    }
  }

  // ---------------------------------------------------------------------------
  // The team statistic names

  /** The names as the source spells them: the literals "bpo" and "byes" stand on
      consecutive lines without a comma, so Python joins them into one name. */
  function TeamStatNamesAsWritten(): (r: seq<string>)
    ensures |r| == 7
    ensures "bpobyes" in r && "byes" !in r && "bpo" !in r
  {
    var r := ["bpo" + "byes", "extras", "legbyes", "noballs", "penalties", "runRate", "wides"];
    assert "bpo" + "byes" == "bpobyes";
    assert forall j :: 0 <= j < |r| ==> r[j] != "byes" && r[j] != "bpo" by {
      assert |"byes"| == 4 && |"bpo"| == 3;
    }
    r
  }

  /** The names as evidently intended: eight, "bpo" and "byes" among them. */
  function TeamStatNames(): (r: seq<string>)
    ensures |r| == 8
    ensures "byes" in r && "bpo" in r && "bpobyes" !in r
    ensures forall n :: n in TeamStatNamesAsWritten() && n != "bpobyes" ==> n in r
  {
    ["bpo", "byes", "extras", "legbyes", "noballs", "penalties", "runRate", "wides"]
  }

  /** Every name of the list but the one at `skip` is dot-free and lower-case, so
      each is its own key. */
  lemma PlainKeys(names: seq<string>, skip: int)
    requires forall j :: 0 <= j < |names| && j != skip ==> '.' !in names[j] && NoUpper(names[j])
    ensures forall j :: 0 <= j < |names| && j != skip ==> StatKey(names[j]) == names[j]
  {
    forall j | 0 <= j < |names| && j != skip ensures StatKey(names[j]) == names[j] {
      StatKeyOfPlainName(names[j]);
    }
  }

  /** `"runRate"` is written under `"run_rate"`. */
  lemma RunRateKey()
    ensures StatKey("runRate") == "run_rate"
  {
    var name := "run" + ['R'] + "ate";
    assert name == "runRate";
    StatKeyOfCamel("run", 'R', "ate");
    assert LowerChar('R') == 'r';
    var key := "run" + "_" + ['r'] + "ate";
    assert key == "run_rate";
    assert StatKey(name) == key;
  }

  /** A key that no name maps to is left as it was. */
  lemma {:induction false} WriteStatsUntouched(keyOf: string -> string, items: map<string, Scalar>, find: Lookup, stats: Json, names: seq<string>, keepNone: bool, key: string)
    requires forall j :: 0 <= j < |names| ==> keyOf(names[j]) != key
    ensures var r := WriteStats(keyOf, items, find, stats, names, keepNone);
            (key in r <==> key in items) && (key in items ==> r[key] == items[key])
  {
    if names != [] {
      var init := names[..|names| - 1];
      assert forall j :: 0 <= j < |init| ==> init[j] == names[j];
      WriteStatsUntouched(keyOf, items, find, stats, init, keepNone, key);
    }
  }

  /** A name whose key no other name shares, and whose value is written, leaves its
      value under that key. */
  lemma {:induction false} WriteStatsOwnKey(keyOf: string -> string, items: map<string, Scalar>, find: Lookup, stats: Json, names: seq<string>, keepNone: bool, j: nat)
    requires j < |names|
    requires keepNone || find(stats, names[j]) != NoneVal
    requires forall i :: 0 <= i < |names| && i != j ==> keyOf(names[i]) != keyOf(names[j])
    ensures var r := WriteStats(keyOf, items, find, stats, names, keepNone);
            keyOf(names[j]) in r && r[keyOf(names[j])] == find(stats, names[j])
  {
    var init := names[..|names| - 1];
    var last := names[|names| - 1];
    assert names == init + [last];
    WriteStatsSnoc(keyOf, items, find, stats, init, last, keepNone);
    if j < |names| - 1 {
      assert init[j] == names[j];
      assert forall i :: 0 <= i < |init| && i != j ==> keyOf(init[i]) != keyOf(init[j]) by {
        assert forall i :: 0 <= i < |init| ==> init[i] == names[i];
      }
      WriteStatsOwnKey(keyOf, items, find, stats, init, keepNone, j);
      assert keyOf(last) != keyOf(names[j]);
    }
  }

  /** No name of the list as written has the key "byes". */
  lemma AsWrittenKeysOtherThanByes()
    ensures forall j :: 0 <= j < |TeamStatNamesAsWritten()| ==> StatKey(TeamStatNamesAsWritten()[j]) != "byes"
  {
    var names := TeamStatNamesAsWritten();
    assert names[5] == "runRate";
    PlainKeys(names, 5);
    RunRateKey();
  }

  /** In the corrected list only "byes" itself has the key "byes". */
  lemma CorrectedKeysOtherThanByes()
    ensures StatKey(TeamStatNames()[1]) == "byes"
    ensures forall j :: 0 <= j < |TeamStatNames()| && j != 1 ==> StatKey(TeamStatNames()[j]) != "byes"
  {
    var names := TeamStatNames();
    assert names[6] == "runRate";
    PlainKeys(names, 6);
    RunRateKey();
  }

  /** As written, the team's "byes" entry is never filled in from the statistics,
      whatever they hold. */
  lemma ByesNeverWrittenAsWritten(items: map<string, Scalar>, find: Lookup, stats: Json)
    ensures var r := WriteStats(StatKey, items, find, stats, TeamStatNamesAsWritten(), false);
            ("byes" in r <==> "byes" in items) && ("byes" in items ==> r["byes"] == items["byes"])
  {
    AsWrittenKeysOtherThanByes();
    WriteStatsUntouched(StatKey, items, find, stats, TeamStatNamesAsWritten(), false, "byes");
  }

  /** With the corrected list, "byes" holds the looked-up value whenever it is not `None`. */
  lemma ByesWrittenWhenFound(items: map<string, Scalar>, find: Lookup, stats: Json)
    requires find(stats, "byes") != NoneVal
    ensures var r := WriteStats(StatKey, items, find, stats, TeamStatNames(), false);
            "byes" in r && r["byes"] == find(stats, "byes")
  {
    var names := TeamStatNames();
    CorrectedKeysOtherThanByes();
    WriteStatsOwnKey(StatKey, items, find, stats, names, false, 1);
  }
}
