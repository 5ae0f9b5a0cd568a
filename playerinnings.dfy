/** One player's batting or bowling in one innings: the two output records, their
    display properties, the statistic names each one asks for, and the validation
    that turns the dictionary those names fill in into a record. */
module PlayerInnings {
  import opened Wrappers
  import opened Errors
  import opened PyText
  import opened Payload
  import opened Linescores
  import opened StatFields

  /** `float | int`, with the float taken as an exact real. */
  datatype Number = Int(i: int) | Float(r: real)

  function Value(n: Number): real
  {
    match n
    case Int(i) => i as real
    case Float(r) => r
  }

  /** `x % 1 == 0`. */
  predicate IsWhole(r: real)
  {
    r.Floor as real == r
  }

  datatype BattingInnings = BattingInnings(
    order: int,
    displayName: string,
    dismissalText: string,
    captain: Option<bool>,
    keeper: Option<bool>,
    runs: int,
    ballsFaced: Option<int>,
    fours: Option<int>,
    sixes: Option<int>,
    notOut: bool)

  datatype BowlingInnings = BowlingInnings(
    order: int,
    displayName: string,
    overs: Number,
    maidens: int,
    runs: int,
    wickets: int)

  // ---------------------------------------------------------------------------
  // Display properties

  const CAPTAIN_MARK: string := " (c)"
  const KEEPER_MARK: string := " \U{271D}"

  /** Python truthiness of an optional flag: only `True` counts, `None` and `False` do not. */
  predicate IsSet(flag: Option<bool>)
  {
    flag == Some(true)
  }

  /** `player_display`: the name, then the captain marker, then the keeper marker. */
  function PlayerDisplay(name: string, captain: Option<bool>, keeper: Option<bool>): (r: string)
    ensures |r| == |name| + (if IsSet(captain) then |CAPTAIN_MARK| else 0) + (if IsSet(keeper) then |KEEPER_MARK| else 0)
    ensures r[..|name|] == name
    ensures IsSet(captain) ==> r[|name|..|name| + |CAPTAIN_MARK|] == CAPTAIN_MARK
    ensures IsSet(keeper) ==> r[|r| - |KEEPER_MARK|..] == KEEPER_MARK
    ensures !IsSet(captain) && !IsSet(keeper) ==> r == name
  {
    name + (if IsSet(captain) then CAPTAIN_MARK else "") + (if IsSet(keeper) then KEEPER_MARK else "")
  }

  /** The display shows both flags: two players with the same name and the same
      display have the same captain and keeper markers. */
  lemma PlayerDisplayShowsFlags(name: string, c1: Option<bool>, k1: Option<bool>, c2: Option<bool>, k2: Option<bool>)
    requires PlayerDisplay(name, c1, k1) == PlayerDisplay(name, c2, k2)
    ensures IsSet(c1) == IsSet(c2) && IsSet(k1) == IsSet(k2)
  {
    assert |CAPTAIN_MARK| == 4 && |KEEPER_MARK| == 2;
  }

  /** `overs_display`: a whole number of overs becomes an int; anything else is kept. */
  function OversDisplay(overs: Number): (d: Number)
    ensures Value(d) == Value(overs)
    ensures d.Int? <==> IsWhole(Value(overs))
    ensures !IsWhole(Value(overs)) ==> d == overs
  {
    match overs
    case Int(_) => overs
    case Float(r) => if IsWhole(r) then Int(r.Floor) else overs
  }

  /** Displaying a displayed value changes nothing more. */
  lemma OversDisplayIdempotent(overs: Number)
    ensures OversDisplay(OversDisplay(overs)) == OversDisplay(overs)
  {
  }

  // ---------------------------------------------------------------------------
  // The statistic names and the keys they are written under

  /** `create_batting_attributes`'s names. */
  function BattingStatNames(): seq<string>
  {
    ["batting.dismissal_text", "runs", "ballsFaced", "notouts", "batting.order", "fours", "sixes"]
  }

  /** `create_bowling_attributes`'s names. */
  function BowlingStatNames(): seq<string>
  {
    ["overs", "maidens", "conceded", "wickets", "bowling.order"]
  }

  predicate Distinct(ks: seq<string>)
  {
    forall i, j :: 0 <= i < j < |ks| ==> ks[i] != ks[j]
  }

  /** A dotted name with a plain lower-case second piece is written under that piece. */
  lemma StatKeyOfDotted(prefix: string, seg: string)
    requires '.' !in prefix && '.' !in seg && NoUpper(seg)
    ensures StatKey(prefix + "." + seg) == seg
  {
    StatSegmentOf(prefix, seg, "");
    assert prefix + "." + seg + "" == prefix + "." + seg;
    StatSegmentOfPlain(seg);
    StatKeyOfPlainName(seg);
  }

  /** The keys the batting names are written under. */
  function BattingKeyList(): seq<string>
  {
    ["dismissal_text", "runs", "balls_faced", "notouts", "order", "fours", "sixes"]
  }

  function BowlingKeyList(): seq<string>
  {
    ["overs", "maidens", "conceded", "wickets", "order"]
  }

  /** Entry `j` of a name list is plain and is its own listed key. */
  lemma PlainKeyAt(names: seq<string>, keys: seq<string>, j: nat)
    requires j < |names| && j < |keys|
    requires names[j] == keys[j] && '.' !in names[j] && NoUpper(names[j])
    ensures StatKey(names[j]) == keys[j]
  {
    StatKeyOfPlainName(names[j]);
  }

  /** Entry `j` of a name list is `prefix.seg` and its listed key is `seg`. */
  lemma DottedKeyAt(names: seq<string>, keys: seq<string>, j: nat, prefix: string, seg: string)
    requires j < |names| && j < |keys|
    requires names[j] == prefix + "." + seg && keys[j] == seg
    requires '.' !in prefix && '.' !in seg && NoUpper(seg)
    ensures StatKey(names[j]) == keys[j]
  {
    StatKeyOfDotted(prefix, seg);
  }

  /** Entry `j` of a name list is `a` + `u` + `b` with one upper-case `u`, and its
      listed key puts an underscore before `u` lowered. */
  lemma CamelKeyAt(names: seq<string>, keys: seq<string>, j: nat, a: string, u: char, b: string)
    requires j < |names| && j < |keys|
    requires names[j] == a + [u] + b && keys[j] == a + "_" + [LowerChar(u)] + b
    requires a != [] && '.' !in a && '.' !in b && '.' != u
    requires NoUpper(a) && NoUpper(b) && IsUpper(u)
    ensures StatKey(names[j]) == keys[j]
  {
    StatKeyOfCamel(a, u, b);
  }

  lemma DismissalTextKey()
    ensures StatKey(BattingStatNames()[0]) == BattingKeyList()[0]
  {
    DottedKeyAt(BattingStatNames(), BattingKeyList(), 0, "batting", "dismissal_text");
  }

  lemma BallsFacedKey()
    ensures StatKey(BattingStatNames()[2]) == BattingKeyList()[2]
  {
    CamelKeyAt(BattingStatNames(), BattingKeyList(), 2, "balls", 'F', "aced");
  }

  lemma BattingOrderKey()
    ensures StatKey(BattingStatNames()[4]) == BattingKeyList()[4]
  {
    DottedKeyAt(BattingStatNames(), BattingKeyList(), 4, "batting", "order");
  }

  lemma BattingKeys()
    ensures |BattingStatNames()| == |BattingKeyList()|
    ensures forall j :: 0 <= j < |BattingStatNames()| ==> StatKey(BattingStatNames()[j]) == BattingKeyList()[j]
  {
    var names, keys := BattingStatNames(), BattingKeyList();
    forall j | 0 <= j < |names| ensures StatKey(names[j]) == keys[j] {
      if j == 0 {
        DismissalTextKey();
      } else if j == 2 {
        BallsFacedKey();
      } else if j == 4 {
        BattingOrderKey();
      } else {
        PlainKeyAt(names, keys, j);
      }
    }
  }

  lemma BowlingOrderKey()
    ensures StatKey(BowlingStatNames()[4]) == BowlingKeyList()[4]
  {
    DottedKeyAt(BowlingStatNames(), BowlingKeyList(), 4, "bowling", "order");
  }

  lemma BowlingKeys()
    ensures |BowlingStatNames()| == |BowlingKeyList()|
    ensures forall j :: 0 <= j < |BowlingStatNames()| ==> StatKey(BowlingStatNames()[j]) == BowlingKeyList()[j]
  {
    var names, keys := BowlingStatNames(), BowlingKeyList();
    forall j | 0 <= j < |names| ensures StatKey(names[j]) == keys[j] {
      if j == 4 {
        BowlingOrderKey();
      } else {
        PlainKeyAt(names, keys, j);
      }
    }
  }

  /** With distinct keys and every value written, each name's value sits under its
      key, and no other key is added. */
  lemma WrittenUnderKeys(keyOf: string -> string, find: Lookup, stats: Json, names: seq<string>, keys: seq<string>)
    requires |names| == |keys|
    requires forall j :: 0 <= j < |names| ==> keyOf(names[j]) == keys[j]
    requires Distinct(keys)
    ensures var r := WriteStats(keyOf, map[], find, stats, names, true);
            && (forall j :: 0 <= j < |keys| ==> keys[j] in r && r[keys[j]] == find(stats, names[j]))
            && (forall k :: k in r ==> k in keys)
  {
    var r := WriteStats(keyOf, map[], find, stats, names, true);
    forall j | 0 <= j < |keys| ensures keys[j] in r && r[keys[j]] == find(stats, names[j]) {
      forall i | 0 <= i < |names| && i != j ensures keyOf(names[i]) != keyOf(names[j]) {
        if i < j {
          assert keys[i] != keys[j];
        } else {
          assert keys[j] != keys[i];
        }
      }
      WriteStatsOwnKey(keyOf, map[], find, stats, names, true, j);
    }
    forall k | k in r ensures k in keys {
      if k !in keys {
        WriteStatsUntouched(keyOf, map[], find, stats, names, true, k);
      }
    }
  }

  // ---------------------------------------------------------------------------
  // Field validation

  /** A required `int` field. */
  function RequiredInt(items: map<string, Scalar>, key: string, field: string): (r: Result<int, Error>)
    ensures r.Ok? <==> key in items && items[key].IntVal?
    ensures r.Ok? ==> r.value == items[key].i
    ensures r.Err? ==> r.error == InvalidField(field)
  {
    if key in items && items[key].IntVal? then Ok(items[key].i) else Err(InvalidField(field))
  }

  /** An `Optional[int] = None` field: a missing key or `None` gives `None`. */
  function OptionalInt(items: map<string, Scalar>, key: string, field: string): (r: Result<Option<int>, Error>)
    ensures r.Ok? <==> key !in items || items[key].NoneVal? || items[key].IntVal?
    ensures r == Ok(None) <==> key !in items || items[key].NoneVal?
    ensures r.Ok? && r.value.Some? ==> r.value.value == items[key].i
    ensures r.Err? ==> r.error == InvalidField(field)
  {
    if key !in items then Ok(None)
    else match items[key]
      case NoneVal => Ok(None)
      case IntVal(i) => Ok(Some(i))
      case _ => Err(InvalidField(field))
  }

  /** A required `str` field. */
  function RequiredStr(items: map<string, Scalar>, key: string, field: string): (r: Result<string, Error>)
    ensures r.Ok? <==> key in items && items[key].StrVal?
    ensures r.Ok? ==> r.value == items[key].s
    ensures r.Err? ==> r.error == InvalidField(field)
  {
    if key in items && items[key].StrVal? then Ok(items[key].s) else Err(InvalidField(field))
  }

  /** A required `bool` field. */
  function RequiredBool(items: map<string, Scalar>, key: string, field: string): (r: Result<bool, Error>)
    ensures r.Ok? <==> key in items && items[key].BoolVal?
    ensures r.Ok? ==> r.value == items[key].b
    ensures r.Err? ==> r.error == InvalidField(field)
  {
    if key in items && items[key].BoolVal? then Ok(items[key].b) else Err(InvalidField(field))
  }

  /** A required `float | int` field. */
  function RequiredNumber(items: map<string, Scalar>, key: string, field: string): (r: Result<Number, Error>)
    ensures r.Ok? <==> key in items && (items[key].IntVal? || items[key].FloatVal?)
    ensures r.Ok? && items[key].IntVal? ==> r.value == Int(items[key].i)
    ensures r.Ok? && items[key].FloatVal? ==> r.value == Float(items[key].r)
    ensures r.Err? ==> r.error == InvalidField(field)
  {
    if key !in items then Err(InvalidField(field))
    else match items[key]
      case IntVal(i) => Ok(Int(i))
      case FloatVal(x) => Ok(Float(x))
      case _ => Err(InvalidField(field))
  }

  /** `AliasChoices(first, second)`: the first key present is the one read. */
  function AliasKey(items: map<string, Scalar>, first: string, second: string): (k: string)
    ensures k == first || k == second
    ensures first in items ==> k == first
    ensures first !in items ==> k == second
  {
    if first in items then first else second
  }

  predicate OptionalIntOk(items: map<string, Scalar>, key: string)
  {
    key !in items || items[key].NoneVal? || items[key].IntVal?
  }

  function OptionalIntOf(items: map<string, Scalar>, key: string): Option<int>
  {
    if key in items && items[key].IntVal? then Some(items[key].i) else None
  }

  /** Every field a batting record needs is present with the right type. */
  predicate BattingValid(items: map<string, Scalar>)
  {
    && "order" in items && items["order"].IntVal?
    && "dismissal_text" in items && items["dismissal_text"].StrVal?
    && "runs" in items && items["runs"].IntVal?
    && OptionalIntOk(items, "balls_faced")
    && OptionalIntOk(items, "fours")
    && OptionalIntOk(items, "sixes")
    && var n := AliasKey(items, "not_out", "notouts"); n in items && items[n].BoolVal?
  }

  /** Validating a `BattingInnings` from the dictionary: the fields in declaration
      order, the first bad one reported; the display name and the flags are passed in. */
  function ValidateBatting(items: map<string, Scalar>, displayName: string, captain: Option<bool>, keeper: Option<bool>): (r: Result<BattingInnings, Error>)
    ensures r.Ok? <==> BattingValid(items)
    ensures r.Ok? ==>
              && r.value.order == items["order"].i
              && r.value.displayName == displayName
              && r.value.dismissalText == items["dismissal_text"].s
              && r.value.captain == captain && r.value.keeper == keeper
              && r.value.runs == items["runs"].i
              && r.value.ballsFaced == OptionalIntOf(items, "balls_faced")
              && r.value.fours == OptionalIntOf(items, "fours")
              && r.value.sixes == OptionalIntOf(items, "sixes")
              && r.value.notOut == items[AliasKey(items, "not_out", "notouts")].b
    ensures r.Err? ==> r.error.InvalidField?
  {
    var order :- RequiredInt(items, "order", "order");
    var dismissal :- RequiredStr(items, "dismissal_text", "dismissal_text");
    var runs :- RequiredInt(items, "runs", "runs");
    var balls :- OptionalInt(items, "balls_faced", "balls_faced");
    var fours :- OptionalInt(items, "fours", "fours");
    var sixes :- OptionalInt(items, "sixes", "sixes");
    var notOut :- RequiredBool(items, AliasKey(items, "not_out", "notouts"), "not_out");
    Ok(BattingInnings(order, displayName, dismissal, captain, keeper, runs, balls, fours, sixes, notOut))
  }

  predicate BowlingValid(items: map<string, Scalar>)
  {
    && "order" in items && items["order"].IntVal?
    && "overs" in items && (items["overs"].IntVal? || items["overs"].FloatVal?)
    && "maidens" in items && items["maidens"].IntVal?
    && "wickets" in items && items["wickets"].IntVal?
    && var n := AliasKey(items, "runs", "conceded"); n in items && items[n].IntVal?
  }

  /** Validating a `BowlingInnings`; `runs` is read from "conceded" when there is no "runs". */
  function ValidateBowling(items: map<string, Scalar>, displayName: string): (r: Result<BowlingInnings, Error>)
    ensures r.Ok? <==> BowlingValid(items)
    ensures r.Ok? ==>
              && r.value.order == items["order"].i
              && r.value.displayName == displayName
              && r.value.overs == (if items["overs"].IntVal? then Int(items["overs"].i) else Float(items["overs"].r))
              && r.value.maidens == items["maidens"].i
              && r.value.runs == items[AliasKey(items, "runs", "conceded")].i
              && r.value.wickets == items["wickets"].i
    ensures r.Err? ==> r.error.InvalidField?
  {
    var order :- RequiredInt(items, "order", "order");
    var overs :- RequiredNumber(items, "overs", "overs");
    var maidens :- RequiredInt(items, "maidens", "maidens");
    var runs :- RequiredInt(items, AliasKey(items, "runs", "conceded"), "runs");
    var wickets :- RequiredInt(items, "wickets", "wickets");
    Ok(BowlingInnings(order, displayName, overs, maidens, runs, wickets))
  }

  // ---------------------------------------------------------------------------
  // From a period record's statistics to a record

  function OptionalOf(v: Scalar): Option<int>
  {
    if v.IntVal? then Some(v.i) else None
  }

  predicate OptionalScalarOk(v: Scalar)
  {
    v.NoneVal? || v.IntVal?
  }

  /** The dictionary a batting record is validated from: every batting statistic
      written into an empty dictionary. */
  function BattingData(find: Lookup, stats: Json): map<string, Scalar>
  {
    WriteStats(StatKey, map[], find, stats, BattingStatNames(), true)
  }

  function BowlingData(find: Lookup, stats: Json): map<string, Scalar>
  {
    WriteStats(StatKey, map[], find, stats, BowlingStatNames(), true)
  }

  /** The first four batting statistics, written with any key function that maps the
      batting names to the batting keys, sit under their keys. */
  lemma BattingDataFirst(keyOf: string -> string, find: Lookup, stats: Json)
    requires forall j :: 0 <= j < |BattingStatNames()| ==> keyOf(BattingStatNames()[j]) == BattingKeyList()[j]
    ensures var d := WriteStats(keyOf, map[], find, stats, BattingStatNames(), true);
            && "dismissal_text" in d && d["dismissal_text"] == find(stats, "batting.dismissal_text")
            && "runs" in d && d["runs"] == find(stats, "runs")
            && "balls_faced" in d && d["balls_faced"] == find(stats, "ballsFaced")
            && "notouts" in d && d["notouts"] == find(stats, "notouts")
  {
    var names, keys := BattingStatNames(), BattingKeyList();
    assert Distinct(keys);
    WrittenUnderKeys(keyOf, find, stats, names, keys);
    assert keys[0] == "dismissal_text" && names[0] == "batting.dismissal_text";
    assert keys[1] == "runs" && names[1] == "runs";
    assert keys[2] == "balls_faced" && names[2] == "ballsFaced";
    assert keys[3] == "notouts" && names[3] == "notouts";
  }

  /** The other three sit under their keys, and there is no "not_out" entry. */
  lemma BattingDataRest(keyOf: string -> string, find: Lookup, stats: Json)
    requires forall j :: 0 <= j < |BattingStatNames()| ==> keyOf(BattingStatNames()[j]) == BattingKeyList()[j]
    ensures var d := WriteStats(keyOf, map[], find, stats, BattingStatNames(), true);
            && "order" in d && d["order"] == find(stats, "batting.order")
            && "fours" in d && d["fours"] == find(stats, "fours")
            && "sixes" in d && d["sixes"] == find(stats, "sixes")
            && "not_out" !in d
  {
    var names, keys := BattingStatNames(), BattingKeyList();
    assert Distinct(keys);
    WrittenUnderKeys(keyOf, find, stats, names, keys);
    assert keys[4] == "order" && names[4] == "batting.order";
    assert keys[5] == "fours" && names[5] == "fours";
    assert keys[6] == "sixes" && names[6] == "sixes";
    assert "not_out" !in keys;
  }

  /** Validation of any dictionary holding the batting entries under their keys. */
  lemma ValidateBattingData(d: map<string, Scalar>, find: Lookup, stats: Json, displayName: string, captain: Option<bool>, keeper: Option<bool>)
    requires "dismissal_text" in d && d["dismissal_text"] == find(stats, "batting.dismissal_text")
    requires "runs" in d && d["runs"] == find(stats, "runs")
    requires "balls_faced" in d && d["balls_faced"] == find(stats, "ballsFaced")
    requires "notouts" in d && d["notouts"] == find(stats, "notouts")
    requires "order" in d && d["order"] == find(stats, "batting.order")
    requires "fours" in d && d["fours"] == find(stats, "fours")
    requires "sixes" in d && d["sixes"] == find(stats, "sixes")
    requires "not_out" !in d
    ensures var r := ValidateBatting(d, displayName, captain, keeper);
            && (r.Ok? <==>
                  && find(stats, "batting.order").IntVal?
                  && find(stats, "batting.dismissal_text").StrVal?
                  && find(stats, "runs").IntVal?
                  && OptionalScalarOk(find(stats, "ballsFaced"))
                  && OptionalScalarOk(find(stats, "fours"))
                  && OptionalScalarOk(find(stats, "sixes"))
                  && find(stats, "notouts").BoolVal?)
            && (r.Ok? ==>
                  && r.value.order == find(stats, "batting.order").i
                  && r.value.displayName == displayName
                  && r.value.captain == captain && r.value.keeper == keeper
                  && r.value.dismissalText == find(stats, "batting.dismissal_text").s
                  && r.value.runs == find(stats, "runs").i
                  && r.value.ballsFaced == OptionalOf(find(stats, "ballsFaced"))
                  && r.value.fours == OptionalOf(find(stats, "fours"))
                  && r.value.sixes == OptionalOf(find(stats, "sixes"))
                  && r.value.notOut == find(stats, "notouts").b)
  {
    assert AliasKey(d, "not_out", "notouts") == "notouts";
  }

  /** Each batting field comes from the statistic its name maps to: `order` from
      "batting.order", `dismissal_text` from "batting.dismissal_text", `balls_faced`
      from "ballsFaced", `not_out` from "notouts"; the record exists exactly when every
      one of those values has the field's type. */
  lemma BattingFromStatistics(find: Lookup, stats: Json, displayName: string, captain: Option<bool>, keeper: Option<bool>)
    ensures var r := ValidateBatting(BattingData(find, stats), displayName, captain, keeper);
            && (r.Ok? <==>
                  && find(stats, "batting.order").IntVal?
                  && find(stats, "batting.dismissal_text").StrVal?
                  && find(stats, "runs").IntVal?
                  && OptionalScalarOk(find(stats, "ballsFaced"))
                  && OptionalScalarOk(find(stats, "fours"))
                  && OptionalScalarOk(find(stats, "sixes"))
                  && find(stats, "notouts").BoolVal?)
            && (r.Ok? ==>
                  && r.value.order == find(stats, "batting.order").i
                  && r.value.displayName == displayName
                  && r.value.captain == captain && r.value.keeper == keeper
                  && r.value.dismissalText == find(stats, "batting.dismissal_text").s
                  && r.value.runs == find(stats, "runs").i
                  && r.value.ballsFaced == OptionalOf(find(stats, "ballsFaced"))
                  && r.value.fours == OptionalOf(find(stats, "fours"))
                  && r.value.sixes == OptionalOf(find(stats, "sixes"))
                  && r.value.notOut == find(stats, "notouts").b)
  {
    var d := BattingData(find, stats);
    assert && "dismissal_text" in d && d["dismissal_text"] == find(stats, "batting.dismissal_text")
           && "runs" in d && d["runs"] == find(stats, "runs")
           && "balls_faced" in d && d["balls_faced"] == find(stats, "ballsFaced")
           && "notouts" in d && d["notouts"] == find(stats, "notouts") by {
      BattingKeys();
      BattingDataFirst(StatKey, find, stats);
    }
    assert && "order" in d && d["order"] == find(stats, "batting.order")
           && "fours" in d && d["fours"] == find(stats, "fours")
           && "sixes" in d && d["sixes"] == find(stats, "sixes")
           && "not_out" !in d by {
      BattingKeys();
      BattingDataRest(StatKey, find, stats);
    }
    ValidateBattingData(d, find, stats, displayName, captain, keeper);
  }

  /** The bowling statistics, written with any key function that maps the bowling
      names to the bowling keys, sit under their keys; there is no "runs" entry. */
  lemma BowlingDataFacts(keyOf: string -> string, find: Lookup, stats: Json)
    requires forall j :: 0 <= j < |BowlingStatNames()| ==> keyOf(BowlingStatNames()[j]) == BowlingKeyList()[j]
    ensures var d := WriteStats(keyOf, map[], find, stats, BowlingStatNames(), true);
            && "overs" in d && d["overs"] == find(stats, "overs")
            && "maidens" in d && d["maidens"] == find(stats, "maidens")
            && "conceded" in d && d["conceded"] == find(stats, "conceded")
            && "wickets" in d && d["wickets"] == find(stats, "wickets")
            && "order" in d && d["order"] == find(stats, "bowling.order")
            && "runs" !in d
  {
    var names, keys := BowlingStatNames(), BowlingKeyList();
    assert Distinct(keys);
    WrittenUnderKeys(keyOf, find, stats, names, keys);
    assert keys[0] == "overs" && names[0] == "overs";
    assert keys[1] == "maidens" && names[1] == "maidens";
    assert keys[2] == "conceded" && names[2] == "conceded";
    assert keys[3] == "wickets" && names[3] == "wickets";
    assert keys[4] == "order" && names[4] == "bowling.order";
    assert "runs" !in keys;
  }

  /** Validation of any dictionary holding the bowling entries under their keys. */
  lemma ValidateBowlingData(d: map<string, Scalar>, find: Lookup, stats: Json, displayName: string)
    requires "overs" in d && d["overs"] == find(stats, "overs")
    requires "maidens" in d && d["maidens"] == find(stats, "maidens")
    requires "conceded" in d && d["conceded"] == find(stats, "conceded")
    requires "wickets" in d && d["wickets"] == find(stats, "wickets")
    requires "order" in d && d["order"] == find(stats, "bowling.order")
    requires "runs" !in d
    ensures var r := ValidateBowling(d, displayName);
            && (r.Ok? <==>
                  && find(stats, "bowling.order").IntVal?
                  && (find(stats, "overs").IntVal? || find(stats, "overs").FloatVal?)
                  && find(stats, "maidens").IntVal?
                  && find(stats, "conceded").IntVal?
                  && find(stats, "wickets").IntVal?)
            && (r.Ok? ==>
                  && r.value.order == find(stats, "bowling.order").i
                  && r.value.displayName == displayName
                  && r.value.overs == (if find(stats, "overs").IntVal? then Int(find(stats, "overs").i) else Float(find(stats, "overs").r))
                  && r.value.maidens == find(stats, "maidens").i
                  && r.value.runs == find(stats, "conceded").i
                  && r.value.wickets == find(stats, "wickets").i)
  {
    assert AliasKey(d, "runs", "conceded") == "conceded";
  }

  /** Each bowling field comes from its statistic; `runs` from "conceded" and `order`
      from "bowling.order". */
  lemma BowlingFromStatistics(find: Lookup, stats: Json, displayName: string)
    ensures var r := ValidateBowling(BowlingData(find, stats), displayName);
            && (r.Ok? <==>
                  && find(stats, "bowling.order").IntVal?
                  && (find(stats, "overs").IntVal? || find(stats, "overs").FloatVal?)
                  && find(stats, "maidens").IntVal?
                  && find(stats, "conceded").IntVal?
                  && find(stats, "wickets").IntVal?)
            && (r.Ok? ==>
                  && r.value.order == find(stats, "bowling.order").i
                  && r.value.displayName == displayName
                  && r.value.overs == (if find(stats, "overs").IntVal? then Int(find(stats, "overs").i) else Float(find(stats, "overs").r))
                  && r.value.maidens == find(stats, "maidens").i
                  && r.value.runs == find(stats, "conceded").i
                  && r.value.wickets == find(stats, "wickets").i)
  {
    var d := BowlingData(find, stats);
    assert && "overs" in d && d["overs"] == find(stats, "overs")
           && "maidens" in d && d["maidens"] == find(stats, "maidens")
           && "conceded" in d && d["conceded"] == find(stats, "conceded")
           && "wickets" in d && d["wickets"] == find(stats, "wickets")
           && "order" in d && d["order"] == find(stats, "bowling.order")
           && "runs" !in d by {
      BowlingKeys();
      BowlingDataFacts(StatKey, find, stats);
    }
    ValidateBowlingData(d, find, stats, displayName);
  }
}
