/** Building a scorecard from a match: one innings per batting period, then every
    roster, player and period record walked in order, each record classified as
    batting, bowling or neither and its innings record appended to the innings of its
    period. `CricinfoScorecard.create` and the legacy `Scorecard.create` differ only in
    the number of innings and in which statistics writer they use. */
module Scorecards {
  import opened Wrappers
  import opened Errors
  import opened PyText
  import opened Payload
  import opened Linescores
  import opened Rosters
  import opened Matches
  import opened StatFields
  import opened PlayerInnings

  // ---------------------------------------------------------------------------
  // `bool(x) and bool(int(x))` on a raw flag

  /** Python's `bool(x)` on a looked-up scalar. */
  predicate PyBool(v: Scalar)
  {
    match v
    case NoneVal => false
    case BoolVal(b) => b
    case IntVal(i) => i != 0
    case FloatVal(r) => r != 0.0
    case StrVal(s) => s != ""
  }

  /** `int(x)` on a real: the fraction is dropped, toward zero. */
  function TruncateReal(r: real): (n: int)
    ensures r >= 0.0 ==> n as real <= r < n as real + 1.0
    ensures r < 0.0 ==> n as real - 1.0 < r <= n as real
  {
    if r >= 0.0 then r.Floor else -((-r).Floor)
  }

  /** Python's `int(x)`; `Err` where Python raises (a string that is not a decimal
      integer, or `None`). */
  function PyInt(v: Scalar): (r: Result<int, Error>)
    ensures v.IntVal? ==> r == Ok(v.i)
    ensures v.BoolVal? ==> r == Ok(if v.b then 1 else 0)
    ensures v.FloatVal? ==> r == Ok(TruncateReal(v.r))
    ensures v.StrVal? ==> (r.Ok? <==> ParseInt(v.s).Some?)
    ensures v.StrVal? && r.Ok? ==> r.value == ParseInt(v.s).value
    ensures r.Err? ==> r.error == NotAnInteger
  {
    match v
    case NoneVal => Err(NotAnInteger)
    case BoolVal(b) => Ok(if b then 1 else 0)
    case IntVal(i) => Ok(i)
    case FloatVal(x) => Ok(TruncateReal(x))
    case StrVal(s) =>
      match ParseInt(s)
      case Some(n) => Ok(n)
      case None => Err(NotAnInteger)
  }

  /** `bool(x) and bool(int(x))`: `int` is applied only when `x` is truthy, and its
      exception propagates. */
  function Flag(v: Scalar): (r: Result<bool, Error>)
    ensures !PyBool(v) ==> r == Ok(false)
    ensures r == Ok(true) <==> PyBool(v) && PyInt(v).Ok? && PyInt(v).value != 0
    ensures r.Err? <==> PyBool(v) && PyInt(v).Err?
  {
    if !PyBool(v) then Ok(false)
    else
      var n :- PyInt(v);
      Ok(n != 0)
  }

  /** A flag printed as a decimal string is set exactly when the number is not zero;
      so `"0"` is not set, although it is a truthy string. */
  lemma FlagOfPrintedInt(i: int)
    ensures Flag(StrVal(IntToString(i))) == Ok(i != 0)
  {
    IntRoundTrip(i);
    assert IntToString(i) != "";
  }

  /** For an int the test is `i != 0`, for a bool it is the bool, `None` is never set. */
  lemma FlagOfIntBoolNone(i: int, b: bool)
    ensures Flag(IntVal(i)) == Ok(i != 0)
    ensures Flag(BoolVal(b)) == Ok(b)
    ensures Flag(NoneVal) == Ok(false)
  {
  }

  /** A float flag is set only when its magnitude is at least one: `0.5` is truthy but
      truncates to zero. */
  lemma FlagOfFloat(x: real)
    ensures Flag(FloatVal(x)) == Ok(x <= -1.0 || x >= 1.0)
  {
    var n := TruncateReal(x);
    if x >= 1.0 {
      assert n >= 1;
    } else if x <= -1.0 {
      assert n <= -1;
    } else {
      assert n == 0;
    }
  }

  /** A truthy string that is not an integer makes `int()` raise. */
  lemma FlagOfWord()
    ensures Flag(StrVal("yes")) == Err(NotAnInteger)
  {
    var s := "yes";
    assert forall k :: 0 <= k < |s| ==> !IsDigit(s[k]);
  }

  // ---------------------------------------------------------------------------
  // Classifying a record

  datatype Kind = Batting | Bowling | Neither

  /** The `if`/`elif` of `_enrich_player`: the bowling test runs only when the
      batting test fails. */
  function Classify(rec: PeriodRecord, find: Lookup): (r: Result<Kind, Error>)
    ensures Flag(Batted(rec, find)) == Ok(true) ==> r == Ok(Batting)
    ensures r == Ok(Batting) ==> Flag(Batted(rec, find)) == Ok(true)
    ensures r == Ok(Bowling) <==> Flag(Batted(rec, find)) == Ok(false) && Flag(Bowled(rec, find)) == Ok(true)
    ensures r == Ok(Neither) <==> Flag(Batted(rec, find)) == Ok(false) && Flag(Bowled(rec, find)) == Ok(false)
    ensures r.Err? <==> Flag(Batted(rec, find)).Err? || (Flag(Batted(rec, find)) == Ok(false) && Flag(Bowled(rec, find)).Err?)
    ensures r.Err? ==> r.error == NotAnInteger
  {
    var batted :- Flag(Batted(rec, find));
    if batted then Ok(Batting)
    else
      var bowled :- Flag(Bowled(rec, find));
      if bowled then Ok(Bowling) else Ok(Neither)
  }

  /** With the batting flag set, the bowling flag is never looked at: two records that
      agree on "batted" classify alike, whatever their "bowled" values. */
  lemma BowledIgnoredWhenBatting(a: PeriodRecord, b: PeriodRecord, find: Lookup)
    requires Flag(Batted(a, find)) == Ok(true)
    requires Batted(a, find) == Batted(b, find)
    ensures Classify(a, find) == Classify(b, find) == Ok(Batting)
  {
  }

  // ---------------------------------------------------------------------------
  // What one record contributes

  datatype Contribution = Bat(batting: BattingInnings) | Bowl(bowling: BowlingInnings) | Nothing

  /** `CricinfoBattingInnings(...)` for a player and a record: the display name is the
      athlete's, captain and keeper come from the player. */
  function BattingFor(p: Player, rec: PeriodRecord, find: Lookup): (r: Result<BattingInnings, Error>)
    ensures r.Ok? ==> r.value.displayName == AthleteName(p)
    ensures r.Ok? ==> r.value.captain == Some(p.captain) && r.value.keeper == Some(Keeper(p))
  {
    ValidateBatting(BattingData(find, rec.statistics), AthleteName(p), Some(p.captain), Some(Keeper(p)))
  }

  function BowlingFor(p: Player, rec: PeriodRecord, find: Lookup): (r: Result<BowlingInnings, Error>)
    ensures r.Ok? ==> r.value.displayName == AthleteName(p)
  {
    ValidateBowling(BowlingData(find, rec.statistics), AthleteName(p))
  }

  /** The record's contribution: a batting record for a batting record, a bowling
      record for a bowling one, nothing otherwise; a failed validation is the error. */
  function ContributionOf(p: Player, rec: PeriodRecord, find: Lookup): (r: Result<Contribution, Error>)
    ensures r.Ok? && r.value.Bat? <==> Classify(rec, find) == Ok(Batting) && BattingFor(p, rec, find).Ok?
    ensures r.Ok? && r.value.Bat? ==> r.value.batting == BattingFor(p, rec, find).value
    ensures r.Ok? && r.value.Bowl? <==> Classify(rec, find) == Ok(Bowling) && BowlingFor(p, rec, find).Ok?
    ensures r.Ok? && r.value.Bowl? ==> r.value.bowling == BowlingFor(p, rec, find).value
    ensures r == Ok(Nothing) <==> Classify(rec, find) == Ok(Neither)
  {
    var kind :- Classify(rec, find);
    match kind
    case Batting =>
      var b :- BattingFor(p, rec, find);
      Ok(Bat(b))
    case Bowling =>
      var w :- BowlingFor(p, rec, find);
      Ok(Bowl(w))
    case Neither => Ok(Nothing)
  }

  // ---------------------------------------------------------------------------
  // The innings and the scorecard

  /** `Innings` / `CricinfoInnings`; the team name the current version also stores is
      the team's display name. */
  datatype Innings = Innings(
    number: int,
    team: Team,
    battingScore: int,
    wickets: int,
    battingDescription: string,
    batters: seq<BattingInnings>,
    bowlers: seq<BowlingInnings>)

  datatype Scorecard = Scorecard(title: string, summary: string, innings: seq<Innings>)

  /** One innings with a contribution appended to the matching list. */
  function AddTo(inn: Innings, c: Contribution): (r: Innings)
    ensures c.Bat? ==> r == inn.(batters := inn.batters + [c.batting])
    ensures c.Bowl? ==> r == inn.(bowlers := inn.bowlers + [c.bowling])
    ensures c.Nothing? ==> r == inn
  {
    match c
    case Bat(b) => inn.(batters := inn.batters + [b])
    case Bowl(w) => inn.(bowlers := inn.bowlers + [w])
    case Nothing => inn
  }

  /** `innings[period - 1].batters.append(...)` (or `.bowlers`), with the index kept to
      the innings that exist: a period outside `1..|innings|` is an error. A record
      that contributes nothing indexes nothing. */
  function Place(innings: seq<Innings>, period: int, c: Contribution): (r: Result<seq<Innings>, Error>)
    ensures c.Nothing? ==> r == Ok(innings)
    ensures !c.Nothing? ==> (r.Ok? <==> 1 <= period <= |innings|)
    ensures r.Err? ==> r.error == PeriodOutOfRange(period)
    ensures r.Ok? ==> |r.value| == |innings|
    ensures r.Ok? ==> forall k :: 0 <= k < |innings| && k != period - 1 ==> r.value[k] == innings[k]
    ensures r.Ok? && !c.Nothing? ==> r.value[period - 1] == AddTo(innings[period - 1], c)
  {
    if c.Nothing? then Ok(innings)
    else if 1 <= period <= |innings| then Ok(innings[period - 1 := AddTo(innings[period - 1], c)])
    else Err(PeriodOutOfRange(period))
  }

  /** Python's list index: `-n..-1` counts from the end. */
  function PyIndex(n: nat, i: int): (k: Option<nat>)
    ensures k.Some? <==> -(n as int) <= i < n
    ensures k.Some? ==> k.value < n && (k.value == i || k.value == n + i)
  {
    if 0 <= i < n then Some(i)
    else if -(n as int) <= i < 0 then Some(n + i)
    else None
  }

  /** The append as written, with Python's negative indexing. */
  function PlaceAsWritten(innings: seq<Innings>, period: int, c: Contribution): (r: Result<seq<Innings>, Error>)
    ensures r.Ok? ==> |r.value| == |innings|
  {
    if c.Nothing? then Ok(innings)
    else match PyIndex(|innings|, period - 1)
      case Some(k) => Ok(innings[k := AddTo(innings[k], c)])
      case None => Err(PeriodOutOfRange(period))
  }

  /** For every period the innings list has, the two agree. */
  lemma PlaceAgreesInRange(innings: seq<Innings>, period: int, c: Contribution)
    requires 1 <= period <= |innings| || c.Nothing?
    ensures PlaceAsWritten(innings, period, c) == Place(innings, period, c)
  {
  }

  /** A batting record with period 0 in a four-innings match lands, as written, in the
      fourth innings instead of raising. */
  lemma PeriodZeroLandsInLastInnings(innings: seq<Innings>, b: BattingInnings)
    requires |innings| == 4
    ensures PlaceAsWritten(innings, 0, Bat(b)) == Ok(innings[3 := innings[3].(batters := innings[3].batters + [b])])
    ensures Place(innings, 0, Bat(b)) == Err(PeriodOutOfRange(0))
  {
  }

  // ---------------------------------------------------------------------------
  // The walk: rosters, then players, then period records

  type Entry = (Player, PeriodRecord)

  function RecordEntries(p: Player): (r: seq<Entry>)
    ensures |r| == |p.linescores|
    ensures forall i :: 0 <= i < |r| ==> r[i] == (p, p.linescores[i])
  {
    seq(|p.linescores|, i requires 0 <= i < |p.linescores| => (p, p.linescores[i]))
  }

  /** Every player's records, player by player. */
  function PlayerEntries(ps: seq<Player>): seq<Entry>
  {
    if ps == [] then [] else PlayerEntries(ps[..|ps| - 1]) + RecordEntries(ps[|ps| - 1])
  }

  /** Every roster's entries, roster by roster. */
  function RosterEntries(rs: seq<Roster>): seq<Entry>
  {
    if rs == [] then [] else RosterEntries(rs[..|rs| - 1]) + PlayerEntries(rs[|rs| - 1].players)
  }

  /** What the walk does at one entry: the period it names and the contribution
      computed for it, which may be an error. */
  type Step = (int, Result<Contribution, Error>)

  function Steps(es: seq<Entry>, find: Lookup): (r: seq<Step>)
    ensures |r| == |es|
    ensures forall j :: 0 <= j < |es| ==> r[j] == (es[j].1.period, ContributionOf(es[j].0, es[j].1, find))
  {
    seq(|es|, j requires 0 <= j < |es| => (es[j].1.period, ContributionOf(es[j].0, es[j].1, find)))
  }

  lemma StepsAppend(a: seq<Entry>, b: seq<Entry>, find: Lookup)
    ensures Steps(a + b, find) == Steps(a, find) + Steps(b, find)
  {
  }

  /** The steps in order, each contribution placed before the next step; the first
      error ends the walk. */
  function Fold(innings: seq<Innings>, steps: seq<Step>): Result<seq<Innings>, Error>
  {
    if steps == [] then Ok(innings)
    else
      var prev :- Fold(innings, steps[..|steps| - 1]);
      var step := steps[|steps| - 1];
      var c :- step.1;
      Place(prev, step.0, c)
  }

  /** Walking the entries of a roster walk, contribution by contribution. */
  function Enrich(innings: seq<Innings>, es: seq<Entry>, find: Lookup): Result<seq<Innings>, Error>
  {
    Fold(innings, Steps(es, find))
  }

  /** Continuing a walk that has not failed. */
  function Then(r: Result<seq<Innings>, Error>, steps: seq<Step>): Result<seq<Innings>, Error>
  {
    match r
    case Ok(innings) => Fold(innings, steps)
    case Err(e) => Err(e)
  }

  /** Walking `a + b` is walking `a`, then `b` from where `a` left off. */
  lemma {:induction false} FoldAppend(innings: seq<Innings>, a: seq<Step>, b: seq<Step>)
    ensures Fold(innings, a + b) == Then(Fold(innings, a), b)
  {
    if b == [] {
      assert a + b == a;
    } else {
      var b' := b[..|b| - 1];
      assert (a + b)[..|a + b| - 1] == a + b';
      assert (a + b)[|a + b| - 1] == b[|b| - 1];
      FoldAppend(innings, a, b');
    }
  }

  /** A walk that fails on its first `k` steps fails on them all, with the same error. */
  lemma FoldFailsFrom(innings: seq<Innings>, steps: seq<Step>, k: nat)
    requires k <= |steps| && Fold(innings, steps[..k]).Err?
    ensures Fold(innings, steps) == Err(Fold(innings, steps[..k]).error)
  {
    FoldAppend(innings, steps[..k], steps[k..]);
    assert steps[..k] + steps[k..] == steps;
  }

  /** The batting records the steps append to the innings of `period`, in order. */
  function BattersIn(steps: seq<Step>, period: int): seq<BattingInnings>
  {
    if steps == [] then []
    else
      var step := steps[|steps| - 1];
      BattersIn(steps[..|steps| - 1], period) +
        if step.0 == period && step.1.Ok? && step.1.value.Bat? then [step.1.value.batting] else []
  }

  /** The bowling records the steps append to the innings of `period`, in order. */
  function BowlersIn(steps: seq<Step>, period: int): seq<BowlingInnings>
  {
    if steps == [] then []
    else
      var step := steps[|steps| - 1];
      BowlersIn(steps[..|steps| - 1], period) +
        if step.0 == period && step.1.Ok? && step.1.value.Bowl? then [step.1.value.bowling] else []
  }

  /** Every innings with the records of its period appended. */
  function Grown(innings: seq<Innings>, steps: seq<Step>): (r: seq<Innings>)
    ensures |r| == |innings|
    ensures forall k :: 0 <= k < |r| ==>
              r[k] == innings[k].(batters := innings[k].batters + BattersIn(steps, k + 1),
                                  bowlers := innings[k].bowlers + BowlersIn(steps, k + 1))
  {
    seq(|innings|, k requires 0 <= k < |innings| =>
      innings[k].(batters := innings[k].batters + BattersIn(steps, k + 1),
                  bowlers := innings[k].bowlers + BowlersIn(steps, k + 1)))
  }

  /** One innings after one more step: the step's record, if it is for this innings,
      goes at the end of its list. */
  lemma GrownStep(innings: seq<Innings>, steps: seq<Step>, k: nat)
    requires steps != [] && k < |innings|
    requires var step := steps[|steps| - 1]; step.1.Ok?
    ensures var step := steps[|steps| - 1];
            var before := Grown(innings, steps[..|steps| - 1])[k];
            Grown(innings, steps)[k] == if step.0 == k + 1 then AddTo(before, step.1.value) else before
  {
    var init := steps[..|steps| - 1];
    var step := steps[|steps| - 1];
    var inn := innings[k];
    var bs, ws := BattersIn(init, k + 1), BowlersIn(init, k + 1);
    assert inn.batters + bs + [] == inn.batters + bs;
    assert inn.bowlers + ws + [] == inn.bowlers + ws;
    if step.0 == k + 1 && step.1.value.Bat? {
      assert inn.batters + (bs + [step.1.value.batting]) == inn.batters + bs + [step.1.value.batting];
    }
    if step.0 == k + 1 && step.1.value.Bowl? {
      assert inn.bowlers + (ws + [step.1.value.bowling]) == inn.bowlers + ws + [step.1.value.bowling];
    }
  }

  /** A successful walk changes nothing but the two lists of each innings, and appends
      to each exactly the records of its period, in walk order. */
  lemma {:induction false} FoldCollects(innings: seq<Innings>, steps: seq<Step>)
    requires Fold(innings, steps).Ok?
    ensures Fold(innings, steps).value == Grown(innings, steps)
  {
    if steps == [] {
      forall k | 0 <= k < |innings| ensures Grown(innings, steps)[k] == innings[k] {
        assert innings[k].batters + [] == innings[k].batters;
        assert innings[k].bowlers + [] == innings[k].bowlers;
      }
    } else {
      FoldCollects(innings, steps[..|steps| - 1]);
      FoldCollectsStep(innings, steps);
    }
  }

  /** The step of `FoldCollects`: if the walk without its last step collected, so does
      the whole walk. */
  lemma FoldCollectsStep(innings: seq<Innings>, steps: seq<Step>)
    requires steps != [] && Fold(innings, steps).Ok?
    requires Fold(innings, steps[..|steps| - 1]) == Ok(Grown(innings, steps[..|steps| - 1]))
    ensures Fold(innings, steps).value == Grown(innings, steps)
  {
    var step := steps[|steps| - 1];
    var c := step.1.value;
    var prev := Grown(innings, steps[..|steps| - 1]);
    var r := Fold(innings, steps).value;
    assert Place(prev, step.0, c) == Ok(r);
    assert |r| == |innings|;
    forall k | 0 <= k < |innings| ensures r[k] == Grown(innings, steps)[k] {
      GrownStep(innings, steps, k);
      if !c.Nothing? && k == step.0 - 1 {
        assert r[k] == AddTo(prev[k], c);
      } else {
        assert r[k] == prev[k];
      }
    }
  }

  /** Whether one step goes through at `n` innings: its contribution is not an error
      and, unless it is nothing, its period is one of the innings. */
  predicate StepFits(step: Step, n: nat)
  {
    step.1.Ok? && (step.1.value.Nothing? || 1 <= step.0 <= n)
  }

  /** The walk succeeds exactly when every step goes through. */
  lemma {:induction false} FoldSucceeds(innings: seq<Innings>, steps: seq<Step>)
    ensures Fold(innings, steps).Ok? <==> forall j :: 0 <= j < |steps| ==> StepFits(steps[j], |innings|)
  {
    if steps != [] {
      var init := steps[..|steps| - 1];
      FoldSucceeds(innings, init);
      assert forall j :: 0 <= j < |init| ==> init[j] == steps[j];
      if Fold(innings, init).Ok? {
        FoldKeepsLength(innings, init);
      }
    }
  }

  /** A walk that succeeds keeps the number of innings. */
  lemma {:induction false} FoldKeepsLength(innings: seq<Innings>, steps: seq<Step>)
    requires Fold(innings, steps).Ok?
    ensures |Fold(innings, steps).value| == |innings|
  {
    if steps != [] {
      FoldKeepsLength(innings, steps[..|steps| - 1]);
    }
  }

  // ---------------------------------------------------------------------------
  // Seeding the innings

  /** The innings for period `i`, from the batting team's linescore; no such linescore
      makes the source subscript `None`. */
  function InningsFor(h: MatchHeader, i: int): (r: Result<Innings, Error>)
    ensures r.Ok? <==> |h.competitions| > 0 && FirstBatting(h.competitions[0].competitors, i).Some?
    ensures r.Ok? ==>
              var hit := FirstBatting(h.competitions[0].competitors, i).value;
              r.value == Innings(i, hit.0, hit.1.runs, hit.1.wickets, hit.1.description, [], [])
    ensures r.Err? ==> r.error == (if |h.competitions| == 0 then NoCompetition else NoBattingLinescore(i))
  {
    var found :- BattingLinescoreForPeriod(h, i);
    if found.None? then Err(NoBattingLinescore(i))
    else Ok(Innings(i, found.value.0, found.value.1.runs, found.value.1.wickets, found.value.1.description, [], []))
  }

  /** Innings `1..n`, built in order; the first failure is the error. */
  function SeedInnings(h: MatchHeader, n: nat): Result<seq<Innings>, Error>
  {
    if n == 0 then Ok([])
    else
      var prefix :- SeedInnings(h, n - 1);
      var inn :- InningsFor(h, n);
      Ok(prefix + [inn])
  }

  /** Every period `1..n` has a batting linescore in the first competition. */
  predicate AllPeriodsBat(h: MatchHeader, n: int)
  {
    |h.competitions| > 0 && forall i :: 1 <= i <= n ==> FirstBatting(h.competitions[0].competitors, i).Some?
  }

  /** Seeding succeeds exactly when every period `1..n` has a batting linescore; the
      innings are then numbered `1..n` in order, each from its period's linescore, with
      no players yet; otherwise the error names the first period without one. */
  lemma {:induction false} SeedShape(h: MatchHeader, n: nat)
    ensures var r := SeedInnings(h, n);
            && (r.Ok? <==> n == 0 || AllPeriodsBat(h, n))
            && (r.Ok? ==> |r.value| == n && forall k :: 0 <= k < n ==> Ok(r.value[k]) == InningsFor(h, k + 1))
            && (r.Err? && |h.competitions| > 0 ==>
                  && r.error.NoBattingLinescore?
                  && 1 <= r.error.period <= n
                  && FirstBatting(h.competitions[0].competitors, r.error.period).None?
                  && AllPeriodsBat(h, r.error.period - 1))
            && (r.Err? && |h.competitions| == 0 ==> r.error == NoCompetition)
  {
    if n > 0 {
      SeedShape(h, n - 1);
      var prev := SeedInnings(h, n - 1);
      if prev.Ok? {
        var inn := InningsFor(h, n);
        if inn.Ok? {
          var r := prev.value + [inn.value];
          assert SeedInnings(h, n) == Ok(r);
          forall k | 0 <= k < n ensures Ok(r[k]) == InningsFor(h, k + 1) {
            if k < n - 1 {
              assert r[k] == prev.value[k];
            }
          }
        } else if |h.competitions| > 0 {
          assert FirstBatting(h.competitions[0].competitors, n).None?;
          assert AllPeriodsBat(h, n - 1);
        }
      }
    }
  }

  /** Once seeding fails at some count, it fails the same way at every larger count. */
  lemma {:induction false} SeedFailsFrom(h: MatchHeader, i: nat, n: nat)
    requires i <= n && SeedInnings(h, i).Err?
    ensures SeedInnings(h, n) == SeedInnings(h, i)
  {
    if n > i {
      SeedFailsFrom(h, i, n - 1);
    }
  }

  // ---------------------------------------------------------------------------
  // The whole build

  /** Two innings for a limited-overs match, four otherwise; the legacy builder always makes four. */
  function InningsCount(legacy: bool, limitedOvers: bool): (n: nat)
    ensures n == 2 || n == 4
    ensures n == 2 <==> !legacy && limitedOvers
  {
    if !legacy && limitedOvers then 2 else 4
  }

  /** `create`: title and summary from the header, the innings seeded, then every
      roster walked. */
  function Build(m: Match, find: Lookup, legacy: bool): Result<Scorecard, Error>
  {
    var summary :- Summary(m.header);
    var competition :- CompetitionOf(m.header);
    var seed :- SeedInnings(m.header, InningsCount(legacy, competition.limitedOvers));
    var innings :- Enrich(seed, RosterEntries(m.rosters), find);
    Ok(Scorecard(m.header.title, summary, innings))
  }

  /** A built scorecard has the header's title and summary, the right number of
      innings numbered in order, each carrying its period's batting linescore, and in
      each innings exactly the batting and bowling records of that period, in
      roster, player and record order. */
  lemma BuildShape(m: Match, find: Lookup, legacy: bool)
    requires Build(m, find, legacy).Ok?
    ensures var s := Build(m, find, legacy).value;
            var cs := m.header.competitions;
            var n := InningsCount(legacy, cs[0].limitedOvers);
            var steps := Steps(RosterEntries(m.rosters), find);
            && s.title == m.header.title
            && s.summary == cs[0].summary
            && |s.innings| == n
            && forall k :: 0 <= k < n ==>
                 && FirstBatting(cs[0].competitors, k + 1).Some?
                 && var hit := FirstBatting(cs[0].competitors, k + 1).value;
                    s.innings[k] == Innings(k + 1, hit.0, hit.1.runs, hit.1.wickets, hit.1.description,
                                            BattersIn(steps, k + 1), BowlersIn(steps, k + 1))
  {
    var cs := m.header.competitions;
    var n := InningsCount(legacy, cs[0].limitedOvers);
    var seed := SeedInnings(m.header, n).value;
    SeedShape(m.header, n);
    FoldCollects(seed, Steps(RosterEntries(m.rosters), find));
  }

  /** A missing batting linescore for one of the periods makes the build fail, naming
      the first such period. */
  lemma BuildFailsWithoutBatting(m: Match, find: Lookup, legacy: bool, i: int)
    requires |m.header.competitions| > 0
    requires 1 <= i <= InningsCount(legacy, m.header.competitions[0].limitedOvers)
    requires FirstBatting(m.header.competitions[0].competitors, i).None?
    requires forall j :: 1 <= j < i ==> FirstBatting(m.header.competitions[0].competitors, j).Some?
    ensures Build(m, find, legacy) == Err(NoBattingLinescore(i))
  {
    var n := InningsCount(legacy, m.header.competitions[0].limitedOvers);
    SeedShape(m.header, n);
    assert SeedInnings(m.header, n).Err?;
    assert SeedInnings(m.header, n).error.period == i;
  }

  /** A match without competitions fails on the summary. */
  lemma BuildNeedsCompetition(m: Match, find: Lookup, legacy: bool)
    requires |m.header.competitions| == 0
    ensures Build(m, find, legacy) == Err(NoCompetition)
  {
  }

  // ---------------------------------------------------------------------------
  // The imperative builder

  /** The list `create` builds: innings appended one by one, then players' records
      appended to them in place. */
  class InningsList {
    var innings: seq<Innings>

    constructor ()
      ensures innings == []
    {
      innings := [];
    }

    method Append(inn: Innings)
      modifies this
      ensures innings == old(innings) + [inn]
    {
      innings := innings + [inn];
    }

    /** `innings[period - 1].batters.append(...)` or `.bowlers.append(...)`; on an
        error nothing changes. */
    method Add(period: int, c: Contribution) returns (err: Option<Error>)
      modifies this
      ensures Place(old(innings), period, c) == if err.None? then Ok(innings) else Err(err.value)
      ensures err.Some? ==> innings == old(innings)
    {
      if c.Nothing? {
        return None;
      }
      if !(1 <= period <= |innings|) {
        return Some(PeriodOutOfRange(period));
      }
      innings := innings[period - 1 := AddTo(innings[period - 1], c)];
      return None;
    }
  }

  /** Validating a batting record from a fresh dictionary filled by the current or
      the legacy statistics writer. */
  method MakeBatting(p: Player, rec: PeriodRecord, find: Lookup, legacy: bool) returns (r: Result<BattingInnings, Error>)
    ensures r == BattingFor(p, rec, find)
  {
    var data := new StatData();
    if legacy {
      data.AddLegacyLinescoreStats(Some(rec), find, BattingStatNames());
    } else {
      var args := AsArgs(BattingStatNames());
      var err := data.AddLinescoreStats(Some(rec), find, args);
      assert args[..|args|] == args;
    }
    r := ValidateBatting(data.items, AthleteName(p), Some(p.captain), Some(Keeper(p)));
  }

  method MakeBowling(p: Player, rec: PeriodRecord, find: Lookup, legacy: bool) returns (r: Result<BowlingInnings, Error>)
    ensures r == BowlingFor(p, rec, find)
  {
    var data := new StatData();
    if legacy {
      data.AddLegacyLinescoreStats(Some(rec), find, BowlingStatNames());
    } else {
      var args := AsArgs(BowlingStatNames());
      var err := data.AddLinescoreStats(Some(rec), find, args);
      assert args[..|args|] == args;
    }
    r := ValidateBowling(data.items, AthleteName(p));
  }

  /** The test and the construction inside `_enrich_player`'s loop: a batting record
      first, a bowling record only when the batting test fails. */
  method MakeContribution(p: Player, rec: PeriodRecord, find: Lookup, legacy: bool) returns (r: Result<Contribution, Error>)
    ensures r == ContributionOf(p, rec, find)
  {
    var kind := Classify(rec, find);
    if kind.Err? {
      return Err(kind.error);
    }
    if kind.value == Batting {
      var b := MakeBatting(p, rec, find, legacy);
      if b.Err? {
        return Err(b.error);
      }
      return Ok(Bat(b.value));
    } else if kind.value == Bowling {
      var w := MakeBowling(p, rec, find, legacy);
      if w.Err? {
        return Err(w.error);
      }
      return Ok(Bowl(w.value));
    }
    return Ok(Nothing);
  }

  /** One more step of a walk that has not failed. */
  lemma FoldStep(innings: seq<Innings>, steps: seq<Step>, i: nat, prev: seq<Innings>)
    requires i < |steps| && Fold(innings, steps[..i]) == Ok(prev)
    ensures Fold(innings, steps[..i + 1]) == match steps[i].1
                                             case Err(e) => Err(e)
                                             case Ok(c) => Place(prev, steps[i].0, c)
  {
    assert steps[..i + 1][..i] == steps[..i];
  }

  /** `_enrich_player`: the player's records in order. */
  method EnrichPlayer(list: InningsList, p: Player, find: Lookup, legacy: bool) returns (err: Option<Error>)
    modifies list
    ensures Enrich(old(list.innings), RecordEntries(p), find) == if err.None? then Ok(list.innings) else Err(err.value)
  {
    ghost var steps := Steps(RecordEntries(p), find);
    ghost var start := list.innings;
    for i := 0 to |p.linescores|
      invariant Fold(start, steps[..i]) == Ok(list.innings)
    {
      var rec := p.linescores[i];
      FoldStep(start, steps, i, list.innings);
      var c := MakeContribution(p, rec, find, legacy);
      assert steps[i] == (rec.period, c);
      if c.Err? {
        FoldFailsFrom(start, steps, i + 1);
        return Some(c.error);
      }
      err := list.Add(rec.period, c.value);
      if err.Some? {
        FoldFailsFrom(start, steps, i + 1);
        return err;
      }
    }
    assert steps[..|p.linescores|] == steps;
    return None;
  }

  /** `_enrich_roster`: the players in order. */
  method EnrichRoster(list: InningsList, roster: Roster, find: Lookup, legacy: bool) returns (err: Option<Error>)
    modifies list
    ensures Enrich(old(list.innings), PlayerEntries(roster.players), find) == if err.None? then Ok(list.innings) else Err(err.value)
  {
    var ps := roster.players;
    ghost var start := list.innings;
    for i := 0 to |ps|
      invariant Enrich(start, PlayerEntries(ps[..i]), find) == Ok(list.innings)
    {
      assert ps[..i + 1][..i] == ps[..i];
      assert PlayerEntries(ps[..i + 1]) == PlayerEntries(ps[..i]) + RecordEntries(ps[i]);
      StepsAppend(PlayerEntries(ps[..i]), RecordEntries(ps[i]), find);
      FoldAppend(start, Steps(PlayerEntries(ps[..i]), find), Steps(RecordEntries(ps[i]), find));
      err := EnrichPlayer(list, ps[i], find, legacy);
      if err.Some? {
        PlayerEntriesPrefix(ps, i + 1);
        StepsAppend(PlayerEntries(ps[..i + 1]), PlayerEntriesFrom(ps, i + 1), find);
        FoldAppend(start, Steps(PlayerEntries(ps[..i + 1]), find), Steps(PlayerEntriesFrom(ps, i + 1), find));
        return err;
      }
    }
    assert ps[..|ps|] == ps;
    return None;
  }

  /** The entries of the players from index `k` on. */
  function PlayerEntriesFrom(ps: seq<Player>, k: nat): seq<Entry>
    requires k <= |ps|
    decreases |ps| - k
  {
    if k == |ps| then [] else RecordEntries(ps[k]) + PlayerEntriesFrom(ps, k + 1)
  }

  lemma {:induction false} PlayerEntriesPrefix(ps: seq<Player>, k: nat)
    requires k <= |ps|
    ensures PlayerEntries(ps) == PlayerEntries(ps[..k]) + PlayerEntriesFrom(ps, k)
    decreases |ps| - k
  {
    if k == |ps| {
      assert ps[..k] == ps;
    } else {
      PlayerEntriesPrefix(ps, k + 1);
      assert ps[..k + 1][..k] == ps[..k];
      assert PlayerEntries(ps[..k + 1]) == PlayerEntries(ps[..k]) + RecordEntries(ps[k]);
    }
  }

  /** The entries of the rosters from index `k` on. */
  function RosterEntriesFrom(rs: seq<Roster>, k: nat): seq<Entry>
    requires k <= |rs|
    decreases |rs| - k
  {
    if k == |rs| then [] else PlayerEntries(rs[k].players) + RosterEntriesFrom(rs, k + 1)
  }

  lemma {:induction false} RosterEntriesPrefix(rs: seq<Roster>, k: nat)
    requires k <= |rs|
    ensures RosterEntries(rs) == RosterEntries(rs[..k]) + RosterEntriesFrom(rs, k)
    decreases |rs| - k
  {
    if k == |rs| {
      assert rs[..k] == rs;
    } else {
      RosterEntriesPrefix(rs, k + 1);
      assert rs[..k + 1][..k] == rs[..k];
      assert RosterEntries(rs[..k + 1]) == RosterEntries(rs[..k]) + PlayerEntries(rs[k].players);
    }
  }

  /** The first loop of `create`: innings 1 to `n`, each from its period's batting
      linescore, appended to a new list; a period without one ends the loop. */
  method SeedList(h: MatchHeader, n: nat) returns (list: InningsList, err: Option<Error>)
    ensures fresh(list)
    ensures SeedInnings(h, n) == if err.None? then Ok(list.innings) else Err(err.value)
  {
    list := new InningsList();
    for i := 1 to n + 1
      invariant SeedInnings(h, i - 1) == Ok(list.innings)
    {
      var found := BattingLinescoreForPeriod(h, i);
      if found.Err? {
        SeedFailsFrom(h, i, n);
        return list, Some(found.error);
      }
      if found.value.None? {
        SeedFailsFrom(h, i, n);
        return list, Some(NoBattingLinescore(i));
      }
      var hit := found.value.value;
      list.Append(Innings(i, hit.0, hit.1.runs, hit.1.wickets, hit.1.description, [], []));
    }
    return list, None;
  }

  /** The second loop of `create`: every roster in order. */
  method EnrichRosters(list: InningsList, rs: seq<Roster>, find: Lookup, legacy: bool) returns (err: Option<Error>)
    modifies list
    ensures Enrich(old(list.innings), RosterEntries(rs), find) == if err.None? then Ok(list.innings) else Err(err.value)
  {
    ghost var seed := list.innings;
    for i := 0 to |rs|
      invariant Enrich(seed, RosterEntries(rs[..i]), find) == Ok(list.innings)
    {
      assert rs[..i + 1][..i] == rs[..i];
      assert RosterEntries(rs[..i + 1]) == RosterEntries(rs[..i]) + PlayerEntries(rs[i].players);
      StepsAppend(RosterEntries(rs[..i]), PlayerEntries(rs[i].players), find);
      FoldAppend(seed, Steps(RosterEntries(rs[..i]), find), Steps(PlayerEntries(rs[i].players), find));
      err := EnrichRoster(list, rs[i], find, legacy);
      if err.Some? {
        RosterEntriesPrefix(rs, i + 1);
        StepsAppend(RosterEntries(rs[..i + 1]), RosterEntriesFrom(rs, i + 1), find);
        FoldAppend(seed, Steps(RosterEntries(rs[..i + 1]), find), Steps(RosterEntriesFrom(rs, i + 1), find));
        return err;
      }
    }
    assert rs[..|rs|] == rs;
    return None;
  }

  /** `CricinfoScorecard.create` (`legacy` false) and the legacy `Scorecard.create`
      (`legacy` true). */
  method CreateScorecard(m: Match, find: Lookup, legacy: bool) returns (r: Result<Scorecard, Error>)
    ensures r == Build(m, find, legacy)
  {
    var h := m.header;
    var summary := Summary(h);
    if summary.Err? {
      return Err(summary.error);
    }
    var competition := CompetitionOf(h);
    var n := 4;
    if !legacy && competition.value.limitedOvers {
      n := 2;
    }
    var list, err := SeedList(h, n);
    if err.Some? {
      return Err(err.value);
    }
    err := EnrichRosters(list, m.rosters, find, legacy);
    if err.Some? {
      return Err(err.value);
    }
    return Ok(Scorecard(h.title, summary.value, list.innings));
  }
}
