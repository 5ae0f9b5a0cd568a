/** The match header: its competitions, the competitors' per-period team linescores,
    and the search for the team batting in a given period. The three `MatchHeader`
    classes of the repository (the current API model, the older current model and
    the legacy model) share these definitions. */
module Matches {
  import opened Wrappers
  import opened Errors
  import opened Rosters

  datatype Team = Team(displayName: string)

  /** `TeamLinescore`, with the fields the scorecard reads. */
  datatype TeamLinescore = TeamLinescore(period: int, wickets: int, runs: int, isBatting: bool, description: string)

  datatype Competitor = Competitor(team: Team, linescores: seq<TeamLinescore>)

  /** `MatchCompetiton`: `summary` is `status.summary`. The legacy model has no
      `limited_overs` field; its builder never reads this one. */
  datatype Competition = Competition(summary: string, competitors: seq<Competitor>, limitedOvers: bool)

  datatype MatchHeader = MatchHeader(title: string, competitions: seq<Competition>)

  datatype Match = Match(header: MatchHeader, rosters: seq<Roster>)

  /** `header.competition`: the first competition; Python raises IndexError when there is none. */
  function CompetitionOf(h: MatchHeader): (r: Result<Competition, Error>)
    ensures r.Ok? <==> |h.competitions| > 0
    ensures r.Ok? ==> r.value == h.competitions[0]
    ensures r.Err? ==> r.error == NoCompetition
  {
    if |h.competitions| == 0 then Err(NoCompetition) else Ok(h.competitions[0])
  }

  /** `header.summary`: the first competition's status summary. */
  function Summary(h: MatchHeader): (r: Result<string, Error>)
    ensures r.Ok? <==> |h.competitions| > 0
    ensures r.Ok? ==> r.value == h.competitions[0].summary
    ensures r.Err? ==> r.error == NoCompetition
  {
    var c :- CompetitionOf(h);
    Ok(c.summary)
  }

  predicate BatsIn(e: (Team, TeamLinescore), period: int)
  {
    e.1.period == period && e.1.isBatting
  }

  /** The inner loop: the first linescore of one competitor batting in `period`. */
  function FirstBattingIn(team: Team, ls: seq<TeamLinescore>, period: int): Option<(Team, TeamLinescore)>
  {
    if ls == [] then None
    else if ls[0].period == period && ls[0].isBatting then Some((team, ls[0]))
    else FirstBattingIn(team, ls[1..], period)
  }

  /** The nested loop with its early return, competitor by competitor. */
  function FirstBatting(cs: seq<Competitor>, period: int): Option<(Team, TeamLinescore)>
  {
    if cs == [] then None
    else match FirstBattingIn(cs[0].team, cs[0].linescores, period)
      case Some(hit) => Some(hit)
      case None => FirstBatting(cs[1..], period)
  }

  /** `get_batting_linescore_for_period`: searches the first competition only. */
  function BattingLinescoreForPeriod(h: MatchHeader, period: int): (r: Result<Option<(Team, TeamLinescore)>, Error>)
    ensures r.Ok? <==> |h.competitions| > 0
    ensures r.Ok? ==> r.value == FirstBatting(h.competitions[0].competitors, period)
  {
    var c :- CompetitionOf(h);
    Ok(FirstBatting(c.competitors, period))
  }

  // ---------------------------------------------------------------------------
  // A reference definition of the search: one flat list, first index that matches.

  function Pairs(c: Competitor): (r: seq<(Team, TeamLinescore)>)
    ensures |r| == |c.linescores|
    ensures forall i :: 0 <= i < |r| ==> r[i] == (c.team, c.linescores[i])
  {
    seq(|c.linescores|, i requires 0 <= i < |c.linescores| => (c.team, c.linescores[i]))
  }

  /** Every (team, linescore) pair, competitor order first, then linescore order. */
  function Flatten(cs: seq<Competitor>): seq<(Team, TeamLinescore)>
  {
    if cs == [] then [] else Pairs(cs[0]) + Flatten(cs[1..])
  }

  /** The least index of a pair batting in `period`, or `|f|` when there is none. */
  function FirstMatchIndex(f: seq<(Team, TeamLinescore)>, period: int): (k: nat)
    ensures k <= |f|
    ensures forall j :: 0 <= j < k ==> !BatsIn(f[j], period)
    ensures k < |f| ==> BatsIn(f[k], period)
  {
    if f == [] then 0
    else if BatsIn(f[0], period) then 0
    else 1 + FirstMatchIndex(f[1..], period)
  }

  lemma {:induction false} FirstMatchIndexAppend(a: seq<(Team, TeamLinescore)>, b: seq<(Team, TeamLinescore)>, period: int)
    ensures FirstMatchIndex(a + b, period) ==
            if FirstMatchIndex(a, period) < |a| then FirstMatchIndex(a, period)
            else |a| + FirstMatchIndex(b, period)
  {
    if a != [] {
      assert (a + b)[1..] == a[1..] + b;
      assert (a + b)[0] == a[0];
      if !BatsIn(a[0], period) {
        FirstMatchIndexAppend(a[1..], b, period);
      }
    } else {
      assert a + b == b;
    }
  }

  lemma {:induction false} FirstBattingInIsFirstPair(c: Competitor, ls: seq<TeamLinescore>, period: int)
    ensures var f := Pairs(Competitor(c.team, ls));
            var k := FirstMatchIndex(f, period);
            FirstBattingIn(c.team, ls, period) == if k < |f| then Some(f[k]) else None
  {
    var f := Pairs(Competitor(c.team, ls));
    if ls != [] {
      FirstBattingInIsFirstPair(c, ls[1..], period);
      assert f[1..] == Pairs(Competitor(c.team, ls[1..]));
    }
  }

  /** The search returns the first pair, in competitor-then-linescore order, whose
      linescore is for `period` and is batting, and `None` exactly when there is no
      such pair. */
  lemma {:induction false} FirstBattingIsFirstMatch(cs: seq<Competitor>, period: int)
    ensures var f := Flatten(cs);
            var k := FirstMatchIndex(f, period);
            FirstBatting(cs, period) == if k < |f| then Some(f[k]) else None
  {
    if cs != [] {
      FirstBattingIsFirstMatch(cs[1..], period);
      FirstBattingInIsFirstPair(cs[0], cs[0].linescores, period);
      FirstMatchIndexAppend(Pairs(cs[0]), Flatten(cs[1..]), period);
      assert Competitor(cs[0].team, cs[0].linescores) == cs[0];
    }
  }

  /** Consequence for callers: a found pair is a real linescore of a competitor in the
      first competition, for that period and batting; a miss means no competitor has one. */
  lemma BattingLinescoreSound(h: MatchHeader, period: int)
    requires |h.competitions| > 0
    ensures var cs := h.competitions[0].competitors;
            match BattingLinescoreForPeriod(h, period).value
            case Some(hit) =>
              hit.1.period == period && hit.1.isBatting &&
              exists i, j :: 0 <= i < |cs| && 0 <= j < |cs[i].linescores| && hit == (cs[i].team, cs[i].linescores[j])
            case None =>
              forall i, j :: 0 <= i < |cs| && 0 <= j < |cs[i].linescores| ==>
                !(cs[i].linescores[j].period == period && cs[i].linescores[j].isBatting)
  {
    var cs := h.competitions[0].competitors;
    FirstBattingIsFirstMatch(cs, period);
    var f := Flatten(cs);
    var k := FirstMatchIndex(f, period);
    if k < |f| {
      var i, j := FlattenIndex(cs, k);
      assert f[k] == (cs[i].team, cs[i].linescores[j]);
    } else {
      forall i, j | 0 <= i < |cs| && 0 <= j < |cs[i].linescores|
        ensures !(cs[i].linescores[j].period == period && cs[i].linescores[j].isBatting)
      {
        var p := InFlatten(cs, i, j);
        assert !BatsIn(f[p], period);
      }
    }
  }

  lemma {:induction false} FlattenIndex(cs: seq<Competitor>, k: nat) returns (i: nat, j: nat)
    requires k < |Flatten(cs)|
    ensures i < |cs| && j < |cs[i].linescores|
    ensures Flatten(cs)[k] == (cs[i].team, cs[i].linescores[j])
  {
    if k < |Pairs(cs[0])| {
      i, j := 0, k;
    } else {
      var i', j' := FlattenIndex(cs[1..], k - |Pairs(cs[0])|);
      i, j := i' + 1, j';
    }
  }

  lemma {:induction false} InFlatten(cs: seq<Competitor>, i: nat, j: nat) returns (p: nat)
    requires i < |cs| && j < |cs[i].linescores|
    ensures p < |Flatten(cs)| && Flatten(cs)[p] == (cs[i].team, cs[i].linescores[j])
  {
    if i == 0 {
      p := j;
    } else {
      var p' := InFlatten(cs[1..], i - 1, j);
      p := |Pairs(cs[0])| + p';
    }
  }

  /** Competitions after the first are never searched. */
  lemma OnlyFirstCompetitionSearched(h: MatchHeader, others: seq<Competition>, period: int)
    requires |h.competitions| > 0
    ensures BattingLinescoreForPeriod(h.(competitions := [h.competitions[0]] + others), period)
            == BattingLinescoreForPeriod(h, period)
  {
  }
}
