/** A team's line-up for a match: the players, each with a captain flag, a fielding
    position and one record per period played. */
module Rosters {
  import opened Wrappers
  import opened Linescores

  datatype Athlete = Athlete(displayName: string)

  datatype Position = Position(name: string, abbreviation: Option<string>)

  /** `MatchPlayer`, with the fields the scorecard reads. */
  datatype Player = Player(captain: bool, athlete: Athlete, position: Position, linescores: seq<PeriodRecord>)

  datatype Roster = Roster(players: seq<Player>)

  /** `MatchPlayer.keeper`: the position abbreviation is exactly "WK". */
  function Keeper(p: Player): (r: bool)
    ensures r <==> p.position.abbreviation == Some("WK")
  {
    p.position.abbreviation == Some("WK")
  }

  /** `MatchPlayer.athlete_name`. */
  function AthleteName(p: Player): (r: string)
    ensures r == p.athlete.displayName
  {
    p.athlete.displayName
  }

  /** A missing abbreviation, or one in another case, does not make a keeper. */
  lemma KeeperIsExact(p: Player)
    requires p.position.abbreviation in {None, Some("wk"), Some("Wk"), Some("WK ")}
    ensures !Keeper(p)
  {
  }
}
