/** One player's record for one period (innings) of a match: the period number, a
    media id and the tree of named statistics, reached only through a lookup whose
    body is not part of this model. */
module Linescores {
  import opened Payload

  /** The scalar a statistics lookup returns: `int | str | float`, `bool` or `None`. */
  datatype Scalar =
    | NoneVal
    | BoolVal(b: bool)
    | IntVal(i: int)
    | FloatVal(r: real)
    | StrVal(s: string)

  /** `statistics.find(name)` (and the legacy `gs(name)`), taken as given: a function
      of the statistics tree and the requested name. */
  type Lookup = (Json, string) -> Scalar

  /** `PlayerMatchInningsDetails` / `LinescorePeriod`. */
  datatype PeriodRecord = PeriodRecord(period: int, mediaId: int, statistics: Json)

  /** `record.find(name)`: delegates to the statistics tree. */
  function Find(rec: PeriodRecord, find: Lookup, name: string): (v: Scalar)
    ensures v == find(rec.statistics, name)
  {
    find(rec.statistics, name)
  }

  /** `record.batted`: the raw result of looking up "batted", not coerced to a bool. */
  function Batted(rec: PeriodRecord, find: Lookup): (v: Scalar)
    ensures v == find(rec.statistics, "batted")
  {
    Find(rec, find, "batted")
  }

  /** `record.bowled`: the raw result of looking up "bowled", not coerced to a bool. */
  function Bowled(rec: PeriodRecord, find: Lookup): (v: Scalar)
    ensures v == find(rec.statistics, "bowled")
  {
    Find(rec, find, "bowled")
  }

  /** The two flags depend on nothing but the statistics tree: records that differ only
      in period or media id have the same flags. */
  lemma FlagsReadOnlyStatistics(a: PeriodRecord, b: PeriodRecord, find: Lookup)
    requires a.statistics == b.statistics
    ensures Batted(a, find) == Batted(b, find) && Bowled(a, find) == Bowled(b, find)
  {
  }
}
