/** The per-season averages decoded from the `season_averages` endpoint. Only the
    integer fields and the minutes string are kept; the `Double` averages are not
    part of this model. */
module StatsModel {

  /** `GameStats`: every field defaults to zero, so `GameStats()` is the "not loaded" record. */
  datatype GameStats = GameStats(gamesPlayed: int, playerID: int, season: int, min: string)

  /** `GameStats()`, the record shown before any stats arrive: every field takes its
      declared default. */
  function ZeroStats(): (g: GameStats)
    ensures g.gamesPlayed == 0 && g.playerID == 0 && g.season == 0
    ensures g.min == "0"
  {
    GameStats(0, 0, 0, "0")
  }

  /** The `{ "data": [...] }` wrapper of a season-averages response. */
  datatype StatsContainer = StatsContainer(data: seq<GameStats>)

  /** The row the mock service returns for player 237. */
  const MockStats := GameStats(37, 237, 2018, "34:46")
}
