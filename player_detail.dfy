/** The presentation state of the player-detail screen (`PlayerDetailViewModel`): a
    view model bound to one player id that requests that player's season averages and
    keeps the first row it receives. */
module PlayerDetail {
  import opened Text
  import opened API
  import opened StatsModel
  import opened PlayerModel

  /** `season`: "Current" for the zero season, otherwise the span of the season's two
      years. No non-zero season is labelled "Current". */
  function SeasonLabel(season: int): (r: string)
    ensures r == "Current" <==> season == 0
    ensures season != 0 ==> r == IntToString(season) + " - " + IntToString(season + 1)
  {
    if season == 0 then "Current"
    else
      var first := IntToString(season);
      var r := first + " - " + IntToString(season + 1);
      assert r[|first|] == ' ';
      assert forall i :: 0 <= i < 7 ==> "Current"[i] != ' ';
      r
  }

  lemma NoSpaceInDecimal(n: int)
    ensures forall i :: 0 <= i < |IntToString(n)| ==> IntToString(n)[i] != ' '
  {
  }

  /** Different seasons get different labels, so the label identifies the season. */
  lemma SeasonLabelInjective(a: int, b: int)
    requires SeasonLabel(a) == SeasonLabel(b)
    ensures a == b
  {
    if a != 0 && b != 0 {
      var r := SeasonLabel(a);
      var x, y := IntToString(a), IntToString(b);
      NoSpaceInDecimal(a);
      NoSpaceInDecimal(b);
      assert r == x + " - " + IntToString(a + 1);
      assert r == y + " - " + IntToString(b + 1);
      assert r[|x|] == ' ' && r[|y|] == ' ';
      if |x| < |y| {
        assert false;
      } else if |y| < |x| {
        assert false;
      } else {
        assert x == r[..|x|] == y;
        IntToStringInjective(a, b);
      }
    }
  }

  /** The two fields the completion writes. */
  datatype DetailState = DetailState(stats: GameStats, showFetchErrorMessage: bool)

  const InitialDetail := DetailState(ZeroStats(), false)

  /** The `fetchStats` completion: the first row of a non-empty response replaces the
      stats, an empty response changes nothing, a failure raises the flag. */
  function StatsFetched(d: DetailState, result: APIResult<StatsContainer>): (e: DetailState)
    ensures result.Success? && result.value.data != [] ==>
      e.stats == result.value.data[0] && e.showFetchErrorMessage == d.showFetchErrorMessage
    ensures result.Success? && result.value.data == [] ==> e == d
    ensures result.Failure? ==> e.stats == d.stats && e.showFetchErrorMessage
  {
    match result
    case Success(container) =>
      if container.data == [] then d else d.(stats := container.data[0])
    case Failure(_) =>
      d.(showFetchErrorMessage := true)
  }

  /** The state after completions arrive in the given order. */
  function RunFetches(d: DetailState, results: seq<APIResult<StatsContainer>>): DetailState
    decreases |results|
  {
    if results == [] then d else RunFetches(StatsFetched(d, results[0]), results[1..])
  }

  predicate Loads(result: APIResult<StatsContainer>) {
    result.Success? && result.value.data != []
  }

  /** The last completion with data wins: after a run the stats are the first row of the
      last non-empty response, or unchanged if there was none, and the flag is raised
      exactly when it was raised before or some completion failed. */
  lemma {:induction false} LastCompletionWins(d: DetailState, results: seq<APIResult<StatsContainer>>)
    ensures (forall i :: 0 <= i < |results| ==> !Loads(results[i])) ==>
      RunFetches(d, results).stats == d.stats
    ensures forall i :: (0 <= i < |results| && Loads(results[i])
                         && forall j :: i < j < |results| ==> !Loads(results[j])) ==>
      RunFetches(d, results).stats == results[i].value.data[0]
    ensures RunFetches(d, results).showFetchErrorMessage
      <==> d.showFetchErrorMessage || exists i :: 0 <= i < |results| && results[i].Failure?
    decreases |results|
  {
    if results != [] {
      var e := StatsFetched(d, results[0]);
      var rest := results[1..];
      LastCompletionWins(e, rest);
      assert forall i :: 1 <= i < |results| ==> results[i] == rest[i - 1];
      forall i | 0 <= i < |results| && Loads(results[i])
        && (forall j :: i < j < |results| ==> !Loads(results[j]))
        ensures RunFetches(d, results).stats == results[i].value.data[0]
      {
        if i == 0 {
          assert forall j :: 0 <= j < |rest| ==> !Loads(rest[j]);
        } else {
          assert Loads(rest[i - 1]);
          assert forall j :: i - 1 < j < |rest| ==> !Loads(rest[j]);
        }
      }
    }
  }

  /** The mock service's row for player 237 is loaded and labelled 2018 - 2019. */
  lemma MockStatsLoaded()
    ensures StatsFetched(InitialDetail, Success(StatsContainer([MockStats]))).stats.gamesPlayed == 37
    ensures SeasonLabel(MockStats.season) == "2018 - 2019"
  {
  }

  /** The detail screen of a player is bound to the player's `stringID`, which parses
      back to the player's id. */
  method DetailFor(player: PlayerInfo) returns (viewModel: PlayerDetailViewModel)
    ensures fresh(viewModel)
    ensures viewModel.playerID == StringID(player) && ParseInt(viewModel.playerID) == Some(player.id)
    ensures viewModel.State() == InitialDetail
  {
    viewModel := new PlayerDetailViewModel(StringID(player));
  }

  /** `PlayerDetailViewModel`. */
  class PlayerDetailViewModel {
    const playerID: string
    var stats: GameStats
    var showFetchErrorMessage: bool

    function State(): DetailState
      reads this
    {
      DetailState(stats, showFetchErrorMessage)
    }

    constructor (playerID: string)
      ensures this.playerID == playerID
      ensures stats == ZeroStats() && stats.gamesPlayed == 0 && stats.season == 0 && stats.playerID == 0
      ensures !showFetchErrorMessage
      ensures State() == InitialDetail
    {
      this.playerID := playerID;
      stats := ZeroStats();
      showFetchErrorMessage := false;
    }

    /** `season`. */
    function Season(): (r: string)
      reads this
      ensures r == "Current" <==> stats.season == 0
      ensures stats.season != 0 ==> r == IntToString(stats.season) + " - " + IntToString(stats.season + 1)
    {
      SeasonLabel(stats.season)
    }

    /** `statsURL`: the season-averages endpoint with the one query item naming the player. */
    function StatsURL(): (u: URLComponents)
      ensures u.scheme == Scheme && u.host == Host && u.path == "/api/v1/season_averages"
      ensures u.queryItems == [QueryItem("player_ids[]", playerID)]
    {
      URLComponents(Scheme, Host, "/api/v1/season_averages", [QueryItem("player_ids[]", playerID)])
    }

    /** `fetchStats` up to the service call: the request it issues. */
    method FetchStats() returns (request: URLComponents)
      ensures request.queryItems == [QueryItem("player_ids[]", playerID)]
      ensures request == StatsURL()
    {
      request := StatsURL();
    }

    /** The completion `fetchStats` hands to the service. */
    method OnStatsFetched(result: APIResult<StatsContainer>)
      modifies this
      ensures Loads(result) ==> stats == result.value.data[0]
      ensures Loads(result) ==> showFetchErrorMessage == old(showFetchErrorMessage)
      ensures result.Success? && result.value.data == [] ==>
        stats == old(stats) && showFetchErrorMessage == old(showFetchErrorMessage)
      ensures result.Failure? ==> stats == old(stats) && showFetchErrorMessage
      ensures State() == StatsFetched(old(State()), result)
    {
      match result {
        case Success(container) =>
          if container.data != [] {
            stats := container.data[0];
          }
        case Failure(error) =>
          showFetchErrorMessage := true;
      }
    }
  }
}
