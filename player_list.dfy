/** The presentation state of the player-search screen (`PlayerListViewModel`).
    The debounced validity pipeline is an explicit `DebounceFired` step, and the API
    call is split into the request a button tap issues and the completion that later
    delivers its result. */
module PlayerList {
  import opened Text
  import opened Sequences
  import opened API
  import opened PlayerModel

  const CharacterLimitText := "Search must contain at least 2 characters"
  const NoResultsText := "No results found"

  /** The map of `isSearchValidPublisher`: the text trimmed of whitespace and newlines
      keeps at least two characters, that is, the text holds at least two
      non-whitespace characters. */
  function IsSearchValid(text: string): (b: bool)
    ensures b <==> |Trim(text)| >= 2
    ensures b <==> CountNonWhitespace(text) >= 2
  {
    TrimmedLengthAtLeastTwo(text);
    |Trim(text)| >= 2
  }

  /** The map of the message subscription, given the emitted flag and the current text. */
  function LimitMessage(valid: bool, text: string): (m: string)
    ensures m == "" <==> valid || |text| == 0
    ensures m == "" || m == CharacterLimitText
  {
    if valid || |text| == 0 then "" else CharacterLimitText
  }

  /** `playerURL`: the players endpoint, one hundred per page, searching for `nameSearch`. */
  function PlayerURL(nameSearch: string): (u: URLComponents)
    ensures u.scheme == Scheme && u.host == Host && u.path == "/api/v1/players"
    ensures |u.queryItems| == 2
    ensures u.queryItems[0] == QueryItem("per_page", "100")
    ensures u.queryItems[1] == QueryItem("search", nameSearch)
  {
    URLComponents(Scheme, Host, "/api/v1/players",
      [QueryItem("per_page", "100"), QueryItem("search", nameSearch)])
  }

  predicate HasPosition(p: PlayerInfo) {
    p.position != ""
  }

  /** The players of a response that have a position listed, in response order. */
  function ActivePlayers(data: seq<PlayerInfo>): (r: seq<PlayerInfo>)
    ensures |r| <= |data|
    ensures forall i :: 0 <= i < |r| ==> r[i].position != ""
  {
    Filter(HasPosition, data)
  }

  /** `ActivePlayers` keeps exactly the players with a position, in order: it is the
      subsequence of `data` at the positions whose player has a non-empty position. */
  lemma ActivePlayersSelection(data: seq<PlayerInfo>) returns (idx: seq<nat>)
    ensures SubsequenceAt(ActivePlayers(data), data, idx)
    ensures forall i :: 0 <= i < |data| ==> (data[i].position != "" <==> i in idx)
  {
    idx := FilterPositions(HasPosition, data);
  }

  /** The case-insensitive name match of `filtered`: the lowercased name occurs somewhere
      in the lowercased full name. */
  function MatchesName(p: PlayerInfo, name: string): (r: bool)
    ensures r <==> exists k :: OccursAt(Lowercased(FullName(p)), Lowercased(name), k)
  {
    ContainsIff(Lowercased(FullName(p)), Lowercased(name));
    Contains(Lowercased(FullName(p)), Lowercased(name))
  }

  /** `players.filtered(name)`: everything for an empty name, otherwise the players whose
      lowercased full name contains the lowercased name. */
  function Filtered(players: seq<PlayerInfo>, name: string): (r: seq<PlayerInfo>)
    ensures name == "" ==> r == players
    ensures |r| <= |players|
    ensures name != "" ==> forall i :: 0 <= i < |r| ==> MatchesName(r[i], name)
  {
    if name == "" then players else Filter(p => MatchesName(p, name), players)
  }

  /** `filtered` keeps, in order, exactly the players whose name matches. */
  lemma FilteredSelection(players: seq<PlayerInfo>, name: string) returns (idx: seq<nat>)
    requires name != ""
    ensures SubsequenceAt(Filtered(players, name), players, idx)
    ensures forall i :: 0 <= i < |players| ==> (MatchesName(players[i], name) <==> i in idx)
  {
    idx := FilterPositions(p => MatchesName(p, name), players);
  }

  lemma {:induction false} LowerIdempotent(s: string)
    ensures Lowercased(Lowercased(s)) == Lowercased(s)
  {
    var l := Lowercased(s);
    assert forall i :: 0 <= i < |s| ==> Lower(l[i]) == l[i];
  }

  /** The display filter ignores case: names that lowercase alike select the same players. */
  lemma FilteredIgnoresCase(players: seq<PlayerInfo>, a: string, b: string)
    requires Lowercased(a) == Lowercased(b)
    ensures Filtered(players, a) == Filtered(players, b)
  {
    if a != "" {
      FilterCongruent(p => MatchesName(p, a), p => MatchesName(p, b), players);
    }
  }

  /** Filtering by a name or by its lowercased form selects the same players. */
  lemma FilteredByLowercasedName(players: seq<PlayerInfo>, name: string)
    ensures Filtered(players, name) == Filtered(players, Lowercased(name))
  {
    LowerIdempotent(name);
    FilteredIgnoresCase(players, name, Lowercased(name));
  }

  /** The state of the five `@Published` fields. */
  datatype ListState = ListState(
    players: seq<PlayerInfo>,
    nameSearch: string,
    isSearchValid: bool,
    characterLimitMessage: string,
    showFetchErrorMessage: bool)

  /** The fields' initial values. */
  const Initial := ListState([], "", false, "", false)

  /** What can happen to the screen. */
  datatype Action =
    | SetText(text: string)                                // the text field writes `nameSearch`
    | DebounceFired                                        // the 0.3 s debounce delivers the text
    | TapSearch                                            // `searchButtonTapped`
    | TapClearList                                         // `clearListButtonTapped`
    | TapClearSearch                                       // `clearSearchButtonTapped`
    | Completed(result: APIResult<PlayerContainer>)        // the `fetchPlayers` completion runs

  /** Both subscriptions of the validity pipeline delivering the current text. */
  function Settle(s: ListState): (t: ListState)
    ensures t.isSearchValid <==> CountNonWhitespace(s.nameSearch) >= 2
    ensures t.characterLimitMessage == "" <==> t.isSearchValid || s.nameSearch == ""
    ensures t.characterLimitMessage == "" || t.characterLimitMessage == CharacterLimitText
    ensures t.players == s.players && t.nameSearch == s.nameSearch
    ensures t.showFetchErrorMessage == s.showFetchErrorMessage
  {
    var valid := IsSearchValid(s.nameSearch);
    s.(isSearchValid := valid, characterLimitMessage := LimitMessage(valid, s.nameSearch))
  }

  /** The `fetchPlayers` completion. */
  function PlayersFetched(s: ListState, result: APIResult<PlayerContainer>): (t: ListState)
    ensures result.Success? ==>
      t.players == ActivePlayers(result.value.data)
      && t.characterLimitMessage == (if result.value.data == [] then NoResultsText else s.characterLimitMessage)
      && t.showFetchErrorMessage == s.showFetchErrorMessage
    ensures result.Failure? ==>
      t.showFetchErrorMessage && t.players == s.players
      && t.characterLimitMessage == s.characterLimitMessage
    ensures t.nameSearch == s.nameSearch && t.isSearchValid == s.isSearchValid
  {
    match result
    case Success(container) =>
      var t := s.(players := ActivePlayers(container.data));
      if container.data == [] then t.(characterLimitMessage := NoResultsText) else t
    case Failure(_) =>
      s.(showFetchErrorMessage := true)
  }

  /** One action. Only the debounce writes `isSearchValid`; only the debounce and the
      completion write the message; only the completion and the clear-list tap write
      `players`; the completion leaves the text alone; the flag is raised by a failed
      completion and never lowered. */
  function Step(s: ListState, a: Action): (t: ListState)
    ensures !a.DebounceFired? ==> t.isSearchValid == s.isSearchValid
    ensures !a.DebounceFired? && !a.Completed? ==> t.characterLimitMessage == s.characterLimitMessage
    ensures !a.Completed? && !a.TapClearList? ==> t.players == s.players
    ensures a.Completed? ==> t.nameSearch == s.nameSearch
    ensures t.showFetchErrorMessage <==> s.showFetchErrorMessage || (a.Completed? && a.result.Failure?)
  {
    match a
    case SetText(text) => s.(nameSearch := text)
    case DebounceFired => Settle(s)
    case TapSearch => s.(nameSearch := "")
    case TapClearList => s.(nameSearch := "", players := [])
    case TapClearSearch => s.(nameSearch := "")
    case Completed(result) => PlayersFetched(s, result)
  }

  /** The state after the actions, in order. */
  function Run(s: ListState, actions: seq<Action>): (t: ListState)
    ensures (forall i :: 0 <= i < |actions| ==> !actions[i].DebounceFired?) ==>
      t.isSearchValid == s.isSearchValid
    ensures (forall i :: 0 <= i < |actions| ==> !actions[i].Completed? && !actions[i].TapClearList?) ==>
      t.players == s.players
    decreases |actions|
  {
    if actions == [] then s
    else
      assert forall i :: 1 <= i < |actions| ==> actions[1..][i - 1] == actions[i];
      Run(Step(s, actions[0]), actions[1..])
  }

  /** The state the screen keeps: only players with a position are listed, and the
      message is one of the three texts the view model writes. */
  predicate Valid(s: ListState) {
    (forall i :: 0 <= i < |s.players| ==> s.players[i].position != "")
    && (s.characterLimitMessage == "" || s.characterLimitMessage == CharacterLimitText
        || s.characterLimitMessage == NoResultsText)
  }

  lemma InitialValid()
    ensures Valid(Initial)
  {
  }

  lemma StepPreservesValid(s: ListState, a: Action)
    requires Valid(s)
    ensures Valid(Step(s, a))
  {
  }

  /** Every reachable state is valid. */
  lemma {:induction false} RunPreservesValid(s: ListState, actions: seq<Action>)
    requires Valid(s)
    ensures Valid(Run(s, actions))
    decreases |actions|
  {
    if actions != [] {
      StepPreservesValid(s, actions[0]);
      RunPreservesValid(Step(s, actions[0]), actions[1..]);
    }
  }

  predicate IsFailure(a: Action) {
    a.Completed? && a.result.Failure?
  }

  /** The error flag is never cleared: after a run it is set exactly when it was set
      before or some completion in the run delivered a failure. */
  lemma {:induction false} ErrorFlagAfterRun(s: ListState, actions: seq<Action>)
    ensures Run(s, actions).showFetchErrorMessage
      <==> s.showFetchErrorMessage || exists i :: 0 <= i < |actions| && IsFailure(actions[i])
    decreases |actions|
  {
    if actions != [] {
      ErrorFlagAfterRun(Step(s, actions[0]), actions[1..]);
      assert forall i :: 1 <= i < |actions| ==> actions[i] == actions[1..][i - 1];
      if IsFailure(actions[0]) {
        assert Step(s, actions[0]).showFetchErrorMessage;
      }
    }
  }

  ghost predicate Delivered(a: Action, p: PlayerInfo) {
    a.Completed? && a.result.Success? && p in a.result.value.data
  }

  /** Every listed player was listed before the run or came in a successful response. */
  lemma {:induction false} PlayersComeFromResponses(s: ListState, actions: seq<Action>, p: PlayerInfo)
    requires p in Run(s, actions).players
    ensures p in s.players || exists i :: 0 <= i < |actions| && Delivered(actions[i], p)
    decreases |actions|
  {
    if actions != [] {
      var t := Step(s, actions[0]);
      PlayersComeFromResponses(t, actions[1..], p);
      if p in t.players && p !in s.players {
        var a := actions[0];
        assert a.Completed? && a.result.Success?;
        FilterMembers(HasPosition, a.result.value.data);
        assert Delivered(actions[0], p);
      } else if p !in t.players {
        var i :| 0 <= i < |actions[1..]| && Delivered(actions[1..][i], p);
        assert Delivered(actions[i + 1], p);
      }
    }
  }

  /** Whitespace-only text is rejected and, unless empty, shows the length message. */
  lemma WhitespaceOnlySearch(s: ListState)
    requires s.nameSearch != []
    requires forall i :: 0 <= i < |s.nameSearch| ==> IsWhitespace(s.nameSearch[i])
    ensures !Settle(s).isSearchValid
    ensures Settle(s).characterLimitMessage == CharacterLimitText
  {
    CountAllWhitespace(s.nameSearch);
  }

  /** Tapping search clears the text; if the empty response arrives before the debounce
      delivers that empty text, the debounce then erases "No results found". */
  lemma NoResultsErasedByLaterDebounce(s: ListState)
    ensures Run(s, [TapSearch, Completed(Success(PlayerContainer([])))]).characterLimitMessage == NoResultsText
    ensures Run(s, [TapSearch, Completed(Success(PlayerContainer([]))), DebounceFired]).characterLimitMessage == ""
    ensures Run(s, [TapSearch, DebounceFired, Completed(Success(PlayerContainer([])))]).characterLimitMessage == NoResultsText
  {
    var empty := Completed(Success(PlayerContainer([])));
    assert [TapSearch, empty][1..] == [empty];
    assert [TapSearch, empty, DebounceFired][1..] == [empty, DebounceFired];
    assert [empty, DebounceFired][1..] == [DebounceFired];
    assert [TapSearch, DebounceFired, empty][1..] == [DebounceFired, empty];
    assert [DebounceFired, empty][1..] == [empty];
  }

  /** The mock service's one-player response lists that player. */
  lemma MockResponseListsLeBron()
    ensures PlayersFetched(Initial, Success(PlayerContainer([LeBron]))).players == [LeBron]
  {
    FilterAll(HasPosition, [LeBron]);
  }

  /** `PlayerListViewModel`. */
  class PlayerListViewModel {
    var players: seq<PlayerInfo>
    var nameSearch: string
    var isSearchValid: bool
    var characterLimitMessage: string
    var showFetchErrorMessage: bool

    function State(): ListState
      reads this
    {
      ListState(players, nameSearch, isSearchValid, characterLimitMessage, showFetchErrorMessage)
    }

    constructor ()
      ensures State() == Initial && Valid(State())
    {
      players := [];
      nameSearch := "";
      isSearchValid := false;
      characterLimitMessage := "";
      showFetchErrorMessage := false;
    }

    /** The text field writing `nameSearch`. */
    method SetNameSearch(text: string)
      requires Valid(State())
      modifies this
      ensures nameSearch == text
      ensures players == old(players) && isSearchValid == old(isSearchValid)
      ensures characterLimitMessage == old(characterLimitMessage)
      ensures showFetchErrorMessage == old(showFetchErrorMessage)
      ensures State() == Step(old(State()), SetText(text)) && Valid(State())
    {
      nameSearch := text;
    }

    /** The debounce delivering the current text to both subscriptions. */
    method DebounceFired()
      requires Valid(State())
      modifies this
      ensures isSearchValid <==> |Trim(nameSearch)| >= 2
      ensures characterLimitMessage == (if isSearchValid || nameSearch == "" then "" else CharacterLimitText)
      ensures players == old(players) && nameSearch == old(nameSearch)
      ensures showFetchErrorMessage == old(showFetchErrorMessage)
      ensures State() == Step(old(State()), Action.DebounceFired) && Valid(State())
    {
      ghost var before := State();
      ghost var after := Settle(before);
      StepPreservesValid(before, Action.DebounceFired);
      isSearchValid := IsSearchValid(nameSearch);
      characterLimitMessage := LimitMessage(isSearchValid, nameSearch);
      assert State() == after;
    }

    /** `fetchPlayers` up to the service call: the request it issues. */
    method FetchPlayers() returns (request: URLComponents)
      ensures request.queryItems == [QueryItem("per_page", "100"), QueryItem("search", nameSearch)]
      ensures request == PlayerURL(nameSearch)
    {
      request := PlayerURL(nameSearch);
    }

    /** `searchButtonTapped`: issues the request for the current text, then clears it. */
    method SearchButtonTapped() returns (request: URLComponents)
      requires Valid(State())
      modifies this
      ensures request.queryItems == [QueryItem("per_page", "100"), QueryItem("search", old(nameSearch))]
      ensures request == PlayerURL(old(nameSearch))
      ensures nameSearch == ""
      ensures players == old(players) && isSearchValid == old(isSearchValid)
      ensures characterLimitMessage == old(characterLimitMessage)
      ensures showFetchErrorMessage == old(showFetchErrorMessage)
      ensures State() == Step(old(State()), TapSearch) && Valid(State())
    {
      request := FetchPlayers();
      nameSearch := "";
    }

    method ClearListButtonTapped()
      requires Valid(State())
      modifies this
      ensures nameSearch == "" && players == []
      ensures isSearchValid == old(isSearchValid)
      ensures characterLimitMessage == old(characterLimitMessage)
      ensures showFetchErrorMessage == old(showFetchErrorMessage)
      ensures State() == Step(old(State()), TapClearList) && Valid(State())
    {
      nameSearch := "";
      players := [];
    }

    method ClearSearchButtonTapped()
      requires Valid(State())
      modifies this
      ensures nameSearch == ""
      ensures players == old(players) && isSearchValid == old(isSearchValid)
      ensures characterLimitMessage == old(characterLimitMessage)
      ensures showFetchErrorMessage == old(showFetchErrorMessage)
      ensures State() == Step(old(State()), TapClearSearch) && Valid(State())
    {
      nameSearch := "";
    }

    /** The completion `fetchPlayers` hands to the service. */
    method OnPlayersFetched(result: APIResult<PlayerContainer>)
      requires Valid(State())
      modifies this
      ensures result.Success? ==> players == ActivePlayers(result.value.data)
      ensures result.Success? && result.value.data == [] ==> characterLimitMessage == NoResultsText
      ensures result.Success? && result.value.data != [] ==> characterLimitMessage == old(characterLimitMessage)
      ensures result.Success? ==> showFetchErrorMessage == old(showFetchErrorMessage)
      ensures result.Failure? ==>
        showFetchErrorMessage && players == old(players) && characterLimitMessage == old(characterLimitMessage)
      ensures nameSearch == old(nameSearch) && isSearchValid == old(isSearchValid)
      ensures State() == Step(old(State()), Completed(result)) && Valid(State())
    {
      match result {
        case Success(container) =>
          players := ActivePlayers(container.data);
          if container.data == [] {
            characterLimitMessage := NoResultsText;
          }
        case Failure(error) =>
          showFetchErrorMessage := true;
      }
    }
  }
}
