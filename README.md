# BasketballStats presentation logic in Dafny

This project models the view-model layer of the BasketballStats iOS client. The client
searches the balldontlie API for basketball players, lists the active ones and shows one
player's season averages. The model covers, and proves properties of:

- the player-search controller, `PlayerListViewModel` (`player_list.dfy`). It is a class
  with the five published fields `players`, `nameSearch`, `isSearchValid`,
  `characterLimitMessage` and `showFetchErrorMessage`. Its methods are the text-field
  write, the debounced validity recomputation, the three button handlers, the request
  `fetchPlayers` issues, and the completion that handles the service's result. Beside the
  class is a value model of the same state (`ListState`, `Step`, `Run`). Lemmas over
  sequences of actions use it, and every method's contract ties the object's new state to
  `Step` of its old state. The pure display filter `filtered` is modelled too.
- the player-detail controller, `PlayerDetailViewModel` (`player_detail.dfy`). It is a
  class with a `const playerID`, so no operation can change it. It also holds `stats`,
  which starts as the zero record, and the error flag. The model covers the season
  label, the stats request and the stats completion. A lemma proves that the last
  completion with data decides `stats`.
- the player record and its derived strings `stringID`, `fullName` and `infoText`
  (`player_model.dfy`). `PlayerInfo` and `Team` have only `let` fields, so they are
  datatypes here and cannot be changed after construction.
- the supporting pieces: Foundation's trimming of whitespace and newlines, lowercasing,
  substring search, and the decimal rendering of an `Int` with its parse
  (`text.dfy`); `Array.filter` and what it means to keep a subsequence (`sequences.dfy`);
  the result, error and query-item types of the API service (`api.dfy`); and the integer
  part of `GameStats` (`stats_model.dfy`).

The network call is not modelled as I/O. A method returns the request, as the
`URLComponents` fields the view model sets: scheme, host, path and the ordered query
items. A separate method takes the `Result` that the completion receives, either
`Success(container)` or `Failure(.error(description))`. The 0.3 s debounce is an explicit
step, `DebounceFired`, that recomputes `isSearchValid` and `characterLimitMessage` from
the current text.

Three details of the code are easy to get wrong; the model follows the code:

- The length message is `"Search must contain at least 2 characters"`, with no final
  period (PlayerListViewModel.swift line 46).
- Duplicate suppression in the code works on the text. It does not work on the validity
  class, and a settle step always recomputes (see Left out).
- The players request always carries two query items, `per_page=100` and
  `search=<text>`, even when the text is empty (lines 80-83).

## Model

| member | source | states |
|---|---|---|
| `Text.IsWhitespace` | BasketballStats/ViewModel/PlayerListViewModel.swift:26 | membership in `.whitespacesAndNewlines`: the controls U+0009 to U+000D, U+0085, and the space, line and paragraph separators of Unicode |
| `Text.TrimLeading` | BasketballStats/ViewModel/PlayerListViewModel.swift:26 | the result is a suffix of the text, everything removed is whitespace, it starts with a non-whitespace character or is empty, and it keeps every non-whitespace character |
| `Text.TrimTrailing` | BasketballStats/ViewModel/PlayerListViewModel.swift:26 | the mirror image: a prefix, only whitespace removed, ends with a non-whitespace character or is empty, keeps every non-whitespace character |
| `Text.Trim` | BasketballStats/ViewModel/PlayerListViewModel.swift:26 | `trimmingCharacters(in: .whitespacesAndNewlines)`: the result is the contiguous block of the text that starts where the leading whitespace ends, with only whitespace before and after it, empty or starting and ending with non-whitespace, with the same count of non-whitespace characters |
| `Text.TrimmedLengthAtLeastTwo` | BasketballStats/ViewModel/PlayerListViewModel.swift:26 | the trimmed text has at least two characters exactly when the text holds at least two non-whitespace characters |
| `Text.TrimAllWhitespace` | BasketballStats/ViewModel/PlayerListViewModel.swift:26 | whitespace-only text trims to the empty string |
| `Text.CountAllWhitespace` | BasketballStats/ViewModel/PlayerListViewModel.swift:26 | whitespace-only text holds no non-whitespace character |
| `Text.Lowercased` | BasketballStats/ViewModel/PlayerListViewModel.swift:121 | `lowercased()` keeps the length and maps every character through `Lower` |
| `Text.Lower` | BasketballStats/ViewModel/PlayerListViewModel.swift:121 | upper-case ASCII letters move to lower case, every other character is kept |
| `Text.Contains` | BasketballStats/ViewModel/PlayerListViewModel.swift:121 | `contains`: the needle is a prefix of the haystack or occurs in its tail; `ContainsIff` proves this is the same as occurring at some offset |
| `Text.ContainsIff` | BasketballStats/ViewModel/PlayerListViewModel.swift:121 | `contains` holds exactly when the needle occurs at some offset of the haystack |
| `Text.IntToString` | BasketballStats/Model/PlayerModel.swift:32 | `String(id)` is non-empty and all digits, with a leading minus sign for negative ids, and has no leading zero: a first `'0'` only in `"0"` itself, and none after the sign |
| `Text.IntToStringRoundTrip` | BasketballStats/Model/PlayerModel.swift:32 | parsing `String(n)` back gives `n` |
| `Text.IntToStringInjective` | BasketballStats/Model/PlayerModel.swift:32 | distinct integers render differently |
| `Text.DigitsOfNat` | BasketballStats/Model/PlayerModel.swift:32 | the digits of a natural number read back as that number |
| `Sequences.Filter` | BasketballStats/ViewModel/PlayerListViewModel.swift:98 | `filter` is never longer than its input, keeps only elements satisfying the predicate, and keeps everything exactly when every element satisfies it |
| `Sequences.FilterPositions` | BasketballStats/ViewModel/PlayerListViewModel.swift:98 | `filter`'s result is the subsequence of the input at strictly increasing positions, and those are exactly the positions whose element satisfies the predicate |
| `Sequences.FilterMembers` | BasketballStats/ViewModel/PlayerListViewModel.swift:98 | an element is in the result exactly when it is in the input and satisfies the predicate |
| `Sequences.FilterSubMultiset` | BasketballStats/ViewModel/PlayerListViewModel.swift:98 | no element occurs in the result more often than in the input |
| `Sequences.FilterAll` | BasketballStats/ViewModel/PlayerListViewModel.swift:98 | filtering by a predicate every element satisfies returns the input |
| `Sequences.FilterCongruent` | BasketballStats/ViewModel/PlayerListViewModel.swift:121 | predicates that agree on every element filter alike |
| `PlayerModel.StringID` | BasketballStats/Model/PlayerModel.swift:31-33 | `stringID` is non-empty, digits only after a minus sign for a negative id, with no leading zero (a first `'0'` only in `"0"` for id 0), and parses back to `id` |
| `PlayerModel.FullName` | BasketballStats/Model/PlayerModel.swift:35-37 | `fullName` has length first + last + 1, starts with `firstName`, has a space after it, and ends with `lastName` |
| `PlayerModel.InfoText` | BasketballStats/Model/PlayerModel.swift:39-41 | `infoText` starts with `fullName`, then `" · "`, then ends with the team abbreviation |
| `PlayerModel.LeBronStrings` | BasketballStats/MockService.swift:79-102 | for the mock player, `stringID` is "237", `fullName` "LeBron James", `infoText` "LeBron James · LAL" |
| `PlayerList.IsSearchValid` | BasketballStats/ViewModel/PlayerListViewModel.swift:22-28 | valid exactly when the trimmed text has at least two characters, that is, when the text holds at least two non-whitespace characters |
| `PlayerList.LimitMessage` | BasketballStats/ViewModel/PlayerListViewModel.swift:42-48 | the message is empty exactly when the search is valid or the raw text is empty, and otherwise is the length message |
| `PlayerList.PlayerURL` | BasketballStats/ViewModel/PlayerListViewModel.swift:75-86 | the players endpoint with exactly the items `per_page=100` then `search=<text>` |
| `PlayerList.HasPosition` | BasketballStats/ViewModel/PlayerListViewModel.swift:98 | a player is kept exactly when its `position` is non-empty; `ActivePlayersSelection` proves the filter keeps exactly these |
| `PlayerList.ActivePlayers` | BasketballStats/ViewModel/PlayerListViewModel.swift:98 | no longer than the response, and every kept player has a position |
| `PlayerList.ActivePlayersSelection` | BasketballStats/ViewModel/PlayerListViewModel.swift:98 | the kept players are the order-preserving subsequence of the response at exactly the positions whose player has a non-empty position |
| `PlayerList.MatchesName` | BasketballStats/ViewModel/PlayerListViewModel.swift:121 | a player matches exactly when the lowercased name occurs at some offset of the lowercased full name |
| `PlayerList.Filtered` | BasketballStats/ViewModel/PlayerListViewModel.swift:116-123 | `filtered("")` is the array itself; otherwise the result is no longer than the array and every player in it matches |
| `PlayerList.FilteredSelection` | BasketballStats/ViewModel/PlayerListViewModel.swift:116-123 | for a non-empty name, the result is the order-preserving subsequence at exactly the matching positions |
| `PlayerList.LowerIdempotent` | BasketballStats/ViewModel/PlayerListViewModel.swift:121 | lowercasing twice is lowercasing once |
| `PlayerList.FilteredIgnoresCase` | BasketballStats/ViewModel/PlayerListViewModel.swift:121 | names that lowercase alike select the same players |
| `PlayerList.FilteredByLowercasedName` | BasketballStats/ViewModel/PlayerListViewModel.swift:121 | filtering by a name and by its lowercased form select the same players |
| `PlayerList.Settle` | BasketballStats/ViewModel/PlayerListViewModel.swift:22-50 | after the debounce, `isSearchValid` holds exactly when the text has two non-whitespace characters; the message is empty exactly when valid or the text is empty, else the length message; nothing else changes |
| `PlayerList.PlayersFetched` | BasketballStats/ViewModel/PlayerListViewModel.swift:94-112 | success replaces `players` with the active players of the response and sets "No results found" only for an empty response; failure raises the flag and keeps players and message; the text and validity never change |
| `PlayerList.Step` | BasketballStats/ViewModel/PlayerListViewModel.swift:61-112 | only the debounce writes `isSearchValid`; only the debounce and the completion write the message; only the completion and the clear-list tap write `players`; a completion leaves the text alone; the flag is raised exactly by a failed completion and never lowered |
| `PlayerList.Run` | BasketballStats/ViewModel/PlayerListViewModel.swift:61-112 | a run without a debounce leaves `isSearchValid` as it was; a run without a completion or a clear-list tap leaves `players` as it was |
| `PlayerList.InitialValid` | BasketballStats/ViewModel/PlayerListViewModel.swift:13-17 | the initial state satisfies the screen invariant |
| `PlayerList.StepPreservesValid` | BasketballStats/ViewModel/PlayerListViewModel.swift:61-113 | every action keeps the invariant: listed players have a position and the message is one of the three texts |
| `PlayerList.RunPreservesValid` | BasketballStats/ViewModel/PlayerListViewModel.swift:61-113 | the invariant holds after any sequence of actions |
| `PlayerList.ErrorFlagAfterRun` | BasketballStats/ViewModel/PlayerListViewModel.swift:105-110 | after any actions the error flag is set exactly when it was set before or some completion failed; it is never cleared |
| `PlayerList.PlayersComeFromResponses` | BasketballStats/ViewModel/PlayerListViewModel.swift:94-98 | every listed player was listed before or arrived in a successful response |
| `PlayerList.WhitespaceOnlySearch` | BasketballStats/ViewModel/PlayerListViewModel.swift:42-48 | non-empty whitespace-only text is invalid and shows the length message |
| `PlayerList.NoResultsErasedByLaterDebounce` | BasketballStats/ViewModel/PlayerListViewModel.swift:61-103 | after a search tap an empty response shows "No results found"; a debounce delivering the cleared text after it erases the message, and one before it does not |
| `PlayerList.MockResponseListsLeBron` | BasketballStatsTests/PlayerListViewModelTests.swift:32-47 | the mock one-player response lists exactly that player |
| `PlayerList.PlayerListViewModel.constructor` | BasketballStats/ViewModel/PlayerListViewModel.swift:13-17 | empty list and text, not valid, no message, no error, and the invariant holds |
| `PlayerList.PlayerListViewModel.SetNameSearch` | BasketballStats/ViewModel/PlayerListViewModel.swift:14 | only `nameSearch` changes |
| `PlayerList.PlayerListViewModel.DebounceFired` | BasketballStats/ViewModel/PlayerListViewModel.swift:22-50 | recomputes validity from the trimmed text and the message from the flag and raw text; nothing else changes |
| `PlayerList.PlayerListViewModel.FetchPlayers` | BasketballStats/ViewModel/PlayerListViewModel.swift:75-94 | issues the request with items `per_page=100`, `search=<nameSearch>` and changes nothing |
| `PlayerList.PlayerListViewModel.SearchButtonTapped` | BasketballStats/ViewModel/PlayerListViewModel.swift:61-64 | the request carries the text from before the tap, then the text is cleared; nothing else changes |
| `PlayerList.PlayerListViewModel.ClearListButtonTapped` | BasketballStats/ViewModel/PlayerListViewModel.swift:66-69 | clears the text and the list; nothing else changes |
| `PlayerList.PlayerListViewModel.ClearSearchButtonTapped` | BasketballStats/ViewModel/PlayerListViewModel.swift:71-73 | clears only the text |
| `PlayerList.PlayerListViewModel.OnPlayersFetched` | BasketballStats/ViewModel/PlayerListViewModel.swift:94-112 | the completion's effect on each field, as in `PlayersFetched`, keeping the invariant |
| `StatsModel.ZeroStats` | BasketballStats/Model/StatsModel.swift:14-19 | `GameStats()`: the games played, player id and season are 0 and the minutes are `"0"` |
| `PlayerDetail.SeasonLabel` | BasketballStats/ViewModel/PlayerDetailViewModel.swift:23-25 | "Current" exactly for season 0; otherwise the decimal season, " - ", the decimal of season + 1 |
| `PlayerDetail.NoSpaceInDecimal` | BasketballStats/ViewModel/PlayerDetailViewModel.swift:24 | a decimal rendering holds no space |
| `PlayerDetail.SeasonLabelInjective` | BasketballStats/ViewModel/PlayerDetailViewModel.swift:23-25 | different seasons get different labels |
| `PlayerDetail.StatsFetched` | BasketballStats/ViewModel/PlayerDetailViewModel.swift:81-97 | a non-empty response sets `stats` to its first row and keeps the flag; an empty response changes nothing; a failure raises the flag and keeps `stats` |
| `PlayerDetail.LastCompletionWins` | BasketballStats/ViewModel/PlayerDetailViewModel.swift:81-97 | after a run of completions `stats` is the first row of the last non-empty response, or unchanged if none, and the flag is set exactly when it was before or some completion failed |
| `PlayerDetail.MockStatsLoaded` | BasketballStatsTests/PlayerDetailViewModelTests.swift:23-37 | the mock row loads with 37 games played and its season is labelled "2018 - 2019" |
| `PlayerDetail.DetailFor` | BasketballStats/View/PlayerDetail.swift:14-17 | the detail view model of a player is bound to its `stringID`, which parses back to the player's id, and starts unloaded |
| `PlayerDetail.PlayerDetailViewModel.constructor` | BasketballStats/ViewModel/PlayerDetailViewModel.swift:12-21 | binds `playerID`; `stats` is the zero record (0 games, season 0, player 0); the flag is false |
| `PlayerDetail.PlayerDetailViewModel.Season` | BasketballStats/ViewModel/PlayerDetailViewModel.swift:23-25 | "Current" exactly when the loaded season is 0, otherwise the two-year span |
| `PlayerDetail.PlayerDetailViewModel.StatsURL` | BasketballStats/ViewModel/PlayerDetailViewModel.swift:63-72 | the season-averages endpoint with the single item `player_ids[]=<playerID>` |
| `PlayerDetail.PlayerDetailViewModel.FetchStats` | BasketballStats/ViewModel/PlayerDetailViewModel.swift:75-81 | issues exactly that one-item request and changes nothing |
| `PlayerDetail.PlayerDetailViewModel.OnStatsFetched` | BasketballStats/ViewModel/PlayerDetailViewModel.swift:81-97 | the completion's effect, as in `StatsFetched`; `playerID` is a `const` and cannot change |

## Left out

- The SwiftUI views, the app entry point, `searchButtonColor`, `searchTextColor` and `hideKeyboard`: rendering only. The one thing kept from the views is that the detail screen is built from `stringID` (`DetailFor`).
- `APIServiceCombine` (URLSession, Combine, JSONDecoder) and `MockService`: I/O and a decoding test double. The service appears only as the request a method returns and the result a completion method receives. The mock's canned player and stats row are constants used in example lemmas.
- Debounce timing, `receive(on:)`, cancellables and `[weak self]`. These are scheduling and lifetime plumbing, and the explicit `DebounceFired` step replaces them. Because its place among other actions is free, the model covers every order in which a debounce and a completion can arrive.
- PlayerList.PlayerListViewModel.DebounceFired: does not model `removeDuplicates`. The source skips an emission whose text equals the previously emitted text, while the model always recomputes. The two differ only when "No results found" was written in between and the same text is delivered again.
- Text.IsWhitespace: follows Foundation's `whitespacesAndNewlines` set (Zs, Zl, Zp, U+0009 to U+000D, U+0085) character by character. Grapheme clustering is not modelled, so counts are of Unicode scalar values and not of Swift `Character`s.
- Text.Lower: only ASCII letters are lowercased. Swift's `lowercased()` maps all of Unicode, and `contains` also applies Unicode canonical equivalence.
- PlayerDetail.SeasonLabel: the integer fields `id`, `gamesPlayed` and `season` are unbounded `int`s, not 64-bit `Int`s, and `SeasonLabel` is total, so the overflow trap of `season + 1` at `Int.max` is not modelled.
- Text.ParseInt: integers are unbounded, so the 64-bit range of Swift's `Int` and the `nil` that `Int(_:)` returns on overflow are not modelled.
- URL serialisation and percent-encoding by `URLComponents`, and the `guard let url` failure branch: library behaviour. Requests are modelled by their ordered query items. So whether an empty `search` value appears in the URL string is not modelled.
- The `Double` fields of `GameStats`, `formattedPercent`, and the "PPG: ..." style strings: floating point and `String(format:)`. Only `gamesPlayed`, `playerID`, `season` and `min` are kept.
- `Codable` key mappings, `print` logging, and the unused `nameSearch` field of `PlayerDetailViewModel`: decoder configuration and non-observable behaviour.
- No operation can change `playerID` or a `PlayerInfo`/`Team`. Dafny's `const` and datatypes enforce this, so no lemma states it.
