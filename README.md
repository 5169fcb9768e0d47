# Anime streaming app: screen logic in Dafny

This project models the sequential logic beneath the React Native screens of an
anime catalog and playback app. Every screen renders hard-coded mock lists. The
logic modelled is:

- the **video player**: `m:ss` time formatting, the progress percentage, the
  play/pause and seek commands gated on the load state, the playback-status rule,
  the controls overlay with its single 3-second auto-hide timer, and the
  landscape/portrait orientation locks taken at mount and released at unmount;
- the **search screen**: the case-insensitive title filter over the catalog, the
  genre chips, and the query, loading and results state;
- the **favorites screen**: removal by id and the empty-state/count rule;
- the **detail screen**: the favourite flag, the two tabs, the synopsis fallback,
  the episode caption, and the navigation to the player and to similar titles.

Each screen is a class. Its fields are the screen's `useState` values and refs.
Its constructor is the first render followed by the mount effects. Its methods
are the event handlers, each followed by whatever effect the state change re-runs.
Calls into code outside the screen are appended to a log field and never
performed. That code is the video element, `expo-screen-orientation`,
`BackHandler`, `setTimeout`/`clearTimeout` and the navigation object.
Pure expressions are functions: the `filter` calls, `formatTime`,
`progressPercentage`, the synopsis fallback and the caption.

Modules: `Wrappers` (an optional value for a JavaScript property that may be
missing), `Seqs` (`Keep`, the `Array.prototype.filter` the search and favorites screens use, with
subsequence and unique-key facts), `Decimal` (number to decimal string and back),
`Ascii` (case folding and `includes`), `Catalog` (the records passed between
screens and the navigation commands), then `VideoPlayer`, `Search`, `Favorites`
and `AnimeDetail`, one per screen file.

Timers are abstract. `controlsTimeout` holds the id of the last timer started,
with 0 standing for `null`. `pendingTimers` is the set of timers neither fired
nor cleared, and `FireHideTimer` is the step in which one fires. The search delay
is a queue of the queries whose 500 ms completion is still due. All delays are
equal, so completions run in the order they were started, and `CompleteSearch`
runs the oldest one. React skips an effect when a state setter is given the
value the state already has, and the model does the same. So re-entering the
current query starts no new search.

The code behaves as follows on four points, and the model follows it:
- `handleSeek` takes a percentage (`value / 100 * duration`), not a fraction.
  Nothing in the screen calls it: the progress handle
  (src/screens/VideoPlayerScreen.js:183-186) has no press or drag handler, so
  `HandleSeek` models a handler the screen never wires up.
- The progress value is a percentage, so a position of 30000 ms out of 120000 ms
  is 25, not 0.25.
- The hardware back button only calls `goBack`. The portrait lock comes from the
  unmount cleanup, whichever way the screen is left.
- The selected genres never narrow the search results.

## Model

| member | source | states |
|---|---|---|
| `Decimal.ToDecimal` | src/screens/VideoPlayerScreen.js:102 | a number prints as a non-empty digit string with no leading zero, one digit exactly below 10 and two digits from 10 to 99 |
| `Decimal.FromToDecimal` | src/screens/VideoPlayerScreen.js:102 | reading a printed number back gives the number |
| `VideoPlayer.PadTwo` | src/screens/VideoPlayerScreen.js:102 | `padStart(2, '0')` turns the empty string into `00`, puts one zero in front of a single character, and returns a string of two or more characters unchanged |
| `VideoPlayer.SecondsField` | src/screens/VideoPlayerScreen.js:101-102 | for seconds below 60 the padded field is two digits that read back as the seconds |
| `VideoPlayer.FormatTime` | src/screens/VideoPlayerScreen.js:98-103 | the result is minutes (no leading zero), a colon and exactly two digits of seconds below 60; minutes × 60 + seconds read back equals the whole seconds `ms / 1000`; there is no hours field |
| `VideoPlayer.ProgressPercentage` | src/screens/VideoPlayerScreen.js:105 | 0 when the duration is 0, otherwise `r × duration = 100 × currentTime`; never negative, at most 100 while the position is within the duration, not clamped otherwise |
| `VideoPlayer.SeekTarget` | src/screens/VideoPlayerScreen.js:93 | the seek target × 100 = percentage × duration, and a percentage in 0..100 lands within 0..duration |
| `VideoPlayer.ClearRef` | src/screens/VideoPlayerScreen.js:57-61 | the auto-hide cleanup issues nothing when the ref is null and otherwise exactly one effect, clearing the timer the ref holds |
| `VideoPlayer.PlayerScreen.constructor` | src/screens/VideoPlayerScreen.js:20-62 | initial state: status `{}`, time and duration 0, controls visible, not fullscreen; mount requests landscape once, registers the back listener and starts one 3000 ms hide timer |
| `VideoPlayer.PlayerScreen.Unmount` | src/screens/VideoPlayerScreen.js:42-46 | unmount requests portrait once, removes the back listener, clears the hide timer and leaves no timer pending |
| `VideoPlayer.PlayerScreen.HandleScreenPress` | src/screens/VideoPlayerScreen.js:87-89 | a tap negates the visibility; the previous timer is cleared first, and a new 3000 ms timer is started exactly when the controls become visible, so one timer is pending iff the controls are visible |
| `VideoPlayer.PlayerScreen.FireHideTimer` | src/screens/VideoPlayerScreen.js:49-62 | only the one pending timer can fire, and only while the controls are visible; firing hides them and leaves no timer pending |
| `VideoPlayer.PlayerScreen.TogglePlayPause` | src/screens/VideoPlayerScreen.js:68-76 | nothing is issued unless loaded; once loaded, exactly one command, pause iff playing and play iff not; only the command log changes |
| `VideoPlayer.PlayerScreen.HandleSeek` | src/screens/VideoPlayerScreen.js:91-96 | no seek unless loaded with a positive duration; otherwise one seek to `value / 100 × duration`; the displayed position is not changed |
| `VideoPlayer.PlayerScreen.OnPlaybackStatusUpdate` | src/screens/VideoPlayerScreen.js:123-128 | the status is always replaced; time and duration are taken (missing as 0) only from a loaded status and kept otherwise |
| `VideoPlayer.PlayerScreen.ToggleFullscreen` | src/screens/VideoPlayerScreen.js:78-85 | both branches request landscape once, and the flag flips |
| `VideoPlayer.PlayerScreen.HandleGoBack` | src/screens/VideoPlayerScreen.js:64-66 | issues exactly one `goBack` |
| `VideoPlayer.PlayerScreen.BackAction` | src/screens/VideoPlayerScreen.js:35-38 | the hardware back press issues `goBack` and reports the event handled |
| `VideoPlayer.DoubleTap` | src/screens/VideoPlayerScreen.js:49-62 | two taps restore the visibility and leave exactly one pending timer if visible, none otherwise |
| `Ascii.Lower` | src/screens/SearchScreen.js:174 | folding keeps the length of the string |
| `Ascii.Contains` | src/screens/SearchScreen.js:174 | `includes`: the empty string occurs in every string; a string found is no longer than the one searched; a string as long as the one searched is found exactly when the two are equal |
| `Ascii.LowerAt` | src/screens/SearchScreen.js:174 | each upper-case ASCII letter folds to its lower-case letter and every other character is kept |
| `Seqs.Keep` | src/screens/FavoritesScreen.js:112 | `filter` keeps exactly the elements that pass, each as often as in the input and in input order, and never lengthens the list |
| `Search.SearchCatalog` | src/screens/SearchScreen.js:173-175 | every result's folded title contains the folded query; every catalog entry whose title does is a result; each entry occurs in the results as often as in the catalog if its title matches and not at all otherwise; results are a subsequence of the catalog (catalog order, nothing invented) |
| `Search.SearchKeepsIdsUnique` | src/screens/SearchScreen.js:173 | with unique catalog ids the results never repeat an id |
| `Search.SubstringFinds` | src/screens/SearchScreen.js:173-175 | a query equal, up to case, to any stretch of a title finds that title |
| `Search.TitleFindsItself` | src/screens/SearchScreen.js:173-175 | searching for a catalog title exactly as written finds that entry |
| `Search.ToggleGenre` | src/screens/SearchScreen.js:190-195 | a selected genre is removed everywhere, other genres keep their counts and relative order; an unselected genre is appended at the end |
| `Search.ToggleTwiceAbsent` | src/screens/SearchScreen.js:190-195 | pressing an unselected genre twice restores the selection exactly |
| `Search.ToggleTwiceMembership` | src/screens/SearchScreen.js:190-195 | pressing any genre twice restores which genres are selected |
| `Search.ToggleKeepsDistinct` | src/screens/SearchScreen.js:190-195 | a selection without repeats stays without repeats |
| `Search.SearchScreen.constructor` | src/screens/SearchScreen.js:154-158 | empty query, results, selection; not loading; results hidden |
| `Search.SearchScreen.SetSearchQuery` | src/screens/SearchScreen.js:160-167 | an unchanged query does nothing; an empty query empties and hides the results without searching; any other query sets loading and schedules one search with that query, leaving the results as they are |
| `Search.SearchScreen.HandleSearch` | src/screens/SearchScreen.js:169-172 | starting a search sets loading and schedules a completion with the current query |
| `Search.SearchScreen.CompleteSearch` | src/screens/SearchScreen.js:172-179 | a completion shows the filter of its own query over the catalog and ends loading |
| `Search.SearchScreen.HandlePopularSearch` | src/screens/SearchScreen.js:186-188 | the tapped popular search becomes the query; tapping the current query changes nothing else; a new query turns loading on and queues exactly one search for it, leaving the results and their visibility as they were |
| `Search.SearchScreen.Clear` | src/screens/SearchScreen.js:220-223 | the query becomes empty, which hides and empties the results if it was not empty already |
| `Search.SearchScreen.HandleGenrePress` | src/screens/SearchScreen.js:190-195 | pressing one of the offered genre chips changes only the selection, by `ToggleGenre`; the results are untouched |
| `Search.SearchScreen.HandleAnimePress` | src/screens/SearchScreen.js:182-184 | navigates to the detail route with the tapped title |
| `Search.ClearDuringSearch` | src/screens/SearchScreen.js:160-180 | a search started before the query is cleared still completes afterwards: the results of its own query are shown under an empty query, and they include every catalog entry whose title the search names exactly |
| `Favorites.RemoveById` | src/screens/FavoritesScreen.js:111-113 | the result is exactly the items with another id, each as often as in the list, unchanged and in their order, and never longer |
| `Favorites.RemovePresent` | src/screens/FavoritesScreen.js:112 | with unique ids, removing a present id shortens the list by exactly one |
| `Favorites.RemoveAbsent` | src/screens/FavoritesScreen.js:112 | removing an absent id leaves the list unchanged |
| `Favorites.RemoveIdempotent` | src/screens/FavoritesScreen.js:112 | removing the same id twice equals removing it once |
| `Favorites.Render` | src/screens/FavoritesScreen.js:141-147 | the empty state is shown iff the list is empty; otherwise the header count is the list length |
| `Favorites.RemoveUpdatesView` | src/screens/FavoritesScreen.js:111-147 | removing a listed favorite shows a count one lower (or the empty state if it was the last) and the item is gone |
| `Favorites.FavoritesScreen.constructor` | src/screens/FavoritesScreen.js:105 | the list starts as the hard-coded favorites, whose ids are unique |
| `Favorites.FavoritesScreen.HandleRemoveFavorite` | src/screens/FavoritesScreen.js:111-113 | the list becomes `RemoveById` of the old list, and ids stay unique |
| `Favorites.FavoritesScreen.HandleAnimePress` | src/screens/FavoritesScreen.js:107-109 | navigates to the detail route with the tapped favorite |
| `Favorites.FavoritesScreen.HandleExplore` | src/screens/FavoritesScreen.js:130-133 | the empty state's button navigates to the home tab |
| `Catalog.EpisodeLabel` | src/screens/AnimeDetailScreen.js:48 | the caption is `Episode `, the id, `: `, the title; its length is that of its parts |
| `Catalog.EpisodeLabelInjective` | src/screens/AnimeDetailScreen.js:48 | when ids hold no colon, equal captions mean equal ids and titles |
| `AnimeDetail.Synopsis` | src/screens/AnimeDetailScreen.js:197-198 | the synopsis is never blank: it is the description when that is present and non-empty, and the default text otherwise |
| `AnimeDetail.AnimeDetailScreen.constructor` | src/screens/AnimeDetailScreen.js:75-78 | not a favourite, on the episodes tab, no navigation yet |
| `AnimeDetail.AnimeDetailScreen.ToggleFavorite` | src/screens/AnimeDetailScreen.js:88-90 | negates the favourite flag |
| `AnimeDetail.AnimeDetailScreen.SelectTab` | src/screens/AnimeDetailScreen.js:161-176 | a tab press selects that tab, one of the two |
| `AnimeDetail.AnimeDetailScreen.HandlePlayEpisode` | src/screens/AnimeDetailScreen.js:80-82 | navigates (not pushes) to the player with this screen's own title, unchanged, and the chosen episode |
| `AnimeDetail.AnimeDetailScreen.WatchNow` | src/screens/AnimeDetailScreen.js:134-136 | Watch Now plays the first episode of the list |
| `AnimeDetail.AnimeDetailScreen.HandleSimilarAnimePress` | src/screens/AnimeDetailScreen.js:84-86 | pressing one of the similar titles shown pushes (not navigates to) a new detail screen for it |
| `AnimeDetail.ToggleFavoriteTwice` | src/screens/AnimeDetailScreen.js:88-90 | two toggles restore the favourite flag |

## Left out

- Rendering: the JSX, the `StyleSheet` objects, `Dimensions`-based widths, icons and the "Loading..." and "Searching..." indicators have no behaviour beyond showing state.
- `src/screens/ProfileScreen.js`, `src/screens/HomeScreen.js` and `App.js` are not part of this model. They are switch bindings, alerts, a static list and navigator configuration.
- The next-episode button and the settings button of the player have empty handlers, so they are not modelled.
- Foreign calls are recorded in a log and never performed. The model does not capture what the video element, the orientation service, `BackHandler` or the navigator then do, nor when an `await`ed orientation lock resolves. `toggleFullscreen` is modelled as if the lock completed at once.
- `VideoPlayer.FormatTime`: takes a non-negative whole number of milliseconds. A fractional input is rounded down by the first `Math.floor`, exactly as the model's integer division rounds, so it yields the same fields (1500.5 ms prints `0:01`). Negative input is not modelled; JavaScript prints negative fields for it (-500 ms prints `-1:-1`).
- `VideoPlayer.ProgressPercentage` and `VideoPlayer.SeekTarget` use exact `real` arithmetic. Floating-point rounding is not modelled.
- `Ascii.Lower` folds ASCII letters only. Unicode case mapping is not modelled.
- The status callback carries only `isLoaded`, `isPlaying`, `positionMillis` and `durationMillis`, with positions as whole milliseconds. Other status fields, such as a load error, are not modelled.
- Timing: all timers are abstract. The model does not capture which of the player's events happen before a hide timer's 3000 ms elapse, nor the 500 ms search delay itself. Only the order of search completions is kept.
- The back listener's `remove()` handle and React's development-mode double effects are not modelled.
- `Catalog.EpisodeLabelInjective`: stated only for ids without a colon. All hard-coded ids are digits.
