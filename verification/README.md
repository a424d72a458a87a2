# gra — a verified model of the achievement viewer's core

gra is a small desktop window. It shows the RetroAchievements achievements of
the game a user played most recently, as a grid of badges with a detail panel
below it. Every tick the application may refresh the user's progress from the
RetroAchievements API, and it moves a selection cursor over the grid with the
arrow keys. The `+` and `-` keys of the numeric keypad widen and narrow the
grid. It also resizes the window to fit the grid, and keeps badge images in a
process-wide cache.

This project models that core in Dafny:

- `Achievement` (`achievement.dfy`) is the `achievement` package. It holds the
  normalised `Achievement` record and the two adapters from the API's
  progress-report entry and its achievement-of-the-week entry.
- `Ordering` (`ordering.dfy`) is the ID order a refresh lays the achievements
  out in.
- `Grid` (`grid.dfy`) holds the integer arithmetic of the grid and the window.
  That is the row count, the badge size, the window size `Layout` asks for,
  the cell each badge is drawn into, and the start-up window size.
- `Badges` (`badges.dfy`) is the badge image cache behind `loadBadge`. It is a
  class with the cache map as a field.
- `Controller` (`controller.dfy`) is the `Gra` application object. It is a
  class whose methods update its fields as the Go methods do:
  - `HandleInput` handles the keyboard;
  - `RefreshAchievements` refreshes the progress;
  - `Update` runs one tick;
  - `Layout` checks the window size;
  - `AchievementPlacements` is the grid loop of `drawAchievements`.
- `Wrappers` (`wrappers.dfy`) holds `Option` and `Result`.

The model treats several inputs as parameters:

- The RetroAchievements client calls are parameters. The recently-played
  list is a `Result`, and the progress lookup is a function from game ID to
  `Result`.
- The two clock reads in `Update` are integer parameters, in seconds.
- The keys pressed this tick are a `Keys` value.
- The HTTP GET and PNG decode of a badge are one function from URL to
  `Result`.

## Model

| member | source | states |
|---|---|---|
| `Achievement.FromGetGameInfoAndUserProgressAchievement` | achievement/achievement.go:17-27 | All seven fields are carried over unchanged. The record is earned exactly when the entry has a hardcore unlock date. |
| `Achievement.FromGetAchievementOfTheWeekAchievement` | achievement/achievement.go:29-38 | The record is never earned and its display order is 0. ID, badge name, title, description and points are carried over. |
| `Achievement.GameAdapterRoundTrip` | achievement/achievement.go:17-27 | The progress adapter is a bijection: reading the entry back from the record gives the input, and the other way round. |
| `Achievement.WeekAdapterRoundTrip` | achievement/achievement.go:29-38 | The weekly entry can be read back from its record. A record is the image of the weekly adapter exactly when it is unearned with display order 0. |
| `Achievement.AdaptersAgree` | achievement/achievement.go:17-38 | The two adapters give the same record if and only if the progress entry is unearned, has display order 0 and agrees with the weekly entry on the shared fields. |
| `Ordering.InsertByID` | main.go:115-117 | Inserting into an ID-sorted sequence keeps it sorted and adds exactly one copy of the new entry. |
| `Ordering.SortByID` | main.go:115-117 | The result is sorted by non-decreasing ID and is a permutation of the input. |
| `Ordering.Ids` | main.go:115-117 | The ID sequence has one ID per entry. |
| `Ordering.IdsOfPermutation` | main.go:111-117 | Permuting the entries permutes their IDs. |
| `Ordering.AscendingPermutationUnique` | main.go:115-117 | Two ascending permutations of the same IDs are equal, so the sorted ID order is unique. |
| `Ordering.OrderedIdsIndependentOfVisitOrder` | main.go:111-117 | The ID order after a refresh depends only on which achievements were fetched, not on the order the copy loop visited them in. |
| `Grid.AchievementSize` | main.go:87-89 | The badge side is a whole number of 64-pixel default sides, and the size multiple can be read back from it. |
| `Grid.NumberOfAchievementRows` | main.go:83-85 | The row count is the ceiling of N / perRow for any non-zero width. For perRow > 0, (rows-1)·perRow < N ≤ rows·perRow, and rows ≥ 0 when N ≥ 0. For perRow < 0, rows·perRow ≤ N < (rows-1)·perRow, and rows ≤ 0 when N ≥ 0. |
| `Grid.CellRowWithinRows` | main.go:83-85 | Every index i < N falls on a row i div perRow inside [0, rows). |
| `Grid.WindowRequest` | main.go:70-81 | For any non-zero row width, a resize is requested if and only if the window differs from (perRow·size, rows·size + 264). The request carries exactly that size, negative when the width is. |
| `Grid.WindowRequestSettles` | main.go:76-77 | Once the window has the requested size, the next check requests nothing. |
| `Grid.RequestedHeightHoldsGrid` | main.go:72-77 | With a positive badge size, the grid height that is requested holds every badge's row. |
| `Grid.BadgeDrawnInsideRequestedGrid` | main.go:70-81 | For a positive width and size multiple, every badge the draw loop places at (`CellAt`'s x, y) ends within the width and the grid height `Layout` requests. The fixed 64-pixel row step is never larger than the badge side. |
| `Grid.ModByMagnitude` | main.go:155-159 | For i ≥ 0, the column `i % perRow` depends only on the magnitude of perRow. Go's truncating remainder agrees with Dafny's here. |
| `Grid.CellAt` | main.go:155-159 | With m the magnitude of perRow, the column lies in [0, m) and row·m + column = i, so the row is i div m and the column is i mod m. x is size·column and y is 64·row. The cell is highlighted if and only if it is the selected one. |
| `Grid.RowAdvance` | main.go:155-157 | The row counter steps up exactly when a non-zero index is a multiple of the row width, so it tracks i div width. |
| `Grid.SeventeenthOfTwentyAtRowTwoColumnOne` | main.go:155-159 | With 20 achievements at 8 per row, index 17 is on row 2, column 1, and there are 3 rows. |
| `Grid.RowStepMatchesBadgeOnlyAtMultipleOne` | main.go:144-159 | The fixed 64-pixel row step equals the badge side if and only if the size multiple is 1. |
| `Grid.StartingWindowSize` | main.go:343-344 | The start-up window is the grid's width by the row count, the row count being used as a height in pixels. |
| `Grid.StartingSizeIsResizedByLayout` | main.go:343-344 | For any positive size multiple and any non-zero row width, the first `Layout` check requests a resize away from the start-up size. |
| `Badges.BadgeKey` | main.go:266-271 | The key is the badge name followed by `.png` for earned art and by `_lock.png` for locked art. |
| `Badges.EarnedAndLockedKeysDiffer` | main.go:267-271 | The earned and the locked art of one badge never share a key. |
| `Badges.BadgeKeyInjective` | main.go:267-271 | Within one variant, the key determines the badge name. |
| `Badges.KeysOfDifferentBadgesMayCollide` | main.go:267-271 | Across variants, keys of different badges can coincide: `"1_lock"` earned and `"1"` locked. |
| `Badges.BadgeUrl` | main.go:275 | The request URL is the base badge URL followed by the key, and the key can be read back from it. |
| `Badges.ImageCache.LoadBadge` | main.go:265-289 | On a cache hit, the stored image is returned with no request and the cache is unchanged. On a miss, there is exactly one request to the base URL plus the key. Its result is returned, and the cache gains that key only if the result is a success. |
| `Badges.LoadBadgeTwice` | main.go:273-286 | Two loads of one badge agree after a successful first load. An uncached badge then makes exactly one request, a cached badge makes none, and two failures make two. |
| `Controller.ArrowOf` | main.go:189-203 | No arrow acts if and only if no arrow key is pressed. |
| `Controller.NextSelection` | main.go:189-207 | A move below N is kept as it is, even below 0 after Down with a negative width. A move to N or beyond is capped at exactly N-1. So the selection never exceeds N-1. From a selection ≥ 0 with a non-negative row width, it stays in [0, N-1] when N ≥ 1 and becomes -1 when N = 0. |
| `Controller.MovedSelection` | main.go:189-203 | Defined as the step of the first pressed arrow. Its contract is the source's if-chain: only the first pressed arrow, in the order Left, Right, Up, Down, acts. Left and Up step back by 1 and by a row with a floor of 0, Right and Down step forward, and with no arrow the selection stays. |
| `Controller.DownWithNegativeWidthLeavesRange` | main.go:201-207 | With a row width of -1 and 5 achievements, Down from index 0 selects -1: only the upper end is clamped. |
| `Controller.RefreshDueOnlyAfterInterval` | main.go:51-52 | A refresh is not due at the instant the interval ends, is due one second later, and stays due as the clock advances. |
| `Controller.FetchProgress` | main.go:92-109 | A failed recent-games call returns its error, and an empty list returns "no recent games". Otherwise the result, success or error, is the progress lookup of the first, most recent, game. A success comes only from that lookup. |
| `Controller.Gra.HandleInput` | main.go:179-208 | Before progress is loaded, nothing changes. Otherwise `+` and `-` change the row width by exactly ±1, the selection becomes `NextSelection` under the new width, and nothing else is touched. It keeps the selection a valid index of the ordered list when the counts agree, the ordered list is non-empty, the old selection is ≥ 0 and the new row width is ≥ 0. |
| `Controller.Gra.RefreshAchievements` | main.go:91-122 | On any error, progress and the ordered list are unchanged. On success, both are replaced together, by the report and by its achievements sorted by ID, a permutation of them. |
| `Controller.Gra.Update` | main.go:50-63 | A refresh runs only when now > latest refresh + interval. A failed refresh returns the wrapped error and changes nothing. A successful one sets the latest refresh to the clock read after it. Keyboard handling runs exactly when no error is returned. |
| `Controller.Gra.Layout` | main.go:70-81 | The outside size is returned unchanged. Once progress is loaded, the resize request is exactly `Grid.WindowRequest`. |
| `Controller.Gra.AchievementPlacements` | main.go:142-177 | The draw loop yields one cell per ordered achievement. Entry i is the cell `Grid.CellAt` gives: with m the magnitude of perRow, row i div m and column i mod m, at x = size·column and y = 64·row, highlighted if and only if it is selected. |

## Left out

- Drawing is not modelled. That covers `Draw`, `DrawTitle`, `drawCurrentAchievement`, the image and text draw calls, and `drawText` with its word wrapping, which is done by a foreign library. Of `drawAchievements`, only the placement arithmetic is kept.
- Controller.Gra.AchievementPlacements: it does not model the early return of the draw loop when a badge fails to load. It computes the cells of all entries.
- The network and PNG decoding are one abstract fetch result. The error from closing the response body is not modelled.
- The `retroachievements` client is not modelled. Its calls are inputs, and the upstream model types are reduced to the fields the application reads.
- The go-retroachievements models package is not part of this model. If `progress.Achievements` is a map, its iteration order is unspecified in Go. The model takes the entries as a sequence in visiting order, and `Ordering.OrderedIdsIndependentOfVisitOrder` shows that the resulting ID order does not depend on it.
- Ordering.SortByID: a stable insertion sort stands in for `slices.SortFunc`, which is not stable. Only "sorted by ID and a permutation" is claimed, so the relative order of entries with equal IDs may differ from the library's. The comparator `a.ID - b.ID` can overflow for extreme IDs, and this is not modelled.
- Grid.NumberOfAchievementRows: it requires a non-zero row width. At 0, Go divides floats to +Inf or NaN, and the conversion to int is implementation-specific. Negative widths are modelled. The float ceiling is modelled as exact integer ceiling division.
- Controller.Gra.Layout: it requires a non-zero row width once progress is loaded, for the reason above. The row width can be lowered to 0 and below by `-`, which `HandleInput` models.
- Grid.CellRowWithinRows and Grid.RequestedHeightHoldsGrid: they are stated for positive row widths only. With a negative width the row count is zero or negative, so no row lies below it and the requested grid height holds nothing.
- Controller.Gra.AchievementPlacements: it requires a non-zero row width when there is an entry to place. Go's `i % 0` panics.
- Controller.Gra.Update: what the game loop does with the returned error is not modelled. The loop belongs to the ebiten library, which is not part of this model. In the program, `main` ends the process with `log.Fatal` when the loop returns an error (main.go:349-351), so a failed refresh during a tick is not retried.
- Controller.Gra.Update: the two clock reads are integer parameters in seconds, and `time.Duration` scaling is folded into the interval.
- Start-up is not modelled. That covers `loadConfig` (TOML), `loadImages`, `loadFont`, `main`, the check that the API key and user name are present, and setting the window title, tick rate and icon. Only the start-up window size is kept, as `Grid.StartingWindowSize`.
- `icon/icons.go` only decodes embedded images and is not part of this model.
- Errors carry no message text beyond a constructor per cause.
- Controller.Gra.HandleInput: index safety of the selection is promised only for a non-negative row width. With a negative width, Down can move the selection below 0 (`Controller.DownWithNegativeWidthLeavesRange`), and the detail panel then indexes the ordered list at a negative position.
- The upper clamp uses the report's `NumAchievements`, not the length of the ordered list. The model keeps this. Index safety of the selection is stated under the assumption `CountsAgree`, that the two agree.
