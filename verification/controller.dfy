/**
 * The application's top-level state (the `Gra` type of main.go): the loaded
 * progress report, the achievements in display order, the selection cursor,
 * the refresh clock, and the configuration it shares with the layout.
 * Network calls, the clock and keyboard state are parameters of the
 * operations that read them.
 */
module Controller {
  import opened Wrappers
  import opened Achievement
  import Ordering
  import Grid

  /** An entry of the user's recently played games, most recent first. */
  datatype RecentGame = RecentGame(gameId: int)

  /** A game's progress report: its title, achievement count and achievements. */
  datatype GameProgress = GameProgress(
    title: string,
    numAchievements: int,
    achievements: seq<GameInfoAchievement>)

  /** Errors a refresh reports. */
  datatype Error =
    | ClientError(message: string)      // an error returned by an API call
    | NoRecentGames                     // "no recent games found"
    | RefreshFailed(cause: Error)       // Update's wrapping of a refresh error

  /** The keys pressed during this tick, as `IsKeyJustPressed` reports them. */
  datatype Keys = Keys(
    numpadAdd: bool,
    numpadSubtract: bool,
    left: bool,
    right: bool,
    up: bool,
    down: bool)

  datatype Arrow = Left | Right | Up | Down

  /** The one arrow that acts this tick: the first pressed of Left, Right, Up, Down. */
  function ArrowOf(keys: Keys): (a: Option<Arrow>)
    ensures a.None? <==> !(keys.left || keys.right || keys.up || keys.down)
  {
    if keys.left then Some(Left)
    else if keys.right then Some(Right)
    else if keys.up then Some(Up)
    else if keys.down then Some(Down)
    else None
  }

  /**
   * Reference meaning of one arrow: Left and Up step back by 1 and by a row,
   * stopping at 0; Right and Down step forward by 1 and by a row.
   */
  function ArrowStep(sel: int, a: Arrow, perRow: int): int {
    match a
    case Left => if sel - 1 < 0 then 0 else sel - 1
    case Right => sel + 1
    case Up => if sel - perRow < 0 then 0 else sel - perRow
    case Down => sel + perRow
  }

  /**
   * The arrow branch of `handleInput` (main.go:189-203), before the upper
   * clamp: the step of the first pressed arrow. Its contract is the source's
   * if-chain, key by key.
   */
  function MovedSelection(sel: int, keys: Keys, perRow: int): (r: int)
    ensures keys.left ==> r == (if sel - 1 < 0 then 0 else sel - 1)
    ensures !keys.left && keys.right ==> r == sel + 1
    ensures !keys.left && !keys.right && keys.up ==> r == (if sel - perRow < 0 then 0 else sel - perRow)
    ensures !keys.left && !keys.right && !keys.up && keys.down ==> r == sel + perRow
    ensures !(keys.left || keys.right || keys.up || keys.down) ==> r == sel
  {
    match ArrowOf(keys)
    case None => sel
    case Some(a) => ArrowStep(sel, a, perRow)
  }

  /**
   * The selection after one tick of `handleInput` with `n` achievements and
   * `perRow` per row. It never exceeds n - 1; from a selection in range and a
   * non-negative row width it stays in [0, n - 1]; with no achievements it
   * becomes -1.
   */
  function NextSelection(sel: int, keys: Keys, perRow: int, n: int): (r: int)
    ensures r <= n - 1
    ensures n >= 1 && sel >= 0 && perRow >= 0 ==> 0 <= r
    ensures n == 0 && sel >= 0 && perRow >= 0 ==> r == -1
    ensures MovedSelection(sel, keys, perRow) < n ==> r == MovedSelection(sel, keys, perRow)
    ensures MovedSelection(sel, keys, perRow) >= n ==> r == n - 1
  {
    var moved := MovedSelection(sel, keys, perRow);
    if moved >= n then n - 1 else moved
  }

  /**
   * Only the upper end is clamped: with the row width lowered below zero,
   * Down from the first achievement selects index -1.
   */
  lemma DownWithNegativeWidthLeavesRange()
    ensures NextSelection(0, Keys(false, false, false, false, false, true), -1, 5) == -1
  {
  }

  /** Whether the refresh interval has passed: strictly after the last refresh plus the interval. */
  predicate RefreshDue(now: int, latestRefresh: int, refreshInterval: int) {
    now > latestRefresh + refreshInterval
  }

  /**
   * A refresh is not due at the instant the interval ends, is due one second
   * later, and stays due as the clock advances.
   */
  lemma RefreshDueOnlyAfterInterval(now: int, later: int, latestRefresh: int, refreshInterval: int)
    ensures !RefreshDue(latestRefresh + refreshInterval, latestRefresh, refreshInterval)
    ensures RefreshDue(latestRefresh + refreshInterval + 1, latestRefresh, refreshInterval)
    ensures RefreshDue(now, latestRefresh, refreshInterval) && later >= now ==>
              RefreshDue(later, latestRefresh, refreshInterval)
  {
  }

  /**
   * The fetch sequence of a refresh: the most recently played game's
   * progress, or the first error met. An empty recent-games list is an error.
   */
  function FetchProgress(recent: Result<seq<RecentGame>, Error>, progressOf: int -> Result<GameProgress, Error>)
    : (r: Result<GameProgress, Error>)
    ensures recent.Failure? ==> r == Failure(recent.error)
    ensures recent == Success([]) ==> r == Failure(NoRecentGames)
    ensures recent.Success? && |recent.value| >= 1 ==> r == progressOf(recent.value[0].gameId)
    ensures r.Success? ==> recent.Success? && |recent.value| >= 1
  {
    match recent
    case Failure(e) => Failure(e)
    case Success(games) =>
      if |games| == 0 then Failure(NoRecentGames) else progressOf(games[0].gameId)
  }

  /** The configuration file's settings; only the row width changes at run time. */
  class Config {
    var username: string
    var apiKey: string
    /** Seconds between refreshes. */
    var refreshInterval: int
    var achievementsPerRow: int
    var achievementSizeMultiple: int

    constructor (username: string, apiKey: string, refreshInterval: int, achievementsPerRow: int, achievementSizeMultiple: int)
      ensures this.username == username && this.apiKey == apiKey
      ensures this.refreshInterval == refreshInterval
      ensures this.achievementsPerRow == achievementsPerRow
      ensures this.achievementSizeMultiple == achievementSizeMultiple
    {
      this.username := username;
      this.apiKey := apiKey;
      this.refreshInterval := refreshInterval;
      this.achievementsPerRow := achievementsPerRow;
      this.achievementSizeMultiple := achievementSizeMultiple;
    }
  }

  class Gra {
    var selectedAchievement: int
    var userProgress: Option<GameProgress>
    var orderedAchievements: seq<GameInfoAchievement>
    const config: Config
    /** When the last successful refresh finished, in seconds; 0 before the first. */
    var latestRefresh: int

    constructor (config: Config)
      ensures this.config == config
      ensures selectedAchievement == 0 && userProgress == None && orderedAchievements == []
      ensures latestRefresh == 0
    {
      this.config := config;
      selectedAchievement := 0;
      userProgress := None;
      orderedAchievements := [];
      latestRefresh := 0;
    }

    /**
     * The achievement count the selection is clamped to agrees with the
     * ordered list the detail panel indexes; the upstream report is trusted
     * for this.
     */
    ghost predicate CountsAgree()
      reads this
    {
      userProgress.Some? ==> userProgress.value.numAchievements == |orderedAchievements|
    }

    /**
     * The state after keyboard handling, given the selection and the row
     * width before it: unchanged before progress is loaded; otherwise the row
     * width moved by `+` and `-` and the selection moved by `NextSelection`
     * under the new width.
     */
    ghost predicate InputHandled(sel0: int, perRow0: int, keys: Keys)
      reads this, config
    {
      if userProgress.None? then
        selectedAchievement == sel0 && config.achievementsPerRow == perRow0
      else
        && config.achievementsPerRow == perRow0 + (if keys.numpadAdd then 1 else 0) - (if keys.numpadSubtract then 1 else 0)
        && selectedAchievement == NextSelection(sel0, keys, config.achievementsPerRow, userProgress.value.numAchievements)
    }

    /**
     * One tick of keyboard handling (main.go:179-208): nothing before progress
     * is loaded; otherwise `+` and `-` widen and narrow the grid by one (with
     * no lower bound), at most one arrow moves the selection, and the
     * selection is capped at the achievement count minus one.
     */
    method HandleInput(keys: Keys)
      modifies this`selectedAchievement, config`achievementsPerRow
      ensures InputHandled(old(selectedAchievement), old(config.achievementsPerRow), keys)
      ensures userProgress.Some? && CountsAgree() && orderedAchievements != [] &&
              old(selectedAchievement) >= 0 && config.achievementsPerRow >= 0 ==>
        0 <= selectedAchievement < |orderedAchievements|
    {
      if userProgress.None? {
        return;
      }
      if keys.numpadAdd {
        config.achievementsPerRow := config.achievementsPerRow + 1;
      }
      if keys.numpadSubtract {
        config.achievementsPerRow := config.achievementsPerRow - 1;
      }
      if keys.left {
        selectedAchievement := selectedAchievement - 1;
        if selectedAchievement < 0 {
          selectedAchievement := 0;
        }
      } else if keys.right {
        selectedAchievement := selectedAchievement + 1;
      } else if keys.up {
        selectedAchievement := selectedAchievement - config.achievementsPerRow;
        if selectedAchievement < 0 {
          selectedAchievement := 0;
        }
      } else if keys.down {
        selectedAchievement := selectedAchievement + config.achievementsPerRow;
      }
      if selectedAchievement >= userProgress.value.numAchievements {
        selectedAchievement := userProgress.value.numAchievements - 1;
      }
    }

    /**
     * Reload the most recently played game (main.go:91-122). On any error the
     * progress and the ordered list are left as they were; on success both are
     * replaced together: the new report, and its achievements sorted by ID.
     */
    method RefreshAchievements(recent: Result<seq<RecentGame>, Error>, progressOf: int -> Result<GameProgress, Error>)
      returns (err: Option<Error>)
      modifies this`userProgress, this`orderedAchievements
      ensures var fetched := FetchProgress(recent, progressOf);
        if fetched.Failure? then
          && err == Some(fetched.error)
          && userProgress == old(userProgress) && orderedAchievements == old(orderedAchievements)
        else
          && err == None
          && userProgress == Some(fetched.value)
          && orderedAchievements == Ordering.SortByID(fetched.value.achievements)
      ensures err == None ==>
        && userProgress.Some?
        && Ordering.SortedByID(orderedAchievements)
        && multiset(orderedAchievements) == multiset(userProgress.value.achievements)
    {
      if recent.Failure? {
        return Some(recent.error);
      }
      var games := recent.value;
      if |games| == 0 {
        return Some(NoRecentGames);
      }
      var progress := progressOf(games[0].gameId);
      if progress.Failure? {
        return Some(progress.error);
      }
      var p := progress.value;
      var ordered: seq<GameInfoAchievement> := [];
      for i := 0 to |p.achievements|
        invariant ordered == p.achievements[..i]
      {
        ordered := ordered + [p.achievements[i]];
      }
      assert ordered == p.achievements;
      ordered := Ordering.SortByID(ordered);
      userProgress := Some(p);
      orderedAchievements := ordered;
      err := None;
    }

    /**
     * One tick (main.go:50-63): when the refresh interval has passed, refresh;
     * a failed refresh ends the tick with the error and changes nothing, a
     * successful one records `refreshedAt` (the clock read after it) as the
     * latest refresh. Then, unless the tick ended, handle the keyboard.
     */
    method Update(now: int, refreshedAt: int, recent: Result<seq<RecentGame>, Error>,
                  progressOf: int -> Result<GameProgress, Error>, keys: Keys)
      returns (err: Option<Error>)
      modifies this`userProgress, this`orderedAchievements, this`latestRefresh,
               this`selectedAchievement, config`achievementsPerRow
      ensures err.Some? <==>
        RefreshDue(now, old(latestRefresh), config.refreshInterval) && FetchProgress(recent, progressOf).Failure?
      ensures err.Some? ==>
        && err == Some(RefreshFailed(FetchProgress(recent, progressOf).error))
        && userProgress == old(userProgress) && orderedAchievements == old(orderedAchievements)
        && latestRefresh == old(latestRefresh)
        && selectedAchievement == old(selectedAchievement)
        && config.achievementsPerRow == old(config.achievementsPerRow)
      ensures !RefreshDue(now, old(latestRefresh), config.refreshInterval) ==>
        && userProgress == old(userProgress) && orderedAchievements == old(orderedAchievements)
        && latestRefresh == old(latestRefresh)
      ensures RefreshDue(now, old(latestRefresh), config.refreshInterval) && FetchProgress(recent, progressOf).Success? ==>
        && userProgress == Some(FetchProgress(recent, progressOf).value)
        && orderedAchievements == Ordering.SortByID(FetchProgress(recent, progressOf).value.achievements)
        && latestRefresh == refreshedAt
      ensures err.None? ==> InputHandled(old(selectedAchievement), old(config.achievementsPerRow), keys)
    {
      var nextRefresh := latestRefresh + config.refreshInterval;
      if now > nextRefresh {
        var refreshErr := RefreshAchievements(recent, progressOf);
        if refreshErr.Some? {
          return Some(RefreshFailed(refreshErr.value));
        }
        latestRefresh := refreshedAt;
      }
      HandleInput(keys);
      err := None;
    }

    /**
     * The window size check (main.go:70-81): the outside size is returned
     * unchanged, and once progress is loaded a resize to the grid's width and
     * height plus the detail panel is requested when the window differs.
     */
    method Layout(outsideWidth: int, outsideHeight: int)
      returns (screenWidth: int, screenHeight: int, resize: Option<(int, int)>)
      requires userProgress.Some? ==> config.achievementsPerRow != 0
      ensures screenWidth == outsideWidth && screenHeight == outsideHeight
      ensures userProgress.None? ==> resize.None?
      ensures userProgress.Some? ==>
        resize == Grid.WindowRequest(userProgress.value.numAchievements, config.achievementsPerRow,
                                     config.achievementSizeMultiple, outsideWidth, outsideHeight)
    {
      resize := None;
      if userProgress.Some? {
        var rows := Grid.NumberOfAchievementRows(userProgress.value.numAchievements, config.achievementsPerRow);
        var size := Grid.AchievementSize(config.achievementSizeMultiple);
        var details := Grid.Spacer + 200;
        var rowSize := config.achievementsPerRow * size;
        if rows * size + details != outsideHeight || rowSize != outsideWidth {
          resize := Some((rowSize, rows * size + details));
        }
      }
      screenWidth, screenHeight := outsideWidth, outsideHeight;
    }

    /**
     * The cells the grid loop of `drawAchievements` (main.go:142-177) draws
     * badges into: one per ordered achievement, the row counter advancing
     * whenever the index reaches a multiple of the row width, so that entry i
     * sits at row i div perRow and column i mod perRow.
     */
    method AchievementPlacements() returns (cells: seq<Grid.Cell>)
      requires userProgress.Some? && orderedAchievements != [] ==> config.achievementsPerRow != 0
      ensures userProgress.None? ==> cells == []
      ensures userProgress.Some? ==>
        && |cells| == |orderedAchievements|
        && forall i :: 0 <= i < |cells| ==>
             cells[i] == Grid.CellAt(i, config.achievementsPerRow,
                                     Grid.AchievementSize(config.achievementSizeMultiple), selectedAchievement)
    {
      cells := [];
      if userProgress.None? {
        return;
      }
      var perRow := config.achievementsPerRow;
      var size := Grid.DefaultBadgeSize * config.achievementSizeMultiple;
      var currentRow := 0;
      for i := 0 to |orderedAchievements|
        invariant |cells| == i
        invariant i == 0 ==> currentRow == 0
        invariant i > 0 ==> perRow != 0 && currentRow == (i - 1) / Grid.Magnitude(perRow)
        invariant forall j :: 0 <= j < i ==> cells[j] == Grid.CellAt(j, perRow, size, selectedAchievement)
      {
        Grid.ModByMagnitude(i, perRow);
        if i > 0 {
          Grid.RowAdvance(i, Grid.Magnitude(perRow));
        }
        if i % perRow == 0 && i != 0 {
          currentRow := currentRow + 1;
        }
        assert currentRow == i / Grid.Magnitude(perRow);
        cells := cells + [Grid.Cell(currentRow, i % perRow, size * (i % perRow),
                                    Grid.RowStep * currentRow, i == selectedAchievement)];
      }
    }
  }
}
