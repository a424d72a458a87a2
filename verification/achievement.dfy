/**
 * The `achievement` package: one local record, normalised from the two
 * shapes in which the RetroAchievements API reports an achievement.
 */
module Achievement {
  import opened Wrappers

  /** The API's timestamp type; the model keeps it as an instant in seconds. */
  datatype DateTime = DateTime(seconds: int)

  /** An entry of a game's progress report (the fields the application reads). */
  datatype GameInfoAchievement = GameInfoAchievement(
    id: int,
    badgeName: string,
    dateEarnedHardcore: Option<DateTime>,
    title: string,
    description: string,
    points: int,
    displayOrder: int)

  /** The featured achievement of the week (the fields the adapter reads). */
  datatype WeekAchievement = WeekAchievement(
    id: int,
    badgeName: string,
    title: string,
    description: string,
    points: int)

  /** The normalised record. An absent hardcore date means "not earned". */
  datatype Achievement = Achievement(
    id: int,
    badgeName: string,
    dateEarnedHardcore: Option<DateTime>,
    title: string,
    description: string,
    points: int,
    displayOrder: int)
  {
    predicate Earned() {
      dateEarnedHardcore.Some?
    }
  }

  /** Adapter for progress entries: every field is carried over unchanged. */
  function FromGetGameInfoAndUserProgressAchievement(a: GameInfoAchievement): (r: Achievement)
    ensures r.id == a.id && r.badgeName == a.badgeName && r.title == a.title
    ensures r.description == a.description && r.points == a.points
    ensures r.dateEarnedHardcore == a.dateEarnedHardcore && r.displayOrder == a.displayOrder
    ensures r.Earned() <==> a.dateEarnedHardcore.Some?
  {
    Achievement(a.id, a.badgeName, a.dateEarnedHardcore, a.title, a.description, a.points, a.displayOrder)
  }

  /**
   * Adapter for the weekly achievement: the shape carries no unlock date and no
   * display order, so the record is never earned and its display order is Go's
   * zero value.
   */
  function FromGetAchievementOfTheWeekAchievement(w: WeekAchievement): (r: Achievement)
    ensures !r.Earned() && r.displayOrder == 0
    ensures r.id == w.id && r.badgeName == w.badgeName && r.title == w.title
    ensures r.description == w.description && r.points == w.points
  {
    Achievement(w.id, w.badgeName, None, w.title, w.description, w.points, 0)
  }

  /** The progress entry a record came from: the inverse of the progress adapter. */
  function ToGameInfoAchievement(r: Achievement): GameInfoAchievement {
    GameInfoAchievement(r.id, r.badgeName, r.dateEarnedHardcore, r.title, r.description, r.points, r.displayOrder)
  }

  /** The weekly entry a record came from, read back from the fields the adapter fills. */
  function ToWeekAchievement(r: Achievement): WeekAchievement {
    WeekAchievement(r.id, r.badgeName, r.title, r.description, r.points)
  }

  /** The progress adapter loses nothing: it is a bijection onto records. */
  lemma GameAdapterRoundTrip(a: GameInfoAchievement, r: Achievement)
    ensures ToGameInfoAchievement(FromGetGameInfoAndUserProgressAchievement(a)) == a
    ensures FromGetGameInfoAndUserProgressAchievement(ToGameInfoAchievement(r)) == r
  {
  }

  /** The weekly adapter loses nothing of its input, and its image is exactly the unearned records in display position 0. */
  lemma WeekAdapterRoundTrip(w: WeekAchievement, r: Achievement)
    ensures ToWeekAchievement(FromGetAchievementOfTheWeekAchievement(w)) == w
    ensures (!r.Earned() && r.displayOrder == 0) <==> FromGetAchievementOfTheWeekAchievement(ToWeekAchievement(r)) == r
  {
  }

  /**
   * The two adapters produce the same record exactly when the progress entry is
   * unearned, has display order 0 and agrees with the weekly entry on the shared fields.
   */
  lemma AdaptersAgree(a: GameInfoAchievement, w: WeekAchievement)
    ensures FromGetGameInfoAndUserProgressAchievement(a) == FromGetAchievementOfTheWeekAchievement(w)
        <==> (a.dateEarnedHardcore.None? && a.displayOrder == 0 &&
              a.id == w.id && a.badgeName == w.badgeName && a.title == w.title &&
              a.description == w.description && a.points == w.points)
  {
  }
}
