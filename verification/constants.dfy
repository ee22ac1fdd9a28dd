/** The constants of the integration that the model uses. */
module Constants {

  /** Integration domain, also the prefix of every unique id. */
  const Domain := "villages_events"

  /** Keys of a config entry's data. */
  const ConfUpdateInterval := "update_interval"
  const ConfFavoritePerformers := "favorite_performers"

  /** Update interval bounds and default, in minutes. */
  const DefaultUpdateInterval := 60
  const MinUpdateInterval := 15
  const MaxUpdateInterval := 1440

  /** Retry intervals after the first, second and third consecutive network failure, in minutes. */
  const RetryBackoffMinutes: seq<int> := [15, 30, 60]

  /** Entities are reported unavailable from this many consecutive failures on. */
  const MaxConsecutiveFailures := 3

  /** Entity ids of the two favorite-performer binary sensors. */
  const EntityIdFavoriteToday := "villages_events_favorite_today"
  const EntityIdFavoriteTomorrow := "villages_events_favorite_tomorrow"

  /** Time period identifiers. */
  const PeriodToday := "today"
  const PeriodTomorrow := "tomorrow"
}
