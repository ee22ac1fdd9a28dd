/**
 The binary sensor platform: one favorite-performer sensor for today and one
 for tomorrow, on when a favorite performer has an event that day.
 */
module BinarySensor {
  import opened Optional
  import opened Constants
  import opened Venues
  import opened Favorites
  import opened Coordinator

  /** A favorite-performer sensor as constructed: the period key it shows. */
  datatype FavoriteSensor = FavoriteSensor(period: string)

  /** The entity id: the today id for `today`, the tomorrow id for any other period. */
  function EntityId(e: FavoriteSensor): string {
    if e.period == PeriodToday then "binary_sensor." + EntityIdFavoriteToday
    else "binary_sensor." + EntityIdFavoriteTomorrow
  }

  function UniqueId(e: FavoriteSensor): string {
    if e.period == PeriodToday then Domain + "_favorite_today" else Domain + "_favorite_tomorrow"
  }

  /** `async_setup_entry`: always the two sensors, today's first. */
  function SetupFavoriteSensors(): (es: seq<FavoriteSensor>)
    ensures |es| == 2
    ensures EntityId(es[0]) == "binary_sensor." + EntityIdFavoriteToday
    ensures EntityId(es[1]) == "binary_sensor." + EntityIdFavoriteTomorrow
  {
    [FavoriteSensor(PeriodToday), FavoriteSensor(PeriodTomorrow)]
  }

  /** The two sensors set up have different entity ids and different unique ids. */
  lemma SetupIdsDistinct()
    ensures EntityId(SetupFavoriteSensors()[0]) != EntityId(SetupFavoriteSensors()[1])
    ensures UniqueId(SetupFavoriteSensors()[0]) != UniqueId(SetupFavoriteSensors()[1])
  {
    var es := SetupFavoriteSensors();
    assert |EntityId(es[0])| != |EntityId(es[1])|;
    assert |UniqueId(es[0])| != |UniqueId(es[1])|;
  }

  /**
   The ids of the two sensors follow the period key the same way: the entity id
   is `binary_sensor.` followed by the unique id, and two sensors share their ids
   exactly when both or neither are built for `today`.
   */
  lemma IdsByPeriod(k1: string, k2: string)
    ensures EntityId(FavoriteSensor(k1)) == "binary_sensor." + UniqueId(FavoriteSensor(k1))
    ensures UniqueId(FavoriteSensor(k1)) == UniqueId(FavoriteSensor(k2)) <==> (k1 == PeriodToday <==> k2 == PeriodToday)
    ensures EntityId(FavoriteSensor(k1)) == EntityId(FavoriteSensor(k2)) <==> (k1 == PeriodToday <==> k2 == PeriodToday)
  {
    assert EntityIdFavoriteToday == Domain + "_favorite_today";
    assert EntityIdFavoriteTomorrow == Domain + "_favorite_tomorrow";
    var t := UniqueId(FavoriteSensor(PeriodToday));
    var m := UniqueId(FavoriteSensor(PeriodTomorrow));
    assert |t| != |m|;
    assert |"binary_sensor." + t| != |"binary_sensor." + m|;
  }

  /** The favorite flag `is_on` reads: today's for `today`, tomorrow's for any other period. */
  function FlagFor(f: FavoriteResult, period: string): bool {
    if period == PeriodToday then f.favoriteToday else f.favoriteTomorrow
  }

  /** `is_on`: `None` while unavailable, off without data, otherwise the period's favorite flag. */
  function IsOn(s: Snapshot, e: FavoriteSensor): (on: Option<bool>)
    ensures on.None? <==> Unavailable(s.state)
    ensures !Unavailable(s.state) && s.data.None? ==> on == Some(false)
    ensures !Unavailable(s.state) && s.data.Some? ==> on == Some(FlagFor(s.data.value.favorites, e.period))
  {
    if Unavailable(s.state) then None
    else match s.data
      case None => Some(false)
      case Some(d) => Some(FlagFor(d.favorites, e.period))
  }

  /** `available`. */
  predicate Available(s: Snapshot) {
    !Unavailable(s.state)
  }

  /** One matched event as the sensor's attributes show it. */
  datatype ShownMatch = ShownMatch(
    performer: string,
    venue: string,
    startTime: Option<TimeValue>,
    endTime: Option<TimeValue>)

  function ShowMatch(x: FavoriteEvent): (m: ShownMatch)
    ensures m.performer == x.event.performer && m.venue == x.venue
    ensures m.startTime.Some? <==> Truthy(x.event.startTime)
    ensures m.endTime.Some? <==> Truthy(x.event.endTime)
  {
    ShownMatch(x.event.performer, x.venue, FormatTime(x.event.startTime), FormatTime(x.event.endTime))
  }

  function ShowMatches(xs: seq<FavoriteEvent>): (ms: seq<ShownMatch>)
    ensures |ms| == |xs|
    ensures forall i :: 0 <= i < |xs| ==> ms[i] == ShowMatch(xs[i])
    decreases |xs|
  {
    if xs == [] then [] else [ShowMatch(xs[0])] + ShowMatches(xs[1..])
  }

  /** `favorite_events.get(period, [])`. */
  function MatchesFor(f: FavoriteResult, period: string): (xs: seq<FavoriteEvent>)
    ensures forall p :: period == Key(p) ==> xs == f.Events(p)
    ensures PeriodNamed(period).None? ==> xs == []
  {
    match PeriodNamed(period)
    case Some(p) => f.Events(p)
    case None => []
  }

  datatype FavoriteAttributes = FavoriteAttributes(
    favoritePerformers: seq<string>,
    matchingEvents: seq<ShownMatch>,
    count: nat)

  /** `extra_state_attributes`: empty while unavailable; the favorites, and without data nothing else. */
  function Attributes(s: Snapshot, e: FavoriteSensor): (a: FavoriteAttributes)
    ensures a.count == |a.matchingEvents|
    ensures Unavailable(s.state) ==> a == FavoriteAttributes([], [], 0)
    ensures !Unavailable(s.state) ==> a.favoritePerformers == s.state.favoritePerformers
    ensures s.data.None? ==> a.matchingEvents == []
    ensures !Unavailable(s.state) && s.data.Some? ==>
              a.matchingEvents == ShowMatches(MatchesFor(s.data.value.favorites, e.period))
  {
    if Unavailable(s.state) then FavoriteAttributes([], [], 0)
    else match s.data
      case None => FavoriteAttributes(s.state.favoritePerformers, [], 0)
      case Some(d) =>
        var shown := ShowMatches(MatchesFor(d.favorites, e.period));
        FavoriteAttributes(s.state.favoritePerformers, shown, |shown|)
  }

  // ---------------------------------------------------------------------------
  // Lemmas
  // ---------------------------------------------------------------------------

  /** With consistent data, a sensor of either period is on exactly when its attributes count a match. */
  lemma OnIffCounted(s: Snapshot, e: FavoriteSensor)
    requires Available(s) && s.data.Some? && Consistent(s.data.value)
    requires e.period == PeriodToday || e.period == PeriodTomorrow
    ensures IsOn(s, e) == Some(Attributes(s, e).count > 0)
  {
    var p := if e.period == PeriodToday then Today else Tomorrow;
    assert e.period == Key(p);
  }

  /** A sensor built with another period key reads tomorrow's flag but lists no matches. */
  lemma OtherPeriodKey(s: Snapshot, e: FavoriteSensor)
    requires e.period != PeriodToday && e.period != PeriodTomorrow
    ensures IsOn(s, e) == IsOn(s, FavoriteSensor(PeriodTomorrow))
    ensures Attributes(s, e).matchingEvents == [] && Attributes(s, e).count == 0
  {
  }

  /**
   After a successful refresh the sensor of period `p` is on exactly when some
   record dated in `p` has a performer containing one of the favorites.
   */
  lemma OnAfterRefresh(s: Snapshot, entry: ConfigEntryData, rs: seq<RawEvent>, today: Date, p: Period)
    ensures IsOn(Refresh(s, entry, Records(rs), today), FavoriteSensor(Key(p)))
         == Some(exists i :: 0 <= i < |rs| && Classify(rs[i], today) == Some(p)
                             && IsFavorite(s.state.favoritePerformers, ToEvent(rs[i]).performer))
  {
    var f := Reshape(s.state.favoritePerformers, rs, today).favorites;
    assert FlagFor(f, Key(p)) == f.Flag(p);
    if |f.Events(p)| > 0 {
      MatchedOnlyIfFavoriteRecord(s.state, entry, rs, today, p);
    }
    if exists i :: 0 <= i < |rs| && Classify(rs[i], today) == Some(p)
                   && IsFavorite(s.state.favoritePerformers, ToEvent(rs[i]).performer) {
      MatchedIfFavoriteRecord(s.state, entry, rs, today, p);
    }
  }

  lemma MatchedOnlyIfFavoriteRecord(c: CoordinatorState, entry: ConfigEntryData, rs: seq<RawEvent>, today: Date, p: Period)
    requires |Reshape(c.favoritePerformers, rs, today).favorites.Events(p)| > 0
    ensures exists i :: 0 <= i < |rs| && Classify(rs[i], today) == Some(p)
                        && IsFavorite(c.favoritePerformers, ToEvent(rs[i]).performer)
  {
    var x := Reshape(c.favoritePerformers, rs, today).favorites.Events(p)[0];
    UpdateFavorites(c, entry, rs, today, p, x);
    PickMembers(rs, today, x.venue, p, x.event);
  }

  lemma MatchedIfFavoriteRecord(c: CoordinatorState, entry: ConfigEntryData, rs: seq<RawEvent>, today: Date, p: Period)
    requires exists i :: 0 <= i < |rs| && Classify(rs[i], today) == Some(p)
                         && IsFavorite(c.favoritePerformers, ToEvent(rs[i]).performer)
    ensures |Reshape(c.favoritePerformers, rs, today).favorites.Events(p)| > 0
  {
    var i :| 0 <= i < |rs| && Classify(rs[i], today) == Some(p)
             && IsFavorite(c.favoritePerformers, ToEvent(rs[i]).performer);
    var x := FavoriteEvent(ToEvent(rs[i]), VenueOf(rs[i]));
    PickMembers(rs, today, x.venue, p, x.event);
    UpdateFavorites(c, entry, rs, today, p, x);
  }

  /** After a successful refresh the listed matches are the period's favorite events in the coordinator's order. */
  lemma MatchesAfterRefresh(s: Snapshot, entry: ConfigEntryData, rs: seq<RawEvent>, today: Date, p: Period)
    ensures Attributes(Refresh(s, entry, Records(rs), today), FavoriteSensor(Key(p))).matchingEvents
         == ShowMatches(Reshape(s.state.favoritePerformers, rs, today).favorites.Events(p))
  {
  }

  /** Before the first refresh, without data, both sensors are off and list no matches, only the favorites. */
  lemma StartIsOff(entry: ConfigEntryData, e: FavoriteSensor)
    ensures IsOn(Start(entry), e) == Some(false)
    ensures Attributes(Start(entry), e) == FavoriteAttributes(Init(entry).favoritePerformers, [], 0)
  {
  }

  /** A failed refresh that leaves the coordinator available changes nothing a favorite sensor shows. */
  lemma FailedRefreshKeepsView(s: Snapshot, entry: ConfigEntryData, err: LibraryError, today: Date, e: FavoriteSensor)
    requires !Unavailable(Refresh(s, entry, Raised(err), today).state)
    ensures IsOn(Refresh(s, entry, Raised(err), today), e) == IsOn(s, e)
    ensures Attributes(Refresh(s, entry, Raised(err), today), e) == Attributes(s, e)
  {
  }
}
