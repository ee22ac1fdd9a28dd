/**
 The update coordinator: its construction from a config entry and one update
 cycle, with the events library's answer and today's date supplied as inputs.
 */
module Coordinator {
  import opened Optional
  import opened Constants
  import opened Text
  import opened Sequences
  import opened Venues
  import opened Favorites
  import opened Backoff

  /** The data of a config entry; a `None` interval is a key the entry does not carry. */
  datatype ConfigEntryData = ConfigEntryData(updateInterval: Option<int>, favorites: FavoriteConfig)

  /** The interval the entry asks for, defaulting to 60 minutes. */
  function ConfiguredInterval(entry: ConfigEntryData): int {
    entry.updateInterval.GetOr(DefaultUpdateInterval)
  }

  datatype CoordinatorState = CoordinatorState(favoritePerformers: seq<string>, tracker: Tracker)

  /**
   The coordinator right after construction: available with no failures, the
   entry's interval (60 minutes when it has none), and the favorites
   normalised: none when unset, clean pieces of a comma-separated string, or
   a list lowercased name by name.
   */
  function Init(entry: ConfigEntryData): (c: CoordinatorState)
    ensures c.tracker.consecutiveFailures == 0 && !Unavailable(c)
    ensures c.tracker.updateInterval
         == if entry.updateInterval.Some? then entry.updateInterval.value else DefaultUpdateInterval
    ensures Reachable(c.tracker, ConfiguredInterval(entry))
    ensures entry.favorites.Unset? ==> c.favoritePerformers == []
    ensures entry.favorites.CommaText? ==>
              forall i :: 0 <= i < |c.favoritePerformers| ==> CleanFavorite(c.favoritePerformers[i])
    ensures entry.favorites.Names? ==>
              && |c.favoritePerformers| == |entry.favorites.names|
              && forall i :: 0 <= i < |entry.favorites.names| ==>
                   c.favoritePerformers[i] == Lower(entry.favorites.names[i])
  {
    var favs := Normalise(entry.favorites);
    assert entry.favorites.CommaText? ==> forall i :: 0 <= i < |favs| ==> CleanFavorite(favs[i]) by {
      if entry.favorites.CommaText? {
        NormaliseTextClean(entry.favorites.text);
      }
    }
    CoordinatorState(favs, Initial(ConfiguredInterval(entry)))
  }

  /** What the events library raised; connection and timeout errors both count as network errors. */
  datatype LibraryError = ImportFailed | ConnectionFailed | TimedOut | Unexpected

  /** The events library's answer for today and tomorrow. */
  datatype Fetch = Records(events: seq<RawEvent>) | Raised(error: LibraryError)

  /** The coordinator's data after a successful update. */
  datatype CoordinatorData = CoordinatorData(venues: VenueMap, favorites: FavoriteResult)

  /** The kind of `UpdateFailed` the cycle raises. */
  datatype UpdateFailed = LibraryNotAvailable | NetworkError | FetchError

  datatype UpdateResult = UpdateResult(state: CoordinatorState, result: Result<CoordinatorData, UpdateFailed>)

  function OutcomeOf(f: Fetch): Outcome {
    match f
    case Records(_) => Fetched
    case Raised(ImportFailed) => LibraryMissing
    case Raised(ConnectionFailed) => NetworkFailure
    case Raised(TimedOut) => NetworkFailure
    case Raised(Unexpected) => OtherFailure
  }

  /**
   The venue view and favorite matches computed from one batch of records:
   no venue twice, none without an event, and favorite flags that agree with
   the favorite lists.
   */
  function Reshape(favs: seq<string>, rs: seq<RawEvent>, today: Date): (d: CoordinatorData)
    ensures Distinct(Keys(d.venues)) && Occupied(d.venues)
    ensures forall p :: d.favorites.Flag(p) <==> |d.favorites.Events(p)| > 0
    ensures favs == [] ==> d.favorites == NoMatches
  {
    var venues := Bucket(rs, today);
    BucketKeysDistinct(rs, today);
    BucketOccupied(rs, today);
    CoordinatorData(venues, MatchFavorites(favs, venues))
  }

  /**
   One update cycle: on records, the new data and a cleared counter; on an
   error, `UpdateFailed` of the matching kind and the failure bookkeeping.
   The favorites never change.
   */
  function Update(c: CoordinatorState, entry: ConfigEntryData, fetch: Fetch, today: Date): (u: UpdateResult)
    ensures u.state.favoritePerformers == c.favoritePerformers
    ensures u.state.tracker == Step(c.tracker, OutcomeOf(fetch), ConfiguredInterval(entry))
    ensures u.result.Success? <==> fetch.Records?
    ensures fetch.Records? ==> u.result.value == Reshape(c.favoritePerformers, fetch.events, today)
    ensures fetch.Records? ==> u.state.tracker.consecutiveFailures == 0
    ensures fetch == Raised(ImportFailed) ==> u == UpdateResult(c, Failure(LibraryNotAvailable))
    ensures fetch == Raised(ConnectionFailed) || fetch == Raised(TimedOut) ==>
              u.result == Failure(NetworkError)
              && u.state.tracker.consecutiveFailures == c.tracker.consecutiveFailures + 1
    ensures fetch == Raised(Unexpected) ==>
              u.result == Failure(FetchError)
              && u.state.tracker == c.tracker.(consecutiveFailures := c.tracker.consecutiveFailures + 1)
  {
    var tracker := Step(c.tracker, OutcomeOf(fetch), ConfiguredInterval(entry));
    var state := c.(tracker := tracker);
    match fetch
    case Records(rs) => UpdateResult(state, Success(Reshape(c.favoritePerformers, rs, today)))
    case Raised(ImportFailed) => UpdateResult(state, Failure(LibraryNotAvailable))
    case Raised(ConnectionFailed) => UpdateResult(state, Failure(NetworkError))
    case Raised(TimedOut) => UpdateResult(state, Failure(NetworkError))
    case Raised(Unexpected) => UpdateResult(state, Failure(FetchError))
  }

  /** `is_unavailable` of the coordinator. */
  predicate Unavailable(c: CoordinatorState) {
    IsUnavailable(c.tracker)
  }

  // ---------------------------------------------------------------------------
  // End-to-end properties of a successful cycle
  // ---------------------------------------------------------------------------

  /**
   After a successful cycle a venue is present exactly when an in-range record
   names it, and its lists are that venue's records of each day, in order.
   */
  lemma UpdateVenues(c: CoordinatorState, entry: ConfigEntryData, rs: seq<RawEvent>, today: Date, name: string)
    ensures Find(Update(c, entry, Records(rs), today).result.value.venues, name)
         == if name in VenueNames(InRange(rs, today))
            then Some(Buckets(Pick(rs, today, name, Today), Pick(rs, today, name, Tomorrow)))
            else None
  {
    BucketFind(rs, today, name);
  }

  /**
   After a successful cycle a (event, venue) pair is a favorite match of a
   period exactly when a record of that venue and day stores as that event
   and its performer contains one of the coordinator's favorites.
   */
  lemma UpdateFavorites(c: CoordinatorState, entry: ConfigEntryData, rs: seq<RawEvent>, today: Date,
                        p: Period, x: FavoriteEvent)
    ensures x in Update(c, entry, Records(rs), today).result.value.favorites.Events(p)
        <==> x.event in Pick(rs, today, x.venue, p) && IsFavorite(c.favoritePerformers, x.event.performer)
  {
    var vs := Bucket(rs, today);
    MatchedMembers(c.favoritePerformers, vs, p, x);
    TaggedMembers(vs, p, x);
    BucketFind(rs, today, x.venue);
    BucketKeysDistinct(rs, today);
    KeysAt(vs);
    FindKeys(vs, x.venue);
    if i :| 0 <= i < |vs| && vs[i].name == x.venue && x.event in vs[i].buckets.Get(p) {
      FindAt(vs, i);
    }
    if x.event in Pick(rs, today, x.venue, p) {
      if x.venue !in VenueNames(InRange(rs, today)) {
        PickAbsent(rs, today, x.venue, p);
      }
      var i :| 0 <= i < |vs| && Keys(vs)[i] == x.venue;
      FindAt(vs, i);
    }
  }

  // ---------------------------------------------------------------------------
  // What the entities see
  // ---------------------------------------------------------------------------

  /**
   The coordinator as its entities read it: its state and the data of the
   last successful update, `None` before the first one. A failed update keeps
   the previous data, as Home Assistant's update coordinator does.
   */
  datatype Snapshot = Snapshot(state: CoordinatorState, data: Option<CoordinatorData>)

  /** The coordinator before its first refresh: available, without failures or data. */
  function Start(entry: ConfigEntryData): (s: Snapshot)
    ensures s.data == None
    ensures s.state.tracker.consecutiveFailures == 0 && !Unavailable(s.state)
    ensures s.state.tracker.updateInterval == ConfiguredInterval(entry)
  {
    Snapshot(Init(entry), None)
  }

  /** One refresh: the update cycle, with its data kept when it succeeds. */
  function Refresh(s: Snapshot, entry: ConfigEntryData, fetch: Fetch, today: Date): (s': Snapshot)
    ensures s'.state == Update(s.state, entry, fetch, today).state
    ensures fetch.Records? ==> s'.data == Some(Reshape(s.state.favoritePerformers, fetch.events, today))
    ensures fetch.Raised? ==> s'.data == s.data
  {
    var u := Update(s.state, entry, fetch, today);
    match u.result
    case Success(d) => Snapshot(u.state, Some(d))
    case Failure(_) => Snapshot(u.state, s.data)
  }

  /** A successful refresh always leaves the entities available. */
  lemma RefreshAvailable(s: Snapshot, entry: ConfigEntryData, rs: seq<RawEvent>, today: Date)
    ensures !Unavailable(Refresh(s, entry, Records(rs), today).state)
  {
  }

  /** Data whose favorite flags agree with its favorite lists, as every reshaped batch's do. */
  predicate Consistent(d: CoordinatorData) {
    forall p :: d.favorites.Flag(p) <==> |d.favorites.Events(p)| > 0
  }

  /** Refreshing keeps the entities' data consistent, from setup on. */
  lemma RefreshConsistent(s: Snapshot, entry: ConfigEntryData, fetch: Fetch, today: Date)
    requires s.data.Some? ==> Consistent(s.data.value)
    ensures Refresh(s, entry, fetch, today).data.Some? ==> Consistent(Refresh(s, entry, fetch, today).data.value)
  {
  }
}
