/**
 The sensor platform: two event-count sensors per venue, one for today and
 one for tomorrow, with the venue's events of that day as attributes.
 */
module Sensor {
  import opened Optional
  import opened Constants
  import opened Text
  import opened Sequences
  import opened VenueSlug
  import opened Venues
  import opened Coordinator

  /** A venue sensor as constructed: the venue's name and the period key it shows. */
  datatype VenueSensor = VenueSensor(venueName: string, period: string)

  const EntityIdPrefix := "sensor.villages_events_"

  /** `sensor.villages_events_{slug}_{period}`. */
  function EntityId(e: VenueSensor): string {
    EntityIdPrefix + Slug(e.venueName) + "_" + e.period
  }

  /** `{DOMAIN}_{slug}_{period}`. */
  function UniqueId(e: VenueSensor): string {
    Domain + "_" + Slug(e.venueName) + "_" + e.period
  }

  /** The sensors of some venues: today's, then tomorrow's, venue by venue. */
  function SensorsFor(names: seq<string>): (es: seq<VenueSensor>)
    ensures |es| == 2 * |names|
    ensures forall i :: 0 <= i < |names| ==>
              es[2 * i] == VenueSensor(names[i], PeriodToday) && es[2 * i + 1] == VenueSensor(names[i], PeriodTomorrow)
    decreases |names|
  {
    if names == [] then []
    else
      var rest := SensorsFor(names[1..]);
      assert forall i :: 1 <= i < |names| ==> names[i] == names[1..][i - 1];
      [VenueSensor(names[0], PeriodToday), VenueSensor(names[0], PeriodTomorrow)] + rest
  }

  /** `async_setup_entry`: two sensors for every venue in the coordinator's data, none before the first success. */
  function SetupSensors(data: Option<CoordinatorData>): (es: seq<VenueSensor>)
    ensures data.None? ==> es == []
    ensures data.Some? ==> |es| == 2 * |Keys(data.value.venues)|
  {
    match data
    case None => []
    case Some(d) => SensorsFor(Keys(d.venues))
  }

  /** `native_value`: `None` while unavailable, otherwise the number of the venue's events in the period, 0 without data. */
  function NativeValue(s: Snapshot, e: VenueSensor): (v: Option<nat>)
    ensures v.None? <==> Unavailable(s.state)
    ensures !Unavailable(s.state) && s.data.None? ==> v == Some(0)
    ensures !Unavailable(s.state) && s.data.Some? && Find(s.data.value.venues, e.venueName).None? ==> v == Some(0)
    ensures !Unavailable(s.state) && s.data.Some? && Find(s.data.value.venues, e.venueName).Some? ==>
              v == Some(|Find(s.data.value.venues, e.venueName).value.Lookup(e.period)|)
  {
    if Unavailable(s.state) then None
    else match s.data
      case None => Some(0)
      case Some(d) =>
        match Find(d.venues, e.venueName)
        case None => Some(0)
        case Some(b) => Some(|b.Lookup(e.period)|)
  }

  /** `available`. */
  predicate Available(s: Snapshot) {
    !Unavailable(s.state)
  }

  /** One event as the sensor's attributes show it. */
  datatype ShownEvent = ShownEvent(
    performer: string,
    eventType: string,
    startTime: Option<TimeValue>,
    endTime: Option<TimeValue>)

  function ShowEvent(ev: Event): (x: ShownEvent)
    ensures x.performer == ev.performer && x.eventType == ev.eventType
    ensures x.startTime.Some? <==> Truthy(ev.startTime)
    ensures x.endTime.Some? <==> Truthy(ev.endTime)
  {
    ShownEvent(ev.performer, ev.eventType, FormatTime(ev.startTime), FormatTime(ev.endTime))
  }

  function ShowEvents(evs: seq<Event>): (xs: seq<ShownEvent>)
    ensures |xs| == |evs|
    ensures forall i :: 0 <= i < |evs| ==> xs[i] == ShowEvent(evs[i])
    decreases |evs|
  {
    if evs == [] then [] else [ShowEvent(evs[0])] + ShowEvents(evs[1..])
  }

  /** `extra_state_attributes`; `now` is the clock reading of `dt_util.now()`. */
  datatype SensorAttributes = SensorAttributes(
    venue: string,
    period: string,
    events: seq<ShownEvent>,
    lastUpdated: Option<int>)

  function Attributes(s: Snapshot, e: VenueSensor, now: int): (a: SensorAttributes)
    ensures a.venue == e.venueName && a.period == e.period
    ensures Unavailable(s.state) ==> a.events == [] && a.lastUpdated == None
    ensures !Unavailable(s.state) ==> a.lastUpdated == Some(now)
    ensures s.data.None? ==> a.events == []
    ensures s.data.Some? && Find(s.data.value.venues, e.venueName).None? ==> a.events == []
    ensures !Unavailable(s.state) && s.data.Some? && Find(s.data.value.venues, e.venueName).Some? ==>
              a.events == ShowEvents(Find(s.data.value.venues, e.venueName).value.Lookup(e.period))
  {
    var empty := SensorAttributes(e.venueName, e.period, [], None);
    if Unavailable(s.state) then empty
    else match s.data
      case None => empty.(lastUpdated := Some(now))
      case Some(d) =>
        match Find(d.venues, e.venueName)
        case None => empty.(lastUpdated := Some(now))
        case Some(b) => empty.(events := ShowEvents(b.Lookup(e.period)), lastUpdated := Some(now))
  }

  // ---------------------------------------------------------------------------
  // Lemmas
  // ---------------------------------------------------------------------------

  /** While available, the state is exactly the number of events listed in the attributes. */
  lemma ValueCountsAttributes(s: Snapshot, e: VenueSensor, now: int)
    requires Available(s)
    ensures NativeValue(s, e) == Some(|Attributes(s, e, now).events|)
  {
  }

  /** Setup creates a sensor exactly for each venue of the data and each of the two periods. */
  lemma {:induction false} SensorsForMembers(names: seq<string>, e: VenueSensor)
    ensures e in SensorsFor(names) <==> e.venueName in names && (e.period == PeriodToday || e.period == PeriodTomorrow)
    decreases |names|
  {
    if names != [] {
      SensorsForMembers(names[1..], e);
      var rest := SensorsFor(names[1..]);
      assert SensorsFor(names) == [VenueSensor(names[0], PeriodToday), VenueSensor(names[0], PeriodTomorrow)] + rest;
      assert names == [names[0]] + names[1..];
    }
  }

  lemma CancelAround(a: string, x: string, y: string, c: string)
    requires a + x + c == a + y + c
    ensures x == y
  {
    var u := a + x + c;
    assert |x| == |y|;
    assert x == u[|a|..|a| + |x|];
    assert y == (a + y + c)[|a|..|a| + |y|];
  }

  /** No string ends both in `_today` and in `_tomorrow`. */
  lemma SuffixesDiffer(x: string, y: string)
    requires |x| >= 1 && x[|x| - 1] == '_'
    ensures x + PeriodToday != y + PeriodTomorrow
  {
    var u, v := x + PeriodToday, y + PeriodTomorrow;
    assert u[|u| - 6] == '_';
    assert v[|v| - 6] == 'm';
  }

  /** `{DOMAIN}_{slug}_{period}` determines the slug and the period when the period is one of the two. */
  lemma IdPartsInjective(s1: string, p1: string, s2: string, p2: string)
    requires p1 in {PeriodToday, PeriodTomorrow} && p2 in {PeriodToday, PeriodTomorrow}
    requires Domain + "_" + s1 + "_" + p1 == Domain + "_" + s2 + "_" + p2
    ensures s1 == s2 && p1 == p2
  {
    var head := Domain + "_";
    var x, y := head + s1 + "_", head + s2 + "_";
    assert x[|x| - 1] == '_' && y[|y| - 1] == '_';
    if p1 == PeriodToday && p2 == PeriodTomorrow {
      SuffixesDiffer(x, y);
    } else if p1 == PeriodTomorrow && p2 == PeriodToday {
      SuffixesDiffer(y, x);
    }
    assert p1 == p2;
    assert Domain + "_" + s1 + "_" + p1 == head + s1 + ("_" + p1);
    assert Domain + "_" + s2 + "_" + p2 == head + s2 + ("_" + p1);
    CancelAround(head, s1, s2, "_" + p1);
  }

  /** Two sensors of the two periods have the same unique id only if their venues share a slug and their period. */
  lemma UniqueIdInjective(a: VenueSensor, b: VenueSensor)
    requires a.period in {PeriodToday, PeriodTomorrow} && b.period in {PeriodToday, PeriodTomorrow}
    requires UniqueId(a) == UniqueId(b)
    ensures Slug(a.venueName) == Slug(b.venueName) && a.period == b.period
  {
    IdPartsInjective(Slug(a.venueName), a.period, Slug(b.venueName), b.period);
  }

  /** The `i`-th sensor of setup: venue `i / 2`, today's for even `i`, tomorrow's for odd. */
  lemma {:induction false} SensorAt(names: seq<string>, i: nat)
    requires i < 2 * |names|
    ensures SensorsFor(names)[i].venueName == names[i / 2]
    ensures SensorsFor(names)[i].period == if i % 2 == 0 then PeriodToday else PeriodTomorrow
  {
    var k := i / 2;
    Halves(i, |names|);
    SensorPair(names, k);
    if i % 2 == 0 {
      assert SensorsFor(names)[i] == SensorsFor(names)[2 * k];
    } else {
      assert SensorsFor(names)[i] == SensorsFor(names)[2 * k + 1];
    }
  }

  lemma Halves(i: nat, n: nat)
    requires i < 2 * n
    ensures i / 2 < n
    ensures i % 2 == 0 ==> i == 2 * (i / 2)
    ensures i % 2 != 0 ==> i == 2 * (i / 2) + 1
  {
  }

  lemma {:induction false} SensorPair(names: seq<string>, k: nat)
    requires k < |names|
    ensures SensorsFor(names)[2 * k] == VenueSensor(names[k], PeriodToday)
    ensures SensorsFor(names)[2 * k + 1] == VenueSensor(names[k], PeriodTomorrow)
  {
  }

  /** Setup assigns distinct unique ids as long as no two venues share a slug. */
  lemma SetupIdsDistinct(d: CoordinatorData, i: nat, j: nat)
    requires forall k, l :: 0 <= k < l < |Keys(d.venues)| ==> Slug(Keys(d.venues)[k]) != Slug(Keys(d.venues)[l])
    requires i < j < |SetupSensors(Some(d))|
    ensures UniqueId(SetupSensors(Some(d))[i]) != UniqueId(SetupSensors(Some(d))[j])
  {
    var names := Keys(d.venues);
    var es := SensorsFor(names);
    SensorAt(names, i);
    SensorAt(names, j);
    if UniqueId(es[i]) == UniqueId(es[j]) {
      UniqueIdInjective(es[i], es[j]);
      assert false;
    }
  }

  /** The entity id is the unique id under the `sensor.` domain, so it is just as distinguishing. */
  lemma EntityIdIsDomainOfUniqueId(e: VenueSensor)
    ensures EntityId(e) == "sensor." + UniqueId(e)
  {
    PrefixedId(Slug(e.venueName), e.period);
  }

  lemma PrefixedId(slug: string, period: string)
    ensures EntityIdPrefix + slug + "_" + period == "sensor." + (Domain + "_" + slug + "_" + period)
  {
    assert EntityIdPrefix == "sensor." + Domain + "_";
  }

  /** The unique id ignores the case of the venue name, so two venues differing only in case share their sensors' ids. */
  lemma UniqueIdIgnoresCase(e: VenueSensor)
    ensures UniqueId(e) == UniqueId(e.(venueName := Lower(e.venueName)))
  {
    SlugOfLower(e.venueName);
  }

  // ---------------------------------------------------------------------------
  // End to end: a successful refresh
  // ---------------------------------------------------------------------------

  /** After a successful refresh a sensor's state is the number of its venue's records dated in its period. */
  lemma ValueAfterRefresh(s: Snapshot, entry: ConfigEntryData, rs: seq<RawEvent>, today: Date, name: string, p: Period)
    ensures NativeValue(Refresh(s, entry, Records(rs), today), VenueSensor(name, Key(p)))
         == Some(|Pick(rs, today, name, p)|)
  {
    UpdateVenues(s.state, entry, rs, today, name);
    if name !in VenueNames(InRange(rs, today)) {
      PickAbsent(rs, today, name, p);
    }
  }

  /** After a successful refresh a sensor lists its venue's records of its period, in order, as shown events. */
  lemma EventsAfterRefresh(s: Snapshot, entry: ConfigEntryData, rs: seq<RawEvent>, today: Date, name: string,
                           p: Period, now: int)
    ensures Attributes(Refresh(s, entry, Records(rs), today), VenueSensor(name, Key(p)), now).events
         == ShowEvents(Pick(rs, today, name, p))
  {
    UpdateVenues(s.state, entry, rs, today, name);
    if name !in VenueNames(InRange(rs, today)) {
      PickAbsent(rs, today, name, p);
    }
  }

  /** After a successful refresh the sensors set up are exactly those of the venues named by today's and tomorrow's records. */
  lemma SetupAfterRefresh(s: Snapshot, entry: ConfigEntryData, rs: seq<RawEvent>, today: Date, e: VenueSensor)
    ensures e in SetupSensors(Refresh(s, entry, Records(rs), today).data)
        <==> e.venueName in VenueNames(InRange(rs, today)) && (e.period == PeriodToday || e.period == PeriodTomorrow)
  {
    var vs := Bucket(rs, today);
    SensorsForMembers(Keys(vs), e);
    BucketKeys(rs, today);
    DedupMembers(VenueNames(InRange(rs, today)));
  }

  /** Each shown performer is the record's performer, or `Unknown` when the record carries none. */
  lemma ShownPerformers(s: Snapshot, entry: ConfigEntryData, rs: seq<RawEvent>, today: Date, name: string,
                        p: Period, now: int, x: ShownEvent)
    requires x in Attributes(Refresh(s, entry, Records(rs), today), VenueSensor(name, Key(p)), now).events
    ensures exists i :: 0 <= i < |rs| && Classify(rs[i], today) == Some(p) && VenueOf(rs[i]) == name
                        && x.performer == rs[i].performer.GetOr(UnknownPerformer)
                        && x.eventType == rs[i].eventType.GetOr(DefaultEventType)
  {
    EventsAfterRefresh(s, entry, rs, today, name, p, now);
    var evs := Pick(rs, today, name, p);
    var k :| 0 <= k < |evs| && x == ShowEvents(evs)[k];
    PickMembers(rs, today, name, p, evs[k]);
  }

  // ---------------------------------------------------------------------------
  // Before the first refresh, and after a failed one
  // ---------------------------------------------------------------------------

  /** Before the first refresh, without data, no venue sensor is set up, and any venue sensor would show 0 and no events. */
  lemma StartShowsNothing(entry: ConfigEntryData, e: VenueSensor, now: int)
    ensures SetupSensors(Start(entry).data) == []
    ensures NativeValue(Start(entry), e) == Some(0)
    ensures Attributes(Start(entry), e, now).events == []
    ensures Attributes(Start(entry), e, now).lastUpdated == Some(now)
  {
  }

  /**
   A failed refresh that leaves the coordinator available changes nothing a
   venue sensor shows: the previous data is kept, and the set of sensors with it.
   */
  lemma FailedRefreshKeepsView(s: Snapshot, entry: ConfigEntryData, err: LibraryError, today: Date,
                               e: VenueSensor, now: int)
    requires !Unavailable(Refresh(s, entry, Raised(err), today).state)
    ensures NativeValue(Refresh(s, entry, Raised(err), today), e) == NativeValue(s, e)
    ensures Attributes(Refresh(s, entry, Raised(err), today), e, now) == Attributes(s, e, now)
    ensures SetupSensors(Refresh(s, entry, Raised(err), today).data) == SetupSensors(s.data)
  {
  }
}
