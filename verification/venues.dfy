/**
 The coordinator's reshaping of raw event records into a per-venue view with
 a `today` and a `tomorrow` list, in the order in which venues first appear.
 */
module Venues {
  import opened Optional
  import opened Sequences
  import opened Constants

  /** A calendar date as a day number; the day after `d` is `d + 1`. */
  type Date = int

  /**
   A start or end time as the events library hands it over, kept opaque:
   a datetime, or any other value shown by its text.
   */
  datatype TimeValue = Instant(stamp: int) | Other(text: string)

  /** Python truthiness of an optional time: a datetime is always truthy, text only when non-empty. */
  predicate Truthy(t: Option<TimeValue>) {
    t.Some? && (t.value.Instant? || |t.value.text| > 0)
  }

  /** One record from the events library; `None` is a key the record does not carry. */
  datatype RawEvent = RawEvent(
    venue: Option<string>,
    date: Option<Date>,
    performer: Option<string>,
    startTime: Option<TimeValue>,
    endTime: Option<TimeValue>,
    eventType: Option<string>)

  /** The event record the coordinator stores under a venue and period. */
  datatype Event = Event(
    performer: string,
    startTime: Option<TimeValue>,
    endTime: Option<TimeValue>,
    eventType: string)

  datatype Period = Today | Tomorrow

  /** The dictionary key under which a period's list is stored. */
  function Key(p: Period): string {
    match p
    case Today => PeriodToday
    case Tomorrow => PeriodTomorrow
  }

  /** The period a dictionary key names, if any. */
  function PeriodNamed(key: string): (p: Option<Period>)
    ensures p.Some? ==> Key(p.value) == key
    ensures p.None? ==> forall q :: Key(q) != key
  {
    if key == PeriodToday then Some(Today)
    else if key == PeriodTomorrow then Some(Tomorrow)
    else None
  }

  /**
   How the entities show a time: a truthy value as its text (`isoformat()`
   for a datetime, `str()` otherwise, both kept opaque here), a falsy one as `None`.
   */
  function FormatTime(t: Option<TimeValue>): (f: Option<TimeValue>)
    ensures f.Some? <==> Truthy(t)
    ensures f.Some? ==> f == t
  {
    if Truthy(t) then t else None
  }

  const UnknownVenue := "Unknown Venue"
  const UnknownPerformer := "Unknown"
  const DefaultEventType := "Event"

  /** The two event lists of one venue. */
  datatype Buckets = Buckets(today: seq<Event>, tomorrow: seq<Event>) {

    function Get(p: Period): seq<Event> {
      match p
      case Today => today
      case Tomorrow => tomorrow
    }

    /** `venue_data.get(key, [])`. */
    function Lookup(key: string): (es: seq<Event>)
      ensures forall p :: key == Key(p) ==> es == Get(p)
      ensures PeriodNamed(key).None? ==> es == []
    {
      match PeriodNamed(key)
      case Some(p) => Get(p)
      case None => []
    }

    function Append(p: Period, e: Event): (b: Buckets)
      ensures b.Get(p) == Get(p) + [e]
      ensures forall q :: q != p ==> b.Get(q) == Get(q)
    {
      match p
      case Today => Buckets(today + [e], tomorrow)
      case Tomorrow => Buckets(today, tomorrow + [e])
    }
  }

  const NoEvents := Buckets([], [])

  datatype VenueEntry = VenueEntry(name: string, buckets: Buckets)

  /** The venue dictionary as a sequence of entries in insertion order. */
  type VenueMap = seq<VenueEntry>

  /** The period a record belongs to: its date is today, tomorrow, or neither (then it is skipped). */
  function Classify(r: RawEvent, today: Date): (p: Option<Period>)
    ensures p == Some(Today) <==> r.date == Some(today)
    ensures p == Some(Tomorrow) <==> r.date == Some(today + 1)
    ensures p == None <==> r.date != Some(today) && r.date != Some(today + 1)
  {
    if r.date == Some(today) then Some(Today)
    else if r.date == Some(today + 1) then Some(Tomorrow)
    else None
  }

  function VenueOf(r: RawEvent): string {
    r.venue.GetOr(UnknownVenue)
  }

  /** The stored form of a record: performer and event type defaulted, times copied. */
  function ToEvent(r: RawEvent): Event {
    Event(r.performer.GetOr(UnknownPerformer), r.startTime, r.endTime, r.eventType.GetOr(DefaultEventType))
  }

  function Keys(vs: VenueMap): seq<string>
    decreases |vs|
  {
    if vs == [] then [] else [vs[0].name] + Keys(vs[1..])
  }

  /** Dictionary lookup by venue name. */
  function Find(vs: VenueMap, name: string): Option<Buckets>
    decreases |vs|
  {
    if vs == [] then None
    else if vs[0].name == name then Some(vs[0].buckets)
    else Find(vs[1..], name)
  }

  /** Appends `e` to the `p` list of venue `name`, creating the venue at the end if it is new. */
  function Add(vs: VenueMap, name: string, p: Period, e: Event): VenueMap
    decreases |vs|
  {
    if vs == [] then [VenueEntry(name, NoEvents.Append(p, e))]
    else if vs[0].name == name then [vs[0].(buckets := vs[0].buckets.Append(p, e))] + vs[1..]
    else [vs[0]] + Add(vs[1..], name, p, e)
  }

  /** The bucketing loop: records are processed first to last, skipping those outside today and tomorrow. */
  function Bucket(rs: seq<RawEvent>, today: Date): VenueMap
    decreases |rs|
  {
    if rs == [] then []
    else
      var prior := Bucket(rs[..|rs| - 1], today);
      var r := rs[|rs| - 1];
      match Classify(r, today)
      case None => prior
      case Some(p) => Add(prior, VenueOf(r), p, ToEvent(r))
  }

  /** Number of events stored over all venues and both periods. */
  function Total(vs: VenueMap): nat
    decreases |vs|
  {
    if vs == [] then 0 else |vs[0].buckets.today| + |vs[0].buckets.tomorrow| + Total(vs[1..])
  }

  // ---------------------------------------------------------------------------
  // Reference definitions: filters over the record sequence
  // ---------------------------------------------------------------------------

  /** The records dated today or tomorrow, in order. */
  function InRange(rs: seq<RawEvent>, today: Date): seq<RawEvent>
    decreases |rs|
  {
    if rs == [] then []
    else (if Classify(rs[0], today).Some? then [rs[0]] else []) + InRange(rs[1..], today)
  }

  /** The venue each record names, in order. */
  function VenueNames(rs: seq<RawEvent>): seq<string>
    decreases |rs|
  {
    if rs == [] then [] else [VenueOf(rs[0])] + VenueNames(rs[1..])
  }

  /** The stored form of every record naming `name` and dated in period `p`, in record order. */
  function Pick(rs: seq<RawEvent>, today: Date, name: string, p: Period): seq<Event>
    decreases |rs|
  {
    if rs == [] then []
    else (if Classify(rs[0], today) == Some(p) && VenueOf(rs[0]) == name then [ToEvent(rs[0])] else [])
         + Pick(rs[1..], today, name, p)
  }

  /** The stored form of every record, in order. */
  function Stored(rs: seq<RawEvent>): seq<Event>
    decreases |rs|
  {
    if rs == [] then [] else [ToEvent(rs[0])] + Stored(rs[1..])
  }

  // ---------------------------------------------------------------------------
  // Lemmas about the venue dictionary
  // ---------------------------------------------------------------------------

  lemma {:induction false} FindKeys(vs: VenueMap, name: string)
    ensures Find(vs, name).Some? <==> name in Keys(vs)
    decreases |vs|
  {
    if vs != [] {
      FindKeys(vs[1..], name);
    }
  }

  lemma {:induction false} AddKeys(vs: VenueMap, name: string, p: Period, e: Event)
    ensures Keys(Add(vs, name, p, e)) == if name in Keys(vs) then Keys(vs) else Keys(vs) + [name]
    decreases |vs|
  {
    if vs != [] && vs[0].name != name {
      AddKeys(vs[1..], name, p, e);
    }
  }

  lemma {:induction false} FindAdd(vs: VenueMap, name: string, p: Period, e: Event, other: string)
    ensures Find(Add(vs, name, p, e), other)
         == if other == name then Some(Find(vs, name).GetOr(NoEvents).Append(p, e)) else Find(vs, other)
    decreases |vs|
  {
    if vs != [] && vs[0].name != name {
      FindAdd(vs[1..], name, p, e, other);
    }
  }

  lemma {:induction false} TotalAdd(vs: VenueMap, name: string, p: Period, e: Event)
    ensures Total(Add(vs, name, p, e)) == Total(vs) + 1
    decreases |vs|
  {
    if vs != [] && vs[0].name != name {
      TotalAdd(vs[1..], name, p, e);
    }
  }

  /** With distinct keys, the entry at index `i` is what a lookup of its name returns. */
  lemma {:induction false} FindAt(vs: VenueMap, i: nat)
    requires i < |vs|
    requires Distinct(Keys(vs))
    ensures Find(vs, vs[i].name) == Some(vs[i].buckets)
    decreases i
  {
    KeysAt(vs);
    if i > 0 {
      assert Keys(vs)[0] != Keys(vs)[i];
      KeysAt(vs[1..]);
      assert Distinct(Keys(vs[1..])) by {
        assert forall k :: 0 <= k < |Keys(vs[1..])| ==> Keys(vs[1..])[k] == Keys(vs)[k + 1];
      }
      FindAt(vs[1..], i - 1);
    }
  }

  lemma {:induction false} KeysAt(vs: VenueMap)
    ensures |Keys(vs)| == |vs|
    ensures forall i :: 0 <= i < |vs| ==> Keys(vs)[i] == vs[i].name
    decreases |vs|
  {
    if vs != [] {
      KeysAt(vs[1..]);
    }
  }

  // ---------------------------------------------------------------------------
  // Appending a record to the reference filters
  // ---------------------------------------------------------------------------

  lemma {:induction false} InRangeSnoc(rs: seq<RawEvent>, r: RawEvent, today: Date)
    ensures InRange(rs + [r], today) == InRange(rs, today) + (if Classify(r, today).Some? then [r] else [])
    decreases |rs|
  {
    if rs == [] {
      assert [r][1..] == [];
    } else {
      var head := if Classify(rs[0], today).Some? then [rs[0]] else [];
      assert (rs + [r])[0] == rs[0];
      assert (rs + [r])[1..] == rs[1..] + [r];
      assert InRange(rs + [r], today) == head + InRange(rs[1..] + [r], today);
      InRangeSnoc(rs[1..], r, today);
      assert InRange(rs, today) == head + InRange(rs[1..], today);
    }
  }

  lemma {:induction false} VenueNamesSnoc(rs: seq<RawEvent>, r: RawEvent)
    ensures VenueNames(rs + [r]) == VenueNames(rs) + [VenueOf(r)]
    decreases |rs|
  {
    if rs == [] {
      assert [r][1..] == [];
    } else {
      assert (rs + [r])[1..] == rs[1..] + [r];
      VenueNamesSnoc(rs[1..], r);
    }
  }

  lemma {:induction false} PickSnoc(rs: seq<RawEvent>, r: RawEvent, today: Date, name: string, p: Period)
    ensures Pick(rs + [r], today, name, p)
         == Pick(rs, today, name, p)
            + (if Classify(r, today) == Some(p) && VenueOf(r) == name then [ToEvent(r)] else [])
    decreases |rs|
  {
    if rs == [] {
      assert [r][1..] == [];
    } else {
      var x := rs[0];
      var h := if Classify(x, today) == Some(p) && VenueOf(x) == name then [ToEvent(x)] else [];
      assert (rs + [r])[0] == x;
      assert (rs + [r])[1..] == rs[1..] + [r];
      assert Pick(rs + [r], today, name, p) == h + Pick(rs[1..] + [r], today, name, p);
      assert Pick(rs, today, name, p) == h + Pick(rs[1..], today, name, p);
      PickSnoc(rs[1..], r, today, name, p);
    }
  }

  /** A venue no in-range record names has no events in either period. */
  lemma {:induction false} PickAbsent(rs: seq<RawEvent>, today: Date, name: string, p: Period)
    requires name !in VenueNames(InRange(rs, today))
    ensures Pick(rs, today, name, p) == []
    decreases |rs|
  {
    if rs != [] {
      var rest := InRange(rs[1..], today);
      if Classify(rs[0], today).Some? {
        assert InRange(rs, today) == [rs[0]] + rest;
        assert VenueNames(InRange(rs, today)) == [VenueOf(rs[0])] + VenueNames(rest);
      } else {
        assert InRange(rs, today) == rest;
      }
      PickAbsent(rs[1..], today, name, p);
    }
  }

  // ---------------------------------------------------------------------------
  // The bucketing properties
  // ---------------------------------------------------------------------------

  /**
   The venue keys are the venues named by in-range records, each once, in the
   order of first appearance; a venue without an in-range event gets no key.
   */
  lemma {:induction false} BucketKeys(rs: seq<RawEvent>, today: Date)
    ensures Keys(Bucket(rs, today)) == Dedup(VenueNames(InRange(rs, today)))
    decreases |rs|
  {
    if rs != [] {
      var rs', r := rs[..|rs| - 1], rs[|rs| - 1];
      assert rs == rs' + [r];
      BucketKeys(rs', today);
      InRangeSnoc(rs', r, today);
      var names := VenueNames(InRange(rs', today));
      if p :| Classify(r, today) == Some(p) {
        VenueNamesSnoc(InRange(rs', today), r);
        DedupSnoc(names, VenueOf(r));
        DedupMembers(names);
        AddKeys(Bucket(rs', today), VenueOf(r), p, ToEvent(r));
      } else {
        assert InRange(rs, today) == InRange(rs', today);
      }
    }
  }

  /** No venue appears twice in the venue dictionary. */
  lemma BucketKeysDistinct(rs: seq<RawEvent>, today: Date)
    ensures Distinct(Keys(Bucket(rs, today)))
  {
    BucketKeys(rs, today);
    DedupDistinct(VenueNames(InRange(rs, today)));
  }

  /**
   Looking up a venue gives exactly the in-range records naming it, split by
   date into today and tomorrow, each list in record order; a venue that no
   in-range record names is absent.
   */
  lemma {:induction false} BucketFind(rs: seq<RawEvent>, today: Date, name: string)
    ensures Find(Bucket(rs, today), name)
         == if name in VenueNames(InRange(rs, today))
            then Some(Buckets(Pick(rs, today, name, Today), Pick(rs, today, name, Tomorrow)))
            else None
    decreases |rs|
  {
    if rs != [] {
      var rs', r := rs[..|rs| - 1], rs[|rs| - 1];
      assert rs == rs' + [r];
      var prior := Bucket(rs', today);
      BucketFind(rs', today, name);
      InRangeSnoc(rs', r, today);
      PickSnoc(rs', r, today, name, Today);
      PickSnoc(rs', r, today, name, Tomorrow);
      if p :| Classify(r, today) == Some(p) {
        var v, e := VenueOf(r), ToEvent(r);
        var names' := VenueNames(InRange(rs', today));
        VenueNamesSnoc(InRange(rs', today), r);
        assert VenueNames(InRange(rs, today)) == names' + [v];
        FindAdd(prior, v, p, e, name);
        var pt, pm := Pick(rs', today, name, Today), Pick(rs', today, name, Tomorrow);
        if name != v {
          assert pt + [] == pt && pm + [] == pm;
        } else {
          if name !in names' {
            PickAbsent(rs', today, name, Today);
            PickAbsent(rs', today, name, Tomorrow);
          }
          assert Find(prior, v).GetOr(NoEvents) == Buckets(pt, pm);
          if p == Today {
            assert pm + [] == pm;
          } else {
            assert pt + [] == pt;
          }
        }
      } else {
        assert InRange(rs, today) == InRange(rs', today);
        assert Pick(rs', today, name, Today) + [] == Pick(rs', today, name, Today);
        assert Pick(rs', today, name, Tomorrow) + [] == Pick(rs', today, name, Tomorrow);
      }
    }
  }

  /** Every in-range record is stored exactly once: the list lengths add up to the number of in-range records. */
  lemma {:induction false} BucketTotal(rs: seq<RawEvent>, today: Date)
    ensures Total(Bucket(rs, today)) == |InRange(rs, today)|
    decreases |rs|
  {
    if rs != [] {
      var rs', r := rs[..|rs| - 1], rs[|rs| - 1];
      assert rs == rs' + [r];
      BucketTotal(rs', today);
      InRangeSnoc(rs', r, today);
      if p :| Classify(r, today) == Some(p) {
        TotalAdd(Bucket(rs', today), VenueOf(r), p, ToEvent(r));
      } else {
        assert InRange(rs, today) == InRange(rs', today);
      }
    }
  }

  /** Every venue in the dictionary holds at least one event. */
  predicate Occupied(vs: VenueMap) {
    forall i :: 0 <= i < |vs| ==> |vs[i].buckets.today| + |vs[i].buckets.tomorrow| > 0
  }

  lemma {:induction false} AddOccupied(vs: VenueMap, name: string, p: Period, e: Event)
    requires Occupied(vs)
    ensures Occupied(Add(vs, name, p, e))
    decreases |vs|
  {
    if vs != [] && vs[0].name != name {
      AddOccupied(vs[1..], name, p, e);
      var rest := Add(vs[1..], name, p, e);
      assert forall i :: 1 <= i < |[vs[0]] + rest| ==> ([vs[0]] + rest)[i] == rest[i - 1];
    }
  }

  /** A venue is only created together with its first event, so no venue ends up with two empty lists. */
  lemma {:induction false} BucketOccupied(rs: seq<RawEvent>, today: Date)
    ensures Occupied(Bucket(rs, today))
    decreases |rs|
  {
    if rs != [] {
      var rs', r := rs[..|rs| - 1], rs[|rs| - 1];
      BucketOccupied(rs', today);
      if p :| Classify(r, today) == Some(p) {
        AddOccupied(Bucket(rs', today), VenueOf(r), p, ToEvent(r));
      }
    }
  }

  /** Each per-venue, per-period list keeps the records' order: it is a subsequence of all stored records. */
  lemma {:induction false} PickInOrder(rs: seq<RawEvent>, today: Date, name: string, p: Period)
    ensures Subseq(Pick(rs, today, name, p), Stored(rs))
    decreases |rs|
  {
    if rs != [] {
      PickInOrder(rs[1..], today, name, p);
      var rest := Pick(rs[1..], today, name, p);
      if Classify(rs[0], today) == Some(p) && VenueOf(rs[0]) == name {
        SubseqCons(ToEvent(rs[0]), rest, Stored(rs[1..]));
      } else {
        SubseqPrepend([ToEvent(rs[0])], rest, Stored(rs[1..]));
        assert Pick(rs, today, name, p) == rest;
        assert Stored(rs) == [ToEvent(rs[0])] + Stored(rs[1..]);
      }
    }
  }

  /** An event is picked exactly when some record of that venue and day stores as it. */
  lemma {:induction false} PickMembers(rs: seq<RawEvent>, today: Date, name: string, p: Period, e: Event)
    ensures e in Pick(rs, today, name, p)
        <==> exists i :: 0 <= i < |rs| && Classify(rs[i], today) == Some(p) && VenueOf(rs[i]) == name
                         && ToEvent(rs[i]) == e
    decreases |rs|
  {
    if rs != [] {
      PickMembers(rs[1..], today, name, p, e);
      if e in Pick(rs[1..], today, name, p) {
        var j :| 0 <= j < |rs[1..]| && Classify(rs[1..][j], today) == Some(p) && VenueOf(rs[1..][j]) == name
                 && ToEvent(rs[1..][j]) == e;
        assert rs[j + 1] == rs[1..][j];
      }
      if i :| 0 <= i < |rs| && Classify(rs[i], today) == Some(p) && VenueOf(rs[i]) == name && ToEvent(rs[i]) == e {
        if i > 0 {
          assert rs[1..][i - 1] == rs[i];
        }
      }
    }
  }
}
