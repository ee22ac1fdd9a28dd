/**
 Favorite performers: how the coordinator normalises the configured list and
 how it finds, per period, the events whose performer contains a favorite.
 */
module Favorites {
  import opened Text
  import opened Sequences
  import opened Venues

  /** The favorites value of a config entry: absent, one comma-separated string, or a list of names. */
  datatype FavoriteConfig = Unset | CommaText(text: string) | Names(names: seq<string>)

  /** Every piece stripped. */
  function StripAll(pieces: seq<string>): (ss: seq<string>)
    ensures |ss| == |pieces|
    ensures forall i :: 0 <= i < |pieces| ==> ss[i] == Strip(pieces[i])
  {
    seq(|pieces|, i requires 0 <= i < |pieces| => Strip(pieces[i]))
  }

  /** The non-empty strings, in order. */
  function NonBlank(xs: seq<string>): (ys: seq<string>)
    ensures forall i :: 0 <= i < |ys| ==> ys[i] != [] && ys[i] in xs
    decreases |xs|
  {
    if xs == [] then []
    else (if xs[0] != [] then [xs[0]] else []) + NonBlank(xs[1..])
  }

  /** Pieces of a comma-separated string: each stripped, blank pieces dropped, the rest lowercased. */
  function NormalisePieces(pieces: seq<string>): seq<string> {
    LowerAll(NonBlank(StripAll(pieces)))
  }

  function LowerAll(names: seq<string>): (r: seq<string>)
    ensures |r| == |names|
    ensures forall i :: 0 <= i < |names| ==> r[i] == Lower(names[i])
  {
    seq(|names|, i requires 0 <= i < |names| => Lower(names[i]))
  }

  /** The coordinator's favorites list, from whichever form the config entry holds. */
  function Normalise(c: FavoriteConfig): seq<string> {
    match c
    case Unset => []
    case CommaText(s) => NormalisePieces(Split(s, ','))
    case Names(ns) => LowerAll(ns)
  }

  predicate IsLowercase(s: string) {
    forall i :: 0 <= i < |s| ==> !('A' <= s[i] <= 'Z')
  }

  /** A favorite parsed from text: non-empty, stripped, lowercase and without a comma. */
  predicate CleanFavorite(f: string) {
    f != [] && IsStripped(f) && IsLowercase(f) && ',' !in f
  }

  /** Some favorite is a substring of the lowercased performer name. */
  function IsFavorite(favs: seq<string>, performer: string): bool
    decreases |favs|
  {
    favs != [] && (Contains(Lower(performer), favs[0]) || IsFavorite(favs[1..], performer))
  }

  /** A matched event together with the venue it was listed under. */
  datatype FavoriteEvent = FavoriteEvent(event: Event, venue: string)

  datatype FavoriteResult = FavoriteResult(
    favoriteToday: bool,
    favoriteTomorrow: bool,
    eventsToday: seq<FavoriteEvent>,
    eventsTomorrow: seq<FavoriteEvent>)
  {
    function Flag(p: Period): bool {
      match p
      case Today => favoriteToday
      case Tomorrow => favoriteTomorrow
    }

    function Events(p: Period): seq<FavoriteEvent> {
      match p
      case Today => eventsToday
      case Tomorrow => eventsTomorrow
    }
  }

  const NoMatches := FavoriteResult(false, false, [], [])

  /** The favorite events of one venue's list, each tagged with the venue. */
  function MatchVenue(favs: seq<string>, name: string, events: seq<Event>): seq<FavoriteEvent>
    decreases |events|
  {
    if events == [] then []
    else (if IsFavorite(favs, events[0].performer) then [FavoriteEvent(events[0], name)] else [])
         + MatchVenue(favs, name, events[1..])
  }

  /** The favorite events of period `p`, venue by venue in dictionary order. */
  function MatchPeriod(favs: seq<string>, vs: VenueMap, p: Period): seq<FavoriteEvent>
    decreases |vs|
  {
    if vs == [] then []
    else MatchVenue(favs, vs[0].name, vs[0].buckets.Get(p)) + MatchPeriod(favs, vs[1..], p)
  }

  /** The favorite-performer part of the coordinator's data; with no favorites nothing is scanned. */
  function MatchFavorites(favs: seq<string>, vs: VenueMap): (r: FavoriteResult)
    ensures forall p :: r.Flag(p) <==> |r.Events(p)| > 0
    ensures favs == [] ==> r == NoMatches
  {
    if favs == [] then NoMatches
    else
      var today := MatchPeriod(favs, vs, Today);
      var tomorrow := MatchPeriod(favs, vs, Tomorrow);
      FavoriteResult(|today| > 0, |tomorrow| > 0, today, tomorrow)
  }

  // ---------------------------------------------------------------------------
  // Reference definitions: every event of a period, tagged, then filtered
  // ---------------------------------------------------------------------------

  function Tag(name: string, events: seq<Event>): seq<FavoriteEvent>
    decreases |events|
  {
    if events == [] then [] else [FavoriteEvent(events[0], name)] + Tag(name, events[1..])
  }

  /** All events of period `p` over all venues in dictionary order, each tagged with its venue. */
  function Tagged(vs: VenueMap, p: Period): seq<FavoriteEvent>
    decreases |vs|
  {
    if vs == [] then [] else Tag(vs[0].name, vs[0].buckets.Get(p)) + Tagged(vs[1..], p)
  }

  function KeepFavorites(favs: seq<string>, xs: seq<FavoriteEvent>): seq<FavoriteEvent>
    decreases |xs|
  {
    if xs == [] then []
    else (if IsFavorite(favs, xs[0].event.performer) then [xs[0]] else []) + KeepFavorites(favs, xs[1..])
  }

  // ---------------------------------------------------------------------------
  // Lemmas
  // ---------------------------------------------------------------------------

  /** The favorite test is case-insensitive substring search: some favorite occurs in the lowercased performer. */
  lemma {:induction false} IsFavoriteIff(favs: seq<string>, performer: string)
    ensures IsFavorite(favs, performer)
        <==> exists i, k :: 0 <= i < |favs| && OccursAt(favs[i], Lower(performer), k)
    decreases |favs|
  {
    if favs != [] {
      IsFavoriteIff(favs[1..], performer);
      ContainsIffOccurs(Lower(performer), favs[0]);
      if IsFavorite(favs, performer) {
        if Contains(Lower(performer), favs[0]) {
          var k :| OccursAt(favs[0], Lower(performer), k);
          assert OccursAt(favs[0], Lower(performer), k);
        } else {
          var i, k :| 0 <= i < |favs[1..]| && OccursAt(favs[1..][i], Lower(performer), k);
          assert OccursAt(favs[i + 1], Lower(performer), k);
        }
      }
      if i, k :| 0 <= i < |favs| && OccursAt(favs[i], Lower(performer), k) {
        if i > 0 {
          assert OccursAt(favs[1..][i - 1], Lower(performer), k);
        }
      }
    }
  }

  lemma LowerKeepsShape(s: string)
    ensures |Lower(s)| == |s|
    ensures IsLowercase(Lower(s))
    ensures IsStripped(s) ==> IsStripped(Lower(s))
    ensures ',' !in s ==> ',' !in Lower(s)
  {
  }

  /** Stripped pieces of a comma split are stripped and comma-free. */
  lemma StrippedPieces(s: string)
    ensures forall x :: x in StripAll(Split(s, ',')) ==> IsStripped(x) && ',' !in x
  {
    var pieces := Split(s, ',');
    forall i | 0 <= i < |pieces| ensures IsStripped(StripAll(pieces)[i]) && ',' !in StripAll(pieces)[i] {
      StripResult(pieces[i]);
    }
  }

  /** Favorites read from a comma-separated string are clean: non-empty, stripped, lowercase, comma-free. */
  lemma NormaliseTextClean(s: string)
    ensures forall i :: 0 <= i < |Normalise(CommaText(s))| ==> CleanFavorite(Normalise(CommaText(s))[i])
  {
    StrippedPieces(s);
    var kept := NonBlank(StripAll(Split(s, ',')));
    forall i | 0 <= i < |kept| ensures CleanFavorite(Lower(kept[i])) {
      LowerKeepsShape(kept[i]);
    }
  }

  /**
   A list of names is only lowercased: every name keeps its length, an empty
   name stays empty, and surrounding whitespace is kept.
   */
  lemma NormaliseNamesKeepsWhitespace(ns: seq<string>)
    ensures |Normalise(Names(ns))| == |ns|
    ensures forall i :: 0 <= i < |ns| ==>
      |Normalise(Names(ns))[i]| == |ns[i]| && (IsStripped(Normalise(Names(ns))[i]) <==> IsStripped(ns[i]))
  {
  }

  lemma {:induction false} KeepFavoritesConcat(favs: seq<string>, a: seq<FavoriteEvent>, b: seq<FavoriteEvent>)
    ensures KeepFavorites(favs, a + b) == KeepFavorites(favs, a) + KeepFavorites(favs, b)
    decreases |a|
  {
    if a == [] {
      assert a + b == b;
    } else {
      var h := if IsFavorite(favs, a[0].event.performer) then [a[0]] else [];
      assert (a + b)[0] == a[0];
      assert (a + b)[1..] == a[1..] + b;
      assert KeepFavorites(favs, a + b) == h + KeepFavorites(favs, a[1..] + b);
      assert KeepFavorites(favs, a) == h + KeepFavorites(favs, a[1..]);
      KeepFavoritesConcat(favs, a[1..], b);
    }
  }

  lemma {:induction false} MatchVenueIsFilter(favs: seq<string>, name: string, events: seq<Event>)
    ensures MatchVenue(favs, name, events) == KeepFavorites(favs, Tag(name, events))
    decreases |events|
  {
    if events != [] {
      MatchVenueIsFilter(favs, name, events[1..]);
      assert Tag(name, events) == [FavoriteEvent(events[0], name)] + Tag(name, events[1..]);
    }
  }

  /** Scanning venue by venue is the same as filtering the tagged events of the period in one pass. */
  lemma {:induction false} MatchPeriodIsFilter(favs: seq<string>, vs: VenueMap, p: Period)
    ensures MatchPeriod(favs, vs, p) == KeepFavorites(favs, Tagged(vs, p))
    decreases |vs|
  {
    if vs != [] {
      MatchPeriodIsFilter(favs, vs[1..], p);
      MatchVenueIsFilter(favs, vs[0].name, vs[0].buckets.Get(p));
      KeepFavoritesConcat(favs, Tag(vs[0].name, vs[0].buckets.Get(p)), Tagged(vs[1..], p));
    }
  }

  lemma {:induction false} KeepFavoritesMembers(favs: seq<string>, xs: seq<FavoriteEvent>, x: FavoriteEvent)
    ensures x in KeepFavorites(favs, xs) <==> x in xs && IsFavorite(favs, x.event.performer)
    decreases |xs|
  {
    if xs != [] {
      KeepFavoritesMembers(favs, xs[1..], x);
      assert xs == [xs[0]] + xs[1..];
    }
  }

  lemma {:induction false} KeepFavoritesInOrder(favs: seq<string>, xs: seq<FavoriteEvent>)
    ensures Subseq(KeepFavorites(favs, xs), xs)
    decreases |xs|
  {
    if xs != [] {
      KeepFavoritesInOrder(favs, xs[1..]);
      var rest := KeepFavorites(favs, xs[1..]);
      assert xs == [xs[0]] + xs[1..];
      if IsFavorite(favs, xs[0].event.performer) {
        SubseqCons(xs[0], rest, xs[1..]);
      } else {
        SubseqPrepend([xs[0]], rest, xs[1..]);
        assert KeepFavorites(favs, xs) == rest;
      }
    }
  }

  lemma {:induction false} TagMembers(name: string, events: seq<Event>, x: FavoriteEvent)
    ensures x in Tag(name, events) <==> x.venue == name && x.event in events
    decreases |events|
  {
    if events != [] {
      TagMembers(name, events[1..], x);
      assert events == [events[0]] + events[1..];
    }
  }

  /** A tagged event of period `p` is an event of some venue's `p` list, tagged with that venue's name. */
  lemma {:induction false} TaggedMembers(vs: VenueMap, p: Period, x: FavoriteEvent)
    ensures x in Tagged(vs, p)
        <==> exists i :: 0 <= i < |vs| && vs[i].name == x.venue && x.event in vs[i].buckets.Get(p)
    decreases |vs|
  {
    if vs != [] {
      TaggedMembers(vs[1..], p, x);
      TagMembers(vs[0].name, vs[0].buckets.Get(p), x);
      if i :| 0 <= i < |vs[1..]| && vs[1..][i].name == x.venue && x.event in vs[1..][i].buckets.Get(p) {
        assert vs[i + 1] == vs[1..][i];
      }
      if i :| 0 <= i < |vs| && vs[i].name == x.venue && x.event in vs[i].buckets.Get(p) {
        if i > 0 {
          assert vs[1..][i - 1] == vs[i];
        }
      }
    }
  }

  /**
   An entry is in a period's matched list exactly when it is an event of that
   period at its venue whose performer contains a favorite; with no favorites
   both lists are empty.
   */
  lemma MatchedMembers(favs: seq<string>, vs: VenueMap, p: Period, x: FavoriteEvent)
    ensures x in MatchFavorites(favs, vs).Events(p)
        <==> x in Tagged(vs, p) && IsFavorite(favs, x.event.performer)
  {
    if favs != [] {
      MatchPeriodIsFilter(favs, vs, p);
      KeepFavoritesMembers(favs, Tagged(vs, p), x);
    }
  }

  /** Each period's matched list is a subsequence, in venue order, of that period's tagged events. */
  lemma MatchedInOrder(favs: seq<string>, vs: VenueMap, p: Period)
    ensures Subseq(MatchFavorites(favs, vs).Events(p), Tagged(vs, p))
  {
    if favs != [] {
      MatchPeriodIsFilter(favs, vs, p);
      KeepFavoritesInOrder(favs, Tagged(vs, p));
    }
  }
}
