/**
 The config flow and the options flow: validating the update interval and
 parsing the comma-separated favorite performers into a config entry, and
 pre-filling the options form from an existing entry.
 */
module ConfigFlow {
  import opened Optional
  import opened Constants
  import opened Text
  import opened Favorites
  import opened Coordinator

  /** The update interval field of a submitted form: left out, an `int`, or a value of another type. */
  datatype IntervalInput = Absent | Whole(n: int) | NotWhole

  /** A submitted form; a `None` favorites field is a key the form does not carry. */
  datatype UserInput = UserInput(interval: IntervalInput, favorites: Option<string>)

  /** What a flow step answers: a new entry, or the form again with its errors and defaults. */
  datatype FlowResult =
    | CreateEntry(title: string, data: ConfigEntryData)
    | ShowForm(stepId: string, errors: map<string, string>, defaultInterval: int, defaultFavorites: string)

  const InvalidUpdateInterval := "invalid_update_interval"
  const EntryTitle := "The Villages Events"

  /** The error map of a rejected interval. */
  const IntervalError := map[ConfUpdateInterval := InvalidUpdateInterval]

  /** The interval fields the flows accept: left out (the default 60 applies), or a whole number of minutes in 15..1440. */
  predicate IntervalAccepted(i: IntervalInput) {
    i.Absent? || (i.Whole? && MinUpdateInterval <= i.n <= MaxUpdateInterval)
  }

  /** A favorite as the flows store it: non-empty, stripped and without a comma. */
  predicate ParsedName(f: string) {
    f != [] && IsStripped(f) && ',' !in f
  }

  /** The favorites field as both flows parse it: nothing for an empty string, else the non-blank stripped pieces. */
  function ParseFavorites(s: string): (fs: seq<string>)
    ensures forall i :: 0 <= i < |fs| ==> ParsedName(fs[i])
    ensures s == [] ==> fs == []
  {
    if s == [] then []
    else
      StrippedPieces(s);
      NonBlank(StripAll(Split(s, ',')))
  }

  /** The interval after `.get` with the default, when it is an `int`. */
  function IntervalValue(i: IntervalInput): Option<int> {
    match i
    case Absent => Some(DefaultUpdateInterval)
    case Whole(n) => Some(n)
    case NotWhole => None
  }

  /**
   The validation both flows share: the entry's data when the interval is
   accepted, the interval error otherwise.
   */
  function Validate(u: UserInput): (r: Result<ConfigEntryData, map<string, string>>)
    ensures r.Success? <==> IntervalAccepted(u.interval)
    ensures r.Failure? ==> r.error == IntervalError
    ensures r.Success? && u.interval.Absent? ==> r.value.updateInterval == Some(DefaultUpdateInterval)
    ensures r.Success? && u.interval.Whole? ==> r.value.updateInterval == Some(u.interval.n)
    ensures r.Success? ==> r.value.favorites == Names(ParseFavorites(u.favorites.GetOr("")))
  {
    var interval := IntervalValue(u.interval);
    var favorites := ParseFavorites(u.favorites.GetOr(""));
    if interval.Some? && MinUpdateInterval <= interval.value <= MaxUpdateInterval
    then Success(ConfigEntryData(interval, Names(favorites)))
    else Failure(IntervalError)
  }

  /** `async_step_user`: the empty form first, then the entry or the form with the interval error. */
  function StepUser(input: Option<UserInput>): (r: FlowResult)
    ensures input.None? ==> r == ShowForm("user", map[], DefaultUpdateInterval, "")
    ensures input.Some? && IntervalAccepted(input.value.interval) ==>
              r == CreateEntry(EntryTitle, Validate(input.value).value)
    ensures input.Some? && !IntervalAccepted(input.value.interval) ==>
              r == ShowForm("user", IntervalError, DefaultUpdateInterval, "")
  {
    match input
    case None => ShowForm("user", map[], DefaultUpdateInterval, "")
    case Some(u) =>
      match Validate(u)
      case Success(d) => CreateEntry(EntryTitle, d)
      case Failure(errors) => ShowForm("user", errors, DefaultUpdateInterval, "")
  }

  /** One string per character: what iterating over a Python string gives. */
  function Characters(t: string): (cs: seq<string>)
    ensures |cs| == |t|
    ensures forall i :: 0 <= i < |t| ==> cs[i] == [t[i]]
  {
    seq(|t|, i requires 0 <= i < |t| => [t[i]])
  }

  /**
   The favorites shown in the options form: the stored list joined by ", ";
   a stored string is iterated character by character; no favorites show as "".
   */
  function Prefill(c: FavoriteConfig): string {
    match c
    case Unset => ""
    case Names(ns) => Join(ns, ", ")
    case CommaText(t) => Join(Characters(t), ", ")
  }

  /**
   `async_step_init` of the options flow: the form pre-filled from the entry,
   then the same validation as the config flow, under an empty title.
   */
  function StepInit(entry: ConfigEntryData, input: Option<UserInput>): (r: FlowResult)
    ensures input.None? ==> r == ShowForm("init", map[], ConfiguredInterval(entry), Prefill(entry.favorites))
    ensures input.Some? && IntervalAccepted(input.value.interval) ==>
              r == CreateEntry("", Validate(input.value).value)
    ensures input.Some? && !IntervalAccepted(input.value.interval) ==>
              r == ShowForm("init", IntervalError, ConfiguredInterval(entry), Prefill(entry.favorites))
  {
    var form := ShowForm("init", map[], ConfiguredInterval(entry), Prefill(entry.favorites));
    match input
    case None => form
    case Some(u) =>
      match Validate(u)
      case Success(d) => CreateEntry("", d)
      case Failure(errors) => form.(errors := errors)
  }

  // ---------------------------------------------------------------------------
  // Lemmas
  // ---------------------------------------------------------------------------

  /** Both flows accept a submission exactly when the other does, and store the same data. */
  lemma StepsAgree(entry: ConfigEntryData, u: UserInput)
    ensures StepUser(Some(u)).CreateEntry? <==> StepInit(entry, Some(u)).CreateEntry?
    ensures StepUser(Some(u)).CreateEntry? ==> StepUser(Some(u)).data == StepInit(entry, Some(u)).data
    ensures StepUser(Some(u)).ShowForm? ==> StepUser(Some(u)).errors == StepInit(entry, Some(u)).errors
  {
  }

  /** `NonBlank` keeps exactly the non-empty names. */
  lemma {:induction false} NonBlankMembers(xs: seq<string>, x: string)
    ensures x in NonBlank(xs) <==> x != [] && x in xs
    decreases |xs|
  {
    if xs != [] {
      NonBlankMembers(xs[1..], x);
      assert xs == [xs[0]] + xs[1..];
    }
  }

  /** `NonBlank` keeps a list without empty names whole. */
  lemma {:induction false} NonBlankAll(xs: seq<string>)
    requires forall i :: 0 <= i < |xs| ==> xs[i] != []
    ensures NonBlank(xs) == xs
    decreases |xs|
  {
    if xs != [] {
      NonBlankAll(xs[1..]);
      assert [xs[0]] + xs[1..] == xs;
    }
  }

  /** A name is parsed from the favorites text exactly when it is the non-empty strip of one of its comma pieces. */
  lemma ParsedMembers(s: string, x: string)
    ensures x in ParseFavorites(s) <==> x != [] && exists piece :: piece in Split(s, ',') && Strip(piece) == x
  {
    var pieces := Split(s, ',');
    if s == [] {
      assert pieces == [[]];
      assert Strip([]) == [];
    } else {
      NonBlankMembers(StripAll(pieces), x);
      if piece :| piece in pieces && Strip(piece) == x {
        var i :| 0 <= i < |pieces| && pieces[i] == piece;
        assert StripAll(pieces)[i] == x;
      }
    }
  }

  /** An empty favorites string gives no favorites, to the flows and to the coordinator alike. */
  lemma EmptyFavoritesText()
    ensures ParseFavorites([]) == []
    ensures Normalise(CommaText([])) == []
  {
    assert Split([], ',') == [[]];
    assert Strip([]) == [];
    assert StripAll([[]]) == [[]];
  }

  /** The coordinator reads favorites text as the lowercased names the flows parse from it. */
  lemma NormaliseParsed(s: string)
    ensures Normalise(CommaText(s)) == Normalise(Names(ParseFavorites(s)))
  {
    if s == [] {
      EmptyFavoritesText();
    }
  }

  /**
   An entry created from favorites text gives the coordinator the same
   favorites it would read from that text stored as is.
   */
  lemma ParsedEntryNormalises(u: UserInput)
    requires IntervalAccepted(u.interval)
    ensures Init(Validate(u).value).favoritePerformers == Normalise(CommaText(u.favorites.GetOr("")))
  {
    NormaliseParsed(u.favorites.GetOr(""));
  }

  /** `pad + x` for every name `x`. */
  function Padded(pad: string, xs: seq<string>): (ps: seq<string>)
    ensures |ps| == |xs|
    ensures forall i :: 0 <= i < |xs| ==> ps[i] == pad + xs[i]
  {
    seq(|xs|, i requires 0 <= i < |xs| => pad + xs[i])
  }

  lemma JoinHead(a: string, y: string, ps: seq<string>, glue: string)
    ensures Join([a + y] + ps, glue) == a + Join([y] + ps, glue)
  {
    if ps != [] {
      JoinCons(a + y, ps, glue);
      JoinCons(y, ps, glue);
    }
  }

  /** Joining with `sep + pad` is joining with `sep` after `pad` is put in front of every name but the first. */
  lemma {:induction false} JoinPadded(x: string, xs: seq<string>, sep: string, pad: string)
    ensures Join([x] + xs, sep + pad) == Join([x] + Padded(pad, xs), sep)
    decreases |xs|
  {
    if xs != [] {
      var y, rest := xs[0], xs[1..];
      var ps := Padded(pad, rest);
      JoinPadded(y, rest, sep, pad);
      assert [y] + rest == xs;
      JoinCons(x, xs, sep + pad);
      assert Padded(pad, xs) == [pad + y] + ps;
      JoinCons(x, Padded(pad, xs), sep);
      JoinHead(pad, y, ps, sep);
      var j := Join([y] + ps, sep);
      assert x + ((sep + pad) + j) == x + (sep + (pad + j));
    }
  }

  /** Splitting names joined by `c` and padded with `pad` gives the padded pieces; the joined text is not empty. */
  lemma SplitPadded(xs: seq<string>, c: char, pad: string)
    requires xs != [] && xs[0] != []
    requires c !in pad
    requires forall i :: 0 <= i < |xs| ==> c !in xs[i]
    ensures Join([xs[0]] + Padded(pad, xs[1..]), [c]) != []
    ensures Split(Join([xs[0]] + Padded(pad, xs[1..]), [c]), c) == [xs[0]] + Padded(pad, xs[1..])
  {
    var pieces := [xs[0]] + Padded(pad, xs[1..]);
    forall i | 0 <= i < |pieces| ensures c !in pieces[i] {
      if i > 0 {
        assert pieces[i] == pad + xs[i];
      }
    }
    SplitJoin(pieces, c);
    if |pieces| > 1 {
      JoinCons(xs[0], pieces[1..], [c]);
      assert [xs[0]] + pieces[1..] == pieces;
    }
  }

  /** Stripping the pieces gives the names back. */
  lemma StripPadded(xs: seq<string>)
    requires xs != []
    requires forall i :: 0 <= i < |xs| ==> ParsedName(xs[i])
    ensures StripAll([xs[0]] + Padded(" ", xs[1..])) == xs
  {
    var pieces := [xs[0]] + Padded(" ", xs[1..]);
    forall i | 0 <= i < |pieces| ensures Strip(pieces[i]) == xs[i] {
      if i == 0 {
        StripStripped(xs[0]);
      } else {
        assert pieces[i] == " " + xs[i];
        StripLeadingSpace(xs[i]);
      }
    }
  }

  lemma CommaSpaceJoin(xs: seq<string>)
    requires xs != []
    ensures Join(xs, ", ") == Join([xs[0]] + Padded(" ", xs[1..]), ",")
  {
    assert [xs[0]] + xs[1..] == xs;
    assert ", " == "," + " ";
    JoinPadded(xs[0], xs[1..], ",", " ");
  }

  /** Parsing a list of stored names joined by ", " gives that list back. */
  lemma ParseJoin(xs: seq<string>)
    requires forall i :: 0 <= i < |xs| ==> ParsedName(xs[i])
    ensures ParseFavorites(Join(xs, ", ")) == xs
  {
    if xs != [] {
      var pieces := [xs[0]] + Padded(" ", xs[1..]);
      CommaSpaceJoin(xs);
      SplitPadded(xs, ',', " ");
      var t := Join(pieces, ",");
      assert ParseFavorites(t) == NonBlank(StripAll(pieces));
      StripPadded(xs);
      NonBlankAll(xs);
    }
  }

  /** Parsing what the options form shows for parsed favorites gives them back unchanged. */
  lemma ParseRoundTrip(s: string)
    ensures ParseFavorites(Join(ParseFavorites(s), ", ")) == ParseFavorites(s)
  {
    ParseJoin(ParseFavorites(s));
  }

  /**
   Submitting the options form unchanged for an entry the config flow
   created stores exactly that entry's data again.
   */
  lemma OptionsFormResubmitted(u: UserInput)
    requires IntervalAccepted(u.interval)
    ensures var d := Validate(u).value;
            var form := StepInit(d, None);
            StepInit(d, Some(UserInput(Whole(form.defaultInterval), Some(form.defaultFavorites)))) == CreateEntry("", d)
  {
    ParseRoundTrip(u.favorites.GetOr(""));
  }
}
