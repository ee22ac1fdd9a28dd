/**
 The sensor platform's venue slug: the name lowercased, every maximal run of
 characters outside `[a-z0-9]` replaced by one `_`, and leading and trailing
 `_` removed.
 */
module VenueSlug {
  import opened Text

  predicate IsSlugChar(c: char) {
    'a' <= c <= 'z' || '0' <= c <= '9'
  }

  /** A character the pattern `[^a-z0-9]` matches. */
  predicate IsSeparator(c: char) {
    !IsSlugChar(c)
  }

  predicate IsUnderscore(c: char) {
    c == '_'
  }

  /** The input with its leading run of separators removed. */
  function DropSeparators(s: string): (r: string)
    ensures |r| <= |s| && r == s[|s| - |r|..]
    ensures r == [] || IsSlugChar(r[0])
    ensures s != [] && IsSeparator(s[0]) ==> |r| < |s|
    decreases |s|
  {
    if s != [] && IsSeparator(s[0]) then DropSeparators(s[1..]) else s
  }

  /** `re.sub(r'[^a-z0-9]+', '_', s)`: each maximal run of separators becomes one underscore. */
  function Collapse(s: string): string
    decreases |s|
  {
    if s == [] then []
    else if IsSlugChar(s[0]) then [s[0]] + Collapse(s[1..])
    else "_" + Collapse(DropSeparators(s))
  }

  /** `_create_slug(name)`. */
  function Slug(name: string): string {
    TrimRight(TrimLeft(Collapse(Lower(name)), IsUnderscore), IsUnderscore)
  }

  /** The letters and digits of a string, in order. */
  function SlugChars(s: string): string
    decreases |s|
  {
    if s == [] then []
    else (if IsSlugChar(s[0]) then [s[0]] else []) + SlugChars(s[1..])
  }

  /** Only slug characters and underscores, and never two underscores in a row. */
  predicate Collapsed(s: string) {
    && (forall i :: 0 <= i < |s| ==> IsSlugChar(s[i]) || s[i] == '_')
    && (forall i :: 0 <= i < |s| - 1 ==> !(s[i] == '_' && s[i + 1] == '_'))
  }

  /** What a slug looks like: collapsed, and no underscore at either end. */
  predicate SlugShaped(s: string) {
    Collapsed(s) && (s != [] ==> s[0] != '_' && s[|s| - 1] != '_')
  }

  // ---------------------------------------------------------------------------
  // Lemmas about the pieces
  // ---------------------------------------------------------------------------

  lemma {:induction false} SlugCharsConcat(a: string, b: string)
    ensures SlugChars(a + b) == SlugChars(a) + SlugChars(b)
    decreases |a|
  {
    if a == [] {
      assert a + b == b;
    } else {
      var h := if IsSlugChar(a[0]) then [a[0]] else [];
      assert (a + b)[0] == a[0];
      assert (a + b)[1..] == a[1..] + b;
      assert SlugChars(a + b) == h + SlugChars(a[1..] + b);
      assert SlugChars(a) == h + SlugChars(a[1..]);
      SlugCharsConcat(a[1..], b);
    }
  }

  /** Dropping a run of separators loses no letter or digit. */
  lemma {:induction false} SlugCharsDrop(s: string)
    ensures SlugChars(DropSeparators(s)) == SlugChars(s)
    decreases |s|
  {
    if s != [] && IsSeparator(s[0]) {
      SlugCharsDrop(s[1..]);
    }
  }

  lemma {:induction false} CollapseKeepsSlugChars(s: string)
    ensures SlugChars(Collapse(s)) == SlugChars(s)
    decreases |s|
  {
    if s != [] {
      if IsSlugChar(s[0]) {
        CollapseKeepsSlugChars(s[1..]);
        SlugCharsConcat([s[0]], Collapse(s[1..]));
      } else {
        var u := DropSeparators(s);
        CollapseKeepsSlugChars(u);
        SlugCharsDrop(s);
        SlugCharsConcat("_", Collapse(u));
      }
    }
  }

  lemma {:induction false} CollapseShape(s: string)
    ensures Collapsed(Collapse(s))
    ensures s != [] && IsSlugChar(s[0]) ==> Collapse(s)[0] == s[0]
    decreases |s|
  {
    if s != [] {
      if IsSlugChar(s[0]) {
        CollapseShape(s[1..]);
        var c := Collapse(s[1..]);
        assert Collapse(s) == [s[0]] + c;
        assert forall i :: 1 <= i < |[s[0]] + c| ==> ([s[0]] + c)[i] == c[i - 1];
      } else {
        var u := DropSeparators(s);
        CollapseShape(u);
        var c := Collapse(u);
        assert Collapse(s) == "_" + c;
        assert u == [] ==> c == [];
        assert forall i :: 1 <= i < |"_" + c| ==> ("_" + c)[i] == c[i - 1];
      }
    }
  }

  /** A collapsed string is its own collapse. */
  lemma {:induction false} CollapseFixed(s: string)
    requires Collapsed(s)
    ensures Collapse(s) == s
    decreases |s|
  {
    if s != [] {
      CollapsedTail(s);
      CollapseFixed(s[1..]);
      if IsSlugChar(s[0]) {
        assert [s[0]] + s[1..] == s;
      } else {
        CollapseLoneUnderscore(s);
      }
    }
  }

  /** An underscore followed by a letter, a digit or nothing collapses to itself. */
  lemma CollapseLoneUnderscore(s: string)
    requires s != [] && Collapsed(s) && !IsSlugChar(s[0])
    ensures Collapse(s) == "_" + Collapse(s[1..])
    ensures s == "_" + s[1..]
  {
    assert s[0] == '_';
    if |s| > 1 {
      assert s[1..][0] == s[1];
      assert IsSlugChar(s[1]);
    }
    assert DropSeparators(s[1..]) == s[1..];
    assert DropSeparators(s) == s[1..];
  }

  lemma CollapsedTail(s: string)
    requires s != [] && Collapsed(s)
    ensures Collapsed(s[1..])
  {
    assert forall i :: 0 <= i < |s| - 1 ==> s[1..][i] == s[i + 1];
  }

  lemma CollapsedInit(s: string)
    requires s != [] && Collapsed(s)
    ensures Collapsed(s[..|s| - 1])
  {
    assert forall i :: 0 <= i < |s| - 1 ==> s[..|s| - 1][i] == s[i];
  }

  lemma {:induction false} TrimLeftUnderscoresKeeps(s: string)
    ensures SlugChars(TrimLeft(s, IsUnderscore)) == SlugChars(s)
    ensures Collapsed(s) ==> Collapsed(TrimLeft(s, IsUnderscore))
    decreases |s|
  {
    if s != [] && s[0] == '_' {
      TrimLeftUnderscoresKeeps(s[1..]);
      assert TrimLeft(s, IsUnderscore) == TrimLeft(s[1..], IsUnderscore);
      assert SlugChars(s) == SlugChars(s[1..]);
      if Collapsed(s) {
        CollapsedTail(s);
      }
    }
  }

  lemma {:induction false} TrimRightUnderscoresKeeps(s: string)
    ensures SlugChars(TrimRight(s, IsUnderscore)) == SlugChars(s)
    ensures Collapsed(s) ==> Collapsed(TrimRight(s, IsUnderscore))
    decreases |s|
  {
    if s != [] && s[|s| - 1] == '_' {
      var p := s[..|s| - 1];
      TrimRightUnderscoresKeeps(p);
      assert TrimRight(s, IsUnderscore) == TrimRight(p, IsUnderscore);
      assert s == p + "_";
      SlugCharsConcat(p, "_");
      if Collapsed(s) {
        CollapsedInit(s);
      }
    }
  }

  lemma LowerOfCollapsed(s: string)
    requires Collapsed(s)
    ensures Lower(s) == s
  {
  }

  /** A collapsed string without letters or digits is empty or a single underscore. */
  lemma NoSlugCharsEmpty(s: string)
    requires Collapsed(s)
    requires SlugChars(s) == []
    requires s != [] ==> s[0] != '_'
    ensures s == []
  {
  }

  lemma {:induction false} SlugCharsEmptyIff(s: string)
    ensures SlugChars(s) == [] <==> forall i :: 0 <= i < |s| ==> !IsSlugChar(s[i])
    decreases |s|
  {
    if s != [] {
      SlugCharsEmptyIff(s[1..]);
      assert forall i :: 1 <= i < |s| ==> s[i] == s[1..][i - 1];
    }
  }

  // ---------------------------------------------------------------------------
  // Properties of the slug
  // ---------------------------------------------------------------------------

  /** A slug holds only `[a-z0-9_]`, never two underscores in a row, and no underscore at either end. */
  lemma SlugShape(name: string)
    ensures SlugShaped(Slug(name))
  {
    var c := Collapse(Lower(name));
    CollapseShape(Lower(name));
    TrimLeftUnderscoresKeeps(c);
    var l := TrimLeft(c, IsUnderscore);
    TrimRightUnderscoresKeeps(l);
    var r := TrimRight(l, IsUnderscore);
    assert r != [] ==> r[0] == l[0];
  }

  /** The slug keeps exactly the lowercased name's letters and digits, in order. */
  lemma SlugKeepsLettersAndDigits(name: string)
    ensures SlugChars(Slug(name)) == SlugChars(Lower(name))
  {
    var c := Collapse(Lower(name));
    CollapseKeepsSlugChars(Lower(name));
    TrimLeftUnderscoresKeeps(c);
    TrimRightUnderscoresKeeps(TrimLeft(c, IsUnderscore));
  }

  /** The slug is empty exactly when the name holds no letter or digit. */
  lemma SlugEmptyIff(name: string)
    ensures Slug(name) == [] <==> forall i :: 0 <= i < |name| ==> !IsSlugChar(Lower(name)[i])
  {
    var s := Slug(name);
    SlugShape(name);
    SlugKeepsLettersAndDigits(name);
    SlugCharsEmptyIff(Lower(name));
    if SlugChars(s) == [] {
      NoSlugCharsEmpty(s);
    }
  }

  /** A string already shaped like a slug is its own slug. */
  lemma SlugOfSlugShaped(s: string)
    requires SlugShaped(s)
    ensures Slug(s) == s
  {
    LowerOfCollapsed(s);
    CollapseFixed(s);
  }

  /** Slugging a slug returns it unchanged. */
  lemma SlugIdempotent(name: string)
    ensures Slug(Slug(name)) == Slug(name)
  {
    SlugShape(name);
    SlugOfSlugShaped(Slug(name));
  }

  /** Only slug characters, and at least one. */
  predicate IsWord(w: string) {
    w != [] && forall i :: 0 <= i < |w| ==> IsSlugChar(w[i])
  }

  /** A word passes through `Collapse` unchanged. */
  lemma {:induction false} CollapseWord(w: string, r: string)
    requires forall i :: 0 <= i < |w| ==> IsSlugChar(w[i])
    ensures Collapse(w + r) == w + Collapse(r)
    decreases |w|
  {
    if w == [] {
      assert w + r == r;
    } else {
      var s := w + r;
      assert s != [] && s[0] == w[0] && IsSlugChar(s[0]);
      assert s[1..] == w[1..] + r;
      assert Collapse(s) == [s[0]] + Collapse(s[1..]);
      CollapseWord(w[1..], r);
      assert [w[0]] + (w[1..] + Collapse(r)) == w + Collapse(r);
    }
  }

  lemma {:induction false} JoinedWordsShape(ws: seq<string>, glue: string)
    requires forall i :: 0 <= i < |ws| ==> IsWord(ws[i])
    requires glue == "_" || glue == " "
    ensures ws != [] ==> Join(ws, glue) != [] && IsSlugChar(Join(ws, glue)[0])
    ensures glue == "_" ==> SlugShaped(Join(ws, glue))
    decreases |ws|
  {
    if |ws| > 1 {
      JoinedWordsShape(ws[1..], glue);
      var w, j := ws[0], Join(ws[1..], glue);
      var s := w + glue + j;
      assert Join(ws, glue) == s;
      assert IsWord(w);
      assert s[0] == w[0];
      if glue == "_" {
        forall i | 0 <= i < |s| ensures IsSlugChar(s[i]) || s[i] == '_' {
          if i > |w| {
            assert s[i] == j[i - |w| - 1];
          }
        }
        forall i | 0 <= i < |s| - 1 ensures !(s[i] == '_' && s[i + 1] == '_') {
          if i > |w| {
            assert s[i] == j[i - |w| - 1] && s[i + 1] == j[i - |w|];
          }
        }
        assert s[|s| - 1] == j[|j| - 1];
      }
    }
  }

  lemma CollapseSpace(j: string)
    requires j != [] && IsSlugChar(j[0])
    ensures Collapse(" " + j) == "_" + Collapse(j)
  {
    assert (" " + j)[1..] == j;
    assert DropSeparators(" " + j) == j;
  }

  /** Words separated by single spaces collapse to the same words joined by underscores. */
  lemma {:induction false} CollapseSpacedWords(ws: seq<string>)
    requires |ws| >= 1
    requires forall i :: 0 <= i < |ws| ==> IsWord(ws[i])
    ensures Collapse(Join(ws, " ")) == Join(ws, "_")
    decreases |ws|
  {
    var w := ws[0];
    if |ws| == 1 {
      CollapseWord(w, []);
      assert w + [] == w;
    } else {
      var j := Join(ws[1..], " ");
      assert ws == [w] + ws[1..];
      JoinCons(w, ws[1..], " ");
      JoinCons(w, ws[1..], "_");
      CollapseWord(w, " " + j);
      JoinedWordsShape(ws[1..], " ");
      CollapseSpace(j);
      CollapseSpacedWords(ws[1..]);
      assert w + ("_" + Join(ws[1..], "_")) == w + "_" + Join(ws[1..], "_");
    }
  }

  lemma LowerOfSpacedWords(ws: seq<string>)
    requires forall i :: 0 <= i < |ws| ==> IsWord(ws[i])
    ensures Lower(Join(ws, " ")) == Join(ws, " ")
  {
    JoinedWordsLowercase(ws);
  }

  lemma {:induction false} JoinedWordsLowercase(ws: seq<string>)
    requires forall i :: 0 <= i < |ws| ==> IsWord(ws[i])
    ensures forall i :: 0 <= i < |Join(ws, " ")| ==> !('A' <= Join(ws, " ")[i] <= 'Z')
    decreases |ws|
  {
    if |ws| > 1 {
      JoinedWordsLowercase(ws[1..]);
      var w, j := ws[0], Join(ws[1..], " ");
      assert IsWord(w);
      assert forall i :: |w| < i < |w + " " + j| ==> (w + " " + j)[i] == j[i - |w| - 1];
    } else if |ws| == 1 {
      assert IsWord(ws[0]);
    }
  }

  /** A name made of lowercase words separated by single spaces slugs to those words joined by underscores. */
  lemma SlugOfSpacedWords(ws: seq<string>)
    requires |ws| >= 1
    requires forall i :: 0 <= i < |ws| ==> IsWord(ws[i])
    ensures Slug(Join(ws, " ")) == Join(ws, "_")
  {
    LowerOfSpacedWords(ws);
    CollapseSpacedWords(ws);
    JoinedWordsShape(ws, "_");
    var j := Join(ws, "_");
    assert TrimLeft(j, IsUnderscore) == j;
    assert TrimRight(j, IsUnderscore) == j;
  }

  /** Lowercasing first does not change the slug. */
  lemma SlugOfLower(name: string)
    ensures Slug(Lower(name)) == Slug(name)
  {
    assert Lower(Lower(name)) == Lower(name);
  }

  lemma JoinThree(ws: seq<string>, glue: string)
    requires |ws| == 3
    ensures Join(ws, glue) == ws[0] + glue + ws[1] + glue + ws[2]
  {
    assert ws[1..][1..] == [ws[2]];
    assert Join(ws[1..], glue) == ws[1] + glue + ws[2];
  }

  /** The venue names the method's documentation gives as examples. */
  lemma SlugExampleLakeSumter()
    ensures Slug("Lake Sumter Landing") == "lake_sumter_landing"
  {
    LakeSumterWords();
    LakeSumterLowercase();
    SlugExample3(["Lake", "Sumter", "Landing"], ["lake", "sumter", "landing"]);
  }

  lemma LakeSumterWords()
    ensures "Lake Sumter Landing" == "Lake" + " " + "Sumter" + " " + "Landing"
    ensures "lake_sumter_landing" == "lake" + "_" + "sumter" + "_" + "landing"
  {
  }

  lemma LakeSumterLowercase()
    ensures Lower("Lake") == "lake" && Lower("Sumter") == "sumter" && Lower("Landing") == "landing"
    ensures IsWord("lake") && IsWord("sumter") && IsWord("landing")
  {
  }

  lemma SlugExampleBrownwood()
    ensures Slug("Brownwood Paddock Square") == "brownwood_paddock_square"
  {
    BrownwoodWords();
    BrownwoodLowercase();
    SlugExample3(["Brownwood", "Paddock", "Square"], ["brownwood", "paddock", "square"]);
  }

  lemma BrownwoodWords()
    ensures "Brownwood Paddock Square" == "Brownwood" + " " + "Paddock" + " " + "Square"
    ensures "brownwood_paddock_square" == "brownwood" + "_" + "paddock" + "_" + "square"
  {
  }

  lemma BrownwoodLowercase()
    ensures Lower("Brownwood") == "brownwood" && Lower("Paddock") == "paddock" && Lower("Square") == "square"
    ensures IsWord("brownwood") && IsWord("paddock") && IsWord("square")
  {
  }

  lemma SlugExampleSpanishSprings()
    ensures Slug("Spanish Springs Town Square") == "spanish_springs_town_square"
  {
    SpanishSpringsWords();
    SpanishSpringsLowercase();
    SlugExample4(["Spanish", "Springs", "Town", "Square"], ["spanish", "springs", "town", "square"]);
  }

  lemma SpanishSpringsWords()
    ensures "Spanish Springs Town Square" == "Spanish" + " " + "Springs" + " " + "Town" + " " + "Square"
    ensures "spanish_springs_town_square" == "spanish" + "_" + "springs" + "_" + "town" + "_" + "square"
  {
  }

  lemma SpanishSpringsLowercase()
    ensures Lower("Spanish") == "spanish" && Lower("Springs") == "springs"
    ensures Lower("Town") == "town" && Lower("Square") == "square"
    ensures IsWord("spanish") && IsWord("springs") && IsWord("town") && IsWord("square")
  {
  }

  lemma LowerConcat(a: string, b: string)
    ensures Lower(a + b) == Lower(a) + Lower(b)
  {
  }

  /** Three capitalised words separated by spaces slug to the lowercase words joined by underscores. */
  lemma SlugExample3(names: seq<string>, ws: seq<string>)
    requires |names| == 3 && |ws| == 3
    requires forall i :: 0 <= i < 3 ==> IsWord(ws[i]) && Lower(names[i]) == ws[i]
    ensures Slug(names[0] + " " + names[1] + " " + names[2]) == ws[0] + "_" + ws[1] + "_" + ws[2]
  {
    var name := names[0] + " " + names[1] + " " + names[2];
    LowerConcat(names[0] + " " + names[1] + " ", names[2]);
    LowerConcat(names[0] + " " + names[1], " ");
    LowerConcat(names[0] + " ", names[1]);
    LowerConcat(names[0], " ");
    assert Lower(" ") == " ";
    assert Lower(name) == ws[0] + " " + ws[1] + " " + ws[2];
    SlugOfLower(name);
    JoinThree(ws, " ");
    JoinThree(ws, "_");
    SlugOfSpacedWords(ws);
  }

  lemma JoinFour(ws: seq<string>, glue: string)
    requires |ws| == 4
    ensures Join(ws, glue) == ws[0] + glue + ws[1] + glue + ws[2] + glue + ws[3]
  {
    JoinThree(ws[1..], glue);
    assert ws[1..][0] == ws[1] && ws[1..][1] == ws[2] && ws[1..][2] == ws[3];
  }

  /** Four capitalised words separated by spaces slug to the lowercase words joined by underscores. */
  lemma SlugExample4(names: seq<string>, ws: seq<string>)
    requires |names| == 4 && |ws| == 4
    requires forall i :: 0 <= i < 4 ==> IsWord(ws[i]) && Lower(names[i]) == ws[i]
    ensures Slug(names[0] + " " + names[1] + " " + names[2] + " " + names[3])
         == ws[0] + "_" + ws[1] + "_" + ws[2] + "_" + ws[3]
  {
    var first := names[0] + " " + names[1] + " " + names[2];
    var name := first + " " + names[3];
    LowerConcat(first + " ", names[3]);
    LowerConcat(first, " ");
    LowerConcat(names[0] + " " + names[1] + " ", names[2]);
    LowerConcat(names[0] + " " + names[1], " ");
    LowerConcat(names[0] + " ", names[1]);
    LowerConcat(names[0], " ");
    assert Lower(" ") == " ";
    assert Lower(name) == ws[0] + " " + ws[1] + " " + ws[2] + " " + ws[3];
    SlugOfLower(name);
    JoinFour(ws, " ");
    JoinFour(ws, "_");
    SlugOfSpacedWords(ws);
  }
}
