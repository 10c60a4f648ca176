/**
 * The descriptive text of one hotel that is embedded for vector search:
 * sections for the name, the location, the star rating, the global
 * review score, the per-traveller-type scores, the category scores and
 * up to three review snippets, each present only when its data is, joined
 * by single spaces. How Python writes numbers is given by `Formats`.
 */
module FeatureBuilder {
  import opened Wrappers
  import opened Text
  import opened PyValue

  /**
   * Number formatting: `str(x)` (also what an f-string writes),
   * `str(round(x, 1))` and `format(x, ".1f")`.
   */
  datatype Formats = Formats(str: real -> string, round1: real -> string, fixed1: real -> string)

  /** One section of the text: left out, present, or raising while it is built. */
  datatype Section = Absent | Present(s: string) | Fails

  // ---------------------------------------------------------------------
  // Identity, location and the two single scores
  // ---------------------------------------------------------------------

  /** `f"{name}."` when the name is truthy. */
  function NameSection(name: Value, fm: Formats): (r: Section)
    ensures r.Present? <==> Truthy(name)
    ensures r.Present? ==> r.s == ToStr(name, fm.str) + "."
  {
    if Truthy(name) then Present(ToStr(name, fm.str) + ".") else Absent
  }

  /** "Located in C, K." with both parts, with one of them alone otherwise, and no sentence without either. */
  function LocationSection(city: Value, country: Value, fm: Formats): (r: Section)
    ensures !r.Fails?
    ensures r.Absent? <==> !Truthy(city) && !Truthy(country)
    ensures Truthy(city) && Truthy(country) ==> r == Present("Located in " + ToStr(city, fm.str) + ", " + ToStr(country, fm.str) + ".")
    ensures Truthy(city) && !Truthy(country) ==> r == Present("Located in " + ToStr(city, fm.str) + ".")
    ensures !Truthy(city) && Truthy(country) ==> r == Present("Located in " + ToStr(country, fm.str) + ".")
  {
    if Truthy(city) && Truthy(country) then Present("Located in " + ToStr(city, fm.str) + ", " + ToStr(country, fm.str) + ".")
    else if Truthy(city) then Present("Located in " + ToStr(city, fm.str) + ".")
    else if Truthy(country) then Present("Located in " + ToStr(country, fm.str) + ".")
    else Absent
  }

  /** "Star rating: N stars." unless the rating is `None` (a falsy 0 is still written). */
  function StarSection(star: Value, fm: Formats): (r: Section)
    ensures !r.Fails? && (r.Absent? <==> star == Null)
  {
    if star != Null then Present("Star rating: " + ToStr(star, fm.str) + " stars.") else Absent
  }

  /** `str(round(v, 1))`: a bool rounds to the integer 1 or 0; anything that is not a number raises. */
  function Round1(v: Value, fm: Formats): Option<string>
  {
    match v
    case Num(x) => Some(fm.round1(x))
    case Bool(b) => Some(if b then "1" else "0")
    case _ => None
  }

  /** "Global Review Score: S/10." with the score rounded to one decimal, unless it is `None`. */
  function ScoreSection(avg: Value, fm: Formats): (r: Section)
    ensures r.Absent? <==> avg == Null
    ensures r.Fails? <==> avg != Null && Round1(avg, fm).None?
  {
    if avg == Null then Absent
    else
      match Round1(avg, fm)
      case None => Fails
      case Some(s) => Present("Global Review Score: " + s + "/10.")
  }

  // ---------------------------------------------------------------------
  // Traveller-type ratings
  // ---------------------------------------------------------------------

  const RatingPrefix := "avg_score_"

  /** A hotel property holding a traveller-type score. */
  predicate IsRating(e: (string, Value))
  {
    StartsWith(e.0, RatingPrefix) && e.1 != Null
  }

  /** The rating properties, in the hotel's order. */
  function RatingEntries(es: Entries): (r: Entries)
    ensures |r| <= |es|
    ensures forall e :: e in r ==> e in es && IsRating(e)
    ensures forall i :: 0 <= i < |es| && IsRating(es[i]) ==> es[i] in r
    decreases |es|
  {
    if es == [] then []
    else
      var n := |es| - 1;
      assert forall i :: 0 <= i < n ==> es[..n][i] == es[i];
      var prev := RatingEntries(es[..n]);
      if IsRating(es[n]) then prev + [es[n]] else prev
  }

  /** "avg_score_solo_traveller" becomes "Solo Traveller": the prefix removed, underscores made spaces, title-cased. */
  function TravellerLabel(key: string): string
  {
    Title(ReplaceAll(ReplaceAll(key, RatingPrefix, ""), "_", " "))
  }

  /** `format(v, ".1f")`: a bool is written as 1.0 or 0.0; anything that is not a number raises. */
  function Fixed1(v: Value, fm: Formats): Option<string>
  {
    match v
    case Num(x) => Some(fm.fixed1(x))
    case Bool(b) => Some(fm.fixed1(if b then 1.0 else 0.0))
    case _ => None
  }

  /** `f"{label}: {value:.1f}"` for each rating, or `None` when one value cannot be formatted. */
  function FormatRatings(rs: Entries, fm: Formats): (r: Option<seq<string>>)
    ensures r.None? <==> exists e :: e in rs && Fixed1(e.1, fm).None?
    ensures r.Some? ==> |r.value| == |rs| && forall i :: 0 <= i < |rs| ==>
      r.value[i] == TravellerLabel(rs[i].0) + ": " + Fixed1(rs[i].1, fm).value
    decreases |rs|
  {
    if rs == [] then Some([])
    else
      var n := |rs| - 1;
      assert forall i :: 0 <= i < n ==> rs[..n][i] == rs[i];
      assert forall e :: e in rs[..n] ==> e in rs;
      match FormatRatings(rs[..n], fm)
      case None => None
      case Some(prev) =>
        match Fixed1(rs[n].1, fm)
        case None => None
        case Some(v) => Some(prev + [TravellerLabel(rs[n].0) + ": " + v])
  }

  /** "Traveller Ratings: a, b." over the ratings, absent when there are none. */
  function TravellerSection(hotel: Entries, fm: Formats): (r: Section)
    ensures r.Absent? <==> RatingEntries(hotel) == []
  {
    match FormatRatings(RatingEntries(hotel), fm)
    case None => Fails
    case Some(ts) => if ts == [] then Absent else Present("Traveller Ratings: " + Join(", ", ts) + ".")
  }

  /** The loop over `hotel.items()` collecting the traveller scores. */
  method TravellerScores(hotel: Entries, fm: Formats) returns (r: Option<seq<string>>)
    ensures r == FormatRatings(RatingEntries(hotel), fm)
  {
    var scores: seq<string> := [];
    for k := 0 to |hotel|
      invariant FormatRatings(RatingEntries(hotel[..k]), fm) == Some(scores)
    {
      assert hotel[..k + 1][..k] == hotel[..k];
      var (key, value) := hotel[k];
      if StartsWith(key, RatingPrefix) && value != Null {
        var ttype := Title(ReplaceAll(ReplaceAll(key, RatingPrefix, ""), "_", " "));
        var v := Fixed1(value, fm);
        if v.None? {
          assert hotel[k] in RatingEntries(hotel);
          return None;
        }
        var rs := RatingEntries(hotel[..k]);
        assert (rs + [hotel[k]])[..|rs|] == rs;
        scores := scores + [ttype + ": " + v.value];
      }
    }
    assert hotel[..|hotel|] == hotel;
    r := Some(scores);
  }

  // ---------------------------------------------------------------------
  // Category scores
  // ---------------------------------------------------------------------

  const CategoryKeys: seq<string> := ["cleanliness_base", "comfort_base", "facilities_base"]

  /** "cleanliness_base" becomes "Cleanliness". */
  function CategoryLabel(key: string): string
  {
    Capitalize(ReplaceAll(key, "_base", ""))
  }

  /** `f"{label} {val}"` for each of `keys` whose value is not `None`, in the order of `keys`. */
  function CategoryScores(hotel: Entries, keys: seq<string>, fm: Formats): (r: seq<string>)
    ensures |r| <= |keys|
    decreases |keys|
  {
    if keys == [] then []
    else
      var n := |keys| - 1;
      var prev := CategoryScores(hotel, keys[..n], fm);
      var v := Get(hotel, keys[n]);
      if v != Null then prev + [CategoryLabel(keys[n]) + " " + ToStr(v, fm.str)] else prev
  }

  /** "Category Scores: a, b." over the three category keys, absent when none has a value. */
  function CategorySection(hotel: Entries, fm: Formats): (r: Section)
    ensures !r.Fails?
  {
    var subs := CategoryScores(hotel, CategoryKeys, fm);
    if subs == [] then Absent else Present("Category Scores: " + Join(", ", subs) + ".")
  }

  /** The loop over the three category keys. */
  method Categories(hotel: Entries, fm: Formats) returns (subs: seq<string>)
    ensures subs == CategoryScores(hotel, CategoryKeys, fm)
  {
    subs := [];
    for k := 0 to |CategoryKeys|
      invariant subs == CategoryScores(hotel, CategoryKeys[..k], fm)
    {
      assert CategoryKeys[..k + 1][..k] == CategoryKeys[..k];
      var key := CategoryKeys[k];
      var val := Get(hotel, key);
      if val != Null {
        var caption := Capitalize(ReplaceAll(key, "_base", ""));
        subs := subs + [caption + " " + ToStr(val, fm.str)];
      }
    }
    assert CategoryKeys[..|CategoryKeys|] == CategoryKeys;
  }

  /** `f"{caption} {val}"` for one category key, nothing when its value is `None`. */
  function CategoryPart(hotel: Entries, key: string, caption: string, fm: Formats): seq<string>
  {
    if Get(hotel, key) != Null then [caption + " " + ToStr(Get(hotel, key), fm.str)] else []
  }

  /**
   * The category scores are those of cleanliness, comfort and facilities,
   * in that order and under those labels, each skipped when `None`.
   */
  lemma {:induction false} CategoryScoresMeaning(hotel: Entries, fm: Formats)
    ensures CategoryScores(hotel, CategoryKeys, fm) ==
      CategoryPart(hotel, "cleanliness_base", "Cleanliness", fm)
      + CategoryPart(hotel, "comfort_base", "Comfort", fm)
      + CategoryPart(hotel, "facilities_base", "Facilities", fm)
  {
    var k0, k1, k2 := "cleanliness_base", "comfort_base", "facilities_base";
    CategoryScoresSnoc(hotel, [], k0, fm);
    CategoryScoresSnoc(hotel, [k0], k1, fm);
    CategoryScoresSnoc(hotel, [k0, k1], k2, fm);
    assert [] + [k0] == [k0] && [k0] + [k1] == [k0, k1] && [k0, k1] + [k2] == CategoryKeys;
    CleanlinessLabel();
    ComfortLabel();
    FacilitiesLabel();
  }

  /** The category sentence is absent exactly when all three values are `None`. */
  lemma CategoryAbsent(hotel: Entries, fm: Formats)
    ensures CategorySection(hotel, fm).Absent? <==>
      Get(hotel, "cleanliness_base") == Null && Get(hotel, "comfort_base") == Null
      && Get(hotel, "facilities_base") == Null
  {
    CategoryScoresMeaning(hotel, fm);
  }

  /** Adding a key adds its part at the end. */
  lemma CategoryScoresSnoc(hotel: Entries, keys: seq<string>, key: string, fm: Formats)
    ensures CategoryScores(hotel, keys + [key], fm) ==
      CategoryScores(hotel, keys, fm) + CategoryPart(hotel, key, CategoryLabel(key), fm)
  {
    assert (keys + [key])[..|keys|] == keys;
  }

  /** The labels are the capitalised category names. */
  lemma CategoryLabels()
    ensures CategoryLabel(CategoryKeys[0]) == "Cleanliness"
    ensures CategoryLabel(CategoryKeys[1]) == "Comfort"
    ensures CategoryLabel(CategoryKeys[2]) == "Facilities"
  {
    CleanlinessLabel();
    ComfortLabel();
    FacilitiesLabel();
  }

  lemma CleanlinessLabel()
    ensures CategoryLabel("cleanliness_base") == "Cleanliness"
  {
    assert "cleanliness_base" == "cleanliness" + "_base";
    LabelOf("cleanliness", "Cleanliness");
  }

  lemma ComfortLabel()
    ensures CategoryLabel("comfort_base") == "Comfort"
  {
    assert "comfort_base" == "comfort" + "_base";
    LabelOf("comfort", "Comfort");
  }

  lemma FacilitiesLabel()
    ensures CategoryLabel("facilities_base") == "Facilities"
  {
    assert "facilities_base" == "facilities" + "_base";
    LabelOf("facilities", "Facilities");
  }

  /** The label of `word + "_base"`, for a lower-case `word` without underscores. */
  lemma LabelOf(word: string, caption: string)
    requires |word| > 0 && '_' !in word && forall i :: 0 <= i < |word| ==> IsLower(word[i])
    requires |caption| == |word| && caption[0] == UpperChar(word[0]) && caption[1..] == word[1..]
    ensures CategoryLabel(word + "_base") == caption
  {
    ReplaceAllSkip(word, "_base", "_base", "");
    assert ReplaceAll("_base", "_base", "") == "" by {
      assert StartsWith("_base", "_base");
      assert "_base"[5..] == [];
    }
    assert word + "" == word;
    assert Lower(word[1..]) == word[1..];
  }

  // ---------------------------------------------------------------------
  // Review snippets
  // ---------------------------------------------------------------------

  const MaxSnippet := 200
  const MaxReviews := 3

  /** `review_texts[:3]` on a truthy value: a list's first items, a string's first characters; anything else raises. */
  function FirstReviews(v: Value): (r: Option<seq<Value>>)
    ensures r.Some? ==> |r.value| <= MaxReviews
    ensures v.List? ==> r == Some(v.items[..if |v.items| < MaxReviews then |v.items| else MaxReviews])
  {
    match v
    case List(xs) => Some(xs[..if |xs| < MaxReviews then |xs| else MaxReviews])
    case Str(s) =>
      var cs := s[..if |s| < MaxReviews then |s| else MaxReviews];
      Some(seq(|cs|, i requires 0 <= i < |cs| => Str([cs[i]])))
    case _ => None
  }

  /** `str(txt).strip().replace("\n", " ")` */
  function Cleaned(txt: Value, fm: Formats): (r: string)
    ensures '\n' !in r
  {
    var s := Strip(ToStr(txt, fm.str));
    ReplaceCharRemovesIt(s, '\n', ' ');
    ReplaceAll(s, "\n", " ")
  }

  /** One snippet: the cleaned text, cut to 200 characters plus "..." when longer; at most 203 characters, no newline. */
  function Snippet(txt: Value, fm: Formats): (r: string)
    ensures |r| <= MaxSnippet + 3 && '\n' !in r
    ensures |Cleaned(txt, fm)| <= MaxSnippet ==> r == Cleaned(txt, fm)
    ensures |Cleaned(txt, fm)| > MaxSnippet ==> r == Cleaned(txt, fm)[..MaxSnippet] + "..."
  {
    var s := Cleaned(txt, fm);
    if |s| > MaxSnippet then
      assert forall c :: c in s[..MaxSnippet] ==> c in s;
      s[..MaxSnippet] + "..."
    else s
  }

  function SnippetOf(fm: Formats): Value -> string
  {
    x => Snippet(x, fm)
  }

  function Snippets(items: seq<Value>, fm: Formats): (r: seq<string>)
    ensures |r| == |items|
    ensures forall i :: 0 <= i < |items| ==> r[i] == Snippet(items[i], fm)
  {
    MapSeq(SnippetOf(fm), items)
  }

  /** "Sample reviews: a | b | c" when the review texts are truthy. */
  function ReviewSection(reviews: Value, fm: Formats): (r: Section)
    ensures !Truthy(reviews) ==> r.Absent?
  {
    if !Truthy(reviews) then Absent
    else
      match FirstReviews(reviews)
      case None => Fails
      case Some(items) =>
        var cleaned := Snippets(items, fm);
        if cleaned == [] then Absent else Present("Sample reviews: " + Join(" | ", cleaned))
  }

  /** The loop cleaning the first reviews. */
  method CleanReviews(items: seq<Value>, fm: Formats) returns (cleaned: seq<string>)
    ensures cleaned == Snippets(items, fm)
  {
    ghost var f := SnippetOf(fm);
    cleaned := [];
    for k := 0 to |items|
      invariant cleaned == MapSeq(f, items[..k])
    {
      var snippet := CleanOne(items[k], fm);
      MapSeqSnoc(f, items, k);
      cleaned := cleaned + [snippet];
    }
    assert items[..|items|] == items;
  }

  /** The body of that loop: strip, flatten newlines, cut at 200 characters. */
  method CleanOne(txt: Value, fm: Formats) returns (snippet: string)
    ensures snippet == Snippet(txt, fm)
  {
    snippet := ReplaceAll(Strip(ToStr(txt, fm.str)), "\n", " ");
    if |snippet| > MaxSnippet {
      snippet := snippet[..MaxSnippet] + "...";
    }
  }

  /** Each snippet is at most 203 characters and holds no newline; there are at most three of them. */
  lemma SnippetBounds(reviews: Value, fm: Formats)
    requires Truthy(reviews) && FirstReviews(reviews).Some?
    ensures var ss := Snippets(FirstReviews(reviews).value, fm);
      |ss| <= MaxReviews && forall i :: 0 <= i < |ss| ==> |ss[i]| <= MaxSnippet + 3 && '\n' !in ss[i]
  {
  }

  // ---------------------------------------------------------------------
  // The whole text
  // ---------------------------------------------------------------------

  /** The sections in their fixed order. */
  function Sections(hotel: Entries, record: Entries, fm: Formats): (ss: seq<Section>)
    ensures |ss| == 7
  {
    [ NameSection(Get(hotel, "name"), fm),
      LocationSection(Get(record, "city_name"), Get(record, "country_name"), fm),
      StarSection(Get(hotel, "star_rating"), fm),
      ScoreSection(Get(hotel, "average_reviews_score"), fm),
      TravellerSection(hotel, fm),
      CategorySection(hotel, fm),
      ReviewSection(LookupOr(record, "review_texts", List([])), fm) ]
  }

  lemma SectionsAre(hotel: Entries, record: Entries, fm: Formats)
    ensures var ss := Sections(hotel, record, fm);
      && ss[0] == NameSection(Get(hotel, "name"), fm)
      && ss[1] == LocationSection(Get(record, "city_name"), Get(record, "country_name"), fm)
      && ss[2] == StarSection(Get(hotel, "star_rating"), fm)
      && ss[3] == ScoreSection(Get(hotel, "average_reviews_score"), fm)
      && ss[4] == TravellerSection(hotel, fm)
      && ss[5] == CategorySection(hotel, fm)
      && ss[6] == ReviewSection(LookupOr(record, "review_texts", List([])), fm)
  {
    SevenAt(NameSection(Get(hotel, "name"), fm),
      LocationSection(Get(record, "city_name"), Get(record, "country_name"), fm),
      StarSection(Get(hotel, "star_rating"), fm),
      ScoreSection(Get(hotel, "average_reviews_score"), fm),
      TravellerSection(hotel, fm),
      CategorySection(hotel, fm),
      ReviewSection(LookupOr(record, "review_texts", List([])), fm));
  }

  lemma SevenAt<X>(a: X, b: X, c: X, d: X, e: X, f: X, g: X)
    ensures var xs := [a, b, c, d, e, f, g];
      xs[0] == a && xs[1] == b && xs[2] == c && xs[3] == d && xs[4] == e && xs[5] == f && xs[6] == g
  {
  }

  /** The text a section contributes: its sentence when present, nothing otherwise. */
  function TextOf(sec: Section): (r: seq<string>)
    ensures |r| <= 1 && (r == [] <==> !sec.Present?)
  {
    if sec.Present? then [sec.s] else []
  }

  /** The texts of the present sections, in order. */
  function PresentOf(ss: seq<Section>): (r: seq<string>)
    ensures |r| <= |ss|
    decreases |ss|
  {
    if ss == [] then []
    else
      var n := |ss| - 1;
      PresentOf(ss[..n]) + TextOf(ss[n])
  }

  lemma PresentSnoc(ss: seq<Section>, sec: Section)
    ensures PresentOf(ss + [sec]) == PresentOf(ss) + TextOf(sec)
  {
    assert (ss + [sec])[..|ss|] == ss;
  }

  /** The text of seven sections, written out. */
  lemma PresentOfSeven(ss: seq<Section>)
    requires |ss| == 7
    ensures PresentOf(ss) == [] + TextOf(ss[0]) + TextOf(ss[1]) + TextOf(ss[2]) + TextOf(ss[3])
      + TextOf(ss[4]) + TextOf(ss[5]) + TextOf(ss[6])
  {
    assert ss[..1][..0] == [];
    assert PresentOf(ss[..1]) == [] + TextOf(ss[0]);
    assert ss[..2][..1] == ss[..1];
    assert PresentOf(ss[..2]) == PresentOf(ss[..1]) + TextOf(ss[1]);
    assert ss[..3][..2] == ss[..2];
    assert PresentOf(ss[..3]) == PresentOf(ss[..2]) + TextOf(ss[2]);
    assert ss[..4][..3] == ss[..3];
    assert PresentOf(ss[..4]) == PresentOf(ss[..3]) + TextOf(ss[3]);
    assert ss[..5][..4] == ss[..4];
    assert PresentOf(ss[..5]) == PresentOf(ss[..4]) + TextOf(ss[4]);
    assert ss[..6][..5] == ss[..5];
    assert PresentOf(ss[..6]) == PresentOf(ss[..5]) + TextOf(ss[5]);
    assert ss[..7][..6] == ss[..6];
    assert ss[..7] == ss;
  }

  lemma NoneFails(ss: seq<Section>)
    requires |ss| == 7
    requires !ss[0].Fails? && !ss[1].Fails? && !ss[2].Fails? && !ss[3].Fails?
    requires !ss[4].Fails? && !ss[5].Fails? && !ss[6].Fails?
    ensures forall i :: 0 <= i < |ss| ==> !ss[i].Fails?
  {
    forall i | 0 <= i < |ss|
      ensures !ss[i].Fails?
    {
      if i == 0 {} else if i == 1 {} else if i == 2 {} else if i == 3 {} else if i == 4 {} else if i == 5 {}
    }
  }

  /**
   * `build_feature_text`: `None` when `record["h"]` is missing or not a
   * dictionary, or when a section raises; otherwise the present sections
   * joined by spaces.
   */
  function FeatureText(record: Entries, fm: Formats): (r: Option<string>)
  {
    match Lookup(record, "h")
    case None => None
    case Some(h) =>
      if !h.Dict? then None
      else
        Assemble(Sections(h.entries, record, fm))
  }

  /** `None` when a section raises, otherwise the present sections joined by spaces. */
  function Assemble(ss: seq<Section>): (r: Option<string>)
    ensures r.None? <==> exists i :: 0 <= i < |ss| && ss[i].Fails?
  {
    if exists i :: 0 <= i < |ss| && ss[i].Fails? then None
    else Some(Join(" ", PresentOf(ss)))
  }

  /** Appends the name sentence. */
  method AddName(parts: seq<string>, name: Value, fm: Formats) returns (out: seq<string>)
    ensures out == parts + TextOf(NameSection(name, fm))
  {
    out := parts;
    if Truthy(name) {
      out := out + [ToStr(name, fm.str) + "."];
    }
  }

  /** Appends the location sentence. */
  method AddLocation(parts: seq<string>, city: Value, country: Value, fm: Formats) returns (out: seq<string>)
    ensures out == parts + TextOf(LocationSection(city, country, fm))
  {
    out := parts;
    if Truthy(city) && Truthy(country) {
      out := out + ["Located in " + ToStr(city, fm.str) + ", " + ToStr(country, fm.str) + "."];
    } else if Truthy(city) {
      out := out + ["Located in " + ToStr(city, fm.str) + "."];
    } else if Truthy(country) {
      out := out + ["Located in " + ToStr(country, fm.str) + "."];
    }
  }

  /** Appends the star-rating sentence. */
  method AddStars(parts: seq<string>, star: Value, fm: Formats) returns (out: seq<string>)
    ensures out == parts + TextOf(StarSection(star, fm))
  {
    out := parts;
    if star != Null {
      out := out + ["Star rating: " + ToStr(star, fm.str) + " stars."];
    }
  }

  /** Appends the global score sentence; `ok` is false when rounding the score raises. */
  method AddScore(parts: seq<string>, avg: Value, fm: Formats) returns (ok: bool, out: seq<string>)
    ensures ok <==> !ScoreSection(avg, fm).Fails?
    ensures ok ==> out == parts + TextOf(ScoreSection(avg, fm))
  {
    ok, out := true, parts;
    if avg != Null {
      var rounded := Round1(avg, fm);
      if rounded.None? {
        return false, parts;
      }
      out := out + ["Global Review Score: " + rounded.value + "/10."];
    }
  }

  /** Appends the traveller-ratings sentence; `ok` is false when formatting a rating raises. */
  method AddTravellers(parts: seq<string>, hotel: Entries, fm: Formats) returns (ok: bool, out: seq<string>)
    ensures ok <==> !TravellerSection(hotel, fm).Fails?
    ensures ok ==> out == parts + TextOf(TravellerSection(hotel, fm))
  {
    var scores := TravellerScores(hotel, fm);
    if scores.None? {
      return false, parts;
    }
    ok, out := true, parts;
    if scores.value != [] {
      out := out + ["Traveller Ratings: " + Join(", ", scores.value) + "."];
    }
  }

  /** Appends the category-scores sentence. */
  method AddCategories(parts: seq<string>, hotel: Entries, fm: Formats) returns (out: seq<string>)
    ensures out == parts + TextOf(CategorySection(hotel, fm))
  {
    var subs := Categories(hotel, fm);
    out := parts;
    if subs != [] {
      out := out + ["Category Scores: " + Join(", ", subs) + "."];
    }
  }

  /** Appends the review snippets; `ok` is false when slicing the review texts raises. */
  method AddReviews(parts: seq<string>, reviews: Value, fm: Formats) returns (ok: bool, out: seq<string>)
    ensures ok <==> !ReviewSection(reviews, fm).Fails?
    ensures ok ==> out == parts + TextOf(ReviewSection(reviews, fm))
  {
    ok, out := true, parts;
    if Truthy(reviews) {
      var items := FirstReviews(reviews);
      if items.None? {
        return false, parts;
      }
      var cleaned := CleanReviews(items.value, fm);
      if cleaned != [] {
        out := out + ["Sample reviews: " + Join(" | ", cleaned)];
      }
    }
  }

  /** The first four sections: name, location, stars and the global score; `ok` is false when the score raises. */
  method LeadingParts(hotel: Entries, record: Entries, fm: Formats, ghost ss: seq<Section>) returns (ok: bool, parts: seq<string>)
    requires |ss| == 7
    requires ss[0] == NameSection(Get(hotel, "name"), fm)
    requires ss[1] == LocationSection(Get(record, "city_name"), Get(record, "country_name"), fm)
    requires ss[2] == StarSection(Get(hotel, "star_rating"), fm)
    requires ss[3] == ScoreSection(Get(hotel, "average_reviews_score"), fm)
    ensures ok <==> !ss[3].Fails?
    ensures ok ==> parts == [] + TextOf(ss[0]) + TextOf(ss[1]) + TextOf(ss[2]) + TextOf(ss[3])
  {
    parts := [];
    parts := AddName(parts, Get(hotel, "name"), fm);
    parts := AddLocation(parts, Get(record, "city_name"), Get(record, "country_name"), fm);
    parts := AddStars(parts, Get(hotel, "star_rating"), fm);
    ok, parts := AddScore(parts, Get(hotel, "average_reviews_score"), fm);
  }

  /** `build_feature_text`, appending the sections one after another. */
  method BuildFeatureText(record: Entries, fm: Formats) returns (r: Option<string>)
    ensures r == FeatureText(record, fm)
  {
    var h := Lookup(record, "h");
    if h.None? || !h.value.Dict? {
      return None;
    }
    var hotel := h.value.entries;
    ghost var ss := Sections(hotel, record, fm);
    var ok: bool;
    var parts: seq<string>;

    SectionsAre(hotel, record, fm);
    ok, parts := LeadingParts(hotel, record, fm, ss);
    if !ok {
      return None;
    }
    ok, parts := AddTravellers(parts, hotel, fm);
    if !ok {
      assert ss[4].Fails?;
      return None;
    }
    parts := AddCategories(parts, hotel, fm);
    ok, parts := AddReviews(parts, LookupOr(record, "review_texts", List([])), fm);
    if !ok {
      assert ss[6].Fails?;
      return None;
    }
    PresentOfSeven(ss);
    NoneFails(ss);

    var name := Get(hotel, "name");
    if parts == [] && Truthy(name) {
      // The name fallback: a truthy name has already added a part.
      assert false;
    }
    r := Some(Join(" ", parts));
  }

  /** A record with a name starts its text with the name sentence, so the name-only fallback is never taken. */
  lemma NameComesFirst(record: Entries, fm: Formats)
    requires FeatureText(record, fm).Some?
    requires Truthy(Get(Lookup(record, "h").value.entries, "name"))
    ensures var head := ToStr(Get(Lookup(record, "h").value.entries, "name"), fm.str) + ".";
      |head| <= |FeatureText(record, fm).value| && FeatureText(record, fm).value[..|head|] == head
  {
    var ss := Sections(Lookup(record, "h").value.entries, record, fm);
    PresentFirst(ss);
    JoinFirst(" ", PresentOf(ss));
  }

  lemma {:induction false} PresentFirst(ss: seq<Section>)
    requires |ss| > 0 && ss[0].Present?
    ensures |PresentOf(ss)| > 0 && PresentOf(ss)[0] == ss[0].s
    decreases |ss|
  {
    if |ss| > 1 {
      PresentFirst(ss[..|ss| - 1]);
      assert ss[..|ss| - 1][0] == ss[0];
    }
  }

  /** A nameless hotel with no location, ratings, scores or reviews yields the empty text. */
  lemma NoDataEmpty(record: Entries, fm: Formats)
    requires Lookup(record, "h").Some? && Lookup(record, "h").value.Dict?
    requires forall i :: 0 <= i < 7 ==> Sections(Lookup(record, "h").value.entries, record, fm)[i].Absent?
    ensures FeatureText(record, fm) == Some("")
  {
    AllAbsent(Sections(Lookup(record, "h").value.entries, record, fm));
  }

  lemma AllAbsent(ss: seq<Section>)
    requires forall i :: 0 <= i < |ss| ==> ss[i].Absent?
    ensures Assemble(ss) == Some("")
  {
    NonePresent(ss);
  }

  lemma {:induction false} NonePresent(ss: seq<Section>)
    requires forall i :: 0 <= i < |ss| ==> ss[i].Absent?
    ensures PresentOf(ss) == []
    decreases |ss|
  {
    if ss != [] {
      NonePresent(ss[..|ss| - 1]);
    }
  }
}
