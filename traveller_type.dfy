/**
 * The traveller-type extractor: ordered lists of phrases per category,
 * matched as raw substrings of the lower-cased query, the first category
 * with a hit winning; and the separate "group" inference from genders,
 * plural pronouns and "and" between people.
 */
module TravellerType {
  import opened Wrappers
  import opened Text

  const SoloPatterns: seq<string> := [
    "i am travelling alone", "i'm travelling alone", "traveling alone", "travelling alone",
    "alone", "solo", "by myself", "just me"]

  const FamilyPatterns: seq<string> := [
    "we are a family", "family trip", "family vacation", "family of", "kids", "children", "with my family"]

  const CouplePatterns: seq<string> := [
    "with my wife", "with my husband", "with my girlfriend", "with my boyfriend",
    "couple", "honeymoon", "me and my wife", "me and my husband"]

  const BusinessPatterns: seq<string> := [
    "business trip", "for business", "work trip", "corporate", "conference", "work travel"]

  const GroupPatterns: seq<string> := [
    "we are a group", "group of", "with my friends", "students", "school trip", "group travel"]

  /** The categories in the order `extract` checks them. */
  const Categories: seq<(string, seq<string>)> := [
    ("solo", SoloPatterns), ("family", FamilyPatterns), ("couple", CouplePatterns),
    ("business", BusinessPatterns), ("group", GroupPatterns)]

  const Group: string := "group"

  /** `any(p in t for p in ps)` */
  predicate AnyIn(ps: seq<string>, t: string)
  {
    exists k :: 0 <= k < |ps| && IsSubstring(ps[k], t)
  }

  /** The first category of `cs` one of whose phrases occurs in `t`. */
  function FirstCategory(cs: seq<(string, seq<string>)>, t: string): (r: Option<string>)
    ensures r.Some? <==> exists c :: 0 <= c < |cs| && AnyIn(cs[c].1, t)
    ensures r.Some? ==> exists c :: 0 <= c < |cs| && cs[c].0 == r.value && AnyIn(cs[c].1, t) &&
                                    forall c' :: 0 <= c' < c ==> !AnyIn(cs[c'].1, t)
  {
    if cs == [] then None
    else if AnyIn(cs[0].1, t) then Some(cs[0].0)
    else
      var r := FirstCategory(cs[1..], t);
      assert forall c :: 0 < c < |cs| ==> cs[c] == cs[1..][c - 1];
      if r.Some? then
        var c :| 0 <= c < |cs[1..]| && cs[1..][c].0 == r.value && AnyIn(cs[1..][c].1, t) &&
                 forall c' :: 0 <= c' < c ==> !AnyIn(cs[1..][c'].1, t);
        assert cs[c + 1] == cs[1..][c];
        r
      else r
  }

  /**
   * `TravellerTypeExtractor.extract`: the first category, in the order
   * solo, family, couple, business, group, one of whose phrases is a
   * substring of the lower-cased text; none when no phrase occurs.
   */
  function ExtractTravellerType(text: string): (r: Option<string>)
    ensures r in {None, Some("solo"), Some("family"), Some("couple"), Some("business"), Some("group")}
    ensures r.None? <==> forall c :: 0 <= c < |Categories| ==> !AnyIn(Categories[c].1, Lower(text))
    ensures r.Some? ==> exists c :: 0 <= c < |Categories| && Categories[c].0 == r.value && AnyIn(Categories[c].1, Lower(text)) &&
                                    forall c' :: 0 <= c' < c ==> !AnyIn(Categories[c'].1, Lower(text))
  {
    CategoryNames(Lower(text));
    FirstCategory(Categories, Lower(text))
  }

  /** The first category found is one of the five category names. */
  lemma CategoryNames(t: string)
    ensures FirstCategory(Categories, t) in {None, Some("solo"), Some("family"), Some("couple"), Some("business"), Some("group")}
  {
    var r := FirstCategory(Categories, t);
    if r.Some? {
      var c :| 0 <= c < |Categories| && Categories[c].0 == r.value;
      assert c == 0 || c == 1 || c == 2 || c == 3 || c == 4;
    }
  }

  /** A solo phrase wins over every other category, whatever else the text says. */
  lemma SoloFirst(text: string, k: nat)
    requires k < |SoloPatterns| && IsSubstring(SoloPatterns[k], Lower(text))
    ensures ExtractTravellerType(text) == Some("solo")
  {
    assert AnyIn(Categories[0].1, Lower(text));
  }

  /**
   * Matching is by raw substring: "kids" inside "skids" is a family hit,
   * so "skids" is a family query.
   */
  lemma RawSubstringExample()
    ensures ExtractTravellerType("skids") == Some("family")
  {
    var t := Lower("skids");
    assert t == "skids";
    forall k | 0 <= k < |SoloPatterns| ensures !IsSubstring(SoloPatterns[k], t) {
      var p := SoloPatterns[k];
      if |p| > |t| {
        NotSubstringByLength(p, t);
      } else {
        assert p == "alone" || p == "solo";
        NotSubstringByChar(p, t, 1);
      }
    }
    assert HasAt(t, 1, "kids");
    HasAtIsSubstring(t, 1, "kids");
    assert FamilyPatterns[4] == "kids";
    assert AnyIn(Categories[1].1, t);
  }

  /** The words `infer_group` looks for next to " and ". */
  const PersonWords: seq<string> := ["boy", "girl", "man", "woman", "friend", "friends"]

  const PluralPronouns: seq<string> := ["we ", "us ", "our "]

  /**
   * `infer_group`: "group" when two or more genders were detected, when a
   * plural pronoun followed by a space occurs, or when " and " occurs
   * together with a word for a person; none otherwise.
   */
  function InferGroup(text: string, genders: seq<string>): (r: Option<string>)
    ensures var t := Lower(text);
      r.Some? <==> |genders| >= 2 || AnyIn(PluralPronouns, t) || (IsSubstring(" and ", t) && AnyIn(PersonWords, t))
    ensures r.Some? ==> r.value == Group
  {
    var t := Lower(text);
    if |genders| >= 2 then Some(Group)
    else if AnyIn(PluralPronouns, t) then Some(Group)
    else if IsSubstring(" and ", t) && AnyIn(PersonWords, t) then Some(Group)
    else None
  }
}
