/**
 * The demographics extractor: an age group from "I am N"-style or
 * "between N and M" phrases, and the genders named by whole words.
 */
module Demographics {
  import opened Wrappers
  import opened Text
  import opened Scan

  // ---------------------------------------------------------------------
  // Age
  // ---------------------------------------------------------------------

  /** `_map_age_to_group` */
  function AgeGroup(age: nat): (r: Option<string>)
    ensures r.None? <==> age < 18
    ensures r.Some? ==> r.value in AgeGroups
    ensures 18 <= age <= 24 ==> r == Some("18-24")
    ensures 25 <= age <= 34 ==> r == Some("25-34")
    ensures 35 <= age <= 44 ==> r == Some("35-44")
    ensures 45 <= age <= 54 ==> r == Some("45-54")
    ensures age >= 55 ==> r == Some("55+")
  {
    if age < 18 then None
    else if age <= 24 then Some("18-24")
    else if age <= 34 then Some("25-34")
    else if age <= 44 then Some("35-44")
    else if age <= 54 then Some("45-54")
    else Some("55+")
  }

  const AgeGroups: seq<string> := ["18-24", "25-34", "35-44", "45-54", "55+"]

  /** The buckets, in order, cover increasing ages: a larger age never falls in an earlier bucket. */
  lemma AgeGroupMonotone(a: nat, b: nat)
    requires 18 <= a <= b
    ensures BucketIndex(AgeGroup(a).value) <= BucketIndex(AgeGroup(b).value)
  {
  }

  function BucketIndex(g: string): nat
  {
    if g == "18-24" then 0 else if g == "25-34" then 1 else if g == "35-44" then 2 else if g == "45-54" then 3 else 4
  }

  /**
   * `\d{1,2}` at `i`: one digit, or two when a second follows. Returns the
   * end of the digits.
   */
  function ShortNumberAt(s: string, i: nat): (r: Option<nat>)
    ensures r.Some? ==> i < r.value <= i + 2 && r.value <= |s| && forall k :: i <= k < r.value ==> IsDigit(s[k])
    ensures r.Some? && r.value == i + 1 ==> r.value == |s| || !IsDigit(s[r.value])
  {
    if i < |s| && IsDigit(s[i]) then
      if i + 1 < |s| && IsDigit(s[i + 1]) then Some(i + 2) else Some(i + 1)
    else None
  }

  const AgeWords: seq<string> := ["i am", "i'm", "age", "aged"]

  /**
   * `\b(i am|i'm|age|aged)\s*(\d{1,2})\b` at `i`, giving the age. The
   * alternatives are tried in order. Giving back a space leaves a space
   * where a digit is needed; giving back the second digit leaves no
   * boundary between two digits. So the greedy runs are the only
   * candidates, and "age" fails before "aged" is tried when a "d" follows.
   */
  function StatedAgeAt(s: string, i: nat): (r: Option<nat>)
    ensures r.Some? ==> r.value <= 99
  {
    if i <= |s| && IsBoundary(s, i) then StatedAgeWord(s, i, AgeWords) else None
  }

  function StatedAgeWord(s: string, i: nat, words: seq<string>): (r: Option<nat>)
    requires i <= |s|
    ensures r.Some? ==> r.value <= 99
  {
    if words == [] then None
    else if HasAt(s, i, words[0]) then
      var d := SpaceRunEnd(s, i + |words[0]|);
      match ShortNumberAt(s, d)
      case Some(e) =>
        if IsBoundary(s, e) then Some(ShortValue(s, d, e)) else StatedAgeWord(s, i, words[1..])
      case None => StatedAgeWord(s, i, words[1..])
    else StatedAgeWord(s, i, words[1..])
  }

  /** The value of one or two digits. */
  function ShortValue(s: string, d: nat, e: nat): (n: nat)
    requires d < e <= d + 2 && e <= |s|
    ensures n <= 99
  {
    if e == d + 1 then DigitValue(s[d]) else DigitValue(s[d]) * 10 + DigitValue(s[d + 1])
  }

  /**
   * `between\s*(\d{1,2})\s*and\s*(\d{1,2})` at `i`, giving both numbers.
   * Giving back a digit or a space leaves a digit or a space where "and"
   * or a digit is needed.
   */
  function RangeAt(s: string, i: nat): (r: Option<(nat, nat)>)
    ensures r.Some? ==> r.value.0 <= 99 && r.value.1 <= 99
  {
    if i <= |s| && HasAt(s, i, "between") then
      var d := SpaceRunEnd(s, i + 7);
      match ShortNumberAt(s, d)
      case Some(e) =>
        var a := SpaceRunEnd(s, e);
        if HasAt(s, a, "and") then
          var d2 := SpaceRunEnd(s, a + 3);
          match ShortNumberAt(s, d2)
          case Some(e2) => Some((ShortValue(s, d, e), ShortValue(s, d2, e2)))
          case None => None
        else None
      case None => None
    else None
  }

  /**
   * `extract_age`: the leftmost stated age decides alone, even when it is
   * under 18; otherwise the leftmost range gives the floor of the average
   * of its ends.
   */
  function ExtractAge(text: string): (r: Option<string>)
    ensures var t := Lower(text);
      && (Search(t, StatedAgeAt).Some? ==> r == AgeGroup(Search(t, StatedAgeAt).value))
      && (Search(t, StatedAgeAt).None? && Search(t, RangeAt).Some? ==>
            r == AgeGroup((Search(t, RangeAt).value.0 + Search(t, RangeAt).value.1) / 2))
      && (Search(t, StatedAgeAt).None? && Search(t, RangeAt).None? ==> r.None?)
  {
    var t := Lower(text);
    match Search(t, StatedAgeAt)
    case Some(age) => AgeGroup(age)
    case None =>
      match Search(t, RangeAt)
      case Some(ab) => AgeGroup((ab.0 + ab.1) / 2)
      case None => None
  }

  /** "between 24 and 25" averages to 24 by floor division and lands in "18-24". */
  lemma RangeFloorExample()
    ensures ExtractAge("between 24 and 25") == Some("18-24")
  {
    var t := "between 24 and 25";
    assert Lower("between 24 and 25") == t;
    StatedAgeNowhere(t);
    RangeAtStart(t);
    SearchFindsLeftmost(t, RangeAt, 0);
  }

  lemma StatedAgeNowhere(t: string)
    requires t == "between 24 and 25"
    ensures Search(t, StatedAgeAt).None?
  {
    forall i | 0 <= i <= |t| ensures StatedAgeAt(t, i).None? {
      if i <= |t| && IsBoundary(t, i) {
        NoAgeWordAt(t, i);
      }
    }
  }

  lemma NoAgeWordAt(t: string, i: nat)
    requires t == "between 24 and 25" && i <= |t|
    ensures StatedAgeWord(t, i, AgeWords).None?
  {
    var w := AgeWords;
    // "a" occurs only at 11, followed by "nd"; "i" does not occur.
    assert !HasAt(t, i, w[0]) by { NotAtByChar(t, i, w[0], 0); }
    assert !HasAt(t, i, w[1]) by { NotAtByChar(t, i, w[1], 0); }
    assert !HasAt(t, i, w[2]) by { NotAtByChar(t, i, w[2], if i == 11 then 1 else 0); }
    assert !HasAt(t, i, w[3]) by { NotAtByChar(t, i, w[3], if i == 11 then 1 else 0); }
    SkipAgeWord(t, i, w);
    SkipAgeWord(t, i, w[1..]);
    SkipAgeWord(t, i, w[2..]);
    SkipAgeWord(t, i, w[3..]);
    assert w[1..][1..] == w[2..] && w[2..][1..] == w[3..] && w[3..][1..] == [];
  }

  /** An alternative that does not occur is skipped. */
  lemma SkipAgeWord(s: string, i: nat, words: seq<string>)
    requires i <= |s| && words != [] && !HasAt(s, i, words[0])
    ensures StatedAgeWord(s, i, words) == StatedAgeWord(s, i, words[1..])
  {
  }

  lemma RangeAtStart(t: string)
    requires t == "between 24 and 25"
    ensures RangeAt(t, 0) == Some((24, 25))
  {
    assert HasAt(t, 0, "between");
    assert SpaceRunEnd(t, 7) == 8 && SpaceRunEnd(t, 10) == 11;
    assert HasAt(t, 11, "and");
    assert SpaceRunEnd(t, 14) == 15;
    assert ShortNumberAt(t, 8) == Some(10) && ShortNumberAt(t, 15) == Some(17);
    assert ShortValue(t, 8, 10) == 24 && ShortValue(t, 15, 17) == 25;
  }

  // ---------------------------------------------------------------------
  // Gender
  // ---------------------------------------------------------------------

  const MaleWords: seq<string> := ["male", "man", "boy"]
  const FemaleWords: seq<string> := ["female", "woman", "girl"]

  /** `re.search(r"\b(w1|w2|w3)\b", t)` succeeds: one of the words occurs as a whole word. */
  predicate AnyWholeWord(ws: seq<string>, t: string)
  {
    exists k :: 0 <= k < |ws| && HasWholeWord(t, ws[k])
  }

  /** The genders `extract_gender` reports: "male" then "female", each when its words occur. */
  function Genders(text: string): (r: Option<seq<string>>)
  {
    var t := Lower(text);
    var gs := MaleHit(t) + FemaleHit(t);
    if gs != [] then Some(gs) else None
  }

  function MaleHit(t: string): seq<string>
  {
    if AnyWholeWord(MaleWords, t) then ["male"] else []
  }

  function FemaleHit(t: string): seq<string>
  {
    if AnyWholeWord(FemaleWords, t) then ["female"] else []
  }

  /** `extract_gender`: appends "male" and then "female" to a list; an empty list becomes none. */
  method ExtractGender(text: string) returns (r: Option<seq<string>>)
    ensures r == Genders(text)
  {
    var t := Lower(text);
    var genders: seq<string> := [];
    if AnyWholeWord(MaleWords, t) {
      genders := genders + ["male"];
    }
    assert genders == MaleHit(t);
    if AnyWholeWord(FemaleWords, t) {
      genders := genders + ["female"];
    }
    assert genders == MaleHit(t) + FemaleHit(t);
    if genders != [] {
      r := Some(genders);
    } else {
      r := None;
    }
  }

  /**
   * The result is never an empty list: it is none or exactly one of
   * ["male"], ["female"], ["male", "female"], each word present exactly
   * when its whole words occur.
   */
  lemma GendersShape(text: string)
    ensures var t := Lower(text); var m := AnyWholeWord(MaleWords, t); var f := AnyWholeWord(FemaleWords, t);
      Genders(text) == if m && f then Some(["male", "female"]) else if m then Some(["male"])
                       else if f then Some(["female"]) else None
    ensures Genders(text) != Some([])
  {
    var t := Lower(text);
    assert ["male"] + ["female"] == ["male", "female"];
    assert MaleHit(t) + [] == MaleHit(t);
    assert [] + FemaleHit(t) == FemaleHit(t);
  }

  /** Whole-word matching: "female" does not contain the word "male", nor "woman" the word "man". */
  lemma FemaleOnly()
    ensures Genders("female") == Some(["female"])
    ensures Genders("woman") == Some(["female"])
  {
    assert Lower("female") == "female";
    assert Lower("woman") == "woman";
    GendersShape("female");
    GendersShape("woman");
    NoMaleWord("female");
    NoMaleWord("woman");
    assert WholeWordAt("female", 0, "female");
    assert WholeWordAt("woman", 0, "woman");
    assert HasWholeWord("female", FemaleWords[0]);
    assert HasWholeWord("woman", FemaleWords[1]);
  }

  /** In a single lower-case word, a male word can start only at its first letter. */
  lemma NoMaleWord(t: string)
    requires t == "female" || t == "woman"
    ensures !AnyWholeWord(MaleWords, t)
  {
    forall k, i | 0 <= k < |MaleWords| && 0 <= i <= |t| ensures !WholeWordAt(t, i, MaleWords[k]) {
      if i > 0 {
        if i < |t| {
          assert IsWordChar(t[i - 1]) && IsWordChar(t[i]);
        } else {
          NotAtByChar(t, i, MaleWords[k], 0);
        }
      } else {
        NotAtByChar(t, 0, MaleWords[k], 0);
      }
    }
  }

  /** `DemographicsExtractor.extract` */
  datatype DemographicsResult = DemographicsResult(ageGroup: Option<string>, gender: Option<seq<string>>)

  function ExtractDemographics(text: string): (r: DemographicsResult)
    ensures r.ageGroup == ExtractAge(text) && r.gender == Genders(text)
  {
    DemographicsResult(ExtractAge(text), Genders(text))
  }
}
