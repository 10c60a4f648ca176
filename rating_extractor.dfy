/**
 * The rating extractor: every rating cue found in the lower-cased query
 * (a score on a scale, a number after "rating"/"score"/"minimum", a
 * comparison phrase, a star count, a descriptor word) contributes a
 * candidate on the 10-point scale, and the largest candidate is the
 * minimum rating the user asks for.
 *
 * Each regular expression is modelled by a matcher at one position; the
 * comment above each matcher says why the regex's backtracking cannot
 * produce any other match there. `Search` then gives `re.search`.
 */
module RatingExtractor {
  import opened Wrappers
  import opened Text
  import opened PyValue
  import opened Scan

  // ---------------------------------------------------------------------
  // The two tables
  // ---------------------------------------------------------------------

  /** `STAR_TO_RATING`: 1 to 5 stars map to 5.0 to 9.0. */
  function StarToRating(stars: nat): (r: Option<real>)
    ensures 1 <= stars <= 5 <==> r.Some?
    ensures r.Some? ==> r.value == 4.0 + stars as real
  {
    match stars
    case 5 => Some(9.0)
    case 4 => Some(8.0)
    case 3 => Some(7.0)
    case 2 => Some(6.0)
    case 1 => Some(5.0)
    case _ => None
  }

  /** The `HEURISTICS` dict display as written, with "average" given twice. */
  const HeuristicsDisplay: seq<(string, real)> := [
    ("excellent", 9.0),
    ("very good", 8.0),
    ("good", 7.0),
    ("average", 6.0),
    ("decent", 5.0),
    ("average", 5.0),
    ("terrible", 4.0)
  ]

  /** The dict the display builds. */
  function Heuristics(): seq<(string, real)>
  {
    DictDisplay(HeuristicsDisplay)
  }

  /**
   * The duplicate "average" keeps its first position and takes its last
   * value: the dict iterates six descriptors, "average" giving 5.0.
   */
  lemma HeuristicsContents()
    ensures Heuristics() ==
      [("excellent", 9.0), ("very good", 8.0), ("good", 7.0), ("average", 5.0), ("decent", 5.0), ("terrible", 4.0)]
  {
    DescriptorsDistinct();
    DisplayWithRepeat("excellent", "very good", "good", "average", "decent", "terrible", 9.0, 8.0, 7.0, 6.0, 5.0, 5.0, 4.0);
  }

  /** The six descriptor words differ. */
  lemma DescriptorsDistinct()
    ensures var ws := ["excellent", "very good", "good", "average", "decent", "terrible"];
      forall i, j :: 0 <= i < j < |ws| ==> ws[i] != ws[j]
  {
    var ws := ["excellent", "very good", "good", "average", "decent", "terrible"];
    assert ws[0][0] != ws[1][0];
  }

  /**
   * A display of six distinct keys where the fourth is written again
   * after the fifth: the fourth key keeps its place and takes the later value.
   */
  lemma DisplayWithRepeat(a: string, b: string, c: string, d: string, e: string, f: string,
                          va: real, vb: real, vc: real, vd: real, ve: real, vd2: real, vf: real)
    requires var ws := [a, b, c, d, e, f]; forall i, j :: 0 <= i < j < |ws| ==> ws[i] != ws[j]
    ensures DictDisplay([(a, va), (b, vb), (c, vc), (d, vd), (e, ve), (d, vd2), (f, vf)]) ==
      [(a, va), (b, vb), (c, vc), (d, vd2), (e, ve), (f, vf)]
  {
    var ws := [a, b, c, d, e, f];
    assert ws[0] != ws[1] && ws[0] != ws[2] && ws[0] != ws[3] && ws[0] != ws[4] && ws[0] != ws[5];
    assert ws[1] != ws[2] && ws[1] != ws[3] && ws[1] != ws[4] && ws[1] != ws[5];
    assert ws[2] != ws[3] && ws[2] != ws[4] && ws[2] != ws[5];
    assert ws[3] != ws[4] && ws[3] != ws[5] && ws[4] != ws[5];
    var xa, xb, xc, xd, xe, xd2, xf := (a, va), (b, vb), (c, vc), (d, vd), (e, ve), (d, vd2), (f, vf);
    SnocShapes(xa, xb, xc, xd, xe, xd2, xf);
    DistinctFive(xa, xb, xc, xd, xe);
    DisplayStep([xa, xb, xc, xd, xe], [xa, xb, xc, xd, xe], xd2);
    ReplaceFourth(a, b, c, d, e, va, vb, vc, vd, ve, vd2);
    LastNew(xa, xb, xc, xd2, xe, xf);
    DisplayAppend([xa, xb, xc, xd, xe, xd2], [xa, xb, xc, xd2, xe], xf);
  }

  /** Five entries with distinct keys build themselves. */
  lemma DistinctFive(x1: (string, real), x2: (string, real), x3: (string, real), x4: (string, real), x5: (string, real))
    requires x1.0 != x2.0 && x1.0 != x3.0 && x1.0 != x4.0 && x1.0 != x5.0
    requires x2.0 != x3.0 && x2.0 != x4.0 && x2.0 != x5.0
    requires x3.0 != x4.0 && x3.0 != x5.0 && x4.0 != x5.0
    ensures DictDisplay([x1, x2, x3, x4, x5]) == [x1, x2, x3, x4, x5]
  {
    var l := [x1, x2, x3, x4, x5];
    assert l[0] == x1 && l[1] == x2 && l[2] == x3 && l[3] == x4 && l[4] == x5;
    assert DistinctKeys(l);
    DictDisplayDistinct(l);
  }

  /** A key that differs from five others is not among them. */
  lemma LastNew(x1: (string, real), x2: (string, real), x3: (string, real), x4: (string, real), x5: (string, real), x: (string, real))
    requires x.0 != x1.0 && x.0 != x2.0 && x.0 != x3.0 && x.0 != x4.0 && x.0 != x5.0
    ensures x.0 !in Keys([x1, x2, x3, x4, x5])
  {
    KeysOfFive(x1, x2, x3, x4, x5);
  }

  lemma KeysOfFive<V>(x1: (string, V), x2: (string, V), x3: (string, V), x4: (string, V), x5: (string, V))
    ensures Keys([x1, x2, x3, x4, x5]) == [x1.0, x2.0, x3.0, x4.0, x5.0]
  {
  }

  /** Appending to a display is the longer display. */
  lemma SnocShapes<X>(x1: X, x2: X, x3: X, x4: X, x5: X, x6: X, x7: X)
    ensures [] + [x1] == [x1]
    ensures [x1] + [x2] == [x1, x2]
    ensures [x1, x2] + [x3] == [x1, x2, x3]
    ensures [x1, x2, x3] + [x4] == [x1, x2, x3, x4]
    ensures [x1, x2, x3, x4] + [x5] == [x1, x2, x3, x4, x5]
    ensures [x1, x2, x3, x4, x5] + [x6] == [x1, x2, x3, x4, x5, x6]
    ensures [x1, x2, x3, x4, x5, x6] + [x7] == [x1, x2, x3, x4, x5, x6, x7]
  {
  }

  /** Writing the fourth of five distinct keys again replaces its value in place. */
  lemma ReplaceFourth(a: string, b: string, c: string, d: string, e: string,
                      va: real, vb: real, vc: real, vd: real, ve: real, vd2: real)
    requires a != d && b != d && c != d
    ensures Put([(a, va), (b, vb), (c, vc), (d, vd), (e, ve)], d, vd2) == [(a, va), (b, vb), (c, vc), (d, vd2), (e, ve)]
  {
    var s5 := [(a, va), (b, vb), (c, vc), (d, vd), (e, ve)];
    PutReplaces(s5, 3, vd2);
  }

  /** Appending an entry with a new key to a display appends it to the dict. */
  lemma DisplayAppend(ps: seq<(string, real)>, prev: seq<(string, real)>, p: (string, real))
    requires DictDisplay(ps) == prev && p.0 !in Keys(prev)
    ensures DictDisplay(ps + [p]) == prev + [p]
  {
    DisplayStep(ps, prev, p);
    PutAppends(prev, p.0, p.1);
  }

  lemma DisplayStep(ps: seq<(string, real)>, prev: seq<(string, real)>, p: (string, real))
    requires DictDisplay(ps) == prev
    ensures DictDisplay(ps + [p]) == Put(prev, p.0, p.1)
  {
    assert (ps + [p])[..|ps|] == ps;
  }

  // ---------------------------------------------------------------------
  // Pattern 1: a score on a scale
  // ---------------------------------------------------------------------

  /**
   * `(\d+(?:\.\d+)?)\s*(?:out of|\/)\s*(\d+)` at `i`, giving the numerator
   * and the denominator. Giving back a digit or the fraction of the
   * numerator, or a space of either run, leaves a digit, a point or a
   * space where "out of", "/" or a digit is needed, so the greedy runs
   * are the only candidates.
   */
  function ScaleAt(s: string, i: nat): (r: Option<(real, real)>)
    ensures r.Some? ==> i < |s| && IsDigit(s[i]) && NumberAt(s, i).Some? && r.value.0 == NumberValue(s, i)
  {
    if i <= |s| && NumberAt(s, i).Some? then
      var p := SpaceRunEnd(s, NumberAt(s, i).value.1);
      var q := if HasAt(s, p, "out of") then p + 6 else if HasAt(s, p, "/") then p + 1 else p;
      if q > p then
        var d := SpaceRunEnd(s, q);
        var e := DigitRunEnd(s, d);
        if d < e then Some((NumberValue(s, i), DigitsValue(s[d..e]) as real)) else None
      else None
    else None
  }

  /** `_normalize_score`: no score on a zero scale, else the score on a 10-point scale. */
  function NormalizeScore(numerator: real, denominator: real): (r: Option<real>)
    ensures denominator == 0.0 <==> r.None?
    ensures r.Some? ==> r.value * denominator == numerator * 10.0
  {
    if denominator == 0.0 then None else Some(numerator / denominator * 10.0)
  }

  /** A score out of 10 is kept as it is; "4.5/5" becomes 9.0. */
  lemma NormalizeScoreExamples(x: real)
    ensures NormalizeScore(x, 10.0) == Some(x)
    ensures NormalizeScore(4.5, 5.0) == Some(9.0)
  {
  }

  /** The candidate of pattern 1: the leftmost scale, when its denominator is not zero. */
  function ScaleCandidates(t: string): (r: seq<real>)
    ensures |r| <= 1
  {
    match Search(t, ScaleAt)
    case Some(nd) => (match NormalizeScore(nd.0, nd.1) case Some(x) => [x] case None => [])
    case None => []
  }

  // ---------------------------------------------------------------------
  // Pattern 2: a number linked to "rating", "score" or "minimum"
  // ---------------------------------------------------------------------

  /** The last digit in `s[a..e]`, if any. */
  function LastDigit(s: string, a: nat, e: nat): (r: Option<nat>)
    requires a <= e <= |s|
    ensures r.Some? ==> a <= r.value < e && IsDigit(s[r.value]) && forall k :: r.value < k < e ==> !IsDigit(s[k])
    ensures r.None? <==> forall k :: a <= k < e ==> !IsDigit(s[k])
    decreases e - a
  {
    if a == e then None
    else if IsDigit(s[e - 1]) then Some(e - 1)
    else LastDigit(s, a, e - 1)
  }

  const LinkWords: seq<string> := ["rating", "score", "minimum"]

  /** A whole number from 0 to 9. */
  predicate IsDigitReal(x: real)
  {
    0.0 <= x <= 9.0 && x.Floor as real == x
  }

  /**
   * `(rating|score|minimum)\s+.*(\d+(\.\d+)?)` at `i`. No two of the words
   * can start at one position. The greedy `.*` stops at the end of the
   * line and gives back characters until a digit follows, so the number
   * group holds the last digit of that line alone: the digit after it, if
   * any, would be a later digit of the line. Giving back whitespace before
   * `.*` reaches no further digit. The candidate is that one digit.
   */
  function LinkedAt(s: string, i: nat): (r: Option<real>)
    ensures r.Some? ==> IsDigitReal(r.value)
  {
    if i <= |s| then LinkedAtWord(s, i, LinkWords) else None
  }

  function LinkedAtWord(s: string, i: nat, words: seq<string>): (r: Option<real>)
    requires i <= |s|
    ensures r.Some? ==> IsDigitReal(r.value)
  {
    if words == [] then None
    else
      var j := i + |words[0]|;
      if HasAt(s, i, words[0]) && j < |s| && IsSpace(s[j]) then
        var a := SpaceRunEnd(s, j);
        match LastDigit(s, a, LineEnd(s, a))
        case Some(b) => Some(DigitValue(s[b]) as real)
        case None => LinkedAtWord(s, i, words[1..])
      else LinkedAtWord(s, i, words[1..])
  }

  function LinkedCandidates(t: string): (r: seq<real>)
    ensures |r| <= 1
  {
    match Search(t, LinkedAt) case Some(x) => [x] case None => []
  }

  // ---------------------------------------------------------------------
  // Pattern 3: a comparison phrase followed by a number
  // ---------------------------------------------------------------------

  /** The alternatives in the order the regex tries them; `min(?:imum)?` tries "minimum" first. */
  const ComparisonWords: seq<string> := ["above", "over", "greater than", "higher than", "at least", "minimum", "min"]

  /**
   * `(above|...|min(?:imum)?)\s+(\d+(\.\d+)?)` at `i`: the first phrase
   * followed by whitespace and a number. Giving back whitespace leaves a
   * space where a digit is needed, and nothing follows the number, so
   * the greedy number is the match.
   */
  function ComparisonAt(s: string, i: nat): (r: Option<real>)
    ensures r.Some? ==> r.value >= 0.0
  {
    if i <= |s| then ComparisonAtWord(s, i, ComparisonWords) else None
  }

  function ComparisonAtWord(s: string, i: nat, words: seq<string>): (r: Option<real>)
    requires i <= |s|
    ensures r.Some? ==> r.value >= 0.0
    ensures r.Some? <==> exists k :: 0 <= k < |words| && ComparisonWith(s, i, words[k])
  {
    if words == [] then None
    else if ComparisonWith(s, i, words[0]) then
      Some(NumberValue(s, SpaceRunEnd(s, i + |words[0]|)))
    else
      var r := ComparisonAtWord(s, i, words[1..]);
      assert forall k :: 0 < k < |words| ==> words[k] == words[1..][k - 1];
      r
  }

  /** The phrase `w`, whitespace and a number at `i`. */
  predicate ComparisonWith(s: string, i: nat, w: string)
  {
    HasAt(s, i, w) && i + |w| < |s| && IsSpace(s[i + |w|]) && NumberAt(s, SpaceRunEnd(s, i + |w|)).Some?
  }

  function ComparisonCandidates(t: string): (r: seq<real>)
    ensures |r| <= 1
  {
    match Search(t, ComparisonAt) case Some(x) => [x] case None => []
  }

  // ---------------------------------------------------------------------
  // Pattern 4: a star count
  // ---------------------------------------------------------------------

  /**
   * `(\d)\s*-?star` at `i`, giving the digit. Giving back a space or the
   * hyphen leaves it where "star" or the hyphen is needed.
   */
  function StarAt(s: string, i: nat): (r: Option<nat>)
    ensures r.Some? ==> r.value <= 9 && i < |s| && IsDigit(s[i]) && r.value == DigitValue(s[i])
  {
    if i < |s| && IsDigit(s[i]) then
      var p := SpaceRunEnd(s, i + 1);
      var q := if p < |s| && s[p] == '-' then p + 1 else p;
      if HasAt(s, q, "star") then Some(DigitValue(s[i])) else None
    else None
  }

  /** The candidate of the leftmost star cue, when its count is in the table. */
  function StarCandidates(t: string): (r: seq<real>)
    ensures |r| <= 1
  {
    match Search(t, StarAt)
    case Some(n) => (match StarToRating(n) case Some(x) => [x] case None => [])
    case None => []
  }

  // ---------------------------------------------------------------------
  // Descriptors
  // ---------------------------------------------------------------------

  /** The ratings of the descriptors of `hs`, in order, that occur in `t` as whole words. */
  function DescriptorHits(hs: seq<(string, real)>, t: string): (r: seq<real>)
    ensures |r| <= |hs|
    ensures forall x :: x in r <==> exists k :: 0 <= k < |hs| && HasWholeWord(t, hs[k].0) && hs[k].1 == x
  {
    if hs == [] then []
    else
      var prev := DescriptorHits(hs[..|hs| - 1], t);
      var last := hs[|hs| - 1];
      var r := if HasWholeWord(t, last.0) then prev + [last.1] else prev;
      assert forall k :: 0 <= k < |hs| - 1 ==> hs[..|hs| - 1][k] == hs[k];
      r
  }

  // ---------------------------------------------------------------------
  // The result
  // ---------------------------------------------------------------------

  /** Every candidate, in the order `extract_rating` collects them. */
  function Candidates(t: string): seq<real>
  {
    ScaleCandidates(t) + LinkedCandidates(t) + ComparisonCandidates(t) + StarCandidates(t) + DescriptorHits(Heuristics(), t)
  }

  function MaxOf(xs: seq<real>): (m: real)
    requires xs != []
    ensures m in xs
    ensures forall x :: x in xs ==> x <= m
  {
    if |xs| == 1 then xs[0]
    else
      var m := MaxOf(xs[1..]);
      assert forall x :: x in xs ==> x == xs[0] || x in xs[1..];
      if xs[0] >= m then xs[0] else m
  }

  /** `extract_rating` as a value: the largest candidate, or none without any cue. */
  function Rating(text: string): Option<real>
  {
    var cs := Candidates(Lower(text));
    if cs == [] then None else Some(MaxOf(cs))
  }

  /**
   * `extract_rating`: collects the candidates of each pattern and each
   * descriptor into a list, then keeps the largest.
   */
  method ExtractRating(text: string) returns (r: Option<real>)
    ensures r == Rating(text)
  {
    var t := Lower(text);
    var possible := PatternCandidates(t);
    possible := AddDescriptors(t, possible);
    if possible != [] {
      r := Some(MaxOf(possible));
    } else {
      r := None;
    }
  }

  /** Steps 1 and 2 of `extract_rating`: the four patterns, in order. */
  method PatternCandidates(t: string) returns (possible: seq<real>)
    ensures possible == ScaleCandidates(t) + LinkedCandidates(t) + ComparisonCandidates(t) + StarCandidates(t)
  {
    possible := [];
    var scale := Search(t, ScaleAt);
    if scale.Some? {
      var normalized := NormalizeScore(scale.value.0, scale.value.1);
      if normalized.Some? {
        possible := possible + [normalized.value];
      }
    }
    assert possible == ScaleCandidates(t);
    possible := AppendMatch(t, LinkedAt, possible);
    possible := AppendMatch(t, ComparisonAt, possible);
    possible := AppendStar(t, possible);
  }

  /** `m = re.search(...)` and, on a match, `possible.append(float(m.group(2)))`. */
  method AppendMatch(t: string, m: (string, nat) -> Option<real>, possible: seq<real>) returns (r: seq<real>)
    ensures r == possible + (match Search(t, m) case Some(x) => [x] case None => [])
  {
    var found := Search(t, m);
    r := possible;
    if found.Some? {
      r := r + [found.value];
    }
  }

  /** The star cue: the count is looked up in the table, and a count outside it adds nothing. */
  method AppendStar(t: string, possible: seq<real>) returns (r: seq<real>)
    ensures r == possible + StarCandidates(t)
  {
    var star := Search(t, StarAt);
    r := possible;
    if star.Some? {
      var x := StarToRating(star.value);
      if x.Some? {
        r := r + [x.value];
      }
    }
  }

  /** Step 3 of `extract_rating`: the loop over the descriptors. */
  method AddDescriptors(t: string, base: seq<real>) returns (possible: seq<real>)
    ensures possible == base + DescriptorHits(Heuristics(), t)
  {
    possible := AddHits(t, Heuristics(), base);
  }

  /** The loop of step 3 over any descriptor table `hs`. */
  method AddHits(t: string, hs: seq<(string, real)>, base: seq<real>) returns (possible: seq<real>)
    ensures possible == base + DescriptorHits(hs, t)
  {
    possible := base;
    for k := 0 to |hs|
      invariant possible == base + DescriptorHits(hs[..k], t)
    {
      var (phrase, rating) := hs[k];
      assert hs[..k + 1][..k] == hs[..k];
      if HasWholeWord(t, phrase) {
        possible := possible + [rating];
      }
    }
    assert hs[..|hs|] == hs;
  }

  // ---------------------------------------------------------------------
  // Properties
  // ---------------------------------------------------------------------

  /** No rating exactly when no cue contributes a candidate. */
  lemma NoneIffNoCue(text: string)
    ensures var t := Lower(text);
      Rating(text).None? <==>
        && (Search(t, ScaleAt).None? || Search(t, ScaleAt).value.1 == 0.0)
        && Search(t, LinkedAt).None?
        && Search(t, ComparisonAt).None?
        && (Search(t, StarAt).None? || !(1 <= Search(t, StarAt).value <= 5))
        && forall k :: 0 <= k < |Heuristics()| ==> !HasWholeWord(t, Heuristics()[k].0)
  {
    var t := Lower(text);
    DescriptorHitsEmpty(Heuristics(), t);
    PatternsEmpty(t);
    ConcatEmpty(ScaleCandidates(t), LinkedCandidates(t), ComparisonCandidates(t), StarCandidates(t), DescriptorHits(Heuristics(), t));
  }

  /** When each pattern contributes nothing. */
  lemma PatternsEmpty(t: string)
    ensures ScaleCandidates(t) == [] <==> Search(t, ScaleAt).None? || Search(t, ScaleAt).value.1 == 0.0
    ensures LinkedCandidates(t) == [] <==> Search(t, LinkedAt).None?
    ensures ComparisonCandidates(t) == [] <==> Search(t, ComparisonAt).None?
    ensures StarCandidates(t) == [] <==> Search(t, StarAt).None? || !(1 <= Search(t, StarAt).value <= 5)
  {
  }

  lemma ConcatEmpty<X>(a: seq<X>, b: seq<X>, c: seq<X>, d: seq<X>, e: seq<X>)
    ensures a + b + c + d + e == [] <==> a == [] && b == [] && c == [] && d == [] && e == []
  {
    if a + b + c + d + e == [] {
      assert |a + b + c + d + e| == |a| + |b| + |c| + |d| + |e|;
    }
  }

  lemma DescriptorHitsEmpty(hs: seq<(string, real)>, t: string)
    ensures DescriptorHits(hs, t) == [] <==> forall k :: 0 <= k < |hs| ==> !HasWholeWord(t, hs[k].0)
  {
    var dh := DescriptorHits(hs, t);
    if dh == [] {
      forall k | 0 <= k < |hs| ensures !HasWholeWord(t, hs[k].0) {
        assert hs[k].1 !in dh;
      }
    } else {
      assert dh[0] in dh;
    }
  }

  /** The rating is one of the candidates and no candidate is larger. */
  lemma RatingIsLargestCue(text: string)
    ensures Rating(text).None? <==> Candidates(Lower(text)) == []
    ensures Rating(text).Some? ==>
      Rating(text).value in Candidates(Lower(text)) &&
      forall x :: x in Candidates(Lower(text)) ==> x <= Rating(text).value
  {
  }

  /** A number linked to "rating", "score" or "minimum" is read as a single digit. */
  lemma LinkedIsOneDigit(text: string)
    ensures forall x :: x in LinkedCandidates(Lower(text)) ==> IsDigitReal(x)
  {
  }

  /** A star cue contributes 4 plus its count; a count outside 1 to 5 contributes nothing. */
  lemma StarCue(text: string)
    ensures var t := Lower(text);
      match Search(t, StarAt)
      case Some(n) => StarCandidates(t) == (if 1 <= n <= 5 then [4.0 + n as real] else [])
      case None => StarCandidates(t) == []
  {
  }

  /** "very good" as a whole word always brings "good" as a whole word. */
  lemma VeryGoodAlsoGood(t: string)
    requires HasWholeWord(t, "very good")
    ensures HasWholeWord(t, "good")
  {
    var i :| 0 <= i <= |t| && WholeWordAt(t, i, "very good");
    var w := t[i..i + 9];
    assert w == "very good";
    assert t[i + 5..i + 9] == w[5..9] == "good";
    assert "very good"[4] == ' ';
    assert t[i + 4] == w[4];
    assert WholeWordAt(t, i + 5, "good");
  }

  /** So "very good" gives 8.0 and "good" 7.0, and the larger one is kept. */
  lemma VeryGoodGivesEight(t: string)
    requires HasWholeWord(t, "very good")
    ensures 8.0 in DescriptorHits(Heuristics(), t) && 7.0 in DescriptorHits(Heuristics(), t)
  {
    HeuristicsContents();
    VeryGoodAlsoGood(t);
    assert Heuristics()[1] == ("very good", 8.0);
    assert Heuristics()[2] == ("good", 7.0);
  }

  /** The duplicated "average" contributes 5.0, never 6.0. */
  lemma AverageIsFive(t: string)
    ensures 6.0 !in DescriptorHits(Heuristics(), t)
    ensures HasWholeWord(t, "average") ==> 5.0 in DescriptorHits(Heuristics(), t)
  {
    HeuristicsContents();
    SixValues(Heuristics());
    if HasWholeWord(t, "average") {
      HitAt(Heuristics(), t, 3);
    }
  }

  /** No value of the descriptor table is 6.0, and its fourth entry is "average" at 5.0. */
  lemma SixValues(hs: seq<(string, real)>)
    requires hs == [("excellent", 9.0), ("very good", 8.0), ("good", 7.0), ("average", 5.0), ("decent", 5.0), ("terrible", 4.0)]
    ensures forall k :: 0 <= k < |hs| ==> hs[k].1 != 6.0
    ensures hs[3] == ("average", 5.0)
  {
  }

  /** A descriptor that occurs contributes its rating. */
  lemma HitAt(hs: seq<(string, real)>, t: string, k: nat)
    requires k < |hs| && HasWholeWord(t, hs[k].0)
    ensures hs[k].1 in DescriptorHits(hs, t)
  {
  }

  /**
   * "rating at least 8.5": the number after "rating" is read as its last
   * digit, 5.0, while the comparison phrase reads 8.5.
   */
  lemma LastDigitQuirk()
    ensures LinkedCandidates("rating at least 8.5") == [5.0]
    ensures ComparisonCandidates("rating at least 8.5") == [8.5]
  {
    var s := "rating at least 8.5";
    LinkedAtStart(s);
    SearchFindsLeftmost(s, LinkedAt, 0);
    ComparisonAtSeven(s);
    forall i | 0 <= i < 7 ensures ComparisonAt(s, i).None? {
      NoComparisonBefore(s, i);
    }
    SearchFindsLeftmost(s, ComparisonAt, 7);
  }

  lemma LinkedAtStart(s: string)
    requires s == "rating at least 8.5"
    ensures LinkedAt(s, 0) == Some(5.0)
  {
    assert HasAt(s, 0, "rating") && IsSpace(s[6]) && !IsSpace(s[7]);
    assert SpaceRunEnd(s, 6) == 7;
    assert forall k :: 0 <= k < |s| ==> s[k] != '\n';
    assert LineEnd(s, 7) == 19;
    assert LastDigit(s, 7, 19) == Some(18);
    assert DigitValue(s[18]) == 5;
  }

  lemma ComparisonAtSeven(s: string)
    requires s == "rating at least 8.5"
    ensures ComparisonAt(s, 7) == Some(8.5)
  {
    SkipFourAtSeven(s);
    AtLeastAtSeven(s);
  }

  /** "above", "over", "greater than" and "higher than" do not occur at 7. */
  lemma SkipFourAtSeven(s: string)
    requires s == "rating at least 8.5"
    ensures ComparisonAtWord(s, 7, ComparisonWords) == ComparisonAtWord(s, 7, ComparisonWords[4..])
  {
    var w := ComparisonWords;
    assert !HasAt(s, 7, w[0]) by { assert w[0][1] == 'b'; NotAtByChar(s, 7, w[0], 1); }
    assert !HasAt(s, 7, w[1]) by { assert w[1][0] == 'o'; NotAtByChar(s, 7, w[1], 0); }
    assert !HasAt(s, 7, w[2]) by { assert w[2][0] == 'g'; NotAtByChar(s, 7, w[2], 0); }
    assert !HasAt(s, 7, w[3]) by { assert w[3][0] == 'h'; NotAtByChar(s, 7, w[3], 0); }
    SkipWord(s, 7, w);
    SkipWord(s, 7, w[1..]);
    SkipWord(s, 7, w[2..]);
    SkipWord(s, 7, w[3..]);
    assert w[1..][1..] == w[2..] && w[2..][1..] == w[3..] && w[3..][1..] == w[4..];
  }

  /** "at least" is followed by a space and 8.5. */
  lemma AtLeastAtSeven(s: string)
    requires s == "rating at least 8.5"
    ensures ComparisonAtWord(s, 7, ComparisonWords[4..]) == Some(8.5)
  {
    var w := ComparisonWords[4..];
    assert w[0] == "at least";
    assert HasAt(s, 7, w[0]) && IsSpace(s[15]) && !IsSpace(s[16]);
    assert SpaceRunEnd(s, 16) == 16;
    NumberAtSixteen(s);
  }

  /** An alternative that does not occur is skipped. */
  lemma SkipWord(s: string, i: nat, words: seq<string>)
    requires i <= |s| && words != [] && !HasAt(s, i, words[0])
    ensures ComparisonAtWord(s, i, words) == ComparisonAtWord(s, i, words[1..])
  {
  }

  lemma NumberAtSixteen(s: string)
    requires s == "rating at least 8.5"
    ensures NumberAt(s, 16).Some? && NumberValue(s, 16) == 8.5
  {
    assert DigitRunEnd(s, 16) == 17;
    assert DigitRunEnd(s, 18) == 19;
    assert NumberAt(s, 16) == Some((17, 19));
    assert s[16..17] == "8" && s[18..19] == "5";
    assert DigitsValue("8") == 8;
    assert FractionValue("5") == 0.5;
  }

  lemma NoComparisonBefore(s: string, i: nat)
    requires s == "rating at least 8.5" && i < 7
    ensures ComparisonAt(s, i).None?
  {
    var c := if i == 1 then 2 else if i == 5 then 1 else 0;
    forall k | 0 <= k < |ComparisonWords| ensures !ComparisonWith(s, i, ComparisonWords[k]) {
      NotAtByChar(s, i, ComparisonWords[k], c);
    }
  }
}
