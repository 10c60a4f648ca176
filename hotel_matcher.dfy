/**
 * Hotel-name recognition: the longest hotel name contained in the query,
 * and the best fuzzy match of a single query word. The similarity ratio
 * of Python's difflib is an oracle.
 */
module HotelMatcher {
  import opened Wrappers
  import opened Text

  // ---------------------------------------------------------------------
  // Exact matching
  // ---------------------------------------------------------------------

  /** Python's `<` on `(len, name)` tuples. */
  predicate PairLess(a: (nat, string), b: (nat, string))
  {
    a.0 < b.0 || (a.0 == b.0 && StrLess(a.1, b.1))
  }

  /** `not (a < c)` follows from `not (a < b)` and `not (b < c)`: the order is total. */
  lemma PairNotLessTransitive(a: (nat, string), b: (nat, string), c: (nat, string))
    requires !PairLess(a, b) && !PairLess(b, c)
    ensures !PairLess(a, c)
  {
    StrLessTotal(a.1, b.1);
    StrLessTotal(b.1, c.1);
    StrLessAsymmetric(a.1, c.1);
    if a.0 == c.0 && a.0 == b.0 && StrLess(c.1, b.1) && StrLess(b.1, a.1) {
      StrLessTransitive(c.1, b.1, a.1);
    }
  }

  /** The first element of `sorted(ps, reverse=True)`: a greatest pair. */
  function MaxPair(ps: seq<(nat, string)>): (m: (nat, string))
    requires ps != []
    ensures m in ps
    ensures forall p :: p in ps ==> !PairLess(m, p)
  {
    if |ps| == 1 then
      StrLessIrreflexive(ps[0].1);
      ps[0]
    else
      var m := MaxPair(ps[1..]);
      assert forall p :: p in ps ==> p == ps[0] || p in ps[1..];
      if PairLess(ps[0], m) then
        StrLessAsymmetric(ps[0].1, m.1);
        m
      else
        StrLessIrreflexive(ps[0].1);
        assert forall p :: p in ps[1..] ==> !PairLess(ps[0], p) by {
          forall p | p in ps[1..] ensures !PairLess(ps[0], p) {
            PairNotLessTransitive(ps[0], m, p);
          }
        }
        ps[0]
  }

  /** The `(len(lowered), original)` pairs of the hotels whose lower-cased name occurs in `t`. */
  function ExactMatches(hotels: seq<string>, t: string): (r: seq<(nat, string)>)
    ensures forall p :: p in r <==> exists k :: 0 <= k < |hotels| && IsSubstring(Lower(hotels[k]), t) && p == (|hotels[k]|, hotels[k])
  {
    if hotels == [] then []
    else
      var prev := ExactMatches(hotels[..|hotels| - 1], t);
      var h := hotels[|hotels| - 1];
      assert forall k :: 0 <= k < |hotels| - 1 ==> hotels[..|hotels| - 1][k] == hotels[k];
      if IsSubstring(Lower(h), t) then prev + [(|Lower(h)|, h)] else prev
  }

  /** What `match_exact` returns. */
  function ExactMatch(hotels: seq<string>, text: string): Option<string>
  {
    var ms := ExactMatches(hotels, Lower(text));
    if ms == [] then None else Some(MaxPair(ms).1)
  }

  /**
   * `match_exact`: collects the matching names with their lengths, sorts
   * them in reverse and returns the name of the first.
   */
  method MatchExact(hotels: seq<string>, text: string) returns (r: Option<string>)
    ensures r == ExactMatch(hotels, text)
  {
    var t := Lower(text);
    var matches: seq<(nat, string)> := [];
    for k := 0 to |hotels|
      invariant matches == ExactMatches(hotels[..k], t)
    {
      var lowered := Lower(hotels[k]);
      assert hotels[..k + 1][..k] == hotels[..k];
      if IsSubstring(lowered, t) {
        matches := matches + [(|lowered|, hotels[k])];
      }
    }
    assert hotels[..|hotels|] == hotels;
    if matches != [] {
      r := Some(MaxPair(matches).1);
    } else {
      r := None;
    }
  }

  /** No match exactly when no lower-cased hotel name occurs in the lower-cased text. */
  lemma ExactNoneIff(hotels: seq<string>, text: string)
    ensures ExactMatch(hotels, text).None? <==> forall k :: 0 <= k < |hotels| ==> !IsSubstring(Lower(hotels[k]), Lower(text))
  {
    var ms := ExactMatches(hotels, Lower(text));
    if ms != [] {
      assert ms[0] in ms;
    } else {
      forall k | 0 <= k < |hotels| ensures !IsSubstring(Lower(hotels[k]), Lower(text)) {
        assert (|hotels[k]|, hotels[k]) !in ms;
      }
    }
  }

  /**
   * A returned name is a hotel whose lower-cased form occurs in the text,
   * no occurring name is longer, and among occurring names of the same
   * length none is greater.
   */
  lemma ExactLongest(hotels: seq<string>, text: string)
    requires ExactMatch(hotels, text).Some?
    ensures var r := ExactMatch(hotels, text).value; var t := Lower(text);
      && r in hotels && IsSubstring(Lower(r), t)
      && forall k :: 0 <= k < |hotels| && IsSubstring(Lower(hotels[k]), t) ==>
           |hotels[k]| < |r| || (|hotels[k]| == |r| && (hotels[k] == r || StrLess(hotels[k], r)))
  {
    var t := Lower(text);
    var ms := ExactMatches(hotels, t);
    var m := MaxPair(ms);
    forall k | 0 <= k < |hotels| && IsSubstring(Lower(hotels[k]), t)
      ensures |hotels[k]| < |m.1| || (|hotels[k]| == |m.1| && (hotels[k] == m.1 || StrLess(hotels[k], m.1)))
    {
      assert (|hotels[k]|, hotels[k]) in ms;
      StrLessTotal(hotels[k], m.1);
    }
  }

  // ---------------------------------------------------------------------
  // Fuzzy matching
  // ---------------------------------------------------------------------

  /**
   * `get_close_matches(word, lows, n=1, cutoff)`: the candidate with the
   * greatest `(ratio, candidate)` among those whose ratio against `word`
   * reaches the cutoff. (Its quick pre-filters bound the ratio from above,
   * so they reject nothing the ratio accepts.)
   */
  function CloseMatch(word: string, lows: seq<string>, cutoff: real, ratio: (string, string) -> real): (r: Option<string>)
    ensures r.Some? ==> r.value in lows && ratio(r.value, word) >= cutoff
    ensures r.None? <==> forall k :: 0 <= k < |lows| ==> ratio(lows[k], word) < cutoff
    ensures r.Some? ==> forall k :: 0 <= k < |lows| && ratio(lows[k], word) >= cutoff ==> ratio(lows[k], word) <= ratio(r.value, word)
  {
    if lows == [] then None
    else
      var rest := CloseMatch(word, lows[1..], cutoff, ratio);
      assert forall k :: 0 < k < |lows| ==> lows[k] == lows[1..][k - 1];
      var x := lows[0];
      if ratio(x, word) < cutoff then rest
      else if rest.None? then Some(x)
      else if ratio(x, word) > ratio(rest.value, word) || (ratio(x, word) == ratio(rest.value, word) && StrLess(rest.value, x)) then Some(x)
      else rest
  }

  /** `list.index`: the first position of `x`. */
  function IndexOf(xs: seq<string>, x: string): (i: nat)
    requires x in xs
    ensures i < |xs| && xs[i] == x && forall j :: 0 <= j < i ==> xs[j] != x
  {
    if xs[0] == x then 0 else 1 + IndexOf(xs[1..], x)
  }

  function LowerAll(hotels: seq<string>): (r: seq<string>)
    ensures |r| == |hotels| && forall k :: 0 <= k < |hotels| ==> r[k] == Lower(hotels[k])
  {
    seq(|hotels|, k requires 0 <= k < |hotels| => Lower(hotels[k]))
  }

  /** The words of the text, commas counting as spaces, keeping those of three characters or more. */
  function Tokens(text: string): (r: seq<string>)
    ensures forall k :: 0 <= k < |r| ==> |r[k]| >= 3 && r[k] in Words(ReplaceAll(text, ",", " "))
  {
    LongWords(Words(ReplaceAll(text, ",", " ")))
  }

  /** The words of `ws` of length three or more, in order. */
  function LongWords(ws: seq<string>): (r: seq<string>)
    ensures forall k :: 0 <= k < |r| ==> |r[k]| >= 3 && r[k] in ws
    ensures forall k :: 0 <= k < |ws| && |ws[k]| >= 3 ==> ws[k] in r
  {
    if ws == [] then []
    else
      assert forall k :: 0 < k < |ws| ==> ws[k] == ws[1..][k - 1];
      (if |ws[0]| >= 3 then [ws[0]] else []) + LongWords(ws[1..])
  }

  /** What one token offers: the original name of its close match and the ratio of the token to that match. */
  function Offer(hotels: seq<string>, token: string, cutoff: real, ratio: (string, string) -> real): (r: Option<(real, string)>)
    ensures r.Some? ==> r.value.1 in hotels
  {
    var lows := LowerAll(hotels);
    match CloseMatch(Lower(token), lows, cutoff, ratio)
    case Some(m) => Some((ratio(Lower(token), m), hotels[IndexOf(lows, m)]))
    case None => None
  }

  /** The ratio an offer carries, 0 without an offer. */
  function OfferRatio(o: Option<(real, string)>): real
  {
    if o.Some? then o.value.0 else 0.0
  }

  /** The offers of the tokens, in order. */
  function Offers(hotels: seq<string>, tokens: seq<string>, cutoff: real, ratio: (string, string) -> real): (os: seq<Option<(real, string)>>)
    ensures |os| == |tokens| && forall j :: 0 <= j < |tokens| ==> os[j] == Offer(hotels, tokens[j], cutoff, ratio)
  {
    seq(|tokens|, j requires 0 <= j < |tokens| => Offer(hotels, tokens[j], cutoff, ratio))
  }

  /** The best ratio and candidate after the given offers, starting from ratio 0 and no candidate. */
  function BestOffer(os: seq<Option<(real, string)>>): (r: (real, Option<string>))
    ensures r.0 >= 0.0
    ensures r.1.Some? ==> exists k :: 0 <= k < |os| && os[k] == Some((r.0, r.1.value))
    decreases |os|
  {
    if os == [] then (0.0, None)
    else
      var best := BestOffer(os[..|os| - 1]);
      assert forall k :: 0 <= k < |os| - 1 ==> os[..|os| - 1][k] == os[k];
      Better(best, os[|os| - 1])
  }

  /** The best so far after one more offer: it wins only with a strictly greater ratio. */
  function Better(best: (real, Option<string>), o: Option<(real, string)>): (r: (real, Option<string>))
    ensures r == best || (o.Some? && r == (o.value.0, Some(o.value.1)) && o.value.0 > best.0)
  {
    match o
    case Some((x, c)) => if x > best.0 then (x, Some(c)) else best
    case None => best
  }

  lemma BestOfferStep(os: seq<Option<(real, string)>>, k: nat)
    requires k < |os|
    ensures BestOffer(os[..k + 1]) == Better(BestOffer(os[..k]), os[k])
  {
    assert os[..k + 1][..k] == os[..k];
  }

  /** What `match_fuzzy` computes: the best ratio and match over the tokens of the text. */
  function FuzzyBest(hotels: seq<string>, text: string, cutoff: real, ratio: (string, string) -> real): (r: (real, Option<string>))
    ensures r.1.Some? ==> r.1.value in hotels
  {
    BestOffer(Offers(hotels, Tokens(text), cutoff, ratio))
  }

  /**
   * `match_fuzzy`: every token's close match is scored, and the best
   * candidate changes only on a strictly greater ratio.
   */
  method MatchFuzzy(hotels: seq<string>, text: string, cutoff: real, ratio: (string, string) -> real) returns (r: Option<string>)
    requires 0.0 <= cutoff <= 1.0
    ensures r == FuzzyBest(hotels, text, cutoff, ratio).1
  {
    var tokens := Tokens(text);
    ghost var os := Offers(hotels, tokens, cutoff, ratio);
    var bestMatch: Option<string> := None;
    var bestRatio: real := 0.0;
    var lows := LowerAll(hotels);
    for k := 0 to |tokens|
      invariant (bestRatio, bestMatch) == BestOffer(os[..k])
    {
      BestOfferStep(os, k);
      bestRatio, bestMatch := ConsiderToken(hotels, lows, tokens[k], cutoff, ratio, bestRatio, bestMatch);
    }
    assert os[..|os|] == os;
    r := bestMatch;
  }

  /** The body of that loop: the token's close match, if any, becomes the best when its ratio is greater. */
  method ConsiderToken(hotels: seq<string>, lows: seq<string>, token: string, cutoff: real, ratio: (string, string) -> real,
                       bestRatio: real, bestMatch: Option<string>)
    returns (ratio': real, match': Option<string>)
    requires lows == LowerAll(hotels)
    ensures (ratio', match') == Better((bestRatio, bestMatch), Offer(hotels, token, cutoff, ratio))
  {
    ratio', match' := bestRatio, bestMatch;
    var matches := CloseMatch(Lower(token), lows, cutoff, ratio);
    if matches.Some? {
      var idx := IndexOf(lows, matches.value);
      var candidate := hotels[idx];
      var x := ratio(Lower(token), matches.value);
      if x > bestRatio {
        ratio', match' := x, Some(candidate);
      }
    }
  }

  /**
   * The best ratio bounds every offer; it is 0 exactly when there is no
   * candidate; and a candidate is that of the first offer reaching it.
   */
  lemma {:induction false} BestOfferFirst(os: seq<Option<(real, string)>>)
    ensures var b := BestOffer(os);
      && (forall j :: 0 <= j < |os| ==> OfferRatio(os[j]) <= b.0)
      && (b.1.None? <==> b.0 == 0.0)
      && (b.1.Some? ==>
            exists k :: 0 <= k < |os| && os[k] == Some((b.0, b.1.value)) &&
                        forall j :: 0 <= j < k ==> OfferRatio(os[j]) < b.0)
    decreases |os|
  {
    if os != [] {
      var n := |os| - 1;
      var init := os[..n];
      BestOfferFirst(init);
      var prev := BestOffer(init);
      assert forall j :: 0 <= j < n ==> init[j] == os[j];
      var o := os[n];
      if o.Some? && o.value.0 > prev.0 {
        assert BestOffer(os) == (o.value.0, Some(o.value.1));
      } else {
        assert BestOffer(os) == prev;
        if prev.1.Some? {
          var k :| 0 <= k < n && init[k] == Some((prev.0, prev.1.value)) &&
                   forall j :: 0 <= j < k ==> OfferRatio(init[j]) < prev.0;
          assert os[k] == init[k];
        }
      }
    }
  }

  /**
   * The candidate is that of the first offer with the greatest ratio,
   * that ratio being positive; without a positive offer there is none.
   */
  lemma BestOfferMeaning(os: seq<Option<(real, string)>>)
    ensures var b := BestOffer(os);
      && (b.1.None? <==> (forall j :: 0 <= j < |os| ==> OfferRatio(os[j]) <= 0.0))
      && (b.1.Some? ==>
            exists k :: 0 <= k < |os| && os[k] == Some((b.0, b.1.value)) && b.0 > 0.0 &&
                        (forall j :: 0 <= j < k ==> OfferRatio(os[j]) < b.0) &&
                        (forall j :: 0 <= j < |os| ==> OfferRatio(os[j]) <= b.0))
  {
    BestOfferFirst(os);
    var b := BestOffer(os);
    if b.1.Some? {
      var k :| 0 <= k < |os| && os[k] == Some((b.0, b.1.value)) &&
               forall j :: 0 <= j < k ==> OfferRatio(os[j]) < b.0;
      assert OfferRatio(os[k]) == b.0;
    }
  }

  /**
   * The fuzzy match is the candidate of the first token whose offer has
   * the greatest ratio, that ratio being positive; without a positive
   * offer there is no match.
   */
  lemma FuzzyFirstBest(hotels: seq<string>, text: string, cutoff: real, ratio: (string, string) -> real)
    ensures var os := Offers(hotels, Tokens(text), cutoff, ratio);
      var b := FuzzyBest(hotels, text, cutoff, ratio);
      && (b.1.None? <==> (forall j :: 0 <= j < |os| ==> OfferRatio(os[j]) <= 0.0))
      && (b.1.Some? ==>
            exists k :: 0 <= k < |os| && os[k] == Some((b.0, b.1.value)) && b.0 > 0.0 &&
                        (forall j :: 0 <= j < k ==> OfferRatio(os[j]) < b.0) &&
                        (forall j :: 0 <= j < |os| ==> OfferRatio(os[j]) <= b.0))
  {
    var os := Offers(hotels, Tokens(text), cutoff, ratio);
    assert FuzzyBest(hotels, text, cutoff, ratio) == BestOffer(os);
    BestOfferMeaning(os);
  }

  /** A fuzzy match is one of the hotel names, in its original spelling. */
  lemma FuzzyFromList(hotels: seq<string>, text: string, cutoff: real, ratio: (string, string) -> real)
    ensures var r := FuzzyBest(hotels, text, cutoff, ratio).1; r.Some? ==> r.value in hotels
  {
  }

  /** Among hotels with the same lower-cased name, the first one is reported. */
  lemma DuplicateLowerFirst(hotels: seq<string>, token: string, cutoff: real, ratio: (string, string) -> real)
    requires Offer(hotels, token, cutoff, ratio).Some?
    ensures var c := Offer(hotels, token, cutoff, ratio).value.1;
      exists i :: 0 <= i < |hotels| && hotels[i] == c && forall j :: 0 <= j < i ==> Lower(hotels[j]) != Lower(c)
  {
    var lows := LowerAll(hotels);
    var m := CloseMatch(Lower(token), lows, cutoff, ratio).value;
    var i := IndexOf(lows, m);
    assert hotels[i] == Offer(hotels, token, cutoff, ratio).value.1;
  }
}
