/**
 * Rule-based intent classification: every intent is scored by the phrases
 * and keywords of its tables that occur in the normalised query, and the
 * best intent is accepted only when it clears an absolute threshold and
 * beats the runner-up by a ratio. Scores are exact reals.
 */
module IntentClassifier {
  import opened Wrappers
  import opened Text
  import opened PyValue

  // ---------------------------------------------------------------------
  // Configuration tables
  // ---------------------------------------------------------------------

  const IntentKeywords: seq<(string, seq<string>)> := [
    ("recommendation", ["recommend", "suggest", "best", "top", "suggestion", "any suggestions", "could you suggest"]),
    ("booking", ["book", "booking", "reserve", "reservation", "help me book", "help me in booking", "can you book", "i want to book"]),
    ("visa_query", ["visa", "visa requirements", "visa info", "passport", "entry", "immigration", "do i need a visa"]),
    ("review_query", ["review", "reviews", "rating", "ratings", "score", "scores", "feedback"]),
    ("hotel_search", ["hotel", "hotels", "stay", "staying", "accommodation", "find hotels", "find a hotel"]),
    ("generic_qa", ["what", "how", "when", "where", "who", "why"])
  ]

  const IntentWeights: seq<(string, real)> := [
    ("recommendation", 2.0), ("booking", 2.0), ("visa_query", 1.5),
    ("review_query", 1.2), ("hotel_search", 1.0), ("generic_qa", 0.5)
  ]

  /** Only used if a true tie remains after the confidence checks. */
  const IntentPriority: seq<string> :=
    ["booking", "recommendation", "visa_query", "review_query", "hotel_search", "generic_qa"]

  /** High-confidence multi-token phrases; each one present adds 5. */
  const DominancePhrases: seq<(string, seq<string>)> := [
    ("booking", ["help me book", "help me in booking", "can you book", "i want to book", "i'd like to book", "i want to reserve"]),
    ("visa_query", ["do i need a visa", "visa required", "need a visa", "visa information"]),
    ("recommendation", ["recommend", "suggest", "any suggestions", "could you suggest"])
  ]

  const DominanceBonus: real := 5.0

  /** The label reported when the classifier is not confident. */
  const Unknown: string := "unknown"

  const DefaultMinScore: real := 1.0
  const DefaultMarginRatio: real := 1.25

  /** The small constant added to the runner-up before dividing. */
  const Eps: real := 0.000000001

  /**
   * The four tables the classifier is driven by. The scoring and gating
   * logic below is stated over any well-formed configuration, and
   * `Default` holds the repository's tables.
   */
  datatype Config = Config(
    keywords: seq<(string, seq<string>)>,
    weights: seq<(string, real)>,
    priority: seq<string>,
    dominance: seq<(string, seq<string>)>)
  {
    /** The intents, in keyword-table order (the score map's order). */
    function Intents(): seq<string>
    {
      Keys(keywords)
    }

    /**
     * Every dominance intent has a score slot (otherwise `scores[intent] +=`
     * would raise), there are at least two intents (the classifier reads
     * `vals[1]`), and "unknown" is not itself an intent.
     */
    predicate WellFormed()
    {
      && DistinctKeys(keywords)
      && DistinctKeys(dominance)
      && |keywords| >= 2
      && (forall k :: 0 <= k < |dominance| ==> dominance[k].0 in Keys(keywords))
      && (forall k :: 0 <= k < |weights| ==> weights[k].1 >= 0.0)
      && Unknown !in Keys(keywords)
    }
  }

  const Default: Config := Config(IntentKeywords, IntentWeights, IntentPriority, DominancePhrases)

  lemma DefaultWellFormed()
    ensures Default.WellFormed()
    ensures Default.Intents() == ["recommendation", "booking", "visa_query", "review_query", "hotel_search", "generic_qa"]
  {
    var ks := IntentNames();
    assert DistinctKeys(IntentKeywords) by {
      forall i, j | 0 <= i < j < |IntentKeywords| ensures IntentKeywords[i].0 != IntentKeywords[j].0 {
        assert IntentKeywords[i].0 == ks[i] && IntentKeywords[j].0 == ks[j];
      }
    }
    DominanceNames();
  }

  /** The intent names, in table order, are six distinct strings. */
  lemma IntentNames() returns (ks: seq<string>)
    ensures ks == Keys(IntentKeywords)
    ensures ks == ["recommendation", "booking", "visa_query", "review_query", "hotel_search", "generic_qa"]
    ensures forall i, j :: 0 <= i < j < |ks| ==> ks[i] != ks[j]
  {
    ks := ["recommendation", "booking", "visa_query", "review_query", "hotel_search", "generic_qa"];
  }

  /** The dominance table names three distinct intents of the keyword table. */
  lemma DominanceNames()
    ensures Keys(DominancePhrases) == ["booking", "visa_query", "recommendation"]
    ensures DistinctKeys(DominancePhrases)
    ensures forall k :: 0 <= k < |DominancePhrases| ==> DominancePhrases[k].0 in Keys(IntentKeywords)
  {
    var ks := IntentNames();
    assert ks[1] == "booking" && ks[2] == "visa_query" && ks[0] == "recommendation";
  }

  // ---------------------------------------------------------------------
  // Scores
  // ---------------------------------------------------------------------

  /** `text.lower().strip()` */
  function Normalize(text: string): (t: string)
    ensures forall i :: 0 <= i < |t| ==> !IsUpper(t[i])
    ensures t != [] ==> !IsSpace(t[0]) && !IsSpace(t[|t| - 1])
  {
    Strip(Lower(text))
  }

  /** The number of entries of `ps` that occur in `t`, each counted once. */
  function CountHits(ps: seq<string>, t: string): (n: nat)
    ensures n <= |ps|
  {
    if ps == [] then 0
    else CountHits(ps[..|ps| - 1], t) + (if IsSubstring(ps[|ps| - 1], t) then 1 else 0)
  }

  function Weight(c: Config, intent: string): real
  {
    LookupOr(c.weights, intent, 1.0)
  }

  function PhrasesFor(c: Config, intent: string): seq<string>
  {
    LookupOr(c.dominance, intent, [])
  }

  function KeywordsFor(c: Config, intent: string): seq<string>
  {
    LookupOr(c.keywords, intent, [])
  }

  /**
   * `n * w`, written as repeated addition so that the score equations stay
   * linear for the solver; `TimesIsProduct` states the product.
   */
  function Times(n: nat, w: real): (r: real)
    ensures w >= 0.0 ==> r >= 0.0
  {
    if n == 0 then 0.0 else Times(n - 1, w) + w
  }

  lemma {:induction false} TimesIsProduct(n: nat, w: real)
    ensures Times(n, w) == n as real * w
  {
    if n > 0 {
      TimesIsProduct(n - 1, w);
    }
  }

  /** `count * weight`, which is `weight` added `count` times. */
  function Product(n: nat, w: real): (r: real)
    ensures r == Times(n, w)
  {
    TimesIsProduct(n, w);
    n as real * w
  }

  /**
   * The weighted score of one intent: 5 for every dominance phrase that
   * occurs, plus the intent's weight times the number of keywords that occur.
   */
  function Score(c: Config, intent: string, t: string): real
  {
    DominanceBonus * CountHits(PhrasesFor(c, intent), t) as real
      + Times(CountHits(KeywordsFor(c, intent), t), Weight(c, intent))
  }

  /** A score dict: (intent, score) pairs in insertion order. */
  type ScoreTable = seq<(string, real)>

  predicate NonNegative(es: ScoreTable)
  {
    forall k :: 0 <= k < |es| ==> es[k].1 >= 0.0
  }

  /**
   * The dict `_compute_weighted_scores` returns: every configured intent,
   * in keyword-table order, with its weighted score.
   */
  function ScoreEntries(c: Config, t: string): (es: ScoreTable)
    ensures Keys(es) == c.Intents()
    ensures forall k :: 0 <= k < |es| ==> es[k].1 == Score(c, es[k].0, t)
    ensures c.WellFormed() ==> NonNegative(es)
  {
    var es := seq(|c.keywords|, k requires 0 <= k < |c.keywords| => (c.keywords[k].0, Score(c, c.keywords[k].0, t)));
    assert forall k :: 0 <= k < |es| ==> Keys(es)[k] == c.Intents()[k];
    if c.WellFormed() then AllScoresNonNegative(c, t); es else es
  }

  /** Reading one intent's score back out of the dict. */
  lemma ScoreEntriesLookup(c: Config, t: string, i: string)
    requires c.WellFormed() && i in c.Intents()
    ensures Lookup(ScoreEntries(c, t), i) == Some(Score(c, i, t))
  {
    var es := ScoreEntries(c, t);
    var k :| 0 <= k < |c.Intents()| && c.Intents()[k] == i;
    assert Keys(es)[k] == es[k].0;
    assert DistinctKeys(es) by {
      assert forall m :: 0 <= m < |es| ==> es[m].0 == Keys(es)[m] == c.keywords[m].0;
    }
    LookupAt(es, k);
  }

  /** With non-negative weights, no score is negative. */
  lemma AllScoresNonNegative(c: Config, t: string)
    requires c.WellFormed()
    ensures forall i :: Score(c, i, t) >= 0.0
  {
    forall i ensures Score(c, i, t) >= 0.0 {
      ScoreNonNegative(c, i, t);
    }
  }

  lemma {:induction false} ScoreNonNegative(c: Config, i: string, t: string)
    requires c.WellFormed()
    ensures Score(c, i, t) >= 0.0
  {
    if Lookup(c.weights, i).Some? {
      LookupFound(c.weights, i);
    }
  }

  lemma {:induction false} CountHitsStep(ps: seq<string>, j: nat, t: string)
    requires j < |ps|
    ensures CountHits(ps[..j + 1], t) == CountHits(ps[..j], t) + (if IsSubstring(ps[j], t) then 1 else 0)
  {
    assert ps[..j + 1][..j] == ps[..j];
  }

  /** Looking an intent up in a growing prefix of a table with distinct keys. */
  lemma TablePrefixStep(table: seq<(string, seq<string>)>, d: nat, q: string)
    requires DistinctKeys(table) && d < |table|
    ensures LookupOr(table[..d + 1], q, []) ==
      if q == table[d].0 then table[d].1 else LookupOr(table[..d], q, [])
  {
    assert table[..d + 1] == table[..d] + [table[d]];
    LookupSnoc(table[..d], table[d].0, table[d].1, q);
  }

  /** An intent's score after the first `d` dominance entries have been applied. */
  function DominanceUpTo(c: Config, i: string, t: string, d: nat): real
    requires d <= |c.dominance|
  {
    DominanceBonus * CountHits(LookupOr(c.dominance[..d], i, []), t) as real
  }

  /** An intent's score after all dominance phrases and the first `e` keyword entries. */
  function KeywordsUpTo(c: Config, i: string, t: string, e: nat): real
    requires e <= |c.keywords|
  {
    DominanceBonus * CountHits(PhrasesFor(c, i), t) as real
      + Times(CountHits(LookupOr(c.keywords[..e], i, []), t), Weight(c, i))
  }

  lemma {:induction false} DominanceStep(c: Config, d: nat, q: string, t: string)
    requires c.WellFormed() && d < |c.dominance|
    ensures DominanceUpTo(c, q, t, d + 1) ==
      if q == c.dominance[d].0 then DominanceBonus * CountHits(c.dominance[d].1, t) as real
      else DominanceUpTo(c, q, t, d)
  {
    TablePrefixStep(c.dominance, d, q);
  }

  lemma DominanceFresh(c: Config, d: nat, t: string)
    requires c.WellFormed() && d < |c.dominance|
    ensures DominanceUpTo(c, c.dominance[d].0, t, d) == 0.0
  {
    assert c.dominance[d].0 !in Keys(c.dominance[..d]);
  }

  lemma DominanceDone(c: Config, i: string, t: string)
    ensures DominanceUpTo(c, i, t, |c.dominance|) == KeywordsUpTo(c, i, t, 0)
  {
    assert c.dominance[..|c.dominance|] == c.dominance;
  }

  lemma {:induction false} KeywordStep(c: Config, e: nat, q: string, t: string)
    requires c.WellFormed() && e < |c.keywords|
    ensures KeywordsUpTo(c, q, t, e + 1) ==
      if q == c.keywords[e].0 then KeywordsUpTo(c, q, t, e) + Times(CountHits(c.keywords[e].1, t), Weight(c, q))
      else KeywordsUpTo(c, q, t, e)
  {
    TablePrefixStep(c.keywords, e, q);
    if q == c.keywords[e].0 {
      assert q !in Keys(c.keywords[..e]);
    }
  }

  lemma KeywordsDone(c: Config, i: string, t: string)
    ensures KeywordsUpTo(c, i, t, |c.keywords|) == Score(c, i, t)
  {
    assert c.keywords[..|c.keywords|] == c.keywords;
  }

  /** The dict after the first `d` dominance entries: every intent with its boost so far. */
  predicate DominanceState(c: Config, t: string, scores: ScoreTable, d: nat)
    requires d <= |c.dominance|
  {
    && Keys(scores) == c.Intents()
    && forall i :: i in c.Intents() ==> Lookup(scores, i) == Some(DominanceUpTo(c, i, t, d))
  }

  /** The dict after the dominance pass and the first `e` keyword entries. */
  predicate KeywordState(c: Config, t: string, scores: ScoreTable, e: nat)
    requires e <= |c.keywords|
  {
    && Keys(scores) == c.Intents()
    && forall i :: i in c.Intents() ==> Lookup(scores, i) == Some(KeywordsUpTo(c, i, t, e))
  }

  /** `{intent: 0.0 for intent in INTENT_KEYWORDS}` */
  method InitialScores(c: Config, t: string) returns (scores: ScoreTable)
    requires c.WellFormed()
    ensures DominanceState(c, t, scores, 0)
    ensures forall k :: 0 <= k < |scores| ==> scores[k].1 == 0.0
  {
    scores := seq(|c.keywords|, k requires 0 <= k < |c.keywords| => (c.keywords[k].0, 0.0));
    assert Keys(scores) == c.Intents() by {
      assert forall k :: 0 <= k < |scores| ==> Keys(scores)[k] == c.Intents()[k];
    }
    forall i | i in c.Intents() ensures Lookup(scores, i) == Some(DominanceUpTo(c, i, t, 0)) {
      assert c.dominance[..0] == [];
      LookupFound(scores, i);
    }
  }

  /** One entry of the dominance pass: add 5 to the intent for every phrase present. */
  method ApplyDominanceEntry(c: Config, t: string, scores: ScoreTable, d: nat) returns (next: ScoreTable)
    requires c.WellFormed() && d < |c.dominance| && DominanceState(c, t, scores, d)
    ensures DominanceState(c, t, next, d + 1)
  {
    var intent := c.dominance[d].0;
    DominanceFresh(c, d, t);
    next := AddBonuses(scores, intent, c.dominance[d].1, t);
    forall q | q in c.Intents() ensures Lookup(next, q) == Some(DominanceUpTo(c, q, t, d + 1)) {
      DominanceStep(c, d, q, t);
    }
  }

  /** The loop over one intent's phrases, starting from its score 0. */
  method AddBonuses(scores: ScoreTable, intent: string, phrases: seq<string>, t: string) returns (next: ScoreTable)
    requires Lookup(scores, intent) == Some(0.0)
    ensures Keys(next) == Keys(scores)
    ensures Lookup(next, intent) == Some(DominanceBonus * CountHits(phrases, t) as real)
    ensures forall i :: i != intent ==> Lookup(next, i) == Lookup(scores, i)
  {
    next := scores;
    var j := 0;
    while j < |phrases|
      invariant 0 <= j <= |phrases|
      invariant Keys(next) == Keys(scores)
      invariant Lookup(next, intent) == Some(DominanceBonus * CountHits(phrases[..j], t) as real)
      invariant forall i :: i != intent ==> Lookup(next, i) == Lookup(scores, i)
    {
      CountHitsStep(phrases, j, t);
      next := AddBonusIfPresent(next, intent, phrases[j], t, CountHits(phrases[..j], t));
      j := j + 1;
    }
    assert phrases[..j] == phrases;
  }

  /** One phrase of that loop: the bonus is added when the phrase occurs. */
  method AddBonusIfPresent(scores: ScoreTable, intent: string, phrase: string, t: string, ghost hits: nat) returns (next: ScoreTable)
    requires Lookup(scores, intent) == Some(DominanceBonus * hits as real)
    ensures Keys(next) == Keys(scores)
    ensures Lookup(next, intent) == Some(DominanceBonus * (hits + if IsSubstring(phrase, t) then 1 else 0) as real)
    ensures forall i :: i != intent ==> Lookup(next, i) == Lookup(scores, i)
  {
    next := scores;
    if IsSubstring(phrase, t) {
      var v := Lookup(scores, intent).value + DominanceBonus;
      BonusStep(hits);
      PutKeepsKeys(scores, intent, v);
      next := Put(scores, intent, v);
    }
  }

  lemma BonusStep(n: nat)
    ensures DominanceBonus * (n + 1) as real == DominanceBonus * n as real + DominanceBonus
  {
  }

  /** `count = sum(1 for kw in kws if kw in text_norm)`, as the source's loop. */
  method CountPresent(ps: seq<string>, t: string) returns (count: nat)
    ensures count == CountHits(ps, t)
  {
    count := 0;
    var j := 0;
    while j < |ps|
      invariant 0 <= j <= |ps|
      invariant count == CountHits(ps[..j], t)
    {
      CountHitsStep(ps, j, t);
      if IsSubstring(ps[j], t) {
        count := count + 1;
      }
      j := j + 1;
    }
    assert ps[..j] == ps;
  }

  /** One entry of the keyword pass: add the weight times the number of keywords present. */
  method ApplyKeywordEntry(c: Config, t: string, scores: ScoreTable, e: nat) returns (next: ScoreTable)
    requires c.WellFormed() && e < |c.keywords| && KeywordState(c, t, scores, e)
    ensures KeywordState(c, t, next, e + 1)
  {
    var intent := c.keywords[e].0;
    var count := CountPresent(c.keywords[e].1, t);
    assert intent in c.Intents() by { assert c.Intents()[e] == intent; }
    var v := Lookup(scores, intent).value + Product(count, Weight(c, intent));
    PutKeepsKeys(scores, intent, v);
    next := Put(scores, intent, v);
    forall q | q in c.Intents() ensures Lookup(next, q) == Some(KeywordsUpTo(c, q, t, e + 1)) {
      KeywordStep(c, e, q, t);
      assert Lookup(scores, q) == Some(KeywordsUpTo(c, q, t, e));
      if q == intent {
        assert Lookup(next, q) == Some(v);
        assert v == KeywordsUpTo(c, q, t, e) + Times(count, Weight(c, q));
        assert v == KeywordsUpTo(c, q, t, e + 1);
      } else {
        assert Lookup(next, q) == Lookup(scores, q);
        assert KeywordsUpTo(c, q, t, e) == KeywordsUpTo(c, q, t, e + 1);
      }
    }
  }

  /** After every dominance entry, the keyword pass starts. */
  lemma DominancePassDone(c: Config, t: string, scores: ScoreTable)
    requires DominanceState(c, t, scores, |c.dominance|)
    ensures KeywordState(c, t, scores, 0)
  {
    forall i ensures DominanceUpTo(c, i, t, |c.dominance|) == KeywordsUpTo(c, i, t, 0) {
      DominanceDone(c, i, t);
    }
  }

  /** After every keyword entry, the dict is the score dict. */
  lemma KeywordPassDone(c: Config, t: string, scores: ScoreTable)
    requires c.WellFormed() && KeywordState(c, t, scores, |c.keywords|)
    ensures scores == ScoreEntries(c, t)
  {
    var expected := ScoreEntries(c, t);
    forall i | i in Keys(scores) ensures Lookup(scores, i) == Lookup(expected, i) {
      KeywordsDone(c, i, t);
      ScoreEntriesLookup(c, t, i);
    }
    assert DistinctKeys(scores) by {
      assert forall m :: 0 <= m < |scores| ==> scores[m].0 == Keys(scores)[m] == c.keywords[m].0;
    }
    SameLookups(scores, expected);
  }

  /**
   * `_compute_weighted_scores`: start every intent at 0, add 5 for every
   * dominance phrase present, then the weight times the number of keywords
   * present; the result is the dict of weighted scores.
   */
  method ComputeWeightedScores(c: Config, t: string) returns (scores: ScoreTable)
    requires c.WellFormed()
    ensures scores == ScoreEntries(c, t)
  {
    scores := InitialScores(c, t);
    scores := DominancePass(c, t, scores);
    DominancePassDone(c, t, scores);
    scores := KeywordPass(c, t, scores);
    KeywordPassDone(c, t, scores);
  }

  /** The loop over the dominance table. */
  method DominancePass(c: Config, t: string, start: ScoreTable) returns (scores: ScoreTable)
    requires c.WellFormed() && DominanceState(c, t, start, 0)
    ensures DominanceState(c, t, scores, |c.dominance|)
  {
    scores := start;
    var d := 0;
    while d < |c.dominance|
      invariant 0 <= d <= |c.dominance|
      invariant DominanceState(c, t, scores, d)
    {
      scores := ApplyDominanceEntry(c, t, scores, d);
      d := d + 1;
    }
  }

  /** The loop over the keyword table. */
  method KeywordPass(c: Config, t: string, start: ScoreTable) returns (scores: ScoreTable)
    requires c.WellFormed() && KeywordState(c, t, start, 0)
    ensures KeywordState(c, t, scores, |c.keywords|)
  {
    scores := start;
    var e := 0;
    while e < |c.keywords|
      invariant 0 <= e <= |c.keywords|
      invariant KeywordState(c, t, scores, e)
    {
      scores := ApplyKeywordEntry(c, t, scores, e);
      e := e + 1;
    }
  }

  predicate SortedDesc(s: seq<real>)
  {
    forall i, j :: 0 <= i < j < |s| ==> s[i] >= s[j]
  }

  function InsertDesc(x: real, s: seq<real>): (r: seq<real>)
    ensures multiset(r) == multiset(s) + multiset{x} && |r| == |s| + 1
  {
    if s == [] || x >= s[0] then [x] + s
    else
      assert s == [s[0]] + s[1..];
      [s[0]] + InsertDesc(x, s[1..])
  }

  lemma {:induction false} InsertDescSorted(x: real, s: seq<real>)
    requires SortedDesc(s)
    ensures SortedDesc(InsertDesc(x, s))
  {
    if s != [] && x < s[0] {
      InsertDescSorted(x, s[1..]);
      var rest := InsertDesc(x, s[1..]);
      forall k | 0 <= k < |rest| ensures s[0] >= rest[k] {
        assert rest[k] in multiset(rest);
        assert rest[k] in multiset(s[1..]) || rest[k] == x;
      }
    }
  }

  /** `sorted(values, reverse=True)`: a descending permutation. */
  function SortDesc(s: seq<real>): (r: seq<real>)
    ensures SortedDesc(r) && multiset(r) == multiset(s) && |r| == |s|
  {
    if s == [] then []
    else
      assert s == [s[0]] + s[1..];
      var rest := SortDesc(s[1..]);
      InsertDescSorted(s[0], rest);
      InsertDesc(s[0], rest)
  }

  lemma InSorted(s: seq<real>, k: nat)
    requires k < |s|
    ensures exists m :: 0 <= m < |s| && SortDesc(s)[m] == s[k]
  {
    assert s[k] in multiset(s);
    assert s[k] in multiset(SortDesc(s));
  }

  lemma FromSorted(s: seq<real>, m: nat)
    requires m < |s|
    ensures exists k :: 0 <= k < |s| && SortDesc(s)[m] == s[k]
  {
    assert SortDesc(s)[m] in multiset(SortDesc(s));
    assert SortDesc(s)[m] in multiset(s);
  }

  /** `scores.values()`, in dict order. */
  function Values(es: ScoreTable): (vs: seq<real>)
    ensures |vs| == |es| && forall k :: 0 <= k < |es| ==> vs[k] == es[k].1
  {
    seq(|es|, k requires 0 <= k < |es| => es[k].1)
  }

  /** `vals[0]` of the descending sort: the largest score, attained by some entry. */
  function TopOf(es: ScoreTable): (top: real)
    requires |es| >= 1
    ensures forall k :: 0 <= k < |es| ==> es[k].1 <= top
    ensures exists k :: 0 <= k < |es| && es[k].1 == top
  {
    var vs := Values(es);
    forall k | 0 <= k < |es| ensures es[k].1 <= SortDesc(vs)[0] {
      InSorted(vs, k);
    }
    FromSorted(vs, 0);
    SortDesc(vs)[0]
  }

  /** `vals[1]`: the runner-up score, never above the top and attained by some entry. */
  function SecondOf(es: ScoreTable): (second: real)
    requires |es| >= 2 && NonNegative(es)
    ensures 0.0 <= second <= TopOf(es)
    ensures exists k :: 0 <= k < |es| && es[k].1 == second
  {
    var vs := Values(es);
    FromSorted(vs, 1);
    SortDesc(vs)[1]
  }

  /** Two different entries share the top score. */
  predicate TopTie(es: ScoreTable)
    requires |es| >= 1
  {
    exists i, j :: 0 <= i < j < |es| && es[i].1 == TopOf(es) && es[j].1 == TopOf(es)
  }

  lemma TwoOccurrences(s: seq<real>, i: nat, j: nat)
    requires i < j < |s| && s[i] == s[j]
    ensures multiset(s)[s[i]] >= 2
  {
    assert s == s[..j] + [s[j]] + s[j + 1..];
    assert s[..j][i] == s[i];
    assert s[i] in multiset(s[..j]);
  }

  lemma OtherOccurrence(s: seq<real>, i: nat)
    requires i < |s| && multiset(s)[s[i]] >= 2
    ensures exists j :: 0 <= j < |s| && j != i && s[j] == s[i]
  {
    var rest := s[..i] + s[i + 1..];
    assert s == s[..i] + [s[i]] + s[i + 1..];
    assert multiset(s) == multiset(rest) + multiset{s[i]};
    assert s[i] in multiset(rest);
    var m :| 0 <= m < |rest| && rest[m] == s[i];
    if m < i {
      assert s[m] == s[i];
    } else {
      assert s[m + 1] == s[i];
    }
  }

  /**
   * The runner-up equals the top score exactly when two different entries
   * share the top score.
   */
  lemma {:induction false} SecondIsTopIffTie(es: ScoreTable)
    requires |es| >= 2 && NonNegative(es)
    ensures SecondOf(es) == TopOf(es) <==> TopTie(es)
  {
    var vs := Values(es);
    var sorted := SortDesc(vs);
    var top := TopOf(es);
    if TopTie(es) {
      var i, j :| 0 <= i < j < |es| && es[i].1 == top && es[j].1 == top;
      TwoOccurrences(vs, i, j);
      assert multiset(sorted)[top] >= 2;
      if sorted[1] != top {
        assert sorted == [sorted[0]] + sorted[1..];
        forall m | 0 <= m < |sorted[1..]| ensures sorted[1..][m] != top {
          assert sorted[1..][m] == sorted[m + 1];
          assert m == 0 || sorted[m + 1] <= sorted[1];
        }
      }
    }
    if SecondOf(es) == top {
      TwoOccurrences(sorted, 0, 1);
      assert multiset(vs)[top] >= 2;
      var k :| 0 <= k < |es| && es[k].1 == top;
      OtherOccurrence(vs, k);
      var k' :| 0 <= k' < |vs| && k' != k && vs[k'] == vs[k];
      if k < k' {
        assert es[k].1 == top && es[k'].1 == top;
      } else {
        assert es[k'].1 == top && es[k].1 == top;
      }
    }
  }

  // ---------------------------------------------------------------------
  // The decision
  // ---------------------------------------------------------------------

  datatype RuleResult = RuleResult(intent: string, scores: ScoreTable, top: real, fallbackNeeded: bool)

  /** `[k for k, v in scores.items() if v == top]` */
  function Winners(es: ScoreTable, top: real): (w: seq<string>)
    ensures forall x :: x in w <==> (x, top) in es
  {
    if es == [] then []
    else
      assert es == [es[0]] + es[1..];
      (if es[0].1 == top then [es[0].0] else []) + Winners(es[1..], top)
  }

  /** The first element of `order` that is in `pool`. */
  function FirstIn(order: seq<string>, pool: seq<string>): (r: Option<string>)
    ensures r.Some? ==> exists m :: 0 <= m < |order| && order[m] == r.value && r.value in pool &&
                                   forall m' :: 0 <= m' < m ==> order[m'] !in pool
    ensures r.None? ==> forall x :: x in order ==> x !in pool
  {
    if order == [] then None
    else if order[0] in pool then Some(order[0])
    else
      var r := FirstIn(order[1..], pool);
      if r.Some? then
        var m :| 0 <= m < |order[1..]| && order[1..][m] == r.value && r.value in pool &&
                 forall m' :: 0 <= m' < m ==> order[1..][m'] !in pool;
        assert order[m + 1] == r.value;
        assert forall m' :: 0 <= m' < m + 1 ==> order[m'] !in pool by {
          forall m' | 0 < m' < m + 1 ensures order[m'] !in pool {
            assert order[m'] == order[1..][m' - 1];
          }
        }
        r
      else r
  }

  /**
   * Among the entries that reach `top`: the only one; if several, the first
   * of them in priority order; failing that, the first in dict order.
   */
  function PickWinner(es: ScoreTable, priority: seq<string>, top: real): (w: string)
    requires exists k :: 0 <= k < |es| && es[k].1 == top
    ensures (w, top) in es
    ensures var winners := Winners(es, top);
      |winners| > 1 && FirstIn(priority, winners).Some? ==> w == FirstIn(priority, winners).value
  {
    var winners := Winners(es, top);
    assert |winners| > 0 by {
      var k :| 0 <= k < |es| && es[k].1 == top;
      assert (es[k].0, top) in es;
      assert es[k].0 in winners;
    }
    assert winners[0] in winners;
    if |winners| == 1 then winners[0]
    else
      match FirstIn(priority, winners)
      case Some(p) => p
      case None => winners[0]
  }

  /** The gate: the top score clears the threshold and beats the runner-up by the ratio. */
  predicate Confident(es: ScoreTable, minScore: real, marginRatio: real)
    requires |es| >= 2 && NonNegative(es)
  {
    TopOf(es) >= minScore && TopOf(es) / (SecondOf(es) + Eps) >= marginRatio
  }

  /**
   * The decision of `classify_intent_rule_with_confidence` on a score dict:
   * fall back with "unknown" when the top score is below `minScore` or
   * does not beat the runner-up by `marginRatio`; otherwise accept a
   * top-scoring intent.
   */
  function Decide(es: ScoreTable, priority: seq<string>, minScore: real, marginRatio: real): (r: RuleResult)
    requires |es| >= 2 && NonNegative(es)
    ensures r.scores == es && r.top == TopOf(es)
    ensures r.fallbackNeeded <==> !Confident(es, minScore, marginRatio)
    ensures r.fallbackNeeded ==> r.intent == Unknown
    ensures !r.fallbackNeeded ==> (r.intent, r.top) in es
    ensures Unknown !in Keys(es) ==> (r.intent == Unknown <==> r.fallbackNeeded)
  {
    var top := TopOf(es);
    var second := SecondOf(es);
    if top < minScore then RuleResult(Unknown, es, top, true)
    else if top / (second + Eps) < marginRatio then RuleResult(Unknown, es, top, true)
    else
      var w := PickWinner(es, priority, top);
      var k :| 0 <= k < |es| && es[k] == (w, top);
      assert Keys(es)[k] == w;
      RuleResult(w, es, top, false)
  }

  /** `classify_intent_rule_with_confidence`: normalise, score, then decide. */
  function ClassifyRule(c: Config, text: string, minScore: real, marginRatio: real): (r: RuleResult)
    requires c.WellFormed()
    ensures r == Decide(ScoreEntries(c, Normalize(text)), c.priority, minScore, marginRatio)
  {
    var t := Normalize(text);
    var scores := ScoreEntries(c, t);
    Decide(scores, c.priority, minScore, marginRatio)
  }

  /**
   * What the classifier promises about a query: the dict holds every
   * intent with its weighted score; the reported top is the maximum; an
   * accepted intent has the top score and no fallback; "unknown" comes
   * with the fallback flag exactly when the gate rejects.
   */
  lemma ClassifyRuleMeaning(c: Config, text: string, minScore: real, marginRatio: real)
    requires c.WellFormed()
    ensures var t := Normalize(text);
      var es := ScoreEntries(c, t);
      var r := ClassifyRule(c, text, minScore, marginRatio);
      && Keys(r.scores) == c.Intents()
      && (forall k :: 0 <= k < |r.scores| ==> r.scores[k].1 == Score(c, r.scores[k].0, t) <= r.top)
      && (r.intent == Unknown <==> r.fallbackNeeded)
      && (r.fallbackNeeded <==> !Confident(es, minScore, marginRatio))
      && (!r.fallbackNeeded ==> r.intent in c.Intents() && Score(c, r.intent, t) == r.top)
  {
    var t := Normalize(text);
    var es := ScoreEntries(c, t);
    var r := ClassifyRule(c, text, minScore, marginRatio);
    assert r == Decide(es, c.priority, minScore, marginRatio);
    assert r.scores == es && r.top == TopOf(es);
    assert forall k :: 0 <= k < |r.scores| ==> r.scores[k].1 == Score(c, r.scores[k].0, t) <= r.top;
    if !r.fallbackNeeded {
      var k :| 0 <= k < |es| && es[k] == (r.intent, r.top);
      assert Keys(es)[k] == r.intent;
      assert Score(c, r.intent, t) == r.top;
    }
  }

  /** The repository's classifier with its default threshold and margin. */
  function ClassifyRuleDefault(text: string): (r: RuleResult)
    ensures Default.WellFormed()
    ensures !r.fallbackNeeded ==> r.top >= DefaultMinScore
  {
    DefaultWellFormed();
    ClassifyRule(Default, text, DefaultMinScore, DefaultMarginRatio)
  }

  lemma RatioBelowOne(x: real, y: real)
    requires 0.0 <= x == y
    ensures x / (y + Eps) < 1.0
  {
    var d := y + Eps;
    var q := x / d;
    assert q * d == x;
  }

  /**
   * With a margin ratio of at least 1, a tie at the top always yields
   * "unknown": the ratio top / (top + eps) is below 1.
   */
  lemma {:induction false} TieIsUnknown(es: ScoreTable, priority: seq<string>, minScore: real, marginRatio: real)
    requires |es| >= 2 && NonNegative(es) && marginRatio >= 1.0 && TopTie(es)
    ensures Decide(es, priority, minScore, marginRatio).fallbackNeeded
    ensures Decide(es, priority, minScore, marginRatio).intent == Unknown
  {
    SecondIsTopIffTie(es);
    RatioBelowOne(TopOf(es), SecondOf(es));
    assert !Confident(es, minScore, marginRatio);
  }

  /** The priority tie-break can only decide when the margin ratio is below 1. */
  lemma PriorityNeedsLowMargin(es: ScoreTable, priority: seq<string>, minScore: real, marginRatio: real)
    requires |es| >= 2 && NonNegative(es) && TopTie(es)
    requires !Decide(es, priority, minScore, marginRatio).fallbackNeeded
    ensures marginRatio < 1.0
  {
    if marginRatio >= 1.0 {
      TieIsUnknown(es, priority, minScore, marginRatio);
    }
  }

  /** From `x / d >= m` with a positive `d`, `x >= m * d`. */
  lemma DivisionBound(x: real, d: real, m: real)
    requires d > 0.0 && x / d >= m
    ensures x >= m * d
  {
    var q := x / d;
    assert q * d == x;
    assert (q - m) * d >= 0.0;
  }

  /**
   * An accepted label's score clears the threshold and is at least
   * `marginRatio` times the runner-up plus 1e-9.
   */
  lemma AcceptedBound(es: ScoreTable, priority: seq<string>, minScore: real, marginRatio: real)
    requires |es| >= 2 && NonNegative(es)
    requires !Decide(es, priority, minScore, marginRatio).fallbackNeeded
    ensures TopOf(es) >= minScore && TopOf(es) >= marginRatio * (SecondOf(es) + Eps)
  {
    assert Confident(es, minScore, marginRatio);
    ConfidentBound(es, minScore, marginRatio);
  }

  lemma ConfidentBound(es: ScoreTable, minScore: real, marginRatio: real)
    requires |es| >= 2 && NonNegative(es) && Confident(es, minScore, marginRatio)
    ensures TopOf(es) >= minScore && TopOf(es) >= marginRatio * (SecondOf(es) + Eps)
  {
    DivisionBound(TopOf(es), SecondOf(es) + Eps, marginRatio);
  }

  // ---------------------------------------------------------------------
  // The empty query and raw substring matching
  // ---------------------------------------------------------------------

  /** No table entry is the empty phrase (which would match every query). */
  predicate NoEmptyPhrase(c: Config)
  {
    && (forall k :: 0 <= k < |c.keywords| ==> "" !in c.keywords[k].1)
    && (forall k :: 0 <= k < |c.dominance| ==> "" !in c.dominance[k].1)
  }

  lemma DefaultNoEmptyPhrase()
    ensures NoEmptyPhrase(Default)
  {
    forall k | 0 <= k < |IntentKeywords| ensures "" !in IntentKeywords[k].1 {
      assert k == 0 || k == 1 || k == 2 || k == 3 || k == 4 || k == 5;
    }
    forall k | 0 <= k < |DominancePhrases| ensures "" !in DominancePhrases[k].1 {
      assert k == 0 || k == 1 || k == 2;
    }
  }

  lemma {:induction false} CountHitsOfEmpty(ps: seq<string>)
    requires "" !in ps
    ensures CountHits(ps, "") == 0
  {
    if ps != [] {
      assert ps == ps[..|ps| - 1] + [ps[|ps| - 1]];
      CountHitsOfEmpty(ps[..|ps| - 1]);
      NotSubstringByLength(ps[|ps| - 1], "");
    }
  }

  lemma LookupOrNoEmpty(table: seq<(string, seq<string>)>, i: string)
    requires forall k :: 0 <= k < |table| ==> "" !in table[k].1
    ensures "" !in LookupOr(table, i, [])
  {
    if Lookup(table, i).Some? {
      LookupFound(table, i);
    }
  }

  /** The empty query scores 0 for every intent. */
  lemma EmptyTextScoresZero(c: Config, i: string)
    requires NoEmptyPhrase(c)
    ensures Score(c, i, "") == 0.0
  {
    LookupOrNoEmpty(c.keywords, i);
    LookupOrNoEmpty(c.dominance, i);
    CountHitsOfEmpty(PhrasesFor(c, i));
    CountHitsOfEmpty(KeywordsFor(c, i));
  }

  /**
   * A query that normalises to the empty string (an empty or all-blank
   * query) always falls back under a positive threshold.
   */
  lemma EmptyTextFallsBack(c: Config, text: string, minScore: real, marginRatio: real)
    requires c.WellFormed() && NoEmptyPhrase(c)
    requires Normalize(text) == "" && minScore > 0.0
    ensures ClassifyRule(c, text, minScore, marginRatio).intent == Unknown
    ensures ClassifyRule(c, text, minScore, marginRatio).fallbackNeeded
    ensures ClassifyRule(c, text, minScore, marginRatio).top == 0.0
  {
    var es := ScoreEntries(c, "");
    forall k | 0 <= k < |es| ensures es[k].1 == 0.0 {
      EmptyTextScoresZero(c, es[k].0);
    }
    assert TopOf(es) == 0.0;
  }

  /** With the repository's tables the default threshold 1.0 rejects the empty query. */
  lemma EmptyTextFallsBackByDefault(text: string)
    requires Normalize(text) == ""
    ensures ClassifyRuleDefault(text).intent == Unknown && ClassifyRuleDefault(text).fallbackNeeded
  {
    DefaultWellFormed();
    DefaultNoEmptyPhrase();
    EmptyTextFallsBack(Default, text, DefaultMinScore, DefaultMarginRatio);
  }

  lemma GenericQaTables()
    ensures PhrasesFor(Default, "generic_qa") == []
    ensures KeywordsFor(Default, "generic_qa") == ["what", "how", "when", "where", "who", "why"]
    ensures Weight(Default, "generic_qa") == 0.5
  {
    GenericQaKeyFirst();
    LookupAt(IntentKeywords, 5);
    LookupAt(IntentWeights, 5);
  }

  lemma GenericQaKeyFirst()
    ensures IntentKeywords[5].0 == IntentWeights[5].0 == "generic_qa"
    ensures forall j :: 0 <= j < 5 ==> IntentKeywords[j].0 != "generic_qa" && IntentWeights[j].0 != "generic_qa"
    ensures Lookup(DominancePhrases, "generic_qa") == None
  {
    assert "generic_qa" !in Keys(DominancePhrases);
  }

  lemma HotelSearchTables()
    ensures PhrasesFor(Default, "hotel_search") == []
    ensures KeywordsFor(Default, "hotel_search") == ["hotel", "hotels", "stay", "staying", "accommodation", "find hotels", "find a hotel"]
    ensures Weight(Default, "hotel_search") == 1.0
  {
    HotelSearchKeyFirst();
    LookupAt(IntentKeywords, 4);
    LookupAt(IntentWeights, 4);
  }

  lemma HotelSearchKeyFirst()
    ensures IntentKeywords[4].0 == IntentWeights[4].0 == "hotel_search"
    ensures forall j :: 0 <= j < 4 ==> IntentKeywords[j].0 != "hotel_search" && IntentWeights[j].0 != "hotel_search"
    ensures Lookup(DominancePhrases, "hotel_search") == None
  {
    assert "hotel_search" !in Keys(DominancePhrases);
  }

  /** Of the question words only "how" occurs in "show", inside the word. */
  lemma ShowMatches()
    ensures IsSubstring("how", "show")
    ensures !IsSubstring("what", "show") && !IsSubstring("when", "show") && !IsSubstring("where", "show")
    ensures !IsSubstring("who", "show") && !IsSubstring("why", "show")
  {
    assert HasAt("show", 1, "how");
    HasAtIsSubstring("show", 1, "how");
    IsSubstringIff("who", "show");
    assert !HasAt("show", 0, "who") by { assert "show"[0..3][0] == 's'; }
    assert !HasAt("show", 1, "who") by { assert "show"[1..4][0] == 'h'; }
    NotSubstringByChar("what", "show", 2);
    NotSubstringByChar("when", "show", 2);
    NotSubstringByChar("where", "show", 2);
    NotSubstringByChar("why", "show", 2);
  }

  lemma ShowHitsOnce()
    ensures CountHits(["what", "how", "when", "where", "who", "why"], "show") == 1
  {
    ShowMatches();
    CountSix(["what", "how", "when", "where", "who", "why"], "show");
  }

  /** "hotels" contains the keywords "hotel" and "hotels" and no other hotel_search keyword. */
  lemma HotelsMatches()
    ensures IsSubstring("hotel", "hotels") && IsSubstring("hotels", "hotels")
    ensures !IsSubstring("stay", "hotels") && !IsSubstring("staying", "hotels")
    ensures !IsSubstring("accommodation", "hotels") && !IsSubstring("find hotels", "hotels")
    ensures !IsSubstring("find a hotel", "hotels")
  {
    assert HasAt("hotels", 0, "hotel");
    HasAtIsSubstring("hotels", 0, "hotel");
    assert HasAt("hotels", 0, "hotels");
    HasAtIsSubstring("hotels", 0, "hotels");
    NotSubstringByChar("stay", "hotels", 3);
    NotSubstringByLength("staying", "hotels");
    NotSubstringByLength("accommodation", "hotels");
    NotSubstringByLength("find hotels", "hotels");
    NotSubstringByLength("find a hotel", "hotels");
  }

  lemma HotelsHitsTwice()
    ensures CountHits(["hotel", "hotels", "stay", "staying", "accommodation", "find hotels", "find a hotel"], "hotels") == 2
  {
    HotelsMatches();
    var ps := ["hotel", "hotels", "stay", "staying", "accommodation", "find hotels", "find a hotel"];
    assert ps == ps[..6] + [ps[6]];
    CountSix(ps[..6], "hotels");
  }

  /** Counting the hits of a six-entry list, one entry at a time. */
  lemma CountSix(ps: seq<string>, t: string)
    requires |ps| == 6
    ensures CountHits(ps, t) ==
      (if IsSubstring(ps[0], t) then 1 else 0) + (if IsSubstring(ps[1], t) then 1 else 0)
      + (if IsSubstring(ps[2], t) then 1 else 0) + (if IsSubstring(ps[3], t) then 1 else 0)
      + (if IsSubstring(ps[4], t) then 1 else 0) + (if IsSubstring(ps[5], t) then 1 else 0)
  {
    assert ps[..6] == ps && ps[..0] == [];
    CountHitsStep(ps, 0, t);
    CountHitsStep(ps, 1, t);
    CountHitsStep(ps, 2, t);
    CountHitsStep(ps, 3, t);
    CountHitsStep(ps, 4, t);
    CountHitsStep(ps, 5, t);
  }

  /**
   * Keywords are matched as raw substrings, not words: "show" scores for
   * generic_qa through "how", and "hotels" hits both "hotel" and "hotels".
   */
  lemma RawSubstringMatching()
    ensures Score(Default, "generic_qa", "show") == 0.5
    ensures Score(Default, "hotel_search", "hotels") == 2.0
  {
    ShowScore();
    HotelsScore();
  }

  lemma ShowScore()
    ensures Score(Default, "generic_qa", "show") == 0.5
  {
    GenericQaTables();
    ShowHitsOnce();
    assert Times(1, 0.5) == 0.5;
  }

  lemma HotelsScore()
    ensures Score(Default, "hotel_search", "hotels") == 2.0
  {
    HotelSearchTables();
    HotelsHitsTwice();
    assert Times(2, 1.0) == 2.0;
  }
}
