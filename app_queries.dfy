/**
 * The helpers of the Streamlit front end that work on text: reading the
 * database configuration file, listing the Cypher queries a retrieval
 * method runs, and labelling and explaining a Cypher query for display.
 */
module AppQueries {
  import opened Wrappers
  import opened Text
  import opened PyValue

  // ---------------------------------------------------------------------
  // The configuration file
  // ---------------------------------------------------------------------

  /** The position of the first `c` in `s`. */
  function CharIndex(s: string, c: char): (i: nat)
    requires c in s
    ensures i < |s| && s[i] == c && c !in s[..i]
  {
    if s[0] == c then 0
    else
      assert c in s[1..];
      var j := CharIndex(s[1..], c);
      assert s[..j + 1] == [s[0]] + s[1..][..j];
      j + 1
  }

  /** A character that is not whitespace survives `strip`. */
  lemma StripKeeps(s: string, c: char)
    requires c in s && !IsSpace(c)
    ensures c in Strip(s)
  {
    var j :| 0 <= j < |s| && s[j] == c;
    StripKeepsAt(s, j);
  }

  lemma StripKeepsAt(s: string, j: nat)
    requires j < |s| && !IsSpace(s[j])
    ensures s[j] in Strip(s)
  {
    var l := LStrip(s);
    var a := |s| - |l|;
    NotLeadingSpace(s, j);
    SuffixIndex(s, a, j);
    var r := RStrip(l);
    NotTrailingSpace(l, j - a);
    PrefixIndex(l, |r|, j - a);
    assert Strip(s) == r;
    assert r[j - a] == s[j];
  }

  lemma SuffixIndex<X>(s: seq<X>, a: nat, j: nat)
    requires a <= j < |s|
    ensures s[a..][j - a] == s[j]
  {
  }

  lemma PrefixIndex<X>(s: seq<X>, n: nat, j: nat)
    requires j < n <= |s|
    ensures s[..n][j] == s[j]
  {
  }

  lemma NotLeadingSpace(s: string, j: nat)
    requires j < |s| && !IsSpace(s[j])
    ensures |s| - |LStrip(s)| <= j
  {
  }

  lemma NotTrailingSpace(s: string, j: nat)
    requires j < |s| && !IsSpace(s[j])
    ensures j < |RStrip(s)|
  {
  }

  /**
   * One line of the configuration file: a line holding `=` is stripped and
   * split at its first `=` into a key and a value; any other line sets
   * nothing.
   */
  function ParseLine(line: string): (r: Option<(string, string)>)
    ensures r.None? <==> '=' !in line
    ensures r.Some? ==> '=' !in r.value.0 && r.value.0 + "=" + r.value.1 == Strip(line)
  {
    if '=' !in line then None
    else
      StripKeeps(line, '=');
      var s := Strip(line);
      var i := CharIndex(s, '=');
      SplitAround(s, i);
      Some((s[..i], s[i + 1..]))
  }

  lemma SplitAround<X>(s: seq<X>, i: nat)
    requires i < |s|
    ensures s[..i] + [s[i]] + s[i + 1..] == s
  {
  }

  /** The line sets `key`. */
  predicate Sets(line: string, key: string)
  {
    ParseLine(line).Some? && ParseLine(line).value.0 == key
  }

  /** The dictionary after one more line. */
  function Apply(config: seq<(string, string)>, line: string): seq<(string, string)>
  {
    match ParseLine(line)
    case None => config
    case Some((k, v)) => Put(config, k, v)
  }

  lemma ApplyKeeps(config: seq<(string, string)>, line: string, key: string)
    requires !Sets(line, key)
    ensures Lookup(Apply(config, line), key) == Lookup(config, key)
  {
  }

  lemma ApplySets(config: seq<(string, string)>, line: string, key: string)
    requires Sets(line, key)
    ensures Lookup(Apply(config, line), key) == Some(ParseLine(line).value.1)
  {
  }

  /** The configuration read from the lines, as the dictionary the loop builds. */
  function ConfigOf(lines: seq<string>): (config: seq<(string, string)>)
    ensures DistinctKeys(config)
    decreases |lines|
  {
    if lines == [] then []
    else
      var prev := ConfigOf(lines[..|lines| - 1]);
      var line := lines[|lines| - 1];
      if ParseLine(line).Some? then PutDistinct(prev, ParseLine(line).value.0, ParseLine(line).value.1); Apply(prev, line)
      else Apply(prev, line)
  }

  /** The configuration loop of `get_backend_components`, over the lines of the file. */
  method ParseConfig(lines: seq<string>) returns (config: seq<(string, string)>)
    ensures config == ConfigOf(lines)
  {
    config := [];
    for k := 0 to |lines|
      invariant config == ConfigOf(lines[..k])
    {
      ConfigOfStep(lines, k);
      config := ReadLine(config, lines[k]);
    }
    assert lines[..|lines|] == lines;
  }

  /** The body of that loop. */
  method ReadLine(config: seq<(string, string)>, line: string) returns (config': seq<(string, string)>)
    ensures config' == Apply(config, line)
  {
    config' := config;
    if '=' in line {
      var s := Strip(line);
      StripKeeps(line, '=');
      var i := CharIndex(s, '=');
      config' := Put(config, s[..i], s[i + 1..]);
    }
  }

  lemma ConfigOfStep(lines: seq<string>, k: nat)
    requires k < |lines|
    ensures ConfigOf(lines[..k + 1]) == Apply(ConfigOf(lines[..k]), lines[k])
  {
    assert lines[..k + 1][..k] == lines[..k];
  }

  /** No entry holds a key that no line sets. */
  lemma {:induction false} ConfigUnset(lines: seq<string>, key: string)
    requires forall i :: 0 <= i < |lines| ==> !Sets(lines[i], key)
    ensures Lookup(ConfigOf(lines), key).None?
    decreases |lines|
  {
    if lines != [] {
      var n := |lines| - 1;
      var init := lines[..n];
      assert forall i :: 0 <= i < n ==> init[i] == lines[i];
      ConfigUnset(init, key);
      ApplyKeeps(ConfigOf(init), lines[n], key);
    }
  }

  /** A key that some line sets has an entry. */
  lemma {:induction false} ConfigSet(lines: seq<string>, key: string, i: nat)
    requires i < |lines| && Sets(lines[i], key)
    ensures Lookup(ConfigOf(lines), key).Some?
    decreases |lines|
  {
    var n := |lines| - 1;
    var init := lines[..n];
    if Sets(lines[n], key) {
      ApplySets(ConfigOf(init), lines[n], key);
    } else {
      assert i < n && init[i] == lines[i];
      ConfigSet(init, key, i);
      ApplyKeeps(ConfigOf(init), lines[n], key);
    }
  }

  /** The last line that sets a key gives its value: later lines overwrite earlier ones. */
  lemma {:induction false} ConfigLastWins(lines: seq<string>, key: string, i: nat)
    requires i < |lines| && Sets(lines[i], key)
    requires forall j :: i < j < |lines| ==> !Sets(lines[j], key)
    ensures Lookup(ConfigOf(lines), key) == Some(ParseLine(lines[i]).value.1)
    decreases |lines|
  {
    var n := |lines| - 1;
    var init := lines[..n];
    if i < n {
      ApplyKeeps(ConfigOf(init), lines[n], key);
      assert forall j :: i < j < n ==> init[j] == lines[j];
      ConfigLastWins(init, key, i);
    } else {
      ApplySets(ConfigOf(init), lines[n], key);
    }
  }

  /** A value may itself hold `=`: only the first one separates the key. */
  lemma ValueKeepsEquals(line: string, key: string, value: string)
    requires Strip(line) == key + "=" + value && '=' !in key
    ensures ParseLine(line) == Some((key, value))
  {
    var s := Strip(line);
    assert s[|key|] == '=' && s[..|key|] == key && s[|key| + 1..] == value;
    CharIndexAt(s, '=', |key|);
  }

  /** The first `c` is at `i` when `s[i]` is `c` and no earlier character is. */
  lemma {:induction false} CharIndexAt(s: string, c: char, i: nat)
    requires i < |s| && s[i] == c && c !in s[..i]
    ensures CharIndex(s, c) == i
    decreases i
  {
    if i > 0 {
      assert s[0] == s[..i][0];
      assert s[1..][i - 1] == c;
      assert s[1..][..i - 1] == s[..i][1..];
      CharIndexAt(s[1..], c, i - 1);
    }
  }

  // ---------------------------------------------------------------------
  // The Cypher queries shown for a retrieval method
  // ---------------------------------------------------------------------

  const BaselineMethod := "Baseline (Cypher Only)"
  const EmbeddingMethod := "Embedding-based"
  const HybridMethod := "Hybrid (Baseline + Embedding)"

  /** The queries `_extract_cypher_queries` can list, before they are written out. */
  datatype Query =
    | CityQuery(cities: string, limit: string)
    | CountryQuery(countries: string, limit: string)
    | EmbeddingQuery(limit: string)
    | HybridQuery(limit: string)
    | ReviewQuery
    | NoQueries

  /**
   * The text of each query, as the f-strings write it: a short opening
   * (the first words of its Cypher or its comment) and the rest of it.
   * The text is cut into short literals, which the verifier reads
   * character by character far more cheaply than long ones.
   */
  function QueryText(q: Query): string
  {
    Opening(q) + Rest(q)
  }

  function Opening(q: Query): string
  {
    match q
    case CityQuery(_, _) => "MATCH (h:Hotel)"
    case CountryQuery(_, _) => "MATCH (h:Hotel)"
    case EmbeddingQuery(_) => "// Embedding"
    case HybridQuery(_) => "// Hybrid"
    case ReviewQuery => "MATCH (h:Hotel)"
    case NoQueries => "// No specific queries generated"
  }

  function Rest(q: Query): string
  {
    match q
    case CityQuery(cities, limit) =>
      "-[:LOCATED_IN]->(c:City)\n" + "WHERE c.name IN " + cities +
      "\nRETURN h.name, h.hotel_id, " + "h.star_rating, " + "h.average_reviews_score, " + "c.name AS city\n" +
      "ORDER BY " + "h.average_reviews_score DESC\n" + "LIMIT " + limit
    case CountryQuery(countries, limit) =>
      "-[:LOCATED_IN]->(:City)" + "-[:LOCATED_IN]->(co:Country)\n" + "WHERE co.name IN " + countries +
      "\nRETURN h.name, h.hotel_id, " + "h.star_rating, " + "h.average_reviews_score\n" +
      "ORDER BY " + "h.average_reviews_score DESC\n" + "LIMIT " + limit
    case EmbeddingQuery(limit) =>
      "-based semantic search\n" + "CALL db.index.vector.queryNodes(" + "'hotel_embedding_minilm_idx', " + limit +
      ", $query_embedding)\n" + "YIELD node, score\n" + "RETURN node.name, node.hotel_id, " + "score\n" + "ORDER BY score DESC"
    case HybridQuery(limit) =>
      ": Cypher + Embedding\n" + "MATCH (h:Hotel)" + "-[:LOCATED_IN]->(c:City)\n" + "WHERE h.rating >= 4.0\n" +
      "WITH h, c, " + "gds.similarity.cosine(" + "h.embedding, $query_embedding) " + "AS similarity\n" +
      "RETURN h, c, similarity, " + "h.average_reviews_score\n" +
      "ORDER BY (similarity * 0.6 + " + "(h.average_reviews_score/10.0) " + "* 0.4) DESC\n" + "LIMIT " + limit
    case ReviewQuery =>
      "<-[:REVIEWS]-(r:Review)\n" + "WHERE h.hotel_id IN $hotel_ids\n" + "RETURN r.review_text, " + "r.rating, r.date\n" +
      "ORDER BY r.rating DESC\n" + "LIMIT 10"
    case NoQueries => ""
  }

  /** The query of the retrieval method: for the baseline only on a hotel search, by city before country. */
  function MethodQueries(intent: string, entities: Entries, retrieval: string, limit: string, num: real -> string): (qs: seq<Query>)
    ensures |qs| <= 1
    ensures forall q :: q in qs ==> !q.ReviewQuery? && !q.NoQueries?
  {
    if retrieval == BaselineMethod then
      if intent == "hotel_search" then
        var cities := LookupOr(entities, "cities", List([]));
        var countries := LookupOr(entities, "countries", List([]));
        if Truthy(cities) then [CityQuery(ToStr(cities, num), limit)]
        else if Truthy(countries) then [CountryQuery(ToStr(countries, num), limit)]
        else []
      else []
    else if retrieval == EmbeddingMethod then [EmbeddingQuery(limit)]
    else if retrieval == HybridMethod then [HybridQuery(limit)]
    else []
  }

  /** `intent in ["review_query", "hotel_search"]` */
  predicate WantsReviews(intent: string)
  {
    intent == "review_query" || intent == "hotel_search"
  }

  /**
   * The queries `_extract_cypher_queries` lists: the method's query, then
   * the review query for review and hotel searches, or the placeholder
   * when there is none. `max_results` is written by `str`; the city and
   * country lists by `str` of the entity values, numbers inside them by
   * `num`.
   */
  function Queries(intent: string, entities: Entries, retrieval: string, maxResults: nat, num: real -> string): (qs: seq<Query>)
    ensures 1 <= |qs| <= 2
  {
    var g := MethodQueries(intent, entities, retrieval, NatToString(maxResults), num) +
      (if WantsReviews(intent) then [ReviewQuery] else []);
    if g != [] then g else [NoQueries]
  }

  /** `_extract_cypher_queries`: the texts of the listed queries. */
  function ExtractCypherQueries(intent: string, entities: Entries, retrieval: string, maxResults: nat, num: real -> string): (ts: seq<string>)
    ensures var qs := Queries(intent, entities, retrieval, maxResults, num);
      |ts| == |qs| && forall i :: 0 <= i < |qs| ==> ts[i] == QueryText(qs[i])
  {
    var qs := Queries(intent, entities, retrieval, maxResults, num);
    seq(|qs|, i requires 0 <= i < |qs| => QueryText(qs[i]))
  }

  /**
   * The texts `_extract_cypher_queries` returns: one or two, and exactly
   * the placeholder comment alone when neither the method nor the intent
   * calls for a query.
   */
  lemma CypherTexts(intent: string, entities: Entries, retrieval: string, maxResults: nat, num: real -> string)
    ensures var ts := ExtractCypherQueries(intent, entities, retrieval, maxResults, num);
      && 1 <= |ts| <= 2
      && (ts == ["// No specific queries generated"] <==>
            && !WantsReviews(intent)
            && retrieval != EmbeddingMethod && retrieval != HybridMethod
            && !(retrieval == BaselineMethod && intent == "hotel_search"))
  {
    var qs := Queries(intent, entities, retrieval, maxResults, num);
    var ts := ExtractCypherQueries(intent, entities, retrieval, maxResults, num);
    PlaceholderIff(intent, entities, retrieval, maxResults, num);
    QueryTextOfPlaceholder(qs[0]);
    if NoQueries in qs {
      assert ts == [QueryText(NoQueries)];
    }
  }

  /** Only the placeholder query is written as the placeholder comment. */
  lemma QueryTextOfPlaceholder(q: Query)
    ensures QueryText(NoQueries) == "// No specific queries generated"
    ensures QueryText(q) == QueryText(NoQueries) ==> q == NoQueries
  {
    PlaceholderText();
    TextsDiffer(q);
  }

  /** Every other query text differs from the placeholder's in its first or fourth character. */
  lemma TextsDiffer(q: Query)
    ensures |QueryText(q)| > 3 && |QueryText(NoQueries)| > 3
    ensures q != NoQueries ==> QueryText(q)[0] != QueryText(NoQueries)[0] || QueryText(q)[3] != QueryText(NoQueries)[3]
  {
    OpeningsDiffer(q);
    OpeningChar(q, 0);
    OpeningChar(q, 3);
    OpeningChar(NoQueries, 0);
    OpeningChar(NoQueries, 3);
  }

  lemma PlaceholderText()
    ensures QueryText(NoQueries) == "// No specific queries generated"
  {
    assert Rest(NoQueries) == [];
  }

  /** The placeholder's opening differs from every other opening in its first or fourth character. */
  lemma OpeningsDiffer(q: Query)
    ensures |Opening(q)| > 3 && |Opening(NoQueries)| > 3
    ensures q != NoQueries ==> Opening(q)[0] != Opening(NoQueries)[0] || Opening(q)[3] != Opening(NoQueries)[3]
  {
  }

  /** A query text begins with its opening. */
  lemma OpeningChar(q: Query, i: nat)
    requires i < |Opening(q)|
    ensures i < |QueryText(q)| && QueryText(q)[i] == Opening(q)[i]
  {
  }

  /** The placeholder is listed exactly when neither the method nor the intent calls for a query, and then alone. */
  lemma PlaceholderIff(intent: string, entities: Entries, retrieval: string, maxResults: nat, num: real -> string)
    ensures var qs := Queries(intent, entities, retrieval, maxResults, num);
      && (NoQueries in qs <==>
            && !WantsReviews(intent)
            && retrieval != EmbeddingMethod && retrieval != HybridMethod
            && !(retrieval == BaselineMethod && intent == "hotel_search"))
      && (NoQueries in qs ==> qs == [NoQueries])
  {
  }

  /** The baseline hotel search lists the city query when cities were found, the country query only when not. */
  lemma BaselineCityFirst(entities: Entries, maxResults: nat, num: real -> string)
    ensures var qs := Queries("hotel_search", entities, BaselineMethod, maxResults, num);
      var cities := LookupOr(entities, "cities", List([]));
      var countries := LookupOr(entities, "countries", List([]));
      var lim := NatToString(maxResults);
      && (Truthy(cities) ==> qs == [CityQuery(ToStr(cities, num), lim), ReviewQuery])
      && (!Truthy(cities) && Truthy(countries) ==> qs == [CountryQuery(ToStr(countries, num), lim), ReviewQuery])
      && (!Truthy(cities) && !Truthy(countries) ==> qs == [ReviewQuery])
  {
    var lim := NatToString(maxResults);
    var m := MethodQueries("hotel_search", entities, BaselineMethod, lim, num);
    assert WantsReviews("hotel_search");
    assert Queries("hotel_search", entities, BaselineMethod, maxResults, num) == m + [ReviewQuery];
  }

  /** The review query comes last for review and hotel searches, whatever the method, and only for them. */
  lemma ReviewQueryLast(intent: string, entities: Entries, retrieval: string, maxResults: nat, num: real -> string)
    ensures var qs := Queries(intent, entities, retrieval, maxResults, num);
      && (WantsReviews(intent) ==> qs[|qs| - 1] == ReviewQuery)
      && (ReviewQuery in qs ==> WantsReviews(intent))
  {
  }

  /** Only the baseline's hotel search lists a city or country query. */
  lemma LocationQueriesOnlyBaseline(intent: string, entities: Entries, retrieval: string, maxResults: nat, num: real -> string)
    ensures forall q :: q in Queries(intent, entities, retrieval, maxResults, num) && (q.CityQuery? || q.CountryQuery?) ==>
      retrieval == BaselineMethod && intent == "hotel_search"
  {
  }

  // ---------------------------------------------------------------------
  // Labelling and explaining a query
  // ---------------------------------------------------------------------

  /** The kinds `_detect_query_type` tells apart. */
  datatype QueryType = EmbeddingBased | HotelSearch | UserBased | ReviewBased | PatternMatching | General

  function QueryTypeLabel(t: QueryType): string
  {
    match t
    case EmbeddingBased => "\U{1F522} Embedding-based (Semantic Search)"
    case HotelSearch => "\U{1F3E8} Hotel Search Query"
    case UserBased => "\U{1F464} User-based Query"
    case ReviewBased => "\U{2B50} Review Query"
    case PatternMatching => "\U{1F50D} Pattern Matching Query"
    case General => "\U{1F4DD} General Query"
  }

  /** The query mentions a vector index or an embedding. */
  predicate Semantic(ql: string)
  {
    IsSubstring("vector", ql) || IsSubstring("embedding", ql)
  }

  /** The checks of `_detect_query_type`, in order, on the lower-cased query. */
  function QueryTypeOf(ql: string): QueryType
  {
    if Semantic(ql) then EmbeddingBased
    else if IsSubstring("match", ql) && IsSubstring("hotel", ql) then HotelSearch
    else if IsSubstring("match", ql) && IsSubstring("user", ql) then UserBased
    else if IsSubstring("match", ql) && IsSubstring("review", ql) then ReviewBased
    else if IsSubstring("match", ql) then PatternMatching
    else General
  }

  /** The six labels `_detect_query_type` can return. */
  const QueryTypeLabels: set<string> := {
    QueryTypeLabel(EmbeddingBased), QueryTypeLabel(HotelSearch), QueryTypeLabel(UserBased),
    QueryTypeLabel(ReviewBased), QueryTypeLabel(PatternMatching), QueryTypeLabel(General) }

  /** `_detect_query_type`: the label of the query's kind. */
  function DetectQueryType(cypher: string): (r: string)
    ensures r in QueryTypeLabels
    ensures Semantic(Lower(cypher)) ==> r == QueryTypeLabel(EmbeddingBased)
    ensures !IsSubstring("match", Lower(cypher)) && !Semantic(Lower(cypher)) ==> r == QueryTypeLabel(General)
  {
    QueryTypeLabel(QueryTypeOf(Lower(cypher)))
  }

  /** Each kind has its own label, so the label tells the kind. */
  lemma LabelsDistinct(s: QueryType, t: QueryType)
    ensures QueryTypeLabel(s) == QueryTypeLabel(t) <==> s == t
  {
    if s != t {
      assert QueryTypeLabel(s)[0] != QueryTypeLabel(t)[0];
    }
  }

  /**
   * A mention of `vector` or `embedding` wins over every `match` check; a
   * query with neither and no `match` is general; every other query is
   * one of the pattern kinds.
   */
  lemma SemanticFirst(ql: string)
    ensures QueryTypeOf(ql) == EmbeddingBased <==> Semantic(ql)
    ensures QueryTypeOf(ql) == General <==> !Semantic(ql) && !IsSubstring("match", ql)
    ensures QueryTypeOf(ql) in {HotelSearch, UserBased, ReviewBased, PatternMatching} <==>
      !Semantic(ql) && IsSubstring("match", ql)
  {
  }

  /** A query matching hotels is a hotel search even when it also mentions users or reviews. */
  lemma HotelBeforeUserAndReview(ql: string)
    requires !Semantic(ql) && IsSubstring("match", ql) && IsSubstring("hotel", ql)
    ensures QueryTypeOf(ql) == HotelSearch
  {
  }

  /** Lower-casing the query first changes nothing: the checks ignore case. */
  lemma DetectIgnoresCase(cypher: string)
    ensures DetectQueryType(Lower(cypher)) == DetectQueryType(cypher)
  {
    LowerIdempotent(cypher);
  }

  /** The fragments of an explanation, in the order `_explain_cypher_query` tests for them. */
  datatype Clause = Searches | Follows | Filters | SortsDesc | SortsAsc | Limits | Similarity

  /**
   * The fragment each test adds. The longer literals are written as two
   * halves so that the verifier can read their first character.
   */
  function ClauseText(c: Clause): string
  {
    match c
    case Searches => "Searches for Hotel nodes " + "in the knowledge graph"
    case Follows => "follows LOCATED_IN relationships " + "to find city/country information"
    case Filters => "filters results " + "based on specified criteria"
    case SortsDesc => "sorts results in descending order " + "(highest first)"
    case SortsAsc => "sorts results in ascending order"
    case Limits => "limits the number of results returned"
    case Similarity => "uses semantic similarity search " + "with embeddings"
  }

  /** The position of a fragment in the fixed order; the two sort fragments share one. */
  function Rank(c: Clause): nat
  {
    match c
    case Searches => 0
    case Follows => 1
    case Filters => 2
    case SortsDesc => 3
    case SortsAsc => 3
    case Limits => 4
    case Similarity => 5
  }

  /** `[c]` when the test holds, nothing otherwise. */
  function When(test: bool, c: Clause): seq<Clause>
  {
    if test then [c] else []
  }

  /** Which of the tested substrings the lower-cased query holds. */
  datatype Cues = Cues(matchHotel: bool, locatedIn: bool, hasWhere: bool, orderBy: bool, desc: bool, hasLimit: bool, vector: bool)

  function CuesOf(ql: string): Cues
  {
    Cues(IsSubstring("match (h:hotel)", ql), IsSubstring("located_in", ql), IsSubstring("where", ql),
         IsSubstring("order by", ql), IsSubstring("desc", ql), IsSubstring("limit", ql), IsSubstring("vector", ql))
  }

  /** Test `i` of the explanation, as the fragment it adds: at most one, of rank `i`. */
  function Part(k: Cues, i: nat): (cs: seq<Clause>)
    requires i < 6
    ensures |cs| <= 1 && forall j :: 0 <= j < |cs| ==> Rank(cs[j]) == i
  {
    match i
    case 0 => When(k.matchHotel, Searches)
    case 1 => When(k.locatedIn, Follows)
    case 2 => When(k.hasWhere, Filters)
    case 3 => if k.orderBy then (if k.desc then [SortsDesc] else [SortsAsc]) else []
    case 4 => When(k.hasLimit, Limits)
    case _ => When(k.vector, Similarity)
  }

  /** The fragments added by the first `n` tests. */
  function Upto(k: Cues, n: nat): seq<Clause>
    requires n <= 6
  {
    if n == 0 then [] else Upto(k, n - 1) + Part(k, n - 1)
  }

  /** The fragments that fire, in the order they are tested. */
  function ClausesFor(k: Cues): seq<Clause>
  {
    Upto(k, 6)
  }

  function Clauses(ql: string): seq<Clause>
  {
    ClausesFor(CuesOf(ql))
  }

  const NoExplanation := "Retrieves data from the knowledge graph"

  function ClauseTexts(cs: seq<Clause>): (ts: seq<string>)
    ensures |ts| == |cs| && forall i :: 0 <= i < |cs| ==> ts[i] == ClauseText(cs[i])
  {
    seq(|cs|, i requires 0 <= i < |cs| => ClauseText(cs[i]))
  }

  /**
   * `_explain_cypher_query`: the fragments joined by arrows and capitalised,
   * or the fixed sentence, which is returned exactly when no fragment fires.
   */
  function ExplainCypherQuery(cypher: string): (r: string)
    ensures r == NoExplanation <==> Clauses(Lower(cypher)) == []
  {
    var cs := Clauses(Lower(cypher));
    if cs != [] then
      ExplanationOpens(cs);
      Capitalize(Join(" → ", ClauseTexts(cs)))
    else NoExplanation
  }

  /** The fragments come in the fixed order, each at most once. */
  lemma ClausesOrdered(k: Cues)
    ensures RanksIncrease(ClausesFor(k))
  {
    UptoOrdered(k, 6);
  }

  lemma {:induction false} UptoOrdered(k: Cues, n: nat)
    requires n <= 6
    ensures RanksIncrease(Upto(k, n)) && Below(Upto(k, n), n)
  {
    if n > 0 {
      UptoOrdered(k, n - 1);
      Extend(Upto(k, n - 1), Part(k, n - 1), n - 1);
    }
  }

  /** Ranks strictly increase along the sequence. */
  predicate RanksIncrease(cs: seq<Clause>)
  {
    forall i, j :: 0 <= i < j < |cs| ==> Rank(cs[i]) < Rank(cs[j])
  }

  predicate Below(cs: seq<Clause>, n: nat)
  {
    forall i :: 0 <= i < |cs| ==> Rank(cs[i]) < n
  }

  /** Appending at most one fragment of the next rank keeps the ranks increasing. */
  lemma Extend(xs: seq<Clause>, ys: seq<Clause>, n: nat)
    requires RanksIncrease(xs) && Below(xs, n)
    requires |ys| <= 1 && forall i :: 0 <= i < |ys| ==> Rank(ys[i]) == n
    ensures RanksIncrease(xs + ys) && Below(xs + ys, n + 1)
  {
    var zs := xs + ys;
    forall i, j | 0 <= i < j < |zs|
      ensures Rank(zs[i]) < Rank(zs[j])
    {
      if j < |xs| {
        assert zs[i] == xs[i] && zs[j] == xs[j];
      } else {
        assert zs[i] == xs[i] && zs[j] == ys[0];
      }
    }
    assert forall i :: 0 <= i < |xs| ==> zs[i] == xs[i];
  }

  /** The test each fragment answers to. */
  predicate Fires(k: Cues, c: Clause)
  {
    match c
    case Searches => k.matchHotel
    case Follows => k.locatedIn
    case Filters => k.hasWhere
    case SortsDesc => k.orderBy && k.desc
    case SortsAsc => k.orderBy && !k.desc
    case Limits => k.hasLimit
    case Similarity => k.vector
  }

  lemma InWhen(test: bool, c: Clause, x: Clause)
    ensures x in When(test, c) <==> test && x == c
  {
  }

  /** Each fragment is listed exactly when its test holds; the sort direction is descending when `desc` occurs anywhere. */
  lemma ClauseTests(k: Cues, x: Clause)
    ensures x in ClausesFor(k) <==> Fires(k, x)
  {
    UptoHas(k, 6, x);
    InWhen(k.matchHotel, Searches, x);
    InWhen(k.locatedIn, Follows, x);
    InWhen(k.hasWhere, Filters, x);
    InWhen(k.hasLimit, Limits, x);
    InWhen(k.vector, Similarity, x);
  }

  /** A fragment is among the first `n` tests' fragments exactly when the test of its rank added it. */
  lemma {:induction false} UptoHas(k: Cues, n: nat, x: Clause)
    requires n <= 6
    ensures x in Upto(k, n) <==> Rank(x) < n && x in Part(k, Rank(x))
  {
    if n > 0 {
      UptoHas(k, n - 1, x);
      var p := Part(k, n - 1);
      assert x in p ==> Rank(x) == n - 1 by {
        if x in p {
          var j :| 0 <= j < |p| && p[j] == x;
        }
      }
    }
  }

  /** A joined explanation opens with a capital that is not the `R` of the fixed sentence. */
  lemma ExplanationOpens(cs: seq<Clause>)
    requires cs != []
    ensures var r := Capitalize(Join(" → ", ClauseTexts(cs)));
      r != NoExplanation
  {
    var ts := ClauseTexts(cs);
    JoinFirst(" → ", ts);
    var r := Capitalize(Join(" → ", ts));
    ClauseOpens(cs[0]);
    assert Join(" → ", ts)[0] == ts[0][0];
    assert r[0] == UpperChar(ClauseText(cs[0])[0]);
    assert NoExplanation[0] == 'R';
  }

  /** No fragment opens with `r`, the letter of the fixed sentence. */
  lemma ClauseOpens(c: Clause)
    ensures |ClauseText(c)| > 0 && UpperChar(ClauseText(c)[0]) != 'R'
  {
    var ch := ClauseText(c)[0];
    assert ch != 'r' && ch != 'R' by {
      ClauseInitial(c);
    }
    UpperOnlyR(ch);
  }

  lemma ClauseInitial(c: Clause)
    ensures |ClauseText(c)| > 0 && ClauseText(c)[0] in "Sfslu"
  {
    match c
    case Searches => assert ClauseText(c)[0] == 'S';
    case Follows => assert ClauseText(c)[0] == 'f';
    case Filters => assert ClauseText(c)[0] == 'f';
    case SortsDesc => assert ClauseText(c)[0] == 's';
    case SortsAsc => assert ClauseText(c)[0] == 's';
    case Limits => assert ClauseText(c)[0] == 'l';
    case Similarity => assert ClauseText(c)[0] == 'u';
  }

  lemma UpperOnlyR(ch: char)
    requires ch != 'r' && ch != 'R'
    ensures UpperChar(ch) != 'R'
  {
  }

  /**
   * After its first character the explanation is lower case: `capitalize`
   * also lowers the relationship name and the node label of the fragments.
   */
  lemma ExplanationLowerTail(cypher: string)
    requires Clauses(Lower(cypher)) != []
    ensures var r := ExplainCypherQuery(cypher); forall i :: 1 <= i < |r| ==> !IsUpper(r[i])
  {
    var r := ExplainCypherQuery(cypher);
    var cs := Clauses(Lower(cypher));
    var j := Join(" → ", ClauseTexts(cs));
    assert |j| > 0 by {
      JoinFirst(" → ", ClauseTexts(cs));
      ClauseOpens(cs[0]);
    }
    forall i | 1 <= i < |r|
      ensures !IsUpper(r[i])
    {
      assert r[i] == Lower(j[1..])[i - 1];
    }
  }

  /** Lower-casing the query first changes nothing: the tests ignore case. */
  lemma ExplainIgnoresCase(cypher: string)
    ensures ExplainCypherQuery(Lower(cypher)) == ExplainCypherQuery(cypher)
  {
    LowerIdempotent(cypher);
  }
}
