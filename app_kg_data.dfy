/**
 * The graph shown beside an answer: the retrieved hotels become hotel
 * nodes, the cities they lie in become city nodes, every hotel with a city
 * is LOCATED_IN its city's node, and the first reviews point at the hotel
 * they REVIEW. The metadata counts what was drawn.
 */
module AppKgData {
  import opened Wrappers
  import opened Text
  import opened PyValue
  import RetrievalPipeline

  /** At most this many hotels are drawn and linked. */
  const HotelLimit: nat := 20
  /** At most this many reviews are linked. */
  const ReviewLimit: nat := 10

  /** The slice `xs[:n]`. */
  function Take<X>(xs: seq<X>, n: nat): (r: seq<X>)
    ensures |r| <= n && |r| <= |xs|
    ensures |r| == n || |r| == |xs|
    ensures forall i :: 0 <= i < |r| ==> r[i] == xs[i]
  {
    if |xs| <= n then xs else xs[..n]
  }

  predicate AllDicts(vs: seq<Value>)
  {
    forall i :: 0 <= i < |vs| ==> vs[i].Dict?
  }

  /** The entries of a list of dictionaries. */
  function Records(vs: seq<Value>): (rs: seq<Entries>)
    requires AllDicts(vs)
    ensures |rs| == |vs|
    ensures forall i :: 0 <= i < |vs| ==> vs[i] == Dict(rs[i])
  {
    seq(|vs|, i requires 0 <= i < |vs| => vs[i].entries)
  }

  /**
   * `hotels`, which is sliced and, in full, iterated with `h.get`: a list
   * of dictionaries. An empty string slices and iterates as nothing; any
   * other value raises.
   */
  function HotelsOf(v: Value): Option<seq<Entries>>
  {
    match v
    case List(xs) => if AllDicts(xs) then Some(Records(xs)) else None
    case Str(s) => if s == "" then Some([]) else None
    case _ => None
  }

  /** `reviews[:10]`, whose items are read with `review.get`. */
  function ReviewsOf(v: Value): (r: Option<seq<Entries>>)
    ensures r.Some? ==> |r.value| <= ReviewLimit
  {
    match v
    case List(xs) =>
      var first := Take(xs, ReviewLimit);
      if AllDicts(first) then Some(Records(first)) else None
    case Str(s) => if s == "" then Some([]) else None
    case _ => None
  }

  /** `h.get("city")` */
  function City(h: Entries): Value
  {
    Get(h, "city")
  }

  predicate HasCity(h: Entries)
  {
    Truthy(City(h))
  }

  /** Every city that goes into the set of cities can be hashed. */
  predicate CitiesHashable(hs: seq<Entries>)
  {
    forall i :: 0 <= i < |hs| ==> HasCity(hs[i]) ==> RetrievalPipeline.Hashable(City(hs[i]))
  }

  /**
   * The hotels and the first reviews, or `None` where the function raises:
   * `combined` is not a dictionary, `hotels` or `reviews` is not a list of
   * dictionaries, or a city cannot be put in a set.
   */
  function Inputs(results: Entries): Option<(seq<Entries>, seq<Entries>)>
  {
    var combined := LookupOr(results, "combined", Dict([]));
    if !combined.Dict? then None
    else
      var hotels := HotelsOf(LookupOr(combined.entries, "hotels", List([])));
      var reviews := ReviewsOf(LookupOr(combined.entries, "reviews", List([])));
      if hotels.None? || reviews.None? || !CitiesHashable(hotels.value) then None
      else Some((hotels.value, reviews.value))
  }

  /** The value handed to `int()` for the query time. */
  function QueryTime(results: Entries): Value
  {
    LookupOr(results, "query_time_ms", Num(150.0))
  }

  // ---------------------------------------------------------------------
  // Nodes and relationships
  // ---------------------------------------------------------------------

  /** The node drawn for the hotel at position `idx`. */
  function HotelNode(h: Entries, idx: nat): Entries
  {
    [ ("id", LookupOr(h, "hotel_id", Str("h" + NatToString(idx)))),
      ("type", Str("Hotel")),
      ("name", LookupOr(h, "name", Str("Unknown Hotel"))),
      ("star_rating", LookupOr(h, "star_rating", LookupOr(h, "stars", Num(0.0)))),
      ("average_score", LookupOr(h, "avg_score", LookupOr(h, "average_reviews_score", Num(0.0)))),
      ("city", LookupOr(h, "city", Str("N/A"))),
      ("similarity_score", LookupOr(h, "similarity", Num(0.0))) ]
  }

  /** `f"city_{c}"`, the id of a city's node. */
  function CityId(c: Value, num: real -> string): Value
  {
    Str("city_" + ToStr(c, num))
  }

  function CityNode(c: Value, num: real -> string): Entries
  {
    [("id", CityId(c, num)), ("type", Str("City")), ("name", c)]
  }

  /** The link from a hotel that has a city to that city's node. */
  function LocatedRel(h: Entries, num: real -> string): Entries
  {
    [ ("from", LookupOr(h, "hotel_id", Get(h, "name"))),
      ("to", CityId(City(h), num)),
      ("type", Str("LOCATED_IN")) ]
  }

  /** The link from the review at position `idx` to the hotel it is about. */
  function ReviewRel(r: Entries, idx: nat): Entries
  {
    [ ("from", Str("review_" + NatToString(idx))),
      ("to", LookupOr(r, "hotel_id", Str("unknown"))),
      ("type", Str("REVIEWS")),
      ("rating", LookupOr(r, "rating", Num(0.0))) ]
  }

  function HotelNodes(hs: seq<Entries>): (ns: seq<Entries>)
    ensures |ns| == |hs|
  {
    seq(|hs|, i requires 0 <= i < |hs| => HotelNode(hs[i], i))
  }

  function CityNodes(cs: seq<Value>, num: real -> string): (ns: seq<Entries>)
    ensures |ns| == |cs|
  {
    seq(|cs|, i requires 0 <= i < |cs| => CityNode(cs[i], num))
  }

  function ReviewRels(rs: seq<Entries>): (ns: seq<Entries>)
    ensures |ns| == |rs|
  {
    seq(|rs|, i requires 0 <= i < |rs| => ReviewRel(rs[i], i))
  }

  /**
   * The cities of the hotels that have one, each once, in the order they
   * are first met. (The source collects them in a set, whose iteration
   * order Python leaves open.)
   */
  function DistinctCities(hs: seq<Entries>): seq<Value>
    decreases |hs|
  {
    if hs == [] then []
    else
      var cs := DistinctCities(hs[..|hs| - 1]);
      var h := hs[|hs| - 1];
      if HasCity(h) && City(h) !in cs then cs + [City(h)] else cs
  }

  /** The LOCATED_IN links of the hotels, in order, skipping those without a city. */
  function LocatedIn(hs: seq<Entries>, num: real -> string): seq<Entries>
    decreases |hs|
  {
    if hs == [] then []
    else
      var rels := LocatedIn(hs[..|hs| - 1], num);
      var h := hs[|hs| - 1];
      if HasCity(h) then rels + [LocatedRel(h, num)] else rels
  }

  datatype Metadata = Metadata(
    nodesRetrieved: nat,
    relationshipsRetrieved: nat,
    queryTimeMs: int,
    confidenceScore: real,
    cacheHit: bool,
    intent: string,
    entitiesFound: nat)

  datatype KgData = KgData(nodes: seq<Entries>, relationships: seq<Entries>, metadata: Metadata)

  /** The hotels' nodes, then their cities' nodes. */
  function Nodes(hotels: seq<Entries>, num: real -> string): seq<Entries>
  {
    HotelNodes(Take(hotels, HotelLimit)) + CityNodes(DistinctCities(hotels), num)
  }

  /** The hotels' LOCATED_IN links, then the reviews' REVIEWS links. */
  function Relationships(hotels: seq<Entries>, reviews: seq<Entries>, num: real -> string): seq<Entries>
  {
    LocatedIn(Take(hotels, HotelLimit), num) + ReviewRels(reviews)
  }

  /** The graph drawn for the given hotels and reviews. */
  function Build(hotels: seq<Entries>, reviews: seq<Entries>, intent: string, entities: Entries,
                 queryTime: int, num: real -> string): KgData
  {
    var nodes := Nodes(hotels, num);
    var rels := Relationships(hotels, reviews, num);
    KgData(nodes, rels,
      Metadata(|nodes|, |rels|, queryTime, 0.85 + (|nodes| as real) * 0.01, false, intent, |entities|))
  }

  /**
   * What the function returns: `None` where it raises, which is when the
   * inputs are malformed or the query time is not a number `int()`
   * accepts. Otherwise the graph of the hotels and reviews, with at most
   * 30 links, and metadata counting exactly the nodes and links drawn, a
   * confidence of 0.85 plus 0.01 per node, no cache hit, the intent as
   * given and the number of entity keys.
   */
  function KgDataOf(results: Entries, intent: string, entities: Entries,
                    toInt: Value -> Option<int>, num: real -> string): (d: Option<KgData>)
    ensures d.None? <==> Inputs(results).None? || toInt(QueryTime(results)).None?
    ensures d.Some? ==>
      var hotels := Inputs(results).value.0;
      var reviews := Inputs(results).value.1;
      var m := d.value.metadata;
      && d.value.nodes == Nodes(hotels, num)
      && d.value.relationships == Relationships(hotels, reviews, num)
      && |d.value.relationships| <= HotelLimit + ReviewLimit
      && m.nodesRetrieved == |d.value.nodes|
      && m.relationshipsRetrieved == |d.value.relationships|
      && m.queryTimeMs == toInt(QueryTime(results)).value
      && m.confidenceScore == 0.85 + (m.nodesRetrieved as real) * 0.01
      && !m.cacheHit
      && m.intent == intent
      && m.entitiesFound == |entities|
  {
    var inputs := Inputs(results);
    var queryTime := toInt(QueryTime(results));
    if inputs.None? || queryTime.None? then None
    else
      RelationshipsShape(inputs.value.0, inputs.value.1, num);
      Some(Build(inputs.value.0, inputs.value.1, intent, entities, queryTime.value, num))
  }

  // ---------------------------------------------------------------------
  // The loops
  // ---------------------------------------------------------------------

  /** One node per hotel, numbered by position. */
  method HotelNodeLoop(hotels: seq<Entries>) returns (nodes: seq<Entries>)
    ensures nodes == HotelNodes(hotels)
  {
    nodes := [];
    for idx := 0 to |hotels|
      invariant |nodes| == idx
      invariant forall i :: 0 <= i < idx ==> nodes[i] == HotelNode(hotels[i], i)
    {
      nodes := nodes + [HotelNode(hotels[idx], idx)];
    }
  }

  /** The set of cities, built hotel by hotel. */
  method CollectCities(hotels: seq<Entries>) returns (cities: seq<Value>)
    ensures cities == DistinctCities(hotels)
  {
    cities := [];
    for k := 0 to |hotels|
      invariant cities == DistinctCities(hotels[..k])
    {
      assert hotels[..k + 1][..k] == hotels[..k];
      var h := hotels[k];
      if HasCity(h) {
        var city := LookupOr(h, "city", Str("N/A"));
        assert city == City(h);
        if city !in cities {
          cities := cities + [city];
        }
      }
    }
    assert hotels[..|hotels|] == hotels;
  }

  /** Appends a node per city. */
  method AddCityNodes(nodes: seq<Entries>, cities: seq<Value>, num: real -> string) returns (nodes': seq<Entries>)
    ensures nodes' == nodes + CityNodes(cities, num)
  {
    nodes' := nodes;
    for j := 0 to |cities|
      invariant |nodes'| == |nodes| + j
      invariant nodes'[..|nodes|] == nodes
      invariant forall i :: 0 <= i < j ==> nodes'[|nodes| + i] == CityNode(cities[i], num)
    {
      nodes' := nodes' + [CityNode(cities[j], num)];
    }
  }

  /** A LOCATED_IN link per hotel that has a city. */
  method LocatedLoop(hotels: seq<Entries>, num: real -> string) returns (rels: seq<Entries>)
    ensures rels == LocatedIn(hotels, num)
  {
    rels := [];
    for k := 0 to |hotels|
      invariant rels == LocatedIn(hotels[..k], num)
    {
      assert hotels[..k + 1][..k] == hotels[..k];
      if HasCity(hotels[k]) {
        rels := rels + [LocatedRel(hotels[k], num)];
      }
    }
    assert hotels[..|hotels|] == hotels;
  }

  /** Appends a REVIEWS link per review. */
  method AddReviewRels(rels: seq<Entries>, reviews: seq<Entries>) returns (rels': seq<Entries>)
    ensures rels' == rels + ReviewRels(reviews)
  {
    rels' := rels;
    for idx := 0 to |reviews|
      invariant |rels'| == |rels| + idx
      invariant rels'[..|rels|] == rels
      invariant forall i :: 0 <= i < idx ==> rels'[|rels| + i] == ReviewRel(reviews[i], i)
    {
      rels' := rels' + [ReviewRel(reviews[idx], idx)];
    }
  }

  /** The two halves of the graph, list by list. */
  method Draw(hotels: seq<Entries>, reviews: seq<Entries>, num: real -> string)
    returns (nodes: seq<Entries>, relationships: seq<Entries>)
    ensures nodes == Nodes(hotels, num)
    ensures relationships == Relationships(hotels, reviews, num)
  {
    nodes := HotelNodeLoop(Take(hotels, HotelLimit));
    var cities := CollectCities(hotels);
    nodes := AddCityNodes(nodes, cities, num);
    relationships := LocatedLoop(Take(hotels, HotelLimit), num);
    relationships := AddReviewRels(relationships, reviews);
  }

  /**
   * `_format_kg_data`. `int()` on the query time is `toInt` (`None` where it
   * raises) and `num` writes numbers inside ids.
   */
  method FormatKgData(results: Entries, intent: string, entities: Entries,
                      toInt: Value -> Option<int>, num: real -> string) returns (r: Option<KgData>)
    ensures r == KgDataOf(results, intent, entities, toInt, num)
  {
    var inputs := Inputs(results);
    if inputs.None? {
      return None;
    }
    var hotels, reviews := inputs.value.0, inputs.value.1;
    var nodes, relationships := Draw(hotels, reviews, num);
    var queryTime := toInt(QueryTime(results));
    if queryTime.None? {
      return None;
    }
    var metadata := Metadata(|nodes|, |relationships|, queryTime.value,
                             0.85 + (|nodes| as real) * 0.01, false, intent, |entities|);
    r := Some(KgData(nodes, relationships, metadata));
    assert r.value == Build(hotels, reviews, intent, entities, queryTime.value, num);
  }

  // ---------------------------------------------------------------------
  // Properties
  // ---------------------------------------------------------------------

  /** No city is listed twice. */
  lemma {:induction false} CitiesDistinct(hs: seq<Entries>)
    ensures forall i, j :: 0 <= i < j < |DistinctCities(hs)| ==> DistinctCities(hs)[i] != DistinctCities(hs)[j]
    decreases |hs|
  {
    if hs != [] {
      CitiesDistinct(hs[..|hs| - 1]);
    }
  }

  /** A listed city is the city of some hotel. */
  lemma {:induction false} CitiesSound(hs: seq<Entries>, c: Value)
    requires c in DistinctCities(hs)
    ensures exists i :: 0 <= i < |hs| && HasCity(hs[i]) && City(hs[i]) == c
    decreases |hs|
  {
    var init := hs[..|hs| - 1];
    if c in DistinctCities(init) {
      CitiesSound(init, c);
      var i :| 0 <= i < |init| && HasCity(init[i]) && City(init[i]) == c;
      assert hs[i] == init[i];
    } else {
      assert HasCity(hs[|hs| - 1]) && City(hs[|hs| - 1]) == c;
    }
  }

  /** The city of every hotel that has one is listed. */
  lemma {:induction false} CitiesCover(hs: seq<Entries>, i: nat)
    requires i < |hs| && HasCity(hs[i])
    ensures City(hs[i]) in DistinctCities(hs)
    decreases |hs|
  {
    var init := hs[..|hs| - 1];
    if i < |init| {
      assert init[i] == hs[i];
      CitiesCover(init, i);
    }
  }

  /** A value is listed exactly when some hotel has it as its city. */
  lemma CitiesComplete(hs: seq<Entries>, c: Value)
    ensures c in DistinctCities(hs) <==> exists i :: 0 <= i < |hs| && HasCity(hs[i]) && City(hs[i]) == c
  {
    if c in DistinctCities(hs) {
      CitiesSound(hs, c);
    }
    if exists i :: 0 <= i < |hs| && HasCity(hs[i]) && City(hs[i]) == c {
      var i :| 0 <= i < |hs| && HasCity(hs[i]) && City(hs[i]) == c;
      CitiesCover(hs, i);
    }
  }

  /** Every LOCATED_IN link comes from a hotel that has a city. */
  lemma {:induction false} LocatedFrom(hs: seq<Entries>, num: real -> string, k: nat)
    requires k < |LocatedIn(hs, num)|
    ensures exists i :: 0 <= i < |hs| && HasCity(hs[i]) && LocatedIn(hs, num)[k] == LocatedRel(hs[i], num)
    decreases |hs|
  {
    var init := hs[..|hs| - 1];
    if k < |LocatedIn(init, num)| {
      LocatedFrom(init, num, k);
      var i :| 0 <= i < |init| && HasCity(init[i]) && LocatedIn(init, num)[k] == LocatedRel(init[i], num);
      assert hs[i] == init[i];
    } else {
      assert LocatedIn(hs, num)[k] == LocatedRel(hs[|hs| - 1], num);
    }
  }

  /** Each hotel adds one link if it has a city, none otherwise. */
  lemma LocatedStep(hs: seq<Entries>, num: real -> string)
    requires hs != []
    ensures |LocatedIn(hs, num)| == |LocatedIn(hs[..|hs| - 1], num)| + if HasCity(hs[|hs| - 1]) then 1 else 0
  {
  }

  lemma {:induction false} LocatedBound(hs: seq<Entries>, num: real -> string)
    ensures |LocatedIn(hs, num)| <= |hs|
    decreases |hs|
  {
    if hs != [] {
      LocatedStep(hs, num);
      LocatedBound(hs[..|hs| - 1], num);
    }
  }

  /** A hotel without a city leaves a hotel unlinked. */
  lemma {:induction false} LocatedMisses(hs: seq<Entries>, num: real -> string, i: nat)
    requires i < |hs| && !HasCity(hs[i])
    ensures |LocatedIn(hs, num)| < |hs|
    decreases |hs|
  {
    var init := hs[..|hs| - 1];
    LocatedStep(hs, num);
    if i < |init| {
      assert init[i] == hs[i];
      LocatedMisses(init, num, i);
    } else {
      LocatedBound(init, num);
    }
  }

  /** When every hotel has a city, every hotel is linked. */
  lemma {:induction false} LocatedAll(hs: seq<Entries>, num: real -> string)
    requires forall i :: 0 <= i < |hs| ==> HasCity(hs[i])
    ensures |LocatedIn(hs, num)| == |hs|
    decreases |hs|
  {
    if hs != [] {
      var init := hs[..|hs| - 1];
      assert forall i :: 0 <= i < |init| ==> init[i] == hs[i];
      LocatedStep(hs, num);
      LocatedAll(init, num);
    }
  }

  /** There is one LOCATED_IN link per hotel with a city, and no more. */
  lemma LocatedCount(hs: seq<Entries>, num: real -> string)
    ensures |LocatedIn(hs, num)| <= |hs|
    ensures |LocatedIn(hs, num)| == |hs| <==> forall i :: 0 <= i < |hs| ==> HasCity(hs[i])
  {
    LocatedBound(hs, num);
    if forall i :: 0 <= i < |hs| ==> HasCity(hs[i]) {
      LocatedAll(hs, num);
    } else {
      var i :| 0 <= i < |hs| && !HasCity(hs[i]);
      LocatedMisses(hs, num, i);
    }
  }

  /** The city nodes follow the hotel nodes. */
  lemma CityNodeAt(hotels: seq<Entries>, num: real -> string, c: nat)
    requires c < |DistinctCities(hotels)|
    ensures Nodes(hotels, num)[|Take(hotels, HotelLimit)| + c] == CityNode(DistinctCities(hotels)[c], num)
  {
  }

  lemma CityNodeId(c: Value, num: real -> string)
    ensures Lookup(CityNode(c, num), "id") == Some(CityId(c, num))
  {
  }

  lemma LocatedRelTo(h: Entries, num: real -> string)
    ensures Lookup(LocatedRel(h, num), "to") == Some(CityId(City(h), num))
  {
    var e := LocatedRel(h, num);
    assert e[0].0 != "to";
    assert e[1..][0] == ("to", CityId(City(h), num));
  }

  /**
   * Every LOCATED_IN link points at the id of a city node of the same
   * graph: the hotels that are linked are among those whose cities are
   * drawn.
   */
  lemma LinksReachCities(hotels: seq<Entries>, reviews: seq<Entries>, num: real -> string, k: nat)
    requires k < |LocatedIn(Take(hotels, HotelLimit), num)|
    ensures exists j :: (|Take(hotels, HotelLimit)| <= j < |Nodes(hotels, num)| &&
      Lookup(Nodes(hotels, num)[j], "id") == Lookup(Relationships(hotels, reviews, num)[k], "to"))
  {
    var first := Take(hotels, HotelLimit);
    LocatedFrom(first, num, k);
    var i :| 0 <= i < |first| && HasCity(first[i]) && LocatedIn(first, num)[k] == LocatedRel(first[i], num);
    LocatedRelTo(first[i], num);
    assert Lookup(Relationships(hotels, reviews, num)[k], "to") == Some(CityId(City(first[i]), num));
    assert first[i] == hotels[i];
    CitiesCover(hotels, i);
    var cities := DistinctCities(hotels);
    var c :| 0 <= c < |cities| && cities[c] == City(hotels[i]);
    CityNodeAt(hotels, num, c);
    CityNodeId(cities[c], num);
    assert Lookup(Nodes(hotels, num)[|first| + c], "id") == Some(CityId(City(first[i]), num));
  }

  /** Looking up the key of the third entry when the first two have other keys. */
  lemma LookupThird<V>(a: (string, V), b: (string, V), c: (string, V), rest: seq<(string, V)>, k: string)
    requires a.0 != k && b.0 != k && c.0 == k
    ensures Lookup([a, b, c] + rest, k) == Some(c.1)
  {
    var e0 := [a, b, c] + rest;
    var e1 := [b, c] + rest;
    var e2 := [c] + rest;
    assert e0[0] == a && e0[1..] == e1;
    assert e1[0] == b && e1[1..] == e2;
    assert e2[0] == c;
    assert Lookup(e2, k) == Some(c.1);
    assert Lookup(e1, k) == Lookup(e2, k);
  }

  lemma HotelNodeType(h: Entries, idx: nat)
    ensures Lookup(HotelNode(h, idx), "type") == Some(Str("Hotel"))
  {
  }

  lemma CityNodeType(c: Value, num: real -> string)
    ensures Lookup(CityNode(c, num), "type") == Some(Str("City"))
  {
  }

  lemma LocatedRelType(h: Entries, num: real -> string)
    ensures Lookup(LocatedRel(h, num), "type") == Some(Str("LOCATED_IN"))
  {
    var e := LocatedRel(h, num);
    assert "from" != "type" by { assert "from"[0] == 'f' && "type"[0] == 't'; }
    LookupThird(e[0], e[1], e[2], [], "type");
    assert e == [e[0], e[1], e[2]] + [];
  }

  lemma ReviewRelType(r: Entries, idx: nat)
    ensures Lookup(ReviewRel(r, idx), "type") == Some(Str("REVIEWS"))
  {
    var e := ReviewRel(r, idx);
    assert "from" != "type" by { assert "from"[0] == 'f' && "type"[0] == 't'; }
    LookupThird(e[0], e[1], e[2], [e[3]], "type");
    assert e == [e[0], e[1], e[2]] + [e[3]];
  }

  /** The first nodes are the hotels' (at most 20), one per hotel; the rest are one per city. */
  lemma NodesShape(hotels: seq<Entries>, num: real -> string)
    ensures var m := |Take(hotels, HotelLimit)|;
      && m <= HotelLimit
      && |Nodes(hotels, num)| == m + |DistinctCities(hotels)|
      && forall i :: 0 <= i < |Nodes(hotels, num)| ==>
           Lookup(Nodes(hotels, num)[i], "type") == Some(Str(if i < m then "Hotel" else "City"))
  {
    var first := Take(hotels, HotelLimit);
    var ns := Nodes(hotels, num);
    var cities := DistinctCities(hotels);
    forall i | 0 <= i < |ns|
      ensures Lookup(ns[i], "type") == Some(Str(if i < |first| then "Hotel" else "City"))
    {
      if i < |first| {
        assert ns[i] == HotelNode(first[i], i);
        HotelNodeType(first[i], i);
      } else {
        assert ns[i] == CityNode(cities[i - |first|], num);
        CityNodeType(cities[i - |first|], num);
      }
    }
  }

  /**
   * The first links are LOCATED_IN, one per drawn hotel with a city; the
   * rest are REVIEWS, one per review; there are at most 30.
   */
  lemma RelationshipsShape(hotels: seq<Entries>, reviews: seq<Entries>, num: real -> string)
    requires |reviews| <= ReviewLimit
    ensures var l := |LocatedIn(Take(hotels, HotelLimit), num)|;
      && l <= HotelLimit
      && |Relationships(hotels, reviews, num)| == l + |reviews| <= HotelLimit + ReviewLimit
      && forall i :: 0 <= i < |Relationships(hotels, reviews, num)| ==>
           Lookup(Relationships(hotels, reviews, num)[i], "type") == Some(Str(if i < l then "LOCATED_IN" else "REVIEWS"))
  {
    var first := Take(hotels, HotelLimit);
    var located := LocatedIn(first, num);
    var rs := Relationships(hotels, reviews, num);
    LocatedCount(first, num);
    forall i | 0 <= i < |rs|
      ensures Lookup(rs[i], "type") == Some(Str(if i < |located| then "LOCATED_IN" else "REVIEWS"))
    {
      if i < |located| {
        LocatedFrom(first, num, i);
        var j :| 0 <= j < |first| && HasCity(first[j]) && located[i] == LocatedRel(first[j], num);
        assert rs[i] == located[i];
        LocatedRelType(first[j], num);
      } else {
        assert rs[i] == ReviewRel(reviews[i - |located|], i - |located|);
        ReviewRelType(reviews[i - |located|], i - |located|);
      }
    }
  }
}
