/**
 * The entity extractor that combines the others: the language-model
 * extraction first, and on any failure the rule-based extractors — place
 * names from the named-entity recogniser routed into cities and
 * countries, origin and destination, one hotel name, traveller type,
 * demographics and rating.
 */
module EntityExtractor {
  import opened Wrappers
  import opened Text
  import opened PyValue
  import CountryCity
  import HotelMatcher
  import TravellerType
  import Demographics
  import RatingExtractor
  import LlmEntityExtractor

  /** The keys of the rule-based result, in order. */
  const RuleKeys: seq<string> := [
    "cities", "countries", "hotels", "origin_country", "destination_country",
    "traveller_type", "age_group", "gender", "rating"]

  /** The cutoff `match_fuzzy` is called with. */
  const FuzzyCutoff: real := 0.7

  /**
   * What the extractor is built from: the gazetteers, the hotel names
   * (`load_hotels`), the named-entity recogniser's place names for a text
   * (`extract_gpe_entities`, whose set order is the recogniser's), the
   * origin/destination detector, the language-model services and the
   * similarity ratio.
   */
  datatype Extractor = Extractor(
    gazetteer: CountryCity.Gazetteer,
    hotels: seq<string>,
    places: string -> seq<string>,
    originDestination: (string, seq<string>) -> (seq<string>, seq<string>),
    llm: LlmEntityExtractor.Services,
    ratio: (string, string) -> real)

  function OptStr(o: Option<string>): Value
  {
    if o.Some? then Str(o.value) else Null
  }

  function OptNum(o: Option<real>): Value
  {
    if o.Some? then Num(o.value) else Null
  }

  function OptStrList(o: Option<seq<string>>): Value
  {
    if o.Some? then StrList(o.value) else Null
  }

  /** Python truthiness of an optional string. */
  predicate Truthy?(o: Option<string>)
  {
    o.Some? && o.value != ""
  }

  /** The hotel list: the exact match if it is a non-empty name, else the fuzzy one if it is, else none. */
  function HotelList(exact: Option<string>, fuzzy: Option<string>): (r: seq<string>)
    ensures |r| <= 1
    ensures Truthy?(exact) ==> r == [exact.value]
    ensures !Truthy?(exact) ==> r == (if Truthy?(fuzzy) then [fuzzy.value] else [])
  {
    if Truthy?(exact) then [exact.value]
    else if Truthy?(fuzzy) then [fuzzy.value]
    else []
  }

  /** The traveller type, overridden by "group" when two or more genders were found. */
  function TravellerOf(stated: Option<string>, gender: Option<seq<string>>): (r: Option<string>)
    ensures gender.Some? && |gender.value| >= 2 ==> r == Some(TravellerType.Group)
    ensures !(gender.Some? && |gender.value| >= 2) ==> r == stated
  {
    if gender.Some? && |gender.value| >= 2 then Some(TravellerType.Group) else stated
  }

  /** The dictionary the rule-based path returns, given its parts. */
  function RuleDict(cities: seq<string>, countries: seq<string>, hotels: seq<string>,
                    origin: seq<string>, destination: seq<string>, traveller: Option<string>,
                    ageGroup: Option<string>, gender: Option<seq<string>>, rating: Option<real>): (r: Entries)
    ensures Keys(r) == RuleKeys
  {
    [("cities", StrList(cities)), ("countries", StrList(countries)), ("hotels", StrList(hotels)),
     ("origin_country", StrList(origin)), ("destination_country", StrList(destination)),
     ("traveller_type", OptStr(traveller)), ("age_group", OptStr(ageGroup)),
     ("gender", OptStrList(gender)), ("rating", OptNum(rating))]
  }

  /** Step 4 of the rule-based path: the exact match, else the fuzzy match. */
  function Hotels(ex: Extractor, text: string): seq<string>
  {
    HotelList(HotelMatcher.ExactMatch(ex.hotels, text), HotelMatcher.FuzzyBest(ex.hotels, text, FuzzyCutoff, ex.ratio).1)
  }

  /** What the rule-based path of `extract` returns. */
  function RuleBased(ex: Extractor, text: string): Entries
  {
    var gpes := ex.places(text);
    var od := ex.originDestination(text, gpes);
    var gender := Demographics.Genders(text);
    RuleDict(
      CountryCity.CitiesOf(ex.gazetteer, gpes), CountryCity.CountriesOf(ex.gazetteer, gpes),
      Hotels(ex, text), od.0, od.1,
      TravellerOf(TravellerType.ExtractTravellerType(text), gender),
      Demographics.ExtractAge(text), gender, RatingExtractor.Rating(text))
  }

  /** A string value that reads "null" in any case. */
  predicate IsNullString(v: Value)
  {
    v.Str? && Lower(v.s) == "null"
  }

  /**
   * The language-model path of `extract`: `None` when it raises — no API
   * key, or a result `UseLlmResult` rejects.
   */
  function LlmPath(ex: Extractor, text: string): (r: Option<Value>)
  {
    match LlmEntityExtractor.ExtractWithLlm(ex.llm, text)
    case Err(_) => None
    case Ok(v) => UseLlmResult(v)
  }

  /**
   * What `extract` does with the language model's result: `None` (it
   * raises) when the result is not a dictionary (indexing a string or a
   * list by a key raises) or has no "age_group"; otherwise the same keys
   * and values, except that an "age_group" that is the string "null" in
   * any case becomes `None`.
   */
  function UseLlmResult(v: Value): (r: Option<Value>)
    ensures r.Some? <==> v.Dict? && "age_group" in Keys(v.entries)
    ensures r.Some? ==>
      && r.value.Dict? && Keys(r.value.entries) == Keys(v.entries)
      && Lookup(r.value.entries, "age_group").Some? && !IsNullString(Lookup(r.value.entries, "age_group").value)
      && (forall k :: k != "age_group" ==> Lookup(r.value.entries, k) == Lookup(v.entries, k))
      && (!IsNullString(Lookup(v.entries, "age_group").value) ==> r.value == v)
  {
    if !v.Dict? then None
    else
      match Lookup(v.entries, "age_group")
      case None => None
      case Some(age) =>
        if IsNullString(age) then
          PutKeepsKeys(v.entries, "age_group", Null);
          Some(Dict(Put(v.entries, "age_group", Null)))
        else Some(v)
  }

  /**
   * What `extract(text, use_llm)` returns: always a dictionary with an
   * age group; the rule-based one, with its nine keys, unless the language
   * model was asked for and its result was used.
   */
  function Extract(ex: Extractor, text: string, useLlm: bool): (r: Value)
    ensures r.Dict? && "age_group" in Keys(r.entries)
    ensures !(useLlm && LlmPath(ex, text).Some?) ==> r == Dict(RuleBased(ex, text)) && Keys(r.entries) == RuleKeys
  {
    if useLlm && LlmPath(ex, text).Some? then LlmPath(ex, text).value
    else Dict(RuleBased(ex, text))
  }

  /**
   * `extract`: the language-model path when asked for and successful,
   * else the rule-based extractors in order.
   */
  method ExtractEntitiesWith(ex: Extractor, text: string, useLlm: bool) returns (r: Value)
    ensures r == Extract(ex, text, useLlm)
  {
    if useLlm {
      var llm := LlmPath(ex, text);
      if llm.Some? {
        return llm.value;
      }
    }
    var es := RuleBasedExtract(ex, text);
    r := Dict(es);
  }

  /** The rule-based path of `extract`. */
  method RuleBasedExtract(ex: Extractor, text: string) returns (r: Entries)
    ensures r == RuleBased(ex, text)
  {
    var gpes := ex.places(text);
    var cities, countries := CountryCity.Classify(ex.gazetteer, gpes);
    var od := ex.originDestination(text, gpes);
    var hotels := FindHotels(ex, text);
    var travellerType, ageGroup, gender := FindPeople(text);
    var rating := RatingExtractor.ExtractRating(text);
    r := RuleDict(cities, countries, hotels, od.0, od.1, travellerType, ageGroup, gender, rating);
  }

  /** `match_exact` and `match_fuzzy` are both called; the exact match is preferred. */
  method FindHotels(ex: Extractor, text: string) returns (hotels: seq<string>)
    ensures hotels == Hotels(ex, text)
  {
    var exact := HotelMatcher.MatchExact(ex.hotels, text);
    var fuzzy := HotelMatcher.MatchFuzzy(ex.hotels, text, FuzzyCutoff, ex.ratio);
    hotels := PickHotel(exact, fuzzy);
  }

  /** `hotels = []`, then the exact match appended if it is a name, else the fuzzy one if it is. */
  method PickHotel(exact: Option<string>, fuzzy: Option<string>) returns (hotels: seq<string>)
    ensures hotels == HotelList(exact, fuzzy)
  {
    hotels := [];
    if Truthy?(exact) {
      hotels := hotels + [exact.value];
    } else if Truthy?(fuzzy) {
      hotels := hotels + [fuzzy.value];
    }
  }

  /** Steps 5 and 6 of the rule-based path: traveller type, age group and genders, two genders making a group. */
  method FindPeople(text: string) returns (travellerType: Option<string>, ageGroup: Option<string>, gender: Option<seq<string>>)
    ensures gender == Demographics.Genders(text)
    ensures ageGroup == Demographics.ExtractAge(text)
    ensures travellerType == TravellerOf(TravellerType.ExtractTravellerType(text), gender)
  {
    travellerType := TravellerType.ExtractTravellerType(text);
    ageGroup := Demographics.ExtractAge(text);
    gender := Demographics.ExtractGender(text);
    if gender.Some? && |gender.value| >= 2 {
      travellerType := Some(TravellerType.Group);
    }
  }

  /** `extract_entities`: the shared extractor with the language model enabled. */
  method ExtractEntities(ex: Extractor, text: string) returns (r: Value)
    ensures r == Extract(ex, text, true)
  {
    r := ExtractEntitiesWith(ex, text, true);
  }

  /**
   * A language-model result that is a dictionary is used, with the same
   * keys and values except that an age group reading "null" is `None`.
   */
  lemma LlmDictUsed(ex: Extractor, text: string)
    requires LlmEntityExtractor.ExtractWithLlm(ex.llm, text).Ok?
    requires LlmEntityExtractor.ExtractWithLlm(ex.llm, text).value.Dict?
    ensures var r := Extract(ex, text, true); var es := LlmEntityExtractor.ExtractWithLlm(ex.llm, text).value.entries;
      && r.Dict? && Keys(r.entries) == Keys(es)
      && Lookup(r.entries, "age_group").Some? && !IsNullString(Lookup(r.entries, "age_group").value)
      && forall k :: k != "age_group" ==> Lookup(r.entries, k) == Lookup(es, k)
  {
    var v := LlmEntityExtractor.ExtractWithLlm(ex.llm, text).value;
    assert "age_group" in Keys(v.entries) by {
      LlmEntityExtractor.ExtractWithLlmShape(ex.llm, text);
      assert "age_group" in LlmEntityExtractor.ResultKeys;
    }
    assert LlmPath(ex, text) == UseLlmResult(v);
  }

  /**
   * Everything else — no API key, or a result that is a string or a list —
   * falls back to the rule-based extractors.
   */
  lemma LlmFallback(ex: Extractor, text: string)
    requires !(LlmEntityExtractor.ExtractWithLlm(ex.llm, text).Ok? && LlmEntityExtractor.ExtractWithLlm(ex.llm, text).value.Dict?)
    ensures Extract(ex, text, true) == Dict(RuleBased(ex, text))
  {
  }

  /** Without the language model the rule-based result is returned, with its nine keys. */
  lemma RulesWithoutLlm(ex: Extractor, text: string)
    ensures Extract(ex, text, false) == Dict(RuleBased(ex, text))
    ensures Keys(RuleBased(ex, text)) == RuleKeys
  {
  }

  /**
   * The hotels entry holds at most one name: the exact match when it is a
   * non-empty name, else the fuzzy match when it is one.
   */
  lemma OneHotel(ex: Extractor, text: string)
    ensures var exact := HotelMatcher.ExactMatch(ex.hotels, text);
      var fuzzy := HotelMatcher.FuzzyBest(ex.hotels, text, FuzzyCutoff, ex.ratio).1;
      && |Hotels(ex, text)| <= 1
      && (Truthy?(exact) ==> Hotels(ex, text) == [exact.value])
      && (!Truthy?(exact) && Truthy?(fuzzy) ==> Hotels(ex, text) == [fuzzy.value])
      && (!Truthy?(exact) && !Truthy?(fuzzy) ==> Hotels(ex, text) == [])
  {
  }

  /** Two detected genders make the traveller type "group", whatever the phrases said. */
  lemma GendersMakeGroup(ex: Extractor, text: string)
    requires Demographics.Genders(text).Some? && |Demographics.Genders(text).value| >= 2
    ensures RuleBased(ex, text)[5].1 == Str("group")
  {
  }
}
