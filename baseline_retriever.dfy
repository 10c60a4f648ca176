/**
 * The baseline retriever: the intent and the extracted entities choose
 * one Cypher template and its parameters, or no query at all. Running the
 * query is the database's business (`run_query` is a parameter).
 */
module BaselineRetriever {
  import opened Wrappers
  import opened PyValue

  /**
   * The `$`-placeholders of the templates of the template library, by
   * template name.
   */
  function Placeholders(template: string): Option<set<string>>
  {
    if template == "hotel_search_by_city" then Some({"city", "limit"})
    else if template == "hotel_search_by_country" then Some({"country", "limit"})
    else if template == "hotel_search_min_rating" then Some({"rating", "limit"})
    else if template == "hotel_reviews_by_name" then Some({"hotel", "limit"})
    else if template == "hotel_reviews_by_id" then Some({"hotel_id", "limit"})
    else if template == "recommend_hotels_by_traveller_type" then Some({"traveller_type", "limit"})
    else if template == "visa_requirements" then Some({"from", "to"})
    else if template == "hotel_by_name_substring" then Some({"q", "limit"})
    else if template == "top_hotels" then Some({"limit"})
    else if template == "hotel_details_by_id" then Some({"hotel_id"})
    else None
  }

  /** What `retrieve` does: run one template with its parameters, return `[]`, or raise. */
  datatype Dispatch = NoQuery | RunQuery(template: string, params: Entries) | Raises

  /**
   * `v[0]` for a truthy value: the first element of a list or the first
   * character of a string; indexing anything else by 0 raises.
   */
  function First(v: Value): (r: Option<Value>)
    ensures v.List? && |v.items| > 0 ==> r == Some(v.items[0])
  {
    match v
    case List(xs) => if |xs| > 0 then Some(xs[0]) else None
    case Str(s) => if |s| > 0 then Some(Str(s[..1])) else None
    case _ => None
  }

  /** A query with the first element of `v` under `key` and the limit. */
  function RunFirst(template: string, key: string, v: Value, limit: int): Dispatch
  {
    match First(v)
    case Some(x) => RunQuery(template, [(key, x), ("limit", Num(limit as real))])
    case None => Raises
  }

  function TopHotels(limit: int): Dispatch
  {
    RunQuery("top_hotels", [("limit", Num(limit as real))])
  }

  /** `intent or "generic_qa"` */
  function IntentOrDefault(intent: Option<string>): string
  {
    if intent.Some? && intent.value != "" then intent.value else "generic_qa"
  }

  /**
   * `BaselineRetriever.retrieve` up to `run_query`. The entities are a
   * dictionary or `None`; a missing dictionary behaves as `{}`. Every
   * query run is a template of the library, and the parameters supplied
   * are exactly its placeholders, each once.
   */
  function Route(intent: Option<string>, entities: Option<Entries>, limit: int): (d: Dispatch)
    ensures d.RunQuery? ==> WellFormed(d)
    ensures IntentOrDefault(intent) !in {"hotel_search", "review_query", "recommendation", "visa_query"} ==> d == TopHotels(limit)
  {
    var i := IntentOrDefault(intent);
    var e := if entities.Some? then entities.value else [];
    BranchesWellFormed(e, limit);
    if i == "hotel_search" then HotelSearch(e, limit)
    else if i == "review_query" then ReviewQuery(e, limit)
    else if i == "recommendation" then Recommendation(e, limit)
    else if i == "visa_query" then VisaQuery(e)
    else TopHotels(limit)
  }

  /** The hotel-search branch: city, then country, then rating, then hotel name, then the top hotels. */
  function HotelSearch(e: Entries, limit: int): Dispatch
  {
    if Truthy(Get(e, "cities")) then RunFirst("hotel_search_by_city", "city", Get(e, "cities"), limit)
    else if Truthy(Get(e, "countries")) then RunFirst("hotel_search_by_country", "country", Get(e, "countries"), limit)
    else if Truthy(Get(e, "rating")) then RunQuery("hotel_search_min_rating", [("rating", Get(e, "rating")), ("limit", Num(limit as real))])
    else if Truthy(Get(e, "hotels")) then RunFirst("hotel_by_name_substring", "q", Get(e, "hotels"), limit)
    else TopHotels(limit)
  }

  function ReviewQuery(e: Entries, limit: int): Dispatch
  {
    if Truthy(Get(e, "hotels")) then RunFirst("hotel_reviews_by_name", "hotel", Get(e, "hotels"), limit)
    else NoQuery
  }

  function Recommendation(e: Entries, limit: int): Dispatch
  {
    var t := Get(e, "traveller_type");
    if Truthy(t) then RunQuery("recommend_hotels_by_traveller_type", [("traveller_type", t), ("limit", Num(limit as real))])
    else TopHotels(limit)
  }

  /** The visa branch: `origins[0]` and `dests[0]` when both lists (`or []`) are truthy. */
  function VisaQuery(e: Entries): Dispatch
  {
    var origins := Or(Get(e, "origin_country"), List([]));
    var dests := Or(Get(e, "destination_country"), List([]));
    if Truthy(origins) && Truthy(dests) then
      match (First(origins), First(dests))
      case (Some(o), Some(d)) => RunQuery("visa_requirements", [("from", o), ("to", d)])
      case _ => Raises
    else NoQuery
  }

  /** `retrieve`: the records of the one query run, `[]` without a query, `None` when it raises. */
  function Retrieve(runQuery: (string, Entries) -> seq<Entries>, intent: Option<string>, entities: Option<Entries>, limit: int): (r: Option<seq<Entries>>)
    ensures Route(intent, entities, limit).NoQuery? ==> r == Some([])
    ensures Route(intent, entities, limit).Raises? <==> r.None?
  {
    match Route(intent, entities, limit)
    case NoQuery => Some([])
    case RunQuery(t, p) => Some(runQuery(t, p))
    case Raises => None
  }

  function KeySet(p: Entries): set<string>
  {
    set i | 0 <= i < |p| :: p[i].0
  }

  /** A query of the library whose parameters are exactly its placeholders, each once. */
  predicate WellFormed(d: Dispatch)
    requires d.RunQuery?
  {
    Placeholders(d.template).Some? && KeySet(d.params) == Placeholders(d.template).value && DistinctKeys(d.params)
  }

  lemma PairParams(template: string, k1: string, v1: Value, k2: string, v2: Value)
    requires k1 != k2 && Placeholders(template) == Some({k1, k2})
    ensures WellFormed(RunQuery(template, [(k1, v1), (k2, v2)]))
  {
    var p := [(k1, v1), (k2, v2)];
    assert KeySet(p) == {k1, k2} by {
      assert p[0].0 == k1 && p[1].0 == k2;
    }
  }

  lemma SingleParam(template: string, k: string, v: Value)
    requires Placeholders(template) == Some({k})
    ensures WellFormed(RunQuery(template, [(k, v)]))
  {
    var p := [(k, v)];
    assert KeySet(p) == {k} by {
      assert p[0].0 == k;
      assert forall x :: x in KeySet(p) ==> x == k;
    }
  }

  lemma RunFirstWellFormed(template: string, key: string, v: Value, limit: int)
    requires key != "limit" && Placeholders(template) == Some({key, "limit"})
    ensures RunFirst(template, key, v, limit).RunQuery? ==> WellFormed(RunFirst(template, key, v, limit))
  {
    if First(v).Some? {
      PairParams(template, key, First(v).value, "limit", Num(limit as real));
    }
  }

  /** Every branch of `retrieve` that runs a query supplies exactly its template's placeholders. */
  lemma BranchesWellFormed(e: Entries, limit: int)
    ensures HotelSearch(e, limit).RunQuery? ==> WellFormed(HotelSearch(e, limit))
    ensures ReviewQuery(e, limit).RunQuery? ==> WellFormed(ReviewQuery(e, limit))
    ensures Recommendation(e, limit).RunQuery? ==> WellFormed(Recommendation(e, limit))
    ensures VisaQuery(e).RunQuery? ==> WellFormed(VisaQuery(e))
    ensures WellFormed(TopHotels(limit))
  {
    OtherTemplates();
    SingleParam("top_hotels", "limit", Num(limit as real));
    if HotelSearch(e, limit).RunQuery? {
      HotelSearchWellFormed(e, limit);
    }
    RunFirstWellFormed("hotel_reviews_by_name", "hotel", Get(e, "hotels"), limit);
    PairParams("recommend_hotels_by_traveller_type", "traveller_type", Get(e, "traveller_type"), "limit", Num(limit as real));
    var origins := Or(Get(e, "origin_country"), List([]));
    var dests := Or(Get(e, "destination_country"), List([]));
    if First(origins).Some? && First(dests).Some? {
      PairParams("visa_requirements", "from", First(origins).value, "to", First(dests).value);
    }
  }

  lemma HotelSearchWellFormed(e: Entries, limit: int)
    requires HotelSearch(e, limit).RunQuery?
    ensures WellFormed(HotelSearch(e, limit))
  {
    var lim := Num(limit as real);
    HotelSearchTemplates();
    if Truthy(Get(e, "cities")) {
      RunFirstWellFormed("hotel_search_by_city", "city", Get(e, "cities"), limit);
    } else if Truthy(Get(e, "countries")) {
      RunFirstWellFormed("hotel_search_by_country", "country", Get(e, "countries"), limit);
    } else if Truthy(Get(e, "rating")) {
      PairParams("hotel_search_min_rating", "rating", Get(e, "rating"), "limit", lim);
    } else if Truthy(Get(e, "hotels")) {
      RunFirstWellFormed("hotel_by_name_substring", "q", Get(e, "hotels"), limit);
    } else {
      SingleParam("top_hotels", "limit", lim);
    }
  }

  /** The placeholders of the templates of the hotel-search branch. */
  lemma HotelSearchTemplates()
    ensures Placeholders("hotel_search_by_city") == Some({"city", "limit"})
    ensures Placeholders("hotel_search_by_country") == Some({"country", "limit"})
    ensures Placeholders("hotel_search_min_rating") == Some({"rating", "limit"})
    ensures Placeholders("hotel_by_name_substring") == Some({"q", "limit"})
    ensures Placeholders("top_hotels") == Some({"limit"})
  {
    CityTemplate();
    CountryTemplate();
    RatingTemplate();
    NameTemplate();
  }

  /** The placeholders of the templates of the other branches. */
  lemma OtherTemplates()
    ensures Placeholders("hotel_reviews_by_name") == Some({"hotel", "limit"})
    ensures Placeholders("recommend_hotels_by_traveller_type") == Some({"traveller_type", "limit"})
    ensures Placeholders("visa_requirements") == Some({"from", "to"})
    ensures Placeholders("top_hotels") == Some({"limit"})
  {
    ReviewsTemplate();
    RecommendTemplate();
    VisaTemplate();
  }

  lemma ReviewsTemplate() ensures Placeholders("hotel_reviews_by_name") == Some({"hotel", "limit"}) { }
  lemma RecommendTemplate() ensures Placeholders("recommend_hotels_by_traveller_type") == Some({"traveller_type", "limit"}) { }
  lemma VisaTemplate() ensures Placeholders("visa_requirements") == Some({"from", "to"}) { }
  lemma CityTemplate() ensures Placeholders("hotel_search_by_city") == Some({"city", "limit"}) { }
  lemma CountryTemplate() ensures Placeholders("hotel_search_by_country") == Some({"country", "limit"}) { }
  lemma RatingTemplate() ensures Placeholders("hotel_search_min_rating") == Some({"rating", "limit"}) { }
  lemma NameTemplate() ensures Placeholders("hotel_by_name_substring") == Some({"q", "limit"}) { }

  /** A falsy intent is routed as "generic_qa", which runs the top-hotels query. */
  lemma FalsyIntentIsGeneric(entities: Option<Entries>, limit: int)
    ensures Route(None, entities, limit) == Route(Some(""), entities, limit) == Route(Some("generic_qa"), entities, limit)
    ensures Route(None, entities, limit) == TopHotels(limit)
  {
  }

  /**
   * A hotel search uses, in this order, the first city, the first
   * country, the rating, the first hotel name; failing all, the top hotels.
   */
  lemma HotelSearchPriority(entities: Entries, limit: int)
    ensures var r := Route(Some("hotel_search"), Some(entities), limit);
      && (Truthy(Get(entities, "cities")) ==> r == RunFirst("hotel_search_by_city", "city", Get(entities, "cities"), limit))
      && (!Truthy(Get(entities, "cities")) && Truthy(Get(entities, "countries")) ==>
            r == RunFirst("hotel_search_by_country", "country", Get(entities, "countries"), limit))
      && (!Truthy(Get(entities, "cities")) && !Truthy(Get(entities, "countries")) && Truthy(Get(entities, "rating")) ==>
            r.RunQuery? && r.template == "hotel_search_min_rating" && r.params[0] == ("rating", Get(entities, "rating")))
      && (!Truthy(Get(entities, "cities")) && !Truthy(Get(entities, "countries")) && !Truthy(Get(entities, "rating")) ==>
            r == (if Truthy(Get(entities, "hotels")) then RunFirst("hotel_by_name_substring", "q", Get(entities, "hotels"), limit)
                  else TopHotels(limit)))
  {
  }

  /** A rating of 0 or `None` is falsy: the search falls through to the hotel name or the top hotels. */
  lemma ZeroRatingFallsThrough(entities: Entries, limit: int)
    requires !Truthy(Get(entities, "cities")) && !Truthy(Get(entities, "countries"))
    requires Get(entities, "rating") == Num(0.0) || Get(entities, "rating") == Null
    ensures var r := Route(Some("hotel_search"), Some(entities), limit);
      r.RunQuery? ==> r.template != "hotel_search_min_rating"
  {
  }

  /** A review question without a hotel runs no query. */
  lemma ReviewNeedsHotel(entities: Entries, limit: int)
    ensures Route(Some("review_query"), Some(entities), limit).NoQuery? <==> !Truthy(Get(entities, "hotels"))
  {
    if Truthy(Get(entities, "hotels")) {
      var h := Get(entities, "hotels");
      assert First(h).Some? ==> Route(Some("review_query"), Some(entities), limit).RunQuery?;
    }
  }

  /** A recommendation uses the traveller type exactly when it is truthy, else the top hotels. */
  lemma RecommendationRoute(entities: Entries, limit: int)
    ensures var r := Route(Some("recommendation"), Some(entities), limit);
      && (Truthy(Get(entities, "traveller_type")) <==> r.template == "recommend_hotels_by_traveller_type")
      && (!Truthy(Get(entities, "traveller_type")) ==> r == TopHotels(limit))
  {
  }

  /** A visa question queries only with both an origin and a destination; otherwise no query. */
  lemma VisaNeedsBoth(entities: Entries, limit: int)
    ensures var r := Route(Some("visa_query"), Some(entities), limit);
      && (r.NoQuery? <==> !Truthy(Get(entities, "origin_country")) || !Truthy(Get(entities, "destination_country")))
      && (r.RunQuery? ==> r.template == "visa_requirements")
  {
  }

  /** Every other intent runs the top-hotels query. */
  lemma OtherIntentsTopHotels(intent: string, entities: Option<Entries>, limit: int)
    requires intent != "" && intent !in {"hotel_search", "review_query", "recommendation", "visa_query"}
    ensures Route(Some(intent), entities, limit) == TopHotels(limit)
  {
  }
}
