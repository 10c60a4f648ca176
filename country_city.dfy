/**
 * Routing place names into cities and countries. The gazetteers (the
 * geonames city and country names, the ISO country table, the fuzzy
 * country search and the close-match city search) are data and oracles;
 * the order of the checks and the routing loop are modelled.
 */
module CountryCity {
  import opened Wrappers
  import opened Text

  /**
   * The lookups the classifier is built from. `fuzzyCountry` is the ISO
   * table's fuzzy search, whose empty result stands for its LookupError;
   * `closeCity` says whether some city name is a close match (ratio at
   * least 0.9) of a lower-cased name.
   */
  datatype Gazetteer = Gazetteer(
    cityNames: set<string>,
    closeCity: string -> bool,
    isoNames: map<string, string>,
    fuzzyCountry: string -> seq<string>,
    geoCountryNames: seq<string>)

  /** `is_city`: the lower-cased, stripped name is a city name or close to one. */
  predicate IsCity(g: Gazetteer, name: string)
  {
    var low := Strip(Lower(name));
    low in g.cityNames || g.closeCity(low)
  }

  /** The geonames country names, lower-cased (`country_names_gc`). */
  predicate IsGeoCountry(g: Gazetteer, low: string)
  {
    exists k :: 0 <= k < |g.geoCountryNames| && Lower(g.geoCountryNames[k]) == low
  }

  /**
   * `is_country`: a name that is already lower-case and stripped is
   * rejected; otherwise an exact ISO name, a fuzzy ISO hit or a geonames
   * country name.
   */
  function IsCountry(g: Gazetteer, name: string): (r: bool)
    ensures name == Strip(Lower(name)) ==> !r
    ensures var low := Strip(Lower(name));
      r <==> (name != low && (low in g.isoNames || g.fuzzyCountry(low) != [] || IsGeoCountry(g, low)))
  {
    var low := Strip(Lower(name));
    if name == low then false
    else if low in g.isoNames then true
    else if g.fuzzyCountry(low) != [] then true
    else IsGeoCountry(g, low)
  }

  /** The first geonames country whose lower-cased name is `low`. */
  function FirstGeoCountry(names: seq<string>, low: string): (r: Option<string>)
    ensures r.Some? ==> r.value in names && Lower(r.value) == low
    ensures r.None? <==> forall k :: 0 <= k < |names| ==> Lower(names[k]) != low
  {
    if names == [] then None
    else if Lower(names[0]) == low then Some(names[0])
    else
      assert forall k :: 0 < k < |names| ==> names[k] == names[1..][k - 1];
      FirstGeoCountry(names[1..], low)
  }

  /**
   * `canonical_country_name`: the title-cased stripped name is looked up
   * by fuzzy search (its first hit), then exactly in the ISO table, then
   * among the geonames countries; failing all, it is returned as it is.
   */
  function CanonicalCountryName(g: Gazetteer, name: string): (r: string)
    ensures var clean := Title(Strip(name));
      && (g.fuzzyCountry(clean) != [] ==> r == g.fuzzyCountry(clean)[0])
      && (g.fuzzyCountry(clean) == [] && Lower(clean) in g.isoNames ==> r == g.isoNames[Lower(clean)])
      && (g.fuzzyCountry(clean) == [] && Lower(clean) !in g.isoNames ==>
            (r == clean || (r in g.geoCountryNames && Lower(r) == Lower(clean))))
  {
    var clean := Title(Strip(name));
    var matches := g.fuzzyCountry(clean);
    if matches != [] then matches[0]
    else if Lower(clean) in g.isoNames then g.isoNames[Lower(clean)]
    else
      match FirstGeoCountry(g.geoCountryNames, Lower(clean))
      case Some(c) => c
      case None => clean
  }

  /** The images under `f` of the names that `keep` accepts, in order. */
  function Select(keep: string -> bool, f: string -> string, names: seq<string>): (r: seq<string>)
    ensures |r| <= |names|
    decreases |names|
  {
    if names == [] then []
    else
      var prev := Select(keep, f, names[..|names| - 1]);
      var last := names[|names| - 1];
      if keep(last) then prev + [f(last)] else prev
  }

  /** Everything selected is the image of an accepted name. */
  lemma {:induction false} SelectFrom(keep: string -> bool, f: string -> string, names: seq<string>)
    ensures forall x :: x in Select(keep, f, names) ==> exists n :: n in names && keep(n) && x == f(n)
    decreases |names|
  {
    if names != [] {
      var p := names[..|names| - 1];
      SelectFrom(keep, f, p);
      assert forall n :: n in p ==> n in names;
    }
  }

  /** Every accepted name contributes its image. */
  lemma {:induction false} SelectHas(keep: string -> bool, f: string -> string, names: seq<string>, k: nat)
    requires k < |names| && keep(names[k])
    ensures f(names[k]) in Select(keep, f, names)
    decreases |names|
  {
    if k < |names| - 1 {
      var p := names[..|names| - 1];
      assert p[k] == names[k];
      SelectHas(keep, f, p, k);
    }
  }

  /** Selecting from a concatenation selects from each part in turn. */
  lemma {:induction false} SelectAppend(keep: string -> bool, f: string -> string, a: seq<string>, b: seq<string>)
    ensures Select(keep, f, a + b) == Select(keep, f, a) + Select(keep, f, b)
    decreases |b|
  {
    if b != [] {
      var b' := b[..|b| - 1];
      assert (a + b)[..|a + b| - 1] == a + b';
      SelectAppend(keep, f, a, b');
    } else {
      assert a + b == a;
    }
  }

  /** Selecting from one name. */
  lemma SelectOne(keep: string -> bool, f: string -> string, n: string)
    ensures Select(keep, f, [n]) == if keep(n) then [f(n)] else []
  {
    assert [n][..0] == [];
  }

  /** The test and the conversion of each list. */
  function CityTest(g: Gazetteer): string -> bool { n => IsCity(g, n) }
  function CountryTest(g: Gazetteer): string -> bool { n => !IsCity(g, n) && IsCountry(g, n) }
  function Verbatim(): string -> string { n => n }
  function Canonical(g: Gazetteer): string -> string { n => CanonicalCountryName(g, n) }

  /** The cities of `names`, in order and verbatim. */
  function CitiesOf(g: Gazetteer, names: seq<string>): (r: seq<string>)
    ensures |r| <= |names|
    ensures forall x :: x in r ==> x in names && IsCity(g, x)
  {
    SelectFrom(CityTest(g), Verbatim(), names);
    Select(CityTest(g), Verbatim(), names)
  }

  /** The names of `names` that are countries and not cities, canonicalised, in order. */
  function CountriesOf(g: Gazetteer, names: seq<string>): (r: seq<string>)
    ensures |r| <= |names|
    ensures forall x :: x in r ==> exists n :: n in names && !IsCity(g, n) && IsCountry(g, n) && x == CanonicalCountryName(g, n)
  {
    SelectFrom(CountryTest(g), Canonical(g), names);
    Select(CountryTest(g), Canonical(g), names)
  }

  /** Exactly the names that are neither cities nor countries are dropped: `|cities| + |countries|` counts the rest. */
  function Routed(g: Gazetteer, names: seq<string>): nat
  {
    if names == [] then 0
    else Routed(g, names[..|names| - 1]) + (if IsCity(g, names[|names| - 1]) || IsCountry(g, names[|names| - 1]) then 1 else 0)
  }

  /**
   * `classify`: each name is a city if `is_city` holds (kept verbatim),
   * else a country if `is_country` holds (canonicalised), else dropped.
   */
  method Classify(g: Gazetteer, gpeList: seq<string>) returns (cities: seq<string>, countries: seq<string>)
    ensures cities == CitiesOf(g, gpeList)
    ensures countries == CountriesOf(g, gpeList)
  {
    cities := [];
    countries := [];
    for k := 0 to |gpeList|
      invariant cities == CitiesOf(g, gpeList[..k])
      invariant countries == CountriesOf(g, gpeList[..k])
    {
      var name := gpeList[k];
      assert gpeList[..k + 1][..k] == gpeList[..k];
      if IsCity(g, name) {
        cities := cities + [name];
      } else if IsCountry(g, name) {
        countries := countries + [CanonicalCountryName(g, name)];
      }
    }
    assert gpeList[..|gpeList|] == gpeList;
  }

  /** Every name goes to at most one list: the two lists together hold one entry per routed name. */
  lemma {:induction false} EachNameOnce(g: Gazetteer, names: seq<string>)
    ensures |CitiesOf(g, names)| + |CountriesOf(g, names)| == Routed(g, names)
    ensures Routed(g, names) <= |names|
    decreases |names|
  {
    if names != [] {
      EachNameOnce(g, names[..|names| - 1]);
    }
  }

  /** A city name is routed to the cities even when it is also a country. */
  lemma CityBeforeCountry(g: Gazetteer, names: seq<string>, k: nat)
    requires k < |names| && IsCity(g, names[k])
    ensures names[k] in CitiesOf(g, names)
  {
    SelectHas(CityTest(g), Verbatim(), names, k);
  }

  /** A name that is no city but a country contributes its canonical name. */
  lemma CountryCanonicalised(g: Gazetteer, names: seq<string>, k: nat)
    requires k < |names| && !IsCity(g, names[k]) && IsCountry(g, names[k])
    ensures CanonicalCountryName(g, names[k]) in CountriesOf(g, names)
  {
    SelectHas(CountryTest(g), Canonical(g), names, k);
  }

  /** Routing a concatenation routes each part in turn: the input order is kept. */
  lemma OrderKept(g: Gazetteer, a: seq<string>, b: seq<string>)
    ensures CitiesOf(g, a + b) == CitiesOf(g, a) + CitiesOf(g, b)
    ensures CountriesOf(g, a + b) == CountriesOf(g, a) + CountriesOf(g, b)
  {
    SelectAppend(CityTest(g), Verbatim(), a, b);
    SelectAppend(CountryTest(g), Canonical(g), a, b);
  }

  /** An all-lower-case name that is no city is dropped, whatever the country tables say. */
  lemma LowerCaseNameDropped(g: Gazetteer, name: string)
    requires name == Strip(Lower(name)) && !IsCity(g, name)
    ensures CitiesOf(g, [name]) == [] && CountriesOf(g, [name]) == []
  {
    SelectOne(CityTest(g), Verbatim(), name);
    SelectOne(CountryTest(g), Canonical(g), name);
    assert !CountryTest(g)(name) by { LowerCaseNotCountry(g, name); }
  }

  lemma LowerCaseNotCountry(g: Gazetteer, name: string)
    requires name == Strip(Lower(name))
    ensures !IsCountry(g, name)
  {
  }
}
