# Hotel assistant core, modelled in Dafny

This project models the deterministic core of a Graph-RAG hotel assistant.
A traveller's question is answered in four stages, and the model covers
each of them:

1. **Understanding the question.**
   - The rule-based intent classifier scores every intent by phrases and keywords (`IntentClassifier`).
   - Intent preprocessing falls back to a language model only when the rules reject (`PreprocessIntent`).
   - The language-model label is repaired into the fixed set of six labels (`LlmIntentClassifier`).
2. **Extracting constraints.**
   - The minimum rating (`RatingExtractor`).
   - The traveller type (`TravellerType`).
   - The age group and genders (`Demographics`).
   - Place names routed into cities and countries (`CountryCity`).
   - Exact and fuzzy hotel-name matching (`HotelMatcher`).
   - The language-model entity result: its empty template, filling in missing fields and unfencing the reply (`LlmEntityExtractor`).
   - Combining all of these, with the rule path as fallback (`EntityExtractor`).
3. **Retrieval.**
   - The baseline retriever picks one Cypher template and its parameters, or no query (`BaselineRetriever`).
   - The pipeline merges baseline and embedding results by key, first occurrence winning, and writes the context text (`RetrievalPipeline`).
   - The feature text of a hotel, which is embedded for vector search, is built section by section (`FeatureBuilder`).
4. **Front-end helpers.**
   - Reading the `key=value` configuration file, listing the Cypher queries of a retrieval method, labelling and explaining a query (`AppQueries`).
   - Drawing the knowledge-graph view of the results (`AppKgData`).

Shared modules:
- `PyValue` holds Python values: `None`, booleans, numbers, strings, lists, and dicts in insertion order. It also defines `get`, truthiness, `str` and `repr`.
- `Text` holds the string methods the code uses.
- `Scan` holds the scanners the few regular expressions are built from.
- `Wrappers` defines `Option` and `Result`.

Modelling choices:
- A raised exception is the `None` (or `Failure`) of the operation's result.
- Where the source builds a list or dict in a loop, the model has a `method` with that loop. The method is proved equal to a specification function, and the promised properties are lemmas about that function.
- External engines are function-typed parameters:
  - the graph database's `run_query`;
  - the embedding search;
  - the chat model;
  - `json.loads`;
  - spaCy's recogniser and the origin/destination detector;
  - the gazetteers;
  - difflib's similarity ratio;
  - number formatting.

## Model

| member | source | states |
|---|---|---|
| IntentClassifier.DefaultWellFormed | Graph_RAG/preprocessing/intent_classifier.py:4-30 | the repository's four tables form a well-formed configuration whose intents are, in order, recommendation, booking, visa_query, review_query, hotel_search, generic_qa |
| IntentClassifier.IntentNames | Graph_RAG/preprocessing/intent_classifier.py:4-11 | the keyword table names six distinct intents, in that order |
| IntentClassifier.DominanceNames | Graph_RAG/preprocessing/intent_classifier.py:26-30 | the dominance table names booking, visa_query and recommendation, each once, all intents of the keyword table |
| IntentClassifier.Normalize | Graph_RAG/preprocessing/intent_classifier.py:33-34 | the normalised text holds no upper-case letter and neither starts nor ends with whitespace |
| IntentClassifier.CountHits | Graph_RAG/preprocessing/intent_classifier.py:40-49 | each phrase or keyword counts at most once, however often it occurs |
| IntentClassifier.TimesIsProduct | Graph_RAG/preprocessing/intent_classifier.py:50 | the keyword contribution is the number of keywords present times the intent's weight |
| IntentClassifier.ScoreEntries | Graph_RAG/preprocessing/intent_classifier.py:36-51 | the score dict holds every configured intent, in keyword-table order, with its weighted score (5 per dominance phrase present plus weight times keywords present), none negative |
| IntentClassifier.ScoreEntriesLookup | Graph_RAG/preprocessing/intent_classifier.py:36-51 | looking an intent up in the score dict gives its weighted score |
| IntentClassifier.AllScoresNonNegative | Graph_RAG/preprocessing/intent_classifier.py:37 | with non-negative weights every score is at least 0 |
| IntentClassifier.InitialScores | Graph_RAG/preprocessing/intent_classifier.py:37 | every intent starts at 0.0 |
| IntentClassifier.ApplyDominanceEntry | Graph_RAG/preprocessing/intent_classifier.py:39-43 | one dominance entry adds 5 per phrase present to its intent and changes no other intent |
| IntentClassifier.AddBonuses | Graph_RAG/preprocessing/intent_classifier.py:40-43 | the phrase loop sets the intent to 5 times the number of its phrases present, keeps every other entry and the key order |
| IntentClassifier.CountPresent | Graph_RAG/preprocessing/intent_classifier.py:46-49 | the counting loop returns the number of keywords present |
| IntentClassifier.ApplyKeywordEntry | Graph_RAG/preprocessing/intent_classifier.py:45-50 | one keyword entry adds the weight times its count to its intent and changes no other intent |
| IntentClassifier.DominancePass | Graph_RAG/preprocessing/intent_classifier.py:39-43 | after the dominance loop every intent holds its dominance bonus |
| IntentClassifier.KeywordPass | Graph_RAG/preprocessing/intent_classifier.py:45-50 | after the keyword loop every intent holds its bonus plus its keyword contribution |
| IntentClassifier.KeywordPassDone | Graph_RAG/preprocessing/intent_classifier.py:45-51 | the dict after both loops is the score dict |
| IntentClassifier.ComputeWeightedScores | Graph_RAG/preprocessing/intent_classifier.py:36-51 | the method returns exactly the score dict |
| IntentClassifier.SortDesc | Graph_RAG/preprocessing/intent_classifier.py:73 | the sort is descending and a permutation of the scores |
| IntentClassifier.TopOf | Graph_RAG/preprocessing/intent_classifier.py:73-74 | the top score is at least every score and is attained by some intent |
| IntentClassifier.SecondOf | Graph_RAG/preprocessing/intent_classifier.py:73-75 | the runner-up is between 0 and the top and is attained by some intent |
| IntentClassifier.SecondIsTopIffTie | Graph_RAG/preprocessing/intent_classifier.py:73-75 | the runner-up equals the top exactly when two different intents share the top score |
| IntentClassifier.Winners | Graph_RAG/preprocessing/intent_classifier.py:88 | an intent is a winner exactly when its score equals the top |
| IntentClassifier.FirstIn | Graph_RAG/preprocessing/intent_classifier.py:93-95 | the first priority entry among the winners, or none when no priority entry is a winner |
| IntentClassifier.PickWinner | Graph_RAG/preprocessing/intent_classifier.py:88-97 | the chosen label has the top score; with several winners it is the first of them in priority order |
| IntentClassifier.Decide | Graph_RAG/preprocessing/intent_classifier.py:73-97 | scores and top pass through; fallback exactly when the top is below the threshold or top/(second+1e-9) is below the margin ratio; a fallback gives "unknown"; an accepted label has the top score |
| IntentClassifier.ClassifyRule | Graph_RAG/preprocessing/intent_classifier.py:54-97 | normalise, score, then decide |
| IntentClassifier.ClassifyRuleMeaning | Graph_RAG/preprocessing/intent_classifier.py:54-97 | the scores hold every intent with its weighted score, none above the top; "unknown" exactly with fallback; an accepted intent is configured, has the top score and no fallback |
| IntentClassifier.ClassifyRuleDefault | Graph_RAG/preprocessing/intent_classifier.py:54-58 | with the default threshold an accepted label has a top score of at least 1.0 |
| IntentClassifier.TieIsUnknown | Graph_RAG/preprocessing/intent_classifier.py:82-85 | with a margin ratio of at least 1, a tie at the top always falls back with "unknown" |
| IntentClassifier.PriorityNeedsLowMargin | Graph_RAG/preprocessing/intent_classifier.py:82-95 | the priority tie-break can only decide when the margin ratio is below 1 |
| IntentClassifier.AcceptedBound | Graph_RAG/preprocessing/intent_classifier.py:78-85 | an accepted top score clears the threshold and is at least the margin ratio times the runner-up plus 1e-9 |
| IntentClassifier.EmptyTextScoresZero | Graph_RAG/preprocessing/intent_classifier.py:36-51 | the empty text scores 0 for every intent |
| IntentClassifier.EmptyTextFallsBack | Graph_RAG/preprocessing/intent_classifier.py:78-79 | a text that normalises to "" falls back with "unknown" and top 0 under any positive threshold |
| IntentClassifier.EmptyTextFallsBackByDefault | Graph_RAG/preprocessing/intent_classifier.py:56-79 | with the repository's tables and threshold 1.0 the empty text falls back |
| IntentClassifier.ShowMatches | Graph_RAG/preprocessing/intent_classifier.py:46-48 | of the question words only "how" occurs in "show" |
| IntentClassifier.HotelsMatches | Graph_RAG/preprocessing/intent_classifier.py:46-48 | "hotels" contains the keywords "hotel" and "hotels" and no other hotel_search keyword |
| IntentClassifier.RawSubstringMatching | Graph_RAG/preprocessing/intent_classifier.py:45-50 | matching is by raw substring: "show" scores 0.5 for generic_qa and "hotels" scores 2.0 for hotel_search |
| PreprocessIntent.ClassifyUserIntent | Graph_RAG/preprocessing/preprocess_intent.py:5-43 | the query, scores and top score pass through from the rules; the LLM is used exactly when the rule label is "unknown", a fallback is needed and enabled, and then the source is "llm-fallback" and the label one of the LLM labels; otherwise the rule label is kept with source "rule-based" |
| PreprocessIntent.FallbackExactlyWhenRulesReject | Graph_RAG/preprocessing/preprocess_intent.py:17-43 | the fallback is used exactly when the rules reject and it is enabled; without it the rule label, possibly "unknown", is returned |
| PreprocessIntent.TimeoutIrrelevant | Graph_RAG/preprocessing/preprocess_intent.py:9-43 | the timeout has no effect on the result |
| PreprocessIntent.IntentIsLabelOrUnknown | Graph_RAG/preprocessing/preprocess_intent.py:24-43 | the reported intent is an LLM label, a configured intent or "unknown" |
| PreprocessIntent.AcceptanceBound | Graph_RAG/preprocessing/preprocess_intent.py:5-21 | under the defaults 0.1 and 100 an accepted rule label has a top score of at least 0.1 and at least 100 times the runner-up plus 1e-9 |
| PreprocessIntent.RuleAccepted | Graph_RAG/preprocessing/preprocess_intent.py:26-43 | without the fallback under the defaults, the rules accepted their label and the top score is the maximum |
| PreprocessIntent.ClassifyUserIntentDefault | Graph_RAG/preprocessing/preprocess_intent.py:5-43 | with every default argument and the repository's tables, a result the rules decided has source "rule-based", a top score of at least 0.1 and at least 100 times the runner-up plus 1e-9 |
| LlmIntentClassifier.FirstContained | Graph_RAG/preprocessing/llm_intent_classifier.py:67-70 | the first label, in label order, that is a substring of the lowered reply; none exactly when no label is |
| LlmIntentClassifier.RepairLabel | Graph_RAG/preprocessing/llm_intent_classifier.py:61-72 | the result is always one of the six labels; a stripped reply equal to a label is returned as is; otherwise the first contained label, else "generic_qa" |
| LlmIntentClassifier.ClassifyIntentLlm | Graph_RAG/preprocessing/llm_intent_classifier.py:38-76 | the result is always a label; a missing or empty API key gives "generic_qa" without a call |
| LlmIntentClassifier.LabelsStripped | Graph_RAG/preprocessing/llm_intent_classifier.py:4-11 | no label has surrounding whitespace |
| LlmIntentClassifier.ExactReplyKept | Graph_RAG/preprocessing/llm_intent_classifier.py:61-64 | a reply that is a label padded by any whitespace is repaired to that label |
| LlmIntentClassifier.RepairIdempotent | Graph_RAG/preprocessing/llm_intent_classifier.py:61-72 | repairing a repaired label changes nothing |
| LlmIntentClassifier.SoftMatchExample | Graph_RAG/preprocessing/llm_intent_classifier.py:66-70 | the reply "Booking." is repaired to "booking" by the lower-cased substring search |
| RatingExtractor.StarToRating | Graph_RAG/preprocessing/spacy_extractor.py:262-268 | a star count has a rating exactly when it is 1 to 5, and the rating is 4 plus the count |
| RatingExtractor.HeuristicsContents | Graph_RAG/preprocessing/spacy_extractor.py:270-278 | the dict display iterates six descriptors and the duplicated "average" keeps its first place with the later value 5.0 |
| RatingExtractor.ScaleAt | Graph_RAG/preprocessing/spacy_extractor.py:298-301 | a scale match starts at a digit and its numerator is the number read there |
| RatingExtractor.NormalizeScore | Graph_RAG/preprocessing/spacy_extractor.py:280-289 | no score exactly for a zero denominator; otherwise the score times the denominator is ten times the numerator |
| RatingExtractor.NormalizeScoreExamples | Graph_RAG/preprocessing/spacy_extractor.py:280-287 | a score out of 10 is unchanged, and 4.5 out of 5 becomes 9.0 |
| RatingExtractor.LastDigit | Graph_RAG/preprocessing/spacy_extractor.py:311 | the greedy `.*` ends just before the last digit of the line: the position found is a digit with no digit after it, none exactly when there is no digit |
| RatingExtractor.LinkedAt | Graph_RAG/preprocessing/spacy_extractor.py:311-313 | a number linked to rating/score/minimum is read as a single digit |
| RatingExtractor.ComparisonAtWord | Graph_RAG/preprocessing/spacy_extractor.py:316 | a comparison matches at a position exactly when one of its phrases is followed there by whitespace and a number, never negative |
| RatingExtractor.StarAt | Graph_RAG/preprocessing/spacy_extractor.py:323 | a star cue starts at a digit and gives that digit's value |
| RatingExtractor.DescriptorHits | Graph_RAG/preprocessing/spacy_extractor.py:331-334 | a rating is collected exactly when some descriptor with that rating occurs as a whole word |
| RatingExtractor.MaxOf | Graph_RAG/preprocessing/spacy_extractor.py:340-341 | the maximum is one of the candidates and no candidate is larger |
| RatingExtractor.ExtractRating | Graph_RAG/preprocessing/spacy_extractor.py:291-344 | the method returns the rating of the lower-cased text as the specification function defines it |
| RatingExtractor.PatternCandidates | Graph_RAG/preprocessing/spacy_extractor.py:298-327 | the candidates of the scale, linked, comparison and star patterns, in that order |
| RatingExtractor.AppendMatch | Graph_RAG/preprocessing/spacy_extractor.py:311-318 | a pattern's first match appends its number, no match appends nothing |
| RatingExtractor.AppendStar | Graph_RAG/preprocessing/spacy_extractor.py:323-327 | the leftmost star count is looked up in the table and a count outside it appends nothing |
| RatingExtractor.AddDescriptors | Graph_RAG/preprocessing/spacy_extractor.py:331-334 | the descriptor loop appends the rating of every descriptor present, in table order |
| RatingExtractor.NoneIffNoCue | Graph_RAG/preprocessing/spacy_extractor.py:293-344 | there is no rating exactly when no scale with a non-zero denominator, no linked number, no comparison, no star count 1 to 5 and no descriptor occurs |
| RatingExtractor.RatingIsLargestCue | Graph_RAG/preprocessing/spacy_extractor.py:340-344 | the rating is none exactly when there are no candidates, else a candidate at least as large as every candidate |
| RatingExtractor.LinkedIsOneDigit | Graph_RAG/preprocessing/spacy_extractor.py:311-313 | every candidate of the linked pattern is a single digit |
| RatingExtractor.StarCue | Graph_RAG/preprocessing/spacy_extractor.py:323-327 | a star cue with count N contributes 4+N for N in 1 to 5 and nothing otherwise |
| RatingExtractor.VeryGoodAlsoGood | Graph_RAG/preprocessing/spacy_extractor.py:333 | "very good" as a whole word always brings "good" as a whole word |
| RatingExtractor.VeryGoodGivesEight | Graph_RAG/preprocessing/spacy_extractor.py:331-334 | "very good" contributes both 8.0 and 7.0 |
| RatingExtractor.AverageIsFive | Graph_RAG/preprocessing/spacy_extractor.py:270-278 | the duplicated "average" contributes 5.0, never 6.0 |
| RatingExtractor.LastDigitQuirk | Graph_RAG/preprocessing/spacy_extractor.py:311-318 | in "rating at least 8.5" the linked pattern reads 5.0 and the comparison pattern reads 8.5 |
| TravellerType.FirstCategory | Graph_RAG/preprocessing/spacy_extractor.py:424-444 | the first category, in list order, one of whose phrases occurs; none exactly when no phrase of any category occurs |
| TravellerType.ExtractTravellerType | Graph_RAG/preprocessing/spacy_extractor.py:352-444 | the result is none or one of the five category names; it is the first of solo, family, couple, business, group one of whose patterns is a substring of the lower-cased text, and none when no pattern occurs |
| TravellerType.SoloFirst | Graph_RAG/preprocessing/spacy_extractor.py:424-426 | a solo pattern wins whatever else the text says |
| TravellerType.RawSubstringExample | Graph_RAG/preprocessing/spacy_extractor.py:428-430 | matching is by raw substring: "skids" is a family query |
| TravellerType.InferGroup | Graph_RAG/preprocessing/spacy_extractor.py:402-417 | "group" exactly when there are two or more genders, a plural pronoun followed by a space, or " and " together with a word for a person |
| Demographics.AgeGroup | Graph_RAG/preprocessing/spacy_extractor.py:470-476 | none exactly below 18, then the buckets 18-24, 25-34, 35-44, 45-54 and "55+" |
| Demographics.AgeGroupMonotone | Graph_RAG/preprocessing/spacy_extractor.py:470-476 | a larger age never falls in an earlier bucket |
| Demographics.ShortNumberAt | Graph_RAG/preprocessing/spacy_extractor.py:456-462 | `\d{1,2}` reads one or two digits, two whenever a second digit follows |
| Demographics.StatedAgeAt | Graph_RAG/preprocessing/spacy_extractor.py:456 | a stated age is at most 99 |
| Demographics.RangeAt | Graph_RAG/preprocessing/spacy_extractor.py:462 | both ends of a range are at most 99 |
| Demographics.ExtractAge | Graph_RAG/preprocessing/spacy_extractor.py:452-467 | the leftmost stated age decides alone; otherwise the leftmost range gives the bucket of the floor of the average of its ends; otherwise none |
| Demographics.RangeFloorExample | Graph_RAG/preprocessing/spacy_extractor.py:462-465 | "between 24 and 25" averages to 24 by floor division and lands in "18-24" |
| Demographics.ExtractGender | Graph_RAG/preprocessing/spacy_extractor.py:478-492 | the method returns the genders of the text as the specification function defines them |
| Demographics.GendersShape | Graph_RAG/preprocessing/spacy_extractor.py:478-492 | the result is none or exactly one of ["male"], ["female"], ["male","female"], each word present exactly when one of its whole words occurs; never an empty list |
| Demographics.FemaleOnly | Graph_RAG/preprocessing/spacy_extractor.py:483-487 | by whole-word matching "female" and "woman" each give only ["female"] |
| Demographics.ExtractDemographics | Graph_RAG/preprocessing/spacy_extractor.py:495-499 | the result pairs the age group with the genders |
| CountryCity.IsCountry | Graph_RAG/preprocessing/spacy_extractor.py:74-97 | a name equal to its lowered, stripped form is never a country; otherwise a country exactly when its lowered form is an ISO name, has a fuzzy ISO hit or is a geonames country |
| CountryCity.FirstGeoCountry | Graph_RAG/preprocessing/spacy_extractor.py:67-69 | the first geonames country whose lowered name matches, none exactly when none matches |
| CountryCity.CanonicalCountryName | Graph_RAG/preprocessing/spacy_extractor.py:49-71 | the title-cased stripped name resolves to its first fuzzy hit, else its exact ISO name, else a geonames country of the same lowered name, else itself |
| CountryCity.CitiesOf | Graph_RAG/preprocessing/spacy_extractor.py:118-120 | the cities are input names, verbatim, for which the city test holds |
| CountryCity.CountriesOf | Graph_RAG/preprocessing/spacy_extractor.py:118-122 | each country is the canonical name of an input name that is no city but a country |
| CountryCity.Classify | Graph_RAG/preprocessing/spacy_extractor.py:114-127 | the routing loop returns exactly the cities and the countries of the list |
| CountryCity.EachNameOnce | Graph_RAG/preprocessing/spacy_extractor.py:118-122 | every name lands in at most one list: the two lists hold one entry per routed name |
| CountryCity.CityBeforeCountry | Graph_RAG/preprocessing/spacy_extractor.py:119-121 | a city name goes to the cities even when it is also a country |
| CountryCity.CountryCanonicalised | Graph_RAG/preprocessing/spacy_extractor.py:121-122 | a name that is no city but a country contributes its canonical name |
| CountryCity.OrderKept | Graph_RAG/preprocessing/spacy_extractor.py:118-122 | routing a concatenation routes each part in turn, so input order is kept |
| CountryCity.LowerCaseNameDropped | Graph_RAG/preprocessing/spacy_extractor.py:77-79 | an all-lower-case name that is no city is dropped |
| HotelMatcher.PairNotLessTransitive | Graph_RAG/preprocessing/hotel_matcher.py:37 | the tuple order the sort uses is total |
| HotelMatcher.MaxPair | Graph_RAG/preprocessing/hotel_matcher.py:37-38 | the first pair after the reverse sort is a collected pair that no other pair exceeds |
| HotelMatcher.ExactMatches | Graph_RAG/preprocessing/hotel_matcher.py:28-33 | a (length, original) pair is collected exactly for the hotels whose lowered name occurs in the lowered text |
| HotelMatcher.MatchExact | Graph_RAG/preprocessing/hotel_matcher.py:23-40 | the method returns the exact match as the specification function defines it |
| HotelMatcher.ExactNoneIff | Graph_RAG/preprocessing/hotel_matcher.py:28-40 | no match exactly when no lowered hotel name is a substring of the lowered text |
| HotelMatcher.ExactLongest | Graph_RAG/preprocessing/hotel_matcher.py:31-38 | a returned name is a hotel whose lowered form occurs in the text, no occurring name is longer, and among equally long ones it is the greatest string |
| HotelMatcher.CloseMatch | Graph_RAG/preprocessing/hotel_matcher.py:55 | the close match is a candidate reaching the cutoff with the greatest ratio; none exactly when no candidate reaches it |
| HotelMatcher.IndexOf | Graph_RAG/preprocessing/hotel_matcher.py:57 | `list.index` gives the first position of the name |
| HotelMatcher.Tokens | Graph_RAG/preprocessing/hotel_matcher.py:49 | every token is a word of the text with commas replaced by spaces, of length three or more |
| HotelMatcher.LongWords | Graph_RAG/preprocessing/hotel_matcher.py:49 | exactly the words of length three or more are kept, in order |
| HotelMatcher.Offer | Graph_RAG/preprocessing/hotel_matcher.py:55-59 | a token's candidate is a name of the original list |
| HotelMatcher.Better | Graph_RAG/preprocessing/hotel_matcher.py:61-63 | the best changes only to an offer with a strictly greater ratio |
| HotelMatcher.BestOffer | Graph_RAG/preprocessing/hotel_matcher.py:51-63 | the best ratio starts at 0 and never goes below, and a candidate comes with the ratio of some offer |
| HotelMatcher.MatchFuzzy | Graph_RAG/preprocessing/hotel_matcher.py:44-65 | the method returns the candidate of the fuzzy best as the specification function defines it |
| HotelMatcher.ConsiderToken | Graph_RAG/preprocessing/hotel_matcher.py:55-63 | one pass of the loop is the strictly-better update with the token's offer |
| HotelMatcher.BestOfferFirst | Graph_RAG/preprocessing/hotel_matcher.py:54-63 | the best ratio bounds every offer, is 0 exactly without a candidate, and belongs to the first offer reaching it |
| HotelMatcher.FuzzyFirstBest | Graph_RAG/preprocessing/hotel_matcher.py:49-65 | the fuzzy match is the candidate of the first token whose offer has the greatest ratio, that ratio being positive; without a positive offer there is no match |
| HotelMatcher.FuzzyFromList | Graph_RAG/preprocessing/hotel_matcher.py:57-65 | a fuzzy match is one of the hotel names in its original spelling |
| HotelMatcher.DuplicateLowerFirst | Graph_RAG/preprocessing/hotel_matcher.py:57-58 | among names with the same lowered form, the first one is reported |
| LlmEntityExtractor.EmptyResult | Graph_RAG/preprocessing/llm_entity_extractor.py:108-131 | the ten keys in order; the five list fields and gender are empty lists, traveller_type, age_group and rating are None, and confidence holds nine entries of 0.0 |
| LlmEntityExtractor.EmptyResultDistinct | Graph_RAG/preprocessing/llm_entity_extractor.py:110-130 | the keys of the empty result are distinct |
| LlmEntityExtractor.FillMissing | Graph_RAG/preprocessing/llm_entity_extractor.py:139-142 | the loop gives the dictionary with the missing template entries added |
| LlmEntityExtractor.FilledMeaning | Graph_RAG/preprocessing/llm_entity_extractor.py:139-143 | every existing entry stays as it was and in front, every template key ends up present, and what is added are template entries whose key was missing |
| LlmEntityExtractor.FilledIdempotent | Graph_RAG/preprocessing/llm_entity_extractor.py:134-143 | filling twice equals filling once |
| LlmEntityExtractor.FilledNoop | Graph_RAG/preprocessing/llm_entity_extractor.py:140-142 | a dictionary that already holds every template key is left alone |
| LlmEntityExtractor.FilledDistinct | Graph_RAG/preprocessing/llm_entity_extractor.py:140-142 | filling keeps a dictionary's keys distinct |
| LlmEntityExtractor.ValidateAndFix | Graph_RAG/preprocessing/llm_entity_extractor.py:134-143 | the method returns the validated value as the specification function defines it |
| LlmEntityExtractor.MissingIn | Graph_RAG/preprocessing/llm_entity_extractor.py:141 | for a string or list, `key in data` fails for some template key exactly when one is missing |
| LlmEntityExtractor.ValidatedMeaning | Graph_RAG/preprocessing/llm_entity_extractor.py:139-143 | validation succeeds for any dictionary, and for a string or list only when every key is already in it; a validated dictionary holds every key and keeps the parsed entries in front; other values come back unchanged |
| LlmEntityExtractor.ValidatedIdempotent | Graph_RAG/preprocessing/llm_entity_extractor.py:134-143 | validating a validated value changes nothing |
| LlmEntityExtractor.ValidatedEmptyDict | Graph_RAG/preprocessing/llm_entity_extractor.py:108-143 | validating an empty dictionary gives the empty result |
| LlmEntityExtractor.Unfenced | Graph_RAG/preprocessing/llm_entity_extractor.py:93-95 | a reply without a leading fence is unchanged; a fenced reply loses at least the fence |
| LlmEntityExtractor.UnfencedIsSecondPart | Graph_RAG/preprocessing/llm_entity_extractor.py:93-97 | a fenced reply always splits into at least two parts, so the except branch is unreachable, and the result is the second part |
| LlmEntityExtractor.FenceKeepsBody | Graph_RAG/preprocessing/llm_entity_extractor.py:93-95 | the text between the first two fences, language tag included, goes to the parser |
| LlmEntityExtractor.ExtractWithLlm | Graph_RAG/preprocessing/llm_entity_extractor.py:63-104 | an error is raised exactly when the API key is unset or empty, with the missing-key message |
| LlmEntityExtractor.ExtractWithLlmShape | Graph_RAG/preprocessing/llm_entity_extractor.py:80-104 | with a key the result is a dictionary with every key, or a string or list holding every key; a failing call or an unparseable reply gives exactly the empty result |
| EntityExtractor.RuleDict | Graph_RAG/preprocessing/entity_extractor.py:95-105 | the rule-path dictionary has exactly the nine keys cities, countries, hotels, origin_country, destination_country, traveller_type, age_group, gender, rating, in that order |
| EntityExtractor.UseLlmResult | Graph_RAG/preprocessing/entity_extractor.py:46-52 | the result is used exactly when it is a dictionary with an age group (anything else raises and falls back); it is used with the same keys and values, except that an age group string reading "null" in any case becomes None |
| EntityExtractor.Extract | Graph_RAG/preprocessing/entity_extractor.py:40-105 | the result is always a dictionary with an age group; unless the language model was asked for and its result used, it is the rule-based dictionary with its nine keys |
| EntityExtractor.ExtractEntitiesWith | Graph_RAG/preprocessing/entity_extractor.py:40-105 | the method returns the extraction as the specification function defines it |
| EntityExtractor.RuleBasedExtract | Graph_RAG/preprocessing/entity_extractor.py:56-105 | the rule path calls the sub-extractors in order and returns their dictionary |
| EntityExtractor.FindHotels | Graph_RAG/preprocessing/entity_extractor.py:70-77 | both matchers are called and the hotel list is built from their results |
| EntityExtractor.PickHotel | Graph_RAG/preprocessing/entity_extractor.py:73-77 | the list gets the exact match if it is a non-empty name, else the fuzzy one if it is |
| EntityExtractor.FindPeople | Graph_RAG/preprocessing/entity_extractor.py:79-89 | age group and genders come from the demographics extractor and the traveller type from the pattern extractor, overridden by "group" for two or more genders |
| EntityExtractor.ExtractEntities | Graph_RAG/preprocessing/entity_extractor.py:108-112 | the shared extractor is used with the language model enabled |
| EntityExtractor.LlmDictUsed | Graph_RAG/preprocessing/entity_extractor.py:43-52 | a successful language-model dictionary is returned, altered only in a "null" age group |
| EntityExtractor.LlmFallback | Graph_RAG/preprocessing/entity_extractor.py:43-54 | a missing key, or a reply that is a string or a list (indexing it by "age_group" raises), falls back to the rule path |
| EntityExtractor.RulesWithoutLlm | Graph_RAG/preprocessing/entity_extractor.py:43-105 | without the language model the rule-path dictionary with its nine keys is returned |
| EntityExtractor.OneHotel | Graph_RAG/preprocessing/entity_extractor.py:70-77 | the hotel list holds at most one name, the exact match taking precedence over the fuzzy one |
| EntityExtractor.GendersMakeGroup | Graph_RAG/preprocessing/entity_extractor.py:80-89 | two detected genders make the traveller type "group" whatever the patterns said |
| BaselineRetriever.First | Graph_RAG/retrieval/baseline_retriever.py:26-54 | `v[0]` of a non-empty list is its first element |
| BaselineRetriever.Retrieve | Graph_RAG/retrieval/baseline_retriever.py:14-58 | a route without a query gives [], and the call fails exactly when the route raises (indexing a value that is not a non-empty list or string) |
| BaselineRetriever.RunFirstWellFormed | Graph_RAG/retrieval/baseline_retriever.py:26-39 | a query on the first element of a list supplies exactly its template's placeholders |
| BaselineRetriever.BranchesWellFormed | Graph_RAG/retrieval/baseline_retriever.py:23-58 | each branch that runs a query (hotel search, reviews, recommendation, visa, top hotels) supplies exactly its template's placeholders |
| BaselineRetriever.Route | Graph_RAG/retrieval/baseline_retriever.py:14-58 | every query run is a template of the library and the parameter keys are exactly its $-placeholders, each once; an intent other than the four handled ones, and a missing or empty intent, runs the top-hotels query |
| BaselineRetriever.HotelSearchWellFormed | Graph_RAG/retrieval/baseline_retriever.py:23-35 | every hotel-search query supplies exactly its template's placeholders |
| BaselineRetriever.HotelSearchTemplates | Graph_RAG/retrieval/query_templates.py:11-79 | the placeholders of the city, country, rating, name-substring and top-hotels templates |
| BaselineRetriever.OtherTemplates | Graph_RAG/retrieval/query_templates.py:36-79 | the placeholders of the reviews, traveller-type, visa and top-hotels templates |
| BaselineRetriever.FalsyIntentIsGeneric | Graph_RAG/retrieval/baseline_retriever.py:19-58 | a missing or empty intent is routed as "generic_qa", which runs the top-hotels query |
| BaselineRetriever.HotelSearchPriority | Graph_RAG/retrieval/baseline_retriever.py:23-35 | a hotel search uses the first city, else the first country, else the rating, else the first hotel name, else the top hotels |
| BaselineRetriever.ZeroRatingFallsThrough | Graph_RAG/retrieval/baseline_retriever.py:29-30 | a rating of 0 or None falls through past the rating template |
| BaselineRetriever.ReviewNeedsHotel | Graph_RAG/retrieval/baseline_retriever.py:37-40 | a review query runs no query exactly when no hotel was found |
| BaselineRetriever.RecommendationRoute | Graph_RAG/retrieval/baseline_retriever.py:42-47 | a recommendation uses the traveller-type template exactly when the type is truthy, else the top hotels |
| BaselineRetriever.VisaNeedsBoth | Graph_RAG/retrieval/baseline_retriever.py:49-55 | a visa question runs no query exactly when the origin or the destination list is empty, and otherwise runs the visa template |
| BaselineRetriever.OtherIntentsTopHotels | Graph_RAG/retrieval/baseline_retriever.py:57-58 | every other intent runs the top-hotels query |
| FeatureBuilder.NameSection | Graph_RAG/retrieval/feature_builder.py:17-26 | the name sentence is present exactly for a truthy name and is the name followed by "." |
| FeatureBuilder.LocationSection | Graph_RAG/retrieval/feature_builder.py:18-33 | "Located in C, K." with both parts, "Located in C." or "Located in K." with one, and no sentence with neither |
| FeatureBuilder.StarSection | Graph_RAG/retrieval/feature_builder.py:37-39 | the star sentence is absent exactly when the rating is None, so a falsy 0 is still written |
| FeatureBuilder.ScoreSection | Graph_RAG/retrieval/feature_builder.py:42-44 | the score sentence is absent exactly for None, and raises exactly when rounding the value fails |
| FeatureBuilder.RatingEntries | Graph_RAG/retrieval/feature_builder.py:49-50 | exactly the hotel properties whose key starts with "avg_score_" and whose value is not None are used |
| FeatureBuilder.FormatRatings | Graph_RAG/retrieval/feature_builder.py:51-53 | one "label: value" per rating, in the hotel's order, the label being the key without the prefix, underscores made spaces, title-cased; raises exactly when a value cannot be formatted |
| FeatureBuilder.TravellerSection | Graph_RAG/retrieval/feature_builder.py:55-56 | the traveller sentence is absent exactly when there are no rating properties |
| FeatureBuilder.TravellerScores | Graph_RAG/retrieval/feature_builder.py:48-53 | the loop over the hotel's items returns the formatted ratings |
| FeatureBuilder.CategorySection | Graph_RAG/retrieval/feature_builder.py:67-68 | the category sentence never raises |
| FeatureBuilder.Categories | Graph_RAG/retrieval/feature_builder.py:59-65 | the loop over the three keys returns the category scores |
| FeatureBuilder.CategoryScoresMeaning | Graph_RAG/retrieval/feature_builder.py:59-68 | the category scores come from cleanliness_base, comfort_base and facilities_base, in that order, labelled Cleanliness, Comfort and Facilities, each skipped when None |
| FeatureBuilder.CategoryAbsent | Graph_RAG/retrieval/feature_builder.py:59-68 | the category sentence is absent exactly when all three values are None |
| FeatureBuilder.CategoryLabels | Graph_RAG/retrieval/feature_builder.py:60-64 | the three keys are labelled Cleanliness, Comfort and Facilities |
| FeatureBuilder.FirstReviews | Graph_RAG/retrieval/feature_builder.py:74 | at most the first three reviews are used |
| FeatureBuilder.Cleaned | Graph_RAG/retrieval/feature_builder.py:76 | a cleaned review holds no newline |
| FeatureBuilder.Snippet | Graph_RAG/retrieval/feature_builder.py:76-79 | a snippet is the cleaned text, cut to 200 characters plus "..." when longer: at most 203 characters, no newline |
| FeatureBuilder.ReviewSection | Graph_RAG/retrieval/feature_builder.py:71 | no review sentence when the review texts are missing or empty |
| FeatureBuilder.CleanReviews | Graph_RAG/retrieval/feature_builder.py:72-80 | the loop returns one snippet per review used, in order |
| FeatureBuilder.SnippetBounds | Graph_RAG/retrieval/feature_builder.py:74-80 | at most three snippets, each at most 203 characters and without a newline |
| FeatureBuilder.SectionsAre | Graph_RAG/retrieval/feature_builder.py:24-83 | the sections come in the fixed order name, location, stars, global score, traveller ratings, category scores, reviews |
| FeatureBuilder.Assemble | Graph_RAG/retrieval/feature_builder.py:86-89 | the text raises exactly when a section raises, and is otherwise the present sections joined by single spaces |
| FeatureBuilder.BuildFeatureText | Graph_RAG/retrieval/feature_builder.py:3-89 | the method returns the feature text as the specification function defines it |
| FeatureBuilder.NameComesFirst | Graph_RAG/retrieval/feature_builder.py:86-87 | a truthy name starts the text with its sentence, so the name-only fallback is never taken |
| FeatureBuilder.NoDataEmpty | Graph_RAG/retrieval/feature_builder.py:86-89 | a nameless hotel with no section present yields "" |
| RetrievalPipeline.RecordName | Graph_RAG/retrieval/retrieval_pipeline.py:81 | a truthy name is the name; the expression raises exactly when the name is falsy and "h" is truthy but not a dictionary |
| RetrievalPipeline.BaselineKey | Graph_RAG/retrieval/retrieval_pipeline.py:46-48 | the key raises exactly when the name does; without a dictionary "hotel" it is the name even when a truthy hotel_id is present; with one it is the truthy hotel_id, else hotel.hotel_id when truthy, else the name |
| RetrievalPipeline.EmbeddingKey | Graph_RAG/retrieval/retrieval_pipeline.py:57-59 | the key is the first truthy of hotel_id, id and node.hotel_id, else the name; it raises exactly when hotel_id and id are falsy and node is truthy but not a dictionary |
| RetrievalPipeline.Tagged | Graph_RAG/retrieval/retrieval_pipeline.py:54-65 | the copy has "source" set to the retriever's label, overwriting any earlier value, and every other key as before |
| RetrievalPipeline.KeyedBy | Graph_RAG/retrieval/retrieval_pipeline.py:45-59 | the records become candidates with their keys, in order, and keying raises exactly when some record's key raises |
| RetrievalPipeline.Cands | Graph_RAG/retrieval/retrieval_pipeline.py:46-59 | the same for the baseline key (hotel_id consulted only with a dictionary "hotel", else the name or h.name) and the embedding key (the first truthy of hotel_id, id, node.hotel_id, name) |
| RetrievalPipeline.KeysIn | Graph_RAG/retrieval/retrieval_pipeline.py:43-64 | the seen-set holds exactly the keys of the candidates |
| RetrievalPipeline.Kept | Graph_RAG/retrieval/retrieval_pipeline.py:49-65 | the kept candidates are candidates with truthy keys, no more of them than candidates |
| RetrievalPipeline.FirstIndex | Graph_RAG/retrieval/retrieval_pipeline.py:51-63 | the first position of a key among the candidates |
| RetrievalPipeline.KeptComplete | Graph_RAG/retrieval/retrieval_pipeline.py:49-64 | every truthy key of the candidates is the key of a kept candidate |
| RetrievalPipeline.KeptIsFirst | Graph_RAG/retrieval/retrieval_pipeline.py:51-65 | for each kept key the candidate kept is the first one holding it |
| RetrievalPipeline.KeptOrdered | Graph_RAG/retrieval/retrieval_pipeline.py:45-65 | the kept candidates are in the order of their first occurrences |
| RetrievalPipeline.KeptDistinct | Graph_RAG/retrieval/retrieval_pipeline.py:51-64 | no two kept candidates share a key |
| RetrievalPipeline.KeptAppend | Graph_RAG/retrieval/retrieval_pipeline.py:45-65 | de-duplicating a concatenation keeps first what the first part keeps alone, then candidates of the second |
| RetrievalPipeline.Merge | Graph_RAG/retrieval/retrieval_pipeline.py:37-67 | the merge raises exactly when the key of some baseline or embedding record raises |
| RetrievalPipeline.TaggedRecordsMeaning | Graph_RAG/retrieval/retrieval_pipeline.py:54-65 | each merged hotel's "source" is the label of the retriever it came from, and every other key has its value in the retrieved record |
| RetrievalPipeline.PassStep | Graph_RAG/retrieval/retrieval_pipeline.py:49-54 | one loop pass: a new truthy key appends its tagged record and adds its key, anything else changes nothing |
| RetrievalPipeline.MergePass | Graph_RAG/retrieval/retrieval_pipeline.py:45-65 | one loop returns the hotels and seen-set of the candidates kept so far, and fails exactly when keying a record raises |
| RetrievalPipeline.PassAt | Graph_RAG/retrieval/retrieval_pipeline.py:46-54 | pass k adds record k's candidate, or fails when its key raises |
| RetrievalPipeline.PassRecord | Graph_RAG/retrieval/retrieval_pipeline.py:46-54 | the loop body on one record fails exactly when its key raises and otherwise keeps hotels and seen-set in step with the kept candidates |
| RetrievalPipeline.MergeResults | Graph_RAG/retrieval/retrieval_pipeline.py:37-67 | the two loops with one shared seen-set give the merged dictionary, and raise exactly when the merge does |
| RetrievalPipeline.Combined | Graph_RAG/retrieval/retrieval_pipeline.py:67 | the merged dictionary holds "hotels", one tagged record per merged hotel, and "reviews", always [] |
| RetrievalPipeline.MergeDistinct | Graph_RAG/retrieval/retrieval_pipeline.py:43-64 | the merged hotels have truthy, pairwise distinct keys and are no more than the records retrieved |
| RetrievalPipeline.MergeBaselineFirst | Graph_RAG/retrieval/retrieval_pipeline.py:45-65 | the merged hotels are the baseline's own kept records, tagged "baseline", followed by embedding records, tagged "embedding" |
| RetrievalPipeline.MergeFirstWins | Graph_RAG/retrieval/retrieval_pipeline.py:43-64 | every record with a truthy key is represented by the first record holding that key, baseline records before embedding records |
| RetrievalPipeline.MergeIsKept | Graph_RAG/retrieval/retrieval_pipeline.py:37-67 | the merge is the de-duplication of the baseline candidates followed by the embedding candidates |
| RetrievalPipeline.KeptFirstWins | Graph_RAG/retrieval/retrieval_pipeline.py:49-54 | de-duplication keeps the first occurrence of every truthy key |
| RetrievalPipeline.HotelLine | Graph_RAG/retrieval/retrieval_pipeline.py:81-87 | a line raises exactly when the name does; it starts with "- " and the name, ends with "  [via: src]" (src defaulting to "unknown"), and shows a score exactly when the score is not None |
| RetrievalPipeline.FormatLine | Graph_RAG/retrieval/retrieval_pipeline.py:81-87 | the method builds the hotel's line piece by piece |
| RetrievalPipeline.LinesBy | Graph_RAG/retrieval/retrieval_pipeline.py:80-88 | one line per hotel, in order, raising exactly when some line raises |
| RetrievalPipeline.Lines | Graph_RAG/retrieval/retrieval_pipeline.py:80-88 | the same for the context's own line format |
| RetrievalPipeline.ContextText | Graph_RAG/retrieval/retrieval_pipeline.py:69-90 | no hotels give the fixed message; the text raises exactly when a line does |
| RetrievalPipeline.BuildContextText | Graph_RAG/retrieval/retrieval_pipeline.py:69-90 | the method returns the context text as the specification function defines it |
| RetrievalPipeline.NextLine | Graph_RAG/retrieval/retrieval_pipeline.py:80-88 | one loop pass appends the line of the next hotel, or fails when it raises |
| RetrievalPipeline.NoContextIff | Graph_RAG/retrieval/retrieval_pipeline.py:76-77 | the text is "No relevant hotels or reviews found in the knowledge graph." exactly when there are no hotels |
| RetrievalPipeline.ContextOneLinePerHotel | Graph_RAG/retrieval/retrieval_pipeline.py:79-90 | unless a field writes a newline the text reads back as "Retrieved hotels:" followed by exactly one line per hotel, in merged order |
| RetrievalPipeline.Retrieve | Graph_RAG/retrieval/retrieval_pipeline.py:17-35 | the baseline always runs and its failure fails the call; the result holds the baseline records and the embedding records, the latter [] when embeddings are off, then "combined" and "context_text" |
| RetrievalPipeline.RetrieveCombined | Graph_RAG/retrieval/retrieval_pipeline.py:25-35 | "combined" is the merge of the two lists with "reviews" empty, and "context_text" is built from the merged hotels |
| RetrievalPipeline.WithoutEmbeddingsAllBaseline | Graph_RAG/retrieval/retrieval_pipeline.py:20-54 | without embeddings every merged hotel is tagged "baseline" |
| AppQueries.CharIndex | app.py:941 | the position of the first `=` of the line |
| AppQueries.StripKeeps | app.py:940-941 | the `=` the line holds survives stripping, so the split always has two parts |
| AppQueries.ParseLine | app.py:940-941 | a line sets nothing exactly when it holds no `=`; otherwise the key holds no `=` and key, `=` and value make up the stripped line |
| AppQueries.ApplyKeeps | app.py:940-942 | a line that does not set a key leaves its entry alone |
| AppQueries.ApplySets | app.py:941-942 | a line that sets a key gives it the line's value |
| AppQueries.ParseConfig | app.py:936-942 | the loop over the file's lines returns the configuration the lines define |
| AppQueries.ConfigOf | app.py:939-942 | the configuration the lines define holds each key at most once |
| AppQueries.ReadLine | app.py:940-942 | the body of that loop applies one line |
| AppQueries.ConfigUnset | app.py:939-942 | no entry holds a key that no line sets |
| AppQueries.ConfigSet | app.py:939-942 | a key that some line sets has an entry |
| AppQueries.ConfigLastWins | app.py:939-942 | the last line that sets a key gives its value: later duplicates overwrite earlier ones |
| AppQueries.ValueKeepsEquals | app.py:941 | only the first `=` separates the key, so a value may itself hold `=` |
| AppQueries.MethodQueries | app.py:1028-1061 | the retrieval method contributes at most one query, never the review query nor the placeholder |
| AppQueries.Queries | app.py:1023-1071 | one or two queries are listed |
| AppQueries.CypherTexts | app.py:1023-1071 | one or two texts are returned, and they are exactly the placeholder "// No specific queries generated" alone when the intent is neither a review nor a hotel search, the method is neither embedding nor hybrid, and it is not the baseline's hotel search |
| AppQueries.PlaceholderIff | app.py:1063-1071 | "// No specific queries generated" is listed exactly when neither the method nor the intent calls for a query, and then alone |
| AppQueries.QueryTextOfPlaceholder | app.py:1034-1071 | no query but the placeholder is written as the comment "// No specific queries generated" |
| AppQueries.BaselineCityFirst | app.py:1028-1069 | the baseline hotel search lists the city query when cities were found, else the country query when countries were, then the review query |
| AppQueries.ReviewQueryLast | app.py:1064-1069 | the review query comes last for review and hotel searches, whatever the method, and only for them |
| AppQueries.LocationQueriesOnlyBaseline | app.py:1028-1045 | only the baseline's hotel search lists a city or country query |
| AppQueries.LabelsDistinct | app.py:1468-1479 | each of the six query types has its own label |
| AppQueries.DetectQueryType | app.py:1465-1479 | the label is one of the six; a mention of "vector" or "embedding" makes an embedding query; neither with no "match" makes a general query |
| AppQueries.SemanticFirst | app.py:1465-1479 | a mention of "vector" or "embedding" wins over every "match" check; neither with no "match" is a general query; every other query is one of the four pattern kinds |
| AppQueries.HotelBeforeUserAndReview | app.py:1470-1475 | a query matching hotels is a hotel search even when it also mentions users or reviews |
| AppQueries.DetectIgnoresCase | app.py:1467 | the detection ignores case |
| AppQueries.Part | app.py:1487-1506 | each test adds at most one fragment, of its own rank |
| AppQueries.ClausesOrdered | app.py:1485-1506 | the fragments come in the fixed clause order, each at most once |
| AppQueries.ClauseTests | app.py:1487-1506 | each fragment is listed exactly when its test holds; with "order by", "desc" anywhere selects the descending fragment |
| AppQueries.ExplainCypherQuery | app.py:1481-1511 | the fixed sentence "Retrieves data from the knowledge graph" is returned exactly when no fragment fires |
| AppQueries.ExplanationOpens | app.py:1508-1509 | a non-empty list of fragments, capitalised and joined by " → ", never reads as the fixed sentence |
| AppQueries.ClauseOpens | app.py:1488-1509 | no capitalised fragment opens like the fixed sentence |
| AppQueries.ExplanationLowerTail | app.py:1509 | after its first character the explanation is lower case, since `capitalize` also lowers LOCATED_IN and Hotel |
| AppQueries.ExplainIgnoresCase | app.py:1483 | the explanation ignores the case of the query |
| AppKgData.Take | app.py:1081 | the slice `xs[:n]`: at most `n` items, all of `xs` when it is shorter, each the item at the same position |
| AppKgData.Records | app.py:1076-1077 | a list of dictionaries read as their entries, one per item, in order |
| AppKgData.ReviewsOf | app.py:1077 | the reviews read are at most 10, as `reviews[:10]` takes |
| AppKgData.HotelNodes | app.py:1081-1091 | one node per hotel |
| AppKgData.CityNodes | app.py:1095-1100 | one node per city |
| AppKgData.ReviewRels | app.py:1113-1119 | one REVIEWS link per review |
| AppKgData.HotelNodeLoop | app.py:1080-1091 | the loop draws the node of each hotel, numbered by its position |
| AppKgData.CollectCities | app.py:1094 | the cities collected hotel by hotel are the distinct cities of the hotels that have one |
| AppKgData.AddCityNodes | app.py:1095-1100 | the loop appends one node per city after the nodes already drawn |
| AppKgData.LocatedLoop | app.py:1103-1110 | the loop links each hotel that has a city to that city, and skips the others |
| AppKgData.AddReviewRels | app.py:1113-1119 | the loop appends one REVIEWS link per review after the links already drawn |
| AppKgData.Draw | app.py:1079-1119 | the nodes are the first 20 hotels' then every city's; the links are the LOCATED_IN ones then the REVIEWS ones |
| AppKgData.FormatKgData | app.py:1073-1131 | the result is the graph built from `combined.hotels` and `combined.reviews`, with counts, query time, confidence and intent in its metadata; it fails exactly when the inputs are not lists of dictionaries or `int()` of the query time raises |
| AppKgData.KgDataOf | app.py:1073-1131 | the call fails exactly when the inputs are malformed or `int()` of the query time raises; otherwise it draws the nodes and links of the hotels and reviews, at most 30 links, with metadata counting exactly the nodes and links drawn, confidence 0.85 plus 0.01 per node, no cache hit, the intent as given and the number of entity keys |
| AppKgData.CitiesDistinct | app.py:1094 | no city is drawn twice |
| AppKgData.CitiesSound | app.py:1094 | every city drawn is the city of some hotel |
| AppKgData.CitiesCover | app.py:1094 | the city of every hotel that has one is drawn |
| AppKgData.CitiesComplete | app.py:1094 | a value is a drawn city if and only if some hotel has it as its city |
| AppKgData.LocatedFrom | app.py:1104-1110 | every LOCATED_IN link is the link of some hotel that has a city |
| AppKgData.LocatedStep | app.py:1105 | a hotel adds one link when it has a city and none otherwise |
| AppKgData.LocatedBound | app.py:1104-1110 | there are no more LOCATED_IN links than hotels |
| AppKgData.LocatedMisses | app.py:1105 | a hotel without a city leaves fewer links than hotels |
| AppKgData.LocatedAll | app.py:1104-1110 | when every hotel has a city there is one link per hotel |
| AppKgData.LocatedCount | app.py:1104-1110 | there are as many links as hotels if and only if every hotel has a city |
| AppKgData.CityNodeAt | app.py:1081-1100 | the city nodes come right after the hotel nodes, in the order of the cities |
| AppKgData.CityNodeId | app.py:1097 | a city node's id is `city_` followed by the city |
| AppKgData.LocatedRelTo | app.py:1108 | a LOCATED_IN link points at `city_` followed by the hotel's city |
| AppKgData.LinksReachCities | app.py:1094-1110 | every LOCATED_IN link points at the id of a city node of the same graph |
| AppKgData.HotelNodeType | app.py:1084 | a hotel node has type `Hotel` |
| AppKgData.CityNodeType | app.py:1098 | a city node has type `City` |
| AppKgData.LocatedRelType | app.py:1109 | a hotel's link has type `LOCATED_IN` |
| AppKgData.ReviewRelType | app.py:1117 | a review's link has type `REVIEWS` |
| AppKgData.NodesShape | app.py:1081-1100 | the first nodes, at most 20, are hotels, one per hotel drawn; the rest are cities, one per distinct city |
| AppKgData.RelationshipsShape | app.py:1103-1119 | the first links are LOCATED_IN, at most 20; the rest are REVIEWS, one per review; with at most 10 reviews there are at most 30 links |

## Left out

- The Streamlit user interface, the page styling, session state, chat rendering and the graph pictures (`create_graph_visualization`, `visualize_subgraph`). They are display code over foreign libraries. All of `Graph_RAG/app.py` is left out for the same reason.
- The Neo4j connector, the embedding encoder, the indexer and the embedding retriever are database, index and model I/O. `run_query` and the embedding search are parameters of the retrieval model.
- Hugging Face client calls are a parameter whose `None` stands for an exception. This applies to `hf_client.py` and the chat calls of the two language-model modules. Network timeouts and latencies are not modelled.
- `json.loads` is a parameter that gives a parsed value or a failure. The JSON grammar is not modelled.
- spaCy's named-entity recogniser and the origin/destination detector are parameters. Their dependency-parse walking is tied to spaCy's API.
- pycountry, geonamescache and difflib are parameters.
  - The gazetteer contents (city names, country names, the ISO table and its fuzzy search) are data.
  - difflib's ratio is an oracle; `get_close_matches` is stated from that oracle.
  - The `quick_ratio` prefilters of `get_close_matches` are not modelled. They are only upper bounds on the ratio, so they cannot change the result.
- Regular expressions are not modelled in general. Only the patterns the extractors use are modelled, each hand-written as a scanner at one position plus a leftmost search.
- Case mapping in `lower`, `title` and `capitalize` is ASCII only. Unicode case rules are not modelled.
- `Text.IsDigit` and `Text.IsWordChar` are ASCII only, so the `\d`, `\w` and `\b` of the scanners are narrower than Python's Unicode-aware `re`. For example, `\bgood\b` finds "good" in "goodé" in the model but not in Python, and the Arabic-Indic digit in "٥ star" is a digit only in Python.
- `PyValue.Num` holds Python's `int` and `float` alike as one exact real. The `num` formatter (and `Formats` in the feature builder) therefore cannot tell `str(4)`, which is "4", from `str(4.0)`, which is "4.0". This affects `FeatureBuilder.StarSection`, `FeatureBuilder.ScoreSection`, `AppKgData.CityId`, `PyValue.ToStr` and `RetrievalPipeline.ScorePart`.
- Python's float arithmetic is not modelled. Scores are exact reals, so binary rounding effects such as `3 * 1.2` are absent.
- `round`, `:.1f` and `str` of a number are given by a formatting parameter (`num` or `Formats`). Python's number printing is not modelled.
- `AppKgData.FormatKgData`: `confidence_score` is the exact real `0.85 + 0.01 * len(nodes)`, not the float Python computes.
- `int()` on the query time is a parameter (`toInt`), `None` where it raises.
- Python's `repr` escapes quotes inside strings; the model's `repr` does not.
- `AppKgData.CollectCities`: Python leaves the iteration order of a set open. The model lists the cities in first-occurrence order, which is one of the orders Python may produce. Every property proved about the city nodes holds for the distinct cities as a set.
- `AppKgData.CollectCities`: `True` and `1` count as one set element in Python but are two different `PyValue` values in the model. Cities are strings in practice, so this difference does not arise.
- `RetrievalPipeline.Kept`: the same holds for the merge's `seen_ids`. A record keyed `True` and one keyed `1` (or `1.0`) are one key in Python and two in the model. Keys are hotel ids and names in practice, so this difference does not arise.
- The diagnostic `print` calls are left out: the fallback message of `extract` (`Graph_RAG/preprocessing/entity_extractor.py:54`) and the missing-key and error messages of the intent classifier (`Graph_RAG/preprocessing/llm_intent_classifier.py:41` and `:75`). They write to the console and change no result.
- `HotelMatcher.MatchFuzzy`: the method requires a cutoff between 0 and 1, where `get_close_matches` raises `ValueError` for any other cutoff. The only caller passes the constant 0.7, so the error path cannot be reached from the modelled code.
- `LlmEntityExtractor.ValidateAndFix` works on values. The source fills in the caller's dict in place and returns that same dict. Nothing in the modelled code holds a second reference to that dict, so the aliasing cannot be observed.
- The Python set iteration order in `SpacyExtractor.extract_gpe_entities` (`list(set(...))`) is not modelled. The entity extractor receives the place names as the recogniser parameter returns them.
- `BaselineRetriever.Retrieve`: what the database returns for a query is `run_query`'s business. For example, that an absent NEEDS_VISA edge yields no record is not a property of the model.
- `safe_retrieve`, `RetrievalPipeline(model_name=...)`, `EmbeddingRetriever(model_name=...)` and `sem_search_hotels_global` are called but not defined in the repository, so they are not part of this model.
- The test and experiment scripts under `Graph_RAG/tests` and `test_connection.py` only print, so there is nothing to model.
- `hotel_loader.py` reads a CSV file, and `llm_answerer.py` holds only a docstring.
