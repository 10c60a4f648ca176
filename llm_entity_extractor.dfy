/**
 * Entity extraction by a hosted language model: the reply is unfenced,
 * parsed as JSON and completed with the fields of the empty result. The
 * chat service and the JSON parser are oracles; a raised exception is
 * their `None`.
 */
module LlmEntityExtractor {
  import opened Wrappers
  import opened Text
  import opened PyValue

  /** The keys of every extraction result, in the order of `_empty_result`. */
  const ResultKeys: seq<string> := [
    "cities", "countries", "hotels", "origin_country", "destination_country",
    "traveller_type", "age_group", "gender", "rating", "confidence"]

  /** The keys of the confidence record: the nine entity fields. */
  const ConfidenceKeys: seq<string> := ResultKeys[..9]

  const MissingKeyMessage: string := "HF_API_KEY environment variable not set."

  const Fence: string := "```"

  /** `_empty_result`: empty lists, `None` for the single-valued fields, every confidence 0. */
  function EmptyResult(): (r: Entries)
    ensures Keys(r) == ResultKeys
    ensures forall i :: 0 <= i < 5 ==> r[i].1 == List([])
    ensures r[5].1 == Null && r[6].1 == Null && r[7].1 == List([]) && r[8].1 == Null
    ensures r[9].1.Dict? && Keys(r[9].1.entries) == ConfidenceKeys
    ensures forall i :: 0 <= i < 9 ==> r[9].1.entries[i].1 == Num(0.0)
  {
    var confidence := seq(9, i requires 0 <= i < 9 => (ConfidenceKeys[i], Num(0.0)));
    [("cities", List([])), ("countries", List([])), ("hotels", List([])),
     ("origin_country", List([])), ("destination_country", List([])),
     ("traveller_type", Null), ("age_group", Null), ("gender", List([])), ("rating", Null),
     ("confidence", Dict(confidence))]
  }

  /** The ten result keys are distinct, so the empty result is a well-formed dictionary. */
  lemma EmptyResultDistinct()
    ensures DistinctKeys(EmptyResult())
  {
    var r := EmptyResult();
    forall i, j | 0 <= i < j < |r| ensures r[i].0 != r[j].0 {
      var a, b := ResultKeys[i], ResultKeys[j];
      assert a == r[i].0 && b == r[j].0;
      if |a| == |b| {
        // only "cities"/"gender" and "hotels"/"rating" share a length; they differ in their first letters
        assert a[0] != b[0];
      }
    }
  }

  // ---------------------------------------------------------------------
  // _validate_and_fix
  // ---------------------------------------------------------------------

  /**
   * The dictionary `data` after, for each template entry in order, its
   * key and value were added when the key was missing.
   */
  function Filled(data: Entries, tpl: Entries): Entries
    decreases |tpl|
  {
    if tpl == [] then data
    else
      var prev := Filled(data, tpl[..|tpl| - 1]);
      var (k, v) := tpl[|tpl| - 1];
      if k in Keys(prev) then prev else prev + [(k, v)]
  }

  /** The loop of `_validate_and_fix` on a dictionary. */
  method FillMissing(data: Entries) returns (r: Entries)
    ensures r == Filled(data, EmptyResult())
  {
    var template := EmptyResult();
    r := data;
    for i := 0 to |template|
      invariant r == Filled(data, template[..i])
    {
      assert template[..i + 1][..i] == template[..i];
      var (key, v) := template[i];
      if key !in Keys(r) {
        r := r + [(key, v)];
      }
    }
    assert template[..|template|] == template;
  }

  /**
   * Filling keeps `data` as it was, at the front; every key of the
   * template ends up present; and what is added are template entries
   * whose key `data` lacked.
   */
  lemma {:induction false} FilledMeaning(data: Entries, tpl: Entries)
    ensures var r := Filled(data, tpl);
      && |data| <= |r| && r[..|data|] == data
      && (forall k :: k in Keys(tpl) ==> k in Keys(r))
      && (forall i :: |data| <= i < |r| ==> r[i] in tpl && r[i].0 !in Keys(data))
      && (forall k :: k in Keys(r) <==> k in Keys(data) || k in Keys(tpl))
    decreases |tpl|
  {
    if tpl != [] {
      var init := tpl[..|tpl| - 1];
      FilledMeaning(data, init);
      SnocSplit(tpl);
      KeysSnoc(init, tpl[|tpl| - 1]);
      var prev := Filled(data, init);
      var r := Filled(data, tpl);
      if tpl[|tpl| - 1].0 !in Keys(prev) {
        assert r == prev + [tpl[|tpl| - 1]];
        assert r[..|data|] == prev[..|data|];
        KeysSnoc(prev, tpl[|tpl| - 1]);
        forall i | |data| <= i < |r| ensures r[i] in tpl && r[i].0 !in Keys(data) {
          if i == |prev| {
            assert r[i] == tpl[|tpl| - 1];
          } else {
            assert r[i] == prev[i];
            assert prev[i] in init;
          }
        }
      } else {
        forall i | |data| <= i < |r| ensures r[i] in tpl {
          assert prev[i] in init;
        }
      }
    }
  }

  /** Filling twice changes nothing the first filling did not. */
  lemma {:induction false} FilledIdempotent(data: Entries, tpl: Entries)
    ensures Filled(Filled(data, tpl), tpl) == Filled(data, tpl)
  {
    var r := Filled(data, tpl);
    FilledMeaning(data, tpl);
    FilledNoop(r, tpl);
  }

  /** A dictionary that already holds every template key is left alone. */
  lemma {:induction false} FilledNoop(data: Entries, tpl: Entries)
    requires forall k :: k in Keys(tpl) ==> k in Keys(data)
    ensures Filled(data, tpl) == data
    decreases |tpl|
  {
    if tpl != [] {
      var init := tpl[..|tpl| - 1];
      forall k | k in Keys(init) ensures k in Keys(data) {
        var i :| 0 <= i < |init| && Keys(init)[i] == k;
        assert Keys(tpl)[i] == k;
      }
      FilledNoop(data, init);
      assert Keys(tpl)[|tpl| - 1] == tpl[|tpl| - 1].0;
    }
  }

  /** Filling keeps distinct keys distinct. */
  lemma {:induction false} FilledDistinct(data: Entries, tpl: Entries)
    requires DistinctKeys(data)
    ensures DistinctKeys(Filled(data, tpl))
    decreases |tpl|
  {
    if tpl != [] {
      var init := tpl[..|tpl| - 1];
      FilledDistinct(data, init);
      var prev := Filled(data, init);
      var k := tpl[|tpl| - 1].0;
      if k !in Keys(prev) {
        var r := prev + [tpl[|tpl| - 1]];
        forall i, j | 0 <= i < j < |r| ensures r[i].0 != r[j].0 {
          if j == |prev| {
            assert Keys(prev)[i] == r[i].0;
          }
        }
      }
    }
  }

  /**
   * `_validate_and_fix(data)`. On a dictionary the missing fields are
   * added. On anything else `key not in data` and `data[key] = …` are
   * Python's operations on that value: a string is searched for the key
   * as a substring and a list for the key as an element, and the
   * assignment raises; so a string or list holding every key comes back
   * unchanged and every other value raises (`None`).
   */
  function Validated(data: Value): (r: Option<Value>)
  {
    match data
    case Dict(es) => Some(Dict(Filled(es, EmptyResult())))
    case Str(s) =>
      if forall i :: 0 <= i < |ResultKeys| ==> IsSubstring(ResultKeys[i], s) then Some(data) else None
    case List(xs) =>
      if forall i :: 0 <= i < |ResultKeys| ==> Str(ResultKeys[i]) in xs then Some(data) else None
    case _ => None
  }

  method ValidateAndFix(data: Value) returns (r: Option<Value>)
    ensures r == Validated(data)
  {
    match data
    case Dict(es) =>
      var filled := FillMissing(es);
      r := Some(Dict(filled));
    case Str(s) =>
      var missing := MissingIn(data);
      r := if missing then None else Some(data);
    case List(xs) =>
      var missing := MissingIn(data);
      r := if missing then None else Some(data);
    case _ =>
      r := None;
  }

  /** Whether `key in data` fails for some template key, the value being a string or a list. */
  method MissingIn(data: Value) returns (missing: bool)
    requires data.Str? || data.List?
    ensures missing <==> exists i :: 0 <= i < |ResultKeys| && !Contains(data, ResultKeys[i])
  {
    missing := false;
    for i := 0 to |ResultKeys|
      invariant missing <==> exists j :: 0 <= j < i && !Contains(data, ResultKeys[j])
    {
      if !Contains(data, ResultKeys[i]) {
        missing := true;
      }
    }
  }

  /** `key in data` for a string (substring) or a list (element). */
  predicate Contains(data: Value, key: string)
    requires data.Str? || data.List?
  {
    if data.Str? then IsSubstring(key, data.s) else Str(key) in data.items
  }

  /** A validated dictionary holds every result key and keeps the parsed fields; other validated values are the parsed value itself. */
  lemma ValidatedMeaning(data: Value)
    ensures var r := Validated(data);
      && (r.Some? <==> data.Dict? || (data.Str? && forall i :: 0 <= i < |ResultKeys| ==> IsSubstring(ResultKeys[i], data.s))
                                  || (data.List? && forall i :: 0 <= i < |ResultKeys| ==> Str(ResultKeys[i]) in data.items))
      && (r.Some? && data.Dict? ==>
            r.value.Dict? && (forall k :: k in ResultKeys ==> k in Keys(r.value.entries))
            && |data.entries| <= |r.value.entries| && r.value.entries[..|data.entries|] == data.entries)
      && (r.Some? && !data.Dict? ==> r.value == data)
  {
    if data.Dict? {
      FilledMeaning(data.entries, EmptyResult());
    }
  }

  /** Validating what validation produced changes nothing. */
  lemma ValidatedIdempotent(data: Value)
    requires Validated(data).Some?
    ensures Validated(Validated(data).value) == Validated(data)
  {
    if data.Dict? {
      FilledIdempotent(data.entries, EmptyResult());
    }
  }

  /** Validating an empty dictionary gives the empty result. */
  lemma ValidatedEmptyDict()
    ensures Validated(Dict([])) == Some(Dict(EmptyResult()))
  {
    EmptyResultDistinct();
    FilledFromNothing(EmptyResult());
  }

  lemma {:induction false} FilledFromNothing(tpl: Entries)
    requires DistinctKeys(tpl)
    ensures Filled([], tpl) == tpl
    decreases |tpl|
  {
    if tpl != [] {
      var init := tpl[..|tpl| - 1];
      FilledFromNothing(init);
      assert Keys(init) == Keys(tpl)[..|init|];
      assert tpl[|tpl| - 1].0 !in Keys(init);
      assert init + [tpl[|tpl| - 1]] == tpl;
    }
  }

  // ---------------------------------------------------------------------
  // extract_with_llm
  // ---------------------------------------------------------------------

  /** The user message sent with the fixed system prompt. */
  function UserMessage(query: string): string
  {
    "User query: \"" + query + "\""
  }

  /** A reply that starts with a code fence is replaced by the text between the first two fences (or after the only one). */
  function Unfenced(content: string): (r: string)
    ensures !StartsWith(content, Fence) ==> r == content
    ensures StartsWith(content, Fence) ==> |r| <= |content| - 3
  {
    if StartsWith(content, Fence) then
      SplitLeadingSeparator(content, Fence);
      var rest := content[3..];
      var j := FindFrom(rest, Fence, 0);
      if j < 0 then rest else rest[..j]
    else content
  }

  /** What `content.split("```")[1]` is: the split always has a second part, so its `except` is never taken. */
  lemma UnfencedIsSecondPart(content: string)
    requires StartsWith(content, Fence)
    ensures |Split(content, Fence)| >= 2 && Unfenced(content) == Split(content, Fence)[1]
  {
    SplitLeadingSeparator(content, Fence);
  }

  /**
   * A fenced reply loses exactly its fences: the text between them,
   * including a language tag such as "json" on the fence line, goes to
   * the parser.
   */
  lemma FenceKeepsBody(body: string, tail: string)
    requires '`' !in body
    ensures Unfenced(Fence + body + Fence + tail) == body
  {
    var content := Fence + body + Fence + tail;
    assert StartsWith(content, Fence);
    var rest := content[3..];
    assert rest == body + Fence + tail;
    forall i | 0 <= i < |body| ensures !HasAt(rest, i, Fence) {
      assert rest[i] == body[i];
      NotAtByChar(rest, i, Fence, 0);
    }
    assert rest[|body|..|body| + 3] == Fence;
    assert HasAt(rest, |body|, Fence);
  }

  /** The services `extract_with_llm` calls. */
  datatype Services = Services(
    apiKey: Option<string>,
    chat: string -> Option<string>,
    parse: string -> Option<Value>)

  /**
   * `extract_with_llm`: no API key raises; a failing chat call, a reply
   * that does not parse and a parsed value that cannot be validated give
   * the empty result; otherwise the validated value.
   */
  function ExtractWithLlm(sv: Services, query: string): (r: Result<Value, string>)
    ensures r.Err? <==> sv.apiKey.None? || sv.apiKey.value == ""
    ensures r.Err? ==> r.error == MissingKeyMessage
  {
    if sv.apiKey.None? || sv.apiKey.value == "" then Err(MissingKeyMessage)
    else
      match sv.chat(UserMessage(query))
      case None => Ok(Dict(EmptyResult()))
      case Some(reply) =>
        match sv.parse(Unfenced(Strip(reply)))
        case None => Ok(Dict(EmptyResult()))
        case Some(parsed) =>
          match Validated(parsed)
          case Some(v) => Ok(v)
          case None => Ok(Dict(EmptyResult()))
  }

  /**
   * With a key, the result is a dictionary holding every result key, or a
   * string or list the reply parsed to which holds every key; failures of
   * the chat call or the parser give exactly the empty result.
   */
  lemma ExtractWithLlmShape(sv: Services, query: string)
    requires sv.apiKey.Some? && sv.apiKey.value != ""
    ensures var r := ExtractWithLlm(sv, query);
      && r.Ok?
      && (r.value.Dict? ==> forall k :: k in ResultKeys ==> k in Keys(r.value.entries))
      && (r.value.Dict? || r.value.Str? || r.value.List?)
      && (sv.chat(UserMessage(query)).None? ==> r.value == Dict(EmptyResult()))
      && (sv.chat(UserMessage(query)).Some? && sv.parse(Unfenced(Strip(sv.chat(UserMessage(query)).value))).None? ==>
            r.value == Dict(EmptyResult()))
  {
    var r := ExtractWithLlm(sv, query);
    if r.value.Dict? {
      forall k | k in ResultKeys ensures k in Keys(r.value.entries) {
        assert Keys(EmptyResult()) == ResultKeys;
        match sv.chat(UserMessage(query))
        case None =>
        case Some(reply) =>
          match sv.parse(Unfenced(Strip(reply)))
          case None =>
          case Some(parsed) =>
            ValidatedMeaning(parsed);
      }
    }
  }
}
