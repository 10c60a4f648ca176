/**
 * The language-model intent classifier: a chat model is asked for one
 * label, and whatever it answers is repaired into the closed label set.
 * The chat call itself is a parameter; the label repair is modelled.
 */
module LlmIntentClassifier {
  import opened Wrappers
  import opened Text

  /** The closed set of labels the classifier may return, in checking order. */
  const IntentLabels: seq<string> :=
    ["recommendation", "booking", "visa_query", "review_query", "hotel_search", "generic_qa"]

  const GenericQa: string := "generic_qa"

  /**
   * What the chat call produces: the content of the first choice, or a
   * failure (a transport error, a missing choice, content that is not a
   * string — anything the `try` block turns into its `except` branch).
   */
  datatype ChatReply = Content(text: string) | ChatFailure

  /** The first label, in `IntentLabels` order, that occurs in `low`. */
  function FirstContained(labels: seq<string>, low: string): (r: Option<string>)
    ensures r.Some? ==> exists k :: 0 <= k < |labels| && labels[k] == r.value && IsSubstring(r.value, low) &&
                                    forall k' :: 0 <= k' < k ==> !IsSubstring(labels[k'], low)
    ensures r.None? <==> forall k :: 0 <= k < |labels| ==> !IsSubstring(labels[k], low)
  {
    if labels == [] then None
    else if IsSubstring(labels[0], low) then Some(labels[0])
    else
      var r := FirstContained(labels[1..], low);
      if r.Some? then
        var k :| 0 <= k < |labels[1..]| && labels[1..][k] == r.value && IsSubstring(r.value, low) &&
                 forall k' :: 0 <= k' < k ==> !IsSubstring(labels[1..][k'], low);
        assert labels[k + 1] == r.value;
        assert forall k' :: 0 <= k' < k + 1 ==> !IsSubstring(labels[k'], low) by {
          forall k' | 0 < k' < k + 1 ensures !IsSubstring(labels[k'], low) {
            assert labels[k'] == labels[1..][k' - 1];
          }
        }
        r
      else
        assert forall k :: 0 < k < |labels| ==> labels[k] == labels[1..][k - 1];
        r
  }

  /**
   * The repair of a reply: the stripped reply if it is exactly a label;
   * else the first label contained in the lower-cased stripped reply; else
   * "generic_qa".
   */
  function RepairLabel(raw: string): (r: string)
    ensures r in IntentLabels
    ensures Strip(raw) in IntentLabels ==> r == Strip(raw)
    ensures Strip(raw) !in IntentLabels ==>
      r == match FirstContained(IntentLabels, Lower(Strip(raw)))
               case Some(l) => l
               case None => GenericQa
  {
    var labelRaw := Strip(raw);
    if labelRaw in IntentLabels then labelRaw
    else
      match FirstContained(IntentLabels, Lower(labelRaw))
      case Some(l) =>
        var k :| 0 <= k < |IntentLabels| && IntentLabels[k] == l && IsSubstring(l, Lower(labelRaw)) &&
                 forall k' :: 0 <= k' < k ==> !IsSubstring(IntentLabels[k'], Lower(labelRaw));
        l
      case None => GenericQa
  }

  /**
   * `classify_intent_llm_hf`: without an API key (unset or empty) the
   * answer is "generic_qa" and no call is made; a failing call also gives
   * "generic_qa"; otherwise the reply is repaired.
   */
  function ClassifyIntentLlm(apiKey: Option<string>, chat: string -> ChatReply, text: string): (r: string)
    ensures r in IntentLabels
    ensures apiKey.None? || apiKey == Some("") ==> r == GenericQa
  {
    if apiKey.None? || apiKey.value == "" then GenericQa
    else
      match chat(text)
      case ChatFailure => GenericQa
      case Content(raw) => RepairLabel(raw)
  }

  /** No label has surrounding whitespace. */
  lemma LabelsStripped(k: nat)
    requires k < |IntentLabels|
    ensures Strip(IntentLabels[k]) == IntentLabels[k]
    ensures IntentLabels[k] != [] && !IsSpace(IntentLabels[k][0]) && !IsSpace(IntentLabels[k][|IntentLabels[k]| - 1])
  {
    var l := IntentLabels[k];
    assert !IsSpace(l[0]) && !IsSpace(l[|l| - 1]) by {
      assert k == 0 || k == 1 || k == 2 || k == 3 || k == 4 || k == 5;
    }
    assert LStrip(l) == l;
    assert RStrip(l) == l;
  }

  /** A reply that is already a label, surrounded by any whitespace, is kept. */
  lemma ExactReplyKept(ws: string, l: string, ws': string)
    requires l in IntentLabels
    requires forall i :: 0 <= i < |ws| ==> IsSpace(ws[i])
    requires forall i :: 0 <= i < |ws'| ==> IsSpace(ws'[i])
    ensures RepairLabel(ws + l + ws') == l
  {
    PaddedLabel(ws, l, ws');
  }

  lemma PaddedLabel(ws: string, l: string, ws': string)
    requires l in IntentLabels
    requires forall i :: 0 <= i < |ws| ==> IsSpace(ws[i])
    requires forall i :: 0 <= i < |ws'| ==> IsSpace(ws'[i])
    ensures Strip(ws + l + ws') == l
  {
    var k :| 0 <= k < |IntentLabels| && IntentLabels[k] == l;
    LabelsStripped(k);
    StripPadding(ws, l, ws');
  }

  /** Stripping removes whitespace padding around a stripped string. */
  lemma StripPadding(ws: string, s: string, ws': string)
    requires s != [] && !IsSpace(s[0]) && !IsSpace(s[|s| - 1])
    requires forall i :: 0 <= i < |ws| ==> IsSpace(ws[i])
    requires forall i :: 0 <= i < |ws'| ==> IsSpace(ws'[i])
    ensures Strip(ws + s + ws') == s
  {
    assert (s + ws')[0] == s[0];
    LStripPadding(ws, s + ws');
    RStripPadding(s, ws');
    ConcatAssoc(ws, s, ws');
    assert LStrip(ws + s + ws') == s + ws';
    assert RStrip(s + ws') == s;
  }

  lemma ConcatAssoc(a: string, b: string, c: string)
    ensures a + b + c == a + (b + c)
  {
  }

  lemma {:induction false} LStripPadding(ws: string, s: string)
    requires s != [] && !IsSpace(s[0])
    requires forall i :: 0 <= i < |ws| ==> IsSpace(ws[i])
    ensures LStrip(ws + s) == s
  {
    if ws != [] {
      assert (ws + s)[1..] == ws[1..] + s;
      LStripPadding(ws[1..], s);
    }
  }

  lemma {:induction false} RStripPadding(s: string, ws: string)
    requires s != [] && !IsSpace(s[|s| - 1])
    requires forall i :: 0 <= i < |ws| ==> IsSpace(ws[i])
    ensures RStrip(s + ws) == s
  {
    if ws != [] {
      assert (s + ws)[..|s + ws| - 1] == s + ws[..|ws| - 1];
      RStripPadding(s, ws[..|ws| - 1]);
    }
  }

  /** Repairing a repaired label changes nothing. */
  lemma RepairIdempotent(raw: string)
    ensures RepairLabel(RepairLabel(raw)) == RepairLabel(raw)
  {
    var l := RepairLabel(raw);
    var k :| 0 <= k < |IntentLabels| && IntentLabels[k] == l;
    LabelsStripped(k);
  }

  /** A reply "Booking." is repaired to "booking": case-insensitive substring matching. */
  lemma SoftMatchExample()
    ensures RepairLabel("Booking.") == "booking"
  {
    var raw := "Booking.";
    BookingStripped();
    BookingNotALabel();
    BookingLowered();
    BookingFound();
    LabelAfterRepair(raw, "booking.", "booking");
  }

  /** How a reply that is already stripped and is not a label is repaired. */
  lemma LabelAfterRepair(raw: string, low: string, l: string)
    requires Strip(raw) == raw && raw !in IntentLabels && Lower(raw) == low
    requires FirstContained(IntentLabels, low) == Some(l)
    ensures RepairLabel(raw) == l
  {
  }

  lemma BookingLowered()
    ensures Lower("Booking.") == "booking."
  {
  }

  lemma BookingStripped()
    ensures Strip("Booking.") == "Booking."
  {
    var raw := "Booking.";
    assert raw[0] == 'B' && raw[|raw| - 1] == '.';
    StripUnpadded(raw);
  }

  lemma BookingNotALabel()
    ensures "Booking." !in IntentLabels
  {
    forall k | 0 <= k < |IntentLabels| ensures IntentLabels[k] != "Booking." {
      assert IntentLabels[k][0] != 'B';
    }
  }

  lemma BookingFound()
    ensures FirstContained(IntentLabels, "booking.") == Some("booking")
  {
    var low := "booking.";
    NotSubstringByLength("recommendation", low);
    assert HasAt(low, 0, "booking");
    HasAtIsSubstring(low, 0, "booking");
    assert IntentLabels[1..][0] == "booking";
  }
}
