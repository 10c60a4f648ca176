/**
 * The retrieval pipeline: the baseline (Cypher template) results and the
 * embedding search results are merged into one hotel list, de-duplicated
 * by key with the first occurrence winning, each kept record tagged with
 * where it came from; the merged list is then written out as the context
 * text handed to the answering model. The graph database and the
 * embedding search are parameters.
 */
module RetrievalPipeline {
  import opened Wrappers
  import opened Text
  import opened PyValue
  import BaselineRetriever

  // ---------------------------------------------------------------------
  // Record keys
  // ---------------------------------------------------------------------

  /** `x and x.get(k)`: a falsy `x` is the value; a truthy `x` other than a dictionary has no `get` and raises. */
  function AndGet(x: Value, k: string): Option<Value>
  {
    if !Truthy(x) then Some(x)
    else if x.Dict? then Some(Get(x.entries, k))
    else None
  }

  /** `r.get("name") or (r.get("h") and r.get("h").get("name"))`; `None` when it raises. */
  function RecordName(r: Entries): (n: Option<Value>)
    ensures Truthy(Get(r, "name")) ==> n == Some(Get(r, "name"))
    ensures n.None? <==> !Truthy(Get(r, "name")) && Truthy(Get(r, "h")) && !Get(r, "h").Dict?
  {
    var name := Get(r, "name");
    if Truthy(name) then Some(name) else AndGet(Get(r, "h"), "name")
  }

  /** Which retriever a record came from. */
  datatype Source = Baseline | Embedding

  function Label(src: Source): string
  {
    match src
    case Baseline => "baseline"
    case Embedding => "embedding"
  }

  /**
   * The de-duplication key of a record, `None` when computing it raises.
   * For a baseline record the conditional expression binds loosest, so
   * `hotel_id` (of the record, else of its `hotel`) is consulted only when
   * the record has a dictionary `hotel`; the name is computed in any case.
   * For an embedding record the key is the first truthy of `hotel_id`,
   * `id`, `node.hotel_id` and `name`.
   */
  function Key(src: Source, r: Entries): Option<Value>
  {
    match src
    case Baseline => BaselineKey(r)
    case Embedding => EmbeddingKey(r)
  }

  function BaselineKey(r: Entries): (k: Option<Value>)
    ensures k.None? <==> RecordName(r).None?
    ensures !Get(r, "hotel").Dict? ==> k == RecordName(r)
    ensures k.Some? && Get(r, "hotel").Dict? ==>
      && (Truthy(Get(r, "hotel_id")) ==> k.value == Get(r, "hotel_id"))
      && (!Truthy(Get(r, "hotel_id")) && Truthy(Get(Get(r, "hotel").entries, "hotel_id")) ==>
            k.value == Get(Get(r, "hotel").entries, "hotel_id"))
      && (!Truthy(Get(r, "hotel_id")) && !Truthy(Get(Get(r, "hotel").entries, "hotel_id")) ==>
            k == RecordName(r))
  {
    var hotel := Get(r, "hotel");
    var hid := if hotel.Dict? then Or(Get(r, "hotel_id"), Get(hotel.entries, "hotel_id")) else Null;
    match RecordName(r)
    case None => None
    case Some(name) => Some(Or(hid, name))
  }

  function EmbeddingKey(r: Entries): (k: Option<Value>)
    ensures Truthy(Get(r, "hotel_id")) ==> k == Some(Get(r, "hotel_id"))
    ensures !Truthy(Get(r, "hotel_id")) && Truthy(Get(r, "id")) ==> k == Some(Get(r, "id"))
    ensures !Truthy(Get(r, "hotel_id")) && !Truthy(Get(r, "id")) ==>
      var node := Get(r, "node");
      && (k.None? <==> Truthy(node) && !node.Dict?)
      && (node.Dict? && Truthy(Get(node.entries, "hotel_id")) ==> k == Some(Get(node.entries, "hotel_id")))
      && (!Truthy(node) || (node.Dict? && !Truthy(Get(node.entries, "hotel_id"))) ==> k == Some(Get(r, "name")))
  {
    var first := Or(Get(r, "hotel_id"), Get(r, "id"));
    var hid := if Truthy(first) then Some(first) else AndGet(Get(r, "node"), "hotel_id");
    match hid
    case None => None
    case Some(h) => Some(Or(h, Get(r, "name")))
  }

  /** What a set can hold: lists and dictionaries are unhashable. */
  predicate Hashable(v: Value)
  {
    !v.List? && !v.Dict?
  }

  /** The merge raises on a key that cannot be computed, or is truthy and cannot be looked up in a set. */
  predicate KeyRaises(key: Option<Value>)
  {
    key.None? || (Truthy(key.value) && !Hashable(key.value))
  }

  predicate Raises(src: Source, r: Entries)
  {
    KeyRaises(Key(src, r))
  }

  /** `{**r, "source": label}` */
  function Tagged(r: Entries, src: Source): (t: Entries)
    ensures Lookup(t, "source") == Some(Str(Label(src)))
    ensures forall q :: q != "source" ==> Lookup(t, q) == Lookup(r, q)
  {
    Put(r, "source", Str(Label(src)))
  }

  // ---------------------------------------------------------------------
  // First-seen-wins de-duplication
  // ---------------------------------------------------------------------

  /** A record with its key and the retriever it came from. */
  datatype Cand = Cand(key: Value, record: Entries, src: Source)

  /** The records of one retriever, keyed by `keyOf`, as candidates, or `None` when one of them raises. */
  function KeyedBy(keyOf: Entries -> Option<Value>, src: Source, recs: seq<Entries>): (r: Option<seq<Cand>>)
    ensures r.None? <==> exists i :: 0 <= i < |recs| && KeyRaises(keyOf(recs[i]))
    ensures r.Some? ==> |r.value| == |recs| && forall i :: 0 <= i < |recs| ==>
      r.value[i] == Cand(keyOf(recs[i]).value, recs[i], src)
    decreases |recs|
  {
    if recs == [] then Some([])
    else
      var n := |recs| - 1;
      assert forall i :: 0 <= i < n ==> recs[..n][i] == recs[i];
      match KeyedBy(keyOf, src, recs[..n])
      case None => None
      case Some(cs) =>
        if KeyRaises(keyOf(recs[n])) then None
        else Some(cs + [Cand(keyOf(recs[n]).value, recs[n], src)])
  }

  /** The records of one retriever as candidates, or `None` when one of them raises. */
  function Cands(src: Source, recs: seq<Entries>): (r: Option<seq<Cand>>)
    ensures r.None? <==> exists i :: 0 <= i < |recs| && Raises(src, recs[i])
    ensures r.Some? ==> |r.value| == |recs| && forall i :: 0 <= i < |recs| ==>
      r.value[i] == Cand(Key(src, recs[i]).value, recs[i], src)
  {
    match src
    case Baseline => KeyedBy(BaselineKey, src, recs)
    case Embedding => KeyedBy(EmbeddingKey, src, recs)
  }

  function KeysIn(cs: seq<Cand>): (ks: set<Value>)
    ensures forall i :: 0 <= i < |cs| ==> cs[i].key in ks
    ensures forall k :: k in ks ==> exists i :: 0 <= i < |cs| && cs[i].key == k
  {
    set i | 0 <= i < |cs| :: cs[i].key
  }

  lemma KeysInSnoc(cs: seq<Cand>, c: Cand)
    ensures KeysIn(cs + [c]) == KeysIn(cs) + {c.key}
  {
    assert forall i :: 0 <= i < |cs| ==> (cs + [c])[i] == cs[i];
    assert (cs + [c])[|cs|] == c;
  }

  /** A candidate is kept when its key is truthy and no candidate kept before it has that key. */
  function Kept(cs: seq<Cand>): (r: seq<Cand>)
    ensures |r| <= |cs|
    ensures forall i :: 0 <= i < |r| ==> r[i] in cs && Truthy(r[i].key)
    decreases |cs|
  {
    if cs == [] then []
    else
      var n := |cs| - 1;
      assert forall c :: c in cs[..n] ==> c in cs;
      var prev := Kept(cs[..n]);
      if Truthy(cs[n].key) && cs[n].key !in KeysIn(prev) then prev + [cs[n]] else prev
  }

  /** The position of the first candidate with key `k`. */
  function FirstIndex(cs: seq<Cand>, k: Value): (i: nat)
    requires k in KeysIn(cs)
    ensures i < |cs| && cs[i].key == k
    ensures forall j :: 0 <= j < i ==> cs[j].key != k
    decreases |cs|
  {
    var n := |cs| - 1;
    assert forall j :: 0 <= j < n ==> cs[..n][j] == cs[j];
    if k in KeysIn(cs[..n]) then FirstIndex(cs[..n], k) else n
  }

  /** Every kept key is the key of some candidate. */
  lemma KeptKeysFrom(cs: seq<Cand>)
    ensures forall i :: 0 <= i < |Kept(cs)| ==> Kept(cs)[i].key in KeysIn(cs)
  {
    forall i | 0 <= i < |Kept(cs)|
      ensures Kept(cs)[i].key in KeysIn(cs)
    {
      var j :| 0 <= j < |cs| && cs[j] == Kept(cs)[i];
    }
  }

  /** Nothing truthy is lost: every truthy key of the candidates is the key of a kept one. */
  lemma {:induction false} KeptComplete(cs: seq<Cand>)
    ensures forall i :: 0 <= i < |cs| && Truthy(cs[i].key) ==> cs[i].key in KeysIn(Kept(cs))
    decreases |cs|
  {
    if cs != [] {
      var n := |cs| - 1;
      var p := cs[..n];
      KeptComplete(p);
      var kp := Kept(p);
      assert forall i :: 0 <= i < n ==> p[i] == cs[i];
      if Truthy(cs[n].key) && cs[n].key !in KeysIn(kp) {
        KeptTakes(cs);
        KeysInSnoc(kp, cs[n]);
      } else {
        KeptSkips(cs);
      }
    }
  }

  /** For each kept key, the candidate kept is the first one holding that key. */
  lemma {:induction false} KeptIsFirst(cs: seq<Cand>)
    ensures forall i :: 0 <= i < |Kept(cs)| ==>
      Kept(cs)[i].key in KeysIn(cs) && Kept(cs)[i] == cs[FirstIndex(cs, Kept(cs)[i].key)]
    decreases |cs|
  {
    KeptKeysFrom(cs);
    if cs != [] {
      var n := |cs| - 1;
      var p := cs[..n];
      KeptIsFirst(p);
      KeptKeysFrom(p);
      var kp := Kept(p);
      FirstIndexLast(cs);
      if Truthy(cs[n].key) && cs[n].key !in KeysIn(kp) {
        KeptComplete(p);
        assert cs[n].key !in KeysIn(p);
        assert Kept(cs) == kp + [cs[n]];
        forall i | 0 <= i < |Kept(cs)|
          ensures Kept(cs)[i] == cs[FirstIndex(cs, Kept(cs)[i].key)]
        {
          if i < |kp| {
            assert Kept(cs)[i] == kp[i];
          }
        }
      } else {
        assert Kept(cs) == kp;
      }
    }
  }

  /** The first index in `cs` of a key of all but its last candidate is the one in that prefix. */
  lemma FirstIndexLast(cs: seq<Cand>)
    requires cs != []
    ensures var p := cs[..|cs| - 1];
      && (forall i :: 0 <= i < |p| ==> p[i] == cs[i])
      && (forall k :: k in KeysIn(p) ==> FirstIndex(cs, k) == FirstIndex(p, k))
      && (cs[|cs| - 1].key !in KeysIn(p) ==> FirstIndex(cs, cs[|cs| - 1].key) == |p|)
  {
  }

  /** The entries of `hs` are candidates of `cs` in the order of their first occurrences there. */
  predicate InFirstOrder(cs: seq<Cand>, hs: seq<Cand>)
  {
    forall i, j :: 0 <= i < j < |hs| ==>
      hs[i].key in KeysIn(cs) && hs[j].key in KeysIn(cs) &&
      FirstIndex(cs, hs[i].key) < FirstIndex(cs, hs[j].key)
  }

  /** The kept candidates are in the order of their first occurrences. */
  lemma {:induction false} KeptOrdered(cs: seq<Cand>)
    ensures InFirstOrder(cs, Kept(cs))
    decreases |cs|
  {
    if cs != [] {
      var n := |cs| - 1;
      var p := cs[..n];
      KeptOrdered(p);
      KeptKeysFrom(p);
      assert cs == p + [cs[n]];
      if Truthy(cs[n].key) && cs[n].key !in KeysIn(Kept(p)) {
        KeptTakes(cs);
        KeptComplete(p);
        assert cs[n].key !in KeysIn(p);
        OrderedAppendNew(p, Kept(p), cs[n]);
      } else {
        KeptSkips(cs);
        OrderedExtend(p, Kept(p), cs[n]);
      }
    }
  }

  /** A last candidate with a truthy key not kept before is kept, after the rest. */
  lemma KeptTakes(cs: seq<Cand>)
    requires cs != []
    requires Truthy(cs[|cs| - 1].key) && cs[|cs| - 1].key !in KeysIn(Kept(cs[..|cs| - 1]))
    ensures Kept(cs) == Kept(cs[..|cs| - 1]) + [cs[|cs| - 1]]
  {
  }

  /** Any other last candidate is dropped. */
  lemma KeptSkips(cs: seq<Cand>)
    requires cs != []
    requires !(Truthy(cs[|cs| - 1].key) && cs[|cs| - 1].key !in KeysIn(Kept(cs[..|cs| - 1])))
    ensures Kept(cs) == Kept(cs[..|cs| - 1])
  {
  }

  /** Appending a candidate to the source alone keeps first-occurrence order. */
  lemma OrderedExtend(p: seq<Cand>, hs: seq<Cand>, c: Cand)
    requires InFirstOrder(p, hs)
    requires forall i :: 0 <= i < |hs| ==> hs[i].key in KeysIn(p)
    ensures InFirstOrder(p + [c], hs)
  {
    var cs := p + [c];
    assert cs[..|cs| - 1] == p;
    FirstIndexLast(cs);
    KeysInSnoc(p, c);
  }

  /** Appending a candidate with a new key to both sides keeps first-occurrence order. */
  lemma OrderedAppendNew(p: seq<Cand>, hs: seq<Cand>, c: Cand)
    requires InFirstOrder(p, hs)
    requires forall i :: 0 <= i < |hs| ==> hs[i].key in KeysIn(p)
    requires c.key !in KeysIn(p)
    ensures InFirstOrder(p + [c], hs + [c])
  {
    var cs := p + [c];
    assert cs[..|cs| - 1] == p;
    FirstIndexLast(cs);
    KeysInSnoc(p, c);
    forall i, j | 0 <= i < j < |hs + [c]|
      ensures (hs + [c])[i].key in KeysIn(cs) && (hs + [c])[j].key in KeysIn(cs)
      ensures FirstIndex(cs, (hs + [c])[i].key) < FirstIndex(cs, (hs + [c])[j].key)
    {
      assert (hs + [c])[i] == hs[i];
      if j < |hs| {
        assert (hs + [c])[j] == hs[j];
      } else {
        assert FirstIndex(p, hs[i].key) < |p|;
      }
    }
  }

  /** No two kept candidates share a key. */
  lemma KeptDistinct(cs: seq<Cand>)
    ensures forall i, j :: 0 <= i < j < |Kept(cs)| ==> Kept(cs)[i].key != Kept(cs)[j].key
  {
    KeptOrdered(cs);
  }

  /** De-duplicating a concatenation first keeps what the first part keeps on its own, then candidates of the second. */
  lemma {:induction false} KeptAppend(a: seq<Cand>, b: seq<Cand>)
    ensures |Kept(a)| <= |Kept(a + b)| && Kept(a + b)[..|Kept(a)|] == Kept(a)
    ensures forall i :: |Kept(a)| <= i < |Kept(a + b)| ==> Kept(a + b)[i] in b
    decreases |b|
  {
    if b == [] {
      assert a + b == a;
    } else {
      var b' := b[..|b| - 1];
      assert (a + b)[..|a + b| - 1] == a + b';
      assert forall c :: c in b' ==> c in b;
      KeptAppend(a, b');
    }
  }

  // ---------------------------------------------------------------------
  // Merging
  // ---------------------------------------------------------------------

  /** `_merge_results` on the candidates: the kept baseline and embedding records, or `None` when it raises. */
  function Merge(baseline: seq<Entries>, embedding: seq<Entries>): (r: Option<seq<Cand>>)
    ensures r.None? <==>
      (exists i :: 0 <= i < |baseline| && Raises(Baseline, baseline[i])) ||
      (exists i :: 0 <= i < |embedding| && Raises(Embedding, embedding[i]))
  {
    match (Cands(Baseline, baseline), Cands(Embedding, embedding))
    case (Some(bc), Some(ec)) => Some(Kept(bc + ec))
    case _ => None
  }

  /** The kept records, each tagged with its source. */
  function TaggedRecords(hs: seq<Cand>): (ts: seq<Entries>)
    ensures |ts| == |hs|
    ensures forall i :: 0 <= i < |hs| ==> ts[i] == Tagged(hs[i].record, hs[i].src)
  {
    seq(|hs|, i requires 0 <= i < |hs| => Tagged(hs[i].record, hs[i].src))
  }

  /** A kept hotel's record says which retriever it came from and is otherwise unchanged. */
  lemma TaggedRecordsMeaning(hs: seq<Cand>, i: nat)
    requires i < |hs|
    ensures i < |TaggedRecords(hs)|
    ensures Lookup(TaggedRecords(hs)[i], "source") == Some(Str(Label(hs[i].src)))
    ensures forall q :: q != "source" ==> Lookup(TaggedRecords(hs)[i], q) == Lookup(hs[i].record, q)
  {
    var t := TaggedRecords(hs)[i];
    assert t == Tagged(hs[i].record, hs[i].src);
  }

  function HotelValues(hs: seq<Cand>): (vs: seq<Value>)
    ensures |vs| == |hs|
  {
    seq(|hs|, i requires 0 <= i < |hs| => Dict(Tagged(hs[i].record, hs[i].src)))
  }

  /** One step of a merge pass: a new truthy key adds its tagged record and its key, anything else changes nothing. */
  lemma PassStep(all: seq<Cand>, c: Cand)
    ensures Truthy(c.key) && c.key !in KeysIn(Kept(all)) ==>
      && HotelValues(Kept(all + [c])) == HotelValues(Kept(all)) + [Dict(Tagged(c.record, c.src))]
      && KeysIn(Kept(all + [c])) == KeysIn(Kept(all)) + {c.key}
    ensures !(Truthy(c.key) && c.key !in KeysIn(Kept(all))) ==> Kept(all + [c]) == Kept(all)
  {
    assert (all + [c])[..|all|] == all;
    if Truthy(c.key) && c.key !in KeysIn(Kept(all)) {
      KeysInSnoc(Kept(all), c);
      HotelValuesSnoc(Kept(all), c);
    }
  }

  /** The merged dictionary: `{"hotels": [...], "reviews": []}`. */
  function Combined(hs: seq<Cand>): (d: Entries)
    ensures |d| == 2 && d[0].0 == "hotels" && d[1] == ("reviews", List([]))
    ensures d[0].1.List? && |d[0].1.items| == |hs|
    ensures forall i :: 0 <= i < |hs| ==> d[0].1.items[i] == Dict(TaggedRecords(hs)[i])
  {
    [("hotels", List(HotelValues(hs))), ("reviews", List([]))]
  }

  lemma HotelValuesSnoc(hs: seq<Cand>, c: Cand)
    ensures HotelValues(hs + [c]) == HotelValues(hs) + [Dict(Tagged(c.record, c.src))]
  {
    var a := HotelValues(hs + [c]);
    var b := HotelValues(hs) + [Dict(Tagged(c.record, c.src))];
    forall i | 0 <= i < |a|
      ensures a[i] == b[i]
    {
      if i < |hs| {
        assert (hs + [c])[i] == hs[i];
      }
    }
  }

  /**
   * One loop of `_merge_results` over the records of `src`, whose key
   * expression is `keyOf`: the hotels and the seen-set so far are those
   * kept from the candidates `before`. `ok` is false when a record raises.
   */
  method MergePass(keyOf: Entries -> Option<Value>, src: Source, recs: seq<Entries>, ghost before: seq<Cand>,
                   hotels0: seq<Value>, seen0: set<Value>)
    returns (ok: bool, hotels: seq<Value>, seen: set<Value>)
    requires hotels0 == HotelValues(Kept(before)) && seen0 == KeysIn(Kept(before))
    ensures ok <==> KeyedBy(keyOf, src, recs).Some?
    ensures ok ==> hotels == HotelValues(Kept(before + KeyedBy(keyOf, src, recs).value))
    ensures ok ==> seen == KeysIn(Kept(before + KeyedBy(keyOf, src, recs).value))
  {
    hotels, seen := hotels0, seen0;
    ghost var cs: seq<Cand> := [];
    assert before + cs == before;
    for k := 0 to |recs|
      invariant KeyedBy(keyOf, src, recs[..k]) == Some(cs)
      invariant hotels == HotelValues(Kept(before + cs))
      invariant seen == KeysIn(Kept(before + cs))
    {
      var added: bool;
      added, hotels, seen, cs := PassAt(keyOf, src, recs, k, before, cs, hotels, seen);
      if !added {
        return false, hotels, seen;
      }
    }
    assert recs[..|recs|] == recs;
    ok := true;
  }

  /** Pass `k` of a merge pass: record `k` added, or `ok` false when its key raises. */
  method PassAt(keyOf: Entries -> Option<Value>, src: Source, recs: seq<Entries>, k: nat, ghost before: seq<Cand>,
                ghost cs: seq<Cand>, hotels0: seq<Value>, seen0: set<Value>)
    returns (ok: bool, hotels: seq<Value>, seen: set<Value>, ghost cs': seq<Cand>)
    requires k < |recs| && KeyedBy(keyOf, src, recs[..k]) == Some(cs)
    requires hotels0 == HotelValues(Kept(before + cs)) && seen0 == KeysIn(Kept(before + cs))
    ensures !ok ==> KeyedBy(keyOf, src, recs).None?
    ensures ok ==> KeyedBy(keyOf, src, recs[..k + 1]) == Some(cs')
    ensures ok ==> hotels == HotelValues(Kept(before + cs')) && seen == KeysIn(Kept(before + cs'))
  {
    KeyedByStep(keyOf, src, recs, k, cs);
    ok, hotels, seen := PassRecord(keyOf, src, recs[k], before + cs, hotels0, seen0);
    cs' := cs;
    if ok {
      var c := Cand(keyOf(recs[k]).value, recs[k], src);
      SnocAssoc(before, cs, c);
      cs' := cs + [c];
    }
  }

  /** Keying one more record: the prefix grows by its candidate, unless its key raises. */
  lemma KeyedByStep(keyOf: Entries -> Option<Value>, src: Source, recs: seq<Entries>, k: nat, cs: seq<Cand>)
    requires k < |recs| && KeyedBy(keyOf, src, recs[..k]) == Some(cs)
    ensures KeyRaises(keyOf(recs[k])) ==> KeyedBy(keyOf, src, recs).None?
    ensures !KeyRaises(keyOf(recs[k])) ==>
      KeyedBy(keyOf, src, recs[..k + 1]) == Some(cs + [Cand(keyOf(recs[k]).value, recs[k], src)])
  {
    assert recs[..k + 1][..k] == recs[..k];
  }

  lemma SnocAssoc<X>(a: seq<X>, b: seq<X>, x: X)
    ensures a + (b + [x]) == a + b + [x]
  {
  }

  /** The body of a merge pass on one record: `ok` is false when its key raises. */
  method PassRecord(keyOf: Entries -> Option<Value>, src: Source, rec: Entries, ghost all: seq<Cand>,
                    hotels0: seq<Value>, seen0: set<Value>)
    returns (ok: bool, hotels: seq<Value>, seen: set<Value>)
    requires hotels0 == HotelValues(Kept(all)) && seen0 == KeysIn(Kept(all))
    ensures ok <==> !KeyRaises(keyOf(rec))
    ensures ok ==> hotels == HotelValues(Kept(all + [Cand(keyOf(rec).value, rec, src)]))
    ensures ok ==> seen == KeysIn(Kept(all + [Cand(keyOf(rec).value, rec, src)]))
  {
    hotels, seen := hotels0, seen0;
    var key := keyOf(rec);
    if key.None? || (Truthy(key.value) && !Hashable(key.value)) {
      return false, hotels, seen;
    }
    ghost var c := Cand(key.value, rec, src);
    PassStep(all, c);
    if Truthy(key.value) && key.value !in seen {
      seen := seen + {key.value};
      hotels := hotels + [Dict(Tagged(rec, src))];
    }
    ok := true;
  }

  /** `_merge_results`: a pass over the baseline records, then one over the embedding records, sharing one seen-set. */
  method MergeResults(baseline: seq<Entries>, embedding: seq<Entries>) returns (r: Option<Entries>)
    ensures r.None? <==> Merge(baseline, embedding).None?
    ensures r.Some? ==> r.value == Combined(Merge(baseline, embedding).value)
  {
    var ok, hotels, seen := MergePass(BaselineKey, Baseline, baseline, [], [], {});
    if !ok {
      return None;
    }
    ghost var bc := Cands(Baseline, baseline).value;
    assert [] + bc == bc;
    ok, hotels, seen := MergePass(EmbeddingKey, Embedding, embedding, bc, hotels, seen);
    if !ok {
      return None;
    }
    r := Some([("hotels", List(hotels)), ("reviews", List([]))]);
  }

  /**
   * The merged hotels hold no key twice, every key is truthy, and there
   * are no more of them than records retrieved.
   */
  lemma MergeDistinct(baseline: seq<Entries>, embedding: seq<Entries>)
    requires Merge(baseline, embedding).Some?
    ensures var hs := Merge(baseline, embedding).value;
      && |hs| <= |baseline| + |embedding|
      && (forall i :: 0 <= i < |hs| ==> Truthy(hs[i].key))
      && (forall i, j :: 0 <= i < j < |hs| ==> hs[i].key != hs[j].key)
  {
    KeptDistinct(Cands(Baseline, baseline).value + Cands(Embedding, embedding).value);
  }

  /**
   * The merged hotels are the baseline's own kept records, followed by
   * records of the embedding search, each tagged with its source.
   */
  lemma MergeBaselineFirst(baseline: seq<Entries>, embedding: seq<Entries>)
    requires Merge(baseline, embedding).Some?
    ensures var hs := Merge(baseline, embedding).value;
      var kb := Kept(Cands(Baseline, baseline).value);
      && |kb| <= |hs| && hs[..|kb|] == kb
      && (forall i :: 0 <= i < |kb| ==> hs[i].src == Baseline && hs[i].record in baseline)
      && (forall i :: |kb| <= i < |hs| ==> hs[i].src == Embedding && hs[i].record in embedding)
  {
    MergeIsKept(baseline, embedding);
    CandsFrom(Baseline, baseline);
    CandsFrom(Embedding, embedding);
    KeptSplit(Cands(Baseline, baseline).value, Cands(Embedding, embedding).value, baseline, embedding);
  }

  /** Every candidate of `cs` comes from `src` and holds one of `recs`. */
  predicate AllFrom(cs: seq<Cand>, src: Source, recs: seq<Entries>)
  {
    forall c :: c in cs ==> c.src == src && c.record in recs
  }

  lemma CandsFrom(src: Source, recs: seq<Entries>)
    requires Cands(src, recs).Some?
    ensures AllFrom(Cands(src, recs).value, src, recs)
  {
    var cs := Cands(src, recs).value;
    forall c | c in cs
      ensures c.src == src && c.record in recs
    {
      var j :| 0 <= j < |cs| && cs[j] == c;
      assert recs[j] in recs;
    }
  }

  /** De-duplicating baseline candidates followed by embedding candidates, split at the baseline's own kept records. */
  lemma KeptSplit(bc: seq<Cand>, ec: seq<Cand>, baseline: seq<Entries>, embedding: seq<Entries>)
    requires AllFrom(bc, Baseline, baseline) && AllFrom(ec, Embedding, embedding)
    ensures var hs := Kept(bc + ec);
      var kb := Kept(bc);
      && |kb| <= |hs| && hs[..|kb|] == kb
      && (forall i :: 0 <= i < |kb| ==> hs[i].src == Baseline && hs[i].record in baseline)
      && (forall i :: |kb| <= i < |hs| ==> hs[i].src == Embedding && hs[i].record in embedding)
  {
    KeptAppend(bc, ec);
    var hs := Kept(bc + ec);
    var kb := Kept(bc);
    forall i | 0 <= i < |kb|
      ensures hs[i].src == Baseline && hs[i].record in baseline
    {
      assert hs[i] == kb[i];
    }
  }

  /**
   * Every record whose key is truthy is represented: its key is the key
   * of a merged hotel, which is the first record holding that key,
   * baseline records before embedding records.
   */
  lemma MergeFirstWins(baseline: seq<Entries>, embedding: seq<Entries>)
    requires Merge(baseline, embedding).Some?
    ensures FirstWins(Cands(Baseline, baseline).value + Cands(Embedding, embedding).value, Merge(baseline, embedding).value)
  {
    MergeIsKept(baseline, embedding);
    KeptFirstWins(Cands(Baseline, baseline).value + Cands(Embedding, embedding).value);
  }

  /** The merged list is what de-duplicating the concatenated candidates keeps. */
  lemma MergeIsKept(baseline: seq<Entries>, embedding: seq<Entries>)
    requires Merge(baseline, embedding).Some?
    ensures Cands(Baseline, baseline).Some? && Cands(Embedding, embedding).Some?
    ensures Merge(baseline, embedding).value == Kept(Cands(Baseline, baseline).value + Cands(Embedding, embedding).value)
  {
  }

  /**
   * `hs` keeps the first occurrence of every key: each truthy key of `all`
   * is the key of an entry of `hs`, and each entry of `hs` is a candidate
   * of `all` with no earlier candidate holding its key.
   */
  predicate FirstWins(all: seq<Cand>, hs: seq<Cand>)
  {
    && (forall i :: 0 <= i < |all| && Truthy(all[i].key) ==> all[i].key in KeysIn(hs))
    && (forall i :: 0 <= i < |hs| ==>
          exists j :: 0 <= j < |all| && hs[i] == all[j] && (forall j' :: 0 <= j' < j ==> all[j'].key != hs[i].key))
  }

  /** De-duplication keeps the first occurrence of every truthy key. */
  lemma KeptFirstWins(all: seq<Cand>)
    ensures FirstWins(all, Kept(all))
  {
    KeptComplete(all);
    KeptIsFirst(all);
    var hs := Kept(all);
    forall i | 0 <= i < |hs|
      ensures exists j :: 0 <= j < |all| && hs[i] == all[j] && forall j' :: 0 <= j' < j ==> all[j'].key != hs[i].key
    {
      var j := FirstIndex(all, hs[i].key);
    }
  }

  // ---------------------------------------------------------------------
  // Context text
  // ---------------------------------------------------------------------

  const NoContext := "No relevant hotels " + "or reviews found in the knowledge graph."
  const Header := "Retrieved hotels:"

  /** `h.get("avg_score") or h.get("average_reviews_score") or h.get("score")` */
  function AvgScore(h: Entries): Value
  {
    Or(Or(Get(h, "avg_score"), Get(h, "average_reviews_score")), Get(h, "score"))
  }

  /** The part naming the source, with `"unknown"` for a record that has none. */
  function Via(h: Entries, num: real -> string): string
  {
    "  [via: " + ToStr(LookupOr(h, "source", Str("unknown")), num) + "]"
  }

  /** ` (avg_score=avg)` unless the score is `None`. */
  function ScorePart(h: Entries, num: real -> string): string
  {
    var avg := AvgScore(h);
    if avg != Null then " (avg_score=" + ToStr(avg, num) + ")" else ""
  }

  /**
   * One hotel's line: `- name`, then ` (avg_score=avg)` unless the score is
   * `None`, then the source; `None` when the name raises.
   */
  function HotelLine(h: Entries, num: real -> string): (r: Option<string>)
    ensures r.None? <==> RecordName(h).None?
    ensures r.Some? ==>
      var line := r.value;
      var head := "- " + ToStr(RecordName(h).value, num);
      && StartsWith(line, head)
      && |Via(h, num)| <= |line| && line[|line| - |Via(h, num)|..] == Via(h, num)
      && (AvgScore(h) == Null <==> |line| == |head| + |Via(h, num)|)
  {
    match RecordName(h)
    case None => None
    case Some(name) =>
      Framed("- " + ToStr(name, num), ScorePart(h, num), Via(h, num));
      Some("- " + ToStr(name, num) + ScorePart(h, num) + Via(h, num))
  }

  /** A string built as `head + mid + tail` starts with `head` and ends with `tail`. */
  lemma Framed(head: string, mid: string, tail: string)
    ensures var s := head + mid + tail;
      && |s| == |head| + |mid| + |tail|
      && StartsWith(s, head)
      && s[|s| - |tail|..] == tail
  {
    var s := head + mid + tail;
    assert s[..|head|] == head;
    assert s[|s| - |tail|..] == tail;
  }

  /** One line of `_build_context_text`, built piece by piece. */
  method FormatLine(h: Entries, num: real -> string) returns (r: Option<string>)
    ensures r == HotelLine(h, num)
  {
    var name := RecordName(h);
    if name.None? {
      return None;
    }
    var avg := AvgScore(h);
    var line := "- " + ToStr(name.value, num);
    if avg != Null {
      line := line + (" (avg_score=" + ToStr(avg, num) + ")");
    } else {
      assert line + ScorePart(h, num) == line;
    }
    line := line + ("  [via: " + ToStr(LookupOr(h, "source", Str("unknown")), num) + "]");
    r := Some(line);
  }

  /** The lines of all records under `lineOf`, in order, or `None` when one of them raises. */
  function LinesBy(lineOf: Entries -> Option<string>, hs: seq<Entries>): (r: Option<seq<string>>)
    ensures r.None? <==> exists i :: 0 <= i < |hs| && lineOf(hs[i]).None?
    ensures r.Some? ==> |r.value| == |hs| && forall i :: 0 <= i < |hs| ==> Some(r.value[i]) == lineOf(hs[i])
    decreases |hs|
  {
    if hs == [] then Some([])
    else
      var n := |hs| - 1;
      assert forall i :: 0 <= i < n ==> hs[..n][i] == hs[i];
      match LinesBy(lineOf, hs[..n])
      case None => None
      case Some(ls) =>
        match lineOf(hs[n])
        case None => None
        case Some(l) => Some(ls + [l])
  }

  function LineOf(num: real -> string): Entries -> Option<string>
  {
    h => HotelLine(h, num)
  }

  /** The lines of all hotels, in order, or `None` when a name raises. */
  function Lines(hs: seq<Entries>, num: real -> string): (r: Option<seq<string>>)
    ensures r.None? <==> exists i :: 0 <= i < |hs| && HotelLine(hs[i], num).None?
    ensures r.Some? ==> |r.value| == |hs| && forall i :: 0 <= i < |hs| ==> Some(r.value[i]) == HotelLine(hs[i], num)
  {
    LinesBy(LineOf(num), hs)
  }

  /** `_build_context_text` on the merged hotels, `None` when it raises. */
  function ContextText(hotels: seq<Entries>, num: real -> string): (r: Option<string>)
    ensures hotels == [] ==> r == Some(NoContext)
    ensures r.None? <==> Lines(hotels, num).None?
  {
    if hotels == [] then Some(NoContext)
    else
      match Lines(hotels, num)
      case None => None
      case Some(ls) => Some(Join("\n", [Header] + ls))
  }

  /** `_build_context_text`: the header, then a line per hotel, joined by newlines. */
  method BuildContextText(hotels: seq<Entries>, num: real -> string) returns (r: Option<string>)
    ensures r == ContextText(hotels, num)
  {
    if hotels == [] {
      return Some(NoContext);
    }
    var ls := [];
    for k := 0 to |hotels|
      invariant LinesBy(LineOf(num), hotels[..k]) == Some(ls)
    {
      var ok;
      ok, ls := NextLine(hotels, k, num, ls);
      if !ok {
        return None;
      }
    }
    assert hotels[..|hotels|] == hotels;
    r := Some(Join("\n", [Header] + ls));
  }

  /** One pass of the loop of `_build_context_text`: the line of `hotels[k]` appended, or `ok` false when it raises. */
  method NextLine(hotels: seq<Entries>, k: nat, num: real -> string, ls: seq<string>) returns (ok: bool, ls': seq<string>)
    requires k < |hotels| && LinesBy(LineOf(num), hotels[..k]) == Some(ls)
    ensures ok ==> LinesBy(LineOf(num), hotels[..k + 1]) == Some(ls')
    ensures !ok ==> LinesBy(LineOf(num), hotels).None?
  {
    var line := FormatLine(hotels[k], num);
    LinesByStep(LineOf(num), hotels, k);
    if line.None? {
      LinesByNone(LineOf(num), hotels, k);
      return false, ls;
    }
    ok, ls' := true, ls + [line.value];
  }

  /** The lines of one more record. */
  lemma LinesByStep(lineOf: Entries -> Option<string>, hs: seq<Entries>, k: nat)
    requires k < |hs| && LinesBy(lineOf, hs[..k]).Some?
    ensures LinesBy(lineOf, hs[..k + 1]) ==
      if lineOf(hs[k]).Some? then Some(LinesBy(lineOf, hs[..k]).value + [lineOf(hs[k]).value]) else None
  {
    assert hs[..k + 1][..k] == hs[..k];
  }

  /** One record that raises makes every longer prefix raise, the whole list included. */
  lemma LinesByNone(lineOf: Entries -> Option<string>, hs: seq<Entries>, k: nat)
    requires k < |hs| && lineOf(hs[k]).None?
    ensures LinesBy(lineOf, hs).None?
  {
  }

  /** The fixed message appears exactly when nothing was retrieved. */
  lemma NoContextIff(hotels: seq<Entries>, num: real -> string)
    ensures ContextText(hotels, num) == Some(NoContext) <==> hotels == []
  {
    if hotels != [] && Lines(hotels, num).Some? {
      HeaderFirst(Lines(hotels, num).value);
    }
  }

  /** Text that starts with the header is not the fixed message. */
  lemma HeaderFirst(ls: seq<string>)
    ensures Join("\n", [Header] + ls) != NoContext
  {
    var t := Join("\n", [Header] + ls);
    JoinFirst("\n", [Header] + ls);
    assert ([Header] + ls)[0] == Header;
    assert Header[1] == 'e' && NoContext[1] == 'o';
    assert t[1] == t[..|Header|][1];
  }

  /**
   * Unless a name, score or source writes a newline, the context text
   * reads back as the header followed by exactly one line per hotel, in
   * the merged order.
   */
  lemma ContextOneLinePerHotel(hotels: seq<Entries>, num: real -> string)
    requires hotels != [] && Lines(hotels, num).Some?
    requires forall i :: 0 <= i < |hotels| ==> '\n' !in HotelLine(hotels[i], num).value
    ensures var parts := Split(ContextText(hotels, num).value, "\n");
      && |parts| == |hotels| + 1 && parts[0] == Header
      && forall i :: 0 <= i < |hotels| ==> Some(parts[i + 1]) == HotelLine(hotels[i], num)
  {
    HeaderThenLines(LineOf(num), hotels);
  }

  /** `ContextOneLinePerHotel` for any way of writing a line. */
  lemma HeaderThenLines(lineOf: Entries -> Option<string>, hs: seq<Entries>)
    requires LinesBy(lineOf, hs).Some?
    requires forall i :: 0 <= i < |hs| ==> '\n' !in lineOf(hs[i]).value
    ensures var parts := Split(Join("\n", [Header] + LinesBy(lineOf, hs).value), "\n");
      && |parts| == |hs| + 1 && parts[0] == Header
      && forall i :: 0 <= i < |hs| ==> Some(parts[i + 1]) == lineOf(hs[i])
  {
    var ls := LinesBy(lineOf, hs).value;
    var parts := [Header] + ls;
    forall k | 0 <= k < |parts|
      ensures '\n' !in parts[k]
    {
      if k > 0 {
        assert parts[k] == ls[k - 1];
        assert Some(ls[k - 1]) == lineOf(hs[k - 1]);
      }
    }
    SplitJoin(parts, '\n');
  }

  // ---------------------------------------------------------------------
  // The pipeline
  // ---------------------------------------------------------------------

  /** The graph database (running a Cypher template), the embedding search and number formatting. */
  datatype Engines = Engines(
    runQuery: (string, Entries) -> seq<Entries>,
    semSearch: (string, int) -> seq<Entries>,
    num: real -> string)

  function Records(rs: seq<Entries>): (v: Value)
    ensures v.List? && |v.items| == |rs|
  {
    List(seq(|rs|, i requires 0 <= i < |rs| => Dict(rs[i])))
  }

  /** The embedding results: the semantic search with `top_k = limit`, or nothing when embeddings are off. */
  function EmbeddingResults(en: Engines, userQuery: string, useEmbeddings: bool, limit: int): seq<Entries>
  {
    if useEmbeddings then en.semSearch(userQuery, limit) else []
  }

  /**
   * `retrieve`: the baseline always runs, the embedding search only when
   * asked for; the result holds both lists, the merged hotels and the
   * context text, or is `None` when any step raises.
   */
  function Retrieve(en: Engines, intent: Option<string>, entities: Option<Entries>, userQuery: string,
                    useEmbeddings: bool, limit: int): (r: Option<Entries>)
    ensures BaselineRetriever.Retrieve(en.runQuery, intent, entities, limit).None? ==> r.None?
    ensures r.Some? ==>
      && |r.value| == 4
      && r.value[0] == ("baseline", Records(BaselineRetriever.Retrieve(en.runQuery, intent, entities, limit).value))
      && r.value[1] == ("embeddings", Records(EmbeddingResults(en, userQuery, useEmbeddings, limit)))
      && r.value[2].0 == "combined" && r.value[3].0 == "context_text"
    ensures r.Some? && !useEmbeddings ==> r.value[1].1 == List([])
  {
    match BaselineRetriever.Retrieve(en.runQuery, intent, entities, limit)
    case None => None
    case Some(b) =>
      var e := EmbeddingResults(en, userQuery, useEmbeddings, limit);
      match Merge(b, e)
      case None => None
      case Some(hs) =>
        match ContextText(TaggedRecords(hs), en.num)
        case None => None
        case Some(ctx) =>
          Some(Report(b, e, hs, ctx))
  }

  /**
   * The result holds under "combined" the merge of the baseline and
   * embedding records, with "reviews" empty, and under "context_text" the
   * context built from the merged hotels.
   */
  lemma RetrieveCombined(en: Engines, intent: Option<string>, entities: Option<Entries>, userQuery: string,
                         useEmbeddings: bool, limit: int)
    requires Retrieve(en, intent, entities, userQuery, useEmbeddings, limit).Some?
    ensures var r := Retrieve(en, intent, entities, userQuery, useEmbeddings, limit).value;
      var b := BaselineRetriever.Retrieve(en.runQuery, intent, entities, limit);
      && b.Some?
      && Merge(b.value, EmbeddingResults(en, userQuery, useEmbeddings, limit)).Some?
      && var hs := Merge(b.value, EmbeddingResults(en, userQuery, useEmbeddings, limit)).value;
      && r[2] == ("combined", Dict(Combined(hs)))
      && Combined(hs)[1] == ("reviews", List([]))
      && ContextText(TaggedRecords(hs), en.num).Some?
      && r[3] == ("context_text", Str(ContextText(TaggedRecords(hs), en.num).value))
  {
    var b := BaselineRetriever.Retrieve(en.runQuery, intent, entities, limit);
    var e := EmbeddingResults(en, userQuery, useEmbeddings, limit);
    var hs := Merge(b.value, e).value;
    var ctx := ContextText(TaggedRecords(hs), en.num).value;
    assert Retrieve(en, intent, entities, userQuery, useEmbeddings, limit).value == Report(b.value, e, hs, ctx);
  }

  /** The dictionary `retrieve` returns. */
  function Report(b: seq<Entries>, e: seq<Entries>, hs: seq<Cand>, ctx: string): (d: Entries)
    ensures |d| == 4 && d[0] == ("baseline", Records(b)) && d[1] == ("embeddings", Records(e))
    ensures d[2] == ("combined", Dict(Combined(hs))) && d[3] == ("context_text", Str(ctx))
  {
    [("baseline", Records(b)), ("embeddings", Records(e)),
     ("combined", Dict(Combined(hs))), ("context_text", Str(ctx))]
  }

  /** Without embeddings every merged hotel is a baseline record, tagged as such. */
  lemma WithoutEmbeddingsAllBaseline(baseline: seq<Entries>)
    requires Merge(baseline, []).Some?
    ensures forall i :: 0 <= i < |Merge(baseline, []).value| ==>
      Lookup(TaggedRecords(Merge(baseline, []).value)[i], "source") == Some(Str("baseline"))
  {
    MergeBaselineFirst(baseline, []);
    var hs := Merge(baseline, []).value;
    assert Cands(Embedding, []) == Some([]);
    var bc := Cands(Baseline, baseline).value;
    assert bc + [] == bc;
    forall i | 0 <= i < |hs|
      ensures Lookup(TaggedRecords(hs)[i], "source") == Some(Str("baseline"))
    {
      assert hs[i].src == Baseline;
    }
  }
}
