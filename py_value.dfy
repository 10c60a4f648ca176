/**
 * Python values as the modelled code sees them: JSON-like data returned by
 * the language model, records returned by the graph database, and the
 * dictionaries the code builds. A `dict` keeps its insertion order, so it is
 * a sequence of key/value pairs; `int` and `float` are both `Num`.
 */
module PyValue {
  import opened Wrappers
  import opened Text

  datatype Value =
    | Null
    | Bool(b: bool)
    | Num(x: real)
    | Str(s: string)
    | List(items: seq<Value>)
    | Dict(entries: seq<(string, Value)>)

  type Entries = seq<(string, Value)>

  /** Python truthiness: `None`, `False`, `0`, `""`, `[]` and `{}` are false. */
  predicate Truthy(v: Value)
  {
    match v
    case Null => false
    case Bool(b) => b
    case Num(x) => x != 0.0
    case Str(s) => |s| > 0
    case List(xs) => |xs| > 0
    case Dict(es) => |es| > 0
  }

  /** `a or b` */
  function Or(a: Value, b: Value): (r: Value)
    ensures Truthy(r) <==> Truthy(a) || Truthy(b)
    ensures Truthy(a) ==> r == a
  {
    if Truthy(a) then a else b
  }

  /** `a and b` */
  function And(a: Value, b: Value): (r: Value)
    ensures Truthy(r) <==> Truthy(a) && Truthy(b)
    ensures !Truthy(a) ==> r == a
  {
    if Truthy(a) then b else a
  }

  // ---------------------------------------------------------------------
  // Association lists (insertion-ordered dictionaries)
  // ---------------------------------------------------------------------

  function Keys<V>(es: seq<(string, V)>): (ks: seq<string>)
    ensures |ks| == |es|
    ensures forall i :: 0 <= i < |es| ==> ks[i] == es[i].0
  {
    seq(|es|, i requires 0 <= i < |es| => es[i].0)
  }

  predicate DistinctKeys<V>(es: seq<(string, V)>)
  {
    forall i, j :: 0 <= i < j < |es| ==> es[i].0 != es[j].0
  }

  /** The value stored under `k`, the first such entry if several. */
  function Lookup<V>(es: seq<(string, V)>, k: string): (r: Option<V>)
    ensures r.Some? <==> k in Keys(es)
  {
    if es == [] then None
    else if es[0].0 == k then Some(es[0].1)
    else
      assert Keys(es) == [es[0].0] + Keys(es[1..]);
      Lookup(es[1..], k)
  }

  /** A value found under `k` is stored in an entry with key `k`. */
  lemma {:induction false} LookupFound<V>(es: seq<(string, V)>, k: string)
    requires Lookup(es, k).Some?
    ensures exists i :: 0 <= i < |es| && es[i] == (k, Lookup(es, k).value)
  {
    if es[0].0 == k {
      assert es[0] == (k, Lookup(es, k).value);
    } else {
      LookupFound(es[1..], k);
      var i :| 0 <= i < |es[1..]| && es[1..][i] == (k, Lookup(es[1..], k).value);
      assert es[i + 1] == (k, Lookup(es, k).value);
    }
  }

  /** `d.get(k, default)` on a table. */
  function LookupOr<V>(es: seq<(string, V)>, k: string, default: V): V
  {
    match Lookup(es, k)
    case Some(v) => v
    case None => default
  }

  /** The entry at `i` is the one found when no earlier entry has its key. */
  lemma {:induction false} LookupAt<V>(es: seq<(string, V)>, i: nat)
    requires i < |es| && forall j :: 0 <= j < i ==> es[j].0 != es[i].0
    ensures Lookup(es, es[i].0) == Some(es[i].1)
  {
    if i > 0 {
      LookupAt(es[1..], i - 1);
    }
  }

  /** Looking up in a table extended at the end. */
  lemma {:induction false} LookupSnoc<V>(es: seq<(string, V)>, k: string, v: V, q: string)
    ensures Lookup(es + [(k, v)], q) ==
      if q in Keys(es) then Lookup(es, q) else if q == k then Some(v) else None
  {
    if es != [] {
      assert (es + [(k, v)])[1..] == es[1..] + [(k, v)];
      assert Keys(es) == [es[0].0] + Keys(es[1..]);
      LookupSnoc(es[1..], k, v, q);
    }
  }

  /** `d[k] = v`: replace the value in place, or append a new entry. */
  function Put<V>(es: seq<(string, V)>, k: string, v: V): (r: seq<(string, V)>)
    ensures |r| == if k in Keys(es) then |es| else |es| + 1
    ensures Lookup(r, k) == Some(v)
    ensures forall q :: q != k ==> Lookup(r, q) == Lookup(es, q)
  {
    if es == [] then [(k, v)]
    else if es[0].0 == k then [(k, v)] + es[1..]
    else
      assert Keys(es) == [es[0].0] + Keys(es[1..]);
      [es[0]] + Put(es[1..], k, v)
  }

  /** Putting a key that is not present appends it. */
  lemma {:induction false} PutAppends<V>(es: seq<(string, V)>, k: string, v: V)
    requires k !in Keys(es)
    ensures Put(es, k, v) == es + [(k, v)]
  {
    if es != [] {
      assert Keys(es) == [es[0].0] + Keys(es[1..]);
      PutAppends(es[1..], k, v);
    }
  }

  /** Putting a key replaces the value of its first entry in place. */
  lemma {:induction false} PutReplaces<V>(es: seq<(string, V)>, i: nat, v: V)
    requires i < |es| && forall j :: 0 <= j < i ==> es[j].0 != es[i].0
    ensures Put(es, es[i].0, v) == es[i := (es[i].0, v)]
  {
    var k := es[i].0;
    if i == 0 {
      assert Put(es, k, v) == [(k, v)] + es[1..];
      ConsHead(es, (k, v));
    } else {
      var t := es[1..];
      assert t[i - 1] == es[i];
      assert forall j :: 0 <= j < i - 1 ==> t[j] == es[j + 1];
      PutReplaces(t, i - 1, v);
      var u := Put(t, k, v);
      assert u == t[i - 1 := (k, v)];
      assert es[0].0 != k;
      assert Put(es, k, v) == [es[0]] + u;
      ConsUpdate(es, i, (k, v));
    }
  }

  lemma ConsHead<X>(xs: seq<X>, x: X)
    requires 0 < |xs|
    ensures [x] + xs[1..] == xs[0 := x]
  {
    var l := [x] + xs[1..];
    assert forall j :: 0 <= j < |xs| ==> l[j] == xs[0 := x][j];
  }

  lemma ConsUpdate<X>(xs: seq<X>, i: nat, x: X)
    requires 0 < i < |xs|
    ensures [xs[0]] + xs[1..][i - 1 := x] == xs[i := x]
  {
    var l := [xs[0]] + xs[1..][i - 1 := x];
    assert forall j :: 0 <= j < |xs| ==> l[j] == xs[i := x][j];
  }

  /** Putting a key that is present keeps the keys and their order. */
  lemma {:induction false} PutKeepsKeys<V>(es: seq<(string, V)>, k: string, v: V)
    requires k in Keys(es)
    ensures Keys(Put(es, k, v)) == Keys(es)
  {
    assert es == [es[0]] + es[1..];
    KeysCons(es[0], es[1..]);
    if es[0].0 != k {
      PutKeepsKeys(es[1..], k, v);
      KeysCons(es[0], Put(es[1..], k, v));
    } else {
      KeysCons((k, v), es[1..]);
    }
  }

  lemma KeysSnoc<V>(es: seq<(string, V)>, e: (string, V))
    ensures Keys(es + [e]) == Keys(es) + [e.0]
  {
    var l := es + [e];
    assert forall j :: 0 <= j < |es| ==> l[j] == es[j];
  }

  lemma KeysCons<V>(e: (string, V), es: seq<(string, V)>)
    ensures Keys([e] + es) == [e.0] + Keys(es)
  {
    var l := [e] + es;
    assert forall j :: 0 < j < |l| ==> l[j] == es[j - 1];
  }

  lemma PutDistinct<V>(es: seq<(string, V)>, k: string, v: V)
    requires DistinctKeys(es)
    ensures DistinctKeys(Put(es, k, v))
  {
    var r := Put(es, k, v);
    if k in Keys(es) {
      PutKeepsKeys(es, k, v);
      assert forall i :: 0 <= i < |r| ==> r[i].0 == Keys(r)[i] == Keys(es)[i] == es[i].0;
    } else {
      PutAppends(es, k, v);
    }
  }

  /**
   * A dict display `{k1: v1, k2: v2, ...}`: the pairs are put in order, so
   * a repeated key keeps its first position and takes its last value.
   */
  function DictDisplay<V>(ps: seq<(string, V)>): (r: seq<(string, V)>)
    ensures DistinctKeys(r)
    decreases |ps|
  {
    if ps == [] then []
    else
      var prev := DictDisplay(ps[..|ps| - 1]);
      var (k, v) := ps[|ps| - 1];
      PutDistinct(prev, k, v);
      Put(prev, k, v)
  }

  /** A dict display holds exactly the keys written in it. */
  lemma {:induction false} DictDisplayKeys<V>(ps: seq<(string, V)>, q: string)
    ensures Lookup(DictDisplay(ps), q).Some? <==> q in Keys(ps)
    decreases |ps|
  {
    if ps != [] {
      var init, last := ps[..|ps| - 1], ps[|ps| - 1];
      DictDisplayKeys(init, q);
      DisplaySnoc(ps);
      SnocSplit(ps);
      KeysSnoc(init, last);
      InSnoc(Keys(init), last.0, q);
    }
  }

  lemma InSnoc<X>(xs: seq<X>, x: X, y: X)
    ensures y in xs + [x] <==> y in xs || y == x
  {
  }

  /** A display whose keys are distinct builds exactly its own pairs, in order. */
  lemma {:induction false} DictDisplayDistinct<V>(ps: seq<(string, V)>)
    requires DistinctKeys(ps)
    ensures DictDisplay(ps) == ps
    decreases |ps|
  {
    if ps != [] {
      var init := ps[..|ps| - 1];
      InitDistinct(ps);
      DictDisplayDistinct(init);
      DisplaySnoc(ps);
      PutAppends(init, ps[|ps| - 1].0, ps[|ps| - 1].1);
      SnocSplit(ps);
    }
  }

  lemma InitDistinct<V>(ps: seq<(string, V)>)
    requires ps != [] && DistinctKeys(ps)
    ensures DistinctKeys(ps[..|ps| - 1]) && ps[|ps| - 1].0 !in Keys(ps[..|ps| - 1])
  {
    var init := ps[..|ps| - 1];
    assert forall i :: 0 <= i < |init| ==> init[i] == ps[i];
  }

  lemma SnocSplit<X>(xs: seq<X>)
    requires xs != []
    ensures xs[..|xs| - 1] + [xs[|xs| - 1]] == xs
  {
  }

  /** A display adds its last entry to the dict of the others. */
  lemma DisplaySnoc<V>(ps: seq<(string, V)>)
    requires ps != []
    ensures DictDisplay(ps) == Put(DictDisplay(ps[..|ps| - 1]), ps[|ps| - 1].0, ps[|ps| - 1].1)
  {
  }

  /** Two tables with the same keys in the same order and the same lookups are equal. */
  lemma SameLookups<V>(a: seq<(string, V)>, b: seq<(string, V)>)
    requires Keys(a) == Keys(b) && DistinctKeys(a)
    requires forall k :: k in Keys(a) ==> Lookup(a, k) == Lookup(b, k)
    ensures a == b
  {
    forall m | 0 <= m < |a| ensures a[m] == b[m] {
      assert Keys(a)[m] == a[m].0 && Keys(b)[m] == b[m].0;
      assert DistinctKeys(b);
      LookupAt(a, m);
      LookupAt(b, m);
    }
  }

  /** `d.get(k)`: the stored value, or `None`. */
  function Get(es: Entries, k: string): Value
  {
    LookupOr(es, k, Null)
  }

  /** `v.get(k)` on a value that is a dictionary (anything else has no entries). */
  function Field(v: Value, k: string): Value
  {
    if v.Dict? then Get(v.entries, k) else Null
  }

  /** `len(v)` for the sized values; 0 for the others. */
  function Len(v: Value): nat
  {
    match v
    case Str(s) => |s|
    case List(xs) => |xs|
    case Dict(es) => |es|
    case _ => 0
  }

  // ---------------------------------------------------------------------
  // str() and repr()
  // ---------------------------------------------------------------------

  /**
   * `repr(v)`. How a number is written is given by `num` (Python's float
   * and int formatting is not modelled); quotes inside strings are not
   * escaped.
   */
  function Repr(v: Value, num: real -> string): string
    decreases v
  {
    match v
    case Null => "None"
    case Bool(b) => if b then "True" else "False"
    case Num(x) => num(x)
    case Str(s) => "'" + s + "'"
    case List(xs) =>
      "[" + Join(", ", seq(|xs|, i requires 0 <= i < |xs| => Repr(xs[i], num))) + "]"
    case Dict(es) =>
      "{" + Join(", ", seq(|es|, i requires 0 <= i < |es| => "'" + es[i].0 + "': " + Repr(es[i].1, num))) + "}"
  }

  /** `str(v)`: a string is itself, everything else is its `repr`. */
  function ToStr(v: Value, num: real -> string): (r: string)
    ensures v.Str? ==> r == v.s
  {
    if v.Str? then v.s else Repr(v, num)
  }

  /** A list of strings as a Python list value. */
  function StrList(ss: seq<string>): (v: Value)
    ensures v.List? && |v.items| == |ss|
    ensures forall i :: 0 <= i < |ss| ==> v.items[i] == Str(ss[i])
  {
    List(seq(|ss|, i requires 0 <= i < |ss| => Str(ss[i])))
  }
}
