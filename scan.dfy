/**
 * The building blocks of the few regular expressions the extractors use,
 * written as scanners: greedy runs of digits and whitespace, the end of a
 * line, word boundaries, number literals, and the leftmost-match search
 * of Python's `re.search`.
 */
module Scan {
  import opened Wrappers
  import opened Text

  /** The end of the maximal run of digits starting at `i` (greedy `\d*`). */
  function DigitRunEnd(s: string, i: nat): (j: nat)
    requires i <= |s|
    ensures i <= j <= |s|
    ensures forall k :: i <= k < j ==> IsDigit(s[k])
    ensures j < |s| ==> !IsDigit(s[j])
    decreases |s| - i
  {
    if i < |s| && IsDigit(s[i]) then DigitRunEnd(s, i + 1) else i
  }

  /** The end of the maximal run of whitespace starting at `i` (greedy `\s*`). */
  function SpaceRunEnd(s: string, i: nat): (j: nat)
    requires i <= |s|
    ensures i <= j <= |s|
    ensures forall k :: i <= k < j ==> IsSpace(s[k])
    ensures j < |s| ==> !IsSpace(s[j])
    decreases |s| - i
  {
    if i < |s| && IsSpace(s[i]) then SpaceRunEnd(s, i + 1) else i
  }

  /** The end of the line containing position `i`: `.` matches anything but a newline. */
  function LineEnd(s: string, i: nat): (j: nat)
    requires i <= |s|
    ensures i <= j <= |s|
    ensures forall k :: i <= k < j ==> s[k] != '\n'
    ensures j < |s| ==> s[j] == '\n'
    decreases |s| - i
  {
    if i < |s| && s[i] != '\n' then LineEnd(s, i + 1) else i
  }

  /** Regex `\b` at position `i`: a word character on exactly one side. */
  predicate IsBoundary(s: string, i: nat)
    requires i <= |s|
  {
    (i > 0 && IsWordChar(s[i - 1])) != (i < |s| && IsWordChar(s[i]))
  }

  /** `\bp\b` matches at `i`, for a pattern `p` that starts and ends with a word character. */
  predicate WholeWordAt(s: string, i: nat, p: string)
  {
    HasAt(s, i, p) && IsBoundary(s, i) && IsBoundary(s, i + |p|)
  }

  /** `re.search(rf"\b{p}\b", s)` succeeds. */
  predicate HasWholeWord(s: string, p: string)
  {
    exists i :: 0 <= i <= |s| && WholeWordAt(s, i, p)
  }

  /** The value of a string of decimal digits (`int(ds)`). */
  function DigitsValue(ds: string): (n: nat)
    decreases |ds|
  {
    if ds == [] then 0
    else DigitsValue(ds[..|ds| - 1]) * 10 + DigitValue(ds[|ds| - 1])
  }

  /** The value of one character, 0 for a non-digit. */
  function DigitValue(c: char): (n: nat)
    ensures n <= 9
    ensures IsDigit(c) ==> n == c as int - '0' as int
  {
    if IsDigit(c) then c as int - '0' as int else 0
  }

  /** The value of the digits after a decimal point: `0.d1d2...`. */
  function FractionValue(ds: string): (x: real)
    ensures 0.0 <= x <= 1.0
    decreases |ds|
  {
    if ds == [] then 0.0
    else (DigitValue(ds[0]) as real + FractionValue(ds[1..])) / 10.0
  }

  /** `float(s[i..k])` for a number written `d+` or `d+.d+` with the point at `j`. */
  function DecimalValue(s: string, i: nat, j: nat, k: nat): (x: real)
    requires i <= j <= k <= |s|
    ensures x >= 0.0
  {
    DigitsValue(s[i..j]) as real + (if j < k then FractionValue(s[j + 1..k]) else 0.0)
  }

  /**
   * `\d+(?:\.\d+)?` (equally `\d+(\.\d+)?`) matched greedily at `i`: the
   * integer part and, when a point followed by a digit comes next, the
   * fraction. Returns the end of the integer part and the end of the match.
   */
  function NumberAt(s: string, i: nat): (r: Option<(nat, nat)>)
    requires i <= |s|
    ensures r.Some? <==> i < |s| && IsDigit(s[i])
    ensures r.Some? ==> i < r.value.0 <= r.value.1 <= |s| && r.value.0 == DigitRunEnd(s, i)
    ensures r.Some? && r.value.0 < r.value.1 ==>
      s[r.value.0] == '.' && r.value.0 + 1 < r.value.1 && r.value.1 == DigitRunEnd(s, r.value.0 + 1)
    ensures r.Some? ==> r.value.1 < |s| ==> !IsDigit(s[r.value.1])
  {
    if i < |s| && IsDigit(s[i]) then
      var j := DigitRunEnd(s, i);
      if j + 1 < |s| && s[j] == '.' && IsDigit(s[j + 1]) then Some((j, DigitRunEnd(s, j + 1)))
      else Some((j, j))
    else None
  }

  /** The value of the number matched at `i` by `NumberAt`. */
  function NumberValue(s: string, i: nat): (x: real)
    requires i <= |s| && NumberAt(s, i).Some?
    ensures x >= 0.0
  {
    var (j, k) := NumberAt(s, i).value;
    DecimalValue(s, i, j, k)
  }

  /**
   * `re.search`: the result of the matcher `m` at the leftmost position,
   * from `from` to `|s|`, where it succeeds.
   */
  function SearchFrom<T>(s: string, from: nat, m: (string, nat) -> Option<T>): (r: Option<T>)
    requires from <= |s|
    ensures r.Some? ==> exists i :: from <= i <= |s| && m(s, i) == r && forall k :: from <= k < i ==> m(s, k).None?
    ensures r.None? <==> forall i :: from <= i <= |s| ==> m(s, i).None?
    decreases |s| - from
  {
    if m(s, from).Some? then m(s, from)
    else if from == |s| then None
    else
      var r := SearchFrom(s, from + 1, m);
      assert r.None? ==> forall i :: from <= i <= |s| ==> m(s, i).None? by {
        if r.None? {
          forall i | from <= i <= |s| ensures m(s, i).None? {
            if i > from {
              assert from + 1 <= i;
            }
          }
        }
      }
      r
  }

  function Search<T>(s: string, m: (string, nat) -> Option<T>): (r: Option<T>)
    ensures r.Some? ==> exists i :: 0 <= i <= |s| && m(s, i) == r && forall k :: 0 <= k < i ==> m(s, k).None?
    ensures r.None? <==> forall i :: 0 <= i <= |s| ==> m(s, i).None?
  {
    SearchFrom(s, 0, m)
  }

  /** The leftmost position where `m` succeeds is what `Search` reports. */
  lemma SearchFindsLeftmost<T>(s: string, m: (string, nat) -> Option<T>, i: nat)
    requires i <= |s| && m(s, i).Some?
    requires forall k :: 0 <= k < i ==> m(s, k).None?
    ensures Search(s, m) == m(s, i)
  {
  }
}
