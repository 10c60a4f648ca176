/**
 * The string operations of Python that the modelled code relies on:
 * `lower`, `strip`, `split`, `replace`, `title`, `capitalize`, `in` on
 * strings, `startswith`, `join`, `str(int)` and string comparison.
 * Case mapping is ASCII only; whitespace is exactly the set of characters
 * for which Python's `str.isspace` holds, which is also what the `re`
 * module's `\s` matches in a text pattern.
 */
module Text {

  // ---------------------------------------------------------------------
  // Character classes
  // ---------------------------------------------------------------------

  /** Python's `str.isspace` (and regex `\s`). */
  predicate IsSpace(c: char)
  {
    ('\t' <= c <= '\r') || ('\U{1C}' <= c <= '\U{1F}') || c == ' ' || c == '\U{85}' || c == '\U{A0}'
    || c == '\U{1680}' || ('\U{2000}' <= c <= '\U{200A}') || c == '\U{2028}' || c == '\U{2029}'
    || c == '\U{202F}' || c == '\U{205F}' || c == '\U{3000}'
  }

  /** Regex `\d`, restricted to ASCII digits. */
  predicate IsDigit(c: char) { '0' <= c <= '9' }

  predicate IsUpper(c: char) { 'A' <= c <= 'Z' }

  predicate IsLower(c: char) { 'a' <= c <= 'z' }

  predicate IsLetter(c: char) { IsUpper(c) || IsLower(c) }

  /** Regex `\w`, restricted to ASCII. */
  predicate IsWordChar(c: char) { IsLetter(c) || IsDigit(c) || c == '_' }

  /** The ASCII letter mapping of `str.lower`, one character at a time. */
  function LowerChar(c: char): (r: char)
    ensures !IsUpper(r)
    ensures IsLetter(c) <==> IsLetter(r)
    ensures !IsUpper(c) ==> r == c
  {
    match c
    case 'A' => 'a'
    case 'B' => 'b'
    case 'C' => 'c'
    case 'D' => 'd'
    case 'E' => 'e'
    case 'F' => 'f'
    case 'G' => 'g'
    case 'H' => 'h'
    case 'I' => 'i'
    case 'J' => 'j'
    case 'K' => 'k'
    case 'L' => 'l'
    case 'M' => 'm'
    case 'N' => 'n'
    case 'O' => 'o'
    case 'P' => 'p'
    case 'Q' => 'q'
    case 'R' => 'r'
    case 'S' => 's'
    case 'T' => 't'
    case 'U' => 'u'
    case 'V' => 'v'
    case 'W' => 'w'
    case 'X' => 'x'
    case 'Y' => 'y'
    case 'Z' => 'z'
    case _ => c
  }

  /** The ASCII letter mapping of `str.upper`, one character at a time. */
  function UpperChar(c: char): (r: char)
    ensures !IsLower(r)
    ensures IsLetter(c) <==> IsLetter(r)
    ensures !IsLower(c) ==> r == c
  {
    match c
    case 'a' => 'A'
    case 'b' => 'B'
    case 'c' => 'C'
    case 'd' => 'D'
    case 'e' => 'E'
    case 'f' => 'F'
    case 'g' => 'G'
    case 'h' => 'H'
    case 'i' => 'I'
    case 'j' => 'J'
    case 'k' => 'K'
    case 'l' => 'L'
    case 'm' => 'M'
    case 'n' => 'N'
    case 'o' => 'O'
    case 'p' => 'P'
    case 'q' => 'Q'
    case 'r' => 'R'
    case 's' => 'S'
    case 't' => 'T'
    case 'u' => 'U'
    case 'v' => 'V'
    case 'w' => 'W'
    case 'x' => 'X'
    case 'y' => 'Y'
    case 'z' => 'Z'
    case _ => c
  }

  // ---------------------------------------------------------------------
  // Case mapping
  // ---------------------------------------------------------------------

  /** `s.lower()`: the same length, every upper-case letter mapped down. */
  function Lower(s: string): (r: string)
    ensures |r| == |s|
    ensures forall i :: 0 <= i < |s| ==> r[i] == LowerChar(s[i])
  {
    seq(|s|, i requires 0 <= i < |s| => LowerChar(s[i]))
  }

  lemma LowerIdempotent(s: string)
    ensures Lower(Lower(s)) == Lower(s)
  {
  }

  /**
   * `s.title()`: a letter is upper-cased when the character before it is
   * not a letter, and lower-cased when it is.
   */
  function Title(s: string): (r: string)
    ensures |r| == |s|
    ensures forall i :: 0 <= i < |s| ==>
      r[i] == (if i > 0 && IsLetter(s[i - 1]) then LowerChar(s[i]) else UpperChar(s[i]))
  {
    seq(|s|, i requires 0 <= i < |s| =>
      if i > 0 && IsLetter(s[i - 1]) then LowerChar(s[i]) else UpperChar(s[i]))
  }

  /** `s.capitalize()`: the first character upper-cased, the rest lower-cased. */
  function Capitalize(s: string): (r: string)
    ensures |r| == |s|
    ensures |s| > 0 ==> r[0] == UpperChar(s[0]) && r[1..] == Lower(s[1..])
  {
    if s == [] then [] else [UpperChar(s[0])] + Lower(s[1..])
  }

  // ---------------------------------------------------------------------
  // Stripping
  // ---------------------------------------------------------------------

  /** `s.lstrip()`: the longest suffix of `s` that does not start with whitespace. */
  function LStrip(s: string): (r: string)
    ensures |r| <= |s| && r == s[|s| - |r|..]
    ensures r != [] ==> !IsSpace(r[0])
    ensures forall i :: 0 <= i < |s| - |r| ==> IsSpace(s[i])
  {
    if s != [] && IsSpace(s[0]) then LStrip(s[1..]) else s
  }

  /** `s.rstrip()`: the longest prefix of `s` that does not end with whitespace. */
  function RStrip(s: string): (r: string)
    ensures |r| <= |s| && r == s[..|r|]
    ensures r != [] ==> !IsSpace(r[|r| - 1])
    ensures forall i :: |r| <= i < |s| ==> IsSpace(s[i])
  {
    if s != [] && IsSpace(s[|s| - 1]) then RStrip(s[..|s| - 1]) else s
  }

  /** `s.strip()`: `s` without leading and trailing whitespace. */
  function Strip(s: string): (r: string)
    ensures |r| <= |s|
    ensures r != [] ==> !IsSpace(r[0]) && !IsSpace(r[|r| - 1])
    ensures var a := |s| - |LStrip(s)|; a + |r| <= |s| && r == s[a..a + |r|]
  {
    var l := LStrip(s);
    var r := RStrip(l);
    SliceOfSuffix(s, |s| - |l|, |r|);
    assert r != [] ==> r[0] == l[0];
    r
  }

  lemma SliceOfSuffix<X>(s: seq<X>, a: nat, n: nat)
    requires a + n <= |s|
    ensures s[a..][..n] == s[a..a + n]
  {
  }

  lemma StripIdempotent(s: string)
    ensures Strip(Strip(s)) == Strip(s)
  {
    if Strip(s) != [] {
      StripUnpadded(Strip(s));
    }
  }

  /** A string that neither starts nor ends with whitespace is its own strip. */
  lemma StripUnpadded(s: string)
    requires s != [] && !IsSpace(s[0]) && !IsSpace(s[|s| - 1])
    ensures Strip(s) == s
  {
    assert LStrip(s) == s;
    assert RStrip(s) == s;
  }

  /** `[f(x) for x in xs]` */
  function MapSeq<A, B>(f: A -> B, xs: seq<A>): (r: seq<B>)
    ensures |r| == |xs| && forall i :: 0 <= i < |xs| ==> r[i] == f(xs[i])
  {
    seq(|xs|, i requires 0 <= i < |xs| => f(xs[i]))
  }

  lemma MapSeqSnoc<A, B>(f: A -> B, xs: seq<A>, k: nat)
    requires k < |xs|
    ensures MapSeq(f, xs[..k + 1]) == MapSeq(f, xs[..k]) + [f(xs[k])]
  {
    assert forall i :: 0 <= i < k ==> xs[..k + 1][i] == xs[..k][i];
  }

  // ---------------------------------------------------------------------
  // Searching
  // ---------------------------------------------------------------------

  /** `s.startswith(p)` */
  predicate StartsWith(s: string, p: string)
  {
    |p| <= |s| && s[..|p|] == p
  }

  /** `p` occurs in `s` at position `i`. */
  predicate HasAt(s: string, i: int, p: string)
  {
    0 <= i && i + |p| <= |s| && s[i..i + |p|] == p
  }

  /** One mismatching character rules out an occurrence at `i`. */
  lemma NotAtByChar(s: string, i: int, p: string, k: nat)
    requires k < |p| && 0 <= i && (i + k >= |s| || s[i + k] != p[k])
    ensures !HasAt(s, i, p)
  {
    if i + |p| <= |s| {
      assert s[i..i + |p|][k] != p[k];
    }
  }

  /** Python's `p in s` for strings: raw substring containment. */
  predicate IsSubstring(p: string, s: string)
    decreases |s|
  {
    StartsWith(s, p) || (|s| > 0 && IsSubstring(p, s[1..]))
  }

  /** `IsSubstring` holds exactly when `p` occurs at some position of `s`. */
  lemma {:induction false} IsSubstringIff(p: string, s: string)
    ensures IsSubstring(p, s) <==> exists i :: HasAt(s, i, p)
    decreases |s|
  {
    if StartsWith(s, p) {
      assert HasAt(s, 0, p);
    } else if |s| > 0 {
      IsSubstringIff(p, s[1..]);
      if IsSubstring(p, s[1..]) {
        var i :| HasAt(s[1..], i, p);
        assert s[1..][i..i + |p|] == s[i + 1..i + 1 + |p|];
        assert HasAt(s, i + 1, p);
      }
      if exists i :: HasAt(s, i, p) {
        var i :| HasAt(s, i, p);
        assert i != 0;
        assert s[1..][i - 1..i - 1 + |p|] == s[i..i + |p|];
        assert HasAt(s[1..], i - 1, p);
      }
    }
  }

  lemma HasAtIsSubstring(s: string, i: int, p: string)
    requires HasAt(s, i, p)
    ensures IsSubstring(p, s)
  {
    IsSubstringIff(p, s);
  }

  /** A pattern holding a character the string lacks does not occur in it. */
  lemma NotSubstringByChar(p: string, s: string, k: nat)
    requires k < |p| && p[k] !in s
    ensures !IsSubstring(p, s)
  {
    IsSubstringIff(p, s);
  }

  /** A pattern longer than the string does not occur in it. */
  lemma NotSubstringByLength(p: string, s: string)
    requires |p| > |s|
    ensures !IsSubstring(p, s)
  {
    IsSubstringIff(p, s);
  }

  /** Containment is monotone: what occurs in a piece of `s` occurs in `s`. */
  lemma SubstringOfSlice(p: string, s: string, a: int, b: int)
    requires 0 <= a <= b <= |s|
    requires IsSubstring(p, s[a..b])
    ensures IsSubstring(p, s)
  {
    IsSubstringIff(p, s[a..b]);
    var i :| HasAt(s[a..b], i, p);
    assert forall k :: 0 <= k < |p| ==> p[k] == s[a..b][i + k] == s[a + i + k];
    assert HasAt(s, a + i, p);
    HasAtIsSubstring(s, a + i, p);
  }

  /** The first index at or after `from` where `p` occurs in `s`, if any. */
  function FindFrom(s: string, p: string, from: nat): (r: int)
    requires from <= |s|
    ensures r == -1 || (from <= r && HasAt(s, r, p))
    ensures r == -1 ==> forall i :: from <= i <= |s| ==> !HasAt(s, i, p)
    ensures r != -1 ==> forall i :: from <= i < r ==> !HasAt(s, i, p)
    decreases |s| - from
  {
    if HasAt(s, from, p) then from
    else if from == |s| then -1
    else FindFrom(s, p, from + 1)
  }

  // ---------------------------------------------------------------------
  // Splitting, replacing, joining
  // ---------------------------------------------------------------------

  /** `s.split(sep)` for a non-empty separator: never an empty list. */
  function Split(s: string, sep: string): (parts: seq<string>)
    requires |sep| > 0
    ensures |parts| >= 1
    decreases |s|
  {
    var i := FindFrom(s, sep, 0);
    if i < 0 then [s] else [s[..i]] + Split(s[i + |sep|..], sep)
  }

  /**
   * A string that starts with the separator splits into at least two parts,
   * the first of them empty, and the second is what follows the separator
   * up to its next occurrence.
   */
  lemma SplitLeadingSeparator(s: string, sep: string)
    requires |sep| > 0 && StartsWith(s, sep)
    ensures |Split(s, sep)| >= 2
    ensures Split(s, sep)[0] == ""
    ensures var rest := s[|sep|..]; var j := FindFrom(rest, sep, 0);
      Split(s, sep)[1] == if j < 0 then rest else rest[..j]
  {
    PrefixAtZero(s, sep);
    SplitFound(s, sep);
    SplitHead(s[|sep|..], sep);
  }

  lemma PrefixAtZero(s: string, p: string)
    requires StartsWith(s, p)
    ensures HasAt(s, 0, p)
  {
    assert s[0..|p|] == s[..|p|];
  }

  /** A separator found at `i` ends the first part there; splitting resumes after it. */
  lemma SplitFound(s: string, sep: string)
    requires |sep| > 0 && HasAt(s, 0, sep)
    ensures Split(s, sep) == [""] + Split(s[|sep|..], sep)
  {
    assert FindFrom(s, sep, 0) == 0;
    assert s[..0] == "";
  }

  /** The first part of a split is everything up to the first separator. */
  lemma SplitHead(s: string, sep: string)
    requires |sep| > 0
    ensures var j := FindFrom(s, sep, 0); Split(s, sep)[0] == if j < 0 then s else s[..j]
  {
  }

  /** The index just past the maximal run of non-whitespace starting at `i`. */
  function WordEnd(s: string, i: nat): (j: nat)
    requires i <= |s|
    ensures i <= j <= |s|
    ensures forall k :: i <= k < j ==> !IsSpace(s[k])
    ensures j < |s| ==> IsSpace(s[j])
    decreases |s| - i
  {
    if i < |s| && !IsSpace(s[i]) then WordEnd(s, i + 1) else i
  }

  /** `s.split()`: the maximal runs of non-whitespace characters, in order. */
  function Words(s: string): (ws: seq<string>)
    ensures forall k :: 0 <= k < |ws| ==> |ws[k]| > 0
    ensures forall k, c :: 0 <= k < |ws| && c in ws[k] ==> !IsSpace(c)
    decreases |s|
  {
    if s == [] then []
    else if IsSpace(s[0]) then Words(s[1..])
    else
      var j := WordEnd(s, 0);
      [s[..j]] + Words(s[j..])
  }

  /** `s.replace(pat, rep)`: left-to-right, non-overlapping replacement. */
  function ReplaceAll(s: string, pat: string, rep: string): string
    requires |pat| > 0
    decreases |s|
  {
    if |s| == 0 then []
    else if StartsWith(s, pat) then rep + ReplaceAll(s[|pat|..], pat, rep)
    else [s[0]] + ReplaceAll(s[1..], pat, rep)
  }

  /** Replacing by a string that contains no character of the pattern's first leaves no occurrence. */
  lemma {:induction false} ReplaceCharRemovesIt(s: string, c: char, d: char)
    requires c != d
    ensures c !in ReplaceAll(s, [c], [d])
    ensures |ReplaceAll(s, [c], [d])| == |s|
    decreases |s|
  {
    if |s| > 0 {
      ReplaceCharRemovesIt(s[1..], c, d);
    }
  }

  /** A text without the pattern's first character passes through a replacement unchanged. */
  lemma {:induction false} ReplaceAllSkip(w: string, t: string, pat: string, rep: string)
    requires |pat| > 0 && pat[0] !in w
    ensures ReplaceAll(w + t, pat, rep) == w + ReplaceAll(t, pat, rep)
    decreases |w|
  {
    var s := w + t;
    if |w| == 0 {
      assert s == t;
    } else {
      assert s[0] == w[0] != pat[0];
      assert s[1..] == w[1..] + t;
      ReplaceAllSkip(w[1..], t, pat, rep);
    }
  }

  /** `sep.join(parts)` */
  function Join(sep: string, parts: seq<string>): string
  {
    if |parts| == 0 then ""
    else if |parts| == 1 then parts[0]
    else parts[0] + sep + Join(sep, parts[1..])
  }

  /** A join starts with its first part. */
  lemma JoinFirst(sep: string, parts: seq<string>)
    requires |parts| >= 1
    ensures |parts[0]| <= |Join(sep, parts)| && Join(sep, parts)[..|parts[0]|] == parts[0]
  {
    if |parts| > 1 {
      assert Join(sep, parts) == parts[0] + (sep + Join(sep, parts[1..]));
    }
  }

  /** Joining on a character none of the parts holds can be undone by splitting on it. */
  lemma {:induction false} SplitJoin(parts: seq<string>, c: char)
    requires |parts| >= 1
    requires forall k :: 0 <= k < |parts| ==> c !in parts[k]
    ensures Split(Join([c], parts), [c]) == parts
    decreases |parts|
  {
    var s := Join([c], parts);
    var i := FindFrom(s, [c], 0);
    if |parts| == 1 {
      forall j | 0 <= j <= |s|
        ensures !HasAt(s, j, [c])
      {
        NotAtByChar(s, j, [c], 0);
      }
    } else {
      var p := parts[0];
      var rest := Join([c], parts[1..]);
      assert s == p + [c] + rest;
      assert HasAt(s, |p|, [c]) by { assert s[|p|..|p| + 1] == [c]; }
      forall j | 0 <= j < |p|
        ensures !HasAt(s, j, [c])
      {
        NotAtByChar(s, j, [c], 0);
      }
      assert i == |p|;
      assert s[..i] == p;
      assert s[i + 1..] == rest;
      SplitJoin(parts[1..], c);
    }
  }

  // ---------------------------------------------------------------------
  // Numbers and comparison
  // ---------------------------------------------------------------------

  function DigitChar(d: nat): (c: char)
    requires d < 10
    ensures IsDigit(c)
  {
    ('0' as int + d) as char
  }

  /** `str(n)` for a natural number: its decimal digits. */
  function NatToString(n: nat): (r: string)
    ensures |r| > 0
    ensures forall i :: 0 <= i < |r| ==> IsDigit(r[i])
  {
    if n < 10 then [DigitChar(n)] else NatToString(n / 10) + [DigitChar(n % 10)]
  }

  /** Python's `a < b` on strings: code-point lexicographic order. */
  predicate StrLess(a: string, b: string)
    decreases |a|
  {
    if |a| == 0 then |b| > 0
    else if |b| == 0 then false
    else if a[0] != b[0] then a[0] < b[0]
    else StrLess(a[1..], b[1..])
  }

  lemma {:induction false} StrLessIrreflexive(a: string)
    ensures !StrLess(a, a)
    decreases |a|
  {
    if |a| > 0 {
      StrLessIrreflexive(a[1..]);
    }
  }

  lemma {:induction false} StrLessTotal(a: string, b: string)
    ensures a == b || StrLess(a, b) || StrLess(b, a)
    decreases |a|
  {
    if |a| > 0 && |b| > 0 && a[0] == b[0] {
      StrLessTotal(a[1..], b[1..]);
      if a[1..] == b[1..] {
        assert a == [a[0]] + a[1..] && b == [b[0]] + b[1..];
      }
    }
  }

  lemma {:induction false} StrLessAsymmetric(a: string, b: string)
    ensures !(StrLess(a, b) && StrLess(b, a))
    decreases |a|
  {
    if |a| > 0 && |b| > 0 && a[0] == b[0] {
      StrLessAsymmetric(a[1..], b[1..]);
    }
  }

  lemma {:induction false} StrLessTransitive(a: string, b: string, c: string)
    requires StrLess(a, b) && StrLess(b, c)
    ensures StrLess(a, c)
    decreases |a|
  {
    if |a| > 0 && a[0] == b[0] && b[0] == c[0] {
      StrLessTransitive(a[1..], b[1..], c[1..]);
    }
  }
}
