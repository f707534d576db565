/**
 * The Python string operations the modelled code relies on: case mapping,
 * substring search, `str.split(sep)` and `sep.join`, `str.split()` on
 * whitespace, `str.strip()`, `str.replace` and `str.title`.
 *
 * Case mapping, letters and digits are modelled on ASCII; whitespace is the
 * full set Python's `str.isspace` accepts.
 */
module Strings {
  import opened Base
  import opened Seqs

  predicate IsUpperAscii(c: char) { 'A' <= c <= 'Z' }
  predicate IsLowerAscii(c: char) { 'a' <= c <= 'z' }
  predicate IsLetter(c: char) { IsUpperAscii(c) || IsLowerAscii(c) }
  predicate IsDigit(c: char) { '0' <= c <= '9' }

  /** Python's `str.isspace`: the separators of `str.split()` and `str.strip()`, and the class `\s`. */
  predicate IsSpace(c: char)
  {
    || c == ' '
    || '\t' <= c <= '\r'
    || '\U{1C}' <= c <= '\U{1F}'
    || c == '\U{85}' || c == '\U{A0}' || c == '\U{1680}'
    || '\U{2000}' <= c <= '\U{200A}'
    || c == '\U{2028}' || c == '\U{2029}' || c == '\U{202F}' || c == '\U{205F}' || c == '\U{3000}'
  }

  predicate AllSpace(s: string) { forall i :: 0 <= i < |s| ==> IsSpace(s[i]) }
  predicate NoSpace(s: string) { forall i :: 0 <= i < |s| ==> !IsSpace(s[i]) }

  // ---------------------------------------------------------------- case

  function LowerChar(c: char): char
  {
    if IsUpperAscii(c) then (c as int + 32) as char else c
  }

  function UpperChar(c: char): char
  {
    if IsLowerAscii(c) then (c as int - 32) as char else c
  }

  /** `str.lower()`. */
  function Lower(s: string): (r: string)
    ensures |r| == |s|
    ensures forall i :: 0 <= i < |s| ==> r[i] == LowerChar(s[i])
  {
    seq(|s|, i requires 0 <= i < |s| => LowerChar(s[i]))
  }

  /** `str.upper()`. */
  function Upper(s: string): (r: string)
    ensures |r| == |s|
    ensures forall i :: 0 <= i < |s| ==> r[i] == UpperChar(s[i])
  {
    seq(|s|, i requires 0 <= i < |s| => UpperChar(s[i]))
  }

  lemma LowerIdempotent(s: string)
    ensures Lower(Lower(s)) == Lower(s)
  {
    assert forall i :: 0 <= i < |s| ==> Lower(Lower(s))[i] == Lower(s)[i];
  }

  lemma LowerOfUpper(s: string)
    ensures Lower(Upper(s)) == Lower(s)
  {
    assert forall i :: 0 <= i < |s| ==> Lower(Upper(s))[i] == Lower(s)[i];
  }

  // ---------------------------------------------------------------- search

  /** `sub` occurs in `s` starting at index `i`. */
  predicate OccursAt(s: string, sub: string, i: nat)
  {
    i + |sub| <= |s| && s[i..i + |sub|] == sub
  }

  /** The first index at or after `i` where `sub` occurs (`str.find` from `i`). */
  function IndexFrom(s: string, sub: string, i: nat): (r: Option<nat>)
    decreases |s| - i
    ensures r.Some? ==> i <= r.value && OccursAt(s, sub, r.value)
    ensures r.Some? ==> forall j :: i <= j < r.value ==> !OccursAt(s, sub, j)
    ensures r.None? ==> forall j :: i <= j ==> !OccursAt(s, sub, j)
  {
    if i + |sub| > |s| then None
    else if OccursAt(s, sub, i) then Some(i)
    else IndexFrom(s, sub, i + 1)
  }

  /** Python's `sub in s`. */
  predicate Contains(s: string, sub: string)
  {
    IndexFrom(s, sub, 0).Some?
  }

  lemma ContainsIff(s: string, sub: string)
    ensures Contains(s, sub) <==> exists j: nat :: OccursAt(s, sub, j)
  {
    if exists j: nat :: OccursAt(s, sub, j) {
      var j: nat :| OccursAt(s, sub, j);
      assert IndexFrom(s, sub, 0).Some?;
    }
  }

  /** An occurrence survives putting text on either side. */
  lemma ContainsWidened(a: string, s: string, b: string, sub: string)
    requires Contains(s, sub)
    ensures Contains(a + s + b, sub)
  {
    ContainsIff(s, sub);
    var j: nat :| OccursAt(s, sub, j);
    assert (a + s + b)[|a| + j..|a| + j + |sub|] == s[j..j + |sub|];
    assert OccursAt(a + s + b, sub, |a| + j);
    ContainsIff(a + s + b, sub);
  }

  /** An occurrence inside a prefix is an occurrence of the whole. */
  lemma OccursInPrefix(s: string, n: nat, sub: string, j: nat)
    requires n <= |s| && OccursAt(s[..n], sub, j)
    ensures OccursAt(s, sub, j)
  {
    assert s[..n][j..j + |sub|] == s[j..j + |sub|];
  }

  /** An occurrence inside a suffix is an occurrence of the whole, shifted. */
  lemma OccursInSuffix(s: string, n: nat, sub: string, j: nat)
    requires n <= |s| && OccursAt(s[n..], sub, j)
    ensures OccursAt(s, sub, n + j)
  {
    assert s[n..][j..j + |sub|] == s[n + j..n + j + |sub|];
  }

  // ---------------------------------------------------------------- split / join

  /** `sep.join(parts)`. */
  function Join(parts: seq<string>, sep: string): string
  {
    if |parts| == 0 then ""
    else if |parts| == 1 then parts[0]
    else parts[0] + sep + Join(parts[1..], sep)
  }

  /**
   * `s.split(sep)` for a non-empty separator: the pieces between the
   * occurrences of `sep`, found left to right without overlap.
   */
  function Split(s: string, sep: string): (parts: seq<string>)
    requires |sep| > 0
    decreases |s|
    ensures |parts| >= 1
    ensures Join(parts, sep) == s
    ensures forall k :: 0 <= k < |parts| ==> !Contains(parts[k], sep)
    ensures forall k :: 0 <= k < |parts| - 1 ==> !Contains(parts[k] + sep[..|sep| - 1], sep)
  {
    match IndexFrom(s, sep, 0)
    case None =>
      assert !Contains(s, sep);
      [s]
    case Some(i) =>
      var head := s[..i];
      var rest := Split(s[i + |sep|..], sep);
      assert s == head + sep + s[i + |sep|..];
      forall j | OccursAt(head, sep, j)
        ensures false
      {
        OccursInPrefix(s, i, sep, j);
      }
      ContainsIff(head, sep);
      FirstCutLeftmost(s, sep, i);
      assert ([head] + rest)[1..] == rest;
      [head] + rest
  }

  /** No occurrence of `sep` starts before the first cut, even one running into the separator. */
  lemma FirstCutLeftmost(s: string, sep: string, i: nat)
    requires |sep| > 0 && IndexFrom(s, sep, 0) == Some(i)
    ensures !Contains(s[..i] + sep[..|sep| - 1], sep)
  {
    var n := i + |sep| - 1;
    assert s[..i] + sep[..|sep| - 1] == s[..n] by {
      assert s[i..i + |sep|] == sep;
    }
    forall j | OccursAt(s[..n], sep, j)
      ensures false
    {
      OccursInPrefix(s, n, sep, j);
    }
    ContainsIff(s[..n], sep);
  }

  /** Python's `s.replace(target, replacement)` for a non-empty target is `replacement.join(s.split(target))`. */
  function Replace(s: string, target: string, replacement: string): string
    requires |target| > 0
  {
    Join(Split(s, target), replacement)
  }

  lemma ReplaceAbsent(s: string, target: string, replacement: string)
    requires |target| > 0 && !Contains(s, target)
    ensures Replace(s, target, replacement) == s
  {
  }

  // ---------------------------------------------------------------- whitespace

  /** The characters of `s` that are not whitespace, in order. */
  function NonSpace(s: string): string
  {
    if |s| == 0 then "" else (if IsSpace(s[0]) then "" else [s[0]]) + NonSpace(s[1..])
  }

  lemma {:induction false} NonSpaceAppend(a: string, b: string)
    ensures NonSpace(a + b) == NonSpace(a) + NonSpace(b)
  {
    if |a| == 0 {
      assert a + b == b;
    } else {
      assert (a + b)[1..] == a[1..] + b;
      NonSpaceAppend(a[1..], b);
    }
  }

  lemma {:induction false} NonSpaceEmptyIff(s: string)
    ensures NonSpace(s) == "" <==> AllSpace(s)
  {
    if |s| > 0 {
      NonSpaceEmptyIff(s[1..]);
      assert forall i :: 1 <= i < |s| ==> s[i] == s[1..][i - 1];
    }
  }

  lemma {:induction false} NonSpaceOfWord(w: string)
    requires NoSpace(w)
    ensures NonSpace(w) == w
  {
    if |w| > 0 {
      NonSpaceOfWord(w[1..]);
    }
  }

  /** The index of the first non-space character (or |s|). */
  function SpaceEnd(s: string, i: nat): (j: nat)
    requires i <= |s|
    decreases |s| - i
    ensures i <= j <= |s|
    ensures forall k :: i <= k < j ==> IsSpace(s[k])
    ensures j < |s| ==> !IsSpace(s[j])
  {
    if i == |s| || !IsSpace(s[i]) then i else SpaceEnd(s, i + 1)
  }

  /** The index of the first space character (or |s|). */
  function WordEnd(s: string, i: nat): (j: nat)
    requires i <= |s|
    decreases |s| - i
    ensures i <= j <= |s|
    ensures forall k :: i <= k < j ==> !IsSpace(s[k])
    ensures j < |s| ==> IsSpace(s[j])
  {
    if i == |s| || IsSpace(s[i]) then i else WordEnd(s, i + 1)
  }

  lemma NonSpaceOfSpaces(s: string)
    requires AllSpace(s)
    ensures NonSpace(s) == ""
  {
    NonSpaceEmptyIff(s);
  }

  /**
   * `s.split()`: the maximal runs of non-whitespace characters. Every word
   * is non-empty and free of whitespace, and together the words hold
   * exactly the non-whitespace characters of `s`, in order.
   */
  function Words(s: string): (ws: seq<string>)
    decreases |s|
    ensures forall k :: 0 <= k < |ws| ==> |ws[k]| > 0 && NoSpace(ws[k])
    ensures Flatten(ws) == NonSpace(s)
    ensures |ws| == WordStarts(s, true)
  {
    var a := SpaceEnd(s, 0);
    if a == |s| then
      NonSpaceOfSpaces(s);
      StartsAfterSpaces(s, a, true);
      []
    else
      var b := WordEnd(s, a);
      var rest := Words(s[b..]);
      FirstWordOf(s, a, b);
      StartsOfFirstWord(s, a, b);
      assert ([s[a..b]] + rest)[1..] == rest;
      [s[a..b]] + rest
  }

  /**
   * The number of word starts in `s`: positions holding a non-space
   * character that follows whitespace, or that begin the text when
   * `afterSpace` holds.
   */
  function WordStarts(s: string, afterSpace: bool): nat
  {
    if |s| == 0 then 0
    else (if afterSpace && !IsSpace(s[0]) then 1 else 0) + WordStarts(s[1..], IsSpace(s[0]))
  }

  /** Leading whitespace holds no word start. */
  lemma {:induction false} StartsAfterSpaces(s: string, n: nat, afterSpace: bool)
    requires n <= |s| && forall k :: 0 <= k < n ==> IsSpace(s[k])
    ensures WordStarts(s, afterSpace) == WordStarts(s[n..], afterSpace || n > 0)
  {
    if n > 0 {
      StartsAfterSpaces(s[1..], n - 1, true);
      assert s[1..][n - 1..] == s[n..];
    }
  }

  /** A run of non-space characters holds one word start at most: at its front, after whitespace. */
  lemma {:induction false} StartsInWord(s: string, n: nat, afterSpace: bool)
    requires 0 < n <= |s| && forall k :: 0 <= k < n ==> !IsSpace(s[k])
    ensures WordStarts(s, afterSpace) == (if afterSpace then 1 else 0) + WordStarts(s[n..], false)
  {
    if n > 1 {
      StartsInWord(s[1..], n - 1, false);
      assert s[1..][n - 1..] == s[n..];
    }
  }

  /** Spaces up to `a`, a word up to `b`, then whitespace or the end: one word start, then those of the rest. */
  lemma StartsOfFirstWord(s: string, a: nat, b: nat)
    requires a == SpaceEnd(s, 0) < |s| && b == WordEnd(s, a)
    ensures WordStarts(s, true) == 1 + WordStarts(s[b..], true)
  {
    StartsAfterSpaces(s, a, true);
    StartsInWord(s[a..], b - a, true);
    assert s[a..][b - a..] == s[b..];
    if b < |s| {
      assert IsSpace(s[b..][0]);
    }
  }

  /** The spaces up to `a` and the word from `a` to `b` that `Words` takes off the front. */
  lemma FirstWordOf(s: string, a: nat, b: nat)
    requires a == SpaceEnd(s, 0) < |s| && b == WordEnd(s, a)
    ensures a < b && |s[a..b]| > 0 && NoSpace(s[a..b])
    ensures NonSpace(s) == s[a..b] + NonSpace(s[b..])
  {
    assert AllSpace(s[..a]) by {
      assert forall k :: 0 <= k < a ==> s[..a][k] == s[k];
    }
    assert NoSpace(s[a..b]) by {
      assert forall k :: 0 <= k < b - a ==> s[a..b][k] == s[a + k];
    }
    WordAfterSpaces(s, a, b);
  }

  /** Spaces, then a word, then the rest: the non-space characters are the word's and the rest's. */
  lemma WordAfterSpaces(s: string, a: nat, b: nat)
    requires a <= b <= |s|
    requires AllSpace(s[..a]) && NoSpace(s[a..b])
    ensures NonSpace(s) == s[a..b] + NonSpace(s[b..])
  {
    var x, w, y := s[..a], s[a..b], s[b..];
    assert s == x + (w + y);
    NonSpaceAppend(x, w + y);
    NonSpaceOfSpaces(x);
    assert NonSpace(s) == NonSpace(w + y);
    NonSpaceAppend(w, y);
    NonSpaceOfWord(w);
  }

  lemma WordsEmptyIff(s: string)
    ensures |Words(s)| == 0 <==> AllSpace(s)
  {
    NonSpaceEmptyIff(s);
    var ws := Words(s);
    if |ws| > 0 {
      assert Flatten(ws) == ws[0] + Flatten(ws[1..]);
    }
  }

  /** `str.strip()`: drops leading and trailing whitespace. */
  function Strip(s: string): (r: string)
    ensures AllSpace(s) <==> r == ""
    ensures r != "" ==> !IsSpace(r[0]) && !IsSpace(r[|r| - 1])
    ensures NonSpace(r) == NonSpace(s)
    ensures exists i, j :: 0 <= i <= j <= |s| && r == s[i..j] && AllSpace(s[..i]) && AllSpace(s[j..])
  {
    var a := SpaceEnd(s, 0);
    var b := TrimEnd(s, a);
    StripParts(s, a, b);
    s[a..b]
  }

  lemma StripParts(s: string, a: nat, b: nat)
    requires a <= b <= |s|
    requires AllSpace(s[..a]) && AllSpace(s[b..])
    requires a < |s| ==> !IsSpace(s[a]) && b > a
    requires b > a ==> !IsSpace(s[b - 1])
    ensures AllSpace(s) <==> a == b
    ensures NonSpace(s[a..b]) == NonSpace(s)
  {
    var x, m, y := s[..a], s[a..b], s[b..];
    assert s == x + m + y;
    NonSpaceAppend(x + m, y);
    NonSpaceAppend(x, m);
    NonSpaceOfSpaces(x);
    NonSpaceOfSpaces(y);
    StripEmptyIff(s, a, b);
  }

  lemma StripEmptyIff(s: string, a: nat, b: nat)
    requires a <= b <= |s|
    requires AllSpace(s[..a])
    requires a < |s| ==> !IsSpace(s[a]) && b > a
    ensures AllSpace(s) <==> a == b
  {
    if a == b {
      assert a == |s|;
      assert s[..a] == s;
    } else {
      assert !IsSpace(s[a]);
    }
  }

  /** The end of `s` once trailing whitespace after index `lo` is dropped. */
  function TrimEnd(s: string, lo: nat): (b: nat)
    requires lo <= |s|
    requires lo < |s| ==> !IsSpace(s[lo])
    decreases |s|
    ensures lo <= b <= |s|
    ensures AllSpace(s[b..])
    ensures b > lo ==> !IsSpace(s[b - 1])
    ensures lo < |s| ==> b > lo
  {
    if |s| == lo || !IsSpace(s[|s| - 1]) then |s|
    else
      var b := TrimEnd(s[..|s| - 1], lo);
      assert forall k :: b <= k < |s| - 1 ==> s[..|s| - 1][k] == s[k];
      b
  }

  // ---------------------------------------------------------------- title case and repetition

  /** `str.title()`: a letter is upper-cased after a non-letter and lower-cased after a letter. */
  function TitleFrom(s: string, afterLetter: bool): (r: string)
    ensures |r| == |s|
  {
    if |s| == 0 then ""
    else
      var c := s[0];
      var c' := if !IsLetter(c) then c else if afterLetter then LowerChar(c) else UpperChar(c);
      [c'] + TitleFrom(s[1..], IsLetter(c))
  }

  function Title(s: string): string
  {
    TitleFrom(s, false)
  }

  /** `c * n` in Python. */
  function Repeat(c: char, n: nat): (r: string)
    ensures |r| == n
    ensures forall i :: 0 <= i < n ==> r[i] == c
  {
    if n == 0 then "" else [c] + Repeat(c, n - 1)
  }

  /** Python's `s[:n]`. */
  function Take(s: string, n: nat): (r: string)
    ensures |r| == if |s| < n then |s| else n
    ensures r <= s
  {
    if |s| <= n then s else s[..n]
  }
}
