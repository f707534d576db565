/**
 * The regular expressions the log extractors use, all of one shape: fixed
 * text alternating with one-or-more runs of a character class, each run
 * captured as a group (`Model: ([\w\-\.:]+)`, `Tokens ...: (\d+)/(\d+)/(\d+)`).
 *
 * `MatchAt` matches such a pattern at one position taking every run as long
 * as possible; `Search` tries the positions from left to right, as
 * `re.search` and the first result of `re.findall` do. `Matches` is the
 * backtracking meaning of the same pattern, where a run may stop anywhere;
 * the lemmas show that when every run is followed by text starting outside
 * its class (or ends the pattern), the greedy matcher finds a match exactly
 * where one exists, so the two agree on where the leftmost match starts.
 */
module Patterns {
  import opened Base
  import opened Strings

  /** One member of a bracketed character class: `\w`, `\d`, `\s`, or one literal character. */
  datatype Atom = WordAtom | DigitAtom | SpaceAtom | CharAtom(c: char)

  /** `\w` over ASCII: letters, digits and the underscore. */
  predicate IsWordChar(c: char)
  {
    IsLetter(c) || IsDigit(c) || c == '_'
  }

  predicate AtomHas(a: Atom, c: char)
  {
    match a
    case WordAtom => IsWordChar(c)
    case DigitAtom => IsDigit(c)
    case SpaceAtom => IsSpace(c)
    case CharAtom(d) => c == d
  }

  /** A character class such as `[\d\.NA\-]`: the union of its members. */
  type CharClass = seq<Atom>

  predicate InClass(cls: CharClass, c: char)
  {
    |cls| > 0 && (AtomHas(cls[0], c) || InClass(cls[1..], c))
  }

  lemma {:induction false} InClassAppend(x: CharClass, y: CharClass, c: char)
    ensures InClass(x + y, c) <==> InClass(x, c) || InClass(y, c)
  {
    if |x| > 0 {
      assert (x + y)[1..] == x[1..] + y;
      InClassAppend(x[1..], y, c);
    } else {
      assert x + y == y;
    }
  }

  lemma InClassSingle(a: Atom, c: char)
    ensures InClass([a], c) <==> AtomHas(a, c)
  {
    assert [a][1..] == [];
  }

  /** A pattern piece: fixed text, or a captured one-or-more run of a class. */
  datatype Piece = Lit(text: string) | Run(cls: CharClass)

  type Pattern = seq<Piece>

  /** How many groups a pattern captures. */
  function Groups(pat: Pattern): nat
  {
    if |pat| == 0 then 0 else (if pat[0].Run? then 1 else 0) + Groups(pat[1..])
  }

  /** Where the longest run of class characters starting at `i` ends. */
  function RunEnd(s: string, cls: CharClass, i: nat): (j: nat)
    requires i <= |s|
    ensures i <= j <= |s|
    ensures forall k :: i <= k < j ==> InClass(cls, s[k])
    ensures j < |s| ==> !InClass(cls, s[j])
    decreases |s| - i
  {
    if i < |s| && InClass(cls, s[i]) then RunEnd(s, cls, i + 1) else i
  }

  /** A match: where it ends and the captured groups. */
  datatype Found = Found(start: nat, end: nat, groups: seq<string>)

  /** Matching at position `i` with every run taken as long as possible. */
  function MatchAt(s: string, pat: Pattern, i: nat): (r: Option<(nat, seq<string>)>)
    requires i <= |s|
    ensures r.Some? ==> i <= r.value.0 <= |s| && |r.value.1| == Groups(pat)
    decreases |pat|
  {
    if |pat| == 0 then Some((i, []))
    else match pat[0]
      case Lit(t) =>
        if OccursAt(s, t, i) then MatchAt(s, pat[1..], i + |t|) else None
      case Run(cls) =>
        var j := RunEnd(s, cls, i);
        if j == i then None
        else match MatchAt(s, pat[1..], j)
          case None => None
          case Some((e, gs)) => Some((e, [s[i..j]] + gs))
  }

  /** A literal that occurs where matching stands lets matching go on right after it. */
  lemma LitStep(s: string, t: string, pat: Pattern, i: nat)
    requires |pat| > 0 && pat[0] == Lit(t) && OccursAt(s, t, i)
    ensures MatchAt(s, pat, i) == MatchAt(s, pat[1..], i + |t|)
  {
  }

  /** A non-empty run followed by a match of the rest captures the run in front of the rest's groups. */
  lemma RunStep(s: string, cls: CharClass, pat: Pattern, i: nat, j: nat, e: nat, gs: seq<string>)
    requires |pat| > 0 && pat[0] == Run(cls) && i <= |s| && RunEnd(s, cls, i) == j && i < j
    requires MatchAt(s, pat[1..], j) == Some((e, gs))
    ensures MatchAt(s, pat, i) == Some((e, [s[i..j]] + gs))
  {
  }

  /** A run of `cls`, an occurrence of `t` and a run of `cls` reaching the end of the text match run, `t`, run. */
  lemma RunLitRunMatch(s: string, cls: CharClass, t: string, k: nat, j: nat)
    requires k < j && j + |t| < |s| && OccursAt(s, t, j)
    requires RunEnd(s, cls, k) == j && RunEnd(s, cls, j + |t|) == |s|
    ensures MatchAt(s, [Run(cls), Lit(t), Run(cls)], k) == Some((|s|, [s[k..j], s[j + |t|..]]))
  {
    var y, z := s[k..j], s[j + |t|..];
    var q2: Pattern := [Run(cls)];
    assert q2[1..] == [];
    assert s[j + |t|..|s|] == z;
    assert [z] + [] == [z];
    RunStep(s, cls, q2, j + |t|, |s|, |s|, []);
    assert MatchAt(s, q2, j + |t|) == Some((|s|, [z]));
    var q1: Pattern := [Lit(t)] + q2;
    assert q1[1..] == q2;
    LitStep(s, t, q1, j);
    assert MatchAt(s, q1, j) == Some((|s|, [z]));
    var q0: Pattern := [Run(cls)] + q1;
    assert q0[1..] == q1;
    RunStep(s, cls, q0, k, j, |s|, [z]);
    assert [y] + [z] == [y, z];
    assert q0 == [Run(cls), Lit(t), Run(cls)];
  }

  /**
   * Three runs of `cls` separated by occurrences of `t` and running to the
   * end of the text match the pattern run, `t`, run, `t`, run.
   */
  lemma SeparatedRunsMatch(s: string, cls: CharClass, t: string, i: nat, j1: nat, j2: nat)
    requires i < j1 && j1 + |t| < j2 && j2 + |t| < |s|
    requires OccursAt(s, t, j1) && OccursAt(s, t, j2)
    requires RunEnd(s, cls, i) == j1 && RunEnd(s, cls, j1 + |t|) == j2 && RunEnd(s, cls, j2 + |t|) == |s|
    ensures MatchAt(s, [Run(cls), Lit(t), Run(cls), Lit(t), Run(cls)], i)
      == Some((|s|, [s[i..j1], s[j1 + |t|..j2], s[j2 + |t|..]]))
  {
    var x, y, z := s[i..j1], s[j1 + |t|..j2], s[j2 + |t|..];
    var q2: Pattern := [Run(cls), Lit(t), Run(cls)];
    RunLitRunMatch(s, cls, t, j1 + |t|, j2);
    var q1: Pattern := [Lit(t)] + q2;
    assert q1[1..] == q2;
    LitStep(s, t, q1, j1);
    assert MatchAt(s, q1, j1) == Some((|s|, [y, z]));
    var q0: Pattern := [Run(cls)] + q1;
    assert q0[1..] == q1;
    RunStep(s, cls, q0, i, j1, |s|, [y, z]);
    assert [x] + [y, z] == [x, y, z];
    assert q0 == [Run(cls), Lit(t), Run(cls), Lit(t), Run(cls)];
  }

  /** `re.search` from position `i` on: the leftmost position where the pattern matches. */
  function SearchFrom(s: string, pat: Pattern, i: nat): (r: Option<Found>)
    requires i <= |s|
    ensures r.Some? ==> i <= r.value.start <= |s|
    ensures r.Some? ==> MatchAt(s, pat, r.value.start) == Some((r.value.end, r.value.groups))
    ensures r.Some? ==> forall k :: i <= k < r.value.start ==> MatchAt(s, pat, k).None?
    ensures r.None? ==> forall k :: i <= k <= |s| ==> MatchAt(s, pat, k).None?
    decreases |s| - i
  {
    match MatchAt(s, pat, i)
    case Some((e, gs)) => Some(Found(i, e, gs))
    case None => if i == |s| then None else SearchFrom(s, pat, i + 1)
  }

  /** `re.search(pattern, s)`: the groups of the leftmost match. */
  function Search(s: string, pat: Pattern): (r: Option<Found>)
    ensures r.Some? ==> |r.value.groups| == Groups(pat)
  {
    SearchFrom(s, pat, 0)
  }

  // ---------------------------------------------------------------- backtracking meaning

  /** All class characters. */
  predicate AllIn(cls: CharClass, t: string)
  {
    forall k :: 0 <= k < |t| ==> InClass(cls, t[k])
  }

  /**
   * The pattern matches `s[i..j]` capturing `gs`, a run being any non-empty
   * stretch of class characters.
   */
  ghost predicate Matches(s: string, pat: Pattern, i: nat, j: nat, gs: seq<string>)
    decreases |pat|
  {
    i <= j <= |s| &&
    if |pat| == 0 then j == i && gs == []
    else match pat[0]
      case Lit(t) => OccursAt(s, t, i) && Matches(s, pat[1..], i + |t|, j, gs)
      case Run(cls) =>
        && |gs| > 0
        && exists k: nat :: i < k <= j && gs[0] == s[i..k] && AllIn(cls, s[i..k]) && Matches(s, pat[1..], k, j, gs[1..])
  }

  /** Every run is followed by text whose first character is outside its class, or ends the pattern. */
  predicate Separated(pat: Pattern)
  {
    forall n :: 0 <= n < |pat| - 1 && pat[n].Run? ==>
      pat[n + 1].Lit? && |pat[n + 1].text| > 0 && !InClass(pat[n].cls, pat[n + 1].text[0])
  }

  lemma SeparatedTail(pat: Pattern)
    requires |pat| > 0 && Separated(pat)
    ensures Separated(pat[1..])
  {
    var tail := pat[1..];
    forall n | 0 <= n < |tail| - 1 && tail[n].Run?
      ensures tail[n + 1].Lit? && |tail[n + 1].text| > 0 && !InClass(tail[n].cls, tail[n + 1].text[0])
    {
      assert tail[n] == pat[n + 1] && tail[n + 1] == pat[n + 2];
    }
  }

  /** When every run of a pattern has the class `cls`, every captured group is a non-empty run of `cls`. */
  lemma {:induction false} MatchAtUniform(s: string, pat: Pattern, i: nat, cls: CharClass)
    requires i <= |s| && MatchAt(s, pat, i).Some?
    requires forall n :: 0 <= n < |pat| && pat[n].Run? ==> pat[n].cls == cls
    ensures forall k :: 0 <= k < |MatchAt(s, pat, i).value.1| ==>
      |MatchAt(s, pat, i).value.1[k]| > 0 && AllIn(cls, MatchAt(s, pat, i).value.1[k])
    decreases |pat|
  {
    if |pat| > 0 {
      assert forall n :: 0 <= n < |pat[1..]| ==> pat[1..][n] == pat[n + 1];
      match pat[0]
      case Lit(t) =>
        MatchAtUniform(s, pat[1..], i + |t|, cls);
      case Run(c) =>
        var j := RunEnd(s, c, i);
        MatchAtUniform(s, pat[1..], j, cls);
        var gs := MatchAt(s, pat, i).value.1;
        assert gs == [s[i..j]] + MatchAt(s, pat[1..], j).value.1;
        assert forall k :: 0 <= k < j - i ==> s[i..j][k] == s[i + k];
    }
  }

  /** The greedy match is a match. */
  lemma {:induction false} MatchAtSound(s: string, pat: Pattern, i: nat)
    requires i <= |s| && MatchAt(s, pat, i).Some?
    ensures Matches(s, pat, i, MatchAt(s, pat, i).value.0, MatchAt(s, pat, i).value.1)
    decreases |pat|
  {
    if |pat| > 0 {
      match pat[0]
      case Lit(t) =>
        MatchAtSound(s, pat[1..], i + |t|);
      case Run(cls) =>
        var j := RunEnd(s, cls, i);
        MatchAtSound(s, pat[1..], j);
        var r := MatchAt(s, pat, i).value;
        assert r.1[0] == s[i..j] && r.1[1..] == MatchAt(s, pat[1..], j).value.1;
        assert AllIn(cls, s[i..j]);
    }
  }

  /** A run of class characters that cannot be extended is the longest one. */
  lemma RunEndAt(s: string, cls: CharClass, i: nat, k: nat)
    requires i <= k <= |s| && AllIn(cls, s[i..k])
    requires k < |s| ==> !InClass(cls, s[k])
    ensures RunEnd(s, cls, i) == k
    decreases k - i
  {
    if i < k {
      assert s[i] == s[i..k][0];
      assert s[i + 1..k] == s[i..k][1..];
      RunEndAt(s, cls, i + 1, k);
    }
  }

  /** Where a separated pattern matches at all, the greedy matcher finds a match. */
  lemma {:induction false} MatchAtComplete(s: string, pat: Pattern, i: nat, j: nat, gs: seq<string>)
    requires Separated(pat) && Matches(s, pat, i, j, gs)
    ensures MatchAt(s, pat, i).Some?
    decreases |pat|
  {
    if |pat| > 0 {
      SeparatedTail(pat);
      match pat[0]
      case Lit(t) =>
        MatchAtComplete(s, pat[1..], i + |t|, j, gs);
        LitStep(s, t, pat, i);
      case Run(cls) =>
        var k: nat :| i < k <= j && gs[0] == s[i..k] && AllIn(cls, s[i..k]) && Matches(s, pat[1..], k, j, gs[1..]);
        if |pat| == 1 {
          assert RunEnd(s, cls, i) > i by {
            assert InClass(cls, s[i..k][0]);
          }
        } else {
          var t := pat[1].text;
          assert Matches(s, pat[1..], k, j, gs[1..]);
          assert OccursAt(s, t, k);
          assert s[k] == s[k..k + |t|][0];
          RunEndAt(s, cls, i, k);
          MatchAtComplete(s, pat[1..], k, j, gs[1..]);
          var r := MatchAt(s, pat[1..], k).value;
          RunStep(s, cls, pat, i, k, r.0, r.1);
        }
    }
  }

  /** `Search` finds the leftmost position where a separated pattern matches, and nothing when it matches nowhere. */
  lemma SearchLeftmost(s: string, pat: Pattern)
    requires Separated(pat)
    ensures Search(s, pat).Some? ==>
      var f := Search(s, pat).value;
      && Matches(s, pat, f.start, f.end, f.groups)
      && forall k: nat, j: nat, gs :: k < f.start ==> !Matches(s, pat, k, j, gs)
    ensures Search(s, pat).None? ==> forall k: nat, j: nat, gs :: !Matches(s, pat, k, j, gs)
  {
    var r := Search(s, pat);
    if r.Some? {
      MatchAtSound(s, pat, r.value.start);
    }
    forall k: nat, j: nat, gs | Matches(s, pat, k, j, gs)
      ensures r.Some? && r.value.start <= k
    {
      MatchAtComplete(s, pat, k, j, gs);
    }
  }
}
