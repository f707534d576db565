/**
 * The keyword classifier that labels each prompt with a category. The prompt
 * is lower-cased and searched for keywords as plain substrings (not whole
 * words); the categories are tried in a fixed order and the first one with a
 * keyword present wins, "General" when none has.
 */
module PromptClassifier {
  import opened Strings

  datatype Category = Math | Creative | Reasoning | Knowledge | General
  {
    /** The label the classifier returns. */
    function Name(): string
    {
      match this
      case Math => "Math"
      case Creative => "Creative"
      case Reasoning => "Reasoning"
      case Knowledge => "Knowledge"
      case General => "General"
    }
  }

  const MathWords: seq<string> := ["prove", "solve", "equation", "math", "calculate"]
  const CreativeWords: seq<string> := ["story", "poem", "imagine", "creative"]
  const ReasoningWords: seq<string> := ["why", "how", "explain", "analyze", "reason"]
  const KnowledgeWords: seq<string> := ["when", "where", "what", "who", "define", "describe"]

  /** Some keyword of `words` occurs somewhere in `text`. */
  ghost predicate Mentions(text: string, words: seq<string>)
  {
    exists k: nat, j: nat :: k < |words| && OccursAt(text, words[k], j)
  }

  /** Python's `any(word in text for word in words)`, checked keyword by keyword. */
  function AnyIn(text: string, words: seq<string>): (b: bool)
    ensures b <==> Mentions(text, words)
  {
    if |words| == 0 then false
    else
      ContainsIff(text, words[0]);
      var rest := AnyIn(text, words[1..]);
      assert Mentions(text, words[1..]) ==> Mentions(text, words) by {
        if Mentions(text, words[1..]) {
          var k: nat, j: nat :| k < |words[1..]| && OccursAt(text, words[1..][k], j);
          assert OccursAt(text, words[k + 1], j);
        }
      }
      assert Mentions(text, words) ==> Contains(text, words[0]) || Mentions(text, words[1..]) by {
        if Mentions(text, words) {
          var k: nat, j: nat :| k < |words| && OccursAt(text, words[k], j);
          if k > 0 {
            assert OccursAt(text, words[1..][k - 1], j);
          }
        }
      }
      Contains(text, words[0]) || rest
  }

  /** The category of `prompt`: the first of Math, Creative, Reasoning, Knowledge with a keyword in the lower-cased prompt. */
  function Classify(prompt: string): (c: Category)
    ensures c == Math <==> Mentions(Lower(prompt), MathWords)
    ensures c == Creative <==> !Mentions(Lower(prompt), MathWords) && Mentions(Lower(prompt), CreativeWords)
    ensures c == Reasoning <==>
      && !Mentions(Lower(prompt), MathWords)
      && !Mentions(Lower(prompt), CreativeWords)
      && Mentions(Lower(prompt), ReasoningWords)
    ensures c == Knowledge <==>
      && !Mentions(Lower(prompt), MathWords)
      && !Mentions(Lower(prompt), CreativeWords)
      && !Mentions(Lower(prompt), ReasoningWords)
      && Mentions(Lower(prompt), KnowledgeWords)
  {
    var p := Lower(prompt);
    if AnyIn(p, MathWords) then Math
    else if AnyIn(p, CreativeWords) then Creative
    else if AnyIn(p, ReasoningWords) then Reasoning
    else if AnyIn(p, KnowledgeWords) then Knowledge
    else General
  }

  /** All twenty keywords, in the order they are tried. */
  function Keywords(): seq<string>
  {
    MathWords + CreativeWords + ReasoningWords + KnowledgeWords
  }

  /** A prompt is "General" exactly when none of the twenty keywords occurs in it, ignoring case. */
  lemma GeneralIffNoKeyword(prompt: string)
    ensures Classify(prompt) == General <==>
      forall k: nat, j: nat :: k < |Keywords()| ==> !OccursAt(Lower(prompt), Keywords()[k], j)
  {
    var p := Lower(prompt);
    var all := Keywords();
    assert all[..5] == MathWords;
    assert all[5..9] == CreativeWords;
    assert all[9..14] == ReasoningWords;
    assert all[14..] == KnowledgeWords;
    MentionsSlice(p, all, 0, 5);
    MentionsSlice(p, all, 5, 9);
    MentionsSlice(p, all, 9, 14);
    MentionsSlice(p, all, 14, 20);
    if exists k: nat, j: nat :: k < |all| && OccursAt(p, all[k], j) {
      var k: nat, j: nat :| k < |all| && OccursAt(p, all[k], j);
      if k < 5 {
        assert all[..5][k] == all[k];
      } else if k < 9 {
        assert all[5..9][k - 5] == all[k];
      } else if k < 14 {
        assert all[9..14][k - 9] == all[k];
      } else {
        assert all[14..][k - 14] == all[k];
      }
    }
  }

  /** A keyword of a slice of `words` is a keyword of `words`. */
  lemma MentionsSlice(text: string, words: seq<string>, lo: nat, hi: nat)
    requires lo <= hi <= |words|
    ensures Mentions(text, words[lo..hi]) ==> exists k: nat, j: nat :: k < |words| && OccursAt(text, words[k], j)
  {
    if Mentions(text, words[lo..hi]) {
      var k: nat, j: nat :| k < |words[lo..hi]| && OccursAt(text, words[lo..hi][k], j);
      assert OccursAt(text, words[lo + k], j);
    }
  }

  /** Case does not matter: the prompt is lower-cased before any search. */
  lemma ClassifyIgnoresCase(prompt: string)
    ensures Classify(Lower(prompt)) == Classify(prompt)
    ensures Classify(Upper(prompt)) == Classify(prompt)
  {
    LowerIdempotent(prompt);
    LowerOfUpper(prompt);
  }

  lemma LowerAppend(a: string, b: string)
    ensures Lower(a + b) == Lower(a) + Lower(b)
  {
  }

  lemma {:induction false} MentionsWidened(a: string, s: string, b: string, words: seq<string>)
    requires Mentions(s, words)
    ensures Mentions(a + s + b, words)
  {
    var k: nat, j: nat :| k < |words| && OccursAt(s, words[k], j);
    var w := words[k];
    assert (a + s + b)[|a| + j..|a| + j + |w|] == s[j..j + |w|];
    assert OccursAt(a + s + b, w, |a| + j);
  }

  /** A Math keyword wins whatever surrounds it: adding text around a Math prompt keeps it Math. */
  lemma MathSurvivesContext(before: string, prompt: string, after: string)
    requires Classify(prompt) == Math
    ensures Classify(before + prompt + after) == Math
  {
    LowerAppend(before, prompt);
    LowerAppend(before + prompt, after);
    MentionsWidened(Lower(before), Lower(prompt), Lower(after), MathWords);
  }

  /** The keyword of a category occurring in a prompt with no keyword of an earlier category decides the category. */
  lemma FirstCategoryWins(prompt: string, k: nat, j: nat)
    requires k < |ReasoningWords| && OccursAt(Lower(prompt), ReasoningWords[k], j)
    requires !Mentions(Lower(prompt), MathWords) && !Mentions(Lower(prompt), CreativeWords)
    ensures Classify(prompt) == Reasoning
  {
  }

  // ---------------------------------------------------------------- concrete prompts

  /** A keyword containing a character the text lacks does not occur in it. */
  lemma MissingChar(text: string, w: string, m: nat)
    requires m < |w| && forall i :: 0 <= i < |text| ==> text[i] != w[m]
    ensures forall j: nat :: !OccursAt(text, w, j)
  {
    forall j: nat
      ensures !OccursAt(text, w, j)
    {
      if j + |w| <= |text| {
        assert text[j..j + |w|][m] == text[j + m];
      }
    }
  }

  /** A keyword containing two adjacent characters that never stand side by side in the text does not occur in it. */
  lemma MissingPair(text: string, w: string, m: nat)
    requires m + 1 < |w|
    requires forall i :: 0 <= i < |text| - 1 ==> text[i] != w[m] || text[i + 1] != w[m + 1]
    ensures forall j: nat :: !OccursAt(text, w, j)
  {
    forall j: nat
      ensures !OccursAt(text, w, j)
    {
      if j + |w| <= |text| {
        assert text[j..j + |w|][m] == text[j + m];
        assert text[j..j + |w|][m + 1] == text[j + m + 1];
      }
    }
  }

  lemma SolveEquationIsMath()
    ensures Classify("Solve this equation for x") == Math
  {
    var p := Lower("Solve this equation for x");
    assert p[0..5] == "solve";
    assert OccursAt(p, MathWords[1], 0);
  }

  /** Matching is by substring: "aftermath" contains "math". */
  lemma AftermathIsMath()
    ensures Classify("aftermath") == Math
  {
    var p := Lower("aftermath");
    assert p[5..9] == "math";
    assert OccursAt(p, MathWords[3], 5);
  }

  /** The chain-of-thought template asks to "Solve each step carefully", which makes it Math. */
  lemma ChainOfThoughtIsMath()
    ensures Classify("Solve each step carefully") == Math
  {
    var p := Lower("Solve each step carefully");
    assert p[0..5] == "solve";
    assert OccursAt(p, MathWords[1], 0);
  }

  lemma DragonStoryHasNoMath(p: string)
    requires p == "tell me a story about a dragon"
    ensures !Mentions(p, MathWords)
  {
    MissingChar(p, "prove", 0);
    MissingChar(p, "solve", 3);
    MissingChar(p, "equation", 1);
    MissingChar(p, "math", 3);
    MissingChar(p, "calculate", 0);
  }

  lemma DragonStoryIsCreative()
    ensures Classify("Tell me a story about a dragon") == Creative
  {
    var p := Lower("Tell me a story about a dragon");
    assert p == "tell me a story about a dragon";
    DragonStoryHasNoMath(p);
    DragonStoryMentionsStory(p);
    assert OccursAt(p, CreativeWords[0], 10);
  }

  lemma DragonStoryMentionsStory(p: string)
    requires p == "tell me a story about a dragon"
    ensures OccursAt(p, "story", 10)
  {
    assert p[10] == 's' && p[11] == 't' && p[12] == 'o' && p[13] == 'r' && p[14] == 'y';
    assert p[10..15] == "story";
  }

  lemma CapitalQuestionHasNoMath(p: string)
    requires p == "what is the capital of france?"
    ensures !Mentions(p, MathWords)
  {
    MissingChar(p, "prove", 3);
    MissingChar(p, "solve", 3);
    MissingChar(p, "equation", 1);
    MissingChar(p, "math", 0);
    MissingChar(p, "calculate", 4);
  }

  lemma CapitalQuestionHasNoCreative(p: string)
    requires p == "what is the capital of france?"
    ensures !Mentions(p, CreativeWords)
  {
    MissingChar(p, "story", 4);
    MissingChar(p, "poem", 3);
    MissingChar(p, "imagine", 3);
    MissingChar(p, "creative", 6);
  }

  /** "how" is not in the question: its letters occur, but never side by side. */
  lemma CapitalQuestionHasNoReasoning(p: string)
    requires p == "what is the capital of france?"
    ensures !Mentions(p, ReasoningWords)
  {
    MissingChar(p, "why", 2);
    MissingPair(p, "how", 0);
    MissingChar(p, "explain", 1);
    MissingChar(p, "analyze", 5);
    MissingPair(p, "reason", 0);
  }

  lemma CapitalQuestionIsKnowledge()
    ensures Classify("What is the capital of France?") == Knowledge
  {
    var p := Lower("What is the capital of France?");
    assert p == "what is the capital of france?";
    CapitalQuestionHasNoMath(p);
    CapitalQuestionHasNoCreative(p);
    CapitalQuestionHasNoReasoning(p);
    assert p[0..4] == "what";
    assert OccursAt(p, KnowledgeWords[2], 0);
  }

  /** Matching is by substring: "show me" contains "how". */
  lemma ShowMeIsReasoning()
    ensures Classify("show me") == Reasoning
  {
    var p := Lower("show me");
    assert p == "show me";
    MissingChar(p, "prove", 0);
    MissingChar(p, "solve", 2);
    MissingChar(p, "equation", 1);
    MissingChar(p, "math", 1);
    MissingChar(p, "calculate", 0);
    MissingChar(p, "story", 1);
    MissingChar(p, "poem", 0);
    MissingChar(p, "imagine", 0);
    MissingChar(p, "creative", 0);
    assert p[1..4] == "how";
    assert OccursAt(p, ReasoningWords[1], 1);
  }
}
