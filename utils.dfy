/** The prompt serialiser, the regex test wrapper and the Markdown report
    formatter of utils/utils.py. */
module Utils {
  import opened Decimal

  /** An (example, description) pair as the input sections collect it. */
  type Pair = (string, string)

  /** `t` sits in `s` at offset `k`. */
  predicate Occurs(t: string, s: string, k: nat) {
    k + |t| <= |s| && s[k..k + |t|] == t
  }

  lemma OccursIn(a: string, t: string, b: string)
    ensures Occurs(t, a + t + b, |a|)
  {
    assert (a + t + b)[|a|..|a| + |t|] == t;
  }

  lemma OccursExtended(t: string, s: string, k: nat, b: string)
    requires Occurs(t, s, k)
    ensures Occurs(t, s + b, k)
  {
    assert (s + b)[k..k + |t|] == s[k..k + |t|];
  }

  lemma OccursAtEnd(a: string, t: string)
    ensures Occurs(t, a + t, |a|)
  {
    assert (a + t)[|a|..|a| + |t|] == t;
  }

  /** An occurrence inside an occurrence is an occurrence. */
  lemma OccursTransitive(t: string, u: string, s: string, i: nat, j: nat)
    requires Occurs(t, u, i) && Occurs(u, s, j)
    ensures Occurs(t, s, j + i)
  {
    assert s[j..j + |u|] == u;
    forall x | 0 <= x < |t|
      ensures s[j + i + x] == t[x]
    {
      assert s[j + i + x] == s[j..j + |u|][i + x] == u[i + x] == u[i..i + |t|][x];
    }
  }

  // ---------------------------------------------------------------------
  // unpack_example
  // ---------------------------------------------------------------------

  /** One pair as the prompt shows it (no space after "Example:"). */
  function RenderExample(p: Pair): (r: string)
    ensures Occurs(p.0, r, 8) && Occurs(p.1, r, |p.0| + 22)
  {
    OccursIn("Example:", p.0, "\nDescription: " + p.1 + "\n\n");
    OccursIn("Example:" + p.0 + "\nDescription: ", p.1, "\n\n");
    "Example:" + p.0 + "\nDescription: " + p.1 + "\n\n"
  }

  /** Python's `sep.join(parts)`. */
  function Join(sep: string, parts: seq<string>): (r: string)
    ensures parts == [] ==> r == ""
    ensures |parts| == 1 ==> r == parts[0]
  {
    if |parts| == 0 then ""
    else if |parts| == 1 then parts[0]
    else parts[0] + sep + Join(sep, parts[1..])
  }

  lemma {:induction false} JoinAppend(sep: string, a: seq<string>, b: seq<string>)
    requires a != [] && b != []
    ensures Join(sep, a + b) == Join(sep, a) + sep + Join(sep, b)
    decreases |a|
  {
    if |a| == 1 {
      assert (a + b)[1..] == b;
    } else {
      assert (a + b)[1..] == a[1..] + b;
      JoinAppend(sep, a[1..], b);
    }
  }

  /** The list comprehension of unpack_example. */
  function RenderedExamples(examples: seq<Pair>): (r: seq<string>)
    ensures |r| == |examples|
  {
    seq(|examples|, i requires 0 <= i < |examples| => RenderExample(examples[i]))
  }

  /** unpack_example: the rendered pairs joined by single newlines. */
  function UnpackExample(examples: seq<Pair>): (r: string)
    ensures examples == [] ==> r == ""
    ensures |examples| == 1 ==> r == RenderExample(examples[0])
  {
    Join("\n", RenderedExamples(examples))
  }

  /** Unpacking a concatenation puts one newline between the two halves. */
  lemma UnpackAppend(a: seq<Pair>, b: seq<Pair>)
    requires a != [] && b != []
    ensures UnpackExample(a + b) == UnpackExample(a) + "\n" + UnpackExample(b)
  {
    assert RenderedExamples(a + b) == RenderedExamples(a) + RenderedExamples(b);
    JoinAppend("\n", RenderedExamples(a), RenderedExamples(b));
  }

  /** Pair `i` is rendered in place: after the earlier pairs and a newline,
      before a newline and the later pairs. */
  lemma UnpackAt(examples: seq<Pair>, i: nat)
    requires i < |examples|
    ensures UnpackExample(examples) ==
      (if i == 0 then "" else UnpackExample(examples[..i]) + "\n")
      + RenderExample(examples[i])
      + (if i + 1 == |examples| then "" else "\n" + UnpackExample(examples[i + 1..]))
  {
    var before, here, after := examples[..i], [examples[i]], examples[i + 1..];
    assert examples == before + here + after;
    if i + 1 < |examples| {
      UnpackAppend(before + here, after);
    } else {
      assert examples == before + here;
    }
    if i > 0 {
      UnpackAppend(before, here);
    }
  }

  /** Every pair's rendering occurs in the unpacked text. */
  lemma ExampleInUnpacked(examples: seq<Pair>, i: nat) returns (k: nat)
    requires i < |examples|
    ensures Occurs(RenderExample(examples[i]), UnpackExample(examples), k)
  {
    UnpackAt(examples, i);
    var pre := if i == 0 then "" else UnpackExample(examples[..i]) + "\n";
    var post := if i + 1 == |examples| then "" else "\n" + UnpackExample(examples[i + 1..]);
    OccursIn(pre, RenderExample(examples[i]), post);
    k := |pre|;
  }

  // ---------------------------------------------------------------------
  // generate_base_prompt
  // ---------------------------------------------------------------------

  /** The fixed text before the description section. */
  const PromptPreamble: string :=
    "Can you please help me generate a regular expression for my use-case? \n"
    + "I will provide you with:\n"
    + "- a description of the pattern I want to match (in <description> tags), \n"
    + "- some examples of the pattern I want to match (in <match_examples> tags),\n"
    + "- some examples of the pattern I don't want to match (in <not_match_examples> tags),\n"
    + "- and an example sentence that contains both the pattern I want to match and the pattern I don't want to match (in <example_sentence> tags).\n"
    + "\n"
    + "Description:\n"

  /** `body` on its own lines between an opening and a closing tag:
      "<tag>\n" + body + "\n</tag>". */
  function Tagged(tag: string, body: string): (r: string)
    ensures |r| == |tag| + 3 + |body| + |tag| + 4
    ensures Occurs(body, r, |tag| + 3)
  {
    var r := "<" + tag + ">\n" + body + "\n</" + tag + ">";
    OccursIn("<" + tag + ">\n", body, "\n</" + tag + ">");
    r
  }

  /** generate_base_prompt; `examples` and `notExamples` are the pair lists
      that the app passes in and this function unpacks. */
  function GenerateBasePrompt(description: string, examples: seq<Pair>, notExamples: seq<Pair>,
                              exampleSentence: string): string
  {
    PromptPreamble
    + Tagged("description", description)
    + "\n\nExamples:\n"
    + Tagged("match_examples", UnpackExample(examples))
    + "\n\nNot Examples:\n"
    + Tagged("not_match_examples", UnpackExample(notExamples))
    + "\n\nExample Sentence:\n"
    + Tagged("example_sentence", exampleSentence)
    + "\n\n"
  }

  /** The four tagged sections occur in the prompt, in this order, without
      overlapping, after the fixed preamble; the prompt ends two characters
      after the last one. Holds for every input, the empty ones included. */
  lemma PromptSections(description: string, examples: seq<Pair>, notExamples: seq<Pair>,
                       exampleSentence: string)
    returns (k1: nat, k2: nat, k3: nat, k4: nat)
    ensures var p := GenerateBasePrompt(description, examples, notExamples, exampleSentence);
      var s1 := Tagged("description", description);
      var s2 := Tagged("match_examples", UnpackExample(examples));
      var s3 := Tagged("not_match_examples", UnpackExample(notExamples));
      var s4 := Tagged("example_sentence", exampleSentence);
      && Occurs(s1, p, k1) && Occurs(s2, p, k2) && Occurs(s3, p, k3) && Occurs(s4, p, k4)
      && k1 + |s1| < k2 && k2 + |s2| < k3 && k3 + |s3| < k4 && k4 + |s4| + 2 == |p|
      && k1 == |PromptPreamble| && Occurs(PromptPreamble, p, 0)
  {
    var s1 := Tagged("description", description);
    var s2 := Tagged("match_examples", UnpackExample(examples));
    var s3 := Tagged("not_match_examples", UnpackExample(notExamples));
    var s4 := Tagged("example_sentence", exampleSentence);
    k1, k2, k3, k4 := SectionOffsets(PromptPreamble, s1, "\n\nExamples:\n", s2, "\n\nNot Examples:\n",
                                     s3, "\n\nExample Sentence:\n", s4, "\n\n");
  }

  /** Where the parts of a nine-part concatenation start. */
  lemma SectionOffsets(pre: string, s1: string, g1: string, s2: string, g2: string,
                       s3: string, g3: string, s4: string, post: string)
    returns (k1: nat, k2: nat, k3: nat, k4: nat)
    ensures var p := pre + s1 + g1 + s2 + g2 + s3 + g3 + s4 + post;
      && Occurs(s1, p, k1) && Occurs(s2, p, k2) && Occurs(s3, p, k3) && Occurs(s4, p, k4)
      && k1 + |s1| + |g1| == k2 && k2 + |s2| + |g2| == k3 && k3 + |s3| + |g3| == k4
      && k4 + |s4| + |post| == |p|
      && k1 == |pre| && Occurs(pre, p, 0)
  {
    var p1 := pre + s1;
    var p2 := p1 + g1;
    var p3 := p2 + s2;
    var p4 := p3 + g2;
    var p5 := p4 + s3;
    var p6 := p5 + g3;
    var p7 := p6 + s4;
    k1, k2, k3, k4 := |pre|, |p2|, |p4|, |p6|;
    OccursAtEnd("", pre);
    OccursAtEnd(pre, s1);
    OccursAtEnd(p2, s2);
    OccursAtEnd(p4, s3);
    OccursAtEnd(p6, s4);
    OccursExtended(pre, pre, 0, s1);
    ExtendedThrough(pre, p1, 0, g1, s2, g2, s3, g3, s4, post);
    ExtendedThrough(s1, p1, k1, g1, s2, g2, s3, g3, s4, post);
    OccursExtended(s2, p3, k2, g2);
    OccursExtended(s2, p4, k2, s3);
    ExtendedLast(s2, p5, k2, g3, s4, post);
    OccursExtended(s3, p5, k3, g3);
    ExtendedLast(s3, p6, k3, s4, "", post);
    assert p6 + s4 + "" == p7;
    OccursExtended(s4, p7, k4, post);
  }

  /** An occurrence in `s` is one in `s` followed by seven more parts. */
  lemma ExtendedThrough(t: string, s: string, k: nat, b1: string, b2: string, b3: string, b4: string,
                        b5: string, b6: string, b7: string)
    requires Occurs(t, s, k)
    ensures Occurs(t, s + b1 + b2 + b3 + b4 + b5 + b6 + b7, k)
  {
    OccursExtended(t, s, k, b1);
    OccursExtended(t, s + b1, k, b2);
    OccursExtended(t, s + b1 + b2, k, b3);
    OccursExtended(t, s + b1 + b2 + b3, k, b4);
    ExtendedLast(t, s + b1 + b2 + b3 + b4, k, b5, b6, b7);
  }

  /** An occurrence in `s` is one in `s` followed by three more parts. */
  lemma ExtendedLast(t: string, s: string, k: nat, b1: string, b2: string, b3: string)
    requires Occurs(t, s, k)
    ensures Occurs(t, s + b1 + b2 + b3, k)
  {
    OccursExtended(t, s, k, b1);
    OccursExtended(t, s + b1, k, b2);
    OccursExtended(t, s + b1 + b2, k, b3);
  }

  /** Pair `i` of a section's list lies inside the body of that section,
      wherever the section occurs in `p`. */
  lemma ExampleInSection(tag: string, examples: seq<Pair>, p: string, section: nat, i: nat)
    returns (k: nat)
    requires i < |examples|
    requires Occurs(Tagged(tag, UnpackExample(examples)), p, section)
    ensures Occurs(RenderExample(examples[i]), p, k)
    ensures section + |tag| + 3 <= k
    ensures k + |RenderExample(examples[i])| <= section + |tag| + 3 + |UnpackExample(examples)|
  {
    var body := UnpackExample(examples);
    var j := ExampleInUnpacked(examples, i);
    OccursTransitive(body, Tagged(tag, body), p, |tag| + 3, section);
    OccursTransitive(RenderExample(examples[i]), body, p, j, section + |tag| + 3);
    k := section + |tag| + 3 + j;
  }

  /** Match example `i`, rendered, lies inside the body of the
      match-examples section, at offset `k` of the prompt. */
  lemma MatchExampleInPrompt(description: string, examples: seq<Pair>, notExamples: seq<Pair>,
                             exampleSentence: string, i: nat)
    returns (section: nat, k: nat)
    requires i < |examples|
    ensures var p := GenerateBasePrompt(description, examples, notExamples, exampleSentence);
      && Occurs(Tagged("match_examples", UnpackExample(examples)), p, section)
      && Occurs(RenderExample(examples[i]), p, k)
      && section + |"match_examples"| + 3 <= k
      && k + |RenderExample(examples[i])| <= section + |"match_examples"| + 3 + |UnpackExample(examples)|
  {
    var k1, k3, k4;
    k1, section, k3, k4 := PromptSections(description, examples, notExamples, exampleSentence);
    k := ExampleInSection("match_examples", examples,
                          GenerateBasePrompt(description, examples, notExamples, exampleSentence), section, i);
  }

  /** Non-match example `i`, rendered, lies inside the body of the
      not-match-examples section, at offset `k` of the prompt. */
  lemma NotMatchExampleInPrompt(description: string, examples: seq<Pair>, notExamples: seq<Pair>,
                                exampleSentence: string, i: nat)
    returns (section: nat, k: nat)
    requires i < |notExamples|
    ensures var p := GenerateBasePrompt(description, examples, notExamples, exampleSentence);
      && Occurs(Tagged("not_match_examples", UnpackExample(notExamples)), p, section)
      && Occurs(RenderExample(notExamples[i]), p, k)
      && section + |"not_match_examples"| + 3 <= k
      && k + |RenderExample(notExamples[i])| <= section + |"not_match_examples"| + 3 + |UnpackExample(notExamples)|
  {
    var k1, k2, k4;
    k1, k2, section, k4 := PromptSections(description, examples, notExamples, exampleSentence);
    k := ExampleInSection("not_match_examples", notExamples,
                          GenerateBasePrompt(description, examples, notExamples, exampleSentence), section, i);
  }

  // ---------------------------------------------------------------------
  // test_regex
  // ---------------------------------------------------------------------

  /** One match: the matched text and its half-open span. */
  datatype MatchRecord = MatchRecord(text: string, start: nat, end: nat)

  /** What the regex engine does with (pattern, text): the pattern fails to
      compile, or it compiles and yields its matches in scanning order. */
  datatype EngineResult = PatternError | Found(matches: seq<MatchRecord>)

  /** The third-party regex engine, left abstract. */
  type Engine = (string, string) -> EngineResult

  /** test_regex: a compile error is swallowed into no matches; otherwise
      the engine's matches are passed through unchanged. */
  function TestRegex(engine: Engine, pattern: string, text: string): (r: seq<MatchRecord>)
  {
    match engine(pattern, text)
    case PatternError => []
    case Found(matches) => matches
  }

  /** test_regex is empty exactly when the pattern is invalid or it found nothing. */
  lemma TestRegexEmptyIff(engine: Engine, pattern: string, text: string)
    ensures TestRegex(engine, pattern, text) == [] <==>
      engine(pattern, text) == PatternError || engine(pattern, text) == Found([])
    ensures engine(pattern, text).Found? ==> TestRegex(engine, pattern, text) == engine(pattern, text).matches
  {
  }

  // ---------------------------------------------------------------------
  // markdown_test_results
  // ---------------------------------------------------------------------

  const NoMatchesMessage: string := "*No matches found or invalid regex pattern*"

  /** The block for the match numbered `number`. */
  function MatchBlock(number: nat, m: MatchRecord): (r: string)
    ensures |r| > 0 && r[0] == ' '
    ensures Occurs(m.text, r, |NatToString(number)| + 19)
  {
    var head := "    **Match " + NatToString(number) + ":**    ";
    var tail := "\nStart position: " + NatToString(m.start) + "\nEnd position: " + NatToString(m.end) + "\n\n\n";
    OccursIn(head, m.text, tail);
    head + m.text + tail
  }

  /** The blocks of `ms`, in order, numbered from `first` on. */
  function BlockTexts(first: nat, ms: seq<MatchRecord>): (r: seq<string>)
    ensures |r| == |ms|
  {
    seq(|ms|, i requires 0 <= i < |ms| => MatchBlock(first + i, ms[i]))
  }

  /** The concatenation of `parts`, in order. */
  function Concat(parts: seq<string>): string {
    if parts == [] then "" else Concat(parts[..|parts| - 1]) + parts[|parts| - 1]
  }

  lemma {:induction false} ConcatAppend(a: seq<string>, b: seq<string>)
    ensures Concat(a + b) == Concat(a) + Concat(b)
    decreases |b|
  {
    if b == [] {
      assert a + b == a;
    } else {
      assert (a + b)[..|a + b| - 1] == a + b[..|b| - 1];
      ConcatAppend(a, b[..|b| - 1]);
    }
  }

  /** The report markdown_test_results returns. */
  function Report(ms: seq<MatchRecord>): string {
    if ms == [] then NoMatchesMessage else Concat(BlockTexts(1, ms))
  }

  /** Match `i` is the block numbered `i + 1`, after the blocks of the matches
      before it (numbered 1..i) and before those of the matches after it
      (numbered from i + 2 on). */
  lemma ReportBlockAt(ms: seq<MatchRecord>, i: nat)
    requires i < |ms|
    ensures Report(ms) == Concat(BlockTexts(1, ms[..i])) + MatchBlock(i + 1, ms[i])
                          + Concat(BlockTexts(i + 2, ms[i + 1..]))
  {
    var before, after := BlockTexts(1, ms[..i]), BlockTexts(i + 2, ms[i + 1..]);
    assert BlockTexts(1, ms) == before + [MatchBlock(i + 1, ms[i])] + after;
    ConcatAppend(before + [MatchBlock(i + 1, ms[i])], after);
    ConcatAppend(before, [MatchBlock(i + 1, ms[i])]);
  }

  /** A concatenation starts with its first part. */
  lemma {:induction false} ConcatStartsWithFirst(parts: seq<string>)
    requires parts != []
    ensures Occurs(parts[0], Concat(parts), 0)
    decreases |parts|
  {
    var init := parts[..|parts| - 1];
    if init == [] {
      OccursAtEnd("", parts[|parts| - 1]);
    } else {
      ConcatStartsWithFirst(init);
      OccursExtended(parts[0], Concat(init), 0, parts[|parts| - 1]);
    }
  }

  /** The fixed message comes back exactly for the empty list; a non-empty
      list's report starts with the block of its first match. */
  lemma ReportNoMatchesIff(ms: seq<MatchRecord>)
    ensures Report(ms) == NoMatchesMessage <==> ms == []
    ensures ms != [] ==> Occurs(MatchBlock(1, ms[0]), Report(ms), 0)
  {
    if ms != [] {
      var blocks := BlockTexts(1, ms);
      ConcatStartsWithFirst(blocks);
      var first := MatchBlock(1, ms[0]);
      assert first[0] == ' ';
      assert Report(ms)[0] == first[0];
      assert NoMatchesMessage[0] == '*';
    }
  }

  /** An invalid pattern is reported as the no-matches message. */
  lemma InvalidPatternReportsNoMatches(engine: Engine, pattern: string, text: string)
    requires engine(pattern, text) == PatternError
    ensures Report(TestRegex(engine, pattern, text)) == NoMatchesMessage
  {
  }

  /** The no-matches message shows exactly when the pattern was invalid or
      matched nothing: the report does not distinguish the two. */
  lemma NoMatchesMessageIsAmbiguous(engine: Engine, pattern: string, text: string)
    ensures Report(TestRegex(engine, pattern, text)) == NoMatchesMessage <==>
      engine(pattern, text) == PatternError || engine(pattern, text) == Found([])
  {
    ReportNoMatchesIff(TestRegex(engine, pattern, text));
    TestRegexEmptyIff(engine, pattern, text);
  }

  /** markdown_test_results: the fixed message for no matches, otherwise one
      numbered block per match accumulated in a loop. */
  method MarkdownTestResults(testResults: seq<MatchRecord>) returns (md: string)
    ensures md == Report(testResults)
  {
    if testResults == [] {
      return NoMatchesMessage;
    }
    md := "";
    var idx := 0;
    while idx < |testResults|
      invariant 0 <= idx <= |testResults|
      invariant md == Concat(BlockTexts(1, testResults[..idx]))
    {
      assert BlockTexts(1, testResults[..idx + 1]) == BlockTexts(1, testResults[..idx]) + [MatchBlock(idx + 1, testResults[idx])];
      md := md + MatchBlock(idx + 1, testResults[idx]);
      idx := idx + 1;
    }
    assert testResults[..idx] == testResults;
  }
}
