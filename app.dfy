/** The session state of app.py: the handlers that seed and edit the two
    example lists, the input sections that read them, and one run of the page
    script (`main`) with its flag that decides when a test report shows. */
module App {
  import opened Decimal
  import opened Utils

  datatype Option<T> = None | Some(value: T)

  /** The two example lists, named by their session key. */
  datatype ListField = PatternExamples | PatternNotExamples

  function FieldName(f: ListField): string {
    match f
    case PatternExamples => "pattern_examples"
    case PatternNotExamples => "pattern_not_examples"
  }

  function Other(f: ListField): ListField {
    match f
    case PatternExamples => PatternNotExamples
    case PatternNotExamples => PatternExamples
  }

  /** The session keys the page script stores. */
  datatype Key =
    | ListKey(field: ListField)
    | ExampleSentencesKey
    | ResultRegexKey
    | TestTextKey
    | ShowTestResultsKey
    | ExplanationKey

  /** The row every seeded or added entry holds. */
  const EmptyRow: Pair := ("", "")

  // ---------------------------------------------------------------------
  // The example lists
  // ---------------------------------------------------------------------

  /** The list after `append(('', ''))`. */
  function WithRowAdded(rows: seq<Pair>): (r: seq<Pair>)
    ensures |r| == |rows| + 1 && r[..|rows|] == rows && r[|rows|] == EmptyRow
  {
    rows + [EmptyRow]
  }

  /** The list after `pop(index)`: exactly row `index` is gone, the others
      keep their order. */
  function WithRowRemoved(rows: seq<Pair>, index: nat): (r: seq<Pair>)
    requires index < |rows|
    ensures |r| == |rows| - 1
    ensures forall j :: 0 <= j < index ==> r[j] == rows[j]
    ensures forall j :: index <= j < |r| ==> r[j] == rows[j + 1]
  {
    rows[..index] + rows[index + 1..]
  }

  /** The input section shows a remove button on row `index` exactly when
      this holds: every row but the first. */
  predicate DeleteOffered(rows: seq<Pair>, index: nat) {
    0 < index < |rows|
  }

  predicate AllBlank(rows: seq<Pair>) {
    forall j :: 0 <= j < |rows| ==> rows[j] == EmptyRow
  }

  /** A click on an Add button or on a remove button of one list. */
  datatype RowEdit = AddRow | DeleteRow(index: nat)

  /** Every remove in `edits` is on a row that had a remove button then. */
  predicate OfferedEdits(rows: seq<Pair>, edits: seq<RowEdit>)
    decreases |edits|
  {
    edits == [] ||
    match edits[0]
    case AddRow => OfferedEdits(WithRowAdded(rows), edits[1..])
    case DeleteRow(i) => DeleteOffered(rows, i) && OfferedEdits(WithRowRemoved(rows, i), edits[1..])
  }

  /** The list after the clicks `edits`. */
  function Replay(rows: seq<Pair>, edits: seq<RowEdit>): seq<Pair>
    requires OfferedEdits(rows, edits)
    decreases |edits|
  {
    if edits == [] then rows
    else match edits[0]
      case AddRow => Replay(WithRowAdded(rows), edits[1..])
      case DeleteRow(i) => Replay(WithRowRemoved(rows, i), edits[1..])
  }

  /** Offered clicks never remove the first row, so a list that has one
      keeps it; and they only ever store blank rows. */
  lemma {:induction false} OfferedEditsKeepFirstRow(rows: seq<Pair>, edits: seq<RowEdit>)
    requires |rows| >= 1 && OfferedEdits(rows, edits)
    ensures |Replay(rows, edits)| >= 1 && Replay(rows, edits)[0] == rows[0]
    ensures AllBlank(rows) ==> AllBlank(Replay(rows, edits))
    decreases |edits|
  {
    if edits != [] {
      match edits[0]
      case AddRow =>
        OfferedEditsKeepFirstRow(WithRowAdded(rows), edits[1..]);
      case DeleteRow(i) =>
        OfferedEditsKeepFirstRow(WithRowRemoved(rows, i), edits[1..]);
    }
  }

  /** From the seeded `[('', '')]`, no sequence of offered clicks empties a list. */
  lemma SeededListNeverEmpties(edits: seq<RowEdit>)
    requires OfferedEdits([EmptyRow], edits)
    ensures |Replay([EmptyRow], edits)| >= 1
    ensures AllBlank(Replay([EmptyRow], edits))
  {
    OfferedEditsKeepFirstRow([EmptyRow], edits);
  }

  // ---------------------------------------------------------------------
  // Input sections (create_input_section)
  // ---------------------------------------------------------------------

  /** The widget key of one text input: `f"{field_type}_{part}_{i}"`. */
  function WidgetKey(f: ListField, part: string, i: nat): string {
    FieldName(f) + "_" + part + "_" + NatToString(i)
  }

  /** A keyed text input: the text typed into it so far, else its default. */
  function TextInput(widgets: map<string, string>, key: string, default: string): string {
    if key in widgets then widgets[key] else default
  }

  /** The pairs an input section yields: for each row, in order, the texts of
      its example and description inputs. */
  function Collected(f: ListField, rows: seq<Pair>, widgets: map<string, string>): (r: seq<Pair>)
    ensures |r| == |rows|
  {
    seq(|rows|, i requires 0 <= i < |rows| =>
      (TextInput(widgets, WidgetKey(f, "example", i), rows[i].0),
       TextInput(widgets, WidgetKey(f, "description", i), rows[i].1)))
  }

  /** Python's `zip`: as many pairs as the shorter input has elements. */
  function Zip<X, Y>(xs: seq<X>, ys: seq<Y>): (r: seq<(X, Y)>)
    ensures |r| == if |xs| <= |ys| then |xs| else |ys|
    ensures forall i :: 0 <= i < |r| ==> r[i] == (xs[i], ys[i])
    decreases |xs|
  {
    if xs == [] || ys == [] then [] else [(xs[0], ys[0])] + Zip(xs[1..], ys[1..])
  }

  /** Typed text belongs to a row position, not to a row: with blank stored
      rows, removing row `index` leaves the texts of rows 0..n-2 where they
      were and drops the text of the last row. */
  lemma DeleteKeepsTypedTextByPosition(f: ListField, rows: seq<Pair>, widgets: map<string, string>,
                                       index: nat)
    requires AllBlank(rows) && index < |rows|
    ensures Collected(f, WithRowRemoved(rows, index), widgets) == Collected(f, rows, widgets)[..|rows| - 1]
  {
    var after := WithRowRemoved(rows, index);
    assert forall j :: 0 <= j < |after| ==> after[j] == rows[j];
  }

  /** An instance: three rows with "b" typed in row 1 and "c" in row 2;
      removing row 1 leaves "b" on screen and drops "c". */
  lemma DeleteSecondRowKeepsItsText()
    ensures var rows := [EmptyRow, EmptyRow, EmptyRow];
      var widgets := map[WidgetKey(PatternExamples, "example", 1) := "b",
                         WidgetKey(PatternExamples, "example", 2) := "c"];
      && Collected(PatternExamples, rows, widgets) == [("", ""), ("b", ""), ("c", "")]
      && Collected(PatternExamples, WithRowRemoved(rows, 1), widgets) == [("", ""), ("b", "")]
  {
    var rows := [EmptyRow, EmptyRow, EmptyRow];
    var widgets := map[WidgetKey(PatternExamples, "example", 1) := "b",
                       WidgetKey(PatternExamples, "example", 2) := "c"];
    assert NatToString(0) == "0" && NatToString(1) == "1" && NatToString(2) == "2";
    assert WidgetKey(PatternExamples, "example", 1) == "pattern_examples_example_1";
    assert WidgetKey(PatternExamples, "example", 2) == "pattern_examples_example_2";
    assert WidgetKey(PatternExamples, "example", 0) == "pattern_examples_example_0";
    assert WidgetKey(PatternExamples, "description", 0) == "pattern_examples_description_0";
    assert WidgetKey(PatternExamples, "description", 1) == "pattern_examples_description_1";
    assert WidgetKey(PatternExamples, "description", 2) == "pattern_examples_description_2";
    var seen := Collected(PatternExamples, rows, widgets);
    assert seen[0] == ("", "") && seen[1] == ("b", "") && seen[2] == ("c", "");
    DeleteKeepsTypedTextByPosition(PatternExamples, rows, widgets, 1);
  }

  /** Inputs with nothing typed show the stored rows. */
  lemma CollectedWithoutWidgets(f: ListField, rows: seq<Pair>)
    ensures Collected(f, rows, map[]) == rows
  {
    assert forall i :: 0 <= i < |rows| ==> Collected(f, rows, map[])[i] == (rows[i].0, rows[i].1);
  }

  /** The corrected removal: the text typed so far is written back
      into the stored rows before row `index` is removed, and the section's
      inputs start afresh, so the next run shows the typed rows without
      row `index`. */
  function RemoveTypedRow(f: ListField, rows: seq<Pair>, widgets: map<string, string>, index: nat): (r: seq<Pair>)
    requires index < |rows|
    ensures Collected(f, r, map[]) == WithRowRemoved(Collected(f, rows, widgets), index)
  {
    CollectedWithoutWidgets(f, WithRowRemoved(Collected(f, rows, widgets), index));
    WithRowRemoved(Collected(f, rows, widgets), index)
  }

  /** The instance above with the intended removal: removing row 1 drops
      "b" and keeps "c". */
  lemma DeleteSecondRowDropsItsText()
    ensures var rows := [EmptyRow, EmptyRow, EmptyRow];
      var widgets := map[WidgetKey(PatternExamples, "example", 1) := "b",
                         WidgetKey(PatternExamples, "example", 2) := "c"];
      Collected(PatternExamples, RemoveTypedRow(PatternExamples, rows, widgets, 1), map[]) == [("", ""), ("c", "")]
  {
    DeleteSecondRowKeepsItsText();
  }

  // ---------------------------------------------------------------------
  // The test step of main
  // ---------------------------------------------------------------------

  /** What the test step does as written: it hands the stored pattern to
      test_regex even when none was generated, and `regex.finditer(None, …)`
      raises TypeError, which test_regex does not catch. */
  datatype Tested = Returned(matches: seq<MatchRecord>) | TypeErrorRaised

  function TestStepAsWritten(engine: Engine, resultRegex: Option<string>, testText: string): (t: Tested)
    ensures t == TypeErrorRaised <==> resultRegex.None?
  {
    match resultRegex
    case None => TypeErrorRaised
    case Some(pattern) => Returned(TestRegex(engine, pattern, testText))
  }

  /** The test step the rest of the model uses: no pattern behaves as an
      invalid one; with a pattern it is the step as written. */
  function TestStep(engine: Engine, resultRegex: Option<string>, testText: string): (r: seq<MatchRecord>)
    ensures resultRegex.None? ==> r == []
    ensures resultRegex.Some? ==> TestStepAsWritten(engine, resultRegex, testText) == Returned(r)
  {
    match resultRegex
    case None => []
    case Some(pattern) => TestRegex(engine, pattern, testText)
  }

  lemma TestWithoutRegexReportsNoMatches(engine: Engine, testText: string)
    ensures TestStepAsWritten(engine, None, testText) == TypeErrorRaised
    ensures Report(TestStep(engine, None, testText)) == NoMatchesMessage
  {
  }

  // ---------------------------------------------------------------------
  // The results column of main
  // ---------------------------------------------------------------------

  /** What the results column does with the stored pattern. */
  datatype Displayed = NothingShown | PatternShown(pattern: string) | AttributeErrorRaised

  /** As written: a non-empty pattern is shown with
      `st.session_state.explanation`, which raises AttributeError when no
      explanation was ever stored. */
  function ResultsColumnAsWritten(resultRegex: Option<string>, explanationStored: bool): (d: Displayed)
    ensures d == AttributeErrorRaised <==> resultRegex.Some? && resultRegex.value != "" && !explanationStored
    ensures d.PatternShown? ==> resultRegex == Some(d.pattern)
  {
    match resultRegex
    case None => NothingShown
    case Some(pattern) =>
      if pattern == "" then NothingShown
      else if explanationStored then PatternShown(pattern)
      else AttributeErrorRaised
  }

  /** The results column the rest of the model uses: a missing explanation
      is shown as none instead of raising. */
  function ResultsColumn(resultRegex: Option<string>, explanationStored: bool): (d: Displayed)
    ensures d != AttributeErrorRaised
    ensures d.PatternShown? <==> resultRegex.Some? && resultRegex.value != ""
    ensures d.PatternShown? ==> resultRegex == Some(d.pattern)
    ensures ResultsColumnAsWritten(resultRegex, explanationStored) != AttributeErrorRaised ==>
      d == ResultsColumnAsWritten(resultRegex, explanationStored)
  {
    match resultRegex
    case None => NothingShown
    case Some(pattern) => if pattern == "" then NothingShown else PatternShown(pattern)
  }

  // ---------------------------------------------------------------------
  // The session and one run of the page script
  // ---------------------------------------------------------------------

  /** The button, if any, whose click started this run. */
  datatype Click = NoClick | GenerateClicked | RunTestClicked

  /** What the completion service does with a prompt: the pattern request
      fails; the pattern arrives and the explanation request fails; or both
      arrive (the explanation text is not modelled). */
  datatype Completion = ServiceFailed | ExplanationFailed(pattern: string) | Answered(pattern: string)

  /** A run either dies with an exception or renders its results column
      and, or not, a test report. */
  datatype RunOutcome = Raised | Rendered(shown: Displayed, report: Option<string>)

  /** `st.session_state`: which keys are stored, and their values (a value
      whose key is not in `present` means nothing). */
  class Session {
    var present: set<Key>
    var patternExamples: seq<Pair>
    var patternNotExamples: seq<Pair>
    var patternExampleSentences: string
    var resultRegex: Option<string>
    var testText: string
    var showTestResults: bool

    /** A new browser session stores nothing. */
    constructor ()
      ensures present == {} && Valid()
    {
      present := {};
      patternExamples, patternNotExamples := [], [];
      patternExampleSentences := "";
      resultRegex := None;
      testText := "";
      showTestResults := false;
    }

    function Rows(f: ListField): seq<Pair>
      reads this
    {
      match f
      case PatternExamples => patternExamples
      case PatternNotExamples => patternNotExamples
    }

    /** The values that are not example lists. */
    function Scalars(): (string, Option<string>, string, bool)
      reads this
    {
      (patternExampleSentences, resultRegex, testText, showTestResults)
    }

    /** What the wiring keeps: a stored list has its first row, and every
        stored row is blank (nothing writes typed text back). */
    predicate Valid()
      reads this
    {
      forall f: ListField :: ListKey(f) in present ==> |Rows(f)| >= 1 && AllBlank(Rows(f))
    }

    /** init_session_state: seeds each of its three keys only when absent. */
    method InitSessionState()
      modifies this
      ensures present == old(present) + {ListKey(PatternExamples), ListKey(PatternNotExamples), ExampleSentencesKey}
      ensures patternExamples == old(if ListKey(PatternExamples) in present then patternExamples else [EmptyRow])
      ensures patternNotExamples == old(if ListKey(PatternNotExamples) in present then patternNotExamples else [EmptyRow])
      ensures patternExampleSentences == old(if ExampleSentencesKey in present then patternExampleSentences else "")
      ensures resultRegex == old(resultRegex) && testText == old(testText) && showTestResults == old(showTestResults)
      // a second call changes nothing
      ensures old({ListKey(PatternExamples), ListKey(PatternNotExamples), ExampleSentencesKey} <= present) ==> unchanged(this)
      ensures old(Valid()) ==> Valid()
    {
      if ListKey(PatternExamples) !in present {
        patternExamples := [EmptyRow];
        present := present + {ListKey(PatternExamples)};
      }
      if ListKey(PatternNotExamples) !in present {
        patternNotExamples := [EmptyRow];
        present := present + {ListKey(PatternNotExamples)};
      }
      if ExampleSentencesKey !in present {
        patternExampleSentences := "";
        present := present + {ExampleSentencesKey};
      }
    }

    /** The defaults main sets after init_session_state, each only when absent. */
    method InitRunDefaults()
      modifies this
      ensures present == old(present) + {ResultRegexKey, TestTextKey, ShowTestResultsKey}
      ensures resultRegex == old(if ResultRegexKey in present then resultRegex else None)
      ensures testText == old(if TestTextKey in present then testText else "")
      ensures showTestResults == old(if ShowTestResultsKey in present then showTestResults else false)
      ensures patternExamples == old(patternExamples) && patternNotExamples == old(patternNotExamples)
      ensures patternExampleSentences == old(patternExampleSentences)
      ensures old({ResultRegexKey, TestTextKey, ShowTestResultsKey} <= present) ==> unchanged(this)
      ensures old(Valid()) ==> Valid()
    {
      if ResultRegexKey !in present {
        resultRegex := None;
        present := present + {ResultRegexKey};
      }
      if TestTextKey !in present {
        testText := "";
        present := present + {TestTextKey};
      }
      if ShowTestResultsKey !in present {
        showTestResults := false;
        present := present + {ShowTestResultsKey};
      }
    }

    /** add_input_field: one blank row at the end of list `f`. */
    method AddInputField(f: ListField)
      requires ListKey(f) in present
      modifies this
      ensures Rows(f) == WithRowAdded(old(Rows(f)))
      ensures Rows(Other(f)) == old(Rows(Other(f)))
      ensures present == old(present) && Scalars() == old(Scalars())
      ensures old(Valid()) ==> Valid()
    {
      match f
      case PatternExamples => patternExamples := patternExamples + [EmptyRow];
      case PatternNotExamples => patternNotExamples := patternNotExamples + [EmptyRow];
    }

    /** remove_input_field: row `index` of list `f` is removed. The invariant
        survives when the row is one the section offers to remove. */
    method RemoveInputField(f: ListField, index: nat)
      requires ListKey(f) in present && index < |Rows(f)|
      modifies this
      ensures Rows(f) == WithRowRemoved(old(Rows(f)), index)
      ensures Rows(Other(f)) == old(Rows(Other(f)))
      ensures present == old(present) && Scalars() == old(Scalars())
      ensures old(Valid()) && DeleteOffered(old(Rows(f)), index) ==> Valid()
    {
      match f
      case PatternExamples =>
        patternExamples := patternExamples[..index] + patternExamples[index + 1..];
      case PatternNotExamples =>
        patternNotExamples := patternNotExamples[..index] + patternNotExamples[index + 1..];
    }

    /** create_input_section: one pair per stored row, in row order, and the
        rows that get a remove button. */
    method CreateInputSection(f: ListField, widgets: map<string, string>)
      returns (pairs: seq<Pair>, removeButtons: set<nat>)
      requires ListKey(f) in present
      ensures pairs == Collected(f, Rows(f), widgets)
      ensures forall i :: i in removeButtons <==> DeleteOffered(Rows(f), i)
    {
      var rows := Rows(f);
      var examples: seq<string> := [];
      var descriptions: seq<string> := [];
      removeButtons := {};
      var i := 0;
      while i < |rows|
        invariant 0 <= i <= |rows|
        invariant |examples| == i && |descriptions| == i
        invariant forall j :: 0 <= j < i ==> examples[j] == TextInput(widgets, WidgetKey(f, "example", j), rows[j].0)
        invariant forall j :: 0 <= j < i ==>
          descriptions[j] == TextInput(widgets, WidgetKey(f, "description", j), rows[j].1)
        invariant forall j :: j in removeButtons <==> 0 < j < i
      {
        var (example, description) := rows[i];
        examples := examples + [TextInput(widgets, WidgetKey(f, "example", i), example)];
        descriptions := descriptions + [TextInput(widgets, WidgetKey(f, "description", i), description)];
        if i > 0 {
          removeButtons := removeButtons + {i};
        }
        i := i + 1;
      }
      pairs := Zip(examples, descriptions);
    }

    /** The Generate branch of main: the prompt goes to the service; the
        pattern is stored as soon as it arrives, the explanation is stored
        and the flag reset only once the explanation has arrived too, and a
        failure propagates. */
    method GenerateRegularExpression(prompt: string, service: string -> Completion) returns (raised: bool)
      modifies this
      ensures raised <==> !service(prompt).Answered?
      ensures resultRegex == if service(prompt).ServiceFailed? then old(resultRegex) else Some(service(prompt).pattern)
      ensures showTestResults == if service(prompt).Answered? then false else old(showTestResults)
      ensures present == old(present) + if service(prompt).Answered? then {ExplanationKey} else {}
      ensures patternExamples == old(patternExamples)
      ensures patternNotExamples == old(patternNotExamples)
      ensures patternExampleSentences == old(patternExampleSentences) && testText == old(testText)
    {
      var reply := service(prompt);
      if reply.ServiceFailed? {
        return true;
      }
      resultRegex := Some(reply.pattern);
      if reply.ExplanationFailed? {
        return true;
      }
      present := present + {ExplanationKey};
      showTestResults := false;
      raised := false;
    }

    /** The test column of main: the test text is stored, Run Test sets the
        flag, and the report is produced exactly when the flag is set and
        the test text is not empty. */
    method TestColumn(testInput: string, runTest: bool, engine: Engine) returns (report: Option<string>)
      modifies this
      ensures testText == testInput
      ensures showTestResults == (runTest || old(showTestResults))
      ensures report.Some? <==> showTestResults && testText != ""
      ensures report.Some? ==> report.value == Report(TestStep(engine, resultRegex, testText))
      ensures present == old(present) && patternExamples == old(patternExamples)
      ensures patternNotExamples == old(patternNotExamples)
      ensures patternExampleSentences == old(patternExampleSentences) && resultRegex == old(resultRegex)
    {
      testText := testInput;
      if runTest {
        showTestResults := true;
      }
      if showTestResults && testText != "" {
        var md := MarkdownTestResults(TestStep(engine, resultRegex, testText));
        report := Some(md);
      } else {
        report := None;
      }
    }

    /** The start of main: init_session_state, the three defaults, and the
        two input sections, which yield the pairs the prompt uses. */
    method StartRun(widgets: map<string, string>) returns (examples: seq<Pair>, notExamples: seq<Pair>)
      modifies this
      ensures present == old(present) + {ListKey(PatternExamples), ListKey(PatternNotExamples), ExampleSentencesKey,
                                         ResultRegexKey, TestTextKey, ShowTestResultsKey}
      ensures patternExamples == old(if ListKey(PatternExamples) in present then patternExamples else [EmptyRow])
      ensures patternNotExamples == old(if ListKey(PatternNotExamples) in present then patternNotExamples else [EmptyRow])
      ensures patternExampleSentences == old(if ExampleSentencesKey in present then patternExampleSentences else "")
      ensures resultRegex == old(if ResultRegexKey in present then resultRegex else None)
      ensures testText == old(if TestTextKey in present then testText else "")
      ensures showTestResults == old(if ShowTestResultsKey in present then showTestResults else false)
      ensures examples == Collected(PatternExamples, patternExamples, widgets)
      ensures notExamples == Collected(PatternNotExamples, patternNotExamples, widgets)
      ensures old(Valid()) ==> Valid()
    {
      InitSessionState();
      InitRunDefaults();
      var exampleButtons, notExampleButtons;
      examples, exampleButtons := CreateInputSection(PatternExamples, widgets);
      notExamples, notExampleButtons := CreateInputSection(PatternNotExamples, widgets);
    }

    /** The part of main after the input sections, for the prompt they
        give: the Generate branch when it was clicked, then the results
        and test columns. */
    method RunBody(prompt: string, testInput: string, click: Click, service: string -> Completion, engine: Engine)
      returns (outcome: RunOutcome)
      modifies this
      ensures present == old(present) + (if click == GenerateClicked && outcome.Rendered? then {ExplanationKey} else {})
      ensures patternExamples == old(patternExamples) && patternNotExamples == old(patternNotExamples)
      ensures patternExampleSentences == old(patternExampleSentences)
      ensures var reply := service(prompt);
        var generate := click == GenerateClicked;
        && (outcome == Raised <==> generate && !reply.Answered?)
        && resultRegex == (if generate && !reply.ServiceFailed? then Some(reply.pattern) else old(resultRegex))
        && showTestResults == (if click == RunTestClicked then true
                               else if generate && reply.Answered? then false
                               else old(showTestResults))
        && testText == (if outcome == Raised then old(testText) else testInput)
      ensures outcome.Rendered? ==> outcome.shown == ResultsColumn(resultRegex, ExplanationKey in present)
      ensures outcome.Rendered? ==> (outcome.report.Some? <==> showTestResults && testText != "")
      ensures outcome.Rendered? && outcome.report.Some? ==>
        outcome.report.value == Report(TestStep(engine, resultRegex, testText))
      ensures click == GenerateClicked && outcome.Rendered? ==> !showTestResults && outcome.report == None
      ensures click == RunTestClicked && testInput != "" ==> outcome.Rendered? && outcome.report.Some?
    {
      if click == GenerateClicked {
        var raised := GenerateRegularExpression(prompt, service);
        if raised {
          return Raised;
        }
      }
      var shown := ResultsColumn(resultRegex, ExplanationKey in present);
      var report := TestColumn(testInput, click == RunTestClicked, engine);
      outcome := Rendered(shown, report);
    }

    /** One run of main. `description`, `sentence` and `testInput` are what
        the unkeyed text inputs hold, `widgets` what the keyed ones hold;
        `service` stands for the two completion calls and `engine` for the
        regex engine. */
    method Rerun(description: string, widgets: map<string, string>, sentence: string, testInput: string,
                 click: Click, service: string -> Completion, engine: Engine)
      returns (outcome: RunOutcome)
      modifies this
      // the explanation is stored exactly by a generation that does not raise
      ensures present == old(present) + {ListKey(PatternExamples), ListKey(PatternNotExamples), ExampleSentencesKey,
                                         ResultRegexKey, TestTextKey, ShowTestResultsKey}
                         + (if click == GenerateClicked && outcome.Rendered? then {ExplanationKey} else {})
      ensures patternExamples == old(if ListKey(PatternExamples) in present then patternExamples else [EmptyRow])
      ensures patternNotExamples == old(if ListKey(PatternNotExamples) in present then patternNotExamples else [EmptyRow])
      ensures patternExampleSentences == old(if ExampleSentencesKey in present then patternExampleSentences else "")
      ensures var prompt := GenerateBasePrompt(description, Collected(PatternExamples, patternExamples, widgets),
                                               Collected(PatternNotExamples, patternNotExamples, widgets), sentence);
        var reply := service(prompt);
        var generate := click == GenerateClicked;
        && (outcome == Raised <==> generate && !reply.Answered?)
        && resultRegex == (if generate && !reply.ServiceFailed? then Some(reply.pattern)
                           else old(if ResultRegexKey in present then resultRegex else None))
        && showTestResults == (if click == RunTestClicked then true
                               else if generate && reply.Answered? then false
                               else old(if ShowTestResultsKey in present then showTestResults else false))
        && testText == (if outcome == Raised then old(if TestTextKey in present then testText else "")
                        else testInput)
      ensures outcome.Rendered? ==> outcome.shown == ResultsColumn(resultRegex, ExplanationKey in present)
      ensures outcome.Rendered? ==> (outcome.report.Some? <==> showTestResults && testText != "")
      ensures outcome.Rendered? && outcome.report.Some? ==>
        outcome.report.value == Report(TestStep(engine, resultRegex, testText))
      // a successful generation hides the previous report
      ensures click == GenerateClicked && outcome.Rendered? ==> !showTestResults && outcome.report == None
      // Run Test with text typed always shows a report
      ensures click == RunTestClicked && testInput != "" ==> outcome.Rendered? && outcome.report.Some?
      ensures old(Valid()) ==> Valid()
    {
      var examples, notExamples := StartRun(widgets);
      outcome := RunBody(GenerateBasePrompt(description, examples, notExamples, sentence), testInput, click,
                         service, engine);
    }
  }

  /** Run Test pressed with text typed in a fresh session, before any
      Generate: the run reaches the test step (the flag is set and the test
      text is not empty), and as written that step receives no pattern and
      raises. */
  method RunTestBeforeGenerate(engine: Engine, service: string -> Completion) returns (reached: bool, t: Tested)
    ensures reached && t == TypeErrorRaised
  {
    var s := new Session();
    var outcome := s.Rerun("", map[], "", "x", RunTestClicked, service, engine);
    reached := s.showTestResults && s.testText != "";
    t := TestStepAsWritten(engine, s.resultRegex, s.testText);
  }

  /** The same run with the corrected test step shows the no-matches message. */
  method RunTestBeforeGenerateReportsNoMatches(engine: Engine, service: string -> Completion)
    returns (outcome: RunOutcome)
    ensures outcome == Rendered(NothingShown, Some(NoMatchesMessage))
  {
    var s := new Session();
    outcome := s.Rerun("", map[], "", "x", RunTestClicked, service, engine);
  }

  /** A fresh session whose first Generate gets the pattern "a" but no
      explanation: that run raises with the pattern stored, and as written
      the results column of every later run raises AttributeError, before
      the test column is reached. */
  method ExplanationFailureBreaksLaterRuns(engine: Engine) returns (first: RunOutcome, later: Displayed)
    ensures first == Raised && later == AttributeErrorRaised
  {
    var s := new Session();
    var service := (prompt: string) => ExplanationFailed("a");
    first := s.Rerun("", map[], "", "", GenerateClicked, service, engine);
    var next := s.Rerun("", map[], "", "", NoClick, service, engine);
    later := ResultsColumnAsWritten(s.resultRegex, ExplanationKey in s.present);
  }

  /** The same two runs with the corrected results column: the later run
      renders and shows the stored pattern. */
  method ExplanationFailureKeepsLaterRuns(engine: Engine) returns (first: RunOutcome, later: RunOutcome)
    ensures first == Raised && later == Rendered(PatternShown("a"), None)
  {
    var s := new Session();
    var service := (prompt: string) => ExplanationFailed("a");
    first := s.Rerun("", map[], "", "", GenerateClicked, service, engine);
    later := s.Rerun("", map[], "", "", NoClick, service, engine);
  }
}
