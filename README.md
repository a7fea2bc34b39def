# Regex assistant: prompt builder, match report and session state

This project models the deterministic core of a small Streamlit app that
turns a description of a text pattern into a regular expression. The user
describes the pattern and lists examples that should match and examples that
should not. `generate_base_prompt` turns these into a prompt for a language
model. The model's reply is stored as the pattern. `test_regex` runs the
pattern over a test sentence, and `markdown_test_results` renders the matches
as Markdown.

The model has three modules:

- `Decimal` (decimal.dfy): how Python prints a non-negative integer.
  `NatToString` is proved against an independent reading of the digits.
- `Utils` (utils.dfy) follows utils/utils.py:
  - `unpack_example` is `UnpackExample`: a join of the rendered pairs.
  - `generate_base_prompt` is `GenerateBasePrompt`: the fixed template with
    four tagged sections.
  - The regex engine is left abstract (`Engine`). `TestRegex` is its
    fail-soft wrapper.
  - `markdown_test_results` is the loop method `MarkdownTestResults`. It is
    proved equal to the specification function `Report`.
- `App` (app.py) models `st.session_state` as the class `Session`:
  - `present` is the set of stored keys. One field per key holds its value,
    except for the explanation, whose text is not modelled.
  - The constructor stands for the empty `st.session_state` that the first
    run of `main` sees. It stores no key and satisfies the invariant `Valid`.
  - The handlers `init_session_state`, `add_input_field` and
    `remove_input_field` are methods of `Session`.
  - So are the input sections, and one run of `main` (`Rerun`). It is split
    into its start (`StartRun`) and the rest (`RunBody`). `RunBody` covers
    the Generate branch, the results column and the test column.
  - The pure functions `WithRowAdded`, `WithRowRemoved`, `Replay` and
    `Collected` state what the handlers do to the lists. The lemmas are
    stated about these functions.

In `unpack_example` (utils/utils.py:20), a pair renders as
`"Example:" + text + "\nDescription: " + desc + "\n\n"`, with no space after
`Example:`. Consecutive pairs are joined by one more `"\n"`, so two blank
lines separate them.

`Session.Rerun` models one run of `main` with the two corrections listed
under "## Findings" below: the test step and the results column. The
as-written behaviour of each is modelled beside it and shown by its own
member.

The model does not call anything outside itself. These things are parameters:
- The completion service, as `service: string -> Completion`. Its reply is
  one of: the pattern request fails; the pattern arrives but the explanation
  request fails; both arrive.
- The regex engine, as `engine: Engine`. Its result is a compile error or
  the list of matches.
- The texts the user typed. The keyed `st.text_input` widgets are a map
  from widget key to text. The unkeyed inputs are plain strings.
- Which button started the run.

## Model

| member | source | states |
|---|---|---|
| `Decimal.NatToString` | utils/utils.py:115-117 | the interpolated number is a non-empty string of decimal digits that starts with `0` only for zero |
| `Decimal.NatToStringRoundTrip` | utils/utils.py:115-117 | reading the printed digits back gives the number |
| `Decimal.NatToStringInjective` | utils/utils.py:115-117 | distinct numbers print as distinct strings |
| `Utils.RenderExample` | utils/utils.py:20 | the f-string of one pair: the example text starts at offset 8, right after `Example:`, and the description starts 14 characters after the text ends |
| `Utils.Join` | utils/utils.py:20 | `str.join` gives the empty string for no parts and the part itself for one part |
| `Utils.JoinAppend` | utils/utils.py:20 | joining two non-empty lists of parts puts exactly one separator between the two joins |
| `Utils.RenderedExamples` | utils/utils.py:20 | the list comprehension renders one text per pair |
| `Utils.UnpackExample` | utils/utils.py:20 | no pairs give the empty string; one pair gives exactly `"Example:" + text + "\nDescription: " + desc + "\n\n"` |
| `Utils.UnpackAppend` | utils/utils.py:20 | unpacking a concatenation is the two unpackings with one `"\n"` between them |
| `Utils.UnpackAt` | utils/utils.py:20 | pair i is rendered verbatim, after the earlier pairs plus one newline and before one newline plus the later pairs, so the order of the input is kept |
| `Utils.ExampleInUnpacked` | utils/utils.py:20 | every pair's rendering occurs in the unpacked text |
| `Utils.Tagged` | utils/utils.py:31-49 | a tagged section has the length of its parts, and its body sits verbatim right after the opening tag line |
| `Utils.GenerateBasePrompt` | utils/utils.py:23-52 | the template itself: preamble, then the four tag-delimited sections with their headings. Its properties are stated by `Utils.PromptSections` and the two example lemmas below |
| `Utils.PromptSections` | utils/utils.py:23-52 | for every input, empty ones included, the prompt starts with the fixed preamble. The description, match, non-match and sentence sections follow in this order without overlapping, and the prompt ends two characters after the sentence section |
| `Utils.MatchExampleInPrompt` | utils/utils.py:36-39 | every match example's rendering occurs inside the body of the `<match_examples>` section |
| `Utils.NotMatchExampleInPrompt` | utils/utils.py:41-44 | every non-match example's rendering occurs inside the body of the `<not_match_examples>` section |
| `Utils.TestRegex` | utils/utils.py:98-105 | the fail-soft wrapper: a compile error gives the empty list, and otherwise the engine's matches are returned. `Utils.TestRegexEmptyIff` states it as an iff |
| `Utils.TestRegexEmptyIff` | utils/utils.py:98-105 | `test_regex` is empty exactly when the pattern fails to compile or matches nothing; otherwise it returns the engine's matches unchanged |
| `Utils.InvalidPatternReportsNoMatches` | utils/utils.py:98-111 | a pattern that fails to compile ends as the no-matches message once formatted |
| `Utils.NoMatchesMessageIsAmbiguous` | utils/utils.py:98-111 | the no-matches message shows exactly when the pattern is invalid or matched nothing, so the report cannot tell these two apart |
| `Utils.MatchBlock` | utils/utils.py:115-120 | the block of one match starts with a space (unlike the no-matches message's `*`). The match text sits right after `    **Match N:**    ` |
| `Utils.Report` | utils/utils.py:110-121 | the specification function of `markdown_test_results`: the fixed message for no matches, else the concatenated blocks. Its properties are stated by `Utils.ReportNoMatchesIff` and `Utils.ReportBlockAt` |
| `Utils.BlockTexts` | utils/utils.py:114-120 | one numbered block per match |
| `Utils.ConcatAppend` | utils/utils.py:113-121 | accumulating two runs of blocks gives their concatenation |
| `Utils.ReportBlockAt` | utils/utils.py:113-121 | match i is the block numbered i+1. The blocks numbered 1..i come before it and the blocks numbered from i+2 come after it, so blocks are numbered 1..N in input order |
| `Utils.ReportNoMatchesIff` | utils/utils.py:110-121 | the report is the fixed message `*No matches found or invalid regex pattern*` exactly for the empty list. Otherwise it starts with block 1 |
| `Utils.MarkdownTestResults` | utils/utils.py:108-121 | the `+=` loop over `enumerate` returns exactly the report above |
| `App.WithRowAdded` | app.py:60-61 | appending keeps every earlier row and adds one `('', '')` at the end |
| `App.WithRowRemoved` | app.py:64-65 | `pop(i)` removes exactly row i. The earlier rows keep their place, the later rows move up one, and the length drops by one |
| `App.Replay` | app.py:60-65 | a sequence of Add and remove clicks applied to a list in order. It is what `App.OfferedEditsKeepFirstRow` quantifies over |
| `App.OfferedEditsKeepFirstRow` | app.py:89-92 | any sequence of Add clicks and clicks on offered remove buttons (index > 0) keeps the first row and stores only blank rows |
| `App.SeededListNeverEmpties` | app.py:51-96 | from the seeded `[('', '')]`, no sequence of offered clicks ever empties a list |
| `App.WidgetKey` | app.py:77 | the key `f"{field_type}_{part}_{i}"` of a row's text input, with `i` printed by `Decimal.NatToString`. The same key is used at line 84 with the part `description` |
| `App.TextInput` | app.py:74-85 | a keyed `st.text_input` shows the text typed into it so far, else its `value=` default |
| `App.Collected` | app.py:69-87 | an input section yields one pair per stored row |
| `App.Zip` | app.py:98 | `zip` yields as many pairs as the shorter list has elements, each pairing the elements at the same index |
| `App.DeleteKeepsTypedTextByPosition` | app.py:64-87 | typed text is keyed by row position. With blank stored rows, removing any row i leaves the texts of rows 0..n-2 in place and drops the last row's text |
| `App.DeleteSecondRowKeepsItsText` | app.py:64-87 | an instance of the above: with "b" typed in row 1 and "c" in row 2, removing row 1 leaves "b" on screen and drops "c" |
| `App.RemoveTypedRow` | app.py:64-65 | the corrected removal: the typed text is written back and row i removed. The next run then shows exactly the typed rows without row i |
| `App.DeleteSecondRowDropsItsText` | app.py:64-87 | the same instance with the corrected removal: removing row 1 drops "b" and keeps "c" |
| `App.TestStepAsWritten` | app.py:195-197 | the test step as written raises exactly when no pattern is stored. Otherwise it returns `test_regex` of the stored pattern |
| `App.TestStep` | app.py:195-197 | the test step with no stored pattern gives no matches. With a pattern it returns what the step as written returns |
| `App.TestWithoutRegexReportsNoMatches` | app.py:195-197 | with no pattern the step as written raises, and the corrected step reports the no-matches message |
| `App.ResultsColumnAsWritten` | app.py:173-179 | the results column as written raises AttributeError exactly when a non-empty pattern is stored but no explanation is. It shows a pattern only if that pattern is the one stored |
| `App.ResultsColumn` | app.py:173-179 | the corrected results column never raises. It shows a pattern exactly when a non-empty one is stored, and it agrees with the column as written wherever that does not raise |
| `App.Session.InitSessionState` | app.py:51-57 | seeds both lists with `[('', '')]` and the sentence with `''`, each only when absent. Stored values and the other keys do not change. A second call changes nothing. The invariant is kept |
| `App.Session.InitRunDefaults` | app.py:104-109 | defaults `result_regex` to None, `test_text` to `''` and `show_test_results` to False, each only when absent. A second call changes nothing |
| `App.Session.AddInputField` | app.py:60-61 | list f gets one blank row at the end. The other list and every other value are unchanged. The invariant is kept |
| `App.Session.RemoveInputField` | app.py:64-65 | exactly row i of list f is removed. The other list and every other value are unchanged. The invariant is kept when row i had a remove button |
| `App.Session.CreateInputSection` | app.py:68-98 | the section yields, in row order, one pair per stored row, read from that row's two inputs. Both lists grow together, so `zip` drops nothing. The remove buttons are exactly on rows 1..n-1 |
| `App.Session.StartRun` | app.py:101-149 | the start of `main`: all six keys are stored with their defaults where absent. The two sections yield the collected pairs |
| `App.Session.GenerateRegularExpression` | app.py:151-162 | the pattern is stored as soon as the service returns it. The explanation is stored, and `show_test_results` reset to False, only when the explanation also arrives. A service failure propagates |
| `App.Session.TestColumn` | app.py:188-199 | stores the test text. Run Test sets the flag. A report is produced exactly when the flag is set and the test text is not empty. The report is the formatted result of the corrected test step |
| `App.Session.RunBody` | app.py:151-199 | the part of `main` after the input sections, for a given prompt: the Generate branch when clicked, then the corrected results column and the test column, with every field stated |
| `App.Session.Rerun` | app.py:101-199 | one run of `main` with both corrections, stated field by field. A Generate click sends the prompt built from the pairs the two sections yield. A successful generation hides the report. Run Test with text typed always shows it. With the corrections, the run raises exactly when a generation fails. The invariant is kept |
| `App.RunTestBeforeGenerate` | app.py:191-197 | in a fresh session, Run Test with text typed before any Generate reaches the guarded test step: the flag is set and the text is not empty. The step as written then gets a missing pattern and raises |
| `App.RunTestBeforeGenerateReportsNoMatches` | app.py:191-199 | the same run with the corrected step shows no pattern and renders the no-matches message |
| `App.ExplanationFailureBreaksLaterRuns` | app.py:160-179 | in a fresh session, a Generate whose explanation request fails raises with the pattern `a` stored. In the next run, which has no click, the results column as written raises AttributeError |
| `App.ExplanationFailureKeepsLaterRuns` | app.py:160-179 | the same two runs with the corrected results column: the next run renders, shows `a` and shows no report |

## Findings

| source | as written | input that shows it | evidently intended | confidence | as-written member | corrected member |
|---|---|---|---|---|---|---|
| app.py:195-197 | The test column calls `test_regex(st.session_state.result_regex, …)` even when `result_regex` is still `None`. `regex.finditer(None, …)` raises `TypeError`, and the `except regex.error` in utils/utils.py:103 does not catch it | a fresh session: type `x` into the test field and click Run Test before any Generate | a missing pattern degrades like an invalid one, to the no-matches message, as the fail-soft wrapper does for bad patterns | medium (the exception type comes from the regex library's argument check); not executed | `App.RunTestBeforeGenerate` (over `App.TestStepAsWritten`) | `App.TestStep`, with `App.RunTestBeforeGenerateReportsNoMatches` |
| app.py:160-179 | `result_regex` is stored at line 160 before `generate_explanation` runs at line 161. If that request fails, the session keeps a pattern but no `explanation`. Every later run without a Generate click then reads `st.session_state.explanation` at line 179 and raises AttributeError before the test column runs, until a generation succeeds | a fresh session: Generate, with the pattern request answered (`a`) and the explanation request failing; then a run with no click | a failed explanation leaves the page usable: the pattern is shown without an explanation | medium (Streamlit raises AttributeError for a missing session key read as an attribute); not executed | `App.ExplanationFailureBreaksLaterRuns` (over `App.ResultsColumnAsWritten`) | `App.ResultsColumn`, with `App.ExplanationFailureKeepsLaterRuns` |
| app.py:64-87 | Text typed into a row lives in widgets keyed by the row's position (lines 77 and 84), and nothing writes it back into the stored list. `pop(index)` therefore shifts the stored rows, but the typed text stays with the positions. Removing row i shows row i's old text in its place and drops the last row's text | three rows, `b` typed in row 1 and `c` in row 2; click row 1's remove button | removing row i drops exactly the text typed in row i | medium (follows from Streamlit keeping widget state by key); not executed | `App.DeleteSecondRowKeepsItsText` (over `App.DeleteKeepsTypedTextByPosition`) | `App.RemoveTypedRow`, with `App.DeleteSecondRowDropsItsText` |

## Left out

- `get_azure_client`, `generate_answer` and `generate_explanation` (network calls to Azure OpenAI that read `st.secrets`) are replaced by the `service` parameter. The system messages, temperatures and token limits of those requests are not modelled.
- The regex engine (`regex.finditer`) is the abstract `Engine`. Which matches a pattern finds is not modelled; only the fail-soft rule is.
- The explanation text is left out: it is opaque model output. The model keeps only whether an explanation is stored, which decides whether the results column as written raises.
- All layout and widget rendering is left out: page config, logo, CSS, columns, headers, labels, `st.code` and `st.markdown`. Of the results column, only whether it shows the stored pattern, or raises, is modelled.
- `App.Session.TestColumn`: uses the corrected `App.TestStep`. The TypeError that app.py:197 raises when no pattern is stored is not part of this member; `App.RunTestBeforeGenerate` shows it (see "## Findings").
- `App.Session.RunBody`: uses the corrected `App.TestStep` and `App.ResultsColumn`. It never raises the TypeError at app.py:197, nor the AttributeError at app.py:179 after an explanation request failed, though the code does in reachable states. `App.RunTestBeforeGenerate` and `App.ExplanationFailureBreaksLaterRuns` show these (see "## Findings").
- `App.Session.Rerun`: uses the corrected `App.TestStep` and `App.ResultsColumn`. As written, a run also raises on the TypeError at app.py:197 and on the AttributeError at app.py:179 after an explanation request failed. `App.RunTestBeforeGenerate` and `App.ExplanationFailureBreaksLaterRuns` show these (see "## Findings").
- `App.Session.RemoveInputField`: keeps the code's removal by position. The corrected `App.RemoveTypedRow` is stated on values, because the session stores no typed text.
- `App.Session.Rerun`: the keyed text inputs are a map from key to the text typed so far. Streamlit's dropping of state for widgets that are not rendered is not modelled.
- `App.Session.AddInputField`: requires the list's key to be stored. On a missing key `st.session_state[field_type]` raises, but the button is only wired after `init_session_state`.
- `App.Session.RemoveInputField`: requires `index < len(list)`. `pop` would raise `IndexError` otherwise, but remove buttons are only wired for existing rows. Python's negative indices are not modelled because the wiring never passes one.
- `App.Session.CreateInputSection`: requires the list's key to be stored, for the same reason as `AddInputField`.
- `generate_base_prompt` is typed with `str` for the example lists but receives the `zip` of pairs. The model takes the pair lists.
