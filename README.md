# Quiz Generator — a Dafny model

The Quiz Generator is a Streamlit page. The user pastes a text and picks a
level; "Generate Quiz" asks a Gemini model for multiple-choice questions
about the text, cleans the model's reply of Markdown code fences and decodes
its `mcqs` list. The page then shows one radio group per question, and
"Submit" counts the questions whose selected option text equals the text of
the correct option. Everything lives in `quizapp.py`.

The model has five modules:

- `PyValue` (`pyvalue.dfy`): the values `json.loads` produces (`Json`), and
  the Python semantics the page applies to them. This covers subscripting,
  with its `KeyError`, `IndexError` and `TypeError`, and `dict.values()`,
  with its `AttributeError`. It also covers Python `==` (`PyEq`), where
  `True == 1` and `None == None`.
- `Text` (`text.dfy`): `str.strip()` over the full set of characters
  `str.isspace()` accepts, `str.replace(pat, "")` scanning left to right
  (`RemoveAll`), and the predicate `Contains` (a pattern occurs in a text)
  that their properties are stated with.
- `Prompt` (`prompt.dfy`): the prompt template with the indented schema
  written out, the three levels, and `lower()` on their labels.
- `Fetch` (`fetch.dfy`): `fetch_questions`. It strips the reply, deletes the
  fence markers, strips again, decodes and takes `.get("mcqs", [])`. Every
  exception gives the empty list.
- `Quiz` (`quiz.dfy`): the session state `st.session_state` as the class
  `Session`. Its fields are the questions, the selections, the started flag,
  the level and the text. Each of its methods is one thing `main` does to
  that state. `InputPass` and `QuizPass` are the two branches of one script
  run. The scoring loop is `Session.Score`. It is proved equal to the
  recursive `Marks`, and `Marks` is proved to count the questions whose
  selection earns the mark.

Streamlit reruns the whole script on every click. A run is therefore
modelled as one method call that takes the button clicked (`Click`) and the
values the widgets return. The model call and `json.loads` are function
parameters (`model`, `decode`).

## Model

| member | source | states |
|---|---|---|
| PyValue.PyEqReflexive | quizapp.py:108 | every decoded value equals itself under Python `==`, so a selection that is the correct option's text scores |
| PyValue.PyEqSymmetric | quizapp.py:108 | the score comparison does not depend on the order of its two sides |
| PyValue.PyEq | quizapp.py:108 | two strings are `==` exactly when their contents agree, `None` is `==` only to `None`, and a string is `==` only to a string |
| PyValue.Subscript | quizapp.py:93-95 | a question dict with a string key yields the entry exactly when the key is present, else `KeyError`; only dicts, lists and strings can be subscripted |
| PyValue.Values | quizapp.py:93 | `.values()` succeeds exactly on a dict and yields exactly its values |
| Text.Strip | quizapp.py:63 | `strip()` leaves no whitespace at either end, and only whitespace is removed from either end |
| Text.StripUnique | quizapp.py:63-64 | stripping whitespace from around a stripped text gives that text |
| Text.StripIdempotent | quizapp.py:64 | the second `strip()` of a stripped text changes nothing |
| Text.RemoveAll | quizapp.py:64 | `replace(pat, "")` never lengthens the text; its lemmas state when it changes nothing and what it leaves behind |
| Text.RemoveAllFixpoint | quizapp.py:64 | `replace(pat, "")` leaves a text unchanged exactly when `pat` does not occur in it |
| Text.RemoveAllSkipsPrefix | quizapp.py:64 | text containing no first character of `pat` passes through `replace(pat, "")` unchanged, and what follows is handled on its own |
| Text.NoBackticksAfterRemoval | quizapp.py:64 | after `replace("```", "")` no triple backtick is left, even when removals bring backticks together |
| Prompt.LowerLabel | quizapp.py:81-84 | `quiz_level.lower()` turns the select box's "Easy", "Medium", "Hard" into "easy", "medium", "hard" |
| Prompt.Lower | quizapp.py:84 | lower-casing keeps the length and maps each character on its own |
| Prompt.BuildPrompt | quizapp.py:48-56 | the prompt is exactly as long as the template's parts plus the text and the level; its lemmas state where they sit and that both can be read back |
| Prompt.PromptHoldsInputs | quizapp.py:48-56 | the prompt holds the pasted text and the level verbatim, each at a fixed position after the template's preceding part |
| Prompt.ParseBuiltPrompt | quizapp.py:48-56 | the text and the level can be read back from the prompt they built |
| Prompt.ParsedPromptBuilt | quizapp.py:48-56 | every string from which a text and level can be read back is the prompt of that text and level |
| Prompt.BuildPromptInjective | quizapp.py:48-56 | two different (text, level) pairs never give the same prompt |
| Fetch.Unfence | quizapp.py:64 | after deleting "```json" and "```" and stripping, no whitespace is left at either end and no "```" anywhere |
| Fetch.Clean | quizapp.py:63-64 | the cleaned reply has no whitespace at either end and no "```" anywhere |
| Fetch.CleanFixpoints | quizapp.py:63-64 | the clean-up leaves a reply unchanged exactly when it is stripped and holds no "```" |
| Fetch.CleanIdempotent | quizapp.py:63-64 | cleaning a cleaned reply changes nothing |
| Fetch.CleanFencedReply | quizapp.py:62-64 | a reply in a ```json fence, with any whitespace around the markers, cleans to its body when the body holds no backtick |
| Fetch.CleanBareReply | quizapp.py:63-64 | a reply without a fence cleans to itself less the whitespace around it |
| Fetch.CleanDeletesInnerFence | quizapp.py:64 | the clean-up also deletes a "```" inside the JSON text, such as one in a question string, so the decoder sees altered content |
| Fetch.ParseReply | quizapp.py:63-73 | invalid JSON gives `[]` with the invalid-JSON error; a value that is not a dict gives `[]` with the general error; otherwise the result is the `mcqs` entry, or `[]` when there is none |
| Fetch.FetchQuestions | quizapp.py:58-73 | every error yields the empty list; a failing model call gives `[]` with the general error |
| Fetch.FencedFetchRoundTrip | quizapp.py:58-66 | a model that answers with an encoded quiz in a ```json fence, whitespace around the markers allowed, makes `fetch_questions` return the quiz's `mcqs` value, or `[]` when it has none, with no error |
| Fetch.FencedQuizRoundTrip | quizapp.py:62-66 | a quiz encoded, sent in a ```json fence and parsed comes back as its `mcqs` value, with no error |
| Fetch.BareQuizRoundTrip | quizapp.py:63-66 | the same holds for a quiz sent without a fence |
| Quiz.Nones | quizapp.py:85 | `[None] * n` has length n and holds only `None` |
| Quiz.OptionTexts | quizapp.py:93-95 | a question renders exactly when it is a dict with "mcq" and a dict under "options"; the radio group then offers its option texts |
| Quiz.FirstUnrenderable | quizapp.py:92-96 | the rendering loop reaches exactly the questions before the first one that cannot render |
| Quiz.FirstUnrenderableAt | quizapp.py:92-96 | the loop stops at the first question that cannot render: every earlier one renders and that one does not |
| Quiz.CorrectAnswer | quizapp.py:103-105 | the correct answer can be read only from a dict with "mcq", "options" and "correct" entries |
| Quiz.CorrectAnswerOfQuestion | quizapp.py:103-105 | a question of the sample's shape has as correct answer the option text its "correct" key names; a non-dict or a dict missing a key raises |
| Quiz.SampleQuestionAnswer | quizapp.py:33-46 | the sample dict `RESPONSE_JSON` has one question, whose correct answer reads as "Choice 1"; this is about the dict, not about the schema text the prompt carries, which is written out separately |
| Quiz.Scores | quizapp.py:108 | a selection scores only when the correct answer can be read; for a text answer and a text selection, it scores exactly when the two texts are equal |
| Quiz.Marks | quizapp.py:100-109 | the marks never exceed the number of questions |
| Quiz.MarksDefined | quizapp.py:102-105 | scoring raises exactly when some question's correct answer cannot be read, so an empty quiz never raises |
| Quiz.MarksCount | quizapp.py:100-109 | the marks are the number of questions whose selection equals the correct option's text |
| Quiz.MarksErrorPersists | quizapp.py:102-105 | an exception at some question ends the whole scoring with that exception |
| Quiz.UnansweredScores | quizapp.py:108 | an unanswered question (`None`) scores only when its correct option's text is JSON `null` |
| Quiz.SameTextScores | quizapp.py:105-108 | scoring compares texts, not keys: a different option with the same text as the correct one scores |
| Quiz.RestartUnreachableAsWritten | quizapp.py:99-119 | as written, no single click makes both the Submit and the nested Restart button true, so the restart block never runs |
| Quiz.Session.constructor | quizapp.py:19-29 | the first run starts with no questions, no selections, the quiz not started, no level and an empty text |
| Quiz.Session.CollectInput | quizapp.py:80-81 | the text area and the level box store their values and nothing else changes |
| Quiz.Session.Generate | quizapp.py:84-86 | the fetched list becomes the questions, with one `None` selection each, and the quiz starts even when the list is empty |
| Quiz.Session.Answer | quizapp.py:94 | the selection of question i becomes the radio group's value; the others stay |
| Quiz.Session.RecordAnswers | quizapp.py:92-96 | the selections before the first unrenderable question are the radio values, the rest stay, and the rendering fault is reported |
| Quiz.Session.Score | quizapp.py:100-111 | the loop's marks equal `Marks`, so they count matching questions, lie between 0 and the number of questions and are 0 of 0 for an empty quiz; it changes no state |
| Quiz.Session.Restart | quizapp.py:115-118 | the quiz stops and the questions, selections and text are cleared; the level stays |
| Quiz.Session.InputPass | quizapp.py:78-87 | before the quiz starts, a run stores the input; a Generate click fetches for the lower-cased level, starts the quiz and reruns; other clicks change nothing else |
| Quiz.Session.QuizPass | quizapp.py:89-119 | once started, a run renders and records the selections; Submit shows the marks out of the number of questions (or the exception); Restart resets the quiz and reruns |
| Quiz.GenerateScenario | quizapp.py:83-87 | a Generate click whose reply decodes to a quiz stores its questions with one `None` selection each |
| Quiz.PhotosynthesisSubmit | quizapp.py:99-111 | a one-question quiz scores 1 out of 1 when the selection equals the correct option's text, else 0 out of 1 |

## Left out

- Streamlit rendering: titles, headers, `st.write` and the `st.error` text. A run's outcome is a `Screen`; the error from `fetch_questions` is a `FetchError`.
- Widgets: each run takes the button clicked, the text area's value, the level box's choice and the radio values as inputs. Widget keys and widget state are not modelled.
- The Gemini call (`GenerativeModel`, `generate_content`, `response.text`): a function parameter from prompt to reply or failure. Its output is not modelled.
- `json.loads` and `json.dumps`: `json.loads` is the `decode` parameter. The `json.dumps` output of the sample is written out as a constant.
- Loading the `.env` file, the API-key check and `genai.configure` (lines 7-17). This is start-up I/O.
- `@st.cache_data` (line 31): the model call is a function, so caching it changes nothing here. Run to run, the real cache returns the same quiz for the same text and level.
- `st.rerun()` (lines 87, 119): it ends the run with `Screen.Rerun`. The next run is the next method call.
- Prompt.Lower: lower-cases ASCII letters only. That is all the three level labels need.
- PyValue.Values: gives the set of option texts, not their order in the radio group.
- PyValue.PyEq: compares floats as exact reals. NaN and float rounding are not modelled.
- Quiz.Session.Generate: refuses a `mcqs` value that is not a list and changes nothing. The source stores any value. `len()` then fails on a number, bool or `null`. A string or dict passes `len()` and fails later, when rendered. An empty one even starts an empty quiz.
- Quiz.Session.InputPass: ends with `Crashed(TypeError)` for a `mcqs` value that is not a list, for the same reason.
- Fetch.FencedQuizRoundTrip: requires the encoded quiz to hold no backtick. The clean-up would delete a "```" inside it, as `Fetch.CleanDeletesInnerFence` shows.
- Fetch.FencedFetchRoundTrip: has the same requirement, for the same reason.
- Quiz.Session.QuizPass: models the Restart button outside the Submit block (see Findings).
- Two behaviours follow the code as written. The code sets `quiz_started` even when fetching failed, so the quiz starts with no questions. Submit changes no session state; it only shows the result.

## Findings

| source | as written | input that shows it | evidently intended | confidence | as-written member | corrected member |
|---|---|---|---|---|---|---|
| quizapp.py:99-119 | the "Restart Quiz" button is asked only inside the block of a true "Submit" button | submit, then click "Restart Quiz": that click starts a run in which "Submit" is false, so the restart block is never reached and the state is not reset | a Restart click resets the quiz and returns to the input form | not executed; high, given that a Streamlit button is true only in the run its click started | Quiz.RestartUnreachableAsWritten | Quiz.Session.QuizPass |
