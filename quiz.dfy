/** `main`: the session state kept across script runs, the three buttons
    that change it, and the scoring of a submitted quiz. */
module Quiz {
  import opened PyValue
  import opened Text
  import opened Prompt
  import opened Fetch

  /** The button whose click started this script run, if any. */
  datatype Click = NoClick | GenerateClick | SubmitClick | RestartClick

  /** What one script run ends with. */
  datatype Screen =
    | InputForm                        // the text area and the level box
    | QuizForm                         // the questions with their radio groups
    | Results(marks: nat, total: nat)  // "You scored marks out of total"
    | Rerun                            // `st.rerun()` started a new run
    | Crashed(fault: Fault)            // an exception ended the run

  /** Python's `[None] * n`. */
  function Nones(n: nat): (r: seq<Json>)
    ensures |r| == n
    ensures forall i :: 0 <= i < n ==> r[i] == JNull
  {
    seq(n, _ => JNull)
  }

  /** What rendering a question reads: the values of `question["options"]`
      (line 93), then `question["mcq"]` as the radio label (line 95). A
      question renders exactly when it is a dict with an "mcq" entry and an
      "options" entry that is a dict; the radio group then offers the option
      texts. */
  function OptionTexts(q: Json): (r: Result<set<Json>>)
    ensures r.Ok? <==>
              q.JObject? && "mcq" in q.fields && "options" in q.fields &&
              q.fields["options"].JObject?
    ensures r.Ok? ==> r.value == q.fields["options"].fields.Values
  {
    var options :- Subscript(q, JString("options"));
    var texts :- Values(options);
    var heading :- Subscript(q, JString("mcq"));
    Ok(texts)
  }

  /** The index of the first question that cannot be rendered, or the
      number of questions when all can. */
  function FirstUnrenderable(qs: seq<Json>): (k: nat)
    ensures k <= |qs|
    ensures forall i :: 0 <= i < k ==> OptionTexts(qs[i]).Ok?
    ensures k < |qs| ==> OptionTexts(qs[k]).Err?
  {
    if qs == [] then 0
    else if OptionTexts(qs[0]).Err? then 0
    else 1 + FirstUnrenderable(qs[1..])
  }

  /** The first failure is where the questions before all render and the
      question there does not (or the end). */
  lemma {:induction false} FirstUnrenderableAt(qs: seq<Json>, k: nat)
    requires k <= |qs|
    requires forall i :: 0 <= i < k ==> OptionTexts(qs[i]).Ok?
    requires k < |qs| ==> OptionTexts(qs[k]).Err?
    ensures FirstUnrenderable(qs) == k
    decreases k
  {
    if k > 0 {
      assert OptionTexts(qs[0]).Ok?;
      assert forall i :: 0 <= i < k - 1 ==> qs[1..][i] == qs[i + 1];
      FirstUnrenderableAt(qs[1..], k - 1);
    }
  }

  /** The display text of a question's correct option, as the result loop
      reads it: `question["mcq"]` (line 103), then
      `question["options"][question["correct"]]` (line 105). */
  function CorrectAnswer(q: Json): (r: Result<Json>)
    ensures r.Ok? ==> q.JObject? && "mcq" in q.fields && "options" in q.fields && "correct" in q.fields
  {
    var heading :- Subscript(q, JString("mcq"));
    var options :- Subscript(q, JString("options"));
    var key :- Subscript(q, JString("correct"));
    Subscript(options, key)
  }

  /** For a question of the sample's shape the correct answer is the text its
      "correct" key names, and a question that is not a dict has none. */
  lemma CorrectAnswerOfQuestion(q: Json)
    ensures q.JObject? && "mcq" in q.fields && "options" in q.fields && "correct" in q.fields &&
            q.fields["options"].JObject? && q.fields["correct"].JString? &&
            q.fields["correct"].s in q.fields["options"].fields ==>
              CorrectAnswer(q) == Ok(q.fields["options"].fields[q.fields["correct"].s])
    ensures !q.JObject? ==> CorrectAnswer(q).Err?
    ensures q.JObject? && !("mcq" in q.fields && "options" in q.fields && "correct" in q.fields) ==>
              CorrectAnswer(q) == Err(KeyError)
  {
  }

  /** The sample question in the prompt has "Choice 1" as its answer. */
  lemma SampleQuestionAnswer()
    ensures SampleResponse.JObject? && "mcqs" in SampleResponse.fields
    ensures SampleResponse.fields["mcqs"].JArray? && |SampleResponse.fields["mcqs"].items| == 1
    ensures CorrectAnswer(SampleResponse.fields["mcqs"].items[0]) == Ok(JString("Choice 1"))
  {
    var q := SampleResponse.fields["mcqs"].items[0];
    CorrectAnswerOfQuestion(q);
  }

  /** A selection earns the mark of question `q`: it equals, under Python's
      `==`, the display text of the correct option (line 108). */
  predicate Scores(q: Json, selected: Json)
    ensures Scores(q, selected) ==> CorrectAnswer(q).Ok?
    ensures CorrectAnswer(q).Ok? && CorrectAnswer(q).value.JString? && selected.JString? ==>
              (Scores(q, selected) <==> selected == CorrectAnswer(q).value)
  {
    CorrectAnswer(q).Ok? && PyEq(selected, CorrectAnswer(q).value)
  }

  /** The marks of the result loop (lines 100-109), or the exception that
      stops it at the first question whose correct answer cannot be read. */
  function Marks(qs: seq<Json>, selected: seq<Json>): (r: Result<nat>)
    requires |selected| == |qs|
    ensures r.Ok? ==> r.value <= |qs|
    decreases |qs|
  {
    if qs == [] then Ok(0)
    else
      var n := |qs| - 1;
      var prior :- Marks(qs[..n], selected[..n]);
      var correct :- CorrectAnswer(qs[n]);
      Ok(if PyEq(selected[n], correct) then prior + 1 else prior)
  }

  /** One step of the loop: the marks of all but the last question, then
      the last question's. */
  lemma MarksStep(qs: seq<Json>, selected: seq<Json>)
    requires |selected| == |qs| && qs != []
    ensures var n := |qs| - 1; var prior := Marks(qs[..n], selected[..n]);
      Marks(qs, selected).Ok? <==> prior.Ok? && CorrectAnswer(qs[n]).Ok?
    ensures var n := |qs| - 1; var prior := Marks(qs[..n], selected[..n]);
      prior.Err? ==> Marks(qs, selected) == prior
    ensures var n := |qs| - 1; var prior := Marks(qs[..n], selected[..n]);
      Marks(qs, selected).Ok? ==>
        Marks(qs, selected).value == prior.value + (if Scores(qs[n], selected[n]) then 1 else 0)
  {
  }

  /** The questions whose selection earns the mark. */
  function ScoredIndices(qs: seq<Json>, selected: seq<Json>): set<int>
    requires |selected| == |qs|
  {
    set i | 0 <= i < |qs| && Scores(qs[i], selected[i])
  }

  /** The scored questions of a quiz are those of all but its last question,
      plus the last one if its selection earns the mark. */
  lemma ScoredIndicesStep(qs: seq<Json>, selected: seq<Json>)
    requires |selected| == |qs| && qs != []
    ensures var n := |qs| - 1;
      ScoredIndices(qs, selected) ==
        ScoredIndices(qs[..n], selected[..n]) + (if Scores(qs[n], selected[n]) then {n} else {})
  {
    var n := |qs| - 1;
    assert forall i :: 0 <= i < n ==> qs[..n][i] == qs[i] && selected[..n][i] == selected[i];
  }

  /** The loop ends without an exception exactly when every question's
      correct answer can be read; an empty quiz never raises. */
  lemma {:induction false} MarksDefined(qs: seq<Json>, selected: seq<Json>)
    requires |selected| == |qs|
    ensures Marks(qs, selected).Ok? <==> forall i :: 0 <= i < |qs| ==> CorrectAnswer(qs[i]).Ok?
    decreases |qs|
  {
    if qs != [] {
      var n := |qs| - 1;
      MarksStep(qs, selected);
      MarksDefined(qs[..n], selected[..n]);
      assert forall i :: 0 <= i < n ==> qs[..n][i] == qs[i];
    }
  }

  /** The score is the number of questions whose selection equals the text
      of the correct option. */
  lemma {:induction false} MarksCount(qs: seq<Json>, selected: seq<Json>)
    requires |selected| == |qs| && Marks(qs, selected).Ok?
    ensures Marks(qs, selected).value == |ScoredIndices(qs, selected)|
    decreases |qs|
  {
    if qs != [] {
      var n := |qs| - 1;
      var qs', sel' := qs[..n], selected[..n];
      MarksStep(qs, selected);
      MarksCount(qs', sel');
      ScoredIndicesStep(qs, selected);
      assert n !in ScoredIndices(qs', sel');
    }
  }

  /** An exception part-way through the loop is the result of the whole. */
  lemma {:induction false} MarksErrorPersists(qs: seq<Json>, selected: seq<Json>, j: nat)
    requires |selected| == |qs| && j <= |qs|
    requires Marks(qs[..j], selected[..j]).Err?
    ensures Marks(qs, selected) == Marks(qs[..j], selected[..j])
    decreases |qs| - j
  {
    if j < |qs| {
      var n := |qs| - 1;
      assert qs[..n][..j] == qs[..j] && selected[..n][..j] == selected[..j];
      MarksErrorPersists(qs[..n], selected[..n], j);
      MarksStep(qs, selected);
    } else {
      assert qs[..j] == qs && selected[..j] == selected;
    }
  }

  /** A question left unanswered (`None`) earns its mark only when the text
      of its correct option is itself JSON `null`. */
  lemma UnansweredScores(q: Json)
    ensures Scores(q, JNull) <==> CorrectAnswer(q) == Ok(JNull)
  {
  }

  /** Scoring compares texts, not option keys: when two options of a question
      have the same text, choosing the wrong key's text earns the mark. */
  lemma SameTextScores(q: Json, other: string)
    requires q.JObject? && "mcq" in q.fields && "options" in q.fields && "correct" in q.fields
    requires q.fields["options"].JObject? && q.fields["correct"].JString?
    requires q.fields["correct"].s in q.fields["options"].fields
    requires other in q.fields["options"].fields
    requires q.fields["options"].fields[other] == q.fields["options"].fields[q.fields["correct"].s]
    ensures Scores(q, q.fields["options"].fields[other])
  {
    CorrectAnswerOfQuestion(q);
    PyEqReflexive(q.fields["options"].fields[other]);
  }

  /** Streamlit's `st.button(label)` is true only in the script run that a
      click on that very button started. */
  predicate ButtonReturns(click: Click, button: Click) {
    click == button
  }

  /** The guard of the restart block as written: the Restart button is only
      asked inside the block of a true Submit button (lines 99 and 114). */
  predicate RestartGuardAsWritten(click: Click) {
    ButtonReturns(click, SubmitClick) && ButtonReturns(click, RestartClick)
  }

  /** As written, no click ever runs the restart block. */
  lemma RestartUnreachableAsWritten(click: Click)
    ensures !RestartGuardAsWritten(click)
  {
  }

  /** Overwriting slot `i` of a spliced sequence moves the splice point on. */
  lemma SpliceStep(c: seq<Json>, o: seq<Json>, i: nat)
    requires i < |c| == |o|
    ensures (c[..i] + o[i..])[i := c[i]] == c[..i + 1] + o[i + 1..]
  {
  }

  /** The session state (`st.session_state`) that survives between runs. */
  class Session {
    var questions: seq<Json>
    var selectedOptions: seq<Json>
    var quizStarted: bool
    var quizLevel: Option<Level>
    var textContent: string

    /** One selection slot per question. */
    ghost predicate Valid()
      reads this
    {
      |selectedOptions| == |questions|
    }

    /** The first run's initialisation (lines 20-29). */
    constructor ()
      ensures Valid()
      ensures questions == [] && selectedOptions == [] && !quizStarted
      ensures quizLevel == None && textContent == ""
    {
      questions := [];
      selectedOptions := [];
      quizStarted := false;
      quizLevel := None;
      textContent := "";
    }

    /** Lines 80-81: the text area and the level box store their values. */
    method CollectInput(text: string, level: Level)
      requires Valid()
      modifies this
      ensures Valid()
      ensures textContent == text && quizLevel == Some(level)
      ensures questions == old(questions) && selectedOptions == old(selectedOptions)
      ensures quizStarted == old(quizStarted)
    {
      textContent := text;
      quizLevel := Some(level);
    }

    /** Lines 84-86: store the fetched questions, one `None` selection per
      question, and start the quiz, even with no questions. A value that is
      not a list is refused and nothing changes. */
    method Generate(fetched: Json) returns (ok: bool)
      requires Valid()
      modifies this
      ensures Valid()
      ensures ok <==> fetched.JArray?
      ensures ok ==> questions == fetched.items && selectedOptions == Nones(|fetched.items|) && quizStarted
      ensures !ok ==> questions == old(questions) && selectedOptions == old(selectedOptions) &&
                      quizStarted == old(quizStarted)
      ensures textContent == old(textContent) && quizLevel == old(quizLevel)
    {
      ok := fetched.JArray?;
      if ok {
        questions := fetched.items;
        selectedOptions := Nones(|questions|);
        quizStarted := true;
      }
    }

    /** Line 94: store what the radio group of question `i` returned. */
    method Answer(i: nat, choice: Json)
      requires Valid() && i < |questions|
      modifies this`selectedOptions
      ensures Valid()
      ensures selectedOptions == old(selectedOptions)[i := choice]
    {
      selectedOptions := selectedOptions[i := choice];
    }

    /** Lines 92-96: render each question and store its radio group's value
      (`choices[i]`), until a question cannot be rendered. */
    method RecordAnswers(choices: seq<Json>) returns (fault: Option<Fault>)
      requires Valid() && |choices| == |questions|
      modifies this`selectedOptions
      ensures Valid()
      ensures var k := FirstUnrenderable(questions);
        selectedOptions == choices[..k] + old(selectedOptions)[k..] &&
        fault == (if k == |questions| then None else Some(OptionTexts(questions[k]).fault))
    {
      var i := 0;
      while i < |questions|
        invariant Valid()
        invariant 0 <= i <= |questions|
        invariant forall j :: 0 <= j < i ==> OptionTexts(questions[j]).Ok?
        invariant selectedOptions == choices[..i] + old(selectedOptions)[i..]
      {
        var texts := OptionTexts(questions[i]);
        if texts.Err? {
          FirstUnrenderableAt(questions, i);
          return Some(texts.fault);
        }
        Answer(i, choices[i]);
        SpliceStep(choices, old(selectedOptions), i);
        i := i + 1;
      }
      FirstUnrenderableAt(questions, i);
      assert choices[..i] == choices;
      fault := None;
    }

    /** Lines 100-111: count the questions whose selection equals the text of
      the correct option. Nothing in the session changes. */
    method Score() returns (r: Result<nat>)
      requires Valid()
      ensures r == Marks(questions, selectedOptions)
      ensures r.Ok? ==> r.value <= |questions|
    {
      var marks := 0;
      var i := 0;
      while i < |questions|
        invariant 0 <= i <= |questions|
        invariant marks <= i
        invariant Marks(questions[..i], selectedOptions[..i]) == Ok(marks)
      {
        var correct := CorrectAnswer(questions[i]);
        assert questions[..i + 1][..i] == questions[..i];
        assert selectedOptions[..i + 1][..i] == selectedOptions[..i];
        if correct.Err? {
          MarksErrorPersists(questions, selectedOptions, i + 1);
          return Err(correct.fault);
        }
        if PyEq(selectedOptions[i], correct.value) {
          marks := marks + 1;
        }
        i := i + 1;
      }
      assert questions[..i] == questions && selectedOptions[..i] == selectedOptions;
      r := Ok(marks);
    }

    /** Lines 115-118: back to the input form with no questions, no
      selections and an empty text; the level stays. */
    method Restart()
      requires Valid()
      modifies this
      ensures Valid()
      ensures !quizStarted && questions == [] && selectedOptions == [] && textContent == ""
      ensures quizLevel == old(quizLevel)
    {
      quizStarted := false;
      questions := [];
      selectedOptions := [];
      textContent := "";
    }

    /** A script run before the quiz has started (lines 78-87): store the
      input; on a Generate click fetch the questions for the lower-cased
      level, start the quiz and rerun. */
    method InputPass(text: string, level: Level, click: Click,
                     model: string -> Reply, decode: string -> Option<Json>)
      returns (screen: Screen)
      requires Valid() && !quizStarted
      modifies this
      ensures Valid()
      ensures textContent == text && quizLevel == Some(level)
      ensures click != GenerateClick ==>
                questions == old(questions) && selectedOptions == old(selectedOptions) &&
                !quizStarted && screen == InputForm
      ensures click == GenerateClick ==>
                var fetched := FetchQuestions(text, Name(level), model, decode).mcqs;
                if fetched.JArray? then
                  questions == fetched.items && selectedOptions == Nones(|fetched.items|) &&
                  quizStarted && screen == Rerun
                else
                  questions == old(questions) && selectedOptions == old(selectedOptions) &&
                  !quizStarted && screen == Crashed(TypeError)
    {
      CollectInput(text, level);
      if click != GenerateClick {
        return InputForm;
      }
      LowerLabel(level);
      var fetched := FetchQuestions(textContent, Lower(Label(level)), model, decode);
      var ok := Generate(fetched.mcqs);
      screen := if ok then Rerun else Crashed(TypeError);
    }

    /** A script run once the quiz has started (lines 89-119): render the
      questions and store the selections; on a Submit click show the score;
      on a Restart click reset the quiz and rerun. */
    method QuizPass(choices: seq<Json>, click: Click) returns (screen: Screen)
      requires Valid() && quizStarted && |choices| == |questions|
      modifies this
      ensures Valid()
      ensures quizLevel == old(quizLevel)
      ensures var qs := old(questions); var k := FirstUnrenderable(qs);
        if k < |qs| then
          screen == Crashed(OptionTexts(qs[k]).fault) &&
          questions == qs && selectedOptions == choices[..k] + old(selectedOptions)[k..] &&
          quizStarted && textContent == old(textContent)
        else if ButtonReturns(click, RestartClick) then
          screen == Rerun && !quizStarted && questions == [] && selectedOptions == [] &&
          textContent == ""
        else
          questions == qs && selectedOptions == choices && quizStarted &&
          textContent == old(textContent) &&
          screen == if !ButtonReturns(click, SubmitClick) then QuizForm
                    else match Marks(qs, choices)
                         case Ok(m) => Results(m, |qs|)
                         case Err(f) => Crashed(f)
    {
      var fault := RecordAnswers(choices);
      if fault.Some? {
        return Crashed(fault.value);
      }
      assert choices[..|choices|] == choices;
      screen := QuizForm;
      if ButtonReturns(click, SubmitClick) {
        var marks := Score();
        if marks.Err? {
          return Crashed(marks.fault);
        }
        screen := Results(marks.value, |questions|);
      }
      if ButtonReturns(click, RestartClick) {
        Restart();
        screen := Rerun;
      }
    }
  }

  /** The question of the photosynthesis quiz. */
  function PhotosynthesisQuestion(): Json {
    JObject(map[
      "mcq" := JString("What does photosynthesis convert?"),
      "options" := JObject(map[
        "a" := JString("Light to energy"),
        "b" := JString("Water to oxygen"),
        "c" := JString("Sound to heat"),
        "d" := JString("Energy to mass")]),
      "correct" := JString("a")])
  }

  /** A Generate click with a model whose reply decodes to a quiz of
      `questions` starts that quiz with one `None` selection per question,
      whatever the text and the reply. */
  method GenerateScenario(text: string, raw: string, questions: seq<Json>) returns (session: Session)
    ensures session.Valid() && session.quizStarted
    ensures session.questions == questions && session.selectedOptions == Nones(|questions|)
  {
    var quiz := JArray(questions);
    var model: string -> Reply := _ => Reply(raw);
    var decode: string -> Option<Json> := _ => Some(JObject(map["mcqs" := quiz]));
    FetchWithReply(text, Name(Easy), model, decode, raw);
    session := new Session();
    var screen := session.InputPass(text, Easy, GenerateClick, model, decode);
  }

  /** The photosynthesis question renders and its correct answer is the
      text of option "a". */
  lemma PhotosynthesisFacts()
    ensures FirstUnrenderable([PhotosynthesisQuestion()]) == 1
    ensures CorrectAnswer(PhotosynthesisQuestion()) == Ok(JString("Light to energy"))
  {
    assert OptionTexts(PhotosynthesisQuestion()).Ok?;
  }

  /** Submitting the photosynthesis quiz with selection `choice`. */
  method PhotosynthesisSubmit(session: Session, choice: Json) returns (screen: Screen)
    requires session.Valid() && session.quizStarted
    requires session.questions == [PhotosynthesisQuestion()]
    modifies session
    ensures session.Valid() && session.quizStarted && session.questions == old(session.questions)
    ensures screen == Results(if PyEq(choice, JString("Light to energy")) then 1 else 0, 1)
  {
    PhotosynthesisFacts();
    assert Marks([PhotosynthesisQuestion()], [choice]) ==
           Ok(if PyEq(choice, JString("Light to energy")) then 1 else 0);
    screen := session.QuizPass([choice], SubmitClick);
  }

  /** Answered right it scores 1 out of 1, answered wrong or left unanswered
      0 out of 1; a restart then clears the quiz. */
  method PhotosynthesisScore(session: Session)
    requires session.Valid() && session.quizStarted
    requires session.questions == [PhotosynthesisQuestion()]
    modifies session
  {
    var screen := PhotosynthesisSubmit(session, JString("Water to oxygen"));
    assert screen == Results(0, 1);
    screen := PhotosynthesisSubmit(session, JString("Light to energy"));
    assert screen == Results(1, 1);
    screen := PhotosynthesisSubmit(session, JNull);
    assert screen == Results(0, 1);
    PhotosynthesisFacts();
    screen := session.QuizPass([JNull], RestartClick);
    assert screen == Rerun && !session.quizStarted && session.questions == [];
    assert session.textContent == "";
  }
}
