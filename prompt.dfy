/** The instruction sent to the model (`PROMPT_TEMPLATE` in `fetch_questions`)
    and the quiz level it names. */
module Prompt {
  import opened PyValue
  import opened Text

  /** The choices of the level select box. */
  datatype Level = Easy | Medium | Hard

  /** The text the select box shows and stores in `quiz_level`. */
  function Label(l: Level): string {
    match l
    case Easy => "Easy"
    case Medium => "Medium"
    case Hard => "Hard"
  }

  /** The level as the prompt names it. */
  function Name(l: Level): string {
    match l
    case Easy => "easy"
    case Medium => "medium"
    case Hard => "hard"
  }

  function LowerChar(c: char): char {
    if 'A' <= c <= 'Z' then (c as int + 32) as char else c
  }

  /** Python's `s.lower()` on ASCII text: each capital letter becomes its
      small letter and every other character stays. */
  function Lower(s: string): (r: string)
    ensures |r| == |s|
    ensures forall i :: 0 <= i < |s| ==> r[i] == LowerChar(s[i])
  {
    if s == [] then [] else [LowerChar(s[0])] + Lower(s[1..])
  }

  /** `quiz_level.lower()` is the prompt's name of the chosen level. */
  lemma LowerLabel(l: Level)
    ensures Lower(Label(l)) == Name(l)
  {
    var lab := Label(l);
    assert Lower(lab)[0] == LowerChar(lab[0]);
  }

  /** The sample quiz shown to the model (`RESPONSE_JSON`). */
  const SampleResponse: Json :=
    JObject(map[
      "mcqs" := JArray([
        JObject(map[
          "mcq" := JString("Sample multiple choice question1"),
          "options" := JObject(map[
            "a" := JString("Choice 1"),
            "b" := JString("Choice 2"),
            "c" := JString("Choice 3"),
            "d" := JString("Choice 4")]),
          "correct" := JString("a")])])])

  /** `json.dumps(RESPONSE_JSON, indent=2)`, written out. */
  const Schema: string :=
    "{\n  \"mcqs\": [\n    {\n      \"mcq\": \"Sample multiple choice question1\",\n"
    + "      \"options\": {\n        \"a\": \"Choice 1\",\n        \"b\": \"Choice 2\",\n"
    + "        \"c\": \"Choice 3\",\n        \"d\": \"Choice 4\"\n      },\n"
    + "      \"correct\": \"a\"\n    }\n  ]\n}"

  /** The template text before the source text. */
  const Head: string := "\n    Text: "

  /** The template text between the source text and the level. */
  const Middle: string :=
    "\n    You are an expert in generating MCQ quizzes based on the provided content.\n"
    + "    Given the above text, create a quiz of at least 10 multiple choice questions"
    + " with a difficulty level of "

  /** The template text after the level, holding the schema. */
  const Tail: string :=
    ".\n    Make sure the questions are unique, non-repetitive, and relevant.\n\n"
    + "    Format the response strictly as JSON in this structure:\n    "
    + Schema + "\n    "

  /** The prompt for a source text and a level name; nothing is escaped. */
  function BuildPrompt(text: string, level: string): (p: string)
    ensures |p| == |Head| + |text| + |Middle| + |level| + |Tail|
  {
    Head + text + Middle + level + Tail
  }

  /** The prompt holds the source text and the level name verbatim, at fixed
      places between the template's parts. */
  lemma PromptHoldsInputs(text: string, level: string)
    ensures OccursAt(BuildPrompt(text, level), text, |Head|)
    ensures OccursAt(BuildPrompt(text, level), level, |Head| + |text| + |Middle|)
    ensures |BuildPrompt(text, level)| == |Head| + |text| + |Middle| + |level| + |Tail|
  {
    var p := BuildPrompt(text, level);
    assert p[|Head|..|Head| + |text|] == text;
    var at := |Head| + |text| + |Middle|;
    assert p[at..at + |level|] == level;
  }

  /** The part of the prompt that ends with the level `l`. */
  function LevelSuffix(l: Level): string {
    Middle + Name(l)
  }

  /** `core` with the text naming `l` cut off its end, if it ends so. */
  function CutLevel(core: string, l: Level): Option<string> {
    var w := LevelSuffix(l);
    if |w| <= |core| && core[|core| - |w|..] == w then Some(core[..|core| - |w|])
    else None
  }

  /** The source text and the level a prompt was built from, if any. */
  function ParsePrompt(p: string): Option<(string, Level)> {
    if |p| < |Head| + |Tail| || p[..|Head|] != Head || p[|p| - |Tail|..] != Tail then None
    else
      var core := p[|Head|..|p| - |Tail|];
      match CutLevel(core, Easy)
      case Some(t) => Some((t, Easy))
      case None =>
        match CutLevel(core, Medium)
        case Some(t) => Some((t, Medium))
        case None =>
          match CutLevel(core, Hard)
          case Some(t) => Some((t, Hard))
          case None => None
  }

  /** The three parts of a concatenation can be cut back out of it. */
  lemma SplitThree(a: string, b: string, c: string)
    ensures |a| + |c| <= |a + b + c|
    ensures (a + b + c)[..|a|] == a
    ensures (a + b + c)[|a + b + c| - |c|..] == c
    ensures (a + b + c)[|a|..|a + b + c| - |c|] == b
  {
  }

  /** Concatenation regrouped, without looking inside the parts. */
  lemma Regroup(a: string, b: string, c: string, d: string, e: string)
    ensures a + b + c + d + e == a + (b + (c + d)) + e
  {
  }

  /** The level `l` is cut off the text that ends with it. */
  lemma CutLevelSame(t: string, l: Level)
    ensures CutLevel(t + LevelSuffix(l), l) == Some(t)
  {
    var core := t + LevelSuffix(l);
    var w := LevelSuffix(l);
    assert core[|core| - |w|..] == w;
    assert core[..|core| - |w|] == t;
  }

  /** Another level is not: the names of the levels end in different letters. */
  lemma CutLevelOther(t: string, l: Level, l': Level)
    requires l != l'
    ensures CutLevel(t + LevelSuffix(l), l') == None
  {
    var core := t + LevelSuffix(l);
    var w := LevelSuffix(l');
    var n, n' := Name(l), Name(l');
    assert core[|core| - 1] == n[|n| - 1];
    assert w[|w| - 1] == n'[|n'| - 1];
    assert n[|n| - 1] != n'[|n'| - 1];
    if |w| <= |core| {
      assert core[|core| - |w|..][|w| - 1] == core[|core| - 1];
    }
  }

  /** A level only matches the prompt text that names it. */
  lemma CutLevelOf(t: string, l: Level, l': Level)
    ensures CutLevel(t + LevelSuffix(l), l') == if l == l' then Some(t) else None
  {
    if l == l' {
      CutLevelSame(t, l);
    } else {
      CutLevelOther(t, l, l');
    }
  }

  /** The prompt gives back the source text and the level it was built from. */
  lemma ParseBuiltPrompt(text: string, l: Level)
    ensures ParsePrompt(BuildPrompt(text, Name(l))) == Some((text, l))
  {
    var p := BuildPrompt(text, Name(l));
    var core := text + LevelSuffix(l);
    Regroup(Head, text, Middle, Name(l), Tail);
    SplitThree(Head, core, Tail);
    CutLevelOf(text, l, Easy);
    CutLevelOf(text, l, Medium);
    CutLevelOf(text, l, Hard);
  }

  /** What a successful CutLevel returns, followed by the level text, is its input. */
  lemma CutLevelSome(core: string, l: Level)
    requires CutLevel(core, l).Some?
    ensures core == CutLevel(core, l).value + LevelSuffix(l)
  {
    CutSuffix(core, LevelSuffix(l));
  }

  /** A prompt ParsePrompt accepts is the head, a core, and the tail, and the
      core ends with the level it returns. */
  lemma ParsePromptSome(p: string)
    requires ParsePrompt(p).Some?
    ensures |Head| + |Tail| <= |p|
    ensures p == Head + p[|Head|..|p| - |Tail|] + Tail
    ensures CutLevel(p[|Head|..|p| - |Tail|], ParsePrompt(p).value.1) == Some(ParsePrompt(p).value.0)
  {
    CutThree(p, |Head|, |p| - |Tail|);
  }

  /** Whatever ParsePrompt accepts is the prompt of what it returns. */
  lemma ParsedPromptBuilt(p: string)
    requires ParsePrompt(p).Some?
    ensures p == BuildPrompt(ParsePrompt(p).value.0, Name(ParsePrompt(p).value.1))
  {
    var (t, l) := ParsePrompt(p).value;
    var core := p[|Head|..|p| - |Tail|];
    ParsePromptSome(p);
    CutLevelSome(core, l);
    Regroup(Head, t, Middle, Name(l), Tail);
  }

  /** A string that ends with `w` is what precedes `w`, then `w`. */
  lemma CutSuffix(s: string, w: string)
    requires |w| <= |s| && s[|s| - |w|..] == w
    ensures s == s[..|s| - |w|] + w
  {
  }

  /** A string is the concatenation of its three pieces. */
  lemma CutThree(s: string, i: nat, j: nat)
    requires i <= j <= |s|
    ensures s == s[..i] + s[i..j] + s[j..]
  {
  }

  /** Different inputs give different prompts. */
  lemma BuildPromptInjective(t1: string, l1: Level, t2: string, l2: Level)
    requires BuildPrompt(t1, Name(l1)) == BuildPrompt(t2, Name(l2))
    ensures t1 == t2 && l1 == l2
  {
    ParseBuiltPrompt(t1, l1);
    ParseBuiltPrompt(t2, l2);
  }
}
