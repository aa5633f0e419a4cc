/** `fetch_questions`: ask the model for a quiz, clean up its reply and
    decode the `mcqs` list out of it; every failure gives the empty list. */
module Fetch {
  import opened PyValue
  import opened Text
  import opened Prompt

  /** The opening code-fence marker with its language tag. */
  const FenceJson: string := "```json"

  /** Line 64 of the clean-up: delete every "```json", then every "```",
      and strip. What is left has no fence marker and no whitespace at either
      end. */
  function Unfence(s: string): (r: string)
    ensures IsStripped(r)
    ensures !Contains(r, Backticks)
  {
    var once := RemoveAll(s, FenceJson);
    var bare := RemoveAll(once, Backticks);
    NoBackticksAfterRemoval(once);
    StripKeepsAbsence(bare, Backticks);
    Strip(bare)
  }

  /** The reply clean-up: strip the raw text, then unfence it. */
  function Clean(raw: string): (r: string)
    ensures IsStripped(r)
    ensures !Contains(r, Backticks)
  {
    Unfence(Strip(raw))
  }

  /** Where "```json" occurs, so does "```". */
  lemma FenceJsonHasFence(s: string)
    requires Contains(s, FenceJson)
    ensures Contains(s, Backticks)
  {
    var i :| 0 <= i <= |s| - |FenceJson| && OccursAt(s, FenceJson, i);
    assert s[i..i + 3] == s[i..i + 7][..3];
    assert OccursAt(s, Backticks, i);
  }

  /** Clean leaves a string alone exactly when it is stripped and fence-free. */
  lemma CleanFixpoints(s: string)
    ensures Clean(s) == s <==> IsStripped(s) && !Contains(s, Backticks)
  {
    if IsStripped(s) && !Contains(s, Backticks) {
      StripUnique([], s, []);
      assert [] + s + [] == s;
      UnfenceFixpoint(s);
    }
  }

  /** A fence-free stripped string is left alone by Unfence. */
  lemma UnfenceFixpoint(s: string)
    requires IsStripped(s) && !Contains(s, Backticks)
    ensures Unfence(s) == s
  {
    if Contains(s, FenceJson) {
      FenceJsonHasFence(s);
    }
    RemoveAllFixpoint(s, FenceJson);
    RemoveAllFixpoint(s, Backticks);
    StripUnique([], s, []);
    assert [] + s + [] == s;
  }

  /** Cleaning a cleaned reply changes nothing. */
  lemma CleanIdempotent(raw: string)
    ensures Clean(Clean(raw)) == Clean(raw)
  {
    CleanFixpoints(Clean(raw));
  }

  /** No backtick anywhere in `s`. */
  predicate NoBacktick(s: string) {
    forall k :: 0 <= k < |s| ==> s[k] != '`'
  }

  lemma NoBacktickJoin(a: string, b: string, c: string)
    requires NoBacktick(a) && NoBacktick(b) && NoBacktick(c)
    ensures NoBacktick(a + b + c)
  {
    var s := a + b + c;
    forall k | 0 <= k < |s| ensures s[k] != '`' {
      if k < |a| {
        assert s[k] == a[k];
      } else if k < |a| + |b| {
        assert s[k] == b[k - |a|];
      } else {
        assert s[k] == c[k - |a| - |b|];
      }
    }
  }

  lemma SpaceHasNoBacktick(w: string)
    requires AllSpace(w)
    ensures NoBacktick(w)
  {
  }

  /** Deleting "```json" from a fenced text leaves its inside and the closing marker. */
  lemma RemoveOpeningFence(inner: string)
    requires NoBacktick(inner)
    ensures RemoveAll(FenceJson + inner + Backticks, FenceJson) == inner + Backticks
  {
    var fenced := FenceJson + inner + Backticks;
    assert fenced == FenceJson + (inner + Backticks);
    assert fenced[..|FenceJson|] == FenceJson;
    assert fenced[|FenceJson|..] == inner + Backticks;
    RemoveAllSkipsPrefix(inner, Backticks, FenceJson);
  }

  /** Deleting "```" then removes the closing marker. */
  lemma RemoveClosingFence(inner: string)
    requires NoBacktick(inner)
    ensures RemoveAll(inner + Backticks, Backticks) == inner
  {
    RemoveAllSkipsPrefix(inner, Backticks, Backticks);
    assert RemoveAll(Backticks, Backticks) == [];
    assert inner + [] == inner;
  }

  /** Concatenation regrouped, without looking inside the parts. */
  lemma RegroupFenced(w0: string, f: string, w1: string, b: string, w2: string, g: string, w3: string)
    ensures w0 + f + w1 + b + w2 + g + w3 == w0 + (f + (w1 + b + w2) + g) + w3
  {
  }

  /** A reply wrapped in a ```json fence, with any whitespace around and
      inside the markers, cleans to its body, provided the body is stripped
      and holds no backtick. */
  lemma CleanFencedReply(w0: string, w1: string, body: string, w2: string, w3: string)
    requires AllSpace(w0) && AllSpace(w1) && AllSpace(w2) && AllSpace(w3)
    requires IsStripped(body) && NoBacktick(body)
    ensures Clean(w0 + FenceJson + w1 + body + w2 + Backticks + w3) == body
  {
    var inner := w1 + body + w2;
    var fenced := FenceJson + inner + Backticks;
    RegroupFenced(w0, FenceJson, w1, body, w2, Backticks, w3);
    assert fenced[0] == '`' && fenced[|fenced| - 1] == '`';
    StripUnique(w0, fenced, w3);
    SpaceHasNoBacktick(w1);
    SpaceHasNoBacktick(w2);
    NoBacktickJoin(w1, body, w2);
    RemoveOpeningFence(inner);
    RemoveClosingFence(inner);
    StripUnique(w1, body, w2);
  }

  /** A reply without a fence, with whitespace around it, cleans to its body. */
  lemma CleanBareReply(w0: string, body: string, w3: string)
    requires AllSpace(w0) && AllSpace(w3)
    requires IsStripped(body) && !Contains(body, Backticks)
    ensures Clean(w0 + body + w3) == body
  {
    StripUnique(w0, body, w3);
    UnfenceFixpoint(body);
  }

  /** What the model call gives back: the reply text, or an exception
      (from `generate_content` or from reading `response.text`). */
  datatype Reply = Reply(text: string) | CallFailed

  /** Which message `fetch_questions` shows: the invalid-JSON one, or the
      general one for any other exception. */
  datatype FetchError = InvalidJson | FetchFailed

  datatype Fetched = Fetched(mcqs: Json, error: Option<FetchError>)

  /** The empty `list` returned on every failure. */
  const NoQuestions: Json := JArray([])

  /** Decoding the cleaned reply and taking its `mcqs` field. `decode` is
      `json.loads`: a decoded value, or None for a `JSONDecodeError`. A value
      that is not a dict has no `.get`, which raises `AttributeError`. */
  function ParseReply(raw: string, decode: string -> Option<Json>): (r: Fetched)
    ensures r.error.Some? ==> r.mcqs == NoQuestions
    ensures r.error == Some(InvalidJson) <==> decode(Clean(raw)).None?
    ensures r.mcqs == NoQuestions ||
            exists m :: decode(Clean(raw)) == Some(JObject(m)) && "mcqs" in m && m["mcqs"] == r.mcqs
    ensures forall m :: decode(Clean(raw)) == Some(JObject(m)) ==>
              r == Fetched(if "mcqs" in m then m["mcqs"] else NoQuestions, None)
    ensures decode(Clean(raw)).Some? && !decode(Clean(raw)).value.JObject? ==>
              r == Fetched(NoQuestions, Some(FetchFailed))
  {
    var d := decode(Clean(raw));
    match d
    case None => Fetched(NoQuestions, Some(InvalidJson))
    case Some(JObject(m)) => Fetched(if "mcqs" in m then m["mcqs"] else NoQuestions, None)
    case Some(_) => Fetched(NoQuestions, Some(FetchFailed))
  }

  /** The whole of `fetch_questions`: the model is any function from the
      prompt to a reply. */
  function FetchQuestions(textContent: string, quizLevel: string,
                          model: string -> Reply, decode: string -> Option<Json>): (r: Fetched)
    ensures r.error.Some? ==> r.mcqs == NoQuestions
    ensures model(BuildPrompt(textContent, quizLevel)).CallFailed? ==>
              r == Fetched(NoQuestions, Some(FetchFailed))
  {
    match model(BuildPrompt(textContent, quizLevel))
    case CallFailed => Fetched(NoQuestions, Some(FetchFailed))
    case Reply(raw) => ParseReply(raw, decode)
  }

  /** A model call that answers gives the parse of its reply. */
  lemma FetchWithReply(textContent: string, quizLevel: string,
                       model: string -> Reply, decode: string -> Option<Json>, raw: string)
    requires model(BuildPrompt(textContent, quizLevel)) == Reply(raw)
    ensures FetchQuestions(textContent, quizLevel, model, decode) == ParseReply(raw, decode)
  {
  }

  /** End to end: a model that answers with an encoded quiz in a ```json
      fence makes `fetch_questions` return the quiz's `mcqs` value (or the
      empty list when it has none), with no error. */
  lemma FencedFetchRoundTrip(textContent: string, quizLevel: string, model: string -> Reply,
                             quiz: map<string, Json>, encode: Json -> string,
                             decode: string -> Option<Json>,
                             w0: string, w1: string, w2: string, w3: string)
    requires model(BuildPrompt(textContent, quizLevel)) ==
             Reply(w0 + FenceJson + w1 + encode(JObject(quiz)) + w2 + Backticks + w3)
    requires decode(encode(JObject(quiz))) == Some(JObject(quiz))
    requires IsStripped(encode(JObject(quiz)))
    requires NoBacktick(encode(JObject(quiz)))
    requires AllSpace(w0) && AllSpace(w1) && AllSpace(w2) && AllSpace(w3)
    ensures FetchQuestions(textContent, quizLevel, model, decode) ==
              Fetched(if "mcqs" in quiz then quiz["mcqs"] else NoQuestions, None)
  {
    var reply := w0 + FenceJson + w1 + encode(JObject(quiz)) + w2 + Backticks + w3;
    FetchWithReply(textContent, quizLevel, model, decode, reply);
    FencedQuizRoundTrip(quiz, encode, decode, w0, w1, w2, w3);
  }

  /** Encoding a quiz, sending it in a ```json fence and parsing the reply
      gives back its `mcqs` value (or the empty list when it has none), with
      no error, when the encoded text is stripped and has no backtick. */
  lemma FencedQuizRoundTrip(quiz: map<string, Json>, encode: Json -> string,
                            decode: string -> Option<Json>,
                            w0: string, w1: string, w2: string, w3: string)
    requires decode(encode(JObject(quiz))) == Some(JObject(quiz))
    requires IsStripped(encode(JObject(quiz)))
    requires NoBacktick(encode(JObject(quiz)))
    requires AllSpace(w0) && AllSpace(w1) && AllSpace(w2) && AllSpace(w3)
    ensures var reply := w0 + FenceJson + w1 + encode(JObject(quiz)) + w2 + Backticks + w3;
            ParseReply(reply, decode) ==
              Fetched(if "mcqs" in quiz then quiz["mcqs"] else NoQuestions, None)
  {
    CleanFencedReply(w0, w1, encode(JObject(quiz)), w2, w3);
  }

  /** The same for a reply that comes without a fence. */
  lemma BareQuizRoundTrip(quiz: map<string, Json>, encode: Json -> string,
                          decode: string -> Option<Json>, w0: string, w3: string)
    requires decode(encode(JObject(quiz))) == Some(JObject(quiz))
    requires IsStripped(encode(JObject(quiz))) && !Contains(encode(JObject(quiz)), Backticks)
    requires AllSpace(w0) && AllSpace(w3)
    ensures ParseReply(w0 + encode(JObject(quiz)) + w3, decode) ==
              Fetched(if "mcqs" in quiz then quiz["mcqs"] else NoQuestions, None)
  {
    CleanBareReply(w0, encode(JObject(quiz)), w3);
  }

  /** No "```json" in a marker followed by text that has no backtick and
      does not start with 'j'. */
  lemma NoFenceJsonAfterMarker(post: string)
    requires NoBacktick(post) && (post != [] ==> post[0] != 'j')
    ensures !Contains(Backticks + post, FenceJson)
  {
    var tail := Backticks + post;
    forall i | 0 <= i <= |tail| - |FenceJson| ensures !OccursAt(tail, FenceJson, i) {
      var w := tail[i..i + 7];
      var k := if i >= 3 then 0 else 3 - i;
      assert w[k] == tail[i + k];
      assert tail[i + k] == post[i + k - 3];
      assert FenceJson[k] == '`' || FenceJson[k] == 'j';
      assert w[k] != FenceJson[k];
    }
  }

  /** Unfence deletes a bare marker between two backtick-free parts. */
  lemma UnfenceInnerMarker(pre: string, post: string)
    requires NoBacktick(pre) && NoBacktick(post) && (post != [] ==> post[0] != 'j')
    ensures RemoveAll(RemoveAll(pre + Backticks + post, FenceJson), Backticks) == pre + post
  {
    var tail := Backticks + post;
    assert pre + Backticks + post == pre + tail;
    NoFenceJsonAfterMarker(post);
    RemoveAllFixpoint(tail, FenceJson);
    RemoveAllSkipsPrefix(pre, tail, FenceJson);
    RemoveAllSkipsPrefix(pre, tail, Backticks);
    assert tail[..3] == Backticks && tail[3..] == post;
    RemoveAllSkipsPrefix(post, [], Backticks);
    assert post + [] == post;
  }

  /** The clean-up also deletes a fence marker inside the JSON text, say in
      a question's string: the decoder gets the text without it. */
  lemma CleanDeletesInnerFence(pre: string, post: string)
    requires NoBacktick(pre) && NoBacktick(post)
    requires pre != [] && !IsSpace(pre[0])
    requires post != [] && !IsSpace(post[|post| - 1]) && post[0] != 'j'
    ensures Clean(pre + Backticks + post) == pre + post
  {
    var s := pre + Backticks + post;
    assert s[0] == pre[0] && s[|s| - 1] == post[|post| - 1];
    StripUnique([], s, []);
    assert [] + s + [] == s;
    UnfenceInnerMarker(pre, post);
    var r := pre + post;
    assert r[0] == pre[0] && r[|r| - 1] == post[|post| - 1];
    StripUnique([], r, []);
    assert [] + r + [] == r;
  }
}
