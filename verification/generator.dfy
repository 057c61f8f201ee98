/**
 The content generator: `summarize_text` and `generate_quiz`. Each looks the
 topic up in its collection first and returns the cached artifact on a hit;
 on a miss it asks the completion service once, caches a successful result
 and returns it, and turns a failed call into an error value that is never
 cached: the fixed error quiz, or the summary error prefix followed by the
 failure reason.

 The completion service is a tape of outcomes: each call consumes the next
 one, and an exhausted tape reads as a failed call. A call that consumes an
 outcome consulted the service. On a non-empty tape, a call that leaves the
 tape untouched did not consult it; on an empty tape the two cases look the
 same, because the failed call consumes nothing.
 */
module Generator {
  import opened Optional
  import opened Text
  import opened Cache

  /** What one call to the completion service produced: the message content,
      or a failure with the exception's text. */
  datatype Completion = Ok(text: string) | Fail(reason: string)

  type Tape = seq<Completion>

  /** A generated question with its answer letter, as stored in `quizzes`. */
  datatype QuizBody = QuizBody(quiz: string, answer: string)

  /** The value a generator returns, the collection afterwards and the
      unconsumed part of the tape. */
  datatype Generated<V> = Generated(value: V, store: Collection<V>, tape: Tape)

  const SummaryErrorPrefix: string := "❌ Error during summarization: "
  const QuizError: QuizBody := QuizBody("❌ Error generating quiz.", "A")
  /** The default answer when the completion carries no answer marker. */
  const DefaultAnswer: string := "A"
  const Marker: string := "Answer:"

  /** The next completion on the tape. */
  function Head(tape: Tape): Completion {
    if |tape| == 0 then Fail("") else tape[0]
  }

  /** The tape after one call. */
  function Rest(tape: Tape): (r: Tape)
    ensures |tape| > 0 ==> |r| < |tape|
  {
    if |tape| == 0 then [] else tape[1..]
  }

  /** `summarize_text(topic)`. */
  function GenerateSummary(store: Collection<string>, topic: string, tape: Tape)
    : (r: Generated<string>)
    ensures HasTopic(store, topic) ==>
      r == Generated(FindOne(store, topic).value, store, tape)
    ensures !HasTopic(store, topic) && Head(tape).Ok? ==>
      && r.value == Strip(Head(tape).text)
      && r.store == store + [Doc(topic, r.value)]
      && r.tape == Rest(tape)
    ensures Head(tape).Fail? && !HasTopic(store, topic) ==>
      && r.value == SummaryErrorPrefix + Head(tape).reason
      && r.store == store
      && r.tape == Rest(tape)
    ensures FindOne(r.store, topic).Some? <==> !(Head(tape).Fail? && !HasTopic(store, topic))
    ensures store <= r.store
  {
    match FindOne(store, topic)
    case Some(summary) => Generated(summary, store, tape)
    case None =>
      match Head(tape)
      case Ok(text) =>
        var summary := Strip(text);
        FindAfterInsert(store, topic, summary, topic);
        Generated(summary, InsertOne(store, topic, summary), Rest(tape))
      case Fail(reason) =>
        Generated(SummaryErrorPrefix + reason, store, Rest(tape))
  }

  lemma DefaultAnswerNormal()
    ensures Normalize(DefaultAnswer) == DefaultAnswer
  {
    StripUnique([], DefaultAnswer, []);
    assert [] + DefaultAnswer + [] == DefaultAnswer;
  }

  /** The answer part of a split completion: the second piece, stripped and
      upper-cased, or "A" when there is none. Always in normal form. */
  function AnswerOf(parts: seq<string>): (a: string)
    ensures Normalize(a) == a
  {
    if |parts| > 1 then
      NormalizeIdempotent(parts[1]);
      Normalize(parts[1])
    else
      DefaultAnswerNormal();
      DefaultAnswer
  }

  /** The parsing step of `generate_quiz`: strip the completion, split it on
      the answer marker, and read the question and the answer off the pieces. */
  function ParseQuiz(completion: string): (p: QuizBody)
    ensures Trimmed(p.quiz)
    ensures Normalize(p.answer) == p.answer
  {
    var parts := Split(Strip(completion), Marker);
    QuizBody(Strip(parts[0]), AnswerOf(parts))
  }

  /** Without a marker the question is the whole stripped completion and
      the answer is "A". */
  lemma {:induction false} ParseNoMarker(completion: string)
    requires !Contains(Strip(completion), Marker)
    ensures ParseQuiz(completion) == QuizBody(Strip(completion), DefaultAnswer)
  {
    SplitHead(Strip(completion), Marker);
    StripIdempotent(completion);
  }

  /** With a first marker at `i` the question is the stripped text before it,
      and with no second marker the answer is the normalized remainder. */
  lemma {:induction false} ParseOneMarker(completion: string, i: nat)
    requires FirstAt(Strip(completion), Marker, i)
    requires !Contains(Strip(completion)[i + |Marker|..], Marker)
    ensures ParseQuiz(completion) ==
      QuizBody(Strip(Strip(completion)[..i]), Normalize(Strip(completion)[i + |Marker|..]))
  {
    var full := Strip(completion);
    SplitHead(full, Marker);
    SplitHead(full[i + |Marker|..], Marker);
  }

  /** With markers at `i` and then at `j` after it, the answer is the
      normalized text between them; whatever follows the second marker is
      ignored. */
  lemma {:induction false} ParseTwoMarkers(completion: string, i: nat, j: nat)
    requires FirstAt(Strip(completion), Marker, i)
    requires FirstAt(Strip(completion)[i + |Marker|..], Marker, j)
    ensures ParseQuiz(completion) ==
      QuizBody(Strip(Strip(completion)[..i]),
               Normalize(Strip(completion)[i + |Marker|..][..j]))
  {
    var full := Strip(completion);
    SplitHead(full, Marker);
    SplitHead(full[i + |Marker|..], Marker);
  }

  /** `generate_quiz(topic)`. */
  function GenerateQuiz(store: Collection<QuizBody>, topic: string, tape: Tape)
    : (r: Generated<QuizBody>)
    ensures HasTopic(store, topic) ==>
      r == Generated(FindOne(store, topic).value, store, tape)
    ensures !HasTopic(store, topic) && Head(tape).Ok? ==>
      && r.value == ParseQuiz(Head(tape).text)
      && r.store == store + [Doc(topic, r.value)]
      && r.tape == Rest(tape)
    ensures Head(tape).Fail? && !HasTopic(store, topic) ==>
      r == Generated(QuizError, store, Rest(tape))
    ensures FindOne(r.store, topic).Some? <==> !(Head(tape).Fail? && !HasTopic(store, topic))
    ensures store <= r.store
  {
    match FindOne(store, topic)
    case Some(quiz) => Generated(quiz, store, tape)
    case None =>
      match Head(tape)
      case Ok(text) =>
        var quiz := ParseQuiz(text);
        FindAfterInsert(store, topic, quiz, topic);
        Generated(quiz, InsertOne(store, topic, quiz), Rest(tape))
      case Fail(_) =>
        Generated(QuizError, store, Rest(tape))
  }

  /** Cache determinism for summaries: once a call succeeded (or hit the
      cache), the next call for the same topic returns the same summary from
      the cache, whatever the service would have said. */
  lemma {:induction false} SummaryReplay(store: Collection<string>, topic: string, tape: Tape, later: Tape)
    requires HasTopic(store, topic) || Head(tape).Ok?
    ensures var r := GenerateSummary(store, topic, tape);
      GenerateSummary(r.store, topic, later) == Generated(r.value, r.store, later)
  {
    var r := GenerateSummary(store, topic, tape);
    if !HasTopic(store, topic) {
      FindAfterInsert(store, topic, r.value, topic);
    }
  }

  /** Cache determinism for quizzes, as for summaries. */
  lemma {:induction false} QuizReplay(store: Collection<QuizBody>, topic: string, tape: Tape, later: Tape)
    requires HasTopic(store, topic) || Head(tape).Ok?
    ensures var r := GenerateQuiz(store, topic, tape);
      GenerateQuiz(r.store, topic, later) == Generated(r.value, r.store, later)
  {
    var r := GenerateQuiz(store, topic, tape);
    if !HasTopic(store, topic) {
      FindAfterInsert(store, topic, r.value, topic);
    }
  }

  /** The summary returned is the one now cached for the topic, or an error
      string with the cache untouched. */
  lemma {:induction false} SummaryCachedOrError(store: Collection<string>, topic: string, tape: Tape)
    ensures var r := GenerateSummary(store, topic, tape);
      || FindOne(r.store, topic) == Some(r.value)
      || (r.store == store && SummaryErrorPrefix <= r.value)
  {
    var r := GenerateSummary(store, topic, tape);
    if !HasTopic(store, topic) && Head(tape).Ok? {
      FindAfterInsert(store, topic, r.value, topic);
    }
  }

  /** The quiz returned is the one now cached for the topic, or the error
      quiz with the cache untouched. */
  lemma {:induction false} QuizCachedOrError(store: Collection<QuizBody>, topic: string, tape: Tape)
    ensures var r := GenerateQuiz(store, topic, tape);
      || FindOne(r.store, topic) == Some(r.value)
      || (r.store == store && r.value == QuizError)
  {
    var r := GenerateQuiz(store, topic, tape);
    if !HasTopic(store, topic) && Head(tape).Ok? {
      FindAfterInsert(store, topic, r.value, topic);
    }
  }

  /** Every stored quiz answer is in the normal form answers are compared in. */
  predicate NormalAnswers(c: Collection<QuizBody>) {
    forall i :: 0 <= i < |c| ==> Normalize(c[i].body.answer) == c[i].body.answer
  }

  /** `generate_quiz` only ever returns and stores answers in normal form,
      and never stores a second quiz for a topic. */
  lemma {:induction false} GenerateQuizWellFormed(store: Collection<QuizBody>, topic: string, tape: Tape)
    requires NormalAnswers(store) && UniqueTopics(store)
    ensures var r := GenerateQuiz(store, topic, tape);
      && Normalize(r.value.answer) == r.value.answer
      && NormalAnswers(r.store) && UniqueTopics(r.store)
  {
    var r := GenerateQuiz(store, topic, tape);
    if HasTopic(store, topic) {
      var i := FirstMatch(store, topic).value;
      assert store[i].body == r.value;
    } else if Head(tape).Ok? {
      InsertOnMissUnique(store, topic, r.value);
    } else {
      DefaultAnswerNormal();
    }
  }

  /** `summarize_text` never stores a second summary for a topic. */
  lemma {:induction false} GenerateSummaryUnique(store: Collection<string>, topic: string, tape: Tape)
    requires UniqueTopics(store)
    ensures UniqueTopics(GenerateSummary(store, topic, tape).store)
  {
    if !HasTopic(store, topic) && Head(tape).Ok? {
      InsertOnMissUnique(store, topic, Strip(Head(tape).text));
    }
  }
}
