/**
 The dialogue controller, `handle_message`: per user, a message is graded
 against the pending quiz when there is one (and the pending entry is then
 dropped), and otherwise starts a new topic: summary, quiz, and a new pending
 entry holding the quiz's answer. Replies are abstract tags standing for the
 texts the bot sends.
 */
module Dialogue {
  import opened Optional
  import opened Text
  import opened Cache
  import opened Generator

  type UserId = int

  /** The quiz a user still has to answer: `user_state[user_id]`. */
  datatype Pending = Pending(topic: string, answer: string)

  datatype Reply =
    | Correct                   // the congratulation for a right answer
    | Incorrect(answer: string) // the rebuttal naming the right answer
    | Learning(topic: string)   // the acknowledgement of a new topic
    | Summary(text: string)     // the summary itself
    | QuizIntro                 // the line announcing the quiz
    | Quiz(text: string)        // the question itself

  /** The whole state the handler touches: the in-memory user map and the
      two cache collections. */
  datatype Bot = Bot(
    users: map<UserId, Pending>,
    summaries: Collection<string>,
    quizzes: Collection<QuizBody>)

  /** The state after one message, the replies sent, and the unconsumed tape. */
  datatype Step = Step(bot: Bot, replies: seq<Reply>, tape: Tape)

  /** A freshly started bot with empty caches. */
  const Initial: Bot := Bot(map[], [], [])

  /** The topic a message stands for: the message stripped and lower-cased. */
  function TopicOf(message: string): (topic: string)
    ensures Trimmed(topic) && NoUpperLetters(topic)
  {
    LowerTrimmed(Strip(message));
    Lower(Strip(message))
  }

  /** A topic sent again as a message names the same topic. */
  lemma TopicOfIdempotent(message: string)
    ensures TopicOf(TopicOf(message)) == TopicOf(message)
  {
    var t := TopicOf(message);
    StripOfTrimmed(t);
    LowerFixes(t);
  }

  /** Entries of users other than `user` are the same in both maps. */
  ghost predicate OthersUnchanged(m: map<UserId, Pending>, m': map<UserId, Pending>, user: UserId) {
    forall u :: u != user ==> (u in m <==> u in m') && (u in m ==> m[u] == m'[u])
  }

  /** The grading branch of `handle_message`: compare the stripped,
      upper-cased message with the stored answer normalized the same way. */
  function Grade(pending: Pending, text: string): (reply: Reply)
    ensures reply.Correct? || reply.Incorrect?
    ensures reply.Incorrect? ==> Trimmed(reply.answer) && NoLowerLetters(reply.answer)
  {
    var correct := Normalize(pending.answer);
    if Normalize(text) == correct then Correct else Incorrect(correct)
  }

  /** Grading ignores surrounding whitespace and ASCII case, both in the
      message and in the stored answer. */
  lemma GradeIgnoresFormatting(pending: Pending, text: string)
    ensures Grade(pending, Normalize(text)) == Grade(pending, text)
    ensures Grade(Pending(pending.topic, Normalize(pending.answer)), text) == Grade(pending, text)
  {
    NormalizeIdempotent(text);
    NormalizeIdempotent(pending.answer);
  }

  /** The new-topic branch of `handle_message`: summary, quiz, then the
      user's entry is set to the topic and the quiz's answer. */
  function StartTopic(b: Bot, user: UserId, topic: string, tape: Tape): (r: Step)
    ensures user in r.bot.users && r.bot.users[user].topic == topic
    ensures OthersUnchanged(b.users, r.bot.users, user)
    ensures b.summaries <= r.bot.summaries && b.quizzes <= r.bot.quizzes
    ensures |r.replies| == 4 && r.replies[0] == Learning(topic) && r.replies[2] == QuizIntro
  {
    var s := GenerateSummary(b.summaries, topic, tape);
    var q := GenerateQuiz(b.quizzes, topic, s.tape);
    Step(
      Bot(b.users[user := Pending(topic, q.value.answer)], s.store, q.store),
      [Learning(topic), Summary(s.value), QuizIntro, Quiz(q.value.quiz)],
      q.tape)
  }

  /** `handle_message(update)` for a text `message` from `user`. */
  function HandleMessage(b: Bot, user: UserId, message: string, tape: Tape): (r: Step)
    ensures user in r.bot.users <==> user !in b.users
    ensures OthersUnchanged(b.users, r.bot.users, user)
    ensures b.summaries <= r.bot.summaries && b.quizzes <= r.bot.quizzes
    ensures user in b.users ==>
      && |r.replies| == 1 && (r.replies[0].Correct? || r.replies[0].Incorrect?) && r.tape == tape
      && r.bot.summaries == b.summaries && r.bot.quizzes == b.quizzes
    ensures user !in b.users ==>
      && |r.replies| == 4
      && r.replies[0] == Learning(TopicOf(message)) && r.replies[2] == QuizIntro
      && r.bot.users[user].topic == TopicOf(message)
  {
    var text := Strip(message);
    if user in b.users then
      Step(b.(users := b.users - {user}), [Grade(b.users[user], text)], tape)
    else
      StartTopic(b, user, Lower(text), tape)
  }

  /** The answer path: the reply is "correct" exactly when the message and the
      stored answer agree after stripping and upper-casing; otherwise it names
      the stored answer, stripped and upper-cased. Either way the entry is gone and nothing is generated. */
  lemma {:induction false} AnswerPath(b: Bot, user: UserId, message: string, tape: Tape)
    requires user in b.users
    ensures var r := HandleMessage(b, user, message, tape);
      var correct := Normalize(b.users[user].answer);
      && (r.replies == [Correct] <==> Normalize(message) == correct)
      && (r.replies != [Correct] ==> r.replies == [Incorrect(correct)])
      && r.bot.users == b.users - {user}
  {
    StripIdempotent(message);
  }

  /** What a new topic leaves behind: the summary and the quiz shown are the
      ones now cached for the topic, or the error values with nothing
      cached; the pending answer is the answer of the quiz shown. */
  lemma {:induction false} StartTopicArtifacts(b: Bot, user: UserId, topic: string, tape: Tape)
    ensures var r := StartTopic(b, user, topic, tape);
      var p := r.bot.users[user];
      && r.bot.users == b.users[user := p]
      && r.replies[1].Summary? && r.replies[3].Quiz?
      && (|| FindOne(r.bot.summaries, topic) == Some(r.replies[1].text)
          || (&& r.bot.summaries == b.summaries
              && SummaryErrorPrefix <= r.replies[1].text))
      && (|| FindOne(r.bot.quizzes, topic) == Some(QuizBody(r.replies[3].text, p.answer))
          || (&& r.bot.quizzes == b.quizzes
              && QuizBody(r.replies[3].text, p.answer) == QuizError))
  {
    var s := GenerateSummary(b.summaries, topic, tape);
    SummaryCachedOrError(b.summaries, topic, tape);
    QuizCachedOrError(b.quizzes, topic, s.tape);
  }

  /** The topic path: the summary and the quiz shown are the ones cached for
      the topic, or the error values when generation failed (then nothing is
      cached); the pending answer is the answer of the quiz shown. */
  lemma {:induction false} TopicPath(b: Bot, user: UserId, message: string, tape: Tape)
    requires user !in b.users
    ensures var r := HandleMessage(b, user, message, tape);
      var topic := TopicOf(message);
      var p := r.bot.users[user];
      && r.bot.users == b.users[user := p]
      && r.replies[1].Summary? && r.replies[3].Quiz?
      && (|| FindOne(r.bot.summaries, topic) == Some(r.replies[1].text)
          || (&& r.bot.summaries == b.summaries
              && SummaryErrorPrefix <= r.replies[1].text))
      && (|| FindOne(r.bot.quizzes, topic) == Some(QuizBody(r.replies[3].text, p.answer))
          || (&& r.bot.quizzes == b.quizzes
              && QuizBody(r.replies[3].text, p.answer) == QuizError))
  {
    assert HandleMessage(b, user, message, tape) == StartTopic(b, user, TopicOf(message), tape);
    StartTopicArtifacts(b, user, TopicOf(message), tape);
  }

  /** A topic whose summary and quiz are both cached is served without
      consulting the completion service and without writing to the cache. */
  lemma TopicFromCache(b: Bot, user: UserId, message: string, tape: Tape)
    requires user !in b.users
    requires HasTopic(b.summaries, TopicOf(message)) && HasTopic(b.quizzes, TopicOf(message))
    ensures var r := HandleMessage(b, user, message, tape);
      && r.tape == tape
      && r.bot.summaries == b.summaries && r.bot.quizzes == b.quizzes
      && r.replies[1] == Summary(FindOne(b.summaries, TopicOf(message)).value)
      && r.replies[3] == Quiz(FindOne(b.quizzes, TopicOf(message)).value.quiz)
      && r.bot.users[user].answer == FindOne(b.quizzes, TopicOf(message)).value.answer
  {
  }

  /** A pending quiz answers exactly one message: the message after it is a
      new topic again, so a lone "A" becomes the topic "a". */
  lemma TakeOnce(b: Bot, user: UserId, answer: string, next: string, tape: Tape)
    requires user in b.users
    ensures var s1 := HandleMessage(b, user, answer, tape);
      var s2 := HandleMessage(s1.bot, user, next, s1.tape);
      && user !in s1.bot.users
      && s2.replies[0] == Learning(TopicOf(next))
      && user in s2.bot.users
  {
  }

  /** Two topic messages in a row: the second one is graded as the answer to
      the first quiz, so it never replaces the pending entry. */
  lemma SecondMessageIsGraded(b: Bot, user: UserId, first: string, second: string, tape: Tape)
    requires user !in b.users
    ensures var s1 := HandleMessage(b, user, first, tape);
      var s2 := HandleMessage(s1.bot, user, second, s1.tape);
      && |s2.replies| == 1
      && (s2.replies[0].Correct? || s2.replies[0].Incorrect?)
      && user !in s2.bot.users
  {
    var s1 := HandleMessage(b, user, first, tape);
    assert user in s1.bot.users;
  }

  /** What every reachable state satisfies: pending and cached answers are in
      normal form, and each collection holds at most one document per topic. */
  predicate WellFormed(b: Bot) {
    && (forall u :: u in b.users ==> Normalize(b.users[u].answer) == b.users[u].answer)
    && NormalAnswers(b.quizzes)
    && UniqueTopics(b.summaries)
    && UniqueTopics(b.quizzes)
  }

  lemma {:induction false} HandleMessageWellFormed(b: Bot, user: UserId, message: string, tape: Tape)
    requires WellFormed(b)
    ensures WellFormed(HandleMessage(b, user, message, tape).bot)
  {
    if user !in b.users {
      var topic := TopicOf(message);
      var s := GenerateSummary(b.summaries, topic, tape);
      GenerateSummaryUnique(b.summaries, topic, tape);
      GenerateQuizWellFormed(b.quizzes, topic, s.tape);
    }
  }

  /** In a well-formed state the grading needs no normalizing of the stored
      answer: the reply is "correct" exactly when the normalized message
      equals it, and an incorrect reply quotes it. */
  lemma {:induction false} GradeAgainstStored(b: Bot, user: UserId, message: string, tape: Tape)
    requires WellFormed(b) && user in b.users
    ensures var r := HandleMessage(b, user, message, tape);
      && (r.replies == [Correct] <==> Normalize(message) == b.users[user].answer)
      && (r.replies != [Correct] ==> r.replies == [Incorrect(b.users[user].answer)])
  {
    AnswerPath(b, user, message, tape);
  }

  /** One inbound text message. */
  datatype Message = Message(user: UserId, text: string)

  /** Handles `messages` one after another, in arrival order, collecting
      every reply. */
  function Run(b: Bot, messages: seq<Message>, tape: Tape): (r: Step)
    ensures WellFormed(b) ==> WellFormed(r.bot)
    ensures b.summaries <= r.bot.summaries && b.quizzes <= r.bot.quizzes
    decreases |messages|
  {
    if |messages| == 0 then Step(b, [], tape)
    else
      var m := messages[0];
      var s := HandleMessage(b, m.user, m.text, tape);
      assert WellFormed(b) ==> WellFormed(s.bot) by {
        if WellFormed(b) { HandleMessageWellFormed(b, m.user, m.text, tape); }
      }
      var rest := Run(s.bot, messages[1..], s.tape);
      Step(rest.bot, s.replies + rest.replies, rest.tape)
  }

  /** Every state reached from a fresh start is well-formed. */
  lemma ReachableWellFormed(messages: seq<Message>, tape: Tape)
    ensures WellFormed(Run(Initial, messages, tape).bot)
  {
  }
}
