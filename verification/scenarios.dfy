/**
 Concrete examples of the bot: the quiz parser on sample completions and the
 dialogue scenarios of a first topic, a correct answer, a lone letter with
 nothing pending, and a failed quiz generation.
 */
module Scenarios {
  import opened Text
  import opened Cache
  import opened Generator
  import opened Dialogue

  const Completion1: string := "Q?\nAnswer: maybe"
  const Completion2: string := "Q Answer: b Answer: c"

  lemma Completion1Trimmed()
    ensures Strip(Completion1) == Completion1
  {
    StripOfTrimmed(Completion1);
  }

  lemma Completion1Marker()
    ensures FirstAt(Completion1, Marker, 3)
  {
    assert Completion1[3..10] == Marker;
    forall j | 0 <= j < 3 ensures !OccursAt(Completion1, Marker, j) {
      assert Completion1[j..j + 7][0] == Completion1[j];
    }
  }

  lemma StripTrailing(x: string, c: char)
    requires Trimmed(x) && IsSpace(c)
    ensures Strip(x + [c]) == x
  {
    StripUnique([], x, [c]);
    assert [] + x + [c] == x + [c];
  }

  lemma Completion1Question()
    ensures Strip(Completion1[..3]) == "Q?"
  {
    assert Completion1[..3] == "Q?" + ['\n'];
    StripTrailing("Q?", '\n');
  }

  lemma StripMaybe()
    ensures Strip(" maybe") == "maybe"
  {
    StripUnique([' '], "maybe", []);
    assert " maybe" == [' '] + "maybe" + [];
  }

  lemma UpperMaybe()
    ensures Upper("maybe") == "MAYBE"
  {
    var u := Upper("maybe");
    assert u[0] == 'M' && u[1] == 'A' && u[2] == 'Y' && u[3] == 'B' && u[4] == 'E';
  }

  lemma Completion1Answer()
    ensures Normalize(Completion1[10..]) == "MAYBE"
  {
    assert Completion1[10..] == " maybe";
    StripMaybe();
    UpperMaybe();
  }

  /** Nothing confines the parsed answer to a letter from A to D. */
  lemma AnswerIsNotALetter()
    ensures ParseQuiz(Completion1) == QuizBody("Q?", "MAYBE")
  {
    Completion1Trimmed();
    Completion1Marker();
    Completion1Question();
    Completion1Answer();
    assert |Completion1[10..]| < |Marker|;
    ParseOneMarker(Completion1, 3);
  }

  lemma Completion2Trimmed()
    ensures Strip(Completion2) == Completion2
  {
    StripOfTrimmed(Completion2);
  }

  lemma Completion2Markers()
    ensures FirstAt(Completion2, Marker, 2)
    ensures FirstAt(Completion2[9..], Marker, 3)
  {
    assert Completion2[2..9] == Marker;
    forall j | 0 <= j < 2 ensures !OccursAt(Completion2, Marker, j) {
      assert Completion2[j..j + 7][0] == Completion2[j];
    }
    var rest := Completion2[9..];
    assert rest[3..10] == Marker;
    forall j | 0 <= j < 3 ensures !OccursAt(rest, Marker, j) {
      assert rest[j..j + 7][0] == rest[j];
    }
  }

  lemma Completion2Question()
    ensures Strip(Completion2[..2]) == "Q"
  {
    assert Completion2[..2] == "Q" + [' '];
    StripTrailing("Q", ' ');
  }

  lemma Completion2Answer()
    ensures Normalize(Completion2[9..][..3]) == "B"
  {
    StripUnique([' '], "b", [' ']);
    assert Completion2[9..][..3] == [' '] + "b" + [' '];
    assert Upper("b") == "B";
  }

  /** Text after a second marker plays no part in the answer. */
  lemma SecondMarkerIgnored()
    ensures ParseQuiz(Completion2) == QuizBody("Q", "B")
  {
    Completion2Trimmed();
    Completion2Markers();
    Completion2Question();
    Completion2Answer();
    ParseTwoMarkers(Completion2, 2, 3);
  }

  lemma LoopsTopic()
    ensures TopicOf("loops") == "loops"
  {
    StripOfTrimmed("loops");
    LowerFixes("loops");
  }

  lemma LoopsSummary()
    ensures Strip(" Loops. ") == "Loops."
  {
    StripUnique([' '], "Loops.", [' ']);
    assert " Loops. " == [' '] + "Loops." + [' '];
  }

  /** A first topic on a cold cache: both artifacts are generated and cached
      and the user now waits on the quiz's answer. */
  lemma FirstTopic()
    ensures var r := HandleMessage(Initial, 1, "loops", [Ok(" Loops. "), Ok(Completion1)]);
      && r.replies == [Learning("loops"), Summary("Loops."), QuizIntro, Quiz("Q?")]
      && r.bot.summaries == [Doc("loops", "Loops.")]
      && r.bot.quizzes == [Doc("loops", QuizBody("Q?", "MAYBE"))]
      && r.bot.users == map[1 := Pending("loops", "MAYBE")]
      && r.tape == []
  {
    LoopsTopic();
    LoopsSummary();
    AnswerIsNotALetter();
  }

  /** A single non-space character normalizes to its upper-casing. */
  lemma NormalizeSingle(c: char)
    requires !IsSpace(c)
    ensures Normalize([c]) == [UpperChar(c)]
  {
    StripOfTrimmed([c]);
    assert Upper([c]) == [UpperChar(c)];
  }

  /** A pending answer "B" and the reply "b": correct, and the entry is gone. */
  lemma CorrectAnswer(b: Bot, user: UserId, tape: Tape)
    requires user in b.users && b.users[user].answer == "B"
    ensures var r := HandleMessage(b, user, "b", tape);
      r.replies == [Correct] && user !in r.bot.users
  {
    NormalizeSingle('b');
    NormalizeSingle('B');
  }

  /** "A" with nothing pending is the new topic "a", not an answer. */
  lemma LoneLetterIsTopic(b: Bot, user: UserId, tape: Tape)
    requires user !in b.users
    ensures var r := HandleMessage(b, user, "A", tape);
      r.replies[0] == Learning("a") && r.bot.users[user].topic == "a"
  {
    StripOfTrimmed("A");
    assert Lower("A") == "a";
  }

  /** A failed quiz generation on a cold cache: the error question is shown,
      "A" becomes the pending answer, and no quiz is cached. */
  lemma QuizGenerationFails(b: Bot, user: UserId, message: string, summary: string, reason: string)
    requires user !in b.users
    requires !HasTopic(b.summaries, TopicOf(message)) && !HasTopic(b.quizzes, TopicOf(message))
    ensures var r := HandleMessage(b, user, message, [Ok(summary), Fail(reason)]);
      && r.replies[3] == Quiz("❌ Error generating quiz.")
      && r.bot.users[user].answer == "A"
      && r.bot.quizzes == b.quizzes
  {
  }
}
