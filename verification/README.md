# JS-Bot core, modelled in Dafny

JS-Bot is a Telegram bot that teaches JavaScript topics. A user sends a topic.
The bot replies with a summary and a multiple-choice quiz, both produced by a
completion service and cached in MongoDB by topic. It then grades the user's
next message against the quiz answer. This project models the pure sequential
core of `bot.py`. That core has three parts:

- the quiz-response parser inside `generate_quiz`;
- the cache-then-generate logic of `summarize_text` and `generate_quiz`;
- the per-user state machine of `handle_message`.

Modules follow those components:

- `Text` (`text.dfy`) models the Python `str` primitives the core uses:
  `strip()`, `upper()`, `lower()` and `split(sep)`. Whitespace is Python's
  `str.isspace` set. Case mapping covers ASCII only. `bot.py` never calls
  `find` or `sep.join`. `Text.Find` and `Text.Join` exist only to specify
  `split`: the first piece ends at the leftmost separator, and joining the
  pieces gives back the input.
- `Cache` (`cache.dfy`) models a collection as a sequence of documents in
  insertion order. The model's `find_one` returns the first document with the
  topic (MongoDB promises only some match; see below), and `insert_one`
  appends.
- `Generator` (`generator.dfy`) models `summarize_text`, `generate_quiz` and
  the quiz parser. The completion service is a *tape*, a sequence of outcomes
  (`Ok(text)` or `Fail(reason)`). Each call consumes one outcome, and an
  exhausted tape reads as a failed call. A call that consumes an outcome
  consulted the service. On a non-empty tape, a call that returns the tape
  unchanged did not consult it. On an empty tape the two cases look the
  same, because the failed call consumes nothing.
- `Dialogue` (`dialogue.dfy`) models `handle_message` as a pure step
  `(state, user, message, tape) -> (state', replies, tape')`. It also defines
  `Run`, which handles many messages in arrival order. Replies are abstract
  tags (`Correct`, `Incorrect(answer)`, `Learning(topic)`, `Summary(text)`,
  `QuizIntro`, `Quiz(text)`).
- `Scenarios` (`scenarios.dfy`) holds concrete examples of the parser and
  the dialogue.
- `Optional` (`optional.dfy`) holds the `Option` type.

Facts about the code worth knowing:

- A quiz answer is the text between the first `Answer:` marker and the next
  one (or the end), stripped and upper-cased. Nothing limits it to the
  letters A–D.
  `Scenarios.AnswerIsNotALetter` parses `"Q?\nAnswer: maybe"` to the answer
  `"MAYBE"`.
- A message sent while a quiz is pending is graded as the answer. It is
  never treated as a new topic (`Dialogue.SecondMessageIsGraded`). The write
  at `bot.py:134` can replace a pending entry only when one user's messages
  run concurrently.
- In the model, reading a topic back after `insert_one` returns the
  inserted value only when the topic was absent before. Otherwise it returns
  the earlier document (`Cache.FindAfterInsert`). MongoDB's `find_one`
  without a sort promises only some matching document, so picking the first
  inserted is the model's choice. The choice is harmless: the code inserts
  only on a miss, so every reachable collection holds at most one document
  per topic (`Dialogue.ReachableWellFormed`).
- The cache test `if cached:` is a truth test on the returned document. A
  found document is a non-empty dict, so it is always truthy. The model
  therefore treats any matching document as a hit, including one with an empty
  summary.

## Model

| member | source | states |
|---|---|---|
| Text.Strip | bot.py:107 | the result has no whitespace at either end |
| Text.StripDecompose | bot.py:107 | the input is whitespace, then the result of `strip()`, then whitespace |
| Text.StripUnique | bot.py:107 | whitespace around a core with trimmed ends strips to exactly that core, so the decomposition `Strip` gives is the only one |
| Text.StripIdempotent | bot.py:112 | stripping text that is already stripped (as `handle_message` does) changes nothing |
| Text.Upper | bot.py:91 | `upper()` keeps the length and maps each character on its own, raising exactly the ASCII lower-case letters |
| Text.Lower | bot.py:123 | `lower()` keeps the length and maps each character on its own, lowering exactly the ASCII upper-case letters |
| Text.Normalize | bot.py:111-112 | the normal form `strip().upper()` used for grading has no whitespace at either end and no lower-case ASCII letter |
| Text.NormalFormIff | bot.py:111-112 | a string is its own normal form exactly when it has no whitespace at either end and no lower-case ASCII letter |
| Text.StripUpper | bot.py:111 | upper-casing commutes with `strip()`, because it neither creates nor removes whitespace |
| Text.NormalizeIdempotent | bot.py:111-112 | strip-then-upper applied to an answer already in that form leaves it unchanged |
| Text.Find | bot.py:89 | (a helper that specifies `split`; `bot.py` has no `find` call) the search finds a position exactly when the separator occurs, and that position is the leftmost occurrence |
| Text.Split | bot.py:89 | `str.split` yields at least one piece; joining the pieces with the separator gives back the input; no piece contains the separator |
| Text.SplitHead | bot.py:89-91 | the first piece is the text before the leftmost separator (the whole text if there is none); a second piece exists exactly when the separator occurs; later pieces split the text after the first separator |
| Cache.InsertOne | bot.py:50 | `insert_one` keeps every earlier document in place and adds exactly one document, with the given topic and body, at the end |
| Cache.FindOne | bot.py:29-31 | a lookup succeeds exactly when some document has the topic, and the value returned belongs to such a document |
| Cache.FindAfterInsert | bot.py:50 | after an insert, a topic already present keeps its first document, a new topic reads back the inserted value, and every other topic reads as before |
| Cache.FindOneStable | bot.py:58-60 | a successful lookup returns the same value however many documents are appended later |
| Cache.InsertOnMissUnique | bot.py:93 | inserting only on a miss keeps at most one document per topic |
| Generator.GenerateSummary | bot.py:28-53 | a hit returns the cached summary, does not consult the service and writes nothing; a success returns the stripped completion and appends exactly that document; a failure returns the error prefix followed by the reason and writes nothing |
| Generator.GenerateQuiz | bot.py:57-96 | a hit returns the cached (question, answer) pair unconsulted and unwritten; a success returns the parsed completion and appends exactly that; a failure returns ("❌ Error generating quiz.", "A") and writes nothing |
| Generator.AnswerOf | bot.py:91 | the answer taken from the split pieces is always in normal form, whether it comes from the second piece or is the default "A" |
| Generator.ParseQuiz | bot.py:87-91 | the question has no whitespace at either end, and the answer is already stripped and upper-cased |
| Generator.ParseNoMarker | bot.py:89-91 | without "Answer:" in the stripped completion, the question is the whole stripped completion and the answer is "A" |
| Generator.ParseOneMarker | bot.py:89-91 | with exactly one marker, the question is the stripped text before it and the answer is the stripped, upper-cased text after it |
| Generator.ParseTwoMarkers | bot.py:89-91 | with a second marker, the answer is the stripped, upper-cased text between the first and second markers; text after the second marker is ignored |
| Generator.SummaryReplay | bot.py:29-51 | after a hit or a success, the next call for the same topic returns the identical summary from the cache, whatever the service would say |
| Generator.QuizReplay | bot.py:58-94 | after a hit or a success, the next call for the same topic returns the identical quiz and answer from the cache, whatever the service would say |
| Generator.GenerateQuizWellFormed | bot.py:58-96 | every answer returned or stored is in stripped upper-case form, and no second quiz is stored for a topic |
| Generator.GenerateSummaryUnique | bot.py:29-51 | no second summary is stored for a topic |
| Dialogue.TopicOf | bot.py:123 | the topic made from a message (stripped at `bot.py:107`, then lower-cased) has no whitespace at either end and no upper-case ASCII letter |
| Dialogue.TopicOfIdempotent | bot.py:123 | sending a topic back as a message names the same topic |
| Dialogue.Grade | bot.py:111-117 | the grading branch replies `Correct` or `Incorrect`; an `Incorrect` reply names an answer in normal form |
| Dialogue.GradeIgnoresFormatting | bot.py:111-112 | the verdict does not change when the message or the stored answer is first stripped and upper-cased |
| Dialogue.StartTopic | bot.py:124-134 | the topic branch sends four replies, starting with `Learning(topic)` with `QuizIntro` third; the user's entry is set to the topic; other users' entries do not change; caches only grow |
| Dialogue.HandleMessage | bot.py:105-134 | the user's pending entry flips (present becomes absent, absent becomes present); other users' entries do not change; caches only grow; an answer sends one reply and generates nothing; a topic sends four replies, the first being `Learning(topic)` with topic = lower(strip(message)) |
| Dialogue.AnswerPath | bot.py:110-120 | with an entry pending, the reply is `Correct` exactly when the normalised message equals the normalised stored answer, and is `Incorrect(normalised stored answer)` otherwise; the entry is removed in both cases |
| Dialogue.TopicPath | bot.py:123-134 | with nothing pending, the summary and quiz shown are the ones now cached for the topic, or the error values with nothing cached; the new pending answer is the answer of the quiz shown; no other entry changes |
| Dialogue.TopicFromCache | bot.py:123-134 | a topic cached in both collections is served from the cache without consulting the service and without writes |
| Dialogue.TakeOnce | bot.py:110-123 | a pending entry answers exactly one message; the next message is a new topic |
| Dialogue.SecondMessageIsGraded | bot.py:110-134 | the message after a topic request is always graded and never starts a new topic |
| Dialogue.HandleMessageWellFormed | bot.py:105-134 | handling a message keeps pending and cached answers in normal form and keeps topics unique in each collection |
| Dialogue.GradeAgainstStored | bot.py:111-117 | in a well-formed state the reply is `Correct` exactly when the stripped, upper-cased message equals the stored answer |
| Dialogue.Run | bot.py:105-134 | handling a sequence of messages keeps the state well-formed, and the caches only grow |
| Dialogue.ReachableWellFormed | bot.py:105-134 | every state reachable from a fresh bot is well-formed |
| Scenarios.AnswerIsNotALetter | bot.py:89-91 | the completion "Q?\nAnswer: maybe" parses to question "Q?" and answer "MAYBE" |
| Scenarios.SecondMarkerIgnored | bot.py:89-91 | the completion "Q Answer: b Answer: c" parses to question "Q" and answer "B" |
| Scenarios.FirstTopic | bot.py:123-134 | the topic "loops" on a cold cache caches both artifacts and leaves the user waiting on the parsed answer |
| Scenarios.CorrectAnswer | bot.py:110-119 | with "B" pending, the message "b" is graded correct and the entry is cleared |
| Scenarios.LoneLetterIsTopic | bot.py:123 | with nothing pending, "A" starts the topic "a" |
| Scenarios.QuizGenerationFails | bot.py:95-96 | a failed quiz call shows the error question, leaves "A" pending and caches no quiz |

## Left out

- The Telegram transport is left out because it is I/O. This covers `reply_text`,
  Markdown formatting, the `/start` command, `error_handler`, the application
  builder and polling (`bot.py:99-101`, `bot.py:137-152`). Replies are
  abstract tags.
- Every `reply_text` is assumed to succeed. In `bot.py` a send that raises
  ends `handle_message` at that point. Markdown parsing of generated text or
  an empty summary or question can make it raise. An empty summary is
  reachable here, since a completion of only whitespace is cached as `""`.
  Two model promises rest on this assumption:
  - On the answer path, a failed send at `bot.py:115` or `bot.py:117` skips
    the deletion at `bot.py:119`. The entry survives and the next message is
    graded again, unlike `Dialogue.TakeOnce`.
  - On the topic path, a failed send at `bot.py:124`, `bot.py:127`,
    `bot.py:129` or `bot.py:132` skips the write at `bot.py:134`. The
    user's entry then does not flip as `Dialogue.HandleMessage` states.
- The completion call is replaced by the outcome tape. This covers the model
  name, the prompt texts and `max_tokens` (`bot.py:34-47`, `bot.py:63-86`). A
  `None` message content, which would raise inside the `try`, counts as a
  failed call. The exception text `{e}` is the abstract `reason` string.
- The MongoDB client, `.env` loading and logging (`bot.py:9-22`) are left out.
  They are I/O.
- Store failures are not modelled. A `find_one` failure sits outside the
  `try` and ends the handler before the write at `bot.py:134`. In
  `summarize_text` (called at `bot.py:126`) that happens after the
  `Learning` reply. In `generate_quiz` (called at `bot.py:131`) it happens
  after three replies (`bot.py:124`, `bot.py:127`, `bot.py:129`), and possibly
  after a summary was already inserted at `bot.py:50`. An `insert_one`
  failure sits inside the `try` and turns a success into the error result.
- Asynchronous scheduling is not modelled. Messages are handled one at a
  time, so two of one user's messages never interleave.
- Text.Upper: maps ASCII letters only. Python's `upper()` also maps other
  letters and can change a string's length (for example "ß" becomes "SS").
- Text.Lower: maps ASCII letters only, for the same reason.
