# MockMate interview session, modelled in Dafny

MockMate is an AI mock-interview web application. This project models the
interview screen, `src/Components/Mentor.jsx`, and proves properties of the
model. On that screen a candidate picks a role and a level, and a language
model generates the questions. The candidate answers each question by text or
by voice. The model replies with feedback and the next question, or with a
final assessment after the last one. A camera frame can add posture feedback,
and a countdown of one minute per question ends the session when it runs out.

The project has six modules, each in its own file:

- `Outcomes` (`outcomes.dfy`): `Option`, the outcome of a call to the language
  model (`Reply`: the text it returned, or a failure) and the requests the
  screen sends (`Request`).
- `Text` (`text.dfy`): the JavaScript string operations the screen relies on.
  These are `trim`, `split` on one character, `includes`, a template literal
  (`Concat`), `toString` of a non-negative integer and `padStart`.
- `Questions` (`questions.dfy`): `generateInterviewQuestions`. It covers the
  prompt, the parse of the reply into question lines and the fixed fallback
  list.
- `Clock` (`clock.dfy`): the budget, one tick of the countdown and
  `formatTime`, with a reading of `MM:SS` back into seconds.
- `Composer` (`composer.dfy`): every text the screen writes, meaning the
  welcome message, the feedback and final-assessment prompts, the fallback
  texts and the posture message. It also holds the messages and requests of
  one answered turn, as functions of the calls' outcomes.
- `Interview` (`interview.dfy`): the screen's state as a value (`State`) and
  its invariant (`Consistent`). Each handler is a transition function of it
  (`Start`, `Send`, `ResetAsWritten` with `Reset` its corrected version,
  `Ticked`). These functions are the
  specification. The class `Session` holds the same fields as mutable state.
  Most of its methods are one React handler each, and `OpenSession`,
  `ShowSession` and `RecordTurn` are steps inside a handler. Every method is
  proved to leave `Snapshot()` equal to its transition function applied to
  the old state, and each handler method also keeps `Valid()`. The
  invariant is that of the corrected program: the reset as written breaks it
  (see Findings).

Each handler runs to completion as one step. The language model's replies,
the camera frame, the posture reply and whether the browser supports speech
recognition are parameters of the handlers. A React commit runs
its effects in declaration order, each one seeing the values of that render. The model follows this. On the commit that
shows a new session, the setup effect (`:341-347`) sets the budget. The
countdown effect (`:349-360`) still sees the time left from before the
start.

In several places the code does something other than one might expect, and
the model follows the code:

- The question generator keeps one or two parsed questions instead of falling
  back (`:151`), unchanged (`Questions.FewQuestionLinesKept`). A session can
  therefore have 1 to 6 questions, not 3 to 6; the reply "Why?" gives one
  (`Questions.SingleQuestionReplyIsKept`).
- A voice transcript only fills the answer box (`:212`); it is not submitted.
- Resetting does not cancel a running recognizer (`:325-333`), and it does not
  clear the clock (see Findings).
- The posture request is issued after the primary reply has arrived, and only
  if it arrived (`:277-299`). It is not issued alongside the primary request.
- The final-assessment prompt is a fixed text with no answer in it (`:262`).
- No request is tagged with a session identity, so nothing discards a late
  reply. Interleavings are outside this model in any case.

## Model

| member | source | states |
|---|---|---|
| Text.Trim | src/Components/Mentor.jsx:138 | the result has no whitespace at either end and is the slice of the input between its leading and its trailing whitespace runs |
| Text.TrimBlankIff | src/Components/Mentor.jsx:239 | `!s.trim()` holds exactly when every character of `s` is whitespace |
| Text.TrimIdempotent | src/Components/Mentor.jsx:138 | trimming a trimmed line changes nothing |
| Text.Split | src/Components/Mentor.jsx:137 | `split` yields at least one piece, no piece contains the separator, and joining the pieces with it gives back the input |
| Text.SplitJoin | src/Components/Mentor.jsx:137 | splitting undoes joining pieces free of the separator |
| Text.ConcatContains | src/Components/Mentor.jsx:182 | every piece of a template literal occurs in the text it produces |
| Text.NatToString | src/Components/Mentor.jsx:364-367 | `toString` of a non-negative integer gives decimal digits with no leading zero, denoting that integer |
| Text.PadStart | src/Components/Mentor.jsx:366-367 | `padStart` gives the input behind fill characters, at least `width` long |
| Text.PaddedDecimal | src/Components/Mentor.jsx:364-367 | a zero-padded decimal still denotes the same integer |
| Questions.QuestionPrompt | src/Components/Mentor.jsx:112-129 | the generation prompt, piece by piece; `QuestionPromptMentions` states what it names |
| Questions.QuestionPromptMentions | src/Components/Mentor.jsx:112-129 | the generation prompt names the role, the level and the number of questions asked for |
| Questions.IsQuestionLine | src/Components/Mentor.jsx:139 | the filter's test, non-empty and containing `?`; `KeepQuestionsMembers` states it |
| Questions.QuestionLines | src/Components/Mentor.jsx:136-139 | the trimmed question lines of a reply, in order; `ParsedAreQuestions`, `ParsedComplete` and `FewQuestionLinesKept` state them |
| Questions.Take | src/Components/Mentor.jsx:140 | `.slice(0, numQuestions)`; `ParsedComplete` and `ParseIsScan` state what it keeps |
| Questions.TrimAll | src/Components/Mentor.jsx:138 | every line is trimmed, in place, and none is lost |
| Questions.KeepQuestions | src/Components/Mentor.jsx:139 | `filter` keeps no more lines than it is given; what it keeps is stated by the three lemmas below |
| Questions.KeepQuestionsMembers | src/Components/Mentor.jsx:139 | a line is kept exactly when it is non-empty and contains `?` |
| Questions.KeepQuestionsAppend | src/Components/Mentor.jsx:139 | the kept lines of two runs of lines are those of the first followed by those of the second, so order and repeats are kept |
| Questions.KeepQuestionsSingle | src/Components/Mentor.jsx:139 | a single line is kept exactly when it is a question line; with `KeepQuestionsAppend` this fixes the whole result |
| Questions.ParsedAreQuestions | src/Components/Mentor.jsx:136-140 | the parse has at most `limit` items, each a trimmed question line of the reply |
| Questions.ParsedComplete | src/Components/Mentor.jsx:136-140 | the parse keeps min(limit, k) of the k question lines, and every question line when k is at most the limit |
| Questions.ParseIsScan | src/Components/Mentor.jsx:136-140 | the split/trim/filter/slice pipeline equals a line-at-a-time scan that stops after `limit` kept lines |
| Questions.ParseIsNeverFallback | src/Components/Mentor.jsx:151-158 | no reply parses to the fallback list, whose first question has no `?` |
| Questions.OneLineReply | src/Components/Mentor.jsx:136-140 | a one-line reply whose trimmed form is a question line parses to that trimmed line |
| Questions.ParseQuestions | src/Components/Mentor.jsx:136-140 | the parse of a reply has at most `limit` items; its content is stated by `ParsedAreQuestions`, `ParsedComplete` and `ParseIsScan` |
| Questions.GenerateQuestions | src/Components/Mentor.jsx:111-170 | the generator always returns at least one question and never an empty one; the six fallback questions (`FallbackQuestions`, :151-168) are used as `GeneratedFallbackIff` states |
| Questions.GeneratedFallbackIff | src/Components/Mentor.jsx:144-169 | the fallback list is returned exactly when the call failed or no line was a question; otherwise the result is the parse, 1 to `limit` trimmed question lines |
| Questions.GeneratedCountForStart | src/Components/Mentor.jsx:175 | a session started with a request for 6 gets between 1 and 6 questions |
| Questions.FewQuestionLinesKept | src/Components/Mentor.jsx:145-151 | a reply with one or two question lines yields exactly those trimmed lines, in order, not the fallback list |
| Questions.SingleQuestionReplyIsKept | src/Components/Mentor.jsx:145-151 | an example: the reply "Why?" yields ["Why?"], so sessions of fewer than three questions occur |
| Clock.Budget | src/Components/Mentor.jsx:343-345 | one minute per question; `BudgetLastsItsLength` and `Interview.BudgetEndsSession` state how long it lasts |
| Clock.TickValue | src/Components/Mentor.jsx:357 | one tick never goes below zero and lowers a positive time left; `AfterTicks` states the effect of k ticks |
| Clock.AfterTicks | src/Components/Mentor.jsx:357 | after k > 0 ticks from t, the time left is t - k floored at zero |
| Clock.BudgetLastsItsLength | src/Components/Mentor.jsx:343-357 | a budget of one minute per question is positive before its number of ticks and zero from then on |
| Clock.OutOfTime | src/Components/Mentor.jsx:351-353 | the countdown's completion check; `Interview.ElapsedCountsDown` states when it completes a session |
| Clock.FormatTime | src/Components/Mentor.jsx:363-369 | `formatTime`; `FormatTimeRoundTrip`, `FormatTimeInjective` and `FormatTimeShape` state what it renders |
| Clock.FormatTimeRoundTrip | src/Components/Mentor.jsx:363-369 | the `MM:SS` rendering reads back as the seconds it came from |
| Clock.FormatTimeInjective | src/Components/Mentor.jsx:363-369 | different seconds render differently |
| Clock.FormatTimeShape | src/Components/Mentor.jsx:363-369 | below 6000 seconds the rendering is five characters, two digits, a colon and two digits below 60, denoting the seconds |
| Composer.WelcomeMentions | src/Components/Mentor.jsx:182 | the greeting names the level, the role and the question count, and quotes the first question |
| Composer.FeedbackPromptMentions | src/Components/Mentor.jsx:257 | the feedback prompt quotes the question, the answer and the next question |
| Composer.WelcomeText | src/Components/Mentor.jsx:182 | the greeting; `WelcomeMentions` states what it names and quotes |
| Composer.FeedbackPrompt | src/Components/Mentor.jsx:257 | the feedback prompt; `FeedbackPromptMentions` states what it quotes |
| Composer.PrimaryRequest | src/Components/Mentor.jsx:256-264 | the feedback prompt before the last question, the final prompt on it; `PrimaryRequestContents` states it |
| Composer.PrimaryText | src/Components/Mentor.jsx:268-310 | the reply text, or on failure the next-question or completion fallback; `AnsweredTurnRelaysReply`, `FailedTurnAsksNextQuestion` and `FailedFinalTurnCompletes` state it |
| Composer.PostureMessages | src/Components/Mentor.jsx:277-298 | the posture message, only with a reply, a frame and a posture reply, and then `PostureText` of the posture reply; `TurnShape` and `PostureIsBestEffort` state it |
| Composer.TurnMessages | src/Components/Mentor.jsx:241-319 | the messages of one turn; `TurnShape`, `AnsweredTurnRelaysReply`, `FailedTurnAsksNextQuestion` and `FailedFinalTurnCompletes` state them |
| Composer.PostureText | src/Components/Mentor.jsx:290 | the posture message's template; `PostureTextQuotes` and `TurnShape` state it |
| Composer.PostureTextQuotes | src/Components/Mentor.jsx:290 | the posture message contains the vision reply, after its heading |
| Composer.IsLastQuestion | src/Components/Mentor.jsx:256 | the test `currentQuestion < interviewQuestions.length - 1` negated, also made at :304; `PrimaryRequestContents` and `FailedReplyFallsBack` state both branches |
| Composer.NextQuestionFallback | src/Components/Mentor.jsx:305 | the fallback that asks the next question; `FailedTurnAsksNextQuestion` states that it quotes it |
| Composer.TurnRequests | src/Components/Mentor.jsx:256-285 | the requests of one turn; `PostureIsBestEffort` and `PrimaryRequestContents` state them |
| Composer.TurnShape | src/Components/Mentor.jsx:241-299 | a turn appends the answer verbatim, one interviewer message and at most one posture message, present exactly when the reply, a frame and the posture reply all are, and then the posture reply under its heading, which it contains |
| Composer.AnsweredTurnRelaysReply | src/Components/Mentor.jsx:268-275 | the interviewer message of a turn is the reply, unchanged |
| Composer.FailedTurnAsksNextQuestion | src/Components/Mentor.jsx:304-306 | a failed feedback call before the last question appends only a fallback that quotes the next question |
| Composer.FailedFinalTurnCompletes | src/Components/Mentor.jsx:307-309 | a failed final assessment appends the answer and the fixed completion text, nothing else |
| Composer.PostureIsBestEffort | src/Components/Mentor.jsx:277-299 | the posture request is sent exactly when the reply arrived and a frame was captured, and its failure appends nothing |
| Composer.PrimaryRequestContents | src/Components/Mentor.jsx:256-266 | before the last question the first request quotes question, answer and next question; on the last it is the fixed final prompt whatever the answer |
| Interview.Start | src/Components/Mentor.jsx:171-187 | the start transition; `StartOpensSession` and `StartKeepsConsistent` state it |
| Interview.Opened | src/Components/Mentor.jsx:175-185 | the handler's own updates of a start; stated with the commit's effects through `Start` |
| Interview.Shown | src/Components/Mentor.jsx:341-355 | the effects of the commit that shows a session; `StartOpensSession` and `RestartAfterTimeoutCompletesAsWritten` state their outcome |
| Interview.StartRequest | src/Components/Mentor.jsx:171-175 | the question-generation request of a start, none without role or level; `StartOpensSession` states it |
| Interview.Send | src/Components/Mentor.jsx:238-323 | the answer transition; `BlankAnswerIsIgnored`, `AnswerMovesOn`, `FailedReplyFallsBack`, `PostureIsOptional` and `SendKeepsConsistent` state it |
| Interview.Advanced | src/Components/Mentor.jsx:248-275 | the state updates of an answered turn; stated through `Send` by `AnswerMovesOn` |
| Interview.SendRequests | src/Components/Mentor.jsx:238-285 | the requests of an answer, none for a blank one; `PostureIsOptional` and `FailedReplyFallsBack` state them |
| Interview.ResetAsWritten | src/Components/Mentor.jsx:325-333 | the reset as written; `ResetAsWrittenKeepsClock` and `RestartAfterTimeoutCompletesAsWritten` state what it leaves behind |
| Interview.Reset | src/Components/Mentor.jsx:325-333 | the corrected reset, which also clears the clock; `ResetKeepsConsistent`, `RestartIsFresh` and `RestartAfterTimeoutRuns` state it |
| Interview.Ticked | src/Components/Mentor.jsx:349-360 | one firing of the countdown; `TickKeepsConsistent` states it |
| Interview.Elapsed | src/Components/Mentor.jsx:349-360 | k firings of the countdown; `ElapsedCountsDown` and `BudgetEndsSession` state them |
| Interview.StartKeepsConsistent | src/Components/Mentor.jsx:171-187 | starting from the setup screen keeps the screen's invariant |
| Interview.StartOpensSession | src/Components/Mentor.jsx:171-187 | without role or level nothing changes or is sent; otherwise the prompt names both and the session opens on question 0, not complete, with one greeting quoting the first question and the full budget |
| Interview.SendKeepsConsistent | src/Components/Mentor.jsx:238-323 | answering keeps the invariant |
| Interview.BlankAnswerIsIgnored | src/Components/Mentor.jsx:239 | the state is unchanged and nothing is sent exactly when `trim` empties the input |
| Interview.AnswerMovesOn | src/Components/Mentor.jsx:238-299 | an answer extends the transcript by the answer, the relayed reply and at most the posture message, which carries the posture reply under its heading; it clears the input, and moves to the next question or completes on the last; questions and clock are kept |
| Interview.FailedReplyFallsBack | src/Components/Mentor.jsx:300-319 | on a failed call the turn still advances exactly as on success, with the fallback text, and only the first request is sent |
| Interview.PostureIsOptional | src/Components/Mentor.jsx:277-299 | the posture request is sent exactly for a non-blank answer with a reply and a frame, and a failed posture call leaves the state as if there had been no frame |
| Interview.TickKeepsConsistent | src/Components/Mentor.jsx:349-360 | a countdown tick keeps the invariant |
| Interview.ElapsedCountsDown | src/Components/Mentor.jsx:349-360 | while a session runs, k seconds lower the time left by k floored at zero and complete the session exactly when they use it up, changing nothing else |
| Interview.BudgetEndsSession | src/Components/Mentor.jsx:341-360 | a fresh session is complete after exactly one minute per question and not before |
| Interview.ResetKeepsConsistent | src/Components/Mentor.jsx:325-333 | the corrected reset, which clears the clock too, keeps the invariant; the reset as written does not (`ResetAsWrittenKeepsClock`) |
| Interview.ResetAsWrittenKeepsClock | src/Components/Mentor.jsx:325-333 | the reset as written carries a started session's clock over to the setup screen, so the result never satisfies the invariant |
| Interview.RestartAfterTimeoutCompletesAsWritten | src/Components/Mentor.jsx:325-333 | with the reset as written, a timed-out session restarted is complete before any answer |
| Interview.RestartIsFresh | src/Components/Mentor.jsx:325-333 | with the clock cleared, a restart depends only on the role, the level and the recognizer, and is not complete |
| Interview.RestartAfterTimeoutRuns | src/Components/Mentor.jsx:325-360 | with the clock cleared, a timed-out session restarted is the session a fresh start opens, and lasts its full budget |
| Interview.ComposeTurn | src/Components/Mentor.jsx:241-319 | the messages the handler builds are the turn's messages |
| Interview.ComposeRequests | src/Components/Mentor.jsx:256-285 | the requests the handler issues are the turn's requests, in order |
| Interview.Session.constructor | src/Components/Mentor.jsx:20-36 | a mounted screen is in the initial state, which satisfies the invariant |
| Interview.Session.ChooseRole | src/Components/Mentor.jsx:408 | the role selector sets the role and nothing else |
| Interview.Session.ChooseLevel | src/Components/Mentor.jsx:427 | the level selector sets the level and nothing else |
| Interview.Session.ChooseMode | src/Components/Mentor.jsx:615-623 | the Text and Voice buttons set the mode and nothing else |
| Interview.Session.EditInput | src/Components/Mentor.jsx:678 | typing sets the input and nothing else |
| Interview.Session.StartInterview | src/Components/Mentor.jsx:171-187 | makes the `Start` transition, sends the `StartRequest`, keeps the invariant |
| Interview.Session.OpenSession | src/Components/Mentor.jsx:175-185 | sets the questions, the started flag and the greeting |
| Interview.Session.ShowSession | src/Components/Mentor.jsx:341-355 | applies the setup and countdown effects of the start commit |
| Interview.Session.SendMessage | src/Components/Mentor.jsx:238-323 | makes the `Send` transition, sends the `SendRequests`, keeps the invariant |
| Interview.Session.RecordTurn | src/Components/Mentor.jsx:248-275 | appends the turn, clears the input and advances or completes |
| Interview.Session.Finish | src/Components/Mentor.jsx:668 | the Finish Interview button completes the session and changes nothing else |
| Interview.Session.ResetInterview | src/Components/Mentor.jsx:325-333 | makes the corrected `Reset` transition and keeps the invariant |
| Interview.Session.Tick | src/Components/Mentor.jsx:350-358 | one interval firing makes the `Ticked` transition and keeps the invariant |
| Interview.Session.Elapse | src/Components/Mentor.jsx:356-358 | k firings make the `Elapsed` transition |
| Interview.Session.HandleVoiceInput | src/Components/Mentor.jsx:190-231 | alerts exactly when recognition is unsupported, and launches a recognizer exactly when it is supported and nothing listens |
| Interview.Session.RecognitionStarted | src/Components/Mentor.jsx:204-208 | listening starts and the recognizer is held |
| Interview.Session.RecognitionResult | src/Components/Mentor.jsx:210-214 | the transcript replaces the input, nothing is sent, listening stops |
| Interview.Session.RecognitionError | src/Components/Mentor.jsx:216-222 | every error except `"aborted"` is alerted, and listening stops |
| Interview.Session.RecognitionEnded | src/Components/Mentor.jsx:224-228 | listening stops and the recognizer is released |
| Interview.Session.StopListening | src/Components/Mentor.jsx:232-236 | aborts exactly when a recognizer is held |
| Interview.StopIsSilent | src/Components/Mentor.jsx:216-236 | stopping a listening recognizer aborts it without an alert, leaving nothing listening or held |
| Interview.AnswerEveryQuestion | src/Components/Mentor.jsx:238-323 | answering every question in turn, whatever the calls return, completes the session on the last answer, with one candidate message per question and two messages per question when no frame is captured |

## Left out

- The markup, styling, scrolling and the other routes of the application.
  They are outside the interview logic.
- Camera acquisition (`startCamera`, `stopCamera`, `isCameraOn`) and
  `captureImage` are foreign browser APIs. The captured frame is a parameter,
  `None` when no frame was taken.
- The Azure language-model and vision calls are foreign services. Their
  outcomes are `Reply` parameters, and a reply that is not a string is not
  modelled.
- Asynchrony and interleaving are left out. Each handler runs to completion,
  so nothing models a tick, a second submit (Enter ignores `isLoading`) or a
  reset arriving while a call is pending.
- `isLoading` is false before and after every handler in this setting, so it
  is not modelled.
- Message ids and timestamps come from the clock (`Date.now()`) and are not
  modelled.
- The authentication effect and `user` (`:336-339`) belong to the login
  flow, not to the session.
- The progress line and the completion card only display state.
- Text.NatToString: models `toString` for non-negative integers only. The
  clock never renders a negative value: the time left is floored at zero and
  `null` is rendered as 0.
- Interview.Session.HandleVoiceInput: launching a recognizer changes no
  state of its own, and `onstart` is modelled as the separate
  `RecognitionStarted`.
- Interview.ResetKeepsConsistent: is proved for the corrected reset only. The
  reset as written keeps the clock of a started session and breaks the
  invariant (`Interview.ResetAsWrittenKeepsClock`); see Findings.
- Interview.Session.ResetInterview: makes the corrected reset, which also
  clears the clock. The reset as written is `Interview.ResetAsWritten` (see
  Findings).
- The countdown interval is modelled as firing only while a session runs and
  has time left. That is when the effect keeps one alive; the one-second
  period itself is not modelled.

## Findings

| source | as written | input that shows it | evidently intended | confidence | as-written member | corrected member |
|---|---|---|---|---|---|---|
| src/Components/Mentor.jsx:325-333 | `resetInterview` clears the session but leaves `timer` and `timeLeft` as they were | let a session run out of time (time left 0), press Start New Interview (`:833`), then start again with the same role and level; the countdown effect of the start commit sees the stale 0 and completes the new session before any answer | resetting clears the clock, so a new session gets its full budget of one minute per question | not executed | Interview.RestartAfterTimeoutCompletesAsWritten | Interview.RestartAfterTimeoutRuns |
