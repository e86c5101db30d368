/** The interview screen (`Mentor`): its state, the transitions its handlers
    make, and a class whose methods make them in place. Each handler runs to
    completion as one step, and everything the screen cannot see is a
    parameter: the language model's replies, the camera frame and whether the
    browser offers speech recognition. */
module Interview {
  import opened Outcomes
  import opened Text
  import opened Questions
  import opened Clock
  import opened Composer

  /** The answer input mode, `"text"` or `"voice"`. */
  datatype Mode = TextMode | VoiceMode

  /** Every field of the screen's state at one moment. `recognizerHeld` says
      whether `recognitionRef` holds a recognizer; `timer` is the budget and
      `timeLeft` the seconds left, `None` standing for `null`. */
  datatype State = State(
    isStarted: bool,
    isListening: bool,
    recognizerHeld: bool,
    messages: seq<Message>,
    currentInput: string,
    selectedRole: string,
    selectedLevel: string,
    currentQuestion: nat,
    isComplete: bool,
    interviewQuestions: seq<string>,
    mode: Mode,
    timer: Option<int>,
    timeLeft: Option<int>)

  /** The state of a freshly mounted screen. */
  function Initial(): State {
    State(false, false, false, [], "", "", "", 0, false, [], TextMode, None, None)
  }

  /** The invariant of the screen. Before a start there is no transcript, no
      question list and no clock; a started session is `Running`; a
      recognizer is held while it listens. */
  ghost predicate Consistent(s: State) {
    && (s.isListening ==> s.recognizerHeld)
    && (!s.isStarted ==>
          && s.messages == [] && s.interviewQuestions == [] && s.currentQuestion == 0
          && !s.isComplete && s.timer == None && s.timeLeft == None)
    && (s.isStarted ==> Running(s))
  }

  /** A started session has one to six questions and points at one of them.
      Its transcript opens with the interviewer's greeting, which quotes the
      first question, and holds one candidate answer per question answered:
      only the answer to the last question completes the session. The budget
      is one minute per question, and the time left lies between zero and
      the budget and is positive until the session is complete. */
  ghost predicate Running(s: State) {
    var n := |s.interviewQuestions|;
    && 1 <= n <= RequestedCount
    && s.currentQuestion < n
    && |s.messages| >= 1
    && s.messages[0].origin == Interviewer
    && Contains(s.messages[0].content, s.interviewQuestions[0])
    && (|| CandidateCount(s.messages) == s.currentQuestion
        || (s.isComplete && s.currentQuestion == n - 1 && CandidateCount(s.messages) == n))
    && s.timer == Some(Budget(n))
    && s.timeLeft.Some? && 0 <= s.timeLeft.value <= Budget(n)
    && (!s.isComplete ==> s.timeLeft.value > 0)
  }

  /** `startInterview`, with `reply` the outcome of the question-generation
      call: without a role or a level nothing happens; otherwise the
      handler's updates are followed by the effects of the commit that shows
      the session. */
  function Start(s: State, reply: Reply): State {
    if s.selectedRole == "" || s.selectedLevel == "" then s
    else Shown(Opened(s, reply))
  }

  /** The updates of `startInterview` itself: the generated questions become
      the session's and the transcript becomes the greeting. */
  function Opened(s: State, reply: Reply): State
    requires s.selectedRole != "" && s.selectedLevel != ""
  {
    var questions := GenerateQuestions(reply, RequestedCount);
    State(true, s.isListening, s.recognizerHeld,
          [Message(Interviewer, WelcomeText(s.selectedLevel, s.selectedRole, questions))],
          s.currentInput, s.selectedRole, s.selectedLevel, s.currentQuestion,
          s.isComplete, questions, s.mode, s.timer, s.timeLeft)
  }

  /** The effects of the commit that shows a session. The setup effect,
      declared first, sets the budget and the time left to one minute per
      question; the countdown effect runs in the same commit and so still
      sees the time left from before the start, and it completes the session
      if that is set and not positive. */
  function Shown(s: State): State {
    var budget := Some(Budget(|s.interviewQuestions|));
    State(s.isStarted, s.isListening, s.recognizerHeld, s.messages, s.currentInput,
          s.selectedRole, s.selectedLevel, s.currentQuestion,
          s.isComplete || OutOfTime(s.timeLeft), s.interviewQuestions, s.mode,
          budget, budget)
  }

  /** The question-generation request `startInterview` sends, if any. */
  function StartRequest(s: State): Option<Request> {
    if s.selectedRole == "" || s.selectedLevel == "" then None
    else Some(TextRequest(QuestionPrompt(s.selectedRole, s.selectedLevel, RequestedCount)))
  }

  /** `sendMessage`, with `reply` the outcome of the feedback or
      final-assessment call, `frame` the camera frame if one was captured and
      `posture` the outcome of the posture call: an input that `trim`
      empties, which is one of whitespace only (`TrimBlankIff`), is ignored;
      otherwise the turn's messages are appended, the input is cleared, and
      the session moves to the next question or, on the last, completes. */
  function Send(s: State, reply: Reply, frame: Option<string>, posture: Reply): State
    requires s.currentQuestion < |s.interviewQuestions|
  {
    if AllWhitespace(s.currentInput) then s
    else Advanced(s, TurnMessages(s.interviewQuestions, s.currentQuestion, s.currentInput, reply, frame, posture))
  }

  /** The state updates of an answered turn: its messages are appended, the
      input is cleared, and the session moves to the next question or, on
      the last, completes. */
  function Advanced(s: State, turn: seq<Message>): State
    requires s.currentQuestion < |s.interviewQuestions|
  {
    var i := s.currentQuestion;
    var last := IsLastQuestion(s.interviewQuestions, i);
    State(s.isStarted, s.isListening, s.recognizerHeld, s.messages + turn,
          "", s.selectedRole, s.selectedLevel, if last then i else i + 1,
          last || s.isComplete, s.interviewQuestions, s.mode, s.timer, s.timeLeft)
  }

  /** The requests `sendMessage` sends, in order. */
  function SendRequests(s: State, reply: Reply, frame: Option<string>): seq<Request>
    requires s.currentQuestion < |s.interviewQuestions|
  {
    if AllWhitespace(s.currentInput) then []
    else TurnRequests(s.interviewQuestions, s.currentQuestion, s.currentInput, reply, frame)
  }

  /** `resetInterview` as the source writes it: the session is cleared, the
      role, the level and the recognizer are kept, and so is the clock. */
  function ResetAsWritten(s: State): State {
    State(false, s.isListening, s.recognizerHeld, [], "", s.selectedRole, s.selectedLevel,
          0, false, [], TextMode, s.timer, s.timeLeft)
  }

  /** `resetInterview` with the clock cleared as well, as on a fresh mount. */
  function Reset(s: State): State {
    State(false, s.isListening, s.recognizerHeld, [], "", s.selectedRole, s.selectedLevel,
          0, false, [], TextMode, None, None)
  }

  /** One firing of the countdown interval, which exists while the session
      is started, not complete and has time left: the time left drops by
      one, floored at zero, and the countdown effect then completes the
      session if none is left. */
  function Ticked(s: State): State {
    if s.isStarted && !s.isComplete && s.timeLeft.Some? && s.timeLeft.value > 0 then
      var t := TickValue(s.timeLeft.value);
      s.(timeLeft := Some(t), isComplete := OutOfTime(Some(t)))
    else s
  }

  /** `seconds` firings of the interval with nothing else happening. */
  function Elapsed(s: State, seconds: nat): State {
    if seconds == 0 then s else Ticked(Elapsed(s, seconds - 1))
  }

  lemma StartKeepsConsistent(s: State, reply: Reply)
    requires Consistent(s) && !s.isStarted
    ensures Consistent(Start(s, reply))
  {
    if s.selectedRole != "" && s.selectedLevel != "" {
      var r := Start(s, reply);
      GeneratedCountForStart(reply);
      WelcomeMentions(s.selectedLevel, s.selectedRole, r.interviewQuestions);
      CandidateCountOfInterviewer(r.messages);
    }
  }

  /** Without a role or a level, starting changes nothing and sends nothing.
      With both, the prompt names them, and the session opens on its first
      question with a transcript of one interviewer message quoting that
      question and naming the question count, not complete, with the full
      budget of one minute per question left. */
  lemma StartOpensSession(s: State, reply: Reply)
    requires Consistent(s) && !s.isStarted
    ensures s.selectedRole == "" || s.selectedLevel == "" ==>
      Start(s, reply) == s && StartRequest(s) == None
    ensures s.selectedRole != "" && s.selectedLevel != "" ==>
      var r := Start(s, reply);
      var q := r.interviewQuestions;
      && r.isStarted && !r.isComplete && r.currentQuestion == 0
      && q == GenerateQuestions(reply, RequestedCount) && 1 <= |q| <= RequestedCount
      && |r.messages| == 1 && r.messages[0].origin == Interviewer
      && Contains(r.messages[0].content, q[0])
      && Contains(r.messages[0].content, NatToString(|q|))
      && r.timer == Some(Budget(|q|)) && r.timeLeft == r.timer
      && StartRequest(s).Some?
      && Contains(StartRequest(s).value.prompt, s.selectedRole)
      && Contains(StartRequest(s).value.prompt, s.selectedLevel)
  {
    if s.selectedRole != "" && s.selectedLevel != "" {
      var r := Start(s, reply);
      GeneratedCountForStart(reply);
      WelcomeMentions(s.selectedLevel, s.selectedRole, r.interviewQuestions);
      QuestionPromptMentions(s.selectedRole, s.selectedLevel, RequestedCount);
    }
  }

  lemma SendKeepsConsistent(s: State, reply: Reply, frame: Option<string>, posture: Reply)
    requires Consistent(s) && s.isStarted && !s.isComplete
    ensures Consistent(Send(s, reply, frame, posture))
  {
    if !AllWhitespace(s.currentInput) {
      var turn := TurnMessages(s.interviewQuestions, s.currentQuestion, s.currentInput, reply, frame, posture);
      TurnShape(s.interviewQuestions, s.currentQuestion, s.currentInput, reply, frame, posture);
      CandidateCountAppend(s.messages, turn);
      assert (s.messages + turn)[0] == s.messages[0];
    }
  }

  /** A blank or whitespace-only answer changes nothing and sends nothing;
      any other answer changes the transcript and sends a request. */
  lemma BlankAnswerIsIgnored(s: State, reply: Reply, frame: Option<string>, posture: Reply)
    requires s.currentQuestion < |s.interviewQuestions|
    ensures Send(s, reply, frame, posture) == s <==> Trim(s.currentInput) == []
    ensures SendRequests(s, reply, frame) == [] <==> Trim(s.currentInput) == []
  {
    TrimBlankIff(s.currentInput);
    if !AllWhitespace(s.currentInput) {
      TurnShape(s.interviewQuestions, s.currentQuestion, s.currentInput, reply, frame, posture);
      assert |Send(s, reply, frame, posture).messages| > |s.messages|;
    }
  }

  /** An answer is appended verbatim, followed by the interviewer's message,
      which relays the reply when there is one, and at most one posture
      message, present exactly when the reply, the frame and the posture
      reply all are, which quotes the posture reply. The session moves to the next question, or completes on
      the last one without moving; the question list and the clock are left
      as they are. */
  lemma AnswerMovesOn(s: State, reply: Reply, frame: Option<string>, posture: Reply)
    requires Consistent(s) && s.isStarted && !s.isComplete && !AllWhitespace(s.currentInput)
    ensures var r := Send(s, reply, frame, posture);
      var i := s.currentQuestion;
      var n := |s.messages|;
      && n + 2 <= |r.messages| <= n + 3
      && r.messages[..n] == s.messages
      && r.messages[n] == Message(Candidate, s.currentInput)
      && (forall k :: n < k < |r.messages| ==> r.messages[k].origin == Interviewer)
      && (reply.Answered? ==> r.messages[n + 1].content == reply.text)
      && (|r.messages| == n + 3 <==> reply.Answered? && frame.Some? && posture.Answered?)
      && (|r.messages| == n + 3 ==>
            r.messages[n + 2] == Message(Interviewer, PostureText(posture.text))
            && Contains(r.messages[n + 2].content, posture.text))
      && CandidateCount(r.messages) == CandidateCount(s.messages) + 1
      && r.currentInput == ""
      && (i < |s.interviewQuestions| - 1 ==> r.currentQuestion == i + 1 && !r.isComplete)
      && (i == |s.interviewQuestions| - 1 ==> r.currentQuestion == i && r.isComplete)
      && r.isStarted && r.interviewQuestions == s.interviewQuestions
      && r.timer == s.timer && r.timeLeft == s.timeLeft
  {
    var turn := TurnMessages(s.interviewQuestions, s.currentQuestion, s.currentInput, reply, frame, posture);
    TurnShape(s.interviewQuestions, s.currentQuestion, s.currentInput, reply, frame, posture);
    CandidateCountAppend(s.messages, turn);
  }

  /** When the feedback call fails before the last question, the
      interviewer's message asks the next question verbatim and the session
      moves on; when the final assessment fails, the completion text closes
      the transcript and the session completes. Nothing more is appended and
      only the first request is sent. */
  lemma FailedReplyFallsBack(s: State, frame: Option<string>, posture: Reply)
    requires Consistent(s) && s.isStarted && !s.isComplete && !AllWhitespace(s.currentInput)
    ensures var r := Send(s, Failed, frame, posture);
      var i := s.currentQuestion;
      var q := s.interviewQuestions;
      var n := |s.messages|;
      && |r.messages| == n + 2
      && (i < |q| - 1 ==> Contains(r.messages[n + 1].content, q[i + 1]) && r.currentQuestion == i + 1)
      && (i == |q| - 1 ==> r.messages[n + 1] == Message(Interviewer, CompletionText) && r.isComplete)
      && SendRequests(s, Failed, frame) == [PrimaryRequest(q, i, s.currentInput)]
  {
    var q := s.interviewQuestions;
    var i := s.currentQuestion;
    if i < |q| - 1 {
      FailedTurnAsksNextQuestion(q, i, s.currentInput, frame, posture);
    }
  }

  /** Posture analysis is best effort: it is requested only after the
      primary reply arrived and a frame was captured, and a failed posture
      call leaves the state as if no frame had been taken. */
  lemma PostureIsOptional(s: State, reply: Reply, frame: Option<string>, posture: Reply)
    requires s.currentQuestion < |s.interviewQuestions|
    ensures |SendRequests(s, reply, frame)| == 2
      <==> !AllWhitespace(s.currentInput) && reply.Answered? && frame.Some?
    ensures Send(s, reply, frame, Failed) == Send(s, reply, None, posture)
    ensures Send(s, Failed, frame, posture) == Send(s, Failed, None, posture)
  {
    PostureIsBestEffort(s.interviewQuestions, s.currentQuestion, s.currentInput, reply, frame);
  }

  lemma TickKeepsConsistent(s: State)
    requires Consistent(s)
    ensures Consistent(Ticked(s))
  {
  }

  /** While a session runs, `seconds` seconds count its time left down as
      the countdown does from that time left, and complete it exactly when
      they use the time up; nothing else changes. */
  lemma {:induction false} ElapsedCountsDown(s: State, seconds: nat)
    requires Consistent(s) && s.isStarted && !s.isComplete
    ensures Elapsed(s, seconds)
      == s.(timeLeft := Some(AfterTicks(s.timeLeft.value, seconds)),
            isComplete := seconds >= s.timeLeft.value)
  {
    if seconds > 0 {
      ElapsedCountsDown(s, seconds - 1);
      if seconds - 1 == 0 {
        assert AfterTicks(s.timeLeft.value, 0) == s.timeLeft.value;
      }
    }
  }

  /** A freshly started session is complete after exactly its budget of one
      minute per question, and not before. */
  lemma BudgetEndsSession(s: State, reply: Reply, seconds: nat)
    requires Consistent(s) && !s.isStarted && s.selectedRole != "" && s.selectedLevel != ""
    ensures var r := Start(s, reply);
      Elapsed(r, seconds).isComplete <==> seconds >= Budget(|r.interviewQuestions|)
  {
    var r := Start(s, reply);
    StartKeepsConsistent(s, reply);
    StartOpensSession(s, reply);
    ElapsedCountsDown(r, seconds);
  }

  lemma ResetKeepsConsistent(s: State)
    requires Consistent(s)
    ensures Consistent(Reset(s))
  {
  }

  /** The reset as written does not keep the invariant: every started
      session keeps its clock through it, which a setup screen never has. */
  lemma ResetAsWrittenKeepsClock(s: State)
    requires Consistent(s) && s.isStarted
    ensures ResetAsWritten(s).timer == s.timer != None
    ensures !Consistent(ResetAsWritten(s))
  {
  }

  /** As written, a session that ran out of time, reset and started again is
      complete from the start: the countdown effect of the new session's
      first commit still sees the zero the old one left. */
  lemma RestartAfterTimeoutCompletesAsWritten(s: State, reply: Reply)
    requires Consistent(s) && !s.isStarted && s.selectedRole != "" && s.selectedLevel != ""
    ensures var first := Start(s, reply);
      var expired := Elapsed(first, Budget(|first.interviewQuestions|));
      var again := Start(ResetAsWritten(expired), reply);
      again.isStarted && again.isComplete && CandidateCount(again.messages) == 0
  {
    var first := Start(s, reply);
    var budget := Budget(|first.interviewQuestions|);
    StartKeepsConsistent(s, reply);
    StartOpensSession(s, reply);
    ElapsedCountsDown(first, budget);
    BudgetLastsItsLength(|first.interviewQuestions|, budget);
    var again := Start(ResetAsWritten(Elapsed(first, budget)), reply);
    CandidateCountOfInterviewer(again.messages);
  }

  /** With the clock cleared on reset, starting again depends on nothing of
      the previous session but the role, the level and the recognizer, and
      the new session is not complete. */
  lemma RestartIsFresh(s: State, t: State, reply: Reply)
    requires s.selectedRole == t.selectedRole && s.selectedLevel == t.selectedLevel
    requires s.isListening == t.isListening && s.recognizerHeld == t.recognizerHeld
    ensures Start(Reset(s), reply) == Start(Reset(t), reply)
    ensures !Start(Reset(s), reply).isComplete
  {
  }

  /** With the clock cleared on reset, a session that ran out of time, reset
      and started again is the session a start from the reset setup screen
      opens, and it lasts its full budget. */
  lemma RestartAfterTimeoutRuns(s: State, reply: Reply, seconds: nat)
    requires Consistent(s) && !s.isStarted && s.selectedRole != "" && s.selectedLevel != ""
    ensures var first := Start(s, reply);
      var expired := Elapsed(first, Budget(|first.interviewQuestions|));
      var again := Start(Reset(expired), reply);
      && again == Start(Reset(s), reply)
      && again.isStarted && !again.isComplete
      && (Elapsed(again, seconds).isComplete <==> seconds >= Budget(|again.interviewQuestions|))
  {
    var first := Start(s, reply);
    var budget := Budget(|first.interviewQuestions|);
    StartKeepsConsistent(s, reply);
    StartOpensSession(s, reply);
    ElapsedCountsDown(first, budget);
    RestartIsFresh(Elapsed(first, budget), s, reply);
    ResetKeepsConsistent(s);
    BudgetEndsSession(Reset(s), reply, seconds);
  }

  /** The messages a turn of `sendMessage` appends, built as the handler
      builds them: the answer, then the reply or, if the call failed, the
      fallback text, then the posture feedback if a frame was analysed. */
  method ComposeTurn(questions: seq<string>, i: nat, answer: string,
                     reply: Reply, frame: Option<string>, posture: Reply)
    returns (turn: seq<Message>)
    requires i < |questions|
    ensures turn == TurnMessages(questions, i, answer, reply, frame, posture)
  {
    turn := [Message(Candidate, answer)];
    match reply {
      case Answered(text) =>
        turn := turn + [Message(Interviewer, text)];
        if frame.Some? && posture.Answered? {
          turn := turn + [Message(Interviewer, PostureText(posture.text))];
        }
      case Failed =>
        if !IsLastQuestion(questions, i) {
          turn := turn + [Message(Interviewer, NextQuestionFallback(questions[i + 1]))];
        } else {
          turn := turn + [Message(Interviewer, CompletionText)];
        }
    }
  }

  /** The requests a turn of `sendMessage` sends, in order: feedback on the
      answer or the final assessment, then the posture analysis of the frame
      once a reply arrived. */
  method ComposeRequests(questions: seq<string>, i: nat, answer: string,
                         reply: Reply, frame: Option<string>)
    returns (requests: seq<Request>)
    requires i < |questions|
    ensures requests == TurnRequests(questions, i, answer, reply, frame)
  {
    if !IsLastQuestion(questions, i) {
      requests := [TextRequest(FeedbackPrompt(questions[i], answer, questions[i + 1]))];
    } else {
      requests := [TextRequest(FinalAssessmentPrompt)];
    }
    if reply.Answered? && frame.Some? {
      requests := requests + [ImageRequest(PosturePrompt, frame.value)];
    }
  }

  class Session {
    var isStarted: bool
    var isListening: bool
    var recognizerHeld: bool
    var messages: seq<Message>
    var currentInput: string
    var selectedRole: string
    var selectedLevel: string
    var currentQuestion: nat
    var isComplete: bool
    var interviewQuestions: seq<string>
    var mode: Mode
    var timer: Option<int>
    var timeLeft: Option<int>

    function Snapshot(): State
      reads this
    {
      State(isStarted, isListening, recognizerHeld, messages, currentInput,
            selectedRole, selectedLevel, currentQuestion, isComplete,
            interviewQuestions, mode, timer, timeLeft)
    }

    ghost predicate Valid()
      reads this
    {
      Consistent(Snapshot())
    }

    constructor ()
      ensures Valid() && Snapshot() == Initial()
    {
      isStarted := false;
      isListening := false;
      recognizerHeld := false;
      messages := [];
      currentInput := "";
      selectedRole := "";
      selectedLevel := "";
      currentQuestion := 0;
      isComplete := false;
      interviewQuestions := [];
      mode := TextMode;
      timer := None;
      timeLeft := None;
    }

    /** The role selector. */
    method ChooseRole(role: string)
      requires Valid()
      modifies this
      ensures Valid() && Snapshot() == old(Snapshot()).(selectedRole := role)
    {
      selectedRole := role;
    }

    /** The level selector. */
    method ChooseLevel(level: string)
      requires Valid()
      modifies this
      ensures Valid() && Snapshot() == old(Snapshot()).(selectedLevel := level)
    {
      selectedLevel := level;
    }

    /** The Text and Voice buttons. */
    method ChooseMode(m: Mode)
      requires Valid()
      modifies this
      ensures Valid() && Snapshot() == old(Snapshot()).(mode := m)
    {
      mode := m;
    }

    /** Typing in the answer box. */
    method EditInput(text: string)
      requires Valid()
      modifies this
      ensures Valid() && Snapshot() == old(Snapshot()).(currentInput := text)
    {
      currentInput := text;
    }

    /** `startInterview`, offered on the setup screen. */
    method StartInterview(reply: Reply) returns (request: Option<Request>)
      requires Valid() && !isStarted
      modifies this
      ensures Valid()
      ensures Snapshot() == Start(old(Snapshot()), reply)
      ensures request == StartRequest(old(Snapshot()))
    {
      ghost var s := Snapshot();
      StartKeepsConsistent(s, reply);
      if selectedRole == "" || selectedLevel == "" {
        return None;
      }
      OpenSession(reply);
      ShowSession();
      request := Some(TextRequest(QuestionPrompt(selectedRole, selectedLevel, RequestedCount)));
    }

    /** The state updates `startInterview` makes. */
    method OpenSession(reply: Reply)
      requires selectedRole != "" && selectedLevel != ""
      modifies this
      ensures Snapshot() == Opened(old(Snapshot()), reply)
    {
      var questions := GenerateQuestions(reply, RequestedCount);
      isStarted := true;
      interviewQuestions := questions;
      messages := [Message(Interviewer, WelcomeText(selectedLevel, selectedRole, questions))];
    }

    /** The setup and countdown effects of the commit that shows a session. */
    method ShowSession()
      modifies this
      ensures Snapshot() == Shown(old(Snapshot()))
    {
      isComplete := isComplete || OutOfTime(timeLeft);
      timer := Some(Budget(|interviewQuestions|));
      timeLeft := Some(Budget(|interviewQuestions|));
    }

    /** `sendMessage`, offered while the session runs. */
    method SendMessage(reply: Reply, frame: Option<string>, posture: Reply)
      returns (requests: seq<Request>)
      requires Valid() && isStarted && !isComplete
      modifies this
      ensures Valid()
      ensures Snapshot() == Send(old(Snapshot()), reply, frame, posture)
      ensures requests == SendRequests(old(Snapshot()), reply, frame)
    {
      ghost var s := Snapshot();
      if AllWhitespace(currentInput) {
        return [];
      }
      var answer := currentInput;
      var i := currentQuestion;
      var turn := ComposeTurn(interviewQuestions, i, answer, reply, frame, posture);
      RecordTurn(turn);
      SendKeepsConsistent(s, reply, frame, posture);
      requests := ComposeRequests(interviewQuestions, i, answer, reply, frame);
    }

    /** The state updates of an answered turn. */
    method RecordTurn(turn: seq<Message>)
      requires currentQuestion < |interviewQuestions|
      modifies this
      ensures Snapshot() == Advanced(old(Snapshot()), turn)
    {
      messages := messages + turn;
      currentInput := "";
      if !IsLastQuestion(interviewQuestions, currentQuestion) {
        currentQuestion := currentQuestion + 1;
      } else {
        isComplete := true;
      }
    }

    /** The Finish Interview button. */
    method Finish()
      requires Valid() && isStarted
      modifies this
      ensures Valid() && Snapshot() == old(Snapshot()).(isComplete := true)
    {
      isComplete := true;
    }

    /** `resetInterview`, with the clock cleared. */
    method ResetInterview()
      requires Valid()
      modifies this
      ensures Valid() && Snapshot() == Reset(old(Snapshot()))
    {
      ghost var s := Snapshot();
      ResetKeepsConsistent(s);
      // The updates are batched into one render.
      isStarted, messages, currentQuestion, isComplete := false, [], 0, false;
      currentInput, interviewQuestions, mode := "", [], TextMode;
      timer, timeLeft := None, None;
    }

    /** One firing of the countdown interval. */
    method Tick()
      requires Valid()
      modifies this
      ensures Valid() && Snapshot() == Ticked(old(Snapshot()))
    {
      if isStarted && !isComplete && timeLeft.Some? && timeLeft.value > 0 {
        timeLeft := Some(TickValue(timeLeft.value));
        isComplete := OutOfTime(timeLeft);
      }
    }

    /** `seconds` firings of the countdown interval. */
    method Elapse(seconds: nat)
      requires Valid()
      modifies this
      ensures Valid() && Snapshot() == Elapsed(old(Snapshot()), seconds)
    {
      var k := 0;
      while k < seconds
        invariant k <= seconds
        invariant Valid() && Snapshot() == Elapsed(old(Snapshot()), k)
      {
        Tick();
        k := k + 1;
      }
    }

    /** `handleVoiceInput`: with no speech recognition in the browser it
        alerts; while listening it does nothing; otherwise it launches a
        recognizer. Launching changes no state: `RecognitionStarted` does. */
    method HandleVoiceInput(supported: bool) returns (alerted: bool, launched: bool)
      ensures alerted == !supported
      ensures launched == (supported && !isListening)
    {
      if !supported {
        return true, false;
      }
      if isListening {
        return false, false;
      }
      return false, true;
    }

    /** The recognizer's `onstart`. */
    method RecognitionStarted()
      requires Valid()
      modifies this
      ensures Valid() && Snapshot() == old(Snapshot()).(isListening := true, recognizerHeld := true)
    {
      isListening := true;
      recognizerHeld := true;
    }

    /** The recognizer's `onresult`: the transcript replaces the input and
        nothing is sent. */
    method RecognitionResult(transcript: string)
      requires Valid()
      modifies this
      ensures Valid()
      ensures Snapshot() == old(Snapshot()).(currentInput := transcript, isListening := false)
    {
      currentInput := transcript;
      isListening := false;
    }

    /** The recognizer's `onerror`: every error but `"aborted"` is alerted. */
    method RecognitionError(error: string) returns (alerted: bool)
      requires Valid()
      modifies this
      ensures Valid() && Snapshot() == old(Snapshot()).(isListening := false)
      ensures alerted == (error != "aborted")
    {
      alerted := error != "aborted";
      isListening := false;
    }

    /** The recognizer's `onend`. */
    method RecognitionEnded()
      requires Valid()
      modifies this
      ensures Valid()
      ensures Snapshot() == old(Snapshot()).(isListening := false, recognizerHeld := false)
    {
      isListening := false;
      recognizerHeld := false;
    }

    /** `stopListening`: aborts the held recognizer, if any; the abort comes
        back as the error and end events above. */
    method StopListening() returns (aborted: bool)
      ensures aborted == recognizerHeld
    {
      aborted := recognizerHeld;
    }
  }

  /** Stopping a recognizer that listens aborts it without an alert, and
      afterwards nothing listens and no recognizer is held. */
  method StopIsSilent(s: Session) returns (aborted: bool, alerted: bool)
    requires s.Valid() && s.isListening
    modifies s
    ensures s.Valid() && aborted && !alerted
    ensures s.Snapshot() == old(s.Snapshot()).(isListening := false, recognizerHeld := false)
  {
    aborted := s.StopListening();
    alerted := s.RecognitionError("aborted");
    s.RecognitionEnded();
  }

  /** Answering every question of a fresh session in turn, whatever the
      model, the camera and the posture analysis do, completes it on the
      last answer: the transcript grows from the greeting to one candidate
      message per question (two messages per question when no frame is
      captured), the session stays on the last question, and the question
      list and the clock are untouched. */
  method AnswerEveryQuestion(s: Session, answers: seq<string>, replies: seq<Reply>,
                             frames: seq<Option<string>>, postures: seq<Reply>)
    requires s.Valid() && s.isStarted && !s.isComplete && s.currentQuestion == 0
    requires |answers| == |replies| == |frames| == |postures| == |s.interviewQuestions|
    requires forall k :: 0 <= k < |answers| ==> !AllWhitespace(answers[k])
    modifies s
    ensures s.Valid() && s.isStarted && s.isComplete
    ensures s.currentQuestion == |s.interviewQuestions| - 1
    ensures CandidateCount(s.messages) == |s.interviewQuestions|
    ensures old(s.messages) <= s.messages
    ensures (forall k :: 0 <= k < |frames| ==> frames[k] == None) ==>
      |s.messages| == |old(s.messages)| + 2 * |answers|
    ensures s.interviewQuestions == old(s.interviewQuestions)
    ensures s.timeLeft == old(s.timeLeft)
  {
    var k := 0;
    while k < |answers|
      invariant k <= |answers|
      invariant s.Valid() && s.isStarted
      invariant CandidateCount(s.messages) == k
      invariant k < |answers| ==> !s.isComplete && s.currentQuestion == k
      invariant k == |answers| ==> s.isComplete && s.currentQuestion == k - 1
      invariant old(s.messages) <= s.messages
      invariant (forall j :: 0 <= j < |frames| ==> frames[j] == None) ==>
        |s.messages| == |old(s.messages)| + 2 * k
      invariant s.interviewQuestions == old(s.interviewQuestions)
      invariant s.timeLeft == old(s.timeLeft)
    {
      s.EditInput(answers[k]);
      ghost var before := s.Snapshot();
      var _ := s.SendMessage(replies[k], frames[k], postures[k]);
      AnswerMovesOn(before, replies[k], frames[k], postures[k]);
      k := k + 1;
    }
  }
}
