/** The texts the interview session writes: the transcript's messages, the
    prompts it sends to the language model on each turn, and the fixed
    fallback texts that replace a failed reply. A turn is described by
    functions of the model's outcomes, which the session applies. */
module Composer {
  import opened Outcomes
  import opened Text

  /** Who wrote a message: the candidate (`"user"`) or the interviewer
      (`"bot"`). */
  datatype Origin = Candidate | Interviewer

  /** One transcript entry. Its id and timestamp are not modelled. */
  datatype Message = Message(origin: Origin, content: string)

  /** The first interviewer message of a session. */
  function WelcomeText(level: string, role: string, questions: seq<string>): string
    requires |questions| >= 1
  {
    Concat(WelcomePieces(level, role, questions))
  }

  function WelcomePieces(level: string, role: string, questions: seq<string>): (p: seq<string>)
    requires |questions| >= 1
    ensures |p| == 8 && p[1] == level && p[3] == role
    ensures p[5] == NatToString(|questions|) && p[7] == questions[0]
  {
    [ WelcomeOpening, level, " level interview for a ", role, " position. I'll ask you ",
      NatToString(|questions|), WelcomeClosing, questions[0] ]
  }

  const WelcomeOpening: string :=
    "Hello! I'm your AI interviewer. Today we'll be conducting a "

  const WelcomeClosing: string :=
    " questions tailored specifically for this role. Take your time with each response. "
    + "Let's begin with the first question: "

  /** The greeting names the level, the role, the number of questions and,
      verbatim, the first question. */
  lemma WelcomeMentions(level: string, role: string, questions: seq<string>)
    requires |questions| >= 1
    ensures var w := WelcomeText(level, role, questions);
      && Contains(w, questions[0]) && Contains(w, NatToString(|questions|))
      && Contains(w, level) && Contains(w, role)
  {
    var pieces := WelcomePieces(level, role, questions);
    ConcatContains(pieces, 1);
    ConcatContains(pieces, 3);
    ConcatContains(pieces, 5);
    ConcatContains(pieces, 7);
  }

  /** The prompt for feedback on `answer` to `question`, followed by the
      next question. */
  function FeedbackPrompt(question: string, answer: string, next: string): string {
    Concat(FeedbackPieces(question, answer, next))
  }

  function FeedbackPieces(question: string, answer: string, next: string): (p: seq<string>)
    ensures |p| == 7 && p[1] == question && p[3] == answer && p[5] == next
  {
    [ FeedbackOpening, question, "\": \"", answer, FeedbackNextCue, next, "\"" ]
  }

  const FeedbackOpening: string :=
    "As an experienced interviewer, provide brief constructive feedback (2-3 sentences) "
    + "on this candidate's response to the question \""

  const FeedbackNextCue: string := "\". Then ask the next question: \""

  /** The feedback prompt quotes the question, the answer and the next
      question. */
  lemma FeedbackPromptMentions(question: string, answer: string, next: string)
    ensures var p := FeedbackPrompt(question, answer, next);
      Contains(p, question) && Contains(p, answer) && Contains(p, next)
  {
    var pieces := FeedbackPieces(question, answer, next);
    ConcatContains(pieces, 1);
    ConcatContains(pieces, 3);
    ConcatContains(pieces, 5);
  }

  /** The prompt for the final assessment. It is fixed: no answer of the
      candidate is part of it. */
  const FinalAssessmentPrompt: string :=
    "As an experienced interviewer, provide a brief final assessment (3-4 sentences) of this "
    + "candidate's overall interview performance based on their responses. Be constructive "
    + "and encouraging."

  /** The interviewer text that replaces a failed feedback reply. */
  function NextQuestionFallback(next: string): string {
    NextQuestionLead + next
  }

  const NextQuestionLead: string :=
    "Thank you for that response. Let me ask you the next question: "

  /** The interviewer text that replaces a failed final assessment. */
  const CompletionText: string :=
    "Thank you for completing the interview! That concludes our session. You've done well."

  /** The fixed prompt sent with a camera frame. */
  const PosturePrompt: string :=
    "Analyze this candidate's posture and body language in a mock interview setting. Provide "
    + "2-3 brief, constructive tips for improvement. Focus on professional presentation."

  /** The heading of a posture message, character for character as the
      source file holds it (a camera emoji stored as four Latin-1 and
      Windows-1252 characters). */
  const PostureHeading: string :=
    "\U{00F0}\U{0178}\U{201C}\U{00B8} **Posture & Body Language Feedback:**\n"

  function PostureText(feedback: string): string {
    PostureHeading + feedback
  }

  /** Whether the answer to question `index` is the last one. */
  predicate IsLastQuestion(questions: seq<string>, index: nat) {
    !(index < |questions| - 1)
  }

  /** The request a turn sends first: feedback plus the next question, or
      the final assessment on the last question. */
  function PrimaryRequest(questions: seq<string>, index: nat, answer: string): Request
    requires index < |questions|
  {
    if !IsLastQuestion(questions, index)
    then TextRequest(FeedbackPrompt(questions[index], answer, questions[index + 1]))
    else TextRequest(FinalAssessmentPrompt)
  }

  /** The interviewer text of a turn: the reply, or the fallback text. */
  function PrimaryText(questions: seq<string>, index: nat, reply: Reply): string
    requires index < |questions|
  {
    match reply
    case Answered(text) => text
    case Failed =>
      if !IsLastQuestion(questions, index) then NextQuestionFallback(questions[index + 1])
      else CompletionText
  }

  /** The posture message, present only when the primary reply arrived, a
      frame was captured and the posture request succeeded. */
  function PostureMessages(reply: Reply, frame: Option<string>, posture: Reply): seq<Message> {
    if reply.Answered? && frame.Some? && posture.Answered?
    then [Message(Interviewer, PostureText(posture.text))]
    else []
  }

  /** The requests of one turn, in the order they are issued. */
  function TurnRequests(questions: seq<string>, index: nat, answer: string,
                        reply: Reply, frame: Option<string>): seq<Request>
    requires index < |questions|
  {
    [PrimaryRequest(questions, index, answer)]
    + if reply.Answered? && frame.Some? then [ImageRequest(PosturePrompt, frame.value)] else []
  }

  /** The messages one turn appends, in order. */
  function TurnMessages(questions: seq<string>, index: nat, answer: string,
                        reply: Reply, frame: Option<string>, posture: Reply): seq<Message>
    requires index < |questions|
  {
    [Message(Candidate, answer), Message(Interviewer, PrimaryText(questions, index, reply))]
    + PostureMessages(reply, frame, posture)
  }

  /** The number of candidate messages in a transcript. */
  function CandidateCount(messages: seq<Message>): nat {
    if messages == [] then 0
    else (if messages[0].origin == Candidate then 1 else 0) + CandidateCount(messages[1..])
  }

  lemma {:induction false} CandidateCountAppend(a: seq<Message>, b: seq<Message>)
    ensures CandidateCount(a + b) == CandidateCount(a) + CandidateCount(b)
  {
    if a == [] {
      assert a + b == b;
    } else {
      CandidateCountAppend(a[1..], b);
      assert (a + b)[1..] == a[1..] + b;
    }
  }

  /** A transcript of interviewer messages only has no candidate message. */
  lemma {:induction false} CandidateCountOfInterviewer(ms: seq<Message>)
    requires forall k :: 0 <= k < |ms| ==> ms[k].origin == Interviewer
    ensures CandidateCount(ms) == 0
  {
    if ms != [] {
      CandidateCountOfInterviewer(ms[1..]);
    }
  }

  /** A turn appends the candidate's answer verbatim, then one interviewer
      message, then at most one posture message, which is there exactly when
      the reply, the frame and the posture reply are all present and then
      quotes the posture reply under its heading: one candidate message per
      turn. */
  lemma TurnShape(questions: seq<string>, index: nat, answer: string,
                  reply: Reply, frame: Option<string>, posture: Reply)
    requires index < |questions|
    ensures var ms := TurnMessages(questions, index, answer, reply, frame, posture);
      && 2 <= |ms| <= 3
      && ms[0] == Message(Candidate, answer)
      && (forall k :: 1 <= k < |ms| ==> ms[k].origin == Interviewer)
      && (|ms| == 3 <==> reply.Answered? && frame.Some? && posture.Answered?)
      && (|ms| == 3 ==> ms[2] == Message(Interviewer, PostureText(posture.text))
                        && Contains(ms[2].content, posture.text))
      && CandidateCount(ms) == 1
  {
    var ms := TurnMessages(questions, index, answer, reply, frame, posture);
    if |ms| == 3 {
      PostureTextQuotes(posture.text);
    }
    CandidateCountAppend([ms[0]], ms[1..]);
    assert [ms[0]] + ms[1..] == ms;
    CandidateCountOfInterviewer(ms[1..]);
  }

  /** The posture message quotes the vision reply after its heading. */
  lemma PostureTextQuotes(feedback: string)
    ensures Contains(PostureText(feedback), feedback)
  {
    ContainsBehind(PostureHeading, feedback, feedback) by {
      ContainsHead(feedback, "");
      assert feedback + "" == feedback;
    }
  }

  /** The interviewer relays a reply that arrived unchanged. */
  lemma AnsweredTurnRelaysReply(questions: seq<string>, index: nat, answer: string,
                                reply: Reply, frame: Option<string>, posture: Reply)
    requires index < |questions| && reply.Answered?
    ensures TurnMessages(questions, index, answer, reply, frame, posture)[1]
      == Message(Interviewer, reply.text)
  {
  }

  /** When the feedback reply fails before the last question, the fallback
      text asks the next question verbatim, and nothing else is appended. */
  lemma FailedTurnAsksNextQuestion(questions: seq<string>, index: nat, answer: string,
                                   frame: Option<string>, posture: Reply)
    requires index < |questions| - 1
    ensures var ms := TurnMessages(questions, index, answer, Failed, frame, posture);
      |ms| == 2 && Contains(ms[1].content, questions[index + 1])
  {
    var next := questions[index + 1];
    ContainsBehind(NextQuestionLead, next, next) by {
      ContainsHead(next, "");
      assert next + "" == next;
    }
  }

  /** When the final assessment fails, the fixed completion text is
      appended. */
  lemma FailedFinalTurnCompletes(questions: seq<string>, answer: string,
                                 frame: Option<string>, posture: Reply)
    requires |questions| >= 1
    ensures var ms := TurnMessages(questions, |questions| - 1, answer, Failed, frame, posture);
      ms == [Message(Candidate, answer), Message(Interviewer, CompletionText)]
  {
  }

  /** Posture analysis is requested only after a reply arrived and a frame
      was captured; its failure appends nothing, exactly as if no frame had
      been taken. */
  lemma PostureIsBestEffort(questions: seq<string>, index: nat, answer: string,
                            reply: Reply, frame: Option<string>)
    requires index < |questions|
    ensures |TurnRequests(questions, index, answer, reply, frame)| == 2
      <==> reply.Answered? && frame.Some?
    ensures TurnMessages(questions, index, answer, reply, frame, Failed)
      == TurnMessages(questions, index, answer, reply, None, Failed)
      == TurnMessages(questions, index, answer, reply, None, Answered(""))
  {
  }

  /** Before the last question the turn's first request quotes the question,
      the answer and the next question; on the last question it is the
      fixed final-assessment prompt, the same whatever the answer. */
  lemma PrimaryRequestContents(questions: seq<string>, index: nat, answer: string, other: string)
    requires index < |questions|
    ensures !IsLastQuestion(questions, index) ==>
      var p := PrimaryRequest(questions, index, answer).prompt;
      Contains(p, questions[index]) && Contains(p, answer) && Contains(p, questions[index + 1])
    ensures IsLastQuestion(questions, index) ==>
      PrimaryRequest(questions, index, answer) == PrimaryRequest(questions, index, other)
        == TextRequest(FinalAssessmentPrompt)
  {
    if !IsLastQuestion(questions, index) {
      FeedbackPromptMentions(questions[index], answer, questions[index + 1]);
    }
  }
}
