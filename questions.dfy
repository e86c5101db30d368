/** Question generation (`generateInterviewQuestions`): the prompt sent to the
    language model, the parsing of its reply into question lines, and the
    fixed fallback list. The reply itself is an input: whatever text the
    service returned, or a failure. */
module Questions {
  import opened Outcomes
  import opened Text

  /** The number of questions `startInterview` asks for. */
  const RequestedCount: nat := 6

  /** The questions used when the call fails or its reply holds no
      question line. Not all of them contain a question mark. */
  const FallbackQuestions: seq<string> := [
    "Tell me about yourself and your background.",
    "Why are you interested in this position?",
    "What are your greatest strengths?",
    "Describe a challenging situation you faced and how you handled it.",
    "Where do you see yourself in 5 years?",
    "Do you have any questions for me?"
  ]

  /** The prompt asking for `count` questions for a `level` level `role`
      position, one per line. */
  function QuestionPrompt(role: string, level: string, count: nat): string {
    Concat(QuestionPromptPieces(role, level, count))
  }

  /** The template of the question prompt, piece by piece. */
  function QuestionPromptPieces(role: string, level: string, count: nat): (p: seq<string>)
    ensures |p| == 12 && p[1] == NatToString(count) && p[3] == level && p[5] == role
  {
    [ QuestionPromptOpening, NatToString(count), " interview questions for a ", level, " level ",
      role, QuestionPromptGuidelines, level, QuestionPromptLevelNotes, role,
      "\nExperience Level: ", level ]
  }

  const QuestionPromptOpening: string :=
    "You are an experienced HR interviewer. Generate exactly "

  const QuestionPromptGuidelines: string :=
    " position. \n\n"
    + "Make the questions:\n"
    + "- Realistic and relevant to the role\n"
    + "- Appropriate for the experience level\n"
    + "- Professional and clear\n"
    + "- Varied in type (behavioral, technical, situational)\n\n"
    + "For "

  const QuestionPromptLevelNotes: string :=
    " level positions:\n"
    + "- Entry Level: Focus on basic knowledge, learning ability, motivation, and potential\n"
    + "- Mid Level: Include technical skills, problem-solving, past experience, and teamwork\n"
    + "- Senior Level: Cover leadership, architecture, mentoring, and strategic thinking  \n"
    + "- Executive Level: Focus on vision, leadership, business impact, and strategic planning\n\n"
    + "Return ONLY the questions, each on a new line, without numbers or bullet points.\n\n"
    + "Role: "

  /** The prompt names the role, the level and the number of questions. */
  lemma QuestionPromptMentions(role: string, level: string, count: nat)
    ensures Contains(QuestionPrompt(role, level, count), role)
    ensures Contains(QuestionPrompt(role, level, count), level)
    ensures Contains(QuestionPrompt(role, level, count), NatToString(count))
  {
    var pieces := QuestionPromptPieces(role, level, count);
    ConcatContains(pieces, 1);
    ConcatContains(pieces, 3);
    ConcatContains(pieces, 5);
  }

  /** A trimmed reply line kept as a question: non-empty, with a '?'. */
  predicate IsQuestionLine(q: string) {
    |q| > 0 && '?' in q
  }

  /** `lines.map(q => q.trim())`. */
  function TrimAll(lines: seq<string>): (r: seq<string>)
    ensures |r| == |lines|
    ensures forall i :: 0 <= i < |lines| ==> r[i] == Trim(lines[i])
  {
    if lines == [] then [] else [Trim(lines[0])] + TrimAll(lines[1..])
  }

  /** `lines.filter(q => q.length > 0 && q.includes('?'))`. */
  function KeepQuestions(lines: seq<string>): (r: seq<string>)
    ensures |r| <= |lines|
  {
    if lines == [] then []
    else if IsQuestionLine(lines[0]) then [lines[0]] + KeepQuestions(lines[1..])
    else KeepQuestions(lines[1..])
  }

  /** A line is kept exactly when it is a question line. */
  lemma {:induction false} KeepQuestionsMembers(lines: seq<string>)
    ensures forall q :: q in KeepQuestions(lines) <==> q in lines && IsQuestionLine(q)
  {
    if lines != [] {
      KeepQuestionsMembers(lines[1..]);
      assert lines == [lines[0]] + lines[1..];
    }
  }

  /** `s.slice(0, n)` for a non-negative `n`. */
  function Take<T>(s: seq<T>, n: nat): seq<T> {
    if |s| <= n then s else s[..n]
  }

  /** The trimmed question lines of `reply`, in order. */
  function QuestionLines(reply: string): seq<string> {
    KeepQuestions(TrimAll(Split(reply, '\n')))
  }

  /** The parse of the reply: split on line feeds, trim, keep question
      lines, keep at most `limit` of them. */
  function ParseQuestions(reply: string, limit: nat): (r: seq<string>)
    ensures |r| <= limit
  {
    Take(QuestionLines(reply), limit)
  }

  /** Every parsed item is a trimmed question line taken from the reply, and
      there are at most `limit` of them. */
  lemma ParsedAreQuestions(reply: string, limit: nat)
    ensures var r := ParseQuestions(reply, limit);
      && |r| <= limit
      && forall i :: 0 <= i < |r| ==>
           IsQuestionLine(r[i]) && IsTrimmed(r[i]) && r[i] in TrimAll(Split(reply, '\n'))
  {
    var trimmed := TrimAll(Split(reply, '\n'));
    var r := ParseQuestions(reply, limit);
    KeepQuestionsMembers(trimmed);
    forall i | 0 <= i < |r|
      ensures IsQuestionLine(r[i]) && IsTrimmed(r[i]) && r[i] in trimmed
    {
      assert r[i] in QuestionLines(reply);
      var j :| 0 <= j < |trimmed| && trimmed[j] == r[i];
      assert r[i] == Trim(Split(reply, '\n')[j]);
    }
  }

  /** Nothing is lost below the limit: the parse has `min(limit, k)` items
      for `k` question lines, and when `k <= limit` every reply line whose
      trimmed form is a question line is among them. */
  lemma ParsedComplete(reply: string, limit: nat)
    ensures var k := |QuestionLines(reply)|;
      |ParseQuestions(reply, limit)| == if k <= limit then k else limit
    ensures |QuestionLines(reply)| <= limit ==>
      forall line :: line in Split(reply, '\n') && IsQuestionLine(Trim(line)) ==>
        Trim(line) in ParseQuestions(reply, limit)
  {
    var lines := Split(reply, '\n');
    if |QuestionLines(reply)| <= limit {
      forall line | line in lines && IsQuestionLine(Trim(line))
        ensures Trim(line) in ParseQuestions(reply, limit)
      {
        var j :| 0 <= j < |lines| && lines[j] == line;
        KeptLine(lines, j, limit);
      }
    }
  }

  lemma KeptLine(lines: seq<string>, j: nat, limit: nat)
    requires j < |lines| && IsQuestionLine(Trim(lines[j]))
    requires |KeepQuestions(TrimAll(lines))| <= limit
    ensures Trim(lines[j]) in Take(KeepQuestions(TrimAll(lines)), limit)
  {
    KeepQuestionsMembers(TrimAll(lines));
    assert TrimAll(lines)[j] == Trim(lines[j]);
  }

  /** A direct, line-at-a-time reading of the same rule: walk the raw
      lines, keep each one whose trimmed form is a question line, stop after
      `limit` kept lines. */
  function ScanQuestions(lines: seq<string>, limit: nat): seq<string> {
    if lines == [] || limit == 0 then []
    else
      var q := Trim(lines[0]);
      if IsQuestionLine(q) then [q] + ScanQuestions(lines[1..], limit - 1)
      else ScanQuestions(lines[1..], limit)
  }

  lemma KeepQuestionsCons(q: string, rest: seq<string>)
    ensures KeepQuestions([q] + rest)
      == if IsQuestionLine(q) then [q] + KeepQuestions(rest) else KeepQuestions(rest)
  {
    assert ([q] + rest)[1..] == rest;
  }

  /** `filter` keeps the order and the repeats of the lines it keeps: the
      kept lines of two runs of lines are those of the first, then those of
      the second. */
  lemma {:induction false} KeepQuestionsAppend(a: seq<string>, b: seq<string>)
    ensures KeepQuestions(a + b) == KeepQuestions(a) + KeepQuestions(b)
  {
    if a == [] {
      assert a + b == b;
    } else {
      KeepQuestionsAppend(a[1..], b);
      KeepAppendStep(a[0], a[1..], b);
      assert a == [a[0]] + a[1..];
    }
  }

  lemma KeepAppendStep(x: string, rest: seq<string>, b: seq<string>)
    requires KeepQuestions(rest + b) == KeepQuestions(rest) + KeepQuestions(b)
    ensures KeepQuestions([x] + rest + b) == KeepQuestions([x] + rest) + KeepQuestions(b)
  {
    assert [x] + rest + b == [x] + (rest + b);
    KeepQuestionsCons(x, rest + b);
    KeepQuestionsCons(x, rest);
  }

  /** `filter` on one line keeps it exactly when it is a question line. */
  lemma KeepQuestionsSingle(q: string)
    ensures KeepQuestions([q]) == if IsQuestionLine(q) then [q] else []
  {
    KeepQuestionsCons(q, []);
    assert [q] + [] == [q];
  }

  lemma TakeCons<T>(x: T, rest: seq<T>, n: nat)
    requires n > 0
    ensures Take([x] + rest, n) == [x] + Take(rest, n - 1)
  {
    if |rest| > n - 1 {
      assert ([x] + rest)[..n] == [x] + rest[..n - 1];
    }
  }

  /** One step of the pipeline on trimmed lines `[q] + rest`. */
  lemma PipelineStep(q: string, rest: seq<string>, limit: nat)
    requires limit > 0
    ensures Take(KeepQuestions([q] + rest), limit)
      == if IsQuestionLine(q) then [q] + Take(KeepQuestions(rest), limit - 1)
         else Take(KeepQuestions(rest), limit)
  {
    KeepQuestionsCons(q, rest);
    if IsQuestionLine(q) {
      TakeCons(q, KeepQuestions(rest), limit);
    }
  }

  lemma {:induction false} PipelineIsScan(lines: seq<string>, limit: nat)
    ensures Take(KeepQuestions(TrimAll(lines)), limit) == ScanQuestions(lines, limit)
  {
    if lines != [] && limit != 0 {
      var q := Trim(lines[0]);
      TrimAllCons(lines);
      ScanCons(lines, limit);
      PipelineStep(q, TrimAll(lines[1..]), limit);
      if IsQuestionLine(q) {
        PipelineIsScan(lines[1..], limit - 1);
      } else {
        PipelineIsScan(lines[1..], limit);
      }
    }
  }

  lemma TrimAllCons(lines: seq<string>)
    requires lines != []
    ensures TrimAll(lines) == [Trim(lines[0])] + TrimAll(lines[1..])
  {
  }

  lemma ScanCons(lines: seq<string>, limit: nat)
    requires lines != [] && limit > 0
    ensures ScanQuestions(lines, limit)
      == if IsQuestionLine(Trim(lines[0]))
         then [Trim(lines[0])] + ScanQuestions(lines[1..], limit - 1)
         else ScanQuestions(lines[1..], limit)
  {
  }

  /** The parse pipeline and the line-at-a-time reading agree on every
      reply. */
  lemma ParseIsScan(reply: string, limit: nat)
    ensures ParseQuestions(reply, limit) == ScanQuestions(Split(reply, '\n'), limit)
  {
    PipelineIsScan(Split(reply, '\n'), limit);
  }

  /** The first fallback question has no question mark, so no parse of any
      reply equals the fallback list. */
  lemma ParseIsNeverFallback(reply: string, limit: nat)
    ensures ParseQuestions(reply, limit) != FallbackQuestions
  {
    var r := ParseQuestions(reply, limit);
    assert '?' !in FallbackQuestions[0];
    if |r| > 0 {
      ParsedAreQuestions(reply, limit);
      assert IsQuestionLine(r[0]);
    }
  }

  /** `generateInterviewQuestions`: the parsed questions when there is at
      least one, the fallback list otherwise or when the call failed. */
  function GenerateQuestions(reply: Reply, limit: nat): (r: seq<string>)
    ensures |r| >= 1
    ensures forall i :: 0 <= i < |r| ==> |r[i]| > 0
  {
    match reply
    case Failed => FallbackQuestions
    case Answered(text) =>
      var parsed := ParseQuestions(text, limit);
      ParsedAreQuestions(text, limit);
      if |parsed| >= 3 then parsed
      else if |parsed| > 0 then parsed
      else FallbackQuestions
  }

  /** The fallback list is used exactly when the call failed or the reply
      held no question line; otherwise the result is the parse, one to
      `limit` trimmed question lines of the reply. */
  lemma GeneratedFallbackIff(reply: Reply, limit: nat)
    ensures var r := GenerateQuestions(reply, limit);
      r == FallbackQuestions <==> reply.Failed? || ParseQuestions(reply.text, limit) == []
    ensures var r := GenerateQuestions(reply, limit);
      r != FallbackQuestions ==>
        && reply.Answered?
        && r == ParseQuestions(reply.text, limit)
        && 1 <= |r| <= limit
        && forall i :: 0 <= i < |r| ==> IsQuestionLine(r[i]) && IsTrimmed(r[i])
  {
    if reply.Answered? {
      ParseIsNeverFallback(reply.text, limit);
      ParsedAreQuestions(reply.text, limit);
    }
  }

  /** With the count `startInterview` asks for, a session gets between one
      and six questions. */
  lemma GeneratedCountForStart(reply: Reply)
    ensures 1 <= |GenerateQuestions(reply, RequestedCount)| <= 6
  {
    GeneratedFallbackIff(reply, RequestedCount);
  }

  /** A reply of one line whose trimmed form is a question line parses to
      that trimmed line. */
  lemma OneLineReply(reply: string, limit: nat)
    requires limit > 0 && '\n' !in reply && IsQuestionLine(Trim(reply))
    ensures ParseQuestions(reply, limit) == [Trim(reply)]
  {
    SplitWithoutSeparator(reply, '\n');
    ParseIsScan(reply, limit);
    assert [reply][1..] == [];
  }

  /** A reply with one or two question lines yields exactly those lines,
      trimmed and in order, not the fallback list. */
  lemma FewQuestionLinesKept(reply: string)
    requires 1 <= |QuestionLines(reply)| <= 2
    ensures GenerateQuestions(Answered(reply), RequestedCount) == QuestionLines(reply)
  {
    GeneratedFallbackIff(Answered(reply), RequestedCount);
  }

  /** An example: the reply "Why?" yields that one question, so sessions of
      fewer than three questions occur. */
  lemma SingleQuestionReplyIsKept()
    ensures GenerateQuestions(Answered("Why?"), RequestedCount) == ["Why?"]
  {
    TrimOfTrimmed("Why?");
    OneLineReply("Why?", RequestedCount);
  }
}
