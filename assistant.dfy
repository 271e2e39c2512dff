/** The chat assistant: a session's message list, the prompt built from its last six
    messages for each new question, and the plain-text transcript export. The language
    model itself is a function parameter from prompt to outcome. */
module Assistant {
  import opened Text

  datatype Message = Message(role: string, content: string)

  /** What the model call gives back: the reply text, or the text of the exception it raised. */
  datatype LlmOutcome = Answer(content: string) | Failure(error: string)

  const KWindow := 6

  const ClipLength := 800

  const NoHistory := "(no prior context yet)"

  const SystemText := "You are a concise, helpful AI assistant. " + "Use the recent chat history for continuity. " +
    "If you aren't sure, ask a brief clarification question."

  const HistoryHeading := "\n\n--- Recent history ---\n"

  const QuestionHeading := "\n\n--- New question ---\nUser: "

  const AnswerCue := "\nAssistant:"

  // ---------------------------------------------------------------------------
  // The prompt
  // ---------------------------------------------------------------------------

  /** `messages[-K_WINDOW:]`: the last six messages, in order. */
  function Window(messages: seq<Message>): (w: seq<Message>)
    ensures |w| == Min(KWindow, |messages|) && IsSuffix(w, messages)
  {
    PySliceFrom(messages, -KWindow)
  }

  /** A stripped message text over 800 characters keeps its first 800 and gains "…". */
  function Clip(text: string): (c: string)
    ensures |c| <= ClipLength + 1 && StartsWith(c, PyPrefix(text, ClipLength))
    ensures |text| <= ClipLength ==> c == text
    ensures |text| > ClipLength ==> |c| == ClipLength + 1 && c[ClipLength] == '…'
  {
    if |text| > ClipLength then text[..ClipLength] + "…" else text
  }

  function Speaker(role: string): string {
    if role == "user" then "User" else "Assistant"
  }

  /** One history line: "User" for the role "user", "Assistant" for any other, then the
      stripped and clipped text. */
  function HistoryLine(m: Message): string {
    Speaker(m.role) + ": " + Clip(Strip(m.content))
  }

  function HistoryLines(ms: seq<Message>): (lines: seq<string>)
    ensures |lines| == |ms|
  {
    if ms == [] then [] else HistoryLines(ms[..|ms| - 1]) + [HistoryLine(ms[|ms| - 1])]
  }

  function HistoryBlock(lines: seq<string>): string {
    if lines != [] then Join(lines, "\n") else NoHistory
  }

  /** The prompt for `userPrompt` given the session's messages: the system text, the
      history heading and the history block of the window, then the question, and nothing
      else. */
  function Prompt(messages: seq<Message>, userPrompt: string): (p: string)
    ensures StartsWith(p, SystemText + HistoryHeading)
    ensures StartsWith(p, SystemText + HistoryHeading + HistoryBlock(HistoryLines(Window(messages))))
    ensures EndsWith(p, QuestionHeading + userPrompt + AnswerCue)
    ensures |p| == |SystemText| + |HistoryHeading| + |HistoryBlock(HistoryLines(Window(messages)))| +
      |QuestionHeading| + |userPrompt| + |AnswerCue|
  {
    var block := HistoryBlock(HistoryLines(Window(messages)));
    var question := QuestionHeading + userPrompt + AnswerCue;
    ConcatThree(SystemText + HistoryHeading, block, question);
    SystemText + HistoryHeading + block + question
  }

  /** `build_context`. */
  method BuildContext(messages: seq<Message>, userPrompt: string) returns (prompt: string)
    ensures prompt == Prompt(messages, userPrompt)
  {
    var recent := PySliceFrom(messages, -KWindow);
    var hist: seq<string> := [];
    for i := 0 to |recent|
      invariant hist == HistoryLines(recent[..i])
    {
      var role := if recent[i].role == "user" then "User" else "Assistant";
      var text := Strip(recent[i].content);
      if |text| > ClipLength {
        text := text[..ClipLength] + "…";
      }
      HistorySnoc(recent, i, role, text);
      hist := hist + [role + ": " + text];
    }
    assert recent[..|recent|] == recent;
    var block := if hist != [] then Join(hist, "\n") else NoHistory;
    assert block == HistoryBlock(HistoryLines(Window(messages)));
    prompt := SystemText + HistoryHeading + block + (QuestionHeading + userPrompt + AnswerCue);
  }

  lemma HistorySnoc(ms: seq<Message>, i: nat, role: string, text: string)
    requires i < |ms| && role == Speaker(ms[i].role) && text == Clip(Strip(ms[i].content))
    ensures HistoryLines(ms[..i + 1]) == HistoryLines(ms[..i]) + [role + ": " + text]
  {
    assert ms[..i + 1][..i] == ms[..i];
  }

  /** The k-th history line renders the k-th message. */
  lemma {:induction false} HistoryLinesAt(ms: seq<Message>)
    ensures forall k :: 0 <= k < |ms| ==> HistoryLines(ms)[k] == HistoryLine(ms[k])
  {
    if ms != [] {
      var init := ms[..|ms| - 1];
      HistoryLinesAt(init);
      forall k | 0 <= k < |ms| - 1 ensures HistoryLines(ms)[k] == HistoryLine(ms[k]) {
        assert init[k] == ms[k];
      }
    }
  }

  /** The history shows the last min(6, n) messages, oldest first. */
  lemma PromptHistory(messages: seq<Message>, w: seq<Message>)
    requires w == Window(messages)
    ensures |HistoryLines(w)| == |w| == Min(KWindow, |messages|)
    ensures forall k :: 0 <= k < |w| ==> HistoryLines(w)[k] == HistoryLine(messages[|messages| - |w| + k])
  {
    LinesOfSuffix(w, messages);
  }

  lemma LinesOfSuffix(w: seq<Message>, messages: seq<Message>)
    requires IsSuffix(w, messages)
    ensures |HistoryLines(w)| == |w|
    ensures forall k :: 0 <= k < |w| ==> HistoryLines(w)[k] == HistoryLine(messages[|messages| - |w| + k])
  {
    HistoryLinesAt(w);
    SuffixAt(w, messages);
  }

  /** A history line is labelled "User: " exactly for the role "user" and "Assistant: "
      otherwise, and the stripped, clipped text follows the label. */
  lemma HistoryLineLabel(m: Message)
    ensures var l := HistoryLine(m);
      (StartsWith(l, "User: ") <==> m.role == "user") &&
      (m.role != "user" ==> StartsWith(l, "Assistant: ")) &&
      EndsWith(l, Clip(Strip(m.content))) &&
      |l| == (if m.role == "user" then |"User: "| else |"Assistant: "|) + |Clip(Strip(m.content))|
  {
    var l := HistoryLine(m);
    var text := Clip(Strip(m.content));
    var tag := Speaker(m.role) + ": ";
    assert l == tag + text;
    StartsWithConcat(tag, text);
    EndsWithConcat(tag, text);
    if m.role != "user" {
      assert tag == "Assistant: ";
      PrefixesExclude(l, tag, "User: ", 0);
    }
  }

  /** The history block is the "(no prior context yet)" marker exactly when the session has
      no messages: a real history line starts with "User" or "Assistant". */
  lemma NoHistoryIffNoMessages(messages: seq<Message>)
    ensures HistoryBlock(HistoryLines(Window(messages))) == NoHistory <==> messages == []
  {
    var lines := HistoryLines(Window(messages));
    if lines != [] {
      var w := Window(messages);
      HistoryLinesAt(w);
      HistoryLineLabel(w[0]);
      JoinStartsWithFirst(lines, "\n");
      var j := Join(lines, "\n");
      assert lines[0] != [] && (lines[0][0] == 'U' || lines[0][0] == 'A');
      assert j[0] == lines[0][0];
      assert NoHistory[0] == '(';
    }
  }

  /** When the question has just been appended to the messages, as the session does, the
      last history line is the question itself (stripped and clipped), so the prompt
      carries it twice. */
  lemma QuestionAlsoInHistory(messages: seq<Message>, userPrompt: string)
    ensures var lines := HistoryLines(Window(messages + [Message("user", userPrompt)]));
      lines != [] && lines[|lines| - 1] == "User: " + Clip(Strip(userPrompt))
  {
    var m := Message("user", userPrompt);
    var ms := messages + [m];
    LinesOfSuffix(Window(ms), ms);
    assert ms[|ms| - 1] == m;
    assert Speaker(m.role) + ": " == "User: ";
  }

  // ---------------------------------------------------------------------------
  // The transcript
  // ---------------------------------------------------------------------------

  /** One exported message: the upper-cased role and a colon on one line, the content, and a
      line break. */
  function Block(r: Message): (b: string)
    ensures StartsWith(b, Upper(r.role) + ":\n") && EndsWith(b, r.content + "\n")
    ensures |b| == |Upper(r.role)| + 2 + |r.content| + 1
  {
    var head := Upper(r.role) + ":\n";
    StartsWithConcat(head, r.content + "\n");
    EndsWithConcat(head, r.content + "\n");
    assert head + r.content + "\n" == head + (r.content + "\n");
    head + r.content + "\n"
  }

  function Blocks(rows: seq<Message>): (bs: seq<string>)
    ensures |bs| == |rows|
  {
    if rows == [] then [] else Blocks(rows[..|rows| - 1]) + [Block(rows[|rows| - 1])]
  }

  /** The exported text: the blocks separated by empty lines. It is empty exactly when
      there is nothing to export, because every block ends with a line break. */
  function Transcript(rows: seq<Message>): (t: string)
    ensures t == "" <==> rows == []
    ensures rows != [] ==> StartsWith(t, Block(rows[0]))
    ensures |rows| == 1 ==> t == Block(rows[0])
  {
    var bs := Blocks(rows);
    JoinEmpty(bs, "\n");
    BlocksAt(rows);
    if rows != [] then
      JoinStartsWithFirst(bs, "\n");
      Join(bs, "\n")
    else
      Join(bs, "\n")
  }

  /** The k-th block renders the k-th message. */
  lemma {:induction false} BlocksAt(rows: seq<Message>)
    ensures forall k :: 0 <= k < |rows| ==> Blocks(rows)[k] == Block(rows[k])
  {
    if rows != [] {
      var init := rows[..|rows| - 1];
      BlocksAt(init);
      forall k | 0 <= k < |rows| - 1 ensures Blocks(rows)[k] == Block(rows[k]) {
        assert init[k] == rows[k];
      }
    }
  }

  /** `export_transcript`. */
  method ExportTranscript(rows: seq<Message>) returns (txt: string)
    ensures txt == Transcript(rows)
  {
    var lines: seq<string> := [];
    for i := 0 to |rows|
      invariant lines == Blocks(rows[..i])
    {
      BlocksSnoc(rows, i);
      lines := lines + [Upper(rows[i].role) + ":\n" + rows[i].content + "\n"];
    }
    assert rows[..|rows|] == rows;
    txt := Join(lines, "\n");
  }

  lemma BlocksSnoc(rows: seq<Message>, i: nat)
    requires i < |rows|
    ensures Blocks(rows[..i + 1]) == Blocks(rows[..i]) + [Upper(rows[i].role) + ":\n" + rows[i].content + "\n"]
  {
    assert rows[..i + 1][..i] == rows[..i];
  }

  /** Exporting one more message adds a separating line break and that message's block. */
  lemma TranscriptAppend(rows: seq<Message>, r: Message)
    requires rows != []
    ensures Transcript(rows + [r]) == Transcript(rows) + "\n" + Block(r)
  {
    assert (rows + [r])[..|rows|] == rows;
    JoinSnoc(Blocks(rows), Block(r), "\n");
  }

  // ---------------------------------------------------------------------------
  // The session
  // ---------------------------------------------------------------------------

  /** The text stored for the assistant's turn. */
  function ReplyText(outcome: LlmOutcome): (text: string)
    ensures outcome.Answer? ==> text == outcome.content
    ensures outcome.Failure? ==> StartsWith(text, ErrorHeading) && EndsWith(text, outcome.error)
    ensures outcome.Failure? ==> |text| == |ErrorHeading| + |outcome.error|
  {
    match outcome
    case Answer(c) => c
    case Failure(e) =>
      StartsWithConcat(ErrorHeading, e);
      EndsWithConcat(ErrorHeading, e);
      ErrorHeading + e
  }

  const ErrorHeading := "⚠️ Error: "

  /** Messages as the session stores them when every exchange completes: user and
      assistant in turn, starting with the user, in complete pairs. */
  predicate Alternating(ms: seq<Message>) {
    |ms| % 2 == 0 && forall k :: 0 <= k < |ms| ==> ms[k].role == (if k % 2 == 0 then "user" else "assistant")
  }

  /** The chat session state: the list of messages shown and sent as context. Any list is
      accepted: an exception that escapes the model call leaves a question without its
      reply, and the next question is asked over that list. */
  class ChatSession {
    var messages: seq<Message>

    constructor ()
      ensures messages == []
    {
      messages := [];
    }

    /** The "Clear chat" button. */
    method Clear()
      modifies this
      ensures messages == []
    {
      messages := [];
    }

    /** One run of the chat input: an empty submission does nothing; otherwise the message is
        stored, the prompt is built from the stored list (which now ends with it), the model
        is called on the prompt, and its reply or error is stored. A list that alternated
        before still alternates. */
    method Submit(userMsg: string, llm: string -> LlmOutcome) returns (prompt: Option<string>)
      modifies this
      ensures userMsg == "" ==> prompt.None? && messages == old(messages)
      ensures userMsg != "" ==>
        var asked := old(messages) + [Message("user", userMsg)];
        prompt == Some(Prompt(asked, userMsg)) &&
        messages == asked + [Message("assistant", ReplyText(llm(prompt.value)))]
      ensures Alternating(old(messages)) ==> Alternating(messages)
    {
      if userMsg == "" {
        return None;
      }
      var before := messages;
      var asked := before + [Message("user", userMsg)];
      messages := asked;
      var ctx := BuildContext(messages, userMsg);
      var reply := match llm(ctx)
        case Answer(c) => c
        case Failure(e) => ErrorHeading + e;
      assert reply == ReplyText(llm(ctx));
      ExchangeKeepsAlternating(before, userMsg, reply);
      messages := asked + [Message("assistant", reply)];
      prompt := Some(ctx);
    }
  }

  /** A stored exchange keeps the messages alternating. */
  lemma ExchangeKeepsAlternating(ms: seq<Message>, question: string, reply: string)
    ensures Alternating(ms) ==>
      Alternating(ms + [Message("user", question)] + [Message("assistant", reply)])
  {
    var ms' := ms + [Message("user", question)] + [Message("assistant", reply)];
    if Alternating(ms) {
      forall k | 0 <= k < |ms'| ensures ms'[k].role == (if k % 2 == 0 then "user" else "assistant") {
        if k < |ms| {
          assert ms'[k] == ms[k];
        }
      }
    }
  }

}
