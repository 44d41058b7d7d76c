/** The pure rules of the interactive `chat` command: validation of a user
    line, classification of the session commands, trimming of the
    conversation history, and one user turn of requests to the language
    model with tool calls in between. The model and the tools are inputs:
    `respond` gives the model's answer to the k-th request of a turn, and
    `execute` the outcome of a tool call. */
module ChatCmd {
  import opened Wrappers
  import opened Utf8
  import opened Text
  import ModelRoles

  // ---- Input validation ----

  /** Longest accepted input, in bytes. */
  const MaxInputLength: nat := 4096

  /** Messages kept in the history before a new user message is added. */
  const MaxConversationHistory: nat := 50

  /** Requests to the model in one user turn. */
  const MaxToolCalls: nat := 5

  /** A byte the validator lets through: anything from space upwards, tab,
      line feed and carriage return. */
  predicate Allowed(b: byte)
  {
    b >= 32 || b == 9 || b == 10 || b == 13
  }

  /** The complaint about a rejected code point at byte offset `pos`. */
  function ControlMessage(c: int, pos: nat): string
  {
    if c == 0 then "input contains null byte at position " + NatToDecimal(pos)
    else "input contains invalid control character at position " + NatToDecimal(pos)
  }

  /** `s` has a rejected byte at `k` and none before it. */
  predicate FirstRejected(s: seq<byte>, k: int)
  {
    0 <= k < |s| && !Allowed(s[k]) && forall j :: 0 <= j < k ==> Allowed(s[j])
  }

  /** Every byte of `s` is let through. */
  predicate AllAllowed(s: seq<byte>)
  {
    forall k :: 0 <= k < |s| ==> Allowed(s[k])
  }

  /** The `for i, r := range input` scan: the first code point that is NUL or
      a control character other than tab, LF and CR. Multi-byte code points
      are never control characters, so the scan finds the first rejected
      byte. */
  function ControlError(s: seq<byte>, offset: nat): (r: Option<string>)
    requires Valid(s)
    ensures r.None? <==> AllAllowed(s)
    ensures r.Some? ==> exists k :: FirstRejected(s, k) && r.value == ControlMessage(s[k] as int, offset + k)
    decreases |s|
  {
    if |s| == 0 then None
    else
      var n := FirstLength(s);
      var c := FirstRune(s);
      if c == 0 || (c < 32 && c != 9 && c != 10 && c != 13) then
        assert FirstRejected(s, 0);
        Some(ControlMessage(c, offset))
      else
        var rest := ControlError(s[n..], offset + n);
        FirstSequenceAllowed(s);
        if rest.Some? then
          var k :| FirstRejected(s[n..], k) && rest.value == ControlMessage(s[n..][k] as int, offset + n + k);
          ShiftRejected(s, n, k);
          rest
        else
          JoinAllowed(s, n);
          rest
  }

  /** A first code point that is not rejected is made of allowed bytes. */
  lemma FirstSequenceAllowed(s: seq<byte>)
    requires FirstLength(s) > 0
    requires var c := FirstRune(s); !(c == 0 || (c < 32 && c != 9 && c != 10 && c != 13))
    ensures forall k :: 0 <= k < FirstLength(s) ==> Allowed(s[k])
  {
    forall k | 0 <= k < FirstLength(s)
      ensures Allowed(s[k])
    {
      if k > 0 {
        FirstLengthHighBytes(s, k);
      }
    }
  }

  /** The first rejected byte after an allowed prefix, seen from the start. */
  lemma ShiftRejected(s: seq<byte>, n: nat, k: int)
    requires n <= |s| && forall j :: 0 <= j < n ==> Allowed(s[j])
    requires FirstRejected(s[n..], k)
    ensures FirstRejected(s, n + k) && s[n + k] == s[n..][k]
  {
    assert forall j :: n <= j < n + k ==> s[j] == s[n..][j - n];
  }

  lemma JoinAllowed(s: seq<byte>, n: nat)
    requires n <= |s| && forall j :: 0 <= j < n ==> Allowed(s[j])
    ensures AllAllowed(s) <==> AllAllowed(s[n..])
  {
    assert forall j :: n <= j < |s| ==> s[j] == s[n..][j - n];
  }

  /** `validateChatInput`: the length limit first, then UTF-8 validity, then
      the control characters. `None` accepts the input. */
  function ValidateChatInput(input: seq<byte>): (r: Option<string>)
    ensures r.None? <==> |input| <= MaxInputLength && Valid(input) && AllAllowed(input)
    ensures |input| > MaxInputLength ==>
      r == Some("input too long (max 4096 characters, got " + NatToDecimal(|input|) + ")")
    ensures |input| <= MaxInputLength && !Valid(input) ==> r == Some("input contains invalid UTF-8 characters")
  {
    if |input| > MaxInputLength then
      Some("input too long (max 4096 characters, got " + NatToDecimal(|input|) + ")")
    else if !Valid(input) then Some("input contains invalid UTF-8 characters")
    else ControlError(input, 0)
  }

  /** The empty input passes, and any text without control characters other
      than tab, LF and CR passes as long as its encoding fits the limit. */
  lemma PlainTextAccepted(s: string)
    requires forall i :: 0 <= i < |s| ==> s[i] as int >= 32 || s[i] in {'\t', '\n', '\r'}
    requires |Encode(s)| <= MaxInputLength
    ensures ValidateChatInput(Encode(s)).None?
  {
    EncodeValid(s);
    EncodedAllowed(s);
  }

  lemma {:induction false} EncodedAllowed(s: string)
    requires forall i :: 0 <= i < |s| ==> s[i] as int >= 32 || s[i] in {'\t', '\n', '\r'}
    ensures AllAllowed(Encode(s))
  {
    if |s| > 0 {
      EncodedAllowed(s[1..]);
      var e := EncodeRune(s[0]);
      forall k | 0 <= k < |e|
        ensures Allowed(e[k])
      {
        if k > 0 {
          FirstLengthHighBytes(e, k);
        }
      }
      assert forall k :: |e| <= k < |Encode(s)| ==> Encode(s)[k] == Encode(s[1..])[k - |e|];
    }
  }

  /** A NUL byte is reported as such at its offset. */
  lemma NulRejected(prefix: string)
    requires forall i :: 0 <= i < |prefix| ==> prefix[i] as int >= 32
    requires |Encode(prefix)| < MaxInputLength
    ensures ValidateChatInput(Encode(prefix) + [0])
      == Some("input contains null byte at position " + NatToDecimal(|Encode(prefix)|))
  {
    EncodedAllowed(prefix);
    EncodeValid(prefix);
    NulAfter(Encode(prefix));
  }

  lemma NulAfter(p: seq<byte>)
    requires Valid(p) && AllAllowed(p) && |p| < MaxInputLength
    ensures ValidateChatInput(p + [0]) == Some("input contains null byte at position " + NatToDecimal(|p|))
  {
    var input := p + [0];
    ValidAppendAscii(p, 0);
    assert FirstRejected(input, |p|) by {
      assert forall j :: 0 <= j < |p| ==> input[j] == p[j];
    }
    ReportsFirstRejected(input, |p|);
  }

  /** The scan reports the first rejected byte, at its offset. */
  lemma ReportsFirstRejected(s: seq<byte>, k: int)
    requires Valid(s) && FirstRejected(s, k)
    ensures ControlError(s, 0) == Some(ControlMessage(s[k] as int, k))
  {
    var r := ControlError(s, 0);
    assert !AllAllowed(s);
    var k' :| FirstRejected(s, k') && r.value == ControlMessage(s[k'] as int, k');
    FirstRejectedUnique(s, k, k');
  }

  /** There is only one first rejected byte. */
  lemma FirstRejectedUnique(s: seq<byte>, a: int, b: int)
    requires FirstRejected(s, a) && FirstRejected(s, b)
    ensures a == b
  {
  }

  /** Appending an ASCII byte keeps UTF-8 valid. */
  lemma {:induction false} ValidAppendAscii(s: seq<byte>, b: byte)
    requires Valid(s) && b < 0x80
    ensures Valid(s + [b])
    decreases |s|
  {
    if |s| == 0 {
      assert [b][1..] == [];
    } else {
      var n := FirstLength(s);
      assert forall k :: 0 <= k < |s| ==> (s + [b])[k] == s[k];
      assert FirstLength(s + [b]) == n by {
        assert (s + [b])[..|s|] == s;
        FirstLengthExtend(s, [b]);
      }
      ValidAppendAscii(s[n..], b);
      assert (s + [b])[n..] == s[n..] + [b];
    }
  }

  /** Extra bytes after a well-formed first sequence do not change it. */
  lemma FirstLengthExtend(s: seq<byte>, t: seq<byte>)
    requires FirstLength(s) > 0
    ensures FirstLength(s + t) == FirstLength(s)
  {
    assert forall k :: 0 <= k < |s| ==> (s + t)[k] == s[k];
  }

  // ---- Session commands ----

  /** What the session does with one line. */
  datatype Command = Skip | Quit | Help | Clear | Ask(input: string)

  /** The session commands, matched on the trimmed line lower-cased by
      `lower` (`strings.ToLower`). An empty line is skipped. */
  function Classify(line: string, lower: string -> string): (r: Command)
    ensures TrimSpace(line) == "" <==> r == Skip
    ensures r.Quit? <==> TrimSpace(line) != "" && lower(TrimSpace(line)) in {"exit", "quit", "bye", "q"}
    ensures r.Help? <==> TrimSpace(line) != "" && lower(TrimSpace(line)) in {"help", "?"}
    ensures r.Clear? <==> TrimSpace(line) != "" && lower(TrimSpace(line)) in {"clear", "reset"}
    ensures r.Ask? ==> r.input == TrimSpace(line)
  {
    var input := TrimSpace(line);
    if input == "" then Skip
    else
      var l := lower(input);
      if l == "exit" || l == "quit" || l == "bye" || l == "q" then Quit
      else if l == "help" || l == "?" then Help
      else if l == "clear" || l == "reset" then Clear
      else Ask(input)
  }

  /** Trimming a line first never changes what it means. */
  lemma ClassifyTrimmed(line: string, lower: string -> string)
    ensures Classify(TrimSpace(line), lower) == Classify(line, lower)
  {
    TrimSpaceIdempotent(line);
  }

  /** Trimmed text has nothing left to trim. */
  lemma TrimSpaceIdempotent(s: string)
    ensures TrimSpace(TrimSpace(s)) == TrimSpace(s)
  {
    var r := TrimSpace(s);
    assert TrimLeft(r) == r;
    assert TrimRight(r) == r;
  }

  // ---- History ----

  datatype ToolCall = ToolCall(name: string, arguments: string)

  datatype Message = Message(role: string, content: string, toolCalls: seq<ToolCall>)

  function SystemMessage(prompt: string): Message
  {
    Message("system", prompt, [])
  }

  /** History trimming before a new user message: above 50 messages, keep
      the first (the system message) and the last 49. */
  function TrimHistory(messages: seq<Message>): (r: seq<Message>)
    ensures |messages| <= MaxConversationHistory ==> r == messages
    ensures |messages| > MaxConversationHistory ==>
      |r| == MaxConversationHistory && r[0] == messages[0]
      && r[1..] == messages[|messages| - (MaxConversationHistory - 1)..]
  {
    if |messages| > MaxConversationHistory then
      messages[..1] + messages[|messages| - MaxConversationHistory + 1..]
    else messages
  }

  /** Every message that asks for tool calls is followed by one tool result
      per call. */
  predicate ToolCallsAnswered(h: seq<Message>)
  {
    forall i :: 0 <= i < |h| && |h[i].toolCalls| > 0 ==>
      i + |h[i].toolCalls| < |h| && forall j :: i < j <= i + |h[i].toolCalls| ==> h[j].role == "tool"
  }

  /** Trimming keeps every tool call answered when the first message asks
      for none. */
  lemma TrimKeepsAnswered(messages: seq<Message>)
    requires ToolCallsAnswered(messages)
    requires |messages| > 0 ==> |messages[0].toolCalls| == 0
    ensures ToolCallsAnswered(TrimHistory(messages))
  {
    if |messages| > MaxConversationHistory {
      var r := TrimHistory(messages);
      var d := |messages| - MaxConversationHistory;
      assert forall i :: 1 <= i < |r| ==> r[i] == messages[i + d];
    }
  }

  // ---- One user turn ----

  /** The model's answer to a request: a message, or a failure followed by
      the fallback model's message or a second failure. */
  datatype Reply = Answer(message: Message) | Failed(fallback: Option<Message>)

  /** The tool messages for a list of calls, in call order; a failing call
      reports its error as the result. */
  function ToolResults(calls: seq<ToolCall>, execute: ToolCall -> Result<string>): (r: seq<Message>)
    ensures |r| == |calls|
    ensures forall i :: 0 <= i < |r| ==> r[i].role == "tool" && |r[i].toolCalls| == 0
    ensures forall i :: 0 <= i < |r| ==>
      r[i].content == (if execute(calls[i]).Ok? then execute(calls[i]).value
                       else "Error executing tool: " + execute(calls[i]).error)
  {
    seq(|calls|, i requires 0 <= i < |calls| =>
      var result := match execute(calls[i])
        case Ok(s) => s
        case Err(e) => "Error executing tool: " + e;
      Message("tool", result, []))
  }

  /** The history after a turn and the number of requests made. */
  datatype Exchange = Exchange(history: seq<Message>, requests: nat)

  /** The request loop of a turn as the source writes it: when both models
      fail, the last message is dropped. The history it was meant to restore
      is `before`, the history without the user's message. */
  function ExchangeAsWritten(messages: seq<Message>, iteration: nat, tools: bool,
                             respond: (nat, seq<Message>) -> Reply,
                             execute: ToolCall -> Result<string>): (r: Exchange)
    requires |messages| > 0
    ensures 1 <= r.requests <= MaxToolCalls - iteration || (iteration >= MaxToolCalls && r.requests == 0)
    ensures messages[..|messages| - 1] <= r.history
    decreases MaxToolCalls - iteration
  {
    if iteration >= MaxToolCalls then Exchange(messages, 0)
    else
      match respond(iteration, messages)
      case Failed(None) => Exchange(messages[..|messages| - 1], 1)
      case Failed(Some(m)) => Exchange(messages + [m], 1)
      case Answer(m) =>
        if tools && |m.toolCalls| > 0 then
          var grown := messages + [m] + ToolResults(m.toolCalls, execute);
          var next := ExchangeAsWritten(grown, iteration + 1, tools, respond, execute);
          assert messages[..|messages| - 1] <= grown[..|grown| - 1];
          Exchange(next.history, next.requests + 1)
        else Exchange(messages + [m], 1)
  }

  /** The request loop with the evident intent of the rollback: when both
      models fail, the history returns to `before`, the history the turn
      started from. */
  function ExchangeTurn(before: seq<Message>, messages: seq<Message>, iteration: nat, tools: bool,
                        respond: (nat, seq<Message>) -> Reply,
                        execute: ToolCall -> Result<string>): (r: Exchange)
    ensures r.requests <= MaxToolCalls - iteration || iteration >= MaxToolCalls
    ensures iteration < MaxToolCalls ==> r.requests >= 1
    ensures r.history == before || messages <= r.history
    decreases MaxToolCalls - iteration
  {
    if iteration >= MaxToolCalls then Exchange(messages, 0)
    else
      match respond(iteration, messages)
      case Failed(None) => Exchange(before, 1)
      case Failed(Some(m)) => Exchange(messages + [m], 1)
      case Answer(m) =>
        if tools && |m.toolCalls| > 0 then
          var grown := messages + [m] + ToolResults(m.toolCalls, execute);
          var next := ExchangeTurn(before, grown, iteration + 1, tools, respond, execute);
          Exchange(next.history, next.requests + 1)
        else Exchange(messages + [m], 1)
  }

  /** Some model always answers: no request ends with both models failing. */
  ghost predicate NeverBothFail(respond: (nat, seq<Message>) -> Reply)
  {
    forall k, h :: respond(k, h) != Failed(None)
  }

  /** The rollback is the only difference: when no request ends with both
      models failing, the loop as written and the intended loop agree. */
  lemma {:induction false} ExchangesAgree(before: seq<Message>, messages: seq<Message>, iteration: nat,
                                          tools: bool, respond: (nat, seq<Message>) -> Reply,
                                          execute: ToolCall -> Result<string>)
    requires |messages| > 0 && NeverBothFail(respond)
    ensures ExchangeAsWritten(messages, iteration, tools, respond, execute)
      == ExchangeTurn(before, messages, iteration, tools, respond, execute)
    decreases MaxToolCalls - iteration
  {
    if iteration < MaxToolCalls {
      match respond(iteration, messages)
      case Failed(None) =>
      case Failed(Some(m)) =>
      case Answer(m) =>
        if tools && |m.toolCalls| > 0 {
          ExchangesAgree(before, messages + [m] + ToolResults(m.toolCalls, execute), iteration + 1,
                         tools, respond, execute);
        }
    }
  }

  /** Replies ask for tool calls only when tools were offered: the fallback
      request and a request with tools disabled offer none. */
  ghost predicate CallsOnlyWhenOffered(respond: (nat, seq<Message>) -> Reply, tools: bool)
  {
    forall k, h :: match respond(k, h)
      case Answer(m) => tools || |m.toolCalls| == 0
      case Failed(Some(m)) => |m.toolCalls| == 0
      case Failed(None) => true
  }

  /** Appending a message without tool calls keeps every call answered. */
  lemma AppendPlain(h: seq<Message>, m: Message)
    requires ToolCallsAnswered(h) && |m.toolCalls| == 0
    ensures ToolCallsAnswered(h + [m])
  {
    assert forall i :: 0 <= i < |h| ==> (h + [m])[i] == h[i];
  }

  /** Appending a message with its tool results keeps every call answered. */
  lemma AppendAnswered(h: seq<Message>, m: Message, results: seq<Message>)
    requires ToolCallsAnswered(h)
    requires |results| == |m.toolCalls|
    requires forall i :: 0 <= i < |results| ==> results[i].role == "tool" && |results[i].toolCalls| == 0
    ensures ToolCallsAnswered(h + [m] + results)
  {
    var g := h + [m] + results;
    assert forall i :: 0 <= i < |h| ==> g[i] == h[i];
    assert g[|h|] == m;
    assert forall i :: 0 <= i < |results| ==> g[|h| + 1 + i] == results[i];
  }

  /** With the intended rollback, a turn leaves every tool call answered. */
  lemma {:induction false} ExchangeKeepsAnswered(before: seq<Message>, messages: seq<Message>, iteration: nat,
                                                 tools: bool, respond: (nat, seq<Message>) -> Reply,
                                                 execute: ToolCall -> Result<string>)
    requires ToolCallsAnswered(before) && ToolCallsAnswered(messages)
    requires CallsOnlyWhenOffered(respond, tools)
    ensures ToolCallsAnswered(ExchangeTurn(before, messages, iteration, tools, respond, execute).history)
    decreases MaxToolCalls - iteration
  {
    if iteration < MaxToolCalls {
      match respond(iteration, messages)
      case Failed(None) =>
      case Failed(Some(m)) =>
        AppendPlain(messages, m);
      case Answer(m) =>
        if tools && |m.toolCalls| > 0 {
          var grown := messages + [m] + ToolResults(m.toolCalls, execute);
          AppendAnswered(messages, m, ToolResults(m.toolCalls, execute));
          ExchangeKeepsAnswered(before, grown, iteration + 1, tools, respond, execute);
        } else {
          AppendPlain(messages, m);
        }
    }
  }

  /** The rollback as written: one tool call answered, then both models fail.
      The tool result is dropped instead of the user's message, leaving the
      user's message in place and the tool call without its result. */
  lemma RollbackDropsToolResult()
    ensures var system := SystemMessage("s");
      var user := Message("user", "hi", []);
      var call := Message("assistant", "", [ToolCall("get_library_stats", "{}")]);
      var respond := (k: nat, h: seq<Message>) => if k == 0 then Answer(call) else Failed(None);
      var execute := (c: ToolCall) => Ok("stats");
      var r := ExchangeAsWritten([system, user], 0, true, respond, execute);
      r.history == [system, user, call] && !ToolCallsAnswered(r.history)
      && ExchangeTurn([system], [system, user], 0, true, respond, execute).history == [system]
  {
    var system := SystemMessage("s");
    var user := Message("user", "hi", []);
    var call := Message("assistant", "", [ToolCall("get_library_stats", "{}")]);
    var respond := (k: nat, h: seq<Message>) => if k == 0 then Answer(call) else Failed(None);
    var execute := (c: ToolCall) => Ok("stats");
    var results := ToolResults(call.toolCalls, execute);
    assert results == [Message("tool", "stats", [])];
    var grown := [system, user] + [call] + results;
    assert ExchangeAsWritten(grown, 1, true, respond, execute).history == grown[..|grown| - 1];
    assert grown[..|grown| - 1] == [system, user, call];
    var h := [system, user, call];
    assert |h[2].toolCalls| > 0 && !(2 + |h[2].toolCalls| < |h|);
  }

  // ---- A session line ----

  /** The state of a session: the system prompt and the history, and
      whether the user has left. */
  datatype Session = Session(systemPrompt: string, history: seq<Message>, ended: bool)

  /** The model and tools a session talks to. */
  datatype Backend = Backend(
    lower: string -> string,
    tools: bool,
    respond: (nat, seq<Message>) -> Reply,
    execute: ToolCall -> Result<string>)

  /** A new session: the history holds the system message alone. */
  function StartSession(systemPrompt: string): (s: Session)
    ensures s.history == [SystemMessage(systemPrompt)] && !s.ended
  {
    Session(systemPrompt, [SystemMessage(systemPrompt)], false)
  }

  /** One line of input: a command, a rejected input, or a question that
      trims the history, adds the user's message and runs the request loop
      as the source writes it. The line's bytes are the UTF-8 encoding of
      `line`. */
  function HandleLine(s: Session, line: string, backend: Backend): (r: Session)
    requires !s.ended && |s.history| > 0
    ensures r.systemPrompt == s.systemPrompt
    ensures r.ended <==> Classify(line, backend.lower).Quit?
    ensures Classify(line, backend.lower).Clear? ==> r.history == [SystemMessage(s.systemPrompt)]
    ensures Classify(line, backend.lower) in {Skip, Help, Quit} ==> r.history == s.history
    ensures Classify(line, backend.lower).Ask? && ValidateChatInput(Encode(TrimSpace(line))).Some?
      ==> r.history == s.history
    ensures Classify(line, backend.lower).Ask? && ValidateChatInput(Encode(TrimSpace(line))).None?
      ==> TrimHistory(s.history) <= r.history
    ensures |r.history| > 0
  {
    match Classify(line, backend.lower)
    case Skip => s
    case Help => s
    case Quit => s.(ended := true)
    case Clear => s.(history := [SystemMessage(s.systemPrompt)])
    case Ask(input) =>
      if ValidateChatInput(Encode(input)).Some? then s
      else
        var before := TrimHistory(s.history);
        var sent := before + [Message("user", input, [])];
        var e := ExchangeAsWritten(sent, 0, backend.tools, backend.respond, backend.execute);
        assert sent[..|sent| - 1] == before;
        s.(history := e.history)
  }

  /** `HandleLine` with the intended rollback: a question whose models both
      fail leaves the trimmed history it started from. */
  function HandleLineCorrected(s: Session, line: string, backend: Backend): (r: Session)
    requires !s.ended && |s.history| > 0
    ensures r.systemPrompt == s.systemPrompt
    ensures r.ended <==> Classify(line, backend.lower).Quit?
    ensures Classify(line, backend.lower).Clear? ==> r.history == [SystemMessage(s.systemPrompt)]
    ensures Classify(line, backend.lower) in {Skip, Help, Quit} ==> r.history == s.history
    ensures Classify(line, backend.lower).Ask? && ValidateChatInput(Encode(TrimSpace(line))).Some?
      ==> r.history == s.history
    ensures Classify(line, backend.lower).Ask? && ValidateChatInput(Encode(TrimSpace(line))).None?
      ==> TrimHistory(s.history) <= r.history
    ensures Classify(line, backend.lower).Ask? && ValidateChatInput(Encode(TrimSpace(line))).None? ==>
      var before := TrimHistory(s.history);
      r.history == before || before + [Message("user", Classify(line, backend.lower).input, [])] <= r.history
    ensures |r.history| > 0
  {
    match Classify(line, backend.lower)
    case Skip => s
    case Help => s
    case Quit => s.(ended := true)
    case Clear => s.(history := [SystemMessage(s.systemPrompt)])
    case Ask(input) =>
      if ValidateChatInput(Encode(input)).Some? then s
      else
        var before := TrimHistory(s.history);
        var sent := before + [Message("user", input, [])];
        var e := ExchangeTurn(before, sent, 0, backend.tools, backend.respond, backend.execute);
        s.(history := e.history)
  }

  /** The two session steps differ only when both models fail. */
  lemma HandleLinesAgree(s: Session, line: string, backend: Backend)
    requires !s.ended && |s.history| > 0 && NeverBothFail(backend.respond)
    ensures HandleLine(s, line, backend) == HandleLineCorrected(s, line, backend)
  {
    match Classify(line, backend.lower)
    case Ask(input) =>
      if ValidateChatInput(Encode(input)).None? {
        var before := TrimHistory(s.history);
        ExchangesAgree(before, before + [Message("user", input, [])], 0,
                       backend.tools, backend.respond, backend.execute);
      }
    case _ =>
  }

  /** With the intended rollback no session line ever leaves a tool call
      unanswered. */
  lemma HandleLineKeepsAnswered(s: Session, line: string, backend: Backend)
    requires !s.ended && |s.history| > 0 && |s.history[0].toolCalls| == 0
    requires ToolCallsAnswered(s.history)
    requires CallsOnlyWhenOffered(backend.respond, backend.tools)
    ensures ToolCallsAnswered(HandleLineCorrected(s, line, backend).history)
  {
    match Classify(line, backend.lower)
    case Ask(input) =>
      if ValidateChatInput(Encode(input)).None? {
        AskKeepsAnswered(s.history, input, backend);
      }
    case Clear =>
      assert ToolCallsAnswered([SystemMessage(s.systemPrompt)]);
    case _ =>
  }

  /** The request loop of a question leaves no tool call unanswered. */
  lemma AskKeepsAnswered(history: seq<Message>, input: string, backend: Backend)
    requires |history| > 0 && |history[0].toolCalls| == 0
    requires ToolCallsAnswered(history)
    requires CallsOnlyWhenOffered(backend.respond, backend.tools)
    ensures var before := TrimHistory(history);
      ToolCallsAnswered(ExchangeTurn(before, before + [Message("user", input, [])], 0,
                                     backend.tools, backend.respond, backend.execute).history)
  {
    var before := TrimHistory(history);
    TrimKeepsAnswered(history);
    AppendPlain(before, Message("user", input, []));
    ExchangeKeepsAnswered(before, before + [Message("user", input, [])], 0,
                          backend.tools, backend.respond, backend.execute);
  }

  // ---- Models ----

  /** The chat model when none is configured. */
  const DefaultChatModel: string := "granite4:1b"

  /** The fallback model when no configuration was loaded. */
  const DefaultFallbackModel: string := "qwen3:0.6b"

  /** Go's `(string, error)` result with the error ignored: "" on failure. */
  function ValueOrEmpty(r: Result<string>): string
  {
    match r
    case Ok(v) => v
    case Err(_) => ""
  }

  /** The model of a session: the flag, else the configured chat model,
      else the default. */
  function ChatModel(flag: string, config: Option<ModelRoles.ModelConfig>): (r: string)
    ensures flag != "" ==> r == flag
    ensures r != ""
    ensures flag == "" && config.Some? && config.value.models.chat.primary != ""
      ==> r == config.value.models.chat.primary
  {
    if flag != "" then flag
    else
      var configured := match config
        case Some(c) => ValueOrEmpty(ModelRoles.GetModelForRole(c, "chat"))
        case None => "";
      if configured == "" then DefaultChatModel else configured
  }

  /** The fallback model: the configured chat fallback whenever a
      configuration was loaded (even an empty one), else the default. */
  function FallbackModel(config: Option<ModelRoles.ModelConfig>): (r: string)
    ensures config.None? ==> r == DefaultFallbackModel
    ensures config.Some? ==> r == config.value.models.chat.fallback
  {
    match config
    case Some(c) => ValueOrEmpty(ModelRoles.GetFallbackForRole(c, "chat"))
    case None => DefaultFallbackModel
  }
}
