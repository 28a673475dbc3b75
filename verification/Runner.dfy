/**
 The agent loop. The model, the tools, the clock and the confidence heuristic are arbitrary functions
 of how often they have been asked, so a statement about every `World` covers every behaviour of theirs.
 */
module Runner {
  import opened Outcome
  import opened Seqs
  import opened Sessions
  import Text

  const MAX_TURNS := 20

  datatype Reply =
    | Answer(stopReason: string, content: seq<Block>)
    | ApiError(message: string)

  /** What a tool returned; `escalates` is its `__escalate` flag and `rendered` the whole value as text. */
  datatype ToolOutput = ToolOutput(rendered: string, escalates: bool, reason: Option<string>)

  datatype ToolResult = ToolResult(toolUseId: string, content: ToolOutput, isError: bool)

  datatype World = World(
    definitions: seq<ToolDefinition>,
    model: (nat, seq<Message>, seq<ToolDefinition>) -> Reply,
    tool: (nat, Block) -> ToolResult,
    confidence: string -> real,
    clock: nat -> nat)
  {
    /** The tool box answers under the id it was called with. */
    ghost predicate Echoes() {
      forall n, call: Block :: call.ToolUse? ==> tool(n, call).toolUseId == call.id
    }
  }

  /** A run so far: the session, every transcript sent to the model, every tool call executed, every snapshot saved. */
  datatype Progress = Progress(
    session: Session,
    asked: seq<seq<Message>>,
    executed: seq<Block>,
    saves: seq<Session>)

  datatype Ending = Ending(progress: Progress, error: Option<string>)

  // --- Reading a response ---

  function ToolUses(content: seq<Block>): seq<Block> {
    Filter(content, (b: Block) => b.ToolUse?)
  }

  function Texts(content: seq<Block>): seq<string> {
    if content == [] then []
    else (if content[0].TextBlock? then [content[0].text] else []) + Texts(content[1..])
  }

  function ExtractText(content: seq<Block>): string {
    var texts := Texts(content);
    if texts == [] then "" else Text.Join(texts, '\n')
  }

  predicate HasText(content: seq<Block>) {
    exists i :: 0 <= i < |content| && content[i].TextBlock?
  }

  lemma {:induction false} TextsConcat(a: seq<Block>, b: seq<Block>)
    ensures Texts(a + b) == Texts(a) + Texts(b)
    ensures Texts(a) != [] <==> HasText(a)
  {
    if a == [] {
      assert a + b == b;
    } else {
      TextsConcat(a[1..], b);
      assert (a + b)[1..] == a[1..] + b;
      assert HasText(a) <==> a[0].TextBlock? || HasText(a[1..]) by {
        if HasText(a) && !a[0].TextBlock? {
          var i :| 0 <= i < |a| && a[i].TextBlock?;
          assert a[1..][i - 1].TextBlock?;
        }
        if HasText(a[1..]) {
          var i :| 0 <= i < |a[1..]| && a[1..][i].TextBlock?;
          assert a[i + 1].TextBlock?;
        }
      }
    }
  }

  lemma {:induction false} JoinConcat(a: seq<string>, b: seq<string>, c: char)
    requires a != [] && b != []
    ensures Text.Join(a + b, c) == Text.Join(a, c) + [c] + Text.Join(b, c)
  {
    assert (a + b)[1..] == a[1..] + b;
    if |a| == 1 {
      assert (a + b)[1..] == b;
    } else {
      JoinConcat(a[1..], b, c);
    }
  }

  /** The text of an answer is its text blocks in order, a line break between each two; nothing else counts. */
  lemma TextOfAnswer(a: seq<Block>, b: seq<Block>, block: Block)
    ensures ExtractText([]) == ""
    ensures ExtractText([block]) == if block.TextBlock? then block.text else ""
    ensures ExtractText(a + b) ==
            if HasText(a) && HasText(b) then ExtractText(a) + "\n" + ExtractText(b)
            else if HasText(a) then ExtractText(a)
            else ExtractText(b)
  {
    hide Texts, HasText;
    TextsConcat(a, b);
    TextsConcat(b, []);
    TextsOfOne(block);
    if HasText(a) && HasText(b) {
      JoinConcat(Texts(a), Texts(b), '\n');
    } else {
      assert Texts(a) + [] == Texts(a) && [] + Texts(b) == Texts(b);
    }
  }

  lemma TextsOfOne(block: Block)
    ensures Texts([]) == []
    ensures Texts([block]) == if block.TextBlock? then [block.text] else []
  {
    assert [block][1..] == [];
  }

  /** The calls of an answer are its tool blocks in order. */
  lemma CallsOfAnswer(a: seq<Block>, b: seq<Block>, block: Block)
    ensures ToolUses([]) == []
    ensures ToolUses([block]) == if block.ToolUse? then [block] else []
    ensures ToolUses(a + b) == ToolUses(a) + ToolUses(b)
  {
    assert [block][..0] == [];
    assert Filter([block][..0], (c: Block) => c.ToolUse?) == [];
    FilterConcat(a, b, (c: Block) => c.ToolUse?);
  }

  lemma ToolUsesAreCalls(content: seq<Block>)
    ensures forall call :: call in ToolUses(content) ==> call.ToolUse? && call in content
  {
    FilterKeeps(content, (b: Block) => b.ToolUse?);
  }

  // --- One batch of tool calls ---

  function Refusal(call: Block): Action
    requires call.ToolUse?
  {
    Action(call.name, call.input, NotPermitted, false)
  }

  function Record(call: Block, result: ToolResult): Action
    requires call.ToolUse?
  {
    Action(call.name, call.input, Returned(result.content.rendered), !result.isError)
  }

  predicate AsksForHuman(result: ToolResult) {
    !result.isError && result.content.escalates
  }

  function HandoverReason(result: ToolResult): string {
    match result.content.reason
    case Some(reason) => reason
    case None => "Agent requested escalation"
  }

  datatype Batch =
    | Answered(progress: Progress, results: seq<ResultBlock>)
    | HandedOver(progress: Progress, reason: string)

  function Log(p: Progress, action: Action): Progress {
    p.(session := p.session.(actions := p.session.actions + [action]))
  }

  function RunCall(w: World, p: Progress, results: seq<ResultBlock>, call: Block): Batch
    requires call.ToolUse?
  {
    if !p.session.role.Permits(call.name) then
      Answered(Log(p, Refusal(call)),
        results + [ResultBlock(call.id, "This tool is not available to you. Do not try it again.", true)])
    else
      var result := w.tool(|p.executed|, call);
      var logged := Log(p, Record(call, result)).(executed := p.executed + [call]);
      if AsksForHuman(result) then HandedOver(logged, HandoverReason(result))
      else Answered(logged, results + [ResultBlock(result.toolUseId, result.content.rendered, result.isError)])
  }

  predicate AllCalls(calls: seq<Block>) {
    forall i :: 0 <= i < |calls| ==> calls[i].ToolUse?
  }

  function RunCalls(w: World, p: Progress, calls: seq<Block>): Batch
    requires AllCalls(calls)
  {
    if calls == [] then Answered(p, []) else
      match RunCalls(w, p, calls[..|calls| - 1])
      case HandedOver(q, reason) => HandedOver(q, reason)
      case Answered(q, results) => RunCall(w, q, results, calls[|calls| - 1])
  }

  // --- One turn ---

  function Push(p: Progress, m: Message): Progress {
    p.(session := p.session.(messages := p.session.messages + [m]))
  }

  function Save(p: Progress): Progress {
    p.(saves := p.saves + [p.session])
  }

  /** A transition and the save that follows it. */
  function Close(w: World, p: Progress, t: Transition): Progress {
    Save(p.(session := Apply(p.session, t)))
  }

  function ApiFailure(message: string): string {
    "Claude API error: " + message
  }

  datatype Turn = Stop(ending: Ending) | Continue(progress: Progress)

  function Speak(outcome: Option<string>, said: string): Option<string> {
    if Text.Trim(said) == "" then outcome else Some(said)
  }

  function TakeTurn(w: World, p: Progress): Turn {
    var transcript := p.session.messages;
    var reply := w.model(|p.asked|, transcript, FilterDefinitions(w.definitions, p.session.role.allowedTools));
    var asked := p.(asked := p.asked + [transcript]);
    var now := w.clock(|p.saves|);
    match reply
    case ApiError(message) =>
      Stop(Ending(Close(w, asked, Fail(ApiFailure(message), now)), Some(message)))
    case Answer(stopReason, content) =>
      var heard := Push(asked, Message(Assistant, Blocks(content)));
      var said := ExtractText(content);
      var calls := ToolUses(content);
      if stopReason == "end_turn" then
        Stop(Ending(Close(w, heard, Complete(said, w.confidence(said), now)), None))
      else if calls == [] then
        Stop(Ending(Close(w, heard, Complete(said, 0.9, now)), None))
      else
        ToolUsesAreCalls(content);
        match RunCalls(w, heard, calls)
        case HandedOver(q, reason) =>
          var spoken := q.(session := q.session.(outcome := Speak(q.session.outcome, said)));
          Stop(Ending(Close(w, spoken, Escalate(reason, now)), None))
        case Answered(q, results) => Continue(Save(Push(q, Message(User, Results(results)))))
  }

  // --- The loop ---

  function TurnLimit(): string {
    "Agent exceeded 20 turns without completing"
  }

  /** The loop from the start of turn number `turn`. */
  function Drive(w: World, p: Progress, turn: nat): Ending
    decreases MAX_TURNS + 1 - turn
  {
    if turn > MAX_TURNS then Ending(Close(w, p, Escalate(TurnLimit(), w.clock(|p.saves|))), None)
    else match TakeTurn(w, p)
      case Stop(ending) => ending
      case Continue(q) => Drive(w, q, turn + 1)
  }

  function UserSays(text: string): Message {
    Message(User, Plain(text))
  }

  /** A fresh run; `refused` is the store's error when it rejects the empty session. */
  function Run(w: World, role: AgentRole, text: string, refused: Option<string>): Ending {
    var p := Save(Progress(New(role), [], [], []));
    if refused.Some? then Ending(p, refused) else Drive(w, Push(p, UserSays(text)), 1)
  }

  function Resume(w: World, s: Session, text: string): Ending {
    Drive(w, Push(Progress(Apply(s, Reopen), [], [], []), UserSays(text)), 1)
  }
}
