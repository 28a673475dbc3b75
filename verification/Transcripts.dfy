/** What every run of the agent loop keeps: its transcript, its audit log, its saves and how it ends. */
module Transcripts {
  import opened Outcome
  import opened Seqs
  import opened Sessions
  import opened Runner

  // --- Transcripts the model accepts ---

  function Calls(m: Message): seq<Block> {
    if m.content.Blocks? then ToolUses(m.content.blocks) else []
  }

  /** One result per call, same ids in the same order. */
  predicate Answers(results: seq<ResultBlock>, calls: seq<Block>) {
    && |results| == |calls|
    && forall i :: 0 <= i < |calls| ==> calls[i].ToolUse? && results[i].toolUseId == calls[i].id
  }

  /** `b` may follow `a`: the senders alternate, and tool results follow tool calls and nothing else. */
  predicate Follows(a: Message, b: Message) {
    && a.sender != b.sender
    && (if a.sender.Assistant? && Calls(a) != []
        then b.content.Results? && Answers(b.content.results, Calls(a))
        else !b.content.Results?)
  }

  /** The transcript starts and ends with the user, and every message may follow the one before. */
  predicate Conforms(ms: seq<Message>) {
    && ms != []
    && ms[0].sender.User? && !ms[0].content.Results?
    && ms[|ms| - 1].sender.User?
    && forall i :: 0 < i < |ms| ==> Follows(ms[i - 1], ms[i])
  }

  lemma ConformsPush(ms: seq<Message>, spoken: Message, reply: Message)
    requires Conforms(ms) && spoken.sender.Assistant? && reply.sender.User?
    requires spoken.content.Blocks? && Follows(spoken, reply)
    ensures Conforms(ms + [spoken, reply])
  {
  }

  // --- What a batch of calls does ---

  /** The calls the role permits. */
  function Permitted(role: AgentRole, calls: seq<Block>): seq<Block> {
    Filter(calls, (c: Block) => c.ToolUse? && role.Permits(c.name))
  }

  /** The result of the call issued after `before`. */
  function ResultOf(w: World, role: AgentRole, before: seq<Block>, call: Block): ToolResult {
    w.tool(|Permitted(role, before)|, call)
  }

  /** The log entry of the call issued after `before`: what the tool answered, or that it was refused. */
  predicate Describes(w: World, role: AgentRole, before: seq<Block>, call: Block, action: Action) {
    && call.ToolUse? && action.tool == call.name && action.input == call.input
    && if role.Permits(call.name)
       then var result := ResultOf(w, role, before, call);
            action.result == Returned(result.content.rendered) && (action.succeeded <==> !result.isError)
       else action.result == NotPermitted && !action.succeeded
  }

  /** What the model is told of that call. */
  predicate Tells(w: World, role: AgentRole, before: seq<Block>, call: Block, r: ResultBlock) {
    && call.ToolUse?
    && if role.Permits(call.name)
       then var result := ResultOf(w, role, before, call);
            r.toolUseId == result.toolUseId && r.content == result.content.rendered && r.isError == result.isError
       else r.toolUseId == call.id && r.isError
            && r.content == "This tool is not available to you. Do not try it again."
  }

  /** The model is told of every one of `calls`, issued after `issued`, in order. */
  ghost predicate Told(w: World, role: AgentRole, issued: seq<Block>, calls: seq<Block>, results: seq<ResultBlock>) {
    && |results| == |calls|
    && forall k :: 0 <= k < |calls| ==> Tells(w, role, issued + calls[..k], calls[k], results[k])
  }

  predicate HandsOver(w: World, role: AgentRole, before: seq<Block>, call: Block) {
    && call.ToolUse? && role.Permits(call.name)
    && var result := ResultOf(w, role, before, call); !result.isError && result.content.escalates
  }

  /** The reason the tool gave, if it gave one. */
  predicate ReasonGiven(result: ToolResult, reason: string) {
    match result.content.reason
    case Some(given) => reason == given
    case None => reason == "Agent requested escalation"
  }

  /** `actions` has exactly one entry for each of `calls`, in order. */
  predicate Audited(w: World, role: AgentRole, calls: seq<Block>, actions: seq<Action>) {
    && AllCalls(calls)
    && |actions| == |calls|
    && forall i :: 0 <= i < |calls| ==> Describes(w, role, calls[..i], calls[i], actions[i])
  }

  /** Since the loop began with `earlier` in its log, exactly `issued` was logged and its permitted part executed. */
  predicate Logged(w: World, p: Progress, earlier: seq<Action>, issued: seq<Block>) {
    && p.executed == Permitted(p.session.role, issued)
    && earlier <= p.session.actions
    && Audited(w, p.session.role, issued, p.session.actions[|earlier|..])
  }

  lemma LoggedPush(w: World, p: Progress, q: Progress, earlier: seq<Action>, issued: seq<Block>, call: Block,
                   entry: Action)
    requires Logged(w, p, earlier, issued) && call.ToolUse?
    requires q.session.role == p.session.role
    requires Describes(w, p.session.role, issued, call, entry)
    requires q.session.actions == p.session.actions + [entry]
    requires q.executed == p.executed + (if p.session.role.Permits(call.name) then [call] else [])
    ensures Logged(w, q, earlier, issued + [call])
  {
    var longer := issued + [call];
    assert longer[..|longer| - 1] == issued;
    var tail, tail' := p.session.actions[|earlier|..], q.session.actions[|earlier|..];
    assert tail' == tail + [entry];
    forall i | 0 <= i < |longer|
      ensures Describes(w, q.session.role, longer[..i], longer[i], tail'[i])
    {
      assert longer[..i] == issued[..i];
    }
  }

  /** Nothing but the log and the executed calls moves. */
  predicate SameButLog(p: Progress, q: Progress) {
    q == p.(session := p.session.(actions := q.session.actions), executed := q.executed)
  }

  lemma RunCallKeeps(w: World, p: Progress, results: seq<ResultBlock>, call: Block,
                     earlier: seq<Action>, issued: seq<Block>)
    requires Logged(w, p, earlier, issued) && call.ToolUse?
    ensures var b := RunCall(w, p, results, call);
      && SameButLog(p, b.progress)
      && Logged(w, b.progress, earlier, issued + [call])
      && (b.HandedOver? <==> HandsOver(w, p.session.role, issued, call))
      && (b.HandedOver? ==> ReasonGiven(ResultOf(w, p.session.role, issued, call), b.reason))
      && (b.Answered? ==> |b.results| == |results| + 1 && results <= b.results)
      && (b.Answered? ==> Tells(w, p.session.role, issued, call, b.results[|results|]))
      && (b.Answered? && w.Echoes() ==> b.results[|results|].toolUseId == call.id)
  {
    var b := RunCall(w, p, results, call);
    assert p.executed + [] == p.executed;
    var actions := b.progress.session.actions;
    LoggedPush(w, p, b.progress, earlier, issued, call, actions[|actions| - 1]);
  }

  /** Whether call number `k` of a batch begun after `issued` asks for a human. */
  predicate HandsOverAt(w: World, role: AgentRole, issued: seq<Block>, calls: seq<Block>, k: nat)
    requires k < |calls|
  {
    HandsOver(w, role, issued + calls[..k], calls[k])
  }

  /** How far a batch got: every call if it was answered, else up to the first call that asks for a human. */
  ghost predicate BatchDone(w: World, role: AgentRole, issued: seq<Block>, calls: seq<Block>, b: Batch, m: nat) {
    match b
    case Answered(_, results) =>
      && m == |calls| == |results|
      && (forall k: nat :: k < m ==> !HandsOverAt(w, role, issued, calls, k))
      && (w.Echoes() ==> Answers(results, calls))
      && Told(w, role, issued, calls, results)
    case HandedOver(_, reason) =>
      && 0 < m <= |calls|
      && (forall k: nat :: k < m - 1 ==> !HandsOverAt(w, role, issued, calls, k))
      && HandsOverAt(w, role, issued, calls, m - 1)
      && ReasonGiven(ResultOf(w, role, issued + calls[..m - 1], calls[m - 1]), reason)
  }

  /** A call is judged by the calls before it only. */
  lemma SameJudgement(w: World, role: AgentRole, issued: seq<Block>, calls: seq<Block>, k: nat)
    requires k + 1 < |calls|
    ensures HandsOverAt(w, role, issued, calls[..|calls| - 1], k) == HandsOverAt(w, role, issued, calls, k)
  {
    assert calls[..|calls| - 1][..k] == calls[..k];
  }

  lemma BatchStays(w: World, role: AgentRole, issued: seq<Block>, calls: seq<Block>, b: Batch, m: nat)
    requires calls != [] && b.HandedOver? && BatchDone(w, role, issued, calls[..|calls| - 1], b, m)
    ensures BatchDone(w, role, issued, calls, b, m)
    ensures calls[..|calls| - 1][..m] == calls[..m]
  {
    forall k: nat | k < m
      ensures HandsOverAt(w, role, issued, calls, k) == HandsOverAt(w, role, issued, calls[..|calls| - 1], k)
    {
      SameJudgement(w, role, issued, calls, k);
    }
    assert calls[..|calls| - 1][..m - 1] == calls[..m - 1];
  }

  lemma BatchPush(w: World, p: Progress, calls: seq<Block>, b: Batch, earlier: seq<Action>, issued: seq<Block>)
    requires calls != [] && AllCalls(calls) && b.Answered?
    requires BatchDone(w, p.session.role, issued, calls[..|calls| - 1], b, |calls| - 1)
    requires SameButLog(p, b.progress)
    requires Logged(w, b.progress, earlier, issued + calls[..|calls| - 1])
    ensures var c := RunCall(w, b.progress, b.results, calls[|calls| - 1]);
      && SameButLog(p, c.progress)
      && BatchDone(w, p.session.role, issued, calls, c, |calls|)
      && Logged(w, c.progress, earlier, issued + calls)
  {
    hide Logged, Permitted, RunCall, HandsOver, Tells;
    var n := |calls| - 1;
    var role := p.session.role;
    RunCallKeeps(w, b.progress, b.results, calls[n], earlier, issued + calls[..n]);
    assert issued + calls == issued + calls[..n] + [calls[n]];
    forall k: nat | k < n
      ensures !HandsOverAt(w, role, issued, calls, k)
    {
      SameJudgement(w, role, issued, calls, k);
    }
    var c := RunCall(w, b.progress, b.results, calls[n]);
    if c.Answered? {
      forall k | 0 <= k < |calls|
        ensures Tells(w, role, issued + calls[..k], calls[k], c.results[k])
      {
        assert calls[..n][..k] == calls[..k];
        assert k < n ==> c.results[k] == b.results[k] && calls[..n][k] == calls[k];
      }
    }
  }

  lemma {:induction false} RunCallsKeeps(w: World, p: Progress, calls: seq<Block>,
                                         earlier: seq<Action>, issued: seq<Block>) returns (m: nat)
    requires AllCalls(calls) && Logged(w, p, earlier, issued)
    ensures var b := RunCalls(w, p, calls);
      && SameButLog(p, b.progress)
      && BatchDone(w, p.session.role, issued, calls, b, m)
      && Logged(w, b.progress, earlier, issued + calls[..m])
  {
    if calls == [] {
      m := 0;
      assert issued + calls[..0] == issued;
    } else {
      var front := calls[..|calls| - 1];
      m := RunCallsKeeps(w, p, front, earlier, issued);
      var b := RunCalls(w, p, front);
      if b.HandedOver? {
        BatchStays(w, p.session.role, issued, calls, b, m);
      } else {
        assert front[..m] == front;
        BatchPush(w, p, calls, b, earlier, issued);
        m := |calls|;
        assert calls[..m] == calls;
      }
    }
  }

  // --- What holds at the head of every turn ---

  function CallsOf(ms: seq<Message>): seq<Block> {
    if ms == [] then [] else CallsOf(ms[..|ms| - 1]) + Calls(ms[|ms| - 1])
  }

  function Offered(w: World, role: AgentRole): seq<ToolDefinition> {
    FilterDefinitions(w.definitions, role.allowedTools)
  }

  /**
   Transcript `b` is `a`, then what the model answered to `a` as its request number `k`, then what the tools answered;
   calls are counted from message number `from` on.
   */
  ghost predicate Exchange(w: World, role: AgentRole, from: nat, k: nat, a: seq<Message>, b: seq<Message>) {
    var reply := w.model(k, a, Offered(w, role));
    && reply.Answer? && reply.stopReason != "end_turn" && ToolUses(reply.content) != []
    && |b| == |a| + 2 && a <= b
    && b[|a|] == Message(Assistant, Blocks(reply.content))
    && b[|a| + 1].sender.User? && b[|a| + 1].content.Results?
    && (w.Echoes() ==> Answers(b[|a| + 1].content.results, ToolUses(reply.content)))
    && Told(w, role, IssuedSince(a, from), ToolUses(reply.content), b[|a| + 1].content.results)
  }

  /** Each transcript sent arises from the one before by one exchange, the first being `start`. */
  ghost predicate Exchanged(w: World, role: AgentRole, start: seq<Message>, asked: seq<seq<Message>>) {
    && (asked != [] ==> asked[0] == start)
    && forall k :: 0 < k < |asked| ==> Exchange(w, role, |start|, k - 1, asked[k - 1], asked[k])
  }

  /** A later state of the same session: nothing said or logged is lost, and neither is the reason. */
  predicate Extends(a: Session, b: Session) {
    && a.role == b.role
    && a.messages <= b.messages
    && a.actions <= b.actions
    && (a.escalationReason.Some? ==> b.escalationReason.Some?)
  }

  predicate Timed(s: Session) {
    s.completedAt.Some? <==> !s.status.Running?
  }

  /** The saves are a chain of ever later states, all of which `s` extends. */
  predicate Chained(saves: seq<Session>, s: Session) {
    && (forall i, j :: 0 <= i < j < |saves| ==> Extends(saves[i], saves[j]))
    && (forall i :: 0 <= i < |saves| ==> Timed(saves[i]) && Extends(saves[i], s))
  }

  lemma ChainedSave(saves: seq<Session>, s: Session, t: Session)
    requires Chained(saves, s) && Extends(s, t) && Timed(t)
    ensures Chained(saves + [t], t)
  {
  }

  /** Crash recovery: from the second request on, each transcript was saved before it was sent. */
  predicate SavedAhead(before: nat, saves: seq<Session>, asked: seq<seq<Message>>) {
    && |saves| + 1 >= before + |asked|
    && forall k :: 0 < k < |asked| ==> saves[before + k - 1].messages == asked[k]
  }

  lemma SavedAheadPush(before: nat, saves: seq<Session>, asked: seq<seq<Message>>, s: Session)
    requires SavedAhead(before, saves, asked) && |saves| + 1 == before + |asked| && asked != []
    ensures SavedAhead(before, saves + [s], asked) && SavedAhead(before, saves + [s], asked + [s.messages])
  {
  }

  lemma SavedAheadFront(before: nat, saves: seq<Session>, asked: seq<seq<Message>>, last: seq<Message>)
    requires SavedAhead(before, saves, asked + [last])
    ensures SavedAhead(before, saves, asked)
  {
    var all := asked + [last];
    assert forall k :: 0 <= k < |asked| ==> all[k] == asked[k];
  }

  predicate Started(p: Progress) {
    && p.asked == [] && p.executed == []
    && p.session.status.Running? && p.session.completedAt.None?
    && Chained(p.saves, p.session)
  }

  /** The calls issued in `ms` by messages after the first `from`. */
  function IssuedSince(ms: seq<Message>, from: nat): seq<Block> {
    if from <= |ms| then CallsOf(ms[from..]) else []
  }

  /** `p` is at the head of a turn of the loop started at `p0`. */
  ghost predicate AtHead(w: World, p0: Progress, p: Progress) {
    && Extends(p0.session, p.session)
    && p.session.outcome == p0.session.outcome && p.session.confidence == p0.session.confidence
    && p.session.escalationReason == p0.session.escalationReason
    && p.session.status.Running? && p.session.completedAt.None?
    && Exchanged(w, p.session.role, p0.session.messages, p.asked + [p.session.messages])
    && Logged(w, p, p0.session.actions, IssuedSince(p.session.messages, |p0.session.messages|))
    && Chained(p.saves, p.session)
    && |p.saves| == |p0.saves| + |p.asked|
    && SavedAhead(|p0.saves|, p.saves, p.asked + [p.session.messages])
  }

  lemma StartIsHead(w: World, p0: Progress)
    requires Started(p0)
    ensures AtHead(w, p0, p0)
  {
    assert p0.session.messages[|p0.session.messages|..] == [];
    assert p0.session.actions[|p0.session.actions|..] == [];
  }

  lemma IssuedPush(ms: seq<Message>, from: nat, m: Message)
    requires from <= |ms|
    ensures IssuedSince(ms + [m], from) == IssuedSince(ms, from) + Calls(m)
  {
    var tail := (ms + [m])[from..];
    assert tail[..|tail| - 1] == ms[from..];
  }

  lemma ExchangedPush(w: World, role: AgentRole, start: seq<Message>, asked: seq<seq<Message>>, next: seq<Message>)
    requires asked != [] && Exchanged(w, role, start, asked)
    requires Exchange(w, role, |start|, |asked| - 1, asked[|asked| - 1], next)
    ensures Exchanged(w, role, start, asked + [next])
  {
  }

  /** The state in which a turn's answer has been received. */
  function Heard(p: Progress, content: seq<Block>): Progress {
    Push(p.(asked := p.asked + [p.session.messages]), Message(Assistant, Blocks(content)))
  }

  lemma HeardIsLogged(w: World, p0: Progress, p: Progress, content: seq<Block>)
    requires AtHead(w, p0, p)
    ensures Logged(w, Heard(p, content), p0.session.actions, IssuedSince(p.session.messages, |p0.session.messages|))
  {
  }

  /** What the model answered at the turn `p` is at the head of. */
  function ReplyAt(w: World, p: Progress): Reply {
    w.model(|p.asked|, p.session.messages, Offered(w, p.session.role))
  }

  /** The turn issues a batch of tool calls. */
  predicate CallsTools(w: World, p: Progress) {
    var reply := ReplyAt(w, p);
    reply.Answer? && reply.stopReason != "end_turn" && ToolUses(reply.content) != []
  }

  function BatchAt(w: World, p: Progress): Batch
    requires CallsTools(w, p)
  {
    var content := ReplyAt(w, p).content;
    ToolUsesAreCalls(content);
    RunCalls(w, Heard(p, content), ToolUses(content))
  }

  lemma BatchAtKeeps(w: World, p0: Progress, p: Progress) returns (m: nat)
    requires AtHead(w, p0, p) && CallsTools(w, p)
    ensures var content := ReplyAt(w, p).content;
      var issued := IssuedSince(p.session.messages, |p0.session.messages|);
      && SameButLog(Heard(p, content), BatchAt(w, p).progress)
      && BatchDone(w, p.session.role, issued, ToolUses(content), BatchAt(w, p), m)
      && Logged(w, BatchAt(w, p).progress, p0.session.actions, issued + ToolUses(content)[..m])
  {
    var content := ReplyAt(w, p).content;
    ToolUsesAreCalls(content);
    HeardIsLogged(w, p0, p, content);
    m := RunCallsKeeps(w, Heard(p, content), ToolUses(content), p0.session.actions,
                       IssuedSince(p.session.messages, |p0.session.messages|));
  }

  lemma ContinueShape(w: World, p: Progress)
    ensures TakeTurn(w, p).Continue? <==> CallsTools(w, p) && BatchAt(w, p).Answered?
    ensures TakeTurn(w, p).Continue? ==>
              TakeTurn(w, p).progress ==
              Save(Push(BatchAt(w, p).progress, Message(User, Results(BatchAt(w, p).results))))
  {
  }

  lemma IssuedExchange(before: seq<Message>, from: nat, spoken: Message, answer: Message)
    requires from <= |before| && answer.content.Results?
    ensures IssuedSince(before + [spoken] + [answer], from) == IssuedSince(before, from) + Calls(spoken)
  {
    IssuedPush(before, from, spoken);
    IssuedPush(before + [spoken], from, answer);
    assert Calls(answer) == [];
  }

  /** The parts of `AtHead` that follow from the batch having been answered. */
  lemma AnsweredIsHead(w: World, p0: Progress, p: Progress, content: seq<Block>, b: Progress,
                       results: seq<ResultBlock>)
    requires AtHead(w, p0, p)
    requires CallsTools(w, p) && content == ReplyAt(w, p).content
    requires SameButLog(Heard(p, content), b)
    requires Logged(w, b, p0.session.actions,
                    IssuedSince(p.session.messages, |p0.session.messages|) + ToolUses(content))
    requires w.Echoes() ==> Answers(results, ToolUses(content))
    requires Told(w, p.session.role, IssuedSince(p.session.messages, |p0.session.messages|), ToolUses(content), results)
    requires p.session.actions <= b.session.actions
    ensures AtHead(w, p0, Save(Push(b, Message(User, Results(results)))))
  {
    var before := p.session.messages;
    var spoken, answer := Message(Assistant, Blocks(content)), Message(User, Results(results));
    var q := Save(Push(b, answer));
    var after := before + [spoken] + [answer];
    assert q.session.messages == after;
    IssuedExchange(before, |p0.session.messages|, spoken, answer);
    assert Exchange(w, p.session.role, |p0.session.messages|, |p.asked|, before, after);
    ExchangedPush(w, p.session.role, p0.session.messages, p.asked + [before], after);
    ChainedSave(p.saves, p.session, q.session);
    SavedAheadPush(|p0.saves|, p.saves, p.asked + [before], q.session);
  }

  lemma LoggedPrefix(w: World, p: Progress, q: Progress, earlier: seq<Action>, issued: seq<Block>, more: seq<Block>)
    requires Logged(w, p, earlier, issued) && Logged(w, q, earlier, issued + more)
    requires p.session.role == q.session.role
    ensures p.session.actions <= q.session.actions
  {
    var a, b := p.session.actions[|earlier|..], q.session.actions[|earlier|..];
    forall i | 0 <= i < |issued|
      ensures a[i] == b[i]
    {
      assert (issued + more)[..i] == issued[..i];
      assert (issued + more)[i] == issued[i];
    }
    assert p.session.actions == earlier + a && q.session.actions == earlier + b;
  }

  lemma TurnKeeps(w: World, p0: Progress, p: Progress)
    requires AtHead(w, p0, p) && TakeTurn(w, p).Continue?
    ensures AtHead(w, p0, TakeTurn(w, p).progress)
    ensures |TakeTurn(w, p).progress.asked| == |p.asked| + 1
  {
    ContinueShape(w, p);
    var m := BatchAtKeeps(w, p0, p);
    var content := ReplyAt(w, p).content;
    var calls := ToolUses(content);
    var b := BatchAt(w, p);
    assert calls[..m] == calls;
    LoggedPrefix(w, p, b.progress, p0.session.actions, IssuedSince(p.session.messages, |p0.session.messages|), calls);
    AnsweredIsHead(w, p0, p, content, b.progress, b.results);
  }

  /** Every loop ends in a last turn, or past the turn limit, from a state that every earlier turn has kept. */
  lemma {:induction false} LastTurn(w: World, p0: Progress, p: Progress, turn: nat) returns (q: Progress)
    requires AtHead(w, p0, p) && turn == |p.asked| + 1 <= MAX_TURNS + 1
    ensures AtHead(w, p0, q) && |q.asked| <= MAX_TURNS
    ensures if |q.asked| == MAX_TURNS
            then Drive(w, p, turn) == Drive(w, q, MAX_TURNS + 1)
            else TakeTurn(w, q) == Stop(Drive(w, p, turn))
    decreases MAX_TURNS + 1 - turn
  {
    hide Exchanged, Logged, Chained, Started, TakeTurn;
    q := p;
    if turn <= MAX_TURNS && TakeTurn(w, p).Continue? {
      TurnKeeps(w, p0, p);
      q := LastTurn(w, p0, TakeTurn(w, p).progress, turn + 1);
    }
  }
}
