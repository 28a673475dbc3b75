/** The promises of the agent loop, over every behaviour of the model, the tools and the caller. */
module Endings {
  import opened Outcome
  import opened Seqs
  import opened Sessions
  import opened Runner
  import opened Transcripts
  import Text

  /** The last transcript sent to the model and its answer. */
  function LastAsked(p: Progress): seq<Message>
    requires p.asked != []
  {
    p.asked[|p.asked| - 1]
  }

  function LastReply(w: World, p: Progress): Reply
    requires p.asked != []
  {
    w.model(|p.asked| - 1, LastAsked(p), Offered(w, p.session.role))
  }

  /** The calls of the last answer, the first `m` of which were issued. */
  function LastCalls(w: World, p: Progress): seq<Block>
    requires p.asked != []
  {
    match LastReply(w, p)
    case ApiError(_) => []
    case Answer(_, content) => ToolUses(content)
  }

  /** The calls of every answered turn since the loop began. */
  function AnsweredCalls(p0: Progress, p: Progress): seq<Block>
    requires p.asked != []
  {
    IssuedSince(LastAsked(p), |p0.session.messages|)
  }

  /** The model could not be reached. */
  predicate EndsFailed(w: World, p0: Progress, e: Ending)
    requires e.progress.asked != []
  {
    var s, reply := e.progress.session, LastReply(w, e.progress);
    && reply.ApiError? && e.error == Some(reply.message)
    && s.status.Failed? && s.escalationReason == Some("Claude API error: " + reply.message)
    && s.outcome == p0.session.outcome && s.confidence == p0.session.confidence
    && s.messages == LastAsked(e.progress)
  }

  function Spoken(reply: Reply): Message
    requires reply.Answer?
  {
    Message(Assistant, Blocks(reply.content))
  }

  /** The model ended its turn or called no tool. */
  predicate EndsCompleted(w: World, p0: Progress, e: Ending)
    requires e.progress.asked != []
  {
    var s, reply := e.progress.session, LastReply(w, e.progress);
    && reply.Answer? && e.error.None?
    && (reply.stopReason == "end_turn" || ToolUses(reply.content) == [])
    && s.status.Completed? && s.outcome == Some(ExtractText(reply.content))
    && s.confidence == Some(if reply.stopReason == "end_turn" then w.confidence(ExtractText(reply.content)) else 0.9)
    && s.escalationReason == p0.session.escalationReason
    && s.messages == LastAsked(e.progress) + [Spoken(reply)]
  }

  /** Nothing but white space. */
  predicate Blank(text: string) {
    forall i :: 0 <= i < |text| ==> text[i] in {' ', '\t', '\n', 11 as char, 12 as char, '\r'}
  }

  /** The last call issued, number `m - 1`, was the first of its batch to ask for a human. */
  predicate EndsHandedOver(w: World, p0: Progress, e: Ending, m: nat)
    requires e.progress.asked != []
  {
    var s, reply, calls := e.progress.session, LastReply(w, e.progress), LastCalls(w, e.progress);
    var issued := AnsweredCalls(p0, e.progress);
    && reply.Answer? && e.error.None? && reply.stopReason != "end_turn"
    && 0 < m <= |calls|
    && (forall k: nat :: k < m - 1 ==> !HandsOverAt(w, s.role, issued, calls, k))
    && HandsOverAt(w, s.role, issued, calls, m - 1)
    && s.status.HumanEscalated?
    && s.escalationReason.Some?
    && ReasonGiven(ResultOf(w, s.role, issued + calls[..m - 1], calls[m - 1]), s.escalationReason.value)
    && s.outcome == (if Blank(ExtractText(reply.content)) then p0.session.outcome else Some(ExtractText(reply.content)))
    && s.confidence == p0.session.confidence
    && s.messages == LastAsked(e.progress) + [Spoken(reply)]
  }

  /** Every one of the allowed turns called tools and had all its calls answered. */
  ghost predicate EndsExhausted(w: World, p0: Progress, e: Ending)
    requires e.progress.asked != []
  {
    var s, p := e.progress.session, e.progress;
    && e.error.None? && |p.asked| == 20
    && Exchange(w, s.role, |p0.session.messages|, MAX_TURNS - 1, LastAsked(p), s.messages)
    && s.status.HumanEscalated? && s.escalationReason == Some("Agent exceeded 20 turns without completing")
    && s.outcome == p0.session.outcome && s.confidence == p0.session.confidence
  }

  /** How a loop ended, `m` being how many calls of the last answer were issued. */
  ghost predicate Ended(w: World, p0: Progress, e: Ending, m: nat) {
    var p := e.progress;
    && 1 <= |p.asked| <= 20 && p.saves != []
    && p.session.completedAt == Some(w.clock(|p.saves| - 1))
    && p.session.role == p0.session.role
    && Exchanged(w, p.session.role, p0.session.messages, p.asked)
    && m <= |LastCalls(w, p)|
    && Logged(w, p, p0.session.actions, AnsweredCalls(p0, p) + LastCalls(w, p)[..m])
    && (|| (m == 0 && EndsFailed(w, p0, e))
        || (m == 0 && EndsCompleted(w, p0, e))
        || EndsHandedOver(w, p0, e, m)
        || (m == |LastCalls(w, p)| && EndsExhausted(w, p0, e)))
  }

  /**
   `p`, reached from `p0`, lost nothing of the session; its saves are a chain that ends in its session, and every
   transcript sent after the first had been saved before.
   */
  predicate WellSaved(p0: Progress, p: Progress) {
    && Extends(p0.session, p.session)
    && p.saves != [] && p.saves[|p.saves| - 1] == p.session
    && Chained(p.saves, p.session)
    && Timed(p.session)
    && SavedAhead(|p0.saves|, p.saves, p.asked)
  }

  // --- Proof that every loop ends in one of these ways ---

  lemma NothingIssued(w: World, p0: Progress, p: Progress, q: Progress)
    requires AtHead(w, p0, p)
    requires q.asked == p.asked + [p.session.messages]
    requires q.executed == p.executed && q.session.actions == p.session.actions && q.session.role == p.session.role
    ensures Logged(w, q, p0.session.actions, AnsweredCalls(p0, q) + LastCalls(w, q)[..0])
  {
    assert AnsweredCalls(p0, q) + LastCalls(w, q)[..0] == AnsweredCalls(p0, q);
  }

  lemma CloseIsSaved(w: World, p0: Progress, p: Progress, t: Transition)
    requires Chained(p.saves, p.session) && Extends(p0.session, p.session) && !t.Reopen?
    requires SavedAhead(|p0.saves|, p.saves, p.asked)
    ensures WellSaved(p0, Close(w, p, t))
  {
    ChainedSave(p.saves, p.session, Apply(p.session, t));
  }

  lemma ChainedLater(saves: seq<Session>, s: Session, t: Session)
    requires Chained(saves, s) && Extends(s, t)
    ensures Chained(saves, t)
  {
  }

  lemma FailureEnds(w: World, p0: Progress, p: Progress)
    requires AtHead(w, p0, p) && |p.asked| < MAX_TURNS && ReplyAt(w, p).ApiError?
    ensures TakeTurn(w, p).Stop? && Ended(w, p0, TakeTurn(w, p).ending, 0)
      && WellSaved(p0, TakeTurn(w, p).ending.progress)
  {
    hide Logged, Exchange, ToolUses, ExtractText, IssuedSince, Permitted, SavedAhead;
    var e := TakeTurn(w, p).ending;
    var asked := p.(asked := p.asked + [p.session.messages]);
    NothingIssued(w, p0, p, e.progress);
    CloseIsSaved(w, p0, asked, Fail(ApiFailure(ReplyAt(w, p).message), w.clock(|p.saves|)));
  }

  lemma CompletionEnds(w: World, p0: Progress, p: Progress)
    requires AtHead(w, p0, p) && |p.asked| < MAX_TURNS && ReplyAt(w, p).Answer? && !CallsTools(w, p)
    ensures TakeTurn(w, p).Stop? && Ended(w, p0, TakeTurn(w, p).ending, 0)
      && WellSaved(p0, TakeTurn(w, p).ending.progress)
  {
    hide Logged, Exchange, ToolUses, ExtractText, IssuedSince, Permitted, SavedAhead;
    var e := TakeTurn(w, p).ending;
    var content := ReplyAt(w, p).content;
    NothingIssued(w, p0, p, e.progress);
    ChainedLater(p.saves, p.session, Heard(p, content).session);
    var said := ExtractText(content);
    var confidence := if ReplyAt(w, p).stopReason == "end_turn" then w.confidence(said) else 0.9;
    CloseIsSaved(w, p0, Heard(p, content), Complete(said, confidence, w.clock(|p.saves|)));
  }

  lemma LoggedSame(w: World, p: Progress, q: Progress, earlier: seq<Action>, issued: seq<Block>)
    requires Logged(w, p, earlier, issued)
    requires q.executed == p.executed && q.session.actions == p.session.actions && q.session.role == p.session.role
    ensures Logged(w, q, earlier, issued)
  {
  }

  /** What was said replaces the outcome unless it is blank. */
  lemma SpeakIs(outcome: Option<string>, said: string)
    ensures Speak(outcome, said) == if Blank(said) then outcome else Some(said)
  {
    Text.TrimIsEmptyExactly(said);
    forall i | 0 <= i < |said|
      ensures Text.IsSpace(said[i]) <==> said[i] in {' ', '\t', '\n', 11 as char, 12 as char, '\r'}
    {
      Text.SpacesAre(said[i]);
    }
  }

  /** The state a handover is closed from. */
  function HandedOverState(w: World, p: Progress): Progress
    requires CallsTools(w, p)
  {
    var b := BatchAt(w, p).progress;
    b.(session := b.session.(outcome := Speak(b.session.outcome, ExtractText(ReplyAt(w, p).content))))
  }

  lemma HandoverShape(w: World, p: Progress)
    requires CallsTools(w, p) && BatchAt(w, p).HandedOver?
    ensures TakeTurn(w, p) ==
            Stop(Ending(Close(w, HandedOverState(w, p), Escalate(BatchAt(w, p).reason, w.clock(|p.saves|))), None))
  {
  }

  lemma HandoverIsSaved(w: World, p0: Progress, p: Progress, m: nat)
    requires AtHead(w, p0, p) && CallsTools(w, p) && m <= |ToolUses(ReplyAt(w, p).content)|
    requires SameButLog(Heard(p, ReplyAt(w, p).content), BatchAt(w, p).progress)
    requires Logged(w, BatchAt(w, p).progress, p0.session.actions,
                    IssuedSince(p.session.messages, |p0.session.messages|) + ToolUses(ReplyAt(w, p).content)[..m])
    requires BatchAt(w, p).HandedOver?
    ensures WellSaved(p0, Close(w, HandedOverState(w, p), Escalate(BatchAt(w, p).reason, w.clock(|p.saves|))))
  {
    hide Logged, ExtractText, ToolUses, IssuedSince;
    var state := HandedOverState(w, p);
    LoggedPrefix(w, p, BatchAt(w, p).progress, p0.session.actions,
                 IssuedSince(p.session.messages, |p0.session.messages|), ToolUses(ReplyAt(w, p).content)[..m]);
    ChainedLater(p.saves, p.session, state.session);
    CloseIsSaved(w, p0, state, Escalate(BatchAt(w, p).reason, w.clock(|p.saves|)));
  }

  lemma HandoverEnds(w: World, p0: Progress, p: Progress) returns (m: nat)
    requires AtHead(w, p0, p) && |p.asked| < MAX_TURNS && CallsTools(w, p) && BatchAt(w, p).HandedOver?
    ensures TakeTurn(w, p).Stop? && Ended(w, p0, TakeTurn(w, p).ending, m)
      && WellSaved(p0, TakeTurn(w, p).ending.progress)
  {
    hide Logged, ExtractText, ToolUses, IssuedSince, Permitted, Speak;
    m := BatchAtKeeps(w, p0, p);
    var e := TakeTurn(w, p).ending;
    var content := ReplyAt(w, p).content;
    var b := BatchAt(w, p);
    HandoverShape(w, p);
    HandoverIsSaved(w, p0, p, m);
    SpeakIs(b.progress.session.outcome, ExtractText(content));
    assert LastCalls(w, e.progress) == ToolUses(content);
    LoggedSame(w, b.progress, e.progress, p0.session.actions, AnsweredCalls(p0, e.progress) + ToolUses(content)[..m]);
  }

  lemma {:induction false} StartPrefixes(w: World, role: AgentRole, start: seq<Message>,
      asked: seq<seq<Message>>, k: nat)
    requires Exchanged(w, role, start, asked) && k < |asked|
    ensures start <= asked[k]
  {
    if k > 0 {
      StartPrefixes(w, role, start, asked, k - 1);
      assert Exchange(w, role, |start|, k - 1, asked[k - 1], asked[k]);
    }
  }

  lemma ExchangedFront(w: World, role: AgentRole, start: seq<Message>, asked: seq<seq<Message>>, last: seq<Message>)
    requires asked != [] && Exchanged(w, role, start, asked + [last])
    ensures Exchanged(w, role, start, asked)
    ensures Exchange(w, role, |start|, |asked| - 1, asked[|asked| - 1], last)
    ensures start <= asked[|asked| - 1]
  {
    var all := asked + [last];
    assert Exchange(w, role, |start|, |asked| - 1, all[|asked| - 1], all[|asked|]);
    forall k | 0 < k < |asked|
      ensures Exchange(w, role, |start|, k - 1, asked[k - 1], asked[k])
    {
      assert Exchange(w, role, |start|, k - 1, all[k - 1], all[k]);
    }
    StartPrefixes(w, role, start, asked, |asked| - 1);
  }

  /** An exchange issues exactly the calls of its answer. */
  lemma ExchangeIssues(w: World, role: AgentRole, k: nat, before: seq<Message>, after: seq<Message>, from: nat)
    requires Exchange(w, role, from, k, before, after) && from <= |before|
    ensures IssuedSince(after, from) ==
            IssuedSince(before, from) + ToolUses(w.model(k, before, Offered(w, role)).content)
  {
    var spoken, answer := after[|before|], after[|before| + 1];
    assert after == before + [spoken] + [answer];
    IssuedExchange(before, from, spoken, answer);
  }

  lemma ExhaustionEnds(w: World, p0: Progress, p: Progress) returns (m: nat)
    requires AtHead(w, p0, p) && |p.asked| == MAX_TURNS
    ensures Ended(w, p0, Drive(w, p, MAX_TURNS + 1), m) && WellSaved(p0, Drive(w, p, MAX_TURNS + 1).progress)
  {
    hide ToolUses, IssuedSince, Permitted;
    var role := p.session.role;
    var e := Close(w, p, Escalate(TurnLimit(), w.clock(|p.saves|)));
    ExchangedFront(w, role, p0.session.messages, p.asked, p.session.messages);
    ExchangeIssues(w, role, MAX_TURNS - 1, LastAsked(p), p.session.messages, |p0.session.messages|);
    SavedAheadFront(|p0.saves|, p.saves, p.asked, p.session.messages);
    m := |LastCalls(w, p)|;
    assert LastCalls(w, p)[..m] == LastCalls(w, p);
    assert Logged(w, p, p0.session.actions, AnsweredCalls(p0, p) + LastCalls(w, p)[..m]);
    CloseIsSaved(w, p0, p, Escalate(TurnLimit(), w.clock(|p.saves|)));
    LoggedSame(w, p, e, p0.session.actions, AnsweredCalls(p0, p) + LastCalls(w, p)[..m]);
  }

  /** Every loop ends after at most 20 requests in exactly one described way, its log exact and its end state saved. */
  lemma HowItEnds(w: World, p0: Progress) returns (m: nat)
    requires Started(p0)
    ensures Ended(w, p0, Drive(w, p0, 1), m)
    ensures WellSaved(p0, Drive(w, p0, 1).progress)
  {
    StartIsHead(w, p0);
    var q := LastTurn(w, p0, p0, 1);
    if |q.asked| == MAX_TURNS {
      m := ExhaustionEnds(w, p0, q);
    } else if ReplyAt(w, q).ApiError? {
      m := 0;
      FailureEnds(w, p0, q);
    } else if !CallsTools(w, q) {
      m := 0;
      CompletionEnds(w, p0, q);
    } else {
      ContinueShape(w, q);
      m := HandoverEnds(w, p0, q);
    }
  }

  // --- The promises ---

  /** When the loop starts from a conforming transcript, every request carries one. */
  lemma {:induction false} ExchangesConform(w: World, role: AgentRole, start: seq<Message>,
      asked: seq<seq<Message>>, k: nat)
    requires w.Echoes() && Conforms(start) && Exchanged(w, role, start, asked) && k < |asked|
    ensures Conforms(asked[k])
  {
    if k > 0 {
      ExchangesConform(w, role, start, asked, k - 1);
      var a, b := asked[k - 1], asked[k];
      assert Exchange(w, role, |start|, k - 1, a, b);
      ConformsPush(a, b[|a|], b[|a| + 1]);
      assert b == a + [b[|a|], b[|a| + 1]];
    }
  }

  function FreshStart(role: AgentRole, text: string): Progress {
    Push(Save(Progress(New(role), [], [], [])), UserSays(text))
  }

  function ResumedStart(s: Session, text: string): Progress {
    Push(Progress(Apply(s, Reopen), [], [], []), UserSays(text))
  }

  lemma StartsAreStarted(role: AgentRole, s: Session, text: string)
    ensures Started(FreshStart(role, text)) && Conforms(FreshStart(role, text).session.messages)
    ensures Started(ResumedStart(s, text))
  {
  }

  /** What the first request carries, and what of an earlier session is kept for it. */
  lemma StartsWith(role: AgentRole, s: Session, text: string)
    ensures FreshStart(role, text) ==
            Progress(
              Session(role, Running, [Message(User, Plain(text))], [], None, None, None, None),
              [], [],
              [Session(role, Running, [], [], None, None, None, None)])
    ensures ResumedStart(s, text).session ==
            s.(status := Running, completedAt := None, messages := s.messages + [Message(User, Plain(text))])
    ensures ResumedStart(s, text) == Progress(ResumedStart(s, text).session, [], [], [])
  {
  }

  /** A fresh run stops at once when the store refuses the empty session, and otherwise ends as every loop does. */
  lemma FreshRunEnds(w: World, role: AgentRole, text: string, refused: Option<string>) returns (m: nat)
    ensures var e, p0 := Run(w, role, text, refused), FreshStart(role, text);
      if refused.Some?
      then e.error == refused && e.progress == Progress(New(role), [], [], [New(role)])
      else Ended(w, p0, e, m) && WellSaved(p0, e.progress)
  {
    hide Drive, Ended, WellSaved, Started, Conforms;
    m := 0;
    StartsAreStarted(role, New(role), text);
    if refused.None? {
      m := HowItEnds(w, FreshStart(role, text));
    }
  }

  /** Every request of a fresh run carries a conforming transcript. */
  lemma FreshRequestsConform(w: World, role: AgentRole, text: string, refused: Option<string>)
    requires w.Echoes()
    ensures forall k :: 0 <= k < |Run(w, role, text, refused).progress.asked| ==>
              Conforms(Run(w, role, text, refused).progress.asked[k])
  {
    if refused.None? {
      var p0 := FreshStart(role, text);
      StartsAreStarted(role, New(role), text);
      var m := HowItEnds(w, p0);
      var asked := Drive(w, p0, 1).progress.asked;
      forall k | 0 <= k < |asked|
        ensures Conforms(asked[k])
      {
        ExchangesConform(w, role, p0.session.messages, asked, k);
      }
    }
  }

  /** The conversation may go on: the agent finished and left no tool call behind. */
  predicate MayResume(s: Session) {
    s.status.Completed? && s.messages != [] && Calls(s.messages[|s.messages| - 1]) == []
  }

  lemma EndMayResumeExactly(w: World, p0: Progress, e: Ending, m: nat, text: string)
    requires w.Echoes() && Conforms(p0.session.messages) && Ended(w, p0, e, m)
    ensures Conforms(e.progress.session.messages + [UserSays(text)]) <==> MayResume(e.progress.session)
  {
    hide Logged, ToolUses, ExtractText, HandsOverAt, IssuedSince;
    var a, ms := LastAsked(e.progress), e.progress.session.messages;
    ExchangesConform(w, e.progress.session.role, p0.session.messages, e.progress.asked, |e.progress.asked| - 1);
    var next := ms + [UserSays(text)];
    var last := ms[|ms| - 1];
    if MayResume(e.progress.session) {
      ConformsPush(a, last, UserSays(text));
      assert next == a + [last, UserSays(text)];
    } else {
      assert !Follows(last, UserSays(text));
      assert next[|ms| - 1] == last && next[|ms|] == UserSays(text);
    }
  }

  lemma ResumeAsks(w: World, s: Session, text: string)
    ensures var asked := Resume(w, s, text).progress.asked;
      && ResumedStart(s, text).session.messages == s.messages + [UserSays(text)]
      && asked != [] && asked[0] == s.messages + [UserSays(text)]
      && Exchanged(w, s.role, ResumedStart(s, text).session.messages, asked)
  {
    hide Logged, Exchange, Drive;
    StartsAreStarted(s.role, s, text);
    var m := HowItEnds(w, ResumedStart(s, text));
  }

  /**
   After a run that began conforming, every request of the resumed run conforms exactly when the run was completed
   by a message without tool calls. After a failure, a handover or the turn limit the first request breaks the form.
   */
  lemma ResumeConformsExactly(w: World, p0: Progress, w': World, text: string)
    requires w.Echoes() && w'.Echoes() && Started(p0) && Conforms(p0.session.messages)
    ensures var s := Drive(w, p0, 1).progress.session;
      var asked := Resume(w', s, text).progress.asked;
      && ((forall k :: 0 <= k < |asked| ==> Conforms(asked[k])) <==> MayResume(s))
      && (MayResume(s) ==> Started(ResumedStart(s, text)) && Conforms(ResumedStart(s, text).session.messages))
  {
    hide *;
    var m := HowItEnds(w, p0);
    var s := Drive(w, p0, 1).progress.session;
    var p1 := ResumedStart(s, text);
    EndMayResumeExactly(w, p0, Drive(w, p0, 1), m, text);
    StartsAreStarted(s.role, s, text);
    ResumeAsks(w', s, text);
    var asked := Resume(w', s, text).progress.asked;
    if MayResume(s) {
      forall k | 0 <= k < |asked|
        ensures Conforms(asked[k])
      {
        ExchangesConform(w', s.role, p1.session.messages, asked, k);
      }
    }
  }

  /** A model that asks for a human in its first turn, and a tool that obliges. */
  function HumanWanted(): World {
    World([],
          (n, ms, defs) => Answer("tool_use", [ToolUse("t1", "escalate_to_human", "{}")]),
          (n, call: Block) => ToolResult(if call.ToolUse? then call.id else "", ToolOutput("{}", true, None), false),
          text => 1.0,
          n => n)
  }

  lemma OneToolUse(call: Block)
    requires call.ToolUse?
    ensures ToolUses([call]) == [call]
  {
    assert [call][..0] == [];
    assert Filter([call][..0], (b: Block) => b.ToolUse?) == [];
  }

  lemma HumanWantedHandsOver(role: AgentRole, text: string)
    requires role.allowedTools.None?
    ensures Drive(HumanWanted(), FreshStart(role, text), 1).progress.session.status.HumanEscalated?
  {
    hide ExtractText, Speak;
    var call := ToolUse("t1", "escalate_to_human", "{}");
    OneToolUse(call);
    assert RunCalls(HumanWanted(), Heard(FreshStart(role, text), [call]), [call]).HandedOver?;
  }

  /** A conversation that was handed to a human cannot be resumed in the form the model expects. */
  lemma EscalatedChatBreaksOnResume(role: AgentRole, text: string, more: string)
    requires role.allowedTools.None?
    ensures var s := Run(HumanWanted(), role, text, None).progress.session;
      var asked := Resume(HumanWanted(), s, more).progress.asked;
      s.status.HumanEscalated? && exists k :: 0 <= k < |asked| && !Conforms(asked[k])
  {
    hide Drive, Resume, Conforms, Started;
    StartsAreStarted(role, New(role), text);
    HumanWantedHandsOver(role, text);
    ResumeConformsExactly(HumanWanted(), FreshStart(role, text), HumanWanted(), more);
  }

  /** A resumed session that was ever escalated or failed looks resolved by a human even when the agent completed it. */
  lemma AgentLooksHuman(w: World, s: Session, text: string)
    ensures var e := Resume(w, s, text).progress.session;
      e.status.Completed? && s.escalationReason.Some? ==> ResolvedByHuman(e)
  {
    StartsAreStarted(s.role, s, text);
    var m := HowItEnds(w, ResumedStart(s, text));
  }

  /** Nothing outside the allowlist runs, and everything outside it is recorded as refused. */
  lemma RefusedExactly(w: World, role: AgentRole, text: string, refused: Option<string>)
    ensures var p := Run(w, role, text, refused).progress;
      && (forall call :: call in p.executed ==> call.ToolUse? && role.Permits(call.name))
      && (forall i :: 0 <= i < |p.session.actions| ==>
            (p.session.actions[i].result.NotPermitted? <==> !role.Permits(p.session.actions[i].tool)))
  {
    if refused.None? {
      var p0 := FreshStart(role, text);
      StartsAreStarted(role, New(role), text);
      var m := HowItEnds(w, p0);
      var p := Drive(w, p0, 1).progress;
      var issued := AnsweredCalls(p0, p) + LastCalls(w, p)[..m];
      FilterKeeps(issued, (c: Block) => c.ToolUse? && role.Permits(c.name));
      assert p.session.actions[0..] == p.session.actions;
    }
  }
}
