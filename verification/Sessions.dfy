/** Agent roles, sessions and their transitions. JSON values appear as the text they render to. */
module Sessions {
  import opened Outcome
  import opened Seqs

  // --- Roles and tool definitions ---

  /** `allowedTools` None means every tool. */
  datatype AgentRole = AgentRole(key: string, allowedTools: Option<seq<string>>)
  {
    predicate Permits(tool: string) {
      match allowedTools
      case None => true
      case Some(allowed) => exists i :: 0 <= i < |allowed| && allowed[i] == tool
    }
  }

  datatype ToolDefinition = ToolDefinition(name: string, description: string)

  function FilterDefinitions(all: seq<ToolDefinition>, allowed: Option<seq<string>>): seq<ToolDefinition> {
    match allowed
    case None => all
    case Some(list) => Filter(all, (d: ToolDefinition) => d.name in list)
  }

  /** The definitions offered to the model are exactly those the role permits, each once, in their original order. */
  lemma OfferedExactlyPermitted(all: seq<ToolDefinition>, role: AgentRole) returns (picks: seq<nat>)
    ensures Picked(all, FilterDefinitions(all, role.allowedTools), picks)
    ensures forall k :: 0 <= k < |all| ==> (role.Permits(all[k].name) <==> k in picks)
    ensures forall tool :: role.Permits(tool) <==> role.allowedTools.None? || tool in role.allowedTools.value
  {
    match role.allowedTools
    case None =>
      picks := seq(|all|, i => i);
      assert forall k :: 0 <= k < |all| ==> picks[k] == k;
    case Some(list) =>
      picks := FilterPicks(all, (d: ToolDefinition) => d.name in list);
  }

  // --- Sessions ---

  datatype Status = Running | Completed | Failed | HumanEscalated

  datatype Sender = User | Assistant

  datatype Block = TextBlock(text: string) | ToolUse(id: string, name: string, input: string)

  datatype ResultBlock = ResultBlock(toolUseId: string, content: string, isError: bool)

  datatype Content = Plain(text: string) | Blocks(blocks: seq<Block>) | Results(results: seq<ResultBlock>)

  datatype Message = Message(sender: Sender, content: Content)

  /** One entry of the audit log; a refused call records that instead of a tool's output. */
  datatype ActionResult = NotPermitted | Returned(output: string)
  datatype Action = Action(tool: string, input: string, result: ActionResult, succeeded: bool)

  datatype Session = Session(
    role: AgentRole,
    status: Status,
    messages: seq<Message>,
    actions: seq<Action>,
    outcome: Option<string>,
    escalationReason: Option<string>,
    confidence: Option<real>,
    completedAt: Option<nat>)

  function New(role: AgentRole): Session {
    Session(role, Running, [], [], None, None, None, None)
  }

  datatype Transition =
    | Complete(outcome: string, confidence: real, at: nat)
    | Fail(reason: string, at: nat)
    | Escalate(reason: string, at: nat)
    | Reopen

  function Apply(s: Session, t: Transition): Session {
    match t
    case Complete(outcome, confidence, at) =>
      s.(status := Completed, outcome := Some(outcome), confidence := Some(confidence), completedAt := Some(at))
    case Fail(reason, at) => s.(status := Failed, escalationReason := Some(reason), completedAt := Some(at))
    case Escalate(reason, at) => s.(status := HumanEscalated, escalationReason := Some(reason), completedAt := Some(at))
    case Reopen => s.(status := Running, completedAt := None)
  }

  function ApplyAll(s: Session, ts: seq<Transition>): Session {
    if ts == [] then s else Apply(ApplyAll(s, ts[..|ts| - 1]), ts[|ts| - 1])
  }

  /**
   After any transitions a completion time is set exactly when the session is not running, and a reason once set stays.
   */
  lemma {:induction false} TransitionsKeep(s: Session, ts: seq<Transition>)
    requires s.completedAt.Some? <==> !s.status.Running?
    ensures var t := ApplyAll(s, ts);
      && (t.completedAt.Some? <==> !t.status.Running?)
      && (s.escalationReason.Some? ==> t.escalationReason.Some?)
      && t.messages == s.messages && t.actions == s.actions
  {
    if ts == [] {
    } else {
      TransitionsKeep(s, ts[..|ts| - 1]);
    }
  }

  predicate Troubled(t: Transition) {
    t.Fail? || t.Escalate?
  }

  /** The flag by which a chat is reported as resolved by a human. */
  predicate ResolvedByHuman(s: Session) {
    s.status.Completed? && s.escalationReason.Some?
  }

  /**
   The flag is set exactly when the session was completed last and had failed or been escalated at any time
   before; it does not tell who completed it.
   */
  lemma {:induction false} ResolvedByHumanExactly(role: AgentRole, ts: seq<Transition>)
    ensures ResolvedByHuman(ApplyAll(New(role), ts)) <==>
            ts != [] && ts[|ts| - 1].Complete? && exists i :: 0 <= i < |ts| && Troubled(ts[i])
    ensures ApplyAll(New(role), ts).escalationReason.Some? <==> exists i :: 0 <= i < |ts| && Troubled(ts[i])
  {
    if ts == [] {
    } else {
      var front := ts[..|ts| - 1];
      ResolvedByHumanExactly(role, front);
      assert forall i :: 0 <= i < |front| ==> front[i] == ts[i];
      if exists i :: 0 <= i < |front| && Troubled(front[i]) {
        var i :| 0 <= i < |front| && Troubled(front[i]);
        assert Troubled(ts[i]);
      }
    }
  }

  /** An agent that recovers from an API error on its own is reported as resolved by a human. */
  lemma RecoveredAgentLooksHuman(role: AgentRole)
    ensures ResolvedByHuman(ApplyAll(New(role), [Fail("Claude API error", 1), Reopen, Complete("done", 0.9, 2)]))
  {
    var ts := [Fail("Claude API error", 1), Reopen, Complete("done", 0.9, 2)];
    assert Troubled(ts[0]);
    ResolvedByHumanExactly(role, ts);
  }

  /** The session object the runner works on. */
  class AgentSession {
    const role: AgentRole
    var status: Status
    var messages: seq<Message>
    var actions: seq<Action>
    var outcome: Option<string>
    var escalationReason: Option<string>
    var confidence: Option<real>
    var completedAt: Option<nat>

    function Snapshot(): Session
      reads this
    {
      Session(role, status, messages, actions, outcome, escalationReason, confidence, completedAt)
    }

    constructor (role: AgentRole)
      ensures Snapshot() == New(role)
      ensures status == Running && messages == [] && actions == []
      ensures outcome == escalationReason == None && confidence == None && completedAt == None
    {
      this.role := role;
      status := Running;
      messages, actions := [], [];
      outcome, escalationReason, confidence, completedAt := None, None, None, None;
    }

    method Complete(outcome: string, confidence: real, at: nat)
      modifies this
      ensures Snapshot() == Apply(old(Snapshot()), Transition.Complete(outcome, confidence, at))
      ensures status == Completed && this.outcome == Some(outcome) && this.confidence == Some(confidence)
      ensures completedAt == Some(at) && escalationReason == old(escalationReason)
    {
      this.status := Completed;
      this.outcome := Some(outcome);
      this.confidence := Some(confidence);
      this.completedAt := Some(at);
    }

    method Fail(reason: string, at: nat)
      modifies this
      ensures Snapshot() == Apply(old(Snapshot()), Transition.Fail(reason, at))
      ensures status == Failed && escalationReason == Some(reason) && completedAt == Some(at)
      ensures outcome == old(outcome) && confidence == old(confidence)
    {
      status := Failed;
      escalationReason := Some(reason);
      completedAt := Some(at);
    }

    method Escalate(reason: string, at: nat)
      modifies this
      ensures Snapshot() == Apply(old(Snapshot()), Transition.Escalate(reason, at))
      ensures status == HumanEscalated && escalationReason == Some(reason) && completedAt == Some(at)
      ensures outcome == old(outcome) && confidence == old(confidence)
    {
      status := HumanEscalated;
      escalationReason := Some(reason);
      completedAt := Some(at);
    }

    method Reopen()
      modifies this
      ensures Snapshot() == Apply(old(Snapshot()), Transition.Reopen)
      ensures status == Running && completedAt == None
      ensures outcome == old(outcome) && confidence == old(confidence) && escalationReason == old(escalationReason)
    {
      status := Running;
      completedAt := None;
    }
  }
}
