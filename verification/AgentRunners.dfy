/** The runner as the program writes it: one session object changed in place, turn by turn and call by call. */
module AgentRunners {
  import opened Outcome
  import opened Sessions
  import opened Runner
  import Text

  class AgentRunner {
    const world: World
    /** What the collaborators have seen so far. */
    var asked: seq<seq<Message>>
    var executed: seq<Block>
    var saves: seq<Session>

    constructor (world: World)
      ensures this.world == world && asked == [] && executed == [] && saves == []
    {
      this.world := world;
      asked, executed, saves := [], [], [];
    }

    function Now(session: AgentSession): Progress
      reads this, session
    {
      Progress(session.Snapshot(), asked, executed, saves)
    }

    method Send(messages: seq<Message>, tools: seq<ToolDefinition>) returns (reply: Reply)
      modifies this`asked
      ensures reply == world.model(|old(asked)|, messages, tools)
      ensures asked == old(asked) + [messages]
    {
      reply := world.model(|asked|, messages, tools);
      asked := asked + [messages];
    }

    method Execute(call: Block) returns (result: ToolResult)
      modifies this`executed
      ensures result == world.tool(|old(executed)|, call)
      ensures executed == old(executed) + [call]
    {
      result := world.tool(|executed|, call);
      executed := executed + [call];
    }

    method Save(session: AgentSession)
      modifies this`saves
      ensures saves == old(saves) + [session.Snapshot()]
    {
      saves := saves + [session.Snapshot()];
    }

    method Batch(session: AgentSession, toolCalls: seq<Block>)
      returns (handover: Option<string>, toolResults: seq<ResultBlock>)
      requires AllCalls(toolCalls)
      modifies this`executed, session
      ensures match RunCalls(world, old(Now(session)), toolCalls)
              case Answered(p, results) => handover.None? && Now(session) == p && toolResults == results
              case HandedOver(p, reason) => handover == Some(reason) && Now(session) == p
    {
      handover, toolResults := None, [];
      ghost var start := Now(session);
      for i := 0 to |toolCalls|
        invariant RunCalls(world, start, toolCalls[..i]) == Answered(Now(session), toolResults)
      {
        var call := toolCalls[i];
        assert toolCalls[..i + 1][..i] == toolCalls[..i];
        if !session.role.Permits(call.name) {
          session.actions := session.actions + [Refusal(call)];
          toolResults := toolResults +
            [ResultBlock(call.id, "This tool is not available to you. Do not try it again.", true)];
        } else {
          var result := Execute(call);
          session.actions := session.actions + [Record(call, result)];
          if AsksForHuman(result) {
            HandoverSticks(world, start, toolCalls, i + 1);
            return Some(HandoverReason(result)), toolResults;
          }
          toolResults := toolResults + [ResultBlock(result.toolUseId, result.content.rendered, result.isError)];
        }
      }
      assert toolCalls[..|toolCalls|] == toolCalls;
    }

    /** The loop body; `done` says that the loop returns with `error`. */
    method TakeTurn(session: AgentSession, tools: seq<ToolDefinition>) returns (done: bool, error: Option<string>)
      requires tools == FilterDefinitions(world.definitions, session.role.allowedTools)
      modifies this, session
      ensures Runner.TakeTurn(world, old(Now(session))) ==
              if done then Stop(Ending(Now(session), error)) else Continue(Now(session))
    {
      hide RunCalls, ToolUses, ExtractText, FilterDefinitions, ApiFailure, Text.Trim;
      var reply := Send(session.messages, tools);
      if reply.ApiError? {
        session.Fail(ApiFailure(reply.message), world.clock(|saves|));
        Save(session);
        return true, Some(reply.message);
      }
      var content := reply.content;
      session.messages := session.messages + [Message(Assistant, Blocks(content))];
      if reply.stopReason == "end_turn" {
        var finalText := ExtractText(content);
        session.Complete(finalText, world.confidence(finalText), world.clock(|saves|));
        Save(session);
        return true, None;
      }
      var toolCalls := ToolUses(content);
      if toolCalls == [] {
        session.Complete(ExtractText(content), 0.9, world.clock(|saves|));
        Save(session);
        return true, None;
      }
      ToolUsesAreCalls(content);
      var handover, toolResults := Batch(session, toolCalls);
      if handover.Some? {
        var handoffText := ExtractText(content);
        if Text.Trim(handoffText) != "" {
          session.outcome := Some(handoffText);
        }
        session.Escalate(handover.value, world.clock(|saves|));
        Save(session);
        return true, None;
      }
      session.messages := session.messages + [Message(User, Results(toolResults))];
      Save(session);
      return false, None;
    }

    method Drive(session: AgentSession) returns (error: Option<string>)
      modifies this, session
      ensures Ending(Now(session), error) == Runner.Drive(world, old(Now(session)), 1)
    {
      hide Runner.TakeTurn, FilterDefinitions, TurnLimit;
      var tools := FilterDefinitions(world.definitions, session.role.allowedTools);
      var turns := 0;
      ghost var goal := Runner.Drive(world, Now(session), 1);
      while true
        invariant turns <= MAX_TURNS
        invariant Runner.Drive(world, Now(session), turns + 1) == goal
        decreases MAX_TURNS - turns
      {
        turns := turns + 1;
        if turns > MAX_TURNS {
          session.Escalate(TurnLimit(), world.clock(|saves|));
          Save(session);
          return None;
        }
        var done;
        done, error := TakeTurn(session, tools);
        if done {
          return;
        }
      }
    }

    /** The autonomous entry point; `refused` is the store's answer to the first save. */
    method Run(role: AgentRole, text: string, refused: Option<string>)
      returns (session: AgentSession, error: Option<string>)
      requires asked == [] && executed == [] && saves == []
      modifies this
      ensures fresh(session)
      ensures Ending(Now(session), error) == Runner.Run(world, role, text, refused)
    {
      session := new AgentSession(role);
      Save(session);
      if refused.Some? {
        return session, refused;
      }
      session.messages := session.messages + [UserSays(text)];
      error := Drive(session);
    }

    method Resume(session: AgentSession, text: string) returns (error: Option<string>)
      requires asked == [] && executed == [] && saves == []
      modifies this, session
      ensures Ending(Now(session), error) == Runner.Resume(world, old(session.Snapshot()), text)
    {
      session.Reopen();
      session.messages := session.messages + [UserSays(text)];
      error := Drive(session);
    }
  }

  /** Once a call has asked for a human, the rest of the batch is skipped. */
  lemma {:induction false} HandoverSticks(w: World, p: Progress, calls: seq<Block>, n: nat)
    requires AllCalls(calls) && n <= |calls| && RunCalls(w, p, calls[..n]).HandedOver?
    ensures RunCalls(w, p, calls) == RunCalls(w, p, calls[..n])
  {
    if n == |calls| {
      assert calls[..n] == calls;
    } else {
      assert calls[..|calls| - 1][..n] == calls[..n];
      HandoverSticks(w, p, calls[..|calls| - 1], n);
    }
  }
}
