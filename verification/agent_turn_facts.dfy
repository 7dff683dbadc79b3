/** Properties of one turn of the agent loop of AgentService.executeTask:
    which replies end the agent task and how, and what a continuing turn
    keeps and feeds back. */
module AgentTurnFacts {
  import opened Wrappers
  import opened JavaString
  import opened Decimal
  import opened ToolCallParser
  import opened AgentLoop

  // ------------------------------------------------ properties of a turn

  /** A turn ends the agent task successfully exactly on a final answer, whose
      text becomes the result; the fallback result for empty text can never
      be reached. */
  lemma {:induction false} SuccessIffFinalAnswer(env: Env, iteration: nat, messages: seq<Message>, actions: seq<Action>, reply: Reply)
    ensures var r := TakeTurn(env, iteration, messages, actions, reply);
      (r.Stop? && r.response.status == Success) <==> IsFinalAnswer(reply)
    ensures IsFinalAnswer(reply) ==>
      TakeTurn(env, iteration, messages, actions, reply) == Stop(Response(Success, reply.text.value, actions), None)
  {
  }

  /** A reply whose text holds the call marker never ends the agent task, even
      when no call can be read from it. */
  lemma {:induction false} MarkedReplyContinues(env: Env, iteration: nat, messages: seq<Message>, actions: seq<Action>, reply: Reply)
    requires reply.Reply? && reply.text.Some? && Contains(reply.text.value, Marker)
    ensures TakeTurn(env, iteration, messages, actions, reply).Continue?
  {
    ContainsOccurs(reply.text.value, Marker);
  }

  /** An empty reply costs an iteration: the first two times the model is
      nudged with a user message, from the third on the agent task fails. */
  lemma {:induction false} EmptyReplyNudges(env: Env, iteration: nat, messages: seq<Message>, actions: seq<Action>, reply: Reply)
    requires IsEmptyReply(reply)
    ensures iteration < 3 <==> TakeTurn(env, iteration, messages, actions, reply) == Continue(messages + [UserMsg(Nudge)], actions)
    ensures iteration >= 3 ==>
      var r := TakeTurn(env, iteration, messages, actions, reply); r.Stop? && r.response == Response(Error, EmptyReplyText, actions)
  {
  }

  /** An exception from the model ends the agent task with an error that keeps
      the actions so far and shows the message, replaced by the rate-limit
      text when it mentions `429` or `rate`. */
  lemma {:induction false} ThrowsEndsTask(env: Env, iteration: nat, messages: seq<Message>, actions: seq<Action>, message: string)
    ensures var r := TakeTurn(env, iteration, messages, actions, Throws(Some(message)));
      && r.Stop? && r.response.status == Error && r.response.actions == actions
      && (IsRateLimited(message) ==> r.response.result == TaskFailurePrefix + RateLimitText)
      && (!IsRateLimited(message) ==> r.response.result == TaskFailurePrefix + message)
  {
  }

  /** Why a turn ends the agent task: a final answer (success), or an exception
      or an empty reply from the third iteration on (error). */
  lemma {:induction false} StopCauses(env: Env, iteration: nat, messages: seq<Message>, actions: seq<Action>, reply: Reply)
    ensures var r := TakeTurn(env, iteration, messages, actions, reply);
      r.Stop? ==>
        || (r.response.status == Success && IsFinalAnswer(reply) && r.response.result == reply.text.value)
        || (r.response.status == Error && (reply.Throws? || (IsEmptyReply(reply) && iteration >= 3)))
  {
  }

  /** A continuing turn keeps the earlier actions and completes each tool
      name at most once. */
  lemma {:induction false} TurnKeeps(env: Env, iteration: nat, messages: seq<Message>, actions: seq<Action>, reply: Reply)
    requires UniqueCompleted(actions)
    ensures var r := TakeTurn(env, iteration, messages, actions, reply);
      r.Continue? ==> IsPrefix(actions, r.actions) && UniqueCompleted(r.actions)
  {
    var start := Dispatch(messages, actions, [], []);
    if reply.Reply? && reply.text.Some? && reply.text.value != [] {
      var text := reply.text.value;
      var calls := ExtractToolCalls(text, reply.structured, env.reflective);
      DispatchAllKeeps(env, Direct, start, ParseDirect(text));
      DispatchAllKeeps(env, Structured, start, calls);
    } else {
      assert actions[..|actions|] == actions;
    }
  }

  /** A reply with structured calls continues the agent task with the
      history extended: each call that ran comes back as one tool result at
      the end, and when none ran the model's own turn is the last message. */
  lemma {:induction false} StructuredTurnReports(env: Env, iteration: nat, messages: seq<Message>, actions: seq<Action>, text: string, structured: seq<Call>)
    requires text != [] && structured != []
    ensures var r := TakeTurn(env, iteration, messages, actions, Reply(Some(text), structured));
      && r.Continue?
      && IsPrefix(messages, r.messages) && IsPrefix(actions, r.actions)
      && var ran := |r.actions| - |actions|;
         && ran <= |r.messages|
         && (ran == 0 ==> r.messages[|r.messages| - 1] == AiTurn(text, structured))
         && (forall k :: |r.messages| - ran <= k < |r.messages| ==> r.messages[k].ToolResultMsg?)
  {
    var start := Dispatch(messages, actions, [], []);
    var d := DispatchAll(env, Structured, start, structured);
    DispatchAllReports(env, start, structured);
    assert ExtractToolCalls(text, structured, env.reflective) == structured;
    var r := TakeTurn(env, iteration, messages, actions, Reply(Some(text), structured));
    assert r == Continue(if d.results != [] then d.messages + d.results else d.messages + [AiTurn(text, structured)], d.actions);
    FedBack(messages, actions, d, text, structured);
  }

  /** The history a structured turn feeds back, given what its dispatch
      block did. */
  lemma {:induction false} FedBack(messages: seq<Message>, actions: seq<Action>, d: Dispatch, text: string, structured: seq<Call>)
    requires AllToolResults(d.results) && IsPrefix(actions, d.actions) && IsPrefix(messages, d.messages)
    requires |d.results| == |d.actions| - |actions|
    ensures var fed := if d.results != [] then d.messages + d.results else d.messages + [AiTurn(text, structured)];
      && IsPrefix(messages, fed)
      && var ran := |d.actions| - |actions|;
         && ran <= |fed|
         && (ran == 0 ==> fed[|fed| - 1] == AiTurn(text, structured))
         && (forall k :: |fed| - ran <= k < |fed| ==> fed[k].ToolResultMsg?)
  {
    var fed := if d.results != [] then d.messages + d.results else d.messages + [AiTurn(text, structured)];
    assert fed[..|messages|] == d.messages[..|messages|];
    if d.results != [] {
      assert fed == d.messages + d.results;
      forall k | |d.messages| <= k < |fed| ensures fed[k].ToolResultMsg? {
        assert fed[k] == d.results[k - |d.messages|];
      }
    }
  }
}
