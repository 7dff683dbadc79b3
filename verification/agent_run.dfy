/** The agent loop of AgentService.executeTask run to its end: at most five
    turns, started from the system prompt, the chat history and the request,
    and what the outcome says about the replies and the actions. */
module AgentRun {
  import opened Wrappers
  import opened JavaString
  import opened Decimal
  import opened ToolCallParser
  import opened AgentLoop
  import opened AgentTurnFacts

  // ------------------------------------------------ the loop

  /** The loop after `done` iterations. */
  function Run(env: Env, done: nat, messages: seq<Message>, actions: seq<Action>, replies: seq<Reply>): (o: Outcome)
    requires done <= MaxIterations
    decreases MaxIterations - done
  {
    if done == MaxIterations then Outcome(Response(PartialSuccess, PartialText, actions), MaxIterations, None, replies)
    else
      var reply := env.llm(done, messages);
      match TakeTurn(env, done + 1, messages, actions, reply)
      case Continue(messages', actions') => Run(env, done + 1, messages', actions', replies + [reply])
      case Stop(response, auditError) => Outcome(response, done + 1, auditError, replies + [reply])
  }

  /** A chat-history entry: `role` and `content`, either possibly null. */
  datatype HistoryItem = HistoryItem(role: Option<string>, content: Option<string>)

  /** The history as messages: user entries and assistant entries with
      content, in order; anything else is dropped. */
  function Seed(history: seq<HistoryItem>): (r: seq<Message>)
    ensures |r| <= |history|
    ensures forall k :: 0 <= k < |r| ==> r[k].UserMsg? || r[k].AiMsg?
  {
    if history == [] then []
    else
      var h := history[0];
      var head :=
        if h.role == Some("user") && h.content.Some? then [UserMsg(h.content.value)]
        else if h.role == Some("assistant") && h.content.Some? then [AiMsg(h.content.value)]
        else [];
      head + Seed(history[1..])
  }

  /** One history entry seeds its own message: a user or an assistant
      entry with content becomes that message, anything else none. */
  lemma {:induction false} SeedOne(h: HistoryItem)
    ensures h.role == Some("user") && h.content.Some? ==> Seed([h]) == [UserMsg(h.content.value)]
    ensures h.role == Some("assistant") && h.content.Some? ==> Seed([h]) == [AiMsg(h.content.value)]
    ensures (h.role != Some("user") && h.role != Some("assistant")) || h.content.None? ==> Seed([h]) == []
  {
  }

  /** The history is seeded entry by entry, in order: the messages of two
      parts are those of the first followed by those of the second. */
  lemma {:induction false} SeedConcat(a: seq<HistoryItem>, b: seq<HistoryItem>)
    ensures Seed(a + b) == Seed(a) + Seed(b)
    decreases |a|
  {
    if a != [] {
      SeedConcat(a[1..], b);
      assert (a + b)[0] == a[0];
      assert (a + b)[1..] == a[1..] + b;
    } else {
      assert a + b == b;
    }
  }

  /** `executeTask`: the user must exist; the conversation starts with the
      system prompt, the history and the request. */
  function ExecuteTask(env: Env, userFound: bool, systemPrompt: string, history: seq<HistoryItem>, request: string): (r: Result<Outcome, string>)
    ensures !userFound <==> r.Err?
    ensures r.Err? ==> r.error == "Пользователь не найден: " + env.userEmail
  {
    if !userFound then Err("Пользователь не найден: " + env.userEmail)
    else Ok(Run(env, 0, [SystemMsg(systemPrompt)] + Seed(history) + [UserMsg(request)], [], []))
  }

  // ------------------------------------------------ properties of the loop

  /** One iteration of the loop: the reply to the current history decides
      whether the loop goes on or stops. */
  lemma {:induction false} RunStep(env: Env, done: nat, messages: seq<Message>, actions: seq<Action>, replies: seq<Reply>)
    requires done < MaxIterations
    ensures var reply := env.llm(done, messages);
      var turn := TakeTurn(env, done + 1, messages, actions, reply);
      Run(env, done, messages, actions, replies)
        == if turn.Continue? then Run(env, done + 1, turn.messages, turn.actions, replies + [reply])
           else Outcome(turn.response, done + 1, turn.auditError, replies + [reply])
  {
  }

  /** The loop asks the model at most five times and records each
      reply. */
  lemma {:induction false} RunCount(env: Env, done: nat, messages: seq<Message>, actions: seq<Action>, replies: seq<Reply>)
    requires done <= MaxIterations && |replies| == done
    ensures var o := Run(env, done, messages, actions, replies);
      && o.iterations == |o.replies| && done <= o.iterations <= MaxIterations
      && (done < MaxIterations ==> done < o.iterations)
    decreases MaxIterations - done
  {
    if done < MaxIterations {
      var reply := env.llm(done, messages);
      var turn := TakeTurn(env, done + 1, messages, actions, reply);
      if turn.Continue? {
        RunCount(env, done + 1, turn.messages, turn.actions, replies + [reply]);
      }
    }
  }

  /** The replies already seen stay, and the next request goes out with
      the history the loop has at that point. */
  lemma {:induction false} RunReplies(env: Env, done: nat, messages: seq<Message>, actions: seq<Action>, replies: seq<Reply>)
    requires done <= MaxIterations && |replies| == done
    ensures var o := Run(env, done, messages, actions, replies);
      && IsPrefix(replies, o.replies)
      && (done < MaxIterations ==> done < |o.replies| && o.replies[done] == env.llm(done, messages))
    decreases MaxIterations - done
  {
    if done < MaxIterations {
      var reply := env.llm(done, messages);
      var turn := TakeTurn(env, done + 1, messages, actions, reply);
      var replies' := replies + [reply];
      assert replies'[..|replies|] == replies;
      RunStep(env, done, messages, actions, replies);
      if turn.Continue? {
        RunReplies(env, done + 1, turn.messages, turn.actions, replies');
        var o := Run(env, done + 1, turn.messages, turn.actions, replies');
        assert o.replies[..|replies|] == o.replies[..|replies'|][..|replies|];
        assert o.replies[done] == o.replies[..|replies'|][done] == replies'[done];
      }
    } else {
      assert replies[..|replies|] == replies;
    }
  }

  /** The actions only grow and complete each tool name at most once. */
  lemma {:induction false} RunActions(env: Env, done: nat, messages: seq<Message>, actions: seq<Action>, replies: seq<Reply>)
    requires done <= MaxIterations && UniqueCompleted(actions)
    ensures var o := Run(env, done, messages, actions, replies);
      IsPrefix(actions, o.response.actions) && UniqueCompleted(o.response.actions)
    decreases MaxIterations - done
  {
    if done < MaxIterations {
      var reply := env.llm(done, messages);
      var turn := TakeTurn(env, done + 1, messages, actions, reply);
      TurnKeeps(env, done + 1, messages, actions, reply);
      if turn.Continue? {
        RunActions(env, done + 1, turn.messages, turn.actions, replies + [reply]);
        var o := Run(env, done + 1, turn.messages, turn.actions, replies + [reply]);
        assert o.response.actions[..|actions|] == o.response.actions[..|turn.actions|][..|actions|];
      } else {
        assert actions[..|actions|] == actions;
      }
    } else {
      assert actions[..|actions|] == actions;
    }
  }

  /** A partial success comes only after the fifth iteration, with the
      fixed partial-success text. */
  lemma {:induction false} RunPartial(env: Env, done: nat, messages: seq<Message>, actions: seq<Action>, replies: seq<Reply>)
    requires done <= MaxIterations
    ensures var o := Run(env, done, messages, actions, replies);
      o.response.status == PartialSuccess ==> o.iterations == MaxIterations && o.response.result == PartialText
    decreases MaxIterations - done
  {
    if done < MaxIterations {
      var reply := env.llm(done, messages);
      var turn := TakeTurn(env, done + 1, messages, actions, reply);
      RunStep(env, done, messages, actions, replies);
      if turn.Continue? {
        RunPartial(env, done + 1, turn.messages, turn.actions, replies + [reply]);
      }
    }
  }

  /** A success whose result is the text of the last reply, a final
      answer. */
  predicate SucceedsOnFinalAnswer(o: Outcome) {
    o.response.status == Success ==>
      && 1 <= o.iterations == |o.replies|
      && IsFinalAnswer(o.replies[o.iterations - 1])
      && o.response.result == o.replies[o.iterations - 1].text.value
  }

  /** A success returns the text of the last reply, a final answer. */
  lemma {:induction false} RunSuccess(env: Env, done: nat, messages: seq<Message>, actions: seq<Action>, replies: seq<Reply>)
    requires done <= MaxIterations && |replies| == done
    ensures SucceedsOnFinalAnswer(Run(env, done, messages, actions, replies))
    decreases MaxIterations - done
  {
    if done < MaxIterations {
      var reply := env.llm(done, messages);
      var turn := TakeTurn(env, done + 1, messages, actions, reply);
      if turn.Continue? {
        RunSuccess(env, done + 1, turn.messages, turn.actions, replies + [reply]);
        ContinuedSuccess(env, done, messages, actions, replies, reply, turn);
      } else {
        RunStep(env, done, messages, actions, replies);
        StoppedSuccess(env, done + 1, messages, actions, reply, replies);
      }
    }
  }

  /** A turn that continues leaves the outcome to the rest of the loop. */
  lemma {:induction false} ContinuedSuccess(env: Env, done: nat, messages: seq<Message>, actions: seq<Action>, replies: seq<Reply>,
                                            reply: Reply, turn: Turn)
    requires done < MaxIterations && reply == env.llm(done, messages)
    requires turn == TakeTurn(env, done + 1, messages, actions, reply) && turn.Continue?
    requires SucceedsOnFinalAnswer(Run(env, done + 1, turn.messages, turn.actions, replies + [reply]))
    ensures SucceedsOnFinalAnswer(Run(env, done, messages, actions, replies))
  {
    RunStep(env, done, messages, actions, replies);
  }

  /** The outcome of a turn that stops, with the replies before it. */
  lemma {:induction false} StoppedSuccess(env: Env, iteration: nat, messages: seq<Message>, actions: seq<Action>, reply: Reply,
                                          replies: seq<Reply>)
    requires TakeTurn(env, iteration, messages, actions, reply).Stop? && |replies| + 1 == iteration
    ensures var turn := TakeTurn(env, iteration, messages, actions, reply);
      SucceedsOnFinalAnswer(Outcome(turn.response, iteration, turn.auditError, replies + [reply]))
  {
    StopCauses(env, iteration, messages, actions, reply);
    assert (replies + [reply])[iteration - 1] == reply;
  }

  /** The task as a whole: a missing user fails before the model is asked;
      otherwise the model is asked between one and five times, and at most
      one action per tool name is completed. */
  lemma {:induction false} ExecuteTaskFacts(env: Env, userFound: bool, systemPrompt: string, history: seq<HistoryItem>, request: string)
    ensures var r := ExecuteTask(env, userFound, systemPrompt, history, request);
      r.Ok? ==>
        && 1 <= r.value.iterations == |r.value.replies| <= MaxIterations
        && UniqueCompleted(r.value.response.actions)
        && r.value.replies[0] == env.llm(0, [SystemMsg(systemPrompt)] + Seed(history) + [UserMsg(request)])
  {
    if userFound {
      var start := [SystemMsg(systemPrompt)] + Seed(history) + [UserMsg(request)];
      RunCount(env, 0, start, [], []);
      RunReplies(env, 0, start, [], []);
      RunActions(env, 0, start, [], []);
    }
  }
}
