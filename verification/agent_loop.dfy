/** One turn of the agent loop of AgentService.executeTask: the messages and
    actions it keeps, the dispatch of the tool calls a reply holds, and the
    turn that either ends the agent task or asks the chat model again. The
    loop itself is AgentRun.

    The chat model is a function of the request number and the message
    history; the tools are AgentTools.ExecuteToolSafely over the services
    passed in; `reflective` says whether a tool request object can be built
    by reflection in the running library (when it cannot, calls written as
    text go through the marker scanner instead). */
module AgentLoop {
  import opened Wrappers
  import opened JavaString
  import opened Decimal
  import opened ToolCallParser
  import AgentTools

  const MaxIterations: nat := 5

  /** One answer of the chat model: its text (`None` for `null`) and any
      structured tool calls, or the message of the exception thrown. */
  datatype Reply =
    | Reply(text: Option<string>, structured: seq<Call>)
    | Throws(message: Option<string>)

  /** The conversation sent to the model. */
  datatype Message =
    | SystemMsg(text: string)
    | UserMsg(text: string)
    | AiMsg(text: string)
    | AiTurn(text: string, calls: seq<Call>)
    | ToolResultMsg(call: Call, result: string)

  datatype ActionStatus = Completed | Failed

  /** An `ActionResponse`: the tool's name, and its result when completed
      or the error message when failed. */
  datatype Action = Action(name: string, status: ActionStatus, output: string)

  datatype Status = Success | Error | PartialSuccess

  /** `ExecuteTaskResponse`. */
  datatype Response = Response(status: Status, result: string, actions: seq<Action>)

  /** The response, with what the audit record gets (the iteration count and
      error message) and the replies the model gave, in order. */
  datatype Outcome = Outcome(response: Response, iterations: nat, auditError: Option<string>, replies: seq<Reply>)

  datatype Env = Env(
    llm: (nat, seq<Message>) -> Reply,
    tools: AgentTools.Services,
    userEmail: string,
    reflective: bool)

  const Nudge: string :=
    "ВАЖНО: Ты должен ответить на запрос пользователя конкретным действием. "
    + "Если пользователь просит создать встречу или отправить письмо, ты ДОЛЖЕН вызвать соответствующий tool. "
    + "Используй ТОЧНО этот формат (без изменений):\\n"
    + "TOOL_CALL: schedule_meeting\\n"
    + "ARGUMENTS: {\"title\": \"...\", \"start_time\": \"...\", \"attendees\": [...]}\\n\\n"
    + "ИЛИ\\n"
    + "TOOL_CALL: send_notification\\n"
    + "ARGUMENTS: {\"recipients\": [...], \"subject\": \"...\", \"message\": \"...\"}\\n\\n"
    + "НЕ возвращай пустой ответ. НЕ объясняй, что ты собираешься сделать - ВЫЗОВИ tool немедленно!"

  const EmptyReplyText: string :=
    "Извините, не удалось выполнить запрос. LLM не сгенерировал ответ. "
    + "Попробуйте переформулировать запрос или обратитесь к администратору."

  const PartialText: string := "Задача выполнена частично. Достигнут максимум итераций."

  const RateLimitText: string :=
    "Превышен лимит запросов к LLM. Проверьте лимиты вашего API ключа Google Gemini: https://aistudio.google.com/app/apikey"

  const TaskFailurePrefix: string := "Ошибка при выполнении задачи: "

  // ------------------------------------------------ completed actions

  /** No two completed actions share a tool name. */
  predicate UniqueCompleted(actions: seq<Action>) {
    forall i, j :: 0 <= i < j < |actions| && actions[i].status == Completed && actions[j].status == Completed
      ==> actions[i].name != actions[j].name
  }

  predicate IsPrefix<T(==)>(a: seq<T>, b: seq<T>) {
    |a| <= |b| && b[..|a|] == a
  }

  /** The result of the first completed action named `name`, if any. */
  function FirstCompleted(actions: seq<Action>, name: string): (r: Option<string>)
    ensures r.None? <==> forall k :: 0 <= k < |actions| ==> !(actions[k].name == name && actions[k].status == Completed)
    ensures r.Some? ==> exists k :: 0 <= k < |actions| && actions[k] == Action(name, Completed, r.value)
  {
    if actions == [] then None
    else if actions[0].name == name && actions[0].status == Completed then Some(actions[0].output)
    else
      var r := FirstCompleted(actions[1..], name);
      assert forall k :: 1 <= k < |actions| ==> actions[k] == actions[1..][k - 1];
      r
  }

  function AlreadyDone(name: string, previous: string): string {
    "Tool " + name + " уже выполнен. Результат: " + previous
  }

  // ------------------------------------------------ dispatching calls

  /** The two dispatch blocks differ only in how a result is reported back:
      calls read by the marker scanner (`Direct`) or calls the model
      returned as objects or that the line reader built (`Structured`). */
  datatype Path = Direct | Structured

  /** The state of one turn's dispatch: the history, the agent task's actions,
      the tool results to append at the end, and the `name:arguments` keys
      run in this turn. */
  datatype Dispatch = Dispatch(messages: seq<Message>, actions: seq<Action>, results: seq<Message>, keys: seq<string>)

  function Key(c: Call): string {
    c.name + ":" + c.arguments
  }

  function Exec(env: Env, c: Call): Result<string, string> {
    AgentTools.ExecuteToolSafely(env.tools, env.userEmail, c.name, c.arguments)
  }

  /** Whether the call is run: its key is new in this turn and no earlier
      action of the agent task completed a tool of that name. */
  predicate Runs(d: Dispatch, c: Call) {
    Key(c) !in d.keys && FirstCompleted(d.actions, c.name).None?
  }

  /** One call of a dispatch block. */
  function DispatchOne(env: Env, path: Path, d: Dispatch, c: Call): (r: Dispatch)
    ensures Runs(d, c) ==> r.keys == d.keys + [Key(c)]
    ensures !Runs(d, c) ==> r.keys == d.keys && r.actions == d.actions
    ensures Runs(d, c) && Exec(env, c).Ok? ==> r.actions == d.actions + [Action(c.name, Completed, Exec(env, c).value)]
    ensures Runs(d, c) && Exec(env, c).Err? ==> r.actions == d.actions + [Action(c.name, Failed, Exec(env, c).error)]
    ensures Key(c) in d.keys ==> r == d
    ensures Key(c) !in d.keys && FirstCompleted(d.actions, c.name).Some? ==>
      r == d.(messages := d.messages + [AiMsg(AlreadyDone(c.name, FirstCompleted(d.actions, c.name).value))])
    ensures Runs(d, c) ==> match Exec(env, c)
      case Ok(out) =>
        if path == Structured || env.reflective then r.messages == d.messages && r.results == d.results + [ToolResultMsg(c, out)]
        else r.messages == d.messages + [AiMsg(out)] && r.results == d.results
      case Err(m) =>
        if path == Structured then r.messages == d.messages && r.results == d.results + [ToolResultMsg(c, "Ошибка: " + m)]
        else r.messages == d.messages + [AiMsg("Ошибка при выполнении tool " + c.name + ": " + m)] && r.results == d.results
  {
    if Key(c) in d.keys then d
    else match FirstCompleted(d.actions, c.name)
      case Some(previous) => d.(messages := d.messages + [AiMsg(AlreadyDone(c.name, previous))])
      case None =>
        var keys := d.keys + [Key(c)];
        match Exec(env, c)
        case Ok(out) =>
          var actions := d.actions + [Action(c.name, Completed, out)];
          if path == Structured || env.reflective then Dispatch(d.messages, actions, d.results + [ToolResultMsg(c, out)], keys)
          else Dispatch(d.messages + [AiMsg(out)], actions, d.results, keys)
        case Err(m) =>
          var actions := d.actions + [Action(c.name, Failed, m)];
          if path == Structured then Dispatch(d.messages, actions, d.results + [ToolResultMsg(c, "Ошибка: " + m)], keys)
          else Dispatch(d.messages + [AiMsg("Ошибка при выполнении tool " + c.name + ": " + m)], actions, d.results, keys)
  }

  /** A dispatch block over all the calls of a turn, in order. */
  function DispatchAll(env: Env, path: Path, d: Dispatch, calls: seq<Call>): Dispatch
    decreases |calls|
  {
    if calls == [] then d else DispatchAll(env, path, DispatchOne(env, path, d, calls[0]), calls[1..])
  }

  predicate NoDuplicates(xs: seq<string>) {
    forall i, j :: 0 <= i < j < |xs| ==> xs[i] != xs[j]
  }

  /** One call keeps the dispatch invariants: earlier actions stay, a tool
      name completes at most once, no key runs twice in the turn, and each
      run call adds exactly one action. */
  lemma {:induction false} DispatchOneKeeps(env: Env, path: Path, d: Dispatch, c: Call)
    requires UniqueCompleted(d.actions) && NoDuplicates(d.keys)
    ensures var r := DispatchOne(env, path, d, c);
      && IsPrefix(d.actions, r.actions)
      && UniqueCompleted(r.actions)
      && NoDuplicates(r.keys)
      && |r.actions| - |d.actions| == |r.keys| - |d.keys| <= 1
  {
    var r := DispatchOne(env, path, d, c);
    if Runs(d, c) {
      assert r.actions[..|d.actions|] == d.actions;
    }
  }

  lemma {:induction false} DispatchAllKeeps(env: Env, path: Path, d: Dispatch, calls: seq<Call>)
    requires UniqueCompleted(d.actions) && NoDuplicates(d.keys)
    ensures var r := DispatchAll(env, path, d, calls);
      && IsPrefix(d.actions, r.actions)
      && UniqueCompleted(r.actions)
      && NoDuplicates(r.keys)
      && |r.actions| - |d.actions| == |r.keys| - |d.keys| <= |calls|
    decreases |calls|
  {
    if calls != [] {
      var d1 := DispatchOne(env, path, d, calls[0]);
      DispatchOneKeeps(env, path, d, calls[0]);
      DispatchAllKeeps(env, path, d1, calls[1..]);
      var r := DispatchAll(env, path, d1, calls[1..]);
      assert r.actions[..|d.actions|] == r.actions[..|d1.actions|][..|d.actions|];
    }
  }

  predicate AllToolResults(results: seq<Message>) {
    forall k :: 0 <= k < |results| ==> results[k].ToolResultMsg?
  }

  /** On the structured path every call that runs is reported by exactly
      one tool result, and the history only grows. */
  lemma {:induction false} DispatchOneReports(env: Env, d: Dispatch, c: Call)
    requires AllToolResults(d.results)
    ensures var r := DispatchOne(env, Structured, d, c);
      && AllToolResults(r.results)
      && IsPrefix(d.actions, r.actions) && IsPrefix(d.messages, r.messages)
      && |r.results| - |d.results| == |r.actions| - |d.actions|
  {
    var r := DispatchOne(env, Structured, d, c);
    assert r.actions[..|d.actions|] == d.actions;
    assert r.messages[..|d.messages|] == d.messages;
  }

  lemma {:induction false} DispatchAllReports(env: Env, d: Dispatch, calls: seq<Call>)
    requires AllToolResults(d.results)
    ensures var r := DispatchAll(env, Structured, d, calls);
      && AllToolResults(r.results)
      && IsPrefix(d.actions, r.actions) && IsPrefix(d.messages, r.messages)
      && |r.results| - |d.results| == |r.actions| - |d.actions|
    decreases |calls|
  {
    if calls == [] {
      assert d.actions[..|d.actions|] == d.actions && d.messages[..|d.messages|] == d.messages;
    } else {
      var d1 := DispatchOne(env, Structured, d, calls[0]);
      DispatchOneReports(env, d, calls[0]);
      DispatchAllReports(env, d1, calls[1..]);
      var r := DispatchAll(env, Structured, d1, calls[1..]);
      assert r.actions[..|d.actions|] == r.actions[..|d1.actions|][..|d.actions|];
      assert r.messages[..|d.messages|] == r.messages[..|d1.messages|][..|d.messages|];
    }
  }

  // ------------------------------------------------ one turn

  /** A turn either continues with a new history and actions, or ends the
      task with a response and the error message for the audit record. */
  datatype Turn = Continue(messages: seq<Message>, actions: seq<Action>) | Stop(response: Response, auditError: Option<string>)

  predicate IsRateLimited(message: string) {
    Contains(message, "429") || Contains(message, "rate")
  }

  /** The message shown for an exception: the fixed rate-limit text when the
      message mentions `429` or `rate`, otherwise the message itself. */
  function Friendly(message: Option<string>): (r: Option<string>)
    ensures message.None? ==> r.None?
  {
    if message.Some? && IsRateLimited(message.value) then Some(RateLimitText) else message
  }

  /** `extractToolCalls`: the structured calls, or, when there are none and
      the text holds the marker, the calls the line reader builds. */
  function ExtractToolCalls(text: string, structured: seq<Call>, reflective: bool): (r: seq<Call>)
    ensures structured == [] && !Contains(text, Marker) ==> r == []
  {
    if structured != [] then structured
    else if Contains(text, Marker) then ParseToolCallsFromText(text, reflective)
    else []
  }

  /** A turn whose reply has non-empty text: calls written only as text
      are reported back inline after the history, structured ones as tool
      results, and when none of those produced a result the model's own
      turn is put back instead. */
  function TextTurn(env: Env, text: string, structured: seq<Call>, messages: seq<Message>, actions: seq<Action>): (r: Turn)
    requires text != []
    ensures r.Stop? ==> r.response == Response(Success, text, actions) && r.auditError.None?
    ensures r.Stop? <==> structured == [] && !Contains(text, Marker)
  {
    var calls := ExtractToolCalls(text, structured, env.reflective);
    var marked := Contains(text, Marker);
    var parsed := if marked && calls == [] then ParseDirect(text) else [];
    if parsed != [] then
      var d := DispatchAll(env, Direct, Dispatch(messages, actions, [], []), parsed);
      Continue(d.messages + d.results, d.actions)
    else if calls == [] && !marked then
      Stop(Response(Success, text, actions), None)
    else
      var d := DispatchAll(env, Structured, Dispatch(messages, actions, [], []), calls);
      Continue(if d.results != [] then d.messages + d.results else d.messages + [AiTurn(text, structured)], d.actions)
  }

  /** Iteration `iteration` (counted from 1) given the model's reply. */
  function TakeTurn(env: Env, iteration: nat, messages: seq<Message>, actions: seq<Action>, reply: Reply): (r: Turn)
    ensures r.Stop? ==> r.response.actions == actions && r.response.status != PartialSuccess
    ensures r.Continue? ==> reply.Reply?
  {
    match reply
    case Throws(message) =>
      var shown := Friendly(message);
      Stop(Response(Error, TaskFailurePrefix + shown.GetOr("null"), actions), shown)
    case Reply(text, structured) =>
      if text.None? || text.value == [] then
        if iteration < 3 then Continue(messages + [UserMsg(Nudge)], actions)
        else Stop(Response(Error, EmptyReplyText, actions),
                  Some("LLM вернул пустой ответ после " + IntToDecimal(iteration) + " итераций"))
      else TextTurn(env, text.value, structured, messages, actions)
  }

  /** A reply that answers the user: non-empty text, no structured calls
      and no call marker. */
  predicate IsFinalAnswer(reply: Reply) {
    reply.Reply? && reply.text.Some? && reply.text.value != [] && reply.structured == []
    && !Contains(reply.text.value, Marker)
  }

  /** A reply with `null` or empty text. */
  predicate IsEmptyReply(reply: Reply) {
    reply.Reply? && (reply.text.None? || reply.text.value == [])
  }

  /** What a continuing text turn feeds back to the model: calls read
      only from the text leave the history with their inline reports and
      the tool results after it; otherwise the structured calls leave it
      with their tool results appended, or with the model's own turn
      appended when none gave a result. */
  lemma {:induction false} TextTurnFeedsBack(env: Env, text: string, structured: seq<Call>, messages: seq<Message>, actions: seq<Action>)
    requires text != []
    ensures var r := TextTurn(env, text, structured, messages, actions);
      var calls := ExtractToolCalls(text, structured, env.reflective);
      var start := Dispatch(messages, actions, [], []);
      && (Contains(text, Marker) && calls == [] && ParseDirect(text) != [] ==>
            var d := DispatchAll(env, Direct, start, ParseDirect(text));
            r == Continue(d.messages + d.results, d.actions))
      && (calls != [] || (Contains(text, Marker) && ParseDirect(text) == []) ==>
            var d := DispatchAll(env, Structured, start, calls);
            r == Continue(if d.results != [] then d.messages + d.results else d.messages + [AiTurn(text, structured)], d.actions))
  {
  }

  /** A reply with text is a text turn; an empty one before the third
      iteration continues with the nudge appended. */
  lemma {:induction false} TakeTurnCases(env: Env, iteration: nat, messages: seq<Message>, actions: seq<Action>, reply: Reply)
    ensures var r := TakeTurn(env, iteration, messages, actions, reply);
      && (IsEmptyReply(reply) && iteration < 3 ==> r == Continue(messages + [UserMsg(Nudge)], actions))
      && (reply.Reply? && reply.text.Some? && reply.text.value != [] ==>
            r == TextTurn(env, reply.text.value, reply.structured, messages, actions))
  {
  }
}
