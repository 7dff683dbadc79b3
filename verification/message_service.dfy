/** Messages of a chat (`MessageService`): sending one builds a short
    history from the chat's earlier exchanges, asks the agent, and stores
    the exchange whatever the agent did. The message table is a sequence in
    creation order; the agent is a parameter from the request text and the
    history to its response, or to the message of the exception it threw. */
module MessageService {
  import opened Wrappers
  import opened JavaString
  import ChatService
  import AgentLoop
  import AgentRun
  import ToolCallParser

  /** `Message`; `id` and `createdAt` are what the database assigns. */
  datatype Message = Message(
    id: string, chatId: string, userMessage: Option<string>, aiResponse: Option<string>,
    responseType: Option<string>, promptTokens: Option<int>, completionTokens: Option<int>,
    contextData: Option<seq<AgentLoop.Action>>, createdAt: int)

  /** The message table, oldest first. */
  type Messages = seq<Message>

  /** `MessageResponse`: the stored message as the client sees it. */
  datatype MessageResponse = MessageResponse(
    id: string, userMessage: Option<string>, aiResponse: Option<string>, responseType: Option<string>,
    promptTokens: Option<int>, completionTokens: Option<int>, contextData: Option<seq<AgentLoop.Action>>,
    createdAt: int)

  type Agent = (string, seq<AgentRun.HistoryItem>) -> Result<AgentLoop.Response, Option<string>>

  const UserRole := "user"
  const AssistantRole := "assistant"
  const AgentAnswer := "agent_response"
  const ErrorAnswer := "error"
  const ErrorPrefix := "Произошла ошибка при обработке запроса: "
  /** Replies holding the marker longer than this are kept in the history. */
  const LongReply: nat := 300
  /** The most history entries handed to the agent. */
  const Window: nat := 10

  function ToResponse(m: Message): (r: MessageResponse) {
    MessageResponse(m.id, m.userMessage, m.aiResponse, m.responseType, m.promptTokens, m.completionTokens,
                    m.contextData, m.createdAt)
  }

  /** `findAllByChatIdOrderByCreatedAtAsc`: the chat's messages, oldest
      first. */
  function InChat(messages: Messages, chatId: string): (r: Messages)
    ensures |r| <= |messages|
    ensures forall k :: 0 <= k < |r| ==> r[k].chatId == chatId && r[k] in messages
    ensures forall k :: 0 <= k < |messages| && messages[k].chatId == chatId ==> messages[k] in r
  {
    if messages == [] then []
    else
      var last := messages[|messages| - 1];
      InChat(messages[..|messages| - 1], chatId) + (if last.chatId == chatId then [last] else [])
  }

  // ------------------------------------------------------------ history

  /** The earlier exchanges that go into the history: both halves present,
      and the reply free of the tool-call marker or longer than 300
      characters. */
  predicate Qualifies(m: Message) {
    && m.userMessage.Some? && m.aiResponse.Some?
    && (!Contains(m.aiResponse.value, ToolCallParser.Marker) || |m.aiResponse.value| > LongReply)
  }

  /** The text after the first blank line of `last`, or else after its
      first line break, trimmed; all of it, trimmed, when it has neither. */
  function AfterBreak(last: string): (r: string)
    ensures IsTrimmed(r)
  {
    if Contains(last, "\n\n") then Trim(last[IndexOf(last, "\n\n") + 2..])
    else Trim(last[IndexOf(last, "\n") + 1..])
  }

  /** The reply as remembered: a reply with the marker is cut down to the
      answer after its last tool call, unless nothing but empty text
      follows the last marker, in which case the reply stays whole. */
  function Clean(reply: string): (r: string)
    ensures !Contains(reply, ToolCallParser.Marker) ==> r == reply
  {
    if !Contains(reply, ToolCallParser.Marker) then reply
    else
      var parts := SplitLiteral(reply, ToolCallParser.Marker);
      if |parts| > 1 then AfterBreak(parts[|parts| - 1]) else reply
  }

  /** The two history entries of one exchange. */
  function Exchange(m: Message): (r: seq<AgentRun.HistoryItem>)
    requires Qualifies(m)
    ensures |r| == 2
  {
    [AgentRun.HistoryItem(Some(UserRole), m.userMessage),
     AgentRun.HistoryItem(Some(AssistantRole), Some(Clean(m.aiResponse.value)))]
  }

  /** A history of user and assistant entries taking turns, starting with
      the user, every entry with content. */
  ghost predicate Alternates(h: seq<AgentRun.HistoryItem>) {
    && |h| % 2 == 0
    && forall k :: 0 <= k < |h| ==>
         h[k].content.Some? && h[k].role == Some(if k % 2 == 0 then UserRole else AssistantRole)
  }

  /** The entries of every qualifying exchange, oldest first. */
  function Exchanges(messages: Messages): (r: seq<AgentRun.HistoryItem>)
    ensures Alternates(r)
    ensures |r| <= 2 * |messages|
  {
    if messages == [] then []
    else
      var last := messages[|messages| - 1];
      var before := Exchanges(messages[..|messages| - 1]);
      if Qualifies(last) then before + Exchange(last) else before
  }

  /** The history handed to the agent: the last ten entries of the chat's
      exchanges, alternating user and assistant from a user entry. */
  function History(messages: Messages, chatId: string): (r: seq<AgentRun.HistoryItem>)
    ensures IsRecent(r, Exchanges(InChat(messages, chatId)))
  {
    Recent(Exchanges(InChat(messages, chatId)))
  }

  /** `r` is the last ten entries of the history `h`, or all of it when
      shorter, and takes turns as `h` does. */
  ghost predicate IsRecent(r: seq<AgentRun.HistoryItem>, h: seq<AgentRun.HistoryItem>) {
    && Alternates(r)
    && |r| <= Window
    && |r| == (if |h| > Window then Window else |h|)
    && r == h[|h| - |r|..]
  }

  /** The last ten entries of a history, or all of it when shorter. */
  function Recent(h: seq<AgentRun.HistoryItem>): (r: seq<AgentRun.HistoryItem>)
    requires Alternates(h)
    ensures IsRecent(r, h)
  {
    if |h| > Window then AlternatesSuffix(h, |h| - Window); h[|h| - Window..] else h
  }

  /** Dropping an even number of entries from the front keeps the turns. */
  lemma {:induction false} AlternatesSuffix(h: seq<AgentRun.HistoryItem>, from: nat)
    requires Alternates(h) && from <= |h| && from % 2 == 0
    ensures Alternates(h[from..])
  {
    var t := h[from..];
    forall k | 0 <= k < |t|
      ensures t[k].content.Some? && t[k].role == Some(if k % 2 == 0 then UserRole else AssistantRole)
    {
      assert t[k] == h[from + k];
    }
  }

  // ------------------------------------------------------------ sending

  /** The stored message for the agent's outcome: its text and the
      actions, when there are any, or the error text. */
  function Answer(id: string, chatId: string, request: string, outcome: Result<AgentLoop.Response, Option<string>>,
                  now: int): (m: Message)
    ensures m.id == id && m.chatId == chatId && m.userMessage == Some(request) && m.createdAt == now
    ensures m.promptTokens.None? && m.completionTokens.None?
    ensures outcome.Ok? ==> m.aiResponse == Some(outcome.value.result) && m.responseType == Some(AgentAnswer)
    ensures outcome.Ok? ==> (m.contextData.Some? <==> outcome.value.actions != [])
    ensures m.contextData.Some? ==> outcome.Ok? && m.contextData.value == outcome.value.actions
    ensures outcome.Err? ==> m.aiResponse == Some(ErrorPrefix + outcome.error.GetOr("null"))
                             && m.responseType == Some(ErrorAnswer)
  {
    match outcome
    case Ok(response) =>
      Message(id, chatId, Some(request), Some(response.result), Some(AgentAnswer), None, None,
              if response.actions != [] then Some(response.actions) else None, now)
    case Err(message) =>
      Message(id, chatId, Some(request), Some(ErrorPrefix + message.GetOr("null")), Some(ErrorAnswer), None, None,
              None, now)
  }

  /** `sendMessage`: a missing or foreign chat fails before anything else;
      otherwise the exchange is appended to the table, whatever the agent
      did, and the chat's update time is touched. */
  function SendMessage(chats: ChatService.Chats, messages: Messages, chatId: string, userId: string, request: string,
                       agent: Agent, id: string, now: int): (r: Result<(MessageResponse, ChatService.Chats, Messages), string>)
    ensures r.Err? <==> ChatService.Find(chats, chatId, userId).None?
    ensures r.Err? ==> r.error == ChatService.NoAccess
    ensures r.Ok? ==> |r.value.2| == |messages| + 1
    ensures r.Ok? ==>
      var m := r.value.2[|messages|];
      && r.value.2 == messages + [m]
      && m == Answer(id, chatId, request, agent(request, History(messages, chatId)), now)
      && r.value.0 == ToResponse(m)
      && chatId in chats
      && r.value.1 == chats[chatId := chats[chatId].(updatedAt := now)]
  {
    match ChatService.Find(chats, chatId, userId)
    case None => Err(ChatService.NoAccess)
    case Some(chat) =>
      var m := Answer(id, chatId, request, agent(request, History(messages, chatId)), now);
      Ok((ToResponse(m), chats[chatId := chat.(updatedAt := now)], messages + [m]))
  }

  /** `getAllChatMessages`: the chat's messages, newest first. */
  function GetAllChatMessages(chats: ChatService.Chats, messages: Messages, chatId: string, userId: string)
    : (r: Result<seq<MessageResponse>, string>)
    ensures r.Err? <==> ChatService.Find(chats, chatId, userId).None?
    ensures r.Err? ==> r.error == ChatService.NoAccess
    ensures r.Ok? ==> var mine := InChat(messages, chatId);
      |r.value| == |mine| && forall k :: 0 <= k < |mine| ==> r.value[k] == ToResponse(mine[|mine| - 1 - k])
  {
    if ChatService.Find(chats, chatId, userId).None? then Err(ChatService.NoAccess)
    else Ok(NewestFirst(InChat(messages, chatId)))
  }

  function NewestFirst(mine: Messages): (r: seq<MessageResponse>)
    ensures |r| == |mine| && forall k :: 0 <= k < |mine| ==> r[k] == ToResponse(mine[|mine| - 1 - k])
  {
    seq(|mine|, k requires 0 <= k < |mine| => ToResponse(mine[|mine| - 1 - k]))
  }

  /** `getChatMessages` for page `page` of `size` entries: the slice of
      the newest-first list that the page covers. */
  function GetChatMessages(chats: ChatService.Chats, messages: Messages, chatId: string, userId: string,
                           page: nat, size: nat): (r: Result<seq<MessageResponse>, string>)
    requires size > 0
    ensures r.Err? <==> ChatService.Find(chats, chatId, userId).None?
    ensures r.Err? ==> r.error == ChatService.NoAccess
    ensures r.Ok? ==> var all := GetAllChatMessages(chats, messages, chatId, userId).value;
      && |r.value| <= size
      && (page * size < |all| ==> r.value != [])
      && forall k :: 0 <= k < |r.value| ==> page * size + k < |all| && r.value[k] == all[page * size + k]
  {
    match GetAllChatMessages(chats, messages, chatId, userId)
    case Err(e) => Err(e)
    case Ok(all) =>
      var from := if page * size < |all| then page * size else |all|;
      var to := if from + size < |all| then from + size else |all|;
      Ok(all[from..to])
  }

  // ------------------------------------------------------------ properties

  /** A message of another chat changes nothing in this chat's list. */
  lemma {:induction false} InChatAppend(messages: Messages, m: Message, chatId: string)
    ensures InChat(messages + [m], chatId) == InChat(messages, chatId) + (if m.chatId == chatId then [m] else [])
  {
    assert (messages + [m])[..|messages|] == messages;
  }

  /** Plain exchanges reach the history unchanged: when every message of a
      table has both halves and no tool-call marker, the exchanges are the
      messages' own texts, user then assistant, message by message. */
  lemma {:induction false} PlainExchangesKept(messages: Messages)
    requires forall k :: 0 <= k < |messages| ==>
      messages[k].userMessage.Some? && messages[k].aiResponse.Some?
      && !Contains(messages[k].aiResponse.value, ToolCallParser.Marker)
    ensures var h := Exchanges(messages);
      && |h| == 2 * |messages|
      && forall k :: 0 <= k < |messages| ==>
           h[2 * k].content == messages[k].userMessage && h[2 * k + 1].content == messages[k].aiResponse
  {
    if messages != [] {
      var init := messages[..|messages| - 1];
      PlainExchangesKept(init);
      var last := messages[|messages| - 1];
      assert Qualifies(last);
      var h := Exchanges(messages);
      assert h == Exchanges(init) + Exchange(last);
      forall k | 0 <= k < |messages|
        ensures h[2 * k].content == messages[k].userMessage && h[2 * k + 1].content == messages[k].aiResponse
      {
        if k < |init| {
          assert messages[k] == init[k];
        }
      }
    }
  }

  /** A reply whose tool-call section is cut from the answer by a blank
      line is remembered as the trimmed answer. `before` is what precedes
      the only marker and does not end in a character of the marker;
      `call` is the call after the marker, with no blank line in it and no
      line break at its end. */
  lemma {:induction false} CleanKeepsAnswer(before: string, call: string, answer: string)
    requires !Contains(before, ToolCallParser.Marker)
    requires before == [] || before[|before| - 1] !in ToolCallParser.Marker
    requires !Contains(call + "\n\n" + answer, ToolCallParser.Marker)
    requires !Contains(call, "\n\n") && (call == [] || call[|call| - 1] != '\n')
    ensures Clean(before + ToolCallParser.Marker + call + "\n\n" + answer) == Trim(answer)
  {
    var tail := call + "\n\n" + answer;
    assert before + ToolCallParser.Marker + call + "\n\n" + answer == before + ToolCallParser.Marker + tail;
    SplitLiteralOnce(before, ToolCallParser.Marker, tail);
    CleanAfterLastMarker(before + ToolCallParser.Marker + tail, before, tail);
    AfterBlankLine(call, answer, "\n\n");
  }

  lemma {:induction false} CleanAfterLastMarker(reply: string, before: string, tail: string)
    requires Contains(reply, ToolCallParser.Marker)
    requires SplitLiteral(reply, ToolCallParser.Marker) == [before, tail]
    ensures Clean(reply) == AfterBreak(tail)
  {
  }

  lemma {:induction false} AfterBlankLine(call: string, answer: string, blank: string)
    requires blank == "\n\n"
    requires !Contains(call, blank) && (call == [] || call[|call| - 1] != '\n')
    ensures AfterBreak(call + blank + answer) == Trim(answer)
  {
    var tail := call + blank + answer;
    assert call == [] || call[|call| - 1] !in blank;
    FirstOccurrence(call, blank, answer);
    ContainsWitness(tail, blank, |call|);
    assert tail[|call| + 2..] == answer;
  }

  /** A reply that ends right after its only marker keeps the marker: the
      split drops the empty text after it, leaving at most one piece. */
  lemma {:induction false} TrailingMarkerKept(before: string)
    requires !Contains(before, ToolCallParser.Marker)
    requires before == [] || before[|before| - 1] !in ToolCallParser.Marker
    ensures Clean(before + ToolCallParser.Marker) == before + ToolCallParser.Marker
  {
    SplitLiteralTrailing(before, ToolCallParser.Marker);
  }

  /** `p` first occurs in `x + p + y` right after `x` when `x` holds no
      `p` and does not end in one of its characters. */
  lemma {:induction false} FirstOccurrence(x: string, p: string, y: string)
    requires |p| > 0 && !Contains(x, p)
    requires x == [] || x[|x| - 1] !in p
    ensures IndexOf(x + p + y, p) == |x|
  {
    var s := x + p + y;
    assert s[|x|..|x| + |p|] == p;
    assert OccursAt(s, p, |x|);
    forall i | 0 <= i < |x| ensures !OccursAt(s, p, i) {
      if OccursAt(s, p, i) {
        if i + |p| <= |x| {
          assert x[i..i + |p|] == s[i..i + |p|];
          ContainsWitness(x, p, i);
        } else {
          CharOfOccurrence(s, p, i, |x| - 1);
        }
      }
    }
  }

  /** Each character an occurrence covers is a character of the pattern. */
  lemma {:induction false} CharOfOccurrence(s: string, p: string, i: int, j: int)
    requires OccursAt(s, p, i) && i <= j < i + |p|
    ensures s[j] in p
  {
    assert s[i..i + |p|][j - i] == s[j];
  }

  /** Splitting `x + p + y` at its one occurrence of `p`. */
  lemma {:induction false} SplitOnce(x: string, p: string, y: string)
    requires |p| > 0 && !Contains(x, p) && !Contains(y, p)
    requires x == [] || x[|x| - 1] !in p
    ensures SplitRaw(x + p + y, p) == [x, y]
  {
    var s := x + p + y;
    FirstOccurrence(x, p, y);
    assert s[..|x|] == x && s[|x| + |p|..] == y;
    assert IndexOf(y, p) == -1;
  }

  lemma {:induction false} SplitLiteralOnce(x: string, p: string, y: string)
    requires |p| > 0 && !Contains(x, p) && !Contains(y, p) && y != []
    requires x == [] || x[|x| - 1] !in p
    ensures Contains(x + p + y, p) && SplitLiteral(x + p + y, p) == [x, y]
  {
    SplitOnce(x, p, y);
    FirstOccurrence(x, p, y);
  }

  lemma {:induction false} SplitLiteralTrailing(x: string, p: string)
    requires |p| > 0 && !Contains(x, p)
    requires x == [] || x[|x| - 1] !in p
    ensures Contains(x + p, p) && |SplitLiteral(x + p, p)| <= 1
  {
    assert x + p == x + p + [];
    SplitOnce(x, p, []);
    FirstOccurrence(x, p, []);
  }

  /** Every entry of the history reaches the agent's conversation: the
      agent seeds one message per entry, users as user messages and
      assistants as model messages. */
  lemma {:induction false} SeedKeepsEveryEntry(h: seq<AgentRun.HistoryItem>)
    requires Alternates(h)
    ensures Mirrors(h, AgentRun.Seed(h))
    decreases |h|
  {
    if h != [] {
      assert h[0].content.Some? && h[0].role == Some(UserRole);
      assert h[1].content.Some? && h[1].role == Some(AssistantRole);
      AlternatesSuffix(h, 2);
      SeedKeepsEveryEntry(h[2..]);
      SeedPair(h);
      MirrorsCons(h, AgentRun.Seed(h[2..]));
    }
  }

  /** The agent's message for the `k`-th entry of an alternating history. */
  function Seeded(h: seq<AgentRun.HistoryItem>, k: nat): AgentLoop.Message
    requires k < |h| && h[k].content.Some?
  {
    if k % 2 == 0 then AgentLoop.UserMsg(h[k].content.value) else AgentLoop.AiMsg(h[k].content.value)
  }

  /** `m` holds one message per entry of `h`, in order. */
  ghost predicate Mirrors(h: seq<AgentRun.HistoryItem>, m: seq<AgentLoop.Message>) {
    && |m| == |h|
    && forall k :: 0 <= k < |h| ==> h[k].content.Some? && m[k] == Seeded(h, k)
  }

  /** A user entry and an assistant entry, seeded. */
  lemma {:induction false} SeedPair(h: seq<AgentRun.HistoryItem>)
    requires |h| >= 2
    requires h[0].content.Some? && h[0].role == Some(UserRole)
    requires h[1].content.Some? && h[1].role == Some(AssistantRole)
    ensures AgentRun.Seed(h) == [AgentLoop.UserMsg(h[0].content.value), AgentLoop.AiMsg(h[1].content.value)]
      + AgentRun.Seed(h[2..])
  {
    assert h[1..][0] == h[1] && h[1..][1..] == h[2..];
  }

  lemma {:induction false} MirrorsCons(h: seq<AgentRun.HistoryItem>, m: seq<AgentLoop.Message>)
    requires |h| >= 2 && h[0].content.Some? && h[1].content.Some?
    requires Mirrors(h[2..], m)
    ensures Mirrors(h, [AgentLoop.UserMsg(h[0].content.value), AgentLoop.AiMsg(h[1].content.value)] + m)
  {
    var all := [AgentLoop.UserMsg(h[0].content.value), AgentLoop.AiMsg(h[1].content.value)] + m;
    forall k | 2 <= k < |h| ensures h[k].content.Some? && all[k] == Seeded(h, k) {
      assert h[2..][k - 2] == h[k] && all[k] == m[k - 2];
      assert Seeded(h[2..], k - 2) == Seeded(h, k);
    }
  }

  /** Sending then listing: the new message heads the chat's list, and the
      chat stays visible to its owner. */
  lemma {:induction false} SentMessageListedFirst(chats: ChatService.Chats, messages: Messages, chatId: string, userId: string,
                               request: string, agent: Agent, id: string, now: int)
    requires SendMessage(chats, messages, chatId, userId, request, agent, id, now).Ok?
    ensures var after := SendMessage(chats, messages, chatId, userId, request, agent, id, now).value;
      && GetAllChatMessages(after.1, after.2, chatId, userId).Ok?
      && GetAllChatMessages(after.1, after.2, chatId, userId).value[0] == after.0
      && |GetAllChatMessages(after.1, after.2, chatId, userId).value| == |InChat(messages, chatId)| + 1
  {
    var after := SendMessage(chats, messages, chatId, userId, request, agent, id, now).value;
    var m := after.2[|messages|];
    InChatAppend(messages, m, chatId);
    assert ChatService.Find(after.1, chatId, userId).Some?;
  }

  /** The agent as `AgentService.executeTask` for a user who exists
      (`userFound`) or not: its response, or the message of the exception
      it throws. */
  function AgentOf(env: AgentLoop.Env, userFound: bool, systemPrompt: string): Agent {
    (q: string, h: seq<AgentRun.HistoryItem>) =>
      match AgentRun.ExecuteTask(env, userFound, systemPrompt, h, q)
      case Ok(o) => Ok(o.response)
      case Err(e) => Err(Some(e))
  }

  /** When the agent rejects the caller as an unknown user, the exchange is
      still stored, as an error naming that user. */
  lemma {:induction false} UnknownUserStoredAsError(chats: ChatService.Chats, messages: Messages, chatId: string, userId: string,
                                 request: string, env: AgentLoop.Env, systemPrompt: string, id: string, now: int)
    requires ChatService.Find(chats, chatId, userId).Some?
    ensures var r := SendMessage(chats, messages, chatId, userId, request, AgentOf(env, false, systemPrompt), id, now);
      && r.Ok?
      && r.value.0.aiResponse == Some(ErrorPrefix + "Пользователь не найден: " + env.userEmail)
      && r.value.0.responseType == Some(ErrorAnswer)
      && |r.value.2| == |messages| + 1
  {
    var outcome := AgentOf(env, false, systemPrompt)(request, History(messages, chatId));
    var text := "Пользователь не найден: " + env.userEmail;
    assert outcome == Err(Some(text));
    var m := Answer(id, chatId, request, outcome, now);
    assert m.aiResponse == Some(ErrorPrefix + text);
    assert ErrorPrefix + text == ErrorPrefix + "Пользователь не найден: " + env.userEmail;
  }
}
