/** Chats (`ChatService`) over the chat table, a map from chat id to
    record. A deleted chat stays in the table with its deletion time and
    is invisible to every lookup. Message counts come from `countOf`, the
    message table's count per chat. */
module ChatService {
  import opened Wrappers

  /** `Chat`; the timestamps are clock readings, and `updatedAt` is what
      sending a message touches. */
  datatype Chat = Chat(userId: string, title: string, isArchived: bool, createdAt: int, updatedAt: int,
                       deletedAt: Option<int>)

  type Chats = map<string, Chat>

  /** `ChatResponse`. */
  datatype ChatResponse = ChatResponse(id: string, title: string, isArchived: bool, createdAt: int, updatedAt: int,
                                       messageCount: nat)

  const DefaultTitle := "Новый чат"
  const NoAccess := "Чат не найден или у вас нет доступа"

  function Respond(id: string, chat: Chat, countOf: string -> nat): ChatResponse {
    ChatResponse(id, chat.title, chat.isArchived, chat.createdAt, chat.updatedAt, countOf(id))
  }

  /** `findByIdAndUserId`: the chat when it exists, belongs to the user
      and is not deleted. */
  function Find(chats: Chats, id: string, userId: string): (r: Option<Chat>)
    ensures r.Some? <==> id in chats && chats[id].userId == userId && chats[id].deletedAt.None?
    ensures r.Some? ==> r.value == chats[id]
  {
    if id in chats && chats[id].userId == userId && chats[id].deletedAt.None? then Some(chats[id]) else None
  }

  /** `findAllByUserIdAndNotDeleted`, as a set of ids. */
  function Visible(chats: Chats, userId: string): (r: set<string>)
    ensures forall id :: id in r <==> Find(chats, id, userId).Some?
  {
    set id | id in chats && chats[id].userId == userId && chats[id].deletedAt.None?
  }

  /** `createChat` under the id the database assigns: the requested title
      unless missing or empty, not archived, not deleted. */
  function CreateChat(chats: Chats, id: string, userId: string, title: Option<string>, now: int,
                      countOf: string -> nat): (r: (ChatResponse, Chats))
    requires id !in chats
    ensures id in r.1 && r.1 == chats[id := r.1[id]]
    ensures r.1[id].title == (if title.Some? && title.value != [] then title.value else DefaultTitle)
    ensures r.1[id].title != []
    ensures !r.1[id].isArchived && r.1[id].deletedAt.None? && r.1[id].userId == userId
    ensures r.0.messageCount == countOf(id) && r.0.id == id
  {
    var chat := Chat(userId, if title.Some? && title.value != [] then title.value else DefaultTitle, false, now, now, None);
    (Respond(id, chat, countOf), chats[id := chat])
  }

  /** `getChatById`. */
  function GetChat(chats: Chats, id: string, userId: string, countOf: string -> nat): (r: Result<ChatResponse, string>)
    ensures r.Ok? <==> Find(chats, id, userId).Some?
    ensures r.Err? ==> r.error == NoAccess
    ensures r.Ok? ==> r.value.id == id && r.value.title == chats[id].title && r.value.messageCount == countOf(id)
  {
    match Find(chats, id, userId)
    case None => Err(NoAccess)
    case Some(chat) => Ok(Respond(id, chat, countOf))
  }

  /** `archiveChat`: only the archived flag of that one chat changes. */
  function ArchiveChat(chats: Chats, id: string, userId: string): (r: Result<Chats, string>)
    ensures r.Ok? <==> Find(chats, id, userId).Some?
    ensures r.Err? ==> r.error == NoAccess
    ensures r.Ok? ==> r.value == chats[id := chats[id].(isArchived := true)]
  {
    match Find(chats, id, userId)
    case None => Err(NoAccess)
    case Some(chat) => Ok(chats[id := chat.(isArchived := true)])
  }

  /** `deleteChat`: a soft delete; the record stays, stamped. */
  function DeleteChat(chats: Chats, id: string, userId: string, now: int): (r: Result<Chats, string>)
    ensures r.Ok? <==> Find(chats, id, userId).Some?
    ensures r.Err? ==> r.error == NoAccess
    ensures r.Ok? ==> r.value.Keys == chats.Keys && r.value[id] == chats[id].(deletedAt := Some(now))
  {
    match Find(chats, id, userId)
    case None => Err(NoAccess)
    case Some(chat) => Ok(chats[id := chat.(deletedAt := Some(now))])
  }

  /** A new chat is found by its owner and by nobody else. */
  lemma {:induction false} CreatedChatIsFound(chats: Chats, id: string, userId: string, other: string, title: Option<string>, now: int,
                           countOf: string -> nat)
    requires id !in chats
    ensures var after := CreateChat(chats, id, userId, title, now, countOf).1;
      && GetChat(after, id, userId, countOf) == Ok(CreateChat(chats, id, userId, title, now, countOf).0)
      && (other != userId ==> GetChat(after, id, other, countOf) == Err(NoAccess))
      && Visible(after, userId) == Visible(chats, userId) + {id}
  {
  }

  /** Archiving keeps the chat visible and is idempotent. */
  lemma {:induction false} ArchiveKeepsChat(chats: Chats, id: string, userId: string)
    requires ArchiveChat(chats, id, userId).Ok?
    ensures var after := ArchiveChat(chats, id, userId).value;
      && Visible(after, userId) == Visible(chats, userId)
      && ArchiveChat(after, id, userId) == Ok(after)
  {
    var after := ArchiveChat(chats, id, userId).value;
    assert after[id := after[id].(isArchived := true)] == after;
  }

  /** After a delete, the chat is kept but every lookup, archive and delete
      of it fails, and it leaves the owner's list; the other chats are
      untouched. */
  lemma {:induction false} DeletedChatIsGone(chats: Chats, id: string, userId: string, anyUser: string, now: int, later: int,
                          countOf: string -> nat)
    requires DeleteChat(chats, id, userId, now).Ok?
    ensures var after := DeleteChat(chats, id, userId, now).value;
      && id in after
      && GetChat(after, id, anyUser, countOf) == Err(NoAccess)
      && ArchiveChat(after, id, anyUser) == Err(NoAccess)
      && DeleteChat(after, id, anyUser, later) == Err(NoAccess)
      && Visible(after, userId) == Visible(chats, userId) - {id}
      && forall other :: other in chats && other != id ==> after[other] == chats[other]
  {
  }
}
