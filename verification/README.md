# copilot — a Dafny model of the assistant's core

The repository is a Spring service for a corporate assistant. It keeps users, chats and messages. An agent reads a
chat request, calls a chat model up to five times, and runs the tools the model asks for. The tools schedule Jitsi
meetings, send notifications and compose letters. The service also provisions a CalDAV calendar and a mailbox for
every user, writes meetings into those calendars as iCalendar events, and imports users from CSV or Excel uploads.

This project models that core as immutable datatypes and pure functions over `seq<char>`. It proves what the code
promises of them. The chat model, the password hasher, the token signer, the clock, the random source, the mail
server, the CalDAV server and the database become parameters of the functions. The repositories become maps and
sequences.

Modules, one per component of the source:

| module | file | models |
|---|---|---|
| `AgentLoop` | agent_loop.dfy | `AgentService.executeTask`, one turn: the two dispatch blocks and what a reply leads to |
| `AgentTurnFacts` | agent_turn_facts.dfy | properties of one turn: which replies end the agent task, what a continuing turn keeps and feeds back |
| `AgentRun` | agent_run.dfy | `AgentService.executeTask`, the five-request loop and its outcomes |
| `ToolCallParser` | tool_call_parser.dfy | `parseToolCallsFromTextDirectly` (marker scanner) and `parseToolCallsFromText` (line reader) |
| `ToolCallRender` | tool_call_render.dfy | the call format the system prompt teaches, and both readers' round trip over it |
| `AgentTools` | agent_tools.dfy | `executeToolSafely`, the argument getters, `filterValidAttendees`, the three tool handlers |
| `Json` | json.dfy | the argument map Jackson produces and `String.valueOf` of its values |
| `LlmService` | llm_service.dfy | `LLMService.generate` and `generateStream` |
| `MessageService` | message_service.dfy | `MessageService.sendMessage` (history filtering, cleaning, window) and the message queries |
| `ChatService` | chat_service.dfy | `ChatService`: create, get, archive and soft delete |
| `HealthService` | health_service.dfy | `HealthService.checkAll` |
| `AuthService` | auth_service.dfy | `AuthService`: register, login, refresh, change and reset password |
| `Users` | users.dfy | the user record and `generateTempPassword` |
| `ImportParser` | import_parser.dfy | `UserImportParser`: extension dispatch, CSV and Excel rows |
| `ImportService` | import_service.dfy | `UserImportService`: `importUser`, the tally, the status rule, the import log |
| `CalendarEvents` | calendar_service.dfy | `CalendarService.createEvent` and the CalDAV PUT outcome with the 404 retry |
| `ICalendar` | ical.dfy | `generateICalendarContent` and `escapeICalText` (sections 3.3.11, 3.4 and 3.6.1 of RFC 5545) |
| `CalendarName` | calendar_name.dfy | `transliterateRussianToLatin` and `sanitizeCalendarName` (both copies) |
| `Provisioning` | provisioning.dfy | `CalendarProvisioningService`: the MKCOL request (section 5.1 of RFC 5689), the status line (section 4 of RFC 9112) |
| `CrlfLines` | crlf.dfy | CRLF line framing shared by the iCalendar text and the HTTP request head |
| `Meeting` | meeting.dfy | `MeetingService`: room id, link, event description, invitations |
| `WelcomeEmail` | welcome_email.dfy | `UserWelcomeEmailService`: the two welcome letters and the calendar URL |
| `JavaString`, `Replace`, `Decimal`, `Wrappers` | java_string.dfy, replace.dfy, decimal.dfy, wrappers.dfy | the `java.lang.String` operations the code relies on, replace chains, decimal text and `int` narrowing, `Option`/`Result` |

## Model

| member | source | states |
|---|---|---|
| AgentLoop.FirstCompleted | src/main/java/com/copilot/llm/service/AgentService.java:222-229 | the earlier result reported for a repeated tool: none exactly when no action of that name completed, otherwise the output of a completed action of that name |
| AgentLoop.DispatchOne | src/main/java/com/copilot/llm/service/AgentService.java:198-373 | a call runs exactly when its `name:arguments` key is new in the turn and no completed action has its name; a repeated key changes nothing; a tool already completed earlier adds only the reminder "Tool X уже выполнен. Результат: " with its first result; a run call adds its key and exactly one action, `completed` with the result or `failed` with the error, and reports it as a tool result ("Ошибка: " before an error) on the structured path, or inline as a model message ("Ошибка при выполнении tool X: " before an error) on the text path |
| AgentLoop.DispatchOneKeeps | src/main/java/com/copilot/llm/service/AgentService.java:206-269 | one call keeps the earlier actions as a prefix, keeps at most one completed action per tool name and no repeated key, and adds as many actions as keys, at most one |
| AgentLoop.DispatchAllKeeps | src/main/java/com/copilot/llm/service/AgentService.java:194-269 | a whole dispatch block keeps the same invariants; it adds at most one action per call |
| AgentLoop.DispatchOneReports | src/main/java/com/copilot/llm/service/AgentService.java:306-373 | on the structured path one call keeps the history and actions as prefixes and adds one tool result per action it adds |
| AgentLoop.DispatchAllReports | src/main/java/com/copilot/llm/service/AgentService.java:306-373 | the same over all the calls of a turn: the results are tool results, exactly one per action added |
| AgentLoop.ExtractToolCalls | src/main/java/com/copilot/llm/service/AgentService.java:612-634 | a reply with no structured calls and no call marker yields no calls |
| AgentLoop.TextTurn | src/main/java/com/copilot/llm/service/AgentService.java:178-305 | a reply with text stops the agent task exactly when it has neither structured calls nor the marker, and then as a success whose result is that text with the actions unchanged |
| AgentLoop.TakeTurn | src/main/java/com/copilot/llm/service/AgentService.java:128-404 | a turn that stops the agent task keeps the actions so far and never reports `partial_success`; an exception from the model never continues it |
| AgentLoop.TextTurnFeedsBack | src/main/java/com/copilot/llm/service/AgentService.java:187-385 | what a continuing text turn feeds back: calls read only from the text leave the history with their inline reports and then the tool results; otherwise the structured calls append their tool results, or the model's own turn when none gave a result |
| AgentLoop.TakeTurnCases | src/main/java/com/copilot/llm/service/AgentService.java:148-161 | a reply with text is handled as a text turn; an empty reply before the third iteration continues with the nudge appended as a user message |
| AgentTurnFacts.SuccessIffFinalAnswer | src/main/java/com/copilot/llm/service/AgentService.java:184-305 | a turn ends in `success` exactly when the reply has non-empty text, no structured call and no `TOOL_CALL:`; the result is that text, so the "Задача выполнена" fallback is never reached |
| AgentTurnFacts.MarkedReplyContinues | src/main/java/com/copilot/llm/service/AgentService.java:184-277 | a reply whose text holds `TOOL_CALL:` never ends the agent task, even when no call can be read from it |
| AgentTurnFacts.EmptyReplyNudges | src/main/java/com/copilot/llm/service/AgentService.java:148-175 | an empty or null reply before the third iteration appends the corrective user message and continues; from the third iteration on it ends in `error` with the fixed text and the actions so far |
| AgentTurnFacts.ThrowsEndsTask | src/main/java/com/copilot/llm/service/AgentService.java:387-404 | an exception ends the agent task in `error` with the actions so far; the result shows the message, or the fixed rate-limit text when the message contains "429" or "rate" |
| AgentTurnFacts.StopCauses | src/main/java/com/copilot/llm/service/AgentService.java:148-404 | a turn stops the agent task only on a final answer (`success`), or on an exception or an empty reply from the third iteration on (`error`) |
| AgentTurnFacts.TurnKeeps | src/main/java/com/copilot/llm/service/AgentService.java:194-373 | a continuing turn keeps the earlier actions as a prefix and at most one completed action per tool name |
| AgentTurnFacts.StructuredTurnReports | src/main/java/com/copilot/llm/service/AgentService.java:306-385 | a reply with structured calls continues the agent task with the history extended: each call that ran comes back as one tool result at the end, and when none ran the model's own turn is the last message |
| AgentTurnFacts.FedBack | src/main/java/com/copilot/llm/service/AgentService.java:380-385 | the history fed back after a structured dispatch: tool results, one per action added, at the end, or the model's turn when there are none |
| AgentRun.RunStep | src/main/java/com/copilot/llm/service/AgentService.java:125-135 | each iteration sends the current history and either stops with that turn's response or goes on with the turn's history and actions |
| AgentRun.RunCount | src/main/java/com/copilot/llm/service/AgentService.java:46-127 | the model is asked at least once and at most MAX_ITERATIONS = 5 times, and the audit record's iteration count equals the number of replies |
| AgentRun.RunReplies | src/main/java/com/copilot/llm/service/AgentService.java:125-135 | the replies seen so far are kept, and the next request carries the history the loop has at that point |
| AgentRun.RunActions | src/main/java/com/copilot/llm/service/AgentService.java:121-373 | across the whole loop the actions only grow and at most one action per tool name is `completed` |
| AgentRun.RunPartial | src/main/java/com/copilot/llm/service/AgentService.java:408-417 | `partial_success` comes only after the fifth iteration, with the fixed partial-success text |
| AgentRun.RunSuccess | src/main/java/com/copilot/llm/service/AgentService.java:275-305 | a `success` returns the text of the last reply, and that reply is a final answer |
| AgentRun.ExecuteTask | src/main/java/com/copilot/llm/service/AgentService.java:85-86 | a missing user fails with "Пользователь не найден: " and the address, before the model is asked |
| AgentRun.ExecuteTaskFacts | src/main/java/com/copilot/llm/service/AgentService.java:100-418 | for a known user the first request carries the system prompt, the history and the request; the model is asked one to five times; at most one action per tool name completes |
| AgentRun.Seed | src/main/java/com/copilot/llm/service/AgentService.java:104-116 | the history adds at most one message per entry, each a user or an assistant message |
| AgentRun.SeedOne | src/main/java/com/copilot/llm/service/AgentService.java:104-116 | an entry with role "user" and content becomes that user message, one with role "assistant" and content that assistant message, and any other entry (another role, no role, or null content) none |
| AgentRun.SeedConcat | src/main/java/com/copilot/llm/service/AgentService.java:104-116 | the history is turned into messages entry by entry in order: the messages of two joined parts are the first part's followed by the second's |
| ToolCallParser.ScanEnd | src/main/java/com/copilot/llm/service/AgentService.java:683-721 | the brace scan ends one past the `}` that brings the depth back to zero, or at the end of the text |
| ToolCallParser.SkipBlankPrefix | src/main/java/com/copilot/llm/service/AgentService.java:677-680 | the skip stops at the first character that is not a space, LF or CR |
| ToolCallParser.CutAfterLastBrace | src/main/java/com/copilot/llm/service/AgentService.java:727-735 | cutting after the last `}` keeps a prefix, never empties a non-empty text, and keeps a text that already ends in `}` |
| ToolCallParser.DropTextAfterJson | src/main/java/com/copilot/llm/service/AgentService.java:723-744 | the clean-up keeps a non-empty prefix of the arguments |
| ToolCallParser.DropTextAfterJsonEndsWithBrace | src/main/java/com/copilot/llm/service/AgentService.java:723-744 | trimmed arguments that hold a `}` come out ending in `}` |
| ToolCallParser.NameEnd | src/main/java/com/copilot/llm/service/AgentService.java:652-657 | the name ends at the first LF after the marker, or at the end of the text |
| ToolCallParser.NameAt | src/main/java/com/copilot/llm/service/AgentService.java:652-658 | the name read after a marker holds no line break |
| ToolCallParser.ArgumentsFrom | src/main/java/com/copilot/llm/service/AgentService.java:666-744 | the arguments read hold a `}` only as their last character |
| ToolCallParser.ArgumentsAt | src/main/java/com/copilot/llm/service/AgentService.java:660-665 | the arguments of a call come after the first `ARGUMENTS:` past its marker |
| ToolCallParser.CallAt | src/main/java/com/copilot/llm/service/AgentService.java:746-752 | a call is emitted only with a non-empty one-line name and non-empty arguments |
| ToolCallParser.ParseDirectFrom | src/main/java/com/copilot/llm/service/AgentService.java:646-756 | every call the scanner emits has a non-empty one-line name and non-empty arguments ending in `}` when they hold one |
| ToolCallParser.ParseDirect | src/main/java/com/copilot/llm/service/AgentService.java:641-763 | a text without `TOOL_CALL:` gives no calls, and every call emitted is well formed |
| ToolCallParser.ParseDirectCount | src/main/java/com/copilot/llm/service/AgentService.java:646-756 | the scanner emits at most one call per occurrence of `TOOL_CALL:` |
| ToolCallParser.Flush | src/main/java/com/copilot/llm/service/AgentService.java:820-835 | finishing the line reader keeps the calls read and adds at most the one being read |
| ToolCallParser.ReadLine | src/main/java/com/copilot/llm/service/AgentService.java:780-816 | a marker line starts a new call with no arguments; any other line adds no call and keeps the current name |
| ToolCallParser.ParseToolCallsFromText | src/main/java/com/copilot/llm/service/AgentService.java:769-958 | when the request object cannot be built by reflection, the line reader returns no call |
| ToolCallParser.ParseLinesCount | src/main/java/com/copilot/llm/service/AgentService.java:779-835 | the line reader emits at most one call per line that starts with `TOOL_CALL:` |
| ToolCallRender.Render | src/main/java/com/copilot/llm/service/AgentService.java:586-588 | the prompted format starts with the call marker |
| ToolCallRender.JsonPrefixFlat | src/main/java/com/copilot/llm/service/AgentService.java:683-721 | the brace scanner copies a one-line JSON object without nesting whole |
| ToolCallRender.ParseDirectRender | src/main/java/com/copilot/llm/service/AgentService.java:586-763 | the marker scanner reads back exactly the call written in the prompted format |
| ToolCallRender.ParseLinesRender | src/main/java/com/copilot/llm/service/AgentService.java:586-846 | the line reader assembles exactly the call written in the prompted format |
| ToolCallRender.ReadersAgreeOnRender | src/main/java/com/copilot/llm/service/AgentService.java:612-846 | with reflection available, both readers agree on a call in the prompted format |
| AgentTools.GetStr | src/main/java/com/copilot/llm/service/AgentService.java:1141-1145 | fails exactly on a null or absent value, with "Отсутствует обязательный параметр: " and the key; otherwise gives the value as `String.valueOf` prints it |
| AgentTools.GetStrOr | src/main/java/com/copilot/llm/service/AgentService.java:1154-1157 | a null or absent value gives the default, any other value its printed text |
| AgentTools.GetInt | src/main/java/com/copilot/llm/service/AgentService.java:1147-1152 | null gives the default; an integral number its low 32 bits; a fractional number its truncation clamped to `int`; text that is not an `int` fails with the parser's message |
| AgentTools.GetIntOfText | src/main/java/com/copilot/llm/service/AgentService.java:1147-1152 | a 32-bit number written as text reads back as that number |
| AgentTools.GetStrings | src/main/java/com/copilot/llm/service/AgentService.java:1159-1173 | a list gives its elements printed one by one; anything else fails with "Параметр k должен быть …" |
| AgentTools.GetListOfStrings | src/main/java/com/copilot/llm/service/AgentService.java:1167-1173 | a list of strings reads back as those strings |
| AgentTools.KnownUsers | src/main/java/com/copilot/llm/service/AgentService.java:1035-1051 | the valid addresses are the trimmed, lower-cased, non-blank inputs of existing users, and each such input is among them |
| AgentTools.UnknownUsers | src/main/java/com/copilot/llm/service/AgentService.java:995-1003 | the invalid addresses are the normalised non-blank inputs that are neither users nor the organizer |
| AgentTools.KnownOrUnknown | src/main/java/com/copilot/llm/service/AgentService.java:995-1051 | every non-blank input is valid, invalid or the organizer, and never both valid and invalid |
| AgentTools.FilterValidAttendees | src/main/java/com/copilot/llm/service/AgentService.java:1032-1059 | the list is the known attendees in input order, then the lower-cased organizer exactly when not already among them; every entry is an existing user or the organizer |
| AgentTools.AttendeesNeverEmpty | src/main/java/com/copilot/llm/service/AgentService.java:1005-1056 | the attendee list is never empty, so the "no valid participants" failure cannot happen |
| AgentTools.MeetingRequestOf | src/main/java/com/copilot/llm/service/AgentService.java:983-992 | the arguments are read in order and the first failure reported; the request has the title, the parsed start, the duration (60 when absent), the filtered attendees, the description ("" when absent) and the organizer |
| AgentTools.ScheduleMeeting | src/main/java/com/copilot/llm/service/AgentService.java:983-1027 | a missing title fails with the missing-parameter message; an argument failure is the handler's failure; otherwise the meeting service gets the request read from the arguments, its failure is the handler's, and its link is reported as "Встреча 'title' запланирована на <start>. Ссылка: <link>. Участники: <attendees>" |
| AgentTools.SendNotification | src/main/java/com/copilot/llm/service/AgentService.java:1064-1116 | succeeds exactly when recipients is a list, subject and message are present, some recipient is a user and the bulk send to the known recipients fails for none; no known recipient gives the "Нет валидных получателей" message naming the unknown ones; a send failure is the handler's; success reports the count and the recipients |
| AgentTools.ComposeLetter | src/main/java/com/copilot/llm/service/AgentService.java:1121-1127 | succeeds exactly when recipient, subject and content are all present, with the letter "Письмо составлено для <recipient>:", "Тема: <subject>", a blank line and the content |
| AgentTools.LetterLines | src/main/java/com/copilot/llm/service/AgentService.java:1126 | read back line by line, a letter to a one-line recipient about a one-line subject gives the heading, the subject line, a blank line and the content's own lines |
| AgentTools.ExecuteToolSafely | src/main/java/com/copilot/llm/service/AgentService.java:963-978 | every failure carries the tool-name prefix; unparsable JSON and an unknown tool name fail with their own messages |
| Json.Get | src/main/java/com/copilot/llm/service/AgentService.java:1141-1172 | an absent key reads as null, a present key as its value |
| Json.ValuesOf | src/main/java/com/copilot/llm/service/AgentService.java:1161-1169 | each element of a list printed in order |
| Json.ValuesOfStrings | src/main/java/com/copilot/llm/service/AgentService.java:1169 | a list of JSON strings prints as those strings |
| Decimal.DoubleToInt | src/main/java/com/copilot/llm/service/AgentService.java:1150 | `intValue()` of a `Double` rounds toward zero and clamps to the `int` range |
| LlmService.SameRateLimitTest | src/main/java/com/copilot/llm/service/LLMService.java:47-104 | the service's three-clause rate-limit test (with "rate-limited") classifies every message exactly as the agent loop's two-clause test |
| LlmService.Generate | src/main/java/com/copilot/llm/service/LLMService.java:22-53 | an answer is the model's text, or the fallback when the text is null or empty, so it is never empty; a failure is the rate-limit text when the message matches, else "Не удалось сгенерировать ответ: " and the message |
| LlmService.Tokens | src/main/java/com/copilot/llm/service/LLMService.java:86 | one token per word |
| LlmService.Sent | src/main/java/com/copilot/llm/service/LLMService.java:79-95 | an interrupted pause stops the stream right after that word; otherwise every word is sent, and at least one when there are words |
| LlmService.GenerateStream | src/main/java/com/copilot/llm/service/LLMService.java:55-111 | never fails; no tokens for an error or for empty text; empty text completes with the fallback, an error with "Ошибка: " and the rate-limit text or the prefixed message; otherwise the tokens are the whitespace-split words with a space after all but the last, and the completion is the words sent joined by single spaces |
| LlmService.ConcatTokens | src/main/java/com/copilot/llm/service/LLMService.java:79-97 | the first n tokens spell the first n words joined by spaces, plus one space when words remain |
| LlmService.TokensSpellCompletion | src/main/java/com/copilot/llm/service/LLMService.java:79-97 | the tokens received concatenate to the completion text, with one trailing space only when an interruption cut the stream short |
| LlmService.BlankTextStreamsNothing | src/main/java/com/copilot/llm/service/LLMService.java:76-97 | text that is all whitespace streams no token and completes with the empty text |
| LlmService.SplitSingleSpaced | src/main/java/com/copilot/llm/service/LLMService.java:76 | words joined by single spaces come back from the whitespace split unchanged |
| LlmService.SingleSpacedRoundTrip | src/main/java/com/copilot/llm/service/LLMService.java:76-97 | a single-spaced text streams back as itself, one token per word |
| LlmService.StreamMatchesGenerate | src/main/java/com/copilot/llm/service/LLMService.java:36-106 | the stream reports the same fallback as `generate`, and for a rate-limited failure the same text behind "Ошибка: " |
| HealthService.Report | src/main/java/com/copilot/health/service/HealthService.java:33-45 | the report has one entry per probed name, each the result of that name's probe |
| HealthService.CheckAll | src/main/java/com/copilot/health/service/HealthService.java:29-54 | every service is probed and reported with its own probe's result; the status is "UP" exactly when every entry's status is "UP" (null counts as not up), and "DOWN" otherwise |
| HealthService.FiveServices | src/main/java/com/copilot/health/service/HealthService.java:33-45 | the report has exactly the five keys database, redis, mailslurp, radicale and llm |
| HealthService.OneDownIsDown | src/main/java/com/copilot/health/service/HealthService.java:48-53 | one service that is not up makes the report "DOWN"; all five up makes it "UP" |
| ChatService.Find | src/main/java/com/copilot/chat/repository/ChatRepository.java:24-25 | a chat is found exactly when it exists, belongs to the user and is not deleted |
| ChatService.Visible | src/main/java/com/copilot/chat/repository/ChatRepository.java:21-22 | the user's listed chats are exactly those a lookup by that user finds |
| ChatService.CreateChat | src/main/java/com/copilot/chat/service/ChatService.java:27-43 | adds only the new chat; its title is the requested one unless null or empty, else "Новый чат"; it is not archived, not deleted, owned by the user; the response carries its id and message count |
| ChatService.GetChat | src/main/java/com/copilot/chat/service/ChatService.java:61-67 | succeeds exactly when the lookup finds the chat, with its title and message count; otherwise "Чат не найден или у вас нет доступа" |
| ChatService.ArchiveChat | src/main/java/com/copilot/chat/service/ChatService.java:69-77 | succeeds exactly when the lookup finds the chat, and then only that chat's archived flag changes; otherwise the not-found error |
| ChatService.DeleteChat | src/main/java/com/copilot/chat/service/ChatService.java:79-87 | succeeds exactly when the lookup finds the chat; the record stays, stamped with the deletion time; otherwise the not-found error |
| ChatService.CreatedChatIsFound | src/main/java/com/copilot/chat/service/ChatService.java:27-67 | a new chat is found by its owner and by nobody else, and joins the owner's list |
| ChatService.ArchiveKeepsChat | src/main/java/com/copilot/chat/service/ChatService.java:69-77 | archiving keeps the chat in the owner's list and archiving again changes nothing |
| ChatService.DeletedChatIsGone | src/main/java/com/copilot/chat/service/ChatService.java:79-87 | after a soft delete the record is kept, every lookup, archive and delete of it fails, it leaves the owner's list, and every other chat is unchanged |
| MessageService.InChat | src/main/java/com/copilot/message/service/MessageService.java:47 | the chat's messages are exactly the table's messages of that chat, in table order |
| MessageService.InChatAppend | src/main/java/com/copilot/message/service/MessageService.java:47-108 | a new message joins its own chat's list at the end and leaves every other chat's list unchanged |
| MessageService.AfterBreak | src/main/java/com/copilot/message/service/MessageService.java:69-73 | the text after the first blank line, else after the first line break, comes out trimmed |
| MessageService.Clean | src/main/java/com/copilot/message/service/MessageService.java:62-75 | a reply without `TOOL_CALL:` is remembered unchanged |
| MessageService.CleanKeepsAnswer | src/main/java/com/copilot/message/service/MessageService.java:63-73 | a reply whose tool call is followed by a blank line and an answer is remembered as that answer, trimmed |
| MessageService.TrailingMarkerKept | src/main/java/com/copilot/message/service/MessageService.java:65-66 | a reply that ends with its only `TOOL_CALL:` keeps the whole reply, because the split drops the empty trailing part |
| MessageService.Exchange | src/main/java/com/copilot/message/service/MessageService.java:60-76 | each kept message adds two history entries |
| MessageService.Exchanges | src/main/java/com/copilot/message/service/MessageService.java:52-79 | the history entries take turns, user first, every entry with content, two per kept message at most |
| MessageService.PlainExchangesKept | src/main/java/com/copilot/message/service/MessageService.java:52-79 | when no reply holds `TOOL_CALL:`, each message adds its own request then its own reply, in order |
| MessageService.Recent | src/main/java/com/copilot/message/service/MessageService.java:81-84 | the window is the last ten entries, or all of them when there are fewer, and it still alternates from a user entry |
| MessageService.History | src/main/java/com/copilot/message/service/MessageService.java:47-84 | the agent gets the last ten entries of the chat's kept exchanges, in order, alternating user and assistant |
| MessageService.SeedKeepsEveryEntry | src/main/java/com/copilot/message/service/MessageService.java:60-87 | every history entry reaches the agent's conversation as one message, user entries as user messages and assistant entries as model messages |
| MessageService.Answer | src/main/java/com/copilot/message/service/MessageService.java:39-106 | the stored message keeps the request; on success it holds the agent's result with type "agent_response" and its actions exactly when there are some; on failure it holds "Произошла ошибка при обработке запроса: " and the message, with type "error" |
| MessageService.SendMessage | src/main/java/com/copilot/message/service/MessageService.java:33-115 | a missing or foreign chat fails with the not-found message and stores nothing; otherwise exactly one message is appended, built from the agent's outcome on the windowed history, and only the chat's update time changes |
| MessageService.UnknownUserStoredAsError | src/main/java/com/copilot/message/service/MessageService.java:86-111 | when the agent throws for an unknown user, the exchange is still stored, as an error naming that user |
| MessageService.GetAllChatMessages | src/main/java/com/copilot/message/service/MessageService.java:128-139 | the not-found check comes first; the list is the chat's messages, newest first |
| MessageService.NewestFirst | src/main/java/com/copilot/message/service/MessageService.java:135-138 | the responses list the chat's messages in reverse order |
| MessageService.GetChatMessages | src/main/java/com/copilot/message/service/MessageService.java:117-126 | a page holds at most its size in entries, taken in order from the newest-first list at the page's offset, and is non-empty while the offset is inside the list |
| MessageService.SentMessageListedFirst | src/main/java/com/copilot/message/service/MessageService.java:108-139 | after sending, the new message heads the chat's list and the list grows by one |
| AuthService.Register | src/main/java/com/copilot/auth/service/AuthService.java:46-173 | a taken address fails with "Пользователь с email … уже существует"; any stored user refuses the request before provisioning; a failed inbox aborts with its message; otherwise the only stored user is the administrator under the corporate address, active, password unchanged, with the requested address kept as personal e-mail, the chosen password encoded, a 12-character calendar password stored as drawn, and the response carries both tokens |
| AuthService.RegisterOnlyOnce | src/main/java/com/copilot/auth/service/AuthService.java:57-66 | after one successful registration every later request is refused |
| AuthService.RegistrationLetterCarriesPassword | src/main/java/com/copilot/auth/service/AuthService.java:124-136 | the sign-in letter goes to the corporate inbox and carries the password the user chose |
| AuthService.Login | src/main/java/com/copilot/auth/service/AuthService.java:188-234 | succeeds exactly when the authentication manager accepts the pair and the user is stored, not deleted and active; every failure is "Неверный email или пароль"; only a success stores the sign-in time, and the response carries the user's address and role |
| AuthService.SoleUserSignsIn | src/main/java/com/copilot/auth/service/AuthService.java:193-229 | the only user of a store, active and not deleted, signs in with a password its hash matches, keeping its role |
| AuthService.AdminCanSignIn | src/main/java/com/copilot/auth/service/AuthService.java:103-234 | the administrator just registered signs in with the corporate address and the chosen password, as ADMIN |
| AuthService.Refresh | src/main/java/com/copilot/auth/service/AuthService.java:236-272 | succeeds exactly when the token parses, is a refresh token and names a stored, live, active user, and returns that user's new tokens; every failure is "Неверный refresh token" |
| AuthService.RefreshAfterLogin | src/main/java/com/copilot/auth/service/AuthService.java:204-272 | signing in does not change whether a refresh token is accepted |
| AuthService.ChangePassword | src/main/java/com/copilot/auth/service/AuthService.java:274-291 | a missing user fails with "Пользователь не найден"; a wrong old password fails with "Неверный текущий пароль" and changes nothing; otherwise only that user changes, to the encoded new password with the changed flag set |
| AuthService.ChangeThenChangeBack | src/main/java/com/copilot/auth/service/AuthService.java:282-288 | with an encoder whose hashes match their passwords, the new password is the one that works next |
| AuthService.ResetPassword | src/main/java/com/copilot/auth/service/AuthService.java:293-300 | always refuses with the not-implemented message |
| Users.FindLive | src/main/java/com/copilot/auth/repository/UserRepository.java:16 | a user is found exactly when stored and not deleted |
| Users.AlphabetChar | src/main/java/com/copilot/auth/service/AuthService.java:179 | every draw picks an ASCII letter or digit |
| Users.DrawOf | src/main/java/com/copilot/auth/service/AuthService.java:179 | every ASCII letter or digit is picked by some draw |
| Users.AlphabetDistinct | src/main/java/com/copilot/auth/service/AuthService.java:179 | distinct draws pick distinct characters |
| Users.TempPassword | src/main/java/com/copilot/auth/service/AuthService.java:178-186 | twelve characters, the k-th the alphabet's character at the k-th draw |
| Users.TempPasswordShape | src/main/java/com/copilot/auth/service/AuthService.java:178-186 | every temporary password is twelve ASCII letters and digits |
| Users.TempPasswordReachesEvery | src/main/java/com/copilot/auth/service/AuthService.java:178-186 | every twelve-character string of ASCII letters and digits is drawn by exactly one sequence of draws |
| ImportParser.ReadLines | src/main/java/com/copilot/auth/service/UserImportParser.java:45-51 | the lines read hold no line break, and an empty file has no line |
| ImportParser.ReadTextBlock | src/main/java/com/copilot/auth/service/UserImportParser.java:45-51 | LF-terminated break-free lines are read back line by line |
| ImportParser.ReadCrlfLines | src/main/java/com/copilot/auth/service/UserImportParser.java:45-51 | CRLF-terminated break-free lines are read back line by line |
| ImportParser.ParseCsvLine | src/main/java/com/copilot/auth/service/UserImportParser.java:121-139 | there is always at least one field, and every field is trimmed |
| ImportParser.FieldCount | src/main/java/com/copilot/auth/service/UserImportParser.java:126-136 | the number of fields is the number of commas outside double quotes, plus one |
| ImportParser.FieldsRejoin | src/main/java/com/copilot/auth/service/UserImportParser.java:126-136 | joining the untrimmed fields with commas gives the line without its double quotes: only the quotes are lost |
| ImportParser.ParseJoinedFields | src/main/java/com/copilot/auth/service/UserImportParser.java:121-139 | trimmed fields without quotes or commas, joined with commas, are read back as they were |
| ImportParser.GetValue | src/main/java/com/copilot/auth/service/UserImportParser.java:141-146 | the trimmed field when the index is in range and the field is not blank, else the default |
| ImportParser.CsvLineRows | src/main/java/com/copilot/auth/service/UserImportParser.java:53-72 | a blank line, or a line whose first field is blank, gives no row; otherwise one row with the trimmed first field as e-mail and a non-empty role |
| ImportParser.CsvRows | src/main/java/com/copilot/auth/service/UserImportParser.java:51-77 | at most one row per data line, each with a trimmed non-empty e-mail and a role |
| ImportParser.CsvRowsConcat | src/main/java/com/copilot/auth/service/UserImportParser.java:51-77 | rows keep the order of their lines |
| ImportParser.BlankLineBlankField | src/main/java/com/copilot/auth/service/UserImportParser.java:53-61 | a blank line has a blank first field, so the blank-line check only saves work |
| ImportParser.ParseCsv | src/main/java/com/copilot/auth/service/UserImportParser.java:38-81 | an empty file fails with "Файл пуст"; otherwise the first line is skipped as the header and the rest give the rows |
| ImportParser.RowLineReadBack | src/main/java/com/copilot/auth/service/UserImportParser.java:58-71 | a row written as a CSV line in column order is read back as that row, missing columns as null and the role as written |
| ImportParser.RowLinesReadBack | src/main/java/com/copilot/auth/service/UserImportParser.java:51-77 | the lines written for some rows are read back as those rows |
| ImportParser.CsvFileReadBack | src/main/java/com/copilot/auth/service/UserImportParser.java:38-81 | a file of a header and the rows' lines is read back as the rows, whatever the header says |
| ImportParser.ParseCsvOfLines | src/main/java/com/copilot/auth/service/UserImportParser.java:45-77 | a text read as at least one line gives the rows of every line after the first |
| ImportParser.PhysicalRows | src/main/java/com/copilot/auth/service/UserImportParser.java:90 | the sheet never has more existing rows than row slots |
| ImportParser.CellValueOr | src/main/java/com/copilot/auth/service/UserImportParser.java:171-174 | the cell text when present and non-empty, else the default |
| ImportParser.ExcelRowRows | src/main/java/com/copilot/auth/service/UserImportParser.java:95-114 | a missing row or a blank e-mail cell gives no row; otherwise one row with the trimmed e-mail and a non-empty role, "EMPLOYEE" by default |
| ImportParser.ExcelRows | src/main/java/com/copilot/auth/service/UserImportParser.java:94-115 | at most one row per sheet row, each well formed |
| ImportParser.ExcelRowsConcat | src/main/java/com/copilot/auth/service/UserImportParser.java:94-115 | rows keep the order of the sheet |
| ImportParser.CellsReadBack | src/main/java/com/copilot/auth/service/UserImportParser.java:100-113 | a sheet row written from a well-formed row is read back as that row |
| ImportParser.SheetRowsReadBack | src/main/java/com/copilot/auth/service/UserImportParser.java:94-115 | sheet rows written from rows are read back as those rows |
| ImportParser.ParseExcel | src/main/java/com/copilot/auth/service/UserImportParser.java:83-119 | a sheet with fewer than two existing rows fails with its message; otherwise row 0 is the header and the rest give the rows |
| ImportParser.SheetReadBack | src/main/java/com/copilot/auth/service/UserImportParser.java:83-119 | a sheet of a header and the rows' cells is read back as the rows, and with no data row it is refused |
| ImportParser.Extension | src/main/java/com/copilot/auth/service/UserImportParser.java:29 | the extension is the lower-cased text after the last dot, the whole name when there is none |
| ImportParser.ExtensionAfterDot | src/main/java/com/copilot/auth/service/UserImportParser.java:29 | the extension of "base.ext" is the lower-cased ext |
| ImportParser.ParseFile | src/main/java/com/copilot/auth/service/UserImportParser.java:23-36 | a missing name fails with "Имя файла не может быть пустым"; an extension other than csv, xlsx or xls fails with "Неподдерживаемый формат файла: " and the extension; every row returned is well formed |
| ImportParser.CsvUploadReadBack | src/main/java/com/copilot/auth/service/UserImportParser.java:23-81 | a `.csv` upload of a header and the rows' lines yields the rows |
| ImportParser.CsvReadAsText | src/main/java/com/copilot/auth/service/UserImportParser.java:31-32 | a CSV name sends the file to the CSV reader |
| ImportParser.ExcelUploadReadBack | src/main/java/com/copilot/auth/service/UserImportParser.java:23-119 | an Excel upload of a header and the rows' cells yields the rows, and a workbook that does not open fails with its own message |
| ImportService.ImportUser | src/main/java/com/copilot/auth/service/UserImportService.java:113-176 | the user is saved exactly when the inbox is created and its address is new; otherwise the inbox failure or the duplicate address is reported; the saved user has the new address as login, the row's personal data, "EMPLOYEE" when the row has no role, the encoded login and mailbox passwords and the calendar password in clear |
| ImportService.ImportedUserCanSignIn | src/main/java/com/copilot/auth/service/UserImportService.java:127-208 | the sign-in letter goes to the new login address with the password whose encoding is stored, and the access letter goes to the personal address with the stored calendar password, the CalDAV user and the corrected calendar address, the one provisioning creates |
| ImportService.ImportRows | src/main/java/com/copilot/auth/service/UserImportService.java:92-102 | every row counts once, as a success that adds one new user without touching existing ones, or as a failure with one error line |
| ImportService.ImportRowsErrorLines | src/main/java/com/copilot/auth/service/UserImportService.java:92-102 | the error lines are exactly one per failed row, in row order, where a row fails when its inbox cannot be created or its address is among those already stored or saved by an earlier row; each is "email: message" with that failure's message |
| ImportService.ErrorLinesUnique | src/main/java/com/copilot/auth/service/UserImportService.java:92-102 | the failed rows fix the error lines: no two different lists fit the same rows and the same answers of the mail provider |
| ImportService.TallyImported | src/main/java/com/copilot/auth/service/UserImportService.java:92-95 | a user added under a new address is one more success of the tally |
| ImportService.NoInboxNoUsers | src/main/java/com/copilot/auth/service/UserImportService.java:92-102 | when the mail provider always fails, every row fails with its inbox message and nobody is added |
| ImportService.ImportStatus | src/main/java/com/copilot/auth/service/UserImportService.java:104-105 | the final status is COMPLETED, FAILED or PARTIALLY_FAILED |
| ImportService.ImportStatusCases | src/main/java/com/copilot/auth/service/UserImportService.java:104-105 | COMPLETED exactly when no row failed, FAILED exactly when rows failed and none succeeded, PARTIALLY_FAILED when both happened |
| ImportService.ErrorDetails | src/main/java/com/copilot/auth/service/UserImportService.java:107 | no details exactly when there is no error line |
| ImportService.ErrorDetailsReadBack | src/main/java/com/copilot/auth/service/UserImportService.java:107 | single-line error messages can be split back out of the details |
| ImportService.UpdateImportLogStatus | src/main/java/com/copilot/auth/service/UserImportService.java:225-244 | a missing log fails with "ImportLog не найден: " and the id; otherwise status and completion time are set, counts and details only when given, and nothing else changes |
| ImportService.UpdateIdempotent | src/main/java/com/copilot/auth/service/UserImportService.java:225-244 | updating twice with the same arguments is updating once |
| ImportService.ProcessImport | src/main/java/com/copilot/auth/service/UserImportService.java:70-111 | an unreadable file marks the log FAILED with zero counts and the parser's message and imports nobody; otherwise the total, the counts and the status agree, the store grows by the successes only, and the error details are the failed rows' "email: message" lines joined by newlines (kept as they were when no row failed) |
| ImportService.Record | src/main/java/com/copilot/auth/service/UserImportService.java:75-108 | the same, for a file already read or refused |
| ImportService.ProcessImportAsync | src/main/java/com/copilot/auth/service/UserImportService.java:59-68 | a missing log changes nothing; otherwise the import is processed |
| ImportService.StartImport | src/main/java/com/copilot/auth/service/UserImportService.java:37-57 | one new log for the upload, finished with a final status whose counts add up to its total |
| CalendarEvents.PutDecidedByFirstAnswer | src/main/java/com/copilot/tools/calendar/CalendarService.java:157-196 | the write is stored exactly when the first answer that is not a 404 is 201, 204 or 409, and stays unfinished exactly when every answer is a 404 |
| CalendarEvents.PutFailurePrefix | src/main/java/com/copilot/tools/calendar/CalendarService.java:157-201 | every failed write is reported with the CalDAV prefix, and one that began with a 404 says the calendar was not found |
| CalendarEvents.PutFailureNesting | src/main/java/com/copilot/tools/calendar/CalendarService.java:162-200 | after k answers of 404 the failure of the first real answer comes back wrapped once per 404; a success comes back as is |
| CalendarEvents.EventUrl | src/main/java/com/copilot/tools/calendar/CalendarService.java:105-113 | the event lives in the user's calendar collection, named from the first name, as "<event id>.ics" |
| CalendarEvents.EventInProvisionedCollection | src/main/java/com/copilot/tools/calendar/CalendarService.java:106-113 | the event is written into the very collection provisioning creates for the same user |
| CalendarEvents.WriteEvent | src/main/java/com/copilot/tools/calendar/CalendarService.java:96-103 | a user without a calendar password fails before any request; otherwise the event is PUT to its URL |
| CalendarEvents.Known | src/main/java/com/copilot/tools/calendar/CalendarService.java:54-61 | the attendees kept are exactly those that are stored users, none added |
| CalendarEvents.EventOf | src/main/java/com/copilot/tools/calendar/CalendarService.java:119-128 | the iCalendar event carries the request's id, title, description, location, organizer and all its attendees |
| CalendarEvents.Targets | src/main/java/com/copilot/tools/calendar/CalendarService.java:54-62 | every attendee visited is a stored user |
| CalendarEvents.DeliverTo | src/main/java/com/copilot/tools/calendar/CalendarService.java:96-128 | a write goes to the user's event URL and carries the event's iCalendar text |
| CalendarEvents.DeliveriesWrite | src/main/java/com/copilot/tools/calendar/CalendarService.java:63-64 | each write goes to the calendar of the stored user it names and carries the event |
| CalendarEvents.TargetsFollowKnown | src/main/java/com/copilot/tools/calendar/CalendarService.java:54-79 | the attendees visited are the known ones, in request order, whatever became of earlier writes |
| CalendarEvents.DeliveriesFollowKnown | src/main/java/com/copilot/tools/calendar/CalendarService.java:54-79 | one write per known attendee, in request order |
| CalendarEvents.CreateEvent | src/main/java/com/copilot/tools/calendar/CalendarService.java:41-91 | it fails only when the organizer is not a stored user, with "Организатор не найден: "; otherwise every known attendee gets one write and the response echoes the request with the end time "duration" minutes later and no calendar URL |
| CalendarEvents.DeliveriesCarryEvent | src/main/java/com/copilot/tools/calendar/CalendarService.java:63-128 | every write carries the same iCalendar text, listing all requested attendees, and goes to that attendee's calendar |
| ICalendar.EscapeChainIsTable | src/main/java/com/copilot/tools/calendar/CalendarService.java:265-269 | the chain of replace calls escapes each character on its own, since the backslash is doubled first |
| ICalendar.UnescapeEscape | src/main/java/com/copilot/tools/calendar/CalendarService.java:261-270 | decoding the escaped text as a TEXT value of RFC 5545 gives back the input without its carriage returns |
| ICalendar.EscapeHasNoLineBreaks | src/main/java/com/copilot/tools/calendar/CalendarService.java:261-270 | escaped text has no line feed or carriage return, so it stays on its content line |
| ICalendar.AttendeeLines | src/main/java/com/copilot/tools/calendar/CalendarService.java:245-248 | one ATTENDEE line per attendee, in order |
| ICalendar.LinesFrame | src/main/java/com/copilot/tools/calendar/CalendarService.java:220-253 | the object opens VCALENDAR then VEVENT, lists the properties, then one line per attendee in order, and closes VEVENT then VCALENDAR |
| ICalendar.PropertiesLayout | src/main/java/com/copilot/tools/calendar/CalendarService.java:227-242 | UID comes first, SUMMARY is always there, DESCRIPTION and LOCATION appear exactly when present and non-empty, and ORGANIZER closes the properties |
| ICalendar.ContentIsLines | src/main/java/com/copilot/tools/calendar/CalendarService.java:220-255 | when the unescaped fields hold no carriage return, splitting the text at CRLF gives back exactly its content lines |
| CalendarName.RulesShape | src/main/java/com/copilot/tools/calendar/CalendarService.java:306-339 | every transliteration rule maps a Cyrillic letter to ASCII text |
| CalendarName.TransliterateIsTable | src/main/java/com/copilot/tools/calendar/CalendarService.java:306-339 | the chain of replace calls transliterates each character on its own |
| CalendarName.TransliterateRemovesLetters | src/main/java/com/copilot/tools/calendar/CalendarService.java:306-339 | no letter that has a rule survives transliteration |
| CalendarName.TransliterateKeepsLatin | src/main/java/com/copilot/tools/calendar/CalendarService.java:300-340 | text below U+0400, Latin text in particular, is left alone |
| CalendarName.TransliterateIdempotent | src/main/java/com/copilot/tools/calendar/CalendarService.java:300-340 | transliterating twice is transliterating once |
| CalendarName.KeepNameChars | src/main/java/com/copilot/tools/calendar/CalendarService.java:286 | only letters of a-z and A-Z, digits, whitespace and hyphens are kept, and text of those alone is unchanged |
| CalendarName.HyphenateSpaces | src/main/java/com/copilot/tools/calendar/CalendarService.java:287 | no whitespace is left; text without whitespace is unchanged |
| CalendarName.HyphenateOneSpace | src/main/java/com/copilot/tools/calendar/CalendarService.java:287 | a single space between two words becomes one hyphen |
| CalendarName.Clean | src/main/java/com/copilot/tools/calendar/CalendarService.java:286-292 | the cleaned name is a safe name: at least two characters of a-z, 0-9 and hyphen |
| CalendarName.Sanitize | src/main/java/com/copilot/tools/calendar/CalendarService.java:282-294 | a sanitised name is always a safe name |
| CalendarName.SanitizeIdempotent | src/main/java/com/copilot/tools/calendar/CalendarService.java:282-294 | sanitising twice is sanitising once |
| CalendarName.SanitizeOfSafe | src/main/java/com/copilot/tools/calendar/CalendarService.java:282-294 | a safe name is its own sanitised form |
| CalendarName.ForUser | src/main/java/com/copilot/tools/calendar/CalendarService.java:108-110 | the collection name is a safe name, derived from "<first name>'s Calendar" when the first name is present and non-empty |
| Provisioning.CollectionUrl | src/main/java/com/copilot/tools/calendar/CalendarProvisioningService.java:118 | the collection address is the base's origin followed by "/<user>/<calendar>/" below the base path |
| Provisioning.EffectivePort | src/main/java/com/copilot/tools/calendar/CalendarProvisioningService.java:141 | the URL's own port when it has one, else 443 for https and 80 for anything else |
| Provisioning.Utf8Length | src/main/java/com/copilot/tools/calendar/CalendarProvisioningService.java:166 | a text is at least as many bytes as characters and at most four bytes per character |
| Provisioning.Utf8LengthOfAscii | src/main/java/com/copilot/tools/calendar/CalendarProvisioningService.java:166 | the byte length equals the character length exactly when the text is ASCII |
| Provisioning.MkcolBodyOfSafeName | src/main/java/com/copilot/tools/calendar/CalendarProvisioningService.java:121-134 | for a sanitised name the display name is the name itself, with nothing XML would need escaped, and the body's byte length is its length |
| Provisioning.HostLineCarriesPort | src/main/java/com/copilot/tools/calendar/CalendarProvisioningService.java:158-162 | the Host header carries ":<port>" exactly when the port is neither 80 nor 443 |
| Provisioning.RequestFraming | src/main/java/com/copilot/tools/calendar/CalendarProvisioningService.java:156-169 | a reader that cuts the request at its first empty line gets back exactly the request line and headers, and then the body |
| Provisioning.HeadLinesClean | src/main/java/com/copilot/tools/calendar/CalendarProvisioningService.java:157-167 | the request line and headers are non-empty and hold no carriage return |
| Provisioning.ParseStatusCode | src/main/java/com/copilot/tools/calendar/CalendarProvisioningService.java:231-242 | a code other than -1 is the integer value of the second whitespace-separated token; a line with fewer than two tokens gives -1 |
| Provisioning.ParseStatusLine | src/main/java/com/copilot/tools/calendar/CalendarProvisioningService.java:231-242 | the status line "<version> <code><tail>" gives back the code |
| Provisioning.ParseStatusLineFails | src/main/java/com/copilot/tools/calendar/CalendarProvisioningService.java:231-242 | a line with fewer than two tokens, or whose second token is not an integer, gives -1 |
| Provisioning.Classify | src/main/java/com/copilot/tools/calendar/CalendarProvisioningService.java:176-214 | 201 and 204 count as created, and only a code outside 201, 204, 405, 207, 401 and 403 is unexpected |
| Provisioning.CreateCalendar | src/main/java/com/copilot/tools/calendar/CalendarProvisioningService.java:30-55 | whatever the CalDAV server answers, the account is the user's address with the sanitised calendar name |
| Provisioning.MkcolRequestForCalendar | src/main/java/com/copilot/tools/calendar/CalendarProvisioningService.java:112-169 | for every name the service uses, the body after the first empty line is the MKCOL body for that name, and Content-Length counts its characters |
| CrlfLines.Terminate | src/main/java/com/copilot/tools/calendar/CalendarService.java:221-253 | terminated text ends with CRLF whenever it has a line |
| CrlfLines.SplitTerminate | src/main/java/com/copilot/tools/calendar/CalendarService.java:221-253 | splitting the CRLF-terminated lines at CRLF gives back the lines and one empty piece |
| CrlfLines.NoDoubleCR | src/main/java/com/copilot/tools/calendar/CalendarProvisioningService.java:157-168 | in terminated header lines no carriage return is followed two characters later by another |
| CrlfLines.FirstBlankLine | src/main/java/com/copilot/tools/calendar/CalendarProvisioningService.java:156-169 | the head of a request ends at its first empty line, as section 2.1 of RFC 9112 reads it |
| CrlfLines.FramedMessage | src/main/java/com/copilot/tools/calendar/CalendarProvisioningService.java:156-169 | header lines, an empty line and a body are read back as those lines and that body |
| Meeting.KeepAlnum | src/main/java/com/copilot/tools/meeting/MeetingService.java:77 | only ASCII letters and digits are kept, and text of those alone is unchanged |
| Meeting.RoomId | src/main/java/com/copilot/tools/meeting/MeetingService.java:76-80 | the room id is the title's letters and digits lower-cased, a hyphen, and the first eight characters of the UUID |
| Meeting.RoomIdSplits | src/main/java/com/copilot/tools/meeting/MeetingService.java:76-80 | the room id splits back at its only hyphen into the filtered lower-cased title and the UUID's first eight characters |
| Meeting.RoomIdOfPlainTitle | src/main/java/com/copilot/tools/meeting/MeetingService.java:76-80 | a title of lower-case letters and digits is kept whole in front of the hyphen |
| Meeting.JitsiLink | src/main/java/com/copilot/tools/meeting/MeetingService.java:139-142 | the link is the Jitsi base, a slash and a room id of the title's length in letters and digits plus nine |
| Meeting.EventDescription | src/main/java/com/copilot/tools/meeting/MeetingService.java:43-45 | the description always ends with the link line; it starts with the given text and a blank line exactly when that text is present and non-empty |
| Meeting.EventDescriptionCarriesLink | src/main/java/com/copilot/tools/meeting/MeetingService.java:43-45 | the event description carries the meeting address |
| Meeting.InvitationLines | src/main/java/com/copilot/tools/meeting/MeetingService.java:113-133 | the invitation is fourteen lines |
| Meeting.InvitationCarriesMeeting | src/main/java/com/copilot/tools/meeting/MeetingService.java:111-134 | the invitation opens with the meeting's title and carries its time, its address and, when there is one, its description |
| Meeting.SendInvitations | src/main/java/com/copilot/tools/meeting/MeetingService.java:85-106 | one letter per attendee, in order, each with the same subject and body, and a failed letter does not stop the rest |
| Meeting.EventRequestFor | src/main/java/com/copilot/tools/meeting/MeetingService.java:43-54 | the calendar request keeps the title, start, duration and attendees and carries the meeting address as location and inside the description |
| Meeting.ScheduleMeeting | src/main/java/com/copilot/tools/meeting/MeetingService.java:29-74 | it fails, with "Не удалось создать встречу: " before the calendar's message, exactly when the organizer is not a stored user; otherwise the response carries the room, its address, the start time and the attendees, the event is at that address, and every attendee is invited in order |
| WelcomeEmail.GreetingName | src/main/java/com/copilot/tools/email/UserWelcomeEmailService.java:74 | the letter greets the first name when it is present and non-empty, and "Коллега" otherwise |
| WelcomeEmail.KeepLowerNameChars | src/main/java/com/copilot/tools/email/UserWelcomeEmailService.java:155-156 | only lower-case ASCII letters, digits, whitespace and hyphens are kept; text of those alone is unchanged, and text with none of them is emptied |
| WelcomeEmail.SegmentAgreesBelowCyrillic | src/main/java/com/copilot/tools/email/UserWelcomeEmailService.java:151-159 | for a first name written below the Cyrillic block the letter's calendar segment is the provisioned calendar name |
| WelcomeEmail.SegmentOfWord | src/main/java/com/copilot/tools/email/UserWelcomeEmailService.java:151-159 | a first name of one word of Latin letters and digits gives "<name>s-calendar", lower-cased, the provisioned name |
| WelcomeEmail.SegmentWithoutName | src/main/java/com/copilot/tools/email/UserWelcomeEmailService.java:154-157 | without a first name the letter's segment is the name provisioned for a user called "Work" |
| WelcomeEmail.SegmentDropsCyrillic | src/main/java/com/copilot/tools/email/UserWelcomeEmailService.java:154-157 | as written, a first name in Cyrillic vanishes from the letter's address, leaving "s-calendar" |
| WelcomeEmail.WelcomeUrlMissesCalendar | src/main/java/com/copilot/tools/email/UserWelcomeEmailService.java:151-159 | as written, a user without a first name is sent the address of "works-calendar" while "work-calendar" is the calendar created |
| WelcomeEmail.CalendarUrlNamesProvisionedCalendar | src/main/java/com/copilot/tools/email/UserWelcomeEmailService.java:151-159 | the corrected address names the collection provisioning creates for the same user |
| WelcomeEmail.LoginBodyCarriesCredentials | src/main/java/com/copilot/tools/email/UserWelcomeEmailService.java:73-90 | the sign-in letter greets the user and carries the sign-in address and the temporary password |
| WelcomeEmail.AccessBodyCarriesAccess | src/main/java/com/copilot/tools/email/UserWelcomeEmailService.java:92-142 | the access letter greets the user and gives the mailbox, its password, the calendar address, the CalDAV user, its password and the internal calendar address |
| WelcomeEmail.LoginMailCarriesCredentials | src/main/java/com/copilot/tools/email/UserWelcomeEmailService.java:23-43 | the sign-in letter goes to the corporate inbox, under its subject, with the address and the temporary password |
| WelcomeEmail.AccessMailCarriesAccess | src/main/java/com/copilot/tools/email/UserWelcomeEmailService.java:48-71 | the access letter goes to the personal address and carries both passwords, the CalDAV user and the provisioned calendar's address, outside and inside the container network |
| WelcomeEmail.SendSystemLoginEmail | src/main/java/com/copilot/tools/email/UserWelcomeEmailService.java:23-43 | the letter is sent exactly when the mailer accepts it; otherwise its failure comes back behind "Не удалось отправить письмо на корпоративную почту: " |
| WelcomeEmail.SendAccessEmail | src/main/java/com/copilot/tools/email/UserWelcomeEmailService.java:48-71 | the letter is sent exactly when the mailer accepts it; otherwise its failure comes back behind "Не удалось отправить письмо на личную почту: " |

## Left out

- Network, process and database I/O: the chat model, the CalDAV PUT and MKCOL exchanges, `docker exec htpasswd`, the MailSlurp and SMTP calls and the health probes are parameters (reply sequences or functions from request to outcome). The repositories are maps and sequences.
- BCrypt encoding, JWT signing and checking, Base64 and `URLEncoder` are uninterpreted functions passed in, so nothing is proved about their output beyond what the code compares.
- Randomness (`UUID.randomUUID`, `java.util.Random`) and the clock are parameters; database ids are passed in as fresh keys; `LocalDateTime` values are integer seconds and `plusMinutes(m)` adds `60 * m`.
- Date formatting (`toString`, "dd.MM.yyyy HH:mm", the iCalendar `yyyyMMdd'T'HHmmss'Z'` in UTC) is a parameter of text type; the iCalendar generator does not fold long lines, so no line-length bound is stated.
- Jackson parsing of tool arguments and the reflective construction of `ToolExecutionRequest` are abstract: the first is a partial function from text to an argument map, the second a "may fail" flag.
- The prompt text of `buildSystemPrompt` is not modelled; only the call format it teaches (`TOOL_CALL:` / `ARGUMENTS:`) is, in `ToolCallRender`.
- `src/main/java/com/copilot/llm/tools/AgentTools.java` and `ToolDefinitions.java` are not wired into the dispatcher and are not part of this model.
- Concurrency: `@Async`, `@Transactional`, the controller thread pool and `Thread.sleep` between streamed tokens. `startImport` calls `processImportAsync` from inside the class, so it runs in the caller's thread, which is how it is modelled.
- Java strings are sequences of Dafny `char` (Unicode scalar values), not UTF-16 units, so `length()` of text outside the Basic Multilingual Plane differs; `toLowerCase` covers ASCII and the basic Cyrillic block only. `Integer.parseInt` reads ASCII digits only, where Java's `Character.digit` also takes every other Unicode decimal digit ("٦٠" is 60 in Java and a failure here); this affects `AgentTools.GetInt` on a text argument and `Provisioning.ParseStatusCode`.
- Decimal.ParseInt: accepts ASCII digits `0`-`9` only; a number written in other Unicode decimal digits, which `Integer.parseInt` reads, fails here with the `For input string` message.
- Workbook reading (Apache POI) is reduced to a sheet of optional cell texts; cell typing (numeric, formula, boolean cells) and a workbook that fails to open are a parameter.
- Chat listing and paging, `getImportStatus` and the controllers are plain lookups or framework plumbing and are not modelled; the chat entity file is not part of this model beyond the fields the service reads.
- Unreachable branches are modelled by the path the code actually takes: the "no valid participants" failure (the organizer is always added), the `success` fallback text after the empty-text guard, the `"default"` calendar of `createCalendar`, the calendar-failure catch in `importUser` and the calendar abort in `register` (provisioning never throws).
- HealthService.CheckAll: states that every entry is its own probe's result, not that each checker is invoked exactly once, since a pure function has no call count.
- CalendarEvents.Put: the 404 → provision → retry recursion is bounded by the replies given; a server that answered 404 forever is reported as `Unfinished` instead of not terminating.
- AgentLoop.ExtractToolCalls: the contract states only that a reply with neither structured calls nor the marker yields no calls; what the two readers return is stated by `ToolCallRender.ReadersAgreeOnRender` and `ToolCallParser.ParseToolCallsFromText`.
- MessageService.Answer: `contextData` holds the agent's action records themselves rather than their name/status/output projection.
- WelcomeEmail.SendAccessEmail: sends the letter with the corrected calendar address (see Findings); the letter as written is `WelcomeEmail.AccessMailAsWritten`.
- CalendarEvents.DeliveriesCarryEvent: one DTSTAMP (`Setting.stamp`) serves every attendee write and every retry after a 404, whereas `generateICalendarContent` reads the clock on each call (`src/main/java/com/copilot/tools/calendar/CalendarService.java:217`); the writes carry the same text except for that DTSTAMP line, which may differ between them in the program.
- ImportService.ImportedUserCanSignIn: the access letter it speaks of is the corrected one (see Findings); the letter the program sends names "works-calendar" for a row without a first name and drops a Cyrillic first name, so its address is not the calendar created.
- ImportService.ProcessImportAsync: with no log under the id it returns the logs and the store unchanged, where the program's `updateImportLogStatus` would throw out of the asynchronous method; `startImport` saves the log first, so this case is not reached from it.
- AgentTools.ExecuteToolSafely: the argument text `null` makes Jackson return a null map, and the handler then fails with a `NullPointerException` whose message follows the tool-failure prefix; the parsing service of the model returns a map or a failure, so that input can only be modelled as a parser failure.
- Json.Value: a fractional tool argument is a `real`, so NaN and the infinities (which `intValue()` maps to 0 and to the `int` bounds) are not modelled, and the `Double.toString` text of the number is carried beside it rather than computed from it.

## Findings

| source | as written | input that shows it | evidently intended | confidence | as-written member | corrected member |
|---|---|---|---|---|---|---|
| src/main/java/com/copilot/tools/email/UserWelcomeEmailService.java:151-159 | the welcome letter builds the calendar segment by lower-casing "<first name or Work>'s Calendar" and filtering it, with no transliteration and no "calendar" fallback, so it differs from the collection provisioning creates | no first name: the letter names "works-calendar" while "work-calendar" is created; a Cyrillic first name such as "Иван": the letter names "s-calendar" while "ivans-calendar" is created | the letter gives the address of the calendar provisioning actually creates | not executed | WelcomeEmail.WelcomeUrlMissesCalendar | WelcomeEmail.CalendarUrlNamesProvisionedCalendar |
