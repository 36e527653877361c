# Ava chat: a verified model

This project models the conversation core of the Ava chat application in Dafny:

- the browser-side chat widget:
  - the message list with its input buffers and loading flag;
  - loading the history;
  - sending a message and reading the streamed reply;
  - editing, saving, cancelling and deleting;
- the session store that keeps the login token in browser storage;
- the server's message service:
  - listing, create with the streamed reply, update, and suffix delete (removing a message and every later message of that user);
  - the server-sent-event frames it writes;
- the server's account rules: registration checks and password authentication;
- the older single-file backend: tokens, the current-user dependency, login, register and the message endpoints, with its echo reply.

External effects are passed in as parameters:

- network replies, and the chunks of a streamed body;
- JSON parsing and encoding;
- password hashing and verification;
- JWT signing and decoding (which includes the library's expiry check);
- fresh UUIDs and clock readings.

Timestamps are integers.

## Layout

| file | module | models |
|---|---|---|
| common.dfy | `Common` | `Option`, `Result`, HTTP errors, message roles |
| text.dfy | `Text` | ECMAScript `trim`, `startsWith`, `split('\n')`; string concatenation |
| session_store.dfy | `SessionStore` | `AuthProvider` (frontend/src/contexts/AuthContext.tsx) |
| chat_messages.dfy | `ChatMessages` | the widget's message records and its `map` transforms |
| sse_ingest.dfy | `StreamIngest` | the stream loop of `handleSendMessage`, as a fold over chunks and lines |
| chat_widget.dfy | `ChatWidget` | the widget state as a class, updated by its handlers |
| message_service.dfy | `MessageService` | backend/app/services/message_service.py over a table of rows |
| auth_service.dfy | `AuthService` | backend/app/services/auth_service.py |
| monolith.dfy | `Monolith` | backend/main.py |
| reply_stream.dfy | `ReplyStream` | the server's frames read by the widget, end to end |

## How the model follows the code

- **Delete and 401.** `handleDeleteMessage` does not check for 401: every non-OK reply is logged and the list is kept, so `ChatWidget.ChatWidget.HandleDeleteMessage` returns `Failed` for a 401 rather than `SessionInvalid`.
- **Streamed replies only.** The widget reads only `data:` lines; there is no non-streamed reply mode, and the model has none.
- **When the apology appears.** Any exception appends the apology, including a reader failure after fragments were merged. `Body.broken` models a reader that throws after its chunks.
- **Null bot id.** `botMessageId` starts as `null`, and line 136 tests it for falsiness. The model uses the empty string for it.
  - A first fragment whose `id` is empty therefore leaves the id unset. The next parsed fragment appends a second assistant message.
  - The merge lemmas require a non-empty first id, which a UUID always is.
- **Expiry delta.** `create_access_token` tests `if expires_delta:`. `timedelta(0)` is falsy, so a zero delta gets the fifteen-minute default, like a missing one.
- **Non-string subject.** `get_current_user` treats a non-string `sub` like a missing one. The JWT library refuses a non-string subject while it decodes, and that surfaces as the same 401.
- **Register in the older backend.** The older backend's `register` checks only for a duplicate email. The service's `register_user` also checks that all fields are present and that the password is long enough. `Monolith.Register` and `AuthService.UserTable.RegisterUser` keep that difference.
- **One attempt to save the reply.** `save_bot_message` loops over `get_db_connection`, which yields exactly one connection (backend/app/database.py:4-6). So it makes one attempt, which inserts the row or fails and is logged. `MessageService.MessageTable.SaveBotMessage` is that one attempt.
- **Chunks split on their own.** The widget splits each chunk on `'\n'` by itself, so a `data:` line cut across two chunks is read as two lines.
  - A cut inside the `data: ` prefix loses the line, whatever its newline-free payload (`StreamIngest.StraddlingLineIsLost`).
  - A cut right after the prefix or inside the payload loses it when the truncated payload does not parse (a cut right after the prefix leaves none), as `JSON.parse` rejects a truncated object, and the rest is not a `data:` line itself (`StreamIngest.TruncatedPayloadIsLost`). The JSON grammar is abstract here, so the model states this as a requirement on the parser.
  - The end-to-end lemma `ReplyStream.StreamedReplyMatchesSavedRow` therefore requires the body to be cut only between frames.

## Model

| member | source | states |
|---|---|---|
| `Text.IsWhitespace` | frontend/src/components/chat-widget.tsx:133 | definition of the characters `trim()` removes: ECMAScript's WhiteSpace (tab, vertical tab, form feed, space, no-break space, byte order mark, the Unicode space separators) and LineTerminator (line feed, carriage return, U+2028, U+2029) |
| `Text.TrimStart` | frontend/src/components/chat-widget.tsx:133 | the result is a suffix of the input; everything dropped is ECMAScript whitespace; the result does not start with whitespace |
| `Text.TrimEnd` | frontend/src/components/chat-widget.tsx:133 | the result is a prefix of the input; everything dropped is whitespace; the result does not end with whitespace |
| `Text.Trim` | frontend/src/components/chat-widget.tsx:94 | definition: `trim()` is `TrimEnd` after `TrimStart`; what it keeps and drops is stated by those two, and `TrimEmptyIffBlank` says when it is empty |
| `Text.TrimLeadingSpace` | frontend/src/components/chat-widget.tsx:133 | a space in front of a string does not change its `trim()`, so `slice(5)` keeping the space after `data:` does not matter |
| `Text.TrimEmptyIffBlank` | frontend/src/components/chat-widget.tsx:94 | `trim()` is empty exactly when the string is all whitespace (both directions) |
| `Text.TrimsToEmpty` | frontend/src/components/chat-widget.tsx:94 | the check `s.trim() === ''` is true exactly when the string is all whitespace |
| `Text.StartsWith` | frontend/src/components/chat-widget.tsx:131 | definition of `line.startsWith('data: ')`: the prefix is no longer than the line and equals its first characters |
| `Text.Split` | frontend/src/components/chat-widget.tsx:128 | `split('\n')` gives at least one piece, no piece holds a newline, and joining the pieces with newlines gives back the chunk |
| `Text.SplitJoinLines` | frontend/src/components/chat-widget.tsx:128 | splitting undoes joining, for newline-free lines |
| `Text.Concat` | backend/app/services/message_service.py:45 | definition of the `+=` accumulation of tokens, in order; `Text.ConcatAppend` shows it distributes over appending, and `MessageService.EventGenerator` is proved against it |
| `Text.ConcatAppend` | backend/app/services/message_service.py:45 | accumulating two runs of tokens is accumulating the first, then the second |
| `SessionStore.Rehydrate` | frontend/src/contexts/AuthContext.tsx:22-27 | on mount, a non-empty stored `jwt_token` becomes the user; otherwise the user is as before; storage is untouched |
| `SessionStore.LoggedIn` | frontend/src/contexts/AuthContext.tsx:29-32 | after login the user is the token, storage maps `jwt_token` to it, and every other key is kept |
| `SessionStore.LoggedOut` | frontend/src/contexts/AuthContext.tsx:34-37 | after logout there is no user, `jwt_token` is removed, and every other key is kept |
| `SessionStore.LoginAgrees` | frontend/src/contexts/AuthContext.tsx:29-32 | after login the user and the stored key hold the same token |
| `SessionStore.LogoutAgrees` | frontend/src/contexts/AuthContext.tsx:34-37 | after logout the user and the stored key are both absent |
| `SessionStore.LastLoginWins` | frontend/src/contexts/AuthContext.tsx:29-32 | two logins in a row are the same as the second alone |
| `SessionStore.LoginLogoutSignsOut` | frontend/src/contexts/AuthContext.tsx:29-37 | login then logout is logout from the earlier state, whatever that state was |
| `SessionStore.LoginSurvivesReload` | frontend/src/contexts/AuthContext.tsx:20-32 | after a login with a non-empty token, a fresh provider mounted over the same storage is logged in with that token |
| `SessionStore.AuthProvider.constructor` | frontend/src/contexts/AuthContext.tsx:19-20 | before mount there is no user |
| `SessionStore.AuthProvider.Mount` | frontend/src/contexts/AuthContext.tsx:22-27 | the provider's state after the mount effect is `Rehydrate` of its state before |
| `SessionStore.AuthProvider.Login` | frontend/src/contexts/AuthContext.tsx:29-32 | the provider's new state is `LoggedIn` of the old one, and the user and storage agree |
| `SessionStore.AuthProvider.Logout` | frontend/src/contexts/AuthContext.tsx:34-37 | the provider's new state is `LoggedOut` of the old one, and the user and storage agree |
| `ChatMessages.FromBackendList` | frontend/src/components/chat-widget.tsx:79-83 | definition of the `data.map` over the server rows; its properties are proved in `ChatMessages.FromBackendListKeepsOrder` |
| `ChatMessages.SetEditing` | frontend/src/components/chat-widget.tsx:185-187 | definition of the `isEditing` map of edit and cancel; its properties are proved in `ChatMessages.SetEditingOnlyTouchesFlag` and `ChatMessages.EditThenCancelRestores` |
| `ChatMessages.SetContent` | frontend/src/components/chat-widget.tsx:145-149 | definition of the content rewrite of the bot id's messages; its properties are proved in `ChatMessages.SetContentOfFreshLast` |
| `ChatMessages.SaveContent` | frontend/src/components/chat-widget.tsx:200-202 | definition of the map that stores a saved edit; its properties are proved in `ChatMessages.SaveContentOnlyTouchesTarget` |
| `ChatMessages.AppendFreshId` | frontend/src/components/chat-widget.tsx:96-97 | appending a message whose id the list lacks keeps the ids distinct and adds that id at the end |
| `ChatMessages.TransformsKeepIds` | frontend/src/components/chat-widget.tsx:144-216 | the stream map (lines 144-150), edit map (185-187), save map (200-202) and cancel map (214-216) keep every id in place, so distinct ids stay distinct |
| `ChatMessages.FromBackendListDistinct` | frontend/src/components/chat-widget.tsx:78-84 | the loaded list has distinct ids exactly when the server rows do |
| `ChatMessages.FromBackendListKeepsOrder` | frontend/src/components/chat-widget.tsx:78-84 | the loaded list has the server's length and order, each entry keeping the server row's id, role and content, not in edit mode |
| `ChatMessages.SetEditingOnlyTouchesFlag` | frontend/src/components/chat-widget.tsx:185-187 | setting or clearing edit mode keeps the length, the ids, roles and contents; only messages with that id change flag, the others keep theirs |
| `ChatMessages.SaveContentOnlyTouchesTarget` | frontend/src/components/chat-widget.tsx:200-203 | a saved edit changes the content and the flag of that id's messages only; ids and roles are kept |
| `ChatMessages.SetContentOfFreshLast` | frontend/src/components/chat-widget.tsx:144-150 | rewriting the content of a freshly appended message whose id is new changes that message only |
| `ChatMessages.EditThenCancelRestores` | frontend/src/components/chat-widget.tsx:183-218 | edit then cancel restores a list in which that id was not being edited |
| `StreamIngest.Absorb` | frontend/src/components/chat-widget.tsx:136-150 | definition of one fragment's step: append the bot message when no id is known, then grow the text of the bot id's messages; its properties are proved in `StreamIngest.AbsorbAllMerges` and `ChatWidget.AbsorbAllKeepsEntries` |
| `StreamIngest.ReadLine` | frontend/src/components/chat-widget.tsx:131-155 | definition of the inner loop's body; `ChatWidget.ChatWidget.ReadStreamLine` is proved against it |
| `StreamIngest.ReadLines` | frontend/src/components/chat-widget.tsx:130-156 | definition of the inner loop; its properties are proved in `StreamIngest.ReadLinesAbsorbs` |
| `StreamIngest.ReadChunks` | frontend/src/components/chat-widget.tsx:123-157 | definition of the outer loop; its properties are proved in `StreamIngest.ReadChunksAbsorbs` and `StreamIngest.NoFragmentsNoChange` |
| `StreamIngest.LineFragment` | frontend/src/components/chat-widget.tsx:130-135 | a line yields a fragment only when it starts with `data: ` and its payload (from index 5, trimmed) is non-empty and parses; then the fragment is that parse |
| `StreamIngest.DataLineFragment` | frontend/src/components/chat-widget.tsx:131-135 | for `data: ` followed by a payload with no outer whitespace, the fragment is the parse of that payload |
| `StreamIngest.PlainChunkFragments` | frontend/src/components/chat-widget.tsx:128-131 | a one-line chunk that does not start with `data: ` yields no fragment |
| `StreamIngest.SkippedLineDropsOut` | frontend/src/components/chat-widget.tsx:131-154 | a line that yields nothing (not data, empty or unparseable) is dropped and the lines around it are still read |
| `StreamIngest.LinesFragmentsAppend` | frontend/src/components/chat-widget.tsx:130-156 | the fragments of two runs of lines are the fragments of each, in order |
| `StreamIngest.AbsorbAllAppend` | frontend/src/components/chat-widget.tsx:136-150 | merging two runs of fragments is merging the first, then the second |
| `StreamIngest.ReadLinesAbsorbs` | frontend/src/components/chat-widget.tsx:130-156 | the inner loop over lines is the merge of the fragments those lines yield |
| `StreamIngest.ReadChunksAbsorbs` | frontend/src/components/chat-widget.tsx:123-157 | the whole stream loop is the merge of the fragments of all chunks, each chunk split on its own |
| `StreamIngest.AbsorbAllMerges` | frontend/src/components/chat-widget.tsx:120-150 | fragments whose first id is new and non-empty append exactly one assistant message with that id, holding every fragment's content in order; later ids are ignored and no other message changes |
| `StreamIngest.NoFragmentsNoChange` | frontend/src/components/chat-widget.tsx:123-157 | a stream without a usable fragment leaves the list and the loop variables as they were |
| `StreamIngest.StraddlingLineIsLost` | frontend/src/components/chat-widget.tsx:123-135 | a data line whose `data: ` prefix is cut by a chunk boundary yields nothing, whatever its newline-free payload; the same line in one chunk yields its payload's parse when the payload has no whitespace at either end |
| `StreamIngest.UnparsedLineFragment` | frontend/src/components/chat-widget.tsx:131-135 | a `data: ` line whose trimmed payload is empty or does not parse yields no fragment |
| `StreamIngest.UnparsedChunkFragments` | frontend/src/components/chat-widget.tsx:128-135 | a one-line chunk of `data: ` and a payload that is blank or does not parse yields nothing |
| `StreamIngest.TruncatedPayloadIsLost` | frontend/src/components/chat-widget.tsx:123-154 | a data line cut right after `data: ` or inside its payload yields nothing, when the truncated payload does not parse and the rest is not a `data: ` line itself |
| `ChatWidget.Apology` | frontend/src/components/chat-widget.tsx:159-162 | definition of the error message: an assistant message with the fresh id and the fixed apology text, not editing |
| `ChatWidget.AfterLoad` | frontend/src/components/chat-widget.tsx:68-88 | definition of the list after a load; its properties are proved in `ChatWidget.LoadReplacesOrKeeps` |
| `ChatWidget.LoadSignal` | frontend/src/components/chat-widget.tsx:68-88 | definition of a load's outcome; its properties are proved in `ChatWidget.LoadReplacesOrKeeps` |
| `ChatWidget.AfterSend` | frontend/src/components/chat-widget.tsx:101-165 | definition of the list after a send's reply; its properties are proved in `ChatWidget.SendKeepsPending`, `ChatWidget.SendUnauthorized`, `ChatWidget.SendRejectedApologises`, `ChatWidget.SendStreamMerges` and `ChatWidget.SendEmptyStream` |
| `ChatWidget.SendSignal` | frontend/src/components/chat-widget.tsx:101-165 | definition of a send's outcome; its properties are proved in `ChatWidget.SendUnauthorized` and `ChatWidget.SendRejectedApologises` |
| `ChatWidget.LoadReplacesOrKeeps` | frontend/src/components/chat-widget.tsx:68-88 | an OK reply with a list gives exactly the server list; any other reply keeps the list; 401 and only 401 signals an invalid session |
| `ChatWidget.SendKeepsPending` | frontend/src/components/chat-widget.tsx:93-166 | whatever the reply, the list after Send keeps every earlier entry, the optimistic user message included, at its position with its id, role and flag |
| `ChatWidget.AbsorbAllKeepsEntries` | frontend/src/components/chat-widget.tsx:136-150 | merging fragments never removes, reorders or re-roles an existing entry |
| `ChatWidget.SendUnauthorized` | frontend/src/components/chat-widget.tsx:107-110 | a 401 appends nothing after the optimistic message and signals an invalid session |
| `ChatWidget.SendRejectedApologises` | frontend/src/components/chat-widget.tsx:101-165 | a transport failure, or a status that is neither OK nor 401, appends exactly the apology message and signals failure |
| `ChatWidget.SendStreamMerges` | frontend/src/components/chat-widget.tsx:117-165 | an OK stream whose first fragment has a new id appends exactly one assistant message holding all contents in order, then one apology if the reader throws |
| `ChatWidget.SendEmptyStream` | frontend/src/components/chat-widget.tsx:117-165 | an OK stream without a usable fragment appends nothing, or only the apology if the reader throws |
| `ChatWidget.SendKeepsDistinctIds` | frontend/src/components/chat-widget.tsx:93-165 | a send keeps the list's ids distinct when the fresh user id, the apology id and the reply's first fragment id (non-empty) are new and pairwise different |
| `ChatWidget.StreamedSendDistinct` | frontend/src/components/chat-widget.tsx:117-165 | an OK stream whose first fragment id is new and differs from the apology id keeps the ids distinct, with or without the apology |
| `ChatWidget.ChatWidget.constructor` | frontend/src/components/chat-widget.tsx:44-49 | the greeting alone, empty buffers, not loading |
| `ChatWidget.ChatWidget.TypeInput` | frontend/src/components/chat-widget.tsx:298 | the input buffer holds the typed text |
| `ChatWidget.ChatWidget.TypeEditingInput` | frontend/src/components/chat-widget.tsx:247 | the edit buffer holds the typed text |
| `ChatWidget.ChatWidget.FetchAllMessages` | frontend/src/components/chat-widget.tsx:68-88 | the new list and signal are those of the load outcome for the reply |
| `ChatWidget.ChatWidget.Mount` | frontend/src/components/chat-widget.tsx:59-66 | without a stored token (or with an empty one) the session is invalid and nothing is loaded; otherwise a load |
| `ChatWidget.ChatWidget.HandleSendMessage` | frontend/src/components/chat-widget.tsx:93-166 | blank input changes nothing and sends nothing; otherwise the untrimmed text goes out with the fresh id, the user message is appended before the reply is read, the input is cleared, the reply is ingested, and loading is off at the end |
| `ChatWidget.ChatWidget.ReadReply` | frontend/src/components/chat-widget.tsx:107-162 | the list and signal after the reply are those of the send outcome: a 401 stops, a thrown error appends the apology, an OK body is read and then followed by the apology if the reader throws |
| `ChatWidget.ChatWidget.ReadStream` | frontend/src/components/chat-widget.tsx:117-157 | the loops leave the list, `botMessageId` and `botMessageContent` exactly as the fold over chunks and lines does |
| `ChatWidget.ChatWidget.ReadStreamChunk` | frontend/src/components/chat-widget.tsx:127-156 | one chunk split on newlines leaves the state the fold over its lines gives |
| `ChatWidget.ChatWidget.ReadStreamLine` | frontend/src/components/chat-widget.tsx:131-155 | one line leaves the state the line step of the fold gives: appends the bot message on the first fragment and rewrites the content of the bot id's messages |
| `ChatWidget.ChatWidget.HandleDeleteMessage` | frontend/src/components/chat-widget.tsx:168-181 | the delete of that id is requested; an OK reply reloads the whole list from the server; any other reply, 401 included, keeps the list |
| `ChatWidget.ChatWidget.HandleEditMessage` | frontend/src/components/chat-widget.tsx:183-188 | seeds the edit buffer and flags that id's messages |
| `ChatWidget.ChatWidget.HandleCancelEdit` | frontend/src/components/chat-widget.tsx:213-218 | clears that id's flag and empties the edit buffer |
| `ChatWidget.ChatWidget.HandleSaveEdit` | frontend/src/components/chat-widget.tsx:190-211 | blank text is a cancel with no request; otherwise the untrimmed text is sent, and an OK reply stores it and leaves edit mode while any other reply changes nothing |
| `MessageService.OwnedBy` | backend/app/services/message_service.py:15 | exactly the rows whose sender is the user, each as often as in the table |
| `MessageService.InsertByTime` | backend/app/services/message_service.py:15 | inserting into a timestamp-ordered list keeps it ordered and adds exactly that row |
| `MessageService.SortByTime` | backend/app/services/message_service.py:15 | the result is ordered by ascending timestamp and is a permutation of the input |
| `MessageService.UserMessages` | backend/app/services/message_service.py:14-16 | the listing is ordered by ascending timestamp and holds exactly the user's rows, with their multiplicities |
| `MessageService.UserMessagesMembers` | backend/app/services/message_service.py:14-16 | a row is listed exactly when it is in the table and belongs to the user |
| `MessageService.FindOwned` | backend/app/services/message_service.py:89-95 | the first row with this id and sender (no earlier row has both), or none when no row has both |
| `MessageService.Insert` | backend/app/services/message_service.py:28-35 | an insert fails exactly when the id is taken; otherwise the row is appended |
| `MessageService.InsertKeepsUniqueIds` | backend/app/services/message_service.py:28-35 | inserting a row with a new id keeps the ids unique |
| `MessageService.EventFrame` | backend/app/services/message_service.py:46 | definition of one frame, `data: ` + the encoded event + a blank line; `ReplyStream.FrameLineFragments` proves the widget reads back its token |
| `MessageService.EventGenerator` | backend/app/services/message_service.py:42-46 | one frame per token, each `data: ` + the encoded event (bot id, token, assistant) + a blank line; the accumulated content is the tokens concatenated |
| `MessageService.UpdateContent` | backend/app/services/message_service.py:74-79 | definition of the `UPDATE ... WHERE id AND sender`; its properties are proved in `MessageService.UpdateContentOnlyTarget` |
| `MessageService.UpdateContentOnlyTarget` | backend/app/services/message_service.py:74-79 | an update changes the content of the matching row only; ids, senders, timestamps, roles and all other rows are kept |
| `MessageService.SuffixDelete` | backend/app/services/message_service.py:97-100 | removes exactly the user's rows at or after the timestamp and keeps every other row with its multiplicity |
| `MessageService.SuffixDeleteMembers` | backend/app/services/message_service.py:97-100 | a row survives exactly when it is in the table and is not a row of the user at or after the timestamp |
| `MessageService.SuffixDeleteRemovesTarget` | backend/app/services/message_service.py:94-103 | once the target is found, the delete removes at least one row, so the "DELETE 0" branch cannot be reached |
| `MessageService.SuffixDeleteKeepsUniqueIds` | backend/app/services/message_service.py:97-100 | the delete keeps the ids unique |
| `MessageService.MessageTable.SaveBotMessage` | backend/app/services/message_service.py:48-63 | stores the bot row under the bot id when the id is free; a failure is only logged and leaves the table |
| `MessageService.MessageTable.CreateUserMessage` | backend/app/services/message_service.py:18-67 | a taken id is a 400 with no change; otherwise the user row is appended, one frame per token is returned, and the bot row holding the tokens concatenated is saved |
| `MessageService.MessageTable.UpdateUserMessage` | backend/app/services/message_service.py:69-85 | missing or empty content is a 400 and no matching row a 404, both with no change; otherwise only that row's content changes and the updated row is returned |
| `MessageService.MessageTable.DeleteUserMessage` | backend/app/services/message_service.py:87-103 | an unknown target is a 404 with no change; otherwise the user's suffix from the target's timestamp is removed |
| `AuthService.FindUser` | backend/app/services/auth_service.py:7-10 | the user found has that email; none is found exactly when no row has it |
| `AuthService.FindUserAfterAppend` | backend/app/services/auth_service.py:17-25 | after inserting a row with a new email, that email finds the new row |
| `AuthService.RegistrationError` | backend/app/services/auth_service.py:12-19 | no error exactly when all fields are present, the password has at least 8 characters and the email is new; otherwise the first failing check, in source order, with its 400 message |
| `AuthService.Authenticate` | backend/app/services/auth_service.py:28-34 | a user is returned exactly when the email is known and the password verifies against the stored hash, and it is the stored user |
| `AuthService.RegisteredUserAuthenticates` | backend/app/services/auth_service.py:12-34 | a user who just registered authenticates with the same password, provided verification accepts a password against its own hash |
| `AuthService.RejectedPasswordFails` | backend/app/services/auth_service.py:32-33 | a password that the stored hash rejects never authenticates |
| `AuthService.NewUserRow` | backend/app/services/auth_service.py:20-25 | definition of the inserted row (fresh id, names, email, hashed password); its properties are proved in `AuthService.FindUserAfterAppend` and `AuthService.RegisteredUserAuthenticates` |
| `AuthService.UserTable.RegisterUser` | backend/app/services/auth_service.py:12-26 | a failing check gives its error and inserts nothing; otherwise exactly one row with the fresh id and the hashed password is added, and the account is returned without a password |
| `Monolith.TokenClaims` | backend/main.py:70-78 | the payload is the given claims plus `exp`, which is now + delta, or now + 15 minutes when the delta is missing or zero |
| `Monolith.CreateAccessToken` | backend/main.py:70-78 | definition: the signature over `TokenClaims`; `Monolith.Login` and `Monolith.LoginTokenIdentifiesUser` state what the signed payload holds |
| `Monolith.GetCurrentUser` | backend/main.py:80-97 | a user is returned exactly when the token decodes, has a string `sub` and a user has that email; it is that user; every failure is the 401 |
| `Monolith.Login` | backend/main.py:112-125 | a token is issued exactly when the credentials authenticate; it is signed over `sub` = the email with a thirty-minute expiry; otherwise the 401 |
| `Monolith.LoginTokenIdentifiesUser` | backend/main.py:80-125 | the token the login endpoint issues, once decoded, holds exactly `sub` and `exp`, expires 1800 seconds after it was issued, and names the user who logged in |
| `Monolith.Register` | backend/main.py:99-110 | a registered email is a 400 with no change; otherwise exactly one row with the fresh id and the hashed password is added and the account is returned |
| `Monolith.ReadMessages` | backend/main.py:127-130 | a failed authentication is the 401; otherwise exactly the caller's rows, ordered by ascending timestamp |
| `Monolith.EchoReply` | backend/main.py:158 | definition of the canned reply; `Monolith.CreateMessage` states where it is stored |
| `Monolith.CreateMessage` | backend/main.py:133-173 | after authentication, a taken id is a 400 with no change; otherwise the user row is stored, then an assistant row with the fresh id and `AI response to: ` + the content is stored and returned; a colliding bot id is a 500 that keeps the user row |
| `Monolith.UpdateMessage` | backend/main.py:175-195 | after authentication, empty or missing content is a 400 and no matching row a 404; otherwise only that row's content changes |
| `Monolith.DeleteMessage` | backend/main.py:197-221 | after authentication, an unknown target is a 404; otherwise the caller's suffix from the target's timestamp is removed |
| `ReplyStream.TokenFragmentsContents` | backend/app/services/message_service.py:43-45 | the fragments' contents concatenated are the tokens concatenated, which is what the server accumulates |
| `ReplyStream.FrameLineFragments` | frontend/src/components/chat-widget.tsx:130-135 | the data line and blank line of one frame yield exactly that token's fragment |
| `ReplyStream.FrameSplit` | frontend/src/components/chat-widget.tsx:128 | a frame followed by anything splits into its data line, a blank line, then the split of what follows |
| `ReplyStream.FrameThenChunk` | frontend/src/components/chat-widget.tsx:127-156 | a frame at the head of a chunk contributes exactly its fragment before the rest of the chunk's |
| `ReplyStream.ChunkOfFrames` | frontend/src/components/chat-widget.tsx:127-156 | a chunk holding several whole frames yields one fragment per token, in order, each with the bot id |
| `ReplyStream.SingleFrameChunk` | frontend/src/components/chat-widget.tsx:127-156 | a frame alone in a chunk yields exactly its token's fragment |
| `ReplyStream.GroupedBodyFragments` | frontend/src/components/chat-widget.tsx:123-157 | any cutting of the frames into chunks at frame boundaries yields one fragment per token, in order |
| `ReplyStream.FramesAsChunks` | frontend/src/components/chat-widget.tsx:123-157 | one frame per chunk yields one fragment per token |
| `ReplyStream.WholeBodyFragments` | frontend/src/components/chat-widget.tsx:123-157 | the whole body in one chunk yields one fragment per token |
| `ReplyStream.StreamedReplyMatchesSavedRow` | frontend/src/components/chat-widget.tsx:93-166 | for a fresh bot id and at least one token, the widget ends with one assistant message whose text is the content the server saves for the bot row, then the apology if the reader throws |

## Left out

- Rendering, scrolling and the typing indicator: these are UI. The `isLoading` flag is modelled; its display is not.
- Navigation to the login page is returned as a `SessionInvalid` signal, not routed.
- `fetch`, the stream reader and `TextDecoder` are inputs. Replies are `Http` values, bodies are sequences of already-decoded chunks, and `Body.broken` marks a reader that throws after its chunks.
- `JSON.parse`, `json.dumps`, UUIDs, clocks, bcrypt and JWT are abstract functions, so the JSON grammar and the cryptography are not modelled. The end-to-end lemmas state what they require of them (`ReplyStream.CodecAgrees`, a hash that verifies its own password, a decoder that returns the claims it signed).
- Token expiry is checked inside the JWT library's decoder, which is abstract here.
- Concurrency is not modelled: interleaved sends, background-task timing, transactions, and the stale `messages` closure in `handleSaveEdit` (every operation runs to completion, on the current state).
- `MessageService.MessageTable.CreateUserMessage` runs the stream to its end before saving, so a client that disconnects mid-stream (which saves a partial reply) is not modelled.
- Database errors other than a duplicate key (the `PostgresError` 500 branches) are not modelled.
- With no tokens at all, the server still saves an empty bot row while the widget appends nothing; nothing relates the two in that case.
- Update bodies are modelled as an optional string. Other JSON values for `content`, falsy or not, are not modelled.
- Email syntax validation (`EmailStr`) and other request-schema validation happen before the handlers and are not modelled.
- `frontend/src/components/Login.tsx`, the OpenAI wrappers in `backend/app/utils/chatbot.py` and `backend/chatbot.py`, the routes, configuration and connection-pool setup are not part of this model. The chatbot's token stream is an arbitrary input sequence.
