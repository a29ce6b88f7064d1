# Collaborative editor: synchronisation core in Dafny

This project models the real-time core of the collaborative editor server. Everything runs as one sequential state machine over abstract state:

- the WebSocket endpoint `EditorServer`: opening a connection, the message handler, closing, and the two broadcast helpers;
- the scheduled flush `DocumentSyncTask`, which drains the dirty set into the durable store;
- the document rules of `DocumentServiceImpl`;
- the register and login guards of `UserServiceImpl`.

The state lives in one class, `Server.Backend`:

- `sessions`: the connections with their user properties and open flag;
- `rooms`: the `docSessions` registry, document id to an ordered, repeat-free sequence of session ids;
- `cache`: the `doc:<id>` keys;
- `dirty`: the `dirty_docs` set;
- `documents`: the `document` table;
- `collaborators`: the `collaborator` table;
- `invites`: the `invite:<code>` keys;
- `outbox`: every `sendText` that reached its recipient, in order;
- `closes`: every `session.close(...)` the server issued.

`Backend.Valid()` is the invariant every handler keeps. It is the conjunction of four predicates:

- `RoomsTracked`: rooms are non-empty and repeat-free, and every member is a known session bound to that room's document.
- `CacheCovered`: a dirty id is cached, a cached id is a document, and cache authority holds: a cached, enabled document with no dirty marker has durable content equal to the cached text.
- `OwnersApart`: every collaborator row names a document and not its owner.
- `SessionsOnDocuments`: the document of every open session exists.

Each module covers one concern:

| file | module | what it holds |
|---|---|---|
| wire.dfy | `Wire` | ids, the `{type, sender, data}` message, deliveries, close reasons, business errors, constants |
| query.dfy | `Query` | Java `split("&")` and the query-parameter loop of `onOpen` |
| gate.dfy | `Gate` | the token / owner / collaborator decision of `onOpen` |
| rooms.dfy | `Rooms` | join, leave, the broadcast fan-outs, the roster |
| documents.dfy | `Documents` | lookup, the owner guard, `saveContent`, invite codes, invite join, the sorted list |
| flush.dfy | `Flush` | what one flush run persists and leaves dirty |
| users.dfy | `Users` | register and login guards, the user table |
| server.dfy | `Server` | the `Backend` class with every handler and service operation |
| scenarios.dfy | `Scenarios` | small concrete runs: an anonymous join, an edit, the owner joining with a token, a deletion |

Environment effects are parameters of the operations:

- `failed`: the sessions whose `sendText` throws;
- `fails`: the ids whose read or save throws during a flush;
- `removeFails`: the ids whose removal from the dirty set throws after their save;
- `tokens`: the tokens `JwtUtil.parseToken` accepts, with their claims;
- `decode`: `URLDecoder.decode`, where `None` means it throws;
- `encode` and `matches`: BCrypt;
- `generateToken`: JWT signing;
- `docId` and `uuid`: the random UUIDs;
- `now`: the clock.

### Behaviour of the code that the model keeps

- A signed-in user who is neither owner nor collaborator has the connection closed with the no-permission reason, and the handler carries on, since it does not return (EditorServer.java:149-157). The container runs `onClose` inside `close()`, before `docId` has been stored, so that `onClose` does nothing. The handler then stores the properties and joins the room, and USER_JOIN goes out to the others. The closed session stays in the room for good. `Backend.OnOpen` states this through `Gate.Admission.permitted` and `PermissionCloses`.
- A valid token for a missing or deleted document is closed as "Invalid Token". `getDocument` throws, and the catch-all handler at EditorServer.java:168-176 takes over (`Gate.MissingDocumentLooksLikeBadToken`). The `document == null` branch at lines 136-144 cannot run.
- Deleting a document sends DOC_DELETED to the room. The connections stay open and the room entry is kept (`Scenarios.DeleteNotifiesButKeepsRoom`).
- `broadcastSystemMessage` stops at the first failing send, because its try block encloses the whole loop (`Rooms.SystemFanoutAborts`). `broadcast` catches each failure inside the loop and goes on.
- A flush whose save succeeds but whose removal of the dirty marker throws leaves the new text saved and the id still dirty (`Flush.FlushSavedButStillDirty`).
- A connection without a token is accepted with no token or permission check and no display name. It is still closed as not found when the document is neither cached nor found.

## Model

| member | source | states |
|---|---|---|
| Query.DropTrailingEmpty | server/src/main/java/org/example/collaborative_editor/ws/EditorServer.java:116 | the result is a prefix of the fields, ends in a non-empty field, and only empty fields were dropped |
| Query.SplitAll | server/src/main/java/org/example/collaborative_editor/ws/EditorServer.java:116 | defines every field between `&` separators, empty ones included; no field contains `&` (`SplitFieldsHaveNoAmp`) and joining the fields gives back the string (`JoinSplit`) |
| Query.JavaSplit | server/src/main/java/org/example/collaborative_editor/ws/EditorServer.java:116 | `split("&")`: a string with no separator is the one field; otherwise the longest prefix of the fields that ends in a non-empty field, so every trailing empty field and only those is dropped; no field contains `&` |
| Query.ParseQuery | server/src/main/java/org/example/collaborative_editor/ws/EditorServer.java:115-128 | the loop's token and display name are those of the last matching fields of the split query (`QueryToken`, `QueryUsername`), both absent without a query |
| Query.TokenFromLastField | server/src/main/java/org/example/collaborative_editor/ws/EditorServer.java:117-119 | the token is the text after the first 6 characters of the last `token=` field, so a later field overrides an earlier one |
| Query.TokenHasLastField | server/src/main/java/org/example/collaborative_editor/ws/EditorServer.java:117-119 | a token that was found comes from the last `token=` field |
| Query.NoTokenField | server/src/main/java/org/example/collaborative_editor/ws/EditorServer.java:117-119 | there is no token exactly when no field starts with `token=` |
| Query.UsernameFromLastField | server/src/main/java/org/example/collaborative_editor/ws/EditorServer.java:120-125 | the display name is the decoding of the text after the first 9 characters of the last `username=` field that decodes; a `token=` field never sets it |
| Query.NoUsernameField | server/src/main/java/org/example/collaborative_editor/ws/EditorServer.java:120-125 | there is no display name exactly when no field sets one |
| Query.DropTrailingEmptyKeepsParams | server/src/main/java/org/example/collaborative_editor/ws/EditorServer.java:116 | dropping trailing empty fields changes neither the token nor the display name |
| Query.SplitFieldsHaveNoAmp | server/src/main/java/org/example/collaborative_editor/ws/EditorServer.java:116 | no field of the split contains `&` |
| Query.JoinSplit | server/src/main/java/org/example/collaborative_editor/ws/EditorServer.java:116 | joining the fields with `&` gives back the query string |
| Gate.Authorize | server/src/main/java/org/example/collaborative_editor/ws/EditorServer.java:130-177 | anonymous exactly without a token; rejected exactly when the token does not parse or the document is not found; an admitted user has the token's id, the override name or else the subject, and permission exactly when owner or collaborator |
| Gate.MissingDocumentLooksLikeBadToken | server/src/main/java/org/example/collaborative_editor/ws/EditorServer.java:131-176 | a valid token for a missing or deleted document is rejected like an invalid one |
| Gate.MembersArePermitted | server/src/main/java/org/example/collaborative_editor/ws/EditorServer.java:145-165 | the owner and every collaborator are admitted with permission |
| Rooms.Join | server/src/main/java/org/example/collaborative_editor/ws/EditorServer.java:215 | the room of `d` exists afterwards and holds the old members in order plus the session; no other room changes |
| Rooms.JoinWellFormed | server/src/main/java/org/example/collaborative_editor/ws/EditorServer.java:215 | a join keeps every room non-empty and repeat-free |
| Rooms.Remove | server/src/main/java/org/example/collaborative_editor/ws/EditorServer.java:337 | the result is the room with every occurrence of the session removed (as a multiset) |
| Rooms.RemoveAbsent | server/src/main/java/org/example/collaborative_editor/ws/EditorServer.java:337 | removing an absent session returns the room unchanged |
| Rooms.RemoveConcat | server/src/main/java/org/example/collaborative_editor/ws/EditorServer.java:337 | removal distributes over concatenation, so with `Remove`'s multiset clause the remaining members keep their order |
| Rooms.Leave | server/src/main/java/org/example/collaborative_editor/ws/EditorServer.java:334-357 | without a room nothing changes; otherwise the members are the others, the entry goes exactly when nobody is left, and no other room changes |
| Rooms.MembersAfterLeave | server/src/main/java/org/example/collaborative_editor/ws/EditorServer.java:337-354 | after a leave the room holds exactly `Remove` of the old room: the others, in their order (`RemoveConcat`) |
| Rooms.LeaveWellFormed | server/src/main/java/org/example/collaborative_editor/ws/EditorServer.java:353-357 | a leave keeps the registry well formed; no empty room survives |
| Rooms.LeaveNonMember | server/src/main/java/org/example/collaborative_editor/ws/EditorServer.java:334-357 | leaving a room one is not in is a no-op |
| Rooms.LeaveIdempotent | server/src/main/java/org/example/collaborative_editor/ws/EditorServer.java:334-357 | leaving twice equals leaving once |
| Rooms.Fanout | server/src/main/java/org/example/collaborative_editor/ws/EditorServer.java:384-396 | defines the sends of `broadcast` in room order: a member that is not the sender, is open and whose send does not throw gets one delivery, and a failure only skips its own recipient |
| Rooms.FanoutCount | server/src/main/java/org/example/collaborative_editor/ws/EditorServer.java:384-396 | each member that is not the sender, is open and whose send succeeds gets the message once per occurrence in the room; nobody else gets anything |
| Rooms.FanoutExactlyOnce | server/src/main/java/org/example/collaborative_editor/ws/EditorServer.java:384-396 | in a repeat-free room `broadcast` reaches exactly those members once each, and never the sender |
| Rooms.SystemFanout | server/src/main/java/org/example/collaborative_editor/ws/EditorServer.java:406-422 | defines the sends of `broadcastSystemMessage` in room order: every open member, the sender included, until the first send that throws |
| Rooms.SystemFanoutCount | server/src/main/java/org/example/collaborative_editor/ws/EditorServer.java:413-419 | without failures every open member, the sender included, gets the message once per occurrence |
| Rooms.SystemFanoutAborts | server/src/main/java/org/example/collaborative_editor/ws/EditorServer.java:406-422 | an open member whose send fails ends the loop: only the members before it are sent to |
| Rooms.SystemFanoutOnlyOpenMembers | server/src/main/java/org/example/collaborative_editor/ws/EditorServer.java:413-419 | every delivery goes to an open member of the room whose send succeeded |
| Rooms.Direct | server/src/main/java/org/example/collaborative_editor/ws/EditorServer.java:243-245 | one send delivers at most the one message to its session, and only when the session is open and the send succeeds |
| Rooms.Usernames | server/src/main/java/org/example/collaborative_editor/ws/EditorServer.java:231-233 | every member's non-null name is listed, and every listed name is some member's |
| Rooms.Distinct | server/src/main/java/org/example/collaborative_editor/ws/EditorServer.java:234 | the result is repeat-free and has the same elements |
| Rooms.RosterNames | server/src/main/java/org/example/collaborative_editor/ws/EditorServer.java:231-235 | the roster is repeat-free and holds a name exactly when some member has it |
| Documents.Lookup | server/src/main/java/org/example/collaborative_editor/mapper/DocumentMapper.java:21 | a row is found exactly when it exists with status 1 |
| Documents.GetDocument | server/src/main/java/org/example/collaborative_editor/service/impl/DocumentServiceImpl.java:51-57 | succeeds with the row exactly when it is found, otherwise fails with DOCUMENT_NOT_FOUND |
| Documents.OwnerGuard | server/src/main/java/org/example/collaborative_editor/service/impl/DocumentServiceImpl.java:94-103 | DOCUMENT_NOT_FOUND exactly when not found, DOCUMENT_NO_PERMISSION exactly when found but not owned, success with the row otherwise |
| Documents.Saved | server/src/main/java/org/example/collaborative_editor/service/impl/DocumentServiceImpl.java:60-66 | only the found document changes: its content becomes the given text and its update time the clock reading; otherwise nothing changes |
| Documents.RemoveDashes | server/src/main/java/org/example/collaborative_editor/service/impl/DocumentServiceImpl.java:133 | the result has no dash and exactly the other characters |
| Documents.InviteCode | server/src/main/java/org/example/collaborative_editor/service/impl/DocumentServiceImpl.java:133 | the code has 8 characters, no dash, and only characters of the UUID |
| Documents.RemoveDashesConcat | server/src/main/java/org/example/collaborative_editor/service/impl/DocumentServiceImpl.java:133 | removing dashes distributes over concatenation |
| Documents.RemoveDashesNoDash | server/src/main/java/org/example/collaborative_editor/service/impl/DocumentServiceImpl.java:133 | a dash-free text is unchanged |
| Documents.InviteCodeOfUuid | server/src/main/java/org/example/collaborative_editor/service/impl/DocumentServiceImpl.java:133 | for a UUID's text the code is its first 8 characters, all hexadecimal digits |
| Documents.InviteJoined | server/src/main/java/org/example/collaborative_editor/service/impl/DocumentServiceImpl.java:141-173 | INVITE_CODE_INVALID for an unknown code, DOCUMENT_NOT_FOUND for a missing document, otherwise the document; the owner adds no collaborator row, anyone else gets the row for that document and user, kept once |
| Documents.InviteJoinIdempotent | server/src/main/java/org/example/collaborative_editor/service/impl/DocumentServiceImpl.java:160-170 | the same join twice returns the same result and adds nothing the second time |
| Documents.InviteJoinKeepsOwnerOut | server/src/main/java/org/example/collaborative_editor/service/impl/DocumentServiceImpl.java:154-170 | a join never makes an owner a collaborator of their own document |
| Documents.InsertDesc | server/src/main/java/org/example/collaborative_editor/service/impl/DocumentServiceImpl.java:88 | inserting into a list sorted newest first keeps it sorted and adds exactly that entry |
| Documents.SortByUpdateTimeDesc | server/src/main/java/org/example/collaborative_editor/service/impl/DocumentServiceImpl.java:88 | the result is sorted newest first and is a permutation of the input |
| Documents.OwnedEntries | server/src/main/java/org/example/collaborative_editor/mapper/DocumentMapper.java:33 | exactly the user's own enabled documents, each once |
| Documents.EntriesByIds | server/src/main/java/org/example/collaborative_editor/service/impl/DocumentServiceImpl.java:74-78 | exactly the enabled documents with those ids, each once |
| Documents.ListDocuments | server/src/main/java/org/example/collaborative_editor/service/impl/DocumentServiceImpl.java:69-91 | sorted newest first, each listed document once, and a document is listed exactly when it is enabled and owned or collaborated |
| Flush.Persisted | server/src/main/java/org/example/collaborative_editor/task/DocumentSyncTask.java:39-57 | a snapshot id is saved exactly when it has cached text and its read and save do not throw |
| Flush.Unmarked | server/src/main/java/org/example/collaborative_editor/task/DocumentSyncTask.java:49-50 | a snapshot id loses its dirty marker exactly when it is saved and its removal does not throw; only saved ids lose it |
| Flush.PersistedStep | server/src/main/java/org/example/collaborative_editor/task/DocumentSyncTask.java:39-57 | handling one more id adds it to the saved set exactly when it is cached and its read and save do not fail, and to the unmarked set when its removal does not fail either |
| Flush.SavedAll | server/src/main/java/org/example/collaborative_editor/task/DocumentSyncTask.java:47 | defines the table after `saveContent` with the cached text for each given id: enabled rows among them get that text and the run's clock reading, everything else is unchanged (`SavedAllStep`, `SavedAllKeepsRows`) |
| Flush.SavedAllStep | server/src/main/java/org/example/collaborative_editor/task/DocumentSyncTask.java:47 | one more `saveContent` with the cached text extends the saved set, whatever the order |
| Flush.SavedAllKeepsRows | server/src/main/java/org/example/collaborative_editor/task/DocumentSyncTask.java:47 | saving changes content and update time only: same documents, owners, titles and status |
| Flush.FlushOfNothing | server/src/main/java/org/example/collaborative_editor/task/DocumentSyncTask.java:31-35 | an empty dirty set saves nothing, unmarks nothing and changes nothing |
| Flush.FlushWritesCachedText | server/src/main/java/org/example/collaborative_editor/task/DocumentSyncTask.java:43-47 | a persisted, enabled document now holds exactly the cached text, stamped with the run's clock reading |
| Flush.FlushKeepsUnsaved | server/src/main/java/org/example/collaborative_editor/task/DocumentSyncTask.java:45-57 | an uncached id, or one whose read or save throws, keeps its row and stays dirty |
| Flush.FlushSavedButStillDirty | server/src/main/java/org/example/collaborative_editor/task/DocumentSyncTask.java:41-57 | an id whose save succeeds but whose marker removal throws holds the cached text and stays dirty |
| Flush.FlushKeepsAgreement | server/src/main/java/org/example/collaborative_editor/task/DocumentSyncTask.java:41-50 | a run keeps cache authority: each removed marker's document now holds the cached text, and a marker that stays protects its document |
| Flush.FlushDrains | server/src/main/java/org/example/collaborative_editor/task/DocumentSyncTask.java:39-51 | without failures of read, save or removal, and with every dirty id cached, the dirty set is drained |
| Users.RegisterCheck | server/src/main/java/org/example/collaborative_editor/service/impl/UserServiceImpl.java:35-44 | USERNAME_EXIST exactly when the name is taken; EMAIL_EXIST exactly when it is not but a given email is; success otherwise |
| Users.NewUser | server/src/main/java/org/example/collaborative_editor/service/impl/UserServiceImpl.java:47-52 | the new row has the hash, the nickname or else the username, status ENABLE and no avatar |
| Users.FindByUsername | server/src/main/java/org/example/collaborative_editor/mapper/UserMapper.java:16 | a row is found exactly when the name is taken, and it has that name |
| Users.Login | server/src/main/java/org/example/collaborative_editor/service/impl/UserServiceImpl.java:59-92 | PASSWORD_ERROR exactly for an unknown user or an enabled account whose password does not match; ACCOUNT_DISABLED exactly for a disabled account, before the password; success exactly for an enabled account whose password matches, with the row's id, username, nickname, avatar and a token for them |
| Users.FindAppended | server/src/main/java/org/example/collaborative_editor/service/impl/UserServiceImpl.java:54 | a row inserted under a fresh username is the one found by that name |
| Users.RegisterThenLogin | server/src/main/java/org/example/collaborative_editor/service/impl/UserServiceImpl.java:31-92 | after a successful register, login with the same password succeeds with the new id, the username and the nickname given |
| Users.UserTable.Register | server/src/main/java/org/example/collaborative_editor/service/impl/UserServiceImpl.java:31-56 | the error is `RegisterCheck`'s; a rejected request inserts nothing, an accepted one appends the new row with the next id; ids stay sequential and usernames unique |
| Server.SeedKeepsCovered | server/src/main/java/org/example/collaborative_editor/ws/EditorServer.java:190-200 | seeding the cache with the durable text keeps cache authority, with no dirty marker |
| Server.TrackJoin | server/src/main/java/org/example/collaborative_editor/ws/EditorServer.java:215 | joining the room of the session's own document keeps every member bound to its room |
| Server.TrackLeave | server/src/main/java/org/example/collaborative_editor/ws/EditorServer.java:334-357 | leaving keeps every member bound to its room |
| Server.Backend.SeedContent | server/src/main/java/org/example/collaborative_editor/ws/EditorServer.java:186-211 | no text exactly when nothing is cached and nothing is found; a clean, enabled document is seen with its durable content |
| Server.Backend.Broadcast | server/src/main/java/org/example/collaborative_editor/ws/EditorServer.java:376-398 | the outbox grows by exactly the `Fanout` of the sender's room |
| Server.Backend.BroadcastSystemMessage | server/src/main/java/org/example/collaborative_editor/ws/EditorServer.java:403-424 | the outbox grows by exactly the `SystemFanout` of the room, sender "server" |
| Server.Backend.Send | server/src/main/java/org/example/collaborative_editor/ws/EditorServer.java:243-245 | the outbox grows by exactly the one `Direct` send |
| Server.Backend.OnOpen | server/src/main/java/org/example/collaborative_editor/ws/EditorServer.java:106-270 | a rejected token stores a closed session and closes with "Invalid Token", nothing else; without text the session is stored closed and closed as not found; otherwise the session is stored, a user without permission is closed, the cache is seeded without a dirty marker, the session joins, USER_JOIN goes to the others and the roster and SYNC to the session; the invariant is kept |
| Server.Backend.Admit | server/src/main/java/org/example/collaborative_editor/ws/EditorServer.java:179-266 | the part after the token check, with the same outcomes as `OnOpen` |
| Server.Backend.Refuse | server/src/main/java/org/example/collaborative_editor/ws/EditorServer.java:201-209 | a refused connection's properties are stored and its close recorded; the invariant is kept |
| Server.Backend.Enter | server/src/main/java/org/example/collaborative_editor/ws/EditorServer.java:179-215 | properties stored, cache seeded when it had no entry, room joined; the invariant is kept |
| Server.Backend.Greet | server/src/main/java/org/example/collaborative_editor/ws/EditorServer.java:219-266 | USER_JOIN to the others, then roster and SYNC to the session, in that order |
| Server.Backend.OnMessage | server/src/main/java/org/example/collaborative_editor/ws/EditorServer.java:278-319 | EDIT with text overwrites the cache, marks dirty and relays the message unchanged to the others; CURSOR relays with the sender replaced by the display name; PING sends one PONG to the sender only; anything else, no document or no parse changes nothing |
| Server.Backend.OnClose | server/src/main/java/org/example/collaborative_editor/ws/EditorServer.java:326-359 | the session is closed, leaves its room (the entry goes once empty) and, with a display name, USER_LEAVE goes to the remaining members; without a document or a room nothing else changes |
| Server.Backend.Depart | server/src/main/java/org/example/collaborative_editor/ws/EditorServer.java:334-357 | the room after `Leave`, and USER_LEAVE to the remaining members when there is a name |
| Server.Backend.SaveContent | server/src/main/java/org/example/collaborative_editor/service/impl/DocumentServiceImpl.java:60-66 | the document table becomes `Saved` with the clock reading |
| Server.Backend.SyncDocumentContent | server/src/main/java/org/example/collaborative_editor/task/DocumentSyncTask.java:29-59 | an empty dirty set changes nothing; otherwise exactly the `Persisted` ids are saved with their cached text, exactly the `Unmarked` ids leave the dirty set, and the invariant, cache authority included, is kept |
| Server.Backend.SaveSnapshot | server/src/main/java/org/example/collaborative_editor/task/DocumentSyncTask.java:39-58 | the loop over the snapshot saves exactly the `Persisted` ids and unmarks exactly the `Unmarked` ones |
| Server.Backend.ListDocuments | server/src/main/java/org/example/collaborative_editor/service/impl/DocumentServiceImpl.java:69-91 | in every reachable state: sorted newest first, each listed document once, and a document is listed exactly when it is enabled and owned or collaborated |
| Server.Backend.CreateDocument | server/src/main/java/org/example/collaborative_editor/service/impl/DocumentServiceImpl.java:38-48 | the caller owns the new, enabled, empty document, which is then found |
| Server.Backend.DeleteDocument | server/src/main/java/org/example/collaborative_editor/service/impl/DocumentServiceImpl.java:94-117 | not found, then not owner, change nothing; otherwise the document is disabled and stamped with the clock reading, the cache entry and dirty marker go, and DOC_DELETED goes to the room |
| Server.Backend.CreateInviteCode | server/src/main/java/org/example/collaborative_editor/service/impl/DocumentServiceImpl.java:120-137 | owner only; the code is the UUID's first 8 hexadecimal digits and now leads to the document |
| Server.Backend.JoinByInviteCode | server/src/main/java/org/example/collaborative_editor/service/impl/DocumentServiceImpl.java:141-173 | result and collaborator table as `InviteJoined` states; the invariant is kept |
| Server.Backend.UpdateTitle | server/src/main/java/org/example/collaborative_editor/service/impl/DocumentServiceImpl.java:176-191 | owner only; only the title and the update time change |
| Scenarios.JoinEmptyDocument | server/src/main/java/org/example/collaborative_editor/ws/EditorServer.java:186-266 | an anonymous join to a new, empty document yields one member, an empty roster and an empty SYNC |
| Scenarios.EditIsNotEchoed | server/src/main/java/org/example/collaborative_editor/ws/EditorServer.java:290-298 | after the join, an EDIT from the only member replaces the cached text, marks the document dirty and sends nothing |
| Scenarios.DeleteNotifiesButKeepsRoom | server/src/main/java/org/example/collaborative_editor/service/impl/DocumentServiceImpl.java:94-117 | after the join, the owner's delete succeeds, disables the row, drops the cached text and sends DOC_DELETED to the member, who stays in the room |
| Scenarios.OwnerQuery | server/src/main/java/org/example/collaborative_editor/ws/EditorServer.java:108-128 | the query `token=t1` yields the token `t1` and no display-name override |
| Scenarios.OwnerAdmitted | server/src/main/java/org/example/collaborative_editor/ws/EditorServer.java:130-166 | the owner's valid token for an enabled document admits them with permission, under the token's subject |
| Scenarios.OwnerJoinsWithToken | server/src/main/java/org/example/collaborative_editor/ws/EditorServer.java:106-266 | after the anonymous join, the owner's token join stores B with user id and name, announces alice to A, and sends B the roster [alice] and the text |

## Left out

- JWT parsing and signing, and BCrypt hashing: these are the parameters `tokens`, `generateToken`, `encode` and `matches`. A non-numeric `userId` claim is treated as a token that does not parse.
- Redis and MySQL clients, the 24-hour TTL on seeded text and invite codes, time-based expiry: the stores are maps and sets that never expire.
- UUID randomness and `LocalDateTime.now()`: `CreateDocument` takes the fresh id, which must not already be a document, `CreateInviteCode` takes the UUID's text, and `CreateDocument`, `UpdateTitle`, `SaveContent`, `DeleteDocument` and `SyncDocumentContent` take the time. One flush run uses one clock reading for all its saves.
- Concurrency: `synchronized`, ConcurrentHashMap, CopyOnWriteArraySet thread safety, and the `@Scheduled` timer. Each handler is one atomic step.
- Jackson JSON: messages are a datatype; an inbound text that does not parse is `None`, and the roster is a list of names, not its JSON text.
- `BaseContext`: the current user is an explicit parameter.
- Logging, `onError`, the Vue front end, Spring configuration and security wiring, controllers and the exception handler.
- The `@AutoFill` aspect class is not part of this model. The mapper's `insert` (DocumentMapper.java:15) and `update` (DocumentMapper.java:27) are taken to have `updateTime` stamped with the clock, so creating, saving, flushing or deleting a document moves it in the newest-first list. Any other field the aspect might fill is not modelled.
- `listByIds` has no visible query: it is taken to return the enabled documents with those ids, in any order.
- Documents.SortByUpdateTimeDesc: sorts a sequence into a new one rather than the list in place, and does not state that equal times keep their order.
- Rooms.Distinct: does not state that the first occurrences keep their order.
- Rooms.Usernames: states which names are listed, not their order or how often each appears; the roster built from it is repeat-free through `Distinct`.
- Usernames and emails are compared exactly; database collation is not modelled. Validation annotations on the request DTO are not modelled.
- The container's session lifecycle is abstracted: `OnClose` and `OnMessage` require an open session, because the container calls them only for one. A send to a closed session delivers nothing. For the no-permission session, the roster send would throw `IllegalStateException` and end `onOpen` early; the model reaches the same state, since nothing after it changes state.
- `OnClose` removes the empty room entry before broadcasting USER_LEAVE, where the source removes it after. A broadcast over an empty room sends nothing, so both orders end in the same state.
- Store calls outside the flush never fail: the Redis reads and writes of `onOpen` (for example the cache read at EditorServer.java:187, which no try block encloses), of `onMessage` and of the document service, and the MySQL calls of the services, always succeed in the model. Only sends (`failed`) and the flush's read, save and unmarking (`fails`, `removeFails`) can fail.
- Server.Backend.OnOpen: one failure set `failed` covers every send of one `onOpen`, so the roster send (EditorServer.java:236-248) and the SYNC send (EditorServer.java:252-265) to the newcomer fail or succeed together. In the source each has its own try block and can fail alone.
- Users.UserTable.Register: the new row's id is one more than the number of rows, assuming MySQL's auto-increment hands out ids 1, 2, 3, ... without gaps; a gap left by a failed insert or a deleted row is not modelled.
- The `document == null` branch of the token check (EditorServer.java:136-144) is dead code, since `getDocument` throws, and has no counterpart.
