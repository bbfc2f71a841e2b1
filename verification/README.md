# LiteChatServer: a Dafny model and its proofs

LiteChatServer is a multi-threaded chat server written in C++. Its difficulty is the state that
several code paths keep in step: the session table, the username-to-socket index, the presence flag
in the database, the friend cache, the message read flags, the connection counter, and the worker
and connection pools. This project models that state and proves, for every run, what the code keeps.

Verify the whole project with `dafny verify dfyconfig.toml`.

## Layout

| file | what it holds |
|---|---|
| `ChatTypes`, `Tables`, `Sessions`, `Handlers`, `ServerModel` | the state as values, and what each SQL statement, session operation, request handler and server step computes |
| `SessionManagement`, `Managers`, `ChatServer` | the same operations as the classes of the source, with loops and fields updated in place; every method is proved to take the state where the function of the files above takes it |
| `Effects`, `Index`, `Invariants`, `Presence`, `HeartbeatSweep` | index, presence, socket ownership, connection counter, kick handoff and idle time over all runs |
| `Requests`, `Accounts` | what one request, login or accept does, written out in terms of the state before the step; accounts and passwords over all runs |
| `MessageTable`, `OfflinePush`, `SendTimes`, `Delivery`, `ReadFlags`, `Recipients`, `ExactlyOnce`, `FailureFree` | the message queries, the offline push and its order, and delivery over all runs: read flags and lost messages under any failures, who gets what, exactly-once |
| `FriendGraph`, `Notices` | the friend relation, ADD_FRIEND, DEL_FRIEND, the list query, and who is told of a login or sign-off |
| `ThreadPool` | SubmitTask, WorkerThread and the destructor as interleaved steps |
| `Framing` | the length-prefixed stream and the send and receive loops |
| `Redaction`, `RedactionTheorems` | the in-place log filter |
| `DbPool` | the connection pool, its retry loops, and all its callers interleaved |
| `FoldedServer`, `Collation`, `TwoSpellings` | the server on a table that ignores case: when its runs are those of the exact one, and what breaks otherwise |

The server is a transition system (`ServerModel.Next`, `Enabled`, `Exec`, `ValidRun`). Its steps are:
time passes, a client is accepted (three sub-steps, because the session is added before the counter
goes up and the task is submitted), a worker starts a client task, a request is handled, a client
disconnects, a client handler throws, the heartbeat thread sweeps, and Stop. Theorems "over runs" are
about every sequence of such steps, from any tables that obey the schema.

## Assumptions of the model

* A handler or a clean-up is one atomic step. `Presence.SplitCleanupCountsTwice` and
  `Presence.SplitFailureDropsNewClient` show what breaks without this.
* Database statements succeed inside the server model; the pool model (`DbPool`) treats their failure.
* A login comes from a socket that still has its session (`Enabled`).
  `Presence.LoginWithoutSessionGoesStale` shows what breaks without this.
* Usernames are compared exactly. The table collation ignores case (`src/sql/init.sql:20`), the
  in-memory maps do not. `FoldedServer` is the server on such a table, and `Collation.SameRun` proves that
  it takes the steps of the exact one as long as every request spells each account as it was
  registered; the theorems over runs then hold for it. Without that they do not:
  `TwoSpellings.TwoSpellingsBreak` is a run from an empty start in which a bound user goes offline and
  then two live sessions carry one name, so presence and index both fail.
  `Collation.SignOffKeepsPresenceIff`, `Collation.LoginReplacesIff` and `Collation.OwnFriendIff` give the
  condition of each step that breaks.
* A user id is a row number of `users`: rows are only appended. Rows with equal `send_time` keep their
  insertion order in the unread query.
* `SendTimes` starts from a message table whose rows stand in the order of `send_time`, none later than
  the clock; the empty table is one. The clock of the model never goes back.
* The order in which an `unordered_map` is traversed is a parameter of the step (`Sweep`, `Stop`).
* The password hash and the outcome of every send are parameters (`Env`): `carries(k)` says whether
  the network would carry the k-th send; a send to a closed or shut-down socket fails in any case.
* `Message.storedAt`, the log of sends, and the ids inside `ForwardMsg` exist in the model only. They
  let a theorem say "after it was stored" and "for this row".
* Framing: sends on one socket are sequential, and `recv` delivers a header whole.
  `Framing.HeaderMustBeWhole` proves that the second assumption is needed, exactly.
* An exception other than SQLException while connections are created ends a recovery at once. The
  interleaving model of the pool has that step (`Escape`); the retry loops taken alone (`DbPool.Recover`)
  answer to SQLException only. All bounds hold either way.
* The two maps of the source that hold object pointers are maps of objects here; the server's task
  queue holds the socket each task was made for.

## Where the code differs from its documentation

The model follows the code. `README.md` with a line number is the repository's own.

* Friendship is documented as mutual (`README.md:19`, `README.md:219`). A row is directed:
  `FriendGraph.FriendshipIsDirected` gives the run in which both users list each other, the added user
  cannot delete the friend, and adding back lists both twice.
* Offline messages are documented as pushed when a user comes online (`README.md:26`). One successful
  forward marks every message of its (sender, receiver) pair read, so a message that never arrived can
  be marked read and is then never pushed. `ReadFlags.LostIff` says exactly which messages are lost,
  over every run. Both forwarding branches do it: `ReadFlags.LiveSendLosesIff` (a live send) and
  `OfflinePush.PushLosesIff` (the push at login) give the condition of each, and
  `ReadFlags.SecondSendLosesFirst` and `ReadFlags.PushLosesSecond` are two concrete losses.
* A user who sends LOGIN on a socket where the same name is logged in already kicks that very session
  and shuts the socket; the user stays bound, online and unreachable. `Presence.LoginHolds` says which
  logins end like this, and `FailureFree.RunsTellFailures` that it never happens without a failed send.
* Friends are documented as told of every status change (`README.md:21`). `Notices.EndTellsIff` says which
  steps that end a login tell: a disconnect and a sweep do, unless the sweep has removed the friend's
  own session first; a handler that throws and Stop do not. A pair with edges both ways is told twice
  (`Notices.LoginTells`).
* Idle clients are documented as dropped after 10 minutes with a check every 30 seconds
  (`README.md:33`). Only sessions with a username are dropped; the proved bound is 630 seconds
  (`HeartbeatSweep.IdleBound`).
* Shutdown is documented as waiting for the threads (`README.md:162`). The destructor sets its flag
  without the mutex: `ThreadPool.JoinReturnsIff` says exactly when its join returns, and
  `ThreadPool.ShutdownCanHang` is a run in which it does not.
* The log filter is meant to mask every password. It resumes at an offset that belongs to the text
  before the replacement; `RedactionTheorems.FilterIsClean` gives the exact condition under which every
  value is masked, `RedactionTheorems.SecondPasswordLeaks` a message that leaks.
* A connection whose set-up fails after it was opened is not closed (`src/system/db_manager.cpp:159-173`):
  `DbPool.WholeAtRestIff` counts it among the losses of the pool.

## Model

| member | source | states |
|---|---|---|
| `Invariants.RunsKeepAll` | src/connection/server.cpp:189-269 | over every run: the index is sound, usernames stay unique, every bound name is a known user, sockets are owned once, the counter is exact; while running the index is complete and bound names are online and cached; from an all-offline table online names are bound |
| `Invariants.StepKeepsAll` | src/connection/server.cpp:447-474 | each single step (accept, dispatch, disconnect, exception, sweep, stop) keeps those invariants |
| `Invariants.LoginKeepsAll` | src/system/user_manager.cpp:82-140 | a login keeps them, whoever held the name before |
| `Invariants.TaskEndKeepsAll` | src/connection/server.cpp:237-267 | the end of a client handler, normal or by exception, keeps them |
| `Invariants.SweepKeepsAll` | src/connection/server.cpp:447-474 | a sweep over a snapshot in any order keeps them |
| `Invariants.DisconnectEffect` | src/connection/server.cpp:237-251 | what a disconnect changes: session, index entry, presence flag, counter, socket and exactly that one cached list; otherwise only notices are sent |
| `Invariants.FailEffect` | src/connection/server.cpp:253-268 | the exception path does the same to session, flag and counter, tells no friend and leaves the cached friend list behind |
| `Invariants.StopAllEffect` | src/connection/server.cpp:164-177 | Stop lowers exactly the flags and drops exactly the cached lists of the names on its sessions, shuts exactly the open sockets that have a session, and changes nothing else |
| `Index.LoginKeepsIndexIff` | src/system/user_manager.cpp:106-134 | a login keeps "index = live named sessions" if and only if the socket has its session, carries no other name, and the account was marked online or nobody else holds the name (or the socket has no session and nothing was kicked) |
| `Index.BindAloneIsUnsafe` | src/system/session_manager.cpp:116-119 | BindUsername without the username override or without the kick breaks the index: two witnesses |
| `Index.LookupIsScan` | src/connection/server.cpp:416-427 | on an exact index the lookup returns what the linear scan over all sessions returns, and it is unique |
| `Index.ScanByUsername` | src/connection/server.cpp:421-426 | the scan loop finds a session with the name if there is one, and agrees with the index |
| `Index.LookupAfterRemove` | src/system/session_manager.cpp:38-52 | removing a session hides exactly the names that led to it; a newer session under the same name is still found |
| `Index.RemoveKeepsIndex` | src/system/session_manager.cpp:38-52 | removal keeps the index sound and exact and takes out only the name of that session |
| `Index.OnlineCount` | src/system/session_manager.cpp:98-101 | the size of the index is the number of logged-in sessions |
| `Presence.IndexOverRuns` | src/system/session_manager.cpp:73-83 | over every run before Stop: looking a name up finds the one live session carrying it, at most one session carries it, and the online count is right |
| `Presence.PresenceOverRuns` | src/system/user_dao.cpp:314-340 | bound implies online from any table; from an all-offline table bound and online are equal while running, and online implies bound even after Stop |
| `Presence.StopLeavesAllOffline` | src/connection/server.cpp:156-184 | from an all-offline start Stop leaves every user offline and shuts every session's socket |
| `Presence.OwnershipOverRuns` | src/connection/server.cpp:193-218 | every open client socket is in exactly one place (accept window, queue, running handler), sessions sit on open sockets, named sessions have a running handler, the counter is exact and within 0..128, and at most 10 handlers run |
| `Presence.ClientsInOrder` | src/system/thread_pool.cpp:34-73 | over every run the clients whose handlers were started, followed by those still queued, are the submitted ones, in the order in which they were submitted |
| `Presence.AcceptNeverOverwrites` | src/connection/server.cpp:209-213 | an accepted socket never has a session already, and accepting changes no other session |
| `Presence.LoginHolds` | src/system/user_manager.cpp:106-134 | after a successful login the name is bound to that socket; it is also up, online and cached if and only if the socket was up and not logged in under that name already (then the login shuts its own socket) |
| `Presence.StepEvictsIff` | src/system/user_manager.cpp:108-134 | one step takes a login that holds away if and only if it is a login of the same name on any socket, the end of its own handler, a sweep that finds it expired, or Stop |
| `Presence.HandoffOverRuns` | src/connection/server.cpp:237-251 | the login survives every continuation without such a step, the clean-up of the kicked session included |
| `Presence.LoginAfterStopDuplicates` | src/connection/server.cpp:164-177 | a login dispatched after Stop kicks nobody: two sessions carry one name |
| `Presence.LoginWithoutSessionGoesStale` | src/system/user_manager.cpp:129-134 | a login on a socket without session leaves the index pointing at a session without name |
| `Presence.SplitCleanupCountsTwice` | src/connection/server.cpp:237-248 | if a sweep runs between lookup and removal the connection is counted down twice |
| `Presence.SplitFailureDropsNewClient` | src/system/exception_handler.cpp:39-44 | if the descriptor is reused between close and removal, the new client's session is removed |
| `HeartbeatSweep.SweepRemovesExactly` | src/connection/server.cpp:451-471 | a sweep removes exactly the expired logged-in sessions it visits, in any order, and shuts no other socket |
| `HeartbeatSweep.SweepCountsOnce` | src/connection/server.cpp:464-469 | each removed session is counted down once |
| `HeartbeatSweep.IdleBound` | src/connection/server.cpp:447-474 | over every run no logged-in session has been idle more than 600 s right after a sweep, and never more than 630 s |
| `HeartbeatSweep.RequestRenews` | src/connection/server.cpp:491-494 | a request that parses sets the heartbeat of its own session to now; every other session keeps its own |
| `HeartbeatSweep.AliveOverRuns` | src/connection/server.cpp:447-474 | a logged-in session heard from at t is there, under its name, after every run whose sweeps come within 600 s of t and in which no login takes it, its handler does not end and Stop does not come |
| `HeartbeatSweep.RequestKeepsSession` | src/connection/server.cpp:491-494 | so a request keeps its session for 600 s from its receipt |
| `MessageTable.UnreadMessagesAre` | src/system/message_dao.cpp:62-105 | the unread query returns exactly the unread rows of the receiver, each once, in non-decreasing send_time |
| `MessageTable.DeleteBetweenIs` | src/system/friend_dao.cpp:94-122 | deletion removes exactly the pair's messages, both directions, and keeps the order of the rest |
| `OfflinePush.PushRowsExact` | src/system/message_manager.cpp:174-178 | under any pattern of send failures: a row is marked read iff some forward on its pair arrived, and the log holds each forward in place with its outcome |
| `OfflinePush.PushRowsNotices` | src/system/message_manager.cpp:174-178 | after each forward, arrived or not, the notice with the sender's name follows, with the outcome the network gives it |
| `OfflinePush.UnreadAfterPush` | src/system/message_manager.cpp:154-182 | after the push the unread messages are exactly those of senders none of whose forwards arrived |
| `OfflinePush.PushIsInTimeOrder` | src/system/message_dao.cpp:70-78 | the forwards go out in non-decreasing send_time order |
| `OfflinePush.PushLosesIff` | src/system/message_manager.cpp:234-239 | within one push: no message is marked read without its own forward arriving, if and only if the forwards of each sender fare alike |
| `OfflinePush.PushRowsForwards` | src/system/message_manager.cpp:174-178 | if the network carries them all, each row of the push is forwarded exactly once |
| `Delivery.ReadNeverReverts` | src/system/message_dao.cpp:113-139 | over every run a stored message keeps its contents and, once read, stays read |
| `SendTimes.TimesOverRuns` | src/sql/init.sql:34-45 | over every run the message table stays in the order of `send_time`, no row later than the clock |
| `SendTimes.PushInStoredOrder` | src/system/message_dao.cpp:70-78 | a user's pending messages are pushed in the order in which they were stored, each with its own id, users, text and the time it was stored at, and each followed by its notice |
| `SendTimes.LoginPushes` | src/connection/server.cpp:578-586 | a login ends with exactly that push, and then the reply |
| `ReadFlags.ReadIffForwarded` | src/system/message_manager.cpp:219-242 | over every run and any failures: a message not read at the start is read if and only if some forward on its (sender, receiver) pair succeeded after it was stored |
| `ReadFlags.NeverTwice` | src/system/message_manager.cpp:66-81 | over every run and any failures no message arrives twice, and one that arrived is read |
| `ReadFlags.LostIff` | src/system/message_manager.cpp:234-239 | over every run: a message is read without having arrived if and only if a forward on its pair arrived after it was stored and none with its own id did; otherwise it has arrived once if read and is still to come if unread |
| `ReadFlags.LiveSendLosesIff` | src/system/message_manager.cpp:66-81 | a live send marks an older unread message read, without forwarding it, if and only if it is of the same pair, the receiver is online and bound, and the send arrives |
| `ReadFlags.SecondSendLosesFirst` | src/system/message_manager.cpp:234-239 | two sends of which only the second arrives: the first message is read and never arrived |
| `ReadFlags.PushLosesSecond` | src/system/message_manager.cpp:174-178 | a push of two messages of which only the first arrives loses one |
| `Recipients.ForwardsReachReceiver` | src/system/message_manager.cpp:219-242 | over every run: every forward in the log was made by a step after which it names a stored row, carries its sender and content, and went to the socket bound to its receiver's name |
| `ExactlyOnce.SendDelivers` | src/system/message_manager.cpp:66-81 | one send that the network carries keeps the exactly-once tally and leaves nobody reachable with an unread message |
| `ExactlyOnce.PushDelivers` | src/system/message_manager.cpp:154-182 | the push after a login does the same for the user logging in |
| `ExactlyOnce.DeliveredExactlyOnce` | src/connection/server.cpp:578-585 | if the network carried every send of the run (a send to a shut socket still fails): each message not read at the start has one successful forward if read and none if unread, and while running no user bound to a socket that is up has an unread message |
| `FailureFree.DeliveredIfNothingFailed` | src/connection/server.cpp:578-585 | if no send of the run failed: the same tally, and while running no user who is logged in has an unread message |
| `FailureFree.RunsTellFailures` | src/system/user_manager.cpp:111-124 | over every run: a user of a running server is bound to a shut socket only after a send has failed, and the log never claims a success the network did not carry |
| `FriendGraph.GraphOverRuns` | src/system/friend_manager.cpp:34-134 | over every run the friend table has no duplicate edge, no self-loop, no dangling edge |
| `FriendGraph.ListCountsEdges` | src/system/friend_dao.cpp:170-204 | the list of a names b once per directed edge between them |
| `FriendGraph.ListIsSymmetric` | src/system/friend_dao.cpp:170-204 | the list is symmetric with a count of 0, 1 or 2 |
| `FriendGraph.ListRowsAreUsers` | src/system/user_dao.cpp:388-422 | every row shows an existing other user with the current presence flag |
| `FriendGraph.DeleteFriendIs` | src/system/friend_manager.cpp:89-134 | for every request: deletion succeeds iff the caller's directed edge to the target exists; it removes that edge and the pair's messages and nothing else; otherwise nothing changes and the code says why |
| `FriendGraph.FriendshipIsDirected` | src/sql/init.sql:28 | after one ADD_FRIEND both list each other once, the added user gets 3004 on delete and may add back, after which both list each other twice |
| `Notices.NotifyFriendsTells` | src/system/user_manager.cpp:270-301 | telling friends sends a bound user one notice per directed edge if the user is marked online, none otherwise |
| `Notices.LoginTells` | src/system/user_manager.cpp:270-301 | a login sends each other logged-in user one status notice per directed friend edge between the two: none to strangers |
| `Notices.DisconnectTells` | src/connection/server.cpp:240-246 | a disconnect does the same with the offline notice |
| `Notices.ExpiryTells` | src/connection/server.cpp:455-463 | so does the heartbeat when it visits a session it finds expired |
| `Notices.SweepTells` | src/connection/server.cpp:451-471 | a whole sweep tells a logged-in user of each friend it signs off, once per directed edge, iff the friend is visited while the user's own session is still there |
| `Notices.EndTellsIff` | src/connection/server.cpp:237-268 | of the steps that end a login exactly the disconnect and the sweep (as above) tell a logged-in friend; an exception and Stop tell nobody |
| `Notices.LoginCachesFriends` | src/system/friend_manager.cpp:287-307 | after a login the cached list names every other user once per directed edge between them |
| `Effects.RegisterThenLogin` | src/system/user_manager.cpp:38-99 | a new account accepts exactly the passwords with the hash it registered, and every other login answers as before |
| `Requests.EffectiveIs` | src/connection/server.cpp:550-568 | kind, password and content never change, nor does a target; an empty target becomes the claimed name on a logged-in socket only; elsewhere the request is unchanged |
| `Requests.SendStores` | src/system/message_manager.cpp:38-88 | a message with text, of at most 65536 characters, between registered users is stored as one new last row, receiver online or not, unread unless its forward arrives; the sends are exactly the forward, its notice and the reply; nothing else changes but the heartbeat |
| `Requests.BoundSendStores` | src/connection/server.cpp:550-568 | a logged-in socket stores a row from its own user to the target it names, whatever username it claims |
| `Requests.SendRefused` | src/system/message_manager.cpp:38-64 | otherwise nothing is stored or forwarded, with 4001, 4002 or 4003 |
| `Requests.RegisterAnswers` | src/system/user_manager.cpp:38-75 | one offline account with the hash of the password is added iff the name has 3 to 20 word characters, the password at least 6, and the name is free; the code says which failed |
| `Requests.LoginSucceedsIff` | src/system/user_manager.cpp:82-104 | a login succeeds iff the password opens the account; a failed one only answers, with 2001, 2003 or 2004 |
| `Requests.LoginKicks` | src/system/user_manager.cpp:106-126 | a login first sends one KICKED to the socket that holds the name, if there is one, while it is still up, and none to any other; that session then has no name and its socket is shut; the reply 0 comes last |
| `Requests.AddFriendAdds` | src/system/friend_manager.cpp:34-82 | between two different registered users the one directed edge is added if it is not there, otherwise 3002 and no change |
| `Requests.AddFriendRefused` | src/system/friend_manager.cpp:34-82 | in all other cases nothing changes, with 1001, 3003, 2003 or 3001 |
| `Requests.DeleteFriendAnswers` | src/system/friend_manager.cpp:89-134 | the requester's edge and the pair's messages go, and nothing else; without that edge 3004 and no change |
| `Requests.PlainAnswers` | src/connection/server.cpp:481-692 | HEARTBEAT, FRIEND_LIST and an unknown type change nothing but the heartbeat; the codes |
| `Requests.MalformedAnswers` | src/connection/server.cpp:484-488 | what does not parse is answered with 4001 and does not renew the heartbeat |
| `Requests.AcceptAnswers` | src/connection/server.cpp:189-218 | at 128 connections the client gets the busy answer and is closed, and nothing else changes; below, it gets a session of its own heard from just now |
| `Accounts.PasswordsOverRuns` | src/system/user_dao.cpp:26-52 | over every run a registered account accepts the same passwords, and its name stays taken |
| `SessionManagement.SessionManager.AddSession` | src/system/session_manager.cpp:26-32 | the table gains exactly this session, and its name if it has one |
| `SessionManagement.SessionManager.RemoveSession` | src/system/session_manager.cpp:38-52 | the table loses the session, and its index entry only if it still points there |
| `SessionManagement.SessionManager.GetSessionByUsername` | src/system/session_manager.cpp:73-83 | null iff the table has no answer, otherwise the very object filed under the answering socket |
| `SessionManagement.SessionManager.GetOnlineUserCount` | src/system/session_manager.cpp:98-101 | the number of logged-in sessions, whenever the index is exact |
| `SessionManagement.SessionManager.BindUsername` | src/system/session_manager.cpp:116-119 | the index entry of the name becomes the socket, whatever it was |
| `SessionManagement.SessionManager.EntryChanged` | src/connection/client_session.cpp:89-98 | writing through a session pointer changes that one entry of the table (no aliasing between entries) |
| `Managers.Database.GetFriendList` | src/system/friend_dao.cpp:170-204 | the cursor loop yields the rows of the join |
| `Managers.Database.GetUnreadMessages` | src/system/message_dao.cpp:62-105 | the cursor loop yields the ordered unread rows |
| `Managers.Database.InsertMessage` | src/system/message_dao.cpp:27-54 | one new last row with the given sender, receiver and content, the time of insertion and unread; every older row is unchanged; its id is that of no stored row, and the table keeps its constraints |
| `Managers.Database.MarkMessagesAsRead` | src/system/message_dao.cpp:113-139 | every message of the pair is read afterwards and every other row is unchanged |
| `Managers.Database.UpdateOnlineStatusByUsername` | src/system/user_dao.cpp:314-340 | the flag of that name is set and every other row is unchanged |
| `Managers.UserManager.HandleRegister` | src/system/user_manager.cpp:38-75 | the branches, codes and new row of a registration |
| `Managers.UserManager.HandleLogin` | src/system/user_manager.cpp:82-140 | the branches and codes of a login; on success the step-by-step updates end where `Handlers.CompleteLogin` says |
| `Managers.UserManager.KickOldSession` | src/system/user_manager.cpp:111-124 | the notice goes to the old socket while it is up, then the old session loses its name, then its socket is shut |
| `Managers.UserManager.BindSession` | src/system/user_manager.cpp:129-134 | the session is named, the index bound and the heartbeat renewed, if there is a session |
| `Managers.UserManager.NotifyFriendsStatusChange` | src/system/user_manager.cpp:270-301 | the loop sends one notice to each listed friend that is online and bound |
| `Managers.MessageManager.ValidateMessageContent` | src/system/message_manager.cpp:189-199 | true iff some character is not white space |
| `Managers.MessageManager.ForwardMessage` | src/system/message_manager.cpp:219-242 | one send to the bound socket; the pair is marked read iff the send succeeded |
| `Managers.MessageManager.HandleSendMessage` | src/system/message_manager.cpp:38-88 | the branches and codes; the message is stored before it is forwarded, and `Requests.SendStores` says what then holds |
| `Managers.MessageManager.PushOfflineMessages` | src/system/message_manager.cpp:154-182 | the push of all unread rows in order, each followed by its notice |
| `Managers.FriendManager.HandleAddFriend` | src/system/friend_manager.cpp:34-82 | the branches, codes and new edge |
| `Managers.FriendManager.HandleDeleteFriend` | src/system/friend_manager.cpp:89-134 | the branches and codes; edge and messages removed |
| `Managers.FriendManager.HandleFriendList` | src/system/friend_manager.cpp:141-174 | the code, and the rows of the query |
| `Managers.FriendManager.CacheFriendList` | src/system/friend_manager.cpp:287-307 | the cache entry of the user becomes the listed names |
| `Managers.FriendManager.RemoveFriendCache` | src/system/friend_manager.cpp:313-322 | the entry goes, the others stay |
| `ChatServer.ChatServer.AcceptClient` | src/connection/server.cpp:189-213 | one pass of the accept loop up to AddSession: busy answer at 128 connections, otherwise a new session |
| `ChatServer.ChatServer.CountAccepted` | src/connection/server.cpp:216 | the counter goes up after the session is in the table |
| `ChatServer.ChatServer.SubmitAccepted` | src/connection/server.cpp:217 | the task of the client is queued last |
| `ChatServer.ChatServer.DispatchRequest` | src/connection/server.cpp:481-692 | heartbeat, username override, handler, reply, as one step of the model |
| `ChatServer.ChatServer.EffectiveRequest` | src/connection/server.cpp:550-568 | kind, password and content never change, nor does a target; a logged-in socket acts under its own name, and an empty target becomes the claimed name; on any other socket the request is unchanged |
| `ChatServer.ChatServer.HandleLoginRequest` | src/connection/server.cpp:578-585 | login, then friend cache, then offline push, only on success |
| `ChatServer.ChatServer.FinishClient` | src/connection/server.cpp:237-251 | the clean-up after the receive loop is the disconnect step |
| `ChatServer.ChatServer.FailClient` | src/connection/server.cpp:253-268 | the catch block is the exception step |
| `ChatServer.ChatServer.HeartbeatCheck` | src/connection/server.cpp:447-474 | the loop over the snapshot is the sweep step |
| `ChatServer.ChatServer.Stop` | src/connection/server.cpp:156-184 | the loop over the snapshot is the stop step |
| `ThreadPool.RunsKeepInv` | src/system/thread_pool.cpp:20-73 | every interleaving, shutdown included, keeps conservation, wakeup cover and the conditions for leaving |
| `ThreadPool.TasksConserved` | src/system/thread_pool.cpp:34-73 | submitted = taken then queued, in order; taken = finished plus running as multisets; activeThreads counts the running workers |
| `ThreadPool.NoLostWakeup` | src/system/thread_pool.cpp:34-40 | all workers asleep on a non-empty queue only with enough notifications on their way |
| `ThreadPool.InternalStepWorks` | src/system/thread_pool.cpp:57-73 | each step the pool takes by itself lowers a work measure |
| `ThreadPool.EveryTaskRunsOnce` | src/system/thread_pool.cpp:57-73 | a pool that has come to rest before shutdown has run every submitted task exactly once |
| `ThreadPool.ShutdownLosesNothing` | src/system/thread_pool.cpp:20-28 | if all workers have left and nothing was submitted after stop, every task ran exactly once |
| `ThreadPool.JoinReturnsIff` | src/system/thread_pool.cpp:20-28 | for every run to the destructor's notify_all and every internal schedule after it: the pool comes to rest within a bounded number of steps, and then every worker has left if nobody was between test and wait at that moment, and only then unless a notify_one was still pending |
| `ThreadPool.RousedStays` | src/system/thread_pool.cpp:57-66 | after a notify_all that reached everybody nobody sleeps again |
| `ThreadPool.MissedWorkerStays` | src/system/thread_pool.cpp:57-66 | a worker it missed never wakes in any continuation without a submission, another notify_all or a spurious wakeup |
| `ThreadPool.ShutdownCanHang` | src/system/thread_pool.cpp:20-28 | a four-step run from the start in which the join never returns |
| `ThreadPool.WorkerPool.SubmitPush` | src/system/thread_pool.cpp:34-38 | the locked half of SubmitTask |
| `ThreadPool.WorkerPool.WorkerCheck` | src/system/thread_pool.cpp:60-69 | the locked block of a worker: go to wait, leave, or take the front task |
| `Framing.HeaderRoundTrip` | src/connection/server.cpp:337-359 | decoding the header of a length gives the length, for all lengths below 2^32 |
| `Framing.HeaderIsOnto` | src/connection/server.cpp:337-359 | every four bytes are the header of exactly one length |
| `Framing.HeaderOrder` | src/connection/server.cpp:337-359 | the most significant byte comes first: headers compare byte by byte as their lengths do |
| `Framing.PackageMessage` | src/connection/server.cpp:351-359 | the frame is the big-endian length and the body |
| `Framing.ParseMessageHeader` | src/connection/server.cpp:337-344 | the four bytes read big-endian |
| `Framing.SendData` | src/connection/server.cpp:313-330 | under any chunking: true iff the whole of what it set out to send is on the stream; on failure a proper prefix is; with progress it succeeds |
| `Framing.SuccessIsWholeFrameIff` | src/connection/server.cpp:313-330 | what it sets out to send is the whole frame iff the frame is shorter than 2^31 |
| `Framing.ReceiveData` | src/connection/server.cpp:276-305 | under any fragmentation of the body: the body and the rest of the stream, or empty |
| `Framing.HeaderMustBeWhole` | src/connection/server.cpp:279-285 | ReceiveData returns the first body and leaves the rest iff the first recv delivers the whole header |
| `Framing.StreamRoundTrip` | src/connection/server.cpp:276-330 | a list of messages followed by a frame broken off anywhere is received as exactly that list |
| `Framing.WholeStream` | src/connection/server.cpp:276-330 | a list sent whole is received whole |
| `Framing.FramingIsInjective` | src/connection/server.cpp:351-359 | two lists with the same bytes on the wire are equal |
| `Framing.ReceiveUntilEmpty` | src/connection/server.cpp:228-236 | whatever the recv calls deliver, the receive loop returns the messages up to the first empty result, or a prefix of them if a body breaks off |
| `Framing.SendAll` | src/connection/server.cpp:313-330 | sequential sends put whole frames on the stream up to the first that fails, and of that one a proper prefix; if none fails, all of them |
| `Framing.BodyIsTakenIff` | src/connection/server.cpp:287-291 | a body is received iff it has 1 to 65536 bytes; otherwise the result is empty and its bytes stay on the stream |
| `Framing.Exchange` | src/connection/server.cpp:276-330 | the two ends together: what was sent whole is received, in order, and nothing else; if no send fails, the whole list |
| `Redaction.FilterSensitiveInfo` | src/system/server_logger.cpp:170-189 | the in-place loop terminates although the string may grow, and computes `Redaction.Scan` |
| `Redaction.MaskAt` | src/system/server_logger.cpp:174-186 | one match: masked iff a colon, an opening and a closing quote follow; where the loop goes on |
| `Redaction.MatchIsKey` | src/system/server_logger.cpp:173 | a match is an occurrence of the eight characters of `password` |
| `Redaction.EditShrinksWork` | src/system/server_logger.cpp:179-183 | length minus position strictly falls with every replacement |
| `RedactionTheorems.ScanIsSplice` | src/system/server_logger.cpp:170-189 | the output is the input with disjoint quoted values replaced by `***` and all else unchanged, each using up 11 characters |
| `RedactionTheorems.GrowthBound` | src/system/server_logger.cpp:180 | the output is at most 3 longer for every 11 characters of input |
| `RedactionTheorems.GrowthIsTight` | src/system/server_logger.cpp:180 | the bound is attained for every n: n empty passwords, 11n characters, become 14n |
| `RedactionTheorems.FirstIsMasked` | src/system/server_logger.cpp:173-182 | the first qualifying value is always masked |
| `RedactionTheorems.FilterIsClean` | src/system/server_logger.cpp:173-188 | every value in the output is masked iff the loop jumps over no unmasked key when it resumes |
| `RedactionTheorems.MaskedAfterShort` | src/system/server_logger.cpp:173-182 | a qualifying value is masked, with the scan of what follows behind it, whenever every value that begins before its key is at most 3 long, however long it is itself and whatever follows |
| `RedactionTheorems.ShortValuesAreMasked` | src/system/server_logger.cpp:181 | if every value with another one behind it is at most 3 long, all values in the output are masked |
| `RedactionTheorems.LongValueExposesNext` | src/system/server_logger.cpp:181 | a value longer than 3 hides a key right behind it from the loop, and its value stays readable unless it is the mask or shares its colon with the next key found |
| `RedactionTheorems.SecondPasswordLeaks` | src/system/server_logger.cpp:181 | a message whose second password stays readable |
| `DbPool.DBManager.CreateConnection` | src/system/db_manager.cpp:159-173 | a connection is handed out only if it was opened and set up; one that was opened and not set up is not closed |
| `DbPool.DBManager.InitConnectionPool` | src/system/db_manager.cpp:48-77 | the creation loop stops at the first refusal, keeps what it has pushed, then validates |
| `DbPool.DBManager.ValidateConnection` | src/system/db_manager.cpp:109-133 | the front connection is tried and goes to the back, valid or not |
| `DbPool.DBManager.Reconnect` | src/system/db_manager.cpp:139-153 | up to three runs of InitConnectionPool with the current size |
| `DbPool.DBManager.RunStatement` | src/system/message_dao.cpp:113-139 | a DAO call takes a connection and returns it unless an exception other than SQLException escapes |
| `DbPool.ExceptionHandler.HandleDBException` | src/system/exception_handler.cpp:50-76 | up to three rounds of Reconnect |
| `DbPool.InitSucceedsIff` | src/system/db_manager.cpp:48-77 | InitConnectionPool succeeds iff the driver is there, opens and sets up every connection, and the front one is valid; it opens at most the size |
| `DbPool.RecoveryBound` | src/system/exception_handler.cpp:60-74 | one HandleDBException takes no connection out of the pool and opens at most 9 times the pool size, each now idle or dropped in its set-up |
| `DbPool.RecoveryIsTight` | src/system/exception_handler.cpp:60-74 | a database that connects but answers nothing makes it create exactly that many and fail |
| `DbPool.CallKeepsIff` | src/system/message_dao.cpp:113-139 | a DAO call conserves the pool iff it ends normally or by SQLException |
| `DbPool.PartitionOverRuns` | src/system/db_manager.cpp:83-103 | in every interleaving each connection ever opened is in exactly one place: idle, lent to one caller, or lost |
| `DbPool.LentOnce` | src/system/db_manager.cpp:83-93 | a lent connection is not idle and no other caller has it |
| `DbPool.CreationBound` | src/system/exception_handler.cpp:60-74 | in every interleaving the recoveries begun so far have opened at most 9 times the pool size each |
| `DbPool.WholeAtRestIff` | src/system/db_manager.cpp:99-103 | when all callers are done the pool holds every connection ever opened iff no call of the run ended in an exception other than SQLException and no connection was dropped in its set-up |
| `DbPool.HandlerIsARun` | src/system/exception_handler.cpp:50-76 | what the nested loops compute is one of the interleavings: the one in which nobody else moves |
| `Collation.KeyIsExactIff` | src/sql/init.sql:20 | the database's lookup is the exact one iff the name is spelled as it was registered |
| `Collation.SameStep` | src/system/user_dao.cpp:314-380 | a step whose request spells every account as registered is the same on the case-insensitive table |
| `Collation.SameRun` | src/sql/init.sql:20 | so is every run of such requests, registrations included: the same states, the same enabled steps |
| `Collation.OneSessionPerAccount` | src/system/session_manager.cpp:73-83 | over such runs before Stop each account, under any spelling, has at most one live session, and its flag is up while it is bound |
| `Collation.SignOffKeepsPresenceIff` | src/system/user_dao.cpp:314-340 | the end of a session leaves every bound account online iff nobody is bound under another spelling of its name |
| `Collation.LoginReplacesIff` | src/system/user_manager.cpp:106-134 | a login on a fresh socket replaces an older session iff the account's flag is up and the spelling is the same, and keeps the index exact iff the flag is up or nobody holds the spelling |
| `Collation.OwnFriendIff` | src/system/friend_manager.cpp:45-60 | ADD_FRIEND makes a user their own friend iff the target is the user's own name in another spelling |
| `Collation.AnnBefriendsHerself` | src/system/friend_manager.cpp:45-60 | "Ann" adds "ann" |
| `TwoSpellings.TwoSpellingsBreak` | src/system/user_manager.cpp:106-134 | a run from an empty server with the account "Ann" used as "Ann" and "ann": first a bound user is offline, then two live sessions carry "ann" |

## Left out

- UPDATE_USER: a rename changes the database row only, not session, index or cache, so it is not a step of the model.
- HISTORY_MSG, QUERY_STATUS, FRIEND_STATUS, QUERY_FRIEND: read-only requests with one branch; they would add only easy members.
- The 50-byte summary in a message notice; the notice carries the sender's name only.
- JSON, MD5 and `std::regex`: requests are abstract, the hash is a parameter, the username pattern is a predicate.
- MySQL itself: tables are sequences of rows with the documented meaning of each query; failing statements are not steps of the server model.
- Time stamps of rows other than `send_time`, `UpdateLastLoginTime`, and client addresses.
- The text of replies and the rows inside a FRIEND_LIST reply: a reply carries its code.
- `accept`, `bind`, `listen`, `shutdown` and `close` as system calls: an open set, a shut set and a fresh descriptor.
- Interleavings inside one handler or clean-up, freed session pointers, and two threads sending on one socket.
- The contents of the friend cache after later friend edits: ADD_FRIEND and DEL_FRIEND never refresh it, so it is a snapshot taken at login.
- Bit operations of the header are written as quotient and remainder.
- ServerMonitor, `main`, signal handling, log files, rotation and expiry.
- Progress of shutdown when a condition variable wakes by itself, and a task that throws out of a worker.
- DbPool.DBManager.GetConnection: requires a non-empty pool where the source waits; in the interleaving model a caller that would wait cannot take that step, and waking waiters is not modelled (InitConnectionPool pushes without notifying).
- DbPool.DBManager.ValidateConnection: requires a non-empty pool, because it calls GetConnection.
- DbPool.DBManager.RunStatement: requires a non-empty pool, because it calls GetConnection.
- DbPool.DBManager.Reconnect: requires a positive size or a non-empty pool, because it calls InitConnectionPool.
- DbPool.ExceptionHandler.HandleDBException: requires a positive size or a non-empty pool, because it calls Reconnect.
- DbPool.DBManager.InitConnectionPool: requires a positive size or a non-empty pool, because it ends in GetConnection; its unlocked pushes are taken as atomic.
- ChatServer.ChatServer.DispatchRequest: does not model UPDATE_USER, the read-only requests named above, or the catch block that answers 5000 after an exception from a handler (its HandleDBException call is modelled in DbPool).
- ChatServer.ChatServer.Stop: does not model waiting for the heartbeat thread, stopping the monitor, or closing the listening socket.
- ThreadPool.NoLostWakeup: says nothing about wakeups after the destructor has begun; `stop` is set without the mutex.
