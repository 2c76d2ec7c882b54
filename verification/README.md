# Verified model of the RELB load balancer

RELB accepts TCP clients, chooses a backend server for each of them and relays bytes in both
directions until both ends are closed. This project models the parts of it that decide
something and proves what they keep over whole runs.

| file | what it models |
|---|---|
| `Statuses.dfy` | the status codes of connections and messages |
| `Relay.dfy`, `ConnectionPeer.dfy` | the relay pair: its operations on an abstract state, and the object with its two 16384-byte buffers, offsets, counts and mutually recursive close methods, proved to have the same effect |
| `RelayRuns.dfy`, `RelayDrain.dfy` | what holds of a pair over every run, for every result the sockets may return |
| `RelayTransfers.dfy` | what the operations of a pair do in terms of what the sockets answered, and all that they delivered and took over a run |
| `Managers.dfy`, `ManagerInvariants.dfy`, `Fleets.dfy`, `ConnectionManagers.dfy` | a manager's two lists of pairs under their limit, the list of managers and its search for one with room, and the objects that do both |
| `ManagerRuns.dfy` | the pairs of a manager as runs of the relay |
| `Filters.dfy` | prefix masks and first-match filter rules |
| `Records.dfy`, `Selection.dfy` | servers and connection records, and the cyclic scan that chooses a server |
| `Rotation.dfy` | where a scan starts, in which order it goes, and that equally good servers are served in turn |
| `Directory.dfy`, `ServerList.dfy` | messages, cleaning, session search and assignment: their effect on the state, and the object whose loops have that effect |
| `Accounting.dfy`, `AccountingRuns.dfy` | the four counters of every server against the records, filters and sessions, over every interleaving |
| `RelayAccounting.dfy`, `RecordRuns.dfy` | what the messages of one relay pair do to those counters, alone and in any interleaving |
| `SharedAddresses.dfy` | cleaning when several servers share an address |
| `ServiceRules.dfy`, `RecordRules.dfy` | the rules of serving clients in terms of records and servers: scores, availability, retry times; sessions, records that end, what a client gets |
| `AccountingExamples.dfy` | short runs from a new list into the cases where counters drift or a client is refused |
| `Scheduler.dfy`, `TaskRuns.dfy`, `TaskList.dfy` | maintenance tasks: the cached next time, the fixed-time grid, the sleep, and how far apart the starts of a task are |
| `Listing.dfy` | the filtered and sorted connection listing of the administration pages |
| `ServerLine.dfy` | the configuration line that names a server |
| `Lists.dfy`, `Numbers.dfy` | walking, inserting into, reversing and selecting from lists; minimum and maximum |

Code that updates objects step by step is a class or a method here, and its contract equates
the new state with a function of the old one (`State() == ...`). The theorems are about those
functions. `ServerList.cpp` is modelled by two classes, `ServerList` for servers and records
and `TaskList` for the tasks, because the two parts share no field.

## Reading the model

- A socket is whatever it answers: `Receipt` and `Sending` are arbitrary, and each operation
  takes them as arguments. Readiness reported by select is arbitrary in the same way.
- The clock is a parameter, read once per step. A step is what runs under one lock; steps of
  different threads interleave freely. Serving a client is three such steps (the search for a
  session, its recreation, the scan), so anything may happen between them.
- The address of a connection record, which the program uses as its identity, is the number
  `id`. New records get new numbers.
- Load indices are exact rationals instead of floats. Counters and times are unbounded
  integers; the one conversion to a 32-bit integer that matters, in the computation of the
  wait, is written out.

## Where the code falls short of its purpose

The code is kept as it is. Where an item below names a lemma for its condition, the
condition is exact, proved in both directions.

- `src/ConnectionPeer.cpp:398` uses the client socket after it may have been released:
  `NullAccessExactly` says when, `CrashesExactly` lifts it to runs, `NullAccessReachable` gives
  three turns that lead there, and `DrainGuarantee` says that this, and nothing else, keeps a
  working server from its bytes.
- Counters can drift from the records. `DeliverExact` (a message about a record that is not in
  the state it is taken to be leaving, `src/ServerList.cpp:550-553`), `ReuseExact` (a session
  continued on the same port never gives back its old count, `src/ServerList.cpp:666-685`) and
  `RecreateSuffices` with `RecreateNeeds` (all pruned records are charged to one server,
  `src/ServerList.cpp:765-771`) give the exact guards; `CountersStayExact` lifts them to runs,
  and `PairCountedExactly` and, over any interleaving, `CountersFollowReports` say which relay
  pairs respect the first one. `TwoPairsDrift`, `SamePortDrifts` and `ThreeVisitsDrift` are
  runs from a new list that break each.
- The scan scores every server but the first with finished connections in place of connecting
  ones (`src/ServerList.cpp:846` against `820`). The theorems on the choice hold for any
  scores; `ScoreIsFaithful` says when that score ranks a server rightly against the first one,
  `ScanRanksFaithfully` when it ranks two others rightly against each other.
- The last attempt at `src/ServerList.cpp:906` never runs, since the first scan ends at its
  start (`ScanCandidates`). `RefusedDespiteAllowed` says when a client is refused although some
  server is allowed (`RefusedThoughAllowed` is a run to such a refusal), `PassesOverAvailable`
  when an unavailable server is preferred.
- Expiry of a one-time task can hide an earlier task from the cached time
  (`src/ServerList.cpp:435-438`): `CacheIsLate`. A task is then started late
  (`ForgottenTaskIsLate`); as long as it does not happen none is (`RemembersOnTime`). The cast
  at line 456 can make the wait negative: `WaitInRange`, `FarTaskWait`.
- The search for a manager with room starts at the second one
  (`src/ThreadedConnectionManagerList.cpp:76`): `NeedlessManager`. The second client gets a
  second manager (`NeedlessManagerReached`), and the first never holds more than one pair
  (`FirstManagerHoldsOne`).
- A `server:` line with neither ',' nor ':' behind its tag is read past its end
  (`src/AppConfig.cpp:820-824`): `OverrunExactly`, for one `BareHostOverruns`.
- Servers are looked up by address alone when cleaning and when searching sessions:
  `AddressAlone`. The theorems on counters assume distinct addresses; `CleanFindsOwn` says when
  cleaning is right without that.
- `doc/configuration_syntax.md:84` documents an interval of 0 for one-time tasks. The parser
  drops them without a first run or with one in the past (`src/AppConfig.cpp:1136`, `1237`),
  but not with one ahead, since `src/AppConfig.cpp:1230` decides anew whether the line is
  valid. Lists with such tasks are modelled.
- At `src/ServerList.cpp:672` the pair to close is always null, so no connection is closed
  there and none is in the model.

## Model

| member | source | states |
|---|---|---|
| Statuses.MasksAgree | src/utiles.h:124-146 | the predicates on status codes used in all theorems are the bit tests of the source, and no two codes coincide |
| Relay.ReceiveCode | src/Socket.cpp:195-235 | a receive result is within its documented range and positive exactly when bytes were delivered |
| Relay.SendCode | src/Socket.cpp:152-188 | a send result is within its documented range, never above the bytes offered |
| ConnectionPeers.ConnectionPeer.constructor | src/ConnectionPeer.cpp:22-38 | a new pair has both ends open, empty buffers and nothing posted |
| ConnectionPeers.ConnectionPeer.CloseClient | src/ConnectionPeer.cpp:177-209 | the mutual recursion of the two close methods ends and has the effect given in closed form, with offsets and counts describing the unsent bytes |
| ConnectionPeers.ConnectionPeer.CloseServer | src/ConnectionPeer.cpp:237-261 | the same for the server end, whose rule differs while the backend is connecting |
| ConnectionPeers.ConnectionPeer.ClosePInfo | src/ConnectionPeer.cpp:155-168 | a matching kick closes both ends and reports it; any other leaves the pair alone |
| ConnectionPeers.ConnectionPeer.GetMissingDataFromClient | src/ConnectionPeer.cpp:453-498 | the bytes received are appended in the buffer behind the unsent ones and nothing else moves; an error closes the client and reports failed, closed or lost |
| ConnectionPeers.ConnectionPeer.GetMissingDataFromServer | src/ConnectionPeer.cpp:501-540 | the same for bytes from the server |
| ConnectionPeers.ConnectionPeer.SendMissingDataToClient | src/ConnectionPeer.cpp:543-602 | the bytes taken are the oldest unsent ones, room returns only when the buffer is empty, and a lone client with nothing left is closed |
| ConnectionPeers.ConnectionPeer.SendMissingDataToServer | src/ConnectionPeer.cpp:605-664 | the same towards the server |
| ConnectionPeers.ConnectionPeer.ManageConnectingPeer | src/ConnectionPeer.cpp:275-348 | one turn of a connecting pair, and whether it moves to the connected list |
| ConnectionPeers.ConnectionPeer.ManageConnections | src/ConnectionPeer.cpp:353-450 | one turn of an established pair, or the use of a released client socket |
| ConnectionPeers.ConnectionPeer.CheckSockets | src/ConnectionPeer.cpp:667-734 | each end with a bad descriptor is closed and reported as lost, the server first |
| ConnectionPeers.ConnectionPeer.AddToFDSETR | src/ConnectionPeer.cpp:60-89 | the sockets waited on for reading are the open ends with room in their buffer |
| ConnectionPeers.ConnectionPeer.AddToFDSETW | src/ConnectionPeer.cpp:94-119 | the sockets waited on for writing are the open ends with bytes to be sent |
| ConnectionPeers.ConnectionPeer.AddToFDSETC | src/ConnectionPeer.cpp:124-149 | a connecting pair waits on its server for writing, and on its client while there is room |
| RelayRuns.StepKeeps | src/ConnectionPeer.cpp:275-734 | every turn, check and kick keeps the invariant of a pair: streams, room, half-open rules and message counts |
| RelayRuns.StreamIntegrity | src/ConnectionPeer.cpp:453-664 | over every run, while the destination is open, bytes accepted are bytes handed over plus the buffer; afterwards what was handed over is still a prefix; a buffer is never overfull |
| RelayRuns.HalfOpen | src/ConnectionPeer.cpp:177-261 | over every run, ends close together before establishment, and after it a lone end has unsent bytes |
| RelayRuns.SelectNeverForgets | src/ConnectionPeer.cpp:59-149 | over every run, an active pair registers a socket, and each direction of a connected pair can make progress |
| RelayRuns.NotificationProtocol | src/ConnectionPeer.cpp:275-348 | over every run, at most one establishment, at most one failure, never both and nothing that counts before them; terminal messages tell exactly whether an end closed and number at most the ends closed plus the kicks served |
| RelayTransfers.ReceivedFromClient | src/ConnectionPeer.cpp:453-498 | the bytes that the socket delivered, and no others, are accepted and wait behind the others; a client that is over is closed, its buffer freed, and reported failed, lost or closed; the server stays only on an established pair with bytes waiting for it |
| RelayTransfers.ReceivedFromServer | src/ConnectionPeer.cpp:501-540 | the same for the server, reported lost or closed |
| RelayTransfers.SentToClient | src/ConnectionPeer.cpp:543-602 | exactly the bytes that the socket took are handed over, the oldest first, and the others stay; a lone client is cancelled once everything was taken; a failing one is reported lost and a closed one closed |
| RelayTransfers.SentToServer | src/ConnectionPeer.cpp:605-664 | the same towards the server |
| RelayTransfers.BadEndsClosed | src/ConnectionPeer.cpp:667-734 | a bad end is closed and reported as lost, the server before the client; the other end goes with it unless bytes wait for it |
| RelayTransfers.KickedClosed | src/ConnectionPeer.cpp:155-175 | a kick closes both ends, loses no history and reports the server's end |
| RelayTransfers.LoneEndCancelled | src/ConnectionPeer.cpp:408-449 | the turn of a lone end leaves it open exactly when its send was not made, would block or took a part only, and otherwise reports a second message |
| RelayTransfers.SelectIsExact | src/ConnectionPeer.cpp:59-149 | a connected pair waits for exactly those sockets on which a receive, or a send, could change anything |
| RelayTransfers.ConnectingCarried | src/ConnectionPeer.cpp:275-348 | a connecting pair reads from a readable client only, and is established exactly when its server is writable and the client is not found over |
| RelayTransfers.RunCarried | src/ConnectionPeer.cpp:353-450 | over every run the bytes accepted and handed over are, turn by turn, those that the sockets called in that turn delivered and took |
| RelayTransfers.SocketsAgree | src/ConnectionPeer.cpp:453-664 | over every run each socket takes, in order, what the other one delivered, up to what waits in the buffer while it is open |
| RelayDrain.DrainGuarantee | src/ConnectionPeer.cpp:177-261 | over any run once the backend is connected, a client whose own socket keeps working gets every byte accepted for it before it is closed and no turn uses a released socket; for a server the same holds if and only if the run reaches no turn that does, and otherwise the run stops there with bytes waiting for the server |
| RelayDrain.CrashesExactly | src/ConnectionPeer.cpp:353-407 | a run uses the released client socket if and only if it reaches a turn that finds the client closed with bytes unsent, of which the server takes some but not all, having nothing to read |
| RelayDrain.DrainCompletes | src/ConnectionPeer.cpp:563-575 | a lone end gets everything and is closed after at most as many progressing turns as it had bytes unsent |
| RelayDrain.NullAccessExactly | src/ConnectionPeer.cpp:357-406 | in every state that the invariant of runs allows, a turn uses the released client socket if and only if it is such a turn |
| RelayDrain.NullAccessReachable | src/ConnectionPeer.cpp:396-402 | three turns from the start lead to that use |
| ConnectionManagers.ThreadedConnectionManager.constructor | src/ThreadedConnectionManager.cpp:17-25 | the limit is the smaller of the configured one and what the select set can hold |
| ConnectionManagers.ThreadedConnectionManager.AddConnectionPeer | src/ThreadedConnectionManager.cpp:331-339 | a new pair joins the connecting list and is counted |
| ConnectionManagers.ThreadedConnectionManager.GetFreeConnections | src/ThreadedConnectionManager.cpp:347-352 | the room left under the limit, never negative |
| ConnectionManagers.ThreadedConnectionManager.PurgeRequests | src/ThreadedConnectionManager.cpp:53-72 | all pending close requests are served on both lists, from the top |
| ConnectionManagers.ThreadedConnectionManager.SweepLists | src/ThreadedConnectionManager.cpp:82-141 | deleting while walking drops exactly the inactive pairs of both lists, keeps the order of the others and lowers the counter by as many |
| ConnectionManagers.ThreadedConnectionManager.ManageConnectingPeers | src/ThreadedConnectionManager.cpp:192-209 | deleting while walking moves exactly the pairs that established to the end of the connected list, in order |
| ConnectionManagers.ThreadedConnectionManager.RunPass | src/ThreadedConnectionManager.cpp:50-259 | one pass of the loop is the step over which the capacity theorems run |
| ManagerInvariants.PassDropsExactly | src/ThreadedConnectionManager.cpp:53-141 | a pass keeps a pair, unchanged, if and only if it is active and no pending request names it |
| ManagerRuns.PairsAreRuns | src/ThreadedConnectionManager.cpp:50-259 | over every run a manager holds a pair exactly from its arrival until a pass finds it without an open end, in the list of its phase, and the pair is the relay run of what it was told: a turn in each pass with activity, a check in each with a bad descriptor, a kick for each request naming it |
| ManagerRuns.PassCrashesExactly | src/ThreadedConnectionManager.cpp:182-190 | a pass uses a released socket if and only if a connected pair that it keeps has such a turn |
| Fleets.CapacityHolds | src/ThreadedConnectionManager.cpp:17-25 | over every run of the list of managers, from the empty list, every manager's counter equals the pairs it holds and stays within the configured limit and the select set, its sockets and the control socket fit the set, and the manager found for a client still has room when it joins |
| Fleets.FleetStepKeeps | src/ThreadedConnectionManagerList.cpp:66-107 | searching, joining, closing and passes in any order keep every manager consistent and within its limit, though a manager itself admits without checking |
| Fleets.FirstManagerHoldsOne | src/ThreadedConnectionManagerList.cpp:74-80 | over every run the first manager, which no later search looks at, never holds more than one pair |
| Fleets.AddedOnlyWhenFull | src/ThreadedConnectionManagerList.cpp:74-96 | over every run a manager is added only when each one but the first holds as many pairs as are configured or as fit the select set |
| Fleets.PeersPerSetIsMost | src/ThreadedConnectionManager.h:22-25 | no more pairs fit the select set with the control socket's two |
| Fleets.ClientIsHeld | src/ServerList.cpp:1063-1068 | a client that was given a server is held, as a new pair, by the manager found and by no other, and nothing else changes hands |
| ManagerInvariants.ListsTellPhases | src/ThreadedConnectionManager.cpp:192-209 | over every run of a manager, however many pairs arrive, the counter equals the pairs held, a pair is in the connected list exactly when it established, lone ends have unsent bytes, and every pair kept by a pass registers a socket |
| ConnectionManagers.ThreadedConnectionManagerList.GetFreeThreadedConnectionManager | src/ThreadedConnectionManagerList.cpp:66-99 | the manager returned has room and is the one the search of the run theorems finds; a new one is added exactly when that search does |
| Fleets.Roomiest | src/ThreadedConnectionManagerList.cpp:76-91 | the search finds the roomiest manager but for the first one, earliest on ties, and none exactly when none of those has room |
| ConnectionManagers.ThreadedConnectionManagerList.AddNew | src/ThreadedConnectionManagerList.cpp:102-107 | the new manager is appended, empty and with room |
| ConnectionManagers.ThreadedConnectionManagerList.SetPeersPerThread | src/ThreadedConnectionManagerList.cpp:60-64 | a limit that is not positive is ignored |
| ConnectionManagers.ThreadedConnectionManagerList.SetServer | src/ServerList.cpp:1054-1076 | a client that was given a server joins the manager found, as in the run theorems; no manager goes over its limit and the others do not change |
| Fleets.NeedlessManager | src/ThreadedConnectionManagerList.cpp:74-96 | a manager is added although one has room if and only if the first one alone has room |
| Fleets.NeedlessManagerReached | src/ThreadedConnectionManagerList.cpp:74-96 | the second client already leads to a second manager though the first has room |
| Filters.MaskValue | src/AppConfig.cpp:946-951 | for every length 0 to 32 the four octets are the number 2^32 - 2^(32-m) |
| Filters.PrefixMatch | src/ServerList.cpp:1035-1036 | addresses are equal under a prefix mask if and only if their leading bits agree (section 3.1 of RFC 4632) |
| Filters.AndBit | src/utiles.h:66-66 | the bitwise and of octets has exactly the bits that both have |
| Filters.IsServerAllowed | src/ServerList.cpp:1016-1052 | the loop with its early exit computes the first-match decision |
| Filters.FirstMatchDecides | src/ServerList.cpp:1026-1047 | the first matching rule decides, and with none the pair is allowed |
| Filters.MatchesPrefixes | src/ServerList.cpp:1035-1036 | a rule of two prefixes matches if and only if the leading bits of both the client and the server agree with its own |
| Filters.FirstPrefixDecides | src/ServerList.cpp:1026-1047 | the first rule inside whose two prefixes the pair lies decides, and with none the pair is allowed |
| Filters.ShadowedRule | src/ServerList.cpp:1026-1047 | a rule whose prefixes lie inside those of an earlier rule never decides a pair and can be removed |
| Selection.ScanCandidates | src/ServerList.cpp:818-963 | the scan inspects the servers after the start, going round, ends at its start, finds a server exactly when one may be assigned, and then finds the winner |
| Selection.RoundVisitsOnce | src/ServerList.cpp:834-899 | the servers inspected are all but the start, each once |
| Selection.WinnerIsUnique | src/ServerList.cpp:843-899 | the definition of the winner determines the choice |
| Selection.WinnerIsOptimal | src/ServerList.cpp:843-899 | no allowed available server has a lower score, or at score zero a higher weight, than the winner, and ties go to the earliest; against all allowed servers if the winner is unavailable |
| Selection.AssignmentExists | src/ServerList.cpp:830-899 | a server is assigned if and only if the start is allowed, or another allowed one is available, or an allowed one is unavailable while the start is too |
| Selection.RefusedDespiteAllowed | src/ServerList.cpp:830-963 | the exact condition under which a client is refused although some server is allowed |
| Selection.PassesOverAvailable | src/ServerList.cpp:861-888 | the exact condition under which the winner is unavailable, in spite of available servers |
| Selection.PassesOverAvailableExample | src/ServerList.cpp:861-888 | an unavailable winner before an allowed available server |
| Selection.RoundRobin | src/ServerList.cpp:818-899 | an allowed and available start wins when no other server is preferable to it |
| Rotation.ScanStartsBehind | src/ServerList.cpp:811-816 | the scan starts at the server after the cursor, going round |
| Rotation.PlacesInOrder | src/ServerList.cpp:833-898 | its places are the servers from the start on, one by one, going round |
| Rotation.CursorFollows | src/ServerList.cpp:965-972 | the cursor is left at the server assigned, or at the start if there is none |
| Rotation.ServersInTurn | src/ServerList.cpp:811-1002 | as many consecutive assignments as there are equally good servers give each server one client, in turn from the one after the last found |
| ServiceRules.ScoresCountRecords | src/ServerList.cpp:820-846 | with exact counters the start's score is the number of its records per weight, and that of any other counts the finished ones twice and the connecting ones not |
| ServiceRules.AvailableMeans | src/ServerList.cpp:821-822 | with exact counters a candidate is unavailable exactly when its established connections reach its limit or it failed less than the retry time ago, and its score is that of the server at its place |
| Selection.ScoreIsFaithful | src/ServerList.cpp:846-846 | the scan's score ranks a server rightly against every possible first server if and only if it has as many finished as connecting connections |
| Selection.ScanRanksFaithfully | src/ServerList.cpp:846-846 | two scanned servers are ranked rightly against each other, whatever their connected and disconnected connections, if and only if their counts are off by as much per weight and weight does not decide between servers that only seem idle |
| ServerLists.ServerList.AddServer | src/ServerList.cpp:318-352 | a server is appended with all counters zero |
| ServerLists.ServerList.ProcessMessage | src/ServerList.cpp:476-600 | one message: which counters move, whether the record is marked or dropped, and that a kick alone is passed on |
| ServerLists.ServerList.CleanConnections | src/ServerList.cpp:87-138 | deleting while walking drops the records that are not connected and takes each from its server |
| ServerLists.ServerList.PurgeConnections | src/ServerList.cpp:141-161 | every record is asked to be closed, and the purge time is remembered |
| ServerLists.ServerList.FindSession | src/ServerList.cpp:636-725 | the session found is the first on the same port, taken over at once, or else the one modified last, first on ties |
| ServerLists.ServerList.Recreating | src/ServerList.cpp:730-793 | the second locked section, for any indices found before: only the owner is rechecked |
| ServerLists.ServerList.AssignServer | src/ServerList.cpp:810-1006 | the winner of the scan, or nobody, is assigned, recorded and becomes the cursor |
| ServerLists.ServerList.GetServer | src/ServerList.cpp:613-1014 | a client is served by its session, or else by the winner of the scan, or else refused |
| RecordRules.MessageIsNoted | src/ServerList.cpp:498-514 | every message but a cancellation or a kick is noted in its record with the time |
| RecordRules.EndedRecordStays | src/ServerList.cpp:524-566 | when a connection ends its record stays if and only if the client has no other one under way and no purge came since it was made |
| RecordRules.PurgedRecordsGo | src/ServerList.cpp:141-157 | a record made before a purge goes when its connection ends |
| ServiceRules.FailedIsLeftAlone | src/ServerList.cpp:544-548 | after a failure, over every run without another failure or establishment there, the server is neither available nor good for a session until the retry time is over, and then it is |
| RecordRules.EligibleMeans | src/ServerList.cpp:640-668 | a session may be continued exactly when it is the client's, did not fail, and its server did not fail less than the retry time ago |
| RecordRules.ServedClientGets | src/ServerList.cpp:613-1014 | whichever way it is served, the client gets a listed record of its own address and port, connecting now under its manager, on a listed server that the rules allow it; a new one is made now |
| Accounting.DeliverExact | src/ServerList.cpp:550-567 | a message keeps exact counters exact if and only if the record is in the state the message takes it to leave, or in no counted state with nothing to take |
| Accounting.NeverHeldAtZero | src/ServerList.cpp:550-553 | for such messages the counter to be lowered is positive, so the saturation at zero never acts |
| Accounting.CleanNeverHeldAtZero | src/ServerList.cpp:109-111 | nor does it act in cleaning: from exact counters each server loses exactly its dropped records of each kind, and its two counters of ended ones reach zero |
| Accounting.PruneNeverHeldAtZero | src/ServerList.cpp:767-770 | nor when the records pruned with a recreated session are on the server charged |
| Accounting.CleanExact | src/ServerList.cpp:96-134 | cleaning removes exactly the records not connected and keeps exact counters exact |
| Accounting.ReuseExact | src/ServerList.cpp:666-685 | continuing a session on the same port keeps the counters exact if and only if its record was in no counted state |
| Accounting.RecreateSuffices | src/ServerList.cpp:735-782 | recreating a session keeps exact counters if its record and all pruned ones are on the server charged |
| Accounting.RecreateNeeds | src/ServerList.cpp:735-782 | exact counters stay exact when a session is recreated only if its record and all pruned ones are on the server charged |
| Accounting.AssignExact | src/ServerList.cpp:965-1002 | assigning keeps exact counters exact |
| AccountingRuns.RunWellFormed | src/ServerList.cpp:476-1014 | over any interleaving servers keep their addresses, every record stays on a listed server and the next identity to be given is above all in use |
| AccountingRuns.CountersStayExact | src/ServerList.cpp:476-600 | over any interleaving the four counters of every server always equal its records of each kind if and only if every guard above holds along the run |
| AccountingRuns.NewListIsExact | src/ServerList.cpp:26-40 | a new list with servers at different addresses meets what the theorems on runs start from |
| AccountingRuns.FiltersHold | src/ServerList.cpp:731-748 | no interleaving ever records a client on a server the rules deny it |
| AccountingRuns.SessionRecreated | src/ServerList.cpp:743-782 | the new record has the session's destination, none of the client's ended records remains, and no other record is lost |
| AccountingRuns.SessionIsUnique | src/ServerList.cpp:636-724 | the description of what a search finds determines it |
| AccountingRuns.ServingIsARun | src/ServerList.cpp:613-1014 | serving a client undisturbed is a run of the interleaved steps, so the run theorems hold of it |
| AccountingRuns.SessionsAreSticky | src/ServerList.cpp:627-783 | a client with a session that may continue gets that session's server: the same record on the same port, else that of the one modified last, the first on ties, with none of its ended records remaining |
| AccountingRuns.RefusedExactly | src/ServerList.cpp:965-1006 | a client is refused if and only if it has no session to continue and no server may be assigned |
| AccountingRuns.AddressAlone | src/ServerList.cpp:103-103 | lookups by address alone find the record's own server exactly when no server before, or after, shares its address |
| SharedAddresses.CleanFindsOwn | src/ServerList.cpp:101-117 | with servers at different address and port pairs, cleaning keeps the counters of every server equal to its own records if and only if each record dropped is on the first server at its address |
| SharedAddresses.OwnIsExact | src/ServerList.cpp:101-117 | with one server on each address, counting a server's own records is counting those at its address |
| RelayAccounting.PairCountedExactly | src/ServerList.cpp:516-596 | processing all messages of any relay pair in order keeps the counters exact throughout if and only if the pair established or failed before it ended, and reported one end unless its record is dropped when it ends |
| RecordRuns.CountersFollowReports | src/ServerList.cpp:476-600 | over any interleaving on a new list, with the messages of each record those of its relay pair, all counters stay exact if and only if no session is continued on the same port, recreated sessions are on the server of the records they replace, and each pair established or failed before it ended and was not listed any more when it reported a second end |
| RecordRuns.RecordFits | src/ServerList.cpp:484-596 | in any interleaving the messages about one record decide its guards, whatever happens to other records in between |
| RecordRuns.TakeoverSpoils | src/ServerList.cpp:666-685 | a run without bans in which a session is continued on the same port breaks a guard |
| AccountingExamples.TwoPairsDrift | src/ServerList.cpp:550-553 | from a new list, the messages of a pair kicked while connecting, and those of a half-open pair that reports two ends, put the counters off |
| AccountingExamples.SamePortDrifts | src/ServerList.cpp:666-685 | from a new list, a client that connects again from the same port puts the counters off |
| AccountingExamples.ThreeVisitsDrift | src/ServerList.cpp:735-782 | from a new list, a third visit after a failure on one server and an ended connection on another puts the counters off |
| AccountingExamples.RefusedThoughAllowed | src/ServerList.cpp:830-963 | from a new list, a client is refused while the rules allow it a server that has just failed |
| AccountingExamples.UpperHalfDenied | src/ServerList.cpp:1016-1052 | such servers and rules exist, for every client |
| RelayAccounting.FitsExactly | src/ServerList.cpp:516-596 | for messages in the order pairs post them, each finds its record in the state it leaves if and only if that condition holds |
| RelayAccounting.TwoEndsReported | src/ConnectionPeer.cpp:501-602 | four turns in which a half-open pair violates it by reporting two ends |
| RelayAccounting.ConnectingEndReported | src/ConnectionPeer.cpp:155-167 | a pair kicked while it is connecting reports an end without having been established or failed |
| Scheduling.GridStep | src/ServerList.cpp:418-418 | a fixed-time task is rescheduled on its grid, after now and within one interval |
| Scheduling.FixedTimeGrid | src/AppConfig.cpp:1230-1236 | from the configured first run on, whenever it is looked at, a fixed-time task's next run stays on the grid of the configured time |
| Scheduling.CachedMinimum | src/ServerList.cpp:435-438 | with periodic tasks the cached time is the least next time after every pass, and nothing is left due |
| Scheduling.CacheStaysExact | src/ServerList.cpp:381-452 | over every run of periodic tasks, after every waking the cached time is the least next time and nothing is due |
| Scheduling.CacheIsLate | src/ServerList.cpp:435-449 | the exact condition under which expiring one-time tasks leave the cached time too late |
| Scheduling.CacheIsLateExample | src/ServerList.cpp:435-449 | three tasks for which it happens |
| Scheduling.ForgottenTaskIsLate | src/ServerList.cpp:435-465 | with those three tasks one is started four seconds late |
| Scheduling.RemembersOnTime | src/ServerList.cpp:367-465 | over every run, with one-time tasks as well, each start is at most 1016 ms late as long as no pass meets that condition |
| Scheduling.AddKeepsCache | src/ServerList.cpp:270-271 | adding a task keeps the cached time the least |
| Scheduling.GateOpensWhenDue | src/ServerList.cpp:381-381 | a pass is made exactly when some task is due |
| Scheduling.WaitInRange | src/ServerList.cpp:456-456 | the wait is whole seconds from one to fifteen if and only if the distance to the next task does not wrap around |
| Scheduling.FarTaskWait | src/ServerList.cpp:456-456 | a task thirty days ahead gives a negative wait |
| Scheduling.StartsOnTime | src/ServerList.cpp:367-465 | over every run of periodic tasks, whatever messages interrupt the sleep, each start is at most 1016 ms late |
| TaskRuns.NextStart | src/ServerList.cpp:412-427 | after a start a periodic task is next due later, and one that is not fixed-time exactly one period later |
| TaskRuns.StartsAreSpaced | src/ServerList.cpp:367-465 | over every run of periodic tasks consecutive starts of a task are at most its period and 1016 ms apart, and at least its period unless it is fixed-time |
| TaskRuns.FirstRunIsNext | src/AppConfig.cpp:1232-1238 | a first run ahead is kept, one in the past becomes the first point of its grid after now, within one interval |
| TaskRuns.SleepIsLongEnough | src/ServerList.cpp:456-456 | an undisturbed sleep lasts until the next task is due, or fifteen seconds |
| TaskRuns.OnlyExpiredAreRemoved | src/ServerList.cpp:397-452 | a pass removes exactly the one-time tasks that are due |
| TaskRuns.LastTaskLeaves | src/ServerList.cpp:440-449 | when the last task is removed the next look is set three seconds ahead |
| TaskRuns.RemovedTaskLeavesItsTime | src/ServerList.cpp:435-443 | when the list's last entry is removed and others stay, the cached time is left at the removed task's own |
| TaskLists.TaskList.AddTask | src/ServerList.cpp:260-280 | a periodic task is appended, first due one interval from now, and the cached time stays the least |
| TaskLists.TaskList.AddFixedTask | src/ServerList.cpp:282-307 | a fixed-time task is appended, and the cached time stays the least |
| TaskLists.TaskList.RunDue | src/ServerList.cpp:381-453 | one pass runs exactly the due tasks, in order, and leaves the list and the cached time described by the pass functions |
| TaskLists.TaskList.ComputeWait | src/ServerList.cpp:456-456 | the wait, in range unless the distance wraps around |
| Listing.IpLessThan | src/utiles.h:65-65 | the octet loop computes the order of addresses |
| Listing.IpLessIsNumeric | src/AdminHTTPServer.cpp:646-648 | the order of addresses used for sorting is that of 32-bit numbers |
| Listing.TwoDirections | src/AdminHTTPServer.cpp:640-724 | for the five keys the ten comparisons are one strict order and its negation, in the direction of the column |
| Listing.KeyIsNumeric | src/AdminHTTPServer.cpp:640-681 | each key sorts by one number, an address and its port by a 48-bit one |
| Listing.FilterCriteria | src/AdminHTTPServer.cpp:609-619 | each address and port given is asked for, what is not given is not, and a filter is all of its criteria |
| Listing.StatusCriterion | src/AdminHTTPServer.cpp:621-622 | a status filter passes the records that share a bit with it |
| Listing.List | src/AdminHTTPServer.cpp:596-740 | the nested loops insert each passing record at its place in the new list |
| Listing.ListingIsPermutation | src/AdminHTTPServer.cpp:607-623 | exactly the passing records are listed, each as often as it is recorded |
| Listing.ListingIsSorted | src/AdminHTTPServer.cpp:638-740 | the listing is sorted by each key in either direction |
| Listing.ListingIsInOrder | src/AdminHTTPServer.cpp:638-740 | ascending listings grow in the number of their key and descending ones shrink, but by modification time the other way round |
| Listing.DescendingIsReverse | src/AdminHTTPServer.cpp:638-740 | the descending listing is the ascending one reversed, ties included |
| Listing.TiesKeepOrder | src/AdminHTTPServer.cpp:638-740 | in a listing that grows upward in its key tied records keep the order in which they are recorded |
| Listing.UnknownKeyKeepsOrder | src/AdminHTTPServer.cpp:638-740 | with any other sort parameter the passing records keep their order |
| ServerLines.ParseServerLine | src/AppConfig.cpp:787-849 | the cursor stays in the text and the fields read are those that the separators delimit, or the line is one that would be read past its end |
| ServerLines.OverrunExactly | src/AppConfig.cpp:796-824 | the cursor would leave the text if and only if no ',' or ':' follows the tag |
| ServerLines.BareHostOverruns | src/AppConfig.cpp:796-824 | a bare host name behind the tag is such a line |
| ServerLines.AtoiReadsDecimals | src/AppConfig.cpp:824-849 | atoi reads back every decimal number in front of anything but a digit |
| ServerLines.AtoiSigned | src/AppConfig.cpp:825-849 | atoi skips white space and takes one sign |
| ServerLines.WhichCharacters | src/AppConfig.cpp:790-847 | the characters that the cursor takes for blanks, for the end of the name and for the end of a number |
| ServerLines.ServerTextIsRead | doc/configuration_syntax.md:37-39 | every documented line is read back to exactly its host, port, weight and limit, the absent ones as zero; so is one with tabs and other separators, and of any port the lower sixteen bits |

## Left out

- ConnectionManagers.ThreadedConnectionManager.RunPass: the lists hold the states of the pairs instead of references to `ConnectionPeer` objects, so aliasing between pairs is not captured; each pair's own object is modelled in `ConnectionPeer.dfy`.
- Fleets.CapacityHolds: one thread accepts the clients of a list and the limit is set before it starts, as in `src/Bind.cpp:174-186` and `src/Bind.cpp:32`.
- AccountingRuns.CountersStayExact: assumes distinct server addresses; `AddressAlone` says what shared addresses change.
- RelayAccounting.PairCountedExactly: the messages of one pair are processed with nothing else in between; `CountersFollowReports` has any interleaving.
- RecordRuns.CountersFollowReports: no bans, and no message about a record before it is made.
- Scheduling.StartsOnTime: passes take no time and the clock is read once per pass; a negative wait, whose meaning belongs to the threading library, is excluded.
- Rotation.ServersInTurn: servers of equal weight and past and established connections, to which no connection is being made, that have not failed and that the rules allow.
- Scheduling.CachedMinimum: concerns periodic tasks; `CacheIsLate` and `RemembersOnTime` cover lists with one-time tasks.
- TaskLists.TaskList.AddTask: assumes a next time after time zero, since the source uses a cached time of zero for "no task".
- Filters.MaskValue: negative prefix lengths, which the parser does not reject and for which the shift in the source is undefined.
- ServerLines.ServerTextIsRead: numbers too large for the C type, on which atoi is undefined; resolving the host name and adding the server to its bind are not modelled.
- Selection.ScoreIsFaithful: scores are rationals, so float rounding is not captured.
- Socket, pipe and select calls, the control socket and the closing of sockets below the relay.
- Configuration tags other than the server line, the prefix masks and the first run of a task.
- Names, DNS lookup, port probing, date encoding, file reading and the HTML and HTTP text of the administration server.
- The administration thread's own copy of the records and its counters, which follow other rules.
- Bans: a ban message only overwrites a record's status, which the model does; no later check of it is modelled.
- Adding servers, rules and tasks while clients are served; thread start and shutdown; unlocked accesses between threads; reuse of freed memory.
- Widths of counters, ports and times other than the two conversions written out.
