# CTaps in Dafny

CTaps is a transport-services stack (RFC 9621, RFC 9622 and RFC 9623) written in C. This project models the
event-driven parts that CTaps itself decides, between the application above and libuv and picoquic
below, and proves what they promise for every input and every run.

| files | component |
|---|---|
| RaceModel, RaceProperties, RaceHistory, RacingContext | the staggered race between connection attempts |
| Addresses, AttemptEndpoints | addresses, and the endpoint lists an attempt is given |
| Selection, StableSort | compatibility of protocols and interfaces, ranking, ordering |
| CandidateTree, Pruning, GatherPlan, GatherModel, GatherAsks, GatherOrder, GatherContext, GatherCoverage | gathering: building, pruning and delivering the candidate tree |
| SocketModel, SocketHistory, SocketManager | who is told what when connections and a listener share a socket |
| RefCounts, Lifetimes | reference counts of socket managers and connection groups |
| ReceiveQueues | receive requests and messages |
| ActiveEndpoints | active endpoints of a connection and of a group |
| StreamGroup, StreamEffects, StreamSilence, StreamEnds, StreamReports, QuicGroup | QUIC streams as a connection group, when the QUIC connection is closed, and what the socket manager hears |
| Demux | UDP datagrams by sender |
| Sequences | lists without repetitions, lists joined |

Each state machine is written twice. A specification on values gives every event in closed form, with the
runs it allows and the theorems about all of them. A class updates its fields step by step as the C
code does, and each of its methods is proved to land on the specified state. What the specification does over
a whole run is then told a second time from the events alone, without its states (`RaceHistory.RunAsTold`,
`SocketHistory.RunAsTold`, `DeliveredAsTold`, `AskedAsTold`, `DirectionsAsTold`, `DeliveredTold`).

Where the code does not keep what its documentation promises, the code is modelled as it is: a lemma gives the
run on which the promise fails and another the exact condition under which it holds (`ToldOnceIff`,
`ClosableIff`, `FreedSoundlyIff`, `EndKeepsIff`, `RunKeepsIff`, `FlagTellsIff`, `SilentAfterwardsIff`,
`SilentUnclosedIff`, `ClosableAsIsIff`, `DirectionsKeptIff`, `FinKeepsPromiseIff`, `OneConnectionEach`).

`dafny verify dfyconfig.toml` checks the project.

## Model

| member | source | states |
|---|---|---|
| RaceProperties.SingleWinner | src/candidate_gathering/candidate_racing.c:417-469 | over every run at most one attempt succeeds and it is the recorded winner; from then on nothing is pending or connecting, and the application heard ready of that attempt and nothing else |
| RaceProperties.DecidedIsFinal | src/candidate_gathering/candidate_racing.c:417-489 | once the race is decided, no later event changes the winner, starts an attempt or reaches the application |
| RaceProperties.ToldOnceIff | src/candidate_gathering/candidate_racing.c:538-579 | the application hears at most one result, and the timer is closed at most once, exactly on the runs in which no last attempt is refused by its protocol after all others failed |
| RaceProperties.RefusedAloneToldTwice | src/candidate_gathering/candidate_racing.c:553-570 | the concrete run on which the all-failed handler runs twice: one candidate whose start is refused |
| RaceProperties.NoCandidates | src/candidate_gathering/candidate_racing.c:581-617 | without candidates the application hears one establishment error, the context is closed and no run goes any further |
| RaceProperties.CompletedCounts | src/candidate_gathering/candidate_racing.c:26-44 | completed_attempts is the number of concluded attempts, plus one for each attempt whose protocol both reported an error and returned one |
| RaceProperties.ClosedWhenConcluded | src/candidate_gathering/candidate_racing.c:107-132 | the context is closed if and only if every attempt is concluded, and then the timer is idle and the race complete |
| RaceProperties.NeverStalls | src/candidate_gathering/candidate_racing.c:474-579 | while the race is open, attempts below the next index are connecting or failed, the others pending, the timer is armed exactly while there is a next attempt and is due 250 ms after the last start, some attempt has not failed, and there is a timer or an attempt that can still report to wait for, unless all were started and each that has not failed was closed |
| RaceProperties.EventLowers | src/candidate_gathering/candidate_racing.c:417-533 | every event leaves the race as it is, but for the record of who has reported, or lowers a weighted sum of attempt states |
| RaceProperties.RunsAreBounded | src/candidate_gathering/candidate_racing.c:417-579 | no run has more than 6n + 1 events that change anything |
| RaceProperties.ClosableIff | src/candidate_gathering/candidate_racing.c:107-132 | after any run the context has been or can still be closed exactly if no terminal report was dropped: no error of an attempt being cancelled, no close of one still connecting |
| RaceProperties.StrandedIff | src/candidate_gathering/candidate_racing.c:474-489 | an attempt under way will never report again exactly if a terminal report was dropped |
| RaceProperties.ToldIff | src/candidate_gathering/candidate_racing.c:417-489 | the application has heard or can still hear a result exactly if the race is decided, the timer is armed or a connecting attempt can still report |
| RaceProperties.ErrorWhileClosingStrands | src/candidate_gathering/candidate_racing.c:483-486 | the concrete run on which the loser ends by an error and the context is never closed |
| RaceProperties.ClosedWhileConnectingStrands | src/candidate_gathering/candidate_racing.c:252-256 | the concrete run on which the only attempt is closed while connecting and the application hears nothing |
| RaceProperties.StartsAreStaggered | src/candidate_gathering/candidate_racing.c:538-579 | attempt k starts no sooner than k times 250 ms after attempt 0, even if earlier attempts fail at once |
| RaceHistory.RunAsTold | src/candidate_gathering/candidate_racing.c:417-579 | over every run, read off the events alone: the state of each attempt, the winner, which attempts were started and when, which hold a connection and which have made their terminal report |
| RaceHistory.FailedIff | src/candidate_gathering/candidate_racing.c:474-489 | over every run an attempt has failed exactly if it reported an error while nobody had won, or its start was refused or reported an error |
| RaceHistory.CanceledIff | src/candidate_gathering/candidate_racing.c:494-517 | over every run an attempt has been cancelled exactly if somebody won before it was started, or its connection was closed after somebody else had won |
| RaceHistory.ErrorTouchesOne | src/candidate_gathering/candidate_racing.c:474-489 | an error fails the attempt that reported it if the race is open, and touches no other attempt; only that one has then made its terminal report |
| RaceHistory.CloseTouchesOne | src/candidate_gathering/candidate_racing.c:46-51 | the close of a connection concludes that attempt if it was being cancelled, and touches no other |
| RaceModel.RunInv | src/candidate_gathering/candidate_racing.c:417-579 | the invariant behind the above holds after every run, with exact counts of double reports and double handler calls |
| RaceModel.RunHeld | src/candidate_gathering/candidate_racing.c:244-412 | after every run each attempt under way or successful holds a connection, and only started attempts hold or have reported one |
| RaceModel.CountSettled | src/candidate_gathering/candidate_racing.c:494-517 | how many attempts are concluded after a win has cancelled the others |
| RacingContext.ReadyByWalk | src/candidate_gathering/candidate_racing.c:417-469 | registering the success and cancelling the others one by one lands on the closed form of a win, although a cancellation in the middle of the walk may close the context |
| RacingContext.CancelledNext | src/candidate_gathering/candidate_racing.c:494-517 | one step of the cancelling walk, with the close it may cause counted once |
| RacingContext.WinnerIsKept | src/candidate_gathering/candidate_racing.c:74-105 | over every run the winner holds a connection, and of the connections the race made exactly that one is not released |
| RacingContext.Context.constructor | src/candidate_gathering/candidate_racing.c:134-154 | all attempts pending |
| RacingContext.Context.AllAttemptsFailed | src/candidate_gathering/candidate_racing.c:53-61 | true exactly if every attempt failed or was cancelled |
| RacingContext.Context.AllAttemptsConcluded | src/candidate_gathering/candidate_racing.c:63-72 | true exactly if every attempt failed, was cancelled or succeeded |
| RacingContext.Context.HandleAllAttemptsFailed | src/candidate_gathering/candidate_racing.c:116-124 | the closed form of the all-failed handler |
| RacingContext.Context.HandleConcludedAttempt | src/candidate_gathering/candidate_racing.c:126-132 | the closed form of concluding an attempt |
| RacingContext.Context.RegisterFailedAttempt | src/candidate_gathering/candidate_racing.c:26-30 | the closed form of a failure |
| RacingContext.Context.RegisterCanceledAttempt | src/candidate_gathering/candidate_racing.c:32-36 | the closed form of a cancellation |
| RacingContext.Context.RegisterSuccessfulAttempt | src/candidate_gathering/candidate_racing.c:38-44 | the closed form of a success, before the others are cancelled |
| RacingContext.Context.CancelAllOtherAttempts | src/candidate_gathering/candidate_racing.c:494-517 | the array after the walk, its counters and at most one close |
| RacingContext.Context.AttemptReady | src/candidate_gathering/candidate_racing.c:417-469 | the callback refines the closed form of a win; after the race it changes nothing |
| RacingContext.Context.AttemptError | src/candidate_gathering/candidate_racing.c:474-489 | the callback lands on the closed form of a failure, of which RaceHistory tells whom it touches; after the race it changes nothing |
| RacingContext.Context.ConnectionClosed | src/candidate_gathering/candidate_racing.c:46-51 | a cancelled attempt is concluded when its connection has closed |
| RacingContext.Context.StartConnectionAttempt | src/candidate_gathering/candidate_racing.c:244-412 | starting an attempt, with the callbacks its protocol makes before it returns |
| RacingContext.Context.InitiateNextAttempt | src/candidate_gathering/candidate_racing.c:538-579 | refines the closed form of a launch, including the second all-failed call after a refusal |
| RacingContext.Context.StaggerTimerFired | src/candidate_gathering/candidate_racing.c:522-533 | the timer event of the model |
| RacingContext.Context.CandidatesReady | src/candidate_gathering/candidate_racing.c:581-617 | the start of every run |
| RacingContext.Context.FreeContext | src/candidate_gathering/candidate_racing.c:74-105 | releases exactly the connections of attempts that did not succeed |
| AttemptEndpoints.RemoveDuplicates | src/candidate_gathering/candidate_racing.c:264-330 | the list holds every address once, in order of first occurrence |
| AttemptEndpoints.OneListFits | src/candidate_gathering/candidate_racing.c:264-330 | order of first occurrence determines the list |
| AttemptEndpoints.EndpointsFor | src/candidate_gathering/candidate_racing.c:264-359 | both lists cover every candidate and the active indices select the attempt's own addresses |
| Selection.ProtocolSupports | src/candidate_gathering/candidate_gathering.c:120-142 | a protocol is compatible exactly if it prohibits nothing required and requires nothing prohibited |
| Selection.InterfaceIsCompatible | src/candidate_gathering/candidate_gathering.c:144-186 | an interface is compatible exactly if there are no preferences, or it is any interface, or its own type is not prohibited and no other type required |
| Selection.CompatibleByLookup | src/candidate_gathering/candidate_gathering.c:144-186 | on sets built by Add, compatibility depends on the looked-up preferences alone |
| Selection.ComparePreferences | src/candidate_gathering/candidate_gathering.c:323-377 | the one-pass difference comparator is the lexicographic order on (PREFERs met, AVOIDs met) |
| Selection.PreferenceSet.Add | src/transport_property/transport_properties.c:59-91 | the value gets the preference, every other value keeps its own, nothing is listed twice, and the order of values stays |
| Selection.PreferenceSet.Get | src/transport_property/transport_properties.c:106-145 | the preference of the value, or no preference |
| StableSort.SortIsStable | src/candidate_gathering/candidate_gathering.c:792-795 | the specification of the sort: ordered by rank, ties in their old order, a permutation |
| StableSort.OneStableSort | src/candidate_gathering/candidate_gathering.c:792-795 | there is only one stable sort, so nothing but the rank and the old order matters |
| Pruning.GatherEndpoints | src/candidate_gathering/candidate_gathering.c:213-228 | finds exactly the incompatible endpoint nodes |
| Pruning.GatherProtocols | src/candidate_gathering/candidate_gathering.c:230-257 | finds exactly the incompatible protocol nodes although it stops at the first endpoint |
| Pruning.GatherPaths | src/candidate_gathering/candidate_gathering.c:188-211 | finds exactly the incompatible path nodes although it stops below the paths |
| Pruning.OrderOfTree | src/candidate_gathering/candidate_gathering.c:293-321 | a level-order walk meets every node once, shallow before deep, and depth determines the type of a node |
| Pruning.UndesirableBottomUp | src/candidate_gathering/candidate_gathering.c:293-321 | the list to remove has descendants before ancestors and nothing twice |
| Pruning.CutConserves | src/candidate_gathering/candidate_gathering.c:266-283 | destroying one subtree loses exactly the nodes in it |
| Pruning.NextCut | src/candidate_gathering/candidate_gathering.c:266-283 | every listed node is still in the tree when its turn comes |
| Pruning.RemoveNodes | src/candidate_gathering/candidate_gathering.c:266-283 | what is left is the tree without the listed nodes; what is destroyed and what is left add up to the tree |
| Pruning.PruneCandidateTree | src/candidate_gathering/candidate_gathering.c:293-321 | the result is the recursive specification of pruning; each removed node is destroyed once and no surviving one is |
| CandidateTree.LevelsFromLevelled | src/candidate_gathering/candidate_gathering.c:293-321 | levels come in order and no node is met twice |
| GatherPlan.TreeOfIsTree | src/candidate_gathering/candidate_gathering.c:475-575 | the tree of a plan is well formed: positions are names and depth determines type |
| GatherPlan.AppendPath | src/candidate_gathering/candidate_gathering.c:617-643 | appending a path node extends the plan by that path |
| GatherPlan.AppendOption | src/candidate_gathering/candidate_gathering.c:645-710 | appending a protocol node extends one path of the plan |
| GatherPlan.AppendRemote | src/candidate_gathering/candidate_gathering.c:712-739 | appending an endpoint node extends one option of one path |
| GatherPlan.PickedAreTriples | src/candidate_gathering/candidate_gathering.c:426-465 | the leaves of the pruned tree are the compatible triples of the product, in product order |
| GatherPlan.PickedArePairs | src/candidate_gathering/candidate_gathering.c:426-465 | in local-only mode they are the compatible pairs of path and option |
| GatherModel.DeliveredIsSortedProduct | src/candidate_gathering/candidate_gathering.c:757-807 | pruning, collecting and sorting deliver the one stable sort of the compatible triples |
| GatherModel.DeliveredLocallyIsSortedProduct | src/candidate_gathering/candidate_gathering.c:836-863 | the same for path and protocol in local-only mode, again the one stable sort |
| GatherOrder.MorePrefersFirst | include/ctaps.h:179-187 | a candidate that meets more PREFERs precedes any other, whatever the AVOIDs; of two that meet equally many, the one that meets more AVOIDs comes first; both counted as sets of properties |
| GatherOrder.DeliveredTold | src/candidate_gathering/candidate_gathering.c:757-807 | what racing is given, told from the plan, the protocols' offers and the application's wishes alone: the allowed combinations, by number of PREFERs met, then of AVOIDs met, and otherwise path by path, option by option and address by address; nothing lost or added |
| GatherOrder.DeliveredLocallyTold | src/candidate_gathering/candidate_gathering.c:836-863 | the same for path and option in local-only mode |
| GatherOrder.DeliveredBestFirst | src/candidate_gathering/candidate_gathering.c:323-377 | the order delivered, from the sets of PREFERs and AVOIDs each candidate meets |
| GatherOrder.FitsIff | src/candidate_gathering/candidate_gathering.c:144-257 | a candidate survives pruning exactly if its interface and its protocol are allowed and, when it has a remote address, the path can reach it: one family, and, unless the path is bound to the wildcard, loopback at both ends or neither and link-local at both or neither |
| GatherOrder.TriplesAre | src/candidate_gathering/candidate_gathering.c:426-465 | the combinations of a plan are path by path, option by option and address by address |
| GatherOrder.OptionsIff | src/candidate_gathering/candidate_gathering.c:645-710 | a protocol is offered with each of the ALPNs if it uses them and there are any, and once without otherwise |
| GatherOrder.OptionsAre | src/candidate_gathering/candidate_gathering.c:645-710 | the options come in the order of the registry, and under one protocol in the order of the ALPNs |
| GatherModel.CompletesOnce | src/candidate_gathering/candidate_gathering.c:576-612 | for every mix of immediate and later answers: pending is total minus reported, in-flight is started minus reported, neither is negative, and completion is called once, with the last report |
| GatherModel.FreedSoundlyIff | src/candidate_gathering/candidate_gathering.c:597-608 | the context is freed at most once and never under an outstanding answer exactly on the runs in which every resolution starts |
| GatherModel.FailsOnce | src/candidate_gathering/candidate_gathering.c:591-612 | once a resolution could not be started nothing is delivered, and failure is reported once, when all that were started have reported |
| GatherModel.FirstRefusalFreesTwice | src/candidate_gathering/candidate_gathering.c:827-831 | the concrete run on which it is freed twice |
| GatherModel.NoRemoteEndpoints | src/candidate_gathering/candidate_gathering.c:576-612 | without anything to resolve, completion reports failure once |
| GatherModel.RunFillsIn | src/candidate_gathering/candidate_gathering.c:712-739 | after any run in which every resolution starts each option has exactly the addresses reported for it, in order of report |
| GatherModel.GatherDelivers | src/candidate_gathering/candidate_gathering.c:712-807 | when the last resolution reports, racing is given the stable sort of the compatible triples of path, option and reported address |
| GatherAsks.AsksCover | src/candidate_gathering/candidate_gathering.c:576-612 | every remote endpoint is asked for exactly once for every path and option, and nothing else is |
| GatherCoverage.NothingLost | src/candidate_gathering/candidate_gathering.c:576-612 | on runs in which every resolution starts, each has reported, is outstanding or waits, and none twice |
| GatherCoverage.AnswersComplete | src/candidate_gathering/candidate_gathering.c:712-739 | whatever the order of reports, an option of a path ends up with exactly the answers to it |
| GatherCoverage.GatherDeliversProduct | src/candidate_gathering/candidate_gathering.c:475-807 | from the local endpoints found, the protocols, the ALPNs and a resolver to the delivered list: the stable sort of the compatible combinations of path, option and resolved address, for every order of answers; also told without the comparator, best first among the allowed combinations |
| GatherCoverage.LocalGatherDeliversProduct | src/candidate_gathering/candidate_gathering.c:836-863 | for a listener, from the local endpoints found, the protocols and the ALPNs to the delivered list: the one stable sort of the compatible product of path and option; also told without the comparator |
| GatherContext.Context.BranchByPath | src/candidate_gathering/candidate_gathering.c:617-643 | one path node per resolved local endpoint |
| GatherContext.Context.BranchByProtocolOptions | src/candidate_gathering/candidate_gathering.c:645-710 | under one path, a node per protocol, or per ALPN for protocols that use one |
| GatherContext.Context.BuildPathsAndProtocols | src/candidate_gathering/candidate_gathering.c:475-575 | the tree is that of the initial plan: every path with every option |
| GatherContext.Context.GatherLocally | src/candidate_gathering/candidate_gathering.c:550-557 | local-only gathering delivers the ordered candidates of the initial plan once and frees the context once |
| GatherContext.Context.PrepareResolutions | src/candidate_gathering/candidate_gathering.c:555-590 | one resolution is waiting for every path, option and remote endpoint, and no other; none at all is a failure |
| GatherContext.Context.StartResolution | src/candidate_gathering/candidate_gathering.c:591-612 | one turn of the loop refines the model's event, whether the resolution waits, answers at once or cannot start |
| GatherContext.Context.Resolved | src/candidate_gathering/candidate_gathering.c:712-739 | the resolve callback refines the model's answer |
| GatherContext.Context.OrderedCandidates | src/candidate_gathering/candidate_gathering.c:757-807 | the candidates to deliver, in both modes: all allowed ones, most PREFERs first, then most AVOIDs, then in the order of the product |
| GatherContext.Context.TreeIsComplete | src/candidate_gathering/candidate_gathering.c:757-807 | delivers the ordered candidates, or failure, once |
| SocketModel.ToldExactlyOnce | src/connection/socket_manager/socket_manager.c:107-440 | over every run in which no connection is said to be ready after its end, each dependent is told at most once, and told what it is due, whether or not it was the last; whoever ended has been told, but for the one the socket is being closed for; the socket is closed at most once |
| SocketModel.RunKeepsIff | src/connection/socket_manager/socket_manager.c:107-440 | over every run, ready callbacks at any time included, the promise holds at the end exactly if none came after its connection's end |
| SocketHistory.RunAsTold | src/connection/socket_manager/socket_manager.c:107-440 | over every run in time, read off the events alone: whether the socket is open, being closed or gone, who was told what and in which order, the list of connections and the state of each |
| SocketHistory.ToldWhatHappened | src/connection/socket_manager/socket_manager.c:215-382 | over every run in time whoever was told something had ended, and was told what its end means: closed, an establishment error if it could not be established or was aborted before it was ready or asked to close, a connection error if it was aborted later; all that ended have been told, but for the one the socket is being closed for |
| SocketModel.ReadyKeepsIff | src/connection/socket_manager/socket_manager.c:337-346 | a ready callback keeps the promise exactly if the connection is open |
| SocketModel.SocketClosedTellsTheLast | src/connection/socket_manager/socket_manager.c:264-285 | the search in the socket-closed callback finds exactly the dependent that waits, or the listener, and tells it what it is due |
| SocketModel.StepKeeps | src/connection/socket_manager/socket_manager.c:107-440 | every callback keeps the invariant: one waiting dependent while the socket is being closed, none that ended and was not told otherwise |
| SocketModel.EndKeepsIff | src/connection/socket_manager/socket_manager.c:287-382 | a terminal callback keeps the promise exactly if the connection is not closed and the socket neither closed nor being closed |
| SocketModel.EndedWhileClosing | src/connection/socket_manager/socket_manager.c:287-382 | any terminal callback while the socket is being closed closes it a second time |
| SocketModel.ClosedThenAborted | src/connection/socket_manager/socket_manager.c:348-363 | the concrete run on which the application closes and then aborts its last connection |
| SocketModel.EndedTwiceClosesAnother | src/protocol/udp/udp.c:422-438 | the concrete run after which a second terminal callback makes the manager tell another connection that it was closed |
| SocketModel.PartEnds | src/protocol/quic/quic.c:502-526 | connections that end while others depend on the socket are each told at once, the socket is left alone and nobody else is touched |
| SocketModel.WholeEnds | src/protocol/quic/quic.c:502-526 | if they are all there is, the last one waits for the socket, and in the end each has been told the same |
| SocketManager.SharedSocket.constructor | src/connection/socket_manager/socket_manager.c:452-487 | a manager with nobody on it |
| SocketManager.SharedSocket.NumOpenDependents | src/connection/socket_manager/socket_manager.c:107-121 | the number of open dependents |
| SocketManager.SharedSocket.LastOpenConnection | src/connection/socket_manager/socket_manager.c:264-272 | the first open connection of the list |
| SocketManager.SharedSocket.AddConnection | src/connection/socket_manager/socket_manager.c:71-76 | lands on the whole state the specification gives for this event |
| SocketManager.SharedSocket.ConnectionReady | src/connection/socket_manager/socket_manager.c:337-346 | marks the connection established whatever state it is in |
| SocketManager.SharedSocket.Close | src/connection/connection.c:469-477 | lands on the whole state the specification gives for this event; SocketHistory tells what the request changes for a later abort |
| SocketManager.SharedSocket.RemoveConnection | src/connection/connection.c:528-541 | lands on the whole state the specification gives for this event |
| SocketManager.SharedSocket.ClosedSocket | src/connection/socket_manager/socket_manager.c:274-285 | tells the first open connection, or else the listener, by the reason of the close |
| SocketManager.SharedSocket.NotifyListener | src/connection/socket_manager/socket_manager.c:150-181 | the listener is stopped and told, by the reason of the close |
| SocketManager.SharedSocket.ClosedConnection | src/connection/socket_manager/socket_manager.c:287-313 | the model's end by close |
| SocketManager.SharedSocket.EstablishmentError | src/connection/socket_manager/socket_manager.c:315-335 | the model's end by establishment error |
| SocketManager.SharedSocket.AbortedConnection | src/connection/socket_manager/socket_manager.c:348-382 | the model's end by abort, which depends on whether the connection was established |
| SocketManager.SharedSocket.ListenerClosed | src/connection/socket_manager/socket_manager.c:422-440 | the model's end of the listener |
| RefCounts.ManagersFollowUse | src/connection/socket_manager/socket_manager.c:40-76 | over every run of making, accepting, cloning, moving and freeing: a manager's count is the number of connections that use it and of listeners on it, at most one of these, it exists exactly while there is one of either, and it is freed once |
| RefCounts.GroupsFollowMembership | src/connection/connection_group.c:14-30 | over every run a group's count is its membership, it exists exactly while it has a member, and it is freed once |
| RefCounts.Run | src/connection/connection.c:40-236 | every run keeps the invariant, and nothing it touches was freed before |
| RefCounts.FreeConnectionFrees | src/connection/connection.c:479-543 | freeing a connection frees its manager and its group exactly if it was their last holder |
| RefCounts.FreeConnectionKeeps | src/connection/connection.c:479-543 | and leaves all other connections and both kinds of counts right |
| RefCounts.FreeListenerKeeps | src/connection/listener.c:76-95 | freeing a listener frees the manager exactly if no connection uses it |
| RefCounts.GroupFirstIff | src/connection/connection.c:515-520 | the manager a group reaches through is still held when the group is let go; in the other order it would be missing exactly for the last member |
| RefCounts.UdpMovesIff | src/protocol/udp/udp.c:354-366 | letting go of the old manager before leaving its list is safe exactly if something else holds it, and then it has the same effect as TCP's order |
| RefCounts.MoveByTcpKeeps | src/protocol/tcp/tcp.c:588-598 | moving to a new manager keeps all counts right, even while the new manager has no holder yet |
| RefCounts.CloneCanMove | src/connection/connection.c:616-632 | a clone can always be moved, because its source holds the manager |
| RefCounts.CloneIsPlaced | src/connection/connection.c:186-236 | a clone shares its source's group, and its manager unless it was moved; nothing is freed |
| RefCounts.FailedCloneIsUndone | src/connection/connection.c:616-632 | a failed clone leaves every connection as it was and frees the manager it had been moved to |
| RefCounts.CreateClientKeeps | src/connection/connection.c:106-184 | a client connection leaves all counts right |
| RefCounts.CreateServerKeeps | src/connection/connection.c:40-104 | a server connection leaves all counts right, on a manager that is held as on one just made for it |
| RefCounts.AcceptKeeps | src/protocol/tcp/tcp.c:518-531 | accepting a TCP connection leaves all counts right, although its manager has no holder when it is made; nothing is freed |
| Lifetimes.Library.SocketManagerUnref | src/connection/socket_manager/socket_manager.c:123-135 | lands on the heap that the operation of the run theorems gives: freed when the count reaches zero |
| Lifetimes.Library.AddConnection | src/connection/socket_manager/socket_manager.c:71-76 | lands on the heap that the operation of the run theorems gives |
| Lifetimes.Library.GroupAddConnection | src/connection/connection_group.c:14-30 | lands on the heap that the operation of the run theorems gives; a connection that has a group stays in it |
| Lifetimes.Library.GroupUnref | src/connection/connection_group.c:162-185 | lands on the heap that the operation of the run theorems gives: freed when the count reaches zero |
| Lifetimes.Library.ListenerNew | src/connection/listener.c:17-70 | keeps all counts right; the new listener has a new manager and no connection changes |
| Lifetimes.Library.ListenerFree | src/connection/listener.c:76-95 | keeps all counts right; the listener goes and its manager is freed exactly if no connection uses it |
| Lifetimes.Library.CreateClientConnection | src/connection/connection.c:106-184 | keeps all counts right; a new connection with its own manager and group, or none for an unknown family; nothing is freed |
| Lifetimes.Library.CreateServerConnection | src/connection/connection.c:40-104 | keeps all counts right; a new connection with its own group, on a manager that is held or was just made for it; nothing is freed |
| Lifetimes.Library.AcceptConnection | src/protocol/tcp/tcp.c:518-531 | keeps all counts right; a new connection with its own manager and group; nothing is freed |
| Lifetimes.Library.CreateCloneOf | src/connection/connection.c:186-236 | lands on the heap that the operation of the run theorems gives |
| Lifetimes.Library.TcpCloneConnection | src/protocol/tcp/tcp.c:571-598 | lands on the heap that the operation of the run theorems gives, in TCP's order |
| Lifetimes.Library.UdpCloneConnection | src/protocol/udp/udp.c:348-366 | lands on the heap that the operation of the run theorems gives, in UDP's order |
| Lifetimes.Library.Free | src/connection/connection.c:479-543 | keeps all counts right; only this connection goes, and its manager and group are freed exactly if it was their last holder |
| Lifetimes.Library.Clone | src/connection/connection.c:616-632 | keeps all counts right; the clone is placed beside its source or on its own manager, and a failed one leaves the connections as they were |
| ReceiveQueues.DeliveriesAreTheZip | src/connection/connection.c:427-467 | for every interleaving, with requests made inside callbacks, the deliveries are exactly the zip of arrivals and requests, and the queues are never both non-empty |
| ReceiveQueues.AskedAsTold | src/connection/connection.c:427-467 | for every interleaving, which calls to receive are made and in which order, read off the events with the callbacks as a stack |
| ReceiveQueues.DeliveriesAsTold | src/connection/connection.c:427-467 | for every interleaving, the callbacks made are the zip of the messages in order of arrival with those calls |
| ReceiveQueues.AskedOnce | src/connection/connection.c:427-467 | the calls to receive are those of the application and those made by the callbacks of the requests that got a message, each once |
| ReceiveQueues.ArriveKeeps | src/connection/connection.c:559-586 | an arrival keeps the pairing |
| ReceiveQueues.ReceiveKeeps | src/connection/connection.c:427-467 | a request keeps the pairing, whatever its callback asks for |
| ReceiveQueues.Connection.ReceiveMessage | src/connection/connection.c:427-467 | refines the request of the model |
| ReceiveQueues.Connection.DeliverToApp | src/connection/connection.c:559-586 | refines the arrival of the model |
| ActiveEndpoints.SetActiveSelects | src/connection/connection.c:851-939 | the index is in range and selects the address, the old list is a prefix, grown by one exactly if the address is new, endpoints stay distinct, and the flag means the active address is another one |
| ActiveEndpoints.SetAgainIsQuiet | src/connection/connection.c:851-939 | a repeated call reports no change and makes none |
| ActiveEndpoints.GroupFollows | src/connection/connection_group.c:219-250 | members that agreed agree on the new address, and the overwritten flag says whether it differs |
| ActiveEndpoints.FlagTellsIff | src/connection/connection_group.c:219-236 | in whatever order the table is walked the flag tells whether a member moved, exactly if all of them move or none does |
| ActiveEndpoints.HiddenMove | src/connection/connection_group.c:219-236 | the concrete group whose flag hides a move |
| ActiveEndpoints.Connection.SetActiveEndpoint | src/connection/connection.c:851-890 | the list, the index and the flag of the specification |
| ActiveEndpoints.Group.SetActiveEndpoint | src/connection/connection_group.c:219-236 | every member is set; the flag is the last one's |
| StreamGroup.OneStreamEach | src/protocol/quic/quic.c:636-690 | over every run, streams and connections that have one correspond one to one, and what came in on a stream went to one connection that hears no other stream |
| StreamGroup.StreamsStay | src/protocol/quic/quic.c:360-389 | no connection is given a second stream and no stream another connection |
| StreamEffects.EventEffect | src/protocol/quic/quic.c:593-884 | every event leaves each member with the stream and the directions it had, but for what the event gives to or takes from that member; a member is added only by a clone or a new peer stream, and none is lost |
| StreamEffects.CallsEffect | src/protocol/quic/quic.c:822-884 | which calls to the socket manager an event makes, and to whom its data is handed |
| StreamEffects.DirectionsAsTold | src/protocol/quic/quic.c:593-884 | over every run a connection may send exactly if the last event with a say in that gave it the right, and likewise for receiving |
| StreamEffects.CloseSendsFinIff | src/protocol/quic/quic.c:1495-1543 | a local close sends a FIN exactly if, before it, the connection has a stream and either can still receive or another connection is of use; on its own stream |
| StreamEffects.OnlyCloseSendsFin | src/protocol/quic/quic.c:1495-1543 | no other event sends a FIN |
| StreamEffects.FinSentIff | src/protocol/quic/quic.c:1495-1543 | over every run a FIN was sent on a stream exactly if a local close of its connection did not silence the group |
| StreamGroup.Run | src/protocol/quic/quic.c:636-690 | every run keeps the correspondence |
| StreamGroup.ClosesIff | src/protocol/quic/quic.c:593-635 | the QUIC connection is closed by an event exactly if, seen from before it, no connection but one is of use and that one is closed locally when it cannot receive, or finished by the peer when it cannot send or together with opening a stream for reading only |
| StreamGroup.ClosedByFirstStream | src/protocol/quic/quic.c:660-685 | the concrete run on which the peer's first stream, for reading only and finished at once, closes a QUIC connection whose only connection could send and receive |
| StreamGroup.ClosedAtTheFirst | src/protocol/quic/quic.c:1495-1543 | over every run it has been closed exactly if there was such an event |
| StreamSilence.SilentUnclosedIff | src/protocol/quic/quic.c:874-884 | over every run nobody can send or receive although the QUIC connection was never closed, exactly if no closing event occurred and the last direction was taken by a final message or by STOP_SENDING, or there was none yet, with nothing giving one since |
| StreamSilence.FallsSilentIff | src/protocol/quic/quic.c:874-884 | a group falls silent without a close exactly at the end of sending, by a final message or STOP_SENDING, of a connection that receives no more when no other is of use |
| StreamSilence.FinalAfterFin | src/connection/connection.c:370-382 | the concrete run on which both sides finish the only stream and the QUIC connection stays open |
| StreamGroup.SilentAfterwardsIff | src/protocol/quic/quic.c:839-862 | after the close nobody may send or receive, unless the FIN made a new connection, which is told it is ready after all |
| StreamGroup.ReadyAfterClose | src/protocol/quic/quic.c:839-862 | the concrete run on which the FIN that closes the QUIC connection leaves behind a connection told it is ready |
| StreamGroup.DirectionsKeptIff | src/protocol/quic/quic.c:660-685 | a stream the peer opened leaves its connection with the directions of its type, except a read-only stream that got a connection of its own |
| StreamGroup.FinReports | src/protocol/quic/quic.c:593-635 | exactly when a FIN reports a connection as ended, and that a connection made for it is told ready afterwards |
| StreamGroup.EndedThenReady | src/protocol/quic/quic.c:839-862 | the concrete run on which a connection is ended, then ready, and may send on a read-only stream |
| StreamGroup.HoldsOpen | src/protocol/quic/quic.c:607-635 | a member that can send or receive keeps the QUIC connection open whatever happens to the others, reported as ended or not |
| StreamEnds.ClosableIff | src/protocol/quic/quic.c:863-873 | counting new peer streams and clones, some way of going on that leaves finished members alone closes the QUIC connection exactly if no finished member can send or receive |
| StreamEnds.ClosableAsIsIff | src/protocol/quic/quic.c:1495-1543 | without new streams, clones or ready callbacks the QUIC connection can still be closed exactly if no finished member can send or receive, none that sends no more waits for the peer without a stream, and some member has not ended |
| StreamEnds.ClosedBeforeSending | src/protocol/quic/quic.c:1495-1543 | the concrete run on which the application closes a connection it never sent on: no FIN, no close, and none to come without something new |
| StreamEnds.ResetHoldsOpen | src/protocol/quic/quic.c:863-873 | the concrete run on which a reset leaves the QUIC connection open for good |
| StreamReports.FinKeepsPromiseIff | src/protocol/quic/quic.c:840-862 | which calls a FIN on a new stream makes, and exactly when they keep the socket manager's promise |
| StreamReports.ToldTwiceByStreams | src/protocol/quic/quic.c:840-862 | the concrete run, of the streams and of the socket manager, on which a connection is told twice that it was closed |
| QuicGroup.Streams.NumActive | src/protocol/quic/quic.c:607-618 | the number of members that can send or receive |
| QuicGroup.Streams.ResolveOrCreate | src/protocol/quic/quic.c:636-690 | the connection of a stream: its context, the first member if that has none, or a clone |
| QuicGroup.Streams.HandleStreamFin | src/protocol/quic/quic.c:593-635 | refines the model's FIN |
| QuicGroup.Streams.StreamData | src/protocol/quic/quic.c:822-839 | lands on the whole state the specification gives for this event |
| QuicGroup.Streams.StreamFin | src/protocol/quic/quic.c:840-862 | lands on the whole state the specification gives for this event |
| QuicGroup.Streams.StopSendingReceived | src/protocol/quic/quic.c:874-884 | lands on the whole state the specification gives for this event |
| QuicGroup.Streams.StreamResetReceived | src/protocol/quic/quic.c:863-873 | lands on the whole state the specification gives for this event: reported as aborted, directions untouched |
| QuicGroup.Streams.CloseConnection | src/protocol/quic/quic.c:1495-1543 | lands on the whole state the specification gives for this event, with the FIN that CloseSendsFinIff says |
| QuicGroup.Streams.Send | src/connection/connection.c:370-382 | lands on the whole state the specification gives for this event: refused when the send side is shut, which a final message does |
| QuicGroup.Streams.Clone | src/protocol/quic/quic.c:1584-1595 | lands on the whole state the specification gives for this event |
| QuicGroup.GroupEnds | src/protocol/quic/quic.c:502-557 | what the end of the QUIC connection does to any socket: nothing if no member is open; else every open member is reported once with what it is due and the socket is closed only if nobody else depends on it; on a socket being closed the waiting member closes it again |
| QuicGroup.GroupEndsKeepsIff | src/protocol/quic/quic.c:502-557 | the reports keep the socket manager's promise exactly if the socket is open or no member is |
| QuicGroup.OthersDependIff | src/protocol/quic/quic.c:502-526 | somebody else depends on the socket exactly if there are more open dependents than open members |
| QuicGroup.MembersToNotify | src/protocol/quic/quic.c:508-519 | the open members, in table order |
| QuicGroup.HandleClosedConnection | src/protocol/quic/quic.c:502-526 | makes one terminal callback by close for each member that was open at the start, in table order, and nothing else |
| QuicGroup.HandleAbortedConnection | src/protocol/quic/quic.c:528-557 | the same by abort |
| Demux.OneConnectionEach | src/protocol/udp/udp.c:82-126 | over every run two datagrams go to the same connection exactly if they come from the same address and its family is known |
| Demux.NoFamilyNoRoute | src/protocol/udp/udp.c:82-126 | two datagrams from an address of no known family get two connections |
| Demux.TableIsOneToOne | src/connection/socket_manager/socket_manager.c:78-105 | no two addresses share a connection and no two connections an address of a known family |
| Demux.EverySenderIsServed | src/protocol/udp/udp.c:82-126 | at an open listener every datagram is delivered, and the connections are for the different senders in the order they were first heard of |
| Demux.DeliveredAsTold | src/protocol/udp/udp.c:82-126 | over every run, with a listener or without, read off the events alone: which connections were made for which addresses, which datagrams were delivered and to which of them |
| Demux.HasConnectionIff | src/protocol/udp/udp.c:82-126 | an address has a connection exactly if a client connected to it or it sent something to a listener that was still open |
| Demux.ClientHears | src/protocol/udp/udp.c:82-126 | the concrete run on which a client without a listener hears its server |
| Demux.RunKeeps | src/protocol/udp/udp.c:82-126 | the table has exactly the connections of known addresses, each under its own |
| Demux.Socket.GetFromDemuxTable | src/connection/socket_manager/socket_manager.c:15-38 | the connection of a known address |
| Demux.Socket.InsertDemuxedConnection | src/connection/socket_manager/socket_manager.c:78-105 | enters unless the family is unknown or the address is taken |
| Demux.Socket.MultiplexReceivedMessage | src/protocol/udp/udp.c:82-126 | refines the model's datagram: delivered exactly if the listener is open or a connection was made for its address, to such a connection; one is made exactly if the address is unmapped and the listener open |

## Left out

- libuv handles, sockets, DNS, TLS and the inside of picoquic: they appear as events with a stated contract (the `Enabled` predicates): a timer does not fire early, a connection of the race makes one terminal report, the next local stream is unused.
- Failing allocations and most roll-back code.
- Initial messages, early data, 0-RTT tickets, framers, message contexts, and receive callbacks that are null.
- What an application does inside a callback, except asking for more messages: in particular freeing the connection it was called for.
- Property getters and setters made by macros, priorities, certificates, logging, UUIDs (taken as unique), library start and stop.
- The raw bytes of socket addresses: padding and flow information do not exist in the model, so two addresses are equal when family, address, port and scope are.
- GLib's containers and sort: lists, tables, trees, level-order traversal and the sort behave as documented; a table is walked in an arbitrary order.
- The tree is a value that methods replace, not nodes linked by pointers; nodes are named by their position when made, so aliasing between nodes is not modelled.
- The loop that starts resolutions is modelled one turn at a time (`StartResolution`) against a queue of resolutions in the loop's order; that the turns are taken in that order is part of the model's run, not of a method.
- GatherContext.Context.BuildPathsAndProtocols: for no local endpoint at all the model has no leaf, where the source takes the root for one and then asserts that it is a path (candidate_gathering.c, lines 529 and 647); the protocol registry is not empty, as the source asserts.
- Probing of all paths and path suspension.
- Freeing a member of a QUIC group while its streams still deliver, and freeing a UDP connection while its address is in the table: the source keeps the stale entry, so routing is stated for runs before that.
- Aborting a single QUIC stream from this side, which marks the connection as closed and tells nobody (quic.c, lines 1545-1580): no event of SocketModel does that, so `ToldExactlyOnce` does not cover it; like a RESET from the peer, it changes no direction.
- The receive path of UDP sockets that never had a listener is not a method of its own: it is the demultiplexer with the listener closed.
- The entry of a UDP client connection into the table is an event of Demux, not part of Lifetimes.
