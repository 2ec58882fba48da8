# Proofs about the server, the packet generator and the tree viewers

Dafny models of the portfolio's working parts, with proofs of what they keep and what they compute. Check the whole
project with `dafny verify dfyconfig.toml`.

**Trees.** `RbTree` is the red-black tree with its insertion and deletion loops; `SortedEntries` says what a tree means
(a sorted list of entries with counts) and what histories of operations leave in it. `RbViewer` and `BstViewer` are the
two layout engines, which share the planarity theorem of `Geometry`: edges between neighbouring levels cross nowhere if
every fork separates its two sides.

**Sessions.** `SessionMachine` gives the steps of the accept thread and of any number of workers, one for each block
under a mutex and one for each unlocked access, foreign calls turning out either way. `SessionSafety` and
`SessionBooks` hold in every interleaving: what belongs to which session, reference counts and mutexes, no deadlock and
no leaked session. Four results on all runs have an exact condition: `SessionIds` says when every id is accounted for,
`SessionDirectory` (on the invariants of `SessionRegular`) when the user directory agrees with the sessions,
`SessionIncarnations` when echoes return to the connection they came from, and `SessionLeftovers` when a slot's sending
flag is lost for good. `SessionConservation` and `SessionCleanRuns` are about the clean runs, in which a failed
association finds its session active and unreferenced: there nothing but an early read of a user id goes wrong with
ids, echoes and users. `SessionRuns` has runs of the same machine in which each of the four goes wrong. `ServerSteps`
and `Server` have the operations as functions and as methods, proved to be what the machine does when one thread takes
their steps undisturbed, and `ServerAccounts` what they keep then. `Shutdown` is the stop protocol.

**Packets.** `PacketSheet` reads packet definitions from rows, `PacketText` prints the generated files, and
`PacketCode` gives the generated statements a meaning over the packet buffer of `CPacket.dfy`. `TextReading` and
`CppReading` are a reader of the generated text: what it makes of the files, character by character, are the makers and
dispatchers that `PacketCode` runs. `RingBuffer` refines a queue, and `Framing` cuts the received stream into messages.
The theorem `MessagesReachTheHandler` goes from the generated maker through any chunking of the stream to the handler.
`GeneratedCode` has the generated functions at work on a packet object, and `EndToEnd` the same way from sender to
handler on packet, queue and session objects.

Where documentation, tests and code disagree the model follows the code:

- `RBtree::Delete` returns, for a node with two children, the count of the next larger key, which has by then been
  copied into the node (`ReportsOwnCountIff`, `ReportOfSuccessor`).
- The recursive check in RBtreeTest.cpp that is meant to compare black heights adds nothing to the sums it compares; the
  property it is after is part of `RBtree.Valid`.
- The generator emits assignments to `Code` and `Type` of a header that, in the server's define.h, has `Len` alone; the
  makers kept with the server have those two lines commented out. Here only `Len` goes on the wire.
- The session processes every message under type 0, so only the first packet of the table is ever dispatched
  (`ReachesItsHandlerIff`).
- A received message is looked for only when more bytes than a header are there, so an empty message waits for the
  next byte (`WireIsCutIff`).
- `OnAccept` releases a session whose association failed without looking at its reference count; a worker left over
  from the slot's previous use can then cause a second release. Ids go wrong exactly when a session is cleared that is
  not active (`IdsAreAccountedIff`, `FreedTwice`).
- The receive is posted before the user is created, so a release can come before the user exists and leave the user
  behind. Users are lost exactly when a release reads the session's user id while `OnAccept` is between its receive and
  `SetUserId`, or a slot is initialised while its user is there, which takes an id freed twice (`DirectoryAgreesIff`,
  `CleanDirectoryAgreesIff`, `UserLeftBehind`).
- A worker goes on with the messages of a connection without asking whether the slot has been taken up again. An echo
  is put in the send queue of another connection exactly when that has happened (`EchoesReturnIff`, `EchoReachesNext`).
- `Session::Init` does not lower the sending flag. It is lost for the slot exactly when a send ends without `OnSend`
  lowering it: a completion without bytes, a failed WSASend, or an `OnSend` that has released the session or finds it
  inactive (`StuckIffFlagLost`, `StuckSlotReached`).
- `Stop` does not look at the result of posting a stop packet; if one is lost it never returns (`LostPostNeverEnds`).
- Copying a packet buffer copies as many bytes as are unread, but from the start, and keeps positions that may lie
  outside the destination (`CopyKeepsUnreadIff`).
- A received length above 1400, or of -1 or -2, takes the packet buffer out of its bounds (`PacketHoldsIff`).
- `MoveRear` and `MoveFront` by a negative number leave the array when they pass its start (`MovesBackIff`); no caller
  does that.

## Model

Rows about RBtree.h, Session.cpp, CPacket.h and CRingBuffer.cpp cite a file that declares, uses or promises the same
thing; the lines modelled are named in parentheses.

| member | source | states |
|---|---|---|
| Geometry.PlanarWhenForksSeparate | rb-tree-binary-tree/Tree-RB-tree/Tree-RB-tree/Tree-RB-tree.cpp:364-419 | for any drawing on levels whose forks separate their sides, two lines have in common only drawn nodes that are ends of both; used for both viewers |
| Geometry.IncreasingSeparates | rb-tree-binary-tree/Tree-RB-tree/Tree-RB-tree/Tree-RB-tree.cpp:385-388 | an x that increases in in-order makes every fork separate its sides |
| Geometry.OneLineToEachNode | rb-tree-binary-tree/Tree-RB-tree/Tree-RB-tree/Tree-RB-tree.cpp:402-416 | in both viewers' line lists the drawn nodes other than the root are the lower ends of the lines, one each |
| RbViewer.Viewer.CalculateTree | rb-tree-binary-tree/Tree-RB-tree/Tree-RB-tree/Tree-RB-tree.cpp:364-419 | the cursor recursion appends the in-order node list and the line list of the functional layout and moves the cursor 25 for each entry; -1 only for the empty tree |
| RbViewer.Viewer.Paint | rb-tree-binary-tree/Tree-RB-tree/Tree-RB-tree/Tree-RB-tree.cpp:249-258 | after the calculation phase the two lists are those of the drawing that starts at 100, 120, whatever they held before |
| RbViewer.CursorAccounting | rb-tree-binary-tree/Tree-RB-tree/Tree-RB-tree/Tree-RB-tree.cpp:253-258 | entry k stands at 100 + 25k and the root at height 120; n nodes give n entries and n-1 lines, or 2n+1 and 2n in nil mode; every entry but the root starts exactly one line, which ends at a drawn node 75 above |
| RbViewer.DrawingIsPlanar | rb-tree-binary-tree/Tree-RB-tree/Tree-RB-tree/Tree-RB-tree.cpp:364-419 | in both modes and for every tree, lines meet only at drawn nodes that are ends of both |
| RbViewer.NilModeRefinesPlain | rb-tree-binary-tree/Tree-RB-tree/Tree-RB-tree/Tree-RB-tree.cpp:377-400 | without the nil entries the nil-mode list has the keys, colors and heights of the plain list, entry k moving from 100 + 25k to 100 + 25(2k+1) |
| RbViewer.KeysIncreaseLeftToRight | rb-tree-binary-tree/Tree-RB-tree/Tree-RB-tree/Tree-RB-tree.cpp:372-400 | for a search tree the drawn keys increase strictly from left to right in both modes |
| RbViewer.ColorsAreDrawn | rb-tree-binary-tree/Tree-RB-tree/Tree-RB-tree/Tree-RB-tree.cpp:377-400 | in numbers, in both modes: the k-th node has color 0 if it is black and 1 if it is red; color 100, with key 0, stands at every other entry of nil mode, from the first, and nowhere else (RBtree.h 11-15) |
| RbViewer.DrawingDeterminesTree | rb-tree-binary-tree/Tree-RB-tree/Tree-RB-tree/Tree-RB-tree.cpp:364-400 | a decoder that sees only list order, y, key and color number rebuilds exactly the tree that was laid out, black nodes black and red ones red, in either mode |
| BstViewer.Viewer.CalculateTree | rb-tree-binary-tree/Tree-binary-tree/Tree-binary-tree/Tree-binary-tree.cpp:298-324 | the recursion appends the pre-order node list and the line list of the layout that halves the distance at each level |
| BstViewer.Viewer.Paint | rb-tree-binary-tree/Tree-binary-tree/Tree-binary-tree/Tree-binary-tree.cpp:216-223 | the lists become those of the drawing with root distance 330; without a root they stay |
| BstViewer.ReachBound | rb-tree-binary-tree/Tree-binary-tree/Tree-binary-tree/Tree-binary-tree.cpp:305-307 | w + w/2 + w/4 + ... never exceeds 2w - popcount(w), and equals it exactly from as many terms on as w has binary digits |
| BstViewer.Extent | rb-tree-binary-tree/Tree-binary-tree/Tree-binary-tree/Tree-binary-tree.cpp:305-323 | in trees of any depth every node stands within 2w - popcount(w) of the root |
| BstViewer.ExtentIsTight | rb-tree-binary-tree/Tree-binary-tree/Tree-binary-tree/Tree-binary-tree.cpp:305-323 | some tree reaches that bound, and none with at most as many levels as w has binary digits |
| BstViewer.OrderedIffShallow | rb-tree-binary-tree/Tree-binary-tree/Tree-binary-tree/Tree-binary-tree.cpp:309-322 | x increases strictly in in-order if and only if the tree has at most one level more than w has binary digits |
| BstViewer.KeysAreDrawn | rb-tree-binary-tree/Tree-binary-tree/Tree-binary-tree/Tree-binary-tree.cpp:298-304 | the node list shows the keys of the tree in pre-order, and by column order its keys in in-order, all with color -1 |
| BstViewer.KeysIncreaseLeftToRight | rb-tree-binary-tree/Tree-binary-tree/Tree-binary-tree/Tree-binary-tree.cpp:298-324 | in a search tree with at most one level more than w has binary digits, of two drawn nodes the one further left has the smaller key |
| BstViewer.PlanarIffForksWide | rb-tree-binary-tree/Tree-binary-tree/Tree-binary-tree/Tree-binary-tree.cpp:298-324 | the drawing is planar if and only if every node with two children is less deep than w has binary digits |
| BstViewer.StartingWidth | rb-tree-binary-tree/Tree-binary-tree/Tree-binary-tree/Tree-binary-tree.cpp:223 | for 330: the root is drawn first, at the given x and height 50, with its key; in order iff at most ten levels, planar iff no fork at depth nine or more, no node further than 656 from the root |
| BstViewer.LinesComeFromAbove | rb-tree-binary-tree/Tree-binary-tree/Tree-binary-tree/Tree-binary-tree.cpp:305-323 | every node but the root is the lower end of one line, which comes from a drawn node 75 above |
| RbTree.RBtree.Insert | rb-tree-binary-tree/README.md:3-4 | keeps the red-black conditions, the key order and the node count; the entries become the old ones with the key inserted in order, or its count raised by one (RBtree.h 92-178) |
| RbTree.RBtree.Delete | rb-tree-binary-tree/README.md:3-4 | keeps the same; the entries become the old ones without the key; returns 0 for an absent key, else the count described by DeleteReport (RBtree.h 181-269) |
| RbTree.Search | rb-tree-binary-tree/README.md:3-4 | ends at the node with the key or at the empty place between its neighbours, with the rest of the tree on the path (RBtree.h 189-201) |
| RbTree.Successor | rb-tree-binary-tree/README.md:3-4 | ends at the smallest entry of the right subtree, reached by left turns only (RBtree.h 209-215) |
| RbTree.ReplaceBySuccessor | rb-tree-binary-tree/README.md:3-4 | moving the next larger entry up and removing its node removes exactly the deleted key; returns that entry's count (RBtree.h 209-238) |
| RbTree.ReplaceByChild | rb-tree-binary-tree/README.md:3-4 | replacing a node by its only child removes exactly its key; returns its count (RBtree.h 240-268) |
| RbTree.RedBlackBalancing | rb-tree-binary-tree/README.md:3-4 | from a tree one black node short at the focus, the loop ends with a red-black tree of the same entries (RBtree.h 351-424) |
| RbTree.RecolorUncle | rb-tree-binary-tree/README.md:51 | insertion case 1 moves the only red-red conflict two levels up and changes no entry (RBtree.h 136-144) |
| RbTree.TurnOutwards | rb-tree-binary-tree/README.md:51 | insertion case 2 keeps the conflict and makes it an outer one, without changing an entry (RBtree.h 146-158) |
| RbTree.RotateGrandparent | rb-tree-binary-tree/README.md:51 | insertion case 3 ends the conflict and restores all conditions (RBtree.h 159-168) |
| RbTree.RotateRedSibling | rb-tree-binary-tree/README.md:51 | deletion case 3 keeps the tree one black node short at the same child and gives it a black sibling (RBtree.h 376-386) |
| RbTree.PaintSibling | rb-tree-binary-tree/README.md:51 | deletion case 4 moves the missing black node to the parent (RBtree.h 388-394) |
| RbTree.RotateSibling | rb-tree-binary-tree/README.md:51 | deletion case 5 keeps the deficiency and makes the outer nephew red (RBtree.h 399-409) |
| RbTree.RotateParent | rb-tree-binary-tree/README.md:51 | deletion case 6 restores all conditions (RBtree.h 411-422) |
| RbTree.ReportsOwnCountIff | rb-tree-binary-tree/README.md:3-4 | Delete reports the deleted key's own count if and only if the node lacks a child or the next larger key has the same count (RBtree.h 217-237) |
| RbTree.ReportOfSuccessor | rb-tree-binary-tree/README.md:3-4 | a red-black tree in which deleting a key inserted once reports 2 (RBtree.h 217-237) |
| RbTree.DepthIsLogarithmic | rb-tree-binary-tree/README.md:57-59 | a red-black tree of n nodes has at most 2 log2(n+1) levels (RBtree.h 92-178) |
| RbTree.TreeIsShallow | rb-tree-binary-tree/README.md:57-59 | for a valid tree object, 2 to the number of levels is at most the square of its counter plus one (RBtree.h 92-178) |
| SortedEntries.CountsFollowHistory | rb-tree-binary-tree/README.md:3-4 | after any run of insertions and deletions keys are sorted and distinct, each key's count is the number of its insertions since its last deletion, and its value what the first of these stored (RBtree.h 92-269) |
| RbTree.Replay | rb-tree-binary-tree/README.md:3-4 | a tree object taken through any operations is a valid red-black tree with the entries of that history: keys, counts and stored values (RBtree.h 92-269) |
| SortedEntries.InsertElsewhere | rb-tree-binary-tree/README.md:3-4 | inserting one key changes neither presence, count nor value of another (RBtree.h 106-119) |
| SortedEntries.DeleteElsewhere | rb-tree-binary-tree/README.md:3-4 | deleting one key changes neither presence, count nor value of another (RBtree.h 181-269) |
| SessionMachine.StepStaysInRange | iocp-chatting-server/NetLib/SessionManager.cpp:50-56 | no step of any thread puts an id out of range of the session table anywhere |
| SessionSafety.EchoStaysOnItsSession | iocp-chatting-server/Contents/ContentsProcess.cpp:7-15 | in every state of every interleaving: an echo received on a slot was dropped or sent on that slot; a slot's user id is out of use or its record names that slot; ids used as indices are in range |
| SessionSafety.StepKeepsAgreement | iocp-chatting-server/Contents/Lobby.cpp:22-55 | the inductive form: one step of any thread keeps the agreement of slots, directory, threads and sent echoes |
| SessionBooks.RunsKeepBooks | iocp-chatting-server/NetLib/Session.h:58-64 | in every state of every run: a session's reference count is the number of its outstanding requests and of references held by threads, and its mutex, when held across steps, is held by exactly one thread (Session.cpp 54-120, 208-234) |
| SessionBooks.NoDeadlock | iocp-chatting-server/NetLib/Session.h:64 | in every state with these books, so in every run: a thread inside an operation can take its next step, or it waits for a mutex whose holder can |
| SessionBooks.NoSessionLeaks | iocp-chatting-server/NetLib/Session.h:57-60 | in every run, whenever no operation is under way: an active session has a receive outstanding, or a requested disconnect and a send outstanding, so a completion that carries it on or can release it is still to come (Session.cpp 122-184, 208-234) |
| SessionBooks.StepKeepsBooks | iocp-chatting-server/NetLib/Session.h:58-64 | the inductive form: one step of any thread keeps the books of every session (Session.cpp 54-120, 208-234) |
| SessionRegular.RunsAreRegular | iocp-chatting-server/NetLib/LanServer.cpp:208-223 | in every state of every run: a session under release is not referred to, unless it is the accept thread that releases it; an inactive session that is referred to has no user id; the session OnAccept works on has no user id, and it is active and unlocked while its receive is posted |
| SessionIds.StepAccountsIff | iocp-chatting-server/NetLib/SessionManager.cpp:38-46 | from a state in which every id is exactly once free, held by a thread or in use, any step keeps that if and only if it does not clear a session that is not active |
| SessionIds.IdsAreAccountedIff | iocp-chatting-server/NetLib/SessionManager.cpp:30-48 | in every run: each id is always exactly once free, held or in use if and only if no step so far has cleared a session that was not active |
| SessionIds.FreeIdsAreClear | iocp-chatting-server/NetLib/SessionManager.cpp:92-110 | where ids are accounted for, none is on the free stack twice, and a free id names an inactive session no thread is claiming or freeing |
| SessionIds.CleanRunsClearOnce | iocp-chatting-server/NetLib/LanServer.cpp:212-216 | runs in which every failed association finds its session active and unreferenced never clear an inactive session, so all ids stay accounted for |
| SessionIds.UncleanReleaseBreaks | iocp-chatting-server/NetLib/LanServer.cpp:212-216 | from balanced accounts, any other release after a failed association, left undisturbed, ends with the freed session still referred to or with its id free or held twice |
| SessionConservation.StepConservesIffClean | iocp-chatting-server/NetLib/LanServer.cpp:212-216 | the joint accounts of references, mutexes and ids, which include that a session under release is active and unreferenced, are kept exactly by the steps that do not release a referenced or inactive session after a failed association; the ids by themselves are in SessionIds |
| SessionCleanRuns.IdsAreConserved | iocp-chatting-server/NetLib/SessionManager.cpp:30-48 | in clean runs, besides, a free id names a session without references, outstanding requests or a held mutex |
| SessionCleanRuns.ReleaseOncePerAllocation | iocp-chatting-server/NetLib/Session.h:59-60 | in clean runs a release starts only on an active session whose mutex is free and whose count has reached 0, with no other release in flight (Session.cpp 213-234) |
| SessionIncarnations.EchoesReturnIff | iocp-chatting-server/NetLib/Session.h:43 | in every run: all echoes were put in the send queue of the connection their message came in on, the same slot and the same use of it, if and only if no worker sent one after the slot was initialised again since that message's receive (Session.cpp 15-41, 122-157, 191-206) |
| SessionIncarnations.StaleIffOutlived | iocp-chatting-server/NetLib/Session.h:71-72 | in every state of every run: the connection a thread handles is not its slot's current one if and only if the slot was initialised while the thread handled it (Session.cpp 15-41) |
| SessionIncarnations.CleanRunsOutliveNothing | iocp-chatting-server/NetLib/LanServer.cpp:212-216 | in runs in which every failed association finds its session active and unreferenced no slot is initialised while a thread handles a connection of it, so all echoes return |
| SessionDirectory.DirectoryAgreesIff | iocp-chatting-server/NetLib/LanServer.cpp:218-223 | in every run, whenever no operation is under way: users and sessions with a user are in bijection with matching ids both ways if and only if no release so far read the user id of a session that OnAccept was about to name, and no slot was initialised while its user was in the directory |
| SessionDirectory.LostStays | iocp-chatting-server/Contents/Lobby.cpp:50-55 | once a user nobody will erase is in the directory, or about to be created, there is one after every further step of any thread |
| SessionDirectory.MatchingOrLost | iocp-chatting-server/NetLib/LanServer.cpp:218-223 | in every state of every run, in the middle of operations too: if no user has been lost directory, sessions and threads match, and otherwise a user nobody will erase is there or about to be |
| SessionDirectory.OnlyEarlyReadsLose | iocp-chatting-server/NetLib/SessionManager.cpp:38-46 | in every run that clears no inactive session, no user is lost if and only if no release read the user id of a session OnAccept was about to name |
| SessionDirectory.CleanDirectoryAgreesIff | iocp-chatting-server/NetLib/LanServer.cpp:218-223 | so in runs in which every failed association finds its session active and unreferenced, the directory agrees if and only if there was no such read |
| SessionLeftovers.SlotAfterStep | iocp-chatting-server/NetLib/Session.h:90 | after any step at most one send is under way on a slot, with the flag up; the slot is stuck (flag up, no send under way) if and only if it was, or this step ends a send without lowering the flag (Session.cpp 86-120, 167-184, 213-222) |
| SessionLeftovers.StuckIffFlagLost | iocp-chatting-server/NetLib/Session.h:90 | in every run a slot is stuck if and only if some step so far ended a send of it without lowering the flag (Session.cpp 15-41, 86-120, 167-184) |
| SessionLeftovers.StuckForGood | iocp-chatting-server/NetLib/Session.h:90 | in every run, on a stuck slot no send is ever outstanding again, through all its later uses (Session.cpp 86-120) |
| SessionRuns.UserLeftBehind | iocp-chatting-server/NetLib/LanServer.cpp:218-223 | a run in which no association fails, with a read that is too early, that ends with no operation under way and a user whose session is gone |
| SessionRuns.StuckSlotReached | iocp-chatting-server/NetLib/Session.h:90 | a run that ends with a stuck slot (Session.cpp 86-120) |
| SessionRuns.FreedTwice | iocp-chatting-server/NetLib/LanServer.cpp:212-216 | a run that clears a session twice and ends with its id on the free stack twice |
| SessionRuns.EchoReachesNext | iocp-chatting-server/NetLib/LanServer.cpp:212-216 | a run in which an echo for one connection is put in the send queue of the next one on the same slot |
| ServerSteps.ReleasedAlone | iocp-chatting-server/NetLib/SessionManager.cpp:30-48 | the four steps of a release, alone, clear the slot, erase its user and return its id |
| ServerSteps.PostedAlone | iocp-chatting-server/NetLib/Session.h:37-38 | PostRecv and PostSend alone: refused with no change, or posted with a reference held, or failed and released (Session.cpp 54-120) |
| ServerSteps.EchoAlone | iocp-chatting-server/Contents/ContentsProcess.cpp:7-15 | the machine's echo steps, alone, are the method's lookup, dropped echo or send |
| ServerSteps.SendDoneAlone | iocp-chatting-server/NetLib/Session.h:41 | the machine's steps after a send completes are OnSend (Session.cpp 167-184) |
| ServerSteps.ReceiveDoneAlone | iocp-chatting-server/NetLib/Session.h:40 | the machine's thread, alone, with a script of as many messages as there are answers, takes each as its answer says, gives up its reference, posts the next receive and ends with the tables of ReceiveDone (Session.cpp 122-165) |
| ServerSteps.NextReceiveIsPosted | iocp-chatting-server/NetLib/Session.h:40 | after the messages of a session that is not released the next receive is outstanding (Session.cpp 158-164) |
| ServerSteps.NextSendGoesOut | iocp-chatting-server/NetLib/Session.h:41 | when a send completes and the session is not released, the next one is outstanding with the flag up if bytes are queued and the system takes it, and the flag is down without bytes (Session.cpp 167-184) |
| ServerSteps.PacketGoesOut | iocp-chatting-server/NetLib/Session.h:43 | SendPacket does nothing on an inactive session, requests the disconnect of one without room, else records the packet and, with no send under way that is taken, has one outstanding with the flag up (Session.cpp 191-206) |
| ServerSteps.EndIsUnique | iocp-chatting-server/NetLib/LanServer.cpp:88-122 | a lone worker's script determines the tables it ends with |
| ServerSteps.CompletedAlone | iocp-chatting-server/NetLib/LanServer.cpp:88-122 | from where the machine's dequeue of a completion takes a worker it comes, alone, to its end with the tables of Completed: for no bytes, a send, a receive with any number of messages, or one the queue does not take |
| ServerSteps.ZeroEndsConnection | iocp-chatting-server/NetLib/LanServer.cpp:102-106 | a completion without bytes releases the session at the last reference, with its user erased and its id on top of the free stack; otherwise the disconnect is requested |
| ServerSteps.AcceptedAlone | iocp-chatting-server/NetLib/LanServer.cpp:201-224 | the machine's steps from the id's pop to the end are OnAccept, for each outcome of association and receive |
| ServerAccounts.AcceptedKeeps | iocp-chatting-server/NetLib/LanServer.cpp:201-224 | OnAccept alone, for each outcome of the foreign calls: ids stay exactly once free or in use, the directory agrees with the sessions, and every session in use has its user if it was so before |
| ServerAccounts.AcceptOutcome | iocp-chatting-server/NetLib/LanServer.cpp:201-224 | what OnAccept leaves: nothing changed without a free id; the id back on top and no user if association or receive fail; else one receive outstanding, the next user id in session and directory |
| ServerAccounts.ReleasedKeeps | iocp-chatting-server/NetLib/SessionManager.cpp:30-48 | the same for the release of an active session nobody refers to |
| ServerAccounts.UnicastKeeps | iocp-chatting-server/Contents/Lobby.cpp:22-40 | the same for an echo; of a session with its user it is recorded exactly if there is room, on the session it was received on and for its current connection, and else the disconnect is requested |
| ServerAccounts.PostedKeeps | iocp-chatting-server/NetLib/Session.h:37-38 | the same for a post, which gains or gives up exactly its own reference (Session.cpp 54-120) |
| ServerAccounts.SendDoneKeeps | iocp-chatting-server/NetLib/Session.h:41 | the same for a completed send, which gives back the reference it holds (Session.cpp 167-184) |
| ServerAccounts.ReceiveDoneKeeps | iocp-chatting-server/NetLib/Session.h:40 | the same for a completed receive with any number of messages, which gives back its reference; when all sessions have their users the log grows by exactly one echo for each message with room, all of and to the session itself (Session.cpp 122-165) |
| ServerAccounts.AllCompletedKeeps | iocp-chatting-server/NetLib/LanServer.cpp:88-122 | the same for any sequence of completions a worker takes by itself: ids, directory, service of all sessions, and every echo with its sender |
| ServerAccounts.AcceptAtRest | iocp-chatting-server/NetLib/LanServer.cpp:201-224 | wherever the machine's accept thread comes to rest by itself, it is idle and the tables are sound and served |
| ServerAccounts.EchoAtRest | iocp-chatting-server/Contents/ContentsProcess.cpp:7-15 | wherever a worker comes to rest by itself after an echo, the tables are sound and the echo went to its own session, if anywhere |
| ServerAccounts.SendAtRest | iocp-chatting-server/NetLib/Session.h:41 | wherever a worker comes to rest by itself after a completed send, its reference is given back and the tables are sound (Session.cpp 167-184) |
| ServerAccounts.ReceiveAtRest | iocp-chatting-server/NetLib/Session.h:40 | wherever a worker comes to rest by itself after a completed receive, its reference is given back, the tables are sound and exactly the messages with room have been answered (Session.cpp 122-165) |
| Server.SessionManager.constructor | iocp-chatting-server/NetLib/SessionManager.cpp:22-28 | the two filling loops produce the machine's initial tables, with the ids from 0 up on the free stack |
| Server.SessionManager.GetIdLock | iocp-chatting-server/NetLib/SessionManager.cpp:92-104 | none exactly if the stack is empty, else the top is taken off |
| Server.SessionManager.CreateSession | iocp-chatting-server/NetLib/SessionManager.cpp:9-20 | no session, and no change, exactly if no id is free; else the slot of the top id is initialised; ids and directory stay sound |
| Server.SessionManager.DisconnectSession | iocp-chatting-server/NetLib/SessionManager.cpp:30-48 | erases the session's user, clears it and frees its id, and keeps ids and directory sound when the session was active and unreferenced |
| Server.SessionManager.DecrementRefCount | iocp-chatting-server/NetLib/Session.h:59 | releases, and says so, exactly if a disconnect was requested and this was the last reference (Session.cpp 213-222) |
| Server.SessionManager.DecrementRefCountAndRelease | iocp-chatting-server/NetLib/Session.h:60 | releases at the last reference, else requests the disconnect (Session.cpp 224-234) |
| Server.SessionManager.PostRecv | iocp-chatting-server/NetLib/Session.h:37 | succeeds exactly on an active session whose receive is taken; refines Posted (Session.cpp 54-84) |
| Server.SessionManager.PostSend | iocp-chatting-server/NetLib/Session.h:38 | succeeds exactly on an active session not already sending whose send is taken; refines Posted (Session.cpp 86-120) |
| Server.SessionManager.SendPacket | iocp-chatting-server/NetLib/Session.h:43 | refines PacketSent: dropped, disconnect requested when the queue is full, or recorded and posted (Session.cpp 191-206) |
| Server.SessionManager.OnSend | iocp-chatting-server/NetLib/Session.h:41 | refines SendDone (Session.cpp 167-184) |
| Server.SessionManager.OnRecv | iocp-chatting-server/NetLib/Session.h:40 | refines ReceiveDone, or the release of its reference when the queue takes nothing in; from sound tables with all users there the reference is given back and exactly one echo is recorded for each message with room, on the session itself (Session.cpp 122-165) |
| Server.SessionManager.ChatUnicast | iocp-chatting-server/Contents/Lobby.cpp:22-40 | refines Unicast: unknown users and inactive sessions change nothing |
| Server.SessionManager.OnEcho | iocp-chatting-server/Contents/ContentsProcess.cpp:7-15 | nothing on an inactive session, else the unicast to the session's user; from sound tables at most one echo is sent, on the same session |
| Server.Lobby.CreateUser | iocp-chatting-server/Contents/Lobby.cpp:42-48 | the new user gets the counter's value, which moves on; a record already under that id is kept |
| Server.LanServer.OnAccept | iocp-chatting-server/NetLib/LanServer.cpp:201-224 | computes Accepted for every outcome of the foreign calls, and keeps ids, directory and service of all sessions |
| Server.LanServer.WorkerThread | iocp-chatting-server/NetLib/LanServer.cpp:88-122 | one worker by itself hands every packet before the first stop packet to the operation for its kind and leaves those behind it; ids, directory, service and the way of echoes are kept |
| Server.LanServer.HandleCompletion | iocp-chatting-server/NetLib/LanServer.cpp:102-121 | one round of it refines Completed; without bytes the session is released at the last reference, user erased and id on top of the free stack, else its disconnect is requested |
| Shutdown.WorkersAndStopPackets | iocp-chatting-server/NetLib/LanServer.cpp:176-199 | in every run: no worker exits before Stop; each takes at most one stop packet; after posting, workers left = stop packets queued + posts lost; Stop returns only after all threads |
| Shutdown.StopEnds | iocp-chatting-server/NetLib/LanServer.cpp:78-122 | once all stop packets are queued the threads have a bounded number of steps left, whatever completions arrive, and while Stop has not returned one of them can be taken |
| Shutdown.PacketsUpToTheLastStop | iocp-chatting-server/NetLib/LanServer.cpp:88-122 | exactly the packets up to the last stop packet are dequeued before no worker is left |
| Shutdown.LostPostNeverEnds | iocp-chatting-server/NetLib/LanServer.cpp:194-199 | if a post fails, a worker is left in every later state and Stop never returns |
| Shutdown.LanServer.constructor | iocp-chatting-server/NetLib/LanServer.cpp:61-66 | the loop starts the machine's initial workers |
| Shutdown.PostsCount | iocp-chatting-server/NetLib/LanServer.cpp:194-199 | the posts queue nothing but stop packets, as many as succeed |
| Shutdown.FirstStopIsFound | iocp-chatting-server/NetLib/LanServer.cpp:96-98 | what a lone worker leaves behind its first stop packet is exactly the queue behind it |
| Shutdown.LanServer.CloseWorkerThreads | iocp-chatting-server/NetLib/LanServer.cpp:194-199 | appends one stop packet for each post that succeeds, behind what is queued, and nothing else |
| Shutdown.LanServer.WorkerThread | iocp-chatting-server/NetLib/LanServer.cpp:88-122 | one worker by itself takes exactly the packets up to the first stop packet and exits |
| Shutdown.LanServer.WaitingForMultiThreadEnd | iocp-chatting-server/NetLib/LanServer.cpp:176-187 | joining the accept thread and n workers one after another ends with all ended and the queue consumed through the n-th stop packet |
| Shutdown.LanServer.Stop | iocp-chatting-server/NetLib/LanServer.cpp:78-86 | when every post succeeds, all threads have ended and as many stop packets are taken as were posted |
| PacketSheet.PacketList.AddField | packet-code-generator/Program.cs:30-33 | adds a field to the current packet in place and leaves the others alone |
| PacketSheet.ProcessSheet | packet-code-generator/Program.cs:9-34 | appends to the list what the rows below the headings mean |
| PacketSheet.MeaningOfBoth | packet-code-generator/Program.cs:17-33 | two sheets one below the other: fields before the second's first case go to the first's last packet, all else is as read separately |
| PacketSheet.DistributesIff | packet-code-generator/Program.cs:23-33 | reading distributes over concatenation if and only if no field is carried over the seam, so in particular when the second part starts with a case row |
| PacketSheet.SheetIsReadBack | packet-code-generator/Program.cs:17-33 | any packet list with nonblank cells, written in any mixture of the two row layouts, is read back |
| PacketSheet.MeaningIsNonblank | packet-code-generator/Program.cs:23-33 | whatever is read from a sheet can be written as one |
| PacketCode.MakerWrites | packet-code-generator/CodeGenerator.cs:172-205 | the emitted maker leaves length and arguments in order and no error if and only if header and payload fit, whatever was in the buffer; else the full error |
| PacketCode.NamedWidths | util/Test/test_CPacket.cpp:30-45 | the types named by a number of bits take that many on the wire |
| PacketCode.EchoOnTheWire | iocp-chatting-server/Packet/PacketMaker_Auto.cpp:5-13 | the Echo maker leaves the two bytes 8 and 0 and then its 64-bit argument, whatever was in a buffer of ten bytes or more |
| PacketCode.LengthIsExact | packet-code-generator/CodeGenerator.cs:173-181 | the emitted Len, as a 16-bit number, is the number of bytes behind the header if and only if that is below 2^15, hence for the default buffer |
| PacketCode.ReaderInvertsMaker | packet-code-generator/CodeGenerator.cs:117-131 | the emitted dispatcher run on the maker's output past the header calls the handler once with the maker's arguments in order; bytes behind stay unread |
| PacketCode.ReaderErrorIff | packet-code-generator/CodeGenerator.cs:125-129 | the handler is called in any case, and the buffer's error says exactly whether the bytes sufficed |
| PacketCode.ReachesItsHandlerIff | packet-code-generator/CodeGenerator.cs:106-115 | a message of packet k processed under type t calls handler k with its arguments if and only if t is k |
| PacketText.CodeGenerator.GenerateMakerHeader | packet-code-generator/CodeGenerator.cs:136-156 | piece by piece it prints the lines of MakerHeader, which MakerHeaderIsReadBack reads |
| PacketText.CodeGenerator.GenerateMakerCpp | packet-code-generator/CodeGenerator.cs:158-214 | piece by piece it prints the lines of MakerCpp, which MakerCppIsReadBack reads |
| PacketText.CodeGenerator.GenerateProcessCpp | packet-code-generator/CodeGenerator.cs:86-134 | piece by piece it prints the lines of ProcessCpp, which ProcessCppIsReadBack reads |
| TextReading.MakerHeaderIsReadBack | packet-code-generator/CodeGenerator.cs:136-156 | the generated maker header, parsed, gives the two lines at its top and cases, types and names in order, for names free of the delimiters; types may be several words |
| CppReading.MakerCppIsReadBack | packet-code-generator/CodeGenerator.cs:158-214 | the generated makers, parsed from their text, are the includes and, for names free of the delimiters, the makers of the packets, numbered in order, statement by statement: running the parsed statements is RunMaker |
| CppReading.ProcessCppIsReadBack | packet-code-generator/CodeGenerator.cs:86-134 | the generated dispatch file, parsed from its text, is the lines at its top, a switch that sends type i to the dispatcher of the i-th packet and else only logs, and the dispatchers of the packets, statement by statement |
| CppReading.TextRunsProcess | packet-code-generator/CodeGenerator.cs:102-134 | running what the text of the dispatch file says, for any type and buffer, is Process |
| Bytes.DecodedEncoded | util/Test/test_CPacket.cpp:30-45 | little-endian bytes of a number that fits them give the number back (CPacket.h 236-282) |
| CPacketBuffer.CPacket.Clear | util/Test/test_CPacket.cpp:11-17 | empty again, error gone (CPacket.h 128-134) |
| CPacketBuffer.CPacket.PutData | util/Test/test_CPacket.cpp:57-67 | appends all bytes or, without room behind the write position, none and sets the full error; reading makes no room (CPacket.h 202-214, 236-248) |
| CPacketBuffer.PutIsLast | util/Test/test_CPacket.cpp:57-67 | what is written comes behind the unread bytes; what does not fit leaves them and the room as they are (CPacket.h 202-214, 236-248) |
| CPacketBuffer.CPacket.ShiftOut | util/Test/test_CPacket.cpp:72-81 | takes the next bytes or, if there are too few, leaves operand and position and sets the empty error (CPacket.h 270-282) |
| CPacketBuffer.GetIsFirst | util/Test/test_CPacket.cpp:72-81 | what is read is the first of the unread bytes; reading more than there are takes none and gives the operand back (CPacket.h 270-282) |
| CPacketBuffer.CPacket.GetData | util/Test/test_CPacket.cpp:19-28 | takes the next bytes or nothing, without an error (CPacket.h 189-200) |
| CPacketBuffer.CPacket.Receive | util/Test/test_CPacket.cpp:11-17 | bytes put at the start of an empty packet from outside, and the write position moved over them, are as if written (CPacket.h 136-145, Session.cpp 145-150) |
| CPacketBuffer.CPacket.MoveWritePos | util/Test/test_CPacket.cpp:11-17 | moves the write position by any size that leaves it at or before the end, a negative one included, else not at all; the packet stays valid exactly if it has not passed the read position (CPacket.h 136-145) |
| CPacketBuffer.CPacket.Assign | util/Test/test_CPacket.cpp:67-70 | self-assignment changes nothing; too small a destination gets the copy error; else positions and the first bytes are copied (CPacket.h 158-187) |
| CPacketBuffer.CopyKeepsUnreadIff | util/Test/test_CPacket.cpp:67-105 | for every destination the copy accepts: the unread bytes can be read from it, whatever it held, if and only if nothing was read yet, or nothing is left and the positions lie inside it (CPacket.h 158-187) |
| RingBuffer.CRingBuffer.Enqueue | iocp-chatting-server/NetLib/Session.h:82 | appends everything or, without room, nothing (CRingBuffer.cpp 39-49) |
| RingBuffer.CRingBuffer.Dequeue | iocp-chatting-server/NetLib/Session.h:81 | takes as many bytes as asked for or as there are off the front, and none for sizes below 1 (CRingBuffer.cpp 51-66) |
| RingBuffer.CRingBuffer.Peek | iocp-chatting-server/NetLib/Session.h:81 | gives the bytes Dequeue would and leaves the queue; returns a negative size as it is (CRingBuffer.cpp 99-114) |
| RingBuffer.CRingBuffer.MoveFront | iocp-chatting-server/NetLib/Session.h:81-82 | drops that many bytes or, if there are fewer, none (CRingBuffer.cpp 172-178) |
| RingBuffer.CRingBuffer.MoveRear | iocp-chatting-server/NetLib/Session.h:81 | moves the rear by what there is room for, or not at all (CRingBuffer.cpp 164-170) |
| RingBuffer.ScatterAppends | iocp-chatting-server/NetLib/Session.h:37 | filling the two stretches PostRecv hands out and moving the rear appends the bytes to the queue (Session.cpp 66-71, CRingBuffer.cpp 121-133) |
| RingBuffer.GatherIsQueue | iocp-chatting-server/NetLib/Session.h:38 | the two stretches PostSend hands out are the queue, in order (Session.cpp 98-104, CRingBuffer.cpp 143-154) |
| RingBuffer.CRingBuffer.Gather | iocp-chatting-server/NetLib/Session.h:38 | the bytes in the two stretches given to WSASend are the queue, and it is left as it is (Session.cpp 98-104) |
| RingBuffer.CRingBuffer.ClearBuffer | iocp-chatting-server/NetLib/Session.h:32 | the queue is empty afterwards, wherever its ends were (CRingBuffer.cpp 116-119) |
| RingBuffer.MovesBackIff | iocp-chatting-server/NetLib/Session.h:81-82 | moving an end back stays in the array if and only if it does not pass the start (CRingBuffer.cpp 164-178) |
| Framing.Session.Init | iocp-chatting-server/NetLib/Session.h:32 | a slot used again starts with an empty receive queue (Session.cpp 15-41) |
| Framing.Session.OnRecv | iocp-chatting-server/NetLib/Session.h:40 | hands on exactly the messages that are complete in queue plus new bytes and keeps the rest; fails without bytes; a blocked queue delivers nothing and stays blocked (Session.cpp 122-157) |
| Framing.ChunkingDoesNotMatter | iocp-chatting-server/NetLib/Session.h:40 | the messages taken and the bytes kept depend on the stream alone, not on how it is split (Session.cpp 134-156) |
| Framing.EveryByteIsUsed | iocp-chatting-server/NetLib/Session.h:40 | each message takes its header and payload, or its header alone when the length is negative, off the stream, and all bytes behind stay (Session.cpp 134-156) |
| Framing.WireIsCutIff | iocp-chatting-server/NetLib/Session.h:40 | a stream of messages shorter than 2^15 is taken completely if and only if the last has a payload; otherwise just that one waits (Session.cpp 134-156) |
| Framing.QueueBlockedIff | iocp-chatting-server/NetLib/Session.h:40 | whatever is left in the queue: no sequence of receives the queue has room for ever delivers another message if and only if the queue holds no more than a header, or the next message asks for more than it holds or for a length below -2, of which one byte of the header can be enough to tell; a full queue without a message is always in that case (Session.cpp 134-156) |
| Framing.PacketHoldsIff | iocp-chatting-server/NetLib/Session.h:40 | taking a message into a packet, by the count Dequeue takes and the position MoveWritePos moves to, stays inside its 1400 bytes if and only if the length is from 0 to 1400 (Session.cpp 143-150) |
| Framing.MessagesReachTheHandler | iocp-chatting-server/Packet/PacketProcess_Auto.cpp:11-25 | messages made for the first packet, sent in a row and received in any chunks, call its handler once each, in order, with the arguments they were made from (Session.cpp 122-189) |
| GeneratedCode.Make | iocp-chatting-server/Packet/PacketMaker_Auto.cpp:5-13 | the maker at work on a packet object leaves it as the printed statements say, whatever it held |
| GeneratedCode.Dispatch | iocp-chatting-server/Packet/PacketProcess_Auto.cpp:21-26 | the dispatcher at work on a packet object makes the one handler call, and leaves the packet, as the printed statements say |
| GeneratedCode.OnMessage | iocp-chatting-server/Packet/PacketProcess_Auto.cpp:12-26 | a payload of at most 1400 bytes put in a fresh packet and dispatched makes the calls that Process gives for type 0 (Session.cpp 145-151, 186-189) |
| EndToEnd.SendAll | iocp-chatting-server/Packet/PacketMaker_Auto.cpp:5-13 | packet objects filled by the maker and sent one after another give the stream that MessagesReachTheHandler speaks of |
| EndToEnd.ReceiveAll | iocp-chatting-server/Packet/PacketProcess_Auto.cpp:11-26 | a session object that takes in chunks up to an empty one, and hands each message to the dispatcher, makes the handler calls of the messages in the stream and keeps the bytes after the last (Session.cpp 122-189) |
| EndToEnd.Exchange | iocp-chatting-server/Packet/PacketProcess_Auto.cpp:11-26 | on the objects, from maker to handler: what was sent for a sequence of calls of the first packet, received in any chunks there is room for, makes exactly these calls in order (Session.cpp 122-189) |

## Left out

- Node pointers: a position in the red-black tree is a zipper value, and the red-black tree object holds a tree value;
  sharing of nodes, and the parent link that deletion writes into the common nil node, are not captured.
- Session objects are values in the manager's table and a session's own methods are methods of the manager that take its
  id; aliasing of sessions is not captured. `id_` is the index, since the only assignment gives it that value.
- What an echo says and the contents of send queues in the step machine; races on the receive queue are not modelled.
- The message loop of OnRecv appears twice: with its reference counting in SessionMachine and Server, with its bytes in
  Framing and EndToEnd; the two are not joined.
- What happens after a message has taken the packet buffer out of its bounds; Framing takes the bytes off the queue as
  the code does and goes no further.
- `userIdCount_`, `gen_` and the reference counts are unbounded here; with 32 bits they wrap around.
- Coordinates are unbounded; with 100 + 25(2n+1) below 2^31 they are the machine's numbers.
- GetValue, Find, GetSortedKeyArray and printing of the red-black tree, and the operations of BinaryTree.h: searches and
  walks that would add only easy members.
- Drawing on the screen, windows and controls, random insertion.
- Socket options, addresses, logging, configuration, the profiler, the object pool and the file parser.
- GenerateHandlerHeader and GenerateProcessHeader print declarations with the same loops; ToMacroStyle is not used by
  the generator.
- Reading the workbook and trimming cells; line ends of generated files are a single line feed here.
- Dispatchers of packets without fields: the generated call does not compile, which the statements of PacketCode do not
  show.
- Values are the bytes of the C++ objects; how numbers are laid out matters only for the length, in little-endian order.
- Shutdown.LanServer.WorkerThread: the dispatch by kind of completion is in Server.LanServer.WorkerThread, and workers
  side by side are in the machine above it; the method tells stop packets from others and runs one worker alone.
- Shutdown.LanServer.WaitingForMultiThreadEnd: runs the threads it joins one after the other; that it ends whatever the
  schedule is StopEnds.
- SessionConservation.StepConservesIffClean: its accounts include that a session under release is active and
  unreferenced, which the step itself settles; what the step leads to is UncleanReleaseBreaks.
