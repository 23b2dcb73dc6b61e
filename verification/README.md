# Verified model of the bulletin board

The system is a replicated bulletin board. Every node keeps a text file whose line k is `k/user/message`. A client
connects to any node and asks to READ, WRITE or REPLACE a line. WRITE and REPLACE are carried out by two-phase commit:
the node the client talks to becomes the master, one of its threads talks to each peer, every peer performs the
operation tentatively under its write lock and keeps or undoes it on the master's verdict, a timeout or a close.

The project models this from the bytes up and proves it with Dafny 4.11 (`dafny verify dfyconfig.toml`).

| file | what it models |
|---|---|
| `Text.dfy`, `Sums.dfy` | truncating formatted print, decimal numbers; sums over threads |
| `Utilities.dfy`, `Wire.dfy` | strtok tokenizing, message formatting; what the other side decodes from the bytes sent |
| `LineReader.dfy` | the line reader with its limit, its one-character residue and its poll-dependent swallowing of terminators |
| `PosixFile.dfy`, `FileOperations.dfy` | two descriptors on one file; the in-place editor, WRITE, REPLACE, READ and undo |
| `Boards.dfy`, `FileLines.dfy`, `Posts.dfy`, `Edits.dfy` | the same operations as functions on bytes; the file as lines; the file as a sequence of posts; any sequence of requests and undos |
| `ReadersWriterLock.dfy` | the write-preferring lock: its mutex regions and the system of any number of threads |
| `PeerCommunication.dfy`, `MasterThread.dfy` | the statistics shared by the master's threads; the thread that talks to one peer |
| `SyncServer.dfy`, `BoardServer.dfy` | the peer's session; the client's command |
| `TwoPhaseCommit.dfy` | one transaction of N master threads and N peers as a transition system |
| `TwoPhaseInvariants.dfy`, `TwoPhaseTheorems.dfy`, `TwoPhaseProgress.dfy` | its invariant; its safety over all runs; its progress, also with several controllers |
| `Schedules.dfy`, `Divergence.dfy` | runs by plan, for any number of peers: how transactions can end, and how replicas drift |
| `Replication.dfy`, `CutRequests.dfy`, `ReplicatedPosts.dfy` | any number of transactions in a row: replicas byte for byte, requests the wire cuts short, replicas that hold posts |

How the parts hang together. A method that changes state is proved to compute a function (`BulletinBoard.WriteOperation`
computes `Perform`, `SessionHandler.OnPacket` computes `Receive`, the methods of `PeerThread` take the steps of a master
thread in the transition system, the regions of `AccessData` compute the functions of the lock). The transition systems
take their steps with these same functions, so a statement about a run of `TwoPhaseCommit` is a statement about the bytes
those methods leave in the files. The operation a peer performs in a run is the one it decodes from the bytes the master
formats (`ConfigOf`). What is done in and under the write lock is recorded where it happens, in the ghost field `record`
of `AccessData`.

How the systems move. In the lock and in the two-phase commit a step is one stretch of code under the mutex, or one single
read without it. A waiter is asleep until a broadcast wakes it, may also wake up for no reason, and tests its condition
again when it runs. In two-phase commit recv_nonblock may time out at any moment; it returns 0 only when the other side has
closed and everything sent has been received. Waiting for the write lock is the subject of the lock system; elsewhere an
operation starts in the state in which that wait is over. Whether access() lets an operation through is decided anew at
every call. The undo closures are represented by what they capture (`Undo`). The outcomes of the zero-timeout polls of the
line reader are an input, and so is everything else the environment decides.

Where the code does not keep a promise, the exact condition is proved:

- WRITE appends a post iff its line with the newline has at most 254 characters (`WriteAppends`). A longer line is cut off
  (`BytesAfterWrite`); it still counts and reads as a post (`CounterRecoveredAfterWrite`, `ReportedWriteReads`).
- An accepted REPLACE stops the program iff the message it overwrites consists of slashes (`RunnableOnPosts`; after
  `WRITE /`, the request `REPLACE 0/x`: `SlashMessageStops`).
- Otherwise it updates one post iff the new line has fewer than 255 characters (`ReplaceUpdates`). A longer line reads as
  several lines, and every later post moves behind its number (`LongLineShifts`; user `u...u` of 20 characters and
  `REPLACE 0/x...x` with 240: `LongReplaceShifts`).
- Undoing a REPLACE restores the file iff the old message has no slash and the new line with its newline has at most 256
  characters (`UndoOfReplaceRestores`). Undoing a WRITE always does.
- Over any sequence of requests and undos the file holds the posts throughout iff each request that stays and each that is
  taken back is within those limits (`EveryStateHolds`).
- A peer decodes the name and the operation the master performs iff nothing but blanks is cut off in the 255-byte buffer
  (`RequestOnTheWire`). A request cut short has the same effect on the peers iff it is a WRITE whose line the buffer for
  lines cuts even earlier (`SameEffectExactly`).
- An accepted request stops a node iff it overwrites a message made of slashes or its text begins behind the first 242
  characters of the command (`StopsNobodyExactly`; `WRITE`, 240 blanks and `x`: `LateArgumentStops`). Then every peer reads
  past its tokens.
- READ checks its number before it waits. When an undo takes the post back meanwhile, the answer is the last post there is
  (`StaleReadAnswersLastPost`), or what is in the buffer if none is left (`ReadMessage`).
- The README of the repository (point 10) says that any run of CR and LF is one line terminator; it is iff every byte of
  the run is there when it is polled for and the line leaves room in the buffer (`RunIsOneTerminator`); a line of exactly
  255 characters is followed by an empty one in every case (`FullLineThenEmptyLine`). A stream can lose its last character
  iff that character is no terminator and follows one, whatever the buffer size above 1 (`ResidueLostAtEnd`).
- A peer that times out waiting for the verdict undoes a change the master has committed, as `protocol2pc.txt:70` admits;
  any set of peers can (`LateVerdictDiverges`). A peer keeps the change iff the master committed and the peer did not time
  out there (`KeptIffNoTimeout`).
- Without such timeouts, for any number of peers, all runs of a transaction leave all replicas equal iff the request
  stores the same line everywhere and can be undone (`RequestKeepsEqual`): nothing relevant is cut off on the wire, and a
  REPLACE does not overwrite a message with a slash or write a line of more than 256 characters. Over any list of
  requests, whichever transactions commit, all replicas stay equal and hold the posts iff each request is within these
  limits and its line fits (`ReplicasHoldPosts`). Replacing the message `a/b` is not (`SlashRequest`, `AbortDiverges`).

## Model

| member | source | states |
|---|---|---|
| Utilities.Tokenize | utilities.cpp:9-23 | the strtok_r loop returns the maximal delimiter-free pieces in order |
| Utilities.TokensOfJoin | utilities.cpp:9-23 | tokenizing inverts joining of non-empty delimiter-free tokens |
| Utilities.TokensKeepText | utilities.cpp:9-23 | the tokens put together are the text without its delimiters |
| Utilities.TokensOfPrefix | utilities.cpp:9-23 | cutting a tail off keeps the tokens iff the tail is all delimiters |
| Utilities.TokensOfCut | utilities.cpp:9-23 | cutting any tail off leaves the same tokens, perhaps fewer, the last perhaps shorter |
| Utilities.TokensOfFirst | utilities.cpp:9-23 | what the first m characters leave of two tokens, by the place where the second begins |
| Utilities.ContainsText | sync-server.cpp:103 | whether the pattern occurs anywhere |
| Utilities.IsNumber | utilities.cpp:184-188 | true iff the string is non-empty and all digits |
| Utilities.WroteIsNoError | utilities.cpp:142-148 | a success reply never contains ERROR, whatever number it reports |
| Wire.WireExact | utilities.cpp:150-155 | the peer sees the master's tokens iff what does not fit the buffer is blank |
| Wire.CommandOnTheWire | peer-communication.cpp:148 | what the peers decode of a command of any length: the operation with the part of its argument within 242 characters, or a COMMIT with too few tokens |
| Wire.CommitOnTheWire | peer-communication.cpp:148 | the peers decode the operation the master itself performs iff all but blanks fits |
| Wire.PrecommitOnTheWire | peer-communication.cpp:109 | a user name arrives as its first 239 characters |
| Wire.VerdictsOnTheWire | sync-server.cpp:95-121 | ABORT, SUCCESS_NOOP and UNSUCCESS_UNDO arrive as themselves |
| Wire.RepliesOnTheWire | peer-communication.cpp:125-190 | the master recognises each kind of reply whatever text follows it, truncated or not |
| Wire.PeerLineStrips | sync-server.cpp:80-84 | the peer takes off a line end of either kind and nothing else |
| LineReader.ReadlineFromSocket | tcp-utils.cpp:125-165 | the buffer, the residue and the rest of the stream after a call, as a function of what was before |
| LineReader.ResumeStopsAtSpan | tcp-utils.cpp:134-164 | the scan stops at the first terminator, at the end of the stream or when the buffer is full |
| LineReader.FullBufferReturns | tcp-utils.cpp:134-164 | a full buffer ends the call, and everything behind it is left alone, terminators and polls included |
| LineReader.TerminatorReturns | tcp-utils.cpp:144-159 | a terminator ends any shorter line, and swallowing starts behind it |
| LineReader.EndReturns | tcp-utils.cpp:139-159 | the end of the stream ends a line that has begun, and otherwise there is none |
| LineReader.SwallowExactly | tcp-utils.cpp:145-157 | how many terminators and polls swallowing takes, and which byte it keeps back |
| LineReader.FullLineThenEmptyLine | tcp-utils.cpp:163-164 | a line that fills the buffer exactly is followed by an empty one, whatever the polls |
| LineReader.CallMakesProgress | tcp-utils.cpp:125-165 | every call that returns a line leaves strictly less to read |
| LineReader.LinesSpellTheStream | tcp-utils.cpp:125-165 | for any poll timing and limit the lines have no terminators and spell the stream in order, but for the character lost at the end |
| LineReader.NothingLostAfterTerminator | tcp-utils.cpp:125-165 | nothing is lost when the stream ends in a terminator |
| LineReader.ResidueLostAtEnd | tcp-utils.cpp:129-160 | some poll timing loses a byte iff the last byte is no terminator and follows one; it is that byte, and a buffer of one is safe |
| LineReader.RunIsOneTerminator | tcp-utils.cpp:144-160 | a run of CR and LF ends one line, and is swallowed whole iff all of it was ready when polled |
| PosixFile.OverwriteBytewise | file-operations.cpp:268-276 | where every byte comes from after a write, the zero-filled gap included |
| FileOperations.BulletinBoard.constructor | file-operations.cpp:35-52 | the counter starts as the number of lines |
| FileOperations.BulletinBoard.ObtainLengthOfLineToBeReplaced | file-operations.cpp:199-216 | length and offset of the line, as the scan defines them |
| FileOperations.BulletinBoard.ShiftBackward | file-operations.cpp:242-264 | the shrinking case exchanges exactly the line, over two aliased offsets; at a file end without newline it cuts as the code does |
| FileOperations.BulletinBoard.ShiftForward | file-operations.cpp:265-284 | the growing case exchanges exactly the line, through the gap behind the old end |
| FileOperations.BulletinBoard.OptimalReplaceAlgorithm | file-operations.cpp:218-289 | whichever case applies to whichever line the scan finds, the file is the bytes before, the new line, the bytes after |
| FileOperations.BulletinBoard.WriteOperation | file-operations.cpp:104-131 | reply, new board, undo record and lock; nothing is touched when the file is not accessible |
| FileOperations.BulletinBoard.ReplaceOperation | file-operations.cpp:314-339 | for every argument: reply, new board, undo record, lock and record; nothing is touched when the file is not accessible; when the program stops, inside the lock and before anything is written |
| FileOperations.BulletinBoard.GetMessageNumberInfo | file-operations.cpp:341-358 | the second and third token of the line, or the stop of the program when there is no such line or token |
| FileOperations.BulletinBoard.RunUndo | file-operations.cpp:113-117 | the undo closures compute Revert |
| FileOperations.BulletinBoard.IsMessageNumberValid | file-operations.cpp:134-136 | the check made before waiting for the lock |
| FileOperations.BulletinBoard.ReadMessage | file-operations.cpp:137-196 | the reply to READ from the end of its wait on, on any file, whatever has happened to it since the check; the lock is left as found |
| FileOperations.BulletinBoard.AreReplaceArgumentsValid | file-operations.cpp:291-312 | accepted iff digits, one slash and a text, with a number that exists; which refusal otherwise |
| Text.StoiOfDigits | file-operations.cpp:301 | std::stoi, modelled with its spaces, sign, stop at the first non-digit and exceptions, on what is_number lets through |
| Text.StoiOfParts | file-operations.cpp:301 | std::stoi on any spaces, sign, digits and rest |
| Text.ValueOfConcat | file-operations.cpp:301 | digits stand for their number in positional notation |
| Boards.ReplyTellsSuccess | file-operations.cpp:104-131 | a reply contains ERROR iff the file was not accessible, and is never empty |
| Boards.SuccessText | file-operations.cpp:125 | the answer about a success, to the letter, with the number of the message and a line end exactly when the lock is not held on |
| Boards.FailureText | file-operations.cpp:104-107 | the answers about a file that is not accessible, to the letter |
| Boards.RefusalAsMessage | file-operations.cpp:297-307 | the two answers to a refused REPLACE, to the letter and as the code formats them |
| Boards.ReadRefusalText | file-operations.cpp:145-147 | the answer to READ of a file that is not accessible, to the letter |
| Boards.ReadUnknownText | file-operations.cpp:138-143 | the answer to READ of a number that failed the check, to the letter, for every int |
| Boards.PrintedNumberNamesLine | file-operations.cpp:291-312 | a printed message number, typed back in a REPLACE, names the same line |
| Boards.LeadingZerosNameSameLine | file-operations.cpp:301 | so does the number with zeros in front |
| FileLines.LineLocated | file-operations.cpp:199-216 | the offset of line k is the total length of the lines before it, its length that of its text |
| FileLines.ReplaceLineIs | file-operations.cpp:218-289 | all lines but the replaced one stay byte for byte |
| FileLines.ReplacedLineFound | file-operations.cpp:199-216 | after a replacement the line is there for the next scan, in every file |
| Posts.PostLocated | file-operations.cpp:199-216 | the scan finds line k where post k is, and nothing past the last post |
| Posts.CounterRecovered | file-operations.cpp:35-47 | restarting on the file recovers the counter |
| Posts.CounterRecoveredAfterWrite | file-operations.cpp:35-47 | and so does restarting after a WRITE whose line the buffer has cut off |
| Posts.CutLineReplaced | file-operations.cpp:218-289 | a REPLACE of such a last line ends it with a newline iff the new line is longer |
| Posts.StoredLineParses | file-operations.cpp:348-354 | a stored line parses back to its number, user and message when the message has no slash |
| Posts.WriteAppends | file-operations.cpp:119-125 | WRITE appends the post iff its line fits the 255-byte buffer |
| Posts.BytesAfterWrite | file-operations.cpp:119-123 | every byte after any WRITE on any board: the first 254 characters of the line behind the old bytes |
| Posts.RunnableOnPosts | file-operations.cpp:348-354 | an accepted REPLACE runs iff the message it overwrites is not made of slashes only |
| Posts.ReplaceUpdates | file-operations.cpp:314-339 | REPLACE updates post k and no other iff it runs and the new line fits the line reader |
| Posts.LongLineShifts | file-operations.cpp:199-216 | after a REPLACE with a longer line: how many lines too many, what stands under each number, where each later post is |
| Posts.SlashMessageStops | file-operations.cpp:353 | WRITE / followed by REPLACE 0/x stops the program |
| Posts.LongReplaceShifts | file-operations.cpp:219-221 | a REPLACE after which number 1 reads the tail of post 0 |
| Posts.ReadReturnsPost | file-operations.cpp:164-195 | READ k answers with post k |
| Posts.ReadReplyComplete | file-operations.cpp:195 | the answer carries the post to its end iff its line has at most 241 characters |
| Posts.ReadElsewhereIsUnknown | file-operations.cpp:134-143 | a number without a post is answered UNKNOWN |
| Posts.StaleReadAnswersLastPost | file-operations.cpp:134-174 | a READ whose post is undone while it waits is answered with the last post there is |
| Posts.ReportedWriteReads | file-operations.cpp:125 | READ of the number found in the text of the answer to a WRITE answers with the post, also when the buffer cut its line |
| Posts.ReportedReplaceReads | file-operations.cpp:333 | and likewise for every REPLACE that does not stop the program |
| Posts.UndoOfWriteRestores | file-operations.cpp:112-117 | undoing a WRITE restores bytes and counter on every board |
| Posts.BytesAfterUndo | file-operations.cpp:324-332 | the bytes after an undone REPLACE for lines of any length |
| Posts.UndoOfReplaceRestores | file-operations.cpp:324-332 | undoing a REPLACE restores the board iff the old message has no slash and the new line is at most 256 characters |
| Posts.NewLineFound | file-operations.cpp:199-216 | what the undo's scan takes for the new line: its first 255 characters at most |
| Edits.RunsExactly | file-operations.cpp:348-354 | which accepted requests do not stop the program |
| Edits.FitsExactly | file-operations.cpp:104-131 | which of them leave the file holding the edited posts |
| Edits.UndoableExactly | file-operations.cpp:324-332 | which of them an undo takes back byte for byte |
| Edits.EveryStateHolds | file-operations.cpp:104-131 | over every sequence of WRITE, REPLACE and undo the file holds the posts in every state iff every request is within its limit |
| Edits.EveryStateHoldsFromEmpty | file-operations.cpp:35-47 | in particular from the empty file on |
| ReadersWriterLock.AccessData.ArriveAsWriter | file-operations.cpp:69-78 | a writer is counted and enters iff nobody is inside |
| ReadersWriterLock.AccessData.ReleaseWriteLock | file-operations.cpp:89-92 | the writer flag goes down, one release is recorded, and it always broadcasts |
| ReadersWriterLock.AccessData.TryEnterAsReader | file-operations.cpp:152-159 | a reader enters iff no writer waits or is inside |
| ReadersWriterLock.AccessData.LeaveAsReader | file-operations.cpp:181-186 | the last reader broadcasts |
| ReadersWriterLock.StepKeepsInv | file-operations.cpp:62-93 | counters are populations and un-notified sleepers have a closed door, over every step of any number of threads |
| ReadersWriterLock.LockSafety | file-operations.cpp:62-93 | over every run two threads inside are both readers, and the counters are exact |
| ReadersWriterLock.ReadersSeeSettledBoard | file-operations.cpp:152-186 | a reader inside sees one board, the one the last writer released |
| ReadersWriterLock.WritersArePreferred | file-operations.cpp:154-157 | no reader enters while a writer waits |
| ReadersWriterLock.ReaderEntersExactly | file-operations.cpp:152-159 | a reader that asks, now or after a wakeup, gets in iff no thread is a writer that waits or is inside |
| ReadersWriterLock.WriterEntersExactly | file-operations.cpp:69-78 | a writer that asks gets in iff no thread is inside |
| ReadersWriterLock.ReadersShare | file-operations.cpp:152-159 | any number of readers can be inside at once: a run from the start to there |
| ReadersWriterLock.NoDeadlock | file-operations.cpp:62-93 | if anybody waits or is inside, somebody can go on without outside help |
| ReadersWriterLock.LockDrains | file-operations.cpp:62-93 | once arrivals stop every schedule is bounded and ends with everybody outside |
| PeerCommunication.PeerCommunicationStatistics.PerformLocally | peer-communication.cpp:169-181 | the first thread performs the operation on the master's board under its write lock, later ones nothing; exactly when it stops the program, and what it leaves then |
| PeerCommunication.ThreadIdStatsMapping.Reset | peer-communication.cpp:41-43 | a new entry with every acknowledgement pending; an entry that is there stays |
| PeerCommunication.ThreadIdStatsMapping.TakeCompletionMessage | peer-communication.cpp:45-49 | the message is handed out and the entry is gone |
| MasterThread.PeerThread.OnConnect | peer-communication.cpp:99-109 | connecting and sending PRECOMMIT, or failing to, is the first step of the system's thread |
| MasterThread.PeerThread.OnReply | peer-communication.cpp:128-192 | a received packet takes the thread and the statistics where the system's step takes them, broadcast included; what does not fit the phase is ignored |
| MasterThread.PeerThread.OnNothing | peer-communication.cpp:116-119 | a timeout or close does what the system's step does |
| MasterThread.PeerThread.OnWakeup | peer-communication.cpp:138-164 | the loop condition after a wait is the system's test |
| MasterThread.PeerThread.GoOn | peer-communication.cpp:143-205 | every unlocked read, decision, local operation, verdict and notification is the system's step, in the packets sent and on the master's file; exactly when the program stops |
| SyncServer.PerformedCanBeUndone | file-operations.cpp:324-327 | on every board, what can be performed can be undone without stopping the program |
| SyncServer.SessionEnds | sync-server.cpp:61-143 | whatever arrives, a session ends, with the lock free unless the program has stopped in it, a release per acquisition, and at most one undo, of an operation performed and before the release |
| SyncServer.SessionOutcome | sync-server.cpp:89-143 | the board ends untouched, performed or reverted, according to how the session ended; performed is the first COMMIT after the first PRECOMMIT, in the name that one gave |
| SyncServer.NoiseIgnored | sync-server.cpp:89-124 | packets that do not fit the status change nothing and are not answered, however many come |
| SyncServer.PrecommitHeard | sync-server.cpp:89-94 | the first PRECOMMIT, behind any such packets: its name counts from then on, and it is answered READY |
| SyncServer.CommitHeard | sync-server.cpp:98-112 | the first COMMIT of an acknowledged session: refused, performed and held, or the stop of the program, and the packet that says so |
| SyncServer.VerdictHeard | sync-server.cpp:113-142 | what ends the wait for the verdict, and what the board and the lock are then, whatever comes later |
| SyncServer.EndedBefore | sync-server.cpp:95-97 | a timeout, a close or an ABORT before any COMMIT ends the session with nothing touched and nothing answered |
| SyncServer.PacketCarriesReply | sync-server.cpp:89-111 | the master recognises the reply in the packet a peer sends, and a packet is sent iff there is a reply |
| SyncServer.AcknowledgementNamesMessage | sync-server.cpp:99-105 | the packet that acknowledges an operation names the message written |
| SyncServer.SessionHandler.OnPacket | sync-server.cpp:81-124 | one turn on the real file and lock is Receive on the decoded bytes, for every packet, those that stop the program included; the packet sent back, to the byte |
| SyncServer.SessionHandler.Conclude | sync-server.cpp:113-142 | undo unless kept, then release, each exactly once on the lock's record |
| SyncServer.SessionHandler.Handle | sync-server.cpp:61-143 | the loop over everything that arrives ends with the board and replies of the whole session; the lock is as found unless the program stopped in it; the record of the lock has grown by what the outcome stands for and nothing else |
| BoardServer.BeginEdit | board-server.cpp:94-125 | a refused REPLACE changes nothing and is answered with its refusal; without peers the operation is performed and its reply is the answer; with peers one thread each is started and the statistics are new; exactly when the program stops |
| BoardServer.EndEdit | board-server.cpp:131-136 | the answer after a transaction, from the completion message and the client's operation; the entry is gone |
| BoardServer.CommittedAnswer | board-server.cpp:131-136 | after a committed run the client is told, to the letter, a number under which READ on the master answers with the client's own post |
| BoardServer.FailedAnswer | board-server.cpp:131-136 | after any other run it is told, to the letter, that synchronizing its operation failed, or, when the master tried, why the operation failed there |
| BoardServer.ClientToldTheTruth | board-server.cpp:131-136 | at the end, an answer without ERROR means performed once on the master's file and kept by all peers but those that timed out awaiting the verdict; one with ERROR means the master's file is unchanged and no peer kept anything |
| TwoPhaseInvariants.StepKeepsInv | peer-communication.cpp:69-213 | the invariant over counters, flags, messages and boards is kept by every step |
| TwoPhaseInvariants.FlagsExcludeZero | peer-communication.cpp:81-97 | a raised flag keeps its counter above zero |
| TwoPhaseInvariants.OthersAgree | peer-communication.cpp:133-183 | whatever one thread does, every other thread keeps what its position promises |
| TwoPhaseInvariants.ReachableInv | peer-communication.cpp:69-213 | every reachable state of every transaction satisfies the invariant |
| TwoPhaseTheorems.Agreement | peer-communication.cpp:152-189 | a peer keeps its change only if all peers acknowledged COMMIT_SUCCESS and the master performed without error |
| TwoPhaseTheorems.OneDecision | peer-communication.cpp:130-189 | never both COMMIT and ABORT, never both SUCCESS_NOOP and UNSUCCESS_UNDO |
| TwoPhaseTheorems.CountersNeverWrap | peer-communication.cpp:134-158 | the pending counters are the numbers of uncounted threads |
| TwoPhaseTheorems.UnlockedReadsStable | peer-communication.cpp:143-183 | in every reachable state, what a thread past a wait reads without the mutex has the same value in every later state |
| TwoPhaseTheorems.MasterPerformsOnce | peer-communication.cpp:169-181 | the master's operation runs at most once, and exactly when all acknowledgements were counted |
| TwoPhaseTheorems.EveryPeerIsTold | peer-communication.cpp:143-196 | at the end every peer that was counted ready has been sent the decision, and every peer that acknowledged the verdict that goes with the master's outcome |
| TwoPhaseTheorems.KeptIffNoTimeout | protocol2pc.txt:65-70 | after the end a peer has kept iff the master committed and the peer did not time out awaiting the verdict |
| TwoPhaseTheorems.AllOrNothing | sync-server.cpp:98-143 | after the end all files are unchanged, or changed exactly once but for peers that timed out awaiting the verdict; a peer that undid is back iff its board is reversible |
| TwoPhaseTheorems.LockHeldWhileTentative | sync-server.cpp:98-143 | a peer's board is tentative only while it holds its write lock |
| TwoPhaseTheorems.MessagesNeverRunTogether | sync-server.cpp:66-83 | at most one message is under way in each direction, so one recv is one message |
| TwoPhaseTheorems.PeerThatCannotPerform | sync-server.cpp:98-100 | a peer stops only on a COMMIT it cannot perform, and such a peer never changes its board nor lets the master commit |
| TwoPhaseTheorems.OperationsStayInContract | file-operations.cpp:199-216 | on boards where the operation can be performed no node is ever stopped by it or by its undo, in any interleaving |
| TwoPhaseProgress.SleeperHasAWaker | peer-communication.cpp:138-165 | a sleeping thread waits for one that is neither asleep nor finished |
| TwoPhaseProgress.MeasureDecreases | peer-communication.cpp:69-213 | every step other than an unreasoned wakeup decreases the measure |
| TwoPhaseProgress.TransactionEnds | board-server.cpp:111-128 | every run is bounded by 22N(N+1) plus twice the unreasoned wakeups, and only ends with all threads done |
| TwoPhaseProgress.NodeEnds | peer-communication.cpp:39-52 | the same bound for any number of controllers sharing the condition variable, N being their peers together |
| Replication.RequestOnTheWire | peer-communication.cpp:109-148 | the peers' name and command, by the master's; whether they see a command at all; and it is the master's own request iff nothing but blanks is cut off |
| Replication.PeerStaysEqual | peer-communication.cpp:183-189 | after a finished run a peer that did not time out awaiting the verdict equals the master iff committed with the same effect, or nothing undone, or undone reversibly |
| Replication.EqualInEveryRun | board-server.cpp:104-137 | for any number of peers, all runs of a transaction leave all replicas equal iff the request has the same effect everywhere and its undo restores the board |
| Replication.ReplicasStayEqual | board-server.cpp:104-137 | for any list of requests, all replicas stay byte for byte equal in all histories iff each request is harmless on every board on which its turn can come |
| ReplicatedPosts.RequestKeepsEqual | board-server.cpp:104-137 | the same for one request in terms of name, command and posts: the line is stored alike everywhere and a REPLACE can be undone |
| ReplicatedPosts.ReplicasHoldPosts | board-server.cpp:104-137 | for any list of requests, all replicas stay equal and hold the posts of the committed requests, in order, in all histories iff each request arrives whole, fits and can be undone whenever its turn can come |
| CutRequests.CutWriteDiffers | file-operations.cpp:119-121 | a WRITE cut short on the wire stores the same line iff the buffer cuts the line before the part lost |
| CutRequests.StopsNobodyExactly | sync-server.cpp:99-100 | which accepted requests stop no node: those that overwrite some text and whose own text begins within 242 characters |
| CutRequests.LateArgumentStops | sync-server.cpp:100 | an accepted WRITE that stops every peer |
| CutRequests.SameEffectExactly | peer-communication.cpp:148 | exactly which accepted requests the peers perform to the same effect as the master |
| CutRequests.ReversibleExactly | file-operations.cpp:324-332 | when the peers' undo restores their board, for a request cut short too: as the part they got can be undone |
| Schedules.PlannedRun | peer-communication.cpp:69-213 | for any number of peers, whether the master's operation succeeds and whichever peers give up late, there is a run that ends so |
| Divergence.CommitReachesPeers | peer-communication.cpp:152-189 | a run that ends with the change committed on the master and kept by every peer |
| Divergence.HistoryBegins | board-server.cpp:104-137 | every request that stops nobody can be the first, committed transaction of a history |
| Divergence.LateVerdictDiverges | sync-server.cpp:139-142 | for any set of peers, a run in which the master commits and exactly these peers run their undo |
| Divergence.FailedCommitUndoes | sync-server.cpp:117-121 | a run without timeouts in which the master's operation fails and every peer undoes |
| Divergence.AbortDiverges | file-operations.cpp:350-353 | for every request that cannot be undone, a failed transaction after which every peer differs from the master |
| Divergence.SlashRequest | file-operations.cpp:350-353 | such a request: replacing a message with a slash |

## Left out

- Sockets, host lookup, listening, accepting and polling: connections are message lists, poll outcomes are inputs.
- recv errors (-1): they notify nobody on either side; timeouts and closes are the fault model. A reset or killed process is not modelled.
- main.cpp, signals, cancellation on SIGHUP, daemon mode, configuration files, logging and debug sleeps.
- The greeting, USER and QUIT commands of board-server.cpp.
- A received packet of a single byte (`req[n - 2]` is then read in front of the buffer), and replies of a peer with fewer than two tokens.
- What a node does after its program has stopped: a stopped peer counts as closed to its master. When a master stops in its own operation is said by `GoOn`; the transition system has no step for that stop, so that its runs are about masters that can perform the operation, as those of `History` are (`StopsNobody`).
- `int` offsets and the `int` message counter are unbounded; a file of 2 GB or two thousand million posts is outside the model.
- Embedded NUL characters in user names, commands and files: strings stand for C strings.
- Data races on the map of statistics and on message_number: locked regions and single unlocked reads are atomic.
- Equality of replicas under several concurrent masters or verdict timeouts, which the protocol does not promise. With several controllers progress is proved, and the invariant of each transaction, but a peer's board belongs to one transaction.
- A transaction in a row starts when all threads of the one before have finished, on the peers too; a peer still draining an old connection is not overlapped with the next transaction.
- Waiting for the write lock inside a transaction: an operation is one step, taken when its lock is free. That the lock becomes free is the progress of the lock system.
- PerformLocally: the master's write lock is taken inside peerCommunicationMutex; the step is atomic, so nothing is said about the two locks of nodes that are master and peer of each other at once.
