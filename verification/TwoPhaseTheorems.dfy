/** What two-phase commit promises, over every run of a transaction. */
module TwoPhaseTheorems {
  import opened Text
  import opened Sums
  import opened Wire
  import opened Boards
  import opened SyncServer
  import opened PeerCommunication
  import opened TwoPhaseCommit
  import opened TwoPhaseInvariants

  /**
   * Agreement: a peer ends with its change kept only if every peer has acknowledged COMMIT_SUCCESS and the master
   * has performed the operation without an error.
   */
  lemma Agreement(c: Config, ls: seq<Label>, i: nat)
    requires Executes(c, Init(c), ls)
    requires i < |Final(c, Init(c), ls).links| && Final(c, Init(c), ls).links[i].peer.status == Ended(Kept)
    ensures var s := Final(c, Init(c), ls);
            && MasterCommitted(s) && s.performed == 1 && s.board == Perform(c.board, c.user, c.op)
            && forall j :: 0 <= j < |s.links| ==> s.links[j].replies == [Ready, CommitSuccess]
  {
    hide Perform;
    ReachableInv(c, ls);
    var s := Final(c, Init(c), ls);
    KeptMeansPositive(c, s, i);
    forall j | 0 <= j < |s.links| ensures s.links[j].replies == [Ready, CommitSuccess] {
      assert LinkOk(c, c.peerBoards[j], s.links[j]);
      OwedCounts(s, j);
    }
  }

  lemma KeptMeansPositive(c: Config, s: System, i: nat)
    requires Inv(c, s) && i < |s.links| && s.links[i].peer.status == Ended(Kept)
    ensures s.links[i].pc == Closed(VerdictSent(true))
    ensures s.stats.commitPending == 0 && MasterCommitted(s)
  {
    hide Perform, Revert, UndoOf, Reply, Contains;
    var k := s.links[i];
    assert LinkOk(c, c.peerBoards[i], k) && Agrees(k.pc, s.stats);
    assert |k.sent| == 3 && k.sent[2] == SuccessNoop;
  }

  /**
   * One decision: in no transaction is COMMIT sent to one peer and ABORT to another, nor SUCCESS_NOOP to one and
   * UNSUCCESS_UNDO to another.
   */
  lemma OneDecision(c: Config, ls: seq<Label>, i: nat, j: nat)
    requires Executes(c, Init(c), ls)
    requires i < |Final(c, Init(c), ls).links| && j < |Final(c, Init(c), ls).links|
    ensures var links := Final(c, Init(c), ls).links;
            && !(CommitMessage(c) in links[i].sent && Abort in links[j].sent)
            && !(SuccessNoop in links[i].sent && UnsuccessUndo in links[j].sent)
  {
    ReachableInv(c, ls);
    var s := Final(c, Init(c), ls);
    FlagsExcludeZero(c, s);
    SentMeans(c, s, i);
    SentMeans(c, s, j);
  }

  /** A message that has been sent is backed by the shared statistics. */
  lemma SentMeans(c: Config, s: System, i: nat)
    requires Inv(c, s) && i < |s.links|
    ensures CommitMessage(c) in s.links[i].sent ==> s.stats.readyPending == 0
    ensures Abort in s.links[i].sent ==> s.stats.shouldAbort
    ensures SuccessNoop in s.links[i].sent ==> s.stats.commitPending == 0 && MasterCommitted(s)
    ensures UnsuccessUndo in s.links[i].sent ==> s.stats.peersFailed || !MasterCommitted(s)
  {
    hide Perform, PeerSide, OneInFlight, Reply, Contains;
    assert LinkOk(c, c.peerBoards[i], s.links[i]) && Agrees(s.links[i].pc, s.stats);
  }

  /** The counters are exact in every reachable state, so the decrements never wrap around. */
  lemma CountersNeverWrap(c: Config, ls: seq<Label>)
    requires Executes(c, Init(c), ls)
    ensures CountersExact(Final(c, Init(c), ls))
    ensures Final(c, Init(c), ls).stats.readyPending <= |c.peerBoards|
    ensures Final(c, Init(c), ls).stats.commitPending <= |c.peerBoards|
  {
    ReachableInv(c, ls);
    var s := Final(c, Init(c), ls);
    SumBound(s.links, ReadyOwed, 1);
    SumBound(s.links, CommitOwed, 1);
  }

  /** The thread has left the first, or the second, barrier. */
  predicate PastReadyBarrier(pc: Pc) {
    pc == DecideReady || OnCommitSide(pc) || pc == Closed(AbortSent)
  }

  predicate PastCommitBarrier(pc: Pc) {
    pc.DecideCommit? || pc.PerformLocal? || pc.ReadMessage? || pc.ReadFlag? || (pc.Closed? && pc.end.VerdictSent?)
  }

  predicate PastOperation(pc: Pc) {
    pc.ReadMessage? || pc.ReadFlag? || (pc.Closed? && pc.end.VerdictSent?)
  }

  /** Which moves change the flags and the message. */
  lemma WhoChangesStats(c: Config, s: System, l: Label)
    requires Enabled(s, l)
    ensures var st, pc := EffectOf(c, s, l).stats, s.links[l.i].pc;
            && (st.shouldAbort == s.stats.shouldAbort || (pc == NotifyAbort && st.shouldAbort))
            && (st.peersFailed == s.stats.peersFailed || (pc == NotifyUndo && st.peersFailed))
            && (st.completion == s.stats.completion || (pc == PerformLocal && s.stats.completion == ""))
  {
    hide Perform, Reply, Receive, ReplyTo;
  }

  /** One step of any thread leaves alone what a thread past a wait reads without the mutex. */
  lemma StepKeepsReads(c: Config, s: System, l: Label, i: nat)
    requires Inv(c, s) && Enabled(s, l) && i < |s.links|
    ensures PastReadyBarrier(s.links[i].pc) ==> Step(c, s, l).stats.shouldAbort == s.stats.shouldAbort
    ensures PastCommitBarrier(s.links[i].pc) ==> Step(c, s, l).stats.peersFailed == s.stats.peersFailed
    ensures PastOperation(s.links[i].pc) ==> Step(c, s, l).stats.completion == s.stats.completion
  {
    hide EffectOf, Enabled, PeerSide, OneInFlight, Contains;
    WhoChangesStats(c, s, l);
    StepIsOfALink(s, l);
    assert LinkOk(c, c.peerBoards[i], s.links[i]) && Agrees(s.links[i].pc, s.stats);
    assert LinkOk(c, c.peerBoards[l.i], s.links[l.i]) && Agrees(s.links[l.i].pc, s.stats);
    FlagsExcludeZero(c, s);
    OwedCounts(s, l.i);
  }

  lemma StepIsOfALink(s: System, l: Label)
    requires Enabled(s, l)
    ensures l.i < |s.links|
  {
  }

  /** Where the stepping thread goes from behind a wait. */
  lemma OwnStepStaysPast(c: Config, s: System, l: Label)
    requires Enabled(s, l)
    ensures PastReadyBarrier(s.links[l.i].pc) ==> PastReadyBarrier(EffectOf(c, s, l).link.pc)
    ensures PastCommitBarrier(s.links[l.i].pc) ==> PastCommitBarrier(EffectOf(c, s, l).link.pc)
    ensures PastOperation(s.links[l.i].pc) ==> PastOperation(EffectOf(c, s, l).link.pc)
  {
    hide Receive, ReplyTo, PerformOnce, Verdict, Succeeded;
  }

  lemma WokenStaysPast(k: Link)
    ensures PastReadyBarrier(k.pc) ==> PastReadyBarrier(Woken(k).pc)
    ensures PastCommitBarrier(k.pc) ==> PastCommitBarrier(Woken(k).pc)
    ensures PastOperation(k.pc) ==> PastOperation(Woken(k).pc)
  {
  }

  /** A thread past a wait stays past it. */
  lemma StepStaysPast(c: Config, s: System, l: Label, i: nat)
    requires Inv(c, s) && Enabled(s, l) && i < |s.links|
    ensures |Step(c, s, l).links| == |s.links|
    ensures PastReadyBarrier(s.links[i].pc) ==> PastReadyBarrier(Step(c, s, l).links[i].pc)
    ensures PastCommitBarrier(s.links[i].pc) ==> PastCommitBarrier(Step(c, s, l).links[i].pc)
    ensures PastOperation(s.links[i].pc) ==> PastOperation(Step(c, s, l).links[i].pc)
  {
    hide EffectOf, LinkOk, Agrees, PastReadyBarrier, PastCommitBarrier, PastOperation;
    OwnStepStaysPast(c, s, l);
    WokenStaysPast(s.links[i]);
  }

  lemma {:induction false} ReadsStayStable(c: Config, s: System, ls: seq<Label>, i: nat)
    requires Inv(c, s) && Executes(c, s, ls) && i < |s.links|
    ensures PastReadyBarrier(s.links[i].pc) ==> Final(c, s, ls).stats.shouldAbort == s.stats.shouldAbort
    ensures PastCommitBarrier(s.links[i].pc) ==> Final(c, s, ls).stats.peersFailed == s.stats.peersFailed
    ensures PastOperation(s.links[i].pc) ==> Final(c, s, ls).stats.completion == s.stats.completion
    decreases |ls|
  {
    hide Inv, Step, Enabled, PastReadyBarrier, PastCommitBarrier, PastOperation;
    if ls != [] {
      StepKeepsReads(c, s, ls[0], i);
      StepStaysPast(c, s, ls[0], i);
      StepKeepsInv(c, s, ls[0]);
      ReadsStayStable(c, Step(c, s, ls[0]), ls[1..], i);
    }
  }

  /**
   * The flags and the message are stable where they are read without the mutex: in every reachable state, what a
   * thread past the corresponding wait reads is what it, and everybody else, reads in any later state.
   */
  lemma UnlockedReadsStable(c: Config, before: seq<Label>, after: seq<Label>, i: nat)
    requires Executes(c, Init(c), before) && Executes(c, Final(c, Init(c), before), after)
    requires i < |c.peerBoards|
    ensures var s := Final(c, Init(c), before); var later := Final(c, s, after);
            && |s.links| == |c.peerBoards|
            && (PastReadyBarrier(s.links[i].pc) ==> later.stats.shouldAbort == s.stats.shouldAbort)
            && (PastCommitBarrier(s.links[i].pc) ==> later.stats.peersFailed == s.stats.peersFailed)
            && (PastOperation(s.links[i].pc) ==> later.stats.completion == s.stats.completion)
  {
    hide PastReadyBarrier, PastCommitBarrier, PastOperation;
    ReachableInv(c, before);
    ReadsStayStable(c, Final(c, Init(c), before), after, i);
  }

  /**
   * The master's operation runs at most once, and never before every COMMIT_SUCCESS has been counted; when all
   * threads are done it has run iff they all were. The completion message is empty exactly when it has not run.
   */
  lemma MasterPerformsOnce(c: Config, ls: seq<Label>)
    requires Executes(c, Init(c), ls)
    ensures var s := Final(c, Init(c), ls);
            && s.performed <= 1
            && (s.performed == 1 <==> s.stats.completion != "")
            && (s.performed == 1 ==> s.stats.commitPending == 0)
            && (Finished(s) && |s.links| > 0 ==> (s.performed == 1 <==> s.stats.commitPending == 0))
  {
    ReachableInv(c, ls);
    var s := Final(c, Init(c), ls);
    if Finished(s) && |s.links| > 0 && s.stats.commitPending == 0 {
      FlagsExcludeZero(c, s);
      OwedCounts(s, 0);
      assert LinkOk(c, c.peerBoards[0], s.links[0]) && Agrees(s.links[0].pc, s.stats);
    }
  }

  /** What a thread that has ended has sent, by what it has counted and by flags and message. */
  lemma ClosedThreadHasTold(c: Config, k: Link, st: Stats)
    requires k.pc.Closed? && MasterSide(c, k) && Agrees(k.pc, st)
    requires (st.shouldAbort ==> st.readyPending > 0) && (st.peersFailed ==> st.commitPending > 0)
    requires st.completion != "" ==> st.commitPending == 0
    ensures k.readyCounted <==> |k.sent| >= 2
    ensures k.readyCounted ==> k.sent[1] == if st.shouldAbort then Abort else CommitMessage(c)
    ensures k.commitCounted <==> |k.sent| == 3
    ensures k.commitCounted ==>
              k.sent[2] == if st.completion != "" && Succeeded(st.completion) then SuccessNoop else UnsuccessUndo
  {
    hide Succeeded;
  }

  /**
   * Every peer is told: once all threads have finished, each peer whose READY was counted has been sent the decision of
   * the first phase, and each whose COMMIT_SUCCESS was counted the verdict on the whole.
   */
  lemma EveryPeerIsTold(c: Config, ls: seq<Label>, i: nat)
    requires Executes(c, Init(c), ls) && Finished(Final(c, Init(c), ls)) && i < |Final(c, Init(c), ls).links|
    ensures var s := Final(c, Init(c), ls); var k := s.links[i];
            && (k.readyCounted <==> |k.sent| >= 2)
            && (k.readyCounted ==> k.sent[1] == if s.stats.shouldAbort then Abort else CommitMessage(c))
            && (k.commitCounted <==> |k.sent| == 3)
            && (k.commitCounted ==> k.sent[2] == if MasterCommitted(s) then SuccessNoop else UnsuccessUndo)
  {
    hide MasterSide, Agrees, PeerSide, OneInFlight, Succeeded, Perform, Reply;
    ReachableInv(c, ls);
    var s := Final(c, Init(c), ls);
    assert LinkOk(c, c.peerBoards[i], s.links[i]) && Agrees(s.links[i].pc, s.stats);
    FlagsExcludeZero(c, s);
    ClosedThreadHasTold(c, s.links[i], s.stats);
  }

  /** How each peer can have ended, once all threads have: the only exception to the verdict is its own timeout. */
  lemma PeerEndings(c: Config, s: System, i: nat)
    requires Inv(c, s) && Finished(s) && i < |s.links|
    ensures MasterCommitted(s) ==>
              s.links[i].peer.status == Ended(Kept) || s.links[i].peer.status == Ended(UndoneOnTimeout)
    ensures !MasterCommitted(s) ==> s.links[i].peer.status != Ended(Kept)
    ensures s.links[i].peer.lockHeld ==> s.links[i].peer.status == Ended(Stopped(BeforeEdit))
  {
    hide Perform, Revert, UndoOf, Runnable, Reply, Contains;
    var k := s.links[i];
    assert LinkOk(c, c.peerBoards[i], k) && Agrees(k.pc, s.stats);
    if MasterCommitted(s) {
      OwedCounts(s, i);
      FlagsExcludeZero(c, s);
    } else if k.peer.status == Ended(Kept) {
      KeptMeansPositive(c, s, i);
    }
  }

  /**
   * When the master has committed, a peer holds the change iff it did not time out waiting for the verdict;
   * when it has not, no peer does.
   */
  lemma KeptIffNoTimeout(c: Config, ls: seq<Label>, i: nat)
    requires Executes(c, Init(c), ls)
    requires Finished(Final(c, Init(c), ls)) && i < |Final(c, Init(c), ls).links|
    ensures var s := Final(c, Init(c), ls); var status := s.links[i].peer.status;
            status == Ended(Kept) <==> MasterCommitted(s) && status != Ended(UndoneOnTimeout)
  {
    ReachableInv(c, ls);
    PeerEndings(c, Final(c, Init(c), ls), i);
  }

  /** The board a peer starts from lets the undo restore it exactly. */
  predicate Reversible(c: Config, b: Board) {
    Reverted(c, b) == b
  }

  /** The peer has performed the operation and taken it back. */
  predicate Undid(status: Status) {
    status == Ended(UndoneOnVerdict) || status == Ended(UndoneOnTimeout) || status == Ended(UndoneOnHangup)
  }

  /** A peer's board in every reachable state, by the peer's status, whatever the undo makes of it. */
  lemma PeerBoard(c: Config, s: System, i: nat)
    requires Inv(c, s) && i < |s.links|
    ensures var status, b := s.links[i].peer.status, c.peerBoards[i];
            s.links[i].peer.board == if status == AwaitingVerdict || status == Ended(Kept) then Performed(c, b)
                                     else if Undid(status) then Reverted(c, b) else b
  {
    hide Perform, Revert, UndoOf, Runnable;
    assert LinkOk(c, c.peerBoards[i], s.links[i]);
  }

  /**
   * Atomicity on bytes. When all threads have finished: if the master has not committed, the master's file and
   * counter are what they were, and so are those of every peer that did not have to undo; if it has, every peer that
   * did not time out waiting for the verdict holds the change exactly once. A peer that undid is back where it was
   * exactly when its board is reversible.
   */
  lemma AllOrNothing(c: Config, ls: seq<Label>, i: nat)
    requires Executes(c, Init(c), ls) && Finished(Final(c, Init(c), ls)) && i < |c.peerBoards|
    ensures var s, b := Final(c, Init(c), ls), c.peerBoards[i];
            && |s.links| == |c.peerBoards|
            && s.board == (if MasterCommitted(s) then Perform(c.board, c.user, c.op) else c.board)
            && (MasterCommitted(s) && s.links[i].peer.status != Ended(UndoneOnTimeout)
                ==> s.links[i].peer.board == Performed(c, b))
            && (!MasterCommitted(s) && !Undid(s.links[i].peer.status) ==> s.links[i].peer.board == b)
            && (Undid(s.links[i].peer.status) ==> (s.links[i].peer.board == b <==> Reversible(c, b)))
  {
    hide Perform, Revert, UndoOf, Runnable;
    ReachableInv(c, ls);
    var s := Final(c, Init(c), ls);
    PeerEndings(c, s, i);
    PeerBoard(c, s, i);
  }

  /** The peer's lock is held exactly while it waits for the verdict, and only then is its board tentative. */
  lemma LockHeldWhileTentative(c: Config, ls: seq<Label>, i: nat)
    requires Executes(c, Init(c), ls) && i < |Final(c, Init(c), ls).links|
    requires i < |c.peerBoards|
    ensures var peer := Final(c, Init(c), ls).links[i].peer;
            && LockDiscipline(peer)
            && (!peer.lockHeld ==>
                  peer.board == if peer.status == Ended(Kept) then Performed(c, c.peerBoards[i])
                                else if Undid(peer.status) then Reverted(c, c.peerBoards[i]) else c.peerBoards[i])
  {
    hide Perform, Revert, UndoOf, Runnable;
    ReachableInv(c, ls);
    var s := Final(c, Init(c), ls);
    assert LinkOk(c, c.peerBoards[i], s.links[i]);
    PeerBoard(c, s, i);
  }

  /** No recv ever finds two messages run together: at most one is under way in each direction. */
  lemma MessagesNeverRunTogether(c: Config, ls: seq<Label>, i: nat)
    requires Executes(c, Init(c), ls) && i < |Final(c, Init(c), ls).links|
    ensures OneInFlight(Final(c, Init(c), ls).links[i])
  {
    ReachableInv(c, ls);
    var s := Final(c, Init(c), ls);
    assert LinkOk(c, c.peerBoards[i], s.links[i]);
  }

  lemma PeerCannotPerform(c: Config, b: Board, k: Link)
    requires LinkOk(c, b, k)
    ensures k.peer.status.Ended? && k.peer.status.how.Stopped? ==> !PeersPerform(c, b)
    ensures !PeersPerform(c, b) ==> k.peer.board == b && !k.commitCounted
  {
    hide Perform, Revert, UndoOf, MasterSide, OneInFlight, PeersPerform;
  }

  /**
   * Which peers a transaction can stop: a peer stops only on a COMMIT it cannot perform, and one that cannot perform it
   * never changes its board, nor lets the master commit.
   */
  lemma PeerThatCannotPerform(c: Config, ls: seq<Label>, i: nat)
    requires Executes(c, Init(c), ls) && i < |Final(c, Init(c), ls).links| && i < |c.peerBoards|
    ensures var s := Final(c, Init(c), ls); var peer := s.links[i].peer;
            && (peer.status.Ended? && peer.status.how.Stopped? ==> !PeersPerform(c, c.peerBoards[i]))
            && (!PeersPerform(c, c.peerBoards[i])
               ==> peer.board == c.peerBoards[i] && !MasterCommitted(s) && s.board == c.board)
  {
    hide Perform, Revert, UndoOf, Runnable, LinkOk, Agrees;
    ReachableInv(c, ls);
    var s := Final(c, Init(c), ls);
    PeerCannotPerform(c, c.peerBoards[i], s.links[i]);
    OwedCounts(s, i);
  }

  lemma PeerInContract(c: Config, b: Board, k: Link)
    requires LinkOk(c, b, k) && PeersPerform(c, b) && CanRevert(Performed(c, b), UndoOf(b, c.peerOp))
    ensures k.peer.status == PrecommitAcknowledged ==> k.peer.board == b
    ensures k.peer.status == AwaitingVerdict ==> CanRevert(k.peer.board, k.peer.undo)
    ensures !(k.peer.status.Ended? && k.peer.status.how.Stopped?)
  {
    hide Perform, Revert, UndoOf, Runnable, CanRevert, MasterSide, OneInFlight, PeersPerform;
  }

  /**
   * With boards on which the operation can be performed at the start no node is ever stopped by it, whatever the
   * interleaving: it can be performed where it is about to be, and taken back where it has been.
   */
  lemma OperationsStayInContract(c: Config, ls: seq<Label>, i: nat)
    requires Executes(c, Init(c), ls) && i < |Final(c, Init(c), ls).links|
    requires i < |c.peerBoards| && PeersPerform(c, c.peerBoards[i]) && Runnable(c.board, c.op)
    ensures var s := Final(c, Init(c), ls); var peer := s.links[i].peer;
            && (peer.status == PrecommitAcknowledged ==> Runnable(peer.board, c.peerOp))
            && (peer.status == AwaitingVerdict ==> CanRevert(peer.board, peer.undo))
            && !(peer.status.Ended? && peer.status.how.Stopped?)
            && (s.stats.completion == "" ==> Runnable(s.board, c.op))
  {
    hide Perform, Revert, UndoOf, Runnable, CanRevert, LinkOk, Agrees;
    ReachableInv(c, ls);
    var s := Final(c, Init(c), ls);
    PerformedCanBeUndone(c.peerBoards[i], c.peerUser, c.peerOp);
    PeerInContract(c, c.peerBoards[i], s.links[i]);
  }
}
