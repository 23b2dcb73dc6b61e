/** What every step of a transaction keeps, and that every step keeps it. */
module TwoPhaseInvariants {
  import opened Text
  import opened Sums
  import opened Wire
  import opened Boards
  import opened SyncServer
  import opened PeerCommunication
  import opened TwoPhaseCommit

  // ----- One link -----

  /** What a master thread has sent, read and counted, by where it is. */
  predicate MasterSide(c: Config, k: Link) {
    var p, pc := [Precommit(c.peerUser)], [Precommit(c.peerUser), CommitMessage(c)];
    match k.pc
    case Connecting => k.sent == [] && k.read == 0 && !k.readyCounted && !k.commitCounted
    case RecvReady => k.sent == p && k.read == 0 && !k.readyCounted && !k.commitCounted
    case NotifyAbort => (k.sent == [] || k.sent == p) && k.read == 0 && !k.readyCounted && !k.commitCounted
    case ReadyBarrier(_) => k.sent == p && k.read == 1 && k.readyCounted && !k.commitCounted
    case DecideReady => k.sent == p && k.read == 1 && k.readyCounted && !k.commitCounted
    case RecvAck => k.sent == pc && k.read == 1 && k.readyCounted && !k.commitCounted
    case NotifyUndo => k.sent == pc && k.read >= 1 && k.readyCounted && !k.commitCounted
    case Closed(NoReady) => (k.sent == [] || k.sent == p) && k.read == 0 && !k.readyCounted && !k.commitCounted
    case Closed(AbortSent) => k.sent == p + [Abort] && k.read == 1 && k.readyCounted && !k.commitCounted
    case Closed(NoAck) => k.sent == pc && k.read >= 1 && k.readyCounted && !k.commitCounted
    case Closed(VerdictSent(positive)) => k.sent == pc + [Verdict(positive)] && k.read == 2 && k.readyCounted
        && k.commitCounted
    case _ => k.sent == pc && k.read == 2 && k.readyCounted && k.commitCounted
  }

  function Performed(c: Config, b: Board): Board {
    Perform(b, c.peerUser, c.peerOp)
  }

  function Reverted(c: Config, b: Board): Board {
    Revert(Performed(c, b), UndoOf(b, c.peerOp))
  }

  /** A peer with this board can perform what it decodes; otherwise COMMIT stops its program. */
  predicate PeersPerform(c: Config, b: Board) {
    c.heard && Runnable(b, c.peerOp)
  }

  /** What a peer has received and answered and what its board is, by its status. */
  predicate PeerSide(c: Config, b: Board, k: Link) {
    var success := [Ready, CommitSuccess];
    match k.peer.status
    case Idle => k.received == 0 && k.replies == [] && k.peer == Start(b)
    case PrecommitAcknowledged =>
      && k.received == 1 && k.replies == [Ready]
         && k.peer == Session(PrecommitAcknowledged, c.peerUser, NoUndo, b, false)
    case AwaitingVerdict =>
      && PeersPerform(c, b) && k.received == 2 && k.replies == success && |k.sent| >= 2 && k.sent[1] == Commit(c.peerOp)
      && k.peer == Session(AwaitingVerdict, c.peerUser, UndoOf(b, c.peerOp), Performed(c, b), true)
    case Ended(how) =>
      && k.peer.lockHeld == HoldsLock(k.peer.status)
      && match how
         case Untouched => k.peer.board == b && (k.replies == [] || k.replies == [Ready])
         case Refused => k.peer.board == b && k.replies == [Ready, CommitUnsuccess]
         case Kept =>
           && PeersPerform(c, b) && k.peer.board == Performed(c, b) && k.replies == success
           && |k.sent| == k.received == 3 && k.sent[2] == SuccessNoop
         case UndoneOnVerdict =>
           && PeersPerform(c, b) && k.peer.board == Reverted(c, b) && k.replies == success
           && |k.sent| == k.received == 3 && k.sent[2] == UnsuccessUndo
         case UndoneOnTimeout => PeersPerform(c, b) && k.peer.board == Reverted(c, b) && k.replies == success
         case UndoneOnHangup =>
           PeersPerform(c, b) && k.peer.board == Reverted(c, b) && k.replies == success && k.pc == Closed(NoAck)
         case Stopped(at) =>
           && k.peer.board == b && k.replies == [Ready]
           && at == (if c.heard then BeforeEdit else OutsideLock) && !PeersPerform(c, b)
  }

  /** In each direction at most one message is under way, so that no recv ever returns two messages run together. */
  predicate OneInFlight(k: Link) {
    && k.received <= |k.sent| <= k.received + 1
    && k.read <= |k.replies| <= k.read + 1
    && |k.replies| <= k.received
  }

  predicate LinkOk(c: Config, b: Board, k: Link) {
    && OneInFlight(k)
    && MasterSide(c, k)
    && PeerSide(c, b, k)
    && (k.commitCounted ==> k.replies == [Ready, CommitSuccess])
  }

  // ----- A link and the shared statistics -----

  /** The thread is past the first barrier and decided for COMMIT. */
  predicate OnCommitSide(pc: Pc) {
    pc.RecvAck? || pc.CommitBarrier? || pc.DecideCommit? || pc.PerformLocal? || pc.ReadMessage? || pc.ReadFlag?
        || pc.NotifyUndo?
    || pc == Closed(NoAck) || pc == Closed(VerdictSent(true)) || pc == Closed(VerdictSent(false))
  }

  predicate Agrees(pc: Pc, st: Stats) {
    && (OnCommitSide(pc) ==> st.readyPending == 0)
    && match pc
       case ReadyBarrier(awake) => awake || !ReadyBarrierOpen(st)
       case DecideReady => ReadyBarrierOpen(st)
       case CommitBarrier(awake) => awake || !CommitBarrierOpen(st)
       case DecideCommit => CommitBarrierOpen(st)
       case PerformLocal => st.commitPending == 0
       case ReadMessage => st.peersFailed || (st.commitPending == 0 && st.completion != "")
       case ReadFlag(ok) => (st.peersFailed || (st.commitPending == 0 && st.completion != ""))
           && ok == Succeeded(st.completion)
       case Closed(NoReady) => st.shouldAbort
       case Closed(AbortSent) => st.shouldAbort
       case Closed(NoAck) => st.peersFailed
       case Closed(VerdictSent(positive)) =>
         if positive then st.commitPending == 0 && st.completion != "" && Succeeded(st.completion)
         else st.peersFailed || (st.commitPending == 0 && st.completion != "" && !Succeeded(st.completion))
       case _ => true
  }

  // ----- The whole system -----

  function ReadyOwed(k: Link): nat {
    if k.readyCounted then 0 else 1
  }

  function CommitOwed(k: Link): nat {
    if k.commitCounted then 0 else 1
  }

  /** The pending counters are the numbers of threads that have not been counted; so they never wrap. */
  predicate CountersExact(s: System) {
    && s.stats.readyPending == Sum(s.links, ReadyOwed)
    && s.stats.commitPending == Sum(s.links, CommitOwed)
  }

  /** A raised flag has been raised by a thread that ended its phase without being counted. */
  predicate FlagsWitnessed(s: System) {
    && (s.stats.shouldAbort ==> exists i :: 0 <= i < |s.links| && s.links[i].pc == Closed(NoReady))
    && (s.stats.peersFailed ==> exists i :: 0 <= i < |s.links| && s.links[i].pc == Closed(NoAck))
  }

  /** The master's operation: at most once, not before every acknowledgement, with the completion message to match. */
  predicate MasterOnce(c: Config, s: System) {
    if s.stats.completion == "" then s.performed == 0 && s.board == c.board
    else
      && s.performed == 1
      && s.stats.commitPending == 0
      && s.stats.completion == Reply(c.board, c.op, Succeeded(s.stats.completion), true)
      && s.board == if Succeeded(s.stats.completion) then Perform(c.board, c.user, c.op) else c.board
  }

  predicate EachLink(c: Config, s: System) {
    && |s.links| == |c.peerBoards|
    && (forall i :: 0 <= i < |s.links| ==> LinkOk(c, c.peerBoards[i], s.links[i]))
    && (forall i :: 0 <= i < |s.links| ==> Agrees(s.links[i].pc, s.stats))
  }

  predicate Inv(c: Config, s: System) {
    EachLink(c, s) && CountersExact(s) && FlagsWitnessed(s) && MasterOnce(c, s)
  }

  lemma InitInv(c: Config)
    ensures Inv(c, Init(c))
  {
    var s := Init(c);
    SumConstant(s.links, ReadyOwed, 1);
    SumConstant(s.links, CommitOwed, 1);
  }

  // ----- Consequences used in the proofs -----

  /** A raised flag keeps the counter of its phase above zero for good: one decision per phase. */
  lemma FlagsExcludeZero(c: Config, s: System)
    requires Inv(c, s)
    ensures s.stats.shouldAbort ==> s.stats.readyPending > 0
    ensures s.stats.peersFailed ==> s.stats.commitPending > 0
  {
    if s.stats.shouldAbort {
      var i :| 0 <= i < |s.links| && s.links[i].pc == Closed(NoReady);
      assert LinkOk(c, c.peerBoards[i], s.links[i]);
      SumMember(s.links, i, ReadyOwed);
    }
    if s.stats.peersFailed {
      var i :| 0 <= i < |s.links| && s.links[i].pc == Closed(NoAck);
      assert LinkOk(c, c.peerBoards[i], s.links[i]);
      SumMember(s.links, i, CommitOwed);
    }
  }

  lemma OwedCounts(s: System, i: nat)
    requires CountersExact(s) && i < |s.links|
    ensures !s.links[i].readyCounted ==> s.stats.readyPending > 0
    ensures !s.links[i].commitCounted ==> s.stats.commitPending > 0
  {
    SumMember(s.links, i, ReadyOwed);
    SumMember(s.links, i, CommitOwed);
  }

  // ----- Every step keeps the invariant: the stepping link -----

  lemma PeerDeliverOk(c: Config, b: Board, k: Link, accessible: bool)
    requires LinkOk(c, b, k) && !k.peer.status.Ended? && k.received < |k.sent|
    ensures LinkOk(c, b, OnPeer(k.(received := k.received + 1), Message(k.sent[k.received]), accessible))
  {
    hide Perform, UndoOf, Revert, Runnable;
    var m := k.sent[k.received];
    match k.peer.status
    case Idle => assert m == Precommit(c.peerUser);
    case PrecommitAcknowledged => assert m == Abort || m == CommitMessage(c);
    case AwaitingVerdict => assert m == SuccessNoop || m == UnsuccessUndo;
  }

  lemma PeerGivesUpOk(c: Config, b: Board, k: Link, e: Event)
    requires LinkOk(c, b, k) && !k.peer.status.Ended? && k.sent != []
    requires e == TimedOut || (e == HungUp && k.received == |k.sent| && k.pc.Closed?)
    ensures LinkOk(c, b, OnPeer(k, e, false))
  {
    hide Perform, UndoOf, Revert, Runnable;
    assert k.replies + [] == k.replies;
  }

  lemma DeliverOk(c: Config, s: System, l: Label)
    requires Inv(c, s) && Enabled(s, l) && l.Deliver?
    ensures LinkOk(c, c.peerBoards[l.i], EffectOf(c, s, l).link)
    ensures Agrees(EffectOf(c, s, l).link.pc, EffectOf(c, s, l).stats)
  {
    hide Perform, UndoOf, Revert, Runnable, Reply, Contains, PeersPerform;
    var k := s.links[l.i];
    assert LinkOk(c, c.peerBoards[l.i], k) && Agrees(k.pc, s.stats);
    OwedCounts(s, l.i);
    FlagsExcludeZero(c, s);
  }

  /** The peer's side does not care about moves of a master thread that has not ended yet. */
  lemma PeerSideFrame(c: Config, b: Board, k: Link, k': Link)
    requires PeerSide(c, b, k) && OneInFlight(k) && !k.pc.Closed? && |k.sent| <= 2
    requires k' == k.(pc := k'.pc, sent := k'.sent)
    requires |k.sent| <= |k'.sent| && (|k.sent| >= 2 ==> k'.sent[1] == k.sent[1])
    ensures PeerSide(c, b, k')
  {
    hide Perform, UndoOf, Revert, Runnable;
  }

  /** A move that fits what has been sent, read and counted. */
  lemma MoveOk(c: Config, b: Board, k: Link, pc: Pc)
    requires LinkOk(c, b, k) && !k.pc.Closed? && MasterSide(c, k.(pc := pc))
    ensures LinkOk(c, b, k.(pc := pc))
  {
    hide PeerSide;
    assert |k.sent| <= 2 by {
      hide OneInFlight;
    }
    PeerSideFrame(c, b, k, k.(pc := pc));
  }

  lemma SendDecisionOk(c: Config, b: Board, k: Link, m: MasterMsg)
    requires LinkOk(c, b, k) && k.pc == DecideReady && (m == Abort || m == CommitMessage(c))
    ensures LinkOk(c, b, k.(sent := k.sent + [m], pc := if m == Abort then Closed(AbortSent) else RecvAck))
  {
    hide PeerSide;
    var k' := k.(sent := k.sent + [m], pc := if m == Abort then Closed(AbortSent) else RecvAck);
    assert [Precommit(c.peerUser)] + [CommitMessage(c)] == [Precommit(c.peerUser), CommitMessage(c)];
    PeerSideFrame(c, b, k, k');
  }

  lemma SendVerdictOk(c: Config, b: Board, k: Link, positive: bool)
    requires LinkOk(c, b, k) && k.pc.ReadFlag?
    ensures LinkOk(c, b, k.(sent := k.sent + [Verdict(positive)], pc := Closed(VerdictSent(positive))))
  {
    hide PeerSide, Verdict;
    var k' := k.(sent := k.sent + [Verdict(positive)], pc := Closed(VerdictSent(positive)));
    PeerSideFrame(c, b, k, k');
  }

  lemma AdvanceMoves(c: Config, s: System, k: Link, accessible: bool)
    requires MasterSide(c, k) && OwnMove(k.pc) && k.pc != DecideReady && !k.pc.ReadFlag?
    ensures var k' := OnAdvance(c, s, k, accessible).link; k' == k.(pc := k'.pc) && MasterSide(c, k')
  {
    hide PerformOnce;
  }

  lemma AdvanceOk(c: Config, s: System, k: Link, b: Board, accessible: bool)
    requires LinkOk(c, b, k) && OwnMove(k.pc)
    ensures LinkOk(c, b, OnAdvance(c, s, k, accessible).link)
  {
    hide LinkOk, MasterSide;
    if k.pc == DecideReady {
      SendDecisionOk(c, b, k, if s.stats.shouldAbort then Abort else CommitMessage(c));
    } else if k.pc.ReadFlag? {
      SendVerdictOk(c, b, k, !s.stats.peersFailed && k.pc.masterOk);
    } else {
      hide OnAdvance;
      LinkHasMasterSide(c, b, k);
      AdvanceMoves(c, s, k, accessible);
      MoveOk(c, b, k, OnAdvance(c, s, k, accessible).link.pc);
    }
  }

  lemma LinkHasMasterSide(c: Config, b: Board, k: Link)
    requires LinkOk(c, b, k)
    ensures MasterSide(c, k)
  {
  }

  /** The local operation, once all acknowledgements are in: the completion message is there afterwards. */
  lemma PerformAgrees(c: Config, s: System, k: Link, accessible: bool)
    requires k.pc == PerformLocal && Agrees(k.pc, s.stats)
    ensures var e := OnAdvance(c, s, k, accessible); Agrees(e.link.pc, e.stats)
  {
    hide Perform, Reply, Contains;
    ReplyTellsSuccess(s.board, c.op, accessible, true);
  }

  /** The verdict says what flag and message say. */
  lemma VerdictAgrees(c: Config, s: System, k: Link, accessible: bool)
    requires k.pc.ReadFlag? && Agrees(k.pc, s.stats) && (s.stats.peersFailed ==> s.stats.commitPending > 0)
    ensures var e := OnAdvance(c, s, k, accessible); Agrees(e.link.pc, e.stats)
  {
    hide Contains;
  }

  /** The other moves of a thread by itself. */
  lemma MoveAgrees(c: Config, s: System, k: Link, accessible: bool)
    requires OwnMove(k.pc) && k.pc != PerformLocal && !k.pc.ReadFlag? && Agrees(k.pc, s.stats)
    requires MasterSide(c, k) && (s.stats.shouldAbort ==> s.stats.readyPending > 0)
    ensures var e := OnAdvance(c, s, k, accessible); Agrees(e.link.pc, e.stats)
  {
    hide Contains, PerformOnce;
  }

  lemma AdvanceAgrees(c: Config, s: System, l: Label)
    requires Inv(c, s) && Enabled(s, l) && l.Advance?
    ensures Agrees(EffectOf(c, s, l).link.pc, EffectOf(c, s, l).stats)
  {
    hide LinkOk, Agrees, OnAdvance;
    var k := s.links[l.i];
    assert Agrees(k.pc, s.stats);
    FlagsExcludeZero(c, s);
    LinkHasMasterSide(c, c.peerBoards[l.i], k);
    if k.pc == PerformLocal {
      PerformAgrees(c, s, k, l.accessible);
    } else if k.pc.ReadFlag? {
      VerdictAgrees(c, s, k, l.accessible);
    } else {
      MoveAgrees(c, s, k, l.accessible);
    }
  }

  /** Giving up, waking up and testing a condition again fit what has been sent, read and counted. */
  lemma QuietMoveOk(c: Config, s: System, l: Label)
    requires Enabled(s, l) && (l.Timeout? || l.Hangup? || l.Recheck? || l.Wakeup?)
    requires MasterSide(c, s.links[l.i]) && Agrees(s.links[l.i].pc, s.stats)
    ensures var k, e := s.links[l.i], EffectOf(c, s, l);
            e.stats == s.stats && e.link == k.(pc := e.link.pc) && MasterSide(c, e.link) && Agrees(e.link.pc, s.stats)
  {
    hide OnAdvance, OnReply, OnPeer;
  }

  /** Steps of a master thread that touch nothing shared. */
  lemma QuietStepOk(c: Config, s: System, l: Label)
    requires Inv(c, s) && Enabled(s, l) && (l.Timeout? || l.Hangup? || l.Recheck? || l.Wakeup?)
    ensures LinkOk(c, c.peerBoards[l.i], EffectOf(c, s, l).link)
    ensures Agrees(EffectOf(c, s, l).link.pc, EffectOf(c, s, l).stats)
  {
    hide LinkOk, Agrees, MasterSide, EffectOf;
    var b, k := c.peerBoards[l.i], s.links[l.i];
    assert LinkOk(c, b, k) && Agrees(k.pc, s.stats);
    LinkHasMasterSide(c, b, k);
    QuietMoveOk(c, s, l);
    MoveOk(c, b, k, EffectOf(c, s, l).link.pc);
  }

  lemma ConnectOk(c: Config, b: Board, k: Link, ok: bool)
    requires LinkOk(c, b, k) && k.pc == Connecting
    ensures LinkOk(c, b, if ok then k.(sent := [Precommit(c.peerUser)], pc := RecvReady) else k.(pc := NotifyAbort))
  {
    hide Perform, UndoOf, Revert, Runnable;
  }

  lemma ConnectAgrees(st: Stats)
    ensures Agrees(RecvReady, st) && Agrees(NotifyAbort, st)
  {
  }

  lemma OwnStepOk(c: Config, s: System, l: Label)
    requires Inv(c, s) && Enabled(s, l)
    ensures LinkOk(c, c.peerBoards[l.i], EffectOf(c, s, l).link)
    ensures Agrees(EffectOf(c, s, l).link.pc, EffectOf(c, s, l).stats)
  {
    hide LinkOk, Agrees, OnAdvance, OnReply, OnPeer, OnRecheck;
    var b, k := c.peerBoards[l.i], s.links[l.i];
    assert LinkOk(c, b, k) && Agrees(k.pc, s.stats);
    match l
    case Connect(_, ok) =>
      ConnectOk(c, b, k, ok);
      ConnectAgrees(s.stats);
    case Deliver(_) => DeliverOk(c, s, l);
    case Advance(_, _) =>
      AdvanceOk(c, s, k, b, l.accessible);
      AdvanceAgrees(c, s, l);
    case PeerDeliver(_, accessible) =>
      PeerDeliverOk(c, b, k, accessible);
      PeerKeepsPc(k.(received := k.received + 1), Message(k.sent[k.received]), accessible);
    case PeerTimeout(_) =>
      PeerGivesUpOk(c, b, k, TimedOut);
      PeerKeepsPc(k, TimedOut, false);
    case PeerHangup(_) =>
      PeerGivesUpOk(c, b, k, HungUp);
      PeerKeepsPc(k, HungUp, false);
    case _ => QuietStepOk(c, s, l);
  }

  lemma PeerKeepsPc(k: Link, e: Event, accessible: bool)
    ensures var k' := OnPeer(k, e, accessible);
            k'.pc == k.pc && k'.readyCounted == k.readyCounted && k'.commitCounted == k.commitCounted
                && k'.sent == k.sent
  {
  }

  // ----- the other links -----

  lemma WokenOk(c: Config, b: Board, k: Link)
    requires LinkOk(c, b, k)
    ensures LinkOk(c, b, Woken(k))
  {
  }

  /** A change of the statistics leaves every other thread with what its position promises. */
  lemma OthersAgree(c: Config, s: System, l: Label, j: nat)
    requires Inv(c, s) && Enabled(s, l) && j < |s.links| && j != l.i
    ensures var e := EffectOf(c, s, l);
            Agrees((if e.broadcast then Woken(s.links[j]) else s.links[j]).pc, e.stats)
  {
    hide Perform, Reply, PeerSide, OneInFlight, Contains, Receive, ReplyTo;
    var k := s.links[j];
    assert Agrees(k.pc, s.stats);
    assert LinkOk(c, c.peerBoards[l.i], s.links[l.i]) && Agrees(s.links[l.i].pc, s.stats);
    FlagsExcludeZero(c, s);
    OwedCounts(s, l.i);
  }

  // ----- the counters, the flags and the master -----

  lemma StepCounts(c: Config, s: System, l: Label)
    requires Inv(c, s) && Enabled(s, l)
    ensures CountersExact(Step(c, s, l))
  {
    hide EffectOf, LinkOk, Agrees;
    var e := EffectOf(c, s, l);
    var links := if e.broadcast then Broadcast(s.links) else s.links;
    SumAgree(links, s.links, ReadyOwed);
    SumAgree(links, s.links, CommitOwed);
    SumUpdate(links, l.i, e.link, ReadyOwed);
    SumUpdate(links, l.i, e.link, CommitOwed);
    EffectCounts(c, s, l);
  }

  lemma EffectCounts(c: Config, s: System, l: Label)
    requires Inv(c, s) && Enabled(s, l)
    ensures var k, e := s.links[l.i], EffectOf(c, s, l);
            && e.stats.readyPending + ReadyOwed(k) == s.stats.readyPending + ReadyOwed(e.link)
            && e.stats.commitPending + CommitOwed(k) == s.stats.commitPending + CommitOwed(e.link)
  {
    hide Perform, Reply, PeerSide, OneInFlight, Contains, Receive, ReplyTo, Agrees;
    assert LinkOk(c, c.peerBoards[l.i], s.links[l.i]);
    OwedCounts(s, l.i);
  }

  /** A thread that has ended stays ended, and a flag is raised by a thread that ends with it. */
  lemma StepEnds(c: Config, s: System, l: Label)
    requires Enabled(s, l)
    ensures forall i :: 0 <= i < |s.links| && s.links[i].pc.Closed? ==> Step(c, s, l).links[i].pc == s.links[i].pc
    ensures EffectOf(c, s, l).stats.shouldAbort ==> s.stats.shouldAbort || EffectOf(c, s, l).link.pc == Closed(NoReady)
    ensures EffectOf(c, s, l).stats.peersFailed ==> s.stats.peersFailed || EffectOf(c, s, l).link.pc == Closed(NoAck)
  {
    hide Receive, ReplyTo, PerformOnce;
    if s.links[l.i].pc.Closed? {
      assert EffectOf(c, s, l).link.pc == s.links[l.i].pc;
    }
    PerformOnceKeepsFlags(s.stats, s.board, c.user, c.op, l.Advance? && l.accessible);
  }

  lemma PerformOnceKeepsFlags(st: Stats, b: Board, user: string, op: Op, accessible: bool)
    ensures PerformOnce(st, b, user, op, accessible).0.(completion := st.completion) == st
  {
  }

  lemma StepFlags(c: Config, s: System, l: Label)
    requires Inv(c, s) && Enabled(s, l)
    ensures FlagsWitnessed(Step(c, s, l))
  {
    hide EffectOf, LinkOk, Agrees;
    StepEnds(c, s, l);
    var s' := Step(c, s, l);
    if s.stats.shouldAbort {
      var i :| 0 <= i < |s.links| && s.links[i].pc == Closed(NoReady);
      assert s'.links[i].pc == Closed(NoReady);
    } else if s'.stats.shouldAbort {
      assert s'.links[l.i].pc == Closed(NoReady);
    }
    if s.stats.peersFailed {
      var i :| 0 <= i < |s.links| && s.links[i].pc == Closed(NoAck);
      assert s'.links[i].pc == Closed(NoAck);
    } else if s'.stats.peersFailed {
      assert s'.links[l.i].pc == Closed(NoAck);
    }
  }

  lemma StepMasterOnce(c: Config, s: System, l: Label)
    requires Inv(c, s) && Enabled(s, l)
    ensures MasterOnce(c, Step(c, s, l))
  {
    hide Perform, Reply, PeerSide, OneInFlight, Contains, Receive, ReplyTo;
    var k := s.links[l.i];
    assert LinkOk(c, c.peerBoards[l.i], k) && Agrees(k.pc, s.stats);
    OwedCounts(s, l.i);
    if l.Advance? && k.pc == PerformLocal {
      ReplyTellsSuccess(s.board, c.op, l.accessible, true);
    }
  }

  /** Every step of every thread keeps the invariant. */
  lemma StepKeepsInv(c: Config, s: System, l: Label)
    requires Inv(c, s) && Enabled(s, l)
    ensures Inv(c, Step(c, s, l))
  {
    hide LinkOk, Agrees, EffectOf;
    var e := EffectOf(c, s, l);
    var s' := Step(c, s, l);
    OwnStepOk(c, s, l);
    forall j | 0 <= j < |s.links|
      ensures LinkOk(c, c.peerBoards[j], s'.links[j]) && Agrees(s'.links[j].pc, s'.stats)
    {
      if j != l.i {
        OthersAgree(c, s, l, j);
        WokenOk(c, c.peerBoards[j], s.links[j]);
      }
    }
    StepCounts(c, s, l);
    StepFlags(c, s, l);
    StepMasterOnce(c, s, l);
  }

  lemma {:induction false} RunKeepsInv(c: Config, s: System, ls: seq<Label>)
    requires Inv(c, s) && Executes(c, s, ls)
    ensures Inv(c, Final(c, s, ls))
    decreases |ls|
  {
    if ls != [] {
      StepKeepsInv(c, s, ls[0]);
      RunKeepsInv(c, Step(c, s, ls[0]), ls[1..]);
    }
  }

  /** Every state a transaction can reach satisfies the invariant. */
  lemma ReachableInv(c: Config, ls: seq<Label>)
    requires Executes(c, Init(c), ls)
    ensures Inv(c, Final(c, Init(c), ls))
  {
    InitInv(c);
    RunKeepsInv(c, Init(c), ls);
  }
}
