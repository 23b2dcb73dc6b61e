/**
 One WRITE or REPLACE carried out by two-phase commit: a master with one thread per peer (peer-communication.cpp,
 started and joined by board-server.cpp) and the peers' sessions (sync-server.cpp), as a transition system. A step
 is one region under peerCommunicationMutex, one unlocked read together with the send it decides, or one return of
 recv_nonblock. Each direction of a connection is the list of everything sent, with a cursor for what was received.
 */
module TwoPhaseCommit {
  import opened Wire
  import opened Boards
  import opened SyncServer
  import opened PeerCommunication

  /**
   The request as the master performs it and as the peers decode it, and the boards it starts from. When too much of
   the command has been cut off in the buffer for the peers to see an operation and an argument, it is not `heard`.
   */
  datatype Config = Config(user: string, op: Op, peerUser: string, peerOp: Op, heard: bool, board: Board,
      peerBoards: seq<Board>)

  /** The COMMIT packet as the peers decode it. */
  function CommitMessage(c: Config): MasterMsg {
    if c.heard then Commit(c.peerOp) else BareCommit
  }

  /** How a master thread ended. */
  datatype End = NoReady | AbortSent | NoAck | VerdictSent(positive: bool)

  /** Where a master thread is. */
  datatype Pc =
    | Connecting
    | RecvReady                        // in recv_nonblock, PRECOMMIT_SENT
    | ReadyBarrier(awake: bool)        // in pthread_cond_wait, or woken and about to test the condition again
    | DecideReady                      // past the barrier, mutex given up
    | RecvAck                          // in recv_nonblock, COMMIT_SENT
    | CommitBarrier(awake: bool)
    | DecideCommit
    | PerformLocal
    | ReadMessage
    | ReadFlag(masterOk: bool)
    | NotifyAbort
    | NotifyUndo
    | Closed(end: End)

  /** A master thread, its connection and the peer's session. */
  datatype Link = Link(
    pc: Pc, readyCounted: bool, commitCounted: bool,
    sent: seq<MasterMsg>, received: nat,
    replies: seq<PeerMsg>, read: nat,
    peer: Session)

  datatype System = System(stats: Stats, links: seq<Link>, board: Board, performed: nat)

  datatype Label =
    | Connect(i: nat, ok: bool)
    | Deliver(i: nat)                          // the master thread receives the next reply
    | Timeout(i: nat)                          // its recv_nonblock times out
    | Hangup(i: nat)                           // its recv_nonblock returns 0
    | Recheck(i: nat)                          // a woken waiter tests its condition
    | Wakeup(i: nat)                           // a waiter wakes without a broadcast of this transaction
    | Advance(i: nat, accessible: bool)
    | PeerDeliver(i: nat, accessible: bool)
    | PeerTimeout(i: nat)
    | PeerHangup(i: nat)

  function InitialLink(b: Board): Link {
    Link(Connecting, false, false, [], 0, [], 0, Start(b))
  }

  function Init(c: Config): System {
    System(NewStats(|c.peerBoards|),
           seq(|c.peerBoards|, i requires 0 <= i < |c.peerBoards| => InitialLink(c.peerBoards[i])),
           c.board, 0)
  }

  predicate Receiving(pc: Pc) {
    pc == RecvReady || pc == RecvAck
  }

  predicate Waiting(pc: Pc, awake: bool) {
    pc == ReadyBarrier(awake) || pc == CommitBarrier(awake)
  }

  predicate OwnMove(pc: Pc) {
    pc.DecideReady? || pc.DecideCommit? || pc.PerformLocal? || pc.ReadMessage? || pc.ReadFlag? || pc.NotifyAbort?
        || pc.NotifyUndo?
  }

  predicate Enabled(s: System, l: Label) {
    && l.i < |s.links|
    && var k := s.links[l.i];
       match l
       case Connect(_, _) => k.pc == Connecting
       case Deliver(_) => Receiving(k.pc) && k.read < |k.replies|
       case Timeout(_) => Receiving(k.pc)
       case Hangup(_) => Receiving(k.pc) && k.read == |k.replies| && k.peer.status.Ended?
       case Recheck(_) => Waiting(k.pc, true)
       case Wakeup(_) => Waiting(k.pc, false)
       case Advance(_, _) => OwnMove(k.pc)
       case PeerDeliver(_, _) => !k.peer.status.Ended? && k.received < |k.sent|
       case PeerTimeout(_) => !k.peer.status.Ended? && k.sent != []
       case PeerHangup(_) => !k.peer.status.Ended? && k.sent != [] && k.received == |k.sent| && k.pc.Closed?
  }

  /**
   * What a step changes: the link it is about, the shared statistics, the master's board, and whether it broadcasts.
   */
  datatype Effect = Effect(link: Link, stats: Stats, board: Board, performed: nat, broadcast: bool)

  function Quiet(s: System, k: Link): Effect {
    Effect(k, s.stats, s.board, s.performed, false)
  }

  function OnReady(s: System, k: Link): Effect {
    var st := CountReady(s.stats);
    Effect(k.(readyCounted := true, pc := if ReadyBarrierOpen(st) then DecideReady else ReadyBarrier(false)),
           st, s.board, s.performed, st.readyPending == 0)
  }

  function OnCommitSuccess(s: System, k: Link): Effect {
    var st := CountCommit(s.stats);
    Effect(k.(commitCounted := true, pc := if CommitBarrierOpen(st) then DecideCommit else CommitBarrier(false)),
           st, s.board, s.performed, st.commitPending == 0)
  }

  /** The branches of the master thread's receive loop. */
  function OnReply(s: System, k: Link, m: PeerMsg): Effect {
    if m == Ready && k.pc == RecvReady then OnReady(s, k)
    else if m == CommitSuccess && k.pc == RecvAck then OnCommitSuccess(s, k)
    else if m == CommitUnsuccess && k.pc == RecvAck then Quiet(s, k.(pc := NotifyUndo))
    else Quiet(s, k)
  }

  /** The loop ends with recv_nodata or 0. */
  function OnNothing(k: Link): Link {
    k.(pc := if k.pc == RecvReady then NotifyAbort else NotifyUndo)
  }

  function OnRecheck(s: System, k: Link): Link {
    if k.pc == ReadyBarrier(true) then k.(pc := if ReadyBarrierOpen(s.stats) then DecideReady else ReadyBarrier(false))
    else k.(pc := if CommitBarrierOpen(s.stats) then DecideCommit else CommitBarrier(false))
  }

  function Verdict(positive: bool): MasterMsg {
    if positive then SuccessNoop else UnsuccessUndo
  }

  function OnAdvance(c: Config, s: System, k: Link, accessible: bool): Effect {
    match k.pc
    case DecideReady =>
      Quiet(s, if s.stats.shouldAbort then k.(sent := k.sent + [Abort], pc := Closed(AbortSent))
               else k.(sent := k.sent + [CommitMessage(c)], pc := RecvAck))
    case DecideCommit =>
      Quiet(s, k.(pc := if s.stats.peersFailed then ReadMessage else PerformLocal))
    case PerformLocal =>
      var (st, b) := PerformOnce(s.stats, s.board, c.user, c.op, accessible);
      Effect(k.(pc := ReadMessage), st, b, if s.stats.completion == "" then s.performed + 1 else s.performed, false)
    case ReadMessage =>
      Quiet(s, k.(pc := ReadFlag(Succeeded(s.stats.completion))))
    case ReadFlag(masterOk) =>
      var positive := !s.stats.peersFailed && masterOk;
      Quiet(s, k.(sent := k.sent + [Verdict(positive)], pc := Closed(VerdictSent(positive))))
    case NotifyAbort =>
      Effect(k.(pc := Closed(NoReady)), RaiseAbort(s.stats), s.board, s.performed, !s.stats.shouldAbort)
    case NotifyUndo =>
      Effect(k.(pc := Closed(NoAck)), RaiseUndo(s.stats), s.board, s.performed, !s.stats.peersFailed)
    case _ => Quiet(s, k)
  }

  function OnPeer(k: Link, e: Event, accessible: bool): Link {
    k.(peer := Receive(k.peer, e, accessible),
       replies := k.replies + (match ReplyTo(k.peer, e, accessible) case None => [] case Some(r) => [r]))
  }

  function EffectOf(c: Config, s: System, l: Label): Effect
    requires Enabled(s, l)
  {
    var k := s.links[l.i];
    match l
    case Connect(_, ok) =>
      Quiet(s, if ok then k.(sent := [Precommit(c.peerUser)], pc := RecvReady) else k.(pc := NotifyAbort))
    case Deliver(_) => OnReply(s, k.(read := k.read + 1), k.replies[k.read])
    case Timeout(_) => Quiet(s, OnNothing(k))
    case Hangup(_) => Quiet(s, OnNothing(k))
    case Recheck(_) => Quiet(s, OnRecheck(s, k))
    case Wakeup(_) => Quiet(s, Woken(k))
    case Advance(_, accessible) => OnAdvance(c, s, k, accessible)
    case PeerDeliver(_, accessible) =>
      Quiet(s, OnPeer(k.(received := k.received + 1), Message(k.sent[k.received]), accessible))
    case PeerTimeout(_) => Quiet(s, OnPeer(k, TimedOut, false))
    case PeerHangup(_) => Quiet(s, OnPeer(k, HungUp, false))
  }

  function Woken(k: Link): Link {
    match k.pc
    case ReadyBarrier(_) => k.(pc := ReadyBarrier(true))
    case CommitBarrier(_) => k.(pc := CommitBarrier(true))
    case _ => k
  }

  /** pthread_cond_broadcast. */
  function Broadcast(links: seq<Link>): (r: seq<Link>)
    ensures |r| == |links| && forall i :: 0 <= i < |links| ==> r[i] == Woken(links[i])
  {
    seq(|links|, i requires 0 <= i < |links| => Woken(links[i]))
  }

  function Apply(s: System, i: nat, e: Effect): System
    requires i < |s.links|
  {
    System(e.stats, (if e.broadcast then Broadcast(s.links) else s.links)[i := e.link], e.board, e.performed)
  }

  function Step(c: Config, s: System, l: Label): System
    requires Enabled(s, l)
  {
    Apply(s, l.i, EffectOf(c, s, l))
  }

  // ----- Runs -----

  predicate Executes(c: Config, s: System, ls: seq<Label>)
    decreases |ls|
  {
    ls == [] || (Enabled(s, ls[0]) && Executes(c, Step(c, s, ls[0]), ls[1..]))
  }

  function Final(c: Config, s: System, ls: seq<Label>): System
    requires Executes(c, s, ls)
    decreases |ls|
  {
    if ls == [] then s else Final(c, Step(c, s, ls[0]), ls[1..])
  }

  /** All threads of the transaction have finished, the peers' included; a peer never connected to has nothing to do. */
  predicate Finished(s: System) {
    forall i :: 0 <= i < |s.links| ==> s.links[i].pc.Closed? && (s.links[i].peer.status.Ended? || s.links[i].sent == [])
  }

  /** The master performed the operation and it reported no error. */
  predicate MasterCommitted(s: System) {
    s.stats.completion != "" && Succeeded(s.stats.completion)
  }
}
