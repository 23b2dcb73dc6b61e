/**
 Runs of a transaction by plan, for any number of peers: every connection is made, every message is answered in time
 and the file is accessible on every peer; the plan says whether the master's own operation succeeds, and which peers
 give up waiting for the verdict although it has been sent. A step that follows the plan can always be taken, and the
 measure of the transaction makes such a run end.
 */
module Schedules {
  import opened Text
  import opened Wire
  import opened Boards
  import opened SyncServer
  import opened PeerCommunication
  import opened TwoPhaseCommit
  import opened TwoPhaseInvariants
  import opened TwoPhaseProgress

  datatype Plan = Plan(masterOk: bool, late: set<nat>)

  /** The steps that follow the plan. */
  predicate Allows(p: Plan, s: System, l: Label)
    requires l.i < |s.links|
  {
    match l
    case Connect(_, ok) => ok
    case Deliver(_) => true
    case Recheck(_) => true
    case Advance(_, accessible) => accessible == p.masterOk
    case PeerDeliver(i, accessible) => accessible && !(i in p.late && s.links[i].pc.Closed?)
    case PeerTimeout(i) => i in p.late && s.links[i].pc.Closed?
    case _ => false
  }

  /** No thread has met, or is going to report, a failure, and a peer has ended only after its verdict was sent. */
  predicate SmoothLink(p: Plan, i: nat, k: Link) {
    && !k.pc.NotifyAbort? && !k.pc.NotifyUndo? && (k.pc.Closed? ==> k.pc.end.VerdictSent?)
    && (k.peer.status.Ended? ==>
          && k.pc.Closed?
          && if i in p.late then k.peer.status.how == UndoneOnTimeout
             else k.peer.status.how == Kept || k.peer.status.how == UndoneOnVerdict)
  }

  predicate SmoothStats(c: Config, p: Plan, st: Stats) {
    !st.shouldAbort && !st.peersFailed
        && (st.completion == "" || st.completion == Reply(c.board, c.op, p.masterOk, true))
  }

  predicate Smooth(c: Config, p: Plan, s: System) {
    SmoothStats(c, p, s.stats) && forall i :: 0 <= i < |s.links| ==> SmoothLink(p, i, s.links[i])
  }

  predicate AllPerform(c: Config) {
    forall i :: 0 <= i < |c.peerBoards| ==> PeersPerform(c, c.peerBoards[i])
  }

  lemma InitSmooth(c: Config, p: Plan)
    ensures Smooth(c, p, Init(c))
  {
  }

  // ----- A step by plan keeps everything smooth -----

  lemma PeerStaysSmooth(c: Config, p: Plan, b: Board, i: nat, k: Link)
    requires LinkOk(c, b, k) && SmoothLink(p, i, k) && PeersPerform(c, b)
    requires !k.peer.status.Ended? && k.received < |k.sent| && !(i in p.late && k.pc.Closed?)
    ensures SmoothLink(p, i, OnPeer(k.(received := k.received + 1), Message(k.sent[k.received]), true))
  {
    hide Perform, UndoOf, Revert, Runnable;
    var m := k.sent[k.received];
    match k.peer.status
    case Idle => assert m == Precommit(c.peerUser);
    case PrecommitAcknowledged => assert m == Commit(c.peerOp);
    case AwaitingVerdict => assert m == SuccessNoop || m == UnsuccessUndo;
  }

  lemma LatePeerStaysSmooth(c: Config, p: Plan, b: Board, i: nat, k: Link)
    requires LinkOk(c, b, k) && SmoothLink(p, i, k) && !k.peer.status.Ended? && i in p.late && k.pc.Closed?
    ensures SmoothLink(p, i, OnPeer(k, TimedOut, false))
  {
    hide Perform, UndoOf, Revert, Runnable;
  }

  lemma DeliveryStaysSmooth(c: Config, p: Plan, s: System, i: nat)
    requires Inv(c, s) && Smooth(c, p, s) && Enabled(s, Deliver(i))
    ensures var e := EffectOf(c, s, Deliver(i)); SmoothLink(p, i, e.link) && SmoothStats(c, p, e.stats)
  {
    hide Perform, UndoOf, Revert, Runnable, Reply;
    var k := s.links[i];
    assert LinkOk(c, c.peerBoards[i], k) && SmoothLink(p, i, k);
  }

  lemma AdvanceStaysSmooth(c: Config, p: Plan, s: System, i: nat)
    requires Inv(c, s) && Smooth(c, p, s) && Enabled(s, Advance(i, p.masterOk))
    ensures var e := EffectOf(c, s, Advance(i, p.masterOk)); SmoothLink(p, i, e.link) && SmoothStats(c, p, e.stats)
  {
    hide Perform, Reply, LinkOk, Contains;
    assert SmoothLink(p, i, s.links[i]);
  }

  lemma OwnStepStaysSmooth(c: Config, p: Plan, s: System, l: Label)
    requires Inv(c, s) && Smooth(c, p, s) && AllPerform(c) && Enabled(s, l) && Allows(p, s, l)
    ensures SmoothLink(p, l.i, EffectOf(c, s, l).link) && SmoothStats(c, p, EffectOf(c, s, l).stats)
  {
    hide Reply, LinkOk, PeersPerform, OnAdvance, OnReply, OnPeer;
    var k := s.links[l.i];
    assert LinkOk(c, c.peerBoards[l.i], k) && SmoothLink(p, l.i, k) && PeersPerform(c, c.peerBoards[l.i]);
    match l
    case Deliver(i) => DeliveryStaysSmooth(c, p, s, i);
    case Advance(i, _) => AdvanceStaysSmooth(c, p, s, i);
    case PeerDeliver(i, _) => PeerStaysSmooth(c, p, c.peerBoards[i], i, k);
    case PeerTimeout(i) => LatePeerStaysSmooth(c, p, c.peerBoards[i], i, k);
    case _ =>
  }

  lemma StepStaysSmooth(c: Config, p: Plan, s: System, l: Label)
    requires Inv(c, s) && Smooth(c, p, s) && AllPerform(c) && Enabled(s, l) && Allows(p, s, l)
    ensures Smooth(c, p, Step(c, s, l))
  {
    hide Inv, EffectOf, AllPerform, SmoothStats;
    OwnStepStaysSmooth(c, p, s, l);
    var s' := Step(c, s, l);
    forall j | 0 <= j < |s'.links| ensures SmoothLink(p, j, s'.links[j]) {
      if j != l.i {
        assert SmoothLink(p, j, s.links[j]);
      }
    }
  }

  // ----- A step by plan can be taken -----

  /** A master thread that is neither asleep nor closed, or its peer, can go on by plan. */
  lemma AwakeFollows(c: Config, p: Plan, s: System, i: nat) returns (l: Label)
    requires Inv(c, s) && Smooth(c, p, s) && AllPerform(c)
    requires i < |s.links| && !s.links[i].pc.Closed? && !Waiting(s.links[i].pc, false)
    ensures Proper(l) && Enabled(s, l) && Allows(p, s, l)
  {
    hide Perform, Revert, UndoOf, Runnable, Reply;
    var k := s.links[i];
    assert LinkOk(c, c.peerBoards[i], k) && SmoothLink(p, i, k);
    if k.pc == Connecting {
      l := Connect(i, true);
    } else if Receiving(k.pc) {
      l := if k.read < |k.replies| then Deliver(i) else PeerDeliver(i, true);
    } else if Waiting(k.pc, true) {
      l := Recheck(i);
    } else {
      l := Advance(i, p.masterOk);
    }
  }

  lemma SomethingFollows(c: Config, p: Plan, s: System) returns (l: Label)
    requires Inv(c, s) && Smooth(c, p, s) && AllPerform(c) && !Finished(s)
    ensures Proper(l) && Enabled(s, l) && Allows(p, s, l)
  {
    hide Perform, Revert, UndoOf, Runnable, Reply, AllPerform;
    var i :| 0 <= i < |s.links| && !(s.links[i].pc.Closed? && (s.links[i].peer.status.Ended? || s.links[i].sent == []));
    var k := s.links[i];
    assert LinkOk(c, c.peerBoards[i], k) && SmoothLink(p, i, k);
    if k.pc.Closed? {
      l := if i in p.late then PeerTimeout(i) else PeerDeliver(i, true);
    } else if Waiting(k.pc, false) {
      var j := SleeperHasAWaker(c, s, i);
      l := AwakeFollows(c, p, s, j);
    } else {
      l := AwakeFollows(c, p, s, i);
    }
  }

  lemma {:induction false} RunByPlan(c: Config, p: Plan, s: System) returns (ls: seq<Label>)
    requires Inv(c, s) && Smooth(c, p, s) && AllPerform(c)
    ensures Executes(c, s, ls) && Finished(Final(c, s, ls)) && Inv(c, Final(c, s, ls)) && Smooth(c, p, Final(c, s, ls))
    decreases Measure(s)
  {
    hide Inv, Smooth, AllPerform, Finished, Step, Measure, Enabled, Allows;
    if Finished(s) {
      ls := [];
    } else {
      var l := SomethingFollows(c, p, s);
      StepKeepsInv(c, s, l);
      StepStaysSmooth(c, p, s, l);
      MeasureDecreases(c, s, l);
      var rest := RunByPlan(c, p, Step(c, s, l));
      ls := [l] + rest;
      assert ls[1..] == rest;
    }
  }

  // ----- How it ends -----

  function PlannedEnd(p: Plan, i: nat): How {
    if i in p.late then UndoneOnTimeout else if p.masterOk then Kept else UndoneOnVerdict
  }

  lemma EndIsPlanned(c: Config, p: Plan, s: System, i: nat)
    requires Inv(c, s) && Smooth(c, p, s) && Finished(s) && i < |s.links|
    ensures MasterCommitted(s) == p.masterOk && s.links[i].peer.status == Ended(PlannedEnd(p, i))
  {
    hide Perform, Revert, UndoOf, Runnable;
    ReplyTellsSuccess(c.board, c.op, p.masterOk, true);
    hide Reply, Contains;
    var k := s.links[i];
    assert LinkOk(c, c.peerBoards[i], k) && Agrees(k.pc, s.stats) && SmoothLink(p, i, k);
  }

  /** Every plan can be carried out, for any number of peers whose boards let them perform the operation. */
  lemma PlannedRun(c: Config, p: Plan) returns (ls: seq<Label>)
    requires c.peerBoards != [] && AllPerform(c)
    ensures Executes(c, Init(c), ls) && Finished(Final(c, Init(c), ls))
    ensures var s := Final(c, Init(c), ls);
            && |s.links| == |c.peerBoards| && MasterCommitted(s) == p.masterOk
            && forall i :: 0 <= i < |s.links| ==> s.links[i].peer.status == Ended(PlannedEnd(p, i))
  {
    hide Smooth, AllPerform, Finished, MasterCommitted, Executes, Final, Agrees, LinkOk;
    InitInv(c);
    InitSmooth(c, p);
    ls := RunByPlan(c, p, Init(c));
    var s := Final(c, Init(c), ls);
    EndIsPlanned(c, p, s, 0);
    forall i | 0 <= i < |s.links| ensures s.links[i].peer.status == Ended(PlannedEnd(p, i)) {
      EndIsPlanned(c, p, s, i);
    }
  }
}
