/**
 Peer threads never deadlock: a sleeping thread always has somebody left to wake it, and a measure bounds every
 run, also when several controllers run transactions at once and share the condition variable.
 */
module TwoPhaseProgress {
  import opened Text
  import opened Sums
  import opened Boards
  import opened SyncServer
  import opened PeerCommunication
  import opened TwoPhaseCommit
  import opened TwoPhaseInvariants

  /** Steps that need no outside help: everything but waking up without a reason. */
  predicate Proper(l: Label) {
    !l.Wakeup?
  }

  /** A master thread that is neither asleep nor closed can take a step. */
  lemma AwakeCanStep(s: System, i: nat) returns (l: Label)
    requires i < |s.links| && !s.links[i].pc.Closed? && !Waiting(s.links[i].pc, false)
    ensures Proper(l) && l.i == i && Enabled(s, l)
  {
    var pc := s.links[i].pc;
    if pc == Connecting {
      l := Connect(i, false);
    } else if Receiving(pc) {
      l := Timeout(i);
    } else if Waiting(pc, true) {
      l := Recheck(i);
    } else {
      l := Advance(i, false);
    }
  }

  /**
   * A thread asleep at a barrier waits for another thread that is neither asleep nor finished: if that one had
   * finished without being counted, it would have raised the flag that opens the barrier.
   */
  lemma SleeperHasAWaker(c: Config, s: System, i: nat) returns (j: nat)
    requires Inv(c, s) && i < |s.links| && Waiting(s.links[i].pc, false)
    ensures j < |s.links| && !s.links[j].pc.Closed? && !Waiting(s.links[j].pc, false)
  {
    hide PeerSide, OneInFlight;
    assert Agrees(s.links[i].pc, s.stats);
    if s.links[i].pc == ReadyBarrier(false) {
      j := SumPositive(s.links, ReadyOwed);
    } else {
      j := SumPositive(s.links, CommitOwed);
      FlagsExcludeZero(c, s);
    }
    assert LinkOk(c, c.peerBoards[j], s.links[j]) && Agrees(s.links[j].pc, s.stats);
  }

  /** As long as the transaction has not finished, some thread can take a proper step. */
  lemma NoDeadlock(c: Config, s: System) returns (l: Label)
    requires Inv(c, s) && !Finished(s)
    ensures Proper(l) && Enabled(s, l)
  {
    var i :| 0 <= i < |s.links| && !(s.links[i].pc.Closed? && (s.links[i].peer.status.Ended? || s.links[i].sent == []));
    if s.links[i].pc.Closed? {
      l := PeerTimeout(i);
    } else if Waiting(s.links[i].pc, false) {
      var j := SleeperHasAWaker(c, s, i);
      l := AwakeCanStep(s, j);
    } else {
      l := AwakeCanStep(s, i);
    }
  }

  // ----- The measure -----

  /** Phases a master thread still has in front of it, counting each message it may still send. */
  function Phases(pc: Pc): nat {
    match pc
    case Connecting => 16
    case RecvReady => 14
    case ReadyBarrier(_) => 13
    case DecideReady => 12
    case RecvAck => 10
    case CommitBarrier(_) => 9
    case DecideCommit => 8
    case PerformLocal => 7
    case ReadMessage => 6
    case ReadFlag(_) => 5
    case NotifyAbort => 1
    case NotifyUndo => 1
    case Closed(_) => 0
  }

  /** Turns a peer session still has in front of it. */
  function Turns(status: Status): nat {
    match status
    case Idle => 6
    case PrecommitAcknowledged => 4
    case AwaitingVerdict => 2
    case Ended(_) => 0
  }

  function Unread(k: Link): nat {
    (if k.received <= |k.sent| then |k.sent| - k.received else 0)
    + (if k.read <= |k.replies| then |k.replies| - k.read else 0)
  }

  function Owed(k: Link): nat {
    Phases(k.pc) + Turns(k.peer.status) + Unread(k)
  }

  function Awake(k: Link): nat {
    if Waiting(k.pc, true) then 1 else 0
  }

  function Measure(s: System): nat {
    Sum(s.links, Owed) * (|s.links| + 1) + Sum(s.links, Awake)
  }

  /** The step of one link: it owes less afterwards, or it went back to sleep without a broadcast. */
  lemma LinkDecreases(c: Config, s: System, l: Label)
    requires Inv(c, s) && Enabled(s, l) && Proper(l)
    ensures var k, e := s.links[l.i], EffectOf(c, s, l);
            Owed(e.link) < Owed(k)
            || (Owed(e.link) == Owed(k) && !e.broadcast && Awake(k) == 1 && Awake(e.link) == 0)
  {
    hide Perform, Revert, UndoOf, Reply, PeerSide, PerformOnce, Receive, ReplyTo, OnAdvance, OnReply;
    var k := s.links[l.i];
    assert LinkOk(c, c.peerBoards[l.i], k);
    match l
    case Deliver(_) => DeliverDecreases(c, s, l.i);
    case Advance(_, accessible) => AdvanceDecreases(c, s, k, accessible);
    case PeerDeliver(_, accessible) => ReceiveDecreases(k.peer, Message(k.sent[k.received]), accessible);
    case PeerTimeout(_) => ReceiveDecreases(k.peer, TimedOut, false);
    case PeerHangup(_) => ReceiveDecreases(k.peer, HungUp, false);
    case _ =>
  }

  lemma DeliverDecreases(c: Config, s: System, i: nat)
    requires Enabled(s, Deliver(i)) && OneInFlight(s.links[i])
    ensures Owed(EffectOf(c, s, Deliver(i)).link) < Owed(s.links[i])
  {
  }

  lemma AdvanceDecreases(c: Config, s: System, k: Link, accessible: bool)
    requires OwnMove(k.pc) && OneInFlight(k)
    ensures Owed(OnAdvance(c, s, k, accessible).link) < Owed(k)
  {
    hide PerformOnce;
  }

  lemma ReceiveDecreases(p: Session, e: Event, accessible: bool)
    requires !p.status.Ended?
    ensures Turns(Receive(p, e, accessible).status) <= Turns(p.status)
    ensures e == TimedOut || e == HungUp ==> Turns(Receive(p, e, accessible).status) < Turns(p.status)
    ensures ReplyTo(p, e, accessible).Some? ==> Turns(Receive(p, e, accessible).status) + 2 <= Turns(p.status)
  {
    hide Perform, Revert, UndoOf;
  }

  lemma BroadcastOwes(links: seq<Link>)
    ensures Sum(Broadcast(links), Owed) == Sum(links, Owed)
  {
    SumAgree(Broadcast(links), links, Owed);
  }

  lemma SumsOfStep(c: Config, s: System, l: Label)
    requires Inv(c, s) && Enabled(s, l) && Proper(l)
    ensures Sum(Step(c, s, l).links, Owed) < Sum(s.links, Owed)
            || (Sum(Step(c, s, l).links, Owed) == Sum(s.links, Owed)
               && Sum(Step(c, s, l).links, Awake) < Sum(s.links, Awake)
                && !EffectOf(c, s, l).broadcast)
  {
    hide EffectOf, LinkOk, Agrees, Owed, Awake;
    var e := EffectOf(c, s, l);
    LinkDecreases(c, s, l);
    var links := if e.broadcast then Broadcast(s.links) else s.links;
    BroadcastOwes(s.links);
    assert Owed(Woken(s.links[l.i])) == Owed(s.links[l.i]) by {
      WokenOwes(s.links[l.i]);
    }
    SumUpdate(links, l.i, e.link, Owed);
    SumUpdate(links, l.i, e.link, Awake);
  }

  lemma WokenOwes(k: Link)
    ensures Owed(Woken(k)) == Owed(k)
  {
  }

  /** Every proper step of a transaction decreases its measure. */
  lemma MeasureDecreases(c: Config, s: System, l: Label)
    requires Inv(c, s) && Enabled(s, l) && Proper(l)
    ensures Measure(Step(c, s, l)) < Measure(s)
  {
    hide EffectOf, Inv, Owed, Sum, Step, Enabled;
    SumsOfStep(c, s, l);
    StepKeepsThreads(c, s, l);
    var s' := Step(c, s, l);
    SumBound(s'.links, Awake, 1);
    Lexicographic(Sum(s'.links, Owed), Sum(s.links, Owed), Sum(s'.links, Awake), Sum(s.links, Awake), |s.links|);
  }

  lemma WakeupStep(c: Config, s: System, l: Label)
    requires Enabled(s, l) && l.Wakeup?
    ensures Step(c, s, l) == s.(links := s.links[l.i := Woken(s.links[l.i])]) && !EffectOf(c, s, l).broadcast
    ensures l.i < |s.links| && Waiting(s.links[l.i].pc, false)
  {
    hide OnAdvance, OnReply, OnPeer;
  }

  lemma WokenAwake(k: Link)
    requires Waiting(k.pc, false)
    ensures Awake(k) == 0 && Awake(Woken(k)) == 1
  {
  }

  /** A wakeup without a reason costs one more test of the condition and nothing else. */
  lemma WakeupCosts(c: Config, s: System, l: Label)
    requires Enabled(s, l) && l.Wakeup?
    ensures Measure(Step(c, s, l)) == Measure(s) + 1
  {
    hide Owed, Awake, Step, EffectOf, Enabled, Sum;
    WakeupStep(c, s, l);
    WokenAwake(s.links[l.i]);
    WokenOwes(s.links[l.i]);
    SumUpdate(s.links, l.i, Woken(s.links[l.i]), Owed);
    SumUpdate(s.links, l.i, Woken(s.links[l.i]), Awake);
  }

  function Wakeups(ls: seq<Label>): nat {
    if ls == [] then 0 else (if Proper(ls[0]) then 0 else 1) + Wakeups(ls[1..])
  }

  lemma {:induction false} RunBound(c: Config, s: System, ls: seq<Label>)
    requires Inv(c, s) && Executes(c, s, ls)
    ensures |ls| + Measure(Final(c, s, ls)) <= Measure(s) + 2 * Wakeups(ls)
    decreases |ls|
  {
    hide Inv, Step, Measure, Enabled;
    if ls != [] {
      StepKeepsInv(c, s, ls[0]);
      if Proper(ls[0]) {
        MeasureDecreases(c, s, ls[0]);
      } else {
        WakeupCosts(c, s, ls[0]);
      }
      RunBound(c, Step(c, s, ls[0]), ls[1..]);
    }
  }

  lemma InitMeasure(c: Config)
    ensures Measure(Init(c)) == 22 * |c.peerBoards| * (|c.peerBoards| + 1)
  {
    var s := Init(c);
    SumConstant(s.links, Owed, 22);
    SumConstant(s.links, Awake, 0);
  }

  /**
   * Every join returns: a run with w unreasoned wakeups has at most 22 N (N + 1) + 2 w steps, whatever messages,
   * timeouts and closes it meets, and a run that cannot be continued has finished all threads.
   */
  lemma TransactionEnds(c: Config, ls: seq<Label>)
    requires Executes(c, Init(c), ls)
    ensures |ls| <= 22 * |c.peerBoards| * (|c.peerBoards| + 1) + 2 * Wakeups(ls)
    ensures (forall l :: Proper(l) ==> !Enabled(Final(c, Init(c), ls), l)) ==> Finished(Final(c, Init(c), ls))
  {
    InitInv(c);
    RunBound(c, Init(c), ls);
    InitMeasure(c);
    ReachableInv(c, ls);
    var s := Final(c, Init(c), ls);
    if !Finished(s) {
      var l := NoDeadlock(c, s);
    }
  }

  // ----- Several controllers -----

  /** A transaction of one controller. All controllers of a node wait on the same condition variable. */
  datatype Txn = Txn(config: Config, sys: System)

  predicate NodeInv(node: seq<Txn>) {
    forall t :: 0 <= t < |node| ==> Inv(node[t].config, node[t].sys)
  }

  function WokenTxn(t: Txn): Txn {
    t.(sys := t.sys.(links := Broadcast(t.sys.links)))
  }

  /** Transaction t takes a step; if it broadcasts, the waiters of all other transactions wake up too. */
  function NodeStep(node: seq<Txn>, t: nat, l: Label): (r: seq<Txn>)
    requires t < |node| && Enabled(node[t].sys, l)
    ensures |r| == |node|
  {
    var mine := node[t].(sys := Step(node[t].config, node[t].sys, l));
    var others := if EffectOf(node[t].config, node[t].sys, l).broadcast
                  then seq(|node|, j requires 0 <= j < |node| => WokenTxn(node[j])) else node;
    others[t := mine]
  }

  lemma BroadcastKeepsInv(c: Config, s: System)
    requires Inv(c, s)
    ensures Inv(c, s.(links := Broadcast(s.links)))
  {
    hide LinkOk, Agrees, MasterOnce, Sum;
    var s' := s.(links := Broadcast(s.links));
    MasterOnceFrame(c, s, s'.links);
    forall i | 0 <= i < |s.links| ensures LinkOk(c, c.peerBoards[i], s'.links[i]) && Agrees(s'.links[i].pc, s'.stats) {
      WokenOk(c, c.peerBoards[i], s.links[i]);
      WokenAgrees(s.links[i], s.stats);
    }
    SumAgree(s'.links, s.links, ReadyOwed);
    SumAgree(s'.links, s.links, CommitOwed);
    if s.stats.shouldAbort {
      var i :| 0 <= i < |s.links| && s.links[i].pc == Closed(NoReady);
      assert s'.links[i].pc == Closed(NoReady);
    }
    if s.stats.peersFailed {
      var i :| 0 <= i < |s.links| && s.links[i].pc == Closed(NoAck);
      assert s'.links[i].pc == Closed(NoAck);
    }
  }

  /** What the master has done does not depend on the threads. */
  lemma MasterOnceFrame(c: Config, s: System, links: seq<Link>)
    requires MasterOnce(c, s)
    ensures MasterOnce(c, s.(links := links))
  {
    hide Perform, Reply, Contains;
  }

  lemma WokenAgrees(k: Link, st: Stats)
    requires Agrees(k.pc, st)
    ensures Agrees(Woken(k).pc, st)
  {
  }

  lemma NodeStepKeepsInv(node: seq<Txn>, t: nat, l: Label)
    requires NodeInv(node) && t < |node| && Enabled(node[t].sys, l)
    ensures NodeInv(NodeStep(node, t, l))
  {
    hide Inv, EffectOf, Step;
    var r := NodeStep(node, t, l);
    StepKeepsInv(node[t].config, node[t].sys, l);
    forall j | 0 <= j < |r| ensures Inv(r[j].config, r[j].sys) {
      BroadcastKeepsInv(node[j].config, node[j].sys);
    }
  }

  function TxnOwed(t: Txn): nat {
    Sum(t.sys.links, Owed)
  }

  function TxnAwake(t: Txn): nat {
    Sum(t.sys.links, Awake)
  }

  function TxnThreads(t: Txn): nat {
    |t.sys.links|
  }

  function NodeMeasure(node: seq<Txn>): nat {
    Sum(node, TxnOwed) * (Sum(node, TxnThreads) + 1) + Sum(node, TxnAwake)
  }

  lemma AwakeAmongThreads(node: seq<Txn>)
    ensures Sum(node, TxnAwake) <= Sum(node, TxnThreads)
  {
    forall j | 0 <= j < |node| ensures TxnAwake(node[j]) <= TxnThreads(node[j]) {
      SumBound(node[j].sys.links, Awake, 1);
    }
    SumOrder(node, TxnAwake, TxnThreads);
  }

  lemma StepKeepsThreads(c: Config, s: System, l: Label)
    requires Enabled(s, l)
    ensures |Step(c, s, l).links| == |s.links|
  {
    hide EffectOf;
  }

  lemma NodeSums(node: seq<Txn>, t: nat, l: Label)
    requires NodeInv(node) && t < |node| && Enabled(node[t].sys, l) && Proper(l)
    ensures var r := NodeStep(node, t, l);
            && Sum(r, TxnThreads) == Sum(node, TxnThreads)
            && (Sum(r, TxnOwed) < Sum(node, TxnOwed)
                || (Sum(r, TxnOwed) == Sum(node, TxnOwed) && Sum(r, TxnAwake) < Sum(node, TxnAwake)))
  {
    hide Inv, EffectOf, Owed, Awake, Enabled, Sum;
    var r := NodeStep(node, t, l);
    var mine := r[t];
    SumsOfStep(node[t].config, node[t].sys, l);
    SumUpdate(node, t, mine, TxnOwed);
    SumUpdate(node, t, mine, TxnAwake);
    SumUpdate(node, t, mine, TxnThreads);
    OthersOwe(node, r, t, mine);
    StepKeepsThreads(node[t].config, node[t].sys, l);
    if !EffectOf(node[t].config, node[t].sys, l).broadcast {
      assert r == node[t := mine];
    }
  }

  /** Broadcasts reach other transactions' waiters, and still every proper step of any of them decreases the measure. */
  lemma NodeMeasureDecreases(node: seq<Txn>, t: nat, l: Label)
    requires NodeInv(node) && t < |node| && Enabled(node[t].sys, l) && Proper(l)
    ensures NodeMeasure(NodeStep(node, t, l)) < NodeMeasure(node)
  {
    hide NodeInv, NodeStep, Enabled, Sum;
    NodeSums(node, t, l);
    var r := NodeStep(node, t, l);
    AwakeAmongThreads(r);
    Lexicographic(Sum(r, TxnOwed), Sum(node, TxnOwed), Sum(r, TxnAwake), Sum(node, TxnAwake), Sum(node, TxnThreads));
  }

  lemma OthersOwe(node: seq<Txn>, r: seq<Txn>, t: nat, mine: Txn)
    requires t < |node| == |r| && r[t] == mine
    requires forall j :: 0 <= j < |node| && j != t ==> r[j] == node[j] || r[j] == WokenTxn(node[j])
    ensures Sum(r, TxnOwed) == Sum(node[t := mine], TxnOwed)
    ensures Sum(r, TxnThreads) == Sum(node[t := mine], TxnThreads)
  {
    hide Owed;
    var middle := node[t := mine];
    forall j | 0 <= j < |node|
      ensures TxnOwed(r[j]) == TxnOwed(middle[j]) && TxnThreads(r[j]) == TxnThreads(middle[j])
    {
      BroadcastOwes(node[j].sys.links);
    }
    SumAgree(r, middle, TxnOwed);
    SumAgree(r, middle, TxnThreads);
  }

  /** As long as one of the transactions has not finished, some thread of the node can go on. */
  lemma NodeNoDeadlock(node: seq<Txn>, t: nat) returns (l: Label)
    requires NodeInv(node) && t < |node| && !Finished(node[t].sys)
    ensures Proper(l) && Enabled(node[t].sys, l)
  {
    l := NoDeadlock(node[t].config, node[t].sys);
  }

  datatype Move = Move(t: nat, l: Label)

  predicate NodeExecutes(node: seq<Txn>, ms: seq<Move>)
    decreases |ms|
  {
    ms == []
    || (ms[0].t < |node| && Enabled(node[ms[0].t].sys, ms[0].l)
       && NodeExecutes(NodeStep(node, ms[0].t, ms[0].l), ms[1..]))
  }

  function NodeFinal(node: seq<Txn>, ms: seq<Move>): seq<Txn>
    requires NodeExecutes(node, ms)
    decreases |ms|
  {
    if ms == [] then node else NodeFinal(NodeStep(node, ms[0].t, ms[0].l), ms[1..])
  }

  /** No transaction of the node can take a proper step. */
  ghost predicate Stuck(node: seq<Txn>) {
    forall t, l :: 0 <= t < |node| && Proper(l) ==> !Enabled(node[t].sys, l)
  }

  predicate AllFinished(node: seq<Txn>) {
    forall t :: 0 <= t < |node| ==> Finished(node[t].sys)
  }

  lemma StuckMeansFinished(node: seq<Txn>)
    requires NodeInv(node) && Stuck(node)
    ensures AllFinished(node)
  {
    forall t | 0 <= t < |node| ensures Finished(node[t].sys) {
      if !Finished(node[t].sys) {
        var l := NodeNoDeadlock(node, t);
      }
    }
  }

  /** Wakeups without a reason anywhere on the node. */
  function NodeWakeups(ms: seq<Move>): nat {
    if ms == [] then 0 else (if Proper(ms[0].l) then 0 else 1) + NodeWakeups(ms[1..])
  }

  lemma NodeWakeupCosts(node: seq<Txn>, t: nat, l: Label)
    requires t < |node| && Enabled(node[t].sys, l) && l.Wakeup?
    ensures NodeMeasure(NodeStep(node, t, l)) == NodeMeasure(node) + 1
  {
    hide Owed, Awake, Step, EffectOf, Enabled, Sum;
    var s := node[t].sys;
    WakeupStep(node[t].config, s, l);
    var woken := Woken(s.links[l.i]);
    var r := NodeStep(node, t, l);
    assert r == node[t := r[t]];
    WokenAwake(s.links[l.i]);
    WokenOwes(s.links[l.i]);
    SumUpdate(s.links, l.i, woken, Owed);
    SumUpdate(s.links, l.i, woken, Awake);
    SumUpdate(node, t, r[t], TxnOwed);
    SumUpdate(node, t, r[t], TxnAwake);
    SumUpdate(node, t, r[t], TxnThreads);
  }

  lemma {:induction false} NodeRunBound(node: seq<Txn>, ms: seq<Move>)
    requires NodeInv(node) && NodeExecutes(node, ms)
    ensures |ms| + NodeMeasure(NodeFinal(node, ms)) <= NodeMeasure(node) + 2 * NodeWakeups(ms)
    ensures NodeInv(NodeFinal(node, ms))
    decreases |ms|
  {
    hide Enabled, Inv, NodeStep, NodeMeasure;
    if ms != [] {
      NodeStepKeepsInv(node, ms[0].t, ms[0].l);
      if Proper(ms[0].l) {
        NodeMeasureDecreases(node, ms[0].t, ms[0].l);
      } else {
        NodeWakeupCosts(node, ms[0].t, ms[0].l);
      }
      NodeRunBound(NodeStep(node, ms[0].t, ms[0].l), ms[1..]);
    }
  }

  /** Every controller is about to start its transaction. */
  predicate NodeInit(node: seq<Txn>) {
    forall t :: 0 <= t < |node| ==> node[t].sys == Init(node[t].config)
  }

  function Peers(t: Txn): nat {
    |t.config.peerBoards|
  }

  lemma {:induction false} NodeInitSums(node: seq<Txn>)
    requires NodeInit(node)
    ensures Sum(node, TxnOwed) == 22 * Sum(node, Peers) && Sum(node, TxnThreads) == Sum(node, Peers)
            && Sum(node, TxnAwake) == 0
  {
    hide Owed, Awake;
    if node != [] {
      InitOwed(node[0].config);
      NodeInitSums(node[1..]);
    }
  }

  lemma InitOwed(c: Config)
    ensures Sum(Init(c).links, Owed) == 22 * |c.peerBoards| && Sum(Init(c).links, Awake) == 0
  {
    SumConstant(Init(c).links, Owed, 22);
    SumConstant(Init(c).links, Awake, 0);
  }

  /**
   * With any number of controllers on one condition variable, and N peers in all their transactions together, a run
   * with w unreasoned wakeups has at most 22 N (N + 1) + 2 w steps, and when no proper step is left every transaction
   * has finished.
   */
  lemma NodeEnds(node: seq<Txn>, ms: seq<Move>)
    requires NodeInit(node) && NodeExecutes(node, ms)
    ensures |ms| <= 22 * Sum(node, Peers) * (Sum(node, Peers) + 1) + 2 * NodeWakeups(ms)
    ensures Stuck(NodeFinal(node, ms)) ==> AllFinished(NodeFinal(node, ms))
  {
    hide NodeFinal, NodeExecutes, Stuck, AllFinished, Inv, Init, Sum, NodeWakeups;
    forall t | 0 <= t < |node| ensures Inv(node[t].config, node[t].sys) {
      InitInv(node[t].config);
    }
    NodeRunBound(node, ms);
    NodeInitSums(node);
    if Stuck(NodeFinal(node, ms)) {
      StuckMeansFinished(NodeFinal(node, ms));
    }
  }
}
