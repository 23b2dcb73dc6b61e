/**
 The write-preferring readers-writer lock of file-operations.cpp: one mutex, one condition variable and three
 counters. Every stretch of code between taking and giving up the mutex is one method of AccessData, and one
 step of the transition system below, in which any number of threads use the lock in any order.
 */
module ReadersWriterLock {
  import opened Sums
  import opened Boards

  datatype Data = Data(readersActive: int, writersWaiting: int, writerActive: bool)

  predicate WriterBlocked(d: Data) {
    d.readersActive > 0 || d.writerActive
  }

  predicate ReaderBlocked(d: Data) {
    d.writersWaiting > 0 || d.writerActive
  }

  function WriterEnters(d: Data): Data {
    Data(d.readersActive, d.writersWaiting - 1, true)
  }

  function WriterArrives(d: Data): Data {
    d.(writersWaiting := d.writersWaiting + 1)
  }

  function ReaderEnters(d: Data): Data {
    d.(readersActive := d.readersActive + 1)
  }

  function ReaderLeaves(d: Data): Data {
    d.(readersActive := d.readersActive - 1)
  }

  function WriterLeaves(d: Data): Data {
    d.(writerActive := false)
  }

  /** Who leaves wakes the sleepers: a writer always, a reader when it is the last. */
  predicate LeaverWakes(role: Role, left: Data) {
    role == Writer || left.readersActive == 0
  }

  /** What happens in and under the write lock. */
  datatype Action = Acquired | Applied | Undone | Released

  class AccessData {
    var numReadersActive: int
    var numWritersWaiting: int
    var writerActive: bool
    ghost var record: seq<Action>  // every action, in order, recorded where it happens

    function View(): Data
      reads this
    {
      Data(numReadersActive, numWritersWaiting, writerActive)
    }

    constructor ()
      ensures View() == Data(0, 0, false) && record == []
    {
      numReadersActive, numWritersWaiting, writerActive, record := 0, 0, false, [];
    }

    /** acquireWriteLock up to its first wait: the writer is counted, and enters if nobody is in its way. */
    method ArriveAsWriter() returns (entered: bool)
      modifies this
      ensures entered <==> !WriterBlocked(old(View()))
      ensures View() == if entered then WriterEnters(WriterArrives(old(View()))) else WriterArrives(old(View()))
      ensures record == old(record) + if entered then [Acquired] else []
    {
      numWritersWaiting := numWritersWaiting + 1;
      entered := RecheckAsWriter();
    }

    /** The loop test after pthread_cond_wait has returned, and what follows it. */
    method RecheckAsWriter() returns (entered: bool)
      modifies this
      ensures entered <==> !WriterBlocked(old(View()))
      ensures View() == if entered then WriterEnters(old(View())) else old(View())
      ensures record == old(record) + if entered then [Acquired] else []
    {
      entered := !(numReadersActive > 0 || writerActive);
      if entered {
        numWritersWaiting := numWritersWaiting - 1;
        writerActive := true;
        record := record + [Acquired];
      }
    }

    /** releaseWriteLock; unlike a leaving reader it always broadcasts. */
    method ReleaseWriteLock() returns (broadcast: bool)
      modifies this
      ensures View() == WriterLeaves(old(View()))
      ensures record == old(record) + [Released]
      ensures broadcast <==> LeaverWakes(Writer, View())
    {
      writerActive := false;
      record := record + [Released];
      broadcast := true;
    }

    /** The entry of readMessageFromFile, at its start and after every wait. */
    method TryEnterAsReader() returns (entered: bool)
      modifies this
      ensures entered <==> !ReaderBlocked(old(View()))
      ensures View() == if entered then ReaderEnters(old(View())) else old(View())
      ensures record == old(record)
    {
      entered := !(numWritersWaiting > 0 || writerActive);
      if entered {
        numReadersActive := numReadersActive + 1;
      }
    }

    /** The exit of readMessageFromFile; the last reader broadcasts. */
    method LeaveAsReader() returns (broadcast: bool)
      modifies this
      ensures View() == ReaderLeaves(old(View()))
      ensures broadcast <==> LeaverWakes(Reader, View())
      ensures record == old(record)
    {
      numReadersActive := numReadersActive - 1;
      broadcast := numReadersActive == 0;
    }

    /** A change of the file under the lock is recorded with it. */
    ghost method Note(action: Action)
      modifies this`record
      ensures record == old(record) + [action]
    {
      record := record + [action];
    }
  }

  // ----- Any number of threads -----

  datatype Role = Reader | Writer

  datatype Place = Outside | Waiting(awake: bool) | Inside

  /** `seen` is the board a reader found when it entered. */
  datatype Thread = Thread(role: Role, place: Place, seen: Board)

  /** `settled` is the board as of the last writer's release. */
  datatype State = State(data: Data, threads: seq<Thread>, board: Board, settled: Board)

  datatype Label =
    | Arrive(i: nat, role: Role)
    | Wakeup(i: nat)             // pthread_cond_wait returns without a broadcast
    | Recheck(i: nat)
    | Edit(i: nat, board: Board) // the writer inside changes the file, or undoes its change
    | Leave(i: nat)

  function WokenThread(t: Thread): Thread {
    if t.place.Waiting? then t.(place := Waiting(true)) else t
  }

  function Broadcast(ts: seq<Thread>): (r: seq<Thread>)
    ensures |r| == |ts| && forall i :: 0 <= i < |ts| ==> r[i] == WokenThread(ts[i])
  {
    seq(|ts|, i requires 0 <= i < |ts| => WokenThread(ts[i]))
  }

  predicate Enabled(s: State, l: Label) {
    && l.i < |s.threads|
    && var t := s.threads[l.i];
       match l
       case Arrive(_, _) => t.place == Outside
       case Wakeup(_) => t.place == Waiting(false)
       case Recheck(_) => t.place == Waiting(true)
       case Edit(_, _) => t.role == Writer && t.place == Inside
       case Leave(_) => t.place == Inside
  }

  /** The loop test of a thread that holds the mutex: it enters, or goes (back) to sleep. */
  function Try(s: State, i: nat, role: Role): State
    requires i < |s.threads|
  {
    var blocked := if role == Writer then WriterBlocked(s.data) else ReaderBlocked(s.data);
    if blocked then s.(threads := s.threads[i := Thread(role, Waiting(false), s.threads[i].seen)])
    else State(if role == Writer then WriterEnters(s.data) else ReaderEnters(s.data),
               s.threads[i := Thread(role, Inside, s.board)], s.board, s.settled)
  }

  function Step(s: State, l: Label): State
    requires Enabled(s, l)
  {
    var t := s.threads[l.i];
    match l
    case Arrive(i, role) => Try(if role == Writer then s.(data := WriterArrives(s.data)) else s, i, role)
    case Wakeup(i) => s.(threads := s.threads[i := WokenThread(t)])
    case Recheck(i) => Try(s, i, t.role)
    case Edit(_, board) => s.(board := board)
    case Leave(i) =>
      var left := s.threads[i := t.(place := Outside)];
      var data := if t.role == Writer then WriterLeaves(s.data) else ReaderLeaves(s.data);
      State(data, if LeaverWakes(t.role, data) then Broadcast(left) else left,
            s.board, if t.role == Writer then s.board else s.settled)
  }

  // ----- The invariant -----

  function ReaderInside(t: Thread): nat {
    if t.role == Reader && t.place == Inside then 1 else 0
  }

  function WriterInside(t: Thread): nat {
    if t.role == Writer && t.place == Inside then 1 else 0
  }

  function WriterWaiting(t: Thread): nat {
    if t.role == Writer && t.place.Waiting? then 1 else 0
  }

  /** A sleeper that nobody has woken is in front of a closed door. */
  predicate SleepsForAReason(t: Thread, d: Data) {
    t.place == Waiting(false) ==> if t.role == Writer then WriterBlocked(d) else ReaderBlocked(d)
  }

  /** A reader inside sees one settled board. */
  predicate SeesSettled(t: Thread, s: State) {
    t.role == Reader && t.place == Inside ==> t.seen == s.board == s.settled
  }

  /** The three counters are the three populations. */
  predicate CountersExact(s: State) {
    && s.data.readersActive == Sum(s.threads, ReaderInside)
    && s.data.writersWaiting == Sum(s.threads, WriterWaiting)
    && (if s.data.writerActive then 1 else 0) == Sum(s.threads, WriterInside)
  }

  predicate Inv(s: State) {
    && CountersExact(s)
    && (s.data.writerActive ==> s.data.readersActive == 0)
    && (!s.data.writerActive ==> s.board == s.settled)
    && (forall i :: 0 <= i < |s.threads| ==> SleepsForAReason(s.threads[i], s.data))
    && (forall i :: 0 <= i < |s.threads| ==> SeesSettled(s.threads[i], s))
  }

  predicate Init(s: State) {
    && s.data == Data(0, 0, false)
    && s.board == s.settled
    && forall i :: 0 <= i < |s.threads| ==> s.threads[i].place == Outside
  }

  lemma InitInv(s: State)
    requires Init(s)
    ensures Inv(s)
  {
    SumConstant(s.threads, ReaderInside, 0);
    SumConstant(s.threads, WriterInside, 0);
    SumConstant(s.threads, WriterWaiting, 0);
  }

  lemma Update(ts: seq<Thread>, i: nat, t: Thread)
    requires i < |ts|
    ensures Sum(ts[i := t], ReaderInside) == Sum(ts, ReaderInside) - ReaderInside(ts[i]) + ReaderInside(t)
    ensures Sum(ts[i := t], WriterInside) == Sum(ts, WriterInside) - WriterInside(ts[i]) + WriterInside(t)
    ensures Sum(ts[i := t], WriterWaiting) == Sum(ts, WriterWaiting) - WriterWaiting(ts[i]) + WriterWaiting(t)
  {
    SumUpdate(ts, i, t, ReaderInside);
    SumUpdate(ts, i, t, WriterInside);
    SumUpdate(ts, i, t, WriterWaiting);
  }

  lemma BroadcastKeepsCounts(ts: seq<Thread>)
    ensures Sum(Broadcast(ts), ReaderInside) == Sum(ts, ReaderInside)
    ensures Sum(Broadcast(ts), WriterInside) == Sum(ts, WriterInside)
    ensures Sum(Broadcast(ts), WriterWaiting) == Sum(ts, WriterWaiting)
  {
    SumAgree(Broadcast(ts), ts, ReaderInside);
    SumAgree(Broadcast(ts), ts, WriterInside);
    SumAgree(Broadcast(ts), ts, WriterWaiting);
  }

  lemma InsideCounts(s: State, i: nat)
    requires i < |s.threads|
    ensures ReaderInside(s.threads[i]) <= Sum(s.threads, ReaderInside)
    ensures WriterInside(s.threads[i]) <= Sum(s.threads, WriterInside)
  {
    SumMember(s.threads, i, ReaderInside);
    SumMember(s.threads, i, WriterInside);
  }

  lemma TryKeepsInv(s: State, i: nat, role: Role, before: Data)
    requires i < |s.threads|
    requires s.threads[i].place == Waiting(true) || s.threads[i].place == Outside
    requires s.threads[i].place == Waiting(true) ==> s.threads[i].role == role
    requires Inv(s.(data := before))
    requires s.data == if role == Writer && s.threads[i].place == Outside then WriterArrives(before) else before
    ensures Inv(Try(s, i, role))
  {
    var s' := Try(s, i, role);
    Update(s.threads, i, s'.threads[i]);
    forall j | 0 <= j < |s.threads|
      ensures SleepsForAReason(s'.threads[j], s'.data) && SeesSettled(s'.threads[j], s')
    {
      if j != i {
        assert SleepsForAReason(s.threads[j], before);
        assert SeesSettled(s.threads[j], s.(data := before));
        InsideCounts(s, j);
      }
    }
  }

  lemma LeaveKeepsInv(s: State, i: nat)
    requires Inv(s) && Enabled(s, Leave(i))
    ensures Inv(Step(s, Leave(i)))
  {
    var s' := Step(s, Leave(i));
    var left := s.threads[i := s.threads[i].(place := Outside)];
    Update(s.threads, i, left[i]);
    BroadcastKeepsCounts(left);
    InsideCounts(s, i);
    forall j | 0 <= j < |s.threads|
      ensures SleepsForAReason(s'.threads[j], s'.data) && SeesSettled(s'.threads[j], s')
    {
      assert SleepsForAReason(s.threads[j], s.data) && SeesSettled(s.threads[j], s);
      InsideCounts(s, j);
    }
  }

  /** Every step keeps the invariant. */
  lemma StepKeepsInv(s: State, l: Label)
    requires Inv(s) && Enabled(s, l)
    ensures Inv(Step(s, l))
  {
    match l
    case Arrive(i, role) =>
      TryKeepsInv(if role == Writer then s.(data := WriterArrives(s.data)) else s, i, role, s.data);
    case Wakeup(i) =>
      Update(s.threads, i, WokenThread(s.threads[i]));
      EachKept(s, Step(s, l));
    case Recheck(i) =>
      TryKeepsInv(s, i, s.threads[i].role, s.data);
    case Edit(i, board) =>
      InsideCounts(s, i);
      forall j | 0 <= j < |s.threads| ensures SeesSettled(s.threads[j], Step(s, l)) {
        InsideCounts(s, j);
      }
    case Leave(i) =>
      LeaveKeepsInv(s, i);
  }

  lemma EachKept(s: State, s': State)
    requires Inv(s) && |s'.threads| == |s.threads| && s'.(threads := s.threads) == s
    requires forall j :: 0 <= j < |s.threads| ==>
                 s'.threads[j] == s.threads[j] || s'.threads[j] == WokenThread(s.threads[j])
    ensures forall j :: 0 <= j < |s.threads| ==>
                SleepsForAReason(s'.threads[j], s'.data) && SeesSettled(s'.threads[j], s')
  {
    forall j | 0 <= j < |s.threads|
      ensures SleepsForAReason(s'.threads[j], s'.data) && SeesSettled(s'.threads[j], s')
    {
      assert SleepsForAReason(s.threads[j], s.data) && SeesSettled(s.threads[j], s);
    }
  }

  // ----- Runs -----

  predicate Executes(s: State, ls: seq<Label>)
    decreases |ls|
  {
    ls == [] || (Enabled(s, ls[0]) && Executes(Step(s, ls[0]), ls[1..]))
  }

  function Final(s: State, ls: seq<Label>): State
    requires Executes(s, ls)
    decreases |ls|
  {
    if ls == [] then s else Final(Step(s, ls[0]), ls[1..])
  }

  lemma {:induction false} RunKeepsInv(s: State, ls: seq<Label>)
    requires Inv(s) && Executes(s, ls)
    ensures Inv(Final(s, ls))
    decreases |ls|
  {
    if ls != [] {
      StepKeepsInv(s, ls[0]);
      RunKeepsInv(Step(s, ls[0]), ls[1..]);
    }
  }

  /** Over every run: a writer is inside alone, and the counters are the true populations. */
  lemma LockSafety(s0: State, ls: seq<Label>, i: nat, j: nat)
    requires Init(s0) && Executes(s0, ls)
    requires var ts := Final(s0, ls).threads;
             i < |ts| && j < |ts| && i != j && ts[i].place == Inside && ts[j].place == Inside
    ensures var ts := Final(s0, ls).threads; ts[i].role == Reader && ts[j].role == Reader
    ensures CountersExact(Final(s0, ls))
  {
    InitInv(s0);
    RunKeepsInv(s0, ls);
    var s := Final(s0, ls);
    InsideCounts(s, i);
    InsideCounts(s, j);
    if i < j {
      SumTwoMembers(s.threads, i, j, WriterInside);
    } else {
      SumTwoMembers(s.threads, j, i, WriterInside);
    }
  }

  /** Over every run: for as long as a reader is inside, the board is the settled one it found on entering. */
  lemma ReadersSeeSettledBoard(s0: State, ls: seq<Label>, i: nat)
    requires Init(s0) && Executes(s0, ls)
    requires i < |Final(s0, ls).threads|
    requires Final(s0, ls).threads[i].role == Reader && Final(s0, ls).threads[i].place == Inside
    ensures var s := Final(s0, ls); s.threads[i].seen == s.board == s.settled
  {
    InitInv(s0);
    RunKeepsInv(s0, ls);
    assert SeesSettled(Final(s0, ls).threads[i], Final(s0, ls));
  }

  /** No reader enters while a writer waits. */
  lemma WritersArePreferred(s: State, l: Label, w: nat)
    requires Inv(s) && Enabled(s, l) && w < |s.threads|
    requires s.threads[w].role == Writer && s.threads[w].place.Waiting?
    ensures var t := Step(s, l).threads[l.i]; t.role == Reader && t.place == Inside ==> s.threads[l.i] == t
  {
    SumMember(s.threads, w, WriterWaiting);
  }

  // ----- Who gets in -----

  /** The thread asks to enter: it arrives, or has been woken and tests the door again. */
  predicate Asks(s: State, l: Label, role: Role)
    requires Enabled(s, l)
  {
    (l.Arrive? && l.role == role) || (l.Recheck? && s.threads[l.i].role == role)
  }

  lemma NoneAmong(ts: seq<Thread>, f: Thread -> nat)
    ensures Sum(ts, f) == 0 <==> forall j :: 0 <= j < |ts| ==> f(ts[j]) == 0
  {
    if Sum(ts, f) == 0 {
      forall j | 0 <= j < |ts| ensures f(ts[j]) == 0 {
        SumMember(ts, j, f);
      }
    } else {
      var j := SumPositive(ts, f);
    }
  }

  /**
   * A reader that asks gets in exactly when no thread is a writer that waits or is inside; other readers do not
   * matter.
   */
  lemma ReaderEntersExactly(s: State, l: Label)
    requires Inv(s) && Enabled(s, l) && Asks(s, l, Reader)
    ensures Step(s, l).threads[l.i].role == Reader
    ensures Step(s, l).threads[l.i].place == Inside
            <==> forall j :: 0 <= j < |s.threads| && s.threads[j].role == Writer ==> s.threads[j].place == Outside
  {
    NoneAmong(s.threads, WriterWaiting);
    NoneAmong(s.threads, WriterInside);
    if forall j :: 0 <= j < |s.threads| && s.threads[j].role == Writer ==> s.threads[j].place == Outside {
      forall j | 0 <= j < |s.threads| ensures WriterWaiting(s.threads[j]) == 0 && WriterInside(s.threads[j]) == 0 {
      }
    } else {
      var j :| 0 <= j < |s.threads| && s.threads[j].role == Writer && s.threads[j].place != Outside;
      assert WriterWaiting(s.threads[j]) == 1 || WriterInside(s.threads[j]) == 1;
    }
  }

  /** A writer that asks gets in exactly when nobody is inside; waiting threads do not matter. */
  lemma WriterEntersExactly(s: State, l: Label)
    requires Inv(s) && Enabled(s, l) && Asks(s, l, Writer)
    ensures Step(s, l).threads[l.i].role == Writer
    ensures Step(s, l).threads[l.i].place == Inside
            <==> forall j :: 0 <= j < |s.threads| ==> s.threads[j].place != Inside
  {
    NoneAmong(s.threads, ReaderInside);
    NoneAmong(s.threads, WriterInside);
    if forall j :: 0 <= j < |s.threads| ==> s.threads[j].place != Inside {
      forall j | 0 <= j < |s.threads| ensures ReaderInside(s.threads[j]) == 0 && WriterInside(s.threads[j]) == 0 {
      }
    } else {
      var j :| 0 <= j < |s.threads| && s.threads[j].place == Inside;
      assert ReaderInside(s.threads[j]) == 1 || WriterInside(s.threads[j]) == 1;
    }
  }

  /**
   * Any number of readers can be inside together: from the start there is a run after which the first n threads are.
   */
  lemma {:induction false} ReadersShare(s0: State, n: nat) returns (ls: seq<Label>)
    requires Init(s0) && n <= |s0.threads|
    ensures Executes(s0, ls) && Inv(Final(s0, ls)) && |Final(s0, ls).threads| == |s0.threads|
    ensures forall i :: 0 <= i < |s0.threads| ==>
              var t := Final(s0, ls).threads[i];
              if i < n then t.role == Reader && t.place == Inside else t.place == Outside
  {
    hide Inv, Step;
    if n == 0 {
      ls := [];
      InitInv(s0);
    } else {
      var before := ReadersShare(s0, n - 1);
      var s := Final(s0, before);
      var l := Arrive(n - 1, Reader);
      StepKeepsInv(s, l);
      ReaderEntersExactly(s, l);
      EnteringReaderOnly(s, n - 1);
      RunExtends(s0, before, l);
      ls := before + [l];
    }
  }

  lemma EnteringReaderOnly(s: State, i: nat)
    requires Enabled(s, Arrive(i, Reader))
    ensures var s' := Step(s, Arrive(i, Reader));
            |s'.threads| == |s.threads| && forall j :: 0 <= j < |s.threads| && j != i ==> s'.threads[j] == s.threads[j]
  {
  }

  lemma {:induction false} RunExtends(s: State, ls: seq<Label>, l: Label)
    requires Executes(s, ls) && Enabled(Final(s, ls), l)
    ensures Executes(s, ls + [l]) && Final(s, ls + [l]) == Step(Final(s, ls), l)
    decreases |ls|
  {
    if ls == [] {
      assert ls + [l] == [l] && [l][1..] == [];
    } else {
      assert (ls + [l])[1..] == ls[1..] + [l];
      RunExtends(Step(s, ls[0]), ls[1..], l);
    }
  }

  // ----- Progress -----

  /** Steps that finish something already begun: no new arrivals, no spurious wakeups, no edits. */
  predicate Finishing(l: Label) {
    l.Recheck? || l.Leave?
  }

  /** If any thread is waiting or inside, some thread can go on without outside help. */
  lemma NoDeadlock(s: State, i: nat) returns (l: Label)
    requires Inv(s) && i < |s.threads| && s.threads[i].place != Outside
    ensures Finishing(l) && Enabled(s, l)
  {
    var t := s.threads[i];
    if t.place == Inside {
      l := Leave(i);
    } else if t.place == Waiting(true) {
      l := Recheck(i);
    } else {
      assert SleepsForAReason(t, s.data);
      if s.data.readersActive > 0 {
        var j := SumPositive(s.threads, ReaderInside);
        l := Leave(j);
      } else if s.data.writerActive {
        var j := SumPositive(s.threads, WriterInside);
        l := Leave(j);
      } else {
        var j := SumPositive(s.threads, WriterWaiting);
        assert SleepsForAReason(s.threads[j], s.data);
        l := Recheck(j);
      }
    }
  }

  function Owed(t: Thread): nat {
    match t.place case Outside => 0 case Inside => 1 case Waiting(_) => 2
  }

  function Awake(t: Thread): nat {
    if t.place == Waiting(true) then 1 else 0
  }

  /** What is left to do: threads to get through, weighted above threads about to test the door. */
  function Measure(s: State): nat {
    Sum(s.threads, Owed) * (|s.threads| + 1) + Sum(s.threads, Awake)
  }

  lemma FinishingDecreases(s: State, l: Label)
    requires Enabled(s, l) && Finishing(l)
    ensures Measure(Step(s, l)) < Measure(s)
  {
    var s' := Step(s, l);
    var t := s.threads[l.i];
    if l.Recheck? && s'.data == s.data {
      SumUpdate(s.threads, l.i, t.(place := Waiting(false)), Owed);
      SumUpdate(s.threads, l.i, t.(place := Waiting(false)), Awake);
    } else {
      var next := s.threads[l.i := Thread(t.role, if l.Leave? then Outside else Inside, s'.threads[l.i].seen)];
      SumUpdate(s.threads, l.i, next[l.i], Owed);
      SumAgree(next, s'.threads, Owed);
      SumBound(s'.threads, Awake, 1);
      MulStep(Sum(s'.threads, Owed), Sum(s.threads, Owed), |s.threads| + 1);
    }
  }

  /** Once arrivals stop, every schedule drains the lock: it is bounded, and it only ends with everybody outside. */
  lemma {:induction false} LockDrains(s: State, ls: seq<Label>)
    requires Inv(s) && Executes(s, ls) && forall k :: 0 <= k < |ls| ==> Finishing(ls[k])
    ensures |ls| <= Measure(s)
    ensures (forall l :: Finishing(l) ==> !Enabled(Final(s, ls), l))
            ==> forall t :: t in Final(s, ls).threads ==> t.place == Outside
    decreases |ls|
  {
    if ls != [] {
      FinishingDecreases(s, ls[0]);
      StepKeepsInv(s, ls[0]);
      LockDrains(Step(s, ls[0]), ls[1..]);
    } else if forall l :: Finishing(l) ==> !Enabled(s, l) {
      forall t | t in s.threads ensures t.place == Outside {
        var i :| 0 <= i < |s.threads| && s.threads[i] == t;
        if t.place != Outside {
          var l := NoDeadlock(s, i);
        }
      }
    }
  }
}
