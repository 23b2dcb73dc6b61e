/**
 sync-server.cpp: one session of a peer with a master. `Receive` is one turn of the receive loop as a function;
 `SessionHandler.Handle` is the loop itself, proved to compute it while it edits the file and holds the lock.
 */
module SyncServer {
  import opened Text
  import opened Utilities
  import opened Wire
  import opened Boards
  import opened FileLines
  import opened ReadersWriterLock
  import opened FileOperations

  /** Where a message with too few tokens, or an operation that cannot run, has stopped the program. */
  datatype Where = OutsideLock | BeforeEdit | AfterEdit

  /** How a session ended, by what happened to the board. */
  datatype How = Untouched | Refused | Kept | UndoneOnVerdict | UndoneOnTimeout | UndoneOnHangup | Stopped(at: Where)

  datatype Status = Idle | PrecommitAcknowledged | AwaitingVerdict | Ended(how: How)

  datatype Session = Session(status: Status, user: string, undo: Undo, board: Board, lockHeld: bool)

  /** What recv_nonblock brings: a message, recv_nodata, or 0 because the master closed. */
  datatype Event = Message(m: MasterMsg) | TimedOut | HungUp

  function Settle(s: Session, how: How): Session {
    if s.status != AwaitingVerdict then s.(status := Ended(Untouched))
    else if how == Kept then s.(status := Ended(Kept), lockHeld := false)
    else s.(status := Ended(how), board := Revert(s.board, s.undo), lockHeld := false)
  }

  /** The program stops; a lock that is held stays held. */
  function Stop(s: Session): Session {
    s.(status := Ended(Stopped(if s.status == AwaitingVerdict then AfterEdit else OutsideLock)))
  }

  /** The message runs past its tokens in this status. */
  predicate StopsOn(m: MasterMsg, status: Status) {
    m.NoCommand? || (m.BarePrecommit? && status == Idle) || (m.BareCommit? && status == PrecommitAcknowledged)
  }

  /** The operation branch. */
  function ReceiveCommit(s: Session, op: Op, accessible: bool): Session {
    if !accessible then s.(status := Ended(Refused))
    else if !Runnable(s.board, op) then s.(status := Ended(Stopped(BeforeEdit)), lockHeld := true)
    else s.(status := AwaitingVerdict, undo := UndoOf(s.board, op), board := Perform(s.board, s.user, op),
        lockHeld := true)
  }

  /** One turn of the loop; a message that does not fit the status is ignored. */
  function Receive(s: Session, e: Event, accessible: bool): Session {
    match e
    case TimedOut => Settle(s, UndoneOnTimeout)
    case HungUp => Settle(s, UndoneOnHangup)
    case Message(m) =>
      if StopsOn(m, s.status) then Stop(s)
      else if m.Precommit? && s.status == Idle then s.(status := PrecommitAcknowledged, user := m.user)
      else if m.Abort? && s.status == PrecommitAcknowledged then s.(status := Ended(Untouched))
      else if m.Commit? && s.status == PrecommitAcknowledged then ReceiveCommit(s, m.op, accessible)
      else if m.SuccessNoop? && s.status == AwaitingVerdict then Settle(s, Kept)
      else if m.UnsuccessUndo? && s.status == AwaitingVerdict then Settle(s, UndoneOnVerdict)
      else s
  }

  /** What is sent back in that turn. */
  function ReplyTo(s: Session, e: Event, accessible: bool): Option<PeerMsg> {
    match e
    case TimedOut => None
    case HungUp => None
    case Message(m) =>
      if m.Precommit? && s.status == Idle then Some(Ready)
      else if m.Commit? && s.status == PrecommitAcknowledged then
        if !accessible then Some(CommitUnsuccess) else if Runnable(s.board, m.op) then Some(CommitSuccess) else None
      else None
  }

  /** The undo record can be run on the board. */
  predicate CanRevert(b: Board, u: Undo) {
    match u
    case NoUndo => true
    case Truncate(size) => size <= |b.bytes|
    case Rewrite(k, _, _) => LineAt(b.bytes, k).Some?
  }

  /** What can be performed can be undone, on every board and for lines of any length. */
  lemma PerformedCanBeUndone(b: Board, user: string, op: Op)
    requires Runnable(b, op)
    ensures CanRevert(Perform(b, user, op), UndoOf(b, op))
  {
    hide LineAt, ReplaceLine, ReplaceArguments, UserAndMessage, StoredLine;
    if op.Replace? {
      var (k, message) := ReplaceArguments(op.argument).value;
      ReplacedLineFound(b.bytes, k, user, message);
    }
  }

  // ----- HasBytes sessions -----

  /** What the loop meets: a packet (and whether the file is accessible then), a timeout, or the master's close. */
  datatype Incoming = Arrives(packet: string, accessible: bool) | Silence | Close

  function EventOf(i: Incoming): Event
    requires HasBytes(i)
  {
    match i
    case Arrives(packet, _) => Message(PeerDecode(packet))
    case Silence => TimedOut
    case Close => HungUp
  }

  function Turn(s: Session, i: Incoming): Session
    requires HasBytes(i)
  {
    Receive(s, EventOf(i), i.Arrives? && i.accessible)
  }

  predicate HasBytes(i: Incoming) {
    i.Arrives? ==> |i.packet| >= 2
  }

  predicate Packets(script: seq<Incoming>) {
    forall i :: 0 <= i < |script| ==> HasBytes(script[i])
  }

  /** The session over a whole script; when nothing more comes, the next recv_nonblock times out. */
  function Run(s: Session, script: seq<Incoming>): Session
    requires Packets(script)
    decreases |script|
  {
    if s.status.Ended? then s
    else if script == [] then Turn(s, Silence)
    else Run(Turn(s, script[0]), script[1..])
  }

  /** What the reply says beside its kind: a fixed text, or the answer of the operation. */
  function InfoTo(s: Session, m: MasterMsg, accessible: bool): string {
    if m.Commit? then Reply(s.board, m.op, accessible, false) else "User stored. Syncronization Server available."
  }

  /** The packet sent back in a turn, if any. */
  function PacketTo(s: Session, e: Event, accessible: bool): Option<string> {
    match ReplyTo(s, e, accessible)
    case None => None
    case Some(reply) => Some(PeerReply(reply, InfoTo(s, e.m, accessible)))
  }

  /** The master recognises the reply in the packet. */
  lemma PacketCarriesReply(s: Session, e: Event, accessible: bool)
    ensures var packet, reply := PacketTo(s, e, accessible), ReplyTo(s, e, accessible);
            (packet.Some? <==> reply.Some?) && (packet.Some? ==> MasterDecode(packet.value) == reply)
  {
    hide MasterDecode, PeerReply, InfoTo;
    if ReplyTo(s, e, accessible).Some? {
      RepliesOnTheWire(ReplyTo(s, e, accessible).value, InfoTo(s, e.m, accessible));
    }
  }

  /** The packet that acknowledges an operation names the message the operation has written. */
  lemma AcknowledgementNamesMessage(s: Session, op: Op)
    requires s.status == PrecommitAcknowledged && Runnable(s.board, op)
    requires op.Write? ==> 0 <= s.board.messageNumber <= INT_MAX
    ensures PacketTo(s, Message(Commit(op)), true)
            == Some(Packet("COMMIT_SUCCESS", "3.0 WROTE " + FormatInt(ReportedNumber(s.board, op))))
  {
    hide Packet, FormatInt, Reply;
    SuccessText(s.board, op, false);
    assert "3.0 WROTE " + FormatInt(ReportedNumber(s.board, op)) + ""
           == "3.0 WROTE " + FormatInt(ReportedNumber(s.board, op));
  }

  function Answer(s: Session, i: Incoming): seq<string>
    requires HasBytes(i)
  {
    match PacketTo(s, EventOf(i), i.Arrives? && i.accessible) case None => [] case Some(packet) => [packet]
  }

  /** The packets sent back over a whole script. */
  function Answers(s: Session, script: seq<Incoming>): seq<string>
    requires Packets(script)
    decreases |script|
  {
    if s.status.Ended? || script == [] then []
    else Answer(s, script[0]) + Answers(Turn(s, script[0]), script[1..])
  }

  function Start(b: Board): Session {
    Session(Idle, "", NoUndo, b, false)
  }

  /** The statuses in which a session holds the write lock: awaiting the verdict, or stopped inside the lock. */
  predicate HoldsLock(status: Status) {
    status == AwaitingVerdict || status == Ended(Stopped(BeforeEdit)) || status == Ended(Stopped(AfterEdit))
  }

  /** Between turns the lock is held exactly in these statuses. */
  predicate LockDiscipline(s: Session) {
    s.lockHeld <==> HoldsLock(s.status)
  }

  /** What a session has done in and under the write lock by the time it has this status. */
  function RecordOf(status: Status): seq<Action> {
    match status
    case Idle => []
    case PrecommitAcknowledged => []
    case AwaitingVerdict => [Acquired, Applied]
    case Ended(Untouched) => []
    case Ended(Refused) => []
    case Ended(Kept) => [Acquired, Applied, Released]
    case Ended(Stopped(OutsideLock)) => []
    case Ended(Stopped(BeforeEdit)) => [Acquired]
    case Ended(Stopped(AfterEdit)) => [Acquired, Applied]
    case Ended(_) => [Acquired, Applied, Undone, Released]
  }

  /** Each release has its acquisition, and each undo its operation before it and a release behind it. */
  predicate Balanced(status: Status) {
    var done := multiset(RecordOf(status));
    && done[Acquired] == done[Released] + (if HoldsLock(status) then 1 else 0) <= 1
    && done[Undone] <= done[Applied] <= done[Acquired] && done[Undone] <= done[Released]
  }

  lemma AllBalanced(status: Status)
    ensures Balanced(status)
  {
    hide RecordOf;
    var record, done := RecordOf(status), multiset(RecordOf(status));
    RecordShapes(status);
    if record == [Acquired, Applied, Undone, Released] {
      assert done[Acquired] == done[Applied] == done[Undone] == done[Released] == 1;
    } else if record == [Acquired, Applied, Released] {
      assert done[Acquired] == done[Applied] == done[Released] == 1 && done[Undone] == 0;
    } else if record == [Acquired, Applied] {
      assert done[Acquired] == done[Applied] == 1 && done[Undone] == done[Released] == 0;
    } else {
      assert done[Applied] == done[Undone] == done[Released] == 0;
    }
  }

  lemma RecordShapes(status: Status)
    ensures var r := RecordOf(status);
            if HoldsLock(status) then r == [Acquired, Applied] || r == [Acquired]
            else r == [] || r == [Acquired, Applied, Released] || r == [Acquired, Applied, Undone, Released]
  {
  }

  /**
   * Whatever arrives in whatever order, the session ends; unless the program has stopped inside it, the lock is free
   * then. The lock has been acquired at most once and released as often, but for such a stop, and the operation has
   * been undone at most once, after it was performed and before the release.
   */
  lemma {:induction false} SessionEnds(s: Session, script: seq<Incoming>)
    requires Packets(script) && LockDiscipline(s)
    ensures var t := Run(s, script);
            && t.status.Ended? && LockDiscipline(t) && (t.lockHeld ==> t.status.how.Stopped?) && Balanced(t.status)
    decreases |script|
  {
    hide Perform, Revert, UndoOf, Runnable, PeerDecode, Balanced;
    AllBalanced(Run(s, script).status);
    if !s.status.Ended? && script != [] {
      TurnKeepsDiscipline(s, script[0]);
      SessionEnds(Turn(s, script[0]), script[1..]);
    } else if !s.status.Ended? {
      TurnKeepsDiscipline(s, Silence);
      TurnEnds(s);
    }
  }

  lemma TurnKeepsDiscipline(s: Session, i: Incoming)
    requires HasBytes(i) && LockDiscipline(s) && !s.status.Ended?
    ensures LockDiscipline(Turn(s, i))
  {
    hide Perform, Revert, UndoOf, Runnable, PeerDecode;
  }

  /** The message that arrives at a place in the script. */
  function MessageAt(script: seq<Incoming>, k: nat): Option<MasterMsg>
    requires Packets(script)
  {
    if k < |script| && script[k].Arrives? then Some(PeerDecode(script[k].packet)) else None
  }

  /** The session has ended without the operation having been performed. */
  predicate NotPerformed(how: How) {
    how == Untouched || how == Refused || how == Stopped(OutsideLock) || how == Stopped(BeforeEdit)
  }

  /** A session whose PRECOMMIT has been acknowledged: the first COMMIT counts, unless an ABORT comes before it. */
  lemma {:induction false} AcknowledgedOutcome(s: Session, script: seq<Incoming>) returns (op: Op, at: nat)
    requires Packets(script) && s.status == PrecommitAcknowledged
    ensures var t := Run(s, script);
            && t.status.Ended?
            && if NotPerformed(t.status.how) then t.board == s.board
               else
                 && MessageAt(script, at) == Some(Commit(op)) && script[at].accessible
                 && (forall k :: 0 <= k < at ==>
                       MessageAt(script, k).Some? && !MessageAt(script, k).value.Commit?
                           && !MessageAt(script, k).value.Abort?)
                 && Runnable(s.board, op)
                 && t.board == if t.status.how == Kept || t.status.how.Stopped? then Perform(s.board, s.user, op)
                               else Revert(Perform(s.board, s.user, op), UndoOf(s.board, op))
    decreases |script|
  {
    hide Perform, Revert, UndoOf, PeerDecode, Runnable;
    op, at := Write(""), 0;
    if script != [] {
      var t := Turn(s, script[0]);
      if t.status == AwaitingVerdict {
        op := MessageAt(script, 0).value.op;
        AwaitedOutcome(t, script[1..]);
      } else if !t.status.Ended? {
        var next;
        op, next := AcknowledgedOutcome(t, script[1..]);
        at := next + 1;
        LaterMessages(script, next, at);
      }
    }
  }

  /** Shifting the places of a script by one. */
  lemma LaterMessages(script: seq<Incoming>, next: nat, at: nat)
    requires Packets(script) && script != [] && at == next + 1
    ensures MessageAt(script, at) == MessageAt(script[1..], next)
    ensures forall k :: 1 <= k < at ==> MessageAt(script, k) == MessageAt(script[1..], k - 1)
  {
  }

  /**
   * How a session that starts idle leaves the board: performed and kept, performed and reverted, or never touched. It
   * is performed only for the first COMMIT after the first PRECOMMIT, in the name that PRECOMMIT gave.
   */
  lemma {:induction false} SessionOutcome(s: Session, script: seq<Incoming>) 
    returns (op: Op, at: nat, user: string, named: nat)
    requires Packets(script) && s.status == Idle
    ensures var t := Run(s, script);
            && t.status.Ended?
            && if NotPerformed(t.status.how) then t.board == s.board
               else
                 && named < at
                 && MessageAt(script, named) == Some(Precommit(user))
                 && (forall k :: 0 <= k < named ==>
                       MessageAt(script, k).Some? && !MessageAt(script, k).value.Precommit?)
                 && MessageAt(script, at) == Some(Commit(op)) && script[at].accessible
                 && (forall k :: named < k < at ==>
                       MessageAt(script, k).Some? && !MessageAt(script, k).value.Commit?
                           && !MessageAt(script, k).value.Abort?)
                 && Runnable(s.board, op)
                 && t.board == if t.status.how == Kept || t.status.how.Stopped? then Perform(s.board, user, op)
                               else Revert(Perform(s.board, user, op), UndoOf(s.board, op))
    decreases |script|
  {
    hide Perform, Revert, UndoOf, PeerDecode, Runnable;
    op, at, user, named := Write(""), 0, "", 0;
    if script != [] {
      var t := Turn(s, script[0]);
      var next;
      if t.status == PrecommitAcknowledged {
        user := t.user;
        op, next := AcknowledgedOutcome(t, script[1..]);
        at := next + 1;
        LaterMessages(script, next, at);
      } else if t.status == Idle {
        var before;
        op, next, user, before := SessionOutcome(t, script[1..]);
        at, named := next + 1, before + 1;
        LaterMessages(script, next, at);
        LaterMessages(script, before, named);
      }
    }
  }

  lemma {:induction false} AwaitedOutcome(s: Session, script: seq<Incoming>)
    requires Packets(script) && s.status == AwaitingVerdict
    ensures var t := Run(s, script);
            && t.status.Ended? && !NotPerformed(t.status.how)
            && t.board == if t.status.how == Kept || t.status.how.Stopped? then s.board else Revert(s.board, s.undo)
    decreases |script|
  {
    if script != [] {
      var t := Turn(s, script[0]);
      if !t.status.Ended? {
        AwaitedOutcome(t, script[1..]);
      }
    }
  }

  // ----- What each message does, wherever it stands in a session -----

  /** Packets a session in this status takes no notice of. */
  predicate Noise(status: Status, script: seq<Incoming>) {
    && Packets(script)
    && forall k :: 0 <= k < |script| ==> script[k].Arrives? && Ignores(status, PeerDecode(script[k].packet))
  }

  predicate Ignores(status: Status, m: MasterMsg) {
    match status
    case Idle => !m.NoCommand? && !m.Precommit? && !m.BarePrecommit?
    case PrecommitAcknowledged => !m.NoCommand? && !m.Abort? && !m.Commit? && !m.BareCommit?
    case AwaitingVerdict => !m.NoCommand? && !m.SuccessNoop? && !m.UnsuccessUndo?
    case Ended(_) => false
  }

  lemma IgnoredTurn(s: Session, i: Incoming)
    requires i.Arrives? && |i.packet| >= 2 && Ignores(s.status, PeerDecode(i.packet))
    ensures !s.status.Ended? && Turn(s, i) == s && Answer(s, i) == []
  {
    hide Perform, Revert, UndoOf, PeerDecode, Runnable;
  }

  /** They change nothing and are not answered. */
  lemma {:induction false} NoiseIgnored(s: Session, noise: seq<Incoming>, rest: seq<Incoming>)
    requires Noise(s.status, noise) && Packets(rest)
    ensures Packets(noise + rest)
    ensures Run(s, noise + rest) == Run(s, rest) && Answers(s, noise + rest) == Answers(s, rest)
    decreases |noise|
  {
    hide Turn, Answer, PeerDecode, Ignores;
    if noise == [] {
      assert noise + rest == rest;
    } else {
      assert (noise + rest)[1..] == noise[1..] + rest && (noise + rest)[0] == noise[0];
      IgnoredTurn(s, noise[0]);
      NoiseIgnored(s, noise[1..], rest);
      assert [] + Answers(s, rest) == Answers(s, rest);
    }
  }

  /** The next turn comes first. */
  lemma FirstTurn(s: Session, i: Incoming, rest: seq<Incoming>)
    requires !s.status.Ended? && HasBytes(i) && Packets(rest)
    ensures Packets([i] + rest) && Run(s, [i] + rest) == Run(Turn(s, i), rest)
    ensures Answers(s, [i] + rest) == Answer(s, i) + Answers(Turn(s, i), rest)
    ensures Turn(s, i).status.Ended? ==> Run(s, [i] + rest) == Turn(s, i) && Answers(s, [i] + rest) == Answer(s, i)
  {
    hide Turn, Answer;
    assert ([i] + rest)[1..] == rest;
    assert Answer(s, i) + [] == Answer(s, i);
  }

  /** A PRECOMMIT that an idle session hears, whatever it did not: its name counts, and it is answered READY. */
  lemma PrecommitHeard(s: Session, noise: seq<Incoming>, i: Incoming, user: string, rest: seq<Incoming>)
    requires s.status == Idle && Noise(s.status, noise) && HasBytes(i) && Packets(rest)
    requires i.Arrives? && PeerDecode(i.packet) == Precommit(user)
    ensures var script := noise + ([i] + rest); var t := s.(status := PrecommitAcknowledged, user := user);
            && Packets(script) && Run(s, script) == Run(t, rest)
            && Answers(s, script)
               == [Packet("READY", "User stored. Syncronization Server available.")] + Answers(t, rest)
  {
    hide Perform, Revert, UndoOf, PeerDecode, Runnable, Packet, Noise, Run, Answers;
    FirstTurn(s, i, rest);
    NoiseIgnored(s, noise, [i] + rest);
  }

  /**
   * The COMMIT an acknowledged session hears: refused and left alone when the file is not accessible, performed and
   * held under the lock when it can be, and otherwise the stop of the program inside the lock.
   */
  lemma CommitHeard(s: Session, noise: seq<Incoming>, i: Incoming, op: Op, rest: seq<Incoming>)
    requires s.status == PrecommitAcknowledged && Noise(s.status, noise) && HasBytes(i) && Packets(rest)
    requires i.Arrives? && PeerDecode(i.packet) == Commit(op)
    ensures Packets(noise + ([i] + rest))
    ensures var script, text := noise + ([i] + rest), Reply(s.board, op, i.accessible, false);
            if !i.accessible then
              && Run(s, script) == s.(status := Ended(Refused))
              && Answers(s, script) == [Packet("COMMIT_UNSUCCESS", text)]
            else if Runnable(s.board, op) then
              var t := Session(AwaitingVerdict, s.user, UndoOf(s.board, op), Perform(s.board, s.user, op), true);
              && Run(s, script) == Run(t, rest)
              && Answers(s, script) == [Packet("COMMIT_SUCCESS", text)] + Answers(t, rest)
            else
              && Run(s, script) == s.(status := Ended(Stopped(BeforeEdit)), lockHeld := true)
              && Answers(s, script) == []
  {
    hide Perform, Revert, UndoOf, PeerDecode, Runnable, Packet, Reply, Noise, Run, Answers;
    FirstTurn(s, i, rest);
    NoiseIgnored(s, noise, [i] + rest);
  }

  /** What ends the wait for the verdict: only SUCCESS_NOOP keeps the change, and what comes later does not matter. */
  lemma VerdictHeard(s: Session, noise: seq<Incoming>, i: Incoming, rest: seq<Incoming>)
    requires s.status == AwaitingVerdict && Noise(s.status, noise) && HasBytes(i) && Packets(rest)
    requires i.Arrives? ==> PeerDecode(i.packet) == SuccessNoop || PeerDecode(i.packet) == UnsuccessUndo
    ensures var script := noise + ([i] + rest);
            && Packets(script) && Answers(s, script) == []
            && Run(s, script)
               == if i.Arrives? && PeerDecode(i.packet) == SuccessNoop then s.(status := Ended(Kept), lockHeld := false)
                  else
                    s.(board := Revert(s.board, s.undo), lockHeld := false,
                       status := Ended(if i.Arrives? then UndoneOnVerdict
                                       else if i.Silence? then UndoneOnTimeout else UndoneOnHangup))
  {
    hide Perform, Revert, UndoOf, PeerDecode, Runnable, Noise, Run, Answers;
    FirstTurn(s, i, rest);
    NoiseIgnored(s, noise, [i] + rest);
  }

  /** What ends a session before it has performed anything: a timeout, a close, or an ABORT of what was acknowledged. */
  lemma EndedBefore(s: Session, noise: seq<Incoming>, i: Incoming, rest: seq<Incoming>)
    requires s.status == Idle || s.status == PrecommitAcknowledged
    requires Noise(s.status, noise) && HasBytes(i) && Packets(rest)
    requires i.Arrives? ==> PeerDecode(i.packet) == Abort && s.status == PrecommitAcknowledged
    ensures var script := noise + ([i] + rest);
            Packets(script) && Answers(s, script) == [] && Run(s, script) == s.(status := Ended(Untouched))
  {
    hide Perform, Revert, UndoOf, PeerDecode, Runnable, Noise, Run, Answers;
    FirstTurn(s, i, rest);
    NoiseIgnored(s, noise, [i] + rest);
  }

  /** The variables of handle_sync_server_client for one connection, and the board and lock it works on. */
  class SessionHandler {
    const board: BulletinBoard
    var currentStatus: Status
    var user: string
    var undoCommitOperation: Undo
    ghost const before: seq<Action>  // what had been done under the lock when the session began

    constructor (board: BulletinBoard)
      ensures this.board == board && currentStatus == Idle && user == "" && undoCommitOperation == NoUndo
      ensures before == board.lock.record
    {
      this.board := board;
      currentStatus, user, undoCommitOperation := Idle, "", NoUndo;
      before := board.lock.record;
    }

    function View(): Session
      reads this, board, board.file, board.lock
    {
      Session(currentStatus, user, undoCommitOperation, board.View(), board.lock.writerActive)
    }

    /**
     Between turns nobody else is inside the lock, a pending undo can be run, and what has been done in and under the
     lock since the session began is exactly what the status stands for.
     */
    ghost predicate Valid()
      reads this, board, board.file, board.lock
    {
      && LockDiscipline(View())
      && board.lock.numReadersActive <= 0
      && board.lock.record == before + RecordOf(currentStatus)
      && (currentStatus == AwaitingVerdict ==> CanRevert(board.View(), undoCommitOperation))
    }

    /** The operation branch: perform under the lock and keep the lock, or report the failure, or stop in the lock. */
    method Operate(op: Op, accessible: bool) returns (packet: Option<string>)
      requires Valid() && currentStatus == PrecommitAcknowledged
      modifies this, board, board.file, board.lock
      ensures Valid()
      ensures View() == ReceiveCommit(old(View()), op, accessible)
      ensures packet == PacketTo(old(View()), Message(Commit(op)), accessible)
      ensures board.lock.View() == old(board.lock.View()).(writerActive := HoldsLock(currentStatus))
    {
      hide Runnable, CanRevert, Reply, UndoOf, Perform, MasterDecode, PeerReply;
      ReplyTellsSuccess(board.View(), op, accessible, false);
      if accessible && Runnable(board.View(), op) {
        PerformedCanBeUndone(board.View(), user, op);
      } else {
        NotRunnableLeavesBoard(board.View(), user, op);
      }
      var response;
      response, undoCommitOperation := board.Operate(user, op, true, accessible, undoCommitOperation);
      if response.None? {
        currentStatus := Ended(Stopped(BeforeEdit));
        return None;
      }
      var operationFailed := ContainsText(response.value, "ERROR");
      currentStatus := if operationFailed then Ended(Refused) else AwaitingVerdict;
      var responseText := if operationFailed then CommitUnsuccess else CommitSuccess;
      packet := Some(PeerReply(responseText, response.value));
    }

    /** The verdict, a timeout or a close while the verdict is awaited: undo unless it is kept, then release. */
    method Conclude(how: How)
      requires Valid() && !currentStatus.Ended?
      requires currentStatus == AwaitingVerdict ==> how in {Kept, UndoneOnVerdict, UndoneOnTimeout, UndoneOnHangup}
      modifies this, board, board.file, board.lock
      ensures Valid()
      ensures View() == Settle(old(View()), how)
      ensures board.lock.View() == old(board.lock.View()).(writerActive := false)
    {
      hide Revert;
      if currentStatus == AwaitingVerdict {
        if how != Kept {
          board.RunUndo(undoCommitOperation);
        }
        var broadcast := board.lock.ReleaseWriteLock();
        currentStatus := Ended(how);
      } else {
        currentStatus := Ended(Untouched);
      }
    }

    /** One received packet, whatever is in it, and the packet sent back. */
    method OnPacket(packet: string, accessible: bool) returns (reply: Option<string>)
      requires |packet| >= 2 && Valid() && !currentStatus.Ended?
      modifies this, board, board.file, board.lock
      ensures Valid()
      ensures View() == Receive(old(View()), Message(PeerDecode(packet)), accessible)
      ensures reply == PacketTo(old(View()), Message(PeerDecode(packet)), accessible)
      ensures board.lock.View() == old(board.lock.View()).(writerActive := HoldsLock(currentStatus))
    {
      hide Runnable, CanRevert, Revert, UndoOf, Perform, MasterDecode, PeerReply, ReceiveCommit;
      reply := None;
      var tokens := Tokenize(PeerLine(packet), ' ');
      var m := Recognise(tokens);
      if StopsOn(m, currentStatus) {
        currentStatus := Ended(Stopped(if currentStatus == AwaitingVerdict then AfterEdit else OutsideLock));
      } else if m.Precommit? && currentStatus == Idle {
        user := m.user;
        reply := Some(PeerReply(Ready, "User stored. Syncronization Server available."));
        currentStatus := PrecommitAcknowledged;
      } else if m.Abort? && currentStatus == PrecommitAcknowledged {
        currentStatus := Ended(Untouched);
      } else if m.Commit? && currentStatus == PrecommitAcknowledged {
        reply := Operate(m.op, accessible);
      } else if m.SuccessNoop? && currentStatus == AwaitingVerdict {
        Conclude(Kept);
      } else if m.UnsuccessUndo? && currentStatus == AwaitingVerdict {
        Conclude(UndoneOnVerdict);
      }
    }

    /** One turn of the loop, whatever recv_nonblock brought. */
    method TakeTurn(i: Incoming) returns (packets: seq<string>)
      requires HasBytes(i)
      requires Valid() && !currentStatus.Ended?
      modifies this, board, board.file, board.lock
      ensures Valid() && View() == Turn(old(View()), i)
      ensures packets == Answer(old(View()), i)
      ensures board.lock.View() == old(board.lock.View()).(writerActive := HoldsLock(currentStatus))
    {
      hide Runnable, CanRevert, Revert, UndoOf, Perform, MasterDecode, ReceiveCommit, PeerDecode;
      packets := [];
      match i {
        case Silence =>
          Conclude(UndoneOnTimeout);
        case Close =>
          Conclude(UndoneOnHangup);
        case Arrives(packet, accessible) =>
          var reply := OnPacket(packet, accessible);
          packets := match reply case None => [] case Some(r) => [r];
      }
    }

    /**
     The receive loop over everything that arrives on the connection. The lock is released once per acquisition and
     the undo is run at most once: what the loop has done in and under the lock is what the outcome stands for.
     */
    method Handle(script: seq<Incoming>) returns (packets: seq<string>)
      requires Packets(script) && Valid() && currentStatus == Idle
      modifies this, board, board.file, board.lock
      ensures View() == Run(old(View()), script)
      ensures board.lock.View() == old(board.lock.View()).(writerActive := HoldsLock(currentStatus))
      ensures packets == Answers(old(View()), script)
      ensures board.lock.record == old(board.lock.record) + RecordOf(Run(old(View()), script).status)
    {
      hide Turn, Answer, RecordOf, CanRevert;
      NothingDoneYet();
      assert board.lock.record + [] == before + [];
      ghost var start := View();
      ghost var lock0 := board.lock.View();
      packets := [];
      var i := 0;
      while !currentStatus.Ended? && i < |script|
        invariant i <= |script|
        invariant Valid() && board.lock.View() == lock0.(writerActive := HoldsLock(currentStatus))
        invariant Packets(script[i..])
        invariant Run(start, script) == Run(View(), script[i..])
        invariant Answers(start, script) == packets + Answers(View(), script[i..])
      {
        assert script[i..][1..] == script[i + 1..];
        var r := TakeTurn(script[i]);
        packets := packets + r;
        i := i + 1;
      }
      if !currentStatus.Ended? {
        TurnEnds(View());
        var r := TakeTurn(Silence);
      }
      assert packets + [] == packets;
    }
  }

  lemma NothingDoneYet()
    ensures RecordOf(Idle) == []
  {
  }

  lemma TurnEnds(s: Session)
    requires !s.status.Ended?
    ensures Turn(s, Silence).status.Ended? && Answer(s, Silence) == []
  {
  }
}
