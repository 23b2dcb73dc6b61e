/**
 peer-communication.cpp: communicateWithPeer, the thread that talks to one peer. Between two steps the thread stands at
 a place in its code (`pc`); a method takes it to the next one with the regions of PeerCommunicationStatistics and by
 sending packets. Each is proved to take the step of the transition system: the object shows link `i` of the system
 before it, and link `i` of the system after the step behind it.
 */
module MasterThread {
  import opened Text
  import opened Utilities
  import opened Wire
  import opened Boards
  import Lock = ReadersWriterLock
  import opened FileOperations
  import opened PeerCommunication
  import opened TwoPhaseCommit

  class PeerThread {
    const statistics: PeerCommunicationStatistics
    const board: BulletinBoard
    const user: string
    const command: string
    var pc: Pc
    var packets: seq<string>         // what has been sent to the peer
    ghost var readyCounted: bool
    ghost var commitCounted: bool

    constructor (statistics: PeerCommunicationStatistics, board: BulletinBoard, user: string, command: string)
      ensures this.statistics == statistics && this.board == board && this.user == user && this.command == command
      ensures pc == Connecting && packets == [] && !readyCounted && !commitCounted
    {
      this.statistics, this.board, this.user, this.command := statistics, board, user, command;
      pc, packets, readyCounted, commitCounted := Connecting, [], false, false;
    }

    /** The transaction carries out this thread's request: the peers see what its packets decode to. */
    ghost predicate Serves(c: Config) {
      && c.user == user && |Tokens(command, ' ')| == 2 && c.op == MasterOp(command)
      && PeerDecode(Packet("PRECOMMIT", user)) == Precommit(c.peerUser)
      && PeerDecode(Packet("COMMIT", command)) == CommitMessage(c)
    }

    /** The packets sent are the messages of the link. */
    ghost predicate Sent(messages: seq<MasterMsg>)
      reads this
    {
      && |packets| == |messages|
      && forall j :: 0 <= j < |packets| ==> |packets[j]| >= 2 && PeerDecode(packets[j]) == messages[j]
    }

    /** The thread, the statistics and the master's board are as the system says. */
    ghost predicate Shows(s: System, i: nat)
      reads this, statistics, board, board.file
    {
      && i < |s.links|
      && s.stats == statistics.View() && s.board == board.View()
      && pc == s.links[i].pc && readyCounted == s.links[i].readyCounted && commitCounted == s.links[i].commitCounted
      && Sent(s.links[i].sent)
    }

    /** Showing the effect of the step of this thread is showing its link after the step. */
    lemma EffectShown(c: Config, s: System, l: Label)
      requires Enabled(s, l)
      requires var e := EffectOf(c, s, l);
               && e.stats == statistics.View() && e.board == board.View()
               && pc == e.link.pc && readyCounted == e.link.readyCounted && commitCounted == e.link.commitCounted
               && Sent(e.link.sent)
      ensures Shows(Step(c, s, l), l.i)
    {
      hide EffectOf;
    }

    method Send(text: string, info: string, ghost messages: seq<MasterMsg>)
      requires Sent(messages)
      modifies this`packets
      ensures Sent(messages + [PeerDecode(Packet(text, info))])
    {
      packets := packets + [Packet(text, info)];
    }

    /** The connection is made and PRECOMMIT sent, or the other threads are to be notified. */
    method OnConnect(ok: bool, ghost c: Config, ghost s: System, ghost i: nat)
      requires Serves(c) && Shows(s, i) && Enabled(s, Connect(i, ok)) && s.links[i].sent == []
      modifies this
      ensures Shows(Step(c, s, Connect(i, ok)), i)
    {
      hide PeerDecode, Packet, Step;
      if ok {
        Send("PRECOMMIT", user, []);
        pc := RecvReady;
      } else {
        pc := NotifyAbort;
      }
      EffectShown(c, s, Connect(i, ok));
    }

    /** recv_nonblock has brought a reply; one that does not fit the phase is ignored. */
    method OnReply(packet: string, ghost c: Config, ghost s: System, ghost i: nat) returns (broadcast: bool)
      requires Shows(s, i) && Enabled(s, Deliver(i))
      requires |packet| >= 1 && MasterDecode(packet) == Some(s.links[i].replies[s.links[i].read])
      modifies this, statistics
      ensures Shows(Step(c, s, Deliver(i)), i)
      ensures broadcast == EffectOf(c, s, Deliver(i)).broadcast
      ensures (old(pc) == RecvReady <==> MasterDecode(packet) != Some(Ready)) ==>
                pc == old(pc) && statistics.View() == old(statistics.View()) && !broadcast
    {
      hide PeerDecode, MasterDecode, ReplyText, Tokens, Step, CountReady, CountCommit, ReadyBarrierOpen,
          CommitBarrierOpen;
      broadcast := false;
      var mayLeave;
      var tokens := Tokenize(packet[..|packet| - 1], ' ');
      SecondIsText(packet, s.links[i].replies[s.links[i].read]);
      if tokens[1] == "READY" && pc == RecvReady {
        broadcast, mayLeave := statistics.AcknowledgeReady();
        readyCounted := true;
        pc := if mayLeave then DecideReady else ReadyBarrier(false);
      } else if tokens[1] == "COMMIT_SUCCESS" && pc == RecvAck {
        broadcast, mayLeave := statistics.AcknowledgeCommit();
        commitCounted := true;
        pc := if mayLeave then DecideCommit else CommitBarrier(false);
      } else if tokens[1] == "COMMIT_UNSUCCESS" && pc == RecvAck {
        pc := NotifyUndo;
      }
      EffectShown(c, s, Deliver(i));
    }

    /** recv_nonblock has timed out or found the connection closed. */
    method OnNothing(closed: bool, ghost c: Config, ghost s: System, ghost i: nat)
      requires Shows(s, i) && Enabled(s, if closed then Hangup(i) else Timeout(i))
      modifies this
      ensures Shows(Step(c, s, if closed then Hangup(i) else Timeout(i)), i)
    {
      hide PeerDecode;
      pc := if pc == RecvReady then NotifyAbort else NotifyUndo;
    }

    /** pthread_cond_wait has returned: the loop condition is tested again. */
    method OnWakeup(ghost c: Config, ghost s: System, ghost i: nat)
      requires Shows(s, i) && Enabled(s, Recheck(i))
      modifies this
      ensures Shows(Step(c, s, Recheck(i)), i)
    {
      hide PeerDecode;
      if pc == ReadyBarrier(true) {
        pc := if statistics.readyPending > 0 && !statistics.shouldAbort then ReadyBarrier(false) else DecideReady;
      } else {
        pc := if statistics.commitPending > 0 && !statistics.peersFailed then CommitBarrier(false) else DecideCommit;
      }
    }

    /** Behind the first barrier the flag, read without the mutex, decides between ABORT and COMMIT. */
    method Decide(accessible: bool, ghost c: Config, ghost s: System, ghost i: nat)
      requires Serves(c) && Shows(s, i) && Enabled(s, Advance(i, accessible)) && pc == DecideReady
      modifies this
      ensures Shows(Step(c, s, Advance(i, accessible)), i) && !EffectOf(c, s, Advance(i, accessible)).broadcast
    {
      hide PeerDecode, Packet, CommitMessage, Step;
      if statistics.shouldAbort {
        VerdictsOnTheWire();
        Send("ABORT", "", s.links[i].sent);
        pc := Closed(AbortSent);
      } else {
        Send("COMMIT", command, s.links[i].sent);
        pc := RecvAck;
      }
      EffectShown(c, s, Advance(i, accessible));
    }

    /** The local operation, unless another thread has performed it; it stops the program where it cannot run. */
    method Operate(accessible: bool, ghost c: Config, ghost s: System, ghost i: nat) returns (stopped: bool)
      requires Serves(c) && Shows(s, i) && Enabled(s, Advance(i, accessible)) && pc == PerformLocal
      requires accessible && statistics.completion == "" ==> !Lock.WriterBlocked(board.lock.View())
      modifies this, statistics, board, board.file, board.lock
      ensures stopped <==> accessible && s.stats.completion == "" && !Runnable(s.board, c.op)
      ensures stopped ==> Shows(s, i)
      ensures !stopped ==>
                Shows(Step(c, s, Advance(i, accessible)), i) && !EffectOf(c, s, Advance(i, accessible)).broadcast
      ensures !stopped ==> board.lock.View() == old(board.lock.View())
    {
      hide PeerDecode, Packet, Runnable, PerformOnce, CommitMessage, Step;
      var commandTokens := Tokenize(command, ' ');
      stopped := statistics.PerformLocally(board, user, OpOf(commandTokens[0], commandTokens[1]), accessible);
      if stopped {
        return;
      }
      pc := ReadMessage;
      EffectShown(c, s, Advance(i, accessible));
    }

    /** The verdict, from the message read before and the flag read now. */
    method SendVerdict(accessible: bool, ghost c: Config, ghost s: System, ghost i: nat)
      requires Shows(s, i) && Enabled(s, Advance(i, accessible)) && pc.ReadFlag?
      modifies this
      ensures Shows(Step(c, s, Advance(i, accessible)), i) && !EffectOf(c, s, Advance(i, accessible)).broadcast
    {
      hide PeerDecode, Packet, VerdictText, Verdict, Step;
      var positive := !statistics.peersFailed && pc.masterOk;
      VerdictOnTheWire(positive);
      Send(VerdictText(positive), "", s.links[i].sent);
      pc := Closed(VerdictSent(positive));
      EffectShown(c, s, Advance(i, accessible));
    }

    /** The end of a thread that saw no READY, or no COMMIT_SUCCESS. */
    method Notify(accessible: bool, ghost c: Config, ghost s: System, ghost i: nat) returns (broadcast: bool)
      requires Shows(s, i) && Enabled(s, Advance(i, accessible)) && (pc == NotifyAbort || pc == NotifyUndo)
      modifies this, statistics
      ensures Shows(Step(c, s, Advance(i, accessible)), i)
              && broadcast == EffectOf(c, s, Advance(i, accessible)).broadcast
    {
      hide PeerDecode, Step;
      if pc == NotifyAbort {
        broadcast := statistics.NotifyThreadsToAbort();
        pc := Closed(NoReady);
      } else {
        broadcast := statistics.NotifyThreadsToUndoCommit();
        pc := Closed(NoAck);
      }
      EffectShown(c, s, Advance(i, accessible));
    }

    /** Behind the second barrier: the flag, and later the message, read without the mutex. */
    method ReadShared(accessible: bool, ghost c: Config, ghost s: System, ghost i: nat)
      requires Shows(s, i) && Enabled(s, Advance(i, accessible)) && (pc == DecideCommit || pc == ReadMessage)
      modifies this
      ensures Shows(Step(c, s, Advance(i, accessible)), i) && !EffectOf(c, s, Advance(i, accessible)).broadcast
    {
      hide PeerDecode, Contains;
      if pc == DecideCommit {
        pc := if !statistics.peersFailed then PerformLocal else ReadMessage;
      } else {
        var failed := ContainsText(statistics.completion, "ERROR");
        pc := ReadFlag(!failed);
      }
    }

    /**
     The thread goes on by itself: an unlocked read and what it decides, the local operation, or a notification. Only a
     local operation that cannot run stops the program, before anything is written.
     */
    method GoOn(accessible: bool, ghost c: Config, ghost s: System, ghost i: nat)
      returns (broadcast: bool, stopped: bool)
      requires Serves(c) && Shows(s, i) && Enabled(s, Advance(i, accessible))
      requires pc == PerformLocal && accessible && statistics.completion == ""
               ==> !Lock.WriterBlocked(board.lock.View())
      modifies this, statistics, board, board.file, board.lock
      ensures stopped <==>
              (s.links[i].pc == PerformLocal && accessible && s.stats.completion == "" && !Runnable(s.board, c.op))
      ensures stopped ==> Shows(s, i)
      ensures !stopped ==> Shows(Step(c, s, Advance(i, accessible)), i)
      ensures !stopped ==> broadcast == EffectOf(c, s, Advance(i, accessible)).broadcast
      ensures !stopped ==> board.lock.View() == old(board.lock.View())
    {
      hide Runnable, Step, EffectOf, Serves;
      broadcast, stopped := false, false;
      if pc == DecideReady {
        Decide(accessible, c, s, i);
      } else if pc == DecideCommit || pc == ReadMessage {
        ReadShared(accessible, c, s, i);
      } else if pc == PerformLocal {
        stopped := Operate(accessible, c, s, i);
      } else if pc.ReadFlag? {
        SendVerdict(accessible, c, s, i);
      } else {
        broadcast := Notify(accessible, c, s, i);
      }
    }
  }

  function VerdictText(positive: bool): string {
    if positive then "SUCCESS_NOOP" else "UNSUCCESS_UNDO"
  }

  lemma VerdictOnTheWire(positive: bool)
    ensures PeerDecode(Packet(VerdictText(positive), "")) == Verdict(positive)
  {
    hide PeerDecode, Packet;
    VerdictsOnTheWire();
  }

  /** The second token of a reply tells its kind. */
  lemma SecondIsText(packet: string, m: PeerMsg)
    requires |packet| >= 1 && MasterDecode(packet) == Some(m)
    ensures var tokens := Tokens(packet[..|packet| - 1], ' ');
            && |tokens| >= 2
            && (tokens[1] == "READY" <==> m == Ready)
            && (tokens[1] == "COMMIT_SUCCESS" <==> m == CommitSuccess)
            && (tokens[1] == "COMMIT_UNSUCCESS" <==> m == CommitUnsuccess)
  {
    hide Tokens;
    assert |"READY"| == 5 && |"COMMIT_SUCCESS"| == 14 && |"COMMIT_UNSUCCESS"| == 16;
  }
}
