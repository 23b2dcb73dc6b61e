/**
 peer-communication.cpp: what the threads of one transaction share. Every region between taking and giving up
 peerCommunicationMutex is a function on the statistics, and a method of the class that holds them.
 */
module PeerCommunication {
  import opened Text
  import opened Wire
  import opened Boards
  import opened ReadersWriterLock
  import opened FileOperations

  datatype Stats = Stats(
    readyPending: nat,          // numberOfPositivePrecommitAcknowledgementsPending
    shouldAbort: bool,
    commitPending: nat,         // numberOfSuccessfulCommitAcknowledgementsPending
    peersFailed: bool,          // didOneOrMorePeersFailToCommit
    completion: string)         // masterOperationCompletionMessage

  const ULONG_MAX := 0xFFFF_FFFF_FFFF_FFFF

  /** `-= 1` on an unsigned long. */
  function Decrement(n: nat): nat {
    if n == 0 then ULONG_MAX else n - 1
  }

  function NewStats(peers: nat): Stats {
    Stats(peers, false, peers, false, "")
  }

  function CountReady(st: Stats): Stats {
    st.(readyPending := Decrement(st.readyPending))
  }

  function CountCommit(st: Stats): Stats {
    st.(commitPending := Decrement(st.commitPending))
  }

  /** What notifyThreadsToAbort and notifyThreadsToUndoCommit do; they broadcast when the flag was down. */
  function RaiseAbort(st: Stats): Stats {
    st.(shouldAbort := true)
  }

  function RaiseUndo(st: Stats): Stats {
    st.(peersFailed := true)
  }

  /** The negated loop condition in front of the decision between ABORT and COMMIT. */
  predicate ReadyBarrierOpen(st: Stats) {
    !(st.readyPending > 0 && !st.shouldAbort)
  }

  /** The negated loop condition in front of the master's own operation. */
  predicate CommitBarrierOpen(st: Stats) {
    !(st.commitPending > 0 && !st.peersFailed)
  }

  predicate Succeeded(completion: string) {
    !Contains(completion, "ERROR")
  }

  /** The region that performs the operation on the master unless another thread has done so. */
  function PerformOnce(st: Stats, b: Board, user: string, op: Op, accessible: bool): (Stats, Board) {
    if st.completion != "" then (st, b)
    else (st.(completion := Reply(b, op, accessible, true)), if accessible then Perform(b, user, op) else b)
  }

  class PeerCommunicationStatistics {
    var readyPending: nat
    var shouldAbort: bool
    var commitPending: nat
    var peersFailed: bool
    var completion: string

    function View(): Stats
      reads this
    {
      Stats(readyPending, shouldAbort, commitPending, peersFailed, completion)
    }

    /** resetPeerCommunicationGlobalVars for one controller. */
    constructor (peersCount: nat)
      ensures View() == NewStats(peersCount)
    {
      readyPending, shouldAbort, commitPending, peersFailed, completion := peersCount, false, peersCount, false, "";
    }

    /** READY received: count it; the last one broadcasts, the others test the loop condition. */
    method AcknowledgeReady() returns (broadcast: bool, mayLeave: bool)
      modifies this
      ensures View() == CountReady(old(View()))
      ensures broadcast <==> View().readyPending == 0
      ensures mayLeave <==> ReadyBarrierOpen(View())
    {
      readyPending := if readyPending == 0 then ULONG_MAX else readyPending - 1;
      if readyPending == 0 {
        broadcast, mayLeave := true, true;
      } else {
        broadcast, mayLeave := false, !(readyPending > 0 && !shouldAbort);
      }
    }

    /** COMMIT_SUCCESS received. */
    method AcknowledgeCommit() returns (broadcast: bool, mayLeave: bool)
      modifies this
      ensures View() == CountCommit(old(View()))
      ensures broadcast <==> View().commitPending == 0
      ensures mayLeave <==> CommitBarrierOpen(View())
    {
      commitPending := if commitPending == 0 then ULONG_MAX else commitPending - 1;
      if commitPending == 0 {
        broadcast, mayLeave := true, true;
      } else {
        broadcast, mayLeave := false, !(commitPending > 0 && !peersFailed);
      }
    }

    method NotifyThreadsToAbort() returns (broadcast: bool)
      modifies this
      ensures View() == RaiseAbort(old(View()))
      ensures broadcast <==> !old(View()).shouldAbort
    {
      broadcast := !shouldAbort;
      if !shouldAbort {
        shouldAbort := true;
      }
    }

    method NotifyThreadsToUndoCommit() returns (broadcast: bool)
      modifies this
      ensures View() == RaiseUndo(old(View()))
      ensures broadcast <==> !old(View()).peersFailed
    {
      broadcast := !peersFailed;
      if !peersFailed {
        peersFailed := true;
      }
    }

    /** Lines 170-180: the local operation, performed by the first thread to get here; it may stop the program. */
    method PerformLocally(board: BulletinBoard, user: string, op: Op, accessible: bool) returns (stopped: bool)
      requires accessible && completion == "" ==> !WriterBlocked(board.lock.View())
      modifies this, board, board.file, board.lock
      ensures stopped <==> old(completion) == "" && accessible && !Runnable(old(board.View()), op)
      ensures !stopped ==> (View(), board.View()) == PerformOnce(old(View()), old(board.View()), user, op, accessible)
      ensures !stopped ==> board.lock.View() == old(board.lock.View()) && View().completion != ""
      ensures !stopped ==>
                board.lock.record
                == old(board.lock.record)
                   + if old(completion) == "" && accessible then [Acquired, Applied, Released] else []
      ensures stopped ==> View() == old(View()) && board.View() == old(board.View())
      ensures stopped ==> board.lock.View() == old(board.lock.View()).(writerActive := true)
      ensures stopped ==> board.lock.record == old(board.lock.record) + [Acquired]
    {
      stopped := false;
      if completion == "" {
        ReplyTellsSuccess(board.View(), op, accessible, true);
        NotRunnableLeavesBoard(board.View(), user, op);
        hide Runnable, Perform, Reply, ReplaceArguments;
        var response, ignored := board.Operate(user, op, false, accessible, NoUndo);
        if response.None? {
          return true;
        }
        completion := response.value;
      }
    }
  }

  /** threadIdStatsMapping: the statistics of the transactions under way, by controller thread. */
  class ThreadIdStatsMapping {
    var entries: map<int, PeerCommunicationStatistics>

    constructor ()
      ensures entries == map[]
    {
      entries := map[];
    }

    /** resetPeerCommunicationGlobalVars: std::map::insert leaves an entry that is already there alone. */
    method Reset(controllerThread: int, peersCount: nat)
      modifies this
      ensures controllerThread in old(entries) ==> entries == old(entries)
      ensures controllerThread !in old(entries) ==>
                && controllerThread in entries && entries == old(entries)[controllerThread := entries[controllerThread]]
                && fresh(entries[controllerThread]) && entries[controllerThread].View() == NewStats(peersCount)
    {
      if controllerThread !in entries {
        var stats := new PeerCommunicationStatistics(peersCount);
        entries := entries[controllerThread := stats];
      }
    }

    /** getMasterOperationCompletionMessage: the message is handed out once, and the entry is gone. */
    method TakeCompletionMessage(controllerThread: int) returns (result: string)
      requires controllerThread in entries
      modifies this
      ensures result == old(entries[controllerThread].completion)
      ensures entries == old(entries) - {controllerThread}
    {
      result := entries[controllerThread].completion;
      entries := entries - {controllerThread};
    }
  }
}
