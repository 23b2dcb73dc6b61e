/**
 How transactions can end, with any number of peers: in one in which all goes well every peer keeps the change; a peer
 that gives up waiting for the verdict takes its change back although the master has committed; and an operation that
 fails on the master is taken back by peers whose undo may not restore the file.
 */
module Divergence {
  import opened Text
  import opened Utilities
  import opened Wire
  import opened Boards
  import opened FileLines
  import opened Posts
  import opened Edits
  import opened SyncServer
  import opened TwoPhaseCommit
  import opened TwoPhaseInvariants
  import opened TwoPhaseTheorems
  import opened Schedules
  import opened Replication

  /** The boards at the end of a planned run. */
  lemma PlannedBoards(c: Config, p: Plan) returns (ls: seq<Label>)
    requires c.peerBoards != [] && AllPerform(c)
    ensures Executes(c, Init(c), ls) && Finished(Final(c, Init(c), ls))
    ensures var s := Final(c, Init(c), ls);
            && |s.links| == |c.peerBoards| && MasterCommitted(s) == p.masterOk
            && s.board == (if p.masterOk then Perform(c.board, c.user, c.op) else c.board)
            && forall i :: 0 <= i < |s.links| ==>
                 && s.links[i].peer.status == Ended(PlannedEnd(p, i))
                 && s.links[i].peer.board == if p.masterOk && i !in p.late then Performed(c, c.peerBoards[i])
                                             else Reverted(c, c.peerBoards[i])
  {
    hide Executes, Final, Finished, MasterCommitted, AllPerform, Perform, Revert, UndoOf;
    ls := PlannedRun(c, p);
    var s := Final(c, Init(c), ls);
    ReachableInv(c, ls);
    FinalMaster(c, ls);
    forall i | 0 <= i < |s.links|
      ensures s.links[i].peer.board == if p.masterOk && i !in p.late then Performed(c, c.peerBoards[i])
                                       else Reverted(c, c.peerBoards[i])
    {
      PeerBoard(c, s, i);
    }
  }

  /** A run that ends with the change committed on the master and kept by every peer. */
  lemma CommitReachesPeers(c: Config) returns (ls: seq<Label>)
    requires c.peerBoards != [] && AllPerform(c)
    ensures Completed(c, ls) && MasterCommitted(Final(c, Init(c), ls))
    ensures forall i :: 0 <= i < |Final(c, Init(c), ls).links| ==>
              Final(c, Init(c), ls).links[i].peer.status == Ended(Kept)
  {
    hide Executes, Final, Finished, MasterCommitted, AllPerform;
    ls := PlannedBoards(c, Plan(true, {}));
  }

  /**
   * "Every peer follows the master's verdict" is false: whichever peers one chooses, there is a run in which all
   * threads finish, the master has committed, exactly these peers have timed out and run their undo, and all others
   * hold the change.
   */
  lemma LateVerdictDiverges(c: Config, late: set<nat>) returns (ls: seq<Label>)
    requires c.peerBoards != [] && AllPerform(c)
    ensures Executes(c, Init(c), ls) && Finished(Final(c, Init(c), ls))
    ensures var s := Final(c, Init(c), ls);
            && MasterCommitted(s) && s.board == Perform(c.board, c.user, c.op) && |s.links| == |c.peerBoards|
            && forall i :: 0 <= i < |s.links| ==>
                 && s.links[i].peer.status == Ended(if i in late then UndoneOnTimeout else Kept)
                 && s.links[i].peer.board
                    == if i in late then Reverted(c, c.peerBoards[i]) else Performed(c, c.peerBoards[i])
  {
    hide Executes, Final, Finished, MasterCommitted, AllPerform, Perform, Revert, UndoOf;
    ls := PlannedBoards(c, Plan(true, late));
  }

  /** All threads finish, nobody times out, the master has not committed, and every peer has undone its change. */
  lemma FailedCommitUndoes(c: Config) returns (ls: seq<Label>)
    requires c.peerBoards != [] && AllPerform(c)
    ensures Completed(c, ls)
    ensures var s := Final(c, Init(c), ls);
            && !MasterCommitted(s) && s.board == c.board && |s.links| == |c.peerBoards|
            && forall i :: 0 <= i < |s.links| ==>
                 && s.links[i].peer.status == Ended(UndoneOnVerdict)
                 && s.links[i].peer.board == Reverted(c, c.peerBoards[i])
  {
    hide Executes, Final, Finished, MasterCommitted, AllPerform, Perform, Revert, UndoOf;
    ls := PlannedBoards(c, Plan(false, {}));
  }

  /**
   * "A failed transaction leaves all replicas equal" is false: for every accepted request that cannot be undone on the
   * posts there is a run without a verdict timeout that ends with every peer's board differing from the master's.
   */
  lemma AbortDiverges(c: Config, posts: seq<Post>) returns (ls: seq<Label>)
    requires c.peerBoards != [] && AllEqual(Cluster(c.board, c.peerBoards))
    requires c.heard && SameRequest(c) && Holds(c.board, posts)
    requires Accepted(posts, c.user, c.op) && Runs(posts, c.user, c.op) && !Undoable(posts, c.user, c.op)
    ensures Completed(c, ls) && !MasterCommitted(Final(c, Init(c), ls))
    ensures var after := BoardsAfter(c, ls);
            |after.peers| == |c.peerBoards| && forall i :: 0 <= i < |after.peers| ==> after.peers[i] != after.master
  {
    hide Executes, Final, Finished, MasterCommitted, Perform, UndoOf, Revert, Holds, Accepted, Runs, Undoable,
        Runnable, AllPerform;
    RunsExactly(c.board, posts, c.user, c.op);
    UndoableExactly(c.board, posts, c.user, c.op);
    EqualBoardsPerform(c);
    ls := FailedCommitUndoes(c);
    var after := BoardsAfter(c, ls);
    forall i | 0 <= i < |after.peers| ensures after.peers[i] != after.master {
      assert Cluster(c.board, c.peerBoards).peers[i] == c.board;
    }
  }

  /** Every request that stops nobody can be carried out by all nodes, and be the first transaction of a history. */
  lemma HistoryBegins(r: Request, cl: Cluster) returns (eps: seq<Episode>)
    requires cl.peers != [] && AllEqual(cl) && ClientRequest(r) && StopsNobody(ConfigOf(r, cl))
    ensures |eps| == 1 && eps[0].request == r && History(cl, eps)
    ensures MasterCommitted(Final(ConfigOf(r, cl), Init(ConfigOf(r, cl)), eps[0].ls))
  {
    hide ConfigOf, StopsNobody, AllEqual, Executes, Final, Finished, MasterCommitted;
    ConfigRequest(r, cl);
    var ls := BothOutcomes(ConfigOf(r, cl), true);
    HistoryGoesOn(cl, Episode(r, ls), []);
    eps := [Episode(r, ls)] + [];
  }

  /** Such a request: replacing the message "a/b". */
  lemma SlashRequest()
    ensures var b := Board("0/nobody/a/b\n", 1);
            var posts := [Post("nobody", "a/b")];
            && Holds(b, posts) && Accepted(posts, "nobody", Replace("0/c")) && Runs(posts, "nobody", Replace("0/c"))
            && !Undoable(posts, "nobody", Replace("0/c"))
  {
    hide FileOf, Tokens, FormatInt, LineText;
    var p := Post("nobody", "a/b");
    SlashText();
    assert LinesOf([p]) == ["0/nobody/a/b"];
    FileOfSingle("0/nobody/a/b");
    PrintedNumberNamesLine(0, "c");
    assert "0" + "/" + "c" == "0/c";
    StretchIs("0/c", '/', 1);
    assert p.message[0] == 'a' && p.message[1] == '/';
  }

  lemma SlashText()
    ensures FormatInt(0) == "0" && LineText(0, Post("nobody", "a/b")) == "0/nobody/a/b"
    ensures GoodPost(Post("nobody", "a/b")) && GoodPost(Post("nobody", "c"))
  {
  }
}
