/**
 Replicas byte for byte: the request as it travels, the transaction it starts, and the boards of the master and of every
 peer between transactions. ReplicatedPosts says the same of boards that hold posts.
 */
module Replication {
  import opened Utilities
  import opened Wire
  import opened Boards
  import opened SyncServer
  import opened TwoPhaseCommit
  import opened TwoPhaseInvariants
  import opened TwoPhaseTheorems
  import opened Schedules

  /** A client's user name and its two-token WRITE or REPLACE line. */
  datatype Request = Request(user: string, command: string)

  datatype Cluster = Cluster(master: Board, peers: seq<Board>)

  const CLIENT_LINE := 255

  /** What the client loop hands on: both come from lines of at most 255 characters, the name is a single token. */
  predicate ClientRequest(r: Request) {
    && r.user != "" && ' ' !in r.user && '\r' !in r.user && |r.user| <= CLIENT_LINE
    && |Tokens(r.command, ' ')| == 2 && '\r' !in r.command && |r.command| <= CLIENT_LINE
  }

  /** Nothing of the request is cut off in the buffers on its way. */
  predicate Whole(r: Request) {
    |r.user| <= USER_ROOM && CommandFits(r.command)
  }

  /** The peers work with what they decode from the bytes the master formats. */
  function ConfigOf(r: Request, cl: Cluster): Config
    requires |Tokens(r.command, ' ')| == 2
  {
    var name, m := PeerDecode(Packet("PRECOMMIT", r.user)), PeerDecode(Packet("COMMIT", r.command));
    Config(r.user, MasterOp(r.command),
           if name.Precommit? then name.user else "", if m.Commit? then m.op else MasterOp(r.command), m.Commit?,
           cl.master, cl.peers)
  }

  /** All nodes work on the same request. */
  predicate SameRequest(c: Config) {
    c.peerUser == c.user && c.peerOp == c.op
  }

  /**
   * What a client's request is to the peers: a name, and a command as far as it comes through, unless its argument
   * begins too late; and it is the master's own request exactly when it arrives whole.
   */
  lemma RequestOnTheWire(r: Request, cl: Cluster)
    requires ClientRequest(r)
    ensures var c := ConfigOf(r, cl);
            && PeerDecode(Packet("PRECOMMIT", r.user)) == Precommit(c.peerUser)
            && PeerDecode(Packet("COMMIT", r.command)) == CommitMessage(c)
            && c.peerUser == r.user[..Least(|r.user|, USER_ROOM)]
            && (c.heard <==> ArgumentStart(r.command) < COMMAND_ROOM)
            && (c.heard ==> c.peerOp == OpOf(Tokens(r.command, ' ')[0], ArgumentThrough(r.command)))
            && (c.heard && SameRequest(c) <==> Whole(r))
  {
    hide PeerDecode, Packet, Tokens, CommandFits, SecondToken;
    PrecommitOnTheWire(r.user);
    assert r.user[..|r.user|] == r.user;
    CommandOnTheWire(r.command);
    CommitOnTheWire(r.command);
  }

  // ----- One transaction on equal boards -----

  /** The transaction has ended without a peer timing out while it waited for the verdict. */
  predicate Completed(c: Config, ls: seq<Label>) {
    && Executes(c, Init(c), ls) && Finished(Final(c, Init(c), ls))
    && forall i :: 0 <= i < |Final(c, Init(c), ls).links|
                   ==> Final(c, Init(c), ls).links[i].peer.status != Ended(UndoneOnTimeout)
  }

  /** What the peers perform has the effect of what the master performs. */
  predicate SameEffect(c: Config) {
    Performed(c, c.board) == Perform(c.board, c.user, c.op)
  }

  predicate NobodyUndid(s: System) {
    forall i :: 0 <= i < |s.links| ==> !Undid(s.links[i].peer.status)
  }

  /**
   * When a finished transaction leaves a peer that started on the master's board, and did not time out waiting for the
   * verdict, equal to the master: if it was committed, when both performed the same; if not, when the peer had nothing
   * to undo or its board is reversible.
   */
  lemma PeerStaysEqual(c: Config, ls: seq<Label>, i: nat)
    requires Executes(c, Init(c), ls) && Finished(Final(c, Init(c), ls))
    requires i < |c.peerBoards| && c.peerBoards[i] == c.board
    requires |Final(c, Init(c), ls).links| == |c.peerBoards|
    requires Final(c, Init(c), ls).links[i].peer.status != Ended(UndoneOnTimeout)
    ensures var s := Final(c, Init(c), ls);
            s.links[i].peer.board == s.board
            <==> if MasterCommitted(s) then SameEffect(c) else !Undid(s.links[i].peer.status) || Reversible(c, c.board)
  {
    hide Perform, Revert, UndoOf;
    AllOrNothing(c, ls, i);
  }

  function BoardsAfter(c: Config, ls: seq<Label>): Cluster
    requires Executes(c, Init(c), ls)
  {
    var s := Final(c, Init(c), ls);
    Cluster(s.board, seq(|s.links|, i requires 0 <= i < |s.links| => s.links[i].peer.board))
  }

  predicate AllEqual(cl: Cluster) {
    forall i :: 0 <= i < |cl.peers| ==> cl.peers[i] == cl.master
  }

  predicate KeepsEqual(c: Config, ls: seq<Label>)
    requires Executes(c, Init(c), ls)
  {
    var s := Final(c, Init(c), ls);
    if MasterCommitted(s) then SameEffect(c) else NobodyUndid(s) || Reversible(c, c.board)
  }

  lemma FinalHasAllLinks(c: Config, ls: seq<Label>)
    requires Executes(c, Init(c), ls)
    ensures |Final(c, Init(c), ls).links| == |c.peerBoards|
  {
    ReachableInv(c, ls);
  }

  /** Which runs of a transaction keep all replicas equal, by how the run went. */
  lemma TransactionKeepsEqual(c: Config, ls: seq<Label>)
    requires c.peerBoards != [] && AllEqual(Cluster(c.board, c.peerBoards)) && Completed(c, ls)
    ensures AllEqual(BoardsAfter(c, ls)) <==> KeepsEqual(c, ls)
  {
    hide Perform, Executes, Final, Finished, SameEffect, Reversible, Undid;
    FinalHasAllLinks(c, ls);
    var s := Final(c, Init(c), ls);
    var after := BoardsAfter(c, ls);
    forall i | 0 <= i < |c.peerBoards|
      ensures after.peers[i] == after.master
              <==> if MasterCommitted(s) then SameEffect(c)
                   else !Undid(s.links[i].peer.status) || Reversible(c, c.board)
    {
      assert Cluster(c.board, c.peerBoards).peers[i] == c.board;
      PeerStaysEqual(c, ls, i);
    }
    if MasterCommitted(s) && AllEqual(after) {
      assert after.peers[0] == after.master;
    }
  }

  lemma FinalMaster(c: Config, ls: seq<Label>)
    requires Executes(c, Init(c), ls)
    ensures var s := Final(c, Init(c), ls);
            s.board == if MasterCommitted(s) then Perform(c.board, c.user, c.op) else c.board
  {
    hide Perform;
    ReachableInv(c, ls);
  }

  // ----- Every run of a transaction -----

  /** The request does not stop the program on any node. */
  predicate StopsNobody(c: Config) {
    Runnable(c.board, c.op) && PeersPerform(c, c.board)
  }

  lemma EqualBoardsPerform(c: Config)
    requires AllEqual(Cluster(c.board, c.peerBoards)) && StopsNobody(c)
    ensures AllPerform(c)
  {
    hide PeersPerform, Runnable;
    forall i | 0 <= i < |c.peerBoards| ensures PeersPerform(c, c.peerBoards[i]) {
      assert Cluster(c.board, c.peerBoards).peers[i] == c.board;
    }
  }

  /** There are runs in which the transaction commits, and runs in which it fails and every peer has to undo. */
  lemma BothOutcomes(c: Config, committed: bool) returns (ls: seq<Label>)
    requires c.peerBoards != [] && AllEqual(Cluster(c.board, c.peerBoards)) && StopsNobody(c)
    ensures Completed(c, ls) && MasterCommitted(Final(c, Init(c), ls)) == committed
    ensures !committed ==> !NobodyUndid(Final(c, Init(c), ls))
  {
    hide Executes, Final, Finished, MasterCommitted, StopsNobody, AllPerform;
    EqualBoardsPerform(c);
    ls := PlannedRun(c, Plan(committed, {}));
    assert Undid(Ended(UndoneOnVerdict));
    assert !committed ==> Undid(Final(c, Init(c), ls).links[0].peer.status);
  }

  /**
   * For any number of peers: all runs of a transaction without a verdict timeout leave all replicas equal exactly
   * when the request has the same effect on the peers as on the master, and the peers' undo of it restores the board.
   * Both are known before the transaction.
   */
  lemma EqualInEveryRun(c: Config)
    requires c.peerBoards != [] && AllEqual(Cluster(c.board, c.peerBoards)) && StopsNobody(c)
    ensures (forall ls :: Completed(c, ls) ==> AllEqual(BoardsAfter(c, ls)))
            <==> SameEffect(c) && Reversible(c, c.board)
  {
    hide Executes, Final, Finished, MasterCommitted, StopsNobody, SameEffect, Reversible, AllEqual, NobodyUndid;
    if SameEffect(c) && Reversible(c, c.board) {
      forall ls | Completed(c, ls) ensures AllEqual(BoardsAfter(c, ls)) {
        TransactionKeepsEqual(c, ls);
      }
    } else {
      var ls := BothOutcomes(c, !SameEffect(c));
      TransactionKeepsEqual(c, ls);
    }
  }

  // ----- Any number of transactions in a row -----

  datatype Episode = Episode(request: Request, ls: seq<Label>)

  /** One transaction after the other, each started on the boards the last one left. */
  predicate History(cl: Cluster, eps: seq<Episode>)
    decreases |eps|
  {
    eps == []
    || (&& ClientRequest(eps[0].request)
        && var c, ls := ConfigOf(eps[0].request, cl), eps[0].ls;
           StopsNobody(c) && Completed(c, ls) && History(BoardsAfter(c, ls), eps[1..]))
  }

  /** The transactions carry out the first requests of a list. */
  predicate Plays(eps: seq<Episode>, rs: seq<Request>) {
    |eps| <= |rs| && forall i :: 0 <= i < |eps| ==> eps[i].request == rs[i]
  }

  /** The replicas are equal before, between and after the transactions. */
  predicate EqualThroughout(cl: Cluster, eps: seq<Episode>)
    requires History(cl, eps)
    decreases |eps|
  {
    && AllEqual(cl)
    && (eps != [] ==>
          var c := ConfigOf(eps[0].request, cl);
          EqualThroughout(BoardsAfter(c, eps[0].ls), eps[1..]))
  }

  /** A request that stops nobody on this board. */
  predicate Startable(b: Board, r: Request) {
    ClientRequest(r) && StopsNobody(ConfigOf(r, Cluster(b, [])))
  }

  /** Performed and undone on this board it leaves the peers no trace of its own. */
  predicate Harmless(b: Board, r: Request)
    requires Startable(b, r)
  {
    var c := ConfigOf(r, Cluster(b, [])); SameEffect(c) && Reversible(c, b)
  }

  /** Each request is harmless on its turn, whichever of those before it were committed. */
  predicate AlwaysHarmless(b: Board, rs: seq<Request>)
    decreases |rs|
  {
    rs == []
    || (Startable(b, rs[0]) ==>
          && Harmless(b, rs[0])
          && AlwaysHarmless(Perform(b, rs[0].user, MasterOp(rs[0].command)), rs[1..])
          && AlwaysHarmless(b, rs[1..]))
  }

  /** The peers' boards play no part in these conditions. */
  lemma ConfigOnMaster(r: Request, cl: Cluster)
    requires ClientRequest(r)
    ensures Cluster(ConfigOf(r, cl).board, ConfigOf(r, cl).peerBoards) == cl
    ensures StopsNobody(ConfigOf(r, cl)) <==> Startable(cl.master, r)
    ensures Startable(cl.master, r) ==>
              (Harmless(cl.master, r) <==> SameEffect(ConfigOf(r, cl)) && Reversible(ConfigOf(r, cl), cl.master))
  {
    hide PeerDecode, Packet, Perform, Revert, UndoOf, Runnable;
  }

  lemma {:induction false} HarmlessHistory(cl: Cluster, rs: seq<Request>, eps: seq<Episode>)
    requires cl.peers != [] && AllEqual(cl) && AlwaysHarmless(cl.master, rs) && Plays(eps, rs) && History(cl, eps)
    ensures EqualThroughout(cl, eps)
    decreases |eps|
  {
    hide Executes, Final, Finished, ConfigOf, KeepsEqual, AllEqual, StopsNobody, Startable, Harmless, Perform, Tokens;
    if eps != [] {
      var c, ls := ConfigOf(eps[0].request, cl), eps[0].ls;
      ConfigOnMaster(eps[0].request, cl);
      ConfigRequest(eps[0].request, cl);
      EqualInEveryRun(c);
      FinalHasAllLinks(c, ls);
      FinalMaster(c, ls);
      HarmlessHistory(BoardsAfter(c, ls), rs[1..], eps[1..]);
    }
  }

  lemma ConfigRequest(r: Request, cl: Cluster)
    requires |Tokens(r.command, ' ')| == 2
    ensures ConfigOf(r, cl).user == r.user && ConfigOf(r, cl).op == MasterOp(r.command)
    ensures ConfigOf(r, cl).board == cl.master && ConfigOf(r, cl).peerBoards == cl.peers
  {
    hide PeerDecode, Packet, Tokens;
  }

  /** A first transaction in front of a history. */
  lemma HistoryGoesOn(cl: Cluster, e: Episode, eps: seq<Episode>)
    requires ClientRequest(e.request) && StopsNobody(ConfigOf(e.request, cl))
             && Completed(ConfigOf(e.request, cl), e.ls)
    requires History(BoardsAfter(ConfigOf(e.request, cl), e.ls), eps)
    ensures History(cl, [e] + eps)
    ensures EqualThroughout(cl, [e] + eps)
            <==> AllEqual(cl) && EqualThroughout(BoardsAfter(ConfigOf(e.request, cl), e.ls), eps)
  {
    hide ConfigOf, StopsNobody, Completed, AllEqual, Executes, Final;
    assert ([e] + eps)[1..] == eps;
  }

  lemma {:induction false} HarmfulHistory(cl: Cluster, rs: seq<Request>) returns (eps: seq<Episode>)
    requires cl.peers != [] && AllEqual(cl) && !AlwaysHarmless(cl.master, rs)
    ensures Plays(eps, rs) && History(cl, eps) && !EqualThroughout(cl, eps)
    decreases |rs|
  {
    hide Executes, Final, Finished, ConfigOf, AllEqual, StopsNobody, Startable, Harmless, Perform, Tokens, NobodyUndid;
    hide MasterCommitted;
    var r := rs[0];
    StartableIsRequest(cl.master, r);
    var c := ConfigOf(r, cl);
    ConfigOnMaster(r, cl);
    ConfigRequest(r, cl);
    if !Harmless(cl.master, r) {
      EqualInEveryRun(c);
      var ls :| Completed(c, ls) && !AllEqual(BoardsAfter(c, ls));
      HistoryGoesOn(cl, Episode(r, ls), []);
      eps := [Episode(r, ls)] + [];
    } else {
      var committed := !AlwaysHarmless(Perform(cl.master, r.user, MasterOp(r.command)), rs[1..]);
      var ls := BothOutcomes(c, committed);
      EqualInEveryRun(c);
      FinalHasAllLinks(c, ls);
      FinalMaster(c, ls);
      var rest := HarmfulHistory(BoardsAfter(c, ls), rs[1..]);
      HistoryGoesOn(cl, Episode(r, ls), rest);
      eps := [Episode(r, ls)] + rest;
    }
  }

  lemma StartableIsRequest(b: Board, r: Request)
    requires Startable(b, r)
    ensures ClientRequest(r) && |Tokens(r.command, ' ')| == 2
  {
  }

  /**
   * For any number of peers and any list of requests to one master: in all histories, whichever transactions commit,
   * the replicas stay byte for byte equal throughout, exactly when each request is harmless on every board on which
   * its turn can come.
   */
  lemma ReplicasStayEqual(cl: Cluster, rs: seq<Request>)
    requires cl.peers != [] && AllEqual(cl)
    ensures (forall eps :: Plays(eps, rs) && History(cl, eps) ==> EqualThroughout(cl, eps))
            <==> AlwaysHarmless(cl.master, rs)
  {
    hide AllEqual, AlwaysHarmless, History, EqualThroughout, Plays;
    if AlwaysHarmless(cl.master, rs) {
      forall eps | Plays(eps, rs) && History(cl, eps) ensures EqualThroughout(cl, eps) {
        HarmlessHistory(cl, rs, eps);
      }
    } else {
      var eps := HarmfulHistory(cl, rs);
    }
  }
}
