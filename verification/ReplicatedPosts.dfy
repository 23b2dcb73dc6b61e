/**
 Replicas that hold posts: over any run of transactions, exactly which requests keep all files equal and holding the
 posts that the committed requests make. The conditions are on the requests and the posts and can be checked
 beforehand.
 */
module ReplicatedPosts {
  import opened Text
  import opened Utilities
  import opened Wire
  import opened Boards
  import opened Posts
  import opened Edits
  import opened TwoPhaseCommit
  import opened TwoPhaseTheorems
  import opened Replication
  import opened CutRequests

  /** A request that the server accepts on these posts and that stops no node. */
  predicate Served(posts: seq<Post>, r: Request) {
    && ClientRequest(r)
    && Accepted(posts, r.user, MasterOp(r.command)) && Runs(posts, r.user, MasterOp(r.command)) && ArrivesToRun(r)
  }

  /** All replicas are the same board, and it holds these posts. */
  predicate Synced(cl: Cluster, posts: seq<Post>) {
    Holds(cl.master, posts) && AllEqual(cl)
  }

  lemma ServedStopsNobody(r: Request, cl: Cluster, posts: seq<Post>)
    requires Synced(cl, posts) && Served(posts, r)
    ensures StopsNobody(ConfigOf(r, cl)) && AllEqual(Cluster(ConfigOf(r, cl).board, ConfigOf(r, cl).peerBoards))
  {
    hide ConfigOf, Accepted, Runs, ArrivesToRun, Holds, AllEqual;
    StopsNobodyExactly(r, cl, posts);
    ConfigRequest(r, cl);
  }

  // ----- One request -----

  /**
   * For any number of peers: all runs of a transaction without a verdict timeout leave all replicas equal exactly when
   * the line is the same everywhere, which it is when name and command fit the peers' buffers, and, for a REPLACE, the
   * old message has no slash and the new line has at most 256 characters.
   */
  lemma RequestKeepsEqual(r: Request, cl: Cluster, posts: seq<Post>)
    requires cl.peers != [] && Synced(cl, posts) && |posts| <= INT_MAX && Served(posts, r)
    ensures (forall ls :: Completed(ConfigOf(r, cl), ls) ==> AllEqual(BoardsAfter(ConfigOf(r, cl), ls)))
            <==> SameLineEverywhere(posts, r) && Undoable(posts, r.user, MasterOp(r.command))
  {
    hide ConfigOf, Accepted, Runs, ArrivesToRun, Holds, AllEqual, Undoable, SameLineEverywhere, Completed, BoardsAfter;
    hide SameEffect, Reversible, StopsNobody;
    ServedStopsNobody(r, cl, posts);
    var c := ConfigOf(r, cl);
    ConfigRequest(r, cl);
    EqualInEveryRun(c);
    SameEffectExactly(r, cl, posts);
    if SameLineEverywhere(posts, r) {
      SameLineUndo(r, cl, posts);
    }
  }

  /** Where the peers store the same line, their undo depends on what the master's would. */
  lemma SameLineUndo(r: Request, cl: Cluster, posts: seq<Post>)
    requires Holds(cl.master, posts) && Served(posts, r) && SameLineEverywhere(posts, r)
    ensures Reversible(ConfigOf(r, cl), cl.master) <==> Undoable(posts, r.user, MasterOp(r.command))
  {
    hide ConfigOf, Accepted, Runs, ArrivesToRun, Holds, CommandFits, Reversible;
    ReversibleExactly(r, cl, posts);
    PeersRequest(r, cl, posts);
    if MasterOp(r.command).Replace? {
      RequestOnTheWire(r, cl);
      ConfigRequest(r, cl);
    }
  }

  // ----- One transaction -----

  function PostsAfter(c: Config, ls: seq<Label>, posts: seq<Post>): seq<Post>
    requires Executes(c, Init(c), ls) && Accepted(posts, c.user, c.op)
  {
    if MasterCommitted(Final(c, Init(c), ls)) then Edited(posts, c.user, c.op) else posts
  }

  /** A request that arrives whole, whose line fits, and that can be undone. */
  predicate SafeOnReplicas(posts: seq<Post>, r: Request)
    requires Served(posts, r)
  {
    Whole(r) && Fits(posts, r.user, MasterOp(r.command)) && Undoable(posts, r.user, MasterOp(r.command))
  }

  /** Such a request keeps the replicas in step however its transaction goes. */
  lemma TransactionKeepsSync(r: Request, cl: Cluster, posts: seq<Post>, ls: seq<Label>)
    requires cl.peers != [] && Synced(cl, posts) && Served(posts, r) && SafeOnReplicas(posts, r)
    requires Completed(ConfigOf(r, cl), ls) && ConfigOf(r, cl).user == r.user
             && ConfigOf(r, cl).op == MasterOp(r.command)
    ensures Synced(BoardsAfter(ConfigOf(r, cl), ls), PostsAfter(ConfigOf(r, cl), ls, posts))
  {
    hide ConfigOf, Accepted, Runs, ArrivesToRun, Holds, AllEqual, Undoable, Fits, Edited, Executes, Final, Finished,
        Perform;
    hide SameEffect, Reversible, StopsNobody, Whole;
    ServedStopsNobody(r, cl, posts);
    var c := ConfigOf(r, cl);
    ConfigRequest(r, cl);
    WholeSameEffect(r, cl);
    WholeSameLine(posts, r);
    SameLineUndo(r, cl, posts);
    EqualInEveryRun(c);
    FinalMaster(c, ls);
    FitsExactly(cl.master, posts, c.user, c.op);
  }

  lemma WholeSameLine(posts: seq<Post>, r: Request)
    requires ClientRequest(r) && Whole(r)
    ensures SameLineEverywhere(posts, r)
  {
  }

  /** And one that exceeds a limit has a run after which they are not in step. */
  lemma TransactionLosesSync(r: Request, cl: Cluster, posts: seq<Post>) returns (ls: seq<Label>)
    requires cl.peers != [] && Synced(cl, posts) && Served(posts, r) && !SafeOnReplicas(posts, r)
    ensures ConfigOf(r, cl).user == r.user && ConfigOf(r, cl).op == MasterOp(r.command)
    ensures Completed(ConfigOf(r, cl), ls)
    ensures !Synced(BoardsAfter(ConfigOf(r, cl), ls), PostsAfter(ConfigOf(r, cl), ls, posts))
  {
    hide ConfigOf, Accepted, Runs, ArrivesToRun, Holds, AllEqual, Undoable, Fits, Edited, Executes, Final, Finished,
        Perform;
    hide SameEffect, Reversible, StopsNobody, Whole, NobodyUndid, MasterCommitted;
    ServedStopsNobody(r, cl, posts);
    var c := ConfigOf(r, cl);
    ConfigRequest(r, cl);
    if !Fits(posts, r.user, MasterOp(r.command)) {
      ls := BothOutcomes(c, true);
      FinalMaster(c, ls);
      FitsExactly(cl.master, posts, c.user, c.op);
    } else {
      if Whole(r) {
        WholeSameLine(posts, r);
        SameLineUndo(r, cl, posts);
      } else {
        CutFittingDiffers(r, cl, posts);
      }
      EqualInEveryRun(c);
      ls :| Completed(c, ls) && !AllEqual(BoardsAfter(c, ls));
    }
  }

  // ----- Any number of transactions in a row -----

  /** Every request of the history is one the server accepts when its turn comes. */
  predicate PostsHistory(cl: Cluster, posts: seq<Post>, eps: seq<Episode>)
    requires History(cl, eps)
    decreases |eps|
  {
    eps == []
    || (var c, ls := ConfigOf(eps[0].request, cl), eps[0].ls;
        && Served(posts, eps[0].request)
        && PostsHistory(BoardsAfter(c, ls), PostsAfter(c, ls, posts), eps[1..]))
  }

  predicate SyncedThroughout(cl: Cluster, posts: seq<Post>, eps: seq<Episode>)
    requires History(cl, eps) && PostsHistory(cl, posts, eps)
    decreases |eps|
  {
    && Synced(cl, posts)
    && (eps != [] ==>
          var c, ls := ConfigOf(eps[0].request, cl), eps[0].ls;
          SyncedThroughout(BoardsAfter(c, ls), PostsAfter(c, ls, posts), eps[1..]))
  }

  /** Each request is within the limits on its turn, whichever of those before it were committed. */
  predicate AlwaysSafeOnReplicas(posts: seq<Post>, rs: seq<Request>)
    decreases |rs|
  {
    rs == []
    || (Served(posts, rs[0]) ==>
          && SafeOnReplicas(posts, rs[0])
          && AlwaysSafeOnReplicas(Edited(posts, rs[0].user, MasterOp(rs[0].command)), rs[1..])
          && AlwaysSafeOnReplicas(posts, rs[1..]))
  }

  lemma {:induction false} SafeHistory(cl: Cluster, posts: seq<Post>, rs: seq<Request>, eps: seq<Episode>)
    requires cl.peers != [] && Synced(cl, posts) && AlwaysSafeOnReplicas(posts, rs)
    requires Plays(eps, rs) && History(cl, eps) && PostsHistory(cl, posts, eps)
    ensures SyncedThroughout(cl, posts, eps)
    decreases |eps|
  {
    hide Executes, Final, Finished, ConfigOf, Synced, StopsNobody, SafeOnReplicas, Edited, Tokens, Accepted, Runs,
        ArrivesToRun;
    if eps != [] {
      var r, ls := eps[0].request, eps[0].ls;
      var c := ConfigOf(r, cl);
      ConfigRequest(r, cl);
      TransactionKeepsSync(r, cl, posts, ls);
      FinalHasAllLinks(c, ls);
      SafeHistory(BoardsAfter(c, ls), PostsAfter(c, ls, posts), rs[1..], eps[1..]);
    }
  }

  /** A first transaction in front of a history. */
  lemma PostsHistoryGoesOn(cl: Cluster, posts: seq<Post>, e: Episode, eps: seq<Episode>)
    requires Served(posts, e.request) && StopsNobody(ConfigOf(e.request, cl))
             && Completed(ConfigOf(e.request, cl), e.ls)
    requires ConfigOf(e.request, cl).user == e.request.user && ConfigOf(e.request, cl).op == MasterOp(e.request.command)
    requires var c := ConfigOf(e.request, cl);
             History(BoardsAfter(c, e.ls), eps) && PostsHistory(BoardsAfter(c, e.ls), PostsAfter(c, e.ls, posts), eps)
    ensures History(cl, [e] + eps) && PostsHistory(cl, posts, [e] + eps)
    ensures var c := ConfigOf(e.request, cl);
            SyncedThroughout(cl, posts, [e] + eps)
            <==> Synced(cl, posts) && SyncedThroughout(BoardsAfter(c, e.ls), PostsAfter(c, e.ls, posts), eps)
  {
    assert ClientRequest(e.request);
    hide ConfigOf, StopsNobody, Completed, Synced, Executes, Final, Served, Accepted;
    assert ([e] + eps)[1..] == eps;
  }

  lemma {:induction false} UnsafeHistory(cl: Cluster, posts: seq<Post>, rs: seq<Request>) returns (eps: seq<Episode>)
    requires cl.peers != [] && Synced(cl, posts) && !AlwaysSafeOnReplicas(posts, rs)
    ensures Plays(eps, rs) && History(cl, eps) && PostsHistory(cl, posts, eps) && !SyncedThroughout(cl, posts, eps)
    decreases |rs|
  {
    hide Executes, Final, Finished, ConfigOf, StopsNobody, SafeOnReplicas, Edited, Tokens, Accepted, Runs, ArrivesToRun;
    hide Holds, AllEqual, MasterCommitted, NobodyUndid;
    var r := rs[0];
    var c := ConfigOf(r, cl);
    ConfigRequest(r, cl);
    ServedStopsNobody(r, cl, posts);
    if !SafeOnReplicas(posts, r) {
      var ls := TransactionLosesSync(r, cl, posts);
      PostsHistoryGoesOn(cl, posts, Episode(r, ls), []);
      eps := [Episode(r, ls)] + [];
    } else {
      var committed := !AlwaysSafeOnReplicas(Edited(posts, r.user, MasterOp(r.command)), rs[1..]);
      var ls := BothOutcomes(c, committed);
      TransactionKeepsSync(r, cl, posts, ls);
      FinalHasAllLinks(c, ls);
      var rest := UnsafeHistory(BoardsAfter(c, ls), PostsAfter(c, ls, posts), rs[1..]);
      PostsHistoryGoesOn(cl, posts, Episode(r, ls), rest);
      eps := [Episode(r, ls)] + rest;
    }
  }

  /**
   * For any number of peers and any list of requests to one master: in all histories, whichever transactions commit,
   * all replicas stay equal and hold the posts of the committed requests, in order, throughout, exactly when each
   * request is within the limits whenever its turn can come: nothing of it is cut off on the wire, its line fits, and
   * a REPLACE does not overwrite a message with a slash.
   */
  lemma ReplicasHoldPosts(cl: Cluster, posts: seq<Post>, rs: seq<Request>)
    requires cl.peers != [] && Synced(cl, posts)
    ensures (forall eps :: Plays(eps, rs) && History(cl, eps) && PostsHistory(cl, posts, eps)
                           ==> SyncedThroughout(cl, posts, eps))
            <==> AlwaysSafeOnReplicas(posts, rs)
  {
    hide Synced, AlwaysSafeOnReplicas, History, PostsHistory, SyncedThroughout, Plays;
    if AlwaysSafeOnReplicas(posts, rs) {
      forall eps | Plays(eps, rs) && History(cl, eps) && PostsHistory(cl, posts, eps)
        ensures SyncedThroughout(cl, posts, eps)
      {
        SafeHistory(cl, posts, rs, eps);
      }
    } else {
      var eps := UnsafeHistory(cl, posts, rs);
    }
  }
}
