/** board-server.cpp: the branch that carries out WRITE and REPLACE, from the client's line to the client's answer. */
module BoardServer {
  import opened Text
  import opened Utilities
  import opened Wire
  import opened Boards
  import Lock = ReadersWriterLock
  import opened FileOperations
  import opened PeerCommunication
  import opened SyncServer
  import opened TwoPhaseCommit
  import opened TwoPhaseInvariants
  import opened TwoPhaseTheorems
  import opened Posts
  import opened Edits

  /** The argument of one peer thread. */
  datatype ThreadInfo = ThreadInfo(peer: string, user: string, req: string)

  /** An answer without a transaction, a transaction under way, or a program that has stopped. */
  datatype Outcome = Answered(reply: string) | Started(threads: seq<ThreadInfo>) | Stopped

  predicate IsEdit(req: string) {
    |Tokens(req, ' ')| == 2 && Tokens(req, ' ')[0] in {"WRITE", "REPLACE"}
  }

  /** What a REPLACE must pass before anything else happens; a WRITE is always let through. */
  predicate PassesCheck(b: Board, op: Op) {
    op.Replace? ==>
      && WellFormedArgument(op.argument) && ArgumentNumber(op.argument) <= INT_MAX
      && ArgumentNumber(op.argument) < b.messageNumber
  }

  /** std::stoi throws on the number of a well-formed REPLACE, and nothing catches the exception. */
  predicate ThrowsOnNumber(op: Op) {
    op.Replace? && WellFormedArgument(op.argument) && ArgumentNumber(op.argument) > INT_MAX
  }

  /** The arguments of the peer threads, filled in one by one. */
  method ThreadArguments(peersList: seq<string>, user: string, req: string) returns (tinfo: array<ThreadInfo>)
    ensures fresh(tinfo) && tinfo.Length == |peersList|
    ensures forall i :: 0 <= i < |peersList| ==> tinfo[i] == ThreadInfo(peersList[i], user, req)
  {
    tinfo := new ThreadInfo[|peersList|](_ => ThreadInfo("", "", ""));
    for i := 0 to |peersList|
      invariant forall j :: 0 <= j < i ==> tinfo[j] == ThreadInfo(peersList[j], user, req)
    {
      tinfo[i] := ThreadInfo(peersList[i], user, req);
    }
  }

  /**
   * Lines 94-125. A refused REPLACE leaves everything alone and is told why; without peers the operation is performed
   * at once and the lock given back; with peers there is one thread per peer, each with the same user and the
   * client's line, and the statistics start with every acknowledgement pending.
   */
  method BeginEdit(board: BulletinBoard, mapping: ThreadIdStatsMapping, threadId: int, peersList: seq<string>,
                   user: string, req: string, accessible: bool)
    returns (outcome: Outcome)
    requires IsEdit(req) && (peersList == [] ==> !Lock.WriterBlocked(board.lock.View()))
    modifies board, board.file, board.lock, mapping
    ensures !outcome.Stopped? ==> board.lock.View() == old(board.lock.View())
    ensures outcome.Stopped? <==> ThrowsOnNumber(MasterOp(req))
                                  || (PassesCheck(old(board.View()), MasterOp(req)) && peersList == [] && accessible
                                      && !Runnable(old(board.View()), MasterOp(req)))
    ensures !PassesCheck(old(board.View()), MasterOp(req)) && !outcome.Stopped?
            ==> outcome == Answered(Refusal(MasterOp(req).argument))
    ensures !PassesCheck(old(board.View()), MasterOp(req)) || outcome.Stopped? ==> board.View() == old(board.View())
    ensures PassesCheck(old(board.View()), MasterOp(req)) && peersList == [] && !outcome.Stopped?
            ==> outcome == Answered(Reply(old(board.View()), MasterOp(req), accessible, true))
                && board.View()
                   == (if accessible then Perform(old(board.View()), user, MasterOp(req)) else old(board.View()))
    ensures PassesCheck(old(board.View()), MasterOp(req)) && peersList != []
            ==> outcome.Started? && |outcome.threads| == |peersList| && board.View() == old(board.View())
                && forall i :: 0 <= i < |peersList| ==> outcome.threads[i] == ThreadInfo(peersList[i], user, req)
    ensures !outcome.Started? ==> mapping.entries == old(mapping.entries)
    ensures outcome.Started? && threadId !in old(mapping.entries)
            ==> && threadId in mapping.entries && mapping.entries[threadId].View() == NewStats(|peersList|)
                && mapping.entries == old(mapping.entries)[threadId := mapping.entries[threadId]]
  {
    hide Perform, Runnable, Reply, Refusal;
    NotRunnableLeavesBoard(board.View(), user, MasterOp(req));
    var tokens := Tokenize(req, ' ');
    if tokens[0] == "REPLACE" {
      var result := board.AreReplaceArgumentsValid(tokens[1]);
      if result.Thrown? {
        return Outcome.Stopped;
      }
      if result.Invalid? {
        return Answered(result.reply);
      }
    }
    if |peersList| == 0 {
      var response, ignored := board.Operate(user, OpOf(tokens[0], tokens[1]), false, accessible, NoUndo);
      return if response.None? then Outcome.Stopped else Answered(response.value);
    }
    mapping.Reset(threadId, |peersList|);
    var tinfo := ThreadArguments(peersList, user, req);
    outcome := Started(tinfo[..]);
  }

  /** What the client is answered after a transaction, by the completion message and the first token of its line. */
  function ClientReply(completion: string, operation: string): string {
    if completion == "" then SocketMessage("3.2", "ERROR" + " " + operation, "Syncronization Failed") else completion
  }

  /** Lines 131-136, after the threads have been joined: the answer, and the end of the entry. */
  method EndEdit(mapping: ThreadIdStatsMapping, threadId: int, req: string) returns (answer: string)
    requires IsEdit(req) && threadId in mapping.entries
    modifies mapping
    ensures answer == ClientReply(old(mapping.entries[threadId].completion), OperationName(MasterOp(req)))
    ensures mapping.entries == old(mapping.entries) - {threadId}
  {
    hide SocketMessage;
    var tokens := Tokenize(req, ' ');
    var response := mapping.TakeCompletionMessage(threadId);
    if response == "" {
      return SocketMessage("3.2", "ERROR" + " " + tokens[0], "Syncronization Failed");
    }
    answer := response;
  }

  /** The text of an answer about a transaction in which the master did not get to perform the operation. */
  lemma FailedSynchronizationText(operation: string)
    requires operation == "WRITE" || operation == "REPLACE"
    ensures ClientReply("", operation) == "3.2 ERROR " + operation + " Syncronization Failed\n"
  {
    hide CreateMessage;
    MessageText("3.2", "ERROR" + " " + operation, "Syncronization Failed", true);
    assert "3.2" + " " + ("ERROR" + " " + operation) == "3.2 ERROR " + operation;
    assert "3.2 ERROR " + operation + " " + "Syncronization Failed" + "\n"
           == "3.2 ERROR " + operation + " Syncronization Failed\n";
  }

  function OperationName(op: Op): string {
    if op.Write? then "WRITE" else "REPLACE"
  }

  /** The answer after a run of the transaction. */
  function AnswerAfter(c: Config, ls: seq<Label>): string
    requires Executes(c, Init(c), ls)
  {
    ClientReply(Final(c, Init(c), ls).stats.completion, OperationName(c.op))
  }

  lemma FailureSaysError(op: Op)
    ensures Contains(ClientReply("", OperationName(op)), "ERROR")
  {
    hide SocketMessage;
    FailedSynchronizationText(OperationName(op));
    var m := "3.2 ERROR " + OperationName(op) + " Syncronization Failed\n";
    assert m[4..9] == "3.2 ERROR "[4..9] == "ERROR";
    assert OccursAt(m, "ERROR", 4);
  }

  /** Peer i has kept the change, and its board shows it. */
  predicate KeptChange(c: Config, s: System, i: nat)
    requires i < |s.links| && i < |c.peerBoards|
  {
    s.links[i].peer.status == Ended(Kept) && s.links[i].peer.board == Performed(c, c.peerBoards[i])
  }

  /**
   * What the client can conclude from the answer once all threads have finished. Without ERROR the operation has been
   * performed once on the master, and every peer has kept it or given up waiting for the verdict; with ERROR the
   * master's board is what it was and no peer has kept anything.
   */
  lemma ClientToldTheTruth(c: Config, ls: seq<Label>)
    requires Executes(c, Init(c), ls) && Finished(Final(c, Init(c), ls))
    ensures |Final(c, Init(c), ls).links| == |c.peerBoards|
    ensures var s := Final(c, Init(c), ls);
            if Contains(AnswerAfter(c, ls), "ERROR") then
              && s.board == c.board
              && forall i :: 0 <= i < |s.links| ==> s.links[i].peer.status != Ended(Kept)
            else
              && s.performed == 1 && s.board == Perform(c.board, c.user, c.op)
              && forall i :: 0 <= i < |s.links| ==>
                   KeptChange(c, s, i) || s.links[i].peer.status == Ended(UndoneOnTimeout)
  {
    hide Perform, Contains, Finished, SocketMessage;
    ReachableInv(c, ls);
    var s := Final(c, Init(c), ls);
    FailureSaysError(c.op);
    forall i | 0 <= i < |s.links|
      ensures MasterCommitted(s) ==> KeptChange(c, s, i) || s.links[i].peer.status == Ended(UndoneOnTimeout)
      ensures !MasterCommitted(s) ==> s.links[i].peer.status != Ended(Kept)
    {
      PeerEndings(c, s, i);
      PeerBoard(c, s, i);
    }
  }

  /**
   * What the client is told, to the letter, when the request was not carried out: that the synchronization of this
   * operation failed if the master never tried it, and the refusal of the operation if the master could not.
   */
  lemma FailedAnswer(c: Config, ls: seq<Label>)
    requires Executes(c, Init(c), ls) && !MasterCommitted(Final(c, Init(c), ls))
    ensures AnswerAfter(c, ls)
            == if Final(c, Init(c), ls).performed == 0 then
                 "3.2 ERROR " + (if c.op.Write? then "WRITE" else "REPLACE") + " Syncronization Failed\n"
               else
                 "3.2 ERROR WRITE "
                 + (if c.op.Write? then "bbfile currently unavailable" else "bbfile is currently unavailable") + "\n"
  {
    hide Perform, Succeeded, SocketMessage, Reply, LinkOk, Agrees;
    ReachableInv(c, ls);
    if Final(c, Init(c), ls).stats.completion == "" {
      FailedSynchronizationText(OperationName(c.op));
    } else {
      FailureText(c.board, c.op, true);
    }
  }

  /**
   * What the client is told after a committed run of an accepted request, on a master's board that holds posts: the
   * success, with a number under which READ on the master then answers with the client's own post.
   */
  lemma CommittedAnswer(c: Config, ls: seq<Label>, posts: seq<Post>)
    requires Executes(c, Init(c), ls) && MasterCommitted(Final(c, Init(c), ls))
    requires Holds(c.board, posts) && |posts| <= INT_MAX
    requires Accepted(posts, c.user, c.op) && Runs(posts, c.user, c.op)
    ensures var number := PrintedNumber(AnswerAfter(c, ls));
            && number.Some? && AnswerAfter(c, ls) == "3.0 WROTE " + FormatInt(number.value) + "\n"
            && ReadsAs(Final(c, Init(c), ls).board, number.value, NewPost(c.user, c.op))
  {
    hide Perform, Succeeded, SocketMessage, Reply, FormatInt, PrintedNumber, Holds, ReadsAs, Runnable, LinkOk, Agrees;
    hide WellFormedArgument, ArgumentText, ReplaceArguments, HasText, GoodPost;
    ReachableInv(c, ls);
    AnswerOfCommit(c.board, posts, c.user, c.op);
  }

  lemma AnswerOfCommit(b: Board, posts: seq<Post>, user: string, op: Op)
    requires Holds(b, posts) && |posts| <= INT_MAX && Accepted(posts, user, op) && Runs(posts, user, op)
    ensures var answer := Reply(b, op, true, true);
            && PrintedNumber(answer).Some?
            && answer == "3.0 WROTE " + FormatInt(PrintedNumber(answer).value) + "\n"
            && ReadsAs(Perform(b, user, op), PrintedNumber(answer).value, NewPost(user, op))
  {
    hide Perform, SocketMessage, Reply, FormatInt, PrintedNumber, ReadsAs, Runnable, HasText, GoodPost,
        ReplaceArguments;
    hide WellFormedArgument, ArgumentText, LineText;
    RunsExactly(b, posts, user, op);
    match op
    case Write(message) =>
      SuccessText(b, op, true);
      NumberFound(|posts|, true);
      ReportedWriteReads(b, posts, NewPost(user, op), true);
    case Replace(argument) =>
      AcceptedArguments(posts, user, argument);
      SuccessText(b, op, true);
      NumberFound(ArgumentNumber(argument), true);
      ReportedReplaceReads(b, posts, ArgumentNumber(argument), NewPost(user, op), argument, true);
  }
}
