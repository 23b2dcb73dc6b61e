/**
 Requests that do not fit the peers' buffer: the master performs them whole and the peers cut short. Which of them
 stop the peers, when what the peers perform differs, and when their undo of it restores the file; all by the name,
 the command and the posts.
 */
module CutRequests {
  import opened Text
  import opened Utilities
  import opened Wire
  import opened Boards
  import opened FileLines
  import opened Posts
  import opened Edits
  import opened TwoPhaseInvariants
  import opened TwoPhaseTheorems
  import opened Replication

  /** Two texts printed into a buffer leave the same there iff they agree or are cut where they still do. */
  lemma SameInBuffer(head: string, whole: string, cut: string)
    requires cut <= whole && cut != whole && '\n' !in whole
    ensures Snprintf(255, head + whole + "\n") == Snprintf(255, head + cut + "\n") <==> |head| + |cut| >= 254
  {
    var a, b := head + whole + "\n", head + cut + "\n";
    var n := |head| + |cut|;
    assert a[..n] == head + cut == b[..n];
    assert a[n] == whole[|cut|] != '\n' && b[n] == '\n';
    if n >= 254 {
      assert a[..254] == a[..n][..254] == b[..n][..254] == b[..254];
    } else {
      assert Snprintf(255, a)[n] == a[n] && Snprintf(255, b)[n] == b[n];
    }
  }

  /** A WRITE cut short on the wire: the line stored is the same only when the name pushes the cut out of the buffer. */
  lemma CutWriteDiffers(b: Board, user: string, message: string, cut: string)
    requires cut <= message && cut != message && '\n' !in message
    ensures Perform(b, user, Write(message)) == Perform(b, user, Write(cut))
            <==> |FormatInt(b.messageNumber)| + |user| + 2 + |cut| >= 254
  {
    hide FormatInt;
    var head := FormatInt(b.messageNumber) + "/" + user + "/";
    SameInBuffer(head, message, cut);
    SameBehind(b.bytes, Snprintf(255, head + message + "\n"), Snprintf(255, head + cut + "\n"));
    assert StoredLine(b.messageNumber, user, message) == head + message + "\n";
    assert StoredLine(b.messageNumber, user, cut) == head + cut + "\n";
  }

  /** A WRITE in a name cut short never stores the same line: the slash behind the name comes early. */
  lemma CutUserWriteDiffers(b: Board, user: string, cutUser: string, message: string, other: string)
    requires 0 <= b.messageNumber <= INT_MAX && '/' !in user
    requires cutUser <= user && |user| > |cutUser| && |cutUser| <= USER_ROOM
    ensures Perform(b, user, Write(message)) != Perform(b, cutUser, Write(other))
  {
    hide FormatInt;
    NumberLength(b.messageNumber);
    var digits := FormatInt(b.messageNumber);
    var x, y := StoredLine(b.messageNumber, user, message), StoredLine(b.messageNumber, cutUser, other);
    var i := |digits| + 1 + |cutUser|;
    assert x[i] == user[|cutUser|] && y[i] == '/';
    assert Snprintf(255, x)[i] == x[i] && Snprintf(255, y)[i] == y[i];
    SameBehind(b.bytes, Snprintf(255, x), Snprintf(255, y));
  }

  /** A REPLACE with a shorter line leaves a shorter file. */
  lemma CutReplaceDiffers(b: Board, posts: seq<Post>, k: nat, p: Post, other: Post, argument: string, cut: string)
    requires Holds(b, posts) && k < |posts| && HasText(posts[k].message)
    requires ReplaceArguments(argument) == Some((k, p.message)) && ReplaceArguments(cut) == Some((k, other.message))
    requires |other.user| + |other.message| < |p.user| + |p.message| && |LineText(k, p)| <= 4094
    ensures Perform(b, p.user, Replace(argument)) != Perform(b, other.user, Replace(cut))
  {
    hide FormatInt, FileOf, Perform, ReplaceArguments, HasText;
    BytesAfterReplace(b, posts, k, p, argument);
    BytesAfterReplace(b, posts, k, other, cut);
    assert |LineText(k, other)| < |LineText(k, p)|;
  }

  // ----- What is left of a REPLACE argument -----

  /**
   * The first `m` characters of a well-formed argument are one with the same number when some of the text is among
   * them.
   */
  lemma CutArgument(argument: string, m: nat)
    requires WellFormedArgument(argument) && Stretch(argument, '/') + 1 < m <= |argument|
    ensures var cut := argument[..m];
            && WellFormedArgument(cut) && ArgumentNumber(cut) == ArgumentNumber(argument)
            && ArgumentText(cut) == ArgumentText(argument)[..m - Stretch(argument, '/') - 1]
  {
    hide Stretch, Value;
    var i := Stretch(argument, '/');
    FirstSlashOfPrefix(argument, m);
    var cut := argument[..m];
    assert cut[..i] == argument[..i];
    assert cut[i + 1..] == argument[i + 1..][..m - i - 1];
  }

  lemma FirstSlashOfPrefix(argument: string, m: nat)
    requires Stretch(argument, '/') < m <= |argument|
    ensures Stretch(argument[..m], '/') == Stretch(argument, '/')
  {
    hide Stretch;
    var i := Stretch(argument, '/');
    forall j | 0 <= j < i ensures argument[..m][j] != '/' {
      assert argument[..m][j] == argument[..i][j];
    }
    StretchIs(argument[..m], '/', i);
  }

  /** Otherwise it has no text. */
  lemma ArgumentGone(argument: string, m: nat)
    requires WellFormedArgument(argument) && m <= |argument| && m <= Stretch(argument, '/') + 1
    ensures ReplaceArguments(argument[..m]).None?
  {
    hide Stoi, Tokens, Stretch, WellFormedArgument;
    BeforeSlash(argument);
    var i := Stretch(argument, '/');
    TokensByIndex(argument[..m], '/', 0, Least(i, m), m, m);
  }

  lemma BeforeSlash(argument: string)
    requires WellFormedArgument(argument)
    ensures var i := Stretch(argument, '/');
            0 < i < |argument| && argument[i] == '/' && forall j :: 0 <= j < i ==> argument[j] != '/'
  {
    var i := Stretch(argument, '/');
    assert forall j :: 0 <= j < i ==> argument[j] == argument[..i][j];
  }

  // ----- Which requests stop the peers -----

  /**
   * The part of a request that the peers cannot do without is among the first 242 characters of the command: the first
   * character of the text to write.
   */
  predicate ArrivesToRun(r: Request)
    requires |Tokens(r.command, ' ')| == 2
  {
    var op := MasterOp(r.command);
    ArgumentStart(r.command) + (if op.Write? then 0 else Stretch(op.argument, '/') + 1) < COMMAND_ROOM
  }

  /** How much of the argument gets through. */
  function LengthThrough(r: Request): nat
    requires |Tokens(r.command, ' ')| == 2 && ArgumentStart(r.command) < COMMAND_ROOM
  {
    Least(|Tokens(r.command, ' ')[1]|, COMMAND_ROOM - ArgumentStart(r.command))
  }

  lemma PeersWrite(r: Request, cl: Cluster, posts: seq<Post>)
    requires ClientRequest(r) && Accepted(posts, r.user, MasterOp(r.command)) && ArrivesToRun(r)
             && MasterOp(r.command).Write?
    ensures var c := ConfigOf(r, cl);
            && c.heard && c.peerOp.Write? && Accepted(posts, c.peerUser, c.peerOp)
            && c.peerOp.message == MasterOp(r.command).message[..LengthThrough(r)]
  {
    hide PeerDecode, Packet, Tokens, SecondToken, CommandFits;
    RequestOnTheWire(r, cl);
  }

  lemma PeersReplace(r: Request, cl: Cluster, posts: seq<Post>)
    requires ClientRequest(r) && Accepted(posts, r.user, MasterOp(r.command)) && ArrivesToRun(r)
             && MasterOp(r.command).Replace?
    ensures var c, argument := ConfigOf(r, cl), MasterOp(r.command).argument;
            && c.heard && c.peerOp == Replace(argument[..LengthThrough(r)]) && Accepted(posts, c.peerUser, c.peerOp)
            && ArgumentNumber(c.peerOp.argument) == ArgumentNumber(argument)
            && ArgumentText(c.peerOp.argument)
               == ArgumentText(argument)[..LengthThrough(r) - Stretch(argument, '/') - 1]
  {
    hide PeerDecode, Packet, Tokens, SecondToken, CommandFits, WellFormedArgument, ArgumentNumber, ArgumentText,
        Stretch;
    RequestOnTheWire(r, cl);
    var argument := MasterOp(r.command).argument;
    TextNotEmpty(argument);
    CutArgument(argument, LengthThrough(r));
  }

  lemma TextNotEmpty(argument: string)
    requires WellFormedArgument(argument)
    ensures Stretch(argument, '/') + 1 < |argument|
            && |ArgumentText(argument)| == |argument| - Stretch(argument, '/') - 1
  {
  }

  /** The peers' part of an accepted request that arrives to run is itself an accepted request, on the same post. */
  lemma PeersRequest(r: Request, cl: Cluster, posts: seq<Post>)
    requires ClientRequest(r) && Accepted(posts, r.user, MasterOp(r.command)) && ArrivesToRun(r)
    ensures var c, op := ConfigOf(r, cl), MasterOp(r.command);
            && c.heard && c.peerOp.Write? == op.Write? && Accepted(posts, c.peerUser, c.peerOp)
            && (Runs(posts, c.peerUser, c.peerOp) <==> Runs(posts, r.user, op))
            && NewPost(c.peerUser, c.peerOp).message <= NewPost(r.user, op).message
            && (LengthThrough(r) < |Tokens(r.command, ' ')[1]| ==>
                  |NewPost(c.peerUser, c.peerOp).message| < |NewPost(r.user, op).message|)
  {
    hide Tokens, ConfigOf, WellFormedArgument, ArgumentNumber, ArgumentText, ArgumentStart;
    if MasterOp(r.command).Write? {
      PeersWrite(r, cl, posts);
    } else {
      PeersReplace(r, cl, posts);
      TextNotEmpty(MasterOp(r.command).argument);
    }
  }

  /** An accepted request whose beginning does not arrive stops every peer. */
  lemma PeersStop(r: Request, cl: Cluster, posts: seq<Post>)
    requires ClientRequest(r) && Accepted(posts, r.user, MasterOp(r.command)) && !ArrivesToRun(r)
    ensures !PeersPerform(ConfigOf(r, cl), cl.master)
  {
    hide PeerDecode, Packet, Tokens, SecondToken, CommandFits, ReplaceArguments;
    RequestOnTheWire(r, cl);
    var c := ConfigOf(r, cl);
    if c.heard {
      ArgumentGone(c.op.argument, Least(|c.op.argument|, COMMAND_ROOM - ArgumentStart(r.command)));
    }
  }

  /**
   * Which accepted requests stop a node, the master or the peers: all but those that arrive to run and overwrite a
   * message with some text.
   */
  lemma StopsNobodyExactly(r: Request, cl: Cluster, posts: seq<Post>)
    requires ClientRequest(r) && Holds(cl.master, posts) && Accepted(posts, r.user, MasterOp(r.command))
    ensures StopsNobody(ConfigOf(r, cl)) <==> Runs(posts, r.user, MasterOp(r.command)) && ArrivesToRun(r)
  {
    hide Tokens, Holds, Runnable, Accepted, Runs, ConfigOf;
    var c := ConfigOf(r, cl);
    ConfigRequest(r, cl);
    RunsExactly(cl.master, posts, c.user, c.op);
    if ArrivesToRun(r) {
      PeersRequest(r, cl, posts);
      RunsExactly(cl.master, posts, c.peerUser, c.peerOp);
    } else {
      PeersStop(r, cl, posts);
    }
  }

  /** A WRITE with 240 blanks in front of its text: the server accepts it, and no peer survives its COMMIT. */
  lemma LateArgumentStops(cl: Cluster)
    ensures var r := Request("nobody", "WRITE" + seq(240, _ => ' ') + "x");
            && ClientRequest(r) && MasterOp(r.command) == Write("x")
            && PeerDecode(Packet("COMMIT", r.command)) == BareCommit && !ConfigOf(r, cl).heard
  {
    hide Tokens, PeerDecode, Packet, SecondToken;
    var command := "WRITE" + seq(240, _ => ' ') + "x";
    assert command[0..5] == "WRITE" && command[245..246] == "x";
    TokensByIndex(command, ' ', 0, 5, 245, 246);
    LateArgument(command);
    CommandOnTheWire(command);
  }

  lemma LateArgument(command: string)
    requires command == "WRITE" + seq(240, _ => ' ') + "x"
    ensures ArgumentStart(command) == 245
  {
    hide Stretch, Blanks;
    BlanksAre(command, ' ', 0);
    StretchIs(command[0..], ' ', 5);
    BlanksAre(command[5..], ' ', 240);
  }

  // ----- When the peers do the same -----

  /**
   * Exactly which accepted requests the peers perform to the same effect as the master: those whose name and command
   * arrive whole, and WRITEs whose line the 255-byte buffer cuts before the part that got lost on the wire.
   */
  lemma SameEffectExactly(r: Request, cl: Cluster, posts: seq<Post>)
    requires ClientRequest(r) && Holds(cl.master, posts) && |posts| <= INT_MAX
    requires Accepted(posts, r.user, MasterOp(r.command)) && Runs(posts, r.user, MasterOp(r.command)) && ArrivesToRun(r)
    ensures SameEffect(ConfigOf(r, cl)) <==> SameLineEverywhere(posts, r)
  {
    hide Tokens, Holds, FormatInt, CommandFits, Accepted, Runs, SameEffect, ConfigOf, ArgumentStart;
    if Whole(r) {
      WholeSameEffect(r, cl);
    } else {
      var c := ConfigOf(r, cl);
      ConfigRequest(r, cl);
      if c.op.Write? {
        CutWriteEffect(r, cl, posts);
      } else {
        CutReplaceEffect(r, cl, posts);
      }
    }
  }

  predicate SameLineEverywhere(posts: seq<Post>, r: Request)
    requires |Tokens(r.command, ' ')| == 2
  {
    && |r.user| <= USER_ROOM
    && (CommandFits(r.command)
        || (MasterOp(r.command).Write? && |FormatInt(|posts|)| + |r.user| >= ArgumentStart(r.command) + 10))
  }

  lemma WholeSameEffect(r: Request, cl: Cluster)
    requires ClientRequest(r) && Whole(r)
    ensures SameEffect(ConfigOf(r, cl))
  {
    hide ConfigOf, Perform, Tokens;
    RequestOnTheWire(r, cl);
    ConfigRequest(r, cl);
  }

  lemma CutWriteEffect(r: Request, cl: Cluster, posts: seq<Post>)
    requires ClientRequest(r) && Holds(cl.master, posts) && |posts| <= INT_MAX && !Whole(r)
    requires Accepted(posts, r.user, MasterOp(r.command)) && ArrivesToRun(r) && MasterOp(r.command).Write?
    ensures SameEffect(ConfigOf(r, cl)) <==> SameLineEverywhere(posts, r)
  {
    hide Tokens, PeerDecode, Packet, Perform, FormatInt, CommandFits, FileOf, SecondToken;
    var c := ConfigOf(r, cl);
    RequestOnTheWire(r, cl);
    PeersRequest(r, cl, posts);
    if |r.user| > USER_ROOM {
      CutUserWriteDiffers(c.board, c.user, c.peerUser, c.op.message, c.peerOp.message);
    } else {
      PeersWrite(r, cl, posts);
      assert c.peerUser == c.user;
      CutThrough(r);
      CutWriteDiffers(c.board, c.user, c.op.message, c.peerOp.message);
    }
  }

  lemma CutReplaceEffect(r: Request, cl: Cluster, posts: seq<Post>)
    requires ClientRequest(r) && Holds(cl.master, posts) && !Whole(r)
    requires Accepted(posts, r.user, MasterOp(r.command)) && Runs(posts, r.user, MasterOp(r.command)) && ArrivesToRun(r)
    requires MasterOp(r.command).Replace?
    ensures !SameEffect(ConfigOf(r, cl))
  {
    hide Tokens, PeerDecode, Packet, Perform, FormatInt, CommandFits, FileOf, SecondToken, ReplaceArguments, HasText,
        LineText;
    hide WellFormedArgument, ArgumentText;
    var c := ConfigOf(r, cl);
    RequestOnTheWire(r, cl);
    PeersRequest(r, cl, posts);
    PeersReplace(r, cl, posts);
    var k := ArgumentNumber(c.op.argument);
    AcceptedArguments(posts, c.user, c.op.argument);
    AcceptedArguments(posts, c.peerUser, c.peerOp.argument);
    RequestLineLength(r, posts);
    ShorterRequest(r, cl, posts);
    CutReplaceDiffers(c.board, posts, k, NewPost(c.user, c.op), NewPost(c.peerUser, c.peerOp), c.op.argument,
        c.peerOp.argument);
  }

  /** What does not arrive whole arrives shorter. */
  lemma ShorterRequest(r: Request, cl: Cluster, posts: seq<Post>)
    requires ClientRequest(r) && !Whole(r)
    requires Accepted(posts, r.user, MasterOp(r.command)) && ArrivesToRun(r)
    ensures var c := ConfigOf(r, cl);
            && c.heard && Accepted(posts, c.peerUser, c.peerOp) && c.peerOp.Write? == c.op.Write?
            && var p, q := NewPost(c.user, c.op), NewPost(c.peerUser, c.peerOp);
               |q.user| + |q.message| < |p.user| + |p.message|
  {
    hide Tokens, PeerDecode, Packet, CommandFits, SecondToken;
    var c := ConfigOf(r, cl);
    RequestOnTheWire(r, cl);
    PeersRequest(r, cl, posts);
    CutThrough(r);
  }

  /** A command that does not fit loses part of its argument. */
  lemma CutThrough(r: Request)
    requires |Tokens(r.command, ' ')| == 2 && ArgumentStart(r.command) < COMMAND_ROOM
    ensures !CommandFits(r.command) <==> LengthThrough(r) < |Tokens(r.command, ' ')[1]|
    ensures !CommandFits(r.command) ==> LengthThrough(r) == COMMAND_ROOM - ArgumentStart(r.command)
  {
    hide Tokens, SecondToken;
    var a, w, e := TwoTokens(r.command, ' ');
    var st := ArgumentStart(r.command);
    assert |Tokens(r.command, ' ')[1]| == e - st;
    if e > COMMAND_ROOM {
      assert r.command[e - 1] != ' ';
    }
  }

  /** A line made of a number below the line reader's limit and what a client can type fits the 4096-byte buffer. */
  lemma RequestLineLength(r: Request, posts: seq<Post>)
    requires ClientRequest(r) && Accepted(posts, r.user, MasterOp(r.command)) && MasterOp(r.command).Replace?
    requires forall i :: 0 <= i < |posts| ==> |LineText(i, posts[i])| < READLINE_LIMIT
    ensures |LineText(ArgumentNumber(MasterOp(r.command).argument), NewPost(r.user, MasterOp(r.command)))| <= 4094
  {
    hide FormatInt, Tokens;
    TokenIsShort(r.command);
    var k := ArgumentNumber(MasterOp(r.command).argument);
    assert |LineText(k, posts[k])| < READLINE_LIMIT;
  }

  lemma TokenIsShort(command: string)
    requires |Tokens(command, ' ')| == 2
    ensures |Tokens(command, ' ')[1]| <= |command|
  {
    hide Tokens;
    var a, w, e := TwoTokens(command, ' ');
  }

  /** A request that does not arrive whole but fits at the master leaves the peers with a shorter file. */
  lemma CutFittingDiffers(r: Request, cl: Cluster, posts: seq<Post>)
    requires ClientRequest(r) && Holds(cl.master, posts) && !Whole(r)
    requires Accepted(posts, r.user, MasterOp(r.command)) && Runs(posts, r.user, MasterOp(r.command)) && ArrivesToRun(r)
    requires Fits(posts, r.user, MasterOp(r.command))
    ensures !SameEffect(ConfigOf(r, cl))
  {
    hide Tokens, PeerDecode, Packet, FormatInt, CommandFits, SecondToken, ReplaceArguments, HasText, FileOf;
    if MasterOp(r.command).Replace? {
      CutReplaceEffect(r, cl, posts);
    } else {
      var c := ConfigOf(r, cl);
      ShorterRequest(r, cl, posts);
      ShorterLine(c.board.messageNumber, c.user, c.op.message, c.peerUser, c.peerOp.message);
      var x := StoredLine(c.board.messageNumber, c.user, c.op.message);
      var y := StoredLine(c.board.messageNumber, c.peerUser, c.peerOp.message);
      assert |Perform(c.board, c.user, c.op).bytes| == |c.board.bytes| + |x|;
      assert |Performed(c, c.board).bytes| == |c.board.bytes| + |y|;
    }
  }

  lemma ShorterLine(n: int, user: string, message: string, otherUser: string, otherMessage: string)
    requires |otherUser| + |otherMessage| < |user| + |message|
    ensures |StoredLine(n, otherUser, otherMessage)| < |StoredLine(n, user, message)|
  {
    hide FormatInt;
  }

  // ----- When the peers' undo restores the file -----

  /** Also for a request cut short: it is the part the peers got that their undo depends on. */
  lemma ReversibleExactly(r: Request, cl: Cluster, posts: seq<Post>)
    requires ClientRequest(r) && Holds(cl.master, posts)
    requires Accepted(posts, r.user, MasterOp(r.command)) && Runs(posts, r.user, MasterOp(r.command)) && ArrivesToRun(r)
    ensures var c := ConfigOf(r, cl);
            && Accepted(posts, c.peerUser, c.peerOp)
            && (Reversible(c, cl.master) <==> Undoable(posts, c.peerUser, c.peerOp))
  {
    hide Tokens, Holds, Accepted, Runs, Undoable, Perform, Revert, UndoOf, ConfigOf;
    var c := ConfigOf(r, cl);
    ConfigRequest(r, cl);
    PeersRequest(r, cl, posts);
    UndoableExactly(cl.master, posts, c.peerUser, c.peerOp);
  }
}
