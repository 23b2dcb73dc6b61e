/** The messages of the two-phase commit and how they look as bytes between the master and a peer. */
module Wire {
  import opened Text
  import opened Utilities

  /** The edit a client asks for: WRITE text, or REPLACE number/text. */
  datatype Op = Write(message: string) | Replace(argument: string)

  datatype MasterMsg =
    | Precommit(user: string)
    | Commit(op: Op)
    | Abort
    | SuccessNoop
    | UnsuccessUndo
    | BarePrecommit  // without a name: the program indexes past its tokens if it takes this branch
    | BareCommit     // without an operation or an argument: likewise
    | NoCommand      // fewer than two tokens: likewise, in any branch
    | Unrecognised

  datatype PeerMsg = Ready | CommitSuccess | CommitUnsuccess

  /** "WRITE" selects writeOperation, anything else replaceOperation. */
  function OpOf(operation: string, argument: string): Op {
    if operation == "WRITE" then Write(argument) else Replace(argument)
  }

  /** The operation the master itself performs for a two-token command line. */
  function MasterOp(command: string): Op
    requires |Tokens(command, ' ')| == 2
  {
    OpOf(Tokens(command, ' ')[0], Tokens(command, ' ')[1])
  }

  function Packet(text: string, info: string): (p: string)
    ensures |p| >= 2
  {
    var full := "5.0" + " " + text + " " + info + "\n";
    assert |full| >= 6;
    SocketMessage("5.0", text, info)
  }

  /** The peer overwrites the last byte received, and a carriage return before it, with NUL. */
  function PeerLine(packet: string): string
    requires |packet| >= 2
  {
    if packet[|packet| - 2] == '\r' then packet[..|packet| - 2] else packet[..|packet| - 1]
  }

  /** A line end of either kind is taken off, and nothing else. */
  lemma PeerLineStrips(line: string)
    requires line != "" && line[|line| - 1] != '\r'
    ensures PeerLine(line + "\n") == line && PeerLine(line + "\r\n") == line
  {
    assert (line + "\r\n")[..|line|] == line && (line + "\n")[..|line|] == line;
  }

  /** The branches of the peer's receive loop, by token. */
  function PeerDecode(packet: string): MasterMsg
    requires |packet| >= 2
  {
    Recognise(Tokens(PeerLine(packet), ' '))
  }

  function Recognise(tokens: seq<string>): MasterMsg {
    if |tokens| < 2 then NoCommand
    else if tokens[1] == "PRECOMMIT" then if |tokens| >= 3 then Precommit(tokens[2]) else BarePrecommit
    else if tokens[1] == "ABORT" then Abort
    else if tokens[1] == "COMMIT" then if |tokens| >= 4 then Commit(OpOf(tokens[2], tokens[3])) else BareCommit
    else if tokens[1] == "SUCCESS_NOOP" then SuccessNoop
    else if tokens[1] == "UNSUCCESS_UNDO" then UnsuccessUndo
    else Unrecognised
  }

  function ReplyText(m: PeerMsg): string {
    match m
    case Ready => "READY"
    case CommitSuccess => "COMMIT_SUCCESS"
    case CommitUnsuccess => "COMMIT_UNSUCCESS"
  }

  function PeerReply(m: PeerMsg, info: string): (packet: string)
    ensures |packet| >= 2
  {
    Packet(ReplyText(m), info)
  }

  /** The master only overwrites the last byte. */
  function MasterDecode(packet: string): Option<PeerMsg>
    requires |packet| >= 1
  {
    var tokens := Tokens(packet[..|packet| - 1], ' ');
    if |tokens| < 2 then None
    else if tokens[1] == "READY" then Some(Ready)
    else if tokens[1] == "COMMIT_SUCCESS" then Some(CommitSuccess)
    else if tokens[1] == "COMMIT_UNSUCCESS" then Some(CommitUnsuccess)
    else None
  }

  lemma HeaderTokens(text: string, info: string)
    requires text != "" && ' ' !in text
    ensures Tokens("5.0" + " " + text + " " + info, ' ') == ["5.0", text] + Tokens(info, ' ')
  {
    TokensSplit("5.0" + " " + text, ' ', info);
    TokensSplit("5.0", ' ', text);
    TokensOfWord("5.0", ' ');
    TokensOfWord(text, ' ');
    assert Tokens("5.0" + " " + text, ' ') == ["5.0", text];
  }

  /** How many characters of the additional information survive the 255-byte buffer and the stripping. */
  function Room(text: string): int {
    253 - (|text| + 5)
  }

  /** What gets through of it. */
  function Through(text: string, info: string): (kept: string)
    requires Room(text) >= 0
    ensures kept <= info
  {
    if |info| <= Room(text) then info else info[..Room(text)]
  }

  /** The peer's tokens, for additional information of any length. */
  lemma WireTokens(text: string, info: string)
    requires text != "" && ' ' !in text && '\r' !in text && '\r' !in info && Room(text) >= 0
    ensures Tokens(PeerLine(Packet(text, info)), ' ') == ["5.0", text] + Tokens(Through(text, info), ' ')
  {
    hide Tokens;
    var head := "5.0" + " " + text + " ";
    assert |head| == |text| + 5;
    HeaderTokens(text, Through(text, info));
    StrippedPacket(head, info);
    assert Packet(text, info) == Snprintf(255, head + info + "\n");
  }

  lemma StrippedPacket(head: string, info: string)
    requires 0 < |head| <= 253 && '\r' !in head && '\r' !in info
    ensures |Snprintf(255, head + info + "\n")| >= 2
    ensures PeerLine(Snprintf(255, head + info + "\n"))
            == head + if |info| <= 253 - |head| then info else info[..253 - |head|]
  {
    var payload := head + info;
    var packet := Snprintf(255, payload + "\n");
    if |payload| <= 253 {
      assert packet == payload + "\n";
      assert packet[|packet| - 2] == payload[|payload| - 1];
      assert packet[..|packet| - 1] == payload;
    } else {
      assert packet == payload[..254];
      assert packet[252] == payload[252];
      assert packet[..253] == payload[..253] == head + info[..253 - |head|];
    }
  }

  /**
   * The peer sees the same tokens the master sent exactly when whatever does not fit is blank.
   * (`info` is part of a line that was read up to a line terminator, so it has no carriage return.)
   */
  lemma WireExact(text: string, info: string)
    requires text != "" && ' ' !in text && '\r' !in text && '\r' !in info && Room(text) >= 0
    ensures Tokens(PeerLine(Packet(text, info)), ' ') == ["5.0", text] + Tokens(info, ' ')
            <==> forall i :: Room(text) <= i < |info| ==> info[i] == ' '
  {
    hide Tokens, Packet, PeerLine;
    WireTokens(text, info);
    CutTokens(info, Room(text));
    SameBehind(["5.0", text], Tokens(Through(text, info), ' '), Tokens(info, ' '));
  }

  lemma CutTokens(info: string, room: nat)
    ensures Tokens(if |info| <= room then info else info[..room], ' ') == Tokens(info, ' ')
            <==> forall i :: room <= i < |info| ==> info[i] == ' '
  {
    hide Tokens;
    if |info| > room {
      var p, q := info[..room], info[room..];
      assert info == p + q;
      TokensOfPrefix(p, q, ' ');
      assert forall i :: room <= i < |info| ==> info[i] == q[i - room];
      assert forall j :: 0 <= j < |q| ==> q[j] == info[j + room];
    }
  }

  const COMMAND_ROOM := 242
  const USER_ROOM := 239

  /** Everything that does not fit the peers' buffer is blank. */
  predicate CommandFits(command: string) {
    forall i :: COMMAND_ROOM <= i < |command| ==> command[i] == ' '
  }

  /** Where the argument of a command begins. */
  function ArgumentStart(command: string): (n: nat)
    ensures n <= |command|
  {
    SecondToken(command, ' ')
  }

  /** The argument as far as it reaches the peers. */
  function ArgumentThrough(command: string): string
    requires |Tokens(command, ' ')| == 2 && ArgumentStart(command) < COMMAND_ROOM
  {
    var argument := Tokens(command, ' ')[1];
    argument[..Least(|argument|, COMMAND_ROOM - ArgumentStart(command))]
  }

  /**
   * What the peers decode of a command of any length: the operation with what has come through of its argument, or,
   * when the argument begins too late, a COMMIT with too few tokens.
   */
  lemma CommandOnTheWire(command: string)
    requires |Tokens(command, ' ')| == 2 && '\r' !in command
    ensures PeerDecode(Packet("COMMIT", command))
            == if ArgumentStart(command) < COMMAND_ROOM
               then Commit(OpOf(Tokens(command, ' ')[0], ArgumentThrough(command))) else BareCommit
  {
    hide Tokens, Recognise, Packet, PeerLine, SecondToken;
    WireTokens("COMMIT", command);
    if |command| <= COMMAND_ROOM {
      var a, w, e := TwoTokens(command, ' ');
      assert Tokens(command, ' ')[1] == ArgumentThrough(command);
    } else {
      TokensOfFirst(command, ' ', COMMAND_ROOM);
    }
    RecogniseCommit(Tokens(Through("COMMIT", command), ' '));
  }

  /** The peers decode the operation the master itself performs exactly when the command fits. */
  lemma CommitOnTheWire(command: string)
    requires |Tokens(command, ' ')| == 2 && '\r' !in command
    ensures PeerDecode(Packet("COMMIT", command)) == Commit(MasterOp(command)) <==> CommandFits(command)
  {
    hide Tokens, Recognise, Packet, PeerLine;
    WireTokens("COMMIT", command);
    CutTokens(command, COMMAND_ROOM);
    var kept := Through("COMMIT", command);
    var few, all := Tokens(kept, ' '), Tokens(command, ' ');
    assert kept + command[|kept|..] == command;
    TokensOfCut(kept, command[|kept|..], ' ');
    RecogniseCommit(few);
    if |few| == 2 && OpOf(few[0], few[1]) == MasterOp(command) {
      assert few == [few[0], few[1]] && all == [all[0], all[1]];
    }
  }

  lemma RecogniseCommit(ts: seq<string>)
    requires |ts| <= 2
    ensures Recognise(["5.0", "COMMIT"] + ts) == if |ts| == 2 then Commit(OpOf(ts[0], ts[1])) else BareCommit
  {
    assert |"COMMIT"| == 6 && |"PRECOMMIT"| == 9 && |"ABORT"| == 5 && |"SUCCESS_NOOP"| == 12
        && |"UNSUCCESS_UNDO"| == 14;
  }

  /** The user name arrives, cut to 239 characters. */
  lemma PrecommitOnTheWire(user: string)
    requires user != "" && ' ' !in user && '\r' !in user
    ensures PeerDecode(Packet("PRECOMMIT", user)) == Precommit(if |user| <= USER_ROOM then user else user[..USER_ROOM])
  {
    hide Tokens, Packet, PeerLine;
    WireTokens("PRECOMMIT", user);
    TokensOfWord(Through("PRECOMMIT", user), ' ');
  }

  /** The verdict messages carry no information and always arrive as themselves. */
  lemma VerdictsOnTheWire()
    ensures PeerDecode(Packet("ABORT", "")) == Abort
    ensures PeerDecode(Packet("SUCCESS_NOOP", "")) == SuccessNoop
    ensures PeerDecode(Packet("UNSUCCESS_UNDO", "")) == UnsuccessUndo
  {
    hide Tokens, Recognise, Packet, PeerLine;
    BareTokens("ABORT");
    BareTokens("SUCCESS_NOOP");
    BareTokens("UNSUCCESS_UNDO");
    RecogniseVerdicts();
  }

  lemma RecogniseVerdicts()
    ensures Recognise(["5.0", "ABORT"]) == Abort
    ensures Recognise(["5.0", "SUCCESS_NOOP"]) == SuccessNoop
    ensures Recognise(["5.0", "UNSUCCESS_UNDO"]) == UnsuccessUndo
  {
    assert |"ABORT"| == 5 && |"COMMIT"| == 6 && |"PRECOMMIT"| == 9 && |"SUCCESS_NOOP"| == 12
        && |"UNSUCCESS_UNDO"| == 14;
  }

  lemma BareTokens(text: string)
    requires text != "" && ' ' !in text && '\r' !in text && Room(text) >= 0
    ensures Tokens(PeerLine(Packet(text, "")), ' ') == ["5.0", text]
  {
    WireExact(text, "");
  }

  /** Whatever the peer appends, truncated or not, the master recognises the kind of reply. */
  lemma RepliesOnTheWire(m: PeerMsg, info: string)
    ensures MasterDecode(PeerReply(m, info)) == Some(m)
  {
    hide Tokens;
    var text := ReplyText(m);
    var head := "5.0" + " " + text + " ";
    var packet := PeerReply(m, info);
    assert packet[..|head|] == head;
    var line := packet[..|packet| - 1];
    assert line == head + line[|head|..];
    assert line == "5.0" + " " + text + " " + line[|head|..];
    HeaderTokens(text, line[|head|..]);
  }
}
