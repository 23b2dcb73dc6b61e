/**
 The bulletin board of one node as a value: the bytes of its file and its message counter, with what
 file-operations.cpp does to them. FileOperations holds the methods that are proved to compute these functions.
 */
module Boards {
  import opened Text
  import opened Utilities
  import opened LineReader
  import opened PosixFile
  import opened Wire

  datatype Board = Board(bytes: string, messageNumber: int)

  /** What the undo closure built by an operation remembers. */
  datatype Undo = NoUndo | Truncate(size: nat) | Rewrite(number: nat, user: string, message: string)

  const READLINE_LIMIT := 255

  /** A stored line, "number/user/message" and a newline. */
  function StoredLine(number: int, user: string, message: string): string {
    FormatInt(number) + "/" + user + "/" + message + "\n"
  }

  /** readline on the file: the text of the next line and the bytes after it. */
  function NextLine(stream: string): (r: Option<(string, string)>)
    ensures r.None? <==> stream == ""
    ensures r.Some? ==> |r.value.1| < |stream|
  {
    match ReadLine(READLINE_LIMIT, Input('\0', stream, []))
    case NoData(_) => None
    case Line(text, left) => Some((text, left.stream))
  }

  datatype Found = Found(offset: nat, text: string)

  /** Scan for line `k`: the sum of (length + 1) over the lines before it, and its text. */
  function LineAt(stream: string, k: nat): Option<Found>
    decreases |stream|
  {
    match NextLine(stream)
    case None => None
    case Some((text, rest)) =>
      if k == 0 then Some(Found(0, text))
      else
        match LineAt(rest, k - 1)
        case None => None
        case Some(f) => Some(Found(|text| + 1 + f.offset, f.text))
  }

  function LineCount(stream: string): nat
    decreases |stream|
  {
    match NextLine(stream)
    case None => 0
    case Some((_, rest)) => 1 + LineCount(rest)
  }

  function Splice(bytes: string, offset: nat, length: nat, line: string): (r: string)
    requires offset + length <= |bytes|
    ensures |r| == |bytes| - length + |line|
  {
    bytes[..offset] + line + bytes[offset + length..]
  }

  /** Line `k` is found and ends, newline included, inside the file. */
  predicate Locatable(bytes: string, k: nat) {
    LineAt(bytes, k).Some? && LineAt(bytes, k).value.offset + |LineAt(bytes, k).value.text| + 1 <= |bytes|
  }

  lemma StoredLineNotEmpty(number: int, user: string, message: string)
    ensures StoredLine(number, user, message) != ""
  {
  }

  /** The text of a line is never longer than the file, and an empty file has no line. */
  lemma {:induction false} TextWithin(bytes: string, k: nat)
    requires LineAt(bytes, k).Some?
    ensures |LineAt(bytes, k).value.text| <= |bytes| && bytes != ""
    decreases |bytes|
  {
    if k > 0 {
      TextWithin(NextLine(bytes).value.1, k - 1);
    }
  }

  /**
   The range of a line is replaced. When the range, which counts a newline, reaches past the end of the file because
   the file ends without one, the new line is written over the end, and a shorter one is cut as if a newline had gone.
   */
  function ReplaceRange(bytes: string, offset: nat, length: nat, line: string): string
    requires length <= |bytes| + 1 && line != ""
  {
    if offset + length <= |bytes| then Splice(bytes, offset, length, line)
    else
      var written := Overwrite(bytes, offset, line);
      if |line| >= length then written else written[..|written| - (length - |line|)]
  }

  lemma RangeWithin(bytes: string, offset: nat, length: nat, line: string)
    requires offset + length <= |bytes| && line != ""
    ensures ReplaceRange(bytes, offset, length, line) == Splice(bytes, offset, length, line)
    ensures |ReplaceRange(bytes, offset, length, line)| == |bytes| + |line| - length
  {
  }

  lemma RangePastEnd(bytes: string, offset: nat, length: nat, line: string)
    requires offset + length > |bytes| && line != "" && length <= |bytes| + 1
    ensures var written := Overwrite(bytes, offset, line);
            && 0 <= |written| - length + |line|
            && (|line| < length ==> |written| - length + |line| < offset + |line|)
            && ReplaceRange(bytes, offset, length, line)
               == if |line| >= length then written else written[..|written| - (length - |line|)]
  {
  }

  /** optimalReplaceAlgorithm: line `k` is replaced by the newly formatted line. */
  function ReplaceLine(bytes: string, k: nat, user: string, message: string): string
    requires LineAt(bytes, k).Some?
  {
    var f := LineAt(bytes, k).value;
    TextWithin(bytes, k);
    StoredLineNotEmpty(k, user, message);
    ReplaceRange(bytes, f.offset, |f.text| + 1, Snprintf(4096, StoredLine(k, user, message)))
  }

  /** The number and text in a REPLACE argument, or the stop of the program that takes it apart. */
  function ReplaceArguments(argument: string): Option<(int, string)> {
    var tokens := Tokens(argument, '/');
    if |tokens| < 2 then None
    else
      match Stoi(tokens[0])
      case None => None
      case Some(k) => Some((k, tokens[1]))
  }

  /** The second and third '/'-token of a stored line: what getMessageNumberInfo keeps of it. */
  function UserAndMessage(text: string): Option<(string, string)> {
    var tokens := Tokens(text, '/');
    if |tokens| < 3 then None else Some((tokens[1], tokens[2]))
  }

  /** User and message of line `k`, if there is such a line and it has both. */
  function InfoAt(stream: string, k: int): Option<(string, string)> {
    if k >= 0 && LineAt(stream, k).Some? then UserAndMessage(LineAt(stream, k).value.text) else None
  }

  lemma InfoGoesOn(stream: string, k: int)
    requires stream != ""
    ensures var (text, rest) := NextLine(stream).value;
            InfoAt(stream, k) == if k == 0 then UserAndMessage(text) else InfoAt(rest, k - 1)
  {
    hide UserAndMessage;
  }

  lemma NoInfoAtEnd(stream: string, k: int)
    requires NextLine(stream).None?
    ensures InfoAt(stream, k) == None
  {
    hide UserAndMessage;
  }

  /** What a REPLACE relies on: its argument parses, and its line is there with a user and a message. */
  predicate Runnable(b: Board, op: Op) {
    match op
    case Write(_) => true
    case Replace(argument) =>
      match ReplaceArguments(argument)
      case None => false
      case Some((k, _)) => 0 <= k && LineAt(b.bytes, k).Some? && UserAndMessage(LineAt(b.bytes, k).value.text).Some?
  }

  /** The board after a successful operation. Outside `Runnable` the program stops; the board is left alone here. */
  function Perform(b: Board, user: string, op: Op): Board {
    if !Runnable(b, op) then b
    else
      match op
      case Write(message) =>
        Board(b.bytes + Snprintf(255, StoredLine(b.messageNumber, user, message)), b.messageNumber + 1)
      case Replace(argument) =>
        var (k, message) := ReplaceArguments(argument).value;
        b.(bytes := ReplaceLine(b.bytes, k, user, message))
  }

  /** Where it stops, nothing has been written. */
  lemma NotRunnableLeavesBoard(b: Board, user: string, op: Op)
    ensures !Runnable(b, op) ==> Perform(b, user, op) == b
  {
    hide Runnable;
  }

  /** The undo record an operation on `b` leaves behind. */
  function UndoOf(b: Board, op: Op): Undo {
    if !Runnable(b, op) then NoUndo
    else
      match op
      case Write(_) => Truncate(|b.bytes|)
      case Replace(argument) =>
        var k := ReplaceArguments(argument).value.0;
        var (user, message) := UserAndMessage(LineAt(b.bytes, k).value.text).value;
        Rewrite(k, user, message)
  }

  /** Running an undo record. */
  function Revert(b: Board, u: Undo): Board {
    match u
    case NoUndo => b
    case Truncate(size) => if size <= |b.bytes| then Board(b.bytes[..size], b.messageNumber - 1) else b
    case Rewrite(k, user, message) =>
      if LineAt(b.bytes, k).Some? then b.(bytes := ReplaceLine(b.bytes, k, user, message)) else b
  }

  /** The number the reply reports. */
  function ReportedNumber(b: Board, op: Op): int {
    match op
    case Write(_) => b.messageNumber
    case Replace(argument) => if ReplaceArguments(argument).Some? then ReplaceArguments(argument).value.0 else 0
  }

  /** The reply of writeOperation and replaceOperation. */
  function Reply(b: Board, op: Op, accessible: bool, newline: bool): string {
    if accessible then CreateMessage("3.0", "WROTE", FormatInt(ReportedNumber(b, op)), newline)
    else CreateMessage("3.2", "ERROR WRITE", UnavailableText(op), newline)
  }

  /** Whoever receives the reply looks for "ERROR" in it; it is there exactly when the file was not accessible. */
  lemma ReplyTellsSuccess(b: Board, op: Op, accessible: bool, newline: bool)
    ensures Contains(Reply(b, op, accessible, newline), "ERROR") <==> !accessible
    ensures Reply(b, op, accessible, newline) != ""
  {
    if accessible {
      WroteIsNoError(ReportedNumber(b, op), newline);
    } else {
      FailureIsError(UnavailableText(op), newline);
    }
  }

  function LineEnd(newline: bool): string {
    if newline then "\n" else ""
  }

  lemma MessageText(code: string, text: string, info: string, newline: bool)
    requires |code| + |text| + |info| + 3 <= 254
    ensures CreateMessage(code, text, info, newline) == code + " " + text + " " + info + LineEnd(newline)
  {
  }

  /** The text of a success: the number of the message written, and a line end exactly when one is asked for. */
  lemma SuccessText(b: Board, op: Op, newline: bool)
    requires op.Write? ==> 0 <= b.messageNumber <= INT_MAX
    requires op.Replace? ==> ReplaceArguments(op.argument).Some? && ReplaceArguments(op.argument).value.0 >= 0
    ensures var k := if op.Write? then b.messageNumber else ReplaceArguments(op.argument).value.0;
            0 <= k <= INT_MAX && Reply(b, op, true, newline) == "3.0 WROTE " + FormatInt(k) + LineEnd(newline)
  {
    hide FormatInt, Tokens, CreateMessage;
    var k := ReportedNumber(b, op);
    NumberLength(k);
    MessageText("3.0", "WROTE", FormatInt(k), newline);
    assert "3.0" + " " + "WROTE" + " " == "3.0 WROTE ";
  }

  /** Why an operation on a file that is not accessible is refused. */
  function UnavailableText(op: Op): string {
    if op.Write? then "bbfile currently unavailable" else "bbfile is currently unavailable"
  }

  /** The text of the answer then. */
  lemma FailureText(b: Board, op: Op, newline: bool)
    ensures Reply(b, op, false, newline) == "3.2 ERROR WRITE " + UnavailableText(op) + LineEnd(newline)
    ensures UnavailableText(op)
            == if op.Write? then "bbfile currently unavailable" else "bbfile is currently unavailable"
  {
    hide CreateMessage;
    MessageText("3.2", "ERROR WRITE", UnavailableText(op), newline);
    assert "3.2" + " " + "ERROR WRITE" + " " == "3.2 ERROR WRITE ";
  }

  /** The number a client finds in an answer: its third token. */
  function PrintedNumber(answer: string): Option<int> {
    var tokens := Tokens(answer, ' ');
    if |tokens| < 3 then None else Stoi(tokens[2])
  }

  lemma NumberFound(k: nat, newline: bool)
    requires k <= INT_MAX
    ensures PrintedNumber("3.0 WROTE " + FormatInt(k) + LineEnd(newline)) == Some(k)
  {
    hide Tokens, FormatInt, Stoi;
    var word := FormatInt(k) + LineEnd(newline);
    assert "3.0 WROTE " + FormatInt(k) + LineEnd(newline) == "3.0 WROTE" + " " + word;
    assert "3.0 WROTE" == "3.0" + " " + "WROTE";
    TokensSplit("3.0 WROTE", ' ', word);
    TokensSplit("3.0", ' ', "WROTE");
    TokensOfWord("3.0", ' ');
    TokensOfWord("WROTE", ' ');
    TokensOfWord(word, ' ');
    StoiOfPrinted(k, LineEnd(newline));
  }

  // ----- Reading and the validity of REPLACE -----

  /** A well-formed REPLACE argument: digits, the only slash, and some text. */
  predicate WellFormedArgument(argument: string) {
    var i := Stretch(argument, '/');
    0 < i < |argument| - 1 && AllDigits(argument[..i]) && '/' !in argument[i + 1..]
  }

  function ArgumentNumber(argument: string): nat
    requires WellFormedArgument(argument)
  {
    Value(argument[..Stretch(argument, '/')])
  }

  /** What the client of a refused REPLACE is told: there is no such message, or that is not how to ask. */
  function Refusal(argument: string): string {
    if WellFormedArgument(argument) then "3.1 UNKNOWN " + FormatInt(ArgumentNumber(argument)) + "\n"
    else "3.2 ERROR WRITE " + "Incorrect format. Argument must be of the form msgNum/message." + "\n"
  }

  lemma RefusalAsMessage(argument: string)
    requires WellFormedArgument(argument) ==> ArgumentNumber(argument) <= INT_MAX
    ensures WellFormedArgument(argument) ==>
              Refusal(argument) == CreateMessage("3.1", "UNKNOWN", FormatInt(ArgumentNumber(argument)), true)
    ensures !WellFormedArgument(argument) ==>
              Refusal(argument)
              == CreateMessage("3.2", "ERROR WRITE", "Incorrect format. Argument must be of the form msgNum/message.",
                  true)
  {
    hide CreateMessage, WellFormedArgument, ArgumentNumber, FormatInt;
    if WellFormedArgument(argument) {
      NumberLength(ArgumentNumber(argument));
      MessageText("3.1", "UNKNOWN", FormatInt(ArgumentNumber(argument)), true);
      assert "3.1" + " " + "UNKNOWN" + " " == "3.1 UNKNOWN ";
    } else {
      MessageText("3.2", "ERROR WRITE", "Incorrect format. Argument must be of the form msgNum/message.", true);
      assert "3.2" + " " + "ERROR WRITE" + " " == "3.2 ERROR WRITE ";
    }
  }

  /** A refusal is never taken for a success. */
  lemma RefusalIsNoSuccess(argument: string, k: int)
    ensures Refusal(argument) != "3.0 WROTE " + FormatInt(k) + "\n"
  {
    hide WellFormedArgument, ArgumentNumber, FormatInt;
    var r, t := Refusal(argument), "3.0 WROTE " + FormatInt(k) + "\n";
    assert t[2] == '0';
    assert r[2] == if WellFormedArgument(argument) then '1' else '2';
  }

  /** Tokenizing a well-formed argument yields its two parts. */
  lemma TokensOfArgument(argument: string)
    requires WellFormedArgument(argument)
    ensures var i := Stretch(argument, '/'); Tokens(argument, '/') == [argument[..i], argument[i + 1..]]
  {
    var i := Stretch(argument, '/');
    assert argument == argument[..i] + ['/'] + argument[i + 1..];
    TokensSplit(argument[..i], '/', argument[i + 1..]);
    TokensOfWord(argument[..i], '/');
    TokensOfWord(argument[i + 1..], '/');
  }

  /** The number a reply prints, typed back in front of a slash and a text, names the same line. */
  lemma PrintedNumberNamesLine(k: nat, message: string)
    requires message != "" && '/' !in message
    ensures var argument := FormatInt(k) + "/" + message;
            && WellFormedArgument(argument) && ArgumentNumber(argument) == k
            && ReplaceArguments(argument) == if k <= INT_MAX then Some((k, message)) else None
  {
    hide Tokens;
    var digits := FormatInt(k);
    var argument := digits + "/" + message;
    StretchIs(argument, '/', |digits|);
    assert argument[..|digits|] == digits && argument[|digits| + 1..] == message;
    ValueOfDecimal(k);
    TokensOfArgument(argument);
    StoiOfDigits(digits);
  }

  /** Leading zeros do not matter. */
  lemma LeadingZerosNameSameLine(zeros: string, k: nat, message: string)
    requires message != "" && '/' !in message && forall i :: 0 <= i < |zeros| ==> zeros[i] == '0'
    ensures var argument := zeros + FormatInt(k) + "/" + message;
            && WellFormedArgument(argument) && ArgumentNumber(argument) == k
            && ReplaceArguments(argument) == if k <= INT_MAX then Some((k, message)) else None
  {
    hide Tokens;
    var digits := zeros + FormatInt(k);
    var argument := digits + "/" + message;
    ValueOfDecimal(k);
    ValueOfZeros(zeros, FormatInt(k));
    StretchIs(argument, '/', |digits|);
    assert argument[..|digits|] == digits && argument[|digits| + 1..] == message;
    TokensOfArgument(argument);
    StoiOfDigits(digits);
  }

  /** Conversely, one slash and two tokens, the first of them digits, make a well-formed argument. */
  lemma ArgumentOfTokens(argument: string)
    requires Stretch(argument, '/') < |argument| && '/' !in argument[Stretch(argument, '/') + 1..]
    requires |Tokens(argument, '/')| == 2 && AllDigits(Tokens(argument, '/')[0])
    ensures WellFormedArgument(argument)
  {
    var i := Stretch(argument, '/');
    var a, c := argument[..i], argument[i + 1..];
    assert argument == a + ['/'] + c;
    TokensSplit(a, '/', c);
    if c != "" {
      TokensOfWord(c, '/');
    }
    if a != "" {
      TokensOfWord(a, '/');
    }
  }

  /** The stored text with its first slash blanked, as READ sends it. */
  function BlankFirstSlash(text: string): string {
    var i := Stretch(text, '/');
    if i < |text| then text[i := ' '] else text
  }

  /** The text of the last line, which a scan that finds nothing further leaves in its buffer. */
  function LastText(stream: string): string
    requires stream != ""
    decreases |stream|
  {
    var (text, rest) := NextLine(stream).value;
    if rest == "" then text else LastText(rest)
  }

  /** What the scan for line `k` leaves in the buffer: the line, or the last one of a file that is too short. */
  function ScannedText(stream: string, k: nat): string
    requires stream != ""
  {
    match LineAt(stream, k) case Some(f) => f.text case None => LastText(stream)
  }

  /** The scan goes on with the rest of the file, and stops at its end with the buffer as it is. */
  lemma ScanGoesOn(stream: string, k: nat)
    requires stream != "" && k > 0
    ensures var (text, rest) := NextLine(stream).value;
            ScannedText(stream, k) == if rest == "" then text else ScannedText(rest, k - 1)
  {
    var (text, rest) := NextLine(stream).value;
    if rest == "" {
      assert LineAt(rest, k - 1).None?;
    }
  }

  /** The answer to READ `k`, by the outcome of the check and of access() and by the file as it is scanned. */
  function ReadReply(bytes: string, k: int, isMessageNumberValid: bool, accessible: bool): string
    requires isMessageNumberValid && accessible ==> k >= 0 && bytes != ""
  {
    if !isMessageNumberValid then
      SocketMessage("2.1", "UNKNOWN", Snprintf(255, FormatInt(k) + " " + "The given message-number does not exist."))
    else if !accessible then SocketMessage("2.2", "ERROR READ", "bbfile currently unavailable")
    else SocketMessage("2.0", "MESSAGE", BlankFirstSlash(ScannedText(bytes, k)))
  }

  /** READ when the file is not accessible, whatever is in it. */
  lemma ReadRefusalText(bytes: string, k: int)
    ensures ReadReply(bytes, k, true, false) == "2.2 ERROR READ " + "bbfile currently unavailable" + "\n"
  {
    hide CreateMessage;
    MessageText("2.2", "ERROR READ", "bbfile currently unavailable", true);
    assert "2.2" + " " + "ERROR READ" + " " == "2.2 ERROR READ ";
  }

  /** READ of a number that failed the check, whether the file is accessible or not. */
  lemma ReadUnknownText(bytes: string, k: int, accessible: bool)
    requires INT_MIN <= k <= INT_MAX
    ensures ReadReply(bytes, k, false, accessible)
            == "2.1 UNKNOWN " + (FormatInt(k) + " " + "The given message-number does not exist.") + "\n"
  {
    hide FormatInt, CreateMessage;
    SignedNumberLength(k);
    var info := FormatInt(k) + " " + "The given message-number does not exist.";
    MessageText("2.1", "UNKNOWN", info, true);
    assert "2.1" + " " + "UNKNOWN" + " " == "2.1 UNKNOWN ";
  }

  lemma SignedNumberLength(k: int)
    requires INT_MIN <= k <= INT_MAX
    ensures |FormatInt(k)| <= 11
  {
    assert Power(10) == 10000000000;
    DecimalLength(if k < 0 then -k else k, 10);
  }

  /** Only the first slash of a stored text is blanked, and a text without one is sent as it is. */
  lemma BlankFirstSlashIs(front: string, behind: string)
    requires '/' !in front
    ensures BlankFirstSlash(front + "/" + behind) == front + " " + behind
    ensures BlankFirstSlash(front) == front
  {
    var text := front + "/" + behind;
    StretchIs(text, '/', |front|);
    StretchIs(front, '/', |front|);
    assert text[|front| := ' '] == front + " " + behind;
  }

  /** READ without anything in between: the number is checked against the counter of the same board. */
  function ReadNow(b: Board, k: int): string
    requires 0 <= k < b.messageNumber ==> b.bytes != ""
  {
    ReadReply(b.bytes, k, 0 <= k < b.messageNumber, true)
  }
}
