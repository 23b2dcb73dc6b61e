/**
 The byte file as a sequence of posts: line k is post k. Writing appends, replacing updates, reading looks up,
 and undoing restores the file byte for byte, each under the exact condition the buffers and the slash-separated
 format impose.
 */
module Posts {
  import opened Text
  import opened Utilities
  import opened Wire
  import opened LineReader
  import opened PosixFile
  import opened Boards
  import opened FileLines

  datatype Post = Post(user: string, message: string)

  function LineText(k: nat, p: Post): string {
    FormatInt(k) + "/" + p.user + "/" + p.message
  }

  /** What the server lets through: a non-empty name without slash and a non-empty text, each on one line. */
  predicate GoodPost(p: Post) {
    CleanText(p.user) && CleanText(p.message) && p.user != "" && '/' !in p.user && p.message != ""
  }

  function LinesOf(posts: seq<Post>): (lines: seq<string>)
    ensures |lines| == |posts| && forall i :: 0 <= i < |posts| ==> lines[i] == LineText(i, posts[i])
  {
    seq(|posts|, i requires 0 <= i < |posts| => LineText(i, posts[i]))
  }

  /** The abstraction relation: the bytes are the posts in order, the counter is their number, no line is too long. */
  predicate Holds(b: Board, posts: seq<Post>) {
    && b.bytes == FileOf(LinesOf(posts))
    && b.messageNumber == |posts|
    && forall i :: 0 <= i < |posts| ==> GoodPost(posts[i]) && |LineText(i, posts[i])| < READLINE_LIMIT
  }

  lemma LineTextClean(k: nat, p: Post)
    requires GoodPost(p)
    ensures CleanText(LineText(k, p))
  {
    var digits := FormatInt(k);
    assert CleanText(digits);
    assert CleanText(digits + "/");
    assert CleanText(digits + "/" + p.user);
    assert CleanText(digits + "/" + p.user + "/");
  }

  lemma LinesGood(b: Board, posts: seq<Post>)
    requires Holds(b, posts)
    ensures forall i :: 0 <= i < |posts| ==> GoodLine(LinesOf(posts)[i])
  {
    forall i | 0 <= i < |posts| ensures GoodLine(LinesOf(posts)[i]) {
      LineTextClean(i, posts[i]);
    }
  }

  lemma StoredLineIs(k: nat, p: Post)
    ensures StoredLine(k, p.user, p.message) == LineText(k, p) + "\n"
  {
  }

  /** Restarting the server on its own file recovers the counter. */
  lemma CounterRecovered(b: Board, posts: seq<Post>)
    requires Holds(b, posts)
    ensures LineCount(b.bytes) == b.messageNumber
  {
    LinesGood(b, posts);
    LinesCounted(LinesOf(posts));
  }

  /** The scan finds line k exactly where the text of post k is, and finds nothing past the last post. */
  lemma PostLocated(b: Board, posts: seq<Post>, k: nat)
    requires Holds(b, posts)
    ensures k < |posts| ==> Locatable(b.bytes, k)
    ensures k < |posts| ==> LineAt(b.bytes, k) == Some(Found(|FileOf(LinesOf(posts[..k]))|, LineText(k, posts[k])))
    ensures k >= |posts| ==> LineAt(b.bytes, k).None?
  {
    LinesGood(b, posts);
    if k < |posts| {
      LineLocated(LinesOf(posts), k);
      assert LinesOf(posts)[..k] == LinesOf(posts[..k]);
    } else {
      NoSuchLine(LinesOf(posts), k);
    }
  }

  // ----- Tokens of a stored line -----

  /** A stored line splits into its number, its user and the pieces of its message. */
  lemma TokensOfLine(k: nat, p: Post)
    requires GoodPost(p)
    ensures Tokens(LineText(k, p), '/') == [FormatInt(k), p.user] + Tokens(p.message, '/')
  {
    hide Tokens;
    var digits := FormatInt(k);
    TokensSplit(digits + "/" + p.user, '/', p.message);
    TokensSplit(digits, '/', p.user);
    TokensOfWord(digits, '/');
    TokensOfWord(p.user, '/');
    assert [digits] + [p.user] == [digits, p.user];
  }

  /** Stored lines parse back, as long as the message has no slash. */
  lemma StoredLineParses(k: nat, p: Post)
    requires GoodPost(p) && '/' !in p.message
    ensures UserAndMessage(LineText(k, p)) == Some((p.user, p.message))
    ensures Tokens(LineText(k, p), '/') == [FormatInt(k), p.user, p.message]
  {
    hide Tokens;
    TokensOfLine(k, p);
    TokensOfWord(p.message, '/');
  }

  lemma FirstTokenIs(message: string)
    requires message != "" && message[0] != '/'
    ensures Tokens(message, '/') != [] && Tokens(message, '/')[0] == message[..Stretch(message, '/')]
    ensures Stretch(message, '/') > 0
  {
  }

  // ----- The operations on posts -----

  /** READ k returns post k. */
  lemma ReadReturnsPost(b: Board, posts: seq<Post>, k: nat)
    requires Holds(b, posts) && k < |posts|
    ensures b.bytes != ""
    ensures ReadNow(b, k)
            == SocketMessage("2.0", "MESSAGE", FormatInt(k) + " " + posts[k].user + "/" + posts[k].message)
  {
    hide LineAt, SocketMessage, LineText, FileOf, FormatInt, Stretch;
    PostLocated(b, posts, k);
    BlankedLine(k, posts[k]);
  }

  lemma BlankedLine(k: nat, p: Post)
    ensures BlankFirstSlash(LineText(k, p)) == FormatInt(k) + " " + p.user + "/" + p.message
  {
    var text := LineText(k, p);
    var digits := FormatInt(k);
    StretchIs(text, '/', |digits|);
    assert text[|digits| := ' '] == digits + " " + p.user + "/" + p.message;
  }

  /** The reply carries the post to its end exactly when its line has at most 241 characters. */
  lemma ReadReplyComplete(info: string)
    ensures SocketMessage("2.0", "MESSAGE", info) == "2.0 MESSAGE " + info + "\n" <==> |info| <= 241
  {
    assert "2.0" + " " + "MESSAGE" + " " + info + "\n" == "2.0 MESSAGE " + info + "\n";
  }

  /** READ of a number without a post is answered as such. */
  lemma ReadElsewhereIsUnknown(b: Board, posts: seq<Post>, k: int)
    requires Holds(b, posts) && !(0 <= k < |posts|)
    ensures ReadNow(b, k)
            == SocketMessage("2.1", "UNKNOWN",
                Snprintf(255, FormatInt(k) + " " + "The given message-number does not exist."))
  {
  }

  /**
   * READ of the number of a post that an undo takes back while the reader waits for the lock: the check has let the
   * number through, and the answer is the last post there is.
   */
  lemma StaleReadAnswersLastPost(b: Board, posts: seq<Post>, p: Post)
    requires Holds(b, posts) && posts != []
    ensures var k, last := |posts|, |posts| - 1;
            && 0 <= k < Perform(b, p.user, Write(p.message)).messageNumber
            && b == Revert(Perform(b, p.user, Write(p.message)), UndoOf(b, Write(p.message)))
            && b.bytes != ""
            && ReadReply(b.bytes, k, true, true)
               == SocketMessage("2.0", "MESSAGE", FormatInt(last) + " " + posts[last].user + "/" + posts[last].message)
  {
    hide LineAt, SocketMessage, LineText, FileOf, FormatInt, Stretch, BlankFirstSlash, LastText;
    var last := |posts| - 1;
    UndoOfWriteRestores(b, p.user, p.message);
    PostLocated(b, posts, |posts|);
    PostLocated(b, posts, last);
    LinesGood(b, posts);
    LastLineIs(LinesOf(posts));
    BlankedLine(last, posts[last]);
  }

  lemma {:induction false} LastLineIs(lines: seq<string>)
    requires lines != [] && forall i :: 0 <= i < |lines| ==> GoodLine(lines[i])
    ensures FileOf(lines) != "" && LastText(FileOf(lines)) == lines[|lines| - 1]
  {
    NextLineIs(lines[0], FileOf(lines[1..]));
    if |lines| > 1 {
      LastLineIs(lines[1..]);
    }
  }

  lemma FileOfSnoc(posts: seq<Post>, p: Post)
    ensures FileOf(LinesOf(posts + [p])) == FileOf(LinesOf(posts)) + (LineText(|posts|, p) + "\n")
  {
    hide FileOf, LineText;
    assert LinesOf(posts + [p]) == LinesOf(posts) + [LineText(|posts|, p)];
    FileOfAppend(LinesOf(posts), [LineText(|posts|, p)]);
    FileOfSingle(LineText(|posts|, p));
  }

  lemma FileOfSingle(line: string)
    ensures FileOf([line]) == line + "\n"
  {
    assert FileOf([]) == "";
    assert line + "\n" + "" == line + "\n";
  }

  /** WRITE appends the post, exactly when its line with the newline fits the 255-byte buffer. */
  lemma WriteAppends(b: Board, posts: seq<Post>, p: Post)
    requires Holds(b, posts) && GoodPost(p)
    ensures Holds(Perform(b, p.user, Write(p.message)), posts + [p])
            <==> |StoredLine(|posts|, p.user, p.message)| <= 254
  {
    hide FileOf, LineAt, FormatInt;
    var line := StoredLine(|posts|, p.user, p.message);
    var b' := Perform(b, p.user, Write(p.message));
    var posts' := posts + [p];
    StoredLineIs(|posts|, p);
    FileOfSnoc(posts, p);
    assert b'.bytes == b.bytes + Snprintf(255, line);
    if |line| <= 254 {
      forall i | 0 <= i < |posts'| ensures GoodPost(posts'[i]) && |LineText(i, posts'[i])| < READLINE_LIMIT {
        assert i < |posts| ==> posts'[i] == posts[i];
      }
    } else {
      assert |b'.bytes| < |FileOf(LinesOf(posts'))|;
    }
  }

  /** Some character of the message is not a slash. */
  predicate HasText(message: string) {
    exists i :: 0 <= i < |message| && message[i] != '/'
  }

  lemma NoTokensOfSlashes(message: string)
    ensures Tokens(message, '/') != [] <==> HasText(message)
  {
    assert "" + message == message;
    TokensOfPrefix("", message, '/');
  }

  /** An accepted REPLACE stops the program exactly when the message it overwrites is made of slashes only. */
  lemma RunnableOnPosts(b: Board, posts: seq<Post>, k: nat, argument: string, message: string)
    requires Holds(b, posts) && k < |posts| && ReplaceArguments(argument) == Some((k, message))
    ensures Runnable(b, Replace(argument)) <==> HasText(posts[k].message)
  {
    hide LineAt, Tokens, LineText, FileOf;
    PostLocated(b, posts, k);
    TokensOfLine(k, posts[k]);
    NoTokensOfSlashes(posts[k].message);
  }

  /** The file after an accepted REPLACE that does not stop the program. */
  lemma BytesAfterReplace(b: Board, posts: seq<Post>, k: nat, p: Post, argument: string)
    requires Holds(b, posts) && k < |posts| && HasText(posts[k].message)
    requires ReplaceArguments(argument) == Some((k, p.message))
    ensures var line := Snprintf(4096, LineText(k, p) + "\n");
            Perform(b, p.user, Replace(argument))
            == b.(bytes := FileOf(LinesOf(posts)[..k]) + (line + FileOf(LinesOf(posts)[k + 1..])))
  {
    hide FileOf, LineAt, FormatInt, ReplaceArguments, UserAndMessage, HasText;
    RunnableOnPosts(b, posts, k, argument, p.message);
    LinesGood(b, posts);
    StoredLineIs(k, p);
    ReplaceLineIs(LinesOf(posts), k, Snprintf(4096, LineText(k, p) + "\n"));
  }

  /** REPLACE updates one post, exactly when the old message has some text and the new line fits the line reader. */
  lemma ReplaceUpdates(b: Board, posts: seq<Post>, k: nat, p: Post, argument: string)
    requires Holds(b, posts) && GoodPost(p) && k < |posts|
    requires ReplaceArguments(argument) == Some((k, p.message))
    ensures Runnable(b, Replace(argument)) && Holds(Perform(b, p.user, Replace(argument)), posts[k := p])
            <==> HasText(posts[k].message) && |LineText(k, p)| < READLINE_LIMIT
  {
    hide FileOf, LineAt, FormatInt, ReplaceArguments, UserAndMessage, Perform, Runnable, HasText;
    RunnableOnPosts(b, posts, k, argument, p.message);
    if HasText(posts[k].message) {
      BytesAfterReplace(b, posts, k, p, argument);
      UpdatedLines(LinesOf(posts), k, LineText(k, p));
      assert LinesOf(posts[k := p]) == LinesOf(posts)[k := LineText(k, p)];
      assert posts[k := p][k] == p;
    }
  }

  /** READ answers with this post under its number. */
  predicate ReadsAs(b: Board, k: int, p: Post) {
    && 0 <= k < b.messageNumber && b.bytes != ""
    && ReadNow(b, k) == SocketMessage("2.0", "MESSAGE", FormatInt(k) + " " + p.user + "/" + p.message)
  }

  /**
   * The number in the answer to a WRITE is the one under which READ then answers with the new post, even when the
   * buffer has cut its line off: the answer to READ does not reach that far.
   */
  lemma ReportedWriteReads(b: Board, posts: seq<Post>, p: Post, newline: bool)
    requires Holds(b, posts) && GoodPost(p) && |posts| <= INT_MAX
    ensures var number := PrintedNumber(Reply(b, Write(p.message), true, newline));
            number.Some? && ReadsAs(Perform(b, p.user, Write(p.message)), number.value, p)
  {
    hide LineAt, SocketMessage, LineText, FileOf, FormatInt, Stretch, BlankFirstSlash, Reply, PrintedNumber;
    SuccessText(b, Write(p.message), newline);
    NumberFound(|posts|, newline);
    if |StoredLine(|posts|, p.user, p.message)| <= 254 {
      WriteAppends(b, posts, p);
      ReadReturnsPost(Perform(b, p.user, Write(p.message)), posts + [p], |posts|);
    } else {
      CutLineReads(b, posts, p);
    }
  }

  lemma CutLineReads(b: Board, posts: seq<Post>, p: Post)
    requires Holds(b, posts) && GoodPost(p) && |posts| <= INT_MAX && |StoredLine(|posts|, p.user, p.message)| > 254
    ensures var after := Perform(b, p.user, Write(p.message));
            && after.bytes != "" && after.messageNumber == |posts| + 1
            && ReadNow(after, |posts|)
               == SocketMessage("2.0", "MESSAGE", FormatInt(|posts|) + " " + p.user + "/" + p.message)
  {
    hide LineAt, SocketMessage, LineText, FileOf, FormatInt, Stretch, BlankFirstSlash;
    var k := |posts|;
    var text := LineText(k, p);
    StoredLineIs(k, p);
    var rest := (text + "\n")[..254];
    assert rest == text[..254];
    LineTextClean(k, p);
    LinesGood(b, posts);
    LineAtSkips(LinesOf(posts), rest, 0);
    LastPiece(rest);
    NumberLength(k);
    BlankedPrefix(k, p, 254);
    BlankedLine(k, p);
    ReplyKeepsPrefix(BlankFirstSlash(text), 254);
  }

  /** A reply does not depend on what comes after the first 242 characters. */
  lemma ReplyKeepsPrefix(info: string, m: nat)
    requires 242 <= m <= |info|
    ensures SocketMessage("2.0", "MESSAGE", info[..m]) == SocketMessage("2.0", "MESSAGE", info)
  {
    var head := "2.0" + " " + "MESSAGE" + " ";
    assert |head| == 12;
    assert head + info[..m] + "\n" == (head + info)[..12 + m] + "\n";
    assert (head + info[..m] + "\n")[..254] == (head + info + "\n")[..254];
  }

  /** The number in the answer to a REPLACE is the one under which READ answers with the post, however long its line. */
  lemma ReportedReplaceReads(b: Board, posts: seq<Post>, k: nat, p: Post, argument: string, newline: bool)
    requires Holds(b, posts) && GoodPost(p) && k < |posts|
    requires ReplaceArguments(argument) == Some((k, p.message))
    ensures Runnable(b, Replace(argument)) ==>
              var number := PrintedNumber(Reply(b, Replace(argument), true, newline));
              number.Some? && ReadsAs(Perform(b, p.user, Replace(argument)), number.value, p)
  {
    hide LineAt, SocketMessage, FileOf, FormatInt, Stretch, Perform, Runnable, ReplaceArguments, Reply, PrintedNumber;
    SuccessText(b, Replace(argument), newline);
    NumberFound(k, newline);
    ReplacedLineReads(b, posts, k, p, argument);
  }

  lemma ReplacedLineReads(b: Board, posts: seq<Post>, k: nat, p: Post, argument: string)
    requires Holds(b, posts) && GoodPost(p) && k < |posts|
    requires ReplaceArguments(argument) == Some((k, p.message))
    ensures Runnable(b, Replace(argument)) ==> ReadsAs(Perform(b, p.user, Replace(argument)), k, p)
  {
    hide LineAt, SocketMessage, LineText, FileOf, FormatInt, Stretch, Perform, Runnable, ReplaceArguments, HasText,
        BlankFirstSlash;
    RunnableOnPosts(b, posts, k, argument, p.message);
    assert Perform(b, p.user, Replace(argument)).messageNumber == |posts| by {
      PerformKeepsCounter(b, p.user, argument);
    }
    if HasText(posts[k].message) {
      BytesAfterReplace(b, posts, k, p, argument);
      var text := LineText(k, p);
      var line := Snprintf(4096, text + "\n");
      var n := if |text| <= 255 then |text| else 255;
      var after := FileOf(LinesOf(posts)[k + 1..]);
      LinesGood(b, posts);
      LineTextClean(k, p);
      forall i | 0 <= i < n ensures !IsTerminator((line + after)[i]) {
        assert (line + after)[i] == text[i];
      }
      ScanBehind(LinesOf(posts)[..k], line + after, n);
      assert (line + after)[..n] == text[..n];
      NumberIsShort(k, p, posts[k]);
      BlankedPrefix(k, p, n);
      BlankedLine(k, p);
      if n == |text| {
        assert text[..n] == text;
      } else {
        ReplyKeepsPrefix(BlankFirstSlash(text), n);
      }
    }
  }

  lemma NumberIsShort(k: nat, p: Post, was: Post)
    requires |LineText(k, was)| < READLINE_LIMIT
    ensures |FormatInt(k)| < READLINE_LIMIT && |FormatInt(k)| < |LineText(k, p)|
  {
  }

  lemma PerformKeepsCounter(b: Board, user: string, argument: string)
    ensures Perform(b, user, Replace(argument)).messageNumber == b.messageNumber
  {
    hide LineAt, ReplaceArguments, UserAndMessage, ReplaceLine;
  }

  /** The first slash of a line comes early, so that cutting the line does not change where the blank goes. */
  lemma BlankedPrefix(k: nat, p: Post, n: nat)
    requires |FormatInt(k)| < n <= |LineText(k, p)|
    ensures |BlankFirstSlash(LineText(k, p))| == |LineText(k, p)|
    ensures BlankFirstSlash(LineText(k, p)[..n]) == BlankFirstSlash(LineText(k, p))[..n]
  {
    var text := LineText(k, p);
    var digits := FormatInt(k);
    StretchIs(text, '/', |digits|);
    StretchIs(text[..n], '/', |digits|);
  }

  // ----- Lines the line reader does not take in one piece -----

  /** What the line reader makes of the text of a line. */
  function Pieces(text: string): (pieces: seq<string>)
    ensures |pieces| == |text| / READLINE_LIMIT + 1
  {
    if |text| < READLINE_LIMIT then [text] else [text[..READLINE_LIMIT]] + Pieces(text[READLINE_LIMIT..])
  }

  lemma LongLineStep(text: string, rest: string)
    requires CleanText(text) && |text| >= READLINE_LIMIT
    ensures NextLine(text + "\n" + rest) == Some((text[..READLINE_LIMIT], text[READLINE_LIMIT..] + "\n" + rest))
  {
    var s := text + "\n" + rest;
    SpanIs(READLINE_LIMIT, s, READLINE_LIMIT);
    NextLineSpan(s, READLINE_LIMIT);
    assert s[..READLINE_LIMIT] == text[..READLINE_LIMIT];
    assert s[READLINE_LIMIT..] == text[READLINE_LIMIT..] + "\n" + rest;
  }

  /** The scan meets the pieces one by one, and computes every later offset one too large for each extra piece. */
  lemma {:induction false} PiecesScanned(text: string, rest: string, j: nat)
    requires CleanText(text)
    ensures var found := LineAt(text + "\n" + rest, j);
            if j < |Pieces(text)| then found.Some? && found.value.text == Pieces(text)[j]
            else found == Shift(|text| + |Pieces(text)|, LineAt(rest, j - |Pieces(text)|))
    decreases |text|
  {
    hide LineAt, NextLine;
    if |text| < READLINE_LIMIT {
      LineAtStep(text, rest, j);
    } else {
      var piece, behind := text[..READLINE_LIMIT], text[READLINE_LIMIT..];
      LongLineStep(text, rest);
      LineAtNext(text + "\n" + rest, piece, behind + "\n" + rest, j);
      if j > 0 {
        PiecesScanned(behind, rest, j - 1);
        assert |Pieces(text)| == |Pieces(behind)| + 1;
      }
    }
  }

  lemma {:induction false} PiecesCounted(text: string, rest: string)
    requires CleanText(text)
    ensures LineCount(text + "\n" + rest) == |Pieces(text)| + LineCount(rest)
    decreases |text|
  {
    if |text| < READLINE_LIMIT {
      NextLineIs(text, rest);
    } else {
      LongLineStep(text, rest);
      PiecesCounted(text[READLINE_LIMIT..], rest);
    }
  }

  lemma {:induction false} LinesCountedBefore(lines: seq<string>, rest: string)
    requires forall i :: 0 <= i < |lines| ==> GoodLine(lines[i])
    ensures LineCount(FileOf(lines) + rest) == |lines| + LineCount(rest)
  {
    if lines == [] {
      assert FileOf(lines) + rest == rest;
    } else {
      Assoc(lines[0] + "\n", FileOf(lines[1..]), rest);
      NextLineIs(lines[0], FileOf(lines[1..]) + rest);
      LinesCountedBefore(lines[1..], rest);
    }
  }

  /**
   * What a REPLACE with a line of 255 characters or more does to the numbering. The line reads as several lines, so
   * the file has more lines than the counter says, the numbers behind k name the pieces of post k first, and every
   * later post has moved behind its number.
   */
  lemma LongLineShifts(b: Board, posts: seq<Post>, k: nat, p: Post, argument: string, j: nat)
    requires Holds(b, posts) && GoodPost(p) && k < |posts| && HasText(posts[k].message)
    requires ReplaceArguments(argument) == Some((k, p.message)) && |LineText(k, p)| <= 4094
    ensures var after, extra := Perform(b, p.user, Replace(argument)), |LineText(k, p)| / READLINE_LIMIT;
            && LineCount(after.bytes) == after.messageNumber + extra
            && (j <= extra ==>
                  LineAt(after.bytes, k + j).Some?
                      && LineAt(after.bytes, k + j).value.text == Pieces(LineText(k, p))[j])
            && (k < j < |posts| ==>
                  LineAt(after.bytes, j + extra).Some?
                      && LineAt(after.bytes, j + extra).value.text == LineText(j, posts[j]))
            && (j < k ==> LineAt(after.bytes, j).Some? && LineAt(after.bytes, j).value.text == LineText(j, posts[j]))
  {
    hide LineAt, LineText, FileOf, FormatInt, Perform, ReplaceArguments, HasText, Pieces, LineCount;
    var lines := LinesOf(posts);
    var text := LineText(k, p);
    var before, rest := lines[..k], FileOf(lines[k + 1..]);
    BytesAfterReplace(b, posts, k, p, argument);
    LinesGood(b, posts);
    LineTextClean(k, p);
    LinesCountedBefore(before, text + "\n" + rest);
    PiecesCounted(text, rest);
    LinesCounted(lines[k + 1..]);
    LineAtSkips(before, text + "\n" + rest, j);
    PiecesScanned(text, rest, j);
    if k < j < |posts| {
      var extra := |text| / READLINE_LIMIT;
      LineAtSkips(before, text + "\n" + rest, j - k + extra);
      PiecesScanned(text, rest, j - k + extra);
      LineLocated(lines[k + 1..], j - k - 1);
    } else if j < k {
      SplitAtLine(before, j);
      LineBefore(before, text + "\n" + rest, j);
    }
  }

  /** A line in front is found whatever follows. */
  lemma LineBefore(lines: seq<string>, rest: string, j: nat)
    requires j < |lines| && forall i :: 0 <= i < |lines| ==> GoodLine(lines[i])
    ensures LineAt(FileOf(lines) + rest, j) == Some(Found(|FileOf(lines[..j])|, lines[j]))
  {
    hide LineAt, FileOf;
    var tail := FileOf(lines[j + 1..]);
    SplitAtLine(lines, j);
    assert FileOf(lines) + rest == FileOf(lines[..j]) + (lines[j] + "\n" + (tail + rest));
    LineAtSkips(lines[..j], lines[j] + "\n" + (tail + rest), 0);
    LineAtStep(lines[j], tail + rest, 0);
  }

  // ----- Lines the buffer has cut off -----

  /** The bytes after a WRITE: up to 254 characters of the line behind the old ones, and the counter one up. */
  lemma BytesAfterWrite(b: Board, user: string, message: string)
    ensures var line, after := StoredLine(b.messageNumber, user, message), Perform(b, user, Write(message));
            && after.messageNumber == b.messageNumber + 1
            && |after.bytes| == |b.bytes| + Least(|line|, 254)
            && after.bytes[..|b.bytes|] == b.bytes
            && forall i :: 0 <= i < Least(|line|, 254) ==> after.bytes[|b.bytes| + i] == line[i]
  {
    hide StoredLine;
    var line := StoredLine(b.messageNumber, user, message);
    assert (b.bytes + Snprintf(255, line))[..|b.bytes|] == b.bytes;
    assert forall i :: 0 <= i < Least(|line|, 254) ==> Snprintf(255, line)[i] == line[i];
  }

  /** A line that has been cut off still counts as a line: restarting on the file recovers the counter. */
  lemma CounterRecoveredAfterWrite(b: Board, posts: seq<Post>, p: Post)
    requires Holds(b, posts) && GoodPost(p)
    ensures LineCount(Perform(b, p.user, Write(p.message)).bytes) == |posts| + 1
  {
    hide LineText, FileOf, FormatInt, LineCount;
    var text := LineText(|posts|, p);
    StoredLineIs(|posts|, p);
    LineTextClean(|posts|, p);
    LinesGood(b, posts);
    if |text| < 254 {
      assert text + "\n" + "" == text + "\n";
      LinesCountedBefore(LinesOf(posts), text + "\n" + "");
      PiecesCounted(text, "");
      NoLines();
    } else {
      var rest := (text + "\n")[..254];
      assert rest == text[..254];
      LinesCountedBefore(LinesOf(posts), rest);
      LastPieceCounts(rest);
    }
  }

  lemma NoLines()
    ensures LineCount("") == 0
  {
  }

  lemma LastPieceCounts(rest: string)
    requires 0 < |rest| < READLINE_LIMIT && forall i :: 0 <= i < |rest| ==> !IsTerminator(rest[i])
    ensures LineCount(rest) == 1
  {
    SpanOfAll(READLINE_LIMIT, rest);
    NextLineSpan(rest, |rest|);
    NoLines();
  }

  /**
   * A REPLACE of a last line that has been cut off: the new line has a newline exactly when it is longer than the old
   * one, newlines not counted.
   */
  lemma CutLineReplaced(lines: seq<string>, cut: string, user: string, message: string)
    requires forall i :: 0 <= i < |lines| ==> GoodLine(lines[i])
    requires 0 < |cut| < READLINE_LIMIT && (forall i :: 0 <= i < |cut| ==> !IsTerminator(cut[i]))
    requires |StoredLine(|lines|, user, message)| <= 4095
    ensures var line := StoredLine(|lines|, user, message);
            && LineAt(FileOf(lines) + cut, |lines|).Some?
            && ReplaceLine(FileOf(lines) + cut, |lines|, user, message)
               == FileOf(lines) + if |line| > |cut| then line else line[..|line| - 1]
  {
    hide FileOf, LineAt, FormatInt, StoredLine;
    var b := FileOf(lines);
    var line := StoredLine(|lines|, user, message);
    StoredLineNotEmpty(|lines|, user, message);
    LineAtSkips(lines, cut, 0);
    LastPiece(cut);
    OverLastLine(b, cut, line);
  }

  lemma OverLastLine(b: string, cut: string, line: string)
    requires line != ""
    ensures ReplaceRange(b + cut, |b|, |cut| + 1, line) == b + if |line| > |cut| then line else line[..|line| - 1]
  {
    var written := Overwrite(b + cut, |b|, line);
    if |line| > |cut| {
      assert written == b + line;
    } else {
      assert written[..|b| + |line| - 1] == b + line[..|line| - 1];
    }
  }

  // ----- Undo -----

  /** Undoing a WRITE restores file and counter on every board, also when the line was cut off by the buffer. */
  lemma UndoOfWriteRestores(b: Board, user: string, message: string)
    ensures Revert(Perform(b, user, Write(message)), UndoOf(b, Write(message))) == b
  {
    hide StoredLine;
    assert (b.bytes + Snprintf(255, StoredLine(b.messageNumber, user, message)))[..|b.bytes|] == b.bytes;
  }

  /** The first token of a message with a slash in it makes a different line: some character changes. */
  lemma SlashIsLost(k: nat, p: Post, kept: string) returns (i: nat)
    requires GoodPost(p) && '/' in p.message
    requires UserAndMessage(LineText(k, p)) == Some((p.user, kept))
    ensures var was, now := StoredLine(k, p.user, p.message), StoredLine(k, p.user, kept);
            i < |was| && i < |now| && was[i] != now[i]
  {
    hide Tokens, FormatInt;
    var tokens := Tokens(p.message, '/');
    TokensOfLine(k, p);
    assert kept == Tokens(LineText(k, p), '/')[2] == tokens[0];
    assert tokens[0] in tokens;
    var head := FormatInt(k) + "/" + p.user + "/";
    var was, now := StoredLine(k, p.user, p.message), StoredLine(k, p.user, kept);
    assert was == head + (p.message + "\n") && now == head + (kept + "\n");
    if p.message[0] == '/' {
      i := |head|;
      assert was[i] == '/' && now[i] == kept[0];
    } else {
      FirstTokenIs(p.message);
      var n := Stretch(p.message, '/');
      i := |head| + n;
      assert was[i] == p.message[n] == '/' && now[i] == '\n';
    }
  }

  /** The undo record of a REPLACE of post k names the user, and of the message what precedes the first slash. */
  lemma UndoOfReplaceIs(b: Board, posts: seq<Post>, k: nat, argument: string, message: string)
    requires Holds(b, posts) && k < |posts|
    requires ReplaceArguments(argument) == Some((k, message)) && Runnable(b, Replace(argument))
    ensures var kept := Tokens(posts[k].message, '/');
            && kept != []
            && UserAndMessage(LineText(k, posts[k])) == Some((posts[k].user, kept[0]))
            && UndoOf(b, Replace(argument)) == Rewrite(k, posts[k].user, kept[0])
  {
    hide LineAt, Tokens, LineText;
    PostLocated(b, posts, k);
    TokensOfLine(k, posts[k]);
  }

  lemma SameAround(a: string, one: string, two: string, extra: string, c: string)
    requires one == two || exists i :: 0 <= i < |one| && i < |two| && one[i] != two[i]
    ensures a + (one + (extra + c)) == a + (two + c) <==> one == two && extra == ""
  {
    var left, right := a + (one + (extra + c)), a + (two + c);
    if one == two {
      if extra == "" {
        assert extra + c == c;
      } else {
        assert |left| > |right|;
      }
    } else {
      var i :| 0 <= i < |one| && i < |two| && one[i] != two[i];
      assert left[|a| + i] == one[i] && right[|a| + i] == two[i];
    }
  }

  lemma CutBehind(a: string, n: string, c: string, length: nat, line: string)
    requires length <= |n|
    ensures Splice(a + (n + c), |a|, length, line) == a + (line + (n[length..] + c))
  {
  }

  /** The bytes after an undone REPLACE, whatever the lengths of the three lines involved. */
  lemma BytesAfterUndo(b: Board, posts: seq<Post>, k: nat, p: Post, oldUser: string, oldMessage: string)
    requires Holds(b, posts) && k < |posts| && GoodPost(p)
    ensures var line := Snprintf(4096, StoredLine(k, p.user, p.message));
            var taken := if |line| <= 256 then |line| else 256;
            var before, after := FileOf(LinesOf(posts)[..k]), FileOf(LinesOf(posts)[k + 1..]);
            && Locatable(b.bytes, k)
            && ReplaceLine(b.bytes, k, p.user, p.message) == before + (line + after)
            && Locatable(before + (line + after), k)
            && ReplaceLine(before + (line + after), k, oldUser, oldMessage)
               == before + (Snprintf(4096, StoredLine(k, oldUser, oldMessage)) + (line[taken..] + after))
  {
    hide FileOf, LineAt, LineText, FormatInt, StoredLine, Splice, ReplaceRange;
    var lines := LinesOf(posts);
    LinesGood(b, posts);
    var line := Snprintf(4096, StoredLine(k, p.user, p.message));
    var before, after := FileOf(lines[..k]), FileOf(lines[k + 1..]);
    StoredLineNotEmpty(k, p.user, p.message);
    ReplaceLineIs(lines, k, line);
    NewLineFound(lines[..k], k, p, after);
    var n := if |line| <= 256 then |line| - 1 else 255;
    var restored := Snprintf(4096, StoredLine(k, oldUser, oldMessage));
    CutBehind(before, line, after, n + 1, restored);
    StoredLineNotEmpty(k, oldUser, oldMessage);
    RangeWithin(before + (line + after), |before|, n + 1, restored);
  }

  /** Where the undo finds the line of a REPLACE: it takes its first 255 characters at most. */
  lemma NewLineFound(lines: seq<string>, k: nat, p: Post, after: string)
    requires |lines| == k && (forall i :: 0 <= i < |lines| ==> GoodLine(lines[i])) && GoodPost(p)
    ensures var line := Snprintf(4096, StoredLine(k, p.user, p.message));
            var n := if |line| <= 256 then |line| - 1 else 255;
            && n < |line|
            && LineAt(FileOf(lines) + (line + after), k) == Some(Found(|FileOf(lines)|, (line + after)[..n]))
  {
    hide FileOf, LineAt, LineText, FormatInt, StoredLine;
    var line := Snprintf(4096, StoredLine(k, p.user, p.message));
    StoredLineIs(k, p);
    var n := if |line| <= 256 then |line| - 1 else 255;
    LineTextClean(k, p);
    forall i | 0 <= i < n ensures !IsTerminator((line + after)[i]) {
      assert (line + after)[i] == LineText(k, p)[i];
    }
    ScanBehind(lines, line + after, n);
  }

  /**
   * Undoing a REPLACE of post k restores the identical file exactly when the old message has no slash and the new
   * line, newline included, has at most 256 characters (so that the scan of the undo takes it in one piece).
   */
  lemma UndoOfReplaceRestores(b: Board, posts: seq<Post>, k: nat, p: Post, argument: string)
    requires Holds(b, posts) && k < |posts| && GoodPost(p)
    requires ReplaceArguments(argument) == Some((k, p.message)) && Runnable(b, Replace(argument))
    ensures Revert(Perform(b, p.user, Replace(argument)), UndoOf(b, Replace(argument))) == b
            <==> '/' !in posts[k].message && |StoredLine(k, p.user, p.message)| <= 256
  {
    hide FileOf, LineAt, LineText, Tokens, ReplaceArguments;
    var was := posts[k];
    UndoOfReplaceIs(b, posts, k, argument, p.message);
    var kept := Tokens(was.message, '/')[0];
    BytesAfterUndo(b, posts, k, p, was.user, kept);
    var line := Snprintf(4096, StoredLine(k, p.user, p.message));
    var taken := if |line| <= 256 then |line| else 256;
    var before, now := StoredLine(k, was.user, was.message), StoredLine(k, was.user, kept);
    SplitAtLine(LinesOf(posts), k);
    StoredLineIs(k, was);
    if '/' in was.message {
      var i := SlashIsLost(k, was, kept);
      KeptIsShort(k, was, kept);
    } else {
      TokensOfWord(was.message, '/');
    }
    SameAround(FileOf(LinesOf(posts)[..k]), now, before, line[taken..], FileOf(LinesOf(posts)[k + 1..]));
  }

  lemma KeptIsShort(k: nat, p: Post, kept: string)
    requires GoodPost(p) && |LineText(k, p)| < READLINE_LIMIT
    requires Tokens(p.message, '/') != [] && kept == Tokens(p.message, '/')[0]
    ensures |StoredLine(k, p.user, kept)| <= 255
  {
    TokensKeepText(p.message, '/');
    assert |kept| <= |Concat(Tokens(p.message, '/'))|;
  }

  // ----- Two requests the server accepts and does not carry out as it should -----

  /** After WRITE / the request REPLACE 0/x is accepted, and stops the program. */
  lemma SlashMessageStops()
    ensures var b := Board("0/nobody//\n", 1);
            && b == Perform(Board("", 0), "nobody", Write("/")) && Holds(b, [Post("nobody", "/")])
            && WellFormedArgument("0/x") && ArgumentNumber("0/x") == 0 < b.messageNumber
            && !Runnable(b, Replace("0/x"))
  {
    hide LineAt, Tokens, ReplaceArguments;
    var b, p := Board("0/nobody//\n", 1), Post("nobody", "/");
    assert FormatInt(0) == "0";
    assert LineText(0, p) == "0/nobody//";
    assert LinesOf([p]) == ["0/nobody//"];
    FileOfSingle("0/nobody//");
    assert Holds(b, [p]);
    PrintedNumberNamesLine(0, "x");
    assert "0" + "/" + "x" == "0/x";
    RunnableOnPosts(b, [p], 0, "0/x", "x");
    assert "" + StoredLine(0, "nobody", "/") == "0/nobody//\n";
  }

  const LONG_USER := seq(20, _ => 'u')
  const LONG_MESSAGE := seq(240, _ => 'x')

  lemma LongText()
    ensures GoodPost(Post(LONG_USER, LONG_MESSAGE)) && '/' !in LONG_MESSAGE
    ensures var text := LineText(0, Post(LONG_USER, LONG_MESSAGE)); |text| == 263 && Pieces(text)[1] == "xxxxxxxx"
  {
    assert FormatInt(0) == "0";
    var text := LineText(0, Post(LONG_USER, LONG_MESSAGE));
    assert text[READLINE_LIMIT..] == LONG_MESSAGE[232..] == "xxxxxxxx";
    assert Pieces(text) == [text[..READLINE_LIMIT]] + Pieces(text[READLINE_LIMIT..]);
  }

  lemma TwoShortPosts()
    ensures var posts := [Post("a", "b"), Post("a", "c")];
            Holds(Board(FileOf(LinesOf(posts)), 2), posts) && HasText(posts[0].message)
  {
    hide FileOf;
    assert FormatInt(0) == "0" && FormatInt(1) == "1";
    assert "b"[0] != '/';
  }

  /** After two posts, user u...u (20) replaces the first by x...x (240): number 1 then reads "xxxxxxxx". */
  lemma LongReplaceShifts()
    ensures var posts := [Post("a", "b"), Post("a", "c")];
            var b := Board(FileOf(LinesOf(posts)), 2);
            var after := Perform(b, LONG_USER, Replace("0/" + LONG_MESSAGE));
            && Holds(b, posts) && Runnable(b, Replace("0/" + LONG_MESSAGE))
            && after.messageNumber == 2 && LineCount(after.bytes) == 3
            && LineAt(after.bytes, 1).Some? && LineAt(after.bytes, 1).value.text == "xxxxxxxx"
  {
    hide LineAt, Tokens, ReplaceArguments, LineCount, FileOf, Perform, Runnable, LineText, Pieces, HasText, LinesOf,
        GoodPost;
    var posts := [Post("a", "b"), Post("a", "c")];
    var b := Board(FileOf(LinesOf(posts)), 2);
    TwoShortPosts();
    LongText();
    var p := Post(LONG_USER, LONG_MESSAGE);
    PrintedNumberNamesLine(0, LONG_MESSAGE);
    assert FormatInt(0) + "/" + LONG_MESSAGE == "0/" + LONG_MESSAGE;
    RunnableOnPosts(b, posts, 0, "0/" + LONG_MESSAGE, LONG_MESSAGE);
    BytesAfterReplace(b, posts, 0, p, "0/" + LONG_MESSAGE);
    LongLineShifts(b, posts, 0, p, "0/" + LONG_MESSAGE, 1);
  }
}
