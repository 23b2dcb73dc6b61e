/** A file made of newline-terminated lines that the line reader takes in one piece each. */
module FileLines {
  import opened Text
  import opened LineReader
  import opened Boards

  predicate CleanText(s: string) {
    '\n' !in s && '\r' !in s && '\0' !in s
  }

  predicate GoodLine(line: string) {
    CleanText(line) && |line| < READLINE_LIMIT
  }

  function FileOf(lines: seq<string>): string {
    if lines == [] then "" else lines[0] + "\n" + FileOf(lines[1..])
  }

  lemma FileOfCons(line: string, lines: seq<string>)
    ensures FileOf([line] + lines) == line + "\n" + FileOf(lines)
  {
    assert ([line] + lines)[1..] == lines;
  }

  lemma {:induction false} FileOfAppend(a: seq<string>, b: seq<string>)
    ensures FileOf(a + b) == FileOf(a) + FileOf(b)
  {
    if a == [] {
      assert a + b == b;
    } else {
      assert a + b == [a[0]] + (a[1..] + b);
      FileOfCons(a[0], a[1..] + b);
      FileOfAppend(a[1..], b);
      Assoc(a[0] + "\n", FileOf(a[1..]), FileOf(b));
    }
  }

  lemma NextLineSpan(stream: string, n: nat)
    requires stream != "" && n == Span(READLINE_LIMIT, stream)
    ensures NextLine(stream) == Some((stream[..n], if n == READLINE_LIMIT then stream[n..]
                                                   else if n < |stream| then stream[n + 1..] else ""))
  {
    hide Span;
    assert "" + stream[..n] == stream[..n];
  }

  lemma NextLineIs(line: string, rest: string)
    requires GoodLine(line)
    ensures NextLine(line + "\n" + rest) == Some((line, rest))
  {
    var s := line + "\n" + rest;
    SpanOfLine(READLINE_LIMIT, line, '\n', rest);
    NextLineSpan(s, |line|);
    assert s[..|line|] == line && s[|line| + 1..] == rest;
  }

  function Shift(n: nat, f: Option<Found>): Option<Found> {
    match f case None => None case Some(g) => Some(Found(n + g.offset, g.text))
  }

  lemma LineAtNext(stream: string, text: string, rest: string, k: nat)
    requires NextLine(stream) == Some((text, rest))
    ensures LineAt(stream, k) == if k == 0 then Some(Found(0, text)) else Shift(|text| + 1, LineAt(rest, k - 1))
  {
    hide NextLine;
  }

  lemma LineAtStep(line: string, rest: string, k: nat)
    requires GoodLine(line)
    ensures LineAt(line + "\n" + rest, k)
            == if k == 0 then Some(Found(0, line)) else Shift(|line| + 1, LineAt(rest, k - 1))
  {
    NextLineIs(line, rest);
    LineAtNext(line + "\n" + rest, line, rest, k);
  }

  /** Whatever follows some good lines, the scan walks over them one by one. */
  lemma {:induction false} LineAtSkips(lines: seq<string>, rest: string, j: nat)
    requires forall i :: 0 <= i < |lines| ==> GoodLine(lines[i])
    ensures LineAt(FileOf(lines) + rest, |lines| + j) == Shift(|FileOf(lines)|, LineAt(rest, j))
  {
    hide LineAt;
    if lines == [] {
      assert FileOf(lines) + rest == rest;
    } else {
      var tail := FileOf(lines[1..]);
      Assoc(lines[0] + "\n", tail, rest);
      LineAtStep(lines[0], tail + rest, |lines| + j);
      LineAtSkips(lines[1..], rest, j);
      assert |FileOf(lines)| == |lines[0]| + 1 + |tail|;
      assert LineAt(FileOf(lines) + rest, |lines| + j) == Shift(|lines[0]| + 1, LineAt(tail + rest, |lines| + j - 1));
      assert |lines| + j - 1 == |lines[1..]| + j;
    }
  }

  lemma SplitAtLine(lines: seq<string>, j: nat)
    requires j < |lines|
    ensures FileOf(lines) == FileOf(lines[..j]) + (lines[j] + "\n" + FileOf(lines[j + 1..]))
  {
    hide FileOf;
    assert lines == lines[..j] + ([lines[j]] + lines[j + 1..]);
    FileOfAppend(lines[..j], [lines[j]] + lines[j + 1..]);
    FileOfCons(lines[j], lines[j + 1..]);
  }

  /** The offset of line j is the total length of the lines before it, and its length is that of its text. */
  lemma LineLocated(lines: seq<string>, j: nat)
    requires j < |lines| && forall i :: 0 <= i < |lines| ==> GoodLine(lines[i])
    ensures LineAt(FileOf(lines), j) == Some(Found(|FileOf(lines[..j])|, lines[j]))
    ensures Locatable(FileOf(lines), j)
  {
    hide LineAt;
    SplitAtLine(lines, j);
    LineAtSkips(lines[..j], lines[j] + "\n" + FileOf(lines[j + 1..]), 0);
    LineAtStep(lines[j], FileOf(lines[j + 1..]), 0);
  }

  /** A line past the last one is not found. */
  lemma NoSuchLine(lines: seq<string>, j: nat)
    requires j >= |lines| && forall i :: 0 <= i < |lines| ==> GoodLine(lines[i])
    ensures LineAt(FileOf(lines), j).None?
  {
    LineAtSkips(lines, "", j - |lines|);
    assert FileOf(lines) + "" == FileOf(lines);
  }

  lemma {:induction false} LinesCounted(lines: seq<string>)
    requires forall i :: 0 <= i < |lines| ==> GoodLine(lines[i])
    ensures LineCount(FileOf(lines)) == |lines|
  {
    if lines != [] {
      NextLineIs(lines[0], FileOf(lines[1..]));
      LinesCounted(lines[1..]);
    }
  }

  /** Putting another line in the place of a located one. */
  lemma SpliceLine(before: string, gone: string, line: string, after: string)
    ensures Splice(before + (gone + after), |before|, |gone|, line) == before + (line + after)
  {
  }

  /** Replacing line j by any text: the rest of the file stays byte for byte. */
  lemma ReplaceLineIs(lines: seq<string>, j: nat, line: string)
    requires j < |lines| && (forall i :: 0 <= i < |lines| ==> GoodLine(lines[i])) && line != ""
    ensures Locatable(FileOf(lines), j)
    ensures var f := LineAt(FileOf(lines), j).value;
            ReplaceRange(FileOf(lines), f.offset, |f.text| + 1, line)
            == FileOf(lines[..j]) + (line + FileOf(lines[j + 1..]))
  {
    hide ReplaceRange;
    LineLocated(lines, j);
    SplitAtLine(lines, j);
    SpliceLine(FileOf(lines[..j]), lines[j] + "\n", line, FileOf(lines[j + 1..]));
    RangeWithin(FileOf(lines), |FileOf(lines[..j])|, |lines[j]| + 1, line);
  }

  lemma UpdatedLines(lines: seq<string>, j: nat, line: string)
    requires j < |lines|
    ensures FileOf(lines[j := line]) == FileOf(lines[..j]) + ((line + "\n") + FileOf(lines[j + 1..]))
  {
    var updated := lines[j := line];
    SplitAtLine(updated, j);
    assert updated[..j] == lines[..j] && updated[j + 1..] == lines[j + 1..];
  }

  /**
   * What the scan takes as the next line behind some good lines: up to the terminator at `n`, or the first 255
   * characters when there is none among them.
   */
  lemma ScanBehind(before: seq<string>, rest: string, n: nat)
    requires forall i :: 0 <= i < |before| ==> GoodLine(before[i])
    requires n <= READLINE_LIMIT && n < |rest| && (forall i :: 0 <= i < n ==> !IsTerminator(rest[i]))
    requires n == READLINE_LIMIT || IsTerminator(rest[n])
    ensures LineAt(FileOf(before) + rest, |before|) == Some(Found(|FileOf(before)|, rest[..n]))
  {
    hide LineAt;
    LineAtSkips(before, rest, 0);
    FirstPiece(rest, n);
  }

  lemma FirstPiece(rest: string, n: nat)
    requires n <= READLINE_LIMIT && n < |rest| && (forall i :: 0 <= i < n ==> !IsTerminator(rest[i]))
    requires n == READLINE_LIMIT || IsTerminator(rest[n])
    ensures LineAt(rest, 0) == Some(Found(0, rest[..n]))
  {
    SpanIs(READLINE_LIMIT, rest, n);
    NextLineSpan(rest, n);
  }

  /** A last line without a terminator. */
  lemma LastPiece(rest: string)
    requires 0 < |rest| < READLINE_LIMIT && forall i :: 0 <= i < |rest| ==> !IsTerminator(rest[i])
    ensures LineAt(rest, 0) == Some(Found(0, rest))
  {
    SpanOfAll(READLINE_LIMIT, rest);
    NextLineSpan(rest, |rest|);
    assert rest[..|rest|] == rest;
  }

  lemma {:induction false} SpanOfAll(room: nat, s: string)
    requires |s| <= room && forall i :: 0 <= i < |s| ==> !IsTerminator(s[i])
    ensures Span(room, s) == |s|
  {
    if s != "" {
      SpanOfAll(room - 1, s[1..]);
    }
  }

  lemma {:induction false} SpanIs(room: nat, s: string, n: nat)
    requires n <= room && n <= |s| && (forall i :: 0 <= i < n ==> !IsTerminator(s[i]))
    requires n == room || (n < |s| && IsTerminator(s[n]))
    ensures Span(room, s) == n
  {
    if n > 0 {
      SpanIs(room - 1, s[1..], n - 1);
    }
  }

  // ----- A line that has been replaced can be found again -----

  /** The number of bytes in front of line k, which the offset the scan computes never falls short of. */
  function LineStart(stream: string, k: nat): (p: nat)
    requires LineAt(stream, k).Some?
    ensures p <= LineAt(stream, k).value.offset && p + |LineAt(stream, k).value.text| <= |stream| && p < |stream|
    decreases |stream|
  {
    var (text, rest) := NextLine(stream).value;
    ReaderConsumes(stream);
    if k == 0 then 0 else |stream| - |rest| + LineStart(rest, k - 1)
  }

  lemma ReaderConsumes(stream: string)
    requires stream != ""
    ensures var (text, rest) := NextLine(stream).value;
            |text| + |rest| <= |stream| <= |text| + 1 + |rest| && |rest| < |stream|
                && rest == stream[|stream| - |rest|..]
  {
    NextLineSpan(stream, Span(READLINE_LIMIT, stream));
  }

  /** The next line depends only on the bytes it is made of. */
  lemma NextLineOfPrefix(stream: string, other: string)
    requires stream != "" && NextLine(stream).value.1 != ""
    requires var c := |stream| - |NextLine(stream).value.1|; 0 < c < |other| && other[..c] == stream[..c]
    ensures var (text, rest) := NextLine(stream).value;
            NextLine(other) == Some((text, other[|stream| - |rest|..]))
  {
    hide NextLine, Span;
    var n := Span(READLINE_LIMIT, stream);
    NextLineSpan(stream, n);
    var c := |stream| - |NextLine(stream).value.1|;
    forall i | 0 <= i < c ensures other[i] == stream[i] {
      assert other[i] == other[..c][i] && stream[i] == stream[..c][i];
    }
    SpanIs(READLINE_LIMIT, other, n);
    NextLineSpan(other, n);
    assert other[..n] == stream[..n];
  }

  lemma {:induction false} FoundBehindPrefix(stream: string, other: string, k: nat)
    requires LineAt(stream, k).Some? && LineStart(stream, k) < |other|
    requires other[..LineStart(stream, k)] == stream[..LineStart(stream, k)]
    ensures LineAt(other, k).Some?
    decreases |stream|
  {
    hide NextLine;
    if k > 0 {
      var (text, rest) := NextLine(stream).value;
      ReaderConsumes(stream);
      var c, p := |stream| - |rest|, LineStart(rest, k - 1);
      SamePrefixes(stream, other, c, p);
      NextLineOfPrefix(stream, other);
      FoundBehindPrefix(rest, other[c..], k - 1);
      LineAtNext(other, text, other[c..], k);
    } else {
      NextLineExists(other);
    }
  }

  lemma SamePrefixes(stream: string, other: string, c: nat, p: nat)
    requires c + p <= |stream| && c + p <= |other| && other[..c + p] == stream[..c + p]
    ensures other[..c] == stream[..c] && other[c..][..p] == stream[c..][..p]
  {
    assert other[..c] == other[..c + p][..c];
    assert other[c..][..p] == other[..c + p][c..];
  }

  lemma NextLineExists(stream: string)
    requires stream != ""
    ensures NextLine(stream).Some? && LineAt(stream, 0).Some?
  {
  }

  lemma PrefixOfRange(bytes: string, offset: nat, length: nat, line: string, p: nat)
    requires length <= |bytes| + 1 && |line| >= 2 && p <= offset && p + length <= |bytes| + 1 && p < |bytes|
    ensures var r := ReplaceRange(bytes, offset, length, line); p < |r| && r[..p] == bytes[..p]
  {
  }

  /** Whatever a REPLACE has put in its place, line k is there for the undo to find. */
  lemma ReplacedLineFound(bytes: string, k: nat, user: string, message: string)
    requires LineAt(bytes, k).Some?
    ensures LineAt(ReplaceLine(bytes, k, user, message), k).Some?
  {
    hide LineAt, ReplaceRange, FormatInt, LineStart;
    var f := LineAt(bytes, k).value;
    var line := Snprintf(4096, StoredLine(k, user, message));
    PrefixOfRange(bytes, f.offset, |f.text| + 1, line, LineStart(bytes, k));
    FoundBehindPrefix(bytes, ReplaceLine(bytes, k, user, message), k);
  }
}
