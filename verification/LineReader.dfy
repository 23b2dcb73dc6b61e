/**
 tcp-utils.cpp: the line reader. A source is the bytes still to arrive plus the outcomes of the
 zero-timeout polls made after a terminator, in the order the calls make them (none left: not ready).
 */
module LineReader {
  import opened Text

  const RECV_NODATA := -2

  predicate IsTerminator(c: char) {
    c == '\r' || c == '\n'
  }

  class Source {
    var stream: string
    var polls: seq<bool>

    constructor (stream: string, polls: seq<bool>)
      ensures this.stream == stream && this.polls == polls
    {
      this.stream := stream;
      this.polls := polls;
    }

    /** read(fd, &tmp, 1): one byte, or 0 at the end of the stream. */
    method Read() returns (what: int, tmp: char)
      modifies this`stream
      ensures old(stream) == "" ==> what == 0 && stream == ""
      ensures old(stream) != "" ==> what == 1 && [tmp] + stream == old(stream)
    {
      if stream == "" {
        what, tmp := 0, '\0';
      } else {
        what, tmp, stream := 1, stream[0], stream[1..];
      }
    }

    /** recv_nonblock(fd, &tmp, 1, 0). */
    method RecvNonblock() returns (next: int, tmp: char)
      modifies this
      ensures polls == if old(polls) == [] then [] else old(polls)[1..]
      ensures old(polls) == [] || !old(polls)[0] ==> next == RECV_NODATA && stream == old(stream)
      ensures old(polls) != [] && old(polls)[0] && old(stream) == "" ==> next == 0 && stream == ""
      ensures old(polls) != [] && old(polls)[0] && old(stream) != "" ==> next == 1 && [tmp] + stream == old(stream)
    {
      var ready := polls != [] && polls[0];
      polls := if polls == [] then [] else polls[1..];
      if ready {
        next, tmp := Read();
      } else {
        next, tmp := RECV_NODATA, '\0';
      }
    }
  }

  /** What a reader still has in front of it; '\0' in `residue` means no character is kept back. */
  datatype Input = Input(residue: char, stream: string, polls: seq<bool>)

  datatype Outcome = NoData(left: Input) | Line(text: string, left: Input)

  /** Length of the longest prefix of `s` without a terminator, at most `room`. */
  function Span(room: nat, s: string): (n: nat)
    ensures n <= room && n <= |s|
    ensures forall i :: 0 <= i < n ==> !IsTerminator(s[i])
    ensures n < room && n < |s| ==> IsTerminator(s[n])
  {
    if room == 0 || s == "" || IsTerminator(s[0]) then 0 else 1 + Span(room - 1, s[1..])
  }

  /** The terminator run that follows a line is swallowed for as long as the polls say bytes are there. */
  function Swallow(stream: string, polls: seq<bool>): (left: Input)
    decreases |polls|
  {
    if polls == [] || !polls[0] || stream == "" then Input('\0', stream, if polls == [] then [] else polls[1..])
    else if IsTerminator(stream[0]) then Swallow(stream[1..], polls[1..])
    else Input(stream[0], stream[1..], polls[1..])
  }

  function Held(residue: char): string {
    if residue == '\0' then "" else [residue]
  }

  /** readlineFromSocket as a function of the input. */
  function ReadLine(max: nat, input: Input): Outcome
    requires max >= 1
  {
    var held := Held(input.residue);
    var room := max - |held|;
    if room > 0 && input.stream == "" then NoData(input.(residue := '\0'))
    else
      var n := Span(room, input.stream);
      var text := held + input.stream[..n];
      if n == room then Line(text, Input('\0', input.stream[n..], input.polls))
      else Line(text, Swallow(if n < |input.stream| then input.stream[n + 1..] else "", input.polls))
  }

  /** The inner do-while loop: swallow terminators while they are ready, keep back the first other byte. */
  method SwallowTerminators(fd: Source) returns (kept: char)
    modifies fd
    ensures Input(kept, fd.stream, fd.polls) == Swallow(old(fd.stream), old(fd.polls))
  {
    while true
      invariant Swallow(old(fd.stream), old(fd.polls)) == Swallow(fd.stream, fd.polls)
      decreases |fd.polls|
    {
      var next, temp2 := fd.RecvNonblock();
      if next != 1 {
        return '\0';
      }
      if IsTerminator(temp2) {
        continue;
      }
      return temp2;
    }
  }

  /** Character by character: what the scan returns once `text` is in the buffer. */
  function Resume(max: nat, text: string, stream: string, polls: seq<bool>): Outcome
    decreases |stream|
  {
    if |text| >= max then Line(text, Input('\0', stream, polls))
    else if stream == "" then Line(text, Swallow("", polls))
    else if IsTerminator(stream[0]) then Line(text, Swallow(stream[1..], polls))
    else Resume(max, text + [stream[0]], stream[1..], polls)
  }

  /** The scan stops at the first terminator, at the end of the stream or when the buffer is full. */
  lemma {:induction false} ResumeStopsAtSpan(max: nat, text: string, stream: string, polls: seq<bool>)
    requires |text| <= max
    ensures var n := Span(max - |text|, stream);
            Resume(max, text, stream, polls) == Line(text + stream[..n],
              if n == max - |text| then Input('\0', stream[n..], polls)
              else Swallow(if n < |stream| then stream[n + 1..] else "", polls))
    decreases |stream|
  {
    hide Swallow;
    var n := Span(max - |text|, stream);
    if n == 0 {
      assert text + stream[..0] == text && stream[0..] == stream;
    } else {
      ResumeStopsAtSpan(max, text + [stream[0]], stream[1..], polls);
      OneMoreCharacter(text, stream, n);
    }
  }

  lemma OneMoreCharacter(text: string, stream: string, n: nat)
    requires 0 < n <= |stream|
    ensures text + [stream[0]] + stream[1..][..n - 1] == text + stream[..n]
    ensures stream[1..][n - 1..] == stream[n..]
    ensures n < |stream| ==> stream[1..][n..] == stream[n + 1..]
  {
  }

  /** The method fills `buf` by index and moves the residue, exactly as ReadLine says. */
  method ReadlineFromSocket(fd: Source, buf: array<char>, max: nat, residue: char) returns (n: int, kept: char)
    requires 1 <= max < buf.Length
    modifies fd, buf
    ensures Input(kept, fd.stream, fd.polls) == ReadLine(max, Input(residue, old(fd.stream), old(fd.polls))).left
    ensures n == RECV_NODATA <==> ReadLine(max, Input(residue, old(fd.stream), old(fd.polls))).NoData?
    ensures n != RECV_NODATA ==> 0 <= n <= max && buf[n] == '\0'
    ensures n != RECV_NODATA ==> buf[..n] == ReadLine(max, Input(residue, old(fd.stream), old(fd.polls))).text
    ensures n == RECV_NODATA && residue == '\0' ==> buf[..] == old(buf[..])
  {
    ghost var held := Held(residue);
    ResumeStopsAtSpan(max, held, fd.stream, fd.polls);
    var i := 0;
    var begin := true;
    if residue != '\0' {
      buf[i] := residue;
      i := i + 1;
    }
    ghost var text := held;
    assert buf[..i] == text;
    while i < max
      invariant |text| == i <= max && buf[..i] == text
      invariant begin ==> text == held && fd.stream == old(fd.stream)
      invariant begin && residue == '\0' ==> buf[..] == old(buf[..])
      invariant !begin ==> max - |held| > 0 && old(fd.stream) != ""
      invariant fd.polls == old(fd.polls)
      invariant Resume(max, held, old(fd.stream), old(fd.polls)) == Resume(max, text, fd.stream, fd.polls)
    {
      var what, tmp := fd.Read();
      if begin {
        if what == 0 {
          return RECV_NODATA, '\0';
        }
        begin := false;
      }
      if what == 0 || IsTerminator(tmp) {
        kept := SwallowTerminators(fd);
        buf[i] := '\0';
        assert buf[..i] == text;
        return i, kept;
      }
      buf[i] := tmp;
      text := text + [tmp];
      i := i + 1;
      assert buf[..i] == text;
    }
    buf[i] := '\0';
    assert buf[..i] == text;
    return i, '\0';
  }

  // ----- What repeated calls return -----

  /** The bytes a reader has yet to deliver: the character kept back, then the stream. */
  function Pending(input: Input): string {
    Held(input.residue) + input.stream
  }

  predicate Readable(input: Input) {
    '\0' !in input.stream && !IsTerminator(input.residue)
  }

  /** The text without its line terminators. */
  function Strip(s: string): string {
    if s == "" then "" else (if IsTerminator(s[0]) then "" else [s[0]]) + Strip(s[1..])
  }

  lemma {:induction false} StripConcat(a: string, b: string)
    ensures Strip(a + b) == Strip(a) + Strip(b)
  {
    if a == "" {
      assert a + b == b;
    } else {
      assert (a + b)[1..] == a[1..] + b;
      StripConcat(a[1..], b);
    }
  }

  lemma {:induction false} StripPlain(s: string)
    requires forall c :: c in s ==> !IsTerminator(c)
    ensures Strip(s) == s
  {
    if s != "" {
      assert s == [s[0]] + s[1..];
      StripPlain(s[1..]);
    }
  }

  /** Swallowing drops terminators only, and keeps the first other byte in the residue. */
  lemma {:induction false} SwallowDropsTerminators(stream: string, polls: seq<bool>) returns (dropped: string)
    requires '\0' !in stream
    ensures stream == dropped + Pending(Swallow(stream, polls)) && Strip(dropped) == ""
    ensures Readable(Swallow(stream, polls))
    decreases |polls|
  {
    if polls == [] || !polls[0] || stream == "" {
      dropped := "";
    } else if IsTerminator(stream[0]) {
      hide Strip, Pending;
      var d := SwallowDropsTerminators(stream[1..], polls[1..]);
      dropped := [stream[0]] + d;
      HeadAndTail(stream, 0);
      Assoc([stream[0]], d, Pending(Swallow(stream[1..], polls[1..])));
      StripOneMore(stream[0], d);
    } else {
      dropped := "";
      HeadAndTail(stream, 0);
    }
  }

  lemma Assoc(a: string, b: string, c: string)
    ensures a + (b + c) == a + b + c
  {
  }

  lemma StripOneMore(t: char, s: string)
    requires IsTerminator(t)
    ensures Strip([t] + s) == Strip(s)
  {
    assert ([t] + s)[1..] == s;
  }

  lemma DropTerminator(text: string, t: char, rest: string, polls: seq<bool>) returns (consumed: string)
    requires Strip(text) == text && IsTerminator(t) && '\0' !in rest
    ensures text + ([t] + rest) == consumed + Pending(Swallow(rest, polls)) && consumed != ""
    ensures Strip(consumed) == text && Readable(Swallow(rest, polls))
  {
    var dropped := SwallowDropsTerminators(rest, polls);
    var left := Pending(Swallow(rest, polls));
    var run := [t] + dropped;
    Assoc([t], dropped, left);
    Assoc(text, run, left);
    assert run[1..] == dropped;
    StripConcat(text, run);
    consumed := text + run;
  }

  /** One call removes a prefix of what is pending and returns it without its terminators. */
  lemma CallConsumes(max: nat, input: Input) returns (consumed: string)
    requires max >= 1 && Readable(input) && ReadLine(max, input).Line?
    ensures Pending(input) == consumed + Pending(ReadLine(max, input).left) && consumed != ""
    ensures Strip(consumed) == ReadLine(max, input).text == Strip(ReadLine(max, input).text)
    ensures Readable(ReadLine(max, input).left)
  {
    var n := Span(max - |Held(input.residue)|, input.stream);
    if n == max - |Held(input.residue)| || n == |input.stream| {
      consumed := CallStopsShort(max, input, n);
    } else {
      consumed := CallMeetsTerminator(max, input, n);
    }
  }

  lemma CallStopsShort(max: nat, input: Input, n: nat) returns (consumed: string)
    requires max >= 1 && Readable(input) && ReadLine(max, input).Line?
    requires n == Span(max - |Held(input.residue)|, input.stream)
    requires n == max - |Held(input.residue)| || n == |input.stream|
    ensures Pending(input) == consumed + Pending(ReadLine(max, input).left) && consumed != ""
    ensures Strip(consumed) == ReadLine(max, input).text == Strip(ReadLine(max, input).text)
    ensures Readable(ReadLine(max, input).left)
  {
    hide Strip, Span;
    TextIsPlain(input, max - |Held(input.residue)|);
    consumed := Held(input.residue) + input.stream[..n];
    Regroup(Held(input.residue), input.stream, n);
    var out := ReadLine(max, input);
    assert out.text == consumed && out.left.stream == input.stream[n..] && out.left.residue == '\0';
  }

  lemma CallMeetsTerminator(max: nat, input: Input, n: nat) returns (consumed: string)
    requires max >= 1 && Readable(input) && ReadLine(max, input).Line?
    requires n == Span(max - |Held(input.residue)|, input.stream)
    requires n < max - |Held(input.residue)| && n < |input.stream|
    ensures Pending(input) == consumed + Pending(ReadLine(max, input).left) && consumed != ""
    ensures Strip(consumed) == ReadLine(max, input).text == Strip(ReadLine(max, input).text)
    ensures Readable(ReadLine(max, input).left)
  {
    hide Strip, Span, Swallow;
    var text := Held(input.residue) + input.stream[..n];
    TextIsPlain(input, max - |Held(input.residue)|);
    Regroup(Held(input.residue), input.stream, n);
    HeadAndTail(input.stream, n);
    consumed := DropTerminator(text, input.stream[n], input.stream[n + 1..], input.polls);
    assert ReadLine(max, input) == Line(text, Swallow(input.stream[n + 1..], input.polls));
  }

  lemma Regroup(held: string, s: string, n: nat)
    requires n <= |s|
    ensures held + s == held + s[..n] + s[n..]
  {
  }

  lemma HeadAndTail(s: string, n: nat)
    requires n < |s|
    ensures s[n..] == [s[n]] + s[n + 1..]
    ensures s[0..] == s
  {
  }

  lemma TextIsPlain(input: Input, room: nat)
    requires Readable(input)
    ensures var text := Held(input.residue) + input.stream[..Span(room, input.stream)]; Strip(text) == text
  {
    var n := Span(room, input.stream);
    StripPlain(input.stream[..n]);
    StripPlain(Held(input.residue));
    StripConcat(Held(input.residue), input.stream[..n]);
  }

  /** Every call that returns a line makes progress. */
  lemma CallMakesProgress(max: nat, input: Input)
    requires max >= 1 && Readable(input) && ReadLine(max, input).Line?
    ensures |Pending(ReadLine(max, input).left)| < |Pending(input)| && Readable(ReadLine(max, input).left)
  {
    var c := CallConsumes(max, input);
  }

  /** The lines returned by calling until the end of the stream. */
  function Lines(max: nat, input: Input): seq<string>
    requires max >= 1 && Readable(input)
    decreases |Pending(input)|
  {
    match ReadLine(max, input)
    case NoData(_) => []
    case Line(text, left) =>
      CallMakesProgress(max, input);
      [text] + Lines(max, left)
  }

  /** The character still held back when the end of the stream is reported; the call discards it. */
  function Lost(max: nat, input: Input): string
    requires max >= 1 && Readable(input)
    decreases |Pending(input)|
  {
    match ReadLine(max, input)
    case NoData(_) => Held(input.residue)
    case Line(text, left) =>
      CallMakesProgress(max, input);
      Lost(max, left)
  }

  /**
   * For any poll timing and any buffer limit the lines are free of terminators and, with the character lost
   * at the end of the stream, spell out the pending text without its terminators, in order.
   */
  lemma {:induction false} LinesSpellTheStream(max: nat, input: Input)
    requires max >= 1 && Readable(input)
    ensures Concat(Lines(max, input)) + Lost(max, input) == Strip(Pending(input))
    ensures forall t :: t in Lines(max, input) ==> Strip(t) == t && |t| <= max
    decreases |Pending(input)|
  {
    match ReadLine(max, input)
    case NoData(_) =>
      assert Pending(input) == Held(input.residue);
      StripPlain(Held(input.residue));
    case Line(text, left) =>
      var c := CallConsumes(max, input);
      LinesSpellTheStream(max, left);
      StripConcat(c, Pending(left));
      assert ([text] + Lines(max, left))[1..] == Lines(max, left);
      Assoc(text, Concat(Lines(max, left)), Lost(max, left));
  }

  /** Nothing is lost when the stream is empty or ends in a terminator. */
  lemma {:induction false} NothingLostAfterTerminator(max: nat, input: Input)
    requires max >= 1 && Readable(input)
    requires Pending(input) == "" || IsTerminator(Pending(input)[|Pending(input)| - 1])
    ensures Lost(max, input) == ""
    ensures Concat(Lines(max, input)) == Strip(Pending(input))
    decreases |Pending(input)|
  {
    LinesSpellTheStream(max, input);
    match ReadLine(max, input)
    case NoData(_) =>
      assert Pending(input) == Held(input.residue);
    case Line(_, left) =>
      var c := CallConsumes(max, input);
      assert Pending(left) != "" ==> Pending(input)[|Pending(input)| - 1] == Pending(left)[|Pending(left)| - 1];
      NothingLostAfterTerminator(max, left);
  }

  /** The last byte is not a terminator, and the byte before it is. */
  predicate LoneLastByte(s: string) {
    |s| >= 2 && !IsTerminator(s[|s| - 1]) && IsTerminator(s[|s| - 2])
  }

  /** What swallowing keeps back comes right after a dropped terminator, or first. */
  lemma {:induction false} KeptFollowsTerminator(stream: string, polls: seq<bool>) returns (p: nat)
    requires '\0' !in stream && Swallow(stream, polls).residue != '\0'
    ensures p < |stream| && (p == 0 || IsTerminator(stream[p - 1]))
    ensures Pending(Swallow(stream, polls)) == stream[p..]
    decreases |polls|
  {
    if IsTerminator(stream[0]) {
      var q := KeptFollowsTerminator(stream[1..], polls[1..]);
      p := q + 1;
      assert stream[1..][q..] == stream[p..];
    } else {
      p := 0;
      assert stream == [stream[0]] + stream[1..] == stream[0..];
    }
  }

  /** And so a call only ever keeps back a byte that follows a terminator. */
  lemma CallKeepsAfterTerminator(max: nat, input: Input) returns (p: nat)
    requires max >= 1 && Readable(input) && ReadLine(max, input).Line? && ReadLine(max, input).left.residue != '\0'
    ensures 1 <= p < |Pending(input)| && IsTerminator(Pending(input)[p - 1])
    ensures Pending(ReadLine(max, input).left) == Pending(input)[p..]
  {
    hide Swallow, Span;
    var held := Held(input.residue);
    var n := Span(max - |held|, input.stream);
    NothingToSwallow(input.polls);
    assert n < |input.stream| && ReadLine(max, input).left == Swallow(input.stream[n + 1..], input.polls);
    var q := KeptFollowsTerminator(input.stream[n + 1..], input.polls);
    p := |held| + n + 1 + q;
    BehindTerminator(held, input.stream, n, q);
  }

  lemma BehindTerminator(held: string, stream: string, n: nat, q: nat)
    requires n + 1 + q < |stream| && IsTerminator(stream[n]) && (q == 0 || IsTerminator(stream[n + 1..][q - 1]))
    ensures var p := |held| + n + 1 + q;
            IsTerminator((held + stream)[p - 1]) && stream[n + 1..][q..] == (held + stream)[p..]
  {
    assert q > 0 ==> (held + stream)[|held| + n + q] == stream[n + 1..][q - 1];
  }

  lemma NothingToSwallow(polls: seq<bool>)
    ensures Swallow("", polls).residue == '\0'
  {
  }

  /** A byte is lost only when it is the last one, stands behind a terminator and finds room in the buffer behind it. */
  lemma {:induction false} NothingLostUnlessLone(max: nat, input: Input)
    requires max >= 1 && Readable(input)
    requires max == 1 || (!LoneLastByte(Pending(input)) && (input.residue != '\0' ==> input.stream != ""))
    ensures Lost(max, input) == ""
    decreases |Pending(input)|
  {
    hide Swallow, Span, Strip;
    match ReadLine(max, input)
    case NoData(_) =>
    case Line(_, left) =>
      var c := CallConsumes(max, input);
      assert Pending(left) == Pending(input)[|c|..];
      if left.residue != '\0' {
        var p := CallKeepsAfterTerminator(max, input);
        assert !IsTerminator(left.residue) && Pending(left)[0] == left.residue;
      }
      NothingLostUnlessLone(max, left);
  }

  predicate AlwaysReady(polls: seq<bool>, bytes: nat) {
    |polls| >= bytes && forall i :: 0 <= i < |polls| ==> polls[i]
  }

  /** When every poll finds bytes, swallowing keeps back the first byte that is no terminator. */
  lemma {:induction false} SwallowsWholeRun(stream: string, polls: seq<bool>)
    requires '\0' !in stream && AlwaysReady(polls, |stream|) && stream != "" && !IsTerminator(stream[|stream| - 1])
    ensures var left := Swallow(stream, polls);
            && left.residue != '\0' && !IsTerminator(left.residue) && AlwaysReady(left.polls, |left.stream|)
            && Readable(left) && |Pending(left)| <= |stream| && Pending(left) == stream[|stream| - |Pending(left)|..]
    decreases |polls|
  {
    if IsTerminator(stream[0]) {
      SwallowsWholeRun(stream[1..], polls[1..]);
    } else {
      assert stream == [stream[0]] + stream[1..];
    }
  }

  lemma SuffixIsLone(s: string, p: nat)
    requires LoneLastByte(s) && p < |s|
    ensures s[p..][|s| - p - 1] == s[|s| - 1]
    ensures p + 2 <= |s| ==> LoneLastByte(s[p..])
  {
  }

  /** A full buffer does not reach the lone last byte: there is a terminator before it. */
  lemma FullBufferStopsBefore(held: string, stream: string, room: nat)
    requires LoneLastByte(held + stream) && stream != "" && (forall c :: c in held ==> !IsTerminator(c))
    ensures Span(room, stream) + 2 <= |stream|
  {
    var n := Span(room, stream);
    var s := held + stream;
    if |stream| >= 2 {
      assert s[|s| - 2] == stream[|stream| - 2];
    }
  }

  /** Nothing of the text of a line is behind the first terminator. */
  lemma RestBehindLine(max: nat, input: Input) returns (rest: string)
    requires max >= 2 && Readable(input) && LoneLastByte(Pending(input)) && input.stream != ""
    ensures ReadLine(max, input).Line?
    ensures 1 <= |rest| <= |input.stream| && rest == input.stream[|input.stream| - |rest|..]
    ensures ReadLine(max, input).left == Swallow(rest, input.polls)
            || (ReadLine(max, input).left == Input('\0', rest, input.polls) && |rest| >= 2)
  {
    hide Swallow, LoneLastByte, Span;
    var held := Held(input.residue);
    var n := Span(max - |held|, input.stream);
    FullBufferStopsBefore(held, input.stream, max - |held|);
    if n == max - |held| {
      rest := input.stream[n..];
      assert |input.stream| - |rest| == n;
    } else {
      rest := input.stream[n + 1..];
      assert |input.stream| - |rest| == n + 1;
    }
  }

  /** A call leaves the lone last byte behind, in the stream or kept back. */
  lemma CallLeavesLoneByte(max: nat, input: Input)
    requires max >= 2 && Readable(input) && AlwaysReady(input.polls, |input.stream|)
    requires LoneLastByte(Pending(input)) && input.stream != ""
    ensures ReadLine(max, input).Line?
    ensures var left := ReadLine(max, input).left;
            && Readable(left) && AlwaysReady(left.polls, |left.stream|)
            && (LoneLastByte(Pending(left)) || (left.stream == "" && left.residue != '\0'))
            && |Pending(left)| > 0 && Pending(left)[|Pending(left)| - 1] == Pending(input)[|Pending(input)| - 1]
  {
    hide Swallow, Span, LoneLastByte, ReadLine, Readable, AlwaysReady;
    var rest := RestBehindLine(max, input);
    var left := ReadLine(max, input).left;
    CallMakesProgress(max, input);
    LastOfLone(Pending(input));
    RestIsReady(input, rest);
    if left == Swallow(rest, input.polls) {
      SwallowsWholeRun(rest, input.polls);
    }
    var p := |Pending(input)| - |Pending(left)|;
    SuffixOfPending(input, rest, |rest| - |Pending(left)|);
    assert Pending(left) == Pending(input)[p..];
    SuffixIsLone(Pending(input), p);
  }

  lemma RestIsReady(input: Input, rest: string)
    requires Readable(input) && AlwaysReady(input.polls, |input.stream|)
    requires |rest| <= |input.stream| && rest == input.stream[|input.stream| - |rest|..]
    ensures '\0' !in rest && AlwaysReady(input.polls, |rest|)
  {
  }

  lemma SuffixOfPending(input: Input, rest: string, p: nat)
    requires |rest| <= |input.stream| && rest == input.stream[|input.stream| - |rest|..] && p <= |rest|
    ensures rest[p..] == Pending(input)[|Pending(input)| - |rest| + p..]
  {
  }

  lemma LastOfLone(s: string)
    requires LoneLastByte(s)
    ensures |s| >= 2 && !IsTerminator(s[|s| - 1])
  {
  }

  lemma {:induction false} LoneByteLost(max: nat, input: Input)
    requires max >= 2 && Readable(input) && AlwaysReady(input.polls, |input.stream|)
    requires LoneLastByte(Pending(input)) || (input.stream == "" && input.residue != '\0')
    ensures Lost(max, input) == [Pending(input)[|Pending(input)| - 1]]
    decreases |Pending(input)|
  {
    hide Swallow, Span;
    if input.stream != "" {
      CallLeavesLoneByte(max, input);
      CallMakesProgress(max, input);
      LoneByteLost(max, ReadLine(max, input).left);
    }
  }

  /**
   * Which streams a reader can lose a byte of: exactly those whose last byte is no terminator but follows one, and
   * only with a buffer of two or more. The byte lost is that last one.
   */
  lemma ResidueLostAtEnd(max: nat, stream: string)
    requires max >= 1 && '\0' !in stream
    ensures (forall polls :: Lost(max, Input('\0', stream, polls)) == "") <==> max == 1 || !LoneLastByte(stream)
    ensures max >= 2 && LoneLastByte(stream)
            ==> exists polls :: Lost(max, Input('\0', stream, polls)) == [stream[|stream| - 1]]
  {
    hide Lost, LoneLastByte, Pending;
    if max == 1 || !LoneLastByte(stream) {
      forall polls ensures Lost(max, Input('\0', stream, polls)) == "" {
        FreshReader(stream, polls);
        NothingLostUnlessLone(max, Input('\0', stream, polls));
      }
    } else {
      var ready := seq(|stream|, _ => true);
      FreshReader(stream, ready);
      LoneByteLost(max, Input('\0', stream, ready));
    }
  }

  lemma FreshReader(stream: string, polls: seq<bool>)
    requires '\0' !in stream
    ensures Readable(Input('\0', stream, polls)) && Pending(Input('\0', stream, polls)) == stream
  {
    assert "" + stream == stream;
  }

  /** How many polls in a row find bytes ready. */
  function ReadyPolls(polls: seq<bool>): nat {
    if polls == [] || !polls[0] then 0 else 1 + ReadyPolls(polls[1..])
  }

  lemma {:induction false} SwallowRun(run: string, rest: string, polls: seq<bool>)
    requires forall c :: c in run ==> IsTerminator(c)
    requires '\0' !in rest && (rest != "" ==> !IsTerminator(rest[0]))
    ensures Pending(Swallow(run + rest, polls)) == rest <==> ReadyPolls(polls) >= |run|
    decreases |polls|
  {
    var s := run + rest;
    if run == "" {
      assert s == rest;
      assert rest != "" ==> rest == [rest[0]] + rest[1..];
    } else if polls != [] && polls[0] {
      assert s[0] == run[0] && s[1..] == run[1..] + rest;
      SwallowRun(run[1..], rest, polls[1..]);
    } else {
      assert |Pending(Swallow(s, polls))| == |s| > |rest|;
    }
  }

  /**
   * Any non-empty run of CR and LF ends one line; the whole run is taken as one terminator exactly when every
   * further byte of it is there by the time it is polled for. Otherwise its remainder reads as empty lines.
   */
  lemma RunIsOneTerminator(max: nat, content: string, first: char, run: string, rest: string, polls: seq<bool>)
    requires |content| < max && (forall c :: c in content ==> !IsTerminator(c))
    requires IsTerminator(first) && (forall c :: c in run ==> IsTerminator(c))
    requires '\0' !in rest && (rest != "" ==> !IsTerminator(rest[0]))
    ensures var out := ReadLine(max, Input('\0', content + [first] + run + rest, polls));
            && out.Line? && out.text == content
            && (Pending(out.left) == rest <==> ReadyPolls(polls) >= |run|)
  {
    var s := content + [first] + run + rest;
    SpanOfLine(max, content, first, run + rest);
    assert s == content + [first] + (run + rest);
    assert s[..|content|] == content && s[|content| + 1..] == run + rest;
    SwallowRun(run, rest, polls);
  }

  function Rest(polls: seq<bool>, n: nat): seq<bool> {
    if n <= |polls| then polls[n..] else []
  }

  /**
   * What swallowing takes, to the byte and to the poll: with r polls in a row finding bytes, r terminators of the run
   * and one more poll, or, when the run is shorter than that, the run and the byte behind it, which is kept back.
   */
  lemma {:induction false} SwallowExactly(run: string, rest: string, polls: seq<bool>)
    requires forall i :: 0 <= i < |run| ==> IsTerminator(run[i])
    requires rest != "" ==> !IsTerminator(rest[0])
    ensures var r := ReadyPolls(polls);
            Swallow(run + rest, polls)
            == if r <= |run| then Input('\0', (run + rest)[r..], Rest(polls, r + 1))
               else if rest == "" then Input('\0', "", Rest(polls, |run| + 1))
               else Input(rest[0], rest[1..], Rest(polls, |run| + 1))
    decreases |polls|
  {
    var s := run + rest;
    if polls == [] || !polls[0] {
      assert s[0..] == s;
    } else if run == "" {
      assert s == rest;
    } else {
      assert s[0] == run[0] && s[1..] == run[1..] + rest;
      SwallowExactly(run[1..], rest, polls[1..]);
    }
  }

  // ----- One call, by the content of what it meets -----

  predicate Plain(content: string) {
    forall i :: 0 <= i < |content| ==> !IsTerminator(content[i])
  }

  /**
   * A full buffer ends the call at once: everything behind it, a terminator too, stays where it is, and no poll is
   * made.
   */
  lemma FullBufferReturns(max: nat, residue: char, content: string, rest: string, polls: seq<bool>)
    requires max >= 1 && Plain(content) && |Held(residue)| + |content| == max
    ensures ReadLine(max, Input(residue, content + rest, polls)) == Line(Held(residue) + content,
            Input('\0', rest, polls))
  {
    SpanOfPlain(|content|, content, rest);
    assert (content + rest)[..|content|] == content && (content + rest)[|content|..] == rest;
  }

  /** A terminator ends a shorter line, and is swallowed with what follows it as the polls go. */
  lemma TerminatorReturns(max: nat, residue: char, content: string, t: char, rest: string, polls: seq<bool>)
    requires max >= 1 && Plain(content) && |Held(residue)| + |content| < max && IsTerminator(t)
    ensures ReadLine(max, Input(residue, content + [t] + rest, polls)) == Line(Held(residue) + content,
            Swallow(rest, polls))
  {
    var s := content + [t] + rest;
    SpanOfLine(max - |Held(residue)|, content, t, rest);
    assert s[..|content|] == content && s[|content| + 1..] == rest;
  }

  /**
   * The end of the stream ends a line that has begun in it; without one there is no line, and a byte kept back is
   * lost.
   */
  lemma EndReturns(max: nat, residue: char, content: string, polls: seq<bool>)
    requires max >= 1 && Plain(content) && |Held(residue)| + |content| < max
    ensures ReadLine(max, Input(residue, content, polls))
            == if content == "" then NoData(Input('\0', "", polls))
                else Line(Held(residue) + content, Swallow("", polls))
  {
    assert content + "" == content && content[..|content|] == content;
    SpanOfPlain(max - |Held(residue)|, content, "");
  }

  lemma {:induction false} SpanOfPlain(room: nat, content: string, rest: string)
    requires Plain(content) && |content| <= room && (|content| == room || rest == "")
    ensures Span(room, content + rest) == |content|
  {
    if content == "" {
      assert content + rest == rest;
    } else {
      assert (content + rest)[1..] == content[1..] + rest;
      SpanOfPlain(room - 1, content[1..], rest);
    }
  }

  /** So a line that fills the buffer exactly is followed by an empty one, however soon its terminator has arrived. */
  lemma FullLineThenEmptyLine(max: nat, content: string, t: char, rest: string, polls: seq<bool>)
    requires max >= 1 && Plain(content) && |content| == max && IsTerminator(t)
    ensures var first := ReadLine(max, Input('\0', content + ([t] + rest), polls));
            first.Line? && first.text == content
            && ReadLine(max, first.left) == Line("", Swallow(rest, polls))
  {
    FullBufferReturns(max, '\0', content, [t] + rest, polls);
    assert "" + content == content && "" + [t] + rest == [t] + rest;
    TerminatorReturns(max, '\0', "", t, rest, polls);
  }

  lemma {:induction false} SpanOfLine(room: nat, content: string, t: char, rest: string)
    requires |content| < room && (forall c :: c in content ==> !IsTerminator(c)) && IsTerminator(t)
    ensures Span(room, content + [t] + rest) == |content|
  {
    var s := content + [t] + rest;
    if content != "" {
      assert s[1..] == content[1..] + [t] + rest;
      SpanOfLine(room - 1, content[1..], t, rest);
    }
  }
}
