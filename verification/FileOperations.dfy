/**
 file-operations.cpp: the methods that edit the bulletin-board file in place. Blocking on the lock is the subject
 of ReadersWriterLock; here a method starts in the state in which its wait for the lock is over. `accessible` is
 the outcome of the access() call, and the undo closure is returned as the record of what it captured.
 */
module FileOperations {
  import opened Text
  import opened Utilities
  import opened Wire
  import opened LineReader
  import opened PosixFile
  import opened Boards
  import opened ReadersWriterLock

  const ALEN := 256

  /** areReplaceArgumentsValid: accepted, rejected with a reply, or ended by the exception std::stoi throws. */
  datatype Validity = Valid | Invalid(reply: string) | Thrown

  /** What an operation does in and under the lock; keeping it leaves the release to somebody else. */
  function OperationRecord(accessible: bool, holdLock: bool): seq<Action> {
    if !accessible then [] else if holdLock then [Acquired, Applied] else [Acquired, Applied, Released]
  }

  class BulletinBoard {
    const file: File
    const lock: AccessData
    var messageNumber: int

    function View(): Board
      reads this, file
    {
      Board(file.bytes, messageNumber)
    }

    /** setBulletinBoardFile: the counter starts as the number of lines in the file. */
    constructor (file: File, lock: AccessData)
      ensures this.file == file && this.lock == lock && file.bytes == old(file.bytes)
      ensures messageNumber == LineCount(file.bytes)
    {
      this.file := file;
      this.lock := lock;
      this.messageNumber := 0;
      new;
      hide NextLine;
      var fd := new Source(file.bytes, []);
      var req := new char[ALEN];
      var l := 0;
      var n := Readline(fd, req);
      ghost var here := file.bytes;
      while n != RECV_NODATA
        invariant fd.polls == []
        invariant n == RECV_NODATA <==> NextLine(here).None?
        invariant NextLine(here).Some? ==> fd.stream == NextLine(here).value.1
        invariant LineCount(file.bytes) == l + LineCount(here)
        invariant file.bytes == old(file.bytes)
        decreases |here|
      {
        l := l + 1;
        here := fd.stream;
        n := Readline(fd, req);
      }
      messageNumber := l;
    }

    /** readline(fd, buf, ALEN - 1): the line reader on a regular file, where polling never yields a byte. */
    static method Readline(fd: Source, buf: array<char>) returns (n: int)
      requires fd.polls == [] && buf.Length == ALEN
      modifies fd, buf
      ensures fd.polls == []
      ensures n == RECV_NODATA <==> NextLine(old(fd.stream)).None?
      ensures n != RECV_NODATA ==> 0 <= n < ALEN && buf[n] == '\0'
      ensures n != RECV_NODATA ==> (buf[..n], fd.stream) == NextLine(old(fd.stream)).value
      ensures n == RECV_NODATA ==> buf[..] == old(buf[..])
    {
      var kept;
      n, kept := ReadlineFromSocket(fd, buf, ALEN - 1, '\0');
    }

    /** obtainLengthOfLineToBeReplaced. */
    method ObtainLengthOfLineToBeReplaced(k: nat) returns (length: nat, before: nat)
      requires LineAt(file.bytes, k).Some?
      ensures before == LineAt(file.bytes, k).value.offset
      ensures length == |LineAt(file.bytes, k).value.text| + 1
    {
      hide NextLine;
      var fd := new Source(file.bytes, []);
      var textLine := new char[ALEN];
      var l := 0;
      before := 0;
      ghost var here := file.bytes;
      var n := Readline(fd, textLine);
      while n != RECV_NODATA
        invariant fd.polls == [] && l <= k
        invariant n == RECV_NODATA <==> NextLine(here).None?
        invariant n != RECV_NODATA ==> n >= 0 && n == |NextLine(here).value.0| && fd.stream == NextLine(here).value.1
        invariant LineAt(here, k - l).Some?
        invariant LineAt(file.bytes, k).value
                  == Found(before + LineAt(here, k - l).value.offset, LineAt(here, k - l).value.text)
        decreases |here|
      {
        if l == k {
          return n + 1, before;
        }
        before := before + (n + 1);
        l := l + 1;
        here := fd.stream;
        n := Readline(fd, textLine);
      }
      assert false;
    }

    /** The loop of getMessageNumberInfo, from wherever the source stands. */
    static method InfoOfLine(fd: Source, k: int) returns (info: Option<(string, string)>)
      requires fd.polls == []
      modifies fd
      ensures info == InfoAt(old(fd.stream), k)
    {
      hide LineAt, Tokens, UserAndMessage, InfoAt, NextLine;
      var textLine := new char[ALEN];
      var l := 0;
      ghost var here := fd.stream;
      var n := Readline(fd, textLine);
      while n != RECV_NODATA
        invariant fd.polls == []
        invariant n == RECV_NODATA <==> NextLine(here).None?
        invariant n != RECV_NODATA ==> 0 <= n < ALEN && (textLine[..n], fd.stream) == NextLine(here).value
        invariant InfoAt(old(fd.stream), k) == InfoAt(here, k - l)
        decreases |here|
      {
        InfoGoesOn(here, k - l);
        if l == k {
          info := TokensOfStoredLine(textLine, n);
          return;
        }
        l := l + 1;
        here := fd.stream;
        n := Readline(fd, textLine);
      }
      NoInfoAtEnd(here, k - l);
      info := None;
    }

    /** The second and third token of the buffered line. */
    static method TokensOfStoredLine(textLine: array<char>, n: nat) returns (info: Option<(string, string)>)
      requires n < textLine.Length
      ensures info == UserAndMessage(textLine[..n])
    {
      var lineTokens := Tokenize(textLine[..n], '/');
      info := if |lineTokens| < 3 then None else Some((lineTokens[1], lineTokens[2]));
    }

    /**
     getMessageNumberInfo. It stops the program, which `None` stands for, when the line does not exist (the failing
     assertion) and when it has fewer than three tokens (the index out of range).
     */
    method GetMessageNumberInfo(k: int) returns (info: Option<(string, string)>)
      ensures info == InfoAt(file.bytes, k)
    {
      var fd := new Source(file.bytes, []);
      info := InfoOfLine(fd, k);
    }

    /** Case 1: the new line has the length of the old one. */
    method OverwriteLine(before: nat, line: string)
      requires line != "" && |line| <= |file.bytes| + 1
      modifies file
      ensures file.bytes == ReplaceRange(old(file.bytes), before, |line|, line)
    {
      var fd3 := new Descriptor(file);
      fd3.Seek(before);
      fd3.Write(line);
    }

    /** While the tail moves forward, the bytes before `w` are final and the others are still the old ones. */
    static predicate MovedUpTo(bytes: string, b: string, target: string, w: nat) {
      && |bytes| == |b| && w <= |target| <= |b|
      && (forall j :: 0 <= j < w ==> bytes[j] == target[j])
      && (forall j :: w <= j < |b| ==> bytes[j] == b[j])
    }

    /** Case 2: the new line is shorter. The bytes after the line move forward in the file, then it is cut. */
    method ShiftBackward(before: nat, length: nat, line: string)
      requires 0 < |line| < length <= |file.bytes| + 1
      modifies file
      ensures file.bytes == ReplaceRange(old(file.bytes), before, length, line)
    {
      ghost var b := file.bytes;
      hide Splice, Overwrite, MovedUpTo, ReplaceRange;
      if before + length <= |b| {
        RangeWithin(b, before, length, line);
        ShiftStarted(b, before, length, line);
      } else {
        RangePastEnd(b, before, length, line);
      }
      var fd1 := new Descriptor(file);
      var fd2 := new Descriptor(file);
      fd1.Seek(before + length);
      fd2.Seek(before);
      fd2.Write(line);
      var fileSizeAfterReplacement := |file.bytes| - (length - |line|);
      CopyForward(fd1, fd2, fileSizeAfterReplacement, b, before, length, line);
      fd2.Truncate(fileSizeAfterReplacement);
    }

    /** The copy loop of case 2, over two offsets into the same file; past the end there is nothing to copy. */
    method CopyForward(fd1: Descriptor, fd2: Descriptor, end: int,
                       ghost b: string, ghost before: nat, ghost length: nat, ghost line: string)
      requires fd1 != fd2 && fd1.file == fd2.file == file && fd1.offset == fd2.offset + length - |line|
               && |line| < length
      requires fd2.offset == before + |line|
      requires before + length > |b| ==> end < fd2.offset
      requires before + length <= |b| ==>
                 end == |b| + |line| - length && MovedUpTo(file.bytes, b, Splice(b, before, length, line), fd2.offset)
      modifies fd1, fd2, file
      ensures before + length > |b| ==> file.bytes == old(file.bytes)
      ensures before + length <= |b| ==> end <= |file.bytes| && file.bytes[..end] == Splice(b, before, length, line)
    {
      hide Splice, Overwrite, MovedUpTo, ReplaceRange;
      ghost var target := if before + length <= |b| then Splice(b, before, length, line) else "";
      var currentWriterPosition := fd2.offset;
      while currentWriterPosition < end
        invariant currentWriterPosition == fd2.offset
        invariant before + length > |b| ==> end < fd2.offset && file.bytes == old(file.bytes)
        invariant before + length <= |b|
                  ==> before + |line| <= fd2.offset <= end && fd1.offset == fd2.offset + (length - |line|)
        invariant before + length <= |b| ==> MovedUpTo(file.bytes, b, target, fd2.offset)
        decreases end - fd2.offset
      {
        MoveByte(file.bytes, b, before, length, line, fd2.offset);
        var c := fd1.Read();
        fd2.Write([c]);
        currentWriterPosition := fd2.offset;
      }
      if before + length <= |b| {
        MoveDone(file.bytes, b, target, end);
      }
    }

    /** After the first write the new line is in place and nothing behind it has been touched. */
    static lemma ShiftStarted(b: string, before: nat, length: nat, line: string)
      requires 0 < |line| < length && before + length <= |b|
      ensures MovedUpTo(Overwrite(b, before, line), b, Splice(b, before, length, line), before + |line|)
    {
    }

    /** The byte read is still the old one, and writing it makes one more byte final. */
    static lemma MoveByte(bytes: string, b: string, before: nat, length: nat, line: string, w: nat)
      requires |line| < length && before + length <= |b| && before + |line| <= w < |b| - (length - |line|)
      requires MovedUpTo(bytes, b, Splice(b, before, length, line), w)
      ensures w + (length - |line|) < |bytes|
      ensures MovedUpTo(Overwrite(bytes, w, [bytes[w + (length - |line|)]]), b, Splice(b, before, length, line), w + 1)
    {
      hide Splice, Overwrite;
      ShiftedByte(b, before, length, line, w + (length - |line|));
      OverwriteBytewise(bytes, w, [bytes[w + (length - |line|)]]);
    }

    static lemma MoveDone(bytes: string, b: string, target: string, end: nat)
      requires MovedUpTo(bytes, b, target, end) && end == |target|
      ensures end <= |bytes| && bytes[..end] == target
    {
    }

    /**
     Case 3: the new line is longer. The bytes after the line move back, last byte first; the first write
     leaves a zero-filled gap behind the old end, which the later writes fill.
     */
    method ShiftForward(before: nat, length: nat, line: string)
      requires 0 < length < |line| && 0 < |file.bytes| && length <= |file.bytes| + 1
      modifies file
      ensures file.bytes == ReplaceRange(old(file.bytes), before, length, line)
    {
      ghost var b := file.bytes;
      ghost var within := before + length <= |b|;
      ghost var target := ReplaceRange(b, before, length, line);
      hide Splice, Overwrite, ReplaceRange;
      if within {
        RangeWithin(b, before, length, line);
      } else {
        RangePastEnd(b, before, length, line);
      }
      var differenceInLength := |line| - length;
      var fd1 := new Descriptor(file);
      var fd2 := new Descriptor(file);
      var currentReaderPosition := fd1.SeekFrom(|file.bytes|, -1);
      var writer := fd2.SeekFrom(|file.bytes|, differenceInLength - 1);
      var temp := before + length;
      while currentReaderPosition >= temp
        invariant fd1.file == fd2.file == file
        invariant !within ==> currentReaderPosition < temp && file.bytes == b
        invariant within ==> currentReaderPosition == fd1.offset && temp - 1 <= fd1.offset < |b|
        invariant within ==> fd2.offset == fd1.offset + differenceInLength
        invariant within ==> |file.bytes| == if fd1.offset == |b| - 1 then |b| else |target|
        invariant within ==> forall j :: 0 <= j <= fd1.offset ==> file.bytes[j] == b[j]
        invariant within ==> forall j :: fd2.offset < j < |target| ==> j < |file.bytes| && file.bytes[j] == target[j]
        decreases currentReaderPosition
      {
        ghost var was := file.bytes;
        ghost var r := fd1.offset;
        var c := fd1.Read();
        fd2.Write([c]);
        ShiftedByte(b, before, length, line, r);
        OverwriteBytewise(was, r + differenceInLength, [c]);
        currentReaderPosition := fd1.SeekFrom(fd1.offset, -2);
        writer := fd2.SeekFrom(fd2.offset, -2);
      }
      if within {
        ShiftDone(b, before, length, line, file.bytes);
      }
      fd2.Seek(before);
      fd2.Write(line);
    }

    /** Once the tail is in place, writing the new line completes the file. */
    static lemma ShiftDone(b: string, before: nat, length: nat, line: string, shifted: string)
      requires 0 < length < |line| && before + length <= |b|
      requires |shifted| == if before + length == |b| then |b| else |b| + |line| - length
      requires forall j :: 0 <= j < before ==> shifted[j] == b[j]
      requires forall j :: before + |line| <= j < |b| + |line| - length
                 ==> j < |shifted| && shifted[j] == Splice(b, before, length, line)[j]
      ensures Overwrite(shifted, before, line) == Splice(b, before, length, line)
    {
      OverwriteBytewise(shifted, before, line);
    }

    static lemma ShiftedByte(b: string, before: nat, length: nat, line: string, r: nat)
      requires before + length <= r < |b|
      ensures 0 <= r + (|line| - length)
      ensures r + (|line| - length) < |Splice(b, before, length, line)|
      ensures Splice(b, before, length, line)[r + (|line| - length)] == b[r]
    {
    }

    /** optimalReplaceAlgorithm: whichever case applies, exactly one line of the file is exchanged. */
    method OptimalReplaceAlgorithm(user: string, k: nat, message: string)
      requires LineAt(file.bytes, k).Some?
      modifies file
      ensures file.bytes == ReplaceLine(old(file.bytes), k, user, message)
    {
      hide LineAt, StoredLine, Splice, Overwrite, ReplaceRange;
      StoredLineNotEmpty(k, user, message);
      TextWithin(file.bytes, k);
      var lineToStore := Snprintf(4096, StoredLine(k, user, message));
      var length, before := ObtainLengthOfLineToBeReplaced(k);
      if length == |lineToStore| {
        OverwriteLine(before, lineToStore);
      } else if |lineToStore| < length {
        ShiftBackward(before, length, lineToStore);
      } else {
        ShiftForward(before, length, lineToStore);
      }
    }

    /** writeOperation. When the file is not accessible neither the lock nor the caller's undo is touched. */
    method WriteOperation(user: string, message: string, holdLock: bool, accessible: bool, undo0: Undo)
      returns (response: string, undo: Undo)
      requires accessible ==> !WriterBlocked(lock.View())
      modifies this, file, lock
      ensures response == Reply(old(View()), Write(message), accessible, !holdLock)
      ensures !accessible ==> View() == old(View()) && undo == undo0 && lock.View() == old(lock.View())
      ensures accessible ==> View() == Perform(old(View()), user, Write(message))
      ensures accessible ==> undo == UndoOf(old(View()), Write(message))
      ensures accessible ==> lock.View() == old(lock.View()).(writerActive := holdLock)
      ensures lock.record == old(lock.record) + OperationRecord(accessible, holdLock)
    {
      hide StoredLine, FormatInt, CreateMessage, Overwrite;
      if !accessible {
        return CreateMessage("3.2", "ERROR WRITE", "bbfile currently unavailable", !holdLock), undo0;
      }
      var entered := lock.ArriveAsWriter();
      undo := Truncate(|file.bytes|);
      var messageLine := Snprintf(255, StoredLine(messageNumber, user, message));
      var fd := new Descriptor(file);
      fd.Seek(|file.bytes|);  // O_APPEND
      fd.Write(messageLine);
      OverwriteAtEnd(old(file.bytes), messageLine);
      response := CreateMessage("3.0", "WROTE", FormatInt(messageNumber), !holdLock);
      messageNumber := messageNumber + 1;
      lock.Note(Applied);
      if !holdLock {
        var broadcast := lock.ReleaseWriteLock();
      }
    }

    /**
     replaceOperation. `None` stands for the stop of the program, inside the write lock and before anything is written:
     an argument with too few tokens, a number std::stoi throws on, or the stop of getMessageNumberInfo.
     */
    method ReplaceOperation(user: string, argument: string, holdLock: bool, accessible: bool, undo0: Undo)
      returns (response: Option<string>, undo: Undo)
      requires accessible ==> !WriterBlocked(lock.View())
      modifies this, file, lock
      ensures response.None? <==> accessible && !Runnable(old(View()), Replace(argument))
      ensures response.Some? ==> response.value == Reply(old(View()), Replace(argument), accessible, !holdLock)
      ensures !accessible ==> View() == old(View()) && undo == undo0 && lock.View() == old(lock.View())
      ensures accessible ==> View() == Perform(old(View()), user, Replace(argument))
      ensures accessible && response.Some? ==> undo == UndoOf(old(View()), Replace(argument))
      ensures accessible && response.Some? ==> lock.View() == old(lock.View()).(writerActive := holdLock)
      ensures response.Some? ==> lock.record == old(lock.record) + OperationRecord(accessible, holdLock)
      ensures response.None? ==> undo == undo0 && lock.View() == old(lock.View()).(writerActive := true)
      ensures response.None? ==> lock.record == old(lock.record) + [Acquired]
    {
      hide LineAt, Tokens;
      if !accessible {
        return Some(CreateMessage("3.2", "ERROR WRITE", "bbfile is currently unavailable", !holdLock)), undo0;
      }
      var entered := lock.ArriveAsWriter();
      var replaceArguments := Tokenize(argument, '/');
      if |replaceArguments| < 2 || Stoi(replaceArguments[0]).None? {
        return None, undo0;
      }
      var k := Stoi(replaceArguments[0]).value;
      var newMessage := replaceArguments[1];
      var messageInfo := GetMessageNumberInfo(k);
      if messageInfo.None? {
        return None, undo0;
      }
      var (oldUser, oldMessage) := messageInfo.value;
      undo := Rewrite(k, oldUser, oldMessage);
      OptimalReplaceAlgorithm(user, k, newMessage);
      response := Some(CreateMessage("3.0", "WROTE", FormatInt(k), !holdLock));
      lock.Note(Applied);
      if !holdLock {
        var broadcast := lock.ReleaseWriteLock();
      }
    }

    /** `operation = tokens[..] == WRITE ? writeOperation : replaceOperation`, and its call. */
    method Operate(user: string, op: Op, holdLock: bool, accessible: bool, undo0: Undo)
      returns (response: Option<string>, undo: Undo)
      requires accessible ==> !WriterBlocked(lock.View())
      modifies this, file, lock
      ensures response.None? <==> accessible && !Runnable(old(View()), op)
      ensures response.Some? ==> response.value == Reply(old(View()), op, accessible, !holdLock)
      ensures !accessible ==> View() == old(View()) && undo == undo0 && lock.View() == old(lock.View())
      ensures accessible ==> View() == Perform(old(View()), user, op)
      ensures accessible && response.Some? ==> undo == UndoOf(old(View()), op)
      ensures accessible && response.Some? ==> lock.View() == old(lock.View()).(writerActive := holdLock)
      ensures response.Some? ==> lock.record == old(lock.record) + OperationRecord(accessible, holdLock)
      ensures response.None? ==> undo == undo0 && lock.View() == old(lock.View()).(writerActive := true)
      ensures response.None? ==> lock.record == old(lock.record) + [Acquired]
    {
      match op {
        case Write(message) =>
          var written;
          written, undo := WriteOperation(user, message, holdLock, accessible, undo0);
          response := Some(written);
        case Replace(argument) =>
          response, undo := ReplaceOperation(user, argument, holdLock, accessible, undo0);
      }
    }

    /** Calling the undo closure; it runs while the lock of the operation is still held. */
    method RunUndo(undo: Undo)
      requires undo.Truncate? ==> undo.size <= |file.bytes|
      requires undo.Rewrite? ==> LineAt(file.bytes, undo.number).Some?
      modifies this, file, lock`record
      ensures View() == Revert(old(View()), undo)
      ensures lock.record == old(lock.record) + [Undone]
    {
      match undo {
        case NoUndo =>
        case Truncate(size) =>
          var fd := new Descriptor(file);
          fd.Truncate(size);
          messageNumber := messageNumber - 1;
        case Rewrite(k, user, message) =>
          OptimalReplaceAlgorithm(user, k, message);
      }
      lock.Note(Undone);
    }

    /** The loop of readMessageFromFile: it leaves line `k` in the buffer, or the last line if there is no line `k`. */
    static method ScanTo(fd: Source, temp: array<char>, k: nat) returns (n: int)
      requires fd.polls == [] && fd.stream != "" && temp.Length == ALEN
      modifies fd, temp
      ensures 0 <= n < ALEN && temp[n] == '\0' && temp[..n] == ScannedText(old(fd.stream), k)
    {
      ghost var here := fd.stream;
      n := Readline(fd, temp);
      var l, next := 0, n;
      while next != RECV_NODATA
        invariant fd.polls == [] && l <= k
        invariant 0 <= n < ALEN && temp[n] == '\0'
        invariant next == RECV_NODATA <==> here == ""
        invariant next != RECV_NODATA ==> next == n && (temp[..n], fd.stream) == NextLine(here).value
        invariant next != RECV_NODATA ==> ScannedText(old(fd.stream), k) == ScannedText(here, k - l)
        invariant next == RECV_NODATA ==> ScannedText(old(fd.stream), k) == temp[..n]
        decreases |here|
      {
        if l == k {
          return;
        }
        ScanGoesOn(here, k - l);
        l := l + 1;
        here := fd.stream;
        next := Readline(fd, temp);
        n := if next == RECV_NODATA then n else next;
      }
    }

    /** Opening the file and scanning it, into a buffer of its own. */
    method ReadLineOf(k: nat) returns (temp: array<char>, n: int)
      requires file.bytes != ""
      ensures fresh(temp) && 0 <= n < temp.Length && temp[n] == '\0'
      ensures temp[..n] == ScannedText(file.bytes, k)
    {
      var fd := new Source(file.bytes, []);
      temp := new char[ALEN];
      n := ScanTo(fd, temp, k);
    }

    /** The loop that turns the first slash of the buffered line into a blank. */
    static method BlankSlashInPlace(temp: array<char>, n: nat)
      requires n < temp.Length
      modifies temp
      ensures temp[..n] == BlankFirstSlash(old(temp[..n]))
    {
      var i := 0;
      while i < n && temp[i] != '/'
        invariant 0 <= i <= n
        invariant forall j :: 0 <= j < i ==> temp[j] != '/'
      {
        i := i + 1;
      }
      StretchIs(temp[..n], '/', i);
      if i < n {
        temp[i] := ' ';
      }
    }

    /** The check at the start of readMessageFromFile, before it waits for anything. */
    method IsMessageNumberValid(k: int) returns (valid: bool)
      ensures valid <==> 0 <= k < messageNumber
    {
      valid := k < messageNumber && k >= 0;
    }

    /**
     readMessageFromFile from the moment its wait is over; the lock is left as it was found. The number has been checked
     before the wait, so that the file may have lost its line since. `None` stands for an answer made of whatever is in
     the buffer, when the file has lost all its lines.
     */
    method ReadMessage(k: int, isMessageNumberValid: bool, accessible: bool) returns (reply: Option<string>)
      requires !ReaderBlocked(lock.View())
      requires isMessageNumberValid ==> k >= 0
      modifies lock
      ensures reply.None? <==> isMessageNumberValid && accessible && file.bytes == ""
      ensures reply.Some? ==> reply.value == ReadReply(file.bytes, k, isMessageNumberValid, accessible)
      ensures lock.View() == old(lock.View()) && lock.record == old(lock.record)
    {
      if !isMessageNumberValid {
        var info := Snprintf(255, FormatInt(k) + " " + "The given message-number does not exist.");
        return Some(SocketMessage("2.1", "UNKNOWN", info));
      }
      if !accessible {
        return Some(SocketMessage("2.2", "ERROR READ", "bbfile currently unavailable"));
      }
      var entered := lock.TryEnterAsReader();
      if file.bytes == "" {
        var broadcast := lock.LeaveAsReader();
        return None;
      }
      var temp, n := ReadLineOf(k);
      var broadcast := lock.LeaveAsReader();
      BlankSlashInPlace(temp, n);
      reply := Some(SocketMessage("2.0", "MESSAGE", temp[..n]));
    }

    /** std::count. */
    static method CountSlashes(s: string) returns (n: nat)
      ensures n == 1 <==> Stretch(s, '/') < |s| && '/' !in s[Stretch(s, '/') + 1..]
    {
      n := 0;
      for i := 0 to |s|
        invariant n == 0 ==> '/' !in s[..i]
        invariant n == 1 ==> Stretch(s, '/') < i && s[Stretch(s, '/')] == '/' && '/' !in s[Stretch(s, '/') + 1..i]
        invariant n >= 2 ==> Stretch(s, '/') < |s| && '/' in s[Stretch(s, '/') + 1..]
      {
        if s[i] == '/' {
          if n == 0 {
            StretchIs(s, '/', i);
          } else if n == 1 {
            assert s[Stretch(s, '/') + 1..][i - Stretch(s, '/') - 1] == '/';
          }
          n := n + 1;
        }
      }
    }

    /** areReplaceArgumentsValid. */
    method AreReplaceArgumentsValid(argument: string) returns (v: Validity)
      ensures v.Valid? <==> WellFormedArgument(argument) && ArgumentNumber(argument) <= INT_MAX
                            && ArgumentNumber(argument) < messageNumber
      ensures v.Thrown? <==> WellFormedArgument(argument) && ArgumentNumber(argument) > INT_MAX
      ensures v.Invalid? ==> v.reply == Refusal(argument)
      ensures v.Valid? ==> ReplaceArguments(argument)
                           == Some((ArgumentNumber(argument), argument[Stretch(argument, '/') + 1..]))
    {
      if WellFormedArgument(argument) {
        TokensOfArgument(argument);
        StoiOfDigits(argument[..Stretch(argument, '/')]);
      }
      if !(WellFormedArgument(argument) && ArgumentNumber(argument) > INT_MAX) {
        RefusalAsMessage(argument);
      }
      var replaceArguments := Tokenize(argument, '/');
      var slashes := CountSlashes(argument);
      var isNumber := false;
      if |replaceArguments| == 2 {
        isNumber := IsNumber(replaceArguments[0]);
      }
      if |replaceArguments| != 2 || !isNumber || replaceArguments[1] == "" || slashes != 1 {
        return Invalid(CreateMessage("3.2", "ERROR WRITE",
            "Incorrect format. Argument must be of the form msgNum/message.", true));
      }
      ArgumentOfTokens(argument);
      StoiOfDigits(replaceArguments[0]);
      match Stoi(replaceArguments[0]) {
        case None => return Thrown;
        case Some(k) =>
          if k >= messageNumber {
            return Invalid(CreateMessage("3.1", "UNKNOWN", FormatInt(k), true));
          }
          return Valid;
      }
    }
  }
}
