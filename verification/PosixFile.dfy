/** A regular file and the descriptors open on it: several descriptors may share one file, each with its own offset. */
module PosixFile {

  function Zeros(n: nat): (s: string)
    ensures |s| == n && forall i :: 0 <= i < n ==> s[i] == '\0'
  {
    seq(n, _ => '\0')
  }

  /** Writing `data` at `offset`; a gap between the end of the file and the offset reads as zeros. */
  function Overwrite(bytes: string, offset: nat, data: string): (r: string)
    ensures data == "" ==> r == bytes
    ensures data != "" ==> |r| == if offset + |data| > |bytes| then offset + |data| else |bytes|
  {
    if data == "" then bytes
    else
      var padded := if offset <= |bytes| then bytes else bytes + Zeros(offset - |bytes|);
      padded[..offset] + data + (if offset + |data| <= |bytes| then bytes[offset + |data|..] else "")
  }

  /** Where the byte at `j` comes from. */
  function WrittenByte(bytes: string, offset: nat, data: string, j: nat): char {
    if offset <= j < offset + |data| then data[j - offset]
    else if j < |bytes| then bytes[j]
    else '\0'
  }

  lemma OverwriteBytewise(bytes: string, offset: nat, data: string)
    requires data != ""
    ensures forall j :: 0 <= j < |Overwrite(bytes, offset, data)|
              ==> Overwrite(bytes, offset, data)[j] == WrittenByte(bytes, offset, data, j)
  {
  }

  lemma OverwriteAtEnd(bytes: string, data: string)
    ensures Overwrite(bytes, |bytes|, data) == bytes + data
  {
  }

  class File {
    var bytes: string

    constructor (bytes: string)
      ensures this.bytes == bytes
    {
      this.bytes := bytes;
    }
  }

  class Descriptor {
    const file: File
    var offset: nat

    constructor (file: File)
      ensures this.file == file && offset == 0
    {
      this.file := file;
      offset := 0;
    }

    /** read(fd, buf, 1) into a zeroed buffer: the byte at the offset, or '\0' without advancing at the end. */
    method Read() returns (c: char)
      modifies this
      ensures old(offset) < |file.bytes| ==> c == file.bytes[old(offset)] && offset == old(offset) + 1
      ensures old(offset) >= |file.bytes| ==> c == '\0' && offset == old(offset)
    {
      if offset < |file.bytes| {
        c := file.bytes[offset];
        offset := offset + 1;
      } else {
        c := '\0';
      }
    }

    method Write(data: string)
      modifies this, file
      ensures file.bytes == Overwrite(old(file.bytes), old(offset), data)
      ensures offset == old(offset) + |data|
    {
      file.bytes := Overwrite(file.bytes, offset, data);
      offset := offset + |data|;
    }

    /** lseek relative to `base`; a negative target fails with -1 and leaves the offset alone. */
    method SeekFrom(base: nat, delta: int) returns (position: int)
      modifies this
      ensures base + delta >= 0 ==> position == offset == base + delta
      ensures base + delta < 0 ==> position == -1 && offset == old(offset)
    {
      if base + delta >= 0 {
        offset := base + delta;
        position := offset;
      } else {
        position := -1;
      }
    }

    method Seek(position: nat)
      modifies this
      ensures offset == position
    {
      offset := position;
    }

    /** ftruncate to a size not beyond the end. */
    method Truncate(size: nat)
      requires size <= |file.bytes|
      modifies file
      ensures file.bytes == old(file.bytes)[..size]
    {
      file.bytes := file.bytes[..size];
    }
  }
}
