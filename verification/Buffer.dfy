/**
 The byte buffer of Buffer.cpp: a vector with a read and a write index. What it means is the
 sequence of bytes between the two; `append` adds behind, `retrieve` takes from the front.
 */
module Buffer {
  import opened Basics

  const CHEAP_PREPEND: nat := 8
  const INITIAL_SIZE: nat := 1024
  const EXTRA: nat := 65536

  predicate CrlfAt(s: string, p: nat) { p + 1 < |s| && s[p] == '\r' && s[p + 1] == '\n' }

  lemma SliceOfPrefix(s: string, n: nat, lo: nat, hi: nat)
    requires lo <= hi <= n <= |s|
    ensures s[..n][lo..hi] == s[lo..hi]
  {
  }

  lemma JoinSlices(a: array<char>, lo: nat, mid: nat, hi: nat)
    requires lo <= mid <= hi <= a.Length
    ensures a[lo..hi] == a[lo..mid] + a[mid..hi]
  {
  }

  /** What a system call reports: an error, or the bytes that it moved. */
  datatype Read = ReadError(errno: int) | Received(bytes: string)
  datatype Written = WriteError(errno: int) | Sent(n: nat)

  class Buffer {
    var data: array<char>
    var readIndex: nat
    var writeIndex: nat

    ghost predicate Valid()
      reads this
    {
      CHEAP_PREPEND <= readIndex <= writeIndex <= data.Length
    }

    ghost function Contents(): (s: string)
      requires Valid()
      reads this, data
    {
      data[readIndex..writeIndex]
    }

    constructor (initialSize: nat)
      ensures Valid() && fresh(data) && Contents() == "" && data.Length == CHEAP_PREPEND + initialSize
    {
      data := new char[CHEAP_PREPEND + initialSize];
      readIndex, writeIndex := CHEAP_PREPEND, CHEAP_PREPEND;
    }

    function ReadableBytes(): (n: nat)
      requires Valid()
      reads this, data
      ensures n == |Contents()|
    {
      writeIndex - readIndex
    }

    function WritableBytes(): (n: nat)
      requires Valid()
      reads this
    {
      data.Length - writeIndex
    }

    method RetrieveAll()
      requires Valid()
      modifies this`readIndex, this`writeIndex
      ensures Valid() && Contents() == ""
    {
      readIndex, writeIndex := CHEAP_PREPEND, CHEAP_PREPEND;
    }

    /** `retrieve`: asking for more than there is empties the buffer. */
    method Retrieve(len: nat)
      requires Valid()
      modifies this`readIndex, this`writeIndex
      ensures Valid() && Contents() == old(Contents())[Min(len, |old(Contents())|)..]
    {
      if len < ReadableBytes() {
        readIndex := readIndex + len;
      } else {
        RetrieveAll();
      }
    }

    method RetrieveAsString(len: nat) returns (result: string)
      requires Valid()
      modifies this`readIndex, this`writeIndex
      ensures Valid() && old(Contents()) == result + Contents() && |result| == Min(len, |old(Contents())|)
    {
      var actualLen := Min(len, ReadableBytes());
      ghost var contents := Contents();
      assert contents == contents[..actualLen] + contents[actualLen..];
      result := data[readIndex..readIndex + actualLen];
      Retrieve(actualLen);
    }

    method RetrieveAllAsString() returns (result: string)
      requires Valid()
      modifies this`readIndex, this`writeIndex
      ensures Valid() && result == old(Contents()) && Contents() == ""
    {
      result := RetrieveAsString(ReadableBytes());
    }

    /** `resize` to a larger size. */
    method Grow(size: nat)
      requires Valid() && size >= data.Length
      modifies this`data
      ensures Valid() && fresh(data) && data.Length == size && data[..old(data.Length)] == old(data[..])
    {
      var bigger := new char[size];
      for i := 0 to data.Length
        invariant data == old(data) && data[..] == old(data[..]) && bigger[..i] == data[..i]
      {
        bigger[i] := data[i];
      }
      data := bigger;
    }

    /** The compaction: a forward copy, byte by byte, onto cells that may overlap the ones still to be copied. */
    method MoveForward()
      requires Valid()
      modifies this`readIndex, this`writeIndex, data
      ensures Valid() && readIndex == CHEAP_PREPEND && Contents() == old(Contents())
    {
      var readable := writeIndex - readIndex;
      ghost var contents := Contents();
      for i := 0 to readable
        invariant readIndex == old(readIndex) && writeIndex == old(writeIndex) && data == old(data)
        invariant forall k :: 0 <= k < i ==> data[CHEAP_PREPEND + k] == contents[k]
        invariant forall k :: i <= k < readable ==> data[readIndex + k] == contents[k]
      {
        assert data[readIndex + i] == contents[i];
        data[CHEAP_PREPEND + i] := data[readIndex + i];
      }
      readIndex := CHEAP_PREPEND;
      writeIndex := readIndex + readable;
    }

    /** `makeSpace`, called when there is too little room: bytes are only ever moved towards the front, by at least
        one. */
    method MakeSpace(len: nat)
      requires Valid() && WritableBytes() < len
      modifies this, data
      ensures Valid() && (fresh(data) || data == old(data))
      ensures Contents() == old(Contents()) && WritableBytes() >= len
      ensures if data == old(data) then readIndex == CHEAP_PREPEND < old(readIndex)
              else readIndex == old(readIndex) && data.Length == old(writeIndex) + len > old(data.Length)
    {
      if WritableBytes() + readIndex < len + CHEAP_PREPEND {
        ghost var n, was := data.Length, data[..];
        Grow(writeIndex + len);
        SliceOfPrefix(data[..], n, readIndex, writeIndex);
        assert data[..][..n] == was;
      } else {
        assert readIndex > CHEAP_PREPEND;
        MoveForward();
      }
    }

    method EnsureWritableBytes(len: nat)
      requires Valid()
      modifies this, data
      ensures Valid() && (fresh(data) || data == old(data))
      ensures Contents() == old(Contents()) && WritableBytes() >= len
    {
      if WritableBytes() < len {
        MakeSpace(len);
      }
    }

    /** `std::copy` to the write index; the index stays. */
    method CopyIn(bytes: string)
      requires Valid() && |bytes| <= WritableBytes()
      modifies data
      ensures Contents() == old(Contents()) && data[writeIndex..writeIndex + |bytes|] == bytes
    {
      for i := 0 to |bytes|
        invariant data[readIndex..writeIndex] == old(Contents())
        invariant forall k :: 0 <= k < i ==> data[writeIndex + k] == bytes[k]
      {
        data[writeIndex + i] := bytes[i];
      }
    }

    method Append(bytes: string)
      requires Valid()
      modifies this, data
      ensures Valid() && (fresh(data) || data == old(data))
      ensures Contents() == old(Contents()) + bytes
    {
      EnsureWritableBytes(|bytes|);
      CopyIn(bytes);
      HasWritten(|bytes|);
    }

    /** `hasWritten` */
    method HasWritten(len: nat)
      requires Valid() && len <= WritableBytes()
      modifies this`writeIndex
      ensures Valid() && Contents() == old(Contents() + data[writeIndex..writeIndex + len])
    {
      JoinSlices(data, readIndex, writeIndex, writeIndex + len);
      writeIndex := writeIndex + len;
    }

    /** How much `readFd` offers to `readv`: the room in the vector and, if that is small, the block on the stack. */
    function Offered(): nat
      requires Valid()
      reads this
    {
      WritableBytes() + if WritableBytes() < EXTRA then EXTRA else 0
    }

    /** `readFd`: `r` is the outcome of `readv`, which fills the vector first. The bytes end up behind the contents
        whether they fit or spill into the stack block. */
    method ReadFd(r: Read) returns (n: int, savedErrno: int)
      requires Valid() && (r.Received? ==> |r.bytes| <= Offered())
      modifies this, data
      ensures Valid() && (fresh(data) || data == old(data))
      ensures r.ReadError? ==> n == -1 && savedErrno == r.errno && Contents() == old(Contents())
      ensures r.Received? ==> n == |r.bytes| && Contents() == old(Contents()) + r.bytes
    {
      savedErrno := 0;
      var writable := WritableBytes();
      match r {
        case ReadError(errno) =>
          n, savedErrno := -1, errno;
        case Received(bytes) =>
          n := |bytes|;
          var inPlace := Min(n, writable);
          CopyIn(bytes[..inPlace]);
          AdvanceOrSpill(bytes, inPlace);
      }
    }

    /** The part of `readFd` after the system call: the first `inPlace` bytes are in the vector, the others in the
        stack block. */
    method AdvanceOrSpill(bytes: string, inPlace: nat)
      requires Valid() && inPlace == Min(|bytes|, WritableBytes())
      requires data[writeIndex..writeIndex + inPlace] == bytes[..inPlace]
      modifies this, data
      ensures Valid() && (fresh(data) || data == old(data))
      ensures Contents() == old(Contents()) + bytes
    {
      assert data[readIndex..writeIndex + inPlace] == Contents() + bytes[..inPlace];
      if |bytes| <= WritableBytes() {
        writeIndex := writeIndex + |bytes|;
      } else {
        writeIndex := data.Length;
        assert bytes == bytes[..inPlace] + bytes[inPlace..];
        Append(bytes[inPlace..]);
      }
    }

    /** `writeFd`: `w` is the outcome of `write`. What was written, and only that, leaves the buffer. */
    method WriteFd(w: Written) returns (n: int, savedErrno: int)
      requires Valid() && (w.Sent? ==> w.n <= |Contents()|)
      modifies this`readIndex, this`writeIndex
      ensures Valid()
      ensures w.WriteError? ==> n == -1 && savedErrno == w.errno && Contents() == old(Contents())
      ensures w.Sent? ==> n == w.n && Contents() == old(Contents())[w.n..]
    {
      savedErrno := 0;
      match w {
        case WriteError(errno) =>
          n, savedErrno := -1, errno;
        case Sent(k) =>
          n := k;
          Retrieve(k);
      }
    }

    /** `findCRLF`: the first line end in the contents, if there is one. */
    method FindCRLF() returns (found: bool, at: nat)
      requires Valid()
      ensures found ==> CrlfAt(Contents(), at) && forall p :: 0 <= p < at ==> !CrlfAt(Contents(), p)
      ensures !found ==> forall p :: 0 <= p ==> !CrlfAt(Contents(), p)
    {
      at := 0;
      while at + 1 < ReadableBytes()
        invariant forall p :: 0 <= p < at ==> !CrlfAt(Contents(), p)
      {
        if data[readIndex + at] == '\r' && data[readIndex + at + 1] == '\n' {
          return true, at;
        }
        at := at + 1;
      }
      found := false;
    }
  }

  /** A use of the buffer, as its callers see it. */
  datatype Op = Put(bytes: string) | Take(len: nat)

  /** What a run of uses has taken out, and what it leaves: the contracts of `Append` and `RetrieveAsString`,
      repeated. */
  function Run(ops: seq<Op>): (r: (string, string)) {
    if ops == [] then ("", "")
    else
      var (taken, left) := Run(ops[..|ops| - 1]);
      match ops[|ops| - 1]
      case Put(bytes) => (taken, left + bytes)
      case Take(len) => var k := Min(len, |left|); (taken + left[..k], left[k..])
  }

  function AllPut(ops: seq<Op>): string {
    if ops == [] then ""
    else AllPut(ops[..|ops| - 1]) + match ops[|ops| - 1] case Put(bytes) => bytes case Take(_) => ""
  }

  /** First in, first out: what has been taken, followed by what is left, is everything that was put, in order. */
  lemma {:induction false} FirstInFirstOut(ops: seq<Op>)
    ensures Run(ops).0 + Run(ops).1 == AllPut(ops)
  {
    if ops != [] {
      FirstInFirstOut(ops[..|ops| - 1]);
      var (taken, left) := Run(ops[..|ops| - 1]);
      match ops[|ops| - 1] {
        case Put(bytes) => assert taken + (left + bytes) == (taken + left) + bytes;
        case Take(len) =>
          var k := Min(len, |left|);
          assert (taken + left[..k]) + left[k..] == taken + left;
      }
    }
  }

  /** A run of uses on a buffer delivers and leaves what `Run` says. */
  method Execute(b: Buffer, ops: seq<Op>) returns (taken: string)
    requires b.Valid() && b.Contents() == ""
    modifies b, b.data
    ensures b.Valid() && (taken, b.Contents()) == Run(ops) && taken + b.Contents() == AllPut(ops)
  {
    taken := "";
    for i := 0 to |ops|
      invariant b.Valid() && (fresh(b.data) || b.data == old(b.data)) && (taken, b.Contents()) == Run(ops[..i])
    {
      assert ops[..i + 1][..i] == ops[..i];
      match ops[i] {
        case Put(bytes) => b.Append(bytes);
        case Take(len) =>
          var s := b.RetrieveAsString(len);
          taken := taken + s;
      }
    }
    assert ops[..|ops|] == ops;
    FirstInFirstOut(ops);
  }
}
