/** The two stores of a request body, in memory and in a file, and why callers cannot tell them apart. */
module BodyStorage {
  import opened Basics

  datatype Whence = FromStart | FromCurrent | FromEnd

  datatype Op = Read(n: nat) | Seek(offset: int, whence: Whence) | Bytes | Close

  datatype Outcome =
    | Data(bytes: seq<Byte>)
    | EndOfFile
    | Moved(pos: nat)
    | Content(bytes: seq<Byte>)
    | Done
    | ClosedError
    | SeekError
    | DeviceError

  /** What a caller can observe of a store. */
  datatype Body = Body(data: seq<Byte>, pos: nat, closed: bool)

  function Target(b: Body, offset: int, whence: Whence): int {
    match whence
    case FromStart => offset
    case FromCurrent => b.pos + offset
    case FromEnd => |b.data| + offset
  }

  /** The bytes that a read of `n` bytes returns. */
  function Chunk(data: seq<Byte>, pos: nat, n: nat): seq<Byte> {
    if pos >= |data| then [] else if pos + n <= |data| then data[pos..pos + n] else data[pos..]
  }

  /** `emptyAtEnd` is the answer to an empty read at the end, the only one that depends on the store. */
  function Answer(b: Body, op: Op, emptyAtEnd: Outcome): Outcome {
    match op
    case Read(n) =>
      if b.closed then ClosedError
      else if b.pos < |b.data| then Data(Chunk(b.data, b.pos, n))
      else if n == 0 then emptyAtEnd
      else EndOfFile
    case Seek(offset, whence) =>
      if b.closed then ClosedError
      else if Target(b, offset, whence) < 0 then SeekError
      else Moved(Target(b, offset, whence))
    case Bytes => if b.closed then ClosedError else Content(b.data)
    case Close => Done
  }

  function After(b: Body, op: Op): Body {
    match op
    case Read(n) => if b.closed then b else b.(pos := b.pos + |Chunk(b.data, b.pos, n)|)
    case Seek(offset, whence) =>
      if b.closed || Target(b, offset, whence) < 0 then b else b.(pos := Target(b, offset, whence))
    case Bytes => b
    case Close => b.(closed := true)
  }

  /** bytes.Reader reports the end of the data even to an empty read, os.File does not. */
  function MemoryAnswer(b: Body, op: Op): Outcome { Answer(b, op, EndOfFile) }

  function DiskAnswer(b: Body, op: Op): Outcome { Answer(b, op, Data([])) }

  // ---------------------------------------------------------------- the stores

  /** A bytes.Reader over a slice that is not copied. */
  class MemoryStorage {
    const slice: array<Byte>
    const size: nat
    var pos: nat
    var closed: bool

    ghost predicate Valid() reads this { size == slice.Length }

    ghost function Abstract(): Body reads this, slice { Body(slice[..], pos, closed) }

    constructor (slice: array<Byte>)
      ensures this.slice == slice && Valid() && Abstract() == Body(slice[..], 0, false)
    {
      this.slice := slice;
      size := slice.Length;
      pos := 0;
      closed := false;
    }

    method Read(n: nat) returns (r: Outcome)
      modifies this`pos
      ensures r == MemoryAnswer(old(Abstract()), Op.Read(n)) && Abstract() == After(old(Abstract()), Op.Read(n))
    {
      if closed {
        return ClosedError;
      }
      if pos >= slice.Length {
        return EndOfFile;
      }
      var end := if pos + n <= slice.Length then pos + n else slice.Length;
      assert slice[pos..end] == slice[..][pos..end];
      r := Data(slice[pos..end]);
      pos := end;
    }

    method Seek(offset: int, whence: Whence) returns (r: Outcome)
      modifies this`pos
      ensures r == MemoryAnswer(old(Abstract()), Op.Seek(offset, whence))
      ensures Abstract() == After(old(Abstract()), Op.Seek(offset, whence))
    {
      if closed {
        return ClosedError;
      }
      var abs := match whence
        case FromStart => offset
        case FromCurrent => pos + offset
        case FromEnd => slice.Length + offset;
      if abs < 0 {
        return SeekError;
      }
      pos := abs;
      r := Moved(abs);
    }

    /** The caller gets the stored slice itself, so writing to it changes the body. */
    method Bytes() returns (r: Outcome, shared: array?<Byte>)
      ensures r == MemoryAnswer(Abstract(), Op.Bytes) && shared == if closed then null else slice
    {
      if closed {
        return ClosedError, null;
      }
      r, shared := Content(slice[..]), slice;
    }

    /** `first` says that this call closed the store, so that its size leaves the usage counters. */
    method Close() returns (first: bool)
      modifies this`closed
      ensures first == !old(closed) && Abstract() == After(old(Abstract()), Op.Close)
    {
      first := !closed;
      closed := true;
    }
  }

  /** A slice with the given bytes. */
  method NewSlice(bytes: seq<Byte>) returns (slice: array<Byte>)
    ensures fresh(slice) && slice[..] == bytes
  {
    slice := new Byte[|bytes|](i requires 0 <= i < |bytes| => bytes[i]);
  }

  /** An open operating-system file. */
  class File {
    var content: seq<Byte>
    var pos: nat

    constructor ()
      ensures content == [] && pos == 0
    {
      content, pos := [], 0;
    }

    method Write(bytes: seq<Byte>)
      modifies this
      requires pos == |content|
      ensures content == old(content) + bytes && pos == |content|
    {
      content := content + bytes;
      pos := |content|;
    }

    method Read(n: nat) returns (r: Outcome)
      modifies this`pos
      ensures r == if n > 0 && old(pos) >= |content| then EndOfFile else Data(Chunk(content, old(pos), n))
      ensures pos == old(pos) + |Chunk(content, old(pos), n)|
    {
      if n == 0 {
        return Data([]);
      }
      if pos >= |content| {
        return EndOfFile;
      }
      var end := if pos + n <= |content| then pos + n else |content|;
      r := Data(content[pos..end]);
      pos := end;
    }

    method Seek(offset: int, whence: Whence) returns (r: Outcome)
      modifies this`pos
      ensures var target := Target(Body(content, old(pos), false), offset, whence);
        && r == (if target < 0 then SeekError else Moved(target))
        && pos == (if target < 0 then old(pos) else target)
    {
      var abs := match whence
        case FromStart => offset
        case FromCurrent => pos + offset
        case FromEnd => |content| + offset;
      if abs < 0 {
        return SeekError;
      }
      pos := abs;
      r := Moved(abs);
    }
  }

  /** Which of the four file operations of reading everything the device refuses. */
  datatype Fault = NoFault | NoPosition | NoRewind | NoRead(got: nat) | NoReturn

  /** Where the file stands after a refused operation; an empty file needs no reading. */
  function Stranded(fault: Fault, size: nat, pos: nat): nat {
    match fault
    case NoRead(got) => if size == 0 then pos else if got < size then got else size - 1
    case NoReturn => size
    case _ => pos
  }

  predicate Refused(fault: Fault, size: nat) {
    !fault.NoFault? && (fault.NoRead? ==> size > 0)
  }

  class DiskStorage {
    const file: File
    const size: nat
    var closed: bool

    ghost predicate Valid() reads this, file { size == |file.content| }

    ghost function Abstract(): Body reads this, file { Body(file.content, file.pos, closed) }

    constructor (data: seq<Byte>, file: File)
      requires file.content == [] && file.pos == 0
      modifies file
      ensures Valid() && this.file == file && Abstract() == Body(data, 0, false)
    {
      this.file := file;
      size := |data|;
      closed := false;
      new;
      file.Write(data);
      var r := file.Seek(0, FromStart);
    }

    method Read(n: nat) returns (r: Outcome)
      requires Valid()
      modifies file`pos
      ensures Valid()
      ensures r == DiskAnswer(old(Abstract()), Op.Read(n)) && Abstract() == After(old(Abstract()), Op.Read(n))
    {
      if closed {
        return ClosedError;
      }
      r := file.Read(n);
    }

    method Seek(offset: int, whence: Whence) returns (r: Outcome)
      requires Valid()
      modifies file`pos
      ensures Valid() && r == DiskAnswer(old(Abstract()), Op.Seek(offset, whence))
      ensures Abstract() == After(old(Abstract()), Op.Seek(offset, whence))
    {
      if closed {
        return ClosedError;
      }
      r := file.Seek(offset, whence);
    }

    /** Moves to the start, reads everything and moves back; a refused operation is reported and leaves the
        file where it stands. */
    method Bytes(fault: Fault) returns (r: Outcome)
      requires Valid()
      modifies file`pos
      ensures Valid() && file.content == old(file.content)
      ensures closed || !Refused(fault, size) ==>
        r == DiskAnswer(old(Abstract()), Op.Bytes) && Abstract() == old(Abstract())
      ensures !closed && Refused(fault, size) ==>
        r == DeviceError && Abstract() == old(Abstract()).(pos := Stranded(fault, size, old(file.pos)))
    {
      if closed {
        return ClosedError;
      }
      if fault.NoPosition? {
        return DeviceError;
      }
      var current := file.Seek(0, FromCurrent);
      if fault.NoRewind? {
        return DeviceError;
      }
      var start := file.Seek(0, FromStart);
      if fault.NoRead? && size > 0 {
        var part := file.Read(if fault.got < size then fault.got else size - 1);
        return DeviceError;
      }
      var all := file.Read(size);
      assert file.content[0..|file.content|] == file.content;
      if fault.NoReturn? {
        return DeviceError;
      }
      var back := file.Seek(current.pos, FromStart);
      r := Content(all.bytes);
    }

    method Close() returns (first: bool)
      requires Valid()
      modifies this`closed
      ensures Valid() && first == !old(closed) && Abstract() == After(old(Abstract()), Op.Close)
    {
      first := !closed;
      closed := true;
    }
  }

  // ---------------------------------------------------------------- the same to every caller

  function RunOps(b: Body, ops: seq<Op>): Body {
    if ops == [] then b else After(RunOps(b, ops[..|ops| - 1]), ops[|ops| - 1])
  }

  function MemoryAnswers(b: Body, ops: seq<Op>): seq<Outcome> {
    if ops == [] then []
    else MemoryAnswers(b, ops[..|ops| - 1]) + [MemoryAnswer(RunOps(b, ops[..|ops| - 1]), ops[|ops| - 1])]
  }

  function DiskAnswers(b: Body, ops: seq<Op>): seq<Outcome> {
    if ops == [] then []
    else DiskAnswers(b, ops[..|ops| - 1]) + [DiskAnswer(RunOps(b, ops[..|ops| - 1]), ops[|ops| - 1])]
  }

  /** The operation reads nothing at the end of an open store. */
  predicate EmptyReadAtEnd(b: Body, op: Op) {
    op == Op.Read(0) && !b.closed && b.pos >= |b.data|
  }

  /** Both stores give the same answers to a sequence of operations exactly when none of them is an
      empty read at the end. */
  lemma {:induction false} SameAnswersIff(b: Body, ops: seq<Op>)
    ensures MemoryAnswers(b, ops) == DiskAnswers(b, ops) <==> NoneAtEnd(b, ops)
  {
    if ops != [] {
      var n := |ops| - 1;
      var rest := ops[..n];
      SameAnswersIff(b, rest);
      LastDiffers(MemoryAnswers(b, rest), MemoryAnswer(RunOps(b, rest), ops[n]),
                  DiskAnswers(b, rest), DiskAnswer(RunOps(b, rest), ops[n]));
      AnswerDiffersIff(RunOps(b, rest), ops[n]);
      NoneAtEndMore(b, ops);
    }
  }

  /** No operation of the run is an empty read at the end. */
  ghost predicate NoneAtEnd(b: Body, ops: seq<Op>) {
    forall i | 0 <= i < |ops| :: !EmptyReadAtEnd(RunOps(b, ops[..i]), ops[i])
  }

  lemma NoneAtEndMore(b: Body, ops: seq<Op>)
    requires ops != []
    ensures var n := |ops| - 1;
      NoneAtEnd(b, ops) <==> NoneAtEnd(b, ops[..n]) && !EmptyReadAtEnd(RunOps(b, ops[..n]), ops[n])
  {
    var n := |ops| - 1;
    var rest := ops[..n];
    assert forall i | 0 <= i < n :: ops[..i] == rest[..i] && ops[i] == rest[i];
    if NoneAtEnd(b, ops) {
      forall i | 0 <= i < n ensures !EmptyReadAtEnd(RunOps(b, rest[..i]), rest[i]) {
        assert !EmptyReadAtEnd(RunOps(b, ops[..i]), ops[i]);
      }
    }
  }

  lemma AnswerDiffersIff(b: Body, op: Op)
    ensures MemoryAnswer(b, op) == DiskAnswer(b, op) <==> !EmptyReadAtEnd(b, op)
  {
  }

  lemma LastDiffers(m: seq<Outcome>, x: Outcome, d: seq<Outcome>, y: Outcome)
    ensures m + [x] == d + [y] <==> m == d && x == y
  {
    if m + [x] == d + [y] {
      assert m == (m + [x])[..|m|] && d == (d + [y])[..|d|];
      assert (m + [x])[|m|] == x && (d + [y])[|d|] == y;
    }
  }

  /** In particular for every caller that never passes an empty buffer. */
  lemma NonEmptyReadsAgree(b: Body, ops: seq<Op>)
    requires forall i | 0 <= i < |ops| :: ops[i] != Op.Read(0)
    ensures MemoryAnswers(b, ops) == DiskAnswers(b, ops)
  {
    SameAnswersIff(b, ops);
  }

  method PerformOnMemory(m: MemoryStorage, op: Op) returns (r: Outcome)
    requires m.Valid()
    modifies m
    ensures m.Valid() && r == MemoryAnswer(old(m.Abstract()), op) && m.Abstract() == After(old(m.Abstract()), op)
  {
    match op {
      case Read(n) => r := m.Read(n);
      case Seek(offset, whence) => r := m.Seek(offset, whence);
      case Bytes => {
        var shared;
        r, shared := m.Bytes();
      }
      case Close => {
        var first := m.Close();
        r := Done;
      }
    }
  }

  method PerformOnDisk(d: DiskStorage, op: Op) returns (r: Outcome)
    requires d.Valid()
    modifies d, d.file
    ensures d.Valid() && r == DiskAnswer(old(d.Abstract()), op) && d.Abstract() == After(old(d.Abstract()), op)
  {
    match op {
      case Read(n) => r := d.Read(n);
      case Seek(offset, whence) => r := d.Seek(offset, whence);
      case Bytes => r := d.Bytes(NoFault);
      case Close => {
        var first := d.Close();
        r := Done;
      }
    }
  }

  /** Any sequence of operations on a memory store and on a disk store of the same data: the answers are
      the same exactly when none is an empty read at the end, and both stores end up the same. */
  method RunBothStores(data: seq<Byte>, ops: seq<Op>)
    returns (m: MemoryStorage, d: DiskStorage, memoryLog: seq<Outcome>, diskLog: seq<Outcome>)
    ensures fresh(m) && fresh(m.slice) && fresh(d) && fresh(d.file)
    ensures m.Abstract() == d.Abstract() == RunOps(Body(data, 0, false), ops)
    ensures |memoryLog| == |diskLog| == |ops|
    ensures memoryLog == diskLog <==> NoneAtEnd(Body(data, 0, false), ops)
  {
    var slice := NewSlice(data);
    m := new MemoryStorage(slice);
    var file := new File();
    d := new DiskStorage(data, file);
    ghost var start := Body(data, 0, false);
    memoryLog, diskLog := [], [];
    for i := 0 to |ops|
      invariant fresh(m) && fresh(m.slice) && fresh(d) && fresh(d.file) && m.Valid() && d.Valid()
      invariant m.Abstract() == d.Abstract() == RunOps(start, ops[..i])
      invariant memoryLog == MemoryAnswers(start, ops[..i]) && diskLog == DiskAnswers(start, ops[..i])
      invariant |memoryLog| == |diskLog| == i
    {
      assert ops[..i + 1][..i] == ops[..i];
      var one := PerformOnMemory(m, ops[i]);
      var two := PerformOnDisk(d, ops[i]);
      memoryLog, diskLog := memoryLog + [one], diskLog + [two];
    }
    assert ops[..|ops|] == ops;
    SameAnswersIff(start, ops);
  }

  // ---------------------------------------------------------------- where a seek leads

  /** Of an open store: a seek from the start, the end or the current position says where it leads, refuses to
      go before the start, and a read then continues there. */
  lemma SeekLeads(b: Body, k: int, n: nat)
    requires !b.closed && k >= 0
    ensures k <= |b.data| ==>
      && MemoryAnswer(b, Op.Seek(k, FromStart)) == Moved(k)
      && MemoryAnswer(b, Op.Seek(-k, FromEnd)) == Moved(|b.data| - k)
      && (k + n <= |b.data| && k < |b.data| ==>
            MemoryAnswer(After(b, Op.Seek(k, FromStart)), Op.Read(n)) == Data(b.data[k..k + n]))
      && (0 < k <= n ==> MemoryAnswer(After(b, Op.Seek(-k, FromEnd)), Op.Read(n)) == Data(b.data[|b.data| - k..]))
    ensures MemoryAnswer(b, Op.Seek(k, FromCurrent)) == Moved(b.pos + k)
    ensures After(After(b, Op.Seek(k, FromCurrent)), Op.Seek(-k, FromCurrent)) == b
    ensures MemoryAnswer(b, Op.Seek(-k - b.pos - 1, FromCurrent)) == SeekError
      && After(b, Op.Seek(-k - b.pos - 1, FromCurrent)) == b
    ensures MemoryAnswer(b, Op.Seek(-k - 1, FromStart)) == SeekError
      && MemoryAnswer(b, Op.Seek(-k - |b.data| - 1, FromEnd)) == SeekError
  {
  }

  /** A closed store refuses everything but another close, and stays as it is; an open one gives all its data
      wherever it stands. */
  lemma ClosedRefuses(b: Body, op: Op)
    ensures b.closed ==> After(b, op) == b
    ensures b.closed && op != Close ==> MemoryAnswer(b, op) == DiskAnswer(b, op) == ClosedError
    ensures !b.closed ==> MemoryAnswer(b, Bytes) == DiskAnswer(b, Bytes) == Content(b.data)
    ensures After(b, op).data == b.data && (After(b, op).closed <==> b.closed || op == Close)
  {
  }

  // ---------------------------------------------------------------- retries read the whole body

  lemma {:induction false} RunKeepsData(b: Body, ops: seq<Op>)
    requires forall i | 0 <= i < |ops| :: ops[i] != Close
    ensures RunOps(b, ops).data == b.data && RunOps(b, ops).closed == b.closed
  {
    if ops != [] {
      var rest := ops[..|ops| - 1];
      assert forall i | 0 <= i < |rest| :: rest[i] == ops[i];
      RunKeepsData(b, rest);
    }
  }

  /** What a reader that asks for chunks of the given sizes gets in all. */
  function Drained(b: Body, sizes: seq<nat>): seq<Byte>
    decreases sizes
  {
    if sizes == [] then []
    else Chunk(b.data, b.pos, sizes[0]) + Drained(After(b, Op.Read(sizes[0])), sizes[1..])
  }

  function Total(sizes: seq<nat>): nat {
    if sizes == [] then 0 else sizes[0] + Total(sizes[1..])
  }

  lemma {:induction false} DrainedIsRest(b: Body, sizes: seq<nat>)
    requires !b.closed && b.pos <= |b.data|
    ensures Drained(b, sizes) == Chunk(b.data, b.pos, Total(sizes))
    decreases sizes
  {
    if sizes != [] {
      DrainedIsRest(After(b, Op.Read(sizes[0])), sizes[1..]);
    }
  }

  /** Whatever an earlier attempt did with the open store, after the rewind of the next attempt a
      reader that asks for enough bytes gets the whole body from its start. */
  lemma RetryReadsWholeBody(b: Body, ops: seq<Op>, sizes: seq<nat>)
    requires !b.closed && (forall i | 0 <= i < |ops| :: ops[i] != Close) && Total(sizes) >= |b.data|
    ensures Drained(After(RunOps(b, ops), Op.Seek(0, FromStart)), sizes) == b.data
  {
    RunKeepsData(b, ops);
    DrainedIsRest(After(RunOps(b, ops), Op.Seek(0, FromStart)), sizes);
    assert b.data[0..] == b.data;
  }
}
