/** The two places where the content of an open file may be kept, and the byte string both of them are. */
module Storages {
  import opened Bytes

  // ---- specification ----

  /** Up to `size` bytes from `offset`; nothing beyond the end. */
  function ReadAt(c: Content, size: nat, offset: nat): Content {
    if offset > |c| then [] else c[offset..Min(offset + size, |c|)]
  }

  /** `buf` laid over the content at `offset`, any gap filled with zero bytes. */
  function WriteAt(c: Content, buf: Content, offset: nat): (r: Content)
    ensures |r| == Max(|c|, offset + |buf|)
  {
    var base := if offset + |buf| > |c| then Resize(c, offset + |buf|) else c;
    base[..offset] + buf + base[offset + |buf|..]
  }

  /** What a read answers, byte by byte: as much as there is, in order. */
  lemma ReadAtBytes(c: Content, size: nat, offset: nat)
    ensures |ReadAt(c, size, offset)| == Max(0, Min(size, |c| - offset))
    ensures forall j :: 0 <= j < |ReadAt(c, size, offset)| ==> ReadAt(c, size, offset)[j] == c[offset + j]
  {
  }

  /** What is within the new size is read as before a truncation. */
  lemma KeptIsRead(c: Content, n: nat, size: nat, offset: nat)
    requires offset + size <= n
    ensures ReadAt(c, size, offset) <= ReadAt(Resize(c, n), size, offset)
    ensures offset + size <= |c| ==> ReadAt(Resize(c, n), size, offset) == ReadAt(c, size, offset)
  {
    var kept, read := Resize(c, n), ReadAt(c, size, offset);
    ReadAtBytes(c, size, offset);
    ReadAtBytes(kept, size, offset);
    assert |read| <= |ReadAt(kept, size, offset)|;
    assert ReadAt(kept, size, offset)[..|read|] == read;
  }

  /** Each byte of the result comes from the buffer, from the old content, or is zero. */
  lemma WriteAtByte(c: Content, buf: Content, offset: nat, j: nat)
    requires j < |WriteAt(c, buf, offset)|
    ensures WriteAt(c, buf, offset)[j] ==
            if offset <= j < offset + |buf| then buf[j - offset]
            else if j < |c| then c[j]
            else 0
  {
  }

  lemma ReadBackWritten(c: Content, buf: Content, offset: nat)
    ensures ReadAt(WriteAt(c, buf, offset), |buf|, offset) == buf
  {
  }

  /** The range of offsets and sizes the machine integers of the source can express without overflow. */
  predicate InRange(offset: nat, size: nat) {
    offset + size < 0x8000_0000_0000_0000
  }

  datatype StorageOp =
    | Read(size: nat, offset: nat)
    | Write(buf: Content, offset: nat)
    | Append(buf: Content)
    | Truncate(size: nat)
    | Size
    | IsEmpty
    | ReadFully
    | Reset  // clear, then open again

  predicate Expressible(op: StorageOp) {
    && (op.Read? ==> InRange(op.offset, op.size))
    && (op.Write? ==> InRange(op.offset, |op.buf|))
  }

  /** Not an empty write beyond the end, the one call the storages treat differently, and not a full read of
      nothing, which takes the front of an empty vector. */
  predicate Agreed(c: Content, op: StorageOp) {
    && (op.Write? ==> op.buf != [] || op.offset <= |c|)
    && (op.ReadFully? ==> c != [])
  }

  datatype StorageReply = Data(bytes: Content, count: int) | Text(bytes: Content) | Flag(b: bool) | Count(n: int) | Done

  function NextContent(c: Content, op: StorageOp): Content {
    match op
    case Write(buf, offset) => WriteAt(c, buf, offset)
    case Append(buf) => c + buf
    case Truncate(n) => Resize(c, n)
    case Reset => []
    case _ => c
  }

  /** What a call answers; counts go through a 32-bit `int`. */
  function StorageAnswer(c: Content, op: StorageOp): StorageReply {
    match op
    case Read(size, offset) => var b := ReadAt(c, size, offset); Data(b, Int32(|b|))
    case Write(buf, offset) => Count(Int32(|buf|))
    case Size => Count(|c|)
    case IsEmpty => Flag(c == [])
    case ReadFully => Text(c)
    case _ => Done
  }

  // ---- in memory ----

  class MemoryStorage {
    var data: Content

    constructor ()
      ensures data == []
    {
      data := [];
    }

    method Read(size: nat, offset: nat) returns (buf: Content, count: int)
      requires InRange(offset, size)
      ensures buf == ReadAt(data, size, offset) && count == Int32(|buf|)
      ensures |buf| == Max(0, Min(size, |data| - offset))
      ensures forall j :: 0 <= j < |buf| ==> buf[j] == data[offset + j]
    {
      var len := |data|;
      if offset > len {
        return [], 0;
      }
      if offset + size > len {
        buf := data[offset..];
        return buf, Int32(len - offset);
      }
      buf := data[offset..offset + size];
      count := Int32(size);
    }

    method Write(buf: Content, offset: nat) returns (count: int)
      requires InRange(offset, |buf|)
      modifies this
      ensures data == WriteAt(old(data), buf, offset) && count == Int32(|buf|)
    {
      if offset + |buf| > |data| {
        data := Resize(data, offset + |buf|);
      }
      data := data[..offset] + buf + data[offset + |buf|..];
      count := Int32(|buf|);
    }

    method Append(buf: Content)
      modifies this
      ensures data == old(data) + buf
    {
      data := data + buf;
    }

    method Truncate(size: nat)
      modifies this
      ensures data == Resize(old(data), size) && |data| == size
      ensures forall j :: 0 <= j < size ==> data[j] == if j < |old(data)| then old(data)[j] else 0
    {
      data := Resize(data, size);
    }

    method Clear()
      modifies this
      ensures data == []
    {
      data := [];
    }

    method Apply(op: StorageOp) returns (r: StorageReply)
      requires Expressible(op)
      modifies this
      ensures data == NextContent(old(data), op) && r == StorageAnswer(old(data), op)
    {
      match op
      case Read(size, offset) =>
        var b, n := Read(size, offset);
        r := Data(b, n);
      case Write(buf, offset) =>
        var n := Write(buf, offset);
        r := Count(n);
      case Append(buf) =>
        Append(buf);
        r := Done;
      case Truncate(n) =>
        Truncate(n);
        r := Done;
      case Size =>
        r := Count(|data|);
      case IsEmpty =>
        r := Flag(|data| == 0);
      case ReadFully =>
        r := Text(data);
      case Reset =>
        Clear();
        r := Done;
    }
  }

  // ---- in a temporary file ----

  /** What an output stream does at position `pos`: writing nothing leaves the file as it is. */
  function StreamWrite(file: Content, buf: Content, pos: nat): Content {
    if buf == [] then file
    else if pos <= |file| then
      file[..pos] + buf + (if pos + |buf| <= |file| then file[pos + |buf|..] else [])
    else file + Zeros(pos - |file|) + buf
  }

  /** The storages agree on a write exactly when it is not an empty one beyond the end. */
  lemma WritesAgreeIff(c: Content, buf: Content, offset: nat)
    ensures StreamWrite(c, buf, offset) == WriteAt(c, buf, offset) <==> buf != [] || offset <= |c|
  {
  }

  /** What a write makes of the content, be it kept on disk or in memory. */
  function Put(onDisk: bool, c: Content, buf: Content, offset: nat): (r: Content)
    ensures |c| <= |r| <= Max(|c|, offset + |buf|)
  {
    if onDisk then StreamWrite(c, buf, offset) else WriteAt(c, buf, offset)
  }

  /** Each byte after a write comes from the buffer, from the old content, or is zero, and the content is as long as
      it has to be; only on disk does an empty write beyond the end leave it as it is. */
  lemma PutBytes(onDisk: bool, c: Content, buf: Content, offset: nat)
    ensures |Put(onDisk, c, buf, offset)| == if onDisk && buf == [] then |c| else Max(|c|, offset + |buf|)
    ensures forall j :: 0 <= j < |Put(onDisk, c, buf, offset)| ==>
              Put(onDisk, c, buf, offset)[j] ==
              if offset <= j < offset + |buf| then buf[j - offset]
              else if j < |c| then c[j]
              else 0
  {
    WritesAgreeIff(c, buf, offset);
  }

  /** Whole turns do not matter to a truncation. */
  lemma TurnsCancel(n: int, turns: int)
    ensures Int32(n + turns * 0x1_0000_0000) == Int32(n)
  {
    var q, r := (n + 0x8000_0000) / 0x1_0000_0000, (n + 0x8000_0000) % 0x1_0000_0000;
    assert n + turns * 0x1_0000_0000 + 0x8000_0000 == (q + turns) * 0x1_0000_0000 + r;
  }

  lemma TurnsTaken(n: int) returns (turns: int)
    ensures Int32(n) == n + turns * 0x1_0000_0000
  {
    turns := -((n + 0x8000_0000) / 0x1_0000_0000);
  }

  /** The difference of two truncated stream positions, itself wrapped, is the truncated byte count. */
  lemma WrappedCount(offset: nat, size: nat)
    ensures Int32(Int32(offset + size) - Int32(offset)) == Int32(size)
  {
    var p := TurnsTaken(offset + size);
    var q := TurnsTaken(offset);
    hide Int32;
    assert Int32(offset + size) - Int32(offset) == size + (p - q) * 0x1_0000_0000;
    TurnsCancel(size, p - q);
  }

  class FileStorage {
    // the stream over the temporary file: its bytes, position and state flags
    var file: Content
    var pos: nat
    var isOpen: bool
    var eofbit: bool
    var failbit: bool

    constructor ()
      ensures !isOpen
    {
      file, pos, isOpen, eofbit, failbit := [], 0, false, false, false;
    }

    /** Open and ready for the next call. */
    ghost predicate Good()
      reads this
    {
      isOpen && !eofbit && !failbit
    }

    method Open()
      modifies this
      ensures Good() && file == []
    {
      file, pos, isOpen, eofbit, failbit := [], 0, true, false, false;
    }

    /** `seekg`: clears the end-of-file flag, does nothing on a failed stream. */
    method SeekG(offset: nat)
      modifies this`pos, this`eofbit
      ensures !eofbit && pos == if failbit then old(pos) else offset
    {
      eofbit := false;
      if !failbit {
        pos := offset;
      }
    }

    method SeekP(offset: nat)
      modifies this`pos
      ensures pos == if failbit then old(pos) else offset
    {
      if !failbit {
        pos := offset;
      }
    }

    /** Unformatted input: a short read raises both flags. */
    method ReadStream(size: nat) returns (buf: Content)
      requires Good()
      modifies this`pos, this`eofbit, this`failbit
      ensures buf == ReadAt(file, size, old(pos))
      ensures eofbit == failbit == (|buf| < size)
    {
      buf := if pos > |file| then [] else file[pos..Min(pos + size, |file|)];
      pos := pos + |buf|;
      if |buf| < size {
        eofbit, failbit := true, true;
      }
    }

    method WriteStream(buf: Content)
      requires Good()
      modifies this`file, this`pos
      ensures file == StreamWrite(old(file), buf, old(pos)) && pos == old(pos) + |buf|
    {
      file := StreamWrite(file, buf, pos);
      pos := pos + |buf|;
    }

    method Size() returns (n: nat)
      requires isOpen ==> Good()
      modifies this`pos, this`eofbit
      ensures n == if isOpen then |file| else 0
      ensures old(Good()) ==> Good()
    {
      if !isOpen {
        return 0;
      }
      SeekG(|file|);
      n := pos;
    }

    method Empty() returns (b: bool)
      requires isOpen ==> Good()
      modifies this`pos, this`eofbit
      ensures b == (!isOpen || file == [])
      ensures old(Good()) ==> Good()
    {
      if !isOpen {
        return true;
      }
      SeekG(|file|);
      b := pos == 0;
    }

    /** Everything from the start; the position ends up behind it. */
    method ReadFully() returns (buf: Content)
      requires Good()
      modifies this`pos, this`eofbit
      ensures Good() && buf == file
    {
      SeekG(0);
      buf := file[pos..];
      pos := |file|;
    }

    method Read(size: nat, offset: nat) returns (buf: Content, count: int)
      requires Good() && InRange(offset, size)
      modifies this`pos, this`eofbit, this`failbit
      ensures Good()
      ensures file == old(file) && buf == ReadAt(file, size, offset) && count == Int32(|buf|)
      ensures |buf| == Max(0, Min(size, |file| - offset))
      ensures forall j :: 0 <= j < |buf| ==> buf[j] == file[offset + j]
    {
      SeekG(offset);
      buf := ReadStream(size);
      if eofbit {
        eofbit, failbit := false, false;
      }
      count := Int32(|buf|);
    }

    method Write(buf: Content, offset: nat) returns (count: int)
      requires Good() && InRange(offset, |buf|)
      modifies this`file, this`pos
      ensures Good()
      ensures file == StreamWrite(old(file), buf, offset) && count == Int32(|buf|)
    {
      SeekP(offset);
      WriteStream(buf);
      WrappedCount(offset, |buf|);
      count := Int32(Int32(pos) - Int32(offset));
    }

    method Append(buf: Content)
      requires Good()
      modifies this`file, this`pos
      ensures Good() && file == old(file) + buf
    {
      SeekP(|file|);
      WriteStream(buf);
    }

    /** Closes, resizes the file on disk and opens it again without cutting it. */
    method Truncate(size: nat)
      requires Good()
      modifies this
      ensures Good() && file == Resize(old(file), size) && |file| == size
      ensures forall j :: 0 <= j < size ==> file[j] == if j < |old(file)| then old(file)[j] else 0
    {
      isOpen := false;
      file := Resize(file, size);
      pos, isOpen, eofbit, failbit := 0, true, false, false;
    }

    method Clear()
      modifies this
      ensures !isOpen && file == []
    {
      isOpen, file := false, [];
    }

    method Apply(op: StorageOp) returns (r: StorageReply)
      requires Good()
      requires Expressible(op) && Agreed(file, op)
      modifies this
      ensures Good()
      ensures file == NextContent(old(file), op) && r == StorageAnswer(old(file), op)
    {
      match op
      case Read(size, offset) =>
        var b, n := Read(size, offset);
        r := Data(b, n);
      case Write(buf, offset) =>
        WritesAgreeIff(file, buf, offset);
        var n := Write(buf, offset);
        r := Count(n);
      case Append(buf) =>
        Append(buf);
        r := Done;
      case Truncate(n) =>
        Truncate(n);
        r := Done;
      case Size =>
        var n := Size();
        r := Count(n);
      case IsEmpty =>
        var b := Empty();
        r := Flag(b);
      case ReadFully =>
        var b := ReadFully();
        r := Text(b);
      case Reset =>
        Clear();
        Open();
        r := Done;
    }
  }

  // ---- agreement over whole runs ----

  predicate RunOk(c: Content, ops: seq<StorageOp>)
    decreases |ops|
  {
    ops == [] || (Expressible(ops[0]) && Agreed(c, ops[0]) && RunOk(NextContent(c, ops[0]), ops[1..]))
  }

  function RunReplies(c: Content, ops: seq<StorageOp>): seq<StorageReply>
    decreases |ops|
  {
    if ops == [] then [] else [StorageAnswer(c, ops[0])] + RunReplies(NextContent(c, ops[0]), ops[1..])
  }

  function RunContent(c: Content, ops: seq<StorageOp>): Content
    decreases |ops|
  {
    if ops == [] then c else RunContent(NextContent(c, ops[0]), ops[1..])
  }

  lemma StorageRunStep(c: Content, ops: seq<StorageOp>)
    requires ops != [] && RunOk(c, ops)
    ensures Expressible(ops[0]) && Agreed(c, ops[0]) && RunOk(NextContent(c, ops[0]), ops[1..])
    ensures RunContent(c, ops) == RunContent(NextContent(c, ops[0]), ops[1..])
    ensures forall before: seq<StorageReply> ::
              before + RunReplies(c, ops)
              == before + [StorageAnswer(c, ops[0])] + RunReplies(NextContent(c, ops[0]), ops[1..])
  {
  }

  /** Either storage can stand in for the other: over every run both give the replies of the byte string. */
  method RunBoth(mem: MemoryStorage, fs: FileStorage, ops: seq<StorageOp>)
    returns (memReplies: seq<StorageReply>, fileReplies: seq<StorageReply>)
    requires fs.Good() && mem.data == fs.file && RunOk(mem.data, ops)
    modifies mem, fs
    ensures memReplies == fileReplies == RunReplies(old(mem.data), ops)
    ensures mem.data == fs.file == RunContent(old(mem.data), ops)
    ensures fs.Good()
  {
    memReplies, fileReplies := [], [];
    var rest := ops;
    while rest != []
      invariant fs.Good() && mem.data == fs.file && RunOk(mem.data, rest)
      invariant memReplies == fileReplies
      invariant memReplies + RunReplies(mem.data, rest) == RunReplies(old(mem.data), ops)
      invariant RunContent(mem.data, rest) == RunContent(old(mem.data), ops)
      decreases |rest|
    {
      StorageRunStep(mem.data, rest);
      var a := mem.Apply(rest[0]);
      var b := fs.Apply(rest[0]);
      memReplies, fileReplies := memReplies + [a], fileReplies + [b];
      rest := rest[1..];
    }
  }

  /** What one call has done the next one finds. */
  lemma StorageLaws(c: Content, buf: Content, offset: nat, n: nat)
    ensures StorageAnswer(NextContent(c, Write(buf, offset)), StorageOp.Read(|buf|, offset)) == Data(buf, Int32(|buf|))
    ensures StorageAnswer(NextContent(c, Append(buf)), ReadFully) == Text(c + buf)
    ensures StorageAnswer(NextContent(c, Append(buf)), Size) == Count(|c| + |buf|)
    ensures StorageAnswer(NextContent(c, Truncate(n)), Size) == Count(n)
    ensures StorageAnswer(NextContent(c, Reset), Size) == Count(0)
    ensures StorageAnswer(c, IsEmpty) == Flag(true) <==> StorageAnswer(c, Size) == Count(0)
    ensures StorageAnswer(c, IsEmpty) == Flag(true) || StorageAnswer(c, IsEmpty) == Flag(false)
    ensures StorageAnswer(c, Write(buf, offset)) == Count(Int32(|buf|))
    ensures forall op: StorageOp :: op.Read? || op.Size? || op.IsEmpty? || op.ReadFully? ==> NextContent(c, op) == c
  {
    ReadBackWritten(c, buf, offset);
  }

  /** Below 2^31 bytes the reported count is the number of bytes, at every offset. */
  lemma SmallCountIsExact(size: nat)
    ensures Int32(size) == size <==> size < 0x8000_0000
  {
  }
}
