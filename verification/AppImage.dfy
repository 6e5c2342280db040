/** A package image and its readers (src/app_image.rs). The bytes live in memory or in a
    private file whose positional reads may be short or fail. */
module AppImage {
  import opened Wrappers

  type U64 = n: int | 0 <= n <= U64_MAX

  datatype Image = Image(bytes: seq<Byte>, isPrivate: bool)

  datatype IoError = ReadFailed | UnexpectedEof | InvalidInput

  /** One positional read: at most so many bytes, or an error. */
  datatype Answer = AtMost(n: nat) | Fails

  predicate Holds(image: Image) {
    |image.bytes| <= U64_MAX
  }

  function Min(a: nat, b: nat): nat {
    if a < b then a else b
  }

  /** `start.checked_add(len)`. */
  function CheckedAdd(a: U64, b: U64): Option<U64> {
    if a + b <= U64_MAX then Some(a + b) else None
  }

  /** What a request for `want` bytes gets. */
  function Answered(a: Answer, want: nat): (r: Result<nat, IoError>)
    ensures r.Ok? ==> r.value <= want
  {
    match a
    case AtMost(n) => Ok(Min(n, want))
    case Fails => Err(ReadFailed)
  }

  /** The operating system behind a private copy. */
  class Disk {
    const answers: nat -> Answer
    var calls: nat

    method Ask(want: nat) returns (r: Result<nat, IoError>)
      modifies this
      ensures calls == old(calls) + 1 && r == Answered(answers(old(calls)), want)
    {
      var a := answers(calls);
      calls := calls + 1;
      if a.Fails? {
        return Err(ReadFailed);
      }
      return Ok(Min(a.n, want));
    }
  }

  /** Bytes at `offset` into `buf[lo..]`; 0 at the end. A read from memory is never short. */
  method ReadAt(image: Image, disk: Disk, buf: array<Byte>, lo: nat, offset: U64) returns (r: Result<nat, IoError>)
    requires Holds(image) && lo <= buf.Length
    modifies buf, disk
    ensures buf[..lo] == old(buf[..lo])
    ensures r.Ok? ==> lo + r.value <= buf.Length
    ensures r.Ok? && offset >= |image.bytes| ==> r.value == 0
    ensures r.Ok? && offset < |image.bytes| ==>
              && offset + r.value <= |image.bytes|
              && buf[lo..lo + r.value] == image.bytes[offset..offset + r.value]
              && (!image.isPrivate ==> r.value == Min(buf.Length - lo, |image.bytes| - offset))
    ensures r.Err? ==> image.isPrivate && offset < |image.bytes| && r.error == ReadFailed
    ensures image.isPrivate && offset < |image.bytes| ==>
              disk.calls == old(disk.calls) + 1 &&
              r == Answered(disk.answers(old(disk.calls)), Min(buf.Length - lo, |image.bytes| - offset))
    ensures !(image.isPrivate && offset < |image.bytes|) ==> disk.calls == old(disk.calls)
  {
    if offset >= |image.bytes| {
      return Ok(0);
    }
    var n := Min(buf.Length - lo, |image.bytes| - offset);
    if image.isPrivate {
      r := disk.Ask(n);
      if r.Err? {
        return;
      }
      n := r.value;
    }
    forall i | 0 <= i < n {
      buf[lo + i] := image.bytes[offset + i];
    }
    return Ok(n);
  }

  /** The last call of the range is why: it failed, or it read nothing before the end. */
  predicate Explains(answers: nat -> Answer, from: nat, to: nat, error: IoError) {
    from < to &&
    match error
    case ReadFailed => answers(to - 1).Fails?
    case UnexpectedEof => answers(to - 1) == AtMost(0)
    case InvalidInput => false
  }

  /** `read_range`: None exactly when the range leaves the image (a sum past 64 bits does),
      else the whole slice or an error, however short the reads. */
  method ReadRange(image: Image, disk: Disk, start: U64, len: U64) returns (r: Result<Option<seq<Byte>>, IoError>)
    requires Holds(image)
    modifies disk
    ensures r == Ok(None) <==> start + len > |image.bytes|
    ensures r.Ok? && r.value.Some? ==> start + len <= |image.bytes| && r.value.value == image.bytes[start..start + len]
    ensures r.Err? ==> image.isPrivate && Explains(disk.answers, old(disk.calls), disk.calls, r.error)
    ensures disk.calls >= old(disk.calls)
  {
    var end := CheckedAdd(start, len);
    if end.None? || end.value > |image.bytes| {
      return Ok(None);
    }
    var buf := new Byte[end.value - start](_ => 0);
    var done := 0;
    while done < buf.Length
      invariant 0 <= done <= buf.Length && fresh(buf) && buf.Length == len
      invariant buf[..done] == image.bytes[start..start + done]
      invariant disk.calls >= old(disk.calls)
    {
      ghost var before := buf[..done];
      var got := ReadAt(image, disk, buf, done, start + done);
      if got.Err? {
        return Err(got.error);
      }
      if got.value == 0 {
        return Err(UnexpectedEof);
      }
      assert buf[..done + got.value] == before + buf[done..done + got.value];
      assert image.bytes[start..start + done + got.value] ==
             image.bytes[start..start + done] + image.bytes[start + done..start + done + got.value];
      done := done + got.value;
    }
    return Ok(Some(buf[..]));
  }

  /** What `sha256` hashes: the blocks until a read returns nothing. From memory that is the
      whole image; from a private copy it is a prefix. */
  method HashedBytes(image: Image, disk: Disk, block: nat) returns (r: Result<seq<Byte>, IoError>)
    requires Holds(image) && block > 0
    modifies disk
    ensures r.Ok? ==> r.value <= image.bytes
    ensures !image.isPrivate ==> r == Ok(image.bytes)
    ensures r.Err? ==> Explains(disk.answers, old(disk.calls), disk.calls, ReadFailed) && r.error == ReadFailed
    ensures r.Ok? && r.value != image.bytes ==> Explains(disk.answers, old(disk.calls), disk.calls, UnexpectedEof)
    ensures disk.calls >= old(disk.calls)
  {
    var buf := new Byte[block](_ => 0);
    var hashed: seq<Byte> := [];
    while true
      invariant hashed <= image.bytes && fresh(buf) && buf.Length == block && disk.calls >= old(disk.calls)
      decreases |image.bytes| - |hashed|
    {
      var got := ReadAt(image, disk, buf, 0, |hashed|);
      if got.Err? {
        return Err(got.error);
      }
      if got.value == 0 {
        assert |hashed| == |image.bytes| ==> hashed == image.bytes;
        return Ok(hashed);
      }
      hashed := hashed + buf[..got.value];
    }
  }

  // ---- readers ------------------------------------------------------------------------

  datatype SeekFrom = Start(n: U64) | End(delta: int) | Current(delta: int)

  const I64_MIN := -0x8000_0000_0000_0000
  const I64_MAX := 0x7FFF_FFFF_FFFF_FFFF

  predicate Signed(to: SeekFrom) {
    !to.Start? ==> I64_MIN <= to.delta <= I64_MAX
  }

  /** Where a seek of a plain cursor goes; None leaves the cursor alone. */
  function Target(len: nat, pos: U64, to: SeekFrom): Option<U64>
    requires len <= U64_MAX
  {
    match to
    case Start(n) => Some(n)
    case End(d) => if 0 <= len + d <= U64_MAX then Some(len + d) else None
    case Current(d) => if 0 <= pos + d <= U64_MAX then Some(pos + d) else None
  }

  /** `p` lies where `to` says: counted from the front, from the end, or from the cursor. */
  predicate Reaches(len: nat, pos: U64, to: SeekFrom, p: int) {
    match to
    case Start(n) => p == n
    case End(d) => p - len == d
    case Current(d) => p - pos == d
  }

  /** A seek goes to the one place it names if 64 bits can say it, else nowhere. */
  lemma TargetReaches(len: nat, pos: U64, to: SeekFrom, p: U64)
    requires len <= U64_MAX
    ensures Target(len, pos, to) == Some(p) <==> Reaches(len, pos, to, p)
  {
  }

  /** The bytes a plain sequence gives from a cursor. */
  function Slice(bytes: seq<Byte>, pos: nat, n: nat): seq<Byte>
    requires n > 0 ==> pos + n <= |bytes|
  {
    if n == 0 then [] else bytes[pos..pos + n]
  }

  datatype Op = Read(size: nat) | Seek(to: SeekFrom)

  datatype Reply = Bytes(chunk: seq<Byte>) | At(pos: U64) | Failed(error: IoError)

  /** `reply` is one a plain sequence with a cursor at `pos` may give; `exact` rules out
      short reads and read errors. */
  predicate Plain(bytes: seq<Byte>, exact: bool, pos: U64, op: Op, reply: Reply)
    requires |bytes| <= U64_MAX
  {
    match op
    case Read(size) =>
      if reply.Failed? then !exact && pos < |bytes|
      else
        && reply.Bytes?
        && |reply.chunk| <= size
        && (|reply.chunk| > 0 ==> pos + |reply.chunk| <= |bytes|)
        && reply.chunk == Slice(bytes, pos, |reply.chunk|)
        && (exact ==> |reply.chunk| == if pos >= |bytes| then 0 else Min(size, |bytes| - pos))
    case Seek(to) =>
      if Target(|bytes|, pos, to).None? then reply == Failed(InvalidInput)
      else reply == At(Target(|bytes|, pos, to).value)
  }

  function Moved(bytes: seq<Byte>, pos: U64, op: Op, reply: Reply): U64
    requires |bytes| <= U64_MAX
  {
    match reply
    case Bytes(chunk) => if pos + |chunk| <= U64_MAX then pos + |chunk| else pos
    case At(p) => p
    case Failed(_) => pos
  }

  /** An image reader: a share of the image and its own position. */
  class ImageReader {
    const image: Image
    var pos: U64

    constructor (image: Image)
      ensures this.image == image && pos == 0
    {
      this.image, pos := image, 0;
    }

    method ReadInto(disk: Disk, buf: array<Byte>) returns (r: Result<nat, IoError>)
      requires Holds(image)
      modifies this`pos, disk, buf
      ensures r.Ok? ==>
                r.value <= buf.Length &&
                Plain(image.bytes, !image.isPrivate, old(pos), Read(buf.Length), Bytes(buf[..r.value]))
      ensures r.Ok? ==> pos == old(pos) + r.value
      ensures image.isPrivate && old(pos) < |image.bytes| ==>
                disk.calls == old(disk.calls) + 1 &&
                r == Answered(disk.answers(old(disk.calls)), Min(buf.Length, |image.bytes| - old(pos)))
      ensures r.Err? ==> pos == old(pos) && Plain(image.bytes, !image.isPrivate, pos, Read(buf.Length), Failed(r.error))
    {
      r := ReadAt(image, disk, buf, 0, pos);
      if r.Ok? {
        assert r.value > 0 ==> buf[..r.value] == buf[0..0 + r.value];
        pos := pos + r.value;
      }
    }

    method SeekTo(to: SeekFrom) returns (r: Result<U64, IoError>)
      requires Holds(image) && Signed(to)
      modifies this`pos
      ensures r == match Target(|image.bytes|, old(pos), to) case Some(n) => Ok(n) case None => Err(InvalidInput)
      ensures r.Ok? ==> Reaches(|image.bytes|, old(pos), to, r.value)
      ensures r.Err? ==> forall p: U64 :: !Reaches(|image.bytes|, old(pos), to, p)
      ensures pos == if r.Ok? then r.value else old(pos)
    {
      if to.Start? {
        pos := to.n;
        return Ok(to.n);
      }
      var from: int := if to.End? then |image.bytes| else pos;
      if from + to.delta < 0 || from + to.delta > U64_MAX {
        return Err(InvalidInput);
      }
      pos := from + to.delta;
      return Ok(pos);
    }

    /** One operation and its reply. */
    method Do(disk: Disk, op: Op) returns (reply: Reply)
      requires Holds(image) && (op.Seek? ==> Signed(op.to))
      modifies this`pos, disk
      ensures Plain(image.bytes, !image.isPrivate, old(pos), op, reply)
      ensures pos == Moved(image.bytes, old(pos), op, reply)
    {
      match op {
        case Read(size) =>
          var buf := new Byte[size](_ => 0);
          var r := ReadInto(disk, buf);
          reply := if r.Ok? then Bytes(buf[..r.value]) else Failed(r.error);
        case Seek(to) =>
          var r := SeekTo(to);
          reply := if r.Ok? then At(r.value) else Failed(r.error);
      }
    }
  }

  /** A reader that seeks back from the end and reads gets the tail of the image, wherever it
      was. */
  lemma SeekThenRead(bytes: seq<Byte>, pos: U64, back: int, sought: Reply, read: Reply)
    requires |bytes| <= U64_MAX && 0 <= back <= |bytes|
    requires Plain(bytes, true, pos, Seek(End(-back)), sought)
    requires Plain(bytes, true, Moved(bytes, pos, Seek(End(-back)), sought), Read(back), read)
    ensures read == Bytes(bytes[|bytes| - back..])
  {
    assert bytes[|bytes| - back..] == Slice(bytes, |bytes| - back, back);
  }

  // ---- any number of readers over one image ---------------------------------------------

  /** An operation on one of the readers. */
  datatype Call = Call(reader: nat, op: Op)

  /** The replies are those of plain cursors, one per reader, at `cursors`. */
  ghost predicate AllPlain(bytes: seq<Byte>, exact: bool, cursors: seq<U64>, calls: seq<Call>, replies: seq<Reply>)
    requires |bytes| <= U64_MAX
    decreases |calls|
  {
    |calls| == |replies| &&
    (calls != [] ==>
       && calls[0].reader < |cursors|
       && Plain(bytes, exact, cursors[calls[0].reader], calls[0].op, replies[0])
       && AllPlain(bytes, exact,
                   cursors[calls[0].reader := Moved(bytes, cursors[calls[0].reader], calls[0].op, replies[0])],
                   calls[1..], replies[1..]))
  }

  ghost function Cursors(readers: seq<ImageReader>): seq<U64>
    reads set r | r in readers
  {
    seq(|readers|, i requires 0 <= i < |readers| reads set r | r in readers => readers[i].pos)
  }

  /** Reads and seeks on independent readers of one image, in any interleaving, answer as
      plain sequences with a cursor each would. */
  method Drive(image: Image, disk: Disk, readers: seq<ImageReader>, calls: seq<Call>) returns (replies: seq<Reply>)
    requires Holds(image)
    requires forall r :: r in readers ==> r.image == image
    requires forall i, j :: 0 <= i < j < |readers| ==> readers[i] != readers[j]
    requires forall c :: c in calls ==> c.reader < |readers| && (c.op.Seek? ==> Signed(c.op.to))
    modifies disk, set r | r in readers
    ensures AllPlain(image.bytes, !image.isPrivate, old(Cursors(readers)), calls, replies)
    decreases |calls|
  {
    if calls == [] {
      return [];
    }
    ghost var before := Cursors(readers);
    var c := calls[0];
    var reply := readers[c.reader].Do(disk, c.op);
    ghost var moved := before[c.reader := Moved(image.bytes, before[c.reader], c.op, reply)];
    assert Cursors(readers) == moved;
    var rest := Drive(image, disk, readers, calls[1..]);
    replies := [reply] + rest;
  }

  function CallsOf(calls: seq<Call>, reader: nat): seq<Call> {
    if calls == [] then []
    else if calls[0].reader == reader then [Call(0, calls[0].op)] + CallsOf(calls[1..], reader)
    else CallsOf(calls[1..], reader)
  }

  function RepliesOf(calls: seq<Call>, replies: seq<Reply>, reader: nat): seq<Reply>
    requires |calls| == |replies|
  {
    if calls == [] then []
    else if calls[0].reader == reader then [replies[0]] + RepliesOf(calls[1..], replies[1..], reader)
    else RepliesOf(calls[1..], replies[1..], reader)
  }

  /** Readers do not disturb each other: each one's replies are those it would give alone. */
  lemma {:induction false} ReadersAreIndependent(bytes: seq<Byte>, exact: bool, cursors: seq<U64>,
                                                 calls: seq<Call>, replies: seq<Reply>, reader: nat)
    requires |bytes| <= U64_MAX && reader < |cursors|
    requires AllPlain(bytes, exact, cursors, calls, replies)
    ensures AllPlain(bytes, exact, [cursors[reader]], CallsOf(calls, reader), RepliesOf(calls, replies, reader))
    decreases |calls|
  {
    if calls != [] {
      var r := calls[0].reader;
      var next := Moved(bytes, cursors[r], calls[0].op, replies[0]);
      ReadersAreIndependent(bytes, exact, cursors[r := next], calls[1..], replies[1..], reader);
      if r == reader {
        assert [cursors[reader]][0 := next] == [cursors[r := next][reader]];
      }
    }
  }

  /** The bytes the replies hold, in order. */
  function Gathered(replies: seq<Reply>): seq<Byte> {
    if replies == [] then []
    else (if replies[0].Bytes? then replies[0].chunk else []) + Gathered(replies[1..])
  }

  /** Reads in a row, however short, give one unbroken slice from where the cursor was. */
  lemma {:induction false} ReadsGiveOneSlice(bytes: seq<Byte>, exact: bool, pos: U64, calls: seq<Call>,
                                             replies: seq<Reply>)
    requires |bytes| <= U64_MAX && pos <= |bytes|
    requires AllPlain(bytes, exact, [pos], calls, replies) && forall c :: c in calls ==> c.op.Read?
    ensures pos + |Gathered(replies)| <= |bytes| && Gathered(replies) == bytes[pos..pos + |Gathered(replies)|]
    decreases |calls|
  {
    if calls != [] {
      var next := Moved(bytes, pos, calls[0].op, replies[0]);
      assert [pos][0 := next] == [next];
      ReadsGiveOneSlice(bytes, exact, next, calls[1..], replies[1..]);
      var rest := Gathered(replies[1..]);
      if replies[0].Bytes? && |replies[0].chunk| > 0 {
        var n := |replies[0].chunk|;
        assert bytes[pos..pos + n] + bytes[pos + n..pos + n + |rest|] == bytes[pos..pos + n + |rest|];
      } else if replies[0].Bytes? {
        assert replies[0].chunk == [];
      }
    }
  }

  // ---- the consistency check ------------------------------------------------------------

  datatype PackageState = Unreadable(why: string) | Present(len: nat, blake3: nat)

  type Manifest = seq<(string, PackageState)>

  datatype InputsUnstable =
    InputsUnstable(path: string, before: Option<PackageState>, consumed: Option<PackageState>,
                   after: Option<PackageState>)

  /** The state of the first entry for the path. */
  function StateIn(m: Manifest, path: string): Option<PackageState> {
    if m == [] then None else if m[0].0 == path then Some(m[0].1) else StateIn(m[1..], path)
  }

  lemma {:induction false} StateInMeans(m: Manifest, path: string, state: PackageState)
    ensures StateIn(m, path) == Some(state) <==>
              exists i :: 0 <= i < |m| && m[i] == (path, state) && forall j :: 0 <= j < i ==> m[j].0 != path
    ensures StateIn(m, path) == None <==> forall i :: 0 <= i < |m| ==> m[i].0 != path
  {
    if m != [] && m[0].0 != path {
      StateInMeans(m[1..], path, state);
      assert forall i :: 1 <= i < |m| ==> m[i] == m[1..][i - 1];
      if i :| 0 <= i < |m| - 1 && m[1..][i] == (path, state) && forall j :: 0 <= j < i ==> m[1..][j].0 != path {
        assert m[i + 1] == (path, state) && forall j :: 0 <= j < i + 1 ==> m[j].0 != path;
      }
    } else if m != [] {
      assert m[0].0 == path;
    }
  }

  /** The three observations of the package are not one. */
  predicate Differs(before: Manifest, consumed: Manifest, after: Manifest, path: string) {
    !(StateIn(before, path) == StateIn(consumed, path) == StateIn(after, path))
  }

  /** The `i`-th entry is of `path` and the first whose observations differ. */
  predicate FirstDiffers(before: Manifest, consumed: Manifest, after: Manifest, listed: Manifest, i: nat, path: string)
    requires i < |listed|
  {
    && listed[i].0 == path && Differs(before, consumed, after, path)
    && forall j :: 0 <= j < i ==> !Differs(before, consumed, after, listed[j].0)
  }

  /** `check_consistent`: it passes exactly when the three observations are the same list. A
      failure names the first listed package whose observations differ; the first entry when
      only the order (or a repeat) does. */
  method CheckConsistent(before: Manifest, consumed: Manifest, after: Manifest) returns (r: Result<(), InputsUnstable>)
    ensures r.Ok? <==> before == consumed == after
    ensures r.Err? ==> r.error == InputsUnstable(r.error.path, StateIn(before, r.error.path),
                                                 StateIn(consumed, r.error.path), StateIn(after, r.error.path))
    ensures var listed := before + consumed + after;
            r.Err? ==>
              if exists i :: 0 <= i < |listed| && Differs(before, consumed, after, listed[i].0)
              then exists i :: 0 <= i < |listed| && FirstDiffers(before, consumed, after, listed, i, r.error.path)
              else r.error.path == if before == [] then "" else before[0].0
  {
    if before == consumed == after {
      return Ok(());
    }
    var listed := before + consumed + after;
    var path := if before == [] then "" else before[0].0;
    for n := 0 to |listed|
      invariant forall j :: 0 <= j < n ==> !Differs(before, consumed, after, listed[j].0)
      invariant path == if before == [] then "" else before[0].0
    {
      var p := listed[n].0;
      if StateIn(before, p) != StateIn(consumed, p) || StateIn(before, p) != StateIn(after, p) {
        path := p;
        assert FirstDiffers(before, consumed, after, listed, n, path);
        break;
      }
    }
    return Err(InputsUnstable(path, StateIn(before, path), StateIn(consumed, path), StateIn(after, path)));
  }
}
