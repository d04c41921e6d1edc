/** The wire format of `AsioStream`: a 4-byte object id, a 4-byte body size and
    the body, one frame after the other with nothing in between.

    `Decode` is the whole-stream reference decoder. `Reader` is what one pending
    `async_read` of the callback chain knows; `Complete` is its handler. */
module Framing {
  import opened Bytes
  import Seqs

  datatype Option<+T> = None | Some(value: T)

  datatype Frame = Frame(id: U32, body: ByteString)

  datatype Decoded = Decoded(frames: seq<Frame>, rest: ByteString)

  /** What `Write(object_id, data)` hands to one gathered write. Both the id and
      the size are stored in a `uint32_t`. */
  function Encode(objectId: nat, data: ByteString): ByteString {
    PutU32(Narrow(objectId)) + PutU32(Narrow(|data|)) + data
  }

  function EncodeFrame(f: Frame): ByteString {
    Encode(f.id, f.body)
  }

  function EncodeAll(fs: seq<Frame>): ByteString {
    if fs == [] then [] else EncodeFrame(fs[0]) + EncodeAll(fs[1..])
  }

  /** The size field can hold the body's size. */
  predicate Fits(f: Frame) {
    |f.body| < U32_LIMIT
  }

  function IdOf(b: ByteString): U32
    requires |b| >= 8
  {
    GetU32(b[..4])
  }

  function SizeOf(b: ByteString): U32
    requires |b| >= 8
  {
    GetU32(b[4..8])
  }

  predicate HasFrame(b: ByteString) {
    |b| >= 8 && |b| - 8 >= SizeOf(b)
  }

  function FirstFrame(b: ByteString): Frame
    requires HasFrame(b)
  {
    Frame(IdOf(b), b[8..8 + SizeOf(b)])
  }

  function AfterFrame(b: ByteString): ByteString
    requires HasFrame(b)
  {
    b[8 + SizeOf(b)..]
  }

  function Decode(b: ByteString): Decoded
    decreases |b|
  {
    if HasFrame(b) then
      var d := Decode(AfterFrame(b));
      Decoded([FirstFrame(b)] + d.frames, d.rest)
    else
      Decoded([], b)
  }

  /** Byte by byte: the low four bytes of the id, then those of the size, each least
      significant first, then the body. */
  lemma EncodeLayout(objectId: nat, data: ByteString)
    ensures var e := Encode(objectId, data);
            && |e| == 8 + |data| && e[8..] == data
            && e[..4] == [objectId % 256, objectId / 0x100 % 256, objectId / 0x1_0000 % 256, objectId / 0x100_0000 % 256]
            && e[4..8] == [|data| % 256, |data| / 0x100 % 256, |data| / 0x1_0000 % 256, |data| / 0x100_0000 % 256]
  {
    var e, id, size := Encode(objectId, data), PutU32(Narrow(objectId)), PutU32(Narrow(|data|));
    WordBytes(Narrow(objectId));
    WordBytes(Narrow(|data|));
    NarrowBytes(objectId);
    NarrowBytes(|data|);
    assert e[..4] == id && e[4..8] == size && e[8..] == data;
  }

  /** Narrowing keeps the low four bytes. */
  lemma NarrowBytes(n: nat)
    ensures Narrow(n) % 256 == n % 256 && Narrow(n) / 0x100 % 256 == n / 0x100 % 256
    ensures Narrow(n) / 0x1_0000 % 256 == n / 0x1_0000 % 256
    ensures Narrow(n) / 0x100_0000 % 256 == n / 0x100_0000 % 256
  {
    var m, q := Narrow(n), n / U32_LIMIT;
    assert n == m + 0x1_0000_0000 * q;
    LowByte(m, 0x100_0000 * q);
    SecondByte(m, q);
    ThirdByte(m, q);
    FourthByte(m, q);
  }

  lemma LowByte(m: nat, q: nat)
    ensures (m + 256 * q) % 256 == m % 256
  {
    RemainderIs(m + 256 * q, m / 256 + q, m % 256);
  }

  lemma RemainderIs(n: nat, k: nat, r: nat)
    requires n == 256 * k + r && r < 256
    ensures n % 256 == r && n / 256 == k
  {
  }

  lemma SecondByte(m: nat, q: nat)
    ensures (m + 0x1_0000_0000 * q) / 0x100 % 256 == m / 0x100 % 256
  {
    assert (m + 0x1_0000_0000 * q) / 0x100 == m / 0x100 + 0x100_0000 * q;
    LowByte(m / 0x100, 0x1_0000 * q);
  }

  lemma ThirdByte(m: nat, q: nat)
    ensures (m + 0x1_0000_0000 * q) / 0x1_0000 % 256 == m / 0x1_0000 % 256
  {
    assert (m + 0x1_0000_0000 * q) / 0x1_0000 == m / 0x1_0000 + 0x1_0000 * q;
    LowByte(m / 0x1_0000, 0x100 * q);
  }

  lemma FourthByte(m: nat, q: nat)
    ensures (m + 0x1_0000_0000 * q) / 0x100_0000 % 256 == m / 0x100_0000 % 256
  {
    assert (m + 0x1_0000_0000 * q) / 0x100_0000 == m / 0x100_0000 + 0x100 * q;
    LowByte(m / 0x100_0000, q);
  }

  // ---------------------------------------------------------------- decoding

  /** The eight header bytes read back what was stored in them. */
  lemma Header(x: U32, n: U32, tail: ByteString)
    ensures var b := PutU32(x) + PutU32(n) + tail;
            |b| == 8 + |tail| && IdOf(b) == x && SizeOf(b) == n && b[8..] == tail
  {
    var b := PutU32(x) + PutU32(n) + tail;
    GetPut(x);
    GetPut(n);
    assert b[..4] == PutU32(x);
    assert b[4..8] == PutU32(n);
  }

  lemma DecodeOne(x: U32, n: U32, body: ByteString, tail: ByteString)
    requires n == |body|
    ensures var b := PutU32(x) + PutU32(n) + body + tail;
            HasFrame(b) && Decode(b) == Decoded([Frame(x, body)] + Decode(tail).frames, Decode(tail).rest)
  {
    var h := PutU32(x) + PutU32(n);
    var b := h + body + tail;
    assert b == h + (body + tail);
    Header(x, n, body + tail);
    assert b[8..8 + n] == body;
    assert b[8 + n..] == tail;
  }

  /** A partly arrived frame decodes to no frame. */
  lemma DecodePartial(x: U32, n: U32, part: ByteString)
    requires |part| < n
    ensures var b := PutU32(x) + PutU32(n) + part;
            !HasFrame(b) && Decode(b) == Decoded([], b)
  {
    Header(x, n, part);
  }

  lemma DecodeFrameThen(f: Frame, tail: ByteString)
    requires Fits(f)
    ensures Decode(EncodeFrame(f) + tail) == Decoded([f] + Decode(tail).frames, Decode(tail).rest)
  {
    DecodeOne(f.id, |f.body|, f.body, tail);
    NarrowSmall(f.id);
    NarrowSmall(|f.body|);
  }

  /** Decoding is incremental: bytes that arrive later only extend what was
      delivered, and the undelivered rest is all that has to be remembered. */
  lemma {:induction false} DecodeConcat(a: ByteString, b: ByteString)
    ensures Decode(a + b).frames == Decode(a).frames + Decode(Decode(a).rest + b).frames
    ensures Decode(a + b).rest == Decode(Decode(a).rest + b).rest
    decreases |a|
  {
    if HasFrame(a) {
      FrameOfConcat(a, b);
      DecodeConcat(AfterFrame(a), b);
      Seqs.Assoc([FirstFrame(a)], Decode(AfterFrame(a)).frames, Decode(Decode(a).rest + b).frames);
    }
  }

  /** More bytes do not change the frame that is already there. */
  lemma FrameOfConcat(a: ByteString, b: ByteString)
    requires HasFrame(a)
    ensures HasFrame(a + b) && FirstFrame(a + b) == FirstFrame(a) && AfterFrame(a + b) == AfterFrame(a) + b
  {
    assert (a + b)[..4] == a[..4] && (a + b)[4..8] == a[4..8];
    var n := SizeOf(a);
    assert (a + b)[8..8 + n] == a[8..8 + n];
    assert (a + b)[8 + n..] == a[8 + n..] + b;
  }

  lemma {:induction false} EncodeAllConcat(fs: seq<Frame>, gs: seq<Frame>)
    ensures EncodeAll(fs + gs) == EncodeAll(fs) + EncodeAll(gs)
  {
    if fs == [] {
      assert fs + gs == gs;
    } else {
      assert (fs + gs)[1..] == fs[1..] + gs;
      EncodeAllConcat(fs[1..], gs);
    }
  }

  /** Frames survive the wire, whatever follows them. */
  lemma {:induction false} DecodeEncodeAll(fs: seq<Frame>, tail: ByteString)
    requires forall i :: 0 <= i < |fs| ==> Fits(fs[i])
    ensures Decode(EncodeAll(fs) + tail) == Decoded(fs + Decode(tail).frames, Decode(tail).rest)
  {
    if fs == [] {
      assert EncodeAll(fs) + tail == tail;
    } else {
      var rest := EncodeAll(fs[1..]) + tail;
      Seqs.Assoc(EncodeFrame(fs[0]), EncodeAll(fs[1..]), tail);
      DecodeEncodeAll(fs[1..], tail);
      DecodeFrameThen(fs[0], rest);
      Seqs.HeadThen(fs, Decode(tail).frames);
    }
  }

  /** The wire form is exact: a body survives its own frame if and only if its
      size fits the 32-bit size field. */
  lemma EncodeFaithfulIffFits(objectId: nat, data: ByteString)
    ensures Decode(Encode(objectId, data)) == Decoded([Frame(Narrow(objectId), data)], [])
            <==> |data| < U32_LIMIT
  {
    var x, n := Narrow(objectId), Narrow(|data|);
    assert data == data[..n] + data[n..];
    assert Encode(objectId, data) == PutU32(x) + PutU32(n) + data[..n] + data[n..];
    DecodeOne(x, n, data[..n], data[n..]);
    if |data| < U32_LIMIT {
      NarrowSmall(|data|);
      assert data[..n] == data && data[n..] == [];
    } else {
      assert Decode(Encode(objectId, data)).frames[0].body == data[..n];
      assert |data[..n]| != |data|;
    }
  }

  /** The number of whole frames of `fs` among the first `len` bytes of its
      encoding. */
  function WholeFrames(fs: seq<Frame>, len: nat): (k: nat)
    ensures k <= |fs|
  {
    if fs == [] || len < |EncodeFrame(fs[0])| then 0
    else 1 + WholeFrames(fs[1..], len - |EncodeFrame(fs[0])|)
  }

  /** `WholeFrames` is the largest `k` whose first `k` frames have arrived. */
  lemma {:induction false} WholeFramesIsLargest(fs: seq<Frame>, len: nat)
    ensures var k := WholeFrames(fs, len);
            && |EncodeAll(fs[..k])| <= len
            && (k < |fs| ==> len < |EncodeAll(fs[..k + 1])|)
  {
    var k := WholeFrames(fs, len);
    if fs != [] && len >= |EncodeFrame(fs[0])| {
      WholeFramesIsLargest(fs[1..], len - |EncodeFrame(fs[0])|);
      assert fs[..k][1..] == fs[1..][..k - 1];
      if k < |fs| {
        assert fs[..k + 1][1..] == fs[1..][..k];
      }
    } else if fs != [] {
      assert fs[..1][1..] == [];
    }
  }

  /** Cutting the encoding of any list of frames at any byte delivers exactly the
      frames that are whole before the cut; the partial frame stays behind. */
  lemma {:induction false} DecodePrefix(fs: seq<Frame>, p: ByteString)
    requires forall i :: 0 <= i < |fs| ==> Fits(fs[i])
    requires p <= EncodeAll(fs)
    ensures var k := WholeFrames(fs, |p|);
            Decode(p).frames == fs[..k] && p == EncodeAll(fs[..k]) + Decode(p).rest
  {
    var k := WholeFrames(fs, |p|);
    if fs == [] {
    } else {
      var f := fs[0];
      var e := EncodeFrame(f);
      if |p| < |e| {
        assert p <= e;
        PartialFrame(f, p);
      } else {
        var p1 := p[|e|..];
        Seqs.DropPrefix(e, EncodeAll(fs[1..]));
        PrefixAfter(e, EncodeAll(fs[1..]), p);
        DecodePrefix(fs[1..], p1);
        DecodeFrameThen(f, p1);
        Seqs.HeadTake(fs, k);
        assert fs[..k][0] == f && fs[..k][1..] == fs[1..][..k - 1];
        Seqs.Assoc(e, EncodeAll(fs[1..][..k - 1]), Decode(p1).rest);
      }
    }
  }

  lemma PrefixAfter(e: ByteString, rest: ByteString, p: ByteString)
    requires p <= e + rest && |e| <= |p|
    ensures p == e + p[|e|..] && p[|e|..] <= rest
  {
  }

  lemma PartialFrame(f: Frame, p: ByteString)
    requires Fits(f) && p <= EncodeFrame(f) && |p| < |EncodeFrame(f)|
    ensures Decode(p) == Decoded([], p)
  {
    if |p| >= 8 {
      NarrowSmall(|f.body|);
      var h := PutU32(Narrow(f.id)) + PutU32(|f.body|);
      assert EncodeFrame(f) == h + f.body;
      assert p[..8] == EncodeFrame(f)[..8] == h;
      assert p == h + p[8..];
      Header(Narrow(f.id), |f.body|, p[8..]);
    }
  }

  // ------------------------------------------------------ the callback chain

  datatype Stage = ReadObjectID | ReadHeader | ReadBody

  /** One pending `async_read`: its stage, what the earlier stages of this frame
      stored, and the bytes that are already in its buffer. */
  datatype Reader = Reader(stage: Stage, objectId: U32, bodySize: U32, got: ByteString)

  const ARMED := Reader(ReadObjectID, 0, 0, [])

  function Need(r: Reader): U32 {
    match r.stage
    case ReadObjectID => 4
    case ReadHeader => 4
    case ReadBody => r.bodySize
  }

  ghost predicate ReaderOk(r: Reader) {
    |r.got| <= Need(r)
  }

  predicate BufferFull(r: Reader) {
    |r.got| == Need(r)
  }

  /** The bytes of the current frame that were taken off the stream. */
  function Taken(r: Reader): ByteString {
    match r.stage
    case ReadObjectID => r.got
    case ReadHeader => PutU32(r.objectId) + r.got
    case ReadBody => PutU32(r.objectId) + PutU32(r.bodySize) + r.got
  }

  /** The handler of a full buffer: which read is armed next. */
  function Complete(r: Reader): Reader
    requires BufferFull(r)
  {
    match r.stage
    case ReadObjectID => Reader(ReadHeader, GetU32(r.got), 0, [])
    case ReadHeader => Reader(ReadBody, r.objectId, GetU32(r.got), [])
    case ReadBody => ARMED
  }

  /** The frame that the handler passes to `invocation_callback_`, if any. */
  function Fired(r: Reader): seq<Frame>
    requires BufferFull(r)
  {
    if r.stage == ReadBody then [Frame(r.objectId, r.got)] else []
  }

  /** What the chain delivers of the bytes it has taken and those still to come
      is what the whole-stream decoder finds in them; completing a stage keeps
      that, up to the frame it fires. */
  lemma CompleteKeepsDecode(r: Reader, tail: ByteString)
    requires ReaderOk(r) && BufferFull(r)
    ensures ReaderOk(Complete(r))
    ensures Decode(Taken(r) + tail).frames == Fired(r) + Decode(Taken(Complete(r)) + tail).frames
    ensures Decode(Taken(r) + tail).rest == Decode(Taken(Complete(r)) + tail).rest
  {
    match r.stage
    case ReadObjectID =>
      PutGet(r.got);
      assert Taken(Complete(r)) == Taken(r);
    case ReadHeader =>
      PutGet(r.got);
      assert Taken(Complete(r)) == Taken(r);
    case ReadBody =>
      DecodeOne(r.objectId, r.bodySize, r.got, tail);
      assert Taken(ARMED) + tail == tail;
  }

  /** Without a full buffer, the taken bytes hold no whole frame. */
  lemma StalledDeliversNothing(r: Reader)
    requires ReaderOk(r) && !BufferFull(r)
    ensures Decode(Taken(r)) == Decoded([], Taken(r))
  {
    match r.stage
    case ReadObjectID =>
    case ReadHeader =>
    case ReadBody => DecodePartial(r.objectId, r.bodySize, r.got);
  }

  // -------------------------------------------------------- chunked delivery

  function Flatten(chunks: seq<ByteString>): ByteString {
    if chunks == [] then [] else chunks[0] + Flatten(chunks[1..])
  }

  /** Where the chain stands after some bytes, and the callbacks it made. */
  datatype Fed = Fed(reader: Reader, fired: seq<Frame>)

  /** How many handlers can run in a row before another byte is needed. */
  function HandlersLeft(r: Reader): nat {
    if !BufferFull(r) then 0
    else match r.stage case ReadObjectID => 3 case ReadHeader => 2 case ReadBody => 1
  }

  /** The chain on one chunk: a full buffer is handled, otherwise the next byte goes
      into the buffer. A body of size 0 is full without taking a byte. */
  function Feed(r: Reader, chunk: ByteString): (fed: Fed)
    requires ReaderOk(r)
    ensures ReaderOk(fed.reader) && !BufferFull(fed.reader)
    decreases |chunk|, HandlersLeft(r)
  {
    if BufferFull(r) then
      var fed := Feed(Complete(r), chunk);
      Fed(fed.reader, Fired(r) + fed.fired)
    else if chunk == [] then Fed(r, [])
    else Feed(r.(got := r.got + [chunk[0]]), chunk[1..])
  }

  /** The callbacks of the chain are the frames of the whole-stream decoder, and
      what it has taken of the next frame is the decoder's rest. */
  lemma {:induction false} FeedDecodes(r: Reader, chunk: ByteString)
    requires ReaderOk(r)
    ensures Decode(Taken(r) + chunk) == Decoded(Feed(r, chunk).fired, Taken(Feed(r, chunk).reader))
    decreases |chunk|, HandlersLeft(r)
  {
    if BufferFull(r) {
      CompleteKeepsDecode(r, chunk);
      FeedDecodes(Complete(r), chunk);
    } else if chunk == [] {
      StalledDeliversNothing(r);
      assert Taken(r) + chunk == Taken(r);
    } else {
      TakeOne(r, chunk);
      FeedDecodes(r.(got := r.got + [chunk[0]]), chunk[1..]);
    }
  }

  lemma TakeOne(r: Reader, chunk: ByteString)
    requires chunk != []
    ensures Taken(r.(got := r.got + [chunk[0]])) + chunk[1..] == Taken(r) + chunk
  {
    assert Taken(r.(got := r.got + [chunk[0]])) == Taken(r) + [chunk[0]];
    Seqs.Assoc(Taken(r), [chunk[0]], chunk[1..]);
    assert [chunk[0]] + chunk[1..] == chunk;
  }

  function FeedChunks(r: Reader, chunks: seq<ByteString>): (fed: Fed)
    requires ReaderOk(r) && !BufferFull(r)
    ensures ReaderOk(fed.reader) && !BufferFull(fed.reader)
    decreases |chunks|
  {
    if chunks == [] then Fed(r, [])
    else
      var first := Feed(r, chunks[0]);
      var later := FeedChunks(first.reader, chunks[1..]);
      Fed(later.reader, first.fired + later.fired)
  }

  lemma {:induction false} ChunksDontMatter(r: Reader, chunks: seq<ByteString>)
    requires ReaderOk(r) && !BufferFull(r)
    ensures var fed := FeedChunks(r, chunks);
            Decode(Taken(r) + Flatten(chunks)) == Decoded(fed.fired, Taken(fed.reader))
    decreases |chunks|
  {
    if chunks == [] {
      StalledDeliversNothing(r);
      assert Taken(r) + Flatten(chunks) == Taken(r);
    } else {
      var a := Taken(r) + chunks[0];
      assert Taken(r) + Flatten(chunks) == a + Flatten(chunks[1..]);
      FeedDecodes(r, chunks[0]);
      DecodeConcat(a, Flatten(chunks[1..]));
      ChunksDontMatter(Feed(r, chunks[0]).reader, chunks[1..]);
    }
  }

  /** The whole statement: for every list of frames, every prefix of its encoding
      and every split of that prefix into chunks, the callbacks of the chain are
      exactly the frames that are whole in the prefix, in order. */
  lemma IncrementalReading(fs: seq<Frame>, chunks: seq<ByteString>)
    requires forall i :: 0 <= i < |fs| ==> Fits(fs[i])
    requires Flatten(chunks) <= EncodeAll(fs)
    ensures var k := WholeFrames(fs, |Flatten(chunks)|);
            && FeedChunks(ARMED, chunks).fired == fs[..k]
            && |EncodeAll(fs[..k])| <= |Flatten(chunks)|
            && (k < |fs| ==> |Flatten(chunks)| < |EncodeAll(fs[..k + 1])|)
  {
    ChainDecodes(chunks);
    DecodePrefix(fs, Flatten(chunks));
    WholeFramesIsLargest(fs, |Flatten(chunks)|);
  }

  lemma ChainDecodes(chunks: seq<ByteString>)
    ensures FeedChunks(ARMED, chunks).fired == Decode(Flatten(chunks)).frames
  {
    ChunksDontMatter(ARMED, chunks);
    assert Taken(ARMED) + Flatten(chunks) == Flatten(chunks);
  }

  // ------------------------------------------------------ concurrent writers

  /** `schedule` names, write by write, which writer's next unit goes out. */
  predicate Schedules<T>(programs: seq<seq<T>>, schedule: seq<nat>)
    decreases |schedule|
  {
    schedule == [] ||
    (schedule[0] < |programs| && programs[schedule[0]] != [] &&
     Schedules(Advance(programs, schedule[0]), schedule[1..]))
  }

  function Advance<T>(programs: seq<seq<T>>, w: nat): seq<seq<T>>
    requires w < |programs| && programs[w] != []
  {
    programs[w := programs[w][1..]]
  }

  /** The units in the order in which the schedule writes them. */
  function Merge<T>(programs: seq<seq<T>>, schedule: seq<nat>): seq<T>
    requires Schedules(programs, schedule)
    decreases |schedule|
  {
    if schedule == [] then []
    else [programs[schedule[0]][0]] + Merge(Advance(programs, schedule[0]), schedule[1..])
  }

  function Gathered(fs: seq<Frame>): seq<ByteString> {
    seq(|fs|, i requires 0 <= i < |fs| => EncodeFrame(fs[i]))
  }

  function GatheredPrograms(programs: seq<seq<Frame>>): seq<seq<ByteString>> {
    seq(|programs|, i requires 0 <= i < |programs| => Gathered(programs[i]))
  }

  /** One frame written as three separate units. */
  function Parts(f: Frame): seq<ByteString> {
    [PutU32(f.id), PutU32(Narrow(|f.body|)), f.body]
  }

  lemma {:induction false} GatheredMerge(programs: seq<seq<Frame>>, schedule: seq<nat>)
    requires Schedules(programs, schedule)
    ensures Schedules(GatheredPrograms(programs), schedule)
    ensures Flatten(Merge(GatheredPrograms(programs), schedule)) == EncodeAll(Merge(programs, schedule))
    decreases |schedule|
  {
    if schedule != [] {
      var w := schedule[0];
      GatheredMerge(Advance(programs, w), schedule[1..]);
      assert Gathered(programs[w])[1..] == Gathered(programs[w][1..]);
      assert GatheredPrograms(Advance(programs, w)) == Advance(GatheredPrograms(programs), w);
    }
  }

  lemma {:induction false} MergeFits(programs: seq<seq<Frame>>, schedule: seq<nat>)
    requires Schedules(programs, schedule)
    requires forall w, i :: 0 <= w < |programs| && 0 <= i < |programs[w]| ==> Fits(programs[w][i])
    ensures forall i :: 0 <= i < |Merge(programs, schedule)| ==> Fits(Merge(programs, schedule)[i])
    decreases |schedule|
  {
    if schedule != [] {
      var next := Advance(programs, schedule[0]);
      forall w, i | 0 <= w < |next| && 0 <= i < |next[w]| ensures Fits(next[w][i]) {
        if w == schedule[0] {
          assert next[w][i] == programs[w][i + 1];
        }
      }
      MergeFits(next, schedule[1..]);
    }
  }

  /** The units of writer `w` among the merged ones, in order: a prefix of its
      own program. */
  function CountOf(schedule: seq<nat>, w: nat): nat {
    if schedule == [] then 0
    else (if schedule[0] == w then 1 else 0) + CountOf(schedule[1..], w)
  }

  function OwnUnits<T>(units: seq<T>, schedule: seq<nat>, w: nat): seq<T>
    requires |units| == |schedule|
  {
    if units == [] then []
    else (if schedule[0] == w then [units[0]] else []) + OwnUnits(units[1..], schedule[1..], w)
  }

  lemma {:induction false} MergeKeepsProgramOrder<T>(programs: seq<seq<T>>, schedule: seq<nat>, w: nat)
    requires Schedules(programs, schedule) && w < |programs|
    ensures |Merge(programs, schedule)| == |schedule|
    ensures CountOf(schedule, w) <= |programs[w]|
    ensures OwnUnits(Merge(programs, schedule), schedule, w) == programs[w][..CountOf(schedule, w)]
    decreases |schedule|
  {
    if schedule != [] {
      var v, n := schedule[0], CountOf(schedule[1..], w);
      var next, units := Advance(programs, v), Merge(programs, schedule);
      MergeKeepsProgramOrder(next, schedule[1..], w);
      assert units[1..] == Merge(next, schedule[1..]) && units[0] == programs[v][0];
      if v == w {
        assert next[w] == programs[w][1..];
        assert programs[w][..n + 1] == [programs[w][0]] + programs[w][1..][..n];
      } else {
        assert next[w] == programs[w];
      }
    }
  }

  /** One gathered write per frame: however any number of writers interleave, the
      reader decodes exactly the written frames in write order, and each
      writer's frames in that writer's order. */
  lemma GatheredWritesDecode(programs: seq<seq<Frame>>, schedule: seq<nat>, w: nat)
    requires Schedules(programs, schedule) && w < |programs|
    requires forall v, i :: 0 <= v < |programs| && 0 <= i < |programs[v]| ==> Fits(programs[v][i])
    ensures Schedules(GatheredPrograms(programs), schedule)
    ensures var wire := Flatten(Merge(GatheredPrograms(programs), schedule));
            && Decode(wire) == Decoded(Merge(programs, schedule), [])
            && |Decode(wire).frames| == |schedule|
            && CountOf(schedule, w) <= |programs[w]|
            && OwnUnits(Decode(wire).frames, schedule, w) == programs[w][..CountOf(schedule, w)]
  {
    GatheredMerge(programs, schedule);
    MergeFits(programs, schedule);
    MergeKeepsProgramOrder(programs, schedule, w);
    var fs := Merge(programs, schedule);
    DecodeEncodeAll(fs, []);
    assert EncodeAll(fs) + [] == EncodeAll(fs);
  }

  lemma MergeOfTwoTriples<T>(a: T, b: T, c: T, x: T, y: T, z: T)
    ensures var programs := [[a, b, c], [x, y, z]];
            && Schedules(programs, [0, 0, 1, 1, 0, 1])
            && Merge(programs, [0, 0, 1, 1, 0, 1]) == [a, b, x, y, c, z]
  {
    var s5: seq<nat> := [1];
    var s4: seq<nat> := [0, 1];
    var s3: seq<nat> := [1, 0, 1];
    var s2: seq<nat> := [1, 1, 0, 1];
    var s1: seq<nat> := [0, 1, 1, 0, 1];
    var s0: seq<nat> := [0, 0, 1, 1, 0, 1];
    assert s0[1..] == s1 && s1[1..] == s2 && s2[1..] == s3 && s3[1..] == s4 && s4[1..] == s5 && s5[1..] == [];
    var p5: seq<seq<T>> := [[], [z]];
    var p4: seq<seq<T>> := [[c], [z]];
    var p3: seq<seq<T>> := [[c], [y, z]];
    var p2: seq<seq<T>> := [[c], [x, y, z]];
    var p1: seq<seq<T>> := [[b, c], [x, y, z]];
    var p0: seq<seq<T>> := [[a, b, c], [x, y, z]];
    assert [c][1..] == [] && [b, c][1..] == [c] && [a, b, c][1..] == [b, c];
    assert [y, z][1..] == [z] && [x, y, z][1..] == [y, z];
    assert Advance(p4, 0) == p5 && Advance(p3, 1) == p4 && Advance(p2, 1) == p3;
    assert Advance(p1, 0) == p2 && Advance(p0, 0) == p1;
    assert Schedules(p5, s5) && Merge(p5, s5) == [z];
    assert Schedules(p4, s4) && Merge(p4, s4) == [c, z];
    assert Schedules(p3, s3) && Merge(p3, s3) == [y, c, z];
    assert Schedules(p2, s2) && Merge(p2, s2) == [x, y, c, z];
    assert Schedules(p1, s1) && Merge(p1, s1) == [b, x, y, c, z];
  }

  /** Were the three parts separate writes, two writers could garble the stream:
      here the reader sees frame 1 with a body that is the other frame's id. */
  lemma SeparatePartsGarble()
    ensures var a, b := Frame(1, [7, 7, 7, 7]), Frame(2, [9]);
            var programs := [Parts(a), Parts(b)];
            && Schedules(programs, [0, 0, 1, 1, 0, 1])
            && (var got := Decode(Flatten(Merge(programs, [0, 0, 1, 1, 0, 1]))).frames;
                |got| > 0 && got[0] == Frame(1, PutU32(2)) && got[0] != a && got[0] != b)
  {
    var a, b := Frame(1, [7, 7, 7, 7]), Frame(2, [9]);
    MergeOfTwoTriples(PutU32(1), PutU32(4), a.body, PutU32(2), PutU32(1), b.body);
    assert Parts(a) == [PutU32(1), PutU32(4), a.body] && Parts(b) == [PutU32(2), PutU32(1), b.body];
    var head: seq<ByteString> := [PutU32(1), PutU32(4), PutU32(2)];
    var rest: seq<ByteString> := [PutU32(1), a.body, b.body];
    assert head + rest == [PutU32(1), PutU32(4), PutU32(2), PutU32(1), a.body, b.body];
    FlattenConcat(head, rest);
    FlattenThree(PutU32(1), PutU32(4), PutU32(2));
    DecodeOne(1, 4, PutU32(2), Flatten(rest));
    assert PutU32(2)[0] == 2;
  }

  lemma {:induction false} FlattenConcat(xs: seq<ByteString>, ys: seq<ByteString>)
    ensures Flatten(xs + ys) == Flatten(xs) + Flatten(ys)
  {
    if xs == [] {
      assert xs + ys == ys;
    } else {
      assert (xs + ys)[1..] == xs[1..] + ys;
      FlattenConcat(xs[1..], ys);
    }
  }

  lemma FlattenThree(a: ByteString, b: ByteString, c: ByteString)
    ensures Flatten([a, b, c]) == a + b + c
  {
    assert [a, b, c][1..] == [b, c] && [b, c][1..] == [c] && [c][1..] == [];
    assert Flatten([c]) == c + Flatten([]) == c;
    assert Flatten([b, c]) == b + c;
  }
}
