/** `AsioStream`: the chain of asynchronous reads that fills one buffer per stage
    in place and re-arms itself, and the gathered write. */
module AsioStreams {
  import opened Bytes
  import opened Framing
  import Seqs

  class AsioStream {
    const streamId: nat
    // The pending read: its stage, the values its handler captured, its buffer.
    var stage: Stage
    var objectId: U32
    var bodySize: U32
    var buffer: array<Byte>
    var filled: nat
    // Cleared by a handler that saw an error code: nothing is re-armed.
    var reading: bool
    // The calls of `invocation_callback_`, oldest first.
    var callbacks: seq<Frame>
    // The bytes handed to `async_write`, oldest first.
    var written: ByteString

    ghost predicate Valid()
      reads this
    {
      filled <= buffer.Length &&
      buffer.Length == (match stage case ReadObjectID => 4 case ReadHeader => 4 case ReadBody => bodySize)
    }

    ghost function Pending(): Reader
      reads this, buffer
      requires Valid()
    {
      match stage
      case ReadObjectID => Reader(ReadObjectID, 0, 0, buffer[..filled])
      case ReadHeader => Reader(ReadHeader, objectId, 0, buffer[..filled])
      case ReadBody => Reader(ReadBody, objectId, bodySize, buffer[..filled])
    }

    constructor (streamId: nat)
      ensures Valid() && fresh(buffer) && this.streamId == streamId
      ensures Pending() == ARMED && reading && callbacks == [] && written == []
    {
      this.streamId := streamId;
      stage, objectId, bodySize, filled := ReadObjectID, 0, 0, 0;
      buffer := new Byte[4](_ => 0);
      reading, callbacks, written := true, [], [];
    }

    method DoReadObjectID()
      modifies this`stage, this`buffer, this`filled
      ensures Valid() && fresh(buffer) && Pending() == ARMED
    {
      stage, filled := ReadObjectID, 0;
      buffer := new Byte[4](_ => 0);
    }

    method DoReadHeader(objectId: U32)
      modifies this`stage, this`objectId, this`buffer, this`filled
      ensures Valid() && fresh(buffer) && Pending() == Reader(ReadHeader, objectId, 0, [])
    {
      stage, this.objectId, filled := ReadHeader, objectId, 0;
      buffer := new Byte[4](_ => 0);
    }

    method DoReadBody(objectId: U32, bodySize: U32)
      modifies this`stage, this`objectId, this`bodySize, this`buffer, this`filled
      ensures Valid() && fresh(buffer) && Pending() == Reader(ReadBody, objectId, bodySize, [])
    {
      stage, this.objectId, this.bodySize, filled := ReadBody, objectId, bodySize, 0;
      buffer := new Byte[bodySize](_ => 0);
    }

    /** The handler of a full buffer: read the stored value and arm the next
        stage; after the body, call back and start over. */
    method OnBufferFull()
      requires Valid() && BufferFull(Pending())
      modifies this
      ensures Valid() && fresh(buffer)
      ensures Pending() == Complete(old(Pending()))
      ensures callbacks == old(callbacks) + Fired(old(Pending()))
      ensures reading == old(reading) && written == old(written)
    {
      assert buffer[..filled] == buffer[..];
      match stage
      case ReadObjectID =>
        DoReadHeader(GetU32(buffer[..]));
      case ReadHeader =>
        DoReadBody(objectId, GetU32(buffer[..]));
      case ReadBody =>
        callbacks := callbacks + [Frame(objectId, buffer[..])];
        DoReadObjectID();
    }

    /** One byte arrives in the buffer of the pending read. */
    method Store(b: Byte)
      requires Valid() && !BufferFull(Pending())
      modifies this`filled, buffer
      ensures Valid()
      ensures Pending() == old(Pending()).(got := old(Pending()).got + [b])
    {
      buffer[filled] := b;
      filled := filled + 1;
      assert buffer[..filled] == old(buffer[..filled]) + [b];
    }

    /** Every full buffer is handled. A body of size 0 is full without taking a
        byte, so several stages may complete in a row. */
    method HandleFull()
      requires Valid() && reading
      modifies this
      ensures Valid() && (buffer == old(buffer) || fresh(buffer))
      ensures reading && written == old(written) && !BufferFull(Pending())
      ensures callbacks == old(callbacks) + Decode(old(Taken(Pending()))).frames
      ensures Taken(Pending()) == Decode(old(Taken(Pending()))).rest
    {
      ghost var all := Decode(Taken(Pending()));
      while filled == buffer.Length
        invariant Valid() && (buffer == old(buffer) || fresh(buffer))
        invariant reading && written == old(written)
        invariant old(callbacks) + all.frames == callbacks + Decode(Taken(Pending())).frames
        invariant all.rest == Decode(Taken(Pending())).rest
        decreases HandlersLeft(Pending())
      {
        HandlerSplits(Pending(), callbacks);
        OnBufferFull();
      }
      StalledDeliversNothing(Pending());
    }

    /** A byte arrives, and may complete stages. */
    method ReceiveByte(b: Byte)
      requires Valid() && reading && !BufferFull(Pending())
      modifies this, buffer
      ensures Valid() && (buffer == old(buffer) || fresh(buffer))
      ensures reading && written == old(written) && !BufferFull(Pending())
      ensures callbacks == old(callbacks) + Decode(old(Taken(Pending())) + [b]).frames
      ensures Taken(Pending()) == Decode(old(Taken(Pending())) + [b]).rest
    {
      TakenMore(Pending(), b);
      Store(b);
      HandleFull();
    }

    /** A handler moves what is still to be called back into what was called back. */
    lemma HandlerSplits(r: Reader, before: seq<Frame>)
      requires ReaderOk(r) && BufferFull(r)
      ensures ReaderOk(Complete(r))
      ensures before + Decode(Taken(r)).frames == (before + Fired(r)) + Decode(Taken(Complete(r))).frames
      ensures Decode(Taken(r)).rest == Decode(Taken(Complete(r))).rest
    {
      CompleteKeepsDecode(r, []);
      NothingMore(Taken(r));
      NothingMore(Taken(Complete(r)));
      Seqs.Assoc(before, Fired(r), Decode(Taken(Complete(r))).frames);
    }

    lemma TakenMore(r: Reader, b: Byte)
      ensures Taken(r.(got := r.got + [b])) == Taken(r) + [b]
    {
    }

    lemma NothingMore(b: ByteString)
      ensures b + [] == b
    {
    }

    /** Any number of bytes arrive: the callbacks are the whole frames in what was
        pending and what arrived, and exactly the rest stays pending. */
    method Receive(chunk: ByteString)
      requires Valid() && (reading ==> !BufferFull(Pending()))
      modifies this, buffer
      ensures Valid() && (buffer == old(buffer) || fresh(buffer))
      ensures reading == old(reading) && written == old(written)
      ensures reading ==> !BufferFull(Pending())
      ensures !reading ==> callbacks == old(callbacks)
      ensures reading ==>
                callbacks == old(callbacks) + Decode(old(Taken(Pending())) + chunk).frames
                && Taken(Pending()) == Decode(old(Taken(Pending())) + chunk).rest
    {
      if !reading {
        return;
      }
      ghost var start := Taken(Pending());
      StalledDeliversNothing(Pending());
      NothingMore(start);
      assert chunk[..0] == [];
      for i := 0 to |chunk|
        invariant Valid() && (buffer == old(buffer) || fresh(buffer))
        invariant reading && written == old(written) && !BufferFull(Pending())
        invariant callbacks == old(callbacks) + Decode(start + chunk[..i]).frames
        invariant Taken(Pending()) == Decode(start + chunk[..i]).rest
      {
        OneMore(start, chunk, i);
        DecodeConcat(start + chunk[..i], [chunk[i]]);
        Seqs.Assoc(old(callbacks), Decode(start + chunk[..i]).frames, Decode(Taken(Pending()) + [chunk[i]]).frames);
        ReceiveByte(chunk[i]);
      }
      assert chunk[..|chunk|] == chunk;
    }

    lemma OneMore(start: ByteString, chunk: ByteString, i: nat)
      requires i < |chunk|
      ensures start + chunk[..i + 1] == start + chunk[..i] + [chunk[i]]
    {
    }

    /** End of stream or any other error: the handler returns without a callback
        and without arming another read, so a partial frame is never delivered. */
    method OnError()
      modifies this`reading
      ensures !reading
    {
      reading := false;
    }

    /** One gathered write of id, size and body. */
    method Write(objectId: nat, data: ByteString)
      modifies this`written
      ensures written == old(written) + Encode(objectId, data)
    {
      var header := PutU32(Narrow(|data|));
      written := written + (PutU32(Narrow(objectId)) + header + data);
    }
  }

  /** The sending end: the stream of bytes is the encoding of the messages. */
  method SendAll(messages: seq<Frame>) returns (wire: ByteString)
    ensures wire == EncodeAll(messages)
  {
    var sender := new AsioStream(0);
    for k := 0 to |messages|
      invariant sender.written == EncodeAll(messages[..k])
    {
      sender.Write(messages[k].id, messages[k].body);
      SendOneMore(messages, k);
    }
    assert messages[..|messages|] == messages;
    wire := sender.written;
  }

  lemma SendOneMore(messages: seq<Frame>, k: nat)
    requires k < |messages|
    ensures EncodeAll(messages[..k + 1]) == EncodeAll(messages[..k]) + Encode(messages[k].id, messages[k].body)
  {
    assert messages[..k + 1] == messages[..k] + [messages[k]];
    EncodeAllConcat(messages[..k], [messages[k]]);
    assert [messages[k]][1..] == [];
    assert EncodeAll([messages[k]]) == EncodeFrame(messages[k]) + EncodeAll([]) == EncodeFrame(messages[k]);
  }

  /** The receiving end, when the bytes arrive in the given chunks and then the
      connection ends. */
  method ReceiveAll(chunks: seq<ByteString>) returns (received: seq<Frame>)
    ensures received == Decode(Flatten(chunks)).frames
  {
    var receiver := new AsioStream(1);
    assert chunks[..0] == [];
    for k := 0 to |chunks|
      invariant receiver.Valid() && fresh(receiver) && fresh(receiver.buffer)
      invariant receiver.reading && !BufferFull(receiver.Pending())
      invariant receiver.callbacks == Decode(Flatten(chunks[..k])).frames
      invariant Taken(receiver.Pending()) == Decode(Flatten(chunks[..k])).rest
    {
      FlattenOneMore(chunks, k);
      DecodeConcat(Flatten(chunks[..k]), chunks[k]);
      receiver.Receive(chunks[k]);
    }
    assert chunks[..|chunks|] == chunks;
    receiver.OnError();
    received := receiver.callbacks;
  }

  lemma FlattenOneMore(chunks: seq<ByteString>, k: nat)
    requires k < |chunks|
    ensures Flatten(chunks[..k + 1]) == Flatten(chunks[..k]) + chunks[k]
  {
    assert chunks[..k + 1] == chunks[..k] + [chunks[k]];
    FlattenConcat(chunks[..k], [chunks[k]]);

    assert Flatten([chunks[k]]) == chunks[k] + Flatten([]) == chunks[k];
  }

  /** The stream cut into chunks of the given sizes, as far as its bytes last; what
      is not covered never arrives. */
  function Cut(wire: ByteString, sizes: seq<nat>): seq<ByteString>
    decreases |sizes|
  {
    if sizes == [] then []
    else if sizes[0] >= |wire| then [wire]
    else [wire[..sizes[0]]] + Cut(wire[sizes[0]..], sizes[1..])
  }

  /** How many bytes arrive in those chunks. */
  function Arriving(length: nat, sizes: seq<nat>): (n: nat)
    ensures n <= length
    decreases |sizes|
  {
    if sizes == [] then 0
    else if sizes[0] >= length then length
    else sizes[0] + Arriving(length - sizes[0], sizes[1..])
  }

  lemma {:induction false} CutIsPrefix(wire: ByteString, sizes: seq<nat>)
    ensures Flatten(Cut(wire, sizes)) == wire[..Arriving(|wire|, sizes)]
    decreases |sizes|
  {
    if sizes != [] {
      var n := sizes[0];
      if n >= |wire| {
        assert [wire][1..] == [] && wire + [] == wire;
      } else {
        var rest := wire[n..];
        CutIsPrefix(rest, sizes[1..]);
        var m := Arriving(|rest|, sizes[1..]);
        assert wire[..n + m] == wire[..n] + rest[..m];
      }
    }
  }

  /** A connection as both ends use it: one end writes the messages, the bytes
      arrive in chunks of any sizes, and the connection ends, possibly before all
      of them arrived. The other end's callbacks are exactly the messages that
      arrived whole, in order. */
  method Transfer(messages: seq<Frame>, sizes: seq<nat>) returns (received: seq<Frame>)
    requires forall i :: 0 <= i < |messages| ==> Fits(messages[i])
    ensures var n := Arriving(|EncodeAll(messages)|, sizes);
            && received == messages[..WholeFrames(messages, n)]
            && (n == |EncodeAll(messages)| ==> received == messages)
  {
    var wire := SendAll(messages);
    var chunks := Cut(wire, sizes);
    received := ReceiveAll(chunks);
    CutIsPrefix(wire, sizes);
    DecodePrefix(messages, Flatten(chunks));
    AllWhole(messages);
  }

  lemma {:induction false} AllWhole(messages: seq<Frame>)
    ensures WholeFrames(messages, |EncodeAll(messages)|) == |messages|
  {
    if messages != [] {
      AllWhole(messages[1..]);
    }
  }
}
