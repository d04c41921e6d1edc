/** `Submitter`, `ServiceHandle::Call` and `DousiFuture` as the objects they are:
    the id counter, the reply cache the receive callback fills, the polling
    lookup, and the future's memo. Their methods are the client steps of
    `Pipeline`. */
module Submitters {
  import opened Bytes
  import opened Framing
  import opened Dispatch
  import opened Pipeline
  import opened PipelineSafety
  import opened PipelineTheorems
  import opened AsioStreams

  /** The receive callback applied to frames that arrive one after the other. */
  function Deliver(c: Client, fs: seq<Frame>): Client
    decreases |fs|
  {
    if fs == [] then c else Deliver(CliReceive(c, fs[0]), fs[1..])
  }

  lemma {:induction false} DeliverKeepsKeys(c: Client, fs: seq<Frame>, id: nat)
    ensures id in Deliver(c, fs).cached <==> id in c.cached || exists k :: 0 <= k < |fs| && fs[k].id == id
    ensures id in c.cached && (forall k :: 0 <= k < |fs| ==> fs[k].id != id) ==>
              id in Deliver(c, fs).cached && Deliver(c, fs).cached[id] == c.cached[id]
    ensures Deliver(c, fs).issued == c.issued && Deliver(c, fs).received == c.received + fs
    decreases |fs|
  {
    if fs != [] {
      DeliverKeepsKeys(CliReceive(c, fs[0]), fs[1..], id);
      assert forall k :: 0 <= k < |fs[1..]| ==> fs[1..][k] == fs[k + 1];
      if k: nat :| k < |fs| && fs[k].id == id {
        assert k > 0 ==> fs[1..][k - 1].id == id;
      }
    }
  }

  lemma {:induction false} DeliverSnoc(c: Client, fs: seq<Frame>, f: Frame)
    ensures Deliver(c, fs + [f]) == CliReceive(Deliver(c, fs), f)
    decreases |fs|
  {
    if fs == [] {
      assert [f][1..] == [];
    } else {
      assert (fs + [f])[1..] == fs[1..] + [f];
      DeliverSnoc(CliReceive(c, fs[0]), fs[1..], f);
    }
  }

  /** Everything delivered during the first `n` sleeps of a lookup. */
  function Arrived(arrivals: seq<seq<Frame>>, n: nat): seq<Frame>
    requires n <= |arrivals|
  {
    if n == 0 then [] else Arrived(arrivals, n - 1) + arrivals[n - 1]
  }

  lemma {:induction false} DeliverConcat(c: Client, fs: seq<Frame>, gs: seq<Frame>)
    ensures Deliver(c, fs + gs) == Deliver(Deliver(c, fs), gs)
    decreases |fs|
  {
    if fs == [] {
      assert fs + gs == gs;
    } else {
      assert (fs + gs)[1..] == fs[1..] + gs;
      DeliverConcat(CliReceive(c, fs[0]), fs[1..], gs);
    }
  }

  lemma KeysStay(c: Client, fs: seq<Frame>)
    ensures forall id :: id in c.cached ==> id in Deliver(c, fs).cached
  {
    forall id | id in c.cached ensures id in Deliver(c, fs).cached {
      DeliverKeepsKeys(c, fs, id);
    }
  }

  /** A lookup of client `c` that found its reply after `k` sleeps, and not before,
      leaves `d`: the callbacks of those sleeps and the late ones, and no more. */
  ghost predicate FoundAfter(c: Client, id: nat, arrivals: seq<seq<Frame>>, late: seq<Frame>, k: nat, d: Client) {
    && k <= |arrivals|
    && d == Deliver(c, Arrived(arrivals, k) + late)
    && id in Deliver(c, Arrived(arrivals, k)).cached
    && forall m: nat :: m < k ==> id !in Deliver(c, Arrived(arrivals, m)).cached
  }

  class Submitter {
    var currObjectId: nat
    var cachedObjects: map<nat, ByteString>
    const stream: AsioStream
    // The client's state in the pipeline: its histories and what is above.
    ghost var model: Client

    ghost predicate Valid()
      reads this, stream
    {
      && stream.Valid()
      && |model.issued| == currObjectId
      && model.cached == cachedObjects
      && ClientOk(model)
      && |model.pending| <= |model.issued|
    }

    constructor ()
      ensures Valid() && fresh(stream) && fresh(stream.buffer)
      ensures model == NEW_CLIENT && stream.written == [] && stream.Pending() == ARMED
    {
      currObjectId, cachedObjects := 0, map[];
      stream := new AsioStream(0);
      model := NEW_CLIENT;
    }

    method RequestObjectID(ghost call: Call) returns (objectId: nat)
      requires Valid()
      modifies this
      ensures Valid() && stream.written == old(stream.written)
      ensures objectId == |old(model.issued)| && model == CliRequestId(old(model), call)
    {
      objectId := currObjectId;
      currObjectId := currObjectId + 1;
      model := CliRequestId(model, call);
    }

    /** Ticket `i` is pending and this is its id and its packed call. */
    ghost predicate IsPending(i: nat, objectId: nat, buffer: ByteString)
      reads this
    {
      i < |model.pending| && objectId == model.pending[i].id && buffer == PackCall(model.pending[i].call)
    }

    /** Any id and any bytes are written as they are. When they are those of a
        pending ticket this is the pipeline's step. */
    method Submit(objectId: nat, buffer: ByteString, ghost i: nat)
      requires Valid()
      modifies this, stream`written
      ensures Valid() && stream.written == old(stream.written) + Encode(objectId, buffer)
      ensures currObjectId == old(currObjectId) && cachedObjects == old(cachedObjects)
      ensures model == if old(IsPending(i, objectId, buffer)) then CliSubmit(old(model), i) else old(model)
    {
      stream.Write(objectId, buffer);
      if IsPending(i, objectId, buffer) {
        model := CliSubmit(model, i);
      }
    }

    /** `ServiceHandle::Call`: take an id, pack the tuple, submit it, and hand out
        the id for the future. The call's frame is what the wire gains. */
    method Call(service: ByteString, name: ByteString, args: seq<ByteString>) returns (objectId: nat)
      requires Valid()
      modifies this, stream`written
      ensures Valid() && objectId == |old(model.issued)|
      ensures var t := Ticket(objectId, Dispatch.Call(service, name, args));
              && model.issued == old(model.issued) + [t]
              && model.submitted == old(model.submitted) + [t]
              && model.pending == old(model.pending)
              && model.received == old(model.received) && model.accepted == old(model.accepted)
              && model.cached == old(model.cached)
              && stream.written == old(stream.written) + Encode(objectId, PackCall(t.call))
    {
      ghost var call := Dispatch.Call(service, name, args);
      objectId := RequestObjectID(call);
      var buffer := PutList([service, name] + args);
      Submit(objectId, buffer, |model.pending| - 1);
    }

    /** The receive callback of the client's stream. */
    method OnReturned(objectId: U32, buffer: ByteString)
      requires Valid()
      modifies this
      ensures Valid() && stream.written == old(stream.written)
      ensures model == CliReceive(old(model), Frame(objectId, buffer))
    {
      cachedObjects := cachedObjects[objectId := buffer];
      model := CliReceive(model, Frame(objectId, buffer));
      assert model.received[..|model.received| - 1] == old(model).received;
    }

    method OnAllReturned(fs: seq<Frame>)
      requires Valid()
      modifies this
      ensures Valid() && stream.written == old(stream.written) && model == Deliver(old(model), fs)
    {
      for k := 0 to |fs|
        invariant Valid() && stream.written == old(stream.written) && model == Deliver(old(model), fs[..k])
      {
        DeliverSnoc(old(model), fs[..k], fs[k]);
        assert fs[..k + 1] == fs[..k] + [fs[k]];
        OnReturned(fs[k].id, fs[k].body);
      }
      assert fs[..|fs|] == fs;
    }

    /** The polling lookup. `arrivals[k]` is what the callback delivers during the
        k-th sleep and `late` what it delivers between the locked lookup and the
        unlocked one. `None` means that the arrivals ran out and it still polls.
        It stops as soon as some reply with this id is there, the second lookup
        always succeeds, and it sees what the first one saw unless a late frame
        carries the same id. Nothing but the callbacks that came in between
        changes the client, so every reply it had stays. */
    method GetObject(objectId: nat, arrivals: seq<seq<Frame>>, late: seq<Frame>)
      returns (found: Option<ByteString>, ghost seen: Option<ByteString>)
      requires Valid()
      modifies this
      ensures Valid() && stream.written == old(stream.written) && model.issued == old(model.issued)
      ensures found.None? <==> objectId !in Deliver(old(model), Arrived(arrivals, |arrivals|)).cached
      ensures found.None? ==> model == Deliver(old(model), Arrived(arrivals, |arrivals|))
      ensures found.Some? ==> exists k: nat :: FoundAfter(old(model), objectId, arrivals, late, k, model)
      ensures forall id :: id in old(cachedObjects) ==> id in cachedObjects
      ensures found.Some? ==> objectId in cachedObjects && found.value == cachedObjects[objectId]
      ensures found.Some? ==> seen.Some?
      ensures found.Some? && (forall k :: 0 <= k < |late| ==> late[k].id != objectId) ==> found == seen
    {
      var k := 0;
      while objectId !in cachedObjects
        invariant 0 <= k <= |arrivals|
        invariant Valid() && stream.written == old(stream.written)
        invariant model == Deliver(old(model), Arrived(arrivals, k))
        invariant forall m: nat :: m < k ==> objectId !in Deliver(old(model), Arrived(arrivals, m)).cached
        decreases |arrivals| - k
      {
        if k == |arrivals| {
          DeliverKeepsKeys(old(model), Arrived(arrivals, k), objectId);
          KeysStay(old(model), Arrived(arrivals, k));
          return None, None;
        }
        DeliverConcat(old(model), Arrived(arrivals, k), arrivals[k]);
        OnAllReturned(arrivals[k]);
        k := k + 1;
      }
      ghost var locked := model;
      seen := Some(cachedObjects[objectId]);
      ArrivedKeysStay(old(model), arrivals, k, |arrivals|, objectId);
      DeliverKeepsKeys(old(model), Arrived(arrivals, k), objectId);
      DeliverKeepsKeys(locked, late, objectId);
      OnAllReturned(late);
      DeliverConcat(old(model), Arrived(arrivals, k), late);
      assert FoundAfter(old(model), objectId, arrivals, late, k, model);
      KeysStay(old(model), Arrived(arrivals, k) + late);
      found := Some(cachedObjects[objectId]);
    }
  }

  lemma {:induction false} ArrivedKeysStay(c: Client, arrivals: seq<seq<Frame>>, m: nat, n: nat, id: nat)
    requires m <= n <= |arrivals| && id in Deliver(c, Arrived(arrivals, m)).cached
    ensures id in Deliver(c, Arrived(arrivals, n)).cached
  {
    if m < n {
      ArrivedKeysStay(c, arrivals, m, n - 1, id);
      MoreKeepsKey(c, Arrived(arrivals, n - 1), arrivals[n - 1], id);
    }
  }

  lemma MoreKeepsKey(c: Client, fs: seq<Frame>, gs: seq<Frame>, id: nat)
    requires id in Deliver(c, fs).cached
    ensures id in Deliver(c, fs + gs).cached
  {
    DeliverConcat(c, fs, gs);
    DeliverKeepsKeys(Deliver(c, fs), gs, id);
  }

  class DousiFuture {
    const submitter: Submitter
    const objectId: nat
    var hasData: bool
    var data: ByteString

    /** The memo is what a fresh lookup would return. */
    ghost predicate MemoIsFresh()
      reads this, submitter
    {
      hasData ==> objectId in submitter.cachedObjects && submitter.cachedObjects[objectId] == data
    }

    constructor (submitter: Submitter, objectId: nat)
      ensures this.submitter == submitter && this.objectId == objectId && !hasData && MemoIsFresh()
    {
      this.submitter := submitter;
      this.objectId := objectId;
      hasData, data := false, [];
    }

    /** The first successful `Get` looks the object up and keeps it; later ones
        return what was kept and do not touch the submitter. */
    method Get(arrivals: seq<seq<Frame>>, late: seq<Frame>) returns (found: Option<ByteString>)
      requires submitter.Valid() && MemoIsFresh()
      modifies this, submitter
      ensures submitter.Valid() && MemoIsFresh()
      ensures hasData == found.Some? && (found.Some? ==> found.value == data)
      ensures old(hasData) ==>
                found == Some(old(data)) && submitter.model == old(submitter.model)
                && submitter.cachedObjects == old(submitter.cachedObjects)
      ensures !old(hasData) ==>
                (found.Some? <==>
                 objectId in Deliver(old(submitter.model), Arrived(arrivals, |arrivals|)).cached)
      ensures !old(hasData) && found.None? ==>
                submitter.model == Deliver(old(submitter.model), Arrived(arrivals, |arrivals|))
      ensures !old(hasData) && found.Some? ==>
                exists k: nat :: FoundAfter(old(submitter.model), objectId, arrivals, late, k, submitter.model)
      ensures forall id :: id in old(submitter.cachedObjects) ==> id in submitter.cachedObjects
    {
      if hasData {
        return Some(data);
      }
      ghost var seen;
      found, seen := submitter.GetObject(objectId, arrivals, late);
      if found.Some? {
        data, hasData := found.value, true;
      }
    }

    /** The submitter is client `c` of a run with at most 2^32 calls per client,
        before in state `i` and now in state `j`. Whatever steps came between, the
        memo is what a fresh lookup returns now. */
    twostate lemma MemoStaysFresh(cfg: Config, states: seq<State>, actions: seq<Action>, i: nat, j: nat, c: nat)
      requires old(MemoIsFresh()) && unchanged(this)
      requires old(submitter.Valid()) && submitter.Valid()
      requires RunFromInit(cfg, states, actions) && i <= j < |states| && c < |states[i].clients| <= |states[j].clients|
      requires forall d :: 0 <= d < |states[j].clients| ==> |states[j].clients[d].issued| <= U32_LIMIT
      requires old(submitter.model) == states[i].clients[c] && submitter.model == states[j].clients[c]
      ensures MemoIsFresh()
    {
      LookupIsStable(cfg, states, actions, i, j, c);
    }
  }
}
