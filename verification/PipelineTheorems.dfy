/** What holds in every state of every run of the pipeline. */
module PipelineTheorems {
  import opened Bytes
  import opened Framing
  import opened Dispatch
  import opened Pipeline
  import opened PipelineSafety
  import opened Conservation
  import opened Sums

  ghost predicate Inv(cfg: Config, s: State) {
    && Shape(cfg, s)
    && (forall k :: CallsConserved(s, k))
    && (forall k :: AnswersConserved(s, k))
  }

  lemma InitInv(cfg: Config)
    ensures Inv(cfg, Init(cfg))
  {
  }

  lemma StepInv(cfg: Config, s: State, a: Action)
    requires Inv(cfg, s) && Enabled(cfg, s, a)
    ensures Inv(cfg, Step(cfg, s, a))
  {
    StepKeepsShape(cfg, s, a);
    var t := Step(cfg, s, a);
    forall k ensures CallsConserved(t, k) {
      StepConservesCalls(cfg, s, a, k);
    }
    forall k ensures AnswersConserved(t, k) {
      StepConservesAnswers(cfg, s, a, k);
    }
  }

  lemma {:induction false} RunInv(cfg: Config, states: seq<State>, actions: seq<Action>, i: nat)
    requires RunFromInit(cfg, states, actions) && i < |states|
    ensures Inv(cfg, states[i])
  {
    if i == 0 {
      InitInv(cfg);
    } else {
      RunInv(cfg, states, actions, i - 1);
      StepInv(cfg, states[i - 1], actions[i - 1]);
    }
  }

  // ----------------------------------------------------------------- tracing

  /** A call that is anywhere past `RequestObjectID` was issued by its client. */
  lemma AskedWasIssued(cfg: Config, s: State, k: Asked) returns (n: nat)
    requires Inv(cfg, s) && k.client < |s.clients|
    requires Sum(s.clients[k.client].issued, TicketW(k)) > 0
    ensures n < |s.clients[k.client].issued|
    ensures Narrow(n) == k.id && s.clients[k.client].issued[n].call == k.call
  {
    n := SumWitness(s.clients[k.client].issued, TicketW(k));
    assert ClientOk(s.clients[k.client]);
  }

  function AskedIn(srv: Server, e: Record): Asked
    requires e.request.streamId in srv.streams
  {
    Asked(srv.streams[e.request.streamId], e.request.objectId, e.request.call)
  }

  lemma RecordWasIssued(cfg: Config, s: State, j: nat) returns (n: nat)
    requires Inv(cfg, s) && j < |s.server.log|
    ensures var e := s.server.log[j]; e.request.streamId in s.server.streams
    ensures var e, c := s.server.log[j], s.server.streams[s.server.log[j].request.streamId];
            && c < |s.clients| && n < |s.clients[c].issued|
            && Narrow(n) == e.request.objectId && s.clients[c].issued[n].call == e.request.call
  {
    var k := AskedIn(s.server, s.server.log[j]);
    SumAtLeast(s.server.log, j, DoneW(s.server.streams, k));
    assert CallsConserved(s, k);
    n := AskedWasIssued(cfg, s, k);
  }

  /** Whatever a client received was computed for it: some record of its own
      stream has that id and those bytes. */
  lemma ReceivedWasAnswered(cfg: Config, s: State, c: nat, m: nat) returns (j: nat)
    requires Inv(cfg, s) && c < |s.clients| && m < |s.clients[c].received|
    ensures j < |s.server.log|
    ensures var e, f := s.server.log[j], s.clients[c].received[m];
            && OwnedBy(s.server.streams, e.request.streamId, c)
            && e.request.objectId == f.id && e.result == f.body
  {
    var f := s.clients[c].received[m];
    var k := Answer(c, f.id, f.body);
    SumAtLeast(s.clients[c].received, m, DownW(k));
    assert AnswersConserved(s, k);
    j := SumWitness(s.server.log, AnsweredW(s.server.streams, k));
  }

  lemma {:induction false} CachedWasReceived(received: seq<Frame>, id: nat) returns (m: nat)
    requires id in CacheOf(received)
    ensures m < |received| && received[m].id == id && received[m].body == CacheOf(received)[id]
  {
    var n := |received| - 1;
    if received[n].id == id {
      m := n;
    } else {
      m := CachedWasReceived(received[..n], id);
    }
  }

  lemma {:induction false} ReceivedIsCached(received: seq<Frame>, m: nat)
    requires m < |received|
    ensures received[m].id in CacheOf(received)
  {
    var n := |received| - 1;
    if m < n {
      ReceivedIsCached(received[..n], m);
    }
  }

  // ----------------------------------------------------------------- routing

  /** Client `c` asked for `call` under `id`, record `j` is that request, and `b` is
      what the method registered under its name returned for exactly its arguments
      after the calls performed before it. */
  ghost predicate AnsweredBy(cfg: Config, s: State, c: nat, id: nat, call: Call, b: ByteString, j: nat) {
    && j < |s.server.log|
    && OwnedBy(s.server.streams, s.server.log[j].request.streamId, c)
    && s.server.log[j].request.objectId == id
    && s.server.log[j].request.call == call
    && call.name in Methods(cfg)
    && exists history :: IsHistory(history, s.server.log, j) && b == Methods(cfg)[call.name](history, call.args)
  }

  ghost predicate AnswersCall(cfg: Config, s: State, c: nat, id: nat, call: Call, b: ByteString) {
    exists j: nat :: AnsweredBy(cfg, s, c, id, call, b, j)
  }

  /** With at most 2^32 calls per client, only one record and only one byte string
      answer a call: no reply can stand in for another, even of an equal call. */
  lemma AnswerIsUnique(cfg: Config, s: State, c: nat, id: nat, x: Call, y: Call, a: ByteString, b: ByteString, i: nat, j: nat)
    requires Inv(cfg, s) && forall d :: 0 <= d < |s.clients| ==> |s.clients[d].issued| <= U32_LIMIT
    requires AnsweredBy(cfg, s, c, id, x, a, i) && AnsweredBy(cfg, s, c, id, y, b, j)
    ensures i == j && x == y && a == b
  {
    OneRecord(cfg, s, i, j);
    assert RecordOk(cfg, s.server.log, j);
  }

  lemma RecordAnswers(cfg: Config, s: State, j: nat)
    requires Inv(cfg, s) && j < |s.server.log|
    ensures var e := s.server.log[j];
            && e.request.streamId in s.server.streams
            && AnsweredBy(cfg, s, s.server.streams[e.request.streamId], e.request.objectId, e.request.call, e.result, j)
  {
    assert RecordOk(cfg, s.server.log, j) && IsHistory(Calls(s.server.log[..j]), s.server.log, j);
  }

  /** In every state of every run, with any number of clients, workers and
      writers: bytes cached by client `c` under `id` answer a call that `c` itself
      issued, under an id that narrows to `id`. With at most 2^32 calls it is the
      call issued under exactly that id. */
  lemma CacheHoldsOwnAnswer(cfg: Config, states: seq<State>, actions: seq<Action>, i: nat, c: nat, id: nat)
    requires RunFromInit(cfg, states, actions) && i < |states|
    requires c < |states[i].clients| && id in states[i].clients[c].cached
    ensures var cl := states[i].clients[c];
            exists n :: 0 <= n < |cl.issued| && Narrow(n) == id
                        && AnswersCall(cfg, states[i], c, id, cl.issued[n].call, cl.cached[id])
    ensures var cl := states[i].clients[c];
            |cl.issued| <= U32_LIMIT ==>
              id < |cl.issued| && AnswersCall(cfg, states[i], c, id, cl.issued[id].call, cl.cached[id])
  {
    RunInv(cfg, states, actions, i);
    var s := states[i];
    var cl := s.clients[c];
    assert ClientOk(cl);
    var m := CachedWasReceived(cl.received, id);
    var j := ReceivedWasAnswered(cfg, s, c, m);
    var n := RecordWasIssued(cfg, s, j);
    RecordAnswers(cfg, s, j);
    assert AnsweredBy(cfg, s, c, id, cl.issued[n].call, cl.cached[id], j);
  }

  /** If no two services register different implementations under one method
      name, the answer is that of the caller's own service and method. */
  lemma AnswerOfOwnService(cfg: Config, s: State, c: nat, id: nat, call: Call, b: ByteString)
    requires AnswersCall(cfg, s, c, id, call, b)
    requires LookupByNameIsExact(cfg.registrations)
    requires (call.service, call.name) in ByPair(cfg.registrations)
    ensures exists j: nat ::
              && AnsweredBy(cfg, s, c, id, call, b, j)
              && exists history :: IsHistory(history, s.server.log, j)
                                   && b == ByPair(cfg.registrations)[(call.service, call.name)](history, call.args)
  {
    var j: nat :| AnsweredBy(cfg, s, c, id, call, b, j);
    var p := (call.service, call.name);
    assert ByMethod(cfg.registrations)[p.1] == ByPair(cfg.registrations)[p];
    var history :| IsHistory(history, s.server.log, j) && b == Methods(cfg)[call.name](history, call.args);
    assert b == ByPair(cfg.registrations)[p](history, call.args);
  }

  // ------------------------------------------------------------ exactly once

  /** With at most 2^32 calls per client, each id names one call. */
  lemma {:induction false} IssuedOnce(issued: seq<Ticket>, from: nat, k: Asked, n: nat)
    requires forall m :: 0 <= m < |issued| ==> issued[m].id == from + m
    requires from + |issued| <= U32_LIMIT
    requires n < |issued| && k.id == from + n && k.call == issued[n].call
    ensures Sum(issued, TicketW(k)) == 1
  {
    SumOfOne(issued, n, TicketW(k));
  }

  /** Every issued call is in exactly one place: waiting to be submitted, in the
      stream to the server, held by a reader, the queue or a worker, or
      performed; it was performed at most once. */
  lemma ExactlyOnePlace(cfg: Config, states: seq<State>, actions: seq<Action>, i: nat, c: nat, n: nat)
    requires RunFromInit(cfg, states, actions) && i < |states|
    requires c < |states[i].clients| && n < |states[i].clients[c].issued| <= U32_LIMIT
    ensures var s := states[i];
            var k := Asked(c, n, s.clients[c].issued[n].call);
            |s.up| == |s.clients| &&
            Sum(s.clients[c].pending, TicketW(k)) + Sum(s.up[c], UpW(k)) + Held(s.server, k) + Done(s.server, k) == 1
  {
    RunInv(cfg, states, actions, i);
    var s := states[i];
    var k := Asked(c, n, s.clients[c].issued[n].call);
    assert ClientOk(s.clients[c]);
    IssuedOnce(s.clients[c].issued, 0, k, n);
    assert CallsConserved(s, k);
  }

  /** No client id is performed twice, whatever the calls. */
  lemma PerformedOnce(cfg: Config, s: State, i: nat, j: nat)
    requires Inv(cfg, s) && i < j < |s.server.log|
    requires forall r :: r in s.server.streams ==> |s.clients[s.server.streams[r]].issued| <= U32_LIMIT
    requires s.server.streams[s.server.log[i].request.streamId] == s.server.streams[s.server.log[j].request.streamId]
    ensures s.server.log[i].request.objectId != s.server.log[j].request.objectId
  {
    var ei, ej := s.server.log[i], s.server.log[j];
    if ei.request.objectId == ej.request.objectId {
      var n := RecordWasIssued(cfg, s, i);
      var m := RecordWasIssued(cfg, s, j);
      assert n == m;
      var k := AskedIn(s.server, ei);
      assert k == AskedIn(s.server, ej);
      assert CallsConserved(s, k) && ClientOk(s.clients[k.client]);
      IssuedOnce(s.clients[k.client].issued, 0, k, n);
      SumAtLeastTwo(s.server.log, i, j, DoneW(s.server.streams, k));
      assert false;
    }
  }

  lemma AnsweredOnce(cfg: Config, s: State, j: nat)
    requires Inv(cfg, s) && j < |s.server.log|
    requires forall r :: r in s.server.streams ==> |s.clients[s.server.streams[r]].issued| <= U32_LIMIT
    ensures var e := s.server.log[j];
            && e.request.streamId in s.server.streams
            && Answered(s.server, Answer(s.server.streams[e.request.streamId], e.request.objectId, e.result)) == 1
  {
    var log, e := s.server.log, s.server.log[j];
    var k := Answer(s.server.streams[e.request.streamId], e.request.objectId, e.result);
    var w := AnsweredW(s.server.streams, k);
    forall i | 0 <= i < |log| && i != j ensures w(log[i]) == 0 {
      if w(log[i]) != 0 {
        OneRecord(cfg, s, i, j);
      }
    }
    SumOfOne(log, j, w);
  }

  /** Two records of one client with one id are the same record. */
  lemma OneRecord(cfg: Config, s: State, i: nat, j: nat)
    requires Inv(cfg, s) && i < |s.server.log| && j < |s.server.log|
    requires forall r :: r in s.server.streams ==> |s.clients[s.server.streams[r]].issued| <= U32_LIMIT
    requires s.server.streams[s.server.log[i].request.streamId] == s.server.streams[s.server.log[j].request.streamId]
    requires s.server.log[i].request.objectId == s.server.log[j].request.objectId
    ensures i == j
  {
    if i < j {
      PerformedOnce(cfg, s, i, j);
    } else if j < i {
      PerformedOnce(cfg, s, j, i);
    }
  }

  function InCache(c: Client, k: Answer): nat {
    One(k.id in c.cached && c.cached[k.id] == k.result)
  }

  /** Within the bound, an answer was received exactly as often as it is cached. */
  lemma ReceivedIsInCache(cfg: Config, s: State, j: nat)
    requires Inv(cfg, s) && j < |s.server.log|
    requires forall c :: 0 <= c < |s.clients| ==> |s.clients[c].issued| <= U32_LIMIT
    ensures var e := s.server.log[j];
            && e.request.streamId in s.server.streams
            && (var c := s.server.streams[e.request.streamId];
                var k := Answer(c, e.request.objectId, e.result);
                c < |s.clients| && Sum(s.clients[c].received, DownW(k)) == InCache(s.clients[c], k))
  {
    var e := s.server.log[j];
    var c := s.server.streams[e.request.streamId];
    var k := Answer(c, e.request.objectId, e.result);
    var received := s.clients[c].received;
    AnsweredOnce(cfg, s, j);
    assert AnswersConserved(s, k) && ClientOk(s.clients[c]);
    if Sum(received, DownW(k)) > 0 {
      var m := SumWitness(received, DownW(k));
      ReceivedIsCached(received, m);
      CachedIsOnlyAnswer(cfg, s, c, j);
    } else if InCache(s.clients[c], k) > 0 {
      var m := CachedWasReceived(received, k.id);
      SumAtLeast(received, m, DownW(k));
    }
  }

  lemma CachedIsOnlyAnswer(cfg: Config, s: State, c: nat, j: nat)
    requires Inv(cfg, s) && j < |s.server.log| && c < |s.clients|
    requires forall d :: 0 <= d < |s.clients| ==> |s.clients[d].issued| <= U32_LIMIT
    requires var e := s.server.log[j];
             OwnedBy(s.server.streams, e.request.streamId, c) && e.request.objectId in CacheOf(s.clients[c].received)
    ensures CacheOf(s.clients[c].received)[s.server.log[j].request.objectId] == s.server.log[j].result
  {
    var m := CachedWasReceived(s.clients[c].received, s.server.log[j].request.objectId);
    var i := ReceivedWasAnswered(cfg, s, c, m);
    OneRecord(cfg, s, i, j);
  }

  /** Every performed call's answer is in exactly one place: with a reader, a
      worker, the response queue or a writer, in the stream to the client, or in
      the client's cache. */
  lemma AnswerInOnePlace(cfg: Config, states: seq<State>, actions: seq<Action>, i: nat, j: nat)
    requires RunFromInit(cfg, states, actions) && i < |states| && j < |states[i].server.log|
    requires forall c :: 0 <= c < |states[i].clients| ==> |states[i].clients[c].issued| <= U32_LIMIT
    ensures var s, e := states[i], states[i].server.log[j];
            && e.request.streamId in s.server.streams
            && (var c := s.server.streams[e.request.streamId];
                var k := Answer(c, e.request.objectId, e.result);
                && c < |s.clients| == |s.down|
                && Returning(s.server, k) + Sum(s.down[c], DownW(k)) + Sum(s.clients[c].received, DownW(k)) == 1
                && Sum(s.clients[c].received, DownW(k)) == InCache(s.clients[c], k))
  {
    RunInv(cfg, states, actions, i);
    var s, e := states[i], states[i].server.log[j];
    AnsweredOnce(cfg, s, j);
    ReceivedIsInCache(cfg, s, j);
    assert AnswersConserved(s, Answer(s.server.streams[e.request.streamId], e.request.objectId, e.result));
  }

  // --------------------------------------------------------- the writer's assertion

  ghost predicate AllRegistered(cfg: Config, s: State) {
    forall c, n :: 0 <= c < |s.clients| && 0 <= n < |s.clients[c].issued| ==>
                     s.clients[c].issued[n].call.name in Methods(cfg)
  }

  lemma StepIssuedGrows(cfg: Config, s: State, a: Action)
    requires Enabled(cfg, s, a) && AllRegistered(cfg, Step(cfg, s, a))
    ensures AllRegistered(cfg, s)
  {
    var t := Step(cfg, s, a);
    forall c, n | 0 <= c < |s.clients| && 0 <= n < |s.clients[c].issued|
      ensures s.clients[c].issued[n].call.name in Methods(cfg)
    {
      assert t.clients[c].issued[n] == s.clients[c].issued[n];
    }
  }

  /** Calls to registered methods never bring the server down: tuples decode, the
      method is found, and the writer's assertion on `streams_` holds. */
  lemma StepNoCrash(cfg: Config, s: State, a: Action)
    requires Inv(cfg, s) && Enabled(cfg, s, a) && AllRegistered(cfg, s)
    ensures !Step(cfg, s, a).server.crashed
  {
    match a
    case Read(r) =>
      assert IsCallFrame(s.up[s.server.streams[r]][0]);
    case Perform(slot) =>
      HeldIsRegistered(cfg, s, slot);
    case Bind(w) =>
      assert WriterOk(s.server, s.server.writers[w]);
    case _ =>
  }

  lemma HeldIsRegistered(cfg: Config, s: State, slot: Slot)
    requires Inv(cfg, s) && AllRegistered(cfg, s)
    requires HasSlot(s.server, slot) && HandAt(s.server, slot).Holding?
    ensures HandAt(s.server, slot).request.call.name in Methods(cfg)
  {
    var srv, q := s.server, HandAt(s.server, slot).request;
    assert match slot case OnWorker(w) => WorkerOk(srv, srv.workers[w]) case OnReader(r) => HandOk(cfg, srv.readers[r], r);
    var k := Asked(srv.streams[q.streamId], q.objectId, q.call);
    match slot {
      case OnWorker(w) => SumAtLeast(srv.workers, w, HoldingW(srv.streams, k));
      case OnReader(r) => SumAtLeast(srv.readers, r, HoldingW(srv.streams, k));
    }
    assert CallsConserved(s, k);
    var n := AskedWasIssued(cfg, s, k);
  }

  lemma {:induction false} NoCrash(cfg: Config, states: seq<State>, actions: seq<Action>, i: nat)
    requires RunFromInit(cfg, states, actions) && i < |states|
    requires AllRegistered(cfg, states[i])
    ensures !states[i].server.crashed
    ensures forall w :: 0 <= w < |states[i].server.writers| && states[i].server.writers[w].Took? ==>
                          states[i].server.writers[w].response.streamId in states[i].server.streams
  {
    RunInv(cfg, states, actions, i);
    assert forall w :: 0 <= w < |states[i].server.writers| ==> WriterOk(states[i].server, states[i].server.writers[w]);
    if i > 0 {
      StepIssuedGrows(cfg, states[i - 1], actions[i - 1]);
      NoCrash(cfg, states, actions, i - 1);
      RunInv(cfg, states, actions, i - 1);
      StepNoCrash(cfg, states[i - 1], actions[i - 1]);
    }
  }

  // -------------------------------------------------------- the width of the ids

  /** Narrowing is injective on 2^32 consecutive ids and on no more. */
  lemma NarrowingWidth()
    ensures forall m: nat, n: nat :: m < U32_LIMIT && n < U32_LIMIT && Narrow(m) == Narrow(n) ==> m == n
    ensures Narrow(U32_LIMIT) == Narrow(0)
  {
  }

  /** With at most 2^32 calls, no cache key is written twice. */
  lemma KeyWrittenOnce(cfg: Config, s: State, c: nat)
    requires Inv(cfg, s) && Enabled(cfg, s, Receive(c))
    requires forall d :: 0 <= d < |s.clients| ==> |s.clients[d].issued| <= U32_LIMIT
    ensures s.down[c][0].id !in s.clients[c].cached
  {
    var f, cl := s.down[c][0], s.clients[c];
    assert ClientOk(cl);
    if f.id in cl.cached {
      var m := CachedWasReceived(cl.received, f.id);
      var j := ReceivedWasAnswered(cfg, s, c, m);
      var k := Answer(c, f.id, f.body);
      SumAtLeast(s.down[c], 0, DownW(k));
      assert AnswersConserved(s, k);
      var i := SumWitness(s.server.log, AnsweredW(s.server.streams, k));
      OneRecord(cfg, s, i, j);
      SumAtLeast(cl.received, m, DownW(k));
      AnsweredOnce(cfg, s, j);
      assert false;
    }
  }

  ghost predicate Extends(m: map<nat, ByteString>, n: map<nat, ByteString>) {
    forall id :: id in m ==> id in n && n[id] == m[id]
  }

  lemma StepCacheGrows(cfg: Config, s: State, a: Action, c: nat)
    requires Inv(cfg, s) && Enabled(cfg, s, a) && c < |s.clients|
    requires forall d :: 0 <= d < |s.clients| ==> |s.clients[d].issued| <= U32_LIMIT
    ensures c < |Step(cfg, s, a).clients| && Extends(s.clients[c].cached, Step(cfg, s, a).clients[c].cached)
  {
    if a == Receive(c) {
      KeyWrittenOnce(cfg, s, c);
    }
  }

  lemma StepIssuedLonger(cfg: Config, s: State, a: Action, c: nat)
    requires Enabled(cfg, s, a) && c < |s.clients|
    ensures c < |Step(cfg, s, a).clients| && |s.clients[c].issued| <= |Step(cfg, s, a).clients[c].issued|
  {
  }

  /** What a lookup finds stays as it is for the rest of the run, so a second
      lookup without the lock, any number of steps later, finds the same bytes. */
  lemma {:induction false} LookupIsStable(cfg: Config, states: seq<State>, actions: seq<Action>, i: nat, j: nat, c: nat)
    requires RunFromInit(cfg, states, actions) && i <= j < |states| && c < |states[i].clients|
    requires forall d :: 0 <= d < |states[j].clients| ==> |states[j].clients[d].issued| <= U32_LIMIT
    ensures c < |states[j].clients| && Extends(states[i].clients[c].cached, states[j].clients[c].cached)
  {
    if i < j {
      StepWasWithinBound(cfg, states[j - 1], actions[j - 1]);
      LookupIsStable(cfg, states, actions, i, j - 1, c);
      RunInv(cfg, states, actions, j - 1);
      StillExtends(cfg, states[j - 1], actions[j - 1], c, states[i].clients[c].cached);
    }
  }

  lemma StillExtends(cfg: Config, s: State, a: Action, c: nat, m: map<nat, ByteString>)
    requires Inv(cfg, s) && Enabled(cfg, s, a) && c < |s.clients| && Extends(m, s.clients[c].cached)
    requires forall d :: 0 <= d < |s.clients| ==> |s.clients[d].issued| <= U32_LIMIT
    ensures c < |Step(cfg, s, a).clients| && Extends(m, Step(cfg, s, a).clients[c].cached)
  {
    StepCacheGrows(cfg, s, a, c);
  }

  lemma StepWasWithinBound(cfg: Config, s: State, a: Action)
    requires Enabled(cfg, s, a)
    requires var t := Step(cfg, s, a); forall d :: 0 <= d < |t.clients| ==> |t.clients[d].issued| <= U32_LIMIT
    ensures forall d :: 0 <= d < |s.clients| ==> |s.clients[d].issued| <= U32_LIMIT
  {
    forall d | 0 <= d < |s.clients| ensures |s.clients[d].issued| <= U32_LIMIT {
      StepIssuedLonger(cfg, s, a, d);
    }
  }

  lemma {:induction false} CacheKeysAreNarrow(received: seq<Frame>, id: nat)
    requires id in CacheOf(received)
    ensures id < U32_LIMIT
  {
    var m := CachedWasReceived(received, id);
  }

  /** Beyond the bound: call 2^32 + j is sent under id j, so its reply can only be
      stored under j, and a lookup under its own id fails in every state. */
  lemma WideIdNeverFound(cfg: Config, states: seq<State>, actions: seq<Action>, i: nat, c: nat, j: nat, call: Call)
    requires RunFromInit(cfg, states, actions) && i < |states| && c < |states[i].clients|
    ensures U32_LIMIT + j !in states[i].clients[c].cached
    ensures j < U32_LIMIT ==> TicketFrame(Ticket(U32_LIMIT + j, call)).id == j
  {
    RunInv(cfg, states, actions, i);
    assert ClientOk(states[i].clients[c]);
    if U32_LIMIT + j in states[i].clients[c].cached {
      CacheKeysAreNarrow(states[i].clients[c].received, U32_LIMIT + j);
    }
  }
}
