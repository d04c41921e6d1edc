/** The shape of the pipeline's states, which every step keeps: the stream table,
    the stream ids in flight, the log of performed calls, and the caches. */
module PipelineSafety {
  import opened Bytes
  import opened Framing
  import opened Dispatch
  import opened Pipeline

  // -------------------------------------------------------- shape invariants

  ghost predicate StreamsOk(s: State) {
    var srv := s.server;
    && |s.up| == |s.down| == |s.clients|
    && (forall r: nat :: r in srv.streams <==> r < |srv.readers|)
    && (forall r: nat :: r in srv.streams ==> srv.streams[r] < |s.clients| && s.clients[srv.streams[r]].accepted)
    && (forall q: nat, r: nat :: q in srv.streams && r in srv.streams && srv.streams[q] == srv.streams[r] ==> q == r)
    && srv.nextStream == |srv.readers| + (if srv.accepting.Some? then 1 else 0)
    && (srv.accepting.Some? ==>
          var c := srv.accepting.value.1;
          && srv.accepting.value.0 == |srv.readers|
          && c < |s.clients| && s.clients[c].accepted
          && forall r: nat :: r in srv.streams ==> srv.streams[r] != c)
  }

  /** Every accepted connection has a stream, or is just getting one. */
  ghost predicate AcceptedOk(s: State) {
    forall c: nat :: c < |s.clients| && s.clients[c].accepted ==>
      || (s.server.accepting.Some? && s.server.accepting.value.1 == c)
      || exists r: nat :: r in s.server.streams && s.server.streams[r] == c
  }

  predicate HandOk(cfg: Config, h: Hand, streamId: nat) {
    match h
    case Idle => true
    case Holding(q) => q.streamId == streamId
    case Performed(p) => p.streamId == streamId && cfg.workers == 0
  }

  predicate WorkerOk(srv: Server, h: Hand) {
    match h
    case Idle => true
    case Holding(q) => q.streamId in srv.streams
    case Performed(p) => p.streamId in srv.streams
  }

  predicate WriterOk(srv: Server, h: WriterHand) {
    match h
    case Waiting => true
    case Took(p) => p.streamId in srv.streams
    case Bound(p, c) => p.streamId in srv.streams && srv.streams[p.streamId] == c
  }

  /** Every stream id in flight is a key of `streams_`. */
  ghost predicate InFlightOk(cfg: Config, srv: Server) {
    && |srv.workers| == cfg.workers && |srv.writers| == cfg.writers
    && (cfg.workers == 0 ==> srv.requests == [])
    && (forall r :: 0 <= r < |srv.readers| ==> HandOk(cfg, srv.readers[r], r))
    && (forall i :: 0 <= i < |srv.requests| ==> srv.requests[i].streamId in srv.streams)
    && (forall w :: 0 <= w < |srv.workers| ==> WorkerOk(srv, srv.workers[w]))
    && (forall i :: 0 <= i < |srv.responses| ==> srv.responses[i].streamId in srv.streams)
    && (forall w :: 0 <= w < |srv.writers| ==> WriterOk(srv, srv.writers[w]))
    && (forall i :: 0 <= i < |srv.log| ==> srv.log[i].request.streamId in srv.streams)
  }

  /** A result is what the method of that name returned for exactly those
      arguments, after exactly the calls performed before it. */
  ghost predicate LogOk(cfg: Config, log: seq<Record>) {
    forall i :: 0 <= i < |log| ==> RecordOk(cfg, log, i)
  }

  ghost predicate RecordOk(cfg: Config, log: seq<Record>, i: nat)
    requires i < |log|
  {
    var call := log[i].request.call;
    && call.name in Methods(cfg)
    && forall history :: IsHistory(history, log, i) ==> log[i].result == Methods(cfg)[call.name](history, call.args)
  }

  predicate IsCallFrame(f: Frame) {
    DecodeCall(f.body).Some? && PackCall(DecodeCall(f.body).value) == f.body
  }

  function CacheOf(received: seq<Frame>): map<nat, ByteString> {
    if received == [] then map[]
    else
      var f := received[|received| - 1];
      CacheOf(received[..|received| - 1])[f.id := f.body]
  }

  ghost predicate ClientOk(c: Client) {
    && (forall k :: 0 <= k < |c.issued| ==> c.issued[k].id == k)
    && c.cached == CacheOf(c.received)
  }

  ghost predicate DataOk(cfg: Config, s: State) {
    && LogOk(cfg, s.server.log)
    && (forall c :: 0 <= c < |s.clients| ==> ClientOk(s.clients[c]))
    && (forall c, k :: 0 <= c < |s.up| && 0 <= k < |s.up[c]| ==> IsCallFrame(s.up[c][k]))
  }

  ghost predicate Shape(cfg: Config, s: State) {
    StreamsOk(s) && AcceptedOk(s) && InFlightOk(cfg, s.server) && DataOk(cfg, s)
  }

  /** Only the acceptor touches the stream table. */
  lemma TableFrame(cfg: Config, s: State, a: Action)
    requires Enabled(cfg, s, a) && !a.Accept? && !a.Install?
    ensures var srv, t := s.server, Step(cfg, s, a).server;
            && t.streams == srv.streams && t.accepting == srv.accepting
            && t.nextStream == srv.nextStream && |t.readers| == |srv.readers|
  {
  }

  lemma ClientsFrame(cfg: Config, s: State, a: Action)
    requires Enabled(cfg, s, a)
    ensures var t := Step(cfg, s, a);
            && |t.clients| == |t.up| == |t.down| == |s.clients| + (if a.Connect? then 1 else 0)
            && forall c :: 0 <= c < |t.clients| ==>
                 t.clients[c].accepted == ((c < |s.clients| && s.clients[c].accepted) || a == Accept(c))
  {
  }

  lemma StepKeepsStreams(cfg: Config, s: State, a: Action)
    requires StreamsOk(s) && AcceptedOk(s) && Enabled(cfg, s, a)
    ensures StreamsOk(Step(cfg, s, a))
  {
    ClientsFrame(cfg, s, a);
    var t := Step(cfg, s, a);
    if a.Accept? {
      assert t.clients[a.client].accepted;
    } else if a.Install? {
      assert t.clients[s.server.accepting.value.1].accepted;
    } else {
      TableFrame(cfg, s, a);
      if s.server.accepting.Some? {
        assert t.clients[s.server.accepting.value.1].accepted;
      }
    }
  }

  lemma StepKeepsAccepted(cfg: Config, s: State, a: Action)
    requires StreamsOk(s) && AcceptedOk(s) && Enabled(cfg, s, a)
    ensures AcceptedOk(Step(cfg, s, a))
  {
    ClientsFrame(cfg, s, a);
    if a.Install? {
      InstallKeepsAccepted(cfg, s);
    } else if !a.Accept? {
      TableFrame(cfg, s, a);
    }
  }

  lemma InstallKeepsAccepted(cfg: Config, s: State)
    requires StreamsOk(s) && AcceptedOk(s) && Enabled(cfg, s, Install)
    ensures AcceptedOk(Step(cfg, s, Install))
  {
    var t := Step(cfg, s, Install);
    var (id, d) := s.server.accepting.value;
    assert id in t.server.streams && t.server.streams[id] == d;
    forall c: nat | c < |t.clients| && t.clients[c].accepted
      ensures exists r: nat :: r in t.server.streams && t.server.streams[r] == c
    {
      if c != d {
        var r: nat :| r in s.server.streams && s.server.streams[r] == c;
        assert r in t.server.streams && t.server.streams[r] == c;
      }
    }
  }

  lemma InstallKeepsInFlight(cfg: Config, srv: Server)
    requires InFlightOk(cfg, srv) && srv.accepting.Some? && srv.accepting.value.0 == |srv.readers|
    requires |srv.readers| !in srv.streams
    ensures InFlightOk(cfg, SrvInstall(srv))
  {
    var t := SrvInstall(srv);
    assert forall r: nat :: r in srv.streams ==> r in t.streams && t.streams[r] == srv.streams[r];
  }

  lemma ReadPostKeepInFlight(cfg: Config, srv: Server, r: nat, f: Frame)
    requires InFlightOk(cfg, srv) && r < |srv.readers| && r in srv.streams
    ensures InFlightOk(cfg, SrvRead(srv, r, f))
    ensures srv.readers[r].Holding? && cfg.workers > 0 ==> InFlightOk(cfg, SrvPost(srv, r))
  {
  }

  lemma TakeKeepsInFlight(cfg: Config, srv: Server, w: nat)
    requires InFlightOk(cfg, srv) && ServerEnabled(cfg, srv, Take(w))
    ensures InFlightOk(cfg, SrvTake(srv, w))
  {
  }

  lemma PerformKeepsInFlight(cfg: Config, srv: Server, slot: Slot)
    requires InFlightOk(cfg, srv) && ServerEnabled(cfg, srv, Action.Perform(slot))
    requires forall r: nat :: r in srv.streams <==> r < |srv.readers|
    ensures InFlightOk(cfg, SrvPerform(cfg, srv, slot))
  {
  }

  lemma RespondKeepsInFlight(cfg: Config, srv: Server, slot: Slot)
    requires InFlightOk(cfg, srv) && ServerEnabled(cfg, srv, Respond(slot))
    requires forall r: nat :: r in srv.streams <==> r < |srv.readers|
    ensures InFlightOk(cfg, SrvRespond(srv, slot))
  {
  }

  lemma WriterKeepsInFlight(cfg: Config, srv: Server, w: nat)
    requires InFlightOk(cfg, srv) && w < |srv.writers|
    ensures srv.responses != [] ==> InFlightOk(cfg, SrvPick(srv, w))
    ensures srv.writers[w].Took? ==> InFlightOk(cfg, SrvBind(srv, w))
    ensures InFlightOk(cfg, SrvSent(srv, w))
  {
  }

  lemma InsideKeepsInFlight(cfg: Config, srv: Server, a: Action)
    requires InFlightOk(cfg, srv) && ServerEnabled(cfg, srv, a)
    requires forall r: nat :: r in srv.streams <==> r < |srv.readers|
    requires srv.accepting.Some? ==> srv.accepting.value.0 == |srv.readers|
    ensures InFlightOk(cfg, Inside(cfg, srv, a))
  {
    match a
    case Install => InstallKeepsInFlight(cfg, srv);
    case Post(r) => ReadPostKeepInFlight(cfg, srv, r, Frame(0, []));
    case Take(w) => TakeKeepsInFlight(cfg, srv, w);
    case Perform(slot) => PerformKeepsInFlight(cfg, srv, slot);
    case Respond(slot) => RespondKeepsInFlight(cfg, srv, slot);
    case Pick(w) => WriterKeepsInFlight(cfg, srv, w);
    case Bind(w) => WriterKeepsInFlight(cfg, srv, w);
    case _ =>
  }

  lemma StepKeepsInFlight(cfg: Config, s: State, a: Action)
    requires StreamsOk(s) && InFlightOk(cfg, s.server) && Enabled(cfg, s, a)
    ensures InFlightOk(cfg, Step(cfg, s, a).server)
  {
    var srv := s.server;
    if a.Read? {
      ReadPostKeepInFlight(cfg, srv, a.streamId, s.up[srv.streams[a.streamId]][0]);
    } else if a.Send? {
      WriterKeepsInFlight(cfg, srv, a.writer);
    } else if a.Accept? {
      assert InFlightOk(cfg, SrvAccept(srv, a.client));
    } else {
      InsideKeepsInFlight(cfg, srv, a);
    }
  }

  lemma LogGrows(cfg: Config, log: seq<Record>, e: Record)
    requires LogOk(cfg, log) && e.request.call.name in Methods(cfg)
    requires e.result == Methods(cfg)[e.request.call.name](Calls(log), e.request.call.args)
    ensures LogOk(cfg, log + [e])
  {
    HistoryOfAll(log);
    forall i | 0 <= i < |log + [e]| ensures RecordOk(cfg, log + [e], i) {
      assert forall history :: IsHistory(history, log + [e], i) ==> IsHistory(history, log, i);
      assert i < |log| ==> RecordOk(cfg, log, i);
    }
  }

  lemma StepKeepsLog(cfg: Config, s: State, a: Action)
    requires LogOk(cfg, s.server.log) && Enabled(cfg, s, a)
    ensures LogOk(cfg, Step(cfg, s, a).server.log)
  {
    var log, log' := s.server.log, Step(cfg, s, a).server.log;
    if log' != log {
      LogGrows(cfg, log, log'[|log|]);
    }
  }

  lemma StepKeepsClients(cfg: Config, s: State, a: Action, c: nat)
    requires DataOk(cfg, s) && Enabled(cfg, s, a) && c < |Step(cfg, s, a).clients|
    ensures ClientOk(Step(cfg, s, a).clients[c])
  {
    if a.Receive? && a.client == c {
      var received := s.clients[c].received;
      assert (received + [s.down[c][0]])[..|received|] == received;
    }
  }

  lemma StepKeepsFrames(cfg: Config, s: State, a: Action, c: nat, k: nat)
    requires DataOk(cfg, s) && Enabled(cfg, s, a)
    requires c < |Step(cfg, s, a).up| && k < |Step(cfg, s, a).up[c]|
    ensures IsCallFrame(Step(cfg, s, a).up[c][k])
  {
    if a.Submit? && a.client == c {
      CallRoundTrip(s.clients[c].pending[a.i].call);
    }
  }

  lemma StepKeepsShape(cfg: Config, s: State, a: Action)
    requires Shape(cfg, s) && Enabled(cfg, s, a)
    ensures Shape(cfg, Step(cfg, s, a))
  {
    StepKeepsStreams(cfg, s, a);
    StepKeepsAccepted(cfg, s, a);
    StepKeepsInFlight(cfg, s, a);
    StepKeepsLog(cfg, s, a);
    forall c | 0 <= c < |Step(cfg, s, a).clients| ensures ClientOk(Step(cfg, s, a).clients[c]) {
      StepKeepsClients(cfg, s, a, c);
    }
    forall c, k | 0 <= c < |Step(cfg, s, a).up| && 0 <= k < |Step(cfg, s, a).up[c]|
      ensures IsCallFrame(Step(cfg, s, a).up[c][k])
    {
      StepKeepsFrames(cfg, s, a, c, k);
    }
  }
}
