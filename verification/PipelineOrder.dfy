/** In which order a stream's calls are performed. With no workers or one worker
    it is the order of submission on every run, because the reader re-arms only
    after its callback; two workers can swap calls. */
module PipelineOrder {
  import opened Bytes
  import opened Framing
  import opened Dispatch
  import opened Pipeline
  import opened PipelineSafety
  import opened PipelineTheorems
  import Seqs

  // ----------------------------------------------- one stream's share of a queue

  function RequestFrame(q: Request): Frame {
    Frame(q.objectId, PackCall(q.call))
  }

  /** The frames behind those requests that came on stream `r`, in order. */
  function Share(r: nat, qs: seq<Request>): seq<Frame> {
    if qs == [] then []
    else (if qs[0].streamId == r then [RequestFrame(qs[0])] else []) + Share(r, qs[1..])
  }

  function InHand(h: Hand): seq<Request> {
    if h.Holding? then [h.request] else []
  }

  /** What the workers hold; with at most one worker there is one order. */
  function WithWorkers(srv: Server): seq<Request> {
    if srv.workers == [] then [] else InHand(srv.workers[0])
  }

  function LogRequests(log: seq<Record>): seq<Request> {
    seq(|log|, i requires 0 <= i < |log| => log[i].request)
  }

  /** The requests past the readers: performed, with the worker, queued. */
  function PastReaders(srv: Server): seq<Request> {
    LogRequests(srv.log) + WithWorkers(srv) + srv.requests
  }

  function SubmittedFrames(c: Client): seq<Frame> {
    seq(|c.submitted|, i requires 0 <= i < |c.submitted| => TicketFrame(c.submitted[i]))
  }

  lemma {:induction false} ShareConcat(r: nat, a: seq<Request>, b: seq<Request>)
    ensures Share(r, a + b) == Share(r, a) + Share(r, b)
  {
    if a == [] {
      assert a + b == b;
    } else {
      assert (a + b)[0] == a[0] && (a + b)[1..] == a[1..] + b;
      ShareConcat(r, a[1..], b);
      Seqs.Assoc(if a[0].streamId == r then [RequestFrame(a[0])] else [], Share(r, a[1..]), Share(r, b));
    }
  }

  lemma ShareSnoc(r: nat, a: seq<Request>, q: Request)
    ensures Share(r, a + [q]) == Share(r, a) + (if q.streamId == r then [RequestFrame(q)] else [])
  {
    ShareConcat(r, a, [q]);
  }

  lemma {:induction false} ShareOfOthers(r: nat, qs: seq<Request>)
    requires forall i :: 0 <= i < |qs| ==> qs[i].streamId != r
    ensures Share(r, qs) == []
  {
    if qs != [] {
      ShareOfOthers(r, qs[1..]);
    }
  }

  // ------------------------------------------------------------ the invariant

  /** For the client of stream `r`: performed, at the worker, queued, at the
      reader, still in the stream -- together and in this order -- are the calls
      it submitted. */
  ghost predicate StreamInOrder(s: State, r: nat)
    requires r < |s.server.readers| && r in s.server.streams
    requires s.server.streams[r] < |s.clients| == |s.up|
  {
    var c := s.server.streams[r];
    Share(r, PastReaders(s.server)) + Share(r, InHand(s.server.readers[r])) + s.up[c] == SubmittedFrames(s.clients[c])
  }

  ghost predicate StreamsInOrder(s: State)
    requires StreamsOk(s)
  {
    forall r: nat :: r in s.server.streams ==> StreamInOrder(s, r)
  }

  ghost predicate HasNoStream(srv: Server, c: nat) {
    forall r: nat :: r in srv.streams ==> srv.streams[r] != c
  }

  /** What a client submitted before it got a stream is still on its way. */
  ghost predicate FreshInOrder(s: State)
    requires |s.up| == |s.clients|
  {
    forall c: nat :: c < |s.clients| && HasNoStream(s.server, c) ==> s.up[c] == SubmittedFrames(s.clients[c])
  }

  ghost predicate InOrder(s: State)
    requires StreamsOk(s)
  {
    StreamsInOrder(s) && FreshInOrder(s)
  }

  lemma NewStreamInOrder(cfg: Config, s: State)
    requires StreamsOk(s) && InFlightOk(cfg, s.server) && Enabled(cfg, s, Install) && FreshInOrder(s)
    ensures StreamsOk(Step(cfg, s, Install)) ==> StreamInOrder(Step(cfg, s, Install), s.server.accepting.value.0)
  {
    var t := Step(cfg, s, Install);
    var (r, c) := s.server.accepting.value;
    assert PastReaders(t.server) == PastReaders(s.server);
    NoShareYet(cfg, s.server, r);
    assert HasNoStream(s.server, c);
    assert s.up[c] == SubmittedFrames(s.clients[c]);
    assert t.server.readers[r] == Idle && t.server.streams[r] == c;
    assert InHand(Idle) == [] && Share(r, []) == [];
  }

  lemma NoShareYet(cfg: Config, srv: Server, r: nat)
    requires InFlightOk(cfg, srv) && r !in srv.streams
    ensures Share(r, PastReaders(srv)) == []
  {
    var past := PastReaders(srv);
    forall i | 0 <= i < |past| ensures past[i].streamId != r {
      PastReadersInFlight(cfg, srv, i);
    }
    ShareOfOthers(r, past);
  }

  lemma OldStreamInOrder(cfg: Config, s: State, r: nat)
    requires StreamsOk(s) && Enabled(cfg, s, Install) && r in s.server.streams && StreamInOrder(s, r)
    ensures StreamsOk(Step(cfg, s, Install)) ==> StreamInOrder(Step(cfg, s, Install), r)
  {
    assert PastReaders(Step(cfg, s, Install).server) == PastReaders(s.server);
  }

  lemma InstallKeepsFresh(cfg: Config, s: State)
    requires StreamsOk(s) && Enabled(cfg, s, Install) && FreshInOrder(s)
    ensures FreshInOrder(Step(cfg, s, Install))
  {
    var srv, t := s.server, Step(cfg, s, Install).server;
    forall c: nat | c < |s.clients| && HasNoStream(t, c) ensures HasNoStream(srv, c) {
      assert forall r: nat :: r in srv.streams ==> t.streams[r] == srv.streams[r];
    }
  }

  lemma InstallKeepsOrder(cfg: Config, s: State)
    requires StreamsOk(s) && InFlightOk(cfg, s.server) && Enabled(cfg, s, Install) && InOrder(s)
    requires StreamsOk(Step(cfg, s, Install))
    ensures InOrder(Step(cfg, s, Install))
  {
    InstallKeepsFresh(cfg, s);
    NewStreamInOrder(cfg, s);
    forall r: nat | r in s.server.streams ensures StreamInOrder(Step(cfg, s, Install), r) {
      OldStreamInOrder(cfg, s, r);
    }
  }

  lemma PastReadersInFlight(cfg: Config, srv: Server, i: nat)
    requires InFlightOk(cfg, srv) && i < |PastReaders(srv)|
    ensures PastReaders(srv)[i].streamId in srv.streams
  {
    if srv.workers != [] {
      assert WorkerOk(srv, srv.workers[0]);
    }
  }

  /** With at most one worker, moving a request on keeps the requests past the
      readers; only `Post` and inline performing append to them. */
  lemma PastReadersSteps(cfg: Config, srv: Server, a: Action)
    requires cfg.workers <= 1 && InFlightOk(cfg, srv) && ServerEnabled(cfg, srv, a)
    ensures a.Take? ==> PastReaders(SrvTake(srv, a.worker)) == PastReaders(srv)
    ensures a.Post? ==> PastReaders(SrvPost(srv, a.streamId)) == PastReaders(srv) + [srv.readers[a.streamId].request]
    ensures a.Respond? ==> PastReaders(SrvRespond(srv, a.slot)) == PastReaders(srv)
    ensures a.Perform? && a.slot.OnWorker? ==> PastReaders(SrvPerform(cfg, srv, a.slot)) == PastReaders(srv)
    ensures a.Perform? && a.slot.OnReader? && HandAt(srv, a.slot).request.call.name in Methods(cfg) ==>
              PastReaders(SrvPerform(cfg, srv, a.slot)) == PastReaders(srv) + [HandAt(srv, a.slot).request]
  {
    if a.Perform? {
      PastReadersPerform(cfg, srv, a.slot);
    }
  }

  lemma PastReadersPerform(cfg: Config, srv: Server, slot: Slot)
    requires cfg.workers <= 1 && InFlightOk(cfg, srv) && ServerEnabled(cfg, srv, Action.Perform(slot))
    ensures var t := SrvPerform(cfg, srv, slot);
            var q := HandAt(srv, slot).request;
            PastReaders(t) == PastReaders(srv) + (if slot.OnReader? && q.call.name in Methods(cfg) then [q] else [])
  {
    var q, t := HandAt(srv, slot).request, SrvPerform(cfg, srv, slot);
    if q.call.name in Methods(cfg) {
      assert LogRequests(t.log) == LogRequests(srv.log) + [q];
      if slot.OnReader? {
        assert srv.workers == [] && srv.requests == [];
      }
    }
  }

  lemma ShareOfOne(r: nat, x: Request)
    ensures Share(r, [x]) == if x.streamId == r then [RequestFrame(x)] else []
  {
    assert [x][1..] == [];
  }

  lemma MoveFront(past: seq<Frame>, f: Frame, up: seq<Frame>)
    requires up != [] && up[0] == f
    ensures past + [f] + up[1..] == past + [] + up
  {
    assert up == [f] + up[1..];
  }

  lemma ReadKeepsStreamOrder(cfg: Config, s: State, q: nat, r: nat)
    requires StreamsOk(s) && Enabled(cfg, s, Read(q)) && r in s.server.streams && StreamInOrder(s, r)
    requires IsCallFrame(s.up[s.server.streams[q]][0])
    ensures StreamsOk(Step(cfg, s, Read(q))) ==> StreamInOrder(Step(cfg, s, Read(q)), r)
  {
    var srv, t := s.server, Step(cfg, s, Read(q));
    assert PastReaders(t.server) == PastReaders(srv);
    if q == r {
      var c := srv.streams[r];
      var f := s.up[c][0];
      var x := Request(f.id, r, DecodeCall(f.body).value);
      assert RequestFrame(x) == f;
      assert InHand(srv.readers[r]) == [] && InHand(t.server.readers[r]) == [x];
      ShareOfOne(r, x);
      MoveFront(Share(r, PastReaders(srv)), f, s.up[c]);
    }
  }

  lemma SubmitKeepsStreamOrder(cfg: Config, s: State, d: nat, i: nat, r: nat)
    requires StreamsOk(s) && Enabled(cfg, s, Submit(d, i)) && r in s.server.streams && StreamInOrder(s, r)
    ensures StreamsOk(Step(cfg, s, Submit(d, i))) ==> StreamInOrder(Step(cfg, s, Submit(d, i)), r)
  {
    var srv, t := s.server, Step(cfg, s, Submit(d, i));
    var c := srv.streams[r];
    if d == c {
      var f := TicketFrame(s.clients[d].pending[i]);
      assert SubmittedFrames(t.clients[d]) == SubmittedFrames(s.clients[d]) + [f];
      Seqs.Assoc(Share(r, PastReaders(srv)) + Share(r, InHand(srv.readers[r])), s.up[c], [f]);
    }
  }

  /** The steps inside the server keep what is past the readers together with what
      each reader holds. */
  lemma ServerKeepsShare(cfg: Config, srv: Server, a: Action, t: Server, r: nat)
    requires cfg.workers <= 1 && InFlightOk(cfg, srv) && ServerEnabled(cfg, srv, a) && r < |srv.readers|
    requires || (a.Post? && t == SrvPost(srv, a.streamId))
             || (a.Take? && t == SrvTake(srv, a.worker))
             || (a.Perform? && t == SrvPerform(cfg, srv, a.slot))
             || (a.Respond? && t == SrvRespond(srv, a.slot))
    ensures |t.readers| == |srv.readers|
    ensures Share(r, PastReaders(t)) + Share(r, InHand(t.readers[r]))
            == Share(r, PastReaders(srv)) + Share(r, InHand(srv.readers[r]))
  {
    PastReadersSteps(cfg, srv, a);
    if a.Post? {
      HandMoves(cfg, srv, t, a.streamId, r);
    } else if a.Perform? && a.slot.OnReader? && HandAt(srv, a.slot).request.call.name in Methods(cfg) {
      HandMoves(cfg, srv, t, a.slot.streamId, r);
    } else {
      assert InHand(t.readers[r]) == InHand(srv.readers[r]);
    }
  }

  lemma InsideKeepsStreamOrder(cfg: Config, s: State, a: Action, r: nat)
    requires |s.up| == |s.clients| && InFlightOk(cfg, s.server) && Enabled(cfg, s, a) && cfg.workers <= 1
    requires a.Post? || a.Take? || a.Perform? || a.Respond?
    requires r < |s.server.readers| && r in s.server.streams && s.server.streams[r] < |s.clients| && StreamInOrder(s, r)
    requires Step(cfg, s, a).server.streams == s.server.streams
    ensures |Step(cfg, s, a).server.readers| == |s.server.readers|
    ensures StreamInOrder(Step(cfg, s, a), r)
  {
    ServerKeepsShare(cfg, s.server, a, Step(cfg, s, a).server, r);
  }

  lemma StepKeepsStreamOrder(cfg: Config, s: State, a: Action, r: nat)
    requires StreamsOk(s) && InFlightOk(cfg, s.server) && Enabled(cfg, s, a) && cfg.workers <= 1
    requires a.Read? ==> IsCallFrame(s.up[s.server.streams[a.streamId]][0])
    requires !a.Install? && r in s.server.streams && StreamInOrder(s, r)
    requires StreamsOk(Step(cfg, s, a)) && Step(cfg, s, a).server.streams == s.server.streams
    ensures StreamInOrder(Step(cfg, s, a), r)
  {
    if a.Submit? {
      SubmitKeepsStreamOrder(cfg, s, a.client, a.i, r);
    } else if a.Read? {
      ReadKeepsStreamOrder(cfg, s, a.streamId, r);
    } else if a.Post? || a.Take? || a.Perform? || a.Respond? {
      InsideKeepsStreamOrder(cfg, s, a, r);
    } else {
      OtherKeepsStreamOrder(cfg, s, a, r);
    }
  }

  predicate IsOther(a: Action) {
    a.Connect? || a.RequestId? || a.Accept? || a.Pick? || a.Bind? || a.Send? || a.Receive?
  }

  /** The other steps touch nothing the order of a stream speaks of: the server's
      part... */
  lemma OtherKeepsServer(cfg: Config, s: State, a: Action)
    requires Enabled(cfg, s, a) && IsOther(a)
    ensures var u, srv := Step(cfg, s, a).server, s.server;
            && u.streams == srv.streams && u.readers == srv.readers
            && u.log == srv.log && u.workers == srv.workers && u.requests == srv.requests
  {
    match a
    case Bind(w) =>
    case _ =>
  }

  /** ...and what client `c` submitted and has on its way up. */
  lemma OtherKeepsClient(cfg: Config, s: State, a: Action, c: nat)
    requires Enabled(cfg, s, a) && IsOther(a) && c < |s.clients|
    ensures var t := Step(cfg, s, a);
            && |s.clients| <= |t.clients| == |t.up|
            && t.up[c] == s.up[c] && t.clients[c].submitted == s.clients[c].submitted
  {
    match a
    case Connect =>
    case _ =>
  }

  lemma OtherKeepsStreamOrder(cfg: Config, s: State, a: Action, r: nat)
    requires |s.up| == |s.clients| && Enabled(cfg, s, a) && IsOther(a)
    requires r < |s.server.readers| && r in s.server.streams && s.server.streams[r] < |s.clients| && StreamInOrder(s, r)
    ensures var t := Step(cfg, s, a);
            && t.server.streams == s.server.streams && t.server.readers == s.server.readers
            && |s.clients| <= |t.clients| == |t.up| && StreamInOrder(t, r)
  {
    OtherKeepsServer(cfg, s, a);
    OtherKeepsClient(cfg, s, a, s.server.streams[r]);
    assert PastReaders(Step(cfg, s, a).server) == PastReaders(s.server);
  }

  /** A request that leaves its reader's hand for the end of the queue or of the
      log stays in the order of its own stream and is no business of another's. */
  lemma HandMoves(cfg: Config, srv: Server, t: Server, q: nat, r: nat)
    requires q < |srv.readers| == |t.readers| && r < |srv.readers|
    requires srv.readers[q].Holding? && HandOk(cfg, srv.readers[q], q) && !t.readers[q].Holding?
    requires r != q ==> t.readers[r] == srv.readers[r]
    requires PastReaders(t) == PastReaders(srv) + [srv.readers[q].request]
    ensures Share(r, PastReaders(t)) + Share(r, InHand(t.readers[r]))
            == Share(r, PastReaders(srv)) + Share(r, InHand(srv.readers[r]))
  {
    var x := srv.readers[q].request;
    ShareSnoc(r, PastReaders(srv), x);
    ShareOfOne(r, x);
  }

  lemma StepKeepsFresh(cfg: Config, s: State, a: Action)
    requires StreamsOk(s) && Enabled(cfg, s, a) && FreshInOrder(s)
    requires Step(cfg, s, a).server.streams == s.server.streams
    ensures |Step(cfg, s, a).up| == |Step(cfg, s, a).clients| && FreshInOrder(Step(cfg, s, a))
  {
    var t := Step(cfg, s, a);
    forall c: nat | c < |t.clients| && HasNoStream(t.server, c) ensures t.up[c] == SubmittedFrames(t.clients[c]) {
      assert c < |s.clients| ==> HasNoStream(s.server, c);
      if a.Submit? && a.client == c {
        assert SubmittedFrames(t.clients[c]) == SubmittedFrames(s.clients[c]) + [TicketFrame(s.clients[c].pending[a.i])];
      }
    }
  }

  lemma StepKeepsOrder(cfg: Config, s: State, a: Action)
    requires StreamsOk(s) && AcceptedOk(s) && InFlightOk(cfg, s.server) && DataOk(cfg, s)
    requires Enabled(cfg, s, a) && cfg.workers <= 1 && InOrder(s)
    ensures StreamsOk(Step(cfg, s, a)) && InOrder(Step(cfg, s, a))
  {
    StepKeepsStreams(cfg, s, a);
    if a.Install? {
      InstallKeepsOrder(cfg, s);
    } else {
      assert Step(cfg, s, a).server.streams == s.server.streams by {
        if !a.Accept? {
          TableFrame(cfg, s, a);
        }
      }
      StepKeepsFresh(cfg, s, a);
      forall r: nat | r in s.server.streams ensures StreamInOrder(Step(cfg, s, a), r) {
        StepKeepsStreamOrder(cfg, s, a, r);
      }
    }
  }

  lemma InvKeepsOrder(cfg: Config, s: State, a: Action)
    requires Inv(cfg, s) && Enabled(cfg, s, a) && cfg.workers <= 1 && StreamsOk(s) && InOrder(s)
    ensures StreamsOk(Step(cfg, s, a)) && InOrder(Step(cfg, s, a))
  {
    StepKeepsOrder(cfg, s, a);
  }

  lemma {:induction false} RunInOrder(cfg: Config, states: seq<State>, actions: seq<Action>, i: nat)
    requires RunFromInit(cfg, states, actions) && i < |states| && cfg.workers <= 1
    ensures StreamsOk(states[i]) && InOrder(states[i])
  {
    if i > 0 {
      RunInOrder(cfg, states, actions, i - 1);
      RunInv(cfg, states, actions, i - 1);
      InvKeepsOrder(cfg, states[i - 1], actions[i - 1]);
    }
  }

  /** Inline or with one worker: on every run, the calls performed for a stream
      are the first ones its client submitted, in the order of submission. */
  lemma PerformedInSubmissionOrder(cfg: Config, states: seq<State>, actions: seq<Action>, i: nat, r: nat)
    requires RunFromInit(cfg, states, actions) && i < |states| && cfg.workers <= 1
    requires r in states[i].server.streams
    ensures var s := states[i];
            s.server.streams[r] < |s.clients|
            && Share(r, LogRequests(s.server.log)) <= SubmittedFrames(s.clients[s.server.streams[r]])
  {
    RunInOrder(cfg, states, actions, i);
    var s := states[i];
    assert StreamInOrder(s, r);
    ShareConcat(r, LogRequests(s.server.log), WithWorkers(s.server) + s.server.requests);
    Seqs.Assoc(LogRequests(s.server.log), WithWorkers(s.server), s.server.requests);
  }

  // ------------------------------------------- the two queues of the executor

  /** What step `a` from `srv` puts into the request queue: what the reader that
      posts has in its hand. */
  function PostedBy(srv: Server, a: Action): seq<Request> {
    match a
    case Post(r) => if r < |srv.readers| then InHand(srv.readers[r]) else []
    case _ => []
  }

  /** What step `a` to `srv` took out of it: what the worker has in its hand then. */
  function TakenBy(srv: Server, a: Action): seq<Request> {
    match a
    case Take(w) => if w < |srv.workers| then InHand(srv.workers[w]) else []
    case _ => []
  }

  /** What step `a` from `srv` puts into the response queue. */
  function RespondedBy(srv: Server, a: Action): seq<Response> {
    match a
    case Respond(slot) =>
      if HasSlot(srv, slot) && HandAt(srv, slot).Performed? then [HandAt(srv, slot).response] else []
    case _ => []
  }

  /** What step `a` to `srv` took out of it. */
  function PickedBy(srv: Server, a: Action): seq<Response> {
    match a
    case Pick(w) => if w < |srv.writers| && srv.writers[w].Took? then [srv.writers[w].response] else []
    case _ => []
  }

  /** The requests that the first `n` steps of a run posted, in their order... */
  function Posted(states: seq<State>, actions: seq<Action>, n: nat): seq<Request>
    requires n <= |actions| < |states|
  {
    if n == 0 then [] else Posted(states, actions, n - 1) + PostedBy(states[n - 1].server, actions[n - 1])
  }

  /** ...and those that workers took. */
  function Taken(states: seq<State>, actions: seq<Action>, n: nat): seq<Request>
    requires n <= |actions| < |states|
  {
    if n == 0 then [] else Taken(states, actions, n - 1) + TakenBy(states[n].server, actions[n - 1])
  }

  function Responded(states: seq<State>, actions: seq<Action>, n: nat): seq<Response>
    requires n <= |actions| < |states|
  {
    if n == 0 then [] else Responded(states, actions, n - 1) + RespondedBy(states[n - 1].server, actions[n - 1])
  }

  function Picked(states: seq<State>, actions: seq<Action>, n: nat): seq<Response>
    requires n <= |actions| < |states|
  {
    if n == 0 then [] else Picked(states, actions, n - 1) + PickedBy(states[n].server, actions[n - 1])
  }

  lemma RequestsStep(cfg: Config, s: State, a: Action)
    requires Enabled(cfg, s, a)
    ensures var srv, t := s.server, Step(cfg, s, a).server;
            TakenBy(t, a) + t.requests == srv.requests + PostedBy(srv, a)
  {
    match a
    case Take(w) => assert s.server.requests == [s.server.requests[0]] + s.server.requests[1..];
    case _ =>
  }

  lemma ResponsesStep(cfg: Config, s: State, a: Action)
    requires Enabled(cfg, s, a)
    ensures var srv, t := s.server, Step(cfg, s, a).server;
            PickedBy(t, a) + t.responses == srv.responses + RespondedBy(srv, a)
  {
    match a
    case Pick(w) => assert s.server.responses == [s.server.responses[0]] + s.server.responses[1..];
    case _ =>
  }

  /** In every run, with any number of workers: the requests taken so far, in the
      order in which any worker took them, followed by the queue, are the requests
      posted, in the order of posting. No request is overtaken. */
  lemma {:induction false} RequestsAreFifo(cfg: Config, states: seq<State>, actions: seq<Action>, i: nat)
    requires RunFromInit(cfg, states, actions) && i < |states|
    ensures Posted(states, actions, i) == Taken(states, actions, i) + states[i].server.requests
  {
    if i > 0 {
      var s, a, t := states[i - 1], actions[i - 1], states[i];
      RequestsAreFifo(cfg, states, actions, i - 1);
      RequestsStep(cfg, s, a);
      Seqs.QueueGoesOn(Posted(states, actions, i - 1), Taken(states, actions, i - 1), s.server.requests,
                       PostedBy(s.server, a), TakenBy(t.server, a), t.server.requests);
    }
  }

  /** The same for the response queue and any number of writers. */
  lemma {:induction false} ResponsesAreFifo(cfg: Config, states: seq<State>, actions: seq<Action>, i: nat)
    requires RunFromInit(cfg, states, actions) && i < |states|
    ensures Responded(states, actions, i) == Picked(states, actions, i) + states[i].server.responses
  {
    if i > 0 {
      var s, a, t := states[i - 1], actions[i - 1], states[i];
      ResponsesAreFifo(cfg, states, actions, i - 1);
      ResponsesStep(cfg, s, a);
      Seqs.QueueGoesOn(Responded(states, actions, i - 1), Picked(states, actions, i - 1), s.server.responses,
                       RespondedBy(s.server, a), PickedBy(t.server, a), t.server.responses);
    }
  }

  // ------------------------------------------------------------- two workers

  ghost predicate Reachable(cfg: Config, s: State) {
    exists states, actions :: RunFromInit(cfg, states, actions) && states[|actions|] == s
  }

  lemma ReachInit(cfg: Config)
    ensures Reachable(cfg, Init(cfg))
  {
    assert RunFromInit(cfg, [Init(cfg)], []);
  }

  lemma ReachStep(cfg: Config, s: State, a: Action)
    requires Reachable(cfg, s) && Enabled(cfg, s, a)
    ensures Reachable(cfg, Step(cfg, s, a))
  {
    var states, actions :| RunFromInit(cfg, states, actions) && states[|actions|] == s;
    RunExtends(cfg, states, actions, a);
  }

  /** A state with one client and nothing on its way back. */
  function Single(srv: Server, cl: Client, up: seq<Frame>): State {
    State(srv, [cl], [up], [[]])
  }

  lemma ReachSubmit(cfg: Config, srv: Server, cl: Client, up: seq<Frame>)
    requires Reachable(cfg, Single(srv, cl, up)) && !srv.crashed && cl.pending != []
    ensures Reachable(cfg, Single(srv, CliSubmit(cl, 0), up + [TicketFrame(cl.pending[0])]))
  {
    ReachStep(cfg, Single(srv, cl, up), Submit(0, 0));
  }

  lemma ReachRequestId(cfg: Config, srv: Server, cl: Client, up: seq<Frame>, call: Call)
    requires Reachable(cfg, Single(srv, cl, up)) && !srv.crashed
    ensures Reachable(cfg, Single(srv, CliRequestId(cl, call), up))
  {
    ReachStep(cfg, Single(srv, cl, up), RequestId(0, call));
  }

  lemma ReachReadPost(cfg: Config, srv: Server, cl: Client, f: Frame, up: seq<Frame>, call: Call)
    requires Reachable(cfg, Single(srv, cl, [f] + up)) && !srv.crashed && cfg.workers > 0
    requires srv.readers == [Idle] && srv.streams == map[0 := 0] && f.body == PackCall(call)
    ensures Reachable(cfg, Single(srv.(requests := srv.requests + [Request(f.id, 0, call)]), cl, up))
  {
    CallRoundTrip(call);
    var q := Request(f.id, 0, call);
    ReachStep(cfg, Single(srv, cl, [f] + up), Read(0));
    var mid := srv.(readers := [Holding(q)]);
    assert ([f] + up)[1..] == up;
    assert Reachable(cfg, Single(mid, cl, up));
    ReachStep(cfg, Single(mid, cl, up), Post(0));
    assert SrvPost(mid, 0) == srv.(requests := srv.requests + [q]);
  }

  lemma ReachServer(cfg: Config, srv: Server, a: Action, t: Server, cl: Client, up: seq<Frame>)
    requires Reachable(cfg, Single(srv, cl, up)) && !srv.crashed && ServerEnabled(cfg, srv, a)
    requires (a.Take? && t == SrvTake(srv, a.worker)) || (a.Perform? && t == SrvPerform(cfg, srv, a.slot))
    ensures Reachable(cfg, Single(t, cl, up))
  {
    ReachStep(cfg, Single(srv, cl, up), a);
  }

  function Streaming(cfg: Config): Server {
    NewServer(cfg).(nextStream := 1, streams := map[0 := 0], readers := [Idle])
  }

  lemma ReachStreaming(cfg: Config)
    ensures Reachable(cfg, Single(Streaming(cfg), NEW_CLIENT.(accepted := true), []))
  {
    var srv := NewServer(cfg);
    ReachInit(cfg);
    ReachStep(cfg, Init(cfg), Connect);
    assert Step(cfg, Init(cfg), Connect) == Single(srv, NEW_CLIENT, []);
    ReachStep(cfg, Single(srv, NEW_CLIENT, []), Accept(0));
    var t := Single(SrvAccept(srv, 0), NEW_CLIENT.(accepted := true), []);
    assert Step(cfg, Single(srv, NEW_CLIENT, []), Accept(0)) == t;
    ReachStep(cfg, t, Install);
  }

  function TwoSubmitted(x: Call, y: Call): Client {
    var tx, ty := Ticket(0, x), Ticket(1, y);
    Client([tx, ty], [], [tx, ty], [], map[], true)
  }

  function TwoIssued(x: Call, y: Call): Client {
    Client([Ticket(0, x), Ticket(1, y)], [Ticket(0, x), Ticket(1, y)], [], [], map[], true)
  }

  lemma ReachTwoIssued(cfg: Config, x: Call, y: Call)
    ensures Reachable(cfg, Single(Streaming(cfg), TwoIssued(x, y), []))
  {
    var srv, tx := Streaming(cfg), Ticket(0, x);
    ReachStreaming(cfg);
    var c0 := NEW_CLIENT.(accepted := true);
    ReachRequestId(cfg, srv, c0, [], x);
    var c1 := Client([tx], [tx], [], [], map[], true);
    assert CliRequestId(c0, x) == c1;
    ReachRequestId(cfg, srv, c1, [], y);
    assert CliRequestId(c1, y) == TwoIssued(x, y);
  }

  /** A client's threads may submit in another order than the ids were given out:
      the second call goes out first and is alone in the stream. */
  lemma SubmissionCanReorder(cfg: Config, x: Call, y: Call) returns (s: State)
    ensures Reachable(cfg, s) && |s.clients| == |s.up| == 1
    ensures s.clients[0].issued == [Ticket(0, x), Ticket(1, y)] && s.clients[0].submitted == [Ticket(1, y)]
    ensures s.clients[0].pending == [Ticket(0, x)] && s.up[0] == [TicketFrame(Ticket(1, y))]
  {
    ReachTwoIssued(cfg, x, y);
    var start := Single(Streaming(cfg), TwoIssued(x, y), []);
    ReachStep(cfg, start, Submit(0, 1));
    s := Step(cfg, start, Submit(0, 1));
    var none: seq<Frame> := [];
    assert none + [TicketFrame(Ticket(1, y))] == [TicketFrame(Ticket(1, y))];
  }

  lemma ReachTwoSubmitted(cfg: Config, x: Call, y: Call)
    ensures Reachable(cfg, Single(Streaming(cfg), TwoSubmitted(x, y), [TicketFrame(Ticket(0, x)), TicketFrame(Ticket(1, y))]))
  {
    var srv := Streaming(cfg);
    var tx, ty, c2 := Ticket(0, x), Ticket(1, y), TwoIssued(x, y);
    ReachTwoIssued(cfg, x, y);
    ReachSubmit(cfg, srv, c2, []);
    var c3 := Client([tx, ty], [ty], [tx], [], map[], true);
    assert CliSubmit(c2, 0) == c3 && [] + [TicketFrame(tx)] == [TicketFrame(tx)];
    ReachSubmit(cfg, srv, c3, [TicketFrame(tx)]);
    assert CliSubmit(c3, 0) == TwoSubmitted(x, y);
    assert [TicketFrame(tx)] + [TicketFrame(ty)] == [TicketFrame(tx), TicketFrame(ty)];
  }

  /** Both calls submitted in order, read and queued. */
  lemma ReachTwoQueued(cfg: Config, x: Call, y: Call)
    requires cfg.workers > 0
    ensures Reachable(cfg, Single(Streaming(cfg).(requests := [Request(0, 0, x), Request(1, 0, y)]), TwoSubmitted(x, y), []))
  {
    var srv, cl := Streaming(cfg), TwoSubmitted(x, y);
    var fx, fy := TicketFrame(Ticket(0, x)), TicketFrame(Ticket(1, y));
    ReachTwoSubmitted(cfg, x, y);
    assert [fx, fy] == [fx] + [fy] && [fy] == [fy] + [];
    ReachReadPost(cfg, srv, cl, fx, [fy], x);
    var one := srv.(requests := [Request(0, 0, x)]);
    assert srv.requests + [Request(0, 0, x)] == [Request(0, 0, x)];
    ReachReadPost(cfg, one, cl, fy, [], y);
    assert one.requests + [Request(1, 0, y)] == [Request(0, 0, x), Request(1, 0, y)];
  }

  /** With two or more workers, some run performs a client's second call first:
      what was performed is then no prefix of what was submitted. */
  lemma TwoWorkersCanReorder(cfg: Config, x: Call, y: Call) returns (s: State)
    requires cfg.workers >= 2 && y.name in Methods(cfg)
    ensures Reachable(cfg, s) && 0 in s.server.streams && s.server.streams[0] < |s.clients|
    ensures !(Share(0, LogRequests(s.server.log)) <= SubmittedFrames(s.clients[s.server.streams[0]]))
  {
    ReachTwoQueued(cfg, x, y);
    var cl := TwoSubmitted(x, y);
    var q0, q1 := Request(0, 0, x), Request(1, 0, y);
    var srv := Streaming(cfg).(requests := [q0, q1]);
    var one := SrvTake(srv, 0);
    ReachServer(cfg, srv, Take(0), one, cl, []);
    assert one.requests == [q1] && one.workers[1] == Idle;
    var two := SrvTake(one, 1);
    ReachServer(cfg, one, Take(1), two, cl, []);
    var done := SrvPerform(cfg, two, OnWorker(1));
    ReachServer(cfg, two, Action.Perform(OnWorker(1)), done, cl, []);
    s := Single(done, cl, []);
    assert LogRequests(done.log) == [q1];
    assert [q1][1..] == [];
    assert Share(0, [q1]) == [RequestFrame(q1)];
    assert SubmittedFrames(cl)[0] == TicketFrame(Ticket(0, x));
    assert TicketFrame(Ticket(0, x)).id == 0;
  }

  /** In every reachable state, every stream's calls are performed in order. */
  ghost predicate AlwaysInOrder(cfg: Config) {
    forall s, r: nat :: Reachable(cfg, s) && r in s.server.streams && s.server.streams[r] < |s.clients| ==>
      Share(r, LogRequests(s.server.log)) <= SubmittedFrames(s.clients[s.server.streams[r]])
  }

  /** Without methods nothing is ever performed. */
  lemma PerformedMeansRegistered(cfg: Config, s: State)
    requires Inv(cfg, s) && s.server.log != []
    ensures cfg.registrations != []
  {
    assert RecordOk(cfg, s.server.log, 0);
  }

  lemma InOrderIfFewWorkers(cfg: Config, s: State, r: nat)
    requires Reachable(cfg, s) && r in s.server.streams && s.server.streams[r] < |s.clients|
    requires cfg.workers <= 1 || cfg.registrations == []
    ensures Share(r, LogRequests(s.server.log)) <= SubmittedFrames(s.clients[s.server.streams[r]])
  {
    var states, actions :| RunFromInit(cfg, states, actions) && states[|actions|] == s;
    if cfg.workers <= 1 {
      PerformedInSubmissionOrder(cfg, states, actions, |actions|, r);
    } else {
      RunInv(cfg, states, actions, |actions|);
      if s.server.log != [] {
        PerformedMeansRegistered(cfg, s);
      }
    }
  }

  /** The bound is exact: order is guaranteed on every run if and only if there is
      at most one worker, or no method at all. */
  lemma OrderIffAtMostOneWorker(cfg: Config)
    ensures AlwaysInOrder(cfg) <==> cfg.workers <= 1 || cfg.registrations == []
  {
    if cfg.workers <= 1 || cfg.registrations == [] {
      forall s, r: nat | Reachable(cfg, s) && r in s.server.streams && s.server.streams[r] < |s.clients|
        ensures Share(r, LogRequests(s.server.log)) <= SubmittedFrames(s.clients[s.server.streams[r]])
      {
        InOrderIfFewWorkers(cfg, s, r);
      }
    } else {
      var name := cfg.registrations[|cfg.registrations| - 1].name;
      var call := Call([], name, []);
      var s := TwoWorkersCanReorder(cfg, call, call);
    }
  }
}
