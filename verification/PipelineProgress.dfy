/** Deadlock freedom and termination of the pipeline.

    Once clients stop connecting and asking for new ids, every step brings one
    item one place further, so runs are bounded; as long as anything is left to
    do some step is enabled; and when nothing is left, every issued call has its
    answer in its client's cache. */
module PipelineProgress {
  import opened Bytes
  import opened Framing
  import opened Dispatch
  import opened Pipeline
  import opened PipelineSafety
  import opened Conservation
  import opened PipelineTheorems
  import opened Sums

  /** The steps that are not new demands on the system. */
  predicate IsProgress(a: Action) {
    !a.Connect? && !a.RequestId?
  }

  // ----------------------------------------------------------- the measure

  function ClientWeight(): Client -> nat {
    (c: Client) => 13 * |c.pending| + (if c.accepted then 0 else 2)
  }

  function UpWeight(): seq<Frame> -> nat {
    (fs: seq<Frame>) => 12 * |fs|
  }

  function ReaderWeight(): Hand -> nat {
    (h: Hand) => match h case Idle => 0 case Holding(_) => 11 case Performed(_) => 6
  }

  function WorkerWeight(): Hand -> nat {
    (h: Hand) => match h case Idle => 0 case Holding(_) => 9 case Performed(_) => 6
  }

  function WriterWeight(): WriterHand -> nat {
    (h: WriterHand) => match h case Waiting => 0 case Took(_) => 4 case Bound(_, _) => 3
  }

  function DownWeight(): seq<Frame> -> nat {
    (fs: seq<Frame>) => 2 * |fs|
  }

  function ServerMeasure(srv: Server): nat {
    (if srv.accepting.Some? then 1 else 0) + Sum(srv.readers, ReaderWeight()) + 10 * |srv.requests|
    + Sum(srv.workers, WorkerWeight()) + 5 * |srv.responses| + Sum(srv.writers, WriterWeight())
    + (if srv.crashed then 0 else 1)
  }

  /** How many steps are left at most. */
  function StepsLeft(s: State): nat {
    ServerMeasure(s.server) + Sum(s.clients, ClientWeight()) + Sum(s.up, UpWeight()) + Sum(s.down, DownWeight())
  }

  lemma PutHandMeasure(srv: Server, slot: Slot, h: Hand)
    requires HasSlot(srv, slot)
    ensures var w := if slot.OnWorker? then WorkerWeight() else ReaderWeight();
            ServerMeasure(PutHand(srv, slot, h)) + w(HandAt(srv, slot)) == ServerMeasure(srv) + w(h)
  {
    match slot
    case OnWorker(w) => SumUpdate(srv.workers, w, h, WorkerWeight());
    case OnReader(r) => SumUpdate(srv.readers, r, h, ReaderWeight());
  }

  lemma PerformDecreases(cfg: Config, srv: Server, slot: Slot)
    requires !srv.crashed && HasSlot(srv, slot)
    ensures HandAt(srv, slot).Holding? ==> ServerMeasure(SrvPerform(cfg, srv, slot)) < ServerMeasure(srv)
    ensures HandAt(srv, slot).Performed? ==> ServerMeasure(SrvRespond(srv, slot)) < ServerMeasure(srv)
  {
    if HandAt(srv, slot).Holding? {
      var t := SrvPerform(cfg, srv, slot);
      if !t.crashed {
        PutHandMeasure(srv.(log := t.log), slot, HandAt(t, slot));
      }
    } else if HandAt(srv, slot).Performed? {
      PutHandMeasure(srv.(responses := srv.responses + [HandAt(srv, slot).response]), slot, Idle);
    }
  }

  lemma WriterDecreases(srv: Server, w: nat)
    requires !srv.crashed && w < |srv.writers|
    ensures srv.writers[w].Waiting? && srv.responses != [] ==> ServerMeasure(SrvPick(srv, w)) < ServerMeasure(srv)
    ensures srv.writers[w].Took? ==> ServerMeasure(SrvBind(srv, w)) < ServerMeasure(srv)
    ensures srv.writers[w].Bound? ==> ServerMeasure(SrvSent(srv, w)) == ServerMeasure(srv) - 3
  {
    match srv.writers[w]
    case Waiting =>
      if srv.responses != [] {
        SumUpdate(srv.writers, w, Took(srv.responses[0]), WriterWeight());
      }
    case Took(p) =>
      if p.streamId in srv.streams {
        SumUpdate(srv.writers, w, Bound(p, srv.streams[p.streamId]), WriterWeight());
      }
    case Bound(_, _) => SumUpdate(srv.writers, w, Waiting, WriterWeight());
  }

  lemma InsideDecreases(cfg: Config, srv: Server, a: Action)
    requires !srv.crashed && ServerEnabled(cfg, srv, a)
    requires a.Install? || a.Post? || a.Take? || a.Perform? || a.Respond? || a.Pick? || a.Bind?
    ensures ServerMeasure(Inside(cfg, srv, a)) < ServerMeasure(srv)
  {
    match a
    case Install => SumSnoc(srv.readers, Idle, ReaderWeight());
    case Post(r) => SumUpdate(srv.readers, r, Idle, ReaderWeight());
    case Take(w) => SumUpdate(srv.workers, w, Holding(srv.requests[0]), WorkerWeight());
    case Perform(slot) => PerformDecreases(cfg, srv, slot);
    case Respond(slot) => PerformDecreases(cfg, srv, slot);
    case Pick(w) => WriterDecreases(srv, w);
    case Bind(w) => WriterDecreases(srv, w);
  }

  lemma ReadMeasure(cfg: Config, srv: Server, r: nat, f: Frame)
    requires !srv.crashed && ServerEnabled(cfg, srv, Read(r))
    ensures ServerMeasure(SrvRead(srv, r, f)) <= ServerMeasure(srv) + 11
  {
    match DecodeCall(f.body)
    case None =>
    case Some(call) => SumUpdate(srv.readers, r, Holding(Request(f.id, r, call)), ReaderWeight());
  }

  /** Every step that is not a new demand strictly decreases the measure. */
  lemma StepDecreases(cfg: Config, s: State, a: Action)
    requires Enabled(cfg, s, a) && IsProgress(a)
    ensures StepsLeft(Step(cfg, s, a)) < StepsLeft(s)
  {
    var srv := s.server;
    match a
    case Submit(c, i) =>
      SumUpdate(s.clients, c, CliSubmit(s.clients[c], i), ClientWeight());
      SumUpdate(s.up, c, s.up[c] + [TicketFrame(s.clients[c].pending[i])], UpWeight());
    case Accept(c) =>
      SumUpdate(s.clients, c, s.clients[c].(accepted := true), ClientWeight());
    case Read(r) =>
      var c := srv.streams[r];
      ReadMeasure(cfg, srv, r, s.up[c][0]);
      SumUpdate(s.up, c, s.up[c][1..], UpWeight());
    case Send(w) =>
      var c := srv.writers[w].client;
      WriterDecreases(srv, w);
      SumUpdate(s.down, c, s.down[c] + [ResponseFrame(srv.writers[w].response)], DownWeight());
    case Receive(c) =>
      SumUpdate(s.clients, c, CliReceive(s.clients[c], s.down[c][0]), ClientWeight());
      SumUpdate(s.down, c, s.down[c][1..], DownWeight());
    case _ => InsideDecreases(cfg, srv, a);
  }

  /** Without new demands, a run from `s` has at most `StepsLeft(s)` steps. */
  lemma {:induction false} RunsAreBounded(cfg: Config, states: seq<State>, actions: seq<Action>)
    requires Run(cfg, states, actions)
    requires forall i :: 0 <= i < |actions| ==> IsProgress(actions[i])
    ensures |actions| + StepsLeft(states[|actions|]) <= StepsLeft(states[0])
  {
    if actions != [] {
      var n := |actions| - 1;
      assert Run(cfg, states[..n + 1], actions[..n]);
      RunsAreBounded(cfg, states[..n + 1], actions[..n]);
      StepDecreases(cfg, states[n], actions[n]);
    }
  }

  // ------------------------------------------------------- deadlock freedom

  predicate ServerDrained(srv: Server) {
    && srv.accepting.None? && srv.requests == [] && srv.responses == []
    && (forall r :: 0 <= r < |srv.readers| ==> srv.readers[r].Idle?)
    && (forall w :: 0 <= w < |srv.workers| ==> srv.workers[w].Idle?)
    && (forall w :: 0 <= w < |srv.writers| ==> srv.writers[w].Waiting?)
  }

  ghost predicate Drained(s: State) {
    && |s.up| == |s.down| == |s.clients|
    && ServerDrained(s.server)
    && (forall c :: 0 <= c < |s.clients| ==> s.clients[c].accepted && s.clients[c].pending == [])
    && (forall c :: 0 <= c < |s.clients| ==> s.up[c] == [] && s.down[c] == [])
  }

  /** Some step inside the server is enabled until the server is drained. */
  lemma ServerCanStep(cfg: Config, srv: Server) returns (a: Action)
    requires InFlightOk(cfg, srv) && cfg.writers > 0 && !ServerDrained(srv)
    ensures ServerEnabled(cfg, srv, a)
    ensures a.Install? || a.Post? || a.Take? || a.Perform? || a.Respond? || a.Pick? || a.Bind? || a.Send?
  {
    if w: nat :| w < |srv.writers| && !srv.writers[w].Waiting? {
      a := if srv.writers[w].Took? then Bind(w) else Send(w);
    } else if srv.responses != [] {
      a := Pick(0);
    } else if w: nat :| w < |srv.workers| && !srv.workers[w].Idle? {
      a := if srv.workers[w].Holding? then Action.Perform(OnWorker(w)) else Respond(OnWorker(w));
    } else if srv.requests != [] {
      a := Take(0);
    } else if r: nat :| r < |srv.readers| && !srv.readers[r].Idle? {
      a := if srv.readers[r].Performed? then Respond(OnReader(r))
           else if cfg.workers == 0 then Action.Perform(OnReader(r)) else Post(r);
    } else {
      a := Install;
    }
  }

  /** Deadlock freedom: until everything is drained, some step is enabled. */
  lemma CanStep(cfg: Config, s: State) returns (a: Action)
    requires Inv(cfg, s) && !s.server.crashed && cfg.writers > 0 && !Drained(s)
    ensures Enabled(cfg, s, a) && IsProgress(a)
  {
    if !ServerDrained(s.server) {
      a := ServerCanStep(cfg, s.server);
      if a.Send? {
        assert WriterOk(s.server, s.server.writers[a.writer]);
      }
    } else if c: nat :| c < |s.clients| && !s.clients[c].accepted {
      a := Accept(c);
    } else if c: nat :| c < |s.clients| && s.clients[c].pending != [] {
      a := Submit(c, 0);
    } else if c: nat :| c < |s.clients| && s.down[c] != [] {
      a := Receive(c);
    } else {
      var c: nat :| c < |s.clients| && s.up[c] != [];
      assert s.clients[c].accepted;
      var r: nat :| r in s.server.streams && s.server.streams[r] == c;
      a := Read(r);
    }
  }

  /** Nobody waits for anything but its own queue: any worker and any
      writer that has something to do can do it at once... */
  lemma EveryThreadCanStep(cfg: Config, s: State, i: nat)
    requires Inv(cfg, s) && !s.server.crashed
    ensures var srv := s.server;
            && (i < |srv.workers| && srv.workers[i].Idle? && srv.requests != [] ==> Enabled(cfg, s, Take(i)))
            && (i < |srv.workers| && srv.workers[i].Holding? ==> Enabled(cfg, s, Action.Perform(OnWorker(i))))
            && (i < |srv.workers| && srv.workers[i].Performed? ==> Enabled(cfg, s, Respond(OnWorker(i))))
            && (i < |srv.writers| && srv.writers[i].Waiting? && srv.responses != [] ==> Enabled(cfg, s, Pick(i)))
            && (i < |srv.writers| && srv.writers[i].Took? ==> Enabled(cfg, s, Bind(i)))
            && (i < |srv.writers| && srv.writers[i].Bound? ==> Enabled(cfg, s, Send(i)))
  {
    var srv := s.server;
    assert i < |srv.writers| ==> WriterOk(srv, srv.writers[i]);
  }

  /** ...every reader... */
  lemma EveryReaderCanStep(cfg: Config, s: State, i: nat)
    requires Inv(cfg, s) && !s.server.crashed
    ensures var srv := s.server;
            && (i in srv.streams && srv.readers[i].Idle? && s.up[srv.streams[i]] != [] ==> Enabled(cfg, s, Read(i)))
            && (i in srv.streams && srv.readers[i].Holding? ==>
                  Enabled(cfg, s, if cfg.workers > 0 then Post(i) else Action.Perform(OnReader(i))))
            && (i in srv.streams && srv.readers[i].Performed? ==> Enabled(cfg, s, Respond(OnReader(i))))
  {
  }

  /** ...and so can every client: connect, get an id, submit any of its calls, be
      accepted once nobody else is just being accepted, and receive. */
  lemma EveryClientCanStep(cfg: Config, s: State, c: nat, i: nat, call: Call)
    requires Inv(cfg, s) && !s.server.crashed && c < |s.clients|
    ensures Enabled(cfg, s, Connect) && Enabled(cfg, s, RequestId(c, call))
    ensures i < |s.clients[c].pending| ==> Enabled(cfg, s, Submit(c, i))
    ensures !s.clients[c].accepted ==>
              Enabled(cfg, s, if s.server.accepting.None? then Accept(c) else Install)
    ensures s.down[c] != [] ==> Enabled(cfg, s, Receive(c))
  {
  }

  // ------------------------------------------------------------- quiescence

  lemma DrainedServerHoldsNothing(srv: Server, k: Asked, j: Answer)
    requires ServerDrained(srv)
    ensures Held(srv, k) == 0 && Returning(srv, j) == 0
  {
    SumZero(srv.readers, HoldingW(srv.streams, k));
    SumZero(srv.workers, HoldingW(srv.streams, k));
    SumZero(srv.readers, PerformedW(srv.streams, j));
    SumZero(srv.workers, PerformedW(srv.streams, j));
    SumZero(srv.writers, WriterW(srv.streams, j));
  }

  /** When everything is drained, each issued call was performed and its answer is
      what is cached, up to the narrowing of its id. */
  lemma DrainedMeansCached(cfg: Config, s: State, c: nat, n: nat)
    requires Inv(cfg, s) && Drained(s) && c < |s.clients| && n < |s.clients[c].issued|
    ensures Narrow(n) in s.clients[c].cached
  {
    var cl := s.clients[c];
    assert ClientOk(cl);
    var k := Asked(c, Narrow(n), cl.issued[n].call);
    SumAtLeast(cl.issued, n, TicketW(k));
    assert CallsConserved(s, k);
    DrainedServerHoldsNothing(s.server, k, Answer(c, Narrow(n), []));
    var j := SumWitness(s.server.log, DoneW(s.server.streams, k));
    var ans := Answer(c, Narrow(n), s.server.log[j].result);
    SumAtLeast(s.server.log, j, AnsweredW(s.server.streams, ans));
    assert AnswersConserved(s, ans);
    DrainedServerHoldsNothing(s.server, k, ans);
    var m := SumWitness(cl.received, DownW(ans));
    ReceivedIsCached(cl.received, m);
  }

  /** A state in which no progress step is enabled. */
  ghost predicate Stuck(cfg: Config, s: State) {
    forall a :: IsProgress(a) ==> !Enabled(cfg, s, a)
  }

  /** Wherever a run stops for good, with at least one writer and only registered
      methods called, every issued call is answered: a lookup of any id below 2^32
      succeeds, and does so with the answer to the call issued under that id. */
  lemma EveryCallIsAnswered(cfg: Config, states: seq<State>, actions: seq<Action>, c: nat, n: nat)
    requires RunFromInit(cfg, states, actions) && cfg.writers > 0
    requires var s := states[|actions|]; AllRegistered(cfg, s) && Stuck(cfg, s)
    requires var s := states[|actions|]; c < |s.clients| && n < |s.clients[c].issued|
    ensures var s := states[|actions|]; Drained(s) && Narrow(n) in s.clients[c].cached
    ensures var cl := states[|actions|].clients[c];
            |cl.issued| <= U32_LIMIT ==>
              n in cl.cached && AnswersCall(cfg, states[|actions|], c, n, cl.issued[n].call, cl.cached[n])
  {
    var s := states[|actions|];
    RunInv(cfg, states, actions, |actions|);
    NoCrash(cfg, states, actions, |actions|);
    if !Drained(s) {
      var a := CanStep(cfg, s);
    }
    DrainedMeansCached(cfg, s, c, n);
    if |s.clients[c].issued| <= U32_LIMIT {
      CacheHoldsOwnAnswer(cfg, states, actions, |actions|, c, n);
    }
  }

  /** The width bound is exact: wherever a run stops for good, an issued id is in
      its client's cache if and only if it fits 32 bits. */
  lemma CachedIffNarrow(cfg: Config, states: seq<State>, actions: seq<Action>, c: nat, n: nat)
    requires RunFromInit(cfg, states, actions) && cfg.writers > 0
    requires var s := states[|actions|]; AllRegistered(cfg, s) && Stuck(cfg, s)
    requires var s := states[|actions|]; c < |s.clients| && n < |s.clients[c].issued|
    ensures n in states[|actions|].clients[c].cached <==> n < U32_LIMIT
  {
    if n < U32_LIMIT {
      EveryCallIsAnswered(cfg, states, actions, c, n);
      NarrowSmall(n);
    } else {
      var s := states[|actions|];
      WideIdNeverFound(cfg, states, actions, |actions|, c, n - U32_LIMIT, s.clients[c].issued[n].call);
    }
  }

  /** The states in which nothing can move are exactly the drained ones. */
  lemma StuckIffDrained(cfg: Config, s: State)
    requires Inv(cfg, s) && !s.server.crashed && cfg.writers > 0
    ensures Stuck(cfg, s) <==> Drained(s)
  {
    if !Drained(s) {
      var a := CanStep(cfg, s);
    } else {
      forall a | IsProgress(a) ensures !Enabled(cfg, s, a) {
      }
    }
  }

  /** In a drained state every issued call was performed, so its method is in the
      table. */
  lemma DrainedMeansRegistered(cfg: Config, s: State, c: nat, n: nat)
    requires Inv(cfg, s) && Drained(s) && c < |s.clients| && n < |s.clients[c].issued|
    ensures s.clients[c].issued[n].call.name in Methods(cfg)
  {
    var cl := s.clients[c];
    assert ClientOk(cl);
    var k := Asked(c, Narrow(n), cl.issued[n].call);
    SumAtLeast(cl.issued, n, TicketW(k));
    assert CallsConserved(s, k);
    DrainedServerHoldsNothing(s.server, k, Answer(c, Narrow(n), []));
    var j := SumWitness(s.server.log, DoneW(s.server.streams, k));
    assert RecordOk(cfg, s.server.log, j);
  }

  /** Wherever a run stops for good, the server is down if and only if some client
      called a method that nobody registered. */
  lemma CrashedIffUnregistered(cfg: Config, states: seq<State>, actions: seq<Action>)
    requires RunFromInit(cfg, states, actions) && cfg.writers > 0 && Stuck(cfg, states[|actions|])
    ensures states[|actions|].server.crashed <==> !AllRegistered(cfg, states[|actions|])
  {
    var s := states[|actions|];
    RunInv(cfg, states, actions, |actions|);
    if AllRegistered(cfg, s) {
      NoCrash(cfg, states, actions, |actions|);
    } else if !s.server.crashed {
      StuckIffDrained(cfg, s);
      forall c, n | 0 <= c < |s.clients| && 0 <= n < |s.clients[c].issued|
        ensures s.clients[c].issued[n].call.name in Methods(cfg)
      {
        DrainedMeansRegistered(cfg, s, c, n);
      }
    }
  }
}
