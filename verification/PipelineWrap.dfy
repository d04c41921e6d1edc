/** What happens past 2^32 calls, in reachable states: the reply to call 2^32 + j
    replaces the reply to call j in the cache. */
module PipelineWrap {
  import opened Bytes
  import opened Framing
  import opened Dispatch
  import opened Pipeline
  import opened PipelineSafety
  import opened PipelineTheorems
  import opened PipelineOrder

  // ------------------------------------------ one client, one call at a time

  function Tickets(cs: seq<Call>): seq<Ticket> {
    seq(|cs|, i requires 0 <= i < |cs| => Ticket(i, cs[i]))
  }

  ghost predicate Callable(cfg: Config, cs: seq<Call>) {
    forall i :: 0 <= i < |cs| ==> cs[i].name in Methods(cfg)
  }

  /** The reply to call `n` when the calls are performed in order. */
  function Reply(cfg: Config, cs: seq<Call>, n: nat): ByteString
    requires n < |cs| && cs[n].name in Methods(cfg)
  {
    Methods(cfg)[cs[n].name](cs[..n], cs[n].args)
  }

  function LogOf(cfg: Config, cs: seq<Call>): seq<Record>
    requires Callable(cfg, cs)
  {
    seq(|cs|, i requires 0 <= i < |cs| => Record(Request(Narrow(i), 0, cs[i]), Reply(cfg, cs, i)))
  }

  function RepliesOf(cfg: Config, cs: seq<Call>): seq<Frame>
    requires Callable(cfg, cs)
  {
    seq(|cs|, i requires 0 <= i < |cs| => Frame(Narrow(i), Reply(cfg, cs, i)))
  }

  function ClientAfter(cfg: Config, cs: seq<Call>): Client
    requires Callable(cfg, cs)
  {
    Client(Tickets(cs), [], Tickets(cs), RepliesOf(cfg, cs), CacheOf(RepliesOf(cfg, cs)), true)
  }

  /** Every call was answered before the next one was made. */
  function After(cfg: Config, cs: seq<Call>): State
    requires Callable(cfg, cs)
  {
    Single(Streaming(cfg).(log := LogOf(cfg, cs)), ClientAfter(cfg, cs), [])
  }

  lemma ReachCalled(cfg: Config, srv: Server, cl: Client, x: Call)
    requires Reachable(cfg, Single(srv, cl, [])) && !srv.crashed && cl.pending == []
    ensures var t := Ticket(|cl.issued|, x);
            Reachable(cfg, Single(srv, cl.(issued := cl.issued + [t], submitted := cl.submitted + [t]), [TicketFrame(t)]))
  {
    var t := Ticket(|cl.issued|, x);
    ReachRequestId(cfg, srv, cl, [], x);
    var asked := CliRequestId(cl, x);
    assert asked.pending == [t];
    ReachSubmit(cfg, srv, asked, []);
    assert CliSubmit(asked, 0) == cl.(issued := cl.issued + [t], submitted := cl.submitted + [t]);
    assert [] + [TicketFrame(t)] == [TicketFrame(t)];
  }

  /** Nothing is on its way through the server of one stream. */
  predicate AtRest(cfg: Config, srv: Server) {
    && !srv.crashed && srv.readers == [Idle] && srv.streams == map[0 := 0]
    && srv.requests == [] && srv.responses == []
    && srv.workers == seq(cfg.workers, _ => Idle) && srv.writers == seq(cfg.writers, _ => Waiting)
  }

  lemma ReachPerformed(cfg: Config, srv: Server, cl: Client, f: Frame, x: Call)
    requires Reachable(cfg, Single(srv, cl, [f])) && AtRest(cfg, srv)
    requires f.body == PackCall(x) && x.name in Methods(cfg)
    ensures var result := Methods(cfg)[x.name](Calls(srv.log), x.args);
            Reachable(cfg, Single(srv.(log := srv.log + [Record(Request(f.id, 0, x), result)],
                                       responses := [Response(f.id, 0, result)]), cl, []))
  {
    assert [f] == [f] + [];
    if cfg.workers > 0 {
      ReachByWorker(cfg, srv, cl, f, x);
    } else {
      ReachInline(cfg, srv, cl, f, x);
    }
  }

  lemma ReachByWorker(cfg: Config, srv: Server, cl: Client, f: Frame, x: Call)
    requires Reachable(cfg, Single(srv, cl, [f] + [])) && AtRest(cfg, srv) && cfg.workers > 0
    requires f.body == PackCall(x) && x.name in Methods(cfg)
    ensures var result := Methods(cfg)[x.name](Calls(srv.log), x.args);
            Reachable(cfg, Single(srv.(log := srv.log + [Record(Request(f.id, 0, x), result)],
                                       responses := [Response(f.id, 0, result)]), cl, []))
  {
    var q := Request(f.id, 0, x);
    ReachReadPost(cfg, srv, cl, f, [], x);
    var queued := srv.(requests := [q]);
    assert srv.requests + [q] == [q];
    var taken := SrvTake(queued, 0);
    ReachServer(cfg, queued, Take(0), taken, cl, []);
    assert taken.requests == [];
    ReachResponse(cfg, srv, taken, OnWorker(0), cl, q);
  }

  lemma ReachInline(cfg: Config, srv: Server, cl: Client, f: Frame, x: Call)
    requires Reachable(cfg, Single(srv, cl, [f] + [])) && AtRest(cfg, srv) && cfg.workers == 0
    requires f.body == PackCall(x) && x.name in Methods(cfg)
    ensures var result := Methods(cfg)[x.name](Calls(srv.log), x.args);
            Reachable(cfg, Single(srv.(log := srv.log + [Record(Request(f.id, 0, x), result)],
                                       responses := [Response(f.id, 0, result)]), cl, []))
  {
    var q := Request(f.id, 0, x);
    CallRoundTrip(x);
    ReachStep(cfg, Single(srv, cl, [f] + []), Read(0));
    var holding := srv.(readers := [Holding(q)]);
    assert Step(cfg, Single(srv, cl, [f] + []), Read(0)) == Single(holding, cl, []);
    ReachResponse(cfg, srv, holding, OnReader(0), cl, q);
  }

  /** Whoever holds the request performs it and queues the response. */
  lemma ReachResponse(cfg: Config, srv: Server, holding: Server, slot: Slot, cl: Client, q: Request)
    requires Reachable(cfg, Single(holding, cl, [])) && AtRest(cfg, srv) && q.call.name in Methods(cfg)
    requires HasSlot(srv, slot) && (slot.OnReader? ==> cfg.workers == 0) && holding == PutHand(srv, slot, Holding(q))
    ensures var result := Methods(cfg)[q.call.name](Calls(srv.log), q.call.args);
            Reachable(cfg, Single(srv.(log := srv.log + [Record(q, result)],
                                       responses := [Response(q.objectId, q.streamId, result)]), cl, []))
  {
    var result := Methods(cfg)[q.call.name](Calls(srv.log), q.call.args);
    var done := SrvPerform(cfg, holding, slot);
    ReachServer(cfg, holding, Action.Perform(slot), done, cl, []);
    ReachStep(cfg, Single(done, cl, []), Respond(slot));
    assert HandAt(srv, slot) == Idle;
    assert SrvRespond(done, slot)
        == srv.(log := srv.log + [Record(q, result)], responses := [Response(q.objectId, q.streamId, result)]);
  }

  lemma ReachReplied(cfg: Config, srv: Server, p: Response, cl: Client)
    requires Reachable(cfg, Single(srv.(responses := [p]), cl, [])) && AtRest(cfg, srv)
    requires cfg.writers > 0 && p.streamId == 0
    ensures Reachable(cfg, Single(srv, CliReceive(cl, ResponseFrame(p)), []))
  {
    var queued := srv.(responses := [p]);
    ReachStep(cfg, Single(queued, cl, []), Pick(0));
    var picked := srv.(writers := srv.writers[0 := Took(p)]);
    assert SrvPick(queued, 0) == picked;
    ReachStep(cfg, Single(picked, cl, []), Bind(0));
    var bound := srv.(writers := srv.writers[0 := Bound(p, 0)]);
    assert SrvBind(picked, 0) == bound;
    ReachSent(cfg, srv, bound, p, cl);
    ReachReceived(cfg, srv, ResponseFrame(p), cl);
  }

  lemma ReachSent(cfg: Config, srv: Server, bound: Server, p: Response, cl: Client)
    requires Reachable(cfg, Single(bound, cl, [])) && !srv.crashed
    requires |srv.writers| > 0 && srv.writers[0] == Waiting && bound == srv.(writers := srv.writers[0 := Bound(p, 0)])
    ensures Reachable(cfg, State(srv, [cl], [[]], [[ResponseFrame(p)]]))
  {
    var from, none: seq<Frame> := Single(bound, cl, []), [];
    ReachStep(cfg, from, Send(0));
    assert SrvSent(bound, 0) == srv;
    assert none + [ResponseFrame(p)] == [ResponseFrame(p)];
    assert from.down[0 := [ResponseFrame(p)]] == [[ResponseFrame(p)]];
  }

  lemma ReachReceived(cfg: Config, srv: Server, f: Frame, cl: Client)
    requires Reachable(cfg, State(srv, [cl], [[]], [[f]])) && !srv.crashed
    ensures Reachable(cfg, Single(srv, CliReceive(cl, f), []))
  {
    var sent := State(srv, [cl], [[]], [[f]]);
    ReachStep(cfg, sent, Receive(0));
    assert [f][1..] == [];
    assert sent.down[0 := [f][1..]] == [[]] && sent.clients[0 := CliReceive(cl, f)] == [CliReceive(cl, f)];
  }

  // ---------------------------------------------------------- all the calls

  lemma CallsOfLog(cfg: Config, cs: seq<Call>)
    requires Callable(cfg, cs)
    ensures Calls(LogOf(cfg, cs)) == cs
  {
  }

  /** One more call extends the histories by one entry each. */
  lemma OneMoreCall(cfg: Config, cs: seq<Call>, x: Call)
    requires Callable(cfg, cs) && x.name in Methods(cfg)
    ensures Callable(cfg, cs + [x])
    ensures var n, ds := |cs|, cs + [x];
            var result := Methods(cfg)[x.name](cs, x.args);
            && Tickets(ds) == Tickets(cs) + [Ticket(n, x)]
            && LogOf(cfg, ds) == LogOf(cfg, cs) + [Record(Request(Narrow(n), 0, x), result)]
            && RepliesOf(cfg, ds) == RepliesOf(cfg, cs) + [Frame(Narrow(n), result)]
            && CacheOf(RepliesOf(cfg, ds)) == CacheOf(RepliesOf(cfg, cs))[Narrow(n) := result]
  {
    var n, ds := |cs|, cs + [x];
    assert forall i :: 0 <= i < n ==> ds[i] == cs[i] && ds[..i] == cs[..i];
    assert ds[n] == x && ds[..n] == cs;
    var fs := RepliesOf(cfg, ds);
    assert fs[..n] == RepliesOf(cfg, cs);
  }

  lemma {:induction false} ReachAfter(cfg: Config, cs: seq<Call>)
    requires Callable(cfg, cs) && cfg.writers > 0
    ensures Reachable(cfg, After(cfg, cs))
  {
    if cs == [] {
      ReachStreaming(cfg);
      assert LogOf(cfg, cs) == [] && RepliesOf(cfg, cs) == [] && Tickets(cs) == [];
      assert After(cfg, cs) == Single(Streaming(cfg), NEW_CLIENT.(accepted := true), []);
    } else {
      var front, x := cs[..|cs| - 1], cs[|cs| - 1];
      assert cs == front + [x];
      ReachAfter(cfg, front);
      ReachOneMore(cfg, front, x);
    }
  }

  lemma ReachOneMore(cfg: Config, cs: seq<Call>, x: Call)
    requires Callable(cfg, cs) && x.name in Methods(cfg) && cfg.writers > 0 && Reachable(cfg, After(cfg, cs))
    ensures Callable(cfg, cs + [x]) && Reachable(cfg, After(cfg, cs + [x]))
  {
    var srv, cl := After(cfg, cs).server, ClientAfter(cfg, cs);
    var t := Ticket(|cs|, x);
    OneMoreCall(cfg, cs, x);
    CallsOfLog(cfg, cs);
    ReachCalled(cfg, srv, cl, x);
    var asked := cl.(issued := cl.issued + [t], submitted := cl.submitted + [t]);
    ReachPerformed(cfg, srv, asked, TicketFrame(t), x);
    var result := Methods(cfg)[x.name](cs, x.args);
    var done := After(cfg, cs + [x]).server;
    assert done.(responses := [Response(Narrow(t.id), 0, result)])
        == srv.(log := done.log, responses := [Response(Narrow(t.id), 0, result)]);
    ReachReplied(cfg, done, Response(Narrow(t.id), 0, result), asked);
    assert CliReceive(asked, Frame(Narrow(t.id), result)) == ClientAfter(cfg, cs + [x]);
  }

  /** Past the bound, on a run of any calls: the reply to call `j` arrived under id
      `j`, but once call 2^32 + `j` is answered a lookup of id `j` gets the reply
      to that later call. */
  lemma LaterReplyReplaces(cfg: Config, cs: seq<Call>, j: nat)
    requires Callable(cfg, cs) && cfg.writers > 0 && j < U32_LIMIT && |cs| == U32_LIMIT + j + 1
    ensures var s, cl := After(cfg, cs), ClientAfter(cfg, cs);
            && Reachable(cfg, s) && s.clients == [cl] && cl.issued == Tickets(cs)
            && cl.received[j] == Frame(j, Reply(cfg, cs, j))
            && j in cl.cached && cl.cached[j] == Reply(cfg, cs, U32_LIMIT + j)
  {
    ReachAfter(cfg, cs);
    LastReplyIsCached(cfg, cs);
    NarrowSmall(j);
    NarrowWraps(j);
  }

  lemma NarrowWraps(j: nat)
    requires j < U32_LIMIT
    ensures Narrow(U32_LIMIT + j) == j
  {
  }

  lemma LastReplyIsCached(cfg: Config, cs: seq<Call>)
    requires Callable(cfg, cs) && cs != []
    ensures var n, cached := |cs| - 1, ClientAfter(cfg, cs).cached;
            Narrow(n) in cached && cached[Narrow(n)] == Reply(cfg, cs, n)
  {
    var fs := RepliesOf(cfg, cs);
    assert fs[|fs| - 1] == Frame(Narrow(|cs| - 1), Reply(cfg, cs, |cs| - 1));
  }

  /** A method that returns its first argument. */
  function EchoConfig(): Config {
    Config([Registration([], [], (history, args: seq<ByteString>) => if args == [] then [] else args[0])], 0, 1)
  }

  function EchoCall(b: Byte): Call {
    Call([], [], [[b]])
  }

  /** Echo 1 once, then 2. */
  function EchoCalls(n: nat): seq<Call> {
    seq(n, i requires 0 <= i < n => EchoCall(if i == 0 then 1 else 2))
  }

  /** The bound in `CacheHoldsOwnAnswer` is exact: with 2^32 + 1 calls, a reachable
      state has under id 0 bytes that do not answer call 0. */
  lemma BoundIsExact() returns (s: State)
    ensures var cfg := EchoConfig();
            && Reachable(cfg, s) && |s.clients| == 1
            && (var cl := s.clients[0];
                && |cl.issued| == U32_LIMIT + 1 && cl.issued[0] == Ticket(0, EchoCall(1))
                && 0 in cl.cached && cl.cached[0] == [2]
                && !AnswersCall(cfg, s, 0, 0, cl.issued[0].call, cl.cached[0]))
  {
    var cfg := EchoConfig();
    var cs := EchoCalls(U32_LIMIT + 1);
    EchoReplies(U32_LIMIT + 1);
    LaterReplyReplaces(cfg, cs, 0);
    s := After(cfg, cs);
    assert cs[U32_LIMIT] == EchoCall(2);
    assert Tickets(cs)[0] == Ticket(0, cs[0]);
  }

  lemma EchoReplies(n: nat)
    ensures var m := Methods(EchoConfig());
            [] in m && forall history, b: Byte :: m[[]](history, [[b]]) == [b]
    ensures Callable(EchoConfig(), EchoCalls(n))
  {
    var regs := EchoConfig().registrations;
    assert regs[..0] == [];
    assert ByMethod(regs) == map[][[] := regs[0].impl];
    forall i | 0 <= i < n ensures EchoCalls(n)[i].name in Methods(EchoConfig()) {
      assert EchoCalls(n)[i] == EchoCall(if i == 0 then 1 else 2);
    }
  }
}
