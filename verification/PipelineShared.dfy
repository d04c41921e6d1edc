/** All connections use the same service objects: what one client's call did to a
    service is what another client's call finds. */
module PipelineShared {
  import opened Bytes
  import opened Framing
  import opened Dispatch
  import opened Pipeline
  import opened PipelineOrder

  /** A reachable state without workers in which client `c` has stream `r`, and
      nothing of that client is on its way. */
  ghost predicate Ready(cfg: Config, s: State, c: nat, r: nat) {
    && Reachable(cfg, s) && !s.server.crashed && cfg.workers == 0
    && |s.up| == |s.down| == |s.clients|
    && c < |s.clients| && s.clients[c].pending == [] && s.up[c] == []
    && r < |s.server.readers| && s.server.readers[r].Idle?
    && r in s.server.streams && s.server.streams[r] == c
  }

  lemma SubmitOne(cfg: Config, s: State, c: nat, r: nat, x: Call) returns (t: State)
    requires Ready(cfg, s, c, r)
    ensures Reachable(cfg, t) && t.server == s.server && |t.up| == |t.down| == |t.clients| == |s.clients|
    ensures t.up == s.up[c := [TicketFrame(Ticket(|s.clients[c].issued|, x))]]
    ensures forall d :: 0 <= d < |s.clients| && d != c ==> t.clients[d] == s.clients[d]
  {
    ReachStep(cfg, s, RequestId(c, x));
    var asked := Step(cfg, s, RequestId(c, x));
    assert asked.clients[c].pending == [Ticket(|s.clients[c].issued|, x)];
    ReachStep(cfg, asked, Submit(c, 0));
    t := Step(cfg, asked, Submit(c, 0));
    var none: seq<Frame> := [];
    assert none + [TicketFrame(asked.clients[c].pending[0])] == [TicketFrame(asked.clients[c].pending[0])];
  }

  /** Client `c` calls `x` and its reader performs it. */
  lemma CallAndPerform(cfg: Config, s: State, c: nat, r: nat, x: Call) returns (t: State)
    requires Ready(cfg, s, c, r) && x.name in Methods(cfg)
    ensures Reachable(cfg, t) && !t.server.crashed && |t.up| == |t.down| == |t.clients| == |s.clients|
    ensures t.server.log == s.server.log
            + [Record(Request(Narrow(|s.clients[c].issued|), r, x), Methods(cfg)[x.name](Calls(s.server.log), x.args))]
    ensures t.server.streams == s.server.streams && |t.server.readers| == |s.server.readers|
    ensures forall q :: 0 <= q < |s.server.readers| && q != r ==> t.server.readers[q] == s.server.readers[q]
    ensures forall d :: 0 <= d < |s.clients| && d != c ==> t.clients[d] == s.clients[d] && t.up[d] == s.up[d]
  {
    var sent := SubmitOne(cfg, s, c, r, x);
    CallRoundTrip(x);
    var q := Request(Narrow(|s.clients[c].issued|), r, x);
    ReachStep(cfg, sent, Read(r));
    var read := Step(cfg, sent, Read(r));
    assert read.server == s.server.(readers := s.server.readers[r := Holding(q)]);
    ReachStep(cfg, read, Action.Perform(OnReader(r)));
    t := Step(cfg, read, Action.Perform(OnReader(r)));
  }

  lemma ConnectNext(cfg: Config, s: State) returns (t: State)
    requires Reachable(cfg, s) && !s.server.crashed && s.server.accepting.None?
    requires |s.up| == |s.down| == |s.clients| == |s.server.readers| == s.server.nextStream
    ensures Reachable(cfg, t)
    ensures var n := |s.clients|;
            && t.server == s.server.(nextStream := n + 1, streams := s.server.streams[n := n], readers := s.server.readers + [Idle])
            && t.clients == s.clients + [NEW_CLIENT.(accepted := true)]
            && t.up == s.up + [[]] && t.down == s.down + [[]]
  {
    var n := |s.clients|;
    ReachStep(cfg, s, Connect);
    var connected := Step(cfg, s, Connect);
    ReachStep(cfg, connected, Accept(n));
    var accepted := Step(cfg, connected, Accept(n));
    ReachStep(cfg, accepted, Install);
    t := Step(cfg, accepted, Install);
  }

  lemma TwoConnected(cfg: Config) returns (s: State)
    requires cfg.workers == 0
    ensures Ready(cfg, s, 0, 0) && Ready(cfg, s, 1, 1) && s.server.log == []
    ensures |s.clients| == 2 && s.clients[0].issued == [] && s.clients[1].issued == []
  {
    ReachInit(cfg);
    var one := ConnectNext(cfg, Init(cfg));
    s := ConnectNext(cfg, one);
  }

  /** Client 1's call `x`, on stream 1, is in the history that client 0's call `y`,
      on stream 0, is performed with. */
  lemma OthersCallsAreSeen(cfg: Config, x: Call, y: Call) returns (s: State)
    requires cfg.workers == 0 && x.name in Methods(cfg) && y.name in Methods(cfg)
    ensures Reachable(cfg, s) && 0 in s.server.streams && 1 in s.server.streams
    ensures s.server.streams[0] == 0 && s.server.streams[1] == 1
    ensures s.server.log == [Record(Request(0, 1, x), Methods(cfg)[x.name]([], x.args)),
                             Record(Request(0, 0, y), Methods(cfg)[y.name]([x], y.args))]
  {
    var start := TwoConnected(cfg);
    var first := CallAndPerform(cfg, start, 1, 1, x);
    assert Calls([]) == [] && Calls(first.server.log) == [x];
    s := CallAndPerform(cfg, first, 0, 0, y);
  }

  lemma AloneIsUnseen(cfg: Config, y: Call) returns (s: State)
    requires cfg.workers == 0 && y.name in Methods(cfg)
    ensures Reachable(cfg, s) && 0 in s.server.streams && s.server.streams[0] == 0
    ensures s.server.log == [Record(Request(0, 0, y), Methods(cfg)[y.name]([], y.args))]
  {
    var start := TwoConnected(cfg);
    s := CallAndPerform(cfg, start, 0, 0, y);
    assert Calls([]) == [];
  }

  // ------------------------------------------------------ a stateful service

  const PERFORM: ByteString := [80]
  const GET: ByteString := [71]
  const BEFORE: ByteString := [49, 50, 51]

  /** `Perform` stores its argument in the service object; `Get` returns what is
      stored, at first "123". */
  function Stored(history: seq<Call>): ByteString {
    if history == [] then BEFORE
    else
      var last := history[|history| - 1];
      if last.name == PERFORM && last.args != [] then last.args[0] else Stored(history[..|history| - 1])
  }

  function StoreConfig(): Config {
    Config([Registration([], PERFORM, (history, args) => []),
            Registration([], GET, (history, args) => Stored(history))], 0, 8)
  }

  lemma StoreMethods()
    ensures var m := Methods(StoreConfig());
            PERFORM in m && GET in m && forall history, args :: m[GET](history, args) == Stored(history)
  {
    var regs := StoreConfig().registrations;
    assert regs[..1][..0] == [] && regs[..1][0] == regs[0];
    assert ByMethod(regs[..1]) == map[][PERFORM := regs[0].impl];
    assert ByMethod(regs) == ByMethod(regs[..1])[GET := regs[1].impl];
  }

  /** The same call of client 0 is answered "123" when it comes alone, and with
      client 1's bytes when client 1 stored them before. */
  lemma AnswerDependsOnOtherClient(b: ByteString) returns (alone: State, after: State)
    ensures Reachable(StoreConfig(), alone) && Reachable(StoreConfig(), after)
    ensures 0 in alone.server.streams && alone.server.streams[0] == 0
    ensures 0 in after.server.streams && after.server.streams[0] == 0
    ensures 1 in after.server.streams && after.server.streams[1] == 1
    ensures alone.server.log == [Record(Request(0, 0, Call([], GET, [])), BEFORE)]
    ensures |after.server.log| == 2 && after.server.log[0].request == Request(0, 1, Call([], PERFORM, [b]))
    ensures after.server.log[1] == Record(Request(0, 0, Call([], GET, [])), b)
  {
    var cfg, x, y := StoreConfig(), Call([], PERFORM, [b]), Call([], GET, []);
    StoreMethods();
    alone := AloneIsUnseen(cfg, y);
    after := OthersCallsAreSeen(cfg, x, y);
    assert Stored([x]) == b;
  }
}
