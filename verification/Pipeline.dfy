/** The asynchronous RPC pipeline as a transition system over whole frames.

    Any number of clients, workers and writers take steps in any interleaving.
    A call travels: requested id -> client-to-server stream -> reader callback ->
    request queue -> worker -> response queue -> writer -> server-to-client
    stream -> cache. With no workers, the reader's thread performs it inline.

    `Server` and `Client` are the states of `Executor` and `Submitter`; the two
    streams between them are the only thing the byte-level system replaces. */
module Pipeline {
  import opened Bytes
  import opened Framing
  import opened Dispatch

  /** A registered method: its result may depend on every call performed before
      (the service objects are mutable) and on its arguments. */
  type Impl = (seq<Call>, seq<ByteString>) -> ByteString

  datatype Config = Config(registrations: seq<Registration<Impl>>, workers: nat, writers: nat)

  datatype Request = Request(objectId: U32, streamId: nat, call: Call)
  datatype Response = Response(objectId: U32, streamId: nat, result: ByteString)

  /** What a thread that performs requests has in its hands. */
  datatype Hand = Idle | Holding(request: Request) | Performed(response: Response)

  /** What a thread of `LoopToWriteResponse` has in its hands. */
  datatype WriterHand = Waiting | Took(response: Response) | Bound(response: Response, client: nat)

  /** One performed request, as a history entry. */
  datatype Record = Record(request: Request, result: ByteString)

  /** `readers[id]` is the thread that runs the callback of stream `id`. */
  datatype Server = Server(
    nextStream: nat,
    accepting: Option<(nat, nat)>,
    streams: map<nat, nat>,
    readers: seq<Hand>,
    requests: seq<Request>,
    workers: seq<Hand>,
    responses: seq<Response>,
    writers: seq<WriterHand>,
    log: seq<Record>,
    crashed: bool)

  /** A call with the 64-bit object id that `RequestObjectID` gave it. */
  datatype Ticket = Ticket(id: nat, call: Call)

  /** `issued`, `submitted` and `received` are histories; the object id counter is
      `|issued|`. `accepted` says whether the server took the connection. */
  datatype Client = Client(
    issued: seq<Ticket>,
    pending: seq<Ticket>,
    submitted: seq<Ticket>,
    received: seq<Frame>,
    cached: map<nat, ByteString>,
    accepted: bool)

  datatype State = State(server: Server, clients: seq<Client>, up: seq<seq<Frame>>, down: seq<seq<Frame>>)

  function Methods(cfg: Config): map<ByteString, Impl> {
    ByMethod(cfg.registrations)
  }

  /** `history` is what the service objects went through before record `j`: all
      calls performed before it, in order, whatever streams they came on. */
  predicate IsHistory(history: seq<Call>, log: seq<Record>, j: nat)
    requires j <= |log|
  {
    |history| == j && forall i :: 0 <= i < j ==> history[i] == log[i].request.call
  }

  function Calls(log: seq<Record>): (history: seq<Call>)
    ensures IsHistory(history, log, |log|)
  {
    seq(|log|, i requires 0 <= i < |log| => log[i].request.call)
  }

  lemma HistoryOfAll(log: seq<Record>)
    ensures forall history :: IsHistory(history, log, |log|) ==> history == Calls(log)
  {
  }

  // ------------------------------------------------------------- the server

  const NEW_CLIENT := Client([], [], [], [], map[], false)

  function NewServer(cfg: Config): Server {
    Server(0, None, map[], [], [], seq(cfg.workers, _ => Idle), [], seq(cfg.writers, _ => Waiting), [], false)
  }

  /** The accept handler numbers the stream... */
  function SrvAccept(s: Server, client: nat): Server {
    s.(accepting := Some((s.nextStream, client)), nextStream := s.nextStream + 1)
  }

  /** ...then stores it under its number and starts reading it. */
  function SrvInstall(s: Server): Server
    requires s.accepting.Some?
  {
    s.(streams := s.streams[s.accepting.value.0 := s.accepting.value.1],
       readers := s.readers + [Idle],
       accepting := None)
  }

  /** The reader's callback decodes a frame; a malformed tuple throws. */
  function SrvRead(s: Server, streamId: nat, f: Frame): Server
    requires streamId < |s.readers|
  {
    match DecodeCall(f.body)
    case None => s.(crashed := true)
    case Some(call) => s.(readers := s.readers[streamId := Holding(Request(f.id, streamId, call))])
  }

  /** With workers, the callback ends by queueing the request. */
  function SrvPost(s: Server, streamId: nat): Server
    requires streamId < |s.readers| && s.readers[streamId].Holding?
  {
    s.(requests := s.requests + [s.readers[streamId].request], readers := s.readers[streamId := Idle])
  }

  function SrvTake(s: Server, w: nat): Server
    requires w < |s.workers| && s.requests != []
  {
    s.(workers := s.workers[w := Holding(s.requests[0])], requests := s.requests[1..])
  }

  /** A request is performed on a worker or, with no workers, on a reader. */
  datatype Slot = OnWorker(w: nat) | OnReader(streamId: nat)

  predicate HasSlot(s: Server, slot: Slot) {
    match slot case OnWorker(w) => w < |s.workers| case OnReader(r) => r < |s.readers|
  }

  function HandAt(s: Server, slot: Slot): Hand
    requires HasSlot(s, slot)
  {
    match slot case OnWorker(w) => s.workers[w] case OnReader(r) => s.readers[r]
  }

  function PutHand(s: Server, slot: Slot, h: Hand): Server
    requires HasSlot(s, slot)
  {
    match slot
    case OnWorker(w) => s.(workers := s.workers[w := h])
    case OnReader(r) => s.(readers := s.readers[r := h])
  }

  /** Look the method up by name and run it; a missing entry is an empty function,
      and calling it throws. */
  function SrvPerform(cfg: Config, s: Server, slot: Slot): Server
    requires HasSlot(s, slot) && HandAt(s, slot).Holding?
  {
    var q := HandAt(s, slot).request;
    if q.call.name !in Methods(cfg) then s.(crashed := true)
    else
      var result := Methods(cfg)[q.call.name](Calls(s.log), q.call.args);
      PutHand(s.(log := s.log + [Record(q, result)]), slot, Performed(Response(q.objectId, q.streamId, result)))
  }

  function SrvRespond(s: Server, slot: Slot): Server
    requires HasSlot(s, slot) && HandAt(s, slot).Performed?
  {
    PutHand(s.(responses := s.responses + [HandAt(s, slot).response]), slot, Idle)
  }

  function SrvPick(s: Server, r: nat): Server
    requires r < |s.writers| && s.responses != []
  {
    s.(writers := s.writers[r := Took(s.responses[0])], responses := s.responses[1..])
  }

  /** The writer looks the stream up and asserts that it is there. */
  function SrvBind(s: Server, r: nat): Server
    requires r < |s.writers| && s.writers[r].Took?
  {
    var p := s.writers[r].response;
    if p.streamId !in s.streams then s.(crashed := true)
    else s.(writers := s.writers[r := Bound(p, s.streams[p.streamId])])
  }

  function SrvSent(s: Server, r: nat): Server
    requires r < |s.writers|
  {
    s.(writers := s.writers[r := Waiting])
  }

  function ResponseFrame(p: Response): Frame {
    Frame(p.objectId, p.result)
  }

  // ------------------------------------------------------------- the client

  function CliRequestId(c: Client, call: Call): Client {
    var t := Ticket(|c.issued|, call);
    c.(issued := c.issued + [t], pending := c.pending + [t])
  }

  /** Threads of one client may submit in another order than they got their ids. */
  function CliSubmit(c: Client, i: nat): Client
    requires i < |c.pending|
  {
    c.(pending := c.pending[..i] + c.pending[i + 1..], submitted := c.submitted + [c.pending[i]])
  }

  function TicketFrame(t: Ticket): Frame {
    Frame(Narrow(t.id), PackCall(t.call))
  }

  function CliReceive(c: Client, f: Frame): Client {
    c.(received := c.received + [f], cached := c.cached[f.id := f.body])
  }

  // -------------------------------------------------------------- the steps

  datatype Action =
    | Connect
    | RequestId(client: nat, call: Call)
    | Submit(client: nat, i: nat)
    | Accept(client: nat)
    | Install
    | Read(streamId: nat)
    | Post(streamId: nat)
    | Take(worker: nat)
    | Perform(slot: Slot)
    | Respond(slot: Slot)
    | Pick(writer: nat)
    | Bind(writer: nat)
    | Send(writer: nat)
    | Receive(client: nat)

  /** The guards that do not depend on the contents of the streams. */
  predicate ServerEnabled(cfg: Config, s: Server, a: Action) {
    match a
    case Install => s.accepting.Some?
    case Read(r) => r < |s.readers| && s.readers[r].Idle? && r in s.streams
    case Post(r) => cfg.workers > 0 && r < |s.readers| && s.readers[r].Holding?
    case Take(w) => w < |s.workers| && s.workers[w].Idle? && s.requests != []
    case Perform(slot) => HasSlot(s, slot) && HandAt(s, slot).Holding? && (slot.OnReader? ==> cfg.workers == 0)
    case Respond(slot) => HasSlot(s, slot) && HandAt(s, slot).Performed?
    case Pick(w) => w < |s.writers| && s.writers[w].Waiting? && s.responses != []
    case Bind(w) => w < |s.writers| && s.writers[w].Took?
    case Send(w) => w < |s.writers| && s.writers[w].Bound?
    case _ => true
  }

  /** The guards of a step, apart from what is in the streams. */
  predicate CoreEnabled(cfg: Config, srv: Server, clients: seq<Client>, a: Action) {
    && !srv.crashed
    && ServerEnabled(cfg, srv, a)
    && match a
       case RequestId(c, _) => c < |clients|
       case Submit(c, i) => c < |clients| && i < |clients[c].pending|
       case Accept(c) => srv.accepting.None? && c < |clients| && !clients[c].accepted
       case Read(r) => srv.streams[r] < |clients|
       case Send(w) => srv.writers[w].client < |clients|
       case Receive(c) => c < |clients|
       case _ => true
  }

  predicate Enabled(cfg: Config, s: State, a: Action) {
    && |s.up| == |s.down| == |s.clients|
    && CoreEnabled(cfg, s.server, s.clients, a)
    && (a.Read? ==> s.up[s.server.streams[a.streamId]] != [])
    && (a.Receive? ==> s.down[a.client] != [])
  }

  /** The steps that only concern the server. */
  function Inside(cfg: Config, srv: Server, a: Action): Server
    requires ServerEnabled(cfg, srv, a)
  {
    match a
    case Install => SrvInstall(srv)
    case Post(r) => SrvPost(srv, r)
    case Take(w) => SrvTake(srv, w)
    case Perform(slot) => SrvPerform(cfg, srv, slot)
    case Respond(slot) => SrvRespond(srv, slot)
    case Pick(w) => SrvPick(srv, w)
    case Bind(w) => SrvBind(srv, w)
    case _ => srv
  }

  function Step(cfg: Config, s: State, a: Action): State
    requires Enabled(cfg, s, a)
  {
    var srv := s.server;
    match a
    case Connect => s.(clients := s.clients + [NEW_CLIENT], up := s.up + [[]], down := s.down + [[]])
    case RequestId(c, call) => s.(clients := s.clients[c := CliRequestId(s.clients[c], call)])
    case Submit(c, i) =>
      s.(clients := s.clients[c := CliSubmit(s.clients[c], i)],
         up := s.up[c := s.up[c] + [TicketFrame(s.clients[c].pending[i])]])
    case Accept(c) =>
      s.(server := SrvAccept(srv, c), clients := s.clients[c := s.clients[c].(accepted := true)])
    case Read(r) =>
      var c := srv.streams[r];
      s.(server := SrvRead(srv, r, s.up[c][0]), up := s.up[c := s.up[c][1..]])
    case Send(w) =>
      var c := srv.writers[w].client;
      s.(server := SrvSent(srv, w), down := s.down[c := s.down[c] + [ResponseFrame(srv.writers[w].response)]])
    case Receive(c) =>
      s.(clients := s.clients[c := CliReceive(s.clients[c], s.down[c][0])], down := s.down[c := s.down[c][1..]])
    case _ => s.(server := Inside(cfg, srv, a))
  }

  function Init(cfg: Config): State {
    State(NewServer(cfg), [], [], [])
  }

  /** A run: the states and the actions between them. */
  ghost predicate Run(cfg: Config, states: seq<State>, actions: seq<Action>) {
    && |states| == |actions| + 1
    && forall i :: 0 <= i < |actions| ==> Enabled(cfg, states[i], actions[i])
                                          && states[i + 1] == Step(cfg, states[i], actions[i])
  }

  ghost predicate RunFromInit(cfg: Config, states: seq<State>, actions: seq<Action>) {
    Run(cfg, states, actions) && states[0] == Init(cfg)
  }

  lemma RunExtends(cfg: Config, states: seq<State>, actions: seq<Action>, a: Action)
    requires RunFromInit(cfg, states, actions) && Enabled(cfg, states[|actions|], a)
    ensures RunFromInit(cfg, states + [Step(cfg, states[|actions|], a)], actions + [a])
    ensures (states + [Step(cfg, states[|actions|], a)])[|actions + [a]|] == Step(cfg, states[|actions|], a)
  {
  }
}
