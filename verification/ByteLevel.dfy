/** The pipeline over bytes. Each direction of a connection is a pipe: bytes in
    transit and the reader's pending `async_read`. A write appends one encoded
    frame; a read takes some bytes into its buffer; a full buffer is handled.

    Every byte-level run is a run of the frame-level pipeline with extra silent
    steps, so what holds for frames holds for bytes. Payloads must be shorter than
    2^32 bytes, which `Framing.EncodeFaithfulIffFits` shows to be necessary. */
module ByteLevel {
  import opened Bytes
  import opened Framing
  import opened Dispatch
  import opened Pipeline
  import opened Conservation
  import opened PipelineTheorems
  import opened PipelineProgress
  import opened Sums
  import Seqs

  datatype Pipe = Pipe(transit: ByteString, reader: Reader)

  datatype ByteState = ByteState(server: Server, clients: seq<Client>, up: seq<Pipe>, down: seq<Pipe>)

  const EMPTY_PIPE := Pipe([], ARMED)

  // -------------------------------------------------------------- the pipes

  function WritePipe(p: Pipe, objectId: nat, data: ByteString): Pipe {
    p.(transit := p.transit + Encode(objectId, data))
  }

  predicate CanTakeBytes(p: Pipe, n: nat) {
    0 < n <= |p.transit| && |p.reader.got| + n <= Need(p.reader)
  }

  function TakeBytes(p: Pipe, n: nat): Pipe
    requires CanTakeBytes(p, n)
  {
    Pipe(p.transit[n..], p.reader.(got := p.reader.got + p.transit[..n]))
  }

  function FillDone(p: Pipe): Pipe
    requires BufferFull(p.reader)
  {
    p.(reader := Complete(p.reader))
  }

  /** Bytes whose frame was not delivered yet. */
  function Unread(p: Pipe): ByteString {
    Taken(p.reader) + p.transit
  }

  /** The frames a pipe is going to deliver. */
  function Carried(p: Pipe): seq<Frame> {
    Decode(Unread(p)).frames
  }

  predicate PipeOk(p: Pipe) {
    |p.reader.got| <= Need(p.reader) && Decode(Unread(p)).rest == []
  }

  lemma WriteCarries(p: Pipe, objectId: nat, data: ByteString)
    requires PipeOk(p) && |data| < U32_LIMIT
    ensures PipeOk(WritePipe(p, objectId, data))
    ensures Carried(WritePipe(p, objectId, data)) == Carried(p) + [Frame(Narrow(objectId), data)]
  {
    var e := Encode(objectId, data);
    Seqs.Assoc(Taken(p.reader), p.transit, e);
    DecodeConcat(Unread(p), e);
    Seqs.DropPrefix([], e);
    EncodeFaithfulIffFits(objectId, data);
    assert [] + e == e;
  }

  lemma TakeCarries(p: Pipe, n: nat)
    requires PipeOk(p) && CanTakeBytes(p, n)
    ensures Unread(TakeBytes(p, n)) == Unread(p)
    ensures PipeOk(TakeBytes(p, n)) && Carried(TakeBytes(p, n)) == Carried(p)
  {
    var r, q := p.reader, TakeBytes(p, n);
    Seqs.TakeDrop(p.transit, n);
    assert Taken(q.reader) == Taken(r) + p.transit[..n];
    Seqs.Assoc(Taken(r), p.transit[..n], p.transit[n..]);
  }

  lemma FillCarries(p: Pipe)
    requires PipeOk(p) && BufferFull(p.reader)
    ensures PipeOk(FillDone(p)) && Carried(p) == Fired(p.reader) + Carried(FillDone(p))
  {
    CompleteKeepsDecode(p.reader, p.transit);
  }

  /** A pipe that still carries a frame can move. */
  lemma CarryingPipeMoves(p: Pipe)
    requires PipeOk(p) && Carried(p) != []
    ensures BufferFull(p.reader) || CanTakeBytes(p, 1)
  {
    if !BufferFull(p.reader) && p.transit == [] {
      assert Unread(p) == Taken(p.reader);
      StalledDeliversNothing(p.reader);
    }
  }

  // --------------------------------------------------------------- the steps

  datatype ByteAction =
    | Whole(a: Action)
    | UpBytes(streamId: nat, n: nat)
    | UpFull(streamId: nat)
    | DownBytes(client: nat, n: nat)
    | DownFull(client: nat)

  predicate ByteEnabled(cfg: Config, b: ByteState, x: ByteAction) {
    && |b.up| == |b.down| == |b.clients|
    && match x
       case Whole(a) => !a.Read? && !a.Receive? && CoreEnabled(cfg, b.server, b.clients, a)
       case UpBytes(r, n) =>
         CoreEnabled(cfg, b.server, b.clients, Read(r)) && CanTakeBytes(b.up[b.server.streams[r]], n)
       case UpFull(r) =>
         CoreEnabled(cfg, b.server, b.clients, Read(r)) && BufferFull(b.up[b.server.streams[r]].reader)
       case DownBytes(c, n) =>
         CoreEnabled(cfg, b.server, b.clients, Receive(c)) && CanTakeBytes(b.down[c], n)
       case DownFull(c) =>
         CoreEnabled(cfg, b.server, b.clients, Receive(c)) && BufferFull(b.down[c].reader)
  }

  function WholeStep(cfg: Config, b: ByteState, a: Action): ByteState
    requires ByteEnabled(cfg, b, Whole(a))
  {
    var srv := b.server;
    match a
    case Connect => b.(clients := b.clients + [NEW_CLIENT], up := b.up + [EMPTY_PIPE], down := b.down + [EMPTY_PIPE])
    case RequestId(c, call) => b.(clients := b.clients[c := CliRequestId(b.clients[c], call)])
    case Submit(c, i) =>
      var t := b.clients[c].pending[i];
      b.(clients := b.clients[c := CliSubmit(b.clients[c], i)],
         up := b.up[c := WritePipe(b.up[c], t.id, PackCall(t.call))])
    case Accept(c) =>
      b.(server := SrvAccept(srv, c), clients := b.clients[c := b.clients[c].(accepted := true)])
    case Send(w) =>
      var h := srv.writers[w];
      b.(server := SrvSent(srv, w),
         down := b.down[h.client := WritePipe(b.down[h.client], h.response.objectId, h.response.result)])
    case _ => b.(server := Inside(cfg, srv, a))
  }

  function ByteStep(cfg: Config, b: ByteState, x: ByteAction): ByteState
    requires ByteEnabled(cfg, b, x)
  {
    match x
    case Whole(a) => WholeStep(cfg, b, a)
    case UpBytes(r, n) =>
      var c := b.server.streams[r];
      b.(up := b.up[c := TakeBytes(b.up[c], n)])
    case UpFull(r) =>
      var c := b.server.streams[r];
      var fired := Fired(b.up[c].reader);
      b.(up := b.up[c := FillDone(b.up[c])],
         server := if fired == [] then b.server else SrvRead(b.server, r, fired[0]))
    case DownBytes(c, n) =>
      b.(down := b.down[c := TakeBytes(b.down[c], n)])
    case DownFull(c) =>
      var fired := Fired(b.down[c].reader);
      b.(down := b.down[c := FillDone(b.down[c])],
         clients := if fired == [] then b.clients else b.clients[c := CliReceive(b.clients[c], fired[0])])
  }

  function ByteInit(cfg: Config): ByteState {
    ByteState(NewServer(cfg), [], [], [])
  }

  // -------------------------------------------------------------- refinement

  function CarriedAll(ps: seq<Pipe>): seq<seq<Frame>> {
    seq(|ps|, i requires 0 <= i < |ps| => Carried(ps[i]))
  }

  /** The frame-level state behind a byte-level one. */
  function Frames(b: ByteState): State {
    State(b.server, b.clients, CarriedAll(b.up), CarriedAll(b.down))
  }

  ghost predicate PipesOk(b: ByteState) {
    && |b.up| == |b.down| == |b.clients|
    && (forall c :: 0 <= c < |b.up| ==> PipeOk(b.up[c]) && PipeOk(b.down[c]))
  }

  /** What the frame level sees of a step: nothing, unless a body completes. */
  function Visible(cfg: Config, b: ByteState, x: ByteAction): Option<Action>
    requires ByteEnabled(cfg, b, x)
  {
    match x
    case Whole(a) => Some(a)
    case UpBytes(_, _) => None
    case UpFull(r) => if Fired(b.up[b.server.streams[r]].reader) == [] then None else Some(Read(r))
    case DownBytes(_, _) => None
    case DownFull(c) => if Fired(b.down[c].reader) == [] then None else Some(Receive(c))
  }

  /** The payload that the step writes, if any, fits its size field. */
  predicate SmallPayload(b: ByteState, x: ByteAction) {
    match x
    case Whole(Submit(c, i)) => c < |b.clients| && i < |b.clients[c].pending| ==> Fits(TicketFrame(b.clients[c].pending[i]))
    case Whole(Send(w)) =>
      w < |b.server.writers| && b.server.writers[w].Bound? ==> Fits(ResponseFrame(b.server.writers[w].response))
    case _ => true
  }

  lemma CarriedUpdate(ps: seq<Pipe>, i: nat, p: Pipe)
    requires i < |ps|
    ensures CarriedAll(ps[i := p]) == CarriedAll(ps)[i := Carried(p)]
  {
  }

  lemma SubmitRefines(cfg: Config, b: ByteState, c: nat, i: nat)
    requires PipesOk(b) && ByteEnabled(cfg, b, Whole(Submit(c, i))) && Fits(TicketFrame(b.clients[c].pending[i]))
    ensures var t := WholeStep(cfg, b, Submit(c, i));
            PipesOk(t) && Frames(t) == Step(cfg, Frames(b), Submit(c, i))
  {
    var k := b.clients[c].pending[i];
    WriteCarries(b.up[c], k.id, PackCall(k.call));
    CarriedUpdate(b.up, c, WritePipe(b.up[c], k.id, PackCall(k.call)));
  }

  lemma SendRefines(cfg: Config, b: ByteState, w: nat)
    requires PipesOk(b) && ByteEnabled(cfg, b, Whole(Send(w))) && Fits(ResponseFrame(b.server.writers[w].response))
    ensures var t := WholeStep(cfg, b, Send(w));
            PipesOk(t) && Frames(t) == Step(cfg, Frames(b), Send(w))
  {
    var h := b.server.writers[w];
    WriteCarries(b.down[h.client], h.response.objectId, h.response.result);
    NarrowSmall(h.response.objectId);
    CarriedUpdate(b.down, h.client, WritePipe(b.down[h.client], h.response.objectId, h.response.result));
  }

  lemma WholeStepRefines(cfg: Config, b: ByteState, a: Action)
    requires PipesOk(b) && ByteEnabled(cfg, b, Whole(a)) && SmallPayload(b, Whole(a))
    ensures Enabled(cfg, Frames(b), a)
    ensures PipesOk(WholeStep(cfg, b, a)) && Frames(WholeStep(cfg, b, a)) == Step(cfg, Frames(b), a)
  {
    match a
    case Connect =>
      assert Unread(EMPTY_PIPE) == [];
      assert CarriedAll(b.up + [EMPTY_PIPE]) == CarriedAll(b.up) + [[]];
      assert CarriedAll(b.down + [EMPTY_PIPE]) == CarriedAll(b.down) + [[]];
    case Submit(c, i) => SubmitRefines(cfg, b, c, i);
    case Send(w) => SendRefines(cfg, b, w);
    case _ =>
  }

  lemma SameCarried(ps: seq<Pipe>, i: nat, p: Pipe)
    requires i < |ps| && Carried(p) == Carried(ps[i])
    ensures CarriedAll(ps[i := p]) == CarriedAll(ps)
  {
  }

  lemma UpFullRefines(cfg: Config, b: ByteState, r: nat)
    requires PipesOk(b) && ByteEnabled(cfg, b, UpFull(r))
    ensures PipesOk(ByteStep(cfg, b, UpFull(r)))
    ensures match Visible(cfg, b, UpFull(r))
            case None => Frames(ByteStep(cfg, b, UpFull(r))) == Frames(b)
            case Some(a) => Enabled(cfg, Frames(b), a) && Frames(ByteStep(cfg, b, UpFull(r))) == Step(cfg, Frames(b), a)
  {
    var c := b.server.streams[r];
    var p, q := b.up[c], FillDone(b.up[c]);
    FillCarries(p);
    if Fired(p.reader) == [] {
      SameCarried(b.up, c, q);
    } else {
      CarriedUpdate(b.up, c, q);
      assert Carried(p)[0] == Fired(p.reader)[0] && Carried(p)[1..] == Carried(q);
    }
  }

  lemma DownFullRefines(cfg: Config, b: ByteState, c: nat)
    requires PipesOk(b) && ByteEnabled(cfg, b, DownFull(c))
    ensures PipesOk(ByteStep(cfg, b, DownFull(c)))
    ensures match Visible(cfg, b, DownFull(c))
            case None => Frames(ByteStep(cfg, b, DownFull(c))) == Frames(b)
            case Some(a) => Enabled(cfg, Frames(b), a) && Frames(ByteStep(cfg, b, DownFull(c))) == Step(cfg, Frames(b), a)
  {
    var p, q := b.down[c], FillDone(b.down[c]);
    FillCarries(p);
    if Fired(p.reader) == [] {
      SameCarried(b.down, c, q);
    } else {
      CarriedUpdate(b.down, c, q);
      assert Carried(p)[0] == Fired(p.reader)[0] && Carried(p)[1..] == Carried(q);
    }
  }

  lemma PipeStepRefines(cfg: Config, b: ByteState, x: ByteAction)
    requires PipesOk(b) && ByteEnabled(cfg, b, x) && !x.Whole?
    ensures PipesOk(ByteStep(cfg, b, x))
    ensures match Visible(cfg, b, x)
            case None => Frames(ByteStep(cfg, b, x)) == Frames(b)
            case Some(a) => Enabled(cfg, Frames(b), a) && Frames(ByteStep(cfg, b, x)) == Step(cfg, Frames(b), a)
  {
    match x
    case UpBytes(r, n) =>
      var c := b.server.streams[r];
      TakeCarries(b.up[c], n);
      SameCarried(b.up, c, TakeBytes(b.up[c], n));
    case UpFull(r) => UpFullRefines(cfg, b, r);
    case DownBytes(c, n) =>
      TakeCarries(b.down[c], n);
      SameCarried(b.down, c, TakeBytes(b.down[c], n));
    case DownFull(c) => DownFullRefines(cfg, b, c);
  }

  /** Forward simulation: a byte-level step is silent or is the frame-level step
      that `Visible` names. */
  lemma ByteStepRefines(cfg: Config, b: ByteState, x: ByteAction)
    requires PipesOk(b) && ByteEnabled(cfg, b, x) && SmallPayload(b, x)
    ensures PipesOk(ByteStep(cfg, b, x))
    ensures match Visible(cfg, b, x)
            case None => Frames(ByteStep(cfg, b, x)) == Frames(b)
            case Some(a) => Enabled(cfg, Frames(b), a) && Frames(ByteStep(cfg, b, x)) == Step(cfg, Frames(b), a)
  {
    if x.Whole? {
      WholeStepRefines(cfg, b, x.a);
    } else {
      PipeStepRefines(cfg, b, x);
    }
  }

  ghost predicate ByteRun(cfg: Config, states: seq<ByteState>, actions: seq<ByteAction>) {
    && |states| == |actions| + 1 && states[0] == ByteInit(cfg)
    && forall i :: 0 <= i < |actions| ==> ByteEnabled(cfg, states[i], actions[i])
                                          && SmallPayload(states[i], actions[i])
                                          && states[i + 1] == ByteStep(cfg, states[i], actions[i])
  }

  lemma ByteRunShorter(cfg: Config, states: seq<ByteState>, actions: seq<ByteAction>)
    requires ByteRun(cfg, states, actions) && actions != []
    ensures ByteRun(cfg, states[..|actions|], actions[..|actions| - 1])
  {
  }

  /** Every byte-level run is a frame-level run between the same states. */
  lemma {:induction false} ByteRunRefines(cfg: Config, states: seq<ByteState>, actions: seq<ByteAction>)
    returns (fstates: seq<State>, factions: seq<Action>)
    requires ByteRun(cfg, states, actions)
    ensures PipesOk(states[|actions|])
    ensures RunFromInit(cfg, fstates, factions) && fstates[|factions|] == Frames(states[|actions|])
  {
    if actions == [] {
      fstates, factions := [Init(cfg)], [];
      assert CarriedAll([]) == [];
    } else {
      var n := |actions| - 1;
      ByteRunShorter(cfg, states, actions);
      fstates, factions := ByteRunRefines(cfg, states[..n + 1], actions[..n]);
      ByteStepRefines(cfg, states[n], actions[n]);
      match Visible(cfg, states[n], actions[n]) {
        case None =>
        case Some(a) =>
          RunExtends(cfg, fstates, factions, a);
          fstates, factions := fstates + [Step(cfg, Frames(states[n]), a)], factions + [a];
      }
    }
  }

  // ---------------------------------------------------- what the bytes inherit

  lemma ByteRunInv(cfg: Config, states: seq<ByteState>, actions: seq<ByteAction>)
    requires ByteRun(cfg, states, actions)
    ensures PipesOk(states[|actions|]) && Inv(cfg, Frames(states[|actions|]))
  {
    var fstates, factions := ByteRunRefines(cfg, states, actions);
    RunInv(cfg, fstates, factions, |factions|);
  }

  /** Routing over bytes: whatever is cached answers the client's own call. */
  lemma BytesRouteAnswers(cfg: Config, states: seq<ByteState>, actions: seq<ByteAction>, c: nat, id: nat)
    requires ByteRun(cfg, states, actions)
    requires var b := states[|actions|];
             c < |b.clients| && |b.clients[c].issued| <= U32_LIMIT && id in b.clients[c].cached
    ensures var b := states[|actions|];
            id < |b.clients[c].issued|
            && AnswersCall(cfg, Frames(b), c, id, b.clients[c].issued[id].call, b.clients[c].cached[id])
  {
    var fstates, factions := ByteRunRefines(cfg, states, actions);
    CacheHoldsOwnAnswer(cfg, fstates, factions, |factions|, c, id);
  }

  /** Exactly once over bytes: each issued call is in one place, counting among the
      bytes of its client's pipe, wherever they are cut, the frames they carry. */
  lemma BytesExactlyOnePlace(cfg: Config, states: seq<ByteState>, actions: seq<ByteAction>, c: nat, n: nat)
    requires ByteRun(cfg, states, actions)
    requires var b := states[|actions|]; c < |b.clients| && n < |b.clients[c].issued| <= U32_LIMIT
    ensures var b := states[|actions|];
            var k := Asked(c, n, b.clients[c].issued[n].call);
            && |b.up| == |b.clients|
            && Sum(b.clients[c].pending, TicketW(k)) + Sum(Carried(b.up[c]), UpW(k))
               + Held(b.server, k) + Done(b.server, k) == 1
  {
    var fstates, factions := ByteRunRefines(cfg, states, actions);
    ExactlyOnePlace(cfg, fstates, factions, |factions|, c, n);
  }

  /** ...and so is each computed answer, until it is in the cache. */
  lemma BytesAnswerInOnePlace(cfg: Config, states: seq<ByteState>, actions: seq<ByteAction>, j: nat)
    requires ByteRun(cfg, states, actions) && j < |states[|actions|].server.log|
    requires var b := states[|actions|]; forall c :: 0 <= c < |b.clients| ==> |b.clients[c].issued| <= U32_LIMIT
    ensures var b, e := states[|actions|], states[|actions|].server.log[j];
            && e.request.streamId in b.server.streams
            && (var c := b.server.streams[e.request.streamId];
                var k := Answer(c, e.request.objectId, e.result);
                && c < |b.clients| == |b.down|
                && Returning(b.server, k) + Sum(Carried(b.down[c]), DownW(k)) + InCache(b.clients[c], k) == 1)
  {
    var fstates, factions := ByteRunRefines(cfg, states, actions);
    AnswerInOnePlace(cfg, fstates, factions, |factions|, j);
  }

  // ------------------------------------------------------ progress over bytes

  predicate IsByteProgress(x: ByteAction) {
    x.Whole? ==> IsProgress(x.a)
  }

  function PipeWork(): Pipe -> nat {
    (p: Pipe) => |p.transit| + match p.reader.stage case ReadObjectID => 2 case ReadHeader => 1 case ReadBody => 0
  }

  /** The silent work left until the next frame-level step. */
  function SilentWork(b: ByteState): nat {
    Sum(b.up, PipeWork()) + Sum(b.down, PipeWork())
  }

  lemma SilentStepDecreases(cfg: Config, b: ByteState, x: ByteAction)
    requires ByteEnabled(cfg, b, x) && Visible(cfg, b, x).None?
    ensures SilentWork(ByteStep(cfg, b, x)) < SilentWork(b)
  {
    match x
    case UpBytes(r, n) =>
      var c := b.server.streams[r];
      SumUpdate(b.up, c, TakeBytes(b.up[c], n), PipeWork());
    case UpFull(r) =>
      var c := b.server.streams[r];
      SumUpdate(b.up, c, FillDone(b.up[c]), PipeWork());
    case DownBytes(c, n) => SumUpdate(b.down, c, TakeBytes(b.down[c], n), PipeWork());
    case DownFull(c) => SumUpdate(b.down, c, FillDone(b.down[c]), PipeWork());
  }

  /** Termination, lexicographically: a step over bytes brings the frame-level
      measure down, or keeps the frames and takes bytes or completes a stage. A
      body of size 0 takes no bytes; there it is the stage that counts. */
  lemma ByteStepDecreases(cfg: Config, b: ByteState, x: ByteAction)
    requires PipesOk(b) && ByteEnabled(cfg, b, x) && SmallPayload(b, x) && IsByteProgress(x)
    ensures var t := ByteStep(cfg, b, x);
            || StepsLeft(Frames(t)) < StepsLeft(Frames(b))
            || (StepsLeft(Frames(t)) == StepsLeft(Frames(b)) && SilentWork(t) < SilentWork(b))
  {
    ByteStepRefines(cfg, b, x);
    match Visible(cfg, b, x)
    case Some(a) => StepDecreases(cfg, Frames(b), a);
    case None => SilentStepDecreases(cfg, b, x);
  }

  /** Deadlock freedom over bytes: until every frame is delivered and every queue
      empty, some thread or some read can make a step. */
  lemma BytesCanStep(cfg: Config, b: ByteState) returns (x: ByteAction)
    requires PipesOk(b) && Inv(cfg, Frames(b)) && !b.server.crashed && cfg.writers > 0 && !Drained(Frames(b))
    ensures ByteEnabled(cfg, b, x) && IsByteProgress(x)
  {
    var a := CanStep(cfg, Frames(b));
    match a
    case Read(r) =>
      var c := b.server.streams[r];
      CarryingPipeMoves(b.up[c]);
      x := if BufferFull(b.up[c].reader) then UpFull(r) else UpBytes(r, 1);
    case Receive(c) =>
      CarryingPipeMoves(b.down[c]);
      x := if BufferFull(b.down[c].reader) then DownFull(c) else DownBytes(c, 1);
    case _ => x := Whole(a);
  }

  ghost predicate ByteStuck(cfg: Config, b: ByteState) {
    forall x :: IsByteProgress(x) ==> !ByteEnabled(cfg, b, x)
  }

  /** Wherever a byte-level run stops for good, every call has its answer, and no
      byte is left in any pipe. */
  lemma BytesAnswerEveryCall(cfg: Config, states: seq<ByteState>, actions: seq<ByteAction>)
    requires ByteRun(cfg, states, actions) && cfg.writers > 0
    requires var b := states[|actions|]; AllRegistered(cfg, Frames(b)) && ByteStuck(cfg, b)
    ensures var b := states[|actions|];
            && |b.up| == |b.down| == |b.clients|
            && (forall c :: 0 <= c < |b.clients| ==> Unread(b.up[c]) == [] && Unread(b.down[c]) == [])
    ensures var b := states[|actions|];
            forall c: nat, n: nat :: c < |b.clients| && n < |b.clients[c].issued| <= U32_LIMIT ==>
              && n in b.clients[c].cached
              && AnswersCall(cfg, Frames(b), c, n, b.clients[c].issued[n].call, b.clients[c].cached[n])
  {
    var b := states[|actions|];
    StuckBytesAreDrained(cfg, states, actions);
    forall c | 0 <= c < |b.clients| ensures Unread(b.up[c]) == [] && Unread(b.down[c]) == [] {
      assert Frames(b).up[c] == [] && Frames(b).down[c] == [];
      NothingCarriedNothingUnread(b.up[c]);
      NothingCarriedNothingUnread(b.down[c]);
    }
    forall c: nat, n: nat | c < |b.clients| && n < |b.clients[c].issued| <= U32_LIMIT
      ensures n in b.clients[c].cached
              && AnswersCall(cfg, Frames(b), c, n, b.clients[c].issued[n].call, b.clients[c].cached[n])
    {
      DrainedMeansCached(cfg, Frames(b), c, n);
      NarrowSmall(n);
      BytesRouteAnswers(cfg, states, actions, c, n);
    }
  }

  lemma StuckBytesAreDrained(cfg: Config, states: seq<ByteState>, actions: seq<ByteAction>)
    requires ByteRun(cfg, states, actions) && cfg.writers > 0
    requires var b := states[|actions|]; AllRegistered(cfg, Frames(b)) && ByteStuck(cfg, b)
    ensures var b := states[|actions|]; PipesOk(b) && Inv(cfg, Frames(b)) && Drained(Frames(b))
  {
    var b := states[|actions|];
    ByteRunInv(cfg, states, actions);
    var fstates, factions := ByteRunRefines(cfg, states, actions);
    NoCrash(cfg, fstates, factions, |factions|);
    if !Drained(Frames(b)) {
      var x := BytesCanStep(cfg, b);
    }
  }

  lemma NothingCarriedNothingUnread(p: Pipe)
    requires PipeOk(p) && Carried(p) == []
    ensures Unread(p) == []
  {
  }
}
