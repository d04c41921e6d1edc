/** Nothing is lost, duplicated or misrouted: two conservation laws that every
    step keeps. Calls are counted by client, 32-bit id and contents; answers by
    client, 32-bit id and bytes. Neither law needs a bound on the ids. */
module Conservation {
  import opened Bytes
  import opened Framing
  import opened Dispatch
  import opened Pipeline
  import opened PipelineSafety
  import opened Sums

  datatype Asked = Asked(client: nat, id: U32, call: Call)
  datatype Answer = Answer(client: nat, id: U32, result: ByteString)

  predicate OwnedBy(streams: map<nat, nat>, streamId: nat, client: nat) {
    streamId in streams && streams[streamId] == client
  }

  // ----------------------------------------------------------------- weights

  function One(b: bool): nat {
    if b then 1 else 0
  }

  predicate IsAsked(streams: map<nat, nat>, k: Asked, q: Request) {
    OwnedBy(streams, q.streamId, k.client) && q.objectId == k.id && q.call == k.call
  }

  predicate IsAnswer(streams: map<nat, nat>, k: Answer, p: Response) {
    OwnedBy(streams, p.streamId, k.client) && p.objectId == k.id && p.result == k.result
  }

  function TicketW(k: Asked): Ticket -> nat {
    (t: Ticket) => One(Narrow(t.id) == k.id && t.call == k.call)
  }

  function UpW(k: Asked): Frame -> nat {
    (f: Frame) => One(f == Frame(k.id, PackCall(k.call)))
  }

  function RequestW(streams: map<nat, nat>, k: Asked): Request -> nat {
    (q: Request) => One(IsAsked(streams, k, q))
  }

  function HoldingW(streams: map<nat, nat>, k: Asked): Hand -> nat {
    (h: Hand) => One(h.Holding? && IsAsked(streams, k, h.request))
  }

  function DoneW(streams: map<nat, nat>, k: Asked): Record -> nat {
    (e: Record) => One(IsAsked(streams, k, e.request))
  }

  function AnsweredW(streams: map<nat, nat>, k: Answer): Record -> nat {
    (e: Record) => One(OwnedBy(streams, e.request.streamId, k.client)
                       && e.request.objectId == k.id && e.result == k.result)
  }

  function PerformedW(streams: map<nat, nat>, k: Answer): Hand -> nat {
    (h: Hand) => One(h.Performed? && IsAnswer(streams, k, h.response))
  }

  function ResponseW(streams: map<nat, nat>, k: Answer): Response -> nat {
    (p: Response) => One(IsAnswer(streams, k, p))
  }

  function WriterW(streams: map<nat, nat>, k: Answer): WriterHand -> nat {
    (h: WriterHand) => One(!h.Waiting? && IsAnswer(streams, k, h.response))
  }

  function DownW(k: Answer): Frame -> nat {
    (f: Frame) => One(f == Frame(k.id, k.result))
  }

  // ---------------------------------------------------------------- the laws

  function Held(srv: Server, k: Asked): nat {
    Sum(srv.readers, HoldingW(srv.streams, k)) + Sum(srv.requests, RequestW(srv.streams, k))
    + Sum(srv.workers, HoldingW(srv.streams, k))
  }

  function Done(srv: Server, k: Asked): nat {
    Sum(srv.log, DoneW(srv.streams, k))
  }

  function Returning(srv: Server, k: Answer): nat {
    Sum(srv.readers, PerformedW(srv.streams, k)) + Sum(srv.workers, PerformedW(srv.streams, k))
    + Sum(srv.responses, ResponseW(srv.streams, k)) + Sum(srv.writers, WriterW(srv.streams, k))
  }

  function Answered(srv: Server, k: Answer): nat {
    Sum(srv.log, AnsweredW(srv.streams, k))
  }

  /** Each issued call is waiting to be submitted, or in the stream to the server,
      or with the server, or performed. */
  ghost predicate CallsConserved(s: State, k: Asked)
    requires |s.up| == |s.clients|
  {
    k.client < |s.clients| ==>
      Sum(s.clients[k.client].issued, TicketW(k))
      == Sum(s.clients[k.client].pending, TicketW(k)) + Sum(s.up[k.client], UpW(k))
         + Held(s.server, k) + Done(s.server, k)
  }

  /** Each answer that was computed for a client is on its way back to it, or in
      the stream to it, or was received by it. */
  ghost predicate AnswersConserved(s: State, k: Answer)
    requires |s.down| == |s.clients|
  {
    k.client < |s.clients| ==>
      Answered(s.server, k)
      == Returning(s.server, k) + Sum(s.down[k.client], DownW(k)) + Sum(s.clients[k.client].received, DownW(k))
  }

  // --------------------------------------------------------------- the server

  lemma InstallKeepsCalls(cfg: Config, srv: Server, k: Asked)
    requires InFlightOk(cfg, srv) && srv.accepting.Some? && srv.accepting.value.0 == |srv.readers|
    requires forall r: nat :: r in srv.streams <==> r < |srv.readers|
    ensures Held(SrvInstall(srv), k) == Held(srv, k) && Done(SrvInstall(srv), k) == Done(srv, k)
  {
    var t := SrvInstall(srv);
    SumSnoc(srv.readers, Idle, HoldingW(t.streams, k));
    SumSame(srv.readers, HoldingW(srv.streams, k), HoldingW(t.streams, k));
    SumSame(srv.requests, RequestW(srv.streams, k), RequestW(t.streams, k));
    SumSame(srv.workers, HoldingW(srv.streams, k), HoldingW(t.streams, k));
    SumSame(srv.log, DoneW(srv.streams, k), DoneW(t.streams, k));
  }

  lemma InstallKeepsAnswers(cfg: Config, srv: Server, k: Answer)
    requires InFlightOk(cfg, srv) && srv.accepting.Some? && srv.accepting.value.0 == |srv.readers|
    requires forall r: nat :: r in srv.streams <==> r < |srv.readers|
    ensures Returning(SrvInstall(srv), k) == Returning(srv, k) && Answered(SrvInstall(srv), k) == Answered(srv, k)
  {
    var t := SrvInstall(srv);
    SumSnoc(srv.readers, Idle, PerformedW(t.streams, k));
    SumSame(srv.readers, PerformedW(srv.streams, k), PerformedW(t.streams, k));
    SumSame(srv.workers, PerformedW(srv.streams, k), PerformedW(t.streams, k));
    SumSame(srv.responses, ResponseW(srv.streams, k), ResponseW(t.streams, k));
    SumSame(srv.writers, WriterW(srv.streams, k), WriterW(t.streams, k));
    SumSame(srv.log, AnsweredW(srv.streams, k), AnsweredW(t.streams, k));
  }

  lemma ReadMovesCall(srv: Server, r: nat, f: Frame, k: Asked)
    requires r < |srv.readers| && srv.readers[r].Idle? && r in srv.streams && IsCallFrame(f)
    ensures Held(SrvRead(srv, r, f), k) == Held(srv, k) + (if srv.streams[r] == k.client then UpW(k)(f) else 0)
    ensures Done(SrvRead(srv, r, f), k) == Done(srv, k)
  {
    var call := DecodeCall(f.body).value;
    CallRoundTrip(k.call);
    SumUpdate(srv.readers, r, Holding(Request(f.id, r, call)), HoldingW(srv.streams, k));
  }

  lemma ReadKeepsAnswers(srv: Server, r: nat, f: Frame, k: Answer)
    requires r < |srv.readers| && srv.readers[r].Idle? && IsCallFrame(f)
    ensures Returning(SrvRead(srv, r, f), k) == Returning(srv, k) && Answered(SrvRead(srv, r, f), k) == Answered(srv, k)
  {
    SumUpdate(srv.readers, r, Holding(Request(f.id, r, DecodeCall(f.body).value)), PerformedW(srv.streams, k));
  }

  lemma PostKeepsCalls(srv: Server, r: nat, k: Asked)
    requires r < |srv.readers| && srv.readers[r].Holding?
    ensures Held(SrvPost(srv, r), k) == Held(srv, k) && Done(SrvPost(srv, r), k) == Done(srv, k)
  {
    SumUpdate(srv.readers, r, Idle, HoldingW(srv.streams, k));
    SumSnoc(srv.requests, srv.readers[r].request, RequestW(srv.streams, k));
  }

  lemma PostKeepsAnswers(srv: Server, r: nat, k: Answer)
    requires r < |srv.readers| && srv.readers[r].Holding?
    ensures Returning(SrvPost(srv, r), k) == Returning(srv, k) && Answered(SrvPost(srv, r), k) == Answered(srv, k)
  {
    SumUpdate(srv.readers, r, Idle, PerformedW(srv.streams, k));
  }

  lemma TakeKeepsCalls(srv: Server, w: nat, k: Asked)
    requires w < |srv.workers| && srv.workers[w].Idle? && srv.requests != []
    ensures Held(SrvTake(srv, w), k) == Held(srv, k) && Done(SrvTake(srv, w), k) == Done(srv, k)
  {
    SumUpdate(srv.workers, w, Holding(srv.requests[0]), HoldingW(srv.streams, k));
  }

  lemma TakeKeepsAnswers(srv: Server, w: nat, k: Answer)
    requires w < |srv.workers| && srv.workers[w].Idle? && srv.requests != []
    ensures Returning(SrvTake(srv, w), k) == Returning(srv, k) && Answered(SrvTake(srv, w), k) == Answered(srv, k)
  {
    SumUpdate(srv.workers, w, Holding(srv.requests[0]), PerformedW(srv.streams, k));
  }

  lemma PutHandHeld(srv: Server, slot: Slot, h: Hand, k: Asked)
    requires HasSlot(srv, slot)
    ensures Held(PutHand(srv, slot, h), k) + HoldingW(srv.streams, k)(HandAt(srv, slot))
            == Held(srv, k) + HoldingW(srv.streams, k)(h)
  {
    match slot
    case OnWorker(w) => SumUpdate(srv.workers, w, h, HoldingW(srv.streams, k));
    case OnReader(r) => SumUpdate(srv.readers, r, h, HoldingW(srv.streams, k));
  }

  lemma PutHandReturning(srv: Server, slot: Slot, h: Hand, k: Answer)
    requires HasSlot(srv, slot)
    ensures Returning(PutHand(srv, slot, h), k) + PerformedW(srv.streams, k)(HandAt(srv, slot))
            == Returning(srv, k) + PerformedW(srv.streams, k)(h)
  {
    match slot
    case OnWorker(w) => SumUpdate(srv.workers, w, h, PerformedW(srv.streams, k));
    case OnReader(r) => SumUpdate(srv.readers, r, h, PerformedW(srv.streams, k));
  }

  /** Performing moves the call into the log, and makes one answer. */
  lemma PerformMovesCall(cfg: Config, srv: Server, slot: Slot, k: Asked)
    requires HasSlot(srv, slot) && HandAt(srv, slot).Holding?
    ensures var t := SrvPerform(cfg, srv, slot); Held(t, k) + Done(t, k) == Held(srv, k) + Done(srv, k)
  {
    var q, t := HandAt(srv, slot).request, SrvPerform(cfg, srv, slot);
    if q.call.name in Methods(cfg) {
      var e := t.log[|srv.log|];
      SumSnoc(srv.log, e, DoneW(srv.streams, k));
      PutHandHeld(srv.(log := t.log), slot, HandAt(t, slot), k);
    }
  }

  lemma PerformMakesAnswer(cfg: Config, srv: Server, slot: Slot, k: Answer)
    requires HasSlot(srv, slot) && HandAt(srv, slot).Holding?
    ensures var t := SrvPerform(cfg, srv, slot); Returning(t, k) + Answered(srv, k) == Returning(srv, k) + Answered(t, k)
  {
    var q, t := HandAt(srv, slot).request, SrvPerform(cfg, srv, slot);
    if q.call.name in Methods(cfg) {
      SumSnoc(srv.log, t.log[|srv.log|], AnsweredW(srv.streams, k));
      PutHandReturning(srv.(log := t.log), slot, HandAt(t, slot), k);
    }
  }

  lemma RespondKeepsCalls(srv: Server, slot: Slot, k: Asked)
    requires HasSlot(srv, slot) && HandAt(srv, slot).Performed?
    ensures Held(SrvRespond(srv, slot), k) == Held(srv, k) && Done(SrvRespond(srv, slot), k) == Done(srv, k)
  {
    PutHandHeld(srv, slot, Idle, k);
  }

  lemma RespondKeepsAnswers(srv: Server, slot: Slot, k: Answer)
    requires HasSlot(srv, slot) && HandAt(srv, slot).Performed?
    ensures Returning(SrvRespond(srv, slot), k) == Returning(srv, k) && Answered(SrvRespond(srv, slot), k) == Answered(srv, k)
  {
    PutHandReturning(srv, slot, Idle, k);
    SumSnoc(srv.responses, HandAt(srv, slot).response, ResponseW(srv.streams, k));
  }

  lemma PickKeepsAnswers(srv: Server, w: nat, k: Answer)
    requires w < |srv.writers| && srv.writers[w].Waiting? && srv.responses != []
    ensures Returning(SrvPick(srv, w), k) == Returning(srv, k)
  {
    SumUpdate(srv.writers, w, Took(srv.responses[0]), WriterW(srv.streams, k));
  }

  lemma BindKeepsAnswers(srv: Server, w: nat, k: Answer)
    requires w < |srv.writers| && srv.writers[w].Took?
    ensures Returning(SrvBind(srv, w), k) == Returning(srv, k)
  {
    var p := srv.writers[w].response;
    if p.streamId in srv.streams {
      SumUpdate(srv.writers, w, Bound(p, srv.streams[p.streamId]), WriterW(srv.streams, k));
    }
  }

  lemma SendMovesAnswer(srv: Server, w: nat, k: Answer)
    requires w < |srv.writers| && srv.writers[w].Bound? && WriterOk(srv, srv.writers[w])
    ensures Returning(srv, k) == Returning(SrvSent(srv, w), k)
              + (if srv.writers[w].client == k.client then DownW(k)(ResponseFrame(srv.writers[w].response)) else 0)
  {
    SumUpdate(srv.writers, w, Waiting, WriterW(srv.streams, k));
  }

  // ---------------------------------------------------------------- one step

  lemma ConnectCalls(cfg: Config, s: State, k: Asked)
    requires StreamsOk(s) && InFlightOk(cfg, s.server) && Enabled(cfg, s, Connect) && CallsConserved(s, k)
    ensures CallsConserved(Step(cfg, s, Connect), k)
  {
    if k.client == |s.clients| {
      NoStreamNoCalls(s.server, k);
    }
  }

  /** The server holds and has performed nothing for a client without a stream. */
  lemma NoStreamNoCalls(srv: Server, k: Asked)
    requires forall r: nat :: r in srv.streams ==> srv.streams[r] != k.client
    ensures Held(srv, k) == 0 && Done(srv, k) == 0
  {
    SumZero(srv.readers, HoldingW(srv.streams, k));
    SumZero(srv.requests, RequestW(srv.streams, k));
    SumZero(srv.workers, HoldingW(srv.streams, k));
    SumZero(srv.log, DoneW(srv.streams, k));
  }

  lemma ConnectAnswers(cfg: Config, s: State, k: Answer)
    requires StreamsOk(s) && InFlightOk(cfg, s.server) && Enabled(cfg, s, Connect) && AnswersConserved(s, k)
    ensures AnswersConserved(Step(cfg, s, Connect), k)
  {
    if k.client == |s.clients| {
      NoStreamNoAnswers(s.server, k);
    }
  }

  lemma NoStreamNoAnswers(srv: Server, k: Answer)
    requires forall r: nat :: r in srv.streams ==> srv.streams[r] != k.client
    ensures Returning(srv, k) == 0 && Answered(srv, k) == 0
  {
    SumZero(srv.readers, PerformedW(srv.streams, k));
    SumZero(srv.workers, PerformedW(srv.streams, k));
    SumZero(srv.responses, ResponseW(srv.streams, k));
    SumZero(srv.writers, WriterW(srv.streams, k));
    SumZero(srv.log, AnsweredW(srv.streams, k));
  }

  lemma InsideKeepsCalls(cfg: Config, srv: Server, a: Action, k: Asked)
    requires InFlightOk(cfg, srv) && ServerEnabled(cfg, srv, a)
    requires forall r: nat :: r in srv.streams <==> r < |srv.readers|
    requires srv.accepting.Some? ==> srv.accepting.value.0 == |srv.readers|
    ensures var t := Inside(cfg, srv, a); Held(t, k) + Done(t, k) == Held(srv, k) + Done(srv, k)
  {
    match a
    case Install => InstallKeepsCalls(cfg, srv, k);
    case Post(r) => PostKeepsCalls(srv, r, k);
    case Take(w) => TakeKeepsCalls(srv, w, k);
    case Perform(slot) => PerformMovesCall(cfg, srv, slot, k);
    case Respond(slot) => RespondKeepsCalls(srv, slot, k);
    case _ =>
  }

  lemma RequestIdKeepsCalls(cfg: Config, s: State, c: nat, call: Call, k: Asked)
    requires |s.up| == |s.clients| && Enabled(cfg, s, RequestId(c, call)) && CallsConserved(s, k)
    ensures CallsConserved(Step(cfg, s, RequestId(c, call)), k)
  {
    var t := Ticket(|s.clients[c].issued|, call);
    SumSnoc(s.clients[c].issued, t, TicketW(k));
    SumSnoc(s.clients[c].pending, t, TicketW(k));
  }

  lemma SubmitKeepsCalls(cfg: Config, s: State, c: nat, i: nat, k: Asked)
    requires |s.up| == |s.clients| && Enabled(cfg, s, Submit(c, i)) && CallsConserved(s, k)
    ensures CallsConserved(Step(cfg, s, Submit(c, i)), k)
  {
    SubmitMovesCall(s.clients[c], i, s.up[c], k);
  }

  lemma ClientStepKeepsCalls(cfg: Config, s: State, a: Action, k: Asked)
    requires |s.up| == |s.clients| && Enabled(cfg, s, a) && CallsConserved(s, k)
    requires a.RequestId? || a.Submit? || a.Accept? || a.Receive?
    ensures |Step(cfg, s, a).up| == |Step(cfg, s, a).clients| && CallsConserved(Step(cfg, s, a), k)
  {
    match a
    case RequestId(c, call) => RequestIdKeepsCalls(cfg, s, c, call, k);
    case Submit(c, i) => SubmitKeepsCalls(cfg, s, c, i, k);
    case _ =>
  }

  lemma ReadConservesCalls(cfg: Config, s: State, r: nat, k: Asked)
    requires |s.up| == |s.clients| && Enabled(cfg, s, Read(r)) && CallsConserved(s, k)
    requires IsCallFrame(s.up[s.server.streams[r]][0])
    ensures CallsConserved(Step(cfg, s, Read(r)), k)
  {
    ReadMovesCall(s.server, r, s.up[s.server.streams[r]][0], k);
  }

  lemma StepConservesCalls(cfg: Config, s: State, a: Action, k: Asked)
    requires Shape(cfg, s) && Enabled(cfg, s, a) && CallsConserved(s, k)
    ensures |Step(cfg, s, a).up| == |Step(cfg, s, a).clients| && CallsConserved(Step(cfg, s, a), k)
  {
    if a.Connect? {
      ConnectCalls(cfg, s, k);
    } else if a.RequestId? || a.Submit? || a.Accept? || a.Receive? {
      ClientStepKeepsCalls(cfg, s, a, k);
    } else if a.Read? {
      ReadConservesCalls(cfg, s, a.streamId, k);
    } else if !a.Send? {
      InsideKeepsCalls(cfg, s.server, a, k);
    }
  }

  lemma SubmitMovesCall(c: Client, i: nat, up: seq<Frame>, k: Asked)
    requires i < |c.pending|
    ensures Sum(CliSubmit(c, i).pending, TicketW(k)) + Sum(up + [TicketFrame(c.pending[i])], UpW(k))
            == Sum(c.pending, TicketW(k)) + Sum(up, UpW(k))
  {
    SumRemove(c.pending, i, TicketW(k));
    SumSnoc(up, TicketFrame(c.pending[i]), UpW(k));
    CallRoundTrip(k.call);
    CallRoundTrip(c.pending[i].call);
  }

  lemma InsideKeepsAnswers(cfg: Config, srv: Server, a: Action, k: Answer)
    requires InFlightOk(cfg, srv) && ServerEnabled(cfg, srv, a)
    requires forall r: nat :: r in srv.streams <==> r < |srv.readers|
    requires srv.accepting.Some? ==> srv.accepting.value.0 == |srv.readers|
    ensures var t := Inside(cfg, srv, a); Returning(t, k) + Answered(srv, k) == Returning(srv, k) + Answered(t, k)
  {
    match a
    case Install => InstallKeepsAnswers(cfg, srv, k);
    case Post(r) => PostKeepsAnswers(srv, r, k);
    case Take(w) => TakeKeepsAnswers(srv, w, k);
    case Perform(slot) => PerformMakesAnswer(cfg, srv, slot, k);
    case Respond(slot) => RespondKeepsAnswers(srv, slot, k);
    case Pick(w) => PickKeepsAnswers(srv, w, k);
    case Bind(w) => BindKeepsAnswers(srv, w, k);
    case _ =>
  }

  lemma ReadConservesAnswers(cfg: Config, s: State, r: nat, k: Answer)
    requires |s.down| == |s.clients| && Enabled(cfg, s, Read(r)) && AnswersConserved(s, k)
    requires IsCallFrame(s.up[s.server.streams[r]][0])
    ensures AnswersConserved(Step(cfg, s, Read(r)), k)
  {
    ReadKeepsAnswers(s.server, r, s.up[s.server.streams[r]][0], k);
  }

  lemma StreamStepConservesAnswers(cfg: Config, s: State, a: Action, k: Answer)
    requires |s.down| == |s.clients| && Enabled(cfg, s, a) && AnswersConserved(s, k)
    requires a.RequestId? || a.Submit? || a.Accept? || a.Receive? || a.Send?
    requires a.Send? ==> WriterOk(s.server, s.server.writers[a.writer])
    ensures |Step(cfg, s, a).down| == |Step(cfg, s, a).clients| && AnswersConserved(Step(cfg, s, a), k)
  {
    match a
    case Send(w) =>
      SendMovesAnswer(s.server, w, k);
      SumSnoc(s.down[s.server.writers[w].client], ResponseFrame(s.server.writers[w].response), DownW(k));
    case Receive(c) => SumSnoc(s.clients[c].received, s.down[c][0], DownW(k));
    case _ =>
  }

  lemma StepConservesAnswers(cfg: Config, s: State, a: Action, k: Answer)
    requires Shape(cfg, s) && Enabled(cfg, s, a) && AnswersConserved(s, k)
    ensures |Step(cfg, s, a).down| == |Step(cfg, s, a).clients| && AnswersConserved(Step(cfg, s, a), k)
  {
    if a.Connect? {
      ConnectAnswers(cfg, s, k);
    } else if a.Read? {
      ReadConservesAnswers(cfg, s, a.streamId, k);
    } else if a.RequestId? || a.Submit? || a.Accept? || a.Receive? || a.Send? {
      StreamStepConservesAnswers(cfg, s, a, k);
    } else {
      InsideKeepsAnswers(cfg, s.server, a, k);
    }
  }
}
