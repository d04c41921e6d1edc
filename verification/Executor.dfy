/** `Executor` as the object it is: the tables and queues its methods update.
    Each method is proved to be a sequence of the server's pipeline steps, and
    the two endless loops, run until they would block, to empty their queue in
    order. */
module Executors {
  import opened Bytes
  import opened Framing
  import opened Dispatch
  import opened Pipeline
  import opened PipelineOrder
  import Seqs

  // ------------------------------------------- a loop's iterations as steps

  /** One iteration of `LoopToPerformRequest` on worker `w`. */
  function ServeOne(cfg: Config, s: Server, w: nat): Server
    requires w < |s.workers| && s.requests != []
  {
    var performed := SrvPerform(cfg, SrvTake(s, w), OnWorker(w));
    if performed.crashed then performed else SrvRespond(performed, OnWorker(w))
  }

  function ServeAll(cfg: Config, s: Server, w: nat): Server
    requires w < |s.workers|
    decreases |s.requests|
  {
    if s.requests == [] || s.crashed then s else ServeAll(cfg, ServeOne(cfg, s, w), w)
  }

  /** One iteration of `LoopToWriteResponse` on writer `w`. */
  function WriteOne(s: Server, w: nat): Server
    requires w < |s.writers| && s.responses != []
  {
    var bound := SrvBind(SrvPick(s, w), w);
    if bound.crashed then bound else SrvSent(bound, w)
  }

  function WriteAll(s: Server, w: nat): Server
    requires w < |s.writers|
    decreases |s.responses|
  {
    if s.responses == [] || s.crashed then s else WriteAll(WriteOne(s, w), w)
  }

  predicate Registered(cfg: Config, qs: seq<Request>) {
    forall i :: 0 <= i < |qs| ==> qs[i].call.name in Methods(cfg)
  }

  function ResponseTo(e: Record): Response {
    Response(e.request.objectId, e.request.streamId, e.result)
  }

  function ResponsesTo(log: seq<Record>): seq<Response> {
    seq(|log|, i requires 0 <= i < |log| => ResponseTo(log[i]))
  }

  lemma ServeOneInOrder(cfg: Config, s: Server, w: nat)
    requires w < |s.workers| && !s.crashed && s.requests != [] && s.requests[0].call.name in Methods(cfg)
    ensures var u := ServeOne(cfg, s, w);
            && !u.crashed && |u.workers| == |s.workers| && u.requests == s.requests[1..]
            && |u.log| == |s.log| + 1 && s.log <= u.log
            && LogRequests(u.log) == LogRequests(s.log) + [s.requests[0]]
            && u.responses == s.responses + [ResponseTo(u.log[|s.log|])]
  {
    assert LogRequests(ServeOne(cfg, s, w).log) == LogRequests(s.log) + [s.requests[0]];
  }

  /** Any worker's loop serves the queue front to back: the log gains exactly the
      queued requests in order, and their responses are queued in that order. */
  lemma {:induction false} ServeAllInOrder(cfg: Config, s: Server, w: nat)
    requires w < |s.workers| && !s.crashed && Registered(cfg, s.requests)
    ensures var t := ServeAll(cfg, s, w);
            && !t.crashed && t.requests == []
            && s.log <= t.log && LogRequests(t.log) == LogRequests(s.log) + s.requests
            && t.responses == s.responses + ResponsesTo(t.log[|s.log|..])
    decreases |s.requests|
  {
    if s.requests != [] {
      var u := ServeOne(cfg, s, w);
      ServeOneInOrder(cfg, s, w);
      ServeAllInOrder(cfg, u, w);
      ServedFurther(s, u, ServeAll(cfg, s, w));
    }
  }

  /** One request and then all others are all requests. */
  lemma ServedFurther(s: Server, u: Server, t: Server)
    requires s.requests != [] && u.requests == s.requests[1..]
    requires |u.log| == |s.log| + 1 && s.log <= u.log <= t.log
    requires LogRequests(u.log) == LogRequests(s.log) + [s.requests[0]]
    requires LogRequests(t.log) == LogRequests(u.log) + u.requests
    requires u.responses == s.responses + [ResponseTo(u.log[|s.log|])]
    requires t.responses == u.responses + ResponsesTo(t.log[|u.log|..])
    ensures LogRequests(t.log) == LogRequests(s.log) + s.requests
    ensures t.responses == s.responses + ResponsesTo(t.log[|s.log|..])
  {
    Seqs.Assoc(LogRequests(s.log), [s.requests[0]], s.requests[1..]);
    assert [s.requests[0]] + s.requests[1..] == s.requests;
    ResponsesFrom(t.log, |s.log|);
    Seqs.Assoc(s.responses, [ResponseTo(t.log[|s.log|])], ResponsesTo(t.log[|u.log|..]));
  }

  lemma ResponsesFrom(log: seq<Record>, n: nat)
    requires n < |log|
    ensures ResponsesTo(log[n..]) == [ResponseTo(log[n])] + ResponsesTo(log[n + 1..])
  {
  }

  /** The writes that the responses lead to, up to the first one whose stream is
      not in the table. */
  function Writes(streams: map<nat, nat>, ps: seq<Response>): seq<(nat, Frame)> {
    if ps == [] || ps[0].streamId !in streams then []
    else [(streams[ps[0].streamId], ResponseFrame(ps[0]))] + Writes(streams, ps[1..])
  }

  /** Responses go, in order, each to its own stream's client as one frame with its
      object id and its result, up to the first one whose stream is unknown. */
  lemma {:induction false} WritesInOrder(streams: map<nat, nat>, ps: seq<Response>)
    ensures var sent := Writes(streams, ps);
            && |sent| <= |ps| && (|sent| < |ps| ==> ps[|sent|].streamId !in streams)
            && forall i :: 0 <= i < |sent| ==> ps[i].streamId in streams
                                               && sent[i] == (streams[ps[i].streamId], ResponseFrame(ps[i]))
  {
    if ps != [] && ps[0].streamId in streams {
      WritesInOrder(streams, ps[1..]);
      var sent, rest := Writes(streams, ps), Writes(streams, ps[1..]);
      forall i | 0 <= i < |sent|
        ensures ps[i].streamId in streams && sent[i] == (streams[ps[i].streamId], ResponseFrame(ps[i]))
      {
        assert i > 0 ==> ps[i] == ps[1..][i - 1] && sent[i] == rest[i - 1];
      }
    }
  }

  // ---------------------------------------------------------------- the class

  class Executor {
    const workThreads: nat
    const writeThreads: nat
    var currStreamId: nat
    var registeredMethods: map<ByteString, Impl>
    var streams: map<nat, nat>
    var requestQueue: seq<Request>
    var responseQueue: seq<Response>
    // The calls performed so far, which is what the service objects remember.
    var log: seq<Record>
    // An exception left a thread, or an assertion failed: the process is gone.
    var crashed: bool
    ghost var registrations: seq<Registration<Impl>>

    ghost predicate Valid()
      reads this
    {
      && registeredMethods == ByMethod(registrations)
      && (forall r: nat :: r in streams <==> r < currStreamId)
    }

    ghost function Cfg(): Config
      reads this
    {
      Config(registrations, workThreads, writeThreads)
    }

    /** The pipeline's server between two calls, when no thread holds anything. */
    ghost function View(): Server
      reads this
    {
      Server(currStreamId, None, streams, seq(currStreamId, _ => Idle), requestQueue,
             seq(workThreads, _ => Idle), responseQueue, seq(writeThreads, _ => Waiting), log, crashed)
    }

    constructor (workThreads: nat, writeThreads: nat)
      ensures Valid() && registrations == [] && View() == NewServer(Cfg())
    {
      this.workThreads, this.writeThreads := workThreads, writeThreads;
      currStreamId, registeredMethods, streams := 0, map[], map[];
      requestQueue, responseQueue, log, crashed := [], [], [], false;
      registrations := [];
    }

    /** The key is the method name alone, so a later service's method of the same
        name replaces an earlier one's. */
    method RegisterMethod(service: ByteString, name: ByteString, impl: Impl)
      requires Valid()
      modifies this`registeredMethods, this`registrations
      ensures Valid() && registrations == old(registrations) + [Registration(service, name, impl)]
      ensures name in registeredMethods && registeredMethods[name] == impl
      ensures forall m :: m != name && m in old(registeredMethods) ==>
                            m in registeredMethods && registeredMethods[m] == old(registeredMethods)[m]
    {
      registeredMethods := registeredMethods[name := impl];
      registrations := registrations + [Registration(service, name, impl)];
      assert registrations[..|registrations| - 1] == old(registrations);
    }

    /** The accept handler: number the stream, store it, start reading it. */
    method OnAccept(client: nat) returns (streamId: nat)
      requires Valid() && !crashed
      modifies this`currStreamId, this`streams
      ensures Valid() && streamId == old(currStreamId)
      ensures View() == SrvInstall(SrvAccept(old(View()), client))
    {
      streamId := currStreamId;
      currStreamId := currStreamId + 1;
      streams := streams[streamId := client];
      assert seq(currStreamId, _ => Idle) == seq(streamId, _ => Idle) + [Idle];
    }

    /** The stream's callback: decode the two names; a malformed tuple throws;
        otherwise queue the request for the workers or, without workers, perform
        it on the spot. */
    method InvokeMethod(streamId: nat, objectId: U32, buffer: ByteString)
      requires Valid() && !crashed && streamId in streams
      modifies this`requestQueue, this`log, this`responseQueue, this`crashed
      ensures Valid()
      ensures var read := SrvRead(old(View()), streamId, Frame(objectId, buffer));
              if read.crashed then View() == read
              else if workThreads > 0 then View() == SrvPost(read, streamId)
              else var done := SrvPerform(Cfg(), read, OnReader(streamId));
                   crashed == done.crashed && (!crashed ==> View() == SrvRespond(done, OnReader(streamId)))
    {
      match DecodeCall(buffer)
      case None =>
        crashed := true;
      case Some(call) =>
        assert old(View()).readers[streamId := Idle] == old(View()).readers;
        if workThreads > 0 {
          requestQueue := requestQueue + [Request(objectId, streamId, call)];
        } else {
          PerformRequest(Request(objectId, streamId, call));
        }
    }

    /** Look the method up by name and run it, then queue the response. Calling
        the empty function of a missing entry throws. */
    method PerformRequest(request: Request)
      requires Valid() && !crashed
      modifies this`log, this`responseQueue, this`crashed
      ensures Valid()
      ensures crashed <==> request.call.name !in registeredMethods
      ensures crashed ==> log == old(log) && responseQueue == old(responseQueue)
      ensures !crashed ==>
                && log == old(log) + [Record(request, registeredMethods[request.call.name](Calls(old(log)), request.call.args))]
                && (forall history :: IsHistory(history, old(log), |old(log)|) ==>
                                        log[|old(log)|].result == registeredMethods[request.call.name](history, request.call.args))
                && responseQueue == old(responseQueue) + [ResponseTo(log[|old(log)|])]
    {
      if request.call.name !in registeredMethods {
        crashed := true;
        return;
      }
      var result := registeredMethods[request.call.name](Calls(log), request.call.args);
      HistoryOfAll(log);
      log := log + [Record(request, result)];
      responseQueue := responseQueue + [Response(request.objectId, request.streamId, result)];
    }

    /** One iteration of the worker's loop. */
    method ServeFront(ghost w: nat)
      requires Valid() && !crashed && w < workThreads && requestQueue != []
      modifies this`requestQueue, this`log, this`responseQueue, this`crashed
      ensures Valid() && requestQueue == old(requestQueue)[1..]
      ensures crashed == ServeOne(Cfg(), old(View()), w).crashed
      ensures !crashed ==> View() == ServeOne(Cfg(), old(View()), w)
    {
      var request := requestQueue[0];
      requestQueue := requestQueue[1..];
      PerformRequest(request);
      IterationIsServeOne(Cfg(), old(View()), View(), w);
    }

    /** The loop of worker `w` until it would block (or the process is gone): the queue is
        served front to back. */
    method LoopToPerformRequest(ghost w: nat)
      requires Valid() && !crashed && w < workThreads
      modifies this`requestQueue, this`log, this`responseQueue, this`crashed
      ensures Valid() && crashed == ServeAll(Cfg(), old(View()), w).crashed
      ensures !crashed ==> View() == ServeAll(Cfg(), old(View()), w)
      ensures old(Registered(Cfg(), requestQueue)) ==>
                && !crashed && requestQueue == []
                && old(log) <= log && LogRequests(log) == LogRequests(old(log)) + old(requestQueue)
                && responseQueue == old(responseQueue) + ResponsesTo(log[|old(log)|..])
    {
      ghost var cfg, start := Cfg(), View();
      while requestQueue != [] && !crashed
        invariant Valid()
        invariant !crashed ==> ServeAll(cfg, View(), w) == ServeAll(cfg, start, w)
        invariant crashed ==> ServeAll(cfg, start, w).crashed
        decreases |requestQueue|
      {
        ServeFront(w);
      }
      if Registered(cfg, start.requests) {
        ServeAllInOrder(cfg, start, w);
      }
    }

    lemma IterationIsServeOne(cfg: Config, s: Server, t: Server, w: nat)
      requires w < |s.workers| && s.requests != [] && !s.crashed && s.workers == seq(|s.workers|, _ => Idle)
      requires var q := s.requests[0];
               if q.call.name !in Methods(cfg) then t == s.(requests := s.requests[1..], crashed := true)
               else var e := Record(q, Methods(cfg)[q.call.name](Calls(s.log), q.call.args));
                    t == s.(requests := s.requests[1..], log := s.log + [e], responses := s.responses + [ResponseTo(e)])
      ensures t.crashed == ServeOne(cfg, s, w).crashed
      ensures !t.crashed ==> t == ServeOne(cfg, s, w)
    {
      if !t.crashed {
        assert ServeOne(cfg, s, w).workers == s.workers;
      }
    }

    lemma WriteOneIs(s: Server, w: nat)
      requires w < |s.writers| && s.responses != [] && !s.crashed && s.writers == seq(|s.writers|, _ => Waiting)
      requires s.responses[0].streamId in s.streams
      ensures WriteOne(s, w) == s.(responses := s.responses[1..])
    {
      assert WriteOne(s, w).writers == s.writers;
    }

    /** The loop of writer `w` until it would block: every response is routed by its
        stream id. The assertion on the stream table fails exactly at the first
        response whose stream is not in it. */
    method LoopToWriteResponse(ghost w: nat) returns (sent: seq<(nat, Frame)>)
      requires Valid() && !crashed && w < writeThreads
      modifies this`responseQueue, this`crashed
      ensures Valid() && sent == Writes(streams, old(responseQueue))
      ensures crashed <==> |sent| < |old(responseQueue)|
      ensures !crashed ==> responseQueue == [] && View() == WriteAll(old(View()), w)
    {
      ghost var start := View();
      sent := [];
      while responseQueue != [] && !crashed
        invariant Valid()
        invariant !crashed ==> sent + Writes(streams, responseQueue) == Writes(streams, start.responses)
                               && |sent| + |responseQueue| == |start.responses|
                               && WriteAll(View(), w) == WriteAll(start, w)
        invariant crashed ==> sent == Writes(streams, start.responses) && |sent| < |start.responses|
        decreases |responseQueue|
      {
        ghost var before := View();
        var response := responseQueue[0];
        responseQueue := responseQueue[1..];
        if response.streamId !in streams {
          crashed := true;
        } else {
          var write := (streams[response.streamId], ResponseFrame(response));
          Seqs.Assoc(sent, [write], Writes(streams, responseQueue));
          sent := sent + [write];
          WriteOneIs(before, w);
        }
      }
    }
  }
}
