/** The first-in-first-out specification that both queues implement, and what it
    means for a single producer. */
module Fifos {
  import Seqs

  /** A queued value, with the thread that pushed it as a history tag. */
  datatype Entry<T> = Entry(producer: nat, value: T)

  /** Everything pushed and popped so far, and what is still in the queue. */
  datatype Fifo<T> = Fifo(pushed: seq<Entry<T>>, popped: seq<Entry<T>>, data: seq<Entry<T>>)

  function EmptyFifo<T>(): Fifo<T> {
    Fifo([], [], [])
  }

  /** What a step of an implementation does to the queue. */
  datatype Operation<T> = Nothing | PushBack(e: Entry<T>) | PopFront

  function Do<T>(f: Fifo<T>, op: Operation<T>): Fifo<T>
    requires op.PopFront? ==> f.data != []
  {
    match op
    case Nothing => f
    case PushBack(e) => Fifo(f.pushed + [e], f.popped, f.data + [e])
    case PopFront => Fifo(f.pushed, f.popped + [f.data[0]], f.data[1..])
  }

  /** One linearized operation, or none. */
  ghost predicate FifoNext<T>(f: Fifo<T>, g: Fifo<T>) {
    || g == f
    || (|g.pushed| > |f.pushed| && var e := g.pushed[|f.pushed|]; g == Fifo(f.pushed + [e], f.popped, f.data + [e]))
    || (g.pushed == f.pushed && f.data != [] && g == Fifo(f.pushed, f.popped + [f.data[0]], f.data[1..]))
  }

  predicate FifoOk<T(==)>(f: Fifo<T>) {
    f.pushed == f.popped + f.data
  }

  lemma FifoNextKeepsOk<T>(f: Fifo<T>, g: Fifo<T>)
    requires FifoOk(f) && FifoNext(f, g)
    ensures FifoOk(g)
  {
    if g != f && g.pushed == f.pushed {
      assert f.data == [f.data[0]] + f.data[1..];
    }
  }

  ghost predicate FifoRun<T(!new)>(fs: seq<Fifo<T>>) {
    && fs != [] && fs[0] == EmptyFifo()
    && forall i :: 0 <= i < |fs| - 1 ==> FifoNext(fs[i], fs[i + 1])
  }

  /** In every run what was popped, followed by what is queued, is what was pushed,
      in linearization order: nothing is lost, duplicated or overtaken. */
  lemma {:induction false} FifoRunOk<T(!new)>(fs: seq<Fifo<T>>, i: nat)
    requires FifoRun(fs) && i < |fs|
    ensures FifoOk(fs[i])
  {
    if i > 0 {
      FifoRunOk(fs, i - 1);
      FifoNextKeepsOk(fs[i - 1], fs[i]);
    }
  }

  function By<T>(es: seq<Entry<T>>, p: nat): seq<T> {
    if es == [] then []
    else (if es[0].producer == p then [es[0].value] else []) + By(es[1..], p)
  }

  lemma {:induction false} ByConcat<T>(a: seq<Entry<T>>, b: seq<Entry<T>>, p: nat)
    ensures By(a + b, p) == By(a, p) + By(b, p)
  {
    if a == [] {
      assert a + b == b;
    } else {
      assert (a + b)[0] == a[0] && (a + b)[1..] == a[1..] + b;
      ByConcat(a[1..], b, p);
      Seqs.Assoc(if a[0].producer == p then [a[0].value] else [], By(a[1..], p), By(b, p));
    }
  }

  /** Each producer's values come out in the order in which it pushed them. */
  lemma PerProducerOrder<T>(f: Fifo<T>, p: nat)
    requires FifoOk(f)
    ensures By(f.popped, p) + By(f.data, p) == By(f.pushed, p)
    ensures By(f.popped, p) <= By(f.pushed, p)
  {
    ByConcat(f.popped, f.data, p);
  }
}

/** `StdLockedQueue` at the level of its mutex and condition variable. Any number
    of threads push and pop; the lock, the atomic release-and-sleep of `wait`,
    `notify_one` and spurious wake-ups are steps of their own. */
module LockedQueue {
  import opened Framing
  import opened Fifos
  import opened Sums

  /** Where a thread is. `Push`: wants the lock, holds it, has pushed, has
      notified. `WaitAndPop`: wants the lock, tests the predicate, sleeps, was
      woken and wants the lock again, found the queue non-empty, has popped. */
  datatype Place<T> =
    | Outside
    | PushWants(value: T) | PushHolds(value: T) | PushPushed | PushNotified
    | PopWants | PopTests | PopAsleep | PopWoken | PopTakes | PopDone(value: T)

  datatype Queue<T> = Queue(data: seq<Entry<T>>, lock: Option<nat>, places: seq<Place<T>>,
                            pushed: seq<Entry<T>>, popped: seq<Entry<T>>)

  datatype Action<T> =
    | BeginPush(t: nat, value: T)
    | BeginPop(t: nat)
    | Lock(t: nat)
    | PushItem(t: nat)
    | Notify(t: nat, woken: Option<nat>)
    | Test(t: nat)
    | TakeFront(t: nat)
    | Unlock(t: nat)
    | Spurious(t: nat)

  predicate Holds<T>(p: Place<T>) {
    p.PushHolds? || p.PushPushed? || p.PushNotified? || p.PopTests? || p.PopTakes? || p.PopDone?
  }

  /** `notify_one` wakes some sleeping thread if there is one. */
  predicate NotifyOk<T>(q: Queue<T>, woken: Option<nat>) {
    match woken
    case Some(u) => u < |q.places| && q.places[u].PopAsleep?
    case None => forall u :: 0 <= u < |q.places| ==> !q.places[u].PopAsleep?
  }

  predicate Enabled<T>(q: Queue<T>, a: Action<T>) {
    a.t < |q.places| &&
    var p := q.places[a.t];
    match a
    case BeginPush(_, _) => p.Outside?
    case BeginPop(_) => p.Outside?
    case Lock(_) => q.lock.None? && (p.PushWants? || p.PopWants? || p.PopWoken?)
    case PushItem(_) => p.PushHolds?
    case Notify(_, woken) => p.PushPushed? && NotifyOk(q, woken)
    case Test(_) => p.PopTests?
    case TakeFront(_) => p.PopTakes?
    case Unlock(_) => p.PushNotified? || p.PopDone?
    case Spurious(_) => p.PopAsleep?
  }

  function Move<T>(q: Queue<T>, t: nat, p: Place<T>): Queue<T>
    requires t < |q.places|
  {
    q.(places := q.places[t := p])
  }

  function Step<T>(q: Queue<T>, a: Action<T>): Queue<T>
    requires Enabled(q, a)
  {
    var p := q.places[a.t];
    match a
    case BeginPush(t, v) => Move(q, t, PushWants(v))
    case BeginPop(t) => Move(q, t, PopWants)
    case Lock(t) => Move(q.(lock := Some(t)), t, if p.PushWants? then PushHolds(p.value) else PopTests)
    case PushItem(t) =>
      var e := Entry(t, p.value);
      Move(q.(data := q.data + [e], pushed := q.pushed + [e]), t, PushPushed)
    case Notify(t, woken) =>
      var m := if woken.Some? then Move(q, woken.value, PopWoken) else q;
      Move(m, t, PushNotified)
    case Test(t) =>
      if q.data == [] then Move(q.(lock := None), t, PopAsleep) else Move(q, t, PopTakes)
    case TakeFront(t) =>
      // Testing found an element and the lock was held since.
      if q.data == [] then q
      else Move(q.(data := q.data[1..], popped := q.popped + [q.data[0]]), t, PopDone(q.data[0].value))
    case Unlock(t) => Move(q.(lock := None), t, Outside)
    case Spurious(t) => Move(q, t, PopWoken)
  }

  function Init<T>(threads: nat): Queue<T> {
    Queue([], None, seq(threads, _ => Outside), [], [])
  }

  ghost predicate Run<T(!new)>(threads: nat, states: seq<Queue<T>>, actions: seq<Action<T>>) {
    && |states| == |actions| + 1 && states[0] == Init(threads)
    && forall i :: 0 <= i < |actions| ==> Enabled(states[i], actions[i]) && states[i + 1] == Step(states[i], actions[i])
  }

  // --------------------------------------------------------------- invariants

  function AsleepW<T>(): Place<T> -> nat {
    (p: Place<T>) => if p.PopAsleep? then 1 else 0
  }

  /** Consumers that are awake after a wake-up or a test, and producers about to
      notify: each of them accounts for one queued element. */
  function RousedW<T>(): Place<T> -> nat {
    (p: Place<T>) => if p.PopWoken? || p.PopTests? || p.PopTakes? || p.PushPushed? then 1 else 0
  }

  function WokenW<T>(): Place<T> -> nat {
    (p: Place<T>) => if p.PopWoken? then 1 else 0
  }

  /** The mutex excludes; a consumer that passed the test finds an element. */
  ghost predicate MutexOk<T>(q: Queue<T>) {
    && (forall t :: 0 <= t < |q.places| && Holds(q.places[t]) ==> q.lock == Some(t))
    && (q.lock.Some? ==> q.lock.value < |q.places| && Holds(q.places[q.lock.value]))
    && (forall t :: 0 <= t < |q.places| && q.places[t].PopTakes? ==> q.data != [])
  }

  /** No lost wake-up, as an invariant: while anybody sleeps, there are at least as
      many roused threads as queued elements. */
  ghost predicate WakeupsOk<T>(q: Queue<T>) {
    Sum(q.places, AsleepW()) > 0 ==> |q.data| <= Sum(q.places, RousedW())
  }

  ghost predicate Inv<T>(q: Queue<T>) {
    MutexOk(q) && WakeupsOk(q) && FifoOk(Abstract(q))
  }

  function Abstract<T>(q: Queue<T>): Fifo<T> {
    Fifo(q.pushed, q.popped, q.data)
  }

  lemma InitOk<T>(threads: nat)
    ensures Inv(Init<T>(threads)) && Abstract(Init<T>(threads)) == EmptyFifo()
  {
    SumZero(Init<T>(threads).places, AsleepW());
  }

  lemma StepKeepsMutex<T>(q: Queue<T>, a: Action<T>)
    requires MutexOk(q) && Enabled(q, a)
    ensures MutexOk(Step(q, a))
  {
  }

  lemma MoveSums<T>(q: Queue<T>, t: nat, p: Place<T>)
    requires t < |q.places|
    ensures var m := Move(q, t, p);
            && Sum(m.places, AsleepW()) + AsleepW()(q.places[t]) == Sum(q.places, AsleepW()) + AsleepW()(p)
            && Sum(m.places, RousedW()) + RousedW()(q.places[t]) == Sum(q.places, RousedW()) + RousedW()(p)
  {
    SumUpdate(q.places, t, p, AsleepW());
    SumUpdate(q.places, t, p, RousedW());
  }

  lemma NotifyKeepsWakeups<T>(q: Queue<T>, t: nat, woken: Option<nat>)
    requires MutexOk(q) && WakeupsOk(q) && Enabled(q, Notify(t, woken))
    ensures WakeupsOk(Step(q, Notify(t, woken)))
  {
    match woken
    case None =>
      SumZero(q.places, AsleepW());
      MoveSums(q, t, PushNotified);
    case Some(u) =>
      MoveSums(q, u, PopWoken);
      SumAtLeast(q.places, u, AsleepW());
      MoveSums(Move(q, u, PopWoken), t, PushNotified);
  }

  lemma StepKeepsWakeups<T>(q: Queue<T>, a: Action<T>)
    requires MutexOk(q) && WakeupsOk(q) && Enabled(q, a)
    ensures WakeupsOk(Step(q, a))
  {
    if a.Notify? {
      NotifyKeepsWakeups(q, a.t, a.woken);
    } else {
      MoveSums(q, a.t, Step(q, a).places[a.t]);
    }
  }

  /** Which step is which operation: pushing under the lock, taking the front, and
      nothing else. */
  function Meaning<T>(q: Queue<T>, a: Action<T>): Operation<T>
    requires Enabled(q, a)
  {
    match a
    case PushItem(t) => PushBack(Entry(t, q.places[t].value))
    case TakeFront(_) => PopFront
    case _ => Nothing
  }

  /** The queue refines the FIFO specification, each step by its own operation. */
  lemma StepRefinesFifo<T>(q: Queue<T>, a: Action<T>)
    requires MutexOk(q) && Enabled(q, a)
    ensures a.TakeFront? ==> q.data != []
    ensures Abstract(Step(q, a)) == Do(Abstract(q), Meaning(q, a))
    ensures FifoNext(Abstract(q), Abstract(Step(q, a)))
  {
    if a.PushItem? {
      var e := Entry(a.t, q.places[a.t].value);
      assert Abstract(Step(q, a)) == Fifo(q.pushed + [e], q.popped, q.data + [e]);
    }
  }

  lemma {:induction false} RunInv<T(!new)>(threads: nat, states: seq<Queue<T>>, actions: seq<Action<T>>, i: nat)
    requires Run(threads, states, actions) && i < |states|
    ensures Inv(states[i])
  {
    if i == 0 {
      InitOk<T>(threads);
    } else {
      RunInv(threads, states, actions, i - 1);
      StepKeepsMutex(states[i - 1], actions[i - 1]);
      StepKeepsWakeups(states[i - 1], actions[i - 1]);
      StepRefinesFifo(states[i - 1], actions[i - 1]);
      FifoNextKeepsOk(Abstract(states[i - 1]), Abstract(states[i]));
    }
  }

  // ------------------------------------------------------------ what follows

  /** No lost wake-up: in every state of every run in which elements are queued and
      a consumer sleeps, someone can act. If the lock is free, at least as many
      woken consumers as there are elements can take it at once; if it is taken,
      its holder has an enabled step. */
  lemma NoLostWakeup<T(!new)>(threads: nat, states: seq<Queue<T>>, actions: seq<Action<T>>, i: nat)
    requires Run(threads, states, actions) && i < |states|
    requires states[i].data != [] && exists t :: 0 <= t < |states[i].places| && states[i].places[t].PopAsleep?
    ensures var q := states[i];
            q.lock.None? ==> |q.data| <= Sum(q.places, WokenW())
                             && exists t: nat :: t < |q.places| && q.places[t].PopWoken? && Enabled(q, Lock(t))
    ensures states[i].lock.Some? ==> exists a: Action<T> :: a.t == states[i].lock.value && Enabled(states[i], a) && IsInternal(a)
  {
    var q := states[i];
    RunInv(threads, states, actions, i);
    var t :| 0 <= t < |q.places| && q.places[t].PopAsleep?;
    SumAtLeast(q.places, t, AsleepW());
    if q.lock.None? {
      SumSame(q.places, RousedW(), WokenW());
      var u := SumWitness(q.places, WokenW());
      assert Enabled(q, Lock(u));
    } else {
      var a := HolderCanStep(q);
    }
  }

  /** The steps that finish what was begun: no new operation, no spurious wake-up. */
  predicate IsInternal<T>(a: Action<T>) {
    !a.BeginPush? && !a.BeginPop? && !a.Spurious?
  }

  lemma HolderCanStep<T>(q: Queue<T>) returns (a: Action<T>)
    requires MutexOk(q) && q.lock.Some?
    ensures a.t == q.lock.value && Enabled(q, a) && IsInternal(a)
  {
    var t := q.lock.value;
    match q.places[t] {
      case PushHolds(_) => a := PushItem(t);
      case PushPushed =>
        if u: nat :| u < |q.places| && q.places[u].PopAsleep? {
          a := Notify(t, Some(u));
        } else {
          a := Notify(t, None);
        }
      case PopTests => a := Test(t);
      case PopTakes => a := TakeFront(t);
      case _ => a := Unlock(t);
    }
  }

  function EffortW<T>(): Place<T> -> nat {
    (p: Place<T>) =>
      match p
      case Outside => 0 case PopAsleep => 0
      case PushWants(_) => 8 case PushHolds(_) => 7 case PushPushed => 6 case PushNotified => 1
      case PopWants => 4 case PopWoken => 4 case PopTests => 3 case PopTakes => 2 case PopDone(_) => 1
  }

  /** Operations that were begun finish or fall asleep: without new ones and
      without spurious wake-ups every step brings this measure down. */
  lemma InternalStepDecreases<T>(q: Queue<T>, a: Action<T>)
    requires MutexOk(q) && Enabled(q, a) && IsInternal(a)
    ensures Sum(Step(q, a).places, EffortW()) < Sum(q.places, EffortW())
  {
    if a.Notify? && a.woken.Some? {
      SumUpdate(q.places, a.woken.value, PopWoken, EffortW());
      SumUpdate(q.places[a.woken.value := PopWoken], a.t, PushNotified, EffortW());
    } else {
      SumUpdate(q.places, a.t, Step(q, a).places[a.t], EffortW());
    }
  }

  ghost predicate Quiescent<T(!new)>(q: Queue<T>) {
    forall a: Action<T> :: IsInternal(a) ==> !Enabled(q, a)
  }

  /** When nothing can move any more, every thread is outside or asleep, and if one
      is asleep the queue is empty: no element is stranded. */
  lemma QuiescentNotStranded<T(!new)>(threads: nat, states: seq<Queue<T>>, actions: seq<Action<T>>, i: nat)
    requires Run(threads, states, actions) && i < |states| && Quiescent(states[i])
    ensures var q := states[i];
            && (forall t :: 0 <= t < |q.places| ==> q.places[t].Outside? || q.places[t].PopAsleep?)
            && ((exists t :: 0 <= t < |q.places| && q.places[t].PopAsleep?) ==> q.data == [])
  {
    var q := states[i];
    RunInv(threads, states, actions, i);
    if q.lock.Some? {
      var a := HolderCanStep(q);
    }
    forall t: nat | t < |q.places| ensures q.places[t].Outside? || q.places[t].PopAsleep? {
      assert !Enabled(q, Lock(t));
    }
    if t: nat :| t < |q.places| && q.places[t].PopAsleep? {
      SumAtLeast(q.places, t, AsleepW());
      SumZero(q.places, RousedW());
    }
  }

  /** The value of thread `t`'s last push in a run of these actions. */
  function LastBegun<T>(actions: seq<Action<T>>, t: nat): Option<T> {
    if actions == [] then None
    else
      var n := |actions| - 1;
      match actions[n]
      case BeginPush(u, v) => if u == t then Some(v) else LastBegun(actions[..n], t)
      case _ => LastBegun(actions[..n], t)
  }

  /** What the actions push: at each `PushItem` of a thread the value with which it
      began, in the order of these actions. */
  function PushedBy<T>(actions: seq<Action<T>>): seq<Entry<T>> {
    if actions == [] then []
    else
      var n := |actions| - 1;
      PushedBy(actions[..n])
      + (match actions[n]
         case PushItem(t) =>
           (match LastBegun(actions[..n], t) case Some(v) => [Entry(t, v)] case None => [])
         case _ => [])
  }

  function TakesIn<T>(actions: seq<Action<T>>): nat {
    if actions == [] then 0
    else TakesIn(actions[..|actions| - 1]) + (if actions[|actions| - 1].TakeFront? then 1 else 0)
  }

  /** A thread that is pushing has in its hands what it began with. */
  ghost predicate HandsOk<T(!new)>(q: Queue<T>, actions: seq<Action<T>>) {
    forall t: nat :: t < |q.places| && (q.places[t].PushWants? || q.places[t].PushHolds?) ==>
                       LastBegun(actions, t) == Some(q.places[t].value)
  }

  lemma StepKeepsHands<T(!new)>(q: Queue<T>, actions: seq<Action<T>>, a: Action<T>)
    requires Enabled(q, a) && HandsOk(q, actions)
    ensures HandsOk(Step(q, a), actions + [a])
  {
    assert (actions + [a])[..|actions|] == actions;
    var r := Step(q, a);
    forall t: nat | t < |r.places| && (r.places[t].PushWants? || r.places[t].PushHolds?)
      ensures LastBegun(actions + [a], t) == Some(r.places[t].value)
    {
      assert t != a.t ==> q.places[t] == r.places[t];
    }
  }

  lemma {:induction false} RunPushesAndTakes<T(!new)>(threads: nat, states: seq<Queue<T>>, actions: seq<Action<T>>, i: nat)
    requires Run(threads, states, actions) && i < |states|
    ensures HandsOk(states[i], actions[..i])
    ensures states[i].pushed == PushedBy(actions[..i]) && |states[i].popped| == TakesIn(actions[..i])
  {
    if i > 0 {
      var before, a := actions[..i - 1], actions[i - 1];
      assert actions[..i] == before + [a] && actions[..i][..i - 1] == before;
      RunPushesAndTakes(threads, states, actions, i - 1);
      RunInv(threads, states, actions, i - 1);
      StepKeepsHands(states[i - 1], before, a);
      StepRefinesFifo(states[i - 1], a);
      assert Abstract(states[i]) == Do(Abstract(states[i - 1]), Meaning(states[i - 1], a));
    }
  }

  /** In every run: first in, first out. What went in is what the push actions bring,
      in their order; what went out is as many of the first of them as there were
      takes; the rest is in the queue. Each producer's values come out in its order. */
  lemma LockedQueueIsFifo<T(!new)>(threads: nat, states: seq<Queue<T>>, actions: seq<Action<T>>, i: nat, p: nat)
    requires Run(threads, states, actions) && i < |states|
    ensures var q, pushed, n := states[i], PushedBy(actions[..i]), TakesIn(actions[..i]);
            && n <= |pushed| && q.pushed == pushed && q.popped == pushed[..n] && q.data == pushed[n..]
    ensures By(states[i].popped, p) <= By(PushedBy(actions[..i]), p)
  {
    RunInv(threads, states, actions, i);
    RunPushesAndTakes(threads, states, actions, i);
    PerProducerOrder(Abstract(states[i]), p);
    assert states[i].pushed == states[i].popped + states[i].data;
  }

  /** In every run, the pop that comes after `k` others finds the queue non-empty,
      hands out the value that was pushed after `k` others, and removes it. */
  lemma PopReturnsFront<T(!new)>(threads: nat, states: seq<Queue<T>>, actions: seq<Action<T>>, i: nat, t: nat)
    requires Run(threads, states, actions) && i < |actions| && actions[i] == TakeFront(t)
    ensures var q, r := states[i], states[i + 1];
            && |q.popped| < |q.pushed| && r.popped == q.pushed[..|q.popped| + 1] && r.pushed == q.pushed
            && t < |r.places| && r.places[t] == PopDone(q.pushed[|q.popped|].value)
            && q.data == [q.pushed[|q.popped|]] + r.data
  {
    var q := states[i];
    RunInv(threads, states, actions, i);
    assert MutexOk(q) && q.data != [];
    assert q.pushed[|q.popped|] == q.data[0] && q.pushed[..|q.popped|] == q.popped;
  }

  // ------------------------------------------------------------ a hand-over

  lemma RunGoesOn<T(!new)>(threads: nat, states: seq<Queue<T>>, actions: seq<Action<T>>, a: Action<T>)
    requires Run(threads, states, actions) && Enabled(states[|actions|], a)
    ensures Run(threads, states + [Step(states[|actions|], a)], actions + [a])
  {
  }

  ghost predicate Reachable<T(!new)>(threads: nat, q: Queue<T>) {
    exists states, actions :: Run(threads, states, actions) && states[|actions|] == q
  }

  lemma ReachStep<T(!new)>(threads: nat, q: Queue<T>, a: Action<T>)
    requires Reachable(threads, q) && Enabled(q, a)
    ensures Reachable(threads, Step(q, a))
  {
    var states, actions :| Run(threads, states, actions) && states[|actions|] == q;
    RunGoesOn(threads, states, actions, a);
    assert (states + [Step(q, a)])[|actions + [a]|] == Step(q, a);
  }

  /** Two threads, of which the first is the consumer. */
  function Pair<T>(data: seq<Entry<T>>, lock: Option<nat>, consumer: Place<T>, producer: Place<T>,
                   pushed: seq<Entry<T>>, popped: seq<Entry<T>>): Queue<T> {
    Queue(data, lock, [consumer, producer], pushed, popped)
  }

  lemma ReachPair<T(!new)>(q: Queue<T>, a: Action<T>, r: Queue<T>)
    requires Reachable(2, q) && |q.places| == 2 && Enabled(q, a) && Step(q, a) == r
    ensures Reachable(2, r)
  {
    ReachStep(2, q, a);
  }

  lemma ReachAsleep<T(!new)>()
    ensures Reachable<T>(2, Pair([], None, PopAsleep, Outside, [], []))
  {
    var q0: Queue<T> := Init(2);
    var none: seq<Action<T>> := [];
    assert Run(2, [q0], none) && [q0][|none|] == q0;
    assert q0 == Pair([], None, Outside, Outside, [], []);
    var q1: Queue<T> := Pair([], None, PopWants, Outside, [], []);
    ReachPair(q0, BeginPop(0), q1);
    var q2: Queue<T> := Pair([], Some(0), PopTests, Outside, [], []);
    ReachPair(q1, Lock(0), q2);
    ReachPair(q2, Test(0), Pair([], None, PopAsleep, Outside, [], []));
  }

  lemma ReachPushed<T(!new)>(v: T)
    ensures Reachable(2, Pair([Entry(1, v)], Some(1), PopAsleep, PushPushed, [Entry(1, v)], []))
  {
    var e := [Entry(1, v)];
    ReachAsleep<T>();
    var q0: Queue<T> := Pair([], None, PopAsleep, Outside, [], []);
    var q1 := Pair([], None, PopAsleep, PushWants(v), [], []);
    ReachPair(q0, BeginPush(1, v), q1);
    var q2 := Pair([], Some(1), PopAsleep, PushHolds(v), [], []);
    ReachPair(q1, Lock(1), q2);
    ReachPair(q2, PushItem(1), Pair(e, Some(1), PopAsleep, PushPushed, e, []));
  }

  lemma ReachNotified<T(!new)>(v: T)
    ensures Reachable(2, Pair([Entry(1, v)], None, PopWoken, Outside, [Entry(1, v)], []))
  {
    var e := [Entry(1, v)];
    ReachPushed(v);
    var q3: Queue<T> := Pair(e, Some(1), PopAsleep, PushPushed, e, []);
    var q4: Queue<T> := Pair(e, Some(1), PopWoken, PushNotified, e, []);
    ReachPair(q3, Notify(1, Some(0)), q4);
    ReachPair(q4, Unlock(1), Pair(e, None, PopWoken, Outside, e, []));
  }

  /** A consumer that fell asleep on the empty queue gets what a producer pushes. */
  lemma SleeperGetsItem<T(!new)>(v: T)
    ensures Reachable(2, Pair([], Some(0), PopDone(v), Outside, [Entry(1, v)], [Entry(1, v)]))
  {
    var e := [Entry(1, v)];
    ReachNotified(v);
    var q0: Queue<T> := Pair(e, None, PopWoken, Outside, e, []);
    var q1: Queue<T> := Pair(e, Some(0), PopTests, Outside, e, []);
    ReachPair(q0, Lock(0), q1);
    var q2: Queue<T> := Pair(e, Some(0), PopTakes, Outside, e, []);
    ReachPair(q1, Test(0), q2);
    ReachPair(q2, TakeFront(0), Pair([], Some(0), PopDone(v), Outside, e, e));
  }
}

/** `BoostLockFreeQueue`: a linearizable queue with a polling pop. */
module PollingQueue {
  import opened Fifos

  datatype Queue<T> = Queue(data: seq<Entry<T>>, pushed: seq<Entry<T>>, popped: seq<Entry<T>>)

  /** A pop attempt succeeds exactly when the queue is not empty; otherwise the
      thread sleeps and tries again. */
  datatype Action<T> = Push(t: nat, value: T) | TryPop(t: nat)

  function Step<T>(q: Queue<T>, a: Action<T>): Queue<T> {
    match a
    case Push(t, v) => q.(data := q.data + [Entry(t, v)], pushed := q.pushed + [Entry(t, v)])
    case TryPop(_) =>
      if q.data == [] then q else Queue(q.data[1..], q.pushed, q.popped + [q.data[0]])
  }

  function Abstract<T>(q: Queue<T>): Fifo<T> {
    Fifo(q.pushed, q.popped, q.data)
  }

  lemma StepRefinesFifo<T>(q: Queue<T>, a: Action<T>)
    ensures Abstract(Step(q, a)) == Do(Abstract(q), match a
                                                    case Push(t, v) => PushBack(Entry(t, v))
                                                    case TryPop(_) => if q.data == [] then Nothing else PopFront)
    ensures FifoNext(Abstract(q), Abstract(Step(q, a)))
  {
    if a.Push? {
      var e := Entry(a.t, a.value);
      assert Abstract(Step(q, a)) == Fifo(q.pushed + [e], q.popped, q.data + [e]);
    }
  }

  function After<T>(actions: seq<Action<T>>): Queue<T> {
    if actions == [] then Queue([], [], [])
    else Step(After(actions[..|actions| - 1]), actions[|actions| - 1])
  }

  /** What the push actions bring, in their order. */
  function PushedBy<T>(actions: seq<Action<T>>): seq<Entry<T>> {
    if actions == [] then []
    else
      var n := |actions| - 1;
      PushedBy(actions[..n]) + (match actions[n] case Push(t, v) => [Entry(t, v)] case TryPop(_) => [])
  }

  /** How many attempts succeed: those that come when fewer succeeded than were
      pushed. */
  function PopsIn<T>(actions: seq<Action<T>>): nat {
    if actions == [] then 0
    else
      var n := |actions| - 1;
      var pops := PopsIn(actions[..n]);
      if actions[n].TryPop? && pops < |PushedBy(actions[..n])| then pops + 1 else pops
  }

  /** In every run: first in, first out. What went in is what the push actions bring,
      what went out is its first part, the rest is in the queue; each producer's
      values come out in its order. */
  lemma {:induction false} PollingQueueIsFifo<T>(actions: seq<Action<T>>, p: nat)
    ensures var q, pushed, n := After(actions), PushedBy(actions), PopsIn(actions);
            && n <= |pushed| && q.pushed == pushed && q.popped == pushed[..n] && q.data == pushed[n..]
    ensures By(After(actions).popped, p) <= By(PushedBy(actions), p)
  {
    if actions != [] {
      var before, a := actions[..|actions| - 1], actions[|actions| - 1];
      PollingQueueIsFifo(before, p);
      var q, r := After(before), After(actions);
      assert q.pushed == q.popped + q.data;
      StepRefinesFifo(q, a);
      FifoNextKeepsOk(Abstract(q), Abstract(r));
      assert |r.popped| == PopsIn(actions);
    }
    PerProducerOrder(Abstract(After(actions)), p);
  }
}

/** The two queues as the objects a single caller sees, with what other threads
    do while the caller waits as an input. */
module QueueObjects {
  import opened Bytes
  import opened Framing

  /** A waiting pop looks at the queue now and after each wake-up or sleep; other
      threads may have changed it arbitrarily in between. It takes the front of
      the first non-empty queue it sees. */
  function FirstNonEmpty<T>(now: seq<T>, later: seq<seq<T>>): (found: Option<seq<T>>)
    ensures found.Some? ==> found.value != []
    decreases |later|
  {
    if now != [] then Some(now)
    else if later == [] then None
    else FirstNonEmpty(later[0], later[1..])
  }

  lemma {:induction false} FirstNonEmptyMeaning<T>(now: seq<T>, later: seq<seq<T>>)
    ensures FirstNonEmpty(now, later).None? <==> now == [] && forall k :: 0 <= k < |later| ==> later[k] == []
    ensures FirstNonEmpty(now, later).Some? && now != [] ==> FirstNonEmpty(now, later).value == now
    ensures FirstNonEmpty(now, later).Some? && now == [] ==>
              exists k :: 0 <= k < |later| && FirstNonEmpty(now, later).value == later[k]
                          && forall j :: 0 <= j < k ==> later[j] == []
    decreases |later|
  {
    if now == [] && later != [] {
      var rest := later[1..];
      FirstNonEmptyMeaning(later[0], rest);
      assert forall k :: 0 <= k < |rest| ==> rest[k] == later[k + 1];
      var found := FirstNonEmpty(now, later);
      if found.Some? && later[0] == [] {
        var k :| 0 <= k < |rest| && found.value == rest[k] && forall j :: 0 <= j < k ==> rest[j] == [];
        assert found.value == later[k + 1];
        forall j | 0 <= j < k + 1 ensures later[j] == [] {
          assert j > 0 ==> rest[j - 1] == [];
        }
      }
    }
  }

  class StdLockedQueue<T> {
    var data: seq<T>

    constructor ()
      ensures data == []
    {
      data := [];
    }

    method Push(o: T)
      modifies this
      ensures data == old(data) + [o]
    {
      data := data + [o];
    }

    /** `wakeups[k]` is the queue when the k-th wake-up has the lock again. `None`
        means that the caller is still asleep when they run out. */
    method WaitAndPop(wakeups: seq<seq<T>>) returns (result: Option<T>)
      modifies this
      ensures match FirstNonEmpty(old(data), wakeups)
              case Some(found) => result == Some(found[0]) && data == found[1..]
              case None => result == None && data == []
    {
      var k := 0;
      assert wakeups[0..] == wakeups;
      while data == []
        invariant 0 <= k <= |wakeups|
        invariant FirstNonEmpty(data, wakeups[k..]) == FirstNonEmpty(old(data), wakeups)
        decreases |wakeups| - k
      {
        if k == |wakeups| {
          return None;
        }
        data := wakeups[k];
        k := k + 1;
      }
      result := Some(data[0]);
      data := data[1..];
    }

    /** The size is right exactly below 2^32 elements; beyond, whole multiples of
        2^32 are missing from it. */
    method GetSize() returns (size: U32)
      ensures size == |data| <==> |data| < U32_LIMIT
      ensures size <= |data| && (|data| - size) % U32_LIMIT == 0
    {
      size := Narrow(|data|);
    }

    method IsEmpty() returns (empty: bool)
      ensures empty <==> data == []
    {
      empty := data == [];
    }
  }

  class BoostLockFreeQueue<T> {
    var data: seq<T>

    constructor ()
      ensures data == []
    {
      data := [];
    }

    method Push(o: T)
      modifies this
      ensures data == old(data) + [o]
    {
      data := data + [o];
    }

    /** The library's `pop`: it leaves the result alone when the queue is empty. */
    method Pop(default: T) returns (ok: bool, result: T)
      modifies this
      ensures ok <==> old(data) != []
      ensures ok ==> result == old(data)[0] && data == old(data)[1..]
      ensures !ok ==> result == default && data == old(data)
    {
      ok, result := data != [], default;
      if ok {
        result := data[0];
        data := data[1..];
      }
    }

    /** The retry loop; `sleeps[k]` is the queue after the k-th sleep. It meets the
        same specification as the locked queue's `WaitAndPop`. */
    method WaitAndPop(default: T, sleeps: seq<seq<T>>) returns (result: Option<T>)
      modifies this
      ensures match FirstNonEmpty(old(data), sleeps)
              case Some(found) => result == Some(found[0]) && data == found[1..]
              case None => result == None && data == []
    {
      var k := 0;
      assert sleeps[0..] == sleeps;
      while true
        invariant 0 <= k <= |sleeps|
        invariant FirstNonEmpty(data, sleeps[k..]) == FirstNonEmpty(old(data), sleeps)
        decreases |sleeps| - k
      {
        var ok, item := Pop(default);
        if ok {
          return Some(item);
        }
        if k == |sleeps| {
          return None;
        }
        data := sleeps[k];
        k := k + 1;
      }
    }

    /** This queue does not count: it reports 0, which is the size only when the
        size is a multiple of 2^32. */
    method GetSize() returns (size: U32)
      ensures size == 0
      ensures size == Narrow(|data|) <==> |data| % U32_LIMIT == 0
    {
      size := 0;
    }

    method IsEmpty() returns (empty: bool)
      ensures empty <==> data == []
    {
      empty := data == [];
    }
  }
}
