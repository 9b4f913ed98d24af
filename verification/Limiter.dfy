/**
 The double-checked creation of the rate limiter (`getLimiter`), as a state machine over the atomic
 loads and stores and the mutex. Any number of threads make any number of calls, in any order.
 */
module Limiter {
  import opened Text

  type Thread = nat
  /** A limiter object, known by its identity. */
  type Id = nat

  datatype Result = Returned(limiter: Id) | Failed

  /** Where a thread is inside `getLimiter`. */
  datatype Pc =
    | Idle
    | Entered                 // before the first load
    | Missed                  // the first load found nothing
    | Locked                  // holding the mutex, before the second load
    | Creating                // holding the mutex, the second load found nothing
    | Created(limiter: Id)    // holding the mutex, before the store
    | Leaving(result: Result) // holding the mutex, about to return
    | Done(result: Result)

  predicate Holds(pc: Pc) { pc.Locked? || pc.Creating? || pc.Created? || pc.Leaving? }

  /** One store of the shared pointer: what was stored, by which call. */
  datatype Store = Store(limiter: Id, thread: Thread, call: nat)

  /** The shared pointer, the mutex, every thread's position and call number, and the stores so far. */
  datatype State = State(
    limiter: Option<Id>, mutex: Option<Thread>, pcs: map<Thread, Pc>, calls: map<Thread, nat>, stores: seq<Store>)

  predicate IsStart(s: State) {
    s.limiter == None && s.mutex == None && s.stores == [] && s.calls.Keys == s.pcs.Keys
    && forall t :: t in s.pcs ==> s.pcs[t] == Idle
  }

  function Moved(s: State, t: Thread, pc: Pc): State { s.(pcs := s.pcs[t := pc]) }

  /** One atomic step of thread `t`; `made` is what a creation yields, if it does. */
  predicate Step(s: State, t: Thread, made: Option<Id>, s': State) {
    t in s.pcs && t in s.calls &&
    match s.pcs[t]
    case Idle => s' == Moved(s, t, Entered).(calls := s.calls[t := s.calls[t] + 1])
    case Entered =>
      s' == Moved(s, t, match s.limiter case Some(l) => Done(Returned(l)) case None => Missed)
    case Missed => s.mutex == None && s' == Moved(s, t, Locked).(mutex := Some(t))
    case Locked =>
      s' == Moved(s, t, match s.limiter case Some(l) => Leaving(Returned(l)) case None => Creating)
    case Creating =>
      s' == Moved(s, t, match made case Some(l) => Created(l) case None => Leaving(Failed))
    case Created(l) =>
      s' == Moved(s, t, Leaving(Returned(l))).(limiter := Some(l), stores := s.stores + [Store(l, t, s.calls[t])])
    case Leaving(r) => s' == Moved(s, t, Done(r)).(mutex := None)
    case Done(_) => s' == Moved(s, t, Idle)
  }

  ghost predicate Next(s: State, s': State) { exists t, made :: Step(s, t, made, s') }

  /** `run` is a run of the system from a fresh limiter. */
  ghost predicate IsRun(run: seq<State>) {
    run != [] && IsStart(run[0]) && forall i :: 0 <= i < |run| - 1 ==> Next(run[i], run[i + 1])
  }

  /** The pointer is what the only store, if any, put there. */
  predicate OneStore(s: State) {
    |s.stores| <= 1 && s.limiter == if s.stores == [] then None else Some(s.stores[0].limiter)
  }

  /** What a thread's position says about the pointer. */
  predicate Knows(s: State, pc: Pc) {
    match pc
    case Creating => s.limiter == None
    case Created(_) => s.limiter == None
    case Leaving(Returned(l)) => s.limiter == Some(l)
    case Done(Returned(l)) => s.limiter == Some(l)
    case _ => true
  }

  /** A store belongs to a call that returned what it stored, or is about to. */
  predicate Owned(s: State, e: Store) {
    && e.thread in s.pcs && e.thread in s.calls && e.call <= s.calls[e.thread]
    && (e.call == s.calls[e.thread] ==>
          var pc := s.pcs[e.thread];
          pc == Idle || pc == Leaving(Returned(e.limiter)) || pc == Done(Returned(e.limiter)))
  }

  ghost predicate Inv(s: State) {
    && s.calls.Keys == s.pcs.Keys && OneStore(s)
    && (forall t :: t in s.pcs ==> (Holds(s.pcs[t]) <==> s.mutex == Some(t)) && Knows(s, s.pcs[t]))
    && (forall e :: e in s.stores ==> Owned(s, e))
  }

  lemma {:induction false} StepKeepsKnowledge(s: State, t: Thread, made: Option<Id>, s': State)
    requires Inv(s) && Step(s, t, made, s')
    ensures OneStore(s') && (s.limiter.Some? ==> s'.limiter == s.limiter)
    ensures forall u :: u in s'.pcs ==> (Holds(s'.pcs[u]) <==> s'.mutex == Some(u)) && Knows(s', s'.pcs[u])
  {
    assert Knows(s, s.pcs[t]);
    forall u | u in s'.pcs
      ensures (Holds(s'.pcs[u]) <==> s'.mutex == Some(u)) && Knows(s', s'.pcs[u])
    {
      assert u in s.pcs;
      assert Holds(s.pcs[u]) <==> s.mutex == Some(u);
    }
  }

  lemma {:induction false} StepKeepsOwners(s: State, t: Thread, made: Option<Id>, s': State)
    requires Inv(s) && Step(s, t, made, s')
    ensures s'.calls.Keys == s'.pcs.Keys && forall e :: e in s'.stores ==> Owned(s', e)
  {
    forall e | e in s'.stores
      ensures Owned(s', e)
    {
      if e in s.stores { assert Owned(s, e) && Knows(s, s.pcs[t]); }
    }
  }

  lemma {:induction false} RunKeepsInv(run: seq<State>, i: nat)
    requires IsRun(run) && i < |run|
    ensures Inv(run[i])
  {
    if i > 0 {
      RunKeepsInv(run, i - 1);
      var t, made :| Step(run[i - 1], t, made, run[i - 1 + 1]);
      StepKeepsKnowledge(run[i - 1], t, made, run[i]);
      StepKeepsOwners(run[i - 1], t, made, run[i]);
    }
  }

  /** A published limiter stays. */
  lemma {:induction false} PublishedStays(run: seq<State>, i: nat, j: nat)
    requires IsRun(run) && i <= j < |run| && run[i].limiter.Some?
    ensures run[j].limiter == run[i].limiter
    decreases j - i
  {
    if i < j {
      PublishedStays(run, i, j - 1);
      RunKeepsInv(run, j - 1);
      var t, made :| Step(run[j - 1], t, made, run[j - 1 + 1]);
      StepKeepsKnowledge(run[j - 1], t, made, run[j]);
    }
  }

  /**
   In every interleaving: at most one limiter is ever published, every successful call returns that
   one, whenever and in whatever thread, and a call that failed has published nothing.
   */
  lemma {:induction false} OneLimiter(run: seq<State>, i: nat, j: nat, t: Thread, u: Thread)
    requires IsRun(run) && i < |run| && j < |run| && t in run[i].pcs && u in run[j].pcs
    ensures |run[j].stores| <= 1
    ensures forall a, b :: run[i].pcs[t] == Done(Returned(a)) && run[j].pcs[u] == Done(Returned(b)) ==> a == b
    ensures forall a, e :: run[i].pcs[t] == Done(Returned(a)) && e in run[j].stores ==> e.limiter == a
    ensures u in run[j].calls
    ensures run[j].pcs[u] == Done(Failed) ==>
      forall e :: e in run[j].stores ==> e.thread != u || e.call != run[j].calls[u]
  {
    RunKeepsInv(run, i);
    RunKeepsInv(run, j);
    assert Knows(run[i], run[i].pcs[t]) && Knows(run[j], run[j].pcs[u]);
    if run[i].limiter.Some? && run[j].limiter.Some? {
      if i <= j { PublishedStays(run, i, j); } else { PublishedStays(run, j, i); }
    }
    if run[j].pcs[u] == Done(Failed) {
      forall e | e in run[j].stores
        ensures e.thread != u || e.call != run[j].calls[u]
      {
        assert Owned(run[j], e);
      }
    }
  }
}
