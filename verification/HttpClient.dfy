/**
 The cached HTTP client (`App.HTTPClient`, `AddHTTPClientOption`), as a state machine over the
 read/write lock. The read lock is given up before the write lock is taken, and nothing is checked
 again; the cache is right all the same.
 */
module HttpClient {
  import opened Text

  type Thread = nat
  type ClientOption = nat

  /** A client object and the options it was built from. */
  datatype Client = Client(id: nat, options: seq<ClientOption>)

  datatype Pc =
    | Idle
    | Reading                     // HTTPClient: read lock held, before reading the cache
    | Missed                      // read lock held, nothing cached
    | Upgrading                   // no lock held
    | Building                    // write lock held
    | Built(client: Client)       // write lock held, before the cache is set
    | Cached(client: Client)      // write lock held, cache set
    | Relocking(client: Client)   // no lock held
    | Returning(client: Client)   // read lock held
    | Returned(client: Client)
    | Adding(opt: ClientOption)   // AddHTTPClientOption: write lock held
    | Appended                    // write lock held, option appended, cache not yet dropped
    | Dropped                     // write lock held, cache dropped

  predicate HoldsRead(pc: Pc) { pc.Reading? || pc.Missed? || pc.Returning? }

  predicate HoldsWrite(pc: Pc) { pc.Building? || pc.Built? || pc.Cached? || pc.Adding? || pc.Appended? || pc.Dropped? }

  datatype State = State(cache: Option<Client>, options: seq<ClientOption>, readers: set<Thread>,
    writer: Option<Thread>, pcs: map<Thread, Pc>)

  predicate IsStart(s: State) {
    s.cache == None && s.readers == {} && s.writer == None && forall t :: t in s.pcs ==> s.pcs[t] == Idle
  }

  function Moved(s: State, t: Thread, pc: Pc): State { s.(pcs := s.pcs[t := pc]) }

  predicate MayRead(s: State) { s.writer == None }

  predicate MayWrite(s: State) { s.writer == None && s.readers == {} }

  /** What an idle thread starts: a call of `HTTPClient`, or of `AddHTTPClientOption` with an option. */
  datatype Start = GetClient | AddOption(opt: ClientOption)

  /** One atomic step of thread `t`; `id` names a client object being created. */
  predicate Step(s: State, t: Thread, start: Start, id: nat, s': State) {
    t in s.pcs &&
    match s.pcs[t]
    case Idle =>
      (match start
       case GetClient => MayRead(s) && s' == Moved(s, t, Reading).(readers := s.readers + {t})
       case AddOption(o) => MayWrite(s) && s' == Moved(s, t, Adding(o)).(writer := Some(t)))
    case Reading => s' == Moved(s, t, match s.cache case Some(c) => Returning(c) case None => Missed)
    case Missed => s' == Moved(s, t, Upgrading).(readers := s.readers - {t})
    case Upgrading => MayWrite(s) && s' == Moved(s, t, Building).(writer := Some(t))
    case Building => s' == Moved(s, t, Built(Client(id, s.options)))
    case Built(c) => s' == Moved(s, t, Cached(c)).(cache := Some(c))
    case Cached(c) => s' == Moved(s, t, Relocking(c)).(writer := None)
    case Relocking(c) => MayRead(s) && s' == Moved(s, t, Returning(c)).(readers := s.readers + {t})
    case Returning(c) => s' == Moved(s, t, Returned(c)).(readers := s.readers - {t})
    case Returned(_) => s' == Moved(s, t, Idle)
    case Adding(o) => s' == Moved(s, t, Appended).(options := s.options + [o])
    case Appended => s' == Moved(s, t, Dropped).(cache := None)
    case Dropped => s' == Moved(s, t, Idle).(writer := None)
  }

  ghost predicate Next(s: State, s': State) { exists t, start, id :: Step(s, t, start, id, s') }

  ghost predicate IsRun(run: seq<State>) {
    run != [] && IsStart(run[0]) && forall i :: 0 <= i < |run| - 1 ==> Next(run[i], run[i + 1])
  }

  /** No thread is between appending an option and dropping the cache. */
  predicate Settled(s: State) { forall t :: t in s.pcs ==> s.pcs[t] != Appended }

  /** A cached client was built from the current options. */
  predicate Fresh(s: State) { Settled(s) && s.cache.Some? ==> s.cache.value.options == s.options }

  /** The lock is held as the threads' positions say, and a client about to be cached is current. */
  ghost predicate Inv(s: State) {
    && (s.writer.Some? ==> s.readers == {}) && Fresh(s)
    && (forall t :: t in s.pcs ==>
          && (HoldsRead(s.pcs[t]) <==> t in s.readers) && (HoldsWrite(s.pcs[t]) <==> s.writer == Some(t))
          && (s.pcs[t].Built? ==> s.pcs[t].client.options == s.options))
  }

  /** Under a lock, nobody else is halfway through adding an option. */
  lemma {:induction false} LockedIsSettled(s: State, t: Thread)
    requires Inv(s) && t in s.pcs && s.pcs[t] != Appended && (HoldsRead(s.pcs[t]) || HoldsWrite(s.pcs[t]))
    ensures Settled(s)
  {
    forall u | u in s.pcs
      ensures s.pcs[u] != Appended
    {
      assert HoldsWrite(s.pcs[u]) <==> s.writer == Some(u);
    }
  }

  lemma {:induction false} StepKeepsLock(s: State, t: Thread, start: Start, id: nat, s': State)
    requires Inv(s) && Step(s, t, start, id, s')
    ensures s'.writer.Some? ==> s'.readers == {}
    ensures forall u :: u in s'.pcs ==>
      (HoldsRead(s'.pcs[u]) <==> u in s'.readers) && (HoldsWrite(s'.pcs[u]) <==> s'.writer == Some(u))
  {
    forall u | u in s'.pcs
      ensures (HoldsRead(s'.pcs[u]) <==> u in s'.readers) && (HoldsWrite(s'.pcs[u]) <==> s'.writer == Some(u))
    {
      assert u in s.pcs;
      assert (HoldsRead(s.pcs[u]) <==> u in s.readers) && (HoldsWrite(s.pcs[u]) <==> s.writer == Some(u));
    }
  }

  lemma {:induction false} StepKeepsFresh(s: State, t: Thread, start: Start, id: nat, s': State)
    requires Inv(s) && Step(s, t, start, id, s')
    ensures Fresh(s')
  {
    if Settled(s') && s'.cache.Some? {
      assert s'.pcs[t] != Appended;
      if s.pcs[t] != Appended {
        assert Settled(s) by {
          forall u | u in s.pcs
            ensures s.pcs[u] != Appended
          {
            if u != t { assert s'.pcs[u] == s.pcs[u]; }
          }
        }
      }
    }
  }

  lemma {:induction false} RunKeepsInv(run: seq<State>, i: nat)
    requires IsRun(run) && i < |run|
    ensures Inv(run[i])
  {
    if i > 0 {
      RunKeepsInv(run, i - 1);
      var t, start, id :| Step(run[i - 1], t, start, id, run[i - 1 + 1]);
      StepKeepsLock(run[i - 1], t, start, id, run[i]);
      StepKeepsFresh(run[i - 1], t, start, id, run[i]);
    }
  }

  /**
   In every interleaving a cached client matches the options, except while one is being added under the write
   lock.
   */
  lemma {:induction false} CacheIsFresh(run: seq<State>, i: nat)
    requires IsRun(run) && i < |run| && run[i].cache.Some?
    ensures run[i].cache.value.options == run[i].options
      || exists t :: t in run[i].pcs && run[i].pcs[t] == Appended && run[i].writer == Some(t)
  {
    RunKeepsInv(run, i);
    if !Settled(run[i]) {
      var t :| t in run[i].pcs && run[i].pcs[t] == Appended;
      assert HoldsWrite(run[i].pcs[t]) <==> run[i].writer == Some(t);
    }
  }

  /** The client a call of `HTTPClient` has settled on. */
  predicate Has(pc: Pc, c: Client) {
    pc == Built(c) || pc == Cached(c) || pc == Relocking(c) || pc == Returning(c) || pc == Returned(c)
  }

  /** Thread `t` is inside one call from `i` (when it was still idle) to `j`. */
  ghost predicate OneCall(run: seq<State>, t: Thread, i: nat, j: nat) {
    && i <= j < |run| && (forall k :: i <= k <= j ==> t in run[k].pcs)
    && run[i].pcs[t] == Idle && forall k :: i < k <= j ==> run[k].pcs[t] != Idle
  }

  /** A client is settled on only when it matches the options of that moment. */
  lemma {:induction false} SettlesOnCurrent(s: State, s': State, t: Thread, c: Client)
    requires Inv(s) && Next(s, s') && t in s.pcs && t in s'.pcs && Has(s'.pcs[t], c) && !Has(s.pcs[t], c)
    ensures c.options == s.options
  {
    var u, start, id :| Step(s, u, start, id, s');
    assert u == t;
    if s.pcs[t] == Reading { LockedIsSettled(s, t); }
  }

  /**
   In every interleaving a call of `HTTPClient` returns a client built from the options as they stood
   at some moment of that call.
   */
  lemma {:induction false} ReturnsCurrentClient(run: seq<State>, t: Thread, i: nat, j: nat, c: Client) returns (m: nat)
    requires IsRun(run) && OneCall(run, t, i, j) && Has(run[j].pcs[t], c)
    ensures i <= m <= j && run[m].options == c.options
    decreases j - i
  {
    RunKeepsInv(run, j - 1);
    assert Next(run[j - 1], run[j - 1 + 1]);
    if Has(run[j - 1].pcs[t], c) {
      m := ReturnsCurrentClient(run, t, i, j - 1, c);
    } else {
      SettlesOnCurrent(run[j - 1], run[j], t, c);
      m := j - 1;
    }
  }
}
