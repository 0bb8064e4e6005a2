/** An RPC and the pool it draws connections from: which instances its retries reach, with other RPCs
    using the pool at the same time, and how it ends when no backend accepts a stream. */
module ProxyPool {
  import opened Options
  import opened GatewayErrors
  import opened PoolModel
  import opened PoolSafety
  import opened PoolCapacity
  import opened Proxy
  import opened ProxyControl

  // ---------- an RPC never comes back to an instance ----------

  /** The call is served from a pool, and its failure reports reach it. */
  ghost predicate Dynamic(call: Call) {
    call.pooled && (call.target.Sticky? || call.target.Balanced?)
  }

  /** The instances acquired are pairwise different, were listed in the beginning, and are no longer
      listed once they were reported. */
  ghost predicate NoReturn<C>(s: Sys<C>, instances: seq<Instance>) {
    && Inv(s.pool) && DistinctIds(s.pool.instances)
    && (forall id :: Listed(s.pool.instances, id) ==> Listed(instances, id))
    && (forall i, j :: 0 <= i < j < |s.rpc.acquires| ==> s.rpc.acquires[i].id != s.rpc.acquires[j].id)
    && (forall i :: 0 <= i < |s.rpc.acquires| ==> Listed(instances, s.rpc.acquires[i].id))
    && (forall i :: 0 <= i < |s.rpc.reports| && i < |s.rpc.acquires| ==>
          !Listed(s.pool.instances, s.rpc.acquires[i].id))
  }

  /** The list of a pool, after an event that did not refresh it, lists nothing new. */
  ghost predicate Shrunk(before: seq<Instance>, after: seq<Instance>) {
    (DistinctIds(before) ==> DistinctIds(after)) && forall id :: Listed(after, id) ==> Listed(before, id)
  }

  lemma StepShrinks<C>(p: Pool<C>, step: Step<C>)
    requires !step.Refresh?
    ensures Shrunk(p.instances, Do(p, step).instances)
  {
    match step
    case ForKey(key, dials) => ForKeyEffect(p, key, dials);
    case RoundRobin(dials) => var i := RoundRobinShape(p, dials);
    case Fail(key, id) => WithoutFirstListed(p.instances, id);
    case Close =>
  }

  /** A connection is granted to a listed instance, by a getter that leaves the list alone. */
  lemma GrantsListed<C>(call: Call, p: Pool<C>, dials: Dials<C>)
    requires Inv(p) && Dynamic(call)
    ensures var (q, lease, err) := GetConnection(call.target, p, dials);
      Inv(q) && q.instances == p.instances && (lease.Some? ==> Listed(p.instances, lease.value.id))
  {
    if call.target.Sticky? {
      StepKeeps(p, ForKey(call.target.key, dials));
      ForKeyEffect(p, call.target.key, dials);
      GetterGrantsListed(p, ForKey(call.target.key, dials));
    } else {
      StepKeeps(p, RoundRobin(dials));
      var i := RoundRobinShape(p, dials);
      GetterGrantsListed(p, RoundRobin(dials));
    }
  }

  /** How an event changes the books and the pool: it acquires, reports, or leaves them to others. */
  lemma EventShape<C>(call: Call, s: Sys<C>, e: Event<C>)
    requires Control(call, s.rpc) && Dynamic(call)
    ensures var t := Next(call, s, e);
      || (t.rpc.acquires == s.rpc.acquires && t.rpc.reports == s.rpc.reports
          && (t.pool == s.pool
              || (e.Other? && t.pool == Do(s.pool, e.step))
              || (e.Acquire? && s.rpc.reports == s.rpc.acquires
                  && t.pool == GetConnection(call.target, s.pool, e.dials).0)))
      || (e.Acquire? && s.rpc.reports == s.rpc.acquires == t.rpc.reports
          && GetConnection(call.target, s.pool, e.dials).1.Some?
          && t.rpc.acquires == s.rpc.acquires + [GetConnection(call.target, s.pool, e.dials).1.value]
          && t.pool == GetConnection(call.target, s.pool, e.dials).0)
      || (Holding(s.rpc) && t.rpc.acquires == s.rpc.acquires == t.rpc.reports
          && t.pool == OnBackendFailure(s.pool, Last(s.rpc.acquires).key, Last(s.rpc.acquires).id))
  {
    hide Attached, Rounds, UpOnce, DownOnce, GetConnection, OnBackendFailure, Do, DoTakeUp, DoTakeDown;
    if Holding(s.rpc) {
      ReportEmpties(call, s);
    }
    if HandlerEnabled(s.rpc, e) && (e.TakeUp? || e.TakeDown?) {
      TakeShape(call, s, e);
      hide Handle;
    }
  }

  lemma NextNoReturn<C>(call: Call, s: Sys<C>, e: Event<C>, instances: seq<Instance>)
    requires Control(call, s.rpc) && Dynamic(call) && NoReturn(s, instances)
    requires e.Other? ==> !e.step.Refresh?
    ensures NoReturn(Next(call, s, e), instances)
  {
    hide Control, Next, Inv, GetConnection, OnBackendFailure, Do;
    EventShape(call, s, e);
    var t := Next(call, s, e);
    if e.Other? && t.pool == Do(s.pool, e.step) {
      StepShrinks(s.pool, e.step);
      StepKeeps(s.pool, e.step);
    }
    if e.Acquire? {
      GrantsListed(call, s.pool, e.dials);
    }
    if s.rpc.acquires != [] && t.pool == OnBackendFailure(s.pool, Last(s.rpc.acquires).key, Last(s.rpc.acquires).id) {
      ReportedLeaves(s, Last(s.rpc.acquires));
    }
  }

  lemma ReportedLeaves<C>(s: Sys<C>, lease: Lease)
    requires Inv(s.pool) && DistinctIds(s.pool.instances)
    ensures var q := OnBackendFailure(s.pool, lease.key, lease.id);
      Inv(q) && Shrunk(s.pool.instances, q.instances) && !Listed(q.instances, lease.id)
  {
    StepKeeps(s.pool, Fail(lease.key, lease.id));
    WithoutFirstListed(s.pool.instances, lease.id);
  }

  lemma {:induction false} ExecNoReturn<C>(call: Call, pool: Pool<C>, events: seq<Event<C>>)
    requires Dynamic(call) && Inv(pool) && DistinctIds(pool.instances)
    requires forall n :: 0 <= n < |events| && events[n].Other? ==> !events[n].step.Refresh?
    ensures NoReturn(Exec(call, Start(pool), events), pool.instances)
    decreases |events|
  {
    if events != [] {
      var front := events[..|events| - 1];
      ExecNoReturn(call, pool, front);
      StartControl(call);
      ExecKeeps(call, Start(pool), front);
      NextNoReturn(call, Exec(call, Start(pool), front), events[|events| - 1], pool.instances);
    }
  }

  ghost function IdsOf(leases: seq<Lease>): set<string> {
    set i | 0 <= i < |leases| :: leases[i].id
  }

  lemma {:induction false} IdsOfSize(leases: seq<Lease>)
    requires forall i, j :: 0 <= i < j < |leases| ==> leases[i].id != leases[j].id
    ensures |IdsOf(leases)| == |leases|
    decreases leases
  {
    if leases != [] {
      var front, last := leases[..|leases| - 1], leases[|leases| - 1];
      IdsOfSize(front);
      forall i | 0 <= i < |front| ensures leases[i].id in IdsOf(front) {
        assert front[i] == leases[i];
      }
      forall i | 0 <= i < |front| ensures front[i].id in IdsOf(leases) {
        assert front[i] == leases[i];
      }
      assert IdsOf(leases) == IdsOf(front) + {last.id};
      assert last.id !in IdsOf(front);
    }
  }

  /** An RPC never revisits an instance: from a list with distinct IDs, and while no refresh is
      applied, the instances it acquires are pairwise different however other RPCs use the pool in
      between, so that it calls NewStream at most once per listed instance. */
  lemma {:induction false} NeverRevisits<C>(call: Call, pool: Pool<C>, events: seq<Event<C>>)
    requires Dynamic(call) && Inv(pool) && DistinctIds(pool.instances)
    requires forall n :: 0 <= n < |events| && events[n].Other? ==> !events[n].step.Refresh?
    ensures var rpc := Exec(call, Start(pool), events).rpc;
      && (forall i, j :: 0 <= i < j < |rpc.acquires| ==> rpc.acquires[i].id != rpc.acquires[j].id)
      && rpc.newStreams <= |rpc.acquires| <= |pool.instances|
  {
    hide Exec, Inv;
    ExecNoReturn(call, pool, events);
    var rpc := Exec(call, Start(pool), events).rpc;
    IdsOfSize(rpc.acquires);
    IdSetSize(pool.instances);
    assert IdsOf(rpc.acquires) <= IdSet(pool.instances);
    SubsetSize(IdsOf(rpc.acquires), IdSet(pool.instances));
    StartControl(call);
    ExecCounts(call, Start(pool), events);
  }

  // ---------- exhaustion ----------

  /** The listed instances that no other key occupies. */
  ghost function FreeIds<C>(p: Pool<C>, key: string): set<string> {
    set i | 0 <= i < |p.instances| && !AssignedToOther(p.keyToID, p.instances[i].id, key) :: p.instances[i].id
  }

  /** The key leads to no instance; an empty instance ID counts as no binding. */
  ghost predicate Unbound(keyToID: map<string, string>, key: string) {
    key in keyToID ==> keyToID[key] == ""
  }

  lemma FreeIdsMember<C>(p: Pool<C>, key: string, id: string)
    ensures id in FreeIds(p, key) <==> Listed(p.instances, id) && !AssignedToOther(p.keyToID, id, key)
  {
  }

  /** Whether another key occupies an instance is a matter of the other bindings. */
  lemma OthersDecide(m: map<string, string>, n: map<string, string>, key: string, id: string)
    requires m - {key} == n - {key}
    ensures AssignedToOther(m, id, key) <==> AssignedToOther(n, id, key)
  {
    if AssignedToOther(m, id, key) {
      var k :| k in m && k != key && m[k] == id;
      assert k in m - {key} && (n - {key})[k] == id;
    }
    if AssignedToOther(n, id, key) {
      var k :| k in n && k != key && n[k] == id;
      assert k in n - {key} && (m - {key})[k] == id;
    }
  }

  /** While dialing does not fail, an open pool serves a key exactly when an instance is free for it, and
      then with such an instance; other keys are not affected, and a refused key is unbound. */
  lemma ServedWhenFree<C>(p: Pool<C>, key: string, dials: Dials<C>)
    requires Inv(p) && !p.closed && key != "" && VacancyDials(p, key, dials)
    ensures var (q, r) := GetForKey(p, key, dials);
      && q.keyToID - {key} == p.keyToID - {key}
      && FreeIds(q, key) == FreeIds(p, key)
      && (r.Granted? <==> FreeIds(p, key) != {})
      && (r.Granted? ==> r.id in FreeIds(p, key))
      && (r.Refused? ==> r.err == NoAvailableConnInstance && Unbound(q.keyToID, key))
  {
    var (q, r) := GetForKey(p, key, dials);
    ForKeyEffect(p, key, dials);
    assert q.keyToID - {key} == p.keyToID - {key};
    forall id ensures id in FreeIds(q, key) <==> id in FreeIds(p, key) {
      OthersDecide(p.keyToID, q.keyToID, key, id);
      FreeIdsMember(p, key, id);
      FreeIdsMember(q, key, id);
    }
    if LiveBinding(p, key) {
      FreeIdsMember(p, key, r.id);
    } else {
      FirstFreeServes(p, key, dials);
    }
  }

  lemma FirstFreeServes<C>(p: Pool<C>, key: string, dials: Dials<C>)
    requires !p.closed && key != "" && VacancyDials(p, key, dials) && !LiveBinding(p, key)
    ensures var (q, r) := GetForKey(p, key, dials);
      && (r.Granted? <==> FreeIds(p, key) != {})
      && (r.Granted? ==> r.id in FreeIds(p, key))
      && (r.Refused? ==> r.err == NoAvailableConnInstance && Unbound(q.keyToID, key))
  {
    var d := DropStale(p, key);
    var i := FirstFree(d, key, dials, 0);
    FirstFreeIsFirst(d, key, dials, 0);
    if i < |p.instances| {
      OthersKept(p, key, p.instances[i].id);
      FreeIdsMember(p, key, p.instances[i].id);
    } else {
      PassesOccupied(p, key, dials, i);
      assert FreeIds(p, key) == {};
    }
  }

  /** A failure reported for an instance that is free for the key takes away just that instance. */
  lemma FailureTakesOne<C>(p: Pool<C>, key: string, id: string)
    requires DistinctIds(p.instances) && key != "" && id in FreeIds(p, key)
    ensures var q := OnBackendFailure(p, key, id);
      && q.keyToID - {key} == p.keyToID - {key} && Unbound(q.keyToID, key)
      && FreeIds(q, key) == FreeIds(p, key) - {id} && |FreeIds(q, key)| == |FreeIds(p, key)| - 1
  {
    var q := OnBackendFailure(p, key, id);
    WithoutFirstListed(p.instances, id);
    assert q.keyToID - {key} == p.keyToID - {key};
    forall x ensures x in FreeIds(q, key) <==> x in FreeIds(p, key) - {id} {
      OthersDecide(p.keyToID, q.keyToID, key, x);
      FreeIdsMember(p, key, x);
      FreeIdsMember(q, key, x);
    }
    assert FreeIds(q, key) == FreeIds(p, key) - {id};
  }

  /** A sticky RPC for the key that may retry, on a dynamic cluster. */
  ghost predicate StickyCall(call: Call, key: string) {
    call.target == Sticky(key) && key != "" && call.pooled && call.retryable && call.retryCount >= 1
  }

  /** Nobody else uses the pool, dialing does not fail and no backend accepts a stream. */
  ghost predicate NothingOpens<C>(call: Call, key: string, p: Pool<C>, events: seq<Event<C>>) {
    forall n :: 0 <= n < |events| ==>
      match events[n]
      case Acquire(dials) => VacancyDials(Exec(call, Start(p), events[..n]).pool, key, dials)
      case OpenOk => false
      case Other(_) => false
      case _ => true
  }

  /** The error of the last NewStream of a run. */
  ghost function LastOpenError<C>(call: Call, s: Sys<C>, events: seq<Event<C>>): Option<Error> {
    if events == [] then None
    else
      var front, e := events[..|events| - 1], events[|events| - 1];
      if e.OpenFailed? && HandlerEnabled(Exec(call, s, front).rpc, e) then Some(e.openErr)
      else LastOpenError(call, s, front)
  }

  /** How the RPC ends, given the number of free instances it started with. */
  ghost predicate Exhausted<C>(call: Call, key: string, free: nat, s: Sys<C>, lastErr: Option<Error>) {
    && s.rpc.pc.Returned?
    && s.rpc.newStreams == (if free < call.retryCount then free else call.retryCount)
    && s.rpc.pc.err == (if free >= call.retryCount then lastErr else Some(NoAvailableConnInstance))
    && (free >= call.retryCount ==> lastErr.Some?)
    && Unbound(s.pool.keyToID, key)
  }

  /** Each failed attempt has used up one free instance. */
  ghost predicate Trying<C>(call: Call, key: string, p: Pool<C>, s: Sys<C>, lastErr: Option<Error>) {
    && s.rpc.streams == []
    && Inv(s.pool) && DistinctIds(s.pool.instances) && !s.pool.closed
    && |s.pool.instances| <= |p.instances|
    && s.pool.keyToID - {key} == p.keyToID - {key}
    && |FreeIds(s.pool, key)| + s.rpc.newStreams == |FreeIds(p, key)|
    && match s.rpc.pc
       case Opening(a, _) => s.rpc.newStreams == a < call.retryCount
       case Connecting(a, _) =>
         && s.rpc.newStreams == a < call.retryCount && s.rpc.acquires != []
         && Last(s.rpc.acquires).key == key && Last(s.rpc.acquires).id in FreeIds(s.pool, key)
       case Returned(_) => Exhausted(call, key, |FreeIds(p, key)|, s, lastErr)
       case _ => false
  }

  lemma AcquireTries<C>(call: Call, key: string, p: Pool<C>, s: Sys<C>, lastErr: Option<Error>, dials: Dials<C>)
    requires StickyCall(call, key) && Trying(call, key, p, s, lastErr) && s.rpc.pc.Opening?
    requires VacancyDials(s.pool, key, dials)
    ensures Trying(call, key, p, DoAcquire(call, s, dials), lastErr)
  {
    hide FreeIds, GetForKey, Inv, DistinctIds, Unbound;
    ServedWhenFree(s.pool, key, dials);
    StepKeeps(s.pool, ForKey(key, dials));
    ForKeyEffect(s.pool, key, dials);
  }

  lemma FailedOpenTries<C>(call: Call, key: string, p: Pool<C>, s: Sys<C>, lastErr: Option<Error>, err: Error)
    requires StickyCall(call, key) && Trying(call, key, p, s, lastErr) && s.rpc.pc.Connecting?
    ensures Trying(call, key, p, DoOpenFailed(call, s, err), Some(err))
  {
    hide FreeIds, Inv, DistinctIds, Unbound;
    var id := Last(s.rpc.acquires).id;
    FailureTakesOne(s.pool, key, id);
    StepKeeps(s.pool, Fail(key, id));
    WithoutFirstListed(s.pool.instances, id);
  }

  lemma {:induction false} TriesOn<C>(call: Call, key: string, p: Pool<C>, events: seq<Event<C>>)
    requires StickyCall(call, key) && Inv(p) && DistinctIds(p.instances) && !p.closed
    requires NothingOpens(call, key, p, events)
    ensures Trying(call, key, p, Exec(call, Start(p), events), LastOpenError(call, Start(p), events))
    decreases |events|
  {
    hide Inv, DistinctIds, FreeIds, DoAcquire, DoOpenFailed;
    if events != [] {
      var front, e := events[..|events| - 1], events[|events| - 1];
      forall n | 0 <= n < |front| ensures front[n] == events[n] && front[..n] == events[..n] {}
      TriesOn(call, key, p, front);
      var s, lastErr := Exec(call, Start(p), front), LastOpenError(call, Start(p), front);
      if e.Acquire? && s.rpc.pc.Opening? {
        AcquireTries(call, key, p, s, lastErr, e.dials);
      }
      if e.OpenFailed? && s.rpc.pc.Connecting? {
        FailedOpenTries(call, key, p, s, lastErr, e.openErr);
      }
    }
  }

  /** Exhaustion: a sticky RPC that runs alone against f free instances, where dialing does not fail and no
      backend accepts a stream, has called NewStream exactly min(R, f) times when it returns. It
      returns the error of the last NewStream if f >= R, and otherwise what the client sees as
      RESOURCE_EXHAUSTED; it leaves its key unbound and the bindings of the other keys as they were. */
  lemma ExhaustionOutcome<C>(call: Call, key: string, pool: Pool<C>, events: seq<Event<C>>)
    requires StickyCall(call, key) && Inv(pool) && DistinctIds(pool.instances) && !pool.closed
    requires NothingOpens(call, key, pool, events)
    ensures var s, f := Exec(call, Start(pool), events), |FreeIds(pool, key)|;
      s.rpc.pc.Returned? ==>
        && s.rpc.newStreams == (if f < call.retryCount then f else call.retryCount)
        && (f >= call.retryCount ==>
              s.rpc.pc.err.Some? && s.rpc.pc.err == LastOpenError(call, Start(pool), events))
        && (f < call.retryCount ==>
              && s.rpc.pc.err == Some(NoAvailableConnInstance)
              && GatewayErrorToGRPC(s.rpc.pc.err) == Some(Status(ResourceExhausted, MSG_ALL_INSTANCES_BUSY)))
        && Unbound(s.pool.keyToID, key)
        && s.pool.keyToID - {key} == pool.keyToID - {key}
        && |FreeIds(s.pool, key)| == f - s.rpc.newStreams
  {
    hide Exec, LastOpenError;
    TriesOn(call, key, pool, events);
  }

  // ---------- exhaustion without a key ----------

  /** An RPC without a sticky key that may retry, on a dynamic cluster. */
  ghost predicate BalancedCall(call: Call) {
    call.target == Balanced && call.pooled && call.retryable && call.retryCount >= 1
  }

  /** Dialing does not fail in a round-robin call: a connection can be had to the instance in turn. The
      call asks for no other. */
  ghost predicate TurnDials<C>(p: Pool<C>, dials: Dials<C>) {
    p.instances != [] ==> Usable(p, dials, At(p, 0))
  }

  /** Nobody else uses the pool, dialing does not fail and no backend accepts a stream. */
  ghost predicate NothingOpensInTurn<C>(call: Call, p: Pool<C>, events: seq<Event<C>>) {
    forall n :: 0 <= n < |events| ==>
      match events[n]
      case Acquire(dials) => TurnDials(Exec(call, Start(p), events[..n]).pool, dials)
      case OpenOk => false
      case Other(_) => false
      case _ => true
  }

  /** An open pool serves a round-robin call exactly when it lists an instance, and then with one. */
  lemma ServedInTurn<C>(p: Pool<C>, dials: Dials<C>)
    requires Inv(p) && !p.closed && TurnDials(p, dials)
    ensures var (q, r) := GetRoundRobin(p, dials);
      && q.instances == p.instances && q.keyToID == p.keyToID && !q.closed
      && (r.Granted? <==> p.instances != [])
      && (r.Granted? ==> Listed(p.instances, r.id))
      && (r.Refused? ==> r.err == NoAvailableConnInstance)
  {
    if p.instances != [] {
      assert Skipped(p, dials, 0) == 0;
      var i := At(p, 0);
      assert GetRoundRobin(p, dials) == Turn(p, dials, i);
      assert p.instances[i].id == p.instances[i].id;
    }
  }

  /** Each failed attempt has used up one instance; no binding is touched. */
  ghost predicate TryingInTurn<C>(call: Call, p: Pool<C>, s: Sys<C>, lastErr: Option<Error>) {
    && s.rpc.streams == []
    && Inv(s.pool) && DistinctIds(s.pool.instances) && !s.pool.closed
    && s.pool.keyToID == p.keyToID
    && |s.pool.instances| + s.rpc.newStreams == |p.instances|
    && match s.rpc.pc
       case Opening(a, _) => s.rpc.newStreams == a < call.retryCount
       case Connecting(a, _) =>
         && s.rpc.newStreams == a < call.retryCount && s.rpc.acquires != []
         && Last(s.rpc.acquires).key == "" && Listed(s.pool.instances, Last(s.rpc.acquires).id)
       case Returned(err) =>
         if |p.instances| >= call.retryCount then
           s.rpc.newStreams == call.retryCount && lastErr.Some? && err == lastErr
         else s.rpc.newStreams == |p.instances| && err == Some(NoAvailableConnInstance)
       case _ => false
  }

  lemma AcquireTriesInTurn<C>(call: Call, p: Pool<C>, s: Sys<C>, lastErr: Option<Error>, dials: Dials<C>)
    requires BalancedCall(call) && TryingInTurn(call, p, s, lastErr) && s.rpc.pc.Opening? && TurnDials(s.pool, dials)
    ensures TryingInTurn(call, p, DoAcquire(call, s, dials), lastErr)
  {
    hide GetRoundRobin, Inv, DistinctIds, TurnDials;
    ServedInTurn(s.pool, dials);
    StepKeeps(s.pool, RoundRobin(dials));
  }

  lemma FailedOpenTriesInTurn<C>(call: Call, p: Pool<C>, s: Sys<C>, lastErr: Option<Error>, err: Error)
    requires BalancedCall(call) && TryingInTurn(call, p, s, lastErr) && s.rpc.pc.Connecting?
    ensures TryingInTurn(call, p, DoOpenFailed(call, s, err), Some(err))
  {
    hide Inv, DistinctIds;
    var id := Last(s.rpc.acquires).id;
    StepKeeps(s.pool, Fail("", id));
    WithoutFirstListed(s.pool.instances, id);
  }

  lemma {:induction false} TriesOnInTurn<C>(call: Call, p: Pool<C>, events: seq<Event<C>>)
    requires BalancedCall(call) && Inv(p) && DistinctIds(p.instances) && !p.closed
    requires NothingOpensInTurn(call, p, events)
    ensures TryingInTurn(call, p, Exec(call, Start(p), events), LastOpenError(call, Start(p), events))
    decreases |events|
  {
    hide Inv, DistinctIds, TurnDials, DoAcquire, DoOpenFailed;
    if events != [] {
      var front, e := events[..|events| - 1], events[|events| - 1];
      forall n | 0 <= n < |front| ensures front[n] == events[n] && front[..n] == events[..n] {}
      TriesOnInTurn(call, p, front);
      var s, lastErr := Exec(call, Start(p), front), LastOpenError(call, Start(p), front);
      if e.Acquire? && s.rpc.pc.Opening? {
        AcquireTriesInTurn(call, p, s, lastErr, e.dials);
      }
      if e.OpenFailed? && s.rpc.pc.Connecting? {
        FailedOpenTriesInTurn(call, p, s, lastErr, e.openErr);
      }
    }
  }

  /** Exhaustion of a balanced RPC that runs alone against n instances, where dialing does not fail and no
      backend accepts a stream: it has called NewStream exactly min(R, n) times when it returns, with the
      error of the last NewStream if n >= R, and otherwise with what the client sees as
      RESOURCE_EXHAUSTED; every binding is as it was. */
  lemma BalancedExhaustion<C>(call: Call, pool: Pool<C>, events: seq<Event<C>>)
    requires BalancedCall(call) && Inv(pool) && DistinctIds(pool.instances) && !pool.closed
    requires NothingOpensInTurn(call, pool, events)
    ensures var s, n := Exec(call, Start(pool), events), |pool.instances|;
      s.rpc.pc.Returned? ==>
        && s.rpc.newStreams == (if n < call.retryCount then n else call.retryCount)
        && (n >= call.retryCount ==>
              s.rpc.pc.err.Some? && s.rpc.pc.err == LastOpenError(call, Start(pool), events))
        && (n < call.retryCount ==>
              && s.rpc.pc.err == Some(NoAvailableConnInstance)
              && GatewayErrorToGRPC(s.rpc.pc.err) == Some(Status(ResourceExhausted, MSG_ALL_INSTANCES_BUSY)))
        && s.pool.keyToID == pool.keyToID && |s.pool.instances| == n - s.rpc.newStreams
  {
    hide Exec, LastOpenError;
    TriesOnInTurn(call, pool, events);
  }
}
