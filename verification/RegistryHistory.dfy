/** The HTTP handlers of the registry (MyDiscoverer/handlers) and the discoverer of the gateway that asks
    them (MyGateway/adapters/discoverer.go): what is listed, in terms of what has happened. */
module RegistryHistory {
  import opened Options
  import opened Registry
  import PoolModel
  import PoolSafety
  import PoolQuarantine

  datatype Happening =
    | Registered(instance: Instance)
    | Unregistered(id: string)
    | Passed(ms: nat)

  datatype Aged = Aged(instance: Instance, age: nat)

  /** The latest registration of an instance, unless it was unregistered since, with the time since. */
  ghost function LastRegistration(history: seq<Happening>, id: string): Option<Aged> {
    if history == [] then None
    else
      var front := history[..|history| - 1];
      match history[|history| - 1]
      case Registered(i) => if i.instanceID == id then Some(Aged(i, 0)) else LastRegistration(front, id)
      case Unregistered(x) => if x == id then None else LastRegistration(front, id)
      case Passed(ms) =>
        var last := LastRegistration(front, id);
        if last.None? then None else Some(Aged(last.value.instance, last.value.age + ms))
  }

  ghost predicate WithinLifetime(instance: Instance, age: nat) {
    Lifetime(instance.ttlMs).None? || age <= Lifetime(instance.ttlMs).value
  }

  ghost function Current(history: seq<Happening>, id: string): Option<Instance> {
    var last := LastRegistration(history, id);
    if last.Some? && WithinLifetime(last.value.instance, last.value.age) then Some(last.value.instance) else None
  }

  // ---------- the same without recursion on the state ----------

  ghost function Elapsed(history: seq<Happening>): nat {
    if history == [] then 0
    else Elapsed(history[..|history| - 1])
         + match history[|history| - 1]
           case Passed(ms) => ms
           case _ => 0
  }

  /** The n-th event registers the instance, and no later one registers or unregisters it. */
  ghost predicate LatestAt(history: seq<Happening>, n: nat, instance: Instance) {
    && n < |history| && history[n] == Registered(instance)
    && forall m :: n < m < |history| ==>
         && (history[m].Registered? ==> history[m].instance.instanceID != instance.instanceID)
         && history[m] != Unregistered(instance.instanceID)
  }

  lemma ElapsedSince(history: seq<Happening>, n: nat)
    requires n + 1 < |history|
    ensures var top := |history| - 1;
      Elapsed(history[n + 1..]) ==
        Elapsed(history[..top][n + 1..]) + if history[top].Passed? then history[top].ms else 0
  {
    var top := |history| - 1;
    assert history[n + 1..][..top - n - 1] == history[..top][n + 1..];
  }

  lemma {:induction false} LastIsLatest(history: seq<Happening>, id: string, a: Aged) returns (n: nat)
    requires LastRegistration(history, id) == Some(a)
    ensures a.instance.instanceID == id && LatestAt(history, n, a.instance) && Elapsed(history[n + 1..]) == a.age
    decreases |history|
  {
    var top := |history| - 1;
    if history[top].Registered? && history[top].instance.instanceID == id {
      n := top;
      assert history[n + 1..] == [];
    } else {
      var before := LastRegistration(history[..top], id).value;
      n := LastIsLatest(history[..top], id, before);
      ElapsedSince(history, n);
      hide Elapsed;
      forall m | n < m < top ensures history[m] == history[..top][m] {}
    }
  }

  lemma {:induction false} LatestIsLast(history: seq<Happening>, n: nat, instance: Instance)
    requires LatestAt(history, n, instance)
    ensures LastRegistration(history, instance.instanceID) == Some(Aged(instance, Elapsed(history[n + 1..])))
    decreases |history|
  {
    var top := |history| - 1;
    if n == top {
      assert history[n + 1..] == [];
    } else {
      forall m | n <= m < top ensures history[..top][m] == history[m] {}
      LatestIsLast(history[..top], n, instance);
      ElapsedSince(history, n);
      hide Elapsed;
    }
  }

  /** An instance is current with given data exactly if a registration with that data is its latest, it
      was not unregistered since, and its lifetime has not passed since. */
  lemma CurrentMeans(history: seq<Happening>, id: string, instance: Instance)
    ensures Current(history, id) == Some(instance) <==>
            && instance.instanceID == id
            && exists n :: LatestAt(history, n, instance) && WithinLifetime(instance, Elapsed(history[n + 1..]))
  {
    if LastRegistration(history, id).Some? {
      var n := LastIsLatest(history, id, LastRegistration(history, id).value);
    }
    forall n | LatestAt(history, n, instance)
      ensures LastRegistration(history, instance.instanceID) == Some(Aged(instance, Elapsed(history[n + 1..])))
    {
      LatestIsLast(history, n, instance);
    }
  }

  // ---------- the handlers ----------

  /** `fromRegisterRequest`: what is wrong with a request. */
  function RequestProblem(req: Instance): (problem: Option<string>)
    ensures problem.None? <==>
            req.instanceID != "" && req.serviceType != "" && req.ipv4 != "" && req.port != 0 && req.ttlMs > 0
    ensures problem.Some? ==>
              problem.value ==
              (if req.instanceID == "" then "instance_id" else if req.serviceType == "" then "service_type"
               else if req.ipv4 == "" then "ipv4" else if req.port == 0 then "port" else "ttl_ms") + " is required"
  {
    if req.instanceID == "" then Some("instance_id is required")
    else if req.serviceType == "" then Some("service_type is required")
    else if req.ipv4 == "" then Some("ipv4 is required")
    else if req.port == 0 then Some("port is required")
    else if req.ttlMs <= 0 then Some("ttl_ms is required")
    else None
  }

  class HTTPServer {
    const cache: RedisCache<Instance>
    ghost var history: seq<Happening>

    /** The key of an instance in Redis holds what the history says. */
    ghost predicate Stands(id: string)
      reads this, cache.client
    {
      var data, key := cache.client.data, cache.GenerateKey(id);
      match LastRegistration(history, id)
      case None => key !in data
      case Some(Aged(instance, age)) =>
        && instance.instanceID == id != ""
        && key in data && cache.codec.marshal(instance) == Some(data[key].value)
        && data[key].deadline == if Lifetime(instance.ttlMs).None? then None
                                 else Some(cache.client.now - age + Lifetime(instance.ttlMs).value)
    }

    ghost predicate Valid()
      reads this, cache.client
    {
      Faithful(cache.codec) && forall id :: Stands(id)
    }

    constructor (cache: RedisCache<Instance>)
      requires Faithful(cache.codec) && cache.client.data == map[]
      ensures Valid() && this.cache == cache && history == []
    {
      this.cache, history := cache, [];
    }

    lemma ItemIsCurrent(id: string)
      requires Valid()
      ensures cache.ItemAt(id) == Current(history, id)
      ensures Current(history, id).Some? ==> Current(history, id).value.instanceID == id != ""
    {
      assert Stands(id);
    }

    /** `RegisterInstance`. */
    method RegisterInstance(req: Instance) returns (err: Option<ServiceError>)
      requires Valid()
      modifies this`history, cache.client`data
      ensures Valid()
      ensures history == if err.None? then old(history) + [Registered(req)] else old(history)
      ensures err == if RequestProblem(req).Some? then Some(BadParameter(RequestProblem(req).value))
                     else if cache.codec.marshal(req).None? then Some(InternalServerError)
                     else None
    {
      var problem := RequestProblem(req);
      if problem.Some? {
        return Some(BadParameter(problem.value));
      }
      err := cache.WriteValue(req.instanceID, req, req.ttlMs);
      if err.Some? {
        return;
      }
      history := history + [Registered(req)];
      forall id ensures Stands(id) {
        assert old(Stands(id));
        cache.KeysDiffer(id, req.instanceID);
        Snoc(old(history), Registered(req), id);
      }
    }

    /** `UnregisterInstance`. */
    method UnregisterInstance(instanceID: string)
      requires Valid()
      modifies this`history, cache.client`data
      ensures Valid() && history == old(history) + [Unregistered(instanceID)]
    {
      cache.DeleteValue(instanceID);
      history := history + [Unregistered(instanceID)];
      forall id ensures Stands(id) {
        assert old(Stands(id));
        cache.KeysDiffer(id, instanceID);
        Snoc(old(history), Unregistered(instanceID), id);
      }
    }

    method Wait(ms: nat)
      requires Valid()
      modifies this`history, cache.client`now
      ensures Valid() && history == old(history) + [Passed(ms)]
    {
      cache.client.Wait(ms);
      history := history + [Passed(ms)];
      forall id ensures Stands(id) {
        assert old(Stands(id));
        Snoc(old(history), Passed(ms), id);
      }
    }

    /** `GetInstances`: exactly the current registrations, each once, or an error when there are none. */
    method GetInstances() returns (r: Reply<seq<Instance>>)
      requires Valid()
      ensures match r
              case Done(items) =>
                && items != []
                && (forall i: Instance :: i in items <==> Current(history, i.instanceID) == Some(i))
                && (forall i, j :: 0 <= i < j < |items| ==> items[i].instanceID != items[j].instanceID)
                && (forall i :: 0 <= i < |items| ==> items[i].instanceID != "")
              case Failed(err) => err == EntityNotFound && forall id :: Current(history, id).None?
    {
      ghost var order;
      r, order := cache.ListAllValues();
      forall id ensures cache.ItemAt(id) == Current(history, id)
                && (Current(history, id).Some? ==> Current(history, id).value.instanceID == id != "")
      {
        ItemIsCurrent(id);
      }
      if r.Done? {
        forall i: Instance | Current(history, i.instanceID) == Some(i) ensures i in r.value {
          var n :| 0 <= n < |order| && order[n] == i.instanceID;
          assert r.value[n] == i;
        }
      }
    }

    /** The gateway's `discovererHTTP.GetInstances`: no instances is an empty list, not an error. What it
        returns is fit for the pool: the IDs are distinct and not empty. */
    method Snapshot() returns (snapshot: seq<PoolModel.Instance>)
      requires Valid()
      ensures PoolModel.DistinctIds(snapshot)
      ensures forall id :: PoolModel.Listed(snapshot, id) <==> Current(history, id).Some?
      ensures forall i :: 0 <= i < |snapshot| ==> snapshot[i].id != ""
      ensures forall i :: 0 <= i < |snapshot| ==>
                Current(history, snapshot[i].id).Some?
                && snapshot[i].ipv4 == Current(history, snapshot[i].id).value.ipv4
                && snapshot[i].port == Current(history, snapshot[i].id).value.port
    {
      snapshot := [];
      var r := GetInstances();
      if r.Failed? {
        return;
      }
      var items := r.value;
      for i := 0 to |items|
        invariant |snapshot| == i
        invariant forall j :: 0 <= j < i ==>
                    snapshot[j] == PoolModel.Instance(items[j].instanceID, items[j].ipv4, items[j].port)
      {
        snapshot := snapshot + [PoolModel.Instance(items[i].instanceID, items[i].ipv4, items[i].port)];
      }
      forall id ensures PoolModel.Listed(snapshot, id) <==> Current(history, id).Some? {
        ItemIsCurrent(id);
        if Current(history, id).Some? {
          var i :| 0 <= i < |items| && items[i] == Current(history, id).value;
          assert snapshot[i].id == id;
        }
        if PoolModel.Listed(snapshot, id) {
          var i :| 0 <= i < |snapshot| && snapshot[i].id == id;
          assert items[i] in items;
        }
      }
      forall i | 0 <= i < |snapshot| ensures Current(history, snapshot[i].id) == Some(items[i]) {
        assert items[i] in items;
      }
    }
  }

  lemma Snoc(history: seq<Happening>, e: Happening, id: string)
    ensures LastRegistration(history + [e], id) ==
            match e
            case Registered(i) => if i.instanceID == id then Some(Aged(i, 0)) else LastRegistration(history, id)
            case Unregistered(x) => if x == id then None else LastRegistration(history, id)
            case Passed(ms) =>
              var last := LastRegistration(history, id);
              if last.None? then None else Some(Aged(last.value.instance, last.value.age + ms))
  {
    assert (history + [e])[..|history|] == history;
  }

  // ---------- failed instances ----------

  ghost predicate Reregistered(events: seq<Happening>, id: string) {
    exists n :: 0 <= n < |events| && events[n].Registered? && events[n].instance.instanceID == id
  }

  /** Once unregistered, an instance is not current until it registers again. */
  lemma {:induction false} StaysUnregistered(history: seq<Happening>, id: string, later: seq<Happening>)
    requires !Reregistered(later, id)
    ensures LastRegistration(history + [Unregistered(id)] + later, id) == None
    decreases |later|
  {
    var start := history + [Unregistered(id)];
    if later == [] {
      assert start + later == start;
      Snoc(history, Unregistered(id), id);
    } else {
      var front, e := later[..|later| - 1], later[|later| - 1];
      assert !Reregistered(front, id) by {
        forall n | 0 <= n < |front| ensures !(front[n].Registered? && front[n].instance.instanceID == id) {
          assert front[n] == later[n];
        }
      }
      StaysUnregistered(history, id, front);
      assert start + later == start + front + [e];
      Snoc(start + front, e, id);
    }
  }

  /** A snapshot as the discoverer takes it from the registry. */
  ghost predicate SnapshotOf(history: seq<Happening>, snapshot: seq<PoolModel.Instance>) {
    && PoolModel.DistinctIds(snapshot)
    && forall id :: PoolModel.Listed(snapshot, id) <==> Current(history, id).Some?
  }

  /** Quarantine across the two services: after a reported failure, whose request to unregister the
      instance took effect, no getter of the pool grants it, however often the pool is refreshed, as long
      as each snapshot was taken after that from a registry in which the instance did not register
      again. */
  lemma {:induction false} FailedStaysAway<C>(
    p: PoolModel.Pool<C>, key: string, id: string, steps: seq<PoolModel.Step<C>>, s: PoolModel.Step<C>,
    granted: PoolModel.Reply<C>, history: seq<Happening>, later: seq<Happening>)
    requires PoolSafety.Inv(p) && PoolModel.DistinctIds(p.instances) && !Reregistered(later, id)
    requires forall n :: 0 <= n < |steps| && steps[n].Refresh? ==>
               exists m :: 0 <= m <= |later| && SnapshotOf(history + [Unregistered(id)] + later[..m], steps[n].snapshot)
    requires PoolModel.Answer(PoolModel.Run(PoolModel.OnBackendFailure(p, key, id), steps), s) == Some(granted)
    requires granted.Granted?
    ensures granted.id != id
  {
    forall n | 0 <= n < |steps| ensures !PoolSafety.Relists(steps[n], id) {
      if steps[n].Refresh? {
        var m :| 0 <= m <= |later| && SnapshotOf(history + [Unregistered(id)] + later[..m], steps[n].snapshot);
        assert !Reregistered(later[..m], id);
        StaysUnregistered(history, id, later[..m]);
      }
    }
    PoolSafety.WithoutFirstListed(p.instances, id);
    PoolSafety.FailureDelistsExactly(p.instances, id);
    PoolSafety.Quarantine(p, key, id, steps, s, granted);
  }

  /** When that request failed, which the pool ignores, the instance is still current: the next refresh
      lists it, and some round-robin call grants it again. */
  lemma FailedMayReturn<C>(p: PoolModel.Pool<C>, key: string, id: string, c: C, history: seq<Happening>,
                           snapshot: seq<PoolModel.Instance>)
    returns (steps: seq<PoolModel.Step<C>>, s: PoolModel.Step<C>, granted: PoolModel.Reply<C>)
    requires PoolSafety.Inv(p) && !p.closed && SnapshotOf(history, snapshot) && Current(history, id).Some?
    ensures PoolQuarantine.OnlyRoundRobin(steps) && s.RoundRobin?
    ensures var q := PoolModel.ApplyRefresh(PoolModel.OnBackendFailure(p, key, id), snapshot);
      PoolModel.Answer(PoolModel.Run(q, steps), s) == Some(granted) && granted.Granted? && granted.id == id
  {
    var failed := PoolModel.OnBackendFailure(p, key, id);
    var q := PoolModel.ApplyRefresh(failed, snapshot);
    PoolSafety.FailKeeps(p, key, id);
    PoolSafety.RefreshKeeps(failed, snapshot);
    var i: nat :| i < |snapshot| && snapshot[i].id == id;
    var none: seq<PoolModel.Step<C>> := [];
    assert PoolModel.Run(q, none) == q;
    hide PoolModel.Run, Current;
    steps, s, granted := PoolQuarantine.ComesRound(q, i, c, q, none);
  }
}
