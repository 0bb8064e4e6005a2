/** The connection pool in the form of its source: an object that updates its fields in place. Each
    method is proved to be one step of PoolModel, so that PoolSafety, PoolCapacity and PoolFairness
    speak about it. What the latter two ask of the dials of a call, the getters ensure as long as the
    factory refuses no connection (`VacancyDials`), or none to the instances that are up (`DialsMatch`).
    The mutex is the atomicity of a method call. */
module ConnectionPools {
  import opened Options
  import opened GatewayErrors
  import opened PoolModel
  import opened PoolSafety
  import opened PoolCapacity
  import opened PoolFairness

  /** A gRPC client connection, as far as the pool is concerned: which instance it leads to, and how often
      it was closed. */
  class Connection {
    const instance: Instance
    var closes: nat

    constructor (instance: Instance)
      ensures this.instance == instance && closes == 0
    {
      this.instance, closes := instance, 0;
    }

    method Close()
      modifies this
      ensures closes == old(closes) + 1
    {
      closes := closes + 1;
    }
  }

  /** The injected factory: a fresh connection to the instance, or an error. */
  method Factory(instance: Instance) returns (conn: Option<Connection>)
    ensures conn.Some? ==> fresh(conn.value) && conn.value.closes == 0 && conn.value.instance == instance
  {
    if * {
      conn := None;
    } else {
      var c := new Connection(instance);
      conn := Some(c);
    }
  }

  // ---------- the scans, from the loops' point of view ----------

  /** The position a scan stops at is the first one that is free and usable. */
  lemma {:induction false} StopsAtFirstFree<C>(p: Pool<C>, key: string, dials: Dials<C>, i: nat, r: nat)
    requires i <= r <= |p.instances|
    requires forall j :: i <= j < r ==>
               AssignedToOther(p.keyToID, p.instances[j].id, key) || !Usable(p, dials, j)
    requires r < |p.instances| ==>
               !AssignedToOther(p.keyToID, p.instances[r].id, key) && Usable(p, dials, r)
    ensures FirstFree(p, key, dials, i) == r
    decreases r - i
  {
    if i < r {
      StopsAtFirstFree(p, key, dials, i + 1, r);
    }
  }

  /** What a key without a live binding is answered, once the scan has stopped at position i. */
  lemma StoppedForKey<C>(p: Pool<C>, key: string, dials: Dials<C>, i: nat)
    requires !p.closed && key != "" && !LiveBinding(p, key)
    requires i == FirstFree(DropStale(p, key), key, dials, 0)
    ensures i < |p.instances| ==> Usable(DropStale(p, key), dials, i)
    ensures GetForKey(p, key, dials) ==
            if i == |p.instances| then (DropStale(p, key), Refused(NoAvailableConnInstance))
            else
              var (r, c) := Attach(DropStale(p, key), dials, i);
              var id := p.instances[i].id;
              (r.(keyToID := r.keyToID[key := id]), Granted(c, id))
  {
    FirstFreeIsFirst(DropStale(p, key), key, dials, 0);
  }

  /** A scan that stopped at position i, having passed over occupied instances only, met no failing dial. */
  lemma VacancyMet<C>(p: Pool<C>, key: string, dials: Dials<C>, i: nat)
    requires i <= |p.instances|
    requires i < |p.instances| ==>
               && !AssignedToOther(DropStale(p, key).keyToID, p.instances[i].id, key)
               && Usable(DropStale(p, key), dials, i)
    ensures (forall j :: 0 <= j < i ==> AssignedToOther(DropStale(p, key).keyToID, p.instances[j].id, key)) ==>
              VacancyDials(p, key, dials)
  {
    forall j | 0 <= j < |p.instances|
      ensures AssignedToOther(DropStale(p, key).keyToID, p.instances[j].id, key)
          <==> AssignedToOther(p.keyToID, p.instances[j].id, key)
    {
      OthersKept(p, key, p.instances[j].id);
    }
  }

  lemma LiveNeedsNoDial<C>(p: Pool<C>, key: string, dials: Dials<C>)
    requires LiveBinding(p, key)
    ensures VacancyDials(p, key, dials)
  {
  }

  /** The factory refused the instances at the first i turns. */
  ghost predicate TurnsRefused<C>(p: Pool<C>, i: nat, refused: seq<string>) {
    p.instances != [] && forall j :: 0 <= j < i ==> p.instances[At(p, j)].id in refused
  }

  /** None of the refused instances is in `up`. */
  ghost predicate Spares(refused: seq<string>, up: set<string>) {
    forall id :: id in refused ==> id !in up
  }

  lemma UsableIsReachable<C>(p: Pool<C>, up: set<string>, dials: Dials<C>, x: nat)
    requires x < |p.instances| && OnlyUp(p, dials, up) && Usable(p, dials, x)
    ensures Reachable(p, up, x)
  {
  }

  /** A scan whose first i turns were refused and whose next one is usable went as `up` says, for every
      `up` that holds the instance dialed and none refused. */
  lemma MatchesUp<C>(p: Pool<C>, dials: Dials<C>, i: nat, refused: seq<string>)
    requires p.instances != [] && i <= |p.instances| && TurnsRefused(p, i, refused)
    requires forall j :: 0 <= j < i ==> !Usable(p, dials, At(p, j))
    requires i < |p.instances| ==> Usable(p, dials, At(p, i))
    ensures forall up :: OnlyUp(p, dials, up) && Spares(refused, up) ==> DialsMatch(p, dials, up)
  {
    forall up, j | OnlyUp(p, dials, up) && Spares(refused, up) && FirstReachable(p, up, j)
      ensures Usable(p, dials, At(p, j))
    {
      if i < |p.instances| {
        UsableIsReachable(p, up, dials, At(p, i));
      }
    }
  }

  /** The number of turns a scan skips is the first that leads to a usable position. */
  lemma {:induction false} StopsAfterSkipped<C>(p: Pool<C>, dials: Dials<C>, k: nat, r: nat)
    requires k <= r <= |p.instances|
    requires forall j :: k <= j < r ==> !Usable(p, dials, At(p, j))
    requires r < |p.instances| ==> Usable(p, dials, At(p, r))
    ensures Skipped(p, dials, k) == r
    decreases r - k
  {
    if k < r {
      StopsAfterSkipped(p, dials, k + 1, r);
    }
  }

  /** A scan that starts at the index and wraps around visits no position twice. */
  lemma AtInjective<C>(p: Pool<C>, j: nat, k: nat)
    requires Inv(p) && j < k < |p.instances|
    ensures At(p, j) != At(p, k)
  {
    ModOnce(p.rr + j, |p.instances|);
    ModOnce(p.rr + k, |p.instances|);
  }

  class ConnectionPool {
    var instances: seq<Instance>
    var keyToID: map<string, string>
    var instanceConn: map<string, Connection>
    var rr: nat
    var closed: bool
    ghost var view: Pool<Connection>  // the pool as a state of PoolModel, with its histories
    ghost var made: set<Connection>   // every connection the factory returned
    ghost var refusals: seq<string>   // the instances the factory returned an error for

    ghost predicate Represents()
      reads this
    {
      && instances == view.instances && keyToID == view.keyToID && instanceConn == view.instanceConn
      && rr == view.rr && closed == view.closed
    }

    /** Each connection leads to the instance it is kept for, and has been closed as often as the history
        says. */
    ghost predicate Faithful()
      reads this`view, this`made, made
    {
      forall e :: e in view.dialed ==>
        e.conn in made && e.conn.instance.id == e.id && e.conn.closes == view.released[e]
    }

    ghost predicate Valid()
      reads this, made
    {
      Represents() && Inv(view) && DistinctConns(view.dialed) && Faithful()
    }

    /** The connection was made for the instance: if it is not one of the earlier ones, for an entry of the
        list, address included. */
    ghost predicate LeadsTo(conn: Connection, id: string, earlier: set<Connection>)
      reads this`instances
    {
      conn.instance.id == id && (conn !in earlier ==> conn.instance in instances)
    }

    lemma CachedLeads(id: string)
      requires Valid() && id in instanceConn
      ensures LeadsTo(instanceConn[id], id, made)
    {
      CachedWasDialed(view);
      assert Entry(id, instanceConn[id]) in view.dialed;
    }

    /** Every connection the factory returned is open while it is cached and closed exactly once
        otherwise; once the pool is closed, that is all of them. */
    lemma OpenExactlyWhileCached()
      requires Valid()
      ensures forall e :: e in view.dialed ==> e.conn.closes == if Cached(view, e) then 0 else 1
      ensures closed ==> forall e :: e in view.dialed ==> e.conn.closes == 1
    {
      Accounts(view);
    }

    /** `NewConnectionPool` up to the refresh goroutine: an empty pool, refreshed once. */
    constructor (first: Option<seq<Instance>>)
      ensures Valid() && fresh(made)
      ensures view == if first.Some? then ApplyRefresh(EmptyPool(), first.value) else EmptyPool()
    {
      instances, keyToID, instanceConn, rr, closed := [], map[], map[], 0, false;
      view, made, refusals := EmptyPool(), {}, [];
      new;
      EmptyInv<Connection>();
      RefreshPool(first);
    }

    /** `refresh`, given what the discoverer answered. */
    method RefreshPool(answer: Option<seq<Instance>>)
      requires Valid()
      modifies this, made
      ensures Valid() && made == old(made)
      ensures view == if answer.Some? then ApplyRefresh(old(view), answer.value) else old(view)
    {
      if answer.Some? {
        Apply(answer.value);
      }
    }

    /** The part of `refresh` under the mutex. */
    method Apply(snapshot: seq<Instance>)
      requires Valid()
      modifies this, made
      ensures Valid() && made == old(made) && view == ApplyRefresh(old(view), snapshot)
    {
      hide Inv, DistinctConns, Entries, Unlinked;
      var seen := SeenIds(snapshot);
      CachedConns();
      ghost var conns := instanceConn;
      ghost var gone := DropUnseen(seen);
      Restricted(conns, snapshot, gone);
      instances := snapshot;
      if rr >= |instances| {
        rr := 0;
      }
      RefreshKeeps(view, snapshot);
      Advance(ApplyRefresh(view, snapshot), Outside(conns, snapshot));
    }

    static method SeenIds(snapshot: seq<Instance>) returns (seen: set<string>)
      ensures forall id :: id in seen <==> Listed(snapshot, id)
    {
      seen := {};
      for i := 0 to |snapshot|
        invariant forall id :: id in seen <==> exists j :: 0 <= j < i && snapshot[j].id == id
      {
        seen := seen + {snapshot[i].id};
      }
    }

    /** The loop of `refresh` over the cached connections, which deletes from the map it ranges over. */
    method DropUnseen(seen: set<string>) returns (ghost gone: set<string>)
      requires InjectiveConns(instanceConn) && forall id :: id in instanceConn ==> instanceConn[id].closes == 0
      modifies this`instanceConn, this`keyToID, instanceConn.Values
      ensures forall id :: id in gone <==> id in old(instanceConn) && id !in seen
      ensures instanceConn == old(instanceConn) - gone
      ensures keyToID == Unlinked(old(keyToID), gone)
      ensures forall id :: id in old(instanceConn) ==> old(instanceConn)[id].closes == if id in gone then 1 else 0
    {
      hide Unlinked, InjectiveConns;
      ghost var conns, keys := instanceConn, keyToID;
      gone := {};
      UnlinkNone(keys);
      var todo := instanceConn.Keys;
      while todo != {}
        invariant forall id :: id in todo ==> id in conns && id !in gone
        invariant forall id :: id in conns && id !in todo ==> (id in gone <==> id !in seen)
        invariant gone <= conns.Keys
        invariant instanceConn == conns - gone
        invariant keyToID == Unlinked(keys, gone)
        invariant forall id :: id in conns ==> conns[id].closes == if id in gone then 1 else 0
        decreases |todo|
      {
        var id :| id in todo;
        todo := todo - {id};
        if id !in seen {
          OthersDiffer(conns, id);
          DropInstance(id);
          forall x | x in conns ensures conns[x].closes == if x in gone || x == id then 1 else 0 {
            assert x != id ==> conns[x] != conns[id];
          }
          UnlinkMore(keys, gone, id);
          DropMore(conns, gone, id);
          gone := gone + {id};
        }
      }
    }

    method DropInstance(id: string)
      requires id in instanceConn
      modifies this`instanceConn, this`keyToID, instanceConn[id]
      ensures instanceConn == old(instanceConn) - {id}
      ensures keyToID == Unlinked(old(keyToID), {id})
      ensures old(instanceConn[id]).closes == old(instanceConn[id].closes) + 1
    {
      instanceConn[id].Close();
      instanceConn := instanceConn - {id};
      RemoveBindings(id);
    }

    /** The inner loop of `refresh`. */
    method RemoveBindings(id: string)
      modifies this`keyToID
      ensures keyToID == Unlinked(old(keyToID), {id})
    {
      var todo := keyToID.Keys;
      while todo != {}
        invariant todo <= old(keyToID).Keys
        invariant keyToID == map k | k in old(keyToID) && (k in todo || old(keyToID)[k] != id) :: old(keyToID)[k]
        decreases |todo|
      {
        var key :| key in todo;
        todo := todo - {key};
        if keyToID[key] == id {
          keyToID := keyToID - {key};
        }
      }
    }

    method GetConnectionRoundRobin() returns (reply: Reply<Connection>, ghost dials: Dials<Connection>)
      requires Valid()
      modifies this
      ensures Valid() && old(made) <= made && fresh(made - old(made))
      ensures (view, reply) == GetRoundRobin(old(view), dials)
      ensures reply.Granted? ==> LeadsTo(reply.conn, reply.id, old(made))
      ensures FreshDials(old(view), RoundRobin(dials))
      ensures old(refusals) <= refusals
      ensures forall up :: !closed && OnlyUp(old(view), dials, up) && Spares(refusals[|old(refusals)|..], up) ==>
                DialsMatch(old(view), dials, up)
    {
      hide Inv, DistinctConns, Skipped, Usable, Attach, Faithful, LeadsTo;
      ghost var before := view;
      dials := seq(|instances|, i => None);
      if closed {
        return Refused(ConnPoolClosed), dials;
      }
      if |instances| == 0 {
        return Refused(NoAvailableConnInstance), dials;
      }
      for i := 0 to |instances|
        invariant view == before && Valid() && made == old(made) && old(refusals) <= refusals
        invariant |dials| == |instances| && forall j :: 0 <= j < |dials| ==> dials[j].None?
        invariant forall j :: 0 <= j < i ==> !Usable(before, dials, At(before, j))
        invariant TurnsRefused(before, i, refusals[|old(refusals)|..])
      {
        var idx := (rr + i) % |instances|;
        var inst := instances[idx];
        forall j | 0 <= j < i ensures At(before, j) != idx {
          AtInjective(before, j, i);
        }
        assert idx == At(before, i);
        var conn;
        ghost var tried;
        ghost var refused := refusals[|old(refusals)|..];
        conn, tried := GetOrCreateConnLocked(inst, idx, dials);
        forall j | 0 <= j < i ensures !Usable(before, tried, At(before, j)) {
          UsableElsewhere(before, dials, tried, idx, At(before, j));
        }
        dials := tried;
        if conn.None? {
          assert refusals[|old(refusals)|..] == refused + [inst.id];
          continue;
        }
        StopsAfterSkipped(before, dials, 0, i);
        MatchesUp(before, dials, i, refusals[|old(refusals)|..]);
        RoundRobinKeeps(before, dials);
        MoveOn((idx + 1) % |instances|);
        return Granted(conn.value, inst.id), dials;
      }
      StopsAfterSkipped(before, dials, 0, |instances|);
      MatchesUp(before, dials, |instances|, refusals[|old(refusals)|..]);
      return Refused(NoAvailableConnInstance), dials;
    }

    method GetConnectionForKey(key: string) returns (reply: Reply<Connection>, ghost dials: Dials<Connection>)
      requires Valid()
      modifies this
      ensures Valid() && old(made) <= made && fresh(made - old(made))
      ensures (view, reply) == GetForKey(old(view), key, dials)
      ensures reply.Granted? ==> LeadsTo(reply.conn, reply.id, old(made))
      ensures FreshDials(old(view), ForKey(key, dials))
      ensures old(refusals) <= refusals
      ensures !closed && key != "" && refusals == old(refusals) ==> VacancyDials(old(view), key, dials)
      ensures !closed && key != "" && refusals == old(refusals) && DistinctIds(instances) ==>
                (reply.Refused? <==> !LiveBinding(old(view), key) && |OthersBound(old(view), key)| == |instances|)
    {
      hide Inv, DistinctConns, FirstFree, Usable, Attach, AssignedToOther, Faithful, VacancyDials, LeadsTo;
      ghost var before := view;
      dials := seq(|instances|, i => None);
      if closed {
        return Refused(ConnPoolClosed), dials;
      }
      if key == "" {
        return Refused(NoAvailableConnInstance), dials;
      }
      var id := if key in keyToID then keyToID[key] else "";
      if id != "" {
        if id in instanceConn {
          LiveNeedsNoDial(view, key, dials);
          CachedLeads(id);
          return Granted(instanceConn[id], id), dials;
        }
        Unassign(key);
      }
      reply, dials := AssignFree(key, before);
      ForKeyEffect(before, key, dials);
      if refusals == old(refusals) && DistinctIds(instances) {
        hide LiveBinding, OthersBound, GetForKey;
        CapacityIsExact(before, key, dials);
      }
    }

    /** The loop of `GetConnectionForKey`, for a key without a binding. */
    method AssignFree(key: string, ghost before: Pool<Connection>)
      returns (reply: Reply<Connection>, ghost dials: Dials<Connection>)
      requires Valid() && !closed && key != "" && Inv(before) && !before.closed
      requires !LiveBinding(before, key) && view == DropStale(before, key)
      modifies this
      ensures Valid() && old(made) <= made && fresh(made - old(made))
      ensures (view, reply) == GetForKey(before, key, dials)
      ensures reply.Granted? ==> LeadsTo(reply.conn, reply.id, old(made))
      ensures FreshDials(before, ForKey(key, dials))
      ensures old(refusals) <= refusals && (refusals == old(refusals) ==> VacancyDials(before, key, dials))
    {
      hide Inv, DistinctConns, FirstFree, Usable, Attach, AssignedToOther, Faithful, VacancyDials, GetForKey, LeadsTo;
      dials := seq(|instances|, i => None);
      ghost var dropped := DropStale(before, key);
      for i := 0 to |instances|
        invariant view == dropped && Valid() && made == old(made) && old(refusals) <= refusals
        invariant refusals == old(refusals) ==>
                    forall j :: 0 <= j < i ==> AssignedToOther(dropped.keyToID, dropped.instances[j].id, key)
        invariant |dials| == |instances| && forall j :: 0 <= j < |dials| ==> dials[j].None?
        invariant forall j :: 0 <= j < i ==>
                    AssignedToOther(dropped.keyToID, dropped.instances[j].id, key) || !Usable(dropped, dials, j)
      {
        var inst := instances[i];
        var taken := IsInstanceAssignedToOtherKey(inst.id, key);
        if taken {
          continue;
        }
        var conn;
        ghost var tried;
        conn, tried := GetOrCreateConnLocked(inst, i, dials);
        forall j | 0 <= j < i ensures Usable(dropped, tried, j) == Usable(dropped, dials, j) {
          UsableElsewhere(dropped, dials, tried, i, j);
        }
        dials := tried;
        if conn.None? {
          continue;
        }
        StopsAtFirstFree(dropped, key, dials, 0, i);
        StoppedForKey(before, key, dials, i);
        VacancyMet(before, key, dials, i);
        ForKeyKeeps(before, key, dials);
        Bind(key, inst.id);
        return Granted(conn.value, inst.id), dials;
      }
      StopsAtFirstFree(dropped, key, dials, 0, |instances|);
      StoppedForKey(before, key, dials, |instances|);
      VacancyMet(before, key, dials, |instances|);
      return Refused(NoAvailableConnInstance), dials;
    }

    method MoveOn(next: nat)
      requires Valid() && Inv(view.(rr := next))
      modifies this`rr, this`view
      ensures Valid() && view == old(view).(rr := next)
    {
      rr := next;
      view := view.(rr := next);
    }

    method Unassign(key: string)
      requires Valid() && !closed
      modifies this`keyToID, this`view
      ensures Valid() && view == old(view).(keyToID := old(view).keyToID - {key})
    {
      hide DistinctConns;
      keyToID := keyToID - {key};
      view := view.(keyToID := keyToID);
      RebindKeeps(old(view), keyToID);
    }

    method Bind(key: string, id: string)
      requires Valid() && Inv(view.(keyToID := view.keyToID[key := id]))
      modifies this`keyToID, this`view
      ensures Valid() && view == old(view).(keyToID := old(view).keyToID[key := id])
    {
      keyToID := keyToID[key := id];
      view := view.(keyToID := keyToID);
    }

    method IsInstanceAssignedToOtherKey(instanceID: string, excludeKey: string) returns (taken: bool)
      ensures taken <==> AssignedToOther(keyToID, instanceID, excludeKey)
    {
      var todo := keyToID.Keys;
      while todo != {}
        invariant todo <= keyToID.Keys
        invariant forall k :: k in keyToID && k !in todo ==> k == excludeKey || keyToID[k] != instanceID
        decreases |todo|
      {
        var k :| k in todo;
        todo := todo - {k};
        if k != excludeKey && keyToID[k] == instanceID {
          return true;
        }
      }
      return false;
    }

    /** `getOrCreateConnLocked` for the instance at position i: the cached connection, or a new one
        that is cached, or none. What the factory answered is entered into the dials of the call. */
    method GetOrCreateConnLocked(inst: Instance, ghost i: nat, ghost dials: Dials<Connection>)
      returns (conn: Option<Connection>, ghost tried: Dials<Connection>)
      requires Valid() && !closed
      requires i < |dials| == |instances| && instances[i] == inst
      requires forall j :: 0 <= j < |dials| ==> dials[j].None?
      modifies this`instanceConn, this`view, this`made, this`refusals
      ensures refusals == if conn.Some? then old(refusals) else old(refusals) + [inst.id]
      ensures Valid() && old(made) <= made && fresh(made - old(made))
      ensures |tried| == |dials| && forall j :: 0 <= j < |dials| && j != i ==> tried[j] == dials[j]
      ensures DialsFresh(old(view), tried)
      ensures conn.Some? <==> Usable(old(view), tried, i)
      ensures conn.Some? ==> (view, conn.value) == Attach(old(view), tried, i)
      ensures conn.Some? ==> LeadsTo(conn.value, inst.id, old(made))
      ensures conn.None? ==> view == old(view) && made == old(made) && tried == dials
    {
      tried := dials;
      if inst.id in instanceConn {
        CachedLeads(inst.id);
        return Some(instanceConn[inst.id]), tried;
      }
      conn := Factory(inst);
      if conn.None? {
        refusals := refusals + [inst.id];
        return;
      }
      tried := dials[i := conn];
      AttachKeeps(view, tried, i);
      ReleasedWasDialed(view, Entry(inst.id, conn.value));
      instanceConn := instanceConn[inst.id := conn.value];
      view := Attach(view, tried, i).0;
      made := made + {conn.value};
    }

    method OnBackendFailure(key: string, instanceID: string)
      requires Valid()
      modifies this, made
      ensures Valid() && made == old(made)
      ensures view == PoolModel.OnBackendFailure(old(view), key, instanceID)
    {
      hide Inv, DistinctConns, WithoutFirst, Entries;
      CachedConns();
      if key != "" {
        keyToID := keyToID - {key};
      }
      ghost var gone := Evict(instanceID);
      RemoveInstance(instanceID);
      FailKeeps(view, key, instanceID);
      Advance(PoolModel.OnBackendFailure(view, key, instanceID), gone);
    }

    /** Closes and drops the connection of an instance, if there is one. */
    method Evict(instanceID: string) returns (ghost gone: map<string, Connection>)
      requires InjectiveConns(instanceConn) && forall id :: id in instanceConn ==> instanceConn[id].closes == 0
      modifies this`instanceConn, instanceConn.Values
      ensures gone == Only(old(instanceConn), instanceID)
      ensures instanceConn == old(instanceConn) - {instanceID}
      ensures forall id :: id in old(instanceConn) ==> old(instanceConn)[id].closes == if id in gone then 1 else 0
    {
      gone := Only(instanceConn, instanceID);
      if instanceID in instanceConn {
        instanceConn[instanceID].Close();
      }
      instanceConn := instanceConn - {instanceID};
    }

    /** The loop of `OnBackendFailure`: cuts the first entry for the ID out of the list. */
    method RemoveInstance(instanceID: string)
      modifies this`instances, this`rr
      ensures instances == WithoutFirst(old(instances), instanceID)
      ensures rr == if |instances| < |old(instances)| then ResetIfBeyond(old(rr), |instances|) else old(rr)
    {
      for i := 0 to |instances|
        invariant instances == old(instances) && rr == old(rr)
        invariant forall j :: 0 <= j < i ==> instances[j].id != instanceID
      {
        if instances[i].id == instanceID {
          CutAtFirst(instances, instanceID, i);
          instances := instances[..i] + instances[i + 1..];
          if rr >= |instances| {
            rr := 0;
          }
          return;
        }
      }
      CutAtFirst(instances, instanceID, |instances|);
    }

    method Close()
      requires Valid()
      modifies this, made
      ensures Valid() && made == old(made)
      ensures view == ClosePool(old(view))
    {
      if closed {
        return;
      }
      hide Inv, DistinctConns, Entries;
      CachedConns();
      CloseAll();
      CloseKeeps(view);
      ghost var gone := instanceConn;
      closed, instanceConn, keyToID := true, map[], map[];
      Advance(ClosePool(view), gone);
    }

    method CloseAll()
      requires InjectiveConns(instanceConn) && forall id :: id in instanceConn ==> instanceConn[id].closes == 0
      modifies instanceConn.Values
      ensures forall id :: id in instanceConn ==> instanceConn[id].closes == 1
    {
      var todo := instanceConn.Keys;
      while todo != {}
        invariant todo <= instanceConn.Keys
        invariant forall id :: id in instanceConn ==> instanceConn[id].closes == if id in todo then 0 else 1
        decreases |todo|
      {
        var id :| id in todo;
        todo := todo - {id};
        instanceConn[id].Close();
      }
    }

    /** Records a step that closed the connections in `gone`, which were cached until then. */
    ghost method Advance(next: Pool<Connection>, gone: map<string, Connection>)
      requires Inv(view) && Inv(next) && DistinctConns(view.dialed)
      requires next.dialed == view.dialed && next.released == view.released + multiset(Entries(gone))
      requires forall id :: id in gone ==> id in view.instanceConn && gone[id] == view.instanceConn[id]
      requires forall id :: id in view.instanceConn ==>
                 view.instanceConn[id].closes == if id in gone then 1 else 0
      requires forall e :: e in view.dialed ==>
                 && e.conn in made && e.conn.instance.id == e.id
                 && (!Cached(view, e) ==> e.conn.closes == view.released[e])
      requires instances == next.instances && keyToID == next.keyToID && instanceConn == next.instanceConn
      requires rr == next.rr && closed == next.closed
      modifies this`view
      ensures Valid() && view == next
    {
      Accounts(view);
      ReleasedAfter(view, gone);
      view := next;
    }

    /** The cached connections are distinct, and made by the factory. */
    lemma CachedConns()
      requires Valid()
      ensures InjectiveConns(instanceConn) && instanceConn.Values <= made
      ensures forall id :: id in instanceConn ==> instanceConn[id].closes == 0
      ensures forall e :: e in view.dialed && !Cached(view, e) ==> e.conn !in instanceConn.Values
    {
      Accounts(view);
      CachedWasDialed(view);
      forall id | id in instanceConn ensures instanceConn[id].closes == 0 {
        assert Cached(view, Entry(id, instanceConn[id]));
      }
      forall e | e in view.dialed && e.conn in instanceConn.Values ensures Cached(view, e) {
        var id :| id in instanceConn && instanceConn[id] == e.conn;
        assert Entry(id, e.conn) in view.dialed;
      }
    }
  }

  lemma OthersDiffer<C>(conns: map<string, C>, id: string)
    requires InjectiveConns(conns) && id in conns
    ensures forall x :: x in conns && x != id ==> conns[x] != conns[id]
  {
  }

  lemma UnlinkNone(keyToID: map<string, string>)
    ensures Unlinked(keyToID, {}) == keyToID
  {
  }

  lemma UnlinkMore(keyToID: map<string, string>, gone: set<string>, id: string)
    ensures Unlinked(Unlinked(keyToID, gone), {id}) == Unlinked(keyToID, gone + {id})
  {
  }

  lemma DropMore<C>(conns: map<string, C>, gone: set<string>, id: string)
    ensures conns - gone - {id} == conns - (gone + {id})
  {
  }

  /** Dropping the connections of the instances that are not in a list restricts the map to it. */
  lemma Restricted<C>(conns: map<string, C>, instances: seq<Instance>, gone: set<string>)
    requires forall id :: id in gone <==> id in conns && !Listed(instances, id)
    ensures Within(conns, instances) == conns - gone
    ensures Outside(conns, instances).Keys == gone
  {
  }

  ghost predicate InjectiveConns<C>(conns: map<string, C>) {
    forall a, b :: a in conns && b in conns && a != b ==> conns[a] != conns[b]
  }

  /** Closing the connections in `gone` adds one to the count of each of their entries. */
  lemma ReleasedAfter<C>(p: Pool<C>, gone: map<string, C>)
    ensures forall e: Entry<C> :: (p.released + multiset(Entries(gone)))[e]
                == p.released[e] + if e.id in gone && gone[e.id] == e.conn then 1 else 0
  {
    forall e: Entry<C> ensures (p.released + multiset(Entries(gone)))[e]
                == p.released[e] + if e.id in gone && gone[e.id] == e.conn then 1 else 0
    {
      assert e in Entries(gone) <==> e.id in gone && gone[e.id] == e.conn;
    }
  }

  /** Whether a position is usable depends on its own dial only. */
  lemma UsableElsewhere<C>(p: Pool<C>, dials: Dials<C>, tried: Dials<C>, i: nat, j: nat)
    requires |tried| == |dials| && forall x :: 0 <= x < |dials| && x != i ==> tried[x] == dials[x]
    requires i != j && j < |p.instances|
    ensures Usable(p, tried, j) == Usable(p, dials, j)
  {
  }

  /** Every cached connection is one the factory returned. */
  lemma CachedWasDialed<C>(p: Pool<C>)
    requires Inv(p)
    ensures forall id :: id in p.instanceConn ==> Entry(id, p.instanceConn[id]) in p.dialed
  {
    forall id | id in p.instanceConn ensures Entry(id, p.instanceConn[id]) in p.dialed {
      assert Entry(id, p.instanceConn[id]) in Entries(p.instanceConn);
      assert Entry(id, p.instanceConn[id]) in multiset(p.dialed);
    }
  }

  /** What the factory never returned was never closed. */
  lemma ReleasedWasDialed<C>(p: Pool<C>, e: Entry<C>)
    requires Inv(p) && e !in p.dialed
    ensures p.released[e] == 0
  {
    assert multiset(p.dialed)[e] == 0;
  }
}
