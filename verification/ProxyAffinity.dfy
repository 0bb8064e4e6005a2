/** What a sticky RPC leaves behind in the pool: its key bound to the instance that served it. */
module ProxyAffinity {
  import opened Options
  import opened PoolModel
  import opened PoolSafety
  import opened Proxy
  import opened ProxyControl
  import opened ProxyPool

  /** A sticky RPC for the key on a cluster with a pool. */
  ghost predicate StickyOn(call: Call, key: string) {
    call.target == Sticky(key) && key != "" && call.pooled
  }

  /** An event by which a connection was acquired. */
  ghost predicate Grew(p: Rpc, q: Rpc) {
    |q.acquires| > |p.acquires|
  }

  /** What the pool answered when the last connection of a run was acquired. */
  ghost function LastGrant<C>(call: Call, key: string, s: Sys<C>, events: seq<Event<C>>): Option<Reply<C>> {
    if events == [] then None
    else
      var front, e := events[..|events| - 1], events[|events| - 1];
      var before := Exec(call, s, front);
      if e.Acquire? && Grew(before.rpc, Exec(call, s, events).rpc) then Some(GetForKey(before.pool, key, e.dials).1)
      else LastGrant(call, key, s, front)
  }

  /** Since then, no step of another user of the pool broke the affinity. */
  ghost predicate Undisturbed<C>(call: Call, key: string, s: Sys<C>, events: seq<Event<C>>) {
    events == [] ||
    var front, e := events[..|events| - 1], events[|events| - 1];
    var before := Exec(call, s, front);
    || Grew(before.rpc, Exec(call, s, events).rpc)
    || (Undisturbed(call, key, s, front) && Harmless(before.rpc, key, e))
  }

  ghost predicate Harmless<C>(rpc: Rpc, key: string, e: Event<C>) {
    e.Other? && rpc.acquires != [] ==> !Breaks(e.step, key, Last(rpc.acquires).id)
  }

  /** While a connection is in hand, or when it served the RPC to the end, the pool holds it for the key. */
  ghost predicate Kept<C>(key: string, s: Sys<C>, grant: Option<Reply<C>>, undisturbed: bool) {
    |s.rpc.reports| < |s.rpc.acquires| ==>
      && grant.Some? && grant.value.Granted? && Last(s.rpc.acquires) == Lease(key, grant.value.id)
      && (undisturbed && grant.value.id != "" ==> Held(s.pool, key, grant.value.id, grant.value.conn))
  }

  lemma NextKept<C>(call: Call, key: string, s: Sys<C>, e: Event<C>, grant: Option<Reply<C>>, undisturbed: bool)
    requires Control(call, s.rpc) && StickyOn(call, key) && Kept(key, s, grant, undisturbed)
    ensures var t := Next(call, s, e);
      && (Grew(s.rpc, t.rpc) ==> e.Acquire? && Kept(key, t, Some(GetForKey(s.pool, key, e.dials).1), true))
      && (!Grew(s.rpc, t.rpc) ==> Kept(key, t, grant, undisturbed && Harmless(s.rpc, key, e)))
  {
    hide Control, Next, GetForKey, OnBackendFailure, Do, Held, Breaks;
    EventShape(call, s, e);
    if e.Acquire? {
      GrantIsHeld(s.pool, key, e.dials);
    }
    if e.Other? && grant.Some? && grant.value.Granted? {
      var id, c := grant.value.id, grant.value.conn;
      if Held(s.pool, key, id, c) && id != "" {
        AffinityStep(s.pool, e.step, key, id, c);
      }
    }
  }

  lemma {:induction false} ExecKept<C>(call: Call, key: string, pool: Pool<C>, events: seq<Event<C>>)
    requires StickyOn(call, key)
    ensures Kept(key, Exec(call, Start(pool), events), LastGrant(call, key, Start(pool), events),
                 Undisturbed(call, key, Start(pool), events))
    decreases |events|
  {
    hide Control, Next, Kept, GetForKey;
    if events == [] {
      StartKept<C>(key, pool);
    } else {
      var front, e := events[..|events| - 1], events[|events| - 1];
      ExecKept(call, key, pool, front);
      StartControl(call);
      ExecKeeps(call, Start(pool), front);
      NextKept(call, key, Exec(call, Start(pool), front), e, LastGrant(call, key, Start(pool), front),
               Undisturbed(call, key, Start(pool), front));
    }
  }

  lemma StartKept<C>(key: string, pool: Pool<C>)
    ensures Kept(key, Start(pool), None, true)
  {
  }

  /** Affinity from one RPC to the next: a sticky RPC that returned nil was served through the connection
      that its last acquire was granted; as long as no step of another user of the pool since that acquire
      breaks it, the pool holds key, instance and connection together, whatever the RPC itself did in the
      meantime, and the next call for the key is granted the same. */
  lemma {:induction false} SuccessKeepsAffinity<C>(call: Call, key: string, pool: Pool<C>, events: seq<Event<C>>,
                                                  dials: Dials<C>)
    requires StickyOn(call, key) && Exec(call, Start(pool), events).rpc.pc == Returned(None)
    ensures var s, grant := Exec(call, Start(pool), events), LastGrant(call, key, Start(pool), events);
      && s.rpc.acquires != [] && grant.Some? && grant.value.Granted?
      && Last(s.rpc.acquires) == Lease(key, grant.value.id)
      && (grant.value.id != "" && Undisturbed(call, key, Start(pool), events) ==>
            && Held(s.pool, key, grant.value.id, grant.value.conn)
            && GetForKey(s.pool, key, dials) == (s.pool, grant.value))
  {
    hide Exec, LastGrant, Undisturbed, GetForKey, Held;
    FailuresAreAccounted(call, pool, events);
    ExecKept(call, key, pool, events);
    var s, grant := Exec(call, Start(pool), events), LastGrant(call, key, Start(pool), events);
    if grant.value.id != "" && Undisturbed(call, key, Start(pool), events) {
      HeldIsGranted(s.pool, key, grant.value.id, grant.value.conn, dials);
    }
  }
}
