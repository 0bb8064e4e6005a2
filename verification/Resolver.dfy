/** The connection resolver (MyGateway/service/connection_resolver_generic.go), which joins the proxy and
    the pools. */
module Resolvers {
  import opened Options
  import opened GatewayErrors
  import opened Routing
  import opened HeaderAuth
  import opened PoolModel
  import opened PoolSafety
  import opened ConnectionPools
  import Proxy

  function UnknownClusterError(cluster: string): Error {
    Wrapped("", UnknownCluster, ": " + cluster)
  }

  function StickyKeyError(header: string): Error {
    Wrapped("", StickyKeyRequired, ": " + header)
  }

  function StickyHeader(balancer: Balancer): string {
    if balancer.header == "" then STICKY_SESSION_HEADER else balancer.header
  }

  /** The balancer asks for a key, and the request has it in the header the balancer names, or in
      `session-id` if it names none. */
  ghost predicate KeyIs(balancer: Balancer, md: Metadata, key: string) {
    && balancer.kind == "sticky_sessions" && key != ""
    && HasHeader(md, if balancer.header == "" then "session-id" else balancer.header, key)
  }

  /** What a route and the headers of a request lead to: the static cluster, if there is one of that name;
      else a pool, by key exactly if the route is sticky and the request has its key, and round-robin
      exactly if the route is not sticky; and otherwise an error, for the missing pool or key. */
  function Choose(route: Route, md: Metadata, statics: set<string>, pooled: set<string>): (t: Proxy.Target)
    ensures t == Proxy.Static(route.cluster) <==> route.cluster in statics
    ensures forall k :: t == Proxy.Sticky(k) <==>
              route.cluster !in statics && route.cluster in pooled && KeyIs(route.balancer, md, k)
    ensures t == Proxy.Balanced <==>
              route.cluster !in statics && route.cluster in pooled && route.balancer.kind != "sticky_sessions"
    ensures t.Unresolved? <==>
              && route.cluster !in statics
              && (route.cluster in pooled ==>
                    route.balancer.kind == "sticky_sessions" && forall k :: !KeyIs(route.balancer, md, k))
    ensures t.Unresolved? ==>
              t.err == if route.cluster !in pooled then UnknownClusterError(route.cluster)
                       else StickyKeyError(StickyHeader(route.balancer))
    ensures t.Static? ==> t.cluster == route.cluster
  {
    if route.cluster in statics then Proxy.Static(route.cluster)
    else if route.cluster !in pooled then Proxy.Unresolved(UnknownClusterError(route.cluster))
    else if route.balancer.kind == BALANCER_STICKY_SESSION then
      var key := GetHeaderValue(md, StickyHeader(route.balancer));
      if key.Some? then Proxy.Sticky(key.value) else Proxy.Unresolved(StickyKeyError(StickyHeader(route.balancer)))
    else Proxy.Balanced
  }

  /** What a client is told when the resolver finds no target: a missing sticky key is an authentication
      problem, an unknown cluster is an unavailable backend. */
  lemma UnresolvedIsReported(route: Route, md: Metadata, statics: set<string>, pooled: set<string>)
    ensures match Choose(route, md, statics, pooled)
            case Unresolved(err) =>
              GatewayErrorToGRPC(Some(err)) ==
                if route.cluster in pooled then Some(Status(Unauthenticated, MSG_MISSING_OR_INVALID_TOKEN))
                else Some(Status(Unavailable, MSG_BACKEND_UNAVAILABLE))
            case _ => true
  {
    assert Root(UnknownClusterError(route.cluster)) == UnknownCluster;
    assert Root(StickyKeyError(StickyHeader(route.balancer))) == StickyKeyRequired;
  }

  class ConnectionResolver {
    const staticConns: map<string, Connection>
    const pools: map<string, ConnectionPool>

    /** The pools do not share connections with each other, nor with the static clusters. */
    ghost predicate Separate()
      reads pools.Values
    {
      && (forall p, q :: p in pools.Values && q in pools.Values && p != q ==> p.made !! q.made)
      && (forall p :: p in pools.Values ==> p.made !! staticConns.Values)
      && InjectiveConns(staticConns)
    }

    ghost predicate Valid()
      reads pools.Values, set p, c | p in pools.Values && c in p.made :: c
    {
      Separate() && forall p :: p in pools.Values ==> p.Valid()
    }

    constructor (staticConns: map<string, Connection>, pools: map<string, ConnectionPool>)
      ensures this.staticConns == staticConns && this.pools == pools
    {
      this.staticConns, this.pools := staticConns, pools;
    }

    /** The pool of a cluster, as a state of PoolModel; an empty one for a cluster without a pool. */
    ghost function View(cluster: string): Pool<Connection>
      reads if cluster in pools then {pools[cluster]} else {}
    {
      if cluster in pools then pools[cluster].view else EmptyPool()
    }

    /** What serving an RPC on a cluster can change. */
    ghost function Reach(cluster: string): set<object>
      reads if cluster in pools then {pools[cluster]} else {}
    {
      if cluster in pools then {pools[cluster]} + pools[cluster].made else {}
    }

    /** Another RPC or the refresh loop uses the pool of a cluster, in whatever way. */
    method UsedByOthers(cluster: string) returns (ghost step: Step<Connection>)
      requires Valid() && cluster in pools
      modifies Reach(cluster)
      ensures Valid() && fresh(Reach(cluster) - old(Reach(cluster)))
      ensures View(cluster) == Do(old(View(cluster)), step)
    {
      hide ConnectionPool.Represents, ConnectionPool.Faithful, Inv, DistinctConns, Do;
      step := UseAnyhow(pools[cluster]);
    }

    static method UseAnyhow(pool: ConnectionPool) returns (ghost step: Step<Connection>)
      requires pool.Valid()
      modifies pool, pool.made
      ensures pool.Valid() && old(pool.made) <= pool.made && fresh(pool.made - old(pool.made))
      ensures pool.view == Do(old(pool.view), step)
    {
      hide Inv, DistinctConns, GetForKey, GetRoundRobin, PoolModel.OnBackendFailure, ApplyRefresh, ClosePool;
      hide ConnectionPool.Represents, ConnectionPool.Faithful;
      var key: string, id: string :| true;
      var snapshot: seq<Instance> :| true;
      if
      case true =>
        var reply;
        ghost var dials;
        reply, dials := pool.GetConnectionForKey(key);
        step := ForKey(key, dials);
      case true =>
        var reply;
        ghost var dials;
        reply, dials := pool.GetConnectionRoundRobin();
        step := RoundRobin(dials);
      case true =>
        pool.OnBackendFailure(key, id);
        step := Fail(key, id);
      case true =>
        pool.RefreshPool(Some(snapshot));
        step := Refresh(snapshot);
      case true =>
        pool.Close();
        step := Step.Close;
    }

    /** `GetConnection`: the connection with its sticky key and instance ID, or an error. */
    method GetConnection(route: Route, md: Metadata)
      returns (conn: Option<Connection>, lease: Option<Proxy.Lease>, err: Option<Error>, ghost dials: Dials<Connection>)
      requires Valid()
      modifies Reach(route.cluster)
      ensures Valid() && fresh(Reach(route.cluster) - old(Reach(route.cluster)))
      ensures (View(route.cluster), lease, err) ==
              Proxy.GetConnection(Choose(route, md, staticConns.Keys, pools.Keys), old(View(route.cluster)), dials)
      ensures conn.Some? <==> lease.Some?
      ensures conn.Some? && route.cluster !in staticConns ==>
                pools[route.cluster].LeadsTo(conn.value, lease.value.id, old(pools[route.cluster].made))
      ensures conn.Some? ==>
                if route.cluster in staticConns then conn.value == staticConns[route.cluster]
                else View(route.cluster).instanceConn == View(route.cluster).instanceConn[lease.value.id := conn.value]
    {
      hide Inv, DistinctConns, GetForKey, GetRoundRobin;
      hide ConnectionPool.LeadsTo, ConnectionPool.Represents, ConnectionPool.Faithful, KeyIs, HasHeader, LiveBinding;
      dials := [];
      if route.cluster in staticConns {
        return Some(staticConns[route.cluster]), Some(Proxy.Lease("", route.cluster)), None, dials;
      }
      if route.cluster !in pools {
        return None, None, Some(UnknownClusterError(route.cluster)), dials;
      }
      var pool := pools[route.cluster];
      if route.balancer.kind == BALANCER_STICKY_SESSION {
        var header := route.balancer.header;
        if header == "" {
          header := STICKY_SESSION_HEADER;
        }
        var key := GetHeaderValue(md, header);
        if key.None? {
          return None, None, Some(StickyKeyError(header)), dials;
        }
        var reply;
        reply, dials := pool.GetConnectionForKey(key.value);
        ForKeyEffect(old(pool.view), key.value, dials);
        if reply.Refused? {
          return None, None, Some(reply.err), dials;
        }
        return Some(reply.conn), Some(Proxy.Lease(key.value, reply.id)), None, dials;
      }
      var reply;
      reply, dials := pool.GetConnectionRoundRobin();
      if reply.Refused? {
        return None, None, Some(reply.err), dials;
      }
      RoundRobinCaches(old(pool.view), dials);
      return Some(reply.conn), Some(Proxy.Lease("", reply.id)), None, dials;
    }

    /** `OnBackendFailure`: reaches the pool of the route's cluster, if it has one. */
    method OnBackendFailure(route: Route, stickyKey: string, instanceID: string)
      requires Valid()
      modifies Reach(route.cluster)
      ensures Valid() && Reach(route.cluster) == old(Reach(route.cluster))
      ensures route.cluster in pools ==>
                View(route.cluster) == PoolModel.OnBackendFailure(old(View(route.cluster)), stickyKey, instanceID)
    {
      hide Inv, DistinctConns, PoolModel.OnBackendFailure;
      if route.cluster in pools {
        pools[route.cluster].OnBackendFailure(stickyKey, instanceID);
      }
    }

    /** `Close`: closes the connection of every static cluster once, and every pool. */
    method Close()
      requires Valid()
      modifies staticConns.Values, pools.Values, set p, c | p in pools.Values && c in p.made :: c
      ensures Valid()
      ensures forall c :: c in staticConns.Values ==> c.closes == old(c.closes) + 1
      ensures forall p :: p in pools.Values ==> p.view == ClosePool(old(p.view)) && p.made == old(p.made)
    {
      CloseStatics();
      ClosePools();
    }

    method CloseStatics()
      requires Valid()
      modifies staticConns.Values
      ensures Valid()
      ensures forall c :: c in staticConns.Values ==> c.closes == old(c.closes) + 1
    {
      var clusters := staticConns.Keys;
      while clusters != {}
        invariant clusters <= staticConns.Keys
        invariant forall k :: k in staticConns ==>
                    staticConns[k].closes == old(staticConns[k].closes) + if k in clusters then 0 else 1
        decreases |clusters|
      {
        var k :| k in clusters;
        clusters := clusters - {k};
        staticConns[k].Close();
      }
    }

    method ClosePools()
      requires Valid()
      modifies pools.Values, set p, c | p in pools.Values && c in p.made :: c
      ensures Valid()
      ensures forall p :: p in pools.Values ==> p.view == ClosePool(old(p.view)) && p.made == old(p.made)
      ensures forall c :: c in staticConns.Values ==> c.closes == old(c.closes)
    {
      hide ClosePool, ConnectionPool.Valid, Valid, Separate;
      var todo := pools.Values;
      while todo != {}
        invariant todo <= pools.Values
        invariant Valid()
        invariant forall p :: p in pools.Values ==>
                    p.made == old(p.made) && p.view == if p in todo then old(p.view) else ClosePool(old(p.view))
        invariant forall c :: c in staticConns.Values ==> c.closes == old(c.closes)
        decreases |todo|
      {
        var p :| p in todo;
        todo := todo - {p};
        CloseOne(p);
      }
    }

    method CloseOne(p: ConnectionPool)
      requires Valid() && p in pools.Values
      modifies p, p.made
      ensures Valid() && p.view == ClosePool(old(p.view)) && p.made == old(p.made)
      ensures forall q :: q in pools.Values && q != p ==> q.view == old(q.view) && q.made == old(q.made)
      ensures forall c :: c in staticConns.Values ==> c.closes == old(c.closes)
    {
      hide Inv, DistinctConns, ClosePool;
      p.Close();
    }
  }

  lemma RoundRobinCaches<C>(p: Pool<C>, dials: Dials<C>)
    ensures var (q, r) := GetRoundRobin(p, dials);
      r.Granted? ==> q.instanceConn == q.instanceConn[r.id := r.conn]
  {
    var i := RoundRobinShape(p, dials);
  }
}
