/** What holds in every reachable state of the pool, under any interleaving of its steps, including
    stale snapshots and failures reported for the wrong key, and what holds along whole runs. */
module PoolSafety {
  import opened Options
  import opened GatewayErrors
  import opened PoolModel

  // ---------- the invariant ----------

  /** No two keys are bound to one instance. */
  ghost predicate Exclusive(keyToID: map<string, string>) {
    forall a, b :: a in keyToID && b in keyToID && a != b ==> keyToID[a] != keyToID[b]
  }

  /** Every cached connection belongs to a listed instance. */
  ghost predicate Backed<C>(p: Pool<C>) {
    forall id :: id in p.instanceConn ==> Listed(p.instances, id)
  }

  ghost predicate RrInRange<C>(p: Pool<C>) {
    p.rr < |p.instances| || (p.instances == [] && p.rr == 0)
  }

  ghost predicate ClosedIsEmpty<C>(p: Pool<C>) {
    p.closed ==> p.instanceConn == map[] && p.keyToID == map[]
  }

  /** Every connection made is either cached or has been closed. */
  ghost predicate Conserved<C>(p: Pool<C>) {
    multiset(p.dialed) == multiset(Entries(p.instanceConn)) + p.released
  }

  ghost predicate DistinctConns<C>(dialed: seq<Entry<C>>) {
    forall i, j :: 0 <= i < j < |dialed| ==> dialed[i].conn != dialed[j].conn
  }

  ghost predicate Inv<C>(p: Pool<C>) {
    Exclusive(p.keyToID) && Backed(p) && RrInRange(p) && ClosedIsEmpty(p) && Conserved(p)
  }

  // ---------- lists ----------

  /** Dropping the first entry for an ID shortens a list exactly when the ID is listed, and keeps
      every other ID; with distinct IDs it removes the ID. */
  lemma WithoutFirstListed(instances: seq<Instance>, id: string)
    ensures var rest := WithoutFirst(instances, id);
      && |instances| - 1 <= |rest| <= |instances|
      && (|rest| < |instances| <==> Listed(instances, id))
      && (!Listed(instances, id) ==> rest == instances)
      && (forall x :: x != id ==> (Listed(rest, x) <==> Listed(instances, x)))
      && (Listed(rest, id) ==> Listed(instances, id))
      && (DistinctIds(instances) ==> DistinctIds(rest) && !Listed(rest, id))
  {
    WithoutFirstLength(instances, id);
    forall x ensures x != id ==> (Listed(WithoutFirst(instances, id), x) <==> Listed(instances, x)) {
      WithoutFirstKeeps(instances, id, x);
    }
    if DistinctIds(instances) {
      WithoutFirstDistinct(instances, id);
    }
  }

  lemma {:induction false} WithoutFirstLength(instances: seq<Instance>, id: string)
    ensures var rest := WithoutFirst(instances, id);
      && |instances| - 1 <= |rest| <= |instances|
      && (|rest| < |instances| <==> Listed(instances, id))
      && (!Listed(instances, id) ==> rest == instances)
    decreases instances
  {
    if instances != [] {
      ListedCons(instances, id);
      WithoutFirstLength(instances[1..], id);
    }
  }

  lemma {:induction false} WithoutFirstKeeps(instances: seq<Instance>, id: string, x: string)
    ensures x != id ==> (Listed(WithoutFirst(instances, id), x) <==> Listed(instances, x))
    ensures Listed(WithoutFirst(instances, id), x) ==> Listed(instances, x)
    decreases instances
  {
    if instances != [] {
      ListedCons(instances, x);
      if instances[0].id != id {
        WithoutFirstKeeps(instances[1..], id, x);
        ListedCons(WithoutFirst(instances, id), x);
      }
    }
  }

  lemma {:induction false} WithoutFirstDistinct(instances: seq<Instance>, id: string)
    requires DistinctIds(instances)
    ensures DistinctIds(WithoutFirst(instances, id)) && !Listed(WithoutFirst(instances, id), id)
    decreases instances
  {
    if instances != [] {
      var first, tail := instances[0], instances[1..];
      assert instances == [first] + tail;
      DistinctCons(first, tail);
      if first.id != id {
        WithoutFirstDistinct(tail, id);
        WithoutFirstKeeps(tail, id, first.id);
        DistinctCons(first, WithoutFirst(tail, id));
        ListedCons(WithoutFirst(instances, id), id);
      }
    }
  }

  /** Cutting an entry out at its first occurrence. */
  lemma {:induction false} CutAtFirst(instances: seq<Instance>, id: string, i: nat)
    requires i <= |instances|
    requires forall j :: 0 <= j < i ==> instances[j].id != id
    requires i < |instances| ==> instances[i].id == id
    ensures WithoutFirst(instances, id) ==
            if i < |instances| then instances[..i] + instances[i + 1..] else instances
    decreases instances
  {
    if instances != [] && i > 0 {
      CutAtFirst(instances[1..], id, i - 1);
      if i < |instances| {
        assert instances[..i] + instances[i + 1..]
            == [instances[0]] + (instances[1..][..i - 1] + instances[1..][i..]);
      } else {
        assert instances == [instances[0]] + instances[1..];
      }
    }
  }

  lemma ListedCons(instances: seq<Instance>, x: string)
    requires instances != []
    ensures Listed(instances, x) <==> instances[0].id == x || Listed(instances[1..], x)
  {
    if Listed(instances[1..], x) {
      var i :| 0 <= i < |instances[1..]| && instances[1..][i].id == x;
      assert instances[i + 1].id == x;
    }
    if Listed(instances, x) && instances[0].id != x {
      var i :| 0 <= i < |instances| && instances[i].id == x;
      assert instances[1..][i - 1].id == x;
    }
  }

  lemma DistinctCons(first: Instance, rest: seq<Instance>)
    ensures DistinctIds([first] + rest) <==> DistinctIds(rest) && !Listed(rest, first.id)
  {
    var whole := [first] + rest;
    if DistinctIds(whole) {
      forall i, j | 0 <= i < j < |rest| ensures rest[i].id != rest[j].id {
        assert whole[i + 1].id != whole[j + 1].id;
      }
      forall i | 0 <= i < |rest| ensures rest[i].id != first.id {
        assert whole[0].id != whole[i + 1].id;
      }
    }
    if DistinctIds(rest) && !Listed(rest, first.id) {
      forall i, j | 0 <= i < j < |whole| ensures whole[i].id != whole[j].id {
        assert whole[j] == rest[j - 1];
        if i > 0 {
          assert whole[i] == rest[i - 1];
        }
      }
    }
  }

  // ---------- each step keeps the invariant ----------

  lemma EntriesGain<C>(m: map<string, C>, id: string, c: C)
    requires id !in m
    ensures multiset(Entries(m[id := c])) == multiset(Entries(m)) + multiset{Entry(id, c)}
  {
    var n := m[id := c];
    forall e: Entry<C> | e in Entries(n) ensures e in Entries(m) + {Entry(id, c)} {
      if e.id != id {
        assert e.id in m && m[e.id] == n[e.id];
      }
    }
    forall e: Entry<C> | e in Entries(m) + {Entry(id, c)} ensures e in Entries(n) {
      assert e.id in n && n[e.id] == e.conn;
    }
    assert Entries(n) == Entries(m) + {Entry(id, c)};
    assert Entry(id, c) !in Entries(m);
  }

  lemma AttachKeeps<C>(p: Pool<C>, dials: Dials<C>, i: nat)
    requires Inv(p) && i < |p.instances| && Usable(p, dials, i) && !p.closed
    ensures Inv(Attach(p, dials, i).0)
    ensures var (q, c) := Attach(p, dials, i);
      && q.instanceConn == p.instanceConn[p.instances[i].id := c]
      && (forall id :: id in p.instanceConn ==> q.instanceConn[id] == p.instanceConn[id])
  {
    var id := p.instances[i].id;
    if id !in p.instanceConn {
      var (q, c) := Attach(p, dials, i);
      EntriesGain(p.instanceConn, id, c);
      assert multiset(q.dialed) == multiset(p.dialed) + multiset{Entry(id, c)};
    } else {
      assert p.instanceConn[id := p.instanceConn[id]] == p.instanceConn;
    }
  }

  lemma DropStaleKeeps<C>(p: Pool<C>, key: string)
    requires Inv(p) && !p.closed
    ensures Inv(DropStale(p, key))
  {
    RebindKeeps(p, DropStale(p, key).keyToID);
  }

  /** The part of the invariant that bindings touch is exclusiveness alone. */
  lemma RebindKeeps<C>(p: Pool<C>, keyToID: map<string, string>)
    requires Inv(p) && !p.closed && Exclusive(keyToID)
    ensures Inv(p.(keyToID := keyToID))
  {
  }

  lemma BindKeepsExclusive(keyToID: map<string, string>, key: string, id: string)
    requires Exclusive(keyToID) && !AssignedToOther(keyToID, id, key)
    ensures Exclusive(keyToID[key := id])
  {
  }

  lemma ForKeyKeeps<C>(p: Pool<C>, key: string, dials: Dials<C>)
    requires Inv(p)
    ensures Inv(GetForKey(p, key, dials).0)
  {
    if !p.closed && key != "" && !LiveBinding(p, key) {
      var q := DropStale(p, key);
      DropStaleKeeps(p, key);
      var i := FirstFree(q, key, dials, 0);
      if i < |q.instances| {
        FirstFreeIsFirst(q, key, dials, 0);
        AttachKeeps(q, dials, i);
        var r := Attach(q, dials, i).0;
        var bound := r.keyToID[key := q.instances[i].id];
        BindKeepsExclusive(r.keyToID, key, q.instances[i].id);
        RebindKeeps(r, bound);
        assert GetForKey(p, key, dials).0 == r.(keyToID := bound);
      }
    }
  }

  lemma TurnKeeps<C>(p: Pool<C>, dials: Dials<C>, i: nat)
    requires Inv(p) && i < |p.instances| && Usable(p, dials, i) && !p.closed
    ensures Inv(Turn(p, dials, i).0)
  {
    AttachKeeps(p, dials, i);
    IndexKeeps(Attach(p, dials, i).0, (i + 1) % |p.instances|);
  }

  lemma IndexKeeps<C>(p: Pool<C>, rr: nat)
    requires Inv(p) && rr < |p.instances|
    ensures Inv(p.(rr := rr))
  {
  }

  /** A round-robin call either changes nothing or takes one turn. */
  lemma RoundRobinShape<C>(p: Pool<C>, dials: Dials<C>) returns (i: nat)
    ensures GetRoundRobin(p, dials).0 == p
         || (!p.closed && i < |p.instances| && Usable(p, dials, i) && GetRoundRobin(p, dials) == Turn(p, dials, i))
  {
    i := 0;
    if !p.closed && |p.instances| != 0 {
      var k := Skipped(p, dials, 0);
      if k < |p.instances| {
        i := At(p, k);
      }
    }
  }

  lemma RoundRobinKeeps<C>(p: Pool<C>, dials: Dials<C>)
    requires Inv(p)
    ensures Inv(GetRoundRobin(p, dials).0)
  {
    var i := RoundRobinShape(p, dials);
    if GetRoundRobin(p, dials).0 != p {
      TurnKeeps(p, dials, i);
    }
  }

  lemma FailKeeps<C>(p: Pool<C>, key: string, id: string)
    requires Inv(p)
    ensures Inv(OnBackendFailure(p, key, id))
  {
    WithoutFirstListed(p.instances, id);
    EntriesLose(p.instanceConn, id);
  }

  lemma EntriesLose<C>(m: map<string, C>, id: string)
    ensures multiset(Entries(m)) == multiset(Entries(m - {id})) + multiset(Entries(Only(m, id)))
  {
    if id in m {
      EntriesGain(m - {id}, id, m[id]);
      assert (m - {id})[id := m[id]] == m;
      assert Entries(Only(m, id)) == {Entry(id, m[id])};
    } else {
      assert m - {id} == m;
      assert Entries(Only(m, id)) == {};
    }
  }

  lemma RefreshKeeps<C>(p: Pool<C>, snapshot: seq<Instance>)
    requires Inv(p)
    ensures Inv(ApplyRefresh(p, snapshot))
  {
    var kept, gone := Within(p.instanceConn, snapshot), Outside(p.instanceConn, snapshot);
    forall e: Entry<C> | e in Entries(p.instanceConn) ensures e in Entries(kept) + Entries(gone) {
      assert if Listed(snapshot, e.id) then e.id in kept else e.id in gone;
    }
    assert Entries(p.instanceConn) == Entries(kept) + Entries(gone);
    assert Entries(kept) !! Entries(gone);
  }

  lemma CloseKeeps<C>(p: Pool<C>)
    requires Inv(p)
    ensures Inv(ClosePool(p))
  {
    var none: map<string, C> := map[];
    assert Entries(none) == {};
  }

  lemma {:induction false} StepKeeps<C>(p: Pool<C>, s: Step<C>)
    requires Inv(p)
    ensures Inv(Do(p, s))
  {
    match s
    case ForKey(key, dials) => ForKeyKeeps(p, key, dials);
    case RoundRobin(dials) => RoundRobinKeeps(p, dials);
    case Fail(key, id) => FailKeeps(p, key, id);
    case Refresh(snapshot) => RefreshKeeps(p, snapshot);
    case Close => CloseKeeps(p);
  }

  lemma EmptyInv<C>()
    ensures Inv(EmptyPool<C>())
  {
    assert Entries(EmptyPool<C>().instanceConn) == {};
  }

  lemma {:induction false} RunKeeps<C>(p: Pool<C>, steps: seq<Step<C>>)
    requires Inv(p)
    ensures Inv(Run(p, steps))
    decreases |steps|
  {
    if steps != [] {
      RunKeeps(p, steps[..|steps| - 1]);
      StepKeeps(Run(p, steps[..|steps| - 1]), steps[|steps| - 1]);
    }
  }

  /** What a call for a key can change: its own binding, and one connection more. */
  lemma ForKeyEffect<C>(p: Pool<C>, key: string, dials: Dials<C>)
    ensures var (q, r) := GetForKey(p, key, dials);
      && q.instances == p.instances && q.rr == p.rr && q.closed == p.closed && q.released == p.released
      && (r.Granted? ==> q.keyToID == p.keyToID[key := r.id] && q.instanceConn == p.instanceConn[r.id := r.conn])
      && (r.Granted? && r.id in p.instanceConn ==> r.conn == p.instanceConn[r.id])
      && (r.Refused? ==> q.instanceConn == p.instanceConn)
      && (r.Refused? ==> q.keyToID == p.keyToID || (q.keyToID == p.keyToID - {key} && !LiveBinding(p, key)))
  {
    if !p.closed && key != "" {
      if LiveBinding(p, key) {
        assert p.keyToID == p.keyToID[key := p.keyToID[key]];
        assert p.instanceConn == p.instanceConn[p.keyToID[key] := p.instanceConn[p.keyToID[key]]];
      } else {
        var q := DropStale(p, key);
        var i := FirstFree(q, key, dials, 0);
        FirstFreeIsFirst(q, key, dials, 0);
        if i < |q.instances| {
          var id := q.instances[i].id;
          assert q.keyToID[key := id] == p.keyToID[key := id];
          if id in p.instanceConn {
            assert p.instanceConn == p.instanceConn[id := p.instanceConn[id]];
          }
        }
      }
    }
  }

  // ---------- runs from the empty pool ----------

  /** In every reachable state: no instance serves two keys, every cached connection belongs to a
      listed instance, and the round-robin index is valid. */
  lemma {:induction false} ReachableIsSafe<C>(steps: seq<Step<C>>)
    ensures var p := Run(EmptyPool<C>(), steps);
      Exclusive(p.keyToID) && Backed(p) && RrInRange(p) && ClosedIsEmpty(p)
  {
    EmptyInv<C>();
    RunKeeps(EmptyPool<C>(), steps);
  }

  /** One step makes at most one new connection, which the factory returned for it. */
  lemma StepDials<C>(p: Pool<C>, s: Step<C>)
    requires DistinctConns(p.dialed) && FreshDials(p, s)
    ensures p.dialed <= Do(p, s).dialed
    ensures DistinctConns(Do(p, s).dialed)
  {
    match s
    case ForKey(key, dials) =>
      if !p.closed && key != "" && !LiveBinding(p, key) {
        FirstFreeIsFirst(DropStale(p, key), key, dials, 0);
      }
    case _ =>
  }

  lemma RunPrefix<C>(p: Pool<C>, steps: seq<Step<C>>, n: nat)
    requires n < |steps|
    ensures Run(p, steps[..n + 1]) == Do(Run(p, steps[..n]), steps[n])
  {
    assert steps[..n + 1][..n] == steps[..n];
  }

  lemma {:induction false} RunDialsDistinct<C>(p: Pool<C>, steps: seq<Step<C>>, n: nat)
    requires n <= |steps| && DistinctConns(p.dialed) && FreshRun(p, steps)
    ensures DistinctConns(Run(p, steps[..n]).dialed)
    decreases n
  {
    if n > 0 {
      RunDialsDistinct(p, steps, n - 1);
      RunPrefix(p, steps, n - 1);
      StepDials(Run(p, steps[..n - 1]), steps[n - 1]);
    }
  }

  ghost predicate Cached<C>(p: Pool<C>, e: Entry<C>) {
    e.id in p.instanceConn && p.instanceConn[e.id] == e.conn
  }

  /** Conservation of connections: what the factory returned is the disjoint union of what is cached,
      none of it closed, and what was closed, each exactly once; nothing else is ever cached or
      closed, no two IDs share a connection, and a closed pool has closed everything. */
  lemma {:induction false} ConnectionsAreConserved<C>(steps: seq<Step<C>>)
    requires FreshRun(EmptyPool<C>(), steps)
    ensures var p := Run(EmptyPool<C>(), steps);
      && (forall e :: e in p.dialed ==> p.released[e] == if Cached(p, e) then 0 else 1)
      && (forall e :: e !in p.dialed ==> p.released[e] == 0 && !Cached(p, e))
      && (forall a, b :: a in p.instanceConn && b in p.instanceConn && a != b ==>
            p.instanceConn[a] != p.instanceConn[b])
      && (p.closed ==> forall e :: e in p.dialed ==> p.released[e] == 1)
  {
    EmptyInv<C>();
    RunKeeps(EmptyPool<C>(), steps);
    assert steps[..|steps|] == steps;
    RunDialsDistinct(EmptyPool<C>(), steps, |steps|);
    Accounts(Run(EmptyPool<C>(), steps));
  }

  lemma Accounts<C>(p: Pool<C>)
    requires Inv(p) && DistinctConns(p.dialed)
    ensures forall e :: e in p.dialed ==> p.released[e] == if Cached(p, e) then 0 else 1
    ensures forall e :: e !in p.dialed ==> p.released[e] == 0 && !Cached(p, e)
    ensures forall a, b :: a in p.instanceConn && b in p.instanceConn && a != b ==>
              p.instanceConn[a] != p.instanceConn[b]
    ensures p.closed ==> forall e :: e in p.dialed ==> p.released[e] == 1
  {
    forall e
      ensures multiset(Entries(p.instanceConn))[e] == if Cached(p, e) then 1 else 0
      ensures multiset(p.dialed)[e] == if e in p.dialed then 1 else 0
    {
      assert Cached(p, e) <==> e in Entries(p.instanceConn);
      if e in p.dialed {
        OccursOnce(p.dialed, e);
      }
    }
    forall a, b | a in p.instanceConn && b in p.instanceConn && a != b
      ensures p.instanceConn[a] != p.instanceConn[b]
    {
      var x, y := Entry(a, p.instanceConn[a]), Entry(b, p.instanceConn[b]);
      assert Cached(p, x) && Cached(p, y);
      assert x in p.dialed && y in p.dialed;
    }
  }

  lemma {:induction false} OccursOnce<C>(s: seq<Entry<C>>, e: Entry<C>)
    requires forall i, j :: 0 <= i < j < |s| ==> s[i].conn != s[j].conn
    requires e in s
    ensures multiset(s)[e] == 1
    decreases s
  {
    var front, last := s[..|s| - 1], s[|s| - 1];
    assert s == front + [last];
    assert multiset(s) == multiset(front) + multiset{last};
    if e == last {
      assert e !in front;
    } else {
      OccursOnce(front, e);
    }
  }

  lemma {:induction false} StaysClosed<C>(p: Pool<C>, steps: seq<Step<C>>)
    requires p.closed && ClosedIsEmpty(p)
    ensures var q := Run(p, steps);
      && q.closed && q.instanceConn == map[] && q.keyToID == map[]
      && q.dialed == p.dialed && q.released == p.released
    decreases |steps|
  {
    if steps != [] {
      var front := steps[..|steps| - 1];
      StaysClosed(p, front);
      var q := Run(p, front);
      assert Outside(q.instanceConn, []) == map[];
      match steps[|steps| - 1]
      case Refresh(snapshot) =>
        assert Outside(q.instanceConn, snapshot) == map[];
        var none: map<string, C> := map[];
        assert Entries(none) == {};
      case _ =>
    }
  }

  /** Close is for good: whatever steps follow, refreshes included, both maps stay empty, nothing is
      dialed or closed any more, and every getter is refused. */
  lemma {:induction false} ClosedForGood<C>(p: Pool<C>, steps: seq<Step<C>>, s: Step<C>)
    requires Inv(p)
    ensures var q := Run(ClosePool(p), steps);
      && q.closed && q.instanceConn == map[] && q.keyToID == map[]
      && q.dialed == p.dialed && q.released == ClosePool(p).released
      && (Answer(q, s).Some? ==> Answer(q, s).value == Refused(ConnPoolClosed))
  {
    StaysClosed(ClosePool(p), steps);
  }

  // ---------- quarantine ----------

  lemma GetterGrantsListed<C>(p: Pool<C>, s: Step<C>)
    requires Backed(p)
    ensures var a := Answer(p, s);
      a.Some? && a.value.Granted? ==> Listed(p.instances, a.value.id)
  {
  }

  ghost function Occurrences(instances: seq<Instance>, id: string): nat {
    if instances == [] then 0
    else (if instances[0].id == id then 1 else 0) + Occurrences(instances[1..], id)
  }

  /** A failure report takes the instance off the list exactly when it was listed at most once. */
  lemma {:induction false} FailureDelistsExactly(instances: seq<Instance>, id: string)
    ensures !Listed(WithoutFirst(instances, id), id) <==> Occurrences(instances, id) <= 1
    decreases instances
  {
    if instances != [] {
      FailureDelistsExactly(instances[1..], id);
      if instances[0].id == id {
        OccurrencesListed(instances[1..], id);
      } else {
        ListedCons(WithoutFirst(instances, id), id);
      }
    }
  }

  lemma {:induction false} OccurrencesListed(instances: seq<Instance>, id: string)
    ensures Occurrences(instances, id) == 0 <==> !Listed(instances, id)
    decreases instances
  {
    if instances != [] {
      OccurrencesListed(instances[1..], id);
      ListedCons(instances, id);
    }
  }

  ghost predicate Relists<C>(s: Step<C>, id: string) {
    s.Refresh? && Listed(s.snapshot, id)
  }

  lemma {:induction false} StaysOff<C>(p: Pool<C>, steps: seq<Step<C>>, id: string)
    requires !Listed(p.instances, id)
    requires forall n :: 0 <= n < |steps| ==> !Relists(steps[n], id)
    ensures !Listed(Run(p, steps).instances, id)
    decreases |steps|
  {
    if steps != [] {
      var front := steps[..|steps| - 1];
      StaysOff(p, front, id);
      var q, s := Run(p, front), steps[|steps| - 1];
      assert !Relists(s, id);
      if s.Fail? {
        WithoutFirstListed(q.instances, s.failedId);
      }
    }
  }

  /** Quarantine: after a failure of an instance that was listed at most once, no getter grants it
      again until a snapshot that lists it is applied, whatever else happens. */
  lemma {:induction false} Quarantine<C>(p: Pool<C>, key: string, id: string, steps: seq<Step<C>>, s: Step<C>,
                                            granted: Reply<C>)
    requires Inv(p) && Occurrences(p.instances, id) <= 1
    requires forall n :: 0 <= n < |steps| ==> !Relists(steps[n], id)
    requires Answer(Run(OnBackendFailure(p, key, id), steps), s) == Some(granted) && granted.Granted?
    ensures granted.id != id
  {
    var q := OnBackendFailure(p, key, id);
    FailureDelistsExactly(p.instances, id);
    StaysOff(q, steps, id);
    FailKeeps(p, key, id);
    RunKeeps(q, steps);
    GetterGrantsListed(Run(q, steps), s);
  }

  /** A list that names an instance twice defeats the quarantine: the failed instance is granted by
      the very next call. */
  lemma DuplicateDefeatsQuarantine<C>(c: C)
    ensures var a := Instance("a", "10.0.0.1", 9000);
      var p := Run(EmptyPool<C>(), [Refresh([a, a]), Fail("k", "a")]);
      GetRoundRobin(p, [Some(c)]).1 == Granted(c, "a")
  {
    var a := Instance("a", "10.0.0.1", 9000);
    var steps: seq<Step<C>> := [Refresh([a, a]), Fail("k", "a")];
    RunPrefix(EmptyPool<C>(), steps, 0);
    RunPrefix(EmptyPool<C>(), steps, 1);
    assert steps[..2] == steps && steps[..0] == [];
    var p := Run(EmptyPool<C>(), steps);
    assert p.instances == [a];
    assert Usable(p, [Some(c)], 0);
  }

  // ---------- what a refresh and a failure leave as they are ----------

  /** Position i is free for a key and a connection can be had to its instance. */
  ghost predicate Servable<C>(p: Pool<C>, key: string, dials: Dials<C>, i: nat) {
    i < |p.instances| && !AssignedToOther(p.keyToID, p.instances[i].id, key) && Usable(p, dials, i)
  }

  /** A key without a live binding is granted the first instance in list order that no other key occupies
      and that a connection can be had to, and is refused exactly if there is none. */
  lemma GrantsFirst<C>(p: Pool<C>, key: string, dials: Dials<C>)
    requires !p.closed && key != "" && !LiveBinding(p, key)
    ensures var r := GetForKey(p, key, dials).1;
      if r.Granted? then
        exists i: nat :: Servable(p, key, dials, i) && p.instances[i].id == r.id
                    && forall j: nat :: j < i ==> !Servable(p, key, dials, j)
      else forall i: nat :: !Servable(p, key, dials, i)
  {
    var q := DropStale(p, key);
    var i := FirstFree(q, key, dials, 0);
    FirstFreeIsFirst(q, key, dials, 0);
    forall id ensures AssignedToOther(q.keyToID, id, key) <==> AssignedToOther(p.keyToID, id, key) {
      if AssignedToOther(p.keyToID, id, key) {
        var k :| k in p.keyToID && k != key && p.keyToID[k] == id;
        assert k in q.keyToID && q.keyToID[k] == id;
      }
    }
    forall j: nat | j < |p.instances|
      ensures Servable(p, key, dials, j) <==>
              !AssignedToOther(q.keyToID, q.instances[j].id, key) && Usable(q, dials, j)
    {
    }
    if i < |p.instances| {
      assert Servable(p, key, dials, i);
    }
  }

  /** The instances that failures were reported for, in order. */
  ghost function FailedIds<C>(steps: seq<Step<C>>): seq<string> {
    if steps == [] then []
    else
      var last := steps[|steps| - 1];
      FailedIds(steps[..|steps| - 1]) + if last.Fail? then [last.failedId] else []
  }

  /** Over every run, each failure reported asks the discoverer once to unregister the instance it names,
      and nothing else does. */
  lemma {:induction false} FailuresUnregister<C>(p: Pool<C>, steps: seq<Step<C>>)
    ensures Run(p, steps).unregistered == p.unregistered + FailedIds(steps)
    decreases |steps|
  {
    if steps != [] {
      var front, last := steps[..|steps| - 1], steps[|steps| - 1];
      FailuresUnregister(p, front);
      var q := Run(p, front);
      match last
      case ForKey(key, dials) => KeepsUnregistered(q, key, dials);
      case RoundRobin(dials) => var i := RoundRobinShape(q, dials);
      case _ =>
    }
  }

  lemma KeepsUnregistered<C>(p: Pool<C>, key: string, dials: Dials<C>)
    ensures GetForKey(p, key, dials).0.unregistered == p.unregistered
  {
  }

  /** A refresh is a restriction: exactly the connections to listed instances survive, unchanged, and the
      others are closed once each; a binding goes exactly if it led to one of those; the index stays
      unless it is beyond the new list, and nothing is dialed. */
  lemma RefreshRestricts<C>(p: Pool<C>, snapshot: seq<Instance>)
    ensures var q := ApplyRefresh(p, snapshot);
      && q.instances == snapshot && q.closed == p.closed && q.dialed == p.dialed
      && q.rr == (if p.rr < |snapshot| then p.rr else 0)
      && (forall id :: id in q.instanceConn <==> id in p.instanceConn && Listed(snapshot, id))
      && (forall id :: id in q.instanceConn ==> q.instanceConn[id] == p.instanceConn[id])
      && (forall k :: k in q.keyToID <==>
            k in p.keyToID && (p.keyToID[k] in p.instanceConn ==> Listed(snapshot, p.keyToID[k])))
      && (forall k :: k in q.keyToID ==> q.keyToID[k] == p.keyToID[k])
      && (forall e: Entry<C> :: q.released[e] ==
            p.released[e]
            + if e.id in p.instanceConn && p.instanceConn[e.id] == e.conn && !Listed(snapshot, e.id) then 1 else 0)
  {
    var gone := Outside(p.instanceConn, snapshot);
    forall e: Entry<C>
      ensures multiset(Entries(gone))[e] ==
              if e.id in p.instanceConn && p.instanceConn[e.id] == e.conn && !Listed(snapshot, e.id) then 1 else 0
    {
      assert e in Entries(gone) <==> e.id in gone && gone[e.id] == e.conn;
    }
  }

  /** A getter refuses a closed pool as such, and otherwise because no instance can be had, an empty key
      included. */
  lemma RefusalsSayWhy<C>(p: Pool<C>, s: Step<C>)
    ensures Answer(p, s).Some? && Answer(p, s).value.Refused? ==>
              Answer(p, s).value.err == if p.closed then ConnPoolClosed else NoAvailableConnInstance
    ensures Answer(p, s).Some? && (p.closed || (s.ForKey? && s.key == "")) ==> Answer(p, s).value.Refused?
  {
  }

  /** A refresh that finds nothing new changes nothing. */
  lemma IdleRefreshIsIdle<C>(p: Pool<C>)
    requires Inv(p)
    ensures ApplyRefresh(p, p.instances) == p
  {
    assert Outside(p.instanceConn, p.instances) == map[];
  }

  /** Whose turn it is after a failure of the instance at position j: nobody loses the turn when a
      later instance goes; the next one has it when the instance in turn goes; and when an earlier one
      goes, the instance in turn loses its turn to the next. The end of the list wraps around. */
  lemma TurnAfterFailure<C>(p: Pool<C>, key: string, id: string, j: nat)
    requires RrInRange(p) && j < |p.instances| && |p.instances| >= 2
    requires p.instances[j].id == id && forall i :: 0 <= i < j ==> p.instances[i].id != id
    ensures var q, n := OnBackendFailure(p, key, id), |p.instances|;
      && q.rr < |q.instances| == n - 1
      && q.instances[q.rr] ==
           if j > p.rr then p.instances[p.rr]
           else if p.rr + 1 < n then p.instances[p.rr + 1]
           else if j == 0 then p.instances[1]
           else p.instances[0]
  {
    CutAtFirst(p.instances, id, j);
  }

  /** Whether a step, other than a call for the key itself, takes a key's binding away, be there a
      connection to its instance or not: a failure naming the key, Close, and a refresh that drops a
      connection to the instance. A failure of the instance reported for another key leaves the binding
      without a connection, and no refresh removes it then. */
  lemma {:induction false} BindingStep<C>(p: Pool<C>, s: Step<C>, key: string, id: string)
    requires Inv(p) && key in p.keyToID && p.keyToID[key] == id && !(s.ForKey? && s.key == key)
    ensures var q := Do(p, s);
      (key in q.keyToID && q.keyToID[key] == id) <==>
        match s
        case Fail(failedKey, _) => failedKey != key || key == ""
        case Refresh(snapshot) => id in p.instanceConn ==> Listed(snapshot, id)
        case Close => false
        case _ => true
  {
    match s
    case ForKey(other, dials) => ForKeyEffect(p, other, dials);
    case RoundRobin(dials) => var i := RoundRobinShape(p, dials);
    case _ =>
  }

  // ---------- stickiness ----------

  /** Key is bound to instance id through connection c. */
  ghost predicate Held<C>(p: Pool<C>, key: string, id: string, c: C) {
    && !p.closed
    && key in p.keyToID && p.keyToID[key] == id
    && id in p.instanceConn && p.instanceConn[id] == c
  }

  /** The steps that end an affinity: a failure naming the key or the instance, a snapshot without
      the instance, and closing the pool. */
  ghost predicate Breaks<C>(s: Step<C>, key: string, id: string) {
    match s
    case Fail(failedKey, failedId) => failedKey == key || failedId == id
    case Refresh(snapshot) => !Listed(snapshot, id)
    case Close => true
    case _ => false
  }

  /** A step ends the affinity of a key exactly when it is one of those. */
  lemma AffinityStep<C>(p: Pool<C>, s: Step<C>, key: string, id: string, c: C)
    requires Held(p, key, id, c) && key != "" && id != ""
    ensures Held(Do(p, s), key, id, c) <==> !Breaks(s, key, id)
  {
    match s
    case ForKey(k, dials) =>
      if !LiveBinding(p, k) && k != "" {
        FirstFreeIsFirst(DropStale(p, k), k, dials, 0);
      }
    case _ =>
  }

  /** A call for a key is granted the connection it holds, and changes nothing. */
  lemma HeldIsGranted<C>(p: Pool<C>, key: string, id: string, c: C, dials: Dials<C>)
    requires Held(p, key, id, c) && key != "" && id != ""
    ensures GetForKey(p, key, dials) == (p, Granted(c, id))
  {
  }

  /** Obtaining a connection for a key is the start of an affinity. */
  lemma GrantIsHeld<C>(p: Pool<C>, key: string, dials: Dials<C>)
    ensures var (q, r) := GetForKey(p, key, dials);
      r.Granted? ==> Held(q, key, r.id, r.conn)
  {
    if !p.closed && key != "" && !LiveBinding(p, key) {
      FirstFreeIsFirst(DropStale(p, key), key, dials, 0);
    }
  }

  /** Affinity over whole runs: from the moment a key is granted (c, id), it holds (c, id) at every moment
      of the run if and only if the run has no step that breaks it, whatever the other keys and callers
      do; and as long as it has none, every call for the key, whatever dialing would answer, is granted
      (c, id) again and changes nothing. */
  lemma {:induction false} Affinity<C>(p: Pool<C>, key: string, dials: Dials<C>, steps: seq<Step<C>>)
    requires GetForKey(p, key, dials).1.Granted? && GetForKey(p, key, dials).1.id != ""
    ensures var (q, r) := GetForKey(p, key, dials);
      (forall n :: 0 <= n < |steps| ==> !Breaks(steps[n], key, r.id)) <==>
      (forall n :: 0 <= n <= |steps| ==> Held(Run(q, steps[..n]), key, r.id, r.conn))
    ensures var (q, r) := GetForKey(p, key, dials);
      (forall n :: 0 <= n < |steps| ==> !Breaks(steps[n], key, r.id)) ==>
        forall n: nat, d :: n <= |steps| ==>
          GetForKey(Run(q, steps[..n]), key, d) == (Run(q, steps[..n]), Granted(r.conn, r.id))
  {
    hide GetForKey, Held, Breaks, Run;
    var (q, r) := GetForKey(p, key, dials);
    GrantIsHeld(p, key, dials);
    NoneWithoutKey(p, key, dials);
    if forall n :: 0 <= n < |steps| ==> !Breaks(steps[n], key, r.id) {
      forall n | 0 <= n <= |steps| ensures Held(Run(q, steps[..n]), key, r.id, r.conn) {
        HeldThrough(q, steps, n, key, r.id, r.conn);
      }
      forall n: nat, d | n <= |steps|
        ensures GetForKey(Run(q, steps[..n]), key, d) == (Run(q, steps[..n]), Granted(r.conn, r.id))
      {
        HeldThrough(q, steps, n, key, r.id, r.conn);
        HeldIsGranted(Run(q, steps[..n]), key, r.id, r.conn, d);
      }
    }
    if forall n :: 0 <= n <= |steps| ==> Held(Run(q, steps[..n]), key, r.id, r.conn) {
      forall n | 0 <= n < |steps| ensures !Breaks(steps[n], key, r.id) {
        assert Held(Run(q, steps[..n]), key, r.id, r.conn);
        assert Held(Run(q, steps[..n + 1]), key, r.id, r.conn);
        RunPrefix(q, steps, n);
        AffinityStep(Run(q, steps[..n]), steps[n], key, r.id, r.conn);
      }
    }
  }

  lemma NoneWithoutKey<C>(p: Pool<C>, key: string, dials: Dials<C>)
    requires GetForKey(p, key, dials).1.Granted?
    ensures key != ""
  {
  }

  lemma {:induction false} HeldThrough<C>(q: Pool<C>, steps: seq<Step<C>>, n: nat, key: string, id: string, c: C)
    requires n <= |steps| && Held(q, key, id, c) && key != "" && id != ""
    requires forall i :: 0 <= i < |steps| ==> !Breaks(steps[i], key, id)
    ensures Held(Run(q, steps[..n]), key, id, c)
    decreases n
  {
    if n > 0 {
      HeldThrough(q, steps, n - 1, key, id, c);
      RunPrefix(q, steps, n - 1);
      AffinityStep(Run(q, steps[..n - 1]), steps[n - 1], key, id, c);
    }
  }
}
