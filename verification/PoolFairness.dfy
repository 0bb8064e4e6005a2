/** Fairness of the round-robin getter: while the instance list and the set of instances a connection
    can be had to stay the same, the round-robin calls go through those instances in cyclic list
    order, even with sticky calls in between. */
module PoolFairness {
  import opened PoolModel
  import opened PoolSafety

  // ---------- arithmetic of turning ----------

  lemma DivModNext(a: nat, k: nat)
    requires k > 0
    ensures a % k + 1 == k ==> (a + 1) % k == 0 && (a + 1) / k == a / k + 1
    ensures a % k + 1 < k ==> (a + 1) % k == a % k + 1 && (a + 1) / k == a / k
  {
    NextDivMod(a, k, a / k, a % k);
  }

  lemma NextDivMod(a: nat, k: nat, q: nat, r: nat)
    requires r < k && a == q * k + r
    ensures r + 1 == k ==> (a + 1) % k == 0 && (a + 1) / k == q + 1
    ensures r + 1 < k ==> (a + 1) % k == r + 1 && (a + 1) / k == q
  {
    if r + 1 == k {
      assert (q + 1) * k == q * k + k;
      DivModUnique(a + 1, k, q + 1, 0);
    } else {
      DivModUnique(a + 1, k, q, r + 1);
    }
  }

  lemma DivModUnique(a: nat, k: nat, q: nat, r: nat)
    requires r < k && a == q * k + r
    ensures a / k == q && a % k == r
  {
    var d := a / k - q;
    assert d * k == a / k * k - q * k;
    assert d * k == r - a % k;
    if d > 0 {
      AtLeastOnce(d, k);
    } else if d < 0 {
      AtLeastOnce(-d, k);
    }
  }

  lemma AtLeastOnce(d: int, k: nat)
    requires d > 0
    ensures d * k >= k
  {
    assert d * k == (d - 1) * k + k;
  }

  lemma ModOnce(a: nat, n: nat)
    requires a < n + n
    ensures a % n == if a < n then a else a - n
  {
    if a < n {
      DivModUnique(a, n, 0, a);
    } else {
      DivModUnique(a, n, 1, a - n);
    }
  }

  // ---------- the usable instances, in list order ----------

  /** Instance i can be reached: it is connected already or its dials succeed. */
  ghost predicate Reachable<C>(p: Pool<C>, up: set<string>, i: nat)
    requires i < |p.instances|
  {
    p.instances[i].id in p.instanceConn || p.instances[i].id in up
  }

  /** Connections are made to instances in `up` only. */
  ghost predicate OnlyUp<C>(p: Pool<C>, dials: Dials<C>, up: set<string>) {
    forall i :: 0 <= i < |p.instances| && i < |dials| && dials[i].Some? ==> p.instances[i].id in up
  }

  /** The j-th position from `rr` on, wrapping around, is the first that can be reached. */
  ghost predicate FirstReachable<C>(p: Pool<C>, up: set<string>, j: nat) {
    && j < |p.instances| && Reachable(p, up, At(p, j))
    && forall i :: 0 <= i < j ==> !Reachable(p, up, At(p, i))
  }

  /** The dials of a round-robin call go as `up` says: none succeeds for another instance, and the one
      for the first instance in turn that can be reached does not fail. The call asks for no later one,
      so that nothing more is said about those. */
  ghost predicate DialsMatch<C>(p: Pool<C>, dials: Dials<C>, up: set<string>) {
    OnlyUp(p, dials, up) && forall j :: FirstReachable(p, up, j) ==> Usable(p, dials, At(p, j))
  }

  /** The reachable positions below n, in order. */
  ghost function Positions<C>(p: Pool<C>, up: set<string>, n: nat): (d: seq<nat>)
    requires n <= |p.instances|
    ensures forall t :: 0 <= t < |d| ==> d[t] < n && Reachable(p, up, d[t])
    ensures forall t, u :: 0 <= t < u < |d| ==> d[t] < d[u]
  {
    if n == 0 then []
    else Positions(p, up, n - 1) + if Reachable(p, up, n - 1) then [n - 1] else []
  }

  ghost function Ring<C>(p: Pool<C>, up: set<string>): seq<nat> {
    Positions(p, up, |p.instances|)
  }

  /** Positions below a are the beginning of the positions below b; they are the same when nothing
      between is reachable. */
  lemma {:induction false} PositionsPrefix<C>(p: Pool<C>, up: set<string>, a: nat, b: nat)
    requires a <= b <= |p.instances|
    ensures Positions(p, up, a) <= Positions(p, up, b)
    ensures (forall i :: a <= i < b ==> !Reachable(p, up, i)) ==> Positions(p, up, a) == Positions(p, up, b)
    decreases b - a
  {
    if a < b {
      PositionsPrefix(p, up, a, b - 1);
    }
  }

  /** Where in the ring the next turn will be taken. */
  ghost function Phase<C>(p: Pool<C>, up: set<string>): nat
    requires p.rr <= |p.instances| && Ring(p, up) != []
  {
    |Positions(p, up, p.rr)| % |Ring(p, up)|
  }

  lemma {:induction false} SkippedIsFirst<C>(p: Pool<C>, dials: Dials<C>, k: nat, j: nat)
    requires k <= |p.instances| && k <= j < Skipped(p, dials, k)
    ensures !Usable(p, dials, At(p, j))
    decreases |p.instances| - k
  {
    if k < j {
      SkippedIsFirst(p, dials, k + 1, j);
    }
  }

  lemma {:induction false} PassesUnreachable<C>(p: Pool<C>, up: set<string>, dials: Dials<C>, k: nat)
    requires p.instances != [] && DialsMatch(p, dials, up) && k <= Skipped(p, dials, 0)
    ensures forall j :: 0 <= j < k ==> !Reachable(p, up, At(p, j))
    decreases k
  {
    if k > 0 {
      PassesUnreachable(p, up, dials, k - 1);
      SkippedIsFirst(p, dials, 0, k - 1);
      assert Reachable(p, up, At(p, k - 1)) ==> FirstReachable(p, up, k - 1);
    }
  }

  /** The positions between the index and the one granted, wrapping around, are unreachable. */
  lemma PassedOver<C>(p: Pool<C>, up: set<string>, dials: Dials<C>, x: nat)
    requires RrInRange(p) && x < |p.instances| && DialsMatch(p, dials, up)
    requires var k := Skipped(p, dials, 0); p.rr <= x < p.rr + k || x + |p.instances| < p.rr + k
    ensures !Reachable(p, up, x)
  {
    var n := |p.instances|;
    var j := if p.rr <= x < p.rr + Skipped(p, dials, 0) then x - p.rr else x + n - p.rr;
    PassesUnreachable(p, up, dials, j + 1);
    ModOnce(p.rr + j, n);
    assert At(p, j) == x;
  }

  /** A call takes its turn at the phase, whatever the index inside the list. */
  lemma TurnAtPhase<C>(p: Pool<C>, up: set<string>, dials: Dials<C>)
    requires RrInRange(p) && Ring(p, up) != [] && DialsMatch(p, dials, up)
    ensures var k := Skipped(p, dials, 0);
      && k < |p.instances|
      && At(p, k) == Ring(p, up)[Phase(p, up)]
      && |Positions(p, up, At(p, k))| == Phase(p, up)
  {
    var n, ring, k := |p.instances|, Ring(p, up), Skipped(p, dials, 0);
    if k == n {
      PassedOver(p, up, dials, ring[0]);
      assert false;
    } else {
      ModOnce(p.rr + k, n);
      var i := At(p, k);
      if p.rr + k < n {
        forall x | p.rr <= x < i ensures !Reachable(p, up, x) {
          PassedOver(p, up, dials, x);
        }
        PositionsPrefix(p, up, p.rr, i);
      } else {
        forall x | p.rr <= x < n ensures !Reachable(p, up, x) {
          PassedOver(p, up, dials, x);
        }
        PositionsPrefix(p, up, p.rr, n);
        forall x | 0 <= x < i ensures !Reachable(p, up, x) {
          PassedOver(p, up, dials, x);
        }
        PositionsPrefix(p, up, 0, i);
        DivModUnique(|ring|, |ring|, 1, 0);
      }
      RankOf(p, up, i);
      DivModUnique(|Positions(p, up, i)|, |ring|, 0, |Positions(p, up, i)|);
    }
  }

  /** A reachable position stands in the ring right behind those below it. */
  lemma RankOf<C>(p: Pool<C>, up: set<string>, i: nat)
    requires i < |p.instances| && Reachable(p, up, i)
    ensures var t := |Positions(p, up, i)|;
      t < |Ring(p, up)| && Ring(p, up)[t] == i && |Positions(p, up, i + 1)| == t + 1
    ensures i + 1 == |p.instances| ==> |Positions(p, up, i)| + 1 == |Ring(p, up)|
  {
    PositionsPrefix(p, up, i + 1, |p.instances|);
    assert Positions(p, up, i + 1) == Positions(p, up, i) + [i];
  }

  // ---------- getters keep the ring ----------

  /** The ring is determined by what is reachable. */
  lemma SameRing<C>(p: Pool<C>, q: Pool<C>, up: set<string>, n: nat)
    requires p.instances == q.instances && n <= |p.instances|
    requires forall i :: 0 <= i < |p.instances| ==> (Reachable(p, up, i) <==> Reachable(q, up, i))
    ensures Positions(p, up, n) == Positions(q, up, n)
  {
  }

  lemma AttachSameReach<C>(p: Pool<C>, up: set<string>, dials: Dials<C>, i: nat)
    requires i < |p.instances| && Usable(p, dials, i) && OnlyUp(p, dials, up)
    ensures var q := Attach(p, dials, i).0;
      && q.instances == p.instances && q.rr == p.rr
      && forall j :: 0 <= j < |p.instances| ==> (Reachable(p, up, j) <==> Reachable(q, up, j))
  {
  }

  lemma StickyKeepsPhase<C>(p: Pool<C>, up: set<string>, key: string, dials: Dials<C>)
    requires RrInRange(p) && Ring(p, up) != [] && OnlyUp(p, dials, up)
    ensures var q := GetForKey(p, key, dials).0;
      && q.instances == p.instances && q.closed == p.closed && RrInRange(q)
      && Ring(q, up) == Ring(p, up) && Phase(q, up) == Phase(p, up)
  {
    var (q, a) := GetForKey(p, key, dials);
    ForKeyEffect(p, key, dials);
    if !p.closed && key != "" && !LiveBinding(p, key) && a.Granted? {
      var r := DropStale(p, key);
      FirstFreeIsFirst(r, key, dials, 0);
      AttachSameReach(r, up, dials, FirstFree(r, key, dials, 0));
    }
    SameRing(p, q, up, |p.instances|);
    SameRing(p, q, up, p.rr);
  }

  /** A round-robin call grants the instance at the phase and moves the phase on by one. */
  lemma RoundRobinMovesPhase<C>(p: Pool<C>, up: set<string>, dials: Dials<C>)
    requires RrInRange(p) && Ring(p, up) != [] && DialsMatch(p, dials, up) && !p.closed
    ensures var (q, a) := GetRoundRobin(p, dials);
      && a.Granted? && a.id == p.instances[Ring(p, up)[Phase(p, up)]].id
      && q.instances == p.instances && q.closed == p.closed && RrInRange(q)
      && Ring(q, up) == Ring(p, up)
      && Phase(q, up) == (Phase(p, up) + 1) % |Ring(p, up)|
  {
    TurnAtPhase(p, up, dials);
    var n := |p.instances|;
    var i := At(p, Skipped(p, dials, 0));
    assert GetRoundRobin(p, dials) == Turn(p, dials, i);
    TurnRing(p, up, dials, i);
    RankOf(p, up, i);
    ModOnce(i + 1, n);
    var q := Turn(p, dials, i).0;
    SameRing(p, q, up, q.rr);
    if i + 1 < n {
      PhaseAfter(p, up, i + 1);
    } else {
      DivModUnique(Phase(p, up) + 1, |Ring(p, up)|, 1, 0);
      DivModUnique(0, |Ring(p, up)|, 0, 0);
    }
  }

  lemma TurnRing<C>(p: Pool<C>, up: set<string>, dials: Dials<C>, i: nat)
    requires i < |p.instances| && Usable(p, dials, i) && OnlyUp(p, dials, up)
    ensures var q := Turn(p, dials, i).0;
      && q.instances == p.instances && q.closed == p.closed && q.rr == (i + 1) % |p.instances| < |p.instances|
      && Ring(q, up) == Ring(p, up)
      && forall j :: 0 <= j < |p.instances| ==> (Reachable(p, up, j) <==> Reachable(q, up, j))
  {
    AttachSameReach(p, up, dials, i);
    SameRing(p, Turn(p, dials, i).0, up, |p.instances|);
  }

  lemma PhaseAfter<C>(p: Pool<C>, up: set<string>, i: nat)
    requires i <= |p.instances| && Ring(p, up) != []
    ensures |Positions(p, up, i)| <= |Ring(p, up)|
  {
    PositionsPrefix(p, up, i, |p.instances|);
  }

  // ---------- calm runs ----------

  /** A getter call whose dials go as `up` says, or a refresh that finds nothing new. */
  ghost predicate Calm<C>(p: Pool<C>, up: set<string>, s: Step<C>) {
    match s
    case ForKey(_, dials) => OnlyUp(p, dials, up)
    case RoundRobin(dials) => DialsMatch(p, dials, up)
    case Refresh(snapshot) => snapshot == p.instances
    case _ => false
  }

  ghost predicate CalmRun<C>(p: Pool<C>, up: set<string>, steps: seq<Step<C>>) {
    forall n :: 0 <= n < |steps| ==> Calm(Run(p, steps[..n]), up, steps[n])
  }

  /** A refresh that finds nothing new keeps the ring and the phase. */
  lemma IdleRefresh<C>(p: Pool<C>, up: set<string>)
    requires RrInRange(p) && Ring(p, up) != []
    ensures var q := ApplyRefresh(p, p.instances);
      q.instances == p.instances && q.closed == p.closed && RrInRange(q)
      && Ring(q, up) == Ring(p, up) && Phase(q, up) == Phase(p, up)
  {
    var q := ApplyRefresh(p, p.instances);
    forall i | 0 <= i < |p.instances| ensures Reachable(q, up, i) == Reachable(p, up, i) {
      assert Listed(p.instances, p.instances[i].id);
    }
    SameRing(p, q, up, |p.instances|);
    SameRing(p, q, up, p.rr);
  }

  /** The instance a step grants, when it is a round-robin call. */
  ghost function TurnOf<C>(p: Pool<C>, s: Step<C>): seq<string> {
    if s.RoundRobin? && GetRoundRobin(p, s.dials).1.Granted? then [GetRoundRobin(p, s.dials).1.id] else []
  }

  /** The instances the round-robin calls of a run grant, in order. */
  ghost function Turns<C>(p: Pool<C>, steps: seq<Step<C>>): seq<string> {
    if steps == [] then []
    else
      var front := steps[..|steps| - 1];
      Turns(p, front) + TurnOf(Run(p, front), steps[|steps| - 1])
  }

  ghost function RoundRobinCalls<C>(steps: seq<Step<C>>): nat {
    if steps == [] then 0
    else RoundRobinCalls(steps[..|steps| - 1]) + if steps[|steps| - 1].RoundRobin? then 1 else 0
  }

  /** The j-th element of a ring from s on. */
  ghost function Around(ring: seq<nat>, s: nat, j: nat): (i: nat)
    requires ring != []
    ensures i in ring
  {
    ring[(s + j) % |ring|]
  }

  /** Pool q is pool p after the given turns, taken from phase s on: they went round the ring. */
  ghost predicate WentRound<C>(p: Pool<C>, up: set<string>, s: nat, q: Pool<C>, turns: seq<string>) {
    && q.instances == p.instances && !q.closed && RrInRange(q)
    && Ring(q, up) == Ring(p, up) != []
    && Phase(q, up) == (s + |turns|) % |Ring(p, up)|
    && forall j :: 0 <= j < |turns| ==> turns[j] == p.instances[Around(Ring(p, up), s, j)].id
  }

  /** The run goes round the ring: every round-robin call is granted, the j-th of them the j-th
      instance of the ring from the phase on. */
  lemma {:induction false} GoesRound<C>(p: Pool<C>, up: set<string>, steps: seq<Step<C>>)
    requires RrInRange(p) && Ring(p, up) != [] && !p.closed && CalmRun(p, up, steps)
    ensures WentRound(p, up, Phase(p, up), Run(p, steps), Turns(p, steps))
    ensures |Turns(p, steps)| == RoundRobinCalls(steps)
    decreases |steps|
  {
    if steps == [] {
      DivModUnique(Phase(p, up), |Ring(p, up)|, 0, Phase(p, up));
    } else {
      var front, last := steps[..|steps| - 1], steps[|steps| - 1];
      forall n | 0 <= n < |front| ensures front[n] == steps[n] && front[..n] == steps[..n] {}
      GoesRound(p, up, front);
      GoesOn(p, up, Phase(p, up), Run(p, front), Turns(p, front), last);
    }
  }

  lemma GoesOn<C>(p: Pool<C>, up: set<string>, s: nat, q: Pool<C>, turns: seq<string>, last: Step<C>)
    requires WentRound(p, up, s, q, turns)
    requires Calm(q, up, last)
    ensures WentRound(p, up, s, Do(q, last), turns + TurnOf(q, last))
    ensures |TurnOf(q, last)| == if last.RoundRobin? then 1 else 0
  {
    if last.Refresh? {
      IdleRefresh(q, up);
    } else {
      OneMoreTurn(q, up, last, s, |turns|);
    }
    if !last.RoundRobin? {
      assert turns + TurnOf(q, last) == turns;
    }
  }

  lemma OneMoreTurn<C>(q: Pool<C>, up: set<string>, last: Step<C>, s: nat, m: nat)
    requires RrInRange(q) && Ring(q, up) != [] && !q.closed
    requires (last.ForKey? || last.RoundRobin?) && Calm(q, up, last)
    requires Phase(q, up) == (s + m) % |Ring(q, up)|
    ensures var r, a := Do(q, last), Answer(q, last).value;
      && r.instances == q.instances && !r.closed && RrInRange(r) && Ring(r, up) == Ring(q, up)
      && (last.ForKey? ==> Phase(r, up) == Phase(q, up))
      && (last.RoundRobin? ==>
            && a.Granted? && a.id == q.instances[Around(Ring(q, up), s, m)].id
            && Phase(r, up) == (s + (m + 1)) % |Ring(q, up)|)
  {
    match last
    case ForKey(key, dials) =>
      StickyKeepsPhase(q, up, key, dials);
    case RoundRobin(dials) =>
      RoundRobinMovesPhase(q, up, dials);
      DivModNext(s + m, |Ring(q, up)|);
      ModOnce((s + m) % |Ring(q, up)| + 1, |Ring(q, up)|);
  }

  /** How often each of k values occurs in a sequence that goes round them from s on. */
  lemma {:induction false} CyclicCount(ids: seq<string>, s: nat, a: seq<string>, t: nat)
    requires ids != [] && s < |ids| && t < |ids|
    requires forall i, j :: 0 <= i < j < |ids| ==> ids[i] != ids[j]
    requires forall j :: 0 <= j < |a| ==> a[j] == ids[(s + j) % |ids|]
    ensures var k := |ids|;
      multiset(a)[ids[t]] == |a| / k + (if (if t >= s then t - s else t - s + k) < |a| % k then 1 else 0)
    decreases |a|
  {
    var k := |ids|;
    if a == [] {
      DivModUnique(0, k, 0, 0);
    } else {
      var front := a[..|a| - 1];
      assert a == front + [a[|front|]];
      CyclicCount(ids, s, front, t);
      DivModNext(|front|, k);
      PlusMod(s, |front|, k);
      assert a[|front|] == ids[(s + |front|) % k];
      assert multiset(a)[ids[t]] == multiset(front)[ids[t]] + if a[|front|] == ids[t] then 1 else 0;
    }
  }

  lemma PlusMod(s: nat, m: nat, k: nat)
    requires s < k
    ensures (s + m) % k == if s + m % k < k then s + m % k else s + m % k - k
  {
    var q, r := m / k, m % k;
    assert m == q * k + r;
    if s + r < k {
      DivModUnique(s + m, k, q, s + r);
    } else {
      assert s + m == (q + 1) * k + (s + r - k) by {
        assert (q + 1) * k == q * k + k;
      }
      DivModUnique(s + m, k, q + 1, s + r - k);
    }
  }

  /** Fairness: over any run of getter calls, and refreshes that find nothing new, with a fixed,
      non-empty set of reachable instances, each
      of the |ring| reachable instances is granted to floor(m / |ring|) or ceil(m / |ring|) of the m
      round-robin calls, and no other instance to any. */
  lemma {:induction false} RoundRobinIsFair<C>(p: Pool<C>, up: set<string>, steps: seq<Step<C>>, i: nat)
    requires RrInRange(p) && DistinctIds(p.instances) && !p.closed && CalmRun(p, up, steps)
    requires Ring(p, up) != [] && i < |p.instances|
    ensures |Turns(p, steps)| == RoundRobinCalls(steps)
    ensures var m, k := |Turns(p, steps)|, |Ring(p, up)|;
      var granted := multiset(Turns(p, steps))[p.instances[i].id];
      if Reachable(p, up, i) then m / k <= granted <= (m + k - 1) / k else granted == 0
  {
    hide Run, Turns;
    GoesRound(p, up, steps);
    FairCount(p, up, Phase(p, up), Run(p, steps), Turns(p, steps), i);
  }

  lemma FairCount<C>(p: Pool<C>, up: set<string>, s: nat, q: Pool<C>, turns: seq<string>, i: nat)
    requires WentRound(p, up, s, q, turns) && DistinctIds(p.instances) && i < |p.instances| && s < |Ring(p, up)|
    ensures var m, k := |turns|, |Ring(p, up)|;
      var granted := multiset(turns)[p.instances[i].id];
      if Reachable(p, up, i) then m / k <= granted <= (m + k - 1) / k else granted == 0
  {
    var ring := Ring(p, up);
    if Reachable(p, up, i) {
      RankOf(p, up, i);
      CountInRing(p, ring, s, turns, i, |Positions(p, up, i)|);
      Ceiling(|turns|, |ring|);
    } else {
      forall j | 0 <= j < |turns| ensures turns[j] != p.instances[i].id {
        assert Reachable(p, up, Around(ring, s, j));
      }
      assert p.instances[i].id !in turns;
    }
  }

  lemma CountInRing<C>(p: Pool<C>, ring: seq<nat>, s: nat, turns: seq<string>, i: nat, t: nat)
    requires DistinctIds(p.instances) && s < |ring| && t < |ring| && ring[t] == i
    requires forall x :: 0 <= x < |ring| ==> ring[x] < |p.instances|
    requires forall x, y :: 0 <= x < y < |ring| ==> ring[x] < ring[y]
    requires forall j :: 0 <= j < |turns| ==> turns[j] == p.instances[Around(ring, s, j)].id
    ensures |turns| / |ring| <= multiset(turns)[p.instances[i].id]
                             <= |turns| / |ring| + if |turns| % |ring| > 0 then 1 else 0
  {
    var ids := seq(|ring|, x requires 0 <= x < |ring| => p.instances[ring[x]].id);
    forall j | 0 <= j < |turns| ensures turns[j] == ids[(s + j) % |ids|] {
      assert turns[j] == p.instances[Around(ring, s, j)].id;
    }
    CyclicCount(ids, s, turns, t);
  }

  lemma Ceiling(m: nat, k: nat)
    requires k > 0
    ensures (m + k - 1) / k == m / k + if m % k > 0 then 1 else 0
  {
    var q, r := m / k, m % k;
    if r == 0 {
      DivModUnique(m + k - 1, k, q, k - 1);
    } else {
      assert m + k - 1 == (q + 1) * k + (r - 1) by {
        assert (q + 1) * k == q * k + k;
      }
      DivModUnique(m + k - 1, k, q + 1, r - 1);
    }
  }
}
