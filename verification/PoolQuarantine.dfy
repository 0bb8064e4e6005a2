/** When a failed instance is quarantined, exactly: a failure report cuts out one list entry, so that an
    instance listed more than once stays within reach. */
module PoolQuarantine {
  import opened Options
  import opened PoolModel
  import opened PoolSafety
  import opened PoolFairness

  /** How far position i lies behind the index, wrapping around. */
  ghost function Behind(rr: nat, i: nat, n: nat): nat
    requires rr < n && i < n
  {
    if i >= rr then i - rr else i + n - rr
  }

  ghost function Distance<C>(p: Pool<C>, i: nat): nat
    requires RrInRange(p) && i < |p.instances|
  {
    Behind(p.rr, i, |p.instances|)
  }

  /** The factory would make one connection, to the instance at position i. */
  ghost function OnlyAt<C>(p: Pool<C>, i: nat, c: C): Dials<C>
    requires i < |p.instances|
  {
    seq(|p.instances|, j => if j == i then Some(c) else None)
  }

  lemma SomeTurnComes<C>(p: Pool<C>, i: nat, c: C)
    requires RrInRange(p) && i < |p.instances|
    ensures var k := Skipped(p, OnlyAt(p, i, c), 0);
      k <= Distance(p, i) < |p.instances| && (k == Distance(p, i) ==> At(p, k) == i)
  {
    var d := Distance(p, i);
    ModOnce(p.rr + d, |p.instances|);
    assert At(p, d) == i && Usable(p, OnlyAt(p, i, c), At(p, d));
    if d < Skipped(p, OnlyAt(p, i, c), 0) {
      SkippedIsFirst(p, OnlyAt(p, i, c), 0, d);
    }
  }

  lemma NextIsCloser(rr: nat, i: nat, n: nat, k: nat)
    requires rr < n && i < n && k < Behind(rr, i, n)
    ensures Behind(((rr + k) % n + 1) % n, i, n) < Behind(rr, i, n)
  {
    ModOnce(rr + k, n);
    ModOnce((rr + k) % n + 1, n);
  }

  /** A turn that goes to another position brings the index closer. */
  lemma TurnComesCloser<C>(p: Pool<C>, i: nat, c: C)
    requires RrInRange(p) && i < |p.instances| && !p.closed
    requires Skipped(p, OnlyAt(p, i, c), 0) < Distance(p, i)
    ensures var q := GetRoundRobin(p, OnlyAt(p, i, c)).0;
      q.instances == p.instances && !q.closed && RrInRange(q) && Distance(q, i) < Distance(p, i)
  {
    hide Skipped, Usable, OnlyAt, Behind, GetRoundRobin;
    var k := Skipped(p, OnlyAt(p, i, c), 0);
    SomeTurnComes(p, i, c);
    TurnIs(p, OnlyAt(p, i, c));
    NextIsCloser(p.rr, i, |p.instances|, k);
    hide At;
  }

  lemma TurnIs<C>(p: Pool<C>, dials: Dials<C>)
    requires !p.closed && p.instances != [] && Skipped(p, dials, 0) < |p.instances|
    ensures var q, n := GetRoundRobin(p, dials).0, |p.instances|;
      && q.instances == p.instances && !q.closed && q.rr == ((p.rr + Skipped(p, dials, 0)) % n + 1) % n
      && q.rr < n
  {
    hide Skipped, Usable, Attach;
    AttachMoves(p, dials, At(p, Skipped(p, dials, 0)));
  }

  lemma AttachMoves<C>(p: Pool<C>, dials: Dials<C>, i: nat)
    requires i < |p.instances| && Usable(p, dials, i)
    ensures var q := Attach(p, dials, i).0; q.instances == p.instances && q.closed == p.closed
  {
  }

  ghost predicate OnlyRoundRobin<C>(steps: seq<Step<C>>) {
    forall n :: 0 <= n < |steps| ==> steps[n].RoundRobin?
  }

  /** An open pool comes round to every listed position: some round-robin call grants its instance. */
  lemma {:induction false} ComesRound<C>(p: Pool<C>, i: nat, c: C, from: Pool<C>, before: seq<Step<C>>)
    returns (steps: seq<Step<C>>, s: Step<C>, granted: Reply<C>)
    requires p == Run(from, before) && RrInRange(p) && i < |p.instances| && !p.closed && OnlyRoundRobin(before)
    ensures OnlyRoundRobin(steps) && s.RoundRobin?
    ensures Answer(Run(from, steps), s) == Some(granted) && granted.Granted? && granted.id == p.instances[i].id
    decreases Distance(p, i)
  {
    var dials := OnlyAt(p, i, c);
    SomeTurnComes(p, i, c);
    s := RoundRobin(dials);
    if Skipped(p, dials, 0) == Distance(p, i) {
      steps, granted := before, GetRoundRobin(p, dials).1;
    } else {
      TurnComesCloser(p, i, c);
      assert (before + [s])[..|before|] == before;
      steps, s, granted := ComesRound(Do(p, s), i, c, from, before + [s]);
    }
  }

  /** The failed instance can be granted again although no refresh has listed it. */
  ghost predicate GrantedAgain<C>(q: Pool<C>, id: string, steps: seq<Step<C>>, s: Step<C>) {
    && (forall n :: 0 <= n < |steps| ==> !Relists(steps[n], id))
    && Answer(Run(q, steps), s).Some? && Answer(Run(q, steps), s).value.Granted?
    && Answer(Run(q, steps), s).value.id == id
  }

  /** Quarantine is exact, for every list and every open pool: after a failure of an instance, no run
      without a snapshot that lists it ends in a grant of it, if and only if it was listed at most once. */
  lemma {:induction false} QuarantineIsExact<C>(p: Pool<C>, key: string, id: string, c: C)
    requires Inv(p) && !p.closed
    ensures Occurrences(p.instances, id) <= 1 <==>
            (forall steps, s :: !GrantedAgain(OnBackendFailure(p, key, id), id, steps, s))
  {
    hide Run, Inv, Answer, OnBackendFailure, Occurrences;
    var q := OnBackendFailure(p, key, id);
    if Occurrences(p.instances, id) <= 1 {
      forall steps, s ensures !GrantedAgain(q, id, steps, s) {
        NotAgain(p, key, id, steps, s);
      }
    } else {
      var steps, s := Again(p, key, id, c);
    }
  }

  lemma NotAgain<C>(p: Pool<C>, key: string, id: string, steps: seq<Step<C>>, s: Step<C>)
    requires Inv(p) && Occurrences(p.instances, id) <= 1
    ensures !GrantedAgain(OnBackendFailure(p, key, id), id, steps, s)
  {
    hide Run, Inv, Answer, OnBackendFailure, Occurrences, Relists;
    var q := OnBackendFailure(p, key, id);
    var a := Answer(Run(q, steps), s);
    if (forall n :: 0 <= n < |steps| ==> !Relists(steps[n], id)) && a.Some? && a.value.Granted? {
      Quarantine(p, key, id, steps, s, a.value);
    }
  }

  lemma Again<C>(p: Pool<C>, key: string, id: string, c: C) returns (steps: seq<Step<C>>, s: Step<C>)
    requires Inv(p) && !p.closed && Occurrences(p.instances, id) > 1
    ensures GrantedAgain(OnBackendFailure(p, key, id), id, steps, s)
  {
    var q := OnBackendFailure(p, key, id);
    FailureDelistsExactly(p.instances, id);
    FailKeeps(p, key, id);
    var i: nat :| i < |q.instances| && q.instances[i].id == id;
    var none: seq<Step<C>> := [];
    assert Run(q, none) == q;
    hide Run;
    var granted;
    steps, s, granted := ComesRound(q, i, c, q, none);
  }
}
