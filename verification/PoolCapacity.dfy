/** How many sticky keys a pool can serve: exactly as many as it lists instances. */
module PoolCapacity {
  import opened PoolModel
  import opened PoolSafety

  /** The other keys that occupy a listed instance. */
  ghost function OthersBound<C>(p: Pool<C>, key: string): set<string> {
    set k | k in p.keyToID && k != key && Listed(p.instances, p.keyToID[k])
  }

  /** Position i is the first that no other key occupies. */
  ghost predicate FirstVacant<C>(p: Pool<C>, key: string, i: nat) {
    && i < |p.instances|
    && !AssignedToOther(p.keyToID, p.instances[i].id, key)
    && forall j :: 0 <= j < i ==> AssignedToOther(p.keyToID, p.instances[j].id, key)
  }

  /** Dialing does not fail in a call for the key: unless it has a live binding, a connection can be had
      to the first instance that no other key occupies. The call asks for no other connection, so that
      nothing is said about other positions. */
  ghost predicate VacancyDials<C>(p: Pool<C>, key: string, dials: Dials<C>) {
    LiveBinding(p, key) || forall i :: FirstVacant(p, key, i) ==> Usable(p, dials, i)
  }

  /** Then the scan passes over occupied instances only. */
  lemma {:induction false} PassesOccupied<C>(p: Pool<C>, key: string, dials: Dials<C>, n: nat)
    requires VacancyDials(p, key, dials) && !LiveBinding(p, key) && n <= FirstFree(DropStale(p, key), key, dials, 0)
    ensures forall i :: 0 <= i < n ==> AssignedToOther(p.keyToID, p.instances[i].id, key)
    decreases n
  {
    if n > 0 {
      PassesOccupied(p, key, dials, n - 1);
      var q := DropStale(p, key);
      FirstFreeIsFirst(q, key, dials, 0);
      assert Usable(q, dials, n - 1) == Usable(p, dials, n - 1);
      OthersKept(p, key, p.instances[n - 1].id);
      assert !AssignedToOther(p.keyToID, p.instances[n - 1].id, key) ==> FirstVacant(p, key, n - 1);
    }
  }

  /** Dropping a key's own binding does not touch what others occupy. */
  lemma OthersKept<C>(p: Pool<C>, key: string, id: string)
    ensures AssignedToOther(DropStale(p, key).keyToID, id, key) <==> AssignedToOther(p.keyToID, id, key)
  {
    if AssignedToOther(p.keyToID, id, key) {
      var k :| k in p.keyToID && k != key && p.keyToID[k] == id;
      assert k in DropStale(p, key).keyToID && DropStale(p, key).keyToID[k] == id;
    }
  }

  ghost function IdSet(instances: seq<Instance>): set<string> {
    set i | 0 <= i < |instances| :: instances[i].id
  }

  ghost function Image(s: set<string>, m: map<string, string>): set<string>
    requires s <= m.Keys
  {
    set k | k in s :: m[k]
  }

  lemma {:induction false} ImageSize(s: set<string>, m: map<string, string>)
    requires s <= m.Keys && Exclusive(m)
    ensures |Image(s, m)| == |s|
    decreases s
  {
    if s != {} {
      var k :| k in s;
      ImageSize(s - {k}, m);
      assert Image(s, m) == Image(s - {k}, m) + {m[k]};
      assert m[k] !in Image(s - {k}, m);
    }
  }

  lemma {:induction false} IdSetSize(instances: seq<Instance>)
    requires DistinctIds(instances)
    ensures |IdSet(instances)| == |instances|
    decreases instances
  {
    if instances != [] {
      var front, last := instances[..|instances| - 1], instances[|instances| - 1];
      IdSetSize(front);
      assert IdSet(instances) == IdSet(front) + {last.id} by {
        forall i | 0 <= i < |instances| ensures instances[i].id in IdSet(front) + {last.id} {
          if i < |front| {
            assert front[i] == instances[i];
          }
        }
        forall i | 0 <= i < |front| ensures front[i].id in IdSet(instances) {
          assert front[i] == instances[i];
        }
      }
      assert last.id !in IdSet(front);
    }
  }

  lemma {:induction false} SubsetSize(a: set<string>, b: set<string>)
    requires a <= b
    ensures |a| <= |b| && (|a| == |b| ==> a == b)
  {
    assert b == a + (b - a);
    assert |b| == |a| + |b - a|;
  }

  /** Each listed instance is occupied by another key exactly when the other keys bound to listed
      instances are as many as the instances. */
  lemma FullByCounting<C>(p: Pool<C>, key: string)
    requires Exclusive(p.keyToID) && DistinctIds(p.instances)
    ensures |OthersBound(p, key)| <= |p.instances|
    ensures |OthersBound(p, key)| == |p.instances| <==>
            forall i :: 0 <= i < |p.instances| ==> AssignedToOther(p.keyToID, p.instances[i].id, key)
  {
    var bound := OthersBound(p, key);
    var taken, all := Image(bound, p.keyToID), IdSet(p.instances);
    ImageSize(bound, p.keyToID);
    IdSetSize(p.instances);
    SubsetSize(taken, all);
    if taken == all {
      forall i | 0 <= i < |p.instances| ensures AssignedToOther(p.keyToID, p.instances[i].id, key) {
        assert p.instances[i].id in all;
      }
    }
    if forall i :: 0 <= i < |p.instances| ==> AssignedToOther(p.keyToID, p.instances[i].id, key) {
      forall id | id in all ensures id in taken {
        var i :| 0 <= i < |p.instances| && p.instances[i].id == id;
        assert AssignedToOther(p.keyToID, id, key);
        var k :| k in p.keyToID && k != key && p.keyToID[k] == id;
        assert k in bound;
      }
    }
  }

  /** Capacity is exact: while dialing does not fail, an open pool refuses a key that has no live
      binding if and only if the other keys bound to listed instances are as many as the instances. */
  lemma CapacityIsExact<C>(p: Pool<C>, key: string, dials: Dials<C>)
    requires Inv(p) && DistinctIds(p.instances) && !p.closed && VacancyDials(p, key, dials)
    requires key != "" && !LiveBinding(p, key)
    ensures GetForKey(p, key, dials).1.Refused? <==> |OthersBound(p, key)| == |p.instances|
  {
    FullByCounting(p, key);
    var q := DropStale(p, key);
    var i := FirstFree(q, key, dials, 0);
    FirstFreeIsFirst(q, key, dials, 0);
    PassesOccupied(p, key, dials, i);
    if i < |p.instances| {
      OthersKept(p, key, p.instances[i].id);
    }
  }

  // ---------- first come, first served ----------

  /** Calls for pairwise distinct keys in which dialing does not fail. */
  ghost predicate DistinctCalls<C>(p: Pool<C>, calls: seq<Step<C>>) {
    && (forall j :: 0 <= j < |calls| ==>
          calls[j].ForKey? && calls[j].key != "" && VacancyDials(Run(p, calls[..j]), calls[j].key, calls[j].dials))
    && (forall i, j :: 0 <= i < j < |calls| ==> calls[i].key != calls[j].key)
  }

  ghost function KeysOf<C>(calls: seq<Step<C>>): set<string>
    requires forall j :: 0 <= j < |calls| ==> calls[j].ForKey?
  {
    set j | 0 <= j < |calls| :: calls[j].key
  }

  lemma {:induction false} KeysOfSize<C>(calls: seq<Step<C>>)
    requires forall j :: 0 <= j < |calls| ==> calls[j].ForKey?
    requires forall i, j :: 0 <= i < j < |calls| ==> calls[i].key != calls[j].key
    ensures |KeysOf(calls)| == |calls|
    decreases calls
  {
    if calls != [] {
      var front, last := calls[..|calls| - 1], calls[|calls| - 1];
      KeysOfSize(front);
      KeysOfSnoc(front, last);
      assert calls == front + [last];
      assert last.key !in KeysOf(front);
    }
  }

  lemma KeysOfSnoc<C>(front: seq<Step<C>>, last: Step<C>)
    requires (forall j :: 0 <= j < |front| ==> front[j].ForKey?) && last.ForKey?
    ensures KeysOf(front + [last]) == KeysOf(front) + {last.key}
  {
    var whole := front + [last];
    forall j | 0 <= j < |front| ensures front[j].key in KeysOf(whole) {
      assert whole[j] == front[j];
    }
    assert whole[|front|] == last;
  }

  ghost function Min(a: nat, b: nat): nat {
    if a < b then a else b
  }

  /** What pool q looks like after the first j calls on pool p: its bindings are those of the first
      |instances| callers, each to a listed instance. */
  ghost predicate Served<C>(p: Pool<C>, calls: seq<Step<C>>, j: nat, q: Pool<C>)
    requires j <= |calls| && DistinctCalls(p, calls)
  {
    && Inv(q) && !q.closed && q.instances == p.instances
    && q.keyToID.Keys == KeysOf(calls[..Min(j, |p.instances|)])
    && (forall k :: k in q.keyToID ==> Listed(q.instances, q.keyToID[k]))
  }

  lemma {:induction false} ServedThrough<C>(p: Pool<C>, calls: seq<Step<C>>, j: nat)
    requires Inv(p) && DistinctIds(p.instances) && !p.closed && p.keyToID == map[]
    requires DistinctCalls(p, calls) && j <= |calls|
    ensures Served(p, calls, j, Run(p, calls[..j]))
    decreases j
  {
    if j > 0 {
      ServedThrough(p, calls, j - 1);
      RunPrefix(p, calls, j - 1);
      OneMore(p, calls, j - 1, Run(p, calls[..j - 1]));
    } else {
      assert KeysOf(calls[..0]) == {};
    }
  }

  lemma Outcome<C>(p: Pool<C>, calls: seq<Step<C>>, j: nat, q: Pool<C>)
    requires DistinctIds(p.instances) && DistinctCalls(p, calls) && j < |calls| && Served(p, calls, j, q)
    requires q == Run(p, calls[..j])
    ensures calls[j].key !in q.keyToID
    ensures GetForKey(q, calls[j].key, calls[j].dials).1.Granted? <==> j < |p.instances|
  {
    hide Run, VacancyDials, GetForKey;
    var key, m := calls[j].key, Min(j, |p.instances|);
    assert key !in KeysOf(calls[..m]);
    assert OthersBound(q, key) == KeysOf(calls[..m]);
    KeysOfSize(calls[..m]);
    CapacityIsExact(q, key, calls[j].dials);
  }

  /** A first call for a key adds its binding to a listed instance, or changes no binding. */
  lemma FirstCall<C>(q: Pool<C>, key: string, dials: Dials<C>)
    requires Inv(q) && key !in q.keyToID
    requires forall k :: k in q.keyToID ==> Listed(q.instances, q.keyToID[k])
    ensures var (r, a) := GetForKey(q, key, dials);
      && r.closed == q.closed && r.instances == q.instances
      && r.keyToID.Keys == (if a.Granted? then q.keyToID.Keys + {key} else q.keyToID.Keys)
      && (forall k :: k in r.keyToID ==> Listed(r.instances, r.keyToID[k]))
  {
    ForKeyEffect(q, key, dials);
    GetterGrantsListed(q, ForKey(key, dials));
    assert q.keyToID - {key} == q.keyToID;
  }

  lemma OneMore<C>(p: Pool<C>, calls: seq<Step<C>>, j: nat, q: Pool<C>)
    requires DistinctIds(p.instances) && DistinctCalls(p, calls) && j < |calls| && Served(p, calls, j, q)
    requires q == Run(p, calls[..j])
    ensures Served(p, calls, j + 1, Do(q, calls[j]))
  {
    hide Run, VacancyDials, GetForKey;
    Outcome(p, calls, j, q);
    StepKeeps(q, calls[j]);
    FirstCall(q, calls[j].key, calls[j].dials);
    if j < |p.instances| {
      assert calls[..j + 1] == calls[..j] + [calls[j]];
      KeysOfSnoc(calls[..j], calls[j]);
    }
  }

  /** What the j-th call is answered. */
  ghost function ReplyTo<C>(p: Pool<C>, calls: seq<Step<C>>, j: nat): Reply<C>
    requires j < |calls| && DistinctCalls(p, calls)
  {
    Answer(Run(p, calls[..j]), calls[j]).value
  }

  /** From a pool without bindings, of calls for pairwise distinct keys the first |instances| are
      granted, pairwise different instances, and all later ones are refused. */
  lemma FirstComeFirstServed<C>(p: Pool<C>, calls: seq<Step<C>>)
    requires Inv(p) && DistinctIds(p.instances) && !p.closed && p.keyToID == map[]
    requires DistinctCalls(p, calls)
    ensures forall j :: 0 <= j < |calls| ==>
              (ReplyTo(p, calls, j).Granted? <==> j < |p.instances|)
    ensures forall i, j :: 0 <= i < j < |calls| && j < |p.instances| ==>
              ReplyTo(p, calls, i).id != ReplyTo(p, calls, j).id
  {
    forall j | 0 <= j < |calls|
      ensures ReplyTo(p, calls, j).Granted? <==> j < |p.instances|
    {
      OutcomeOf(p, calls, j);
    }
    forall i, j | 0 <= i < j < |calls| && j < |p.instances|
      ensures ReplyTo(p, calls, i).id != ReplyTo(p, calls, j).id
    {
      GrantsDiffer(p, calls, i, j);
    }
  }

  lemma OutcomeOf<C>(p: Pool<C>, calls: seq<Step<C>>, j: nat)
    requires Inv(p) && DistinctIds(p.instances) && !p.closed && p.keyToID == map[]
    requires DistinctCalls(p, calls) && j < |calls|
    ensures ReplyTo(p, calls, j).Granted? <==> j < |p.instances|
  {
    ServedThrough(p, calls, j);
    Outcome(p, calls, j, Run(p, calls[..j]));
  }

  lemma GrantsDiffer<C>(p: Pool<C>, calls: seq<Step<C>>, i: nat, j: nat)
    requires Inv(p) && DistinctCalls(p, calls) && i < j < |calls|
    requires ReplyTo(p, calls, i).Granted? && ReplyTo(p, calls, j).Granted?
    ensures ReplyTo(p, calls, i).id != ReplyTo(p, calls, j).id
  {
    hide Run, Do, Answer;
    GrantStaysBound(p, calls, i, j + 1);
    GrantStaysBound(p, calls, j, j + 1);
    RunKeeps(p, calls[..j + 1]);
  }

  lemma GrantStaysBound<C>(p: Pool<C>, calls: seq<Step<C>>, i: nat, n: nat)
    requires DistinctCalls(p, calls) && i < n <= |calls| && ReplyTo(p, calls, i).Granted?
    ensures Binds(Run(p, calls[..n]), calls[i].key, ReplyTo(p, calls, i).id)
  {
    RunPrefix(p, calls, i);
    BindingAfterCall(Run(p, calls[..i]), calls[i]);
    BindingStays(p, calls, i, n, ReplyTo(p, calls, i).id);
  }

  ghost predicate Binds<C>(q: Pool<C>, key: string, id: string) {
    key in q.keyToID && q.keyToID[key] == id
  }

  lemma {:induction false} BindingStays<C>(p: Pool<C>, calls: seq<Step<C>>, i: nat, n: nat, id: string)
    requires DistinctCalls(p, calls) && i < n <= |calls|
    requires Binds(Run(p, calls[..i + 1]), calls[i].key, id)
    ensures Binds(Run(p, calls[..n]), calls[i].key, id)
    decreases n
  {
    hide Run, VacancyDials;
    if n > i + 1 {
      BindingStays(p, calls, i, n - 1, id);
      RunPrefix(p, calls, n - 1);
      BindingAfterCall(Run(p, calls[..n - 1]), calls[n - 1]);
    }
  }

  lemma BindingAfterCall<C>(q: Pool<C>, s: Step<C>)
    requires s.ForKey?
    ensures var m, a := Do(q, s).keyToID, Answer(q, s).value;
      && (a.Granted? ==> Binds(Do(q, s), s.key, a.id))
      && (forall k :: k in q.keyToID && k != s.key ==> k in m && m[k] == q.keyToID[k])
  {
    ForKeyEffect(q, s.key, s.dials);
  }
}
