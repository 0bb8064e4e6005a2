/** Longest-prefix lookup as the gateway does it twice: a list sorted by descending prefix length, and
    the first entry whose prefix fits. The sort does not promise an order among entries of equal length;
    but it goes by the comparisons alone, so that lists with the same lengths are ordered alike. */
module PrefixTable {
  import opened Options

  ghost predicate Descending<T>(prefix: T -> string, s: seq<T>) {
    forall i, j :: 0 <= i < j < |s| ==> |prefix(s[i])| >= |prefix(s[j])|
  }

  /** s is one of the orders that sorting `given` may produce. */
  ghost predicate Arranged<T>(prefix: T -> string, given: seq<T>, s: seq<T>) {
    multiset(s) == multiset(given) && Descending(prefix, s)
  }

  function FirstHit<T>(prefix: T -> string, s: seq<T>, fullMethod: string): Option<T> {
    if s == [] then None
    else if prefix(s[0]) <= fullMethod then Some(s[0])
    else FirstHit(prefix, s[1..], fullMethod)
  }

  /** x is an entry that fits, and no longer one does. */
  ghost predicate Longest<T>(prefix: T -> string, given: seq<T>, fullMethod: string, x: T) {
    && x in given && prefix(x) <= fullMethod
    && forall y :: y in given && prefix(y) <= fullMethod ==> |prefix(y)| <= |prefix(x)|
  }

  // ---------- sorting ----------

  function Lengths<T>(prefix: T -> string, s: seq<T>): seq<nat> {
    seq(|s|, i requires 0 <= i < |s| => |prefix(s[i])|)
  }

  function Positions(n: nat): seq<nat> {
    seq(n, i => i)
  }

  /** p names the positions of a list with the given lengths, each once, longer entries first. */
  ghost predicate IsOrder(lengths: seq<nat>, p: seq<nat>) {
    && multiset(p) == multiset(Positions(|lengths|))
    && |p| == |lengths|
    && (forall i :: 0 <= i < |p| ==> p[i] < |lengths|)
    && forall i, j :: 0 <= i < j < |p| ==> lengths[p[i]] >= lengths[p[j]]
  }

  /** `sort.Slice` by descending prefix length: where each place of the sorted list is filled from, as a
      function of the lengths, which is all that the comparisons see. */
  type Sorter = seq<nat> -> seq<nat>

  ghost predicate Sorts(sorter: Sorter) {
    forall lengths :: IsOrder(lengths, sorter(lengths))
  }

  ghost function Permuted<T>(s: seq<T>, p: seq<nat>): seq<T>
    requires forall i :: 0 <= i < |p| ==> p[i] < |s|
  {
    seq(|p|, i requires 0 <= i < |p| => s[p[i]])
  }

  ghost function Sorted<T>(prefix: T -> string, sorter: Sorter, s: seq<T>): seq<T>
    requires Sorts(sorter)
  {
    assert IsOrder(Lengths(prefix, s), sorter(Lengths(prefix, s)));
    Permuted(s, sorter(Lengths(prefix, s)))
  }

  /** Sorting in place. */
  method SortByLength<T>(prefix: T -> string, sorter: Sorter, a: array<T>)
    requires Sorts(sorter)
    modifies a
    ensures a[..] == Sorted(prefix, sorter, old(a[..]))
  {
    var s := a[..];
    var p := sorter(Lengths(prefix, s));
    assert IsOrder(Lengths(prefix, s), p);
    for i := 0 to a.Length
      invariant forall j :: 0 <= j < i ==> a[j] == s[p[j]]
    {
      a[i] := s[p[i]];
    }
  }

  function Without<T>(q: seq<T>, j: nat): seq<T>
    requires j < |q|
  {
    q[..j] + q[j + 1..]
  }

  lemma WithoutOne<T>(q: seq<T>, j: nat)
    requires j < |q|
    ensures multiset(q) == multiset(Without(q, j)) + multiset{q[j]}
  {
    assert q == q[..j] + [q[j]] + q[j + 1..];
  }

  lemma PermutedWithout<T>(s: seq<T>, q: seq<nat>, j: nat)
    requires j < |q| && forall i :: 0 <= i < |q| ==> q[i] < |s|
    ensures Permuted(s, Without(q, j)) == Without(Permuted(s, q), j)
  {
  }

  lemma {:induction false} PermutedAlike<T>(s: seq<T>, p: seq<nat>, q: seq<nat>)
    requires multiset(p) == multiset(q)
    requires (forall i :: 0 <= i < |p| ==> p[i] < |s|) && (forall i :: 0 <= i < |q| ==> q[i] < |s|)
    ensures multiset(Permuted(s, p)) == multiset(Permuted(s, q))
    decreases |p|
  {
    assert |p| == |multiset(p)| == |multiset(q)| == |q|;
    if p != [] {
      assert p[0] in multiset(q);
      var j :| 0 <= j < |q| && q[j] == p[0];
      WithoutOne(p, 0);
      WithoutOne(q, j);
      PermutedWithout(s, p, 0);
      PermutedWithout(s, q, j);
      WithoutOne(Permuted(s, p), 0);
      WithoutOne(Permuted(s, q), j);
      var rest, others := Without(p, 0), Without(q, j);
      assert |rest| == |p| - 1;
      hide Permuted, Without;
      assert multiset(rest) == multiset(p) - multiset{p[0]} && multiset(others) == multiset(q) - multiset{p[0]};
      PermutedAlike(s, rest, others);
    }
  }

  /** A sorted list has the same entries, longer prefixes first. */
  lemma SortedArranges<T>(prefix: T -> string, sorter: Sorter, s: seq<T>)
    requires Sorts(sorter)
    ensures Arranged(prefix, s, Sorted(prefix, sorter, s))
  {
    var p := sorter(Lengths(prefix, s));
    assert IsOrder(Lengths(prefix, s), p);
    PermutedAlike(s, p, Positions(|s|));
    assert Permuted(s, Positions(|s|)) == s;
  }

  // ---------- the first hit is the longest ----------

  lemma {:induction false} FirstHitIsFirst<T>(prefix: T -> string, s: seq<T>, fullMethod: string)
    ensures match FirstHit(prefix, s, fullMethod)
            case None => forall x :: x in s ==> !(prefix(x) <= fullMethod)
            case Some(x) => exists i :: 0 <= i < |s| && s[i] == x && prefix(x) <= fullMethod
                                        && forall j :: 0 <= j < i ==> !(prefix(s[j]) <= fullMethod)
    decreases s
  {
    if s != [] && !(prefix(s[0]) <= fullMethod) {
      FirstHitIsFirst(prefix, s[1..], fullMethod);
      if FirstHit(prefix, s[1..], fullMethod).Some? {
        var x := FirstHit(prefix, s[1..], fullMethod).value;
        var i :| 0 <= i < |s[1..]| && s[1..][i] == x && forall j :: 0 <= j < i ==> !(prefix(s[1..][j]) <= fullMethod);
        assert s[i + 1] == x;
        assert forall j :: 1 <= j < i + 1 ==> s[j] == s[1..][j - 1];
      }
    } else if s != [] {
      assert s[0] == s[0];
    }
  }

  lemma SameMembers<T>(given: seq<T>, s: seq<T>)
    requires multiset(s) == multiset(given)
    ensures forall x :: x in s <==> x in given
  {
    forall x ensures x in s <==> x in given {
      assert x in s <==> x in multiset(s);
      assert x in given <==> x in multiset(given);
    }
  }

  /** In every order the sort may produce, the first hit is a longest prefix that fits, and there is
      none exactly when no prefix fits. */
  lemma FirstHitIsLongest<T>(prefix: T -> string, given: seq<T>, s: seq<T>, fullMethod: string)
    requires Arranged(prefix, given, s)
    ensures match FirstHit(prefix, s, fullMethod)
            case None => forall x :: x in given ==> !(prefix(x) <= fullMethod)
            case Some(x) => Longest(prefix, given, fullMethod, x)
  {
    FirstHitIsFirst(prefix, s, fullMethod);
    SameMembers(given, s);
    if FirstHit(prefix, s, fullMethod).Some? {
      var x := FirstHit(prefix, s, fullMethod).value;
      var i :| 0 <= i < |s| && s[i] == x && forall j :: 0 <= j < i ==> !(prefix(s[j]) <= fullMethod);
      forall y | y in given && prefix(y) <= fullMethod ensures |prefix(y)| <= |prefix(x)| {
        var j :| 0 <= j < |s| && s[j] == y;
        assert j >= i;
      }
    }
  }

  /** Two longest prefixes that fit are the same prefix. */
  lemma LongestAgree<T>(prefix: T -> string, given: seq<T>, fullMethod: string, x: T, y: T)
    requires Longest(prefix, given, fullMethod, x) && Longest(prefix, given, fullMethod, y)
    ensures prefix(x) == prefix(y)
  {
    assert prefix(x) == fullMethod[..|prefix(x)|];
  }

  // ---------- any of several entries with one prefix may be hit ----------

  /** x put in before the entries that are not longer. */
  function Place<T>(prefix: T -> string, x: T, s: seq<T>): seq<T> {
    if s == [] || |prefix(s[0])| <= |prefix(x)| then [x] + s
    else [s[0]] + Place(prefix, x, s[1..])
  }

  function Sort<T>(prefix: T -> string, s: seq<T>): seq<T> {
    if s == [] then [] else Place(prefix, s[0], Sort(prefix, s[1..]))
  }

  lemma {:induction false} PlaceKeepsAll<T>(prefix: T -> string, x: T, s: seq<T>)
    ensures multiset(Place(prefix, x, s)) == multiset(s) + multiset{x}
    decreases s
  {
    if s != [] && |prefix(s[0])| > |prefix(x)| {
      PlaceKeepsAll(prefix, x, s[1..]);
      assert s == [s[0]] + s[1..];
    }
  }

  lemma {:induction false} PlaceDescends<T>(prefix: T -> string, x: T, s: seq<T>)
    requires Descending(prefix, s)
    ensures Descending(prefix, Place(prefix, x, s))
    ensures forall y :: y in Place(prefix, x, s) ==> y == x || y in s
    decreases s
  {
    if s != [] && |prefix(s[0])| > |prefix(x)| {
      PlaceDescends(prefix, x, s[1..]);
      var rest := Place(prefix, x, s[1..]);
      forall j | 0 <= j < |rest| ensures |prefix(rest[j])| <= |prefix(s[0])| {
        assert rest[j] in rest;
        if rest[j] != x {
          var m :| 0 <= m < |s[1..]| && s[1..][m] == rest[j];
          assert s[m + 1] == rest[j];
        }
      }
    }
  }

  lemma {:induction false} PlaceIsHit<T>(prefix: T -> string, x: T, s: seq<T>)
    ensures FirstHit(prefix, Place(prefix, x, s), prefix(x)) == Some(x)
    decreases s
  {
    if s != [] && |prefix(s[0])| > |prefix(x)| {
      PlaceIsHit(prefix, x, s[1..]);
    }
  }

  lemma PlaceArranges<T>(prefix: T -> string, x: T, s: seq<T>)
    requires Descending(prefix, s)
    ensures Arranged(prefix, [x] + s, Place(prefix, x, s))
  {
    PlaceKeepsAll(prefix, x, s);
    PlaceDescends(prefix, x, s);
  }

  lemma {:induction false} SortArranges<T>(prefix: T -> string, s: seq<T>)
    ensures Arranged(prefix, s, Sort(prefix, s))
    decreases s
  {
    if s != [] {
      SortArranges(prefix, s[1..]);
      PlaceArranges(prefix, s[0], Sort(prefix, s[1..]));
      assert s == [s[0]] + s[1..];
    }
  }

  /** Sorting may put any entry before the others that have its prefix. */
  lemma AnyMayBeHit<T>(prefix: T -> string, given: seq<T>, x: T) returns (s: seq<T>)
    requires x in given
    ensures Arranged(prefix, given, s) && FirstHit(prefix, s, prefix(x)) == Some(x)
  {
    var i :| 0 <= i < |given| && given[i] == x;
    var rest := given[..i] + given[i + 1..];
    assert given == given[..i] + [x] + given[i + 1..];
    SortArranges(prefix, rest);
    PlaceArranges(prefix, x, Sort(prefix, rest));
    PlaceIsHit(prefix, x, Sort(prefix, rest));
    s := Place(prefix, x, Sort(prefix, rest));
  }

  /** A word of the length at a position. */
  function WordAt(lengths: seq<nat>): nat -> string {
    (i: nat) => if i < |lengths| then seq(lengths[i], _ => 'x') else ""
  }

  /** What is asked of the sort can be met: a stable insertion sort does. */
  lemma InsertionSorts()
    ensures Sorts(lengths => Sort(WordAt(lengths), Positions(|lengths|)))
  {
    hide Sort, Positions, IsOrder;
    forall lengths: seq<nat> ensures IsOrder(lengths, Sort(WordAt(lengths), Positions(|lengths|))) {
      SortArranges(WordAt(lengths), Positions(|lengths|));
      ArrangedIsOrder(lengths, Sort(WordAt(lengths), Positions(|lengths|)));
    }
  }

  lemma ArrangedIsOrder(lengths: seq<nat>, p: seq<nat>)
    requires Arranged(WordAt(lengths), Positions(|lengths|), p)
    ensures IsOrder(lengths, p)
  {
    var all := Positions(|lengths|);
    SameMembers(all, p);
    assert |p| == |multiset(p)| == |multiset(all)| == |all|;
    forall i | 0 <= i < |p| ensures p[i] < |lengths| && |WordAt(lengths)(p[i])| == lengths[p[i]] {
      assert p[i] in all;
    }
  }

  ghost function Seen<T, A>(view: T -> A, hit: Option<T>): Option<A> {
    if hit.Some? then Some(view(hit.value)) else None
  }

  /** Two sorted orders answer alike, as far as `view` goes. */
  ghost predicate SameAnswer<T, A>(prefix: T -> string, view: T -> A, s: seq<T>, t: seq<T>, fullMethod: string) {
    Seen(view, FirstHit(prefix, s, fullMethod)) == Seen(view, FirstHit(prefix, t, fullMethod))
  }

  /** Entries with one prefix do not differ, as far as `view` goes. */
  ghost predicate Unambiguous<T, A>(prefix: T -> string, view: T -> A, given: seq<T>) {
    forall x, y :: x in given && y in given && prefix(x) == prefix(y) ==> view(x) == view(y)
  }

  /** The order the sort happens to produce does not matter to any lookup if and only if entries that
      share a prefix agree; in particular it never matters when the prefixes are distinct. */
  lemma OrderIsIrrelevant<T, A>(prefix: T -> string, view: T -> A, given: seq<T>)
    ensures Unambiguous(prefix, view, given) <==>
            (forall s, t, m :: Arranged(prefix, given, s) && Arranged(prefix, given, t) ==>
              SameAnswer(prefix, view, s, t, m))
  {
    if Unambiguous(prefix, view, given) {
      forall s, t, m | Arranged(prefix, given, s) && Arranged(prefix, given, t)
        ensures SameAnswer(prefix, view, s, t, m)
      {
        BothLongest(prefix, view, given, s, t, m);
      }
    } else {
      var x, y :| x in given && y in given && prefix(x) == prefix(y) && view(x) != view(y);
      var s := AnyMayBeHit(prefix, given, x);
      var t := AnyMayBeHit(prefix, given, y);
      assert !SameAnswer(prefix, view, s, t, prefix(x));
    }
  }

  lemma BothLongest<T, A>(prefix: T -> string, view: T -> A, given: seq<T>, s: seq<T>, t: seq<T>, fullMethod: string)
    requires Unambiguous(prefix, view, given) && Arranged(prefix, given, s) && Arranged(prefix, given, t)
    ensures SameAnswer(prefix, view, s, t, fullMethod)
  {
    FirstHitIsLongest(prefix, given, s, fullMethod);
    FirstHitIsLongest(prefix, given, t, fullMethod);
    var a, b := FirstHit(prefix, s, fullMethod), FirstHit(prefix, t, fullMethod);
    if a.Some? && b.Some? {
      LongestAgree(prefix, given, fullMethod, a.value, b.value);
    }
  }

  /** Distinct prefixes are unambiguous, whatever the view. */
  lemma DistinctIsUnambiguous<T, A>(prefix: T -> string, view: T -> A, given: seq<T>)
    requires forall i, j :: 0 <= i < j < |given| ==> prefix(given[i]) != prefix(given[j])
    ensures Unambiguous(prefix, view, given)
  {
    forall x, y | x in given && y in given && prefix(x) == prefix(y) ensures x == y {
      var i :| 0 <= i < |given| && given[i] == x;
      var j :| 0 <= j < |given| && given[j] == y;
      assert i == j;
    }
  }
}
