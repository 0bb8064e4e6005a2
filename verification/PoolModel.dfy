/** The sticky / round-robin connection pool of one dynamic cluster as a state machine
    (MyGateway/service/connection_pool.go). Every method of the pool holds the mutex for its whole
    body, so each is one step; `refresh` reads the discoverer outside the mutex and applies what it
    read inside, so its step takes an arbitrary, possibly stale, snapshot. */
module PoolModel {
  import opened Options
  import opened GatewayErrors

  datatype Instance = Instance(id: string, ipv4: string, port: int)

  /** A connection, with the ID of the instance it was made for. */
  datatype Entry<C> = Entry(id: string, conn: C)

  /** The fields under the mutex, and three histories: the connections the factory returned, the
      `Close` calls on connections, and the instances unregistered. */
  datatype Pool<C(==)> = Pool(
    instances: seq<Instance>,
    keyToID: map<string, string>,
    instanceConn: map<string, C>,
    rr: nat,
    closed: bool,
    dialed: seq<Entry<C>>,
    released: multiset<Entry<C>>,
    unregistered: seq<string>)

  /** What the factory answers in one call of a getter, by position in the instance list: no position
      is dialed twice in a call. `None` is a dial error. */
  type Dials<C> = seq<Option<C>>

  datatype Reply<C> = Granted(conn: C, id: string) | Refused(err: Error)

  datatype Step<C> =
    | ForKey(key: string, dials: Dials<C>)
    | RoundRobin(dials: Dials<C>)
    | Fail(failedKey: string, failedId: string)
    | Refresh(snapshot: seq<Instance>)
    | Close

  ghost function EmptyPool<C>(): Pool<C> {
    Pool([], map[], map[], 0, false, [], multiset{}, [])
  }

  // ---------- lookups ----------

  ghost predicate Listed(instances: seq<Instance>, id: string) {
    exists i :: 0 <= i < |instances| && instances[i].id == id
  }

  ghost predicate DistinctIds(instances: seq<Instance>) {
    forall i, j :: 0 <= i < j < |instances| ==> instances[i].id != instances[j].id
  }

  predicate AssignedToOther(keyToID: map<string, string>, id: string, key: string) {
    exists k :: k in keyToID && k != key && keyToID[k] == id
  }

  /** The key's binding leads to a cached connection; an empty instance ID counts as no binding. */
  ghost predicate LiveBinding<C>(p: Pool<C>, key: string) {
    key in p.keyToID && p.keyToID[key] != "" && p.keyToID[key] in p.instanceConn
  }

  /** A connection to the instance at position i can be had in this call. */
  ghost predicate Usable<C>(p: Pool<C>, dials: Dials<C>, i: nat)
    requires i < |p.instances|
  {
    p.instances[i].id in p.instanceConn || (i < |dials| && dials[i].Some?)
  }

  /** `getOrCreateConnLocked` on a usable position. */
  ghost function Attach<C>(p: Pool<C>, dials: Dials<C>, i: nat): (r: (Pool<C>, C))
    requires i < |p.instances| && Usable(p, dials, i)
  {
    var id := p.instances[i].id;
    if id in p.instanceConn then
      (p, p.instanceConn[id])
    else
      var c := dials[i].value;
      (p.(instanceConn := p.instanceConn[id := c], dialed := p.dialed + [Entry(id, c)]), c)
  }

  ghost function Entries<C>(conns: map<string, C>): set<Entry<C>> {
    set id | id in conns :: Entry(id, conns[id])
  }

  // ---------- GetConnectionForKey ----------

  /** The first position from i on that no other key occupies and that is usable; the length of the
      list when there is none. */
  ghost function FirstFree<C>(p: Pool<C>, key: string, dials: Dials<C>, i: nat): (r: nat)
    requires i <= |p.instances|
    ensures i <= r <= |p.instances|
    decreases |p.instances| - i
  {
    if i == |p.instances| then i
    else if !AssignedToOther(p.keyToID, p.instances[i].id, key) && Usable(p, dials, i) then i
    else FirstFree(p, key, dials, i + 1)
  }

  /** A binding whose instance has lost its connection is dropped before a new instance is sought. */
  ghost function DropStale<C>(p: Pool<C>, key: string): Pool<C> {
    if key in p.keyToID && p.keyToID[key] != "" then p.(keyToID := p.keyToID - {key}) else p
  }

  ghost function GetForKey<C>(p: Pool<C>, key: string, dials: Dials<C>): (Pool<C>, Reply<C>) {
    if p.closed then (p, Refused(ConnPoolClosed))
    else if key == "" then (p, Refused(NoAvailableConnInstance))
    else if LiveBinding(p, key) then
      (p, Granted(p.instanceConn[p.keyToID[key]], p.keyToID[key]))
    else
      var q := DropStale(p, key);
      var i := FirstFree(q, key, dials, 0);
      if i == |q.instances| then (q, Refused(NoAvailableConnInstance))
      else
        FirstFreeIsFirst(q, key, dials, 0);
        var (r, c) := Attach(q, dials, i);
        var id := q.instances[i].id;
        (r.(keyToID := r.keyToID[key := id]), Granted(c, id))
  }

  lemma FirstFreeIsFirst<C>(p: Pool<C>, key: string, dials: Dials<C>, i: nat)
    requires i <= |p.instances|
    ensures var r := FirstFree(p, key, dials, i);
      && (r < |p.instances| ==>
            !AssignedToOther(p.keyToID, p.instances[r].id, key) && Usable(p, dials, r))
      && (forall j :: i <= j < r ==>
            AssignedToOther(p.keyToID, p.instances[j].id, key) || !Usable(p, dials, j))
    decreases |p.instances| - i
  {
  }

  // ---------- GetConnectionRoundRobin ----------

  /** The position k places behind `rr`, wrapping around. */
  ghost function At<C>(p: Pool<C>, k: nat): nat
    requires p.instances != []
  {
    (p.rr + k) % |p.instances|
  }

  /** How many positions, starting at `rr` and wrapping around, are passed over from the k-th on
      before a usable one; the length of the list when there is none. */
  ghost function Skipped<C>(p: Pool<C>, dials: Dials<C>, k: nat): (r: nat)
    requires k <= |p.instances|
    ensures k <= r <= |p.instances|
    ensures r < |p.instances| ==> Usable(p, dials, At(p, r))
    decreases |p.instances| - k
  {
    if k == |p.instances| then k
    else if Usable(p, dials, At(p, k)) then k
    else Skipped(p, dials, k + 1)
  }

  /** Granting position i and moving the index behind it. */
  ghost function Turn<C>(p: Pool<C>, dials: Dials<C>, i: nat): (Pool<C>, Reply<C>)
    requires i < |p.instances| && Usable(p, dials, i)
  {
    var (q, c) := Attach(p, dials, i);
    (q.(rr := (i + 1) % |p.instances|), Granted(c, p.instances[i].id))
  }

  ghost function GetRoundRobin<C>(p: Pool<C>, dials: Dials<C>): (Pool<C>, Reply<C>) {
    if p.closed then (p, Refused(ConnPoolClosed))
    else if |p.instances| == 0 then (p, Refused(NoAvailableConnInstance))
    else
      var k := Skipped(p, dials, 0);
      if k == |p.instances| then (p, Refused(NoAvailableConnInstance))
      else
        Turn(p, dials, At(p, k))
  }

  // ---------- OnBackendFailure ----------

  /** The list without its first entry for the given ID. */
  function WithoutFirst(instances: seq<Instance>, id: string): seq<Instance> {
    if instances == [] then []
    else if instances[0].id == id then instances[1..]
    else [instances[0]] + WithoutFirst(instances[1..], id)
  }

  function ResetIfBeyond(rr: nat, n: nat): nat {
    if rr >= n then 0 else rr
  }

  function Unbind(keyToID: map<string, string>, key: string): map<string, string> {
    if key != "" then keyToID - {key} else keyToID
  }

  /** The connection of one instance, if it has one. */
  ghost function Only<C>(conns: map<string, C>, id: string): map<string, C> {
    if id in conns then map[id := conns[id]] else map[]
  }

  ghost function OnBackendFailure<C>(p: Pool<C>, key: string, id: string): Pool<C> {
    var rest := WithoutFirst(p.instances, id);
    p.(keyToID := Unbind(p.keyToID, key),
       instanceConn := p.instanceConn - {id},
       released := p.released + multiset(Entries(Only(p.instanceConn, id))),
       instances := rest,
       rr := if |rest| < |p.instances| then ResetIfBeyond(p.rr, |rest|) else p.rr,
       unregistered := p.unregistered + [id])
  }

  // ---------- refresh, Close ----------

  /** The part of the pool's connections whose instance is, or is not, in a list. */
  ghost function Within<C>(conns: map<string, C>, instances: seq<Instance>): map<string, C> {
    map id | id in conns && Listed(instances, id) :: conns[id]
  }

  ghost function Outside<C>(conns: map<string, C>, instances: seq<Instance>): map<string, C> {
    map id | id in conns && !Listed(instances, id) :: conns[id]
  }

  /** The bindings that do not lead to one of the given instances. */
  ghost function Unlinked(keyToID: map<string, string>, gone: set<string>): map<string, string> {
    map k | k in keyToID && keyToID[k] !in gone :: keyToID[k]
  }

  /** Applying a snapshot is a restriction: connections to vanished instances are closed and
      dropped, along with the bindings that led to them; the other connections and bindings, also
      bindings without a connection, survive unchanged. */
  ghost function ApplyRefresh<C>(p: Pool<C>, snapshot: seq<Instance>): Pool<C> {
    var gone := Outside(p.instanceConn, snapshot);
    p.(instances := snapshot,
       instanceConn := Within(p.instanceConn, snapshot),
       keyToID := Unlinked(p.keyToID, gone.Keys),
       released := p.released + multiset(Entries(gone)),
       rr := ResetIfBeyond(p.rr, |snapshot|))
  }

  ghost function ClosePool<C>(p: Pool<C>): Pool<C> {
    if p.closed then p
    else p.(closed := true, instanceConn := map[], keyToID := map[],
            released := p.released + multiset(Entries(p.instanceConn)))
  }

  // ---------- steps and runs ----------

  ghost function Do<C>(p: Pool<C>, s: Step<C>): Pool<C> {
    match s
    case ForKey(key, dials) => GetForKey(p, key, dials).0
    case RoundRobin(dials) => GetRoundRobin(p, dials).0
    case Fail(key, id) => OnBackendFailure(p, key, id)
    case Refresh(snapshot) => ApplyRefresh(p, snapshot)
    case Close => ClosePool(p)
  }

  /** What a getter step answers; the other steps answer nothing. */
  ghost function Answer<C>(p: Pool<C>, s: Step<C>): Option<Reply<C>> {
    match s
    case ForKey(key, dials) => Some(GetForKey(p, key, dials).1)
    case RoundRobin(dials) => Some(GetRoundRobin(p, dials).1)
    case _ => None
  }

  ghost function Run<C>(p: Pool<C>, steps: seq<Step<C>>): Pool<C> {
    if steps == [] then p
    else Do(Run(p, steps[..|steps| - 1]), steps[|steps| - 1])
  }

  /** The factory returns connections it never returned before. */
  ghost predicate FreshDials<C>(p: Pool<C>, s: Step<C>) {
    match s
    case ForKey(_, dials) => DialsFresh(p, dials)
    case RoundRobin(dials) => DialsFresh(p, dials)
    case _ => true
  }

  ghost predicate DialsFresh<C>(p: Pool<C>, dials: Dials<C>) {
    forall i, j :: 0 <= i < |dials| && 0 <= j < |p.dialed| && dials[i].Some? ==>
      p.dialed[j].conn != dials[i].value
  }

  ghost predicate FreshRun<C>(p: Pool<C>, steps: seq<Step<C>>) {
    forall n :: 0 <= n < |steps| ==> FreshDials(Run(p, steps[..n]), steps[n])
  }
}
