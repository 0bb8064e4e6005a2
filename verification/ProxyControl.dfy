/** The control flow of an RPC: what the handler has acquired, reported and cancelled at every moment,
    how often it retries, and that it only ever waits for a stream that has not ended. */
module ProxyControl {
  import opened Options
  import opened GatewayErrors
  import opened PoolModel
  import opened Proxy

  // ---------- the invariant ----------

  /** Exactly the stream contexts of the first n acquired connections were cancelled. */
  ghost predicate CancelledBelow(rpc: Rpc, n: nat) {
    forall a: nat :: a in rpc.cancelled <==> a < n
  }

  ghost function AllButLast(acquires: seq<Lease>): seq<Lease> {
    if acquires == [] then [] else acquires[..|acquires| - 1]
  }

  /** A connection is in hand: all earlier ones, and only they, were reported and cancelled. */
  ghost predicate Holding(rpc: Rpc) {
    && rpc.acquires != []
    && rpc.reports == AllButLast(rpc.acquires)
    && CancelledBelow(rpc, |rpc.acquires| - 1)
  }

  /** No connection is in hand: all were reported and cancelled. */
  ghost predicate Empty(rpc: Rpc) {
    rpc.reports == rpc.acquires && CancelledBelow(rpc, |rpc.acquires|)
  }

  ghost predicate Accounted(rpc: Rpc) {
    match rpc.pc
    case Opening(_, _) => Empty(rpc)
    case Connecting(_, _) => Holding(rpc)
    case Selecting(_) => Holding(rpc)
    case Replaying => Holding(rpc)
    case Awaiting => Holding(rpc)
    case Returned(err) =>
      if err.Some? then Empty(rpc)
      else rpc.acquires != [] && rpc.reports == AllButLast(rpc.acquires) && CancelledBelow(rpc, |rpc.acquires|)
  }

  /** The acquired connections are those of the rounds, and of the round in hand the last. */
  ghost predicate Attached(rpc: Rpc) {
    && (forall r :: 0 <= r < |rpc.streams| ==> rpc.streams[r].acquire < |rpc.acquires|)
    && (rpc.pc.Selecting? || rpc.pc.Replaying? || rpc.pc.Awaiting? ==>
          rpc.streams != [] && Last(rpc.streams).acquire == |rpc.acquires| - 1)
  }

  ghost predicate AttemptInRange(call: Call, attempt: nat) {
    if call.retryable then attempt == 0 || attempt <= call.retryCount else attempt == 0
  }

  /** Rounds and attempts are within the retry count; a further round is opened only with the first
      message in hand. */
  ghost predicate Rounds(call: Call, rpc: Rpc) {
    && (if call.retryable then |rpc.streams| == 0 || |rpc.streams| <= call.retryCount else |rpc.streams| <= 1)
    && match rpc.pc
       case Opening(a, _) => AttemptInRange(call, a) && (rpc.streams != [] ==> MayReopen(call, rpc))
       case Connecting(a, _) =>
         && AttemptInRange(call, a) && (call.retryable ==> a < call.retryCount)
         && (rpc.streams != [] ==> MayReopen(call, rpc))
       case Selecting(i) => |rpc.streams| == 1 && i < 2
       case Replaying => |rpc.streams| >= 2 && rpc.firstMsg.Some?
       case Awaiting => |rpc.streams| >= 2 && rpc.firstMsg.Some?
       case Returned(_) => true
  }

  ghost predicate MayReopen(call: Call, rpc: Rpc) {
    call.retryable && |rpc.streams| < call.retryCount && rpc.firstMsg.Some?
  }

  /** The forwarder from the client writes its channel once, when it ends. */
  ghost predicate UpOnce(rpc: Rpc) {
    && (rpc.up.UpIdle? <==> rpc.streams == [])
    && (rpc.upSlot.Some? ==> rpc.up.UpEnded?)
    && (rpc.pc.Selecting? && rpc.pc.i == 0 ==> (rpc.upSlot.Some? <==> rpc.up.UpEnded?))
    && (rpc.pc.Selecting? && rpc.pc.i == 1 ==> rpc.upSlot.None? && rpc.up.UpEnded?)
  }

  /** A forwarder from a backend writes its channel once, when it ends; the handler is the only
      reader, and of the last round only. */
  ghost predicate DownOnce(rpc: Rpc) {
    && (forall r :: 0 <= r < |rpc.streams| ==>
          (rpc.streams[r].slot.Some? ==> rpc.streams[r].down == DownEnded(rpc.streams[r].slot.value)))
    && (rpc.pc.Selecting? || rpc.pc.Awaiting? ==>
          && rpc.streams != []
          && !Last(rpc.streams).down.DownIdle?
          && (Last(rpc.streams).down.DownEnded? ==> Last(rpc.streams).slot.Some?))
    && (rpc.pc.Replaying? ==> rpc.streams != [] && Last(rpc.streams).down.DownIdle?)
  }

  ghost predicate Control(call: Call, rpc: Rpc) {
    Accounted(rpc) && Attached(rpc) && Rounds(call, rpc) && UpOnce(rpc) && DownOnce(rpc)
  }

  lemma StartControl(call: Call)
    ensures Control(call, StartRpc())
  {
  }

  // ---------- each event keeps it ----------

  lemma AcquireKeeps<C>(call: Call, s: Sys<C>, dials: Dials<C>)
    requires Control(call, s.rpc) && s.rpc.pc.Opening?
    ensures Control(call, DoAcquire(call, s, dials).rpc)
  {
    hide GetConnection;
    ReturnStaysEmpty(s.rpc, Some(UNAVAILABLE));
    var (pool, lease, err) := GetConnection(call.target, s.pool, dials);
    if lease.None? {
      ReturnStaysEmpty(s.rpc, err);
    } else if !(call.retryable && s.rpc.pc.attempt >= call.retryCount) {
      GrantKeeps(call, s.rpc, lease.value);
      hide Control;
    }
  }

  lemma GrantKeeps(call: Call, rpc: Rpc, lease: Lease)
    requires Control(call, rpc) && rpc.pc.Opening? && (call.retryable ==> rpc.pc.attempt < call.retryCount)
    ensures Control(call, rpc.(acquires := rpc.acquires + [lease], pc := Connecting(rpc.pc.attempt, rpc.pc.trigger)))
  {
  }

  lemma OpenOkKeeps(call: Call, rpc: Rpc)
    requires Control(call, rpc) && rpc.pc.Connecting?
    ensures Control(call, DoOpenOk(rpc))
  {
  }

  /** Reporting the connection in hand leaves none in hand. */
  lemma ReportEmpties<C>(call: Call, s: Sys<C>)
    requires Holding(s.rpc)
    ensures Empty(Report(call, s).rpc)
  {
    assert AllButLast(s.rpc.acquires) + [Last(s.rpc.acquires)] == s.rpc.acquires;
  }

  /** The deferred cancel adds nothing when everything is cancelled. */
  lemma ReturnStaysEmpty(rpc: Rpc, err: Option<Error>)
    requires Empty(rpc) && Attached(rpc)
    ensures Empty(Return(rpc, err)) && Attached(Return(rpc, err))
  {
    if rpc.streams != [] {
      assert Last(rpc.streams).acquire in rpc.cancelled;
    }
  }

  lemma OpenFailedKeeps<C>(call: Call, s: Sys<C>, err: Error)
    requires Control(call, s.rpc) && s.rpc.pc.Connecting?
    ensures Control(call, DoOpenFailed(call, s, err).rpc)
  {
    ReportEmpties(call, s);
    var rpc := Report(call, s).rpc;
    ReturnStaysEmpty(rpc.(newStreams := rpc.newStreams + 1), Some(err));
  }

  lemma ReplayKeeps<C>(call: Call, s: Sys<C>, sendErr: Option<Error>)
    requires Control(call, s.rpc) && s.rpc.pc.Replaying?
    ensures Control(call, DoReplay(call, s, sendErr).rpc)
  {
    if sendErr.Some? {
      ReportEmpties(call, s);
      ReturnStaysEmpty(Report(call, s).rpc, sendErr);
    }
  }

  lemma TakeUpKeeps<C>(call: Call, s: Sys<C>, ctxDone: bool)
    requires Control(call, s.rpc) && s.rpc.pc.Selecting? && s.rpc.upSlot.Some?
    ensures Control(call, DoTakeUp(call, s, ctxDone).rpc)
    ensures s.rpc.pc.i == 0
  {
    var rpc := PollFirst(s.rpc.(upSlot := None));
    if s.rpc.upSlot.value != EOF {
      FailFromSelect(call, s, rpc, s.rpc.upSlot.value, ByUp, ctxDone);
    }
  }

  /** Leaving the select with an error, whichever forwarder it came from. */
  lemma FailFromSelect<C>(call: Call, s: Sys<C>, rpc: Rpc, err: Error, trigger: Trigger, ctxDone: bool)
    requires Control(call, s.rpc) && (s.rpc.pc.Selecting? || s.rpc.pc.Awaiting?)
    requires rpc == s.rpc.(upSlot := rpc.upSlot, firstSlot := rpc.firstSlot, firstMsg := rpc.firstMsg,
                           streams := rpc.streams, trailers := rpc.trailers)
    requires UpOnce(rpc) || (rpc.upSlot.None? && s.rpc.pc.Selecting?)
    requires |rpc.streams| == |s.rpc.streams|
    requires forall r :: 0 <= r < |rpc.streams| ==>
               rpc.streams[r] == s.rpc.streams[r] || rpc.streams[r] == s.rpc.streams[r].(slot := None)
    ensures Control(call, DoFail(call, Sys(rpc, s.pool), err, trigger, rpc.firstMsg.None? || ctxDone).rpc)
  {
    ReportEmpties(call, Sys(rpc, s.pool));
    var t := Report(call, Sys(rpc, s.pool)).rpc;
    ReturnStaysEmpty(t.(pc := Opening(0, trigger)), Some(err));
    assert Return(t, Some(err)) == Return(t.(pc := Opening(0, trigger)), Some(err));
  }

  lemma TakeDownKeeps<C>(call: Call, s: Sys<C>, ctxDone: bool)
    requires Control(call, s.rpc) && (s.rpc.pc.Selecting? || s.rpc.pc.Awaiting?) && Last(s.rpc.streams).slot.Some?
    ensures Control(call, DoTakeDown(call, s, ctxDone).rpc)
  {
    var r := |s.rpc.streams| - 1;
    var err := s.rpc.streams[r].slot.value;
    var rpc := s.rpc.(streams := s.rpc.streams[r := s.rpc.streams[r].(slot := None)],
                      trailers := s.rpc.trailers + [r]);
    if err == EOF {
      BackendEnds(call, s.rpc, rpc);
    } else {
      BackendFails(call, s, rpc, err, ctxDone);
      hide Control, DoFail;
    }
  }

  lemma BackendFails<C>(call: Call, s: Sys<C>, rpc: Rpc, err: Error, ctxDone: bool)
    requires Control(call, s.rpc) && (s.rpc.pc.Selecting? || s.rpc.pc.Awaiting?)
    requires var r := |s.rpc.streams| - 1;
      rpc == s.rpc.(streams := s.rpc.streams[r := s.rpc.streams[r].(slot := None)], trailers := s.rpc.trailers + [r])
    ensures var polled := if s.rpc.pc.Awaiting? then rpc else PollFirst(rpc);
      && Control(call, DoFail(call, Sys(polled, s.pool), err, ByDown, polled.firstMsg.None? || ctxDone).rpc)
      && (s.rpc.pc.Awaiting? ==> polled.firstMsg.Some?)
  {
    hide Accounted, Attached, DownOnce, DoFail;
    FailFromSelect(call, s, if s.rpc.pc.Awaiting? then rpc else PollFirst(rpc), err, ByDown, ctxDone);
  }

  lemma BackendEnds(call: Call, p: Rpc, rpc: Rpc)
    requires Control(call, p) && (p.pc.Selecting? || p.pc.Awaiting?)
    requires var r := |p.streams| - 1;
      rpc == p.(streams := p.streams[r := p.streams[r].(slot := None)], trailers := p.trailers + [r])
    ensures Control(call, Return(rpc, None))
  {
    assert Return(rpc, None).cancelled == rpc.cancelled + {|rpc.acquires| - 1};
  }

  lemma UpKeeps<C>(call: Call, rpc: Rpc, e: Event<C>)
    requires Control(call, rpc) && IsUp(e) && rpc.streams != []
    ensures Control(call, StepUp(rpc, e))
  {
  }

  /** What a forwarder from a backend can change. */
  lemma DownTouches<C>(rpc: Rpc, e: Event<C>, r: nat)
    requires IsDown(e) && r < |rpc.streams|
    ensures var q := StepDown(rpc, e, r);
      && q == rpc.(streams := q.streams, headers := q.headers, clientGot := q.clientGot)
      && |q.streams| == |rpc.streams|
      && (forall j :: 0 <= j < |rpc.streams| && j != r ==> q.streams[j] == rpc.streams[j])
      && q.streams[r] == rpc.streams[r].(down := q.streams[r].down, slot := q.streams[r].slot,
           received := q.streams[r].received, delivered := q.streams[r].delivered, lost := q.streams[r].lost)
      && (rpc.streams[r].down.DownEnded? || rpc.streams[r].down.DownIdle? ==> q.streams[r] == rpc.streams[r])
      && (q.streams[r].down.DownIdle? <==> rpc.streams[r].down.DownIdle?)
      && (q.streams[r] == rpc.streams[r]
          || (q.streams[r].down.DownEnded? && q.streams[r].slot == Some(q.streams[r].down.err))
          || (!rpc.streams[r].down.DownEnded? && !q.streams[r].down.DownEnded?
              && q.streams[r].slot == rpc.streams[r].slot))
  {
  }

  lemma DownKeeps<C>(call: Call, rpc: Rpc, e: Event<C>, r: nat)
    requires Control(call, rpc) && IsDown(e) && r < |rpc.streams|
    ensures Control(call, StepDown(rpc, e, r))
  {
    hide StepDown;
    DownTouches(rpc, e, r);
  }

  lemma {:induction false} NextKeeps<C>(call: Call, s: Sys<C>, e: Event<C>)
    requires Control(call, s.rpc)
    ensures Control(call, Next(call, s, e).rpc)
  {
    if HandlerEnabled(s.rpc, e) {
      match e
      case Acquire(dials) => AcquireKeeps(call, s, dials);
      case OpenOk => OpenOkKeeps(call, s.rpc);
      case OpenFailed(err) => OpenFailedKeeps(call, s, err);
      case Replay(sendErr) => ReplayKeeps(call, s, sendErr);
      case TakeUp(ctxDone) => TakeUpKeeps(call, s, ctxDone);
      case TakeDown(ctxDone) => TakeDownKeeps(call, s, ctxDone);
    } else if IsUp(e) && s.rpc.streams != [] {
      UpKeeps(call, s.rpc, e);
    } else if IsDown(e) && e.round < |s.rpc.streams| {
      DownKeeps(call, s.rpc, e, e.round);
    }
  }

  lemma {:induction false} ExecKeeps<C>(call: Call, s: Sys<C>, events: seq<Event<C>>)
    requires Control(call, s.rpc)
    ensures Control(call, Exec(call, s, events).rpc)
    decreases |events|
  {
    if events != [] {
      ExecKeeps(call, s, events[..|events| - 1]);
      NextKeeps(call, Exec(call, s, events[..|events| - 1]), events[|events| - 1]);
    }
  }

  // ---------- failure accounting ----------

  /** Failure accounting over every run of an RPC: the failure reports are the acquired connections
      in order, each with its own key and instance and none twice, all of them but the one in hand;
      when the handler has returned, it has reported all but one exactly if it returned nil, and it
      has cancelled the stream context of every connection; before, that of the connection in hand is
      not cancelled. */
  lemma FailuresAreAccounted<C>(call: Call, pool: Pool<C>, events: seq<Event<C>>)
    ensures var rpc := Exec(call, Start(pool), events).rpc;
      && |rpc.acquires| - 1 <= |rpc.reports| <= |rpc.acquires|
      && rpc.reports == rpc.acquires[..|rpc.reports|]
      && (rpc.pc.Returned? ==>
            && (rpc.pc.err == None <==> |rpc.acquires| == |rpc.reports| + 1)
            && forall a: nat :: a in rpc.cancelled <==> a < |rpc.acquires|)
      && (!rpc.pc.Returned? && |rpc.reports| < |rpc.acquires| ==> |rpc.acquires| - 1 !in rpc.cancelled)
  {
    StartControl(call);
    ExecKeeps(call, Start(pool), events);
  }

  /** The two defensive returns of the handler are dead: a replay always has a first message, and the
      client's forwarder is never taken from twice, so that the select ends within two turns. */
  lemma DefensiveReturnsAreDead<C>(call: Call, pool: Pool<C>, events: seq<Event<C>>)
    ensures var rpc := Exec(call, Start(pool), events).rpc;
      && (rpc.pc.Replaying? ==> rpc.firstMsg.Some?)
      && (rpc.pc.Selecting? ==> rpc.pc.i < 2 && (rpc.pc.i == 1 ==> rpc.upSlot.None? && rpc.up.UpEnded?))
  {
    StartControl(call);
    ExecKeeps(call, Start(pool), events);
  }

  // ---------- the shape of what is done with an error from a channel ----------

  /** The pool after a failure report for a connection. */
  ghost function ReportedTo<C>(call: Call, pool: Pool<C>, lease: Lease): Pool<C> {
    if call.pooled then OnBackendFailure(pool, lease.key, lease.id) else pool
  }

  /** t is s after the connection in hand was reported, with the error final or another round ahead. */
  ghost predicate FailedOver<C>(call: Call, s: Sys<C>, t: Sys<C>)
    requires s.rpc.acquires != []
  {
    && t.rpc.reports == s.rpc.reports + [Last(s.rpc.acquires)]
    && t.pool == ReportedTo(call, s.pool, Last(s.rpc.acquires))
    && ((t.rpc.pc.Returned? && t.rpc.pc.err.Some?)
        || (t.rpc.pc.Opening? && t.rpc.pc.attempt == 0 && call.retryable && |t.rpc.streams| < call.retryCount))
  }

  /** t is s after the end of a stream was taken for the end of the client's or the backend's. */
  ghost predicate Ended<C>(s: Sys<C>, t: Sys<C>) {
    && t.rpc.reports == s.rpc.reports && t.pool == s.pool
    && (t.rpc.pc.Returned? || (s.rpc.pc == Selecting(0) && t.rpc.pc == Selecting(1)))
  }

  ghost predicate TookError<C>(call: Call, s: Sys<C>, t: Sys<C>)
    requires s.rpc.acquires != []
  {
    && t.rpc.acquires == s.rpc.acquires && t.rpc.newStreams == s.rpc.newStreams
    && |t.rpc.streams| == |s.rpc.streams|
    && (FailedOver(call, s, t) || Ended(s, t))
  }

  lemma TakeShape<C>(call: Call, s: Sys<C>, e: Event<C>)
    requires HandlerEnabled(s.rpc, e) && (e.TakeUp? || e.TakeDown?)
    ensures TookError(call, s, Handle(call, s, e))
  {
    hide TookError, DoTakeUp, DoTakeDown;
    if e.TakeUp? {
      TakeUpShape(call, s, e.ctxDone);
    } else {
      TakeDownShape(call, s, e.ctxDone);
    }
  }

  lemma TakeUpShape<C>(call: Call, s: Sys<C>, ctxDone: bool)
    requires s.rpc.pc.Selecting? && s.rpc.upSlot.Some? && s.rpc.streams != [] && s.rpc.acquires != []
    ensures TookError(call, s, DoTakeUp(call, s, ctxDone))
  {
    hide DoFail, ReportedTo;
    var polled := PollFirst(s.rpc.(upSlot := None));
    FailShape(call, Sys(polled, s.pool), s.rpc.upSlot.value, ByUp, polled.firstMsg.None? || ctxDone);
  }

  lemma TakeDownShape<C>(call: Call, s: Sys<C>, ctxDone: bool)
    requires (s.rpc.pc.Selecting? || s.rpc.pc.Awaiting?) && s.rpc.streams != [] && s.rpc.acquires != []
    requires Last(s.rpc.streams).slot.Some?
    ensures TookError(call, s, DoTakeDown(call, s, ctxDone))
  {
    hide DoFail, ReportedTo;
    var r := |s.rpc.streams| - 1;
    var rpc := s.rpc.(streams := s.rpc.streams[r := s.rpc.streams[r].(slot := None)], trailers := s.rpc.trailers + [r]);
    var polled := if s.rpc.pc.Awaiting? then rpc else PollFirst(rpc);
    FailShape(call, Sys(polled, s.pool), s.rpc.streams[r].slot.value, ByDown,
              (s.rpc.pc.Selecting? && polled.firstMsg.None?) || ctxDone);
  }

  lemma FailShape<C>(call: Call, s: Sys<C>, err: Error, trigger: Trigger, stop: bool)
    requires s.rpc.acquires != []
    ensures var t := DoFail(call, s, err, trigger, stop);
      && (t.rpc.pc.Returned? || (t.rpc.pc == Opening(0, trigger) && !stop))
      && t.rpc == s.rpc.(pc := t.rpc.pc, reports := t.rpc.reports, cancelled := t.rpc.cancelled)
      && FailedOver(call, s, t)
  {
  }

  // ---------- what is acquired ----------

  /** A lease as the target of the call makes it. */
  ghost predicate LeaseOf(target: Target, lease: Lease) {
    match target
    case Static(cluster) => lease == Lease("", cluster)
    case Sticky(key) => lease.key == key
    case Balanced => lease.key == ""
    case Unresolved(_) => false
  }

  lemma AcquiresBy<C>(call: Call, s: Sys<C>, e: Event<C>)
    requires Control(call, s.rpc)
    ensures var t := Next(call, s, e);
      || t.rpc.acquires == s.rpc.acquires
      || (e.Acquire? && GetConnection(call.target, s.pool, e.dials).1.Some?
          && t.rpc.acquires == s.rpc.acquires + [GetConnection(call.target, s.pool, e.dials).1.value])
  {
    hide Control, GetConnection, OnBackendFailure, Do, DoTakeUp, DoTakeDown;
    if HandlerEnabled(s.rpc, e) && (e.TakeUp? || e.TakeDown?) {
      TakeShape(call, s, e);
      hide Handle;
    }
  }

  lemma ConnectionFits<C>(target: Target, pool: Pool<C>, dials: Dials<C>)
    ensures GetConnection(target, pool, dials).1.Some? ==> LeaseOf(target, GetConnection(target, pool, dials).1.value)
  {
    hide GetForKey, GetRoundRobin;
  }

  /** Every connection is acquired for the target of the call: a sticky one under its key, a static one
      under its cluster's name, a balanced one under no key, and none when there is no target. */
  lemma {:induction false} LeasesAreTheTargets<C>(call: Call, pool: Pool<C>, events: seq<Event<C>>)
    ensures forall i :: 0 <= i < |Exec(call, Start(pool), events).rpc.acquires| ==>
              LeaseOf(call.target, Exec(call, Start(pool), events).rpc.acquires[i])
    decreases |events|
  {
    hide Control, Next, GetConnection;
    if events != [] {
      var front, e := events[..|events| - 1], events[|events| - 1];
      LeasesAreTheTargets(call, pool, front);
      StartControl(call);
      ExecKeeps(call, Start(pool), front);
      AcquiresBy(call, Exec(call, Start(pool), front), e);
      if e.Acquire? {
        ConnectionFits(call.target, Exec(call, Start(pool), front).pool, e.dials);
      }
    }
  }

  // ---------- retry bound ----------

  /** How many rounds, and attempts per round, the call may use. */
  ghost function Limit(call: Call): nat {
    if call.retryable && call.retryCount > 1 then call.retryCount else 1
  }

  /** Attempts enough for k rounds. */
  ghost function Quota(call: Call, k: nat): nat {
    k * Limit(call)
  }

  lemma Times(k: nat, limit: nat, a: nat)
    requires k < limit && a <= limit
    ensures k * limit + a <= limit * limit
  {
    var rest := limit - k - 1;
    assert limit * limit == (k + 1 + rest) * limit == k * limit + limit + rest * limit;
  }

  lemma QuotaGrows(call: Call, k: nat, a: nat)
    ensures Quota(call, 0) == 0 && Quota(call, k + 1) == Quota(call, k) + Limit(call)
    ensures k < Limit(call) && a <= Limit(call) ==> Quota(call, k) + a <= Quota(call, Limit(call))
    ensures k <= Limit(call) ==> Quota(call, k) <= Quota(call, Limit(call))
  {
    if k < Limit(call) && a <= Limit(call) {
      Times(k, Limit(call), a);
    }
    if k < Limit(call) {
      Times(k, Limit(call), 0);
    }
  }

  /** NewStream was called once for each connection acquired, and at most Limit times per round. */
  ghost predicate StreamsCounted(call: Call, rpc: Rpc) {
    && (call.retryable && call.retryCount < 1 ==> rpc.newStreams == 0)
    && rpc.newStreams + (if rpc.pc.Connecting? then 1 else 0) == |rpc.acquires|
    && rpc.newStreams <=
         match rpc.pc
         case Opening(a, _) => Quota(call, |rpc.streams|) + a
         case Connecting(a, _) => Quota(call, |rpc.streams|) + a
         case Returned(_) => Quota(call, Limit(call))
         case _ => Quota(call, |rpc.streams|)
  }

  lemma NextCounts<C>(call: Call, s: Sys<C>, e: Event<C>)
    requires Control(call, s.rpc) && StreamsCounted(call, s.rpc)
    ensures StreamsCounted(call, Next(call, s, e).rpc)
  {
    hide Accounted, Attached, UpOnce, DownOnce, Quota, DoAcquire, DoOpenFailed, DoTakeUp, DoTakeDown, DoReplay;
    if HandlerEnabled(s.rpc, e) {
      HandleCounts(call, s, e);
    }
  }

  lemma HandleCounts<C>(call: Call, s: Sys<C>, e: Event<C>)
    requires Control(call, s.rpc) && StreamsCounted(call, s.rpc) && HandlerEnabled(s.rpc, e)
    ensures StreamsCounted(call, Handle(call, s, e).rpc)
  {
    hide Accounted, Attached, UpOnce, DownOnce, GetConnection, Quota, DoTakeUp, DoTakeDown;
    var k := |s.rpc.streams|;
    var a := if s.rpc.pc.Opening? || s.rpc.pc.Connecting? then s.rpc.pc.attempt else 0;
    QuotaGrows(call, k, a);
    match e
    case Acquire(dials) =>
    case OpenOk =>
    case OpenFailed(err) => QuotaGrows(call, k, a + 1);
    case Replay(sendErr) =>
    case TakeUp(ctxDone) => TakeShape(call, s, e);
    case TakeDown(ctxDone) => TakeShape(call, s, e);
  }

  lemma {:induction false} ExecCounts<C>(call: Call, s: Sys<C>, events: seq<Event<C>>)
    requires Control(call, s.rpc) && StreamsCounted(call, s.rpc)
    ensures StreamsCounted(call, Exec(call, s, events).rpc)
    decreases |events|
  {
    if events != [] {
      ExecCounts(call, s, events[..|events| - 1]);
      ExecKeeps(call, s, events[..|events| - 1]);
      NextCounts(call, Exec(call, s, events[..|events| - 1]), events[|events| - 1]);
    }
  }

  /** Retry bound: with retry count R an RPC on a dynamic cluster makes at most R rounds of forwarding
      and R * R calls of NewStream, and none at all when R is not positive; on a static cluster it
      makes at most one of each. */
  lemma RetriesAreBounded<C>(call: Call, pool: Pool<C>, events: seq<Event<C>>)
    ensures var rpc := Exec(call, Start(pool), events).rpc;
      && (call.retryable && call.retryCount >= 1 ==>
            |rpc.streams| <= call.retryCount && rpc.newStreams <= call.retryCount * call.retryCount)
      && (call.retryable && call.retryCount < 1 ==> |rpc.streams| == 0 && rpc.newStreams == 0)
      && (!call.retryable ==> |rpc.streams| <= 1 && rpc.newStreams <= 1)
  {
    hide Exec;
    StartControl(call);
    ExecKeeps(call, Start(pool), events);
    ExecCounts(call, Start(pool), events);
    var rpc := Exec(call, Start(pool), events).rpc;
    BoundAt(call, rpc);
  }

  lemma BoundAt(call: Call, rpc: Rpc)
    requires Control(call, rpc) && StreamsCounted(call, rpc)
    ensures |rpc.streams| <= Limit(call) && rpc.newStreams <= Limit(call) * Limit(call)
  {
    hide Accounted, Attached, UpOnce, DownOnce;
    var a := if rpc.pc.Opening? || rpc.pc.Connecting? then rpc.pc.attempt else 0;
    QuotaGrows(call, |rpc.streams|, a);
  }

  // ---------- termination and progress ----------

  /** The handler's work in one round: opening takes two events an attempt, forwarding at most three. */
  ghost function RoundCost(call: Call): nat {
    2 * Limit(call) + 2
  }

  ghost function Rest(call: Call, rounds: nat): int {
    (Limit(call) - rounds) * RoundCost(call)
  }

  lemma RestShrinks(call: Call, rounds: nat)
    requires rounds <= Limit(call)
    ensures Rest(call, rounds) >= 0
    ensures rounds < Limit(call) ==> Rest(call, rounds) == Rest(call, rounds + 1) + RoundCost(call)
  {
    var n, c := Limit(call) - rounds, RoundCost(call);
    assert n * c == (n - 1) * c + c;
  }

  /** A bound on the events the handler can still take: rounds left first, then attempts left, then
      the place within the round. */
  ghost function Budget(call: Call, rpc: Rpc): int {
    match rpc.pc
    case Opening(a, _) => Rest(call, |rpc.streams|) + 2 * (Limit(call) - a) + 1
    case Connecting(a, _) => Rest(call, |rpc.streams|) + 2 * (Limit(call) - a)
    case Selecting(i) => Rest(call, |rpc.streams|) + RoundCost(call) + (if i == 0 then 1 else 0)
    case Replaying => Rest(call, |rpc.streams|) + RoundCost(call) + 1
    case Awaiting => Rest(call, |rpc.streams|) + RoundCost(call)
    case Returned(_) => 0
  }

  lemma {:induction false} BudgetFalls<C>(call: Call, s: Sys<C>, e: Event<C>)
    requires Control(call, s.rpc)
    ensures Budget(call, s.rpc) >= 0
    ensures HandlerEnabled(s.rpc, e) ==> 0 <= Budget(call, Next(call, s, e).rpc) < Budget(call, s.rpc)
    ensures !HandlerEnabled(s.rpc, e) ==> Budget(call, Next(call, s, e).rpc) == Budget(call, s.rpc)
  {
    hide Accounted, Attached, UpOnce, DownOnce, Rest, DoAcquire, DoOpenFailed, DoReplay, DoTakeUp, DoTakeDown;
    RestShrinks(call, |s.rpc.streams|);
    if HandlerEnabled(s.rpc, e) {
      if s.rpc.pc.Opening? || s.rpc.pc.Connecting? {
        OpeningBudgetFalls(call, s, e);
      } else {
        RoundBudgetFalls(call, s, e);
      }
    }
  }

  lemma OpeningBudgetFalls<C>(call: Call, s: Sys<C>, e: Event<C>)
    requires Control(call, s.rpc) && HandlerEnabled(s.rpc, e) && (s.rpc.pc.Opening? || s.rpc.pc.Connecting?)
    ensures 0 <= Budget(call, Handle(call, s, e).rpc) < Budget(call, s.rpc)
  {
    hide Accounted, Attached, UpOnce, DownOnce, GetConnection, Rest;
    RestShrinks(call, |s.rpc.streams|);
    if e.OpenOk? {
      RestShrinks(call, |s.rpc.streams| + 1);
    }
  }

  lemma RoundBudgetFalls<C>(call: Call, s: Sys<C>, e: Event<C>)
    requires Control(call, s.rpc) && HandlerEnabled(s.rpc, e) && !s.rpc.pc.Opening? && !s.rpc.pc.Connecting?
    ensures 0 <= Budget(call, Handle(call, s, e).rpc) < Budget(call, s.rpc)
  {
    hide Accounted, Attached, DownOnce, Rest, DoTakeUp, DoTakeDown;
    RestShrinks(call, |s.rpc.streams|);
    if e.TakeUp? || e.TakeDown? {
      TakeShape(call, s, e);
      hide Handle;
    }
  }

  /** How many events of a run were taken by the handler. */
  ghost function HandlerSteps<C>(call: Call, s: Sys<C>, events: seq<Event<C>>): nat {
    if events == [] then 0
    else
      var front := events[..|events| - 1];
      HandlerSteps(call, s, front)
      + if HandlerEnabled(Exec(call, s, front).rpc, events[|events| - 1]) then 1 else 0
  }

  lemma {:induction false} StepsWithinBudget<C>(call: Call, s: Sys<C>, events: seq<Event<C>>)
    requires Control(call, s.rpc)
    ensures 0 <= HandlerSteps(call, s, events) + Budget(call, Exec(call, s, events).rpc) <= Budget(call, s.rpc)
    ensures Budget(call, Exec(call, s, events).rpc) >= 0
    decreases |events|
  {
    hide Control, Next, Budget;
    if events == [] {
      BudgetFalls(call, s, OpenOk);
    } else {
      var front := events[..|events| - 1];
      StepsWithinBudget(call, s, front);
      ExecKeeps(call, s, front);
      BudgetFalls(call, Exec(call, s, front), events[|events| - 1]);
      ExecKeeps(call, s, events);
      BudgetFalls(call, Exec(call, s, events), OpenOk);
    }
  }

  /** Termination: whatever the environment answers, in whatever order, the handler of an RPC takes at
      most 2 R (R + 2) + 1 events, where R is the retry count, or 1 on a static cluster. */
  lemma HandlerTerminates<C>(call: Call, pool: Pool<C>, events: seq<Event<C>>)
    ensures var r := Limit(call); HandlerSteps(call, Start(pool), events) <= 2 * r * (r + 2) + 1
  {
    hide Control, Exec, HandlerSteps, Budget;
    StartControl(call);
    StepsWithinBudget(call, Start(pool), events);
    StartBudget(call);
  }

  lemma StartBudget(call: Call)
    ensures var r := Limit(call); Budget(call, StartRpc()) == 2 * r * (r + 2) + 1
  {
    Doubled(Limit(call));
  }

  lemma Doubled(r: nat)
    ensures r * (2 * r + 2) + 2 * r + 1 == 2 * r * (r + 2) + 1
  {
  }

  /** Progress: a handler that has not returned can take an event at once, or it waits in the select
      or for the forwarder of a later round, and what it waits for has not ended: the last backend,
      and in the first turn of the select the client too. */
  lemma WaitsOnlyForStreams<C>(call: Call, pool: Pool<C>, events: seq<Event<C>>, dials: Dials<C>)
    ensures var rpc := Exec(call, Start(pool), events).rpc;
      match rpc.pc
      case Opening(_, _) => HandlerEnabled(rpc, Acquire(dials))
      case Connecting(_, _) => HandlerEnabled<C>(rpc, OpenOk)
      case Replaying => HandlerEnabled<C>(rpc, Replay(None))
      case Selecting(i) =>
        && rpc.streams != []
        && (HandlerEnabled<C>(rpc, TakeDown(false)) <==> Last(rpc.streams).down.DownEnded?)
        && (HandlerEnabled<C>(rpc, TakeUp(false)) <==> i == 0 && rpc.up.UpEnded?)
      case Awaiting =>
        && rpc.streams != []
        && (HandlerEnabled<C>(rpc, TakeDown(false)) <==> Last(rpc.streams).down.DownEnded?)
      case Returned(_) => true
  {
    hide Exec;
    StartControl(call);
    ExecKeeps(call, Start(pool), events);
  }
}
