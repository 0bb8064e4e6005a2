/** When the client gets the rounds of an RPC one after the other, exactly: the forwarder of the first
    round may still run when that of the second is started, and then their messages can change places. */
module ProxyOrder {
  import opened Options
  import opened GatewayErrors
  import opened PoolModel
  import opened Proxy
  import opened ProxyControl
  import opened ProxyConversation

  // ---------- while the first forwarder has ended ----------

  lemma {:induction false} EndedKeepsOrder<C>(call: Call, s: Sys<C>, later: seq<Event<C>>)
    requires Control(call, s.rpc) && Flow(s.rpc) && InOrder(s.rpc)
    requires s.rpc.streams != [] && s.rpc.streams[0].down.DownEnded?
    ensures var rpc := Exec(call, s, later).rpc;
      InOrder(rpc) && rpc.streams != [] && rpc.streams[0].down.DownEnded?
    decreases |later|
  {
    hide Control, Flow, Next;
    if later != [] {
      var front := later[..|later| - 1];
      EndedKeepsOrder(call, s, front);
      ExecKeeps(call, s, front);
      ExecFlows(call, s, front);
      NextGathers(call, Exec(call, s, front), later[|later| - 1]);
      NextRounds(call, Exec(call, s, front), later[|later| - 1]);
    }
  }

  // ---------- while it runs ----------

  /** The message a forwarder is about to hand to the client: the one in hand, or the next. */
  ghost function NextMsg(down: Down, next: Msg): Msg {
    match down
    case DownHeader(msg) => msg
    case DownSending(msg) => msg
    case _ => next
  }

  /** The first backend's forwarder takes its next message in hand, and the header is sent; then the
      second backend's first message is handed to the client, and then that of the first. */
  ghost function Overtaking<C>(x: Msg, next: Msg): seq<Event<C>> {
    [Replay(None), DownRecv(0, next), DownHeaderSent(0), DownRecv(1, x), DownSent(1), DownSent(0)]
  }

  /** SendHeader succeeds only before anything was sent to the client. */
  ghost predicate HeadersFirst<C>(call: Call, s: Sys<C>, later: seq<Event<C>>) {
    forall n :: 0 <= n < |later| ==> HeaderFirst(Exec(call, s, later[..n]).rpc, later[n])
  }

  ghost predicate HeaderFirst<C>(rpc: Rpc, e: Event<C>) {
    e.DownHeaderSent? && e.round < |rpc.streams| && rpc.streams[e.round].down.DownHeader? ==> rpc.clientGot == []
  }

  /** The second round is about to start while the forwarder of the first still runs. */
  ghost predicate AboutToOverlap(rpc: Rpc) {
    && rpc.pc.Replaying? && |rpc.streams| == 2 && rpc.acquires != [] && rpc.firstMsg.Some?
    && !rpc.streams[0].down.DownEnded? && !rpc.streams[0].down.DownIdle?
    && rpc.streams[1].delivered == []
    && (rpc.streams[0].received == [] || rpc.streams[0].down.DownHeader? ==> rpc.streams[0].delivered == [])
  }

  lemma StartSecond<C>(call: Call, s: Sys<C>) returns (t: Sys<C>)
    requires AboutToOverlap(s.rpc)
    ensures t == Next(call, s, Replay(None))
    ensures t.rpc.clientGot == s.rpc.clientGot && |t.rpc.streams| == 2 && t.rpc.streams[0] == s.rpc.streams[0]
    ensures t.rpc.streams[1].down == DownReceiving && t.rpc.streams[1].delivered == []
  {
    t := Next(call, s, Replay(None));
  }

  lemma TakeFirst<C>(call: Call, s: Sys<C>, next: Msg) returns (t: Sys<C>)
    requires |s.rpc.streams| == 2 && !s.rpc.streams[0].down.DownEnded? && !s.rpc.streams[0].down.DownIdle?
    ensures t == Next(call, Next(call, s, DownRecv(0, next)), DownHeaderSent(0))
    ensures |t.rpc.streams| == 2 && t.rpc.streams[1] == s.rpc.streams[1] && t.rpc.clientGot == s.rpc.clientGot
    ensures t.rpc.streams[0].down == DownSending(NextMsg(s.rpc.streams[0].down, next))
    ensures t.rpc.streams[0].delivered == s.rpc.streams[0].delivered
  {
    t := Next(call, Next(call, s, DownRecv(0, next)), DownHeaderSent(0));
  }

  lemma DeliverSecond<C>(call: Call, s: Sys<C>, x: Msg) returns (t: Sys<C>)
    requires |s.rpc.streams| == 2 && s.rpc.streams[1].down == DownReceiving && s.rpc.streams[1].delivered == []
    ensures t == Next(call, Next(call, s, DownRecv(1, x)), DownSent(1))
    ensures |t.rpc.streams| == 2 && t.rpc.streams[0] == s.rpc.streams[0]
    ensures t.rpc.clientGot == s.rpc.clientGot + [x] && t.rpc.streams[1].delivered == [x]
  {
    t := Next(call, Next(call, s, DownRecv(1, x)), DownSent(1));
  }

  lemma DeliverFirst<C>(call: Call, s: Sys<C>) returns (t: Sys<C>)
    requires |s.rpc.streams| == 2 && s.rpc.streams[0].down.DownSending?
    ensures t == Next(call, s, DownSent(0))
    ensures var m := s.rpc.streams[0].down.msg;
      && |t.rpc.streams| == 2 && t.rpc.streams[1] == s.rpc.streams[1]
      && t.rpc.clientGot == s.rpc.clientGot + [m]
      && t.rpc.streams[0].delivered == s.rpc.streams[0].delivered + [m]
  {
    t := Next(call, s, DownSent(0));
  }

  lemma ExecSix<C>(call: Call, s: Sys<C>, e: seq<Event<C>>)
    requires |e| == 6
    ensures Exec(call, s, e) ==
            Next(call, Next(call, Next(call, Next(call, Next(call, Next(call, s,
                 e[0]), e[1]), e[2]), e[3]), e[4]), e[5])
  {
    hide Next;
    assert Exec(call, s, e[..0]) == s;
    hide Exec;
    PrefixStep(call, s, e, 0);
    PrefixStep(call, s, e, 1);
    PrefixStep(call, s, e, 2);
    PrefixStep(call, s, e, 3);
    PrefixStep(call, s, e, 4);
    PrefixStep(call, s, e, 5);
    assert e[..6] == e;
  }

  lemma PrefixStep<C>(call: Call, s: Sys<C>, e: seq<Event<C>>, n: nat)
    requires n < |e|
    ensures Exec(call, s, e[..n + 1]) == Next(call, Exec(call, s, e[..n]), e[n])
  {
    assert e[..n + 1] == e[..n] + [e[n]];
    ExecSnoc(call, s, e[..n], e[n]);
  }

  /** The first backend's message comes behind the second's, although its round is the earlier one. */
  lemma Overtakes<C>(call: Call, s: Sys<C>, x: Msg, next: Msg)
    requires AboutToOverlap(s.rpc)
    ensures var rpc, m := Exec(call, s, Overtaking(x, next)).rpc, NextMsg(s.rpc.streams[0].down, next);
      && rpc.clientGot == s.rpc.clientGot + [x, m]
      && Flatten(rpc.streams) == s.rpc.streams[0].delivered + [m, x]
  {
    hide Exec, Next, Flatten;
    ExecSix(call, s, Overtaking(x, next));
    var t := StartSecond(call, s);
    t := TakeFirst(call, t, next);
    t := DeliverSecond(call, t, x);
    t := DeliverFirst(call, t);
    FlattenTwo(t.rpc.streams);
    assert s.rpc.clientGot + [x] + [NextMsg(s.rpc.streams[0].down, next)]
        == s.rpc.clientGot + [x, NextMsg(s.rpc.streams[0].down, next)];
  }

  /** That needs no SendHeader after a message was sent. */
  lemma OvertakesLegally<C>(call: Call, s: Sys<C>, x: Msg, next: Msg)
    requires AboutToOverlap(s.rpc) && InOrder(s.rpc)
    ensures HeadersFirst(call, s, Overtaking(x, next))
  {
    hide Exec, Next, Flatten;
    var e: seq<Event<C>> := Overtaking(x, next);
    assert Exec(call, s, e[..2]) == Next(call, Next(call, s, e[0]), e[1]) by {
      TwoEvents(call, s, e);
    }
    FlattenTwo(s.rpc.streams);
    var t := StartSecond(call, s);
    HeaderPending(call, t, next);
  }

  lemma TwoEvents<C>(call: Call, s: Sys<C>, e: seq<Event<C>>)
    requires |e| >= 2
    ensures Exec(call, s, e[..2]) == Next(call, Next(call, s, e[0]), e[1])
  {
    hide Next;
    assert Exec(call, s, e[..0]) == s;
    PrefixStep(call, s, e, 0);
    PrefixStep(call, s, e, 1);
  }

  /** A forwarder waits with its first message for the header. */
  lemma HeaderPending<C>(call: Call, s: Sys<C>, next: Msg)
    requires |s.rpc.streams| == 2
    ensures var t := Next(call, s, DownRecv(0, next));
      && t.rpc.clientGot == s.rpc.clientGot && |t.rpc.streams| == 2
      && (t.rpc.streams[0].down.DownHeader? ==> s.rpc.streams[0].received == [] || s.rpc.streams[0].down.DownHeader?)
  {
  }

  /** So some continuation is out of order: one in which the two messages differ. */
  lemma SomeOrderBreaks<C>(call: Call, s: Sys<C>) returns (later: seq<Event<C>>)
    requires AboutToOverlap(s.rpc) && InOrder(s.rpc)
    ensures HeadersFirst(call, s, later) && !InOrder(Exec(call, s, later).rpc)
  {
    hide HeadersFirst;
    var m := NextMsg(s.rpc.streams[0].down, "old");
    var x := m + "x";
    later := Overtaking(x, "old");
    Overtakes(call, s, x, "old");
    OvertakesLegally(call, s, x, "old");
    FlattenTwo(s.rpc.streams);
    var d := s.rpc.streams[0].delivered;
    assert s.rpc.clientGot == d;
    assert (d + [x, m])[|d|] != (d + [m, x])[|d|];
  }

  // ---------- exactly when ----------

  lemma ReplayingIs<C>(call: Call, s: Sys<C>)
    requires Control(call, s.rpc) && Flow(s.rpc) && StartsInOrder(s.rpc)
    requires s.rpc.pc.Replaying? && |s.rpc.streams| == 2
    ensures InOrder(s.rpc)
    ensures !s.rpc.streams[0].down.DownEnded? ==> AboutToOverlap(s.rpc)
  {
    hide UpFlow, InTurn, TriggerFits;
    assert DownFlow(s.rpc.streams[0]) && DownFlow(s.rpc.streams[1]) && Replayed(s.rpc, s.rpc.streams[1]);
  }

  /** When the second round is about to start, whatever led there: the client gets the rounds in order in
      every continuation, if and only if the forwarder of the first round has ended. That is so too if
      only those continuations count in which no SendHeader succeeds after a message was sent. */
  lemma {:induction false} OrderHoldsExactly<C>(call: Call, pool: Pool<C>, events: seq<Event<C>>)
    requires var rpc := Exec(call, Start(pool), events).rpc; rpc.pc.Replaying? && |rpc.streams| == 2
    ensures (forall later :: InOrder(Exec(call, Exec(call, Start(pool), events), later).rpc))
        <==> Exec(call, Start(pool), events).rpc.streams[0].down.DownEnded?
    ensures (forall later :: HeadersFirst(call, Exec(call, Start(pool), events), later) ==>
               InOrder(Exec(call, Exec(call, Start(pool), events), later).rpc))
        <==> Exec(call, Start(pool), events).rpc.streams[0].down.DownEnded?
  {
    hide Exec, Control, Flow, InOrder, AboutToOverlap, HeadersFirst;
    Reachable(call, pool, events);
    var s := Exec(call, Start(pool), events);
    ReplayingIs(call, s);
    if s.rpc.streams[0].down.DownEnded? {
      forall later ensures InOrder(Exec(call, s, later).rpc) {
        EndedKeepsOrder(call, s, later);
      }
    } else {
      var later := SomeOrderBreaks(call, s);
    }
  }

  lemma Reachable<C>(call: Call, pool: Pool<C>, events: seq<Event<C>>)
    ensures var rpc := Exec(call, Start(pool), events).rpc;
      Control(call, rpc) && Flow(rpc) && Gathered(rpc) && StartsInOrder(rpc)
  {
    hide Exec, Control, Flow, Gathered, StartsInOrder;
    StartControl(call);
    StartFlows();
    ExecKeeps(call, Start(pool), events);
    ExecFlows(call, Start(pool), events);
    ExecOrders(call, pool, events);
  }

  // ---------- from any moment on ----------

  /** A later round's forwarder is started by a replay, and not when its stream is opened. */
  lemma SecondStarts<C>(call: Call, s: Sys<C>, e: Event<C>)
    requires Control(call, s.rpc) && |Next(call, s, e).rpc.streams| >= 2
    requires |s.rpc.streams| >= 2 ==> s.rpc.streams[1].down.DownIdle?
    requires !Next(call, s, e).rpc.streams[1].down.DownIdle?
    ensures |s.rpc.streams| >= 2 && s.rpc.pc.Replaying?
  {
    hide Accounted, Attached, UpOnce, GetConnection, Report, DoTakeUp, DoTakeDown;
    if HandlerEnabled(s.rpc, e) && (e.TakeUp? || e.TakeDown?) {
      TakeTouches(call, s, e);
      hide Handle;
    } else if HandlerEnabled(s.rpc, e) && e.OpenFailed? {
      OpenFailedTouches(call, s, e.openErr);
      hide Handle;
    } else if IsDown(e) && e.round < |s.rpc.streams| {
      DownTouches(s.rpc, e, e.round);
      hide StepDown;
    }
  }

  /** Rounds begin to overlap when the second is started while the forwarder of the first runs. */
  lemma OverlapBegins<C>(call: Call, s: Sys<C>, e: Event<C>)
    requires Control(call, s.rpc) && Flow(s.rpc) && StartsInOrder(s.rpc)
    requires !Overlapping(s.rpc) && Overlapping(Next(call, s, e).rpc)
    ensures AboutToOverlap(s.rpc)
  {
    hide Control, UpFlow, DownFlow, Replayed, TriggerFits, HeaderOnce, StartsInOrder, Next, AboutToOverlap;
    NextRounds(call, s, e);
    SecondStarts(call, s, e);
    forall j | 1 <= j && j + 1 < |s.rpc.streams| ensures s.rpc.streams[j].down.DownEnded? {
      EarlierEnded(s.rpc, j);
    }
    hide InTurn;
    ReplayingIs(call, s);
  }

  lemma {:induction false} ExecAppend<C>(call: Call, s: Sys<C>, a: seq<Event<C>>, b: seq<Event<C>>)
    ensures Exec(call, s, a + b) == Exec(call, Exec(call, s, a), b)
    decreases |b|
  {
    hide Next;
    if b == [] {
      assert a + b == a;
    } else {
      var front, e := b[..|b| - 1], b[|b| - 1];
      ExecAppend(call, s, a, front);
      assert a + b == a + front + [e];
      ExecSnoc(call, s, a + front, e);
    }
  }

  lemma {:induction false} OrderedUnlessOverlap<C>(call: Call, s: Sys<C>, later: seq<Event<C>>)
    requires Control(call, s.rpc) && Flow(s.rpc) && InOrder(s.rpc)
    requires forall n :: 0 <= n <= |later| ==> !Overlapping(Exec(call, s, later[..n]).rpc)
    ensures InOrder(Exec(call, s, later).rpc)
    decreases |later|
  {
    hide Control, Flow, Overlapping, Next;
    if later != [] {
      var front := later[..|later| - 1];
      forall n | 0 <= n <= |front| ensures !Overlapping(Exec(call, s, front[..n]).rpc) {
        assert front[..n] == later[..n];
      }
      OrderedUnlessOverlap(call, s, front);
      ExecKeeps(call, s, front);
      ExecFlows(call, s, front);
      NextGathers(call, Exec(call, s, front), later[|later| - 1]);
    }
  }

  lemma {:induction false} FirstOverlap<C>(call: Call, s: Sys<C>, later: seq<Event<C>>) returns (n: nat)
    requires !Overlapping(s.rpc) && Overlapping(Exec(call, s, later).rpc)
    ensures n < |later| && !Overlapping(Exec(call, s, later[..n]).rpc)
    ensures Overlapping(Next(call, Exec(call, s, later[..n]), later[n]).rpc)
    decreases |later|
  {
    hide Overlapping, Next;
    n := |later| - 1;
    if Overlapping(Exec(call, s, later[..n]).rpc) {
      var front := later[..n];
      n := FirstOverlap(call, s, front);
      assert front[..n] == later[..n];
    }
  }

  /** From any moment of a run in which rounds have not overlapped yet: some continuation gives the
      client messages out of order, if and only if some continuation makes rounds overlap. */
  lemma {:induction false} OrderFailsByOverlap<C>(call: Call, pool: Pool<C>, events: seq<Event<C>>)
    requires !EverOverlapped(call, Start(pool), events)
    ensures (exists later :: !InOrder(Exec(call, Exec(call, Start(pool), events), later).rpc))
        <==> (exists later :: Overlapping(Exec(call, Exec(call, Start(pool), events), later).rpc))
  {
    hide Exec, InOrder, Overlapping, EverOverlapped;
    var s := Exec(call, Start(pool), events);
    if later :| !InOrder(Exec(call, s, later).rpc) {
      var l := OverlapBehind(call, pool, events, later);
      assert Overlapping(Exec(call, s, l).rpc);
    }
    if later :| Overlapping(Exec(call, s, later).rpc) {
      var l := BreakBehind(call, pool, events, later);
      assert !InOrder(Exec(call, s, l).rpc);
    }
  }

  lemma OverlapBehind<C>(call: Call, pool: Pool<C>, events: seq<Event<C>>, later: seq<Event<C>>)
    returns (l: seq<Event<C>>)
    requires !EverOverlapped(call, Start(pool), events)
    requires !InOrder(Exec(call, Exec(call, Start(pool), events), later).rpc)
    ensures Overlapping(Exec(call, Exec(call, Start(pool), events), l).rpc)
  {
    hide Exec, Control, Flow, InOrder, Overlapping, EverOverlapped;
    Reachable(call, pool, events);
    ExecOrders(call, pool, events);
    var s := Exec(call, Start(pool), events);
    if n: nat :| n <= |later| && Overlapping(Exec(call, s, later[..n]).rpc) {
      l := later[..n];
    } else {
      OrderedUnlessOverlap(call, s, later);
    }
  }

  lemma BreakBehind<C>(call: Call, pool: Pool<C>, events: seq<Event<C>>, later: seq<Event<C>>)
    returns (l: seq<Event<C>>)
    requires !EverOverlapped(call, Start(pool), events)
    requires Overlapping(Exec(call, Exec(call, Start(pool), events), later).rpc)
    ensures !InOrder(Exec(call, Exec(call, Start(pool), events), l).rpc)
  {
    hide Exec, InOrder, Overlapping;
    var n := FirstOverlap(call, Exec(call, Start(pool), events), later);
    l := BreakFrom(call, pool, events, later[..n], later[n]);
  }

  lemma BreakFrom<C>(call: Call, pool: Pool<C>, events: seq<Event<C>>, more: seq<Event<C>>, e: Event<C>)
    returns (later: seq<Event<C>>)
    requires var s := Exec(call, Exec(call, Start(pool), events), more);
      !Overlapping(s.rpc) && Overlapping(Next(call, s, e).rpc)
    ensures !InOrder(Exec(call, Exec(call, Start(pool), events), later).rpc)
  {
    hide Exec, Next, Control, Flow, InOrder, Overlapping, AboutToOverlap;
    ExecAppend(call, Start(pool), events, more);
    Reachable(call, pool, events + more);
    var s := Exec(call, Start(pool), events + more);
    OverlapBegins(call, s, e);
    assert Early(s.rpc) by {
      AboutIsEarly(call, s.rpc);
    }
    var rest := SomeOrderBreaks(call, s);
    later := more + rest;
    ExecAppend(call, Exec(call, Start(pool), events), more, rest);
  }

  lemma AboutIsEarly(call: Call, rpc: Rpc)
    requires Control(call, rpc) && AboutToOverlap(rpc)
    ensures Early(rpc)
  {
  }

  // ---------- an instance ----------

  /** A run in which that happens: after a transfer caused by a failure towards the backend, the
      forwarder of the first round hands on its message behind the second backend's; SendHeader is not
      called after a message was sent. */
  lemma {:induction false} UpTransferMayReorder<C>(c: C) returns (call: Call, pool: Pool<C>, events: seq<Event<C>>)
    ensures var rpc := Exec(call, Start(pool), events).rpc;
      && rpc.clientGot == ["new", "old"]
      && Flatten(rpc.streams) == ["old", "new"]
    ensures HeadersFirst(call, Start(pool), events)
  {
    hide Exec, HeadersFirst;
    call := Call(Balanced, true, true, 2);
    var a, b := Instance("a", "10.0.0.1", 9000), Instance("b", "10.0.0.2", 9000);
    pool := EmptyPool<C>().(instances := [a, b], instanceConn := map["a" := c, "b" := c]);
    var dials: Dials<C> := [];
    events := [Acquire(dials), OpenOk, UpRecv("q"), UpSendFailed(Opaque("reset")), DownRecv(0, "old")];
    var s := FirstRound(call, pool, dials, events);
    ExecSnoc(call, Start(pool), events, TakeUp(false));
    events := events + [TakeUp(false)];
    s := Next(call, s, TakeUp(false));
    assert s.rpc.pc == Opening(0, ByUp);
    assert s.pool.instances == [b] && s.pool.rr == 0;
    ExecSnoc(call, Start(pool), events, Acquire(dials));
    events := events + [Acquire(dials)];
    assert Usable(s.pool, dials, At(s.pool, 0));
    s := Next(call, s, Acquire(dials));
    assert s.rpc.pc == Connecting(0, ByUp);
    ExecSnoc(call, Start(pool), events, OpenOk);
    events, s := events + [OpenOk], Next(call, s, OpenOk);
    Overtakes(call, s, "new", "later");
    FlattenTwo(s.rpc.streams);
    OvertakesLegally(call, s, "new", "later");
    NoHeaderYet(call, Start(pool), events);
    HeadersFirstOn(call, Start(pool), events, Overtaking("new", "later"));
    ExecAppend(call, Start(pool), events, Overtaking("new", "later"));
    events := events + Overtaking("new", "later");
  }

  lemma NoHeaderYet<C>(call: Call, s: Sys<C>, events: seq<Event<C>>)
    requires forall n :: 0 <= n < |events| ==> !events[n].DownHeaderSent?
    ensures HeadersFirst(call, s, events)
  {
  }

  lemma HeadersFirstOn<C>(call: Call, s: Sys<C>, a: seq<Event<C>>, b: seq<Event<C>>)
    requires HeadersFirst(call, s, a) && HeadersFirst(call, Exec(call, s, a), b)
    ensures HeadersFirst(call, s, a + b)
  {
    hide Exec, HeaderFirst;
    forall n | 0 <= n < |a + b| ensures HeaderFirst(Exec(call, s, (a + b)[..n]).rpc, (a + b)[n]) {
      if n < |a| {
        assert (a + b)[..n] == a[..n];
      } else {
        assert (a + b)[..n] == a + b[..n - |a|];
        ExecAppend(call, s, a, b[..n - |a|]);
      }
    }
  }

  lemma FirstRound<C>(call: Call, pool: Pool<C>, dials: Dials<C>, events: seq<Event<C>>) returns (s: Sys<C>)
    requires call == Call(Balanced, true, true, 2) && !pool.closed && |pool.instances| == 2 && pool.rr == 0
    requires pool.instances[0].id in pool.instanceConn
    requires events == [Acquire(dials), OpenOk, UpRecv("q"), UpSendFailed(Opaque("reset")), DownRecv(0, "old")]
    ensures s == Exec(call, Start(pool), events)
    ensures s.pool.instances == pool.instances && s.pool.instanceConn == pool.instanceConn
    ensures s.pool.rr == 1 && !s.pool.closed
    ensures s.rpc.pc == Selecting(0) && s.rpc.acquires == [Lease("", pool.instances[0].id)]
    ensures s.rpc.upSlot == Some(Opaque("reset")) && s.rpc.firstSlot == Some("q") && s.rpc.clientGot == []
    ensures |s.rpc.streams| == 1 && s.rpc.streams[0].down == DownHeader("old") && s.rpc.streams[0].delivered == []
  {
    var none: seq<Event<C>> := [];
    s := Start(pool);
    assert Exec(call, Start(pool), none) == s;
    assert Usable(pool, dials, At(pool, 0));
    ExecSnoc(call, Start(pool), none, events[0]);
    s := Next(call, s, events[0]);
    assert events[..1] == none + [events[0]];
    hide Exec;
    ExecSnoc(call, Start(pool), events[..1], events[1]);
    s := Next(call, s, events[1]);
    assert events[..2] == events[..1] + [events[1]];
    ExecSnoc(call, Start(pool), events[..2], events[2]);
    s := Next(call, s, events[2]);
    assert events[..3] == events[..2] + [events[2]];
    ExecSnoc(call, Start(pool), events[..3], events[3]);
    s := Next(call, s, events[3]);
    assert events[..4] == events[..3] + [events[3]];
    ExecSnoc(call, Start(pool), events[..4], events[4]);
    s := Next(call, s, events[4]);
    assert events == events[..4] + [events[4]];
  }
}
