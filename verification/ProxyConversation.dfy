/** The messages of an RPC: what a transfer to another backend preserves of the conversation. */
module ProxyConversation {
  import opened Options
  import opened GatewayErrors
  import opened PoolModel
  import opened Proxy
  import opened ProxyControl

  /** What the rounds delivered, one after the other. */
  ghost function Flatten(streams: seq<Stream>): seq<Msg> {
    if streams == [] then []
    else Flatten(streams[..|streams| - 1]) + Last(streams).delivered
  }

  /** The message a forwarder has received and not yet handed on. */
  ghost function Pending(down: Down): seq<Msg> {
    match down
    case DownHeader(msg) => [msg]
    case DownSending(msg) => [msg]
    case _ => []
  }

  // ---------- the invariant ----------

  /** From the client: the first backend gets the client's messages in order, all but at most the
      last one read, and the first of them is kept for a replay. */
  ghost predicate UpFlow(rpc: Rpc) {
    && (rpc.clientSent == [] <==> rpc.firstSlot.None? && rpc.firstMsg.None?)
    && (rpc.firstSlot.Some? ==> rpc.clientSent != [] && rpc.firstSlot.value == rpc.clientSent[0])
    && (rpc.firstMsg.Some? ==> rpc.clientSent != [] && rpc.firstMsg.value == rpc.clientSent[0])
    && match rpc.up
       case UpIdle => rpc.streams == [] && rpc.clientSent == []
       case UpReceiving(first) =>
         rpc.streams != [] && rpc.streams[0].sent == rpc.clientSent && (first <==> rpc.clientSent == [])
       case UpSending(msg) =>
         && rpc.streams != [] && rpc.clientSent != [] && Last(rpc.clientSent) == msg
         && rpc.streams[0].sent == rpc.clientSent[..|rpc.clientSent| - 1]
       case UpEnded =>
         && rpc.streams != [] && rpc.streams[0].sent <= rpc.clientSent
         && |rpc.clientSent| <= |rpc.streams[0].sent| + 1
  }

  /** Towards the client: a round delivers what its backend sent, in order, but for a last message
      that could not be handed on. */
  ghost predicate DownFlow(st: Stream) {
    && st.received == st.delivered + st.lost + Pending(st.down)
    && |st.lost| <= 1
    && (st.lost != [] ==> st.down.DownEnded?)
  }

  /** A later round's backend gets the client's first message and the half-close, and nothing else. */
  ghost predicate Replayed(rpc: Rpc, st: Stream) {
    if st.down.DownIdle? then st.sent == [] && !st.halfClosed && st.received == []
    else rpc.firstMsg.Some? && st.sent == [rpc.firstMsg.value] && st.halfClosed
  }

  /** Rounds follow each other: when a round fails towards the client, its forwarder has ended. */
  ghost predicate InTurn(rpc: Rpc) {
    && (forall r :: 0 <= r < |rpc.streams| ==> (rpc.streams[r].trigger == First <==> r == 0))
    && (forall r :: 1 <= r < |rpc.streams| && rpc.streams[r].trigger == ByDown ==> rpc.streams[r - 1].down.DownEnded?)
    && (forall r :: 2 <= r < |rpc.streams| ==> rpc.streams[r].trigger == ByDown)
  }

  /** The round being opened follows the last one in the same way. */
  ghost predicate TriggerFits(rpc: Rpc) {
    rpc.pc.Opening? || rpc.pc.Connecting? ==>
      && (rpc.pc.trigger == First <==> rpc.streams == [])
      && (rpc.pc.trigger == ByDown ==> rpc.streams != [] && Last(rpc.streams).down.DownEnded?)
      && (|rpc.streams| >= 2 ==> rpc.pc.trigger == ByDown)
  }

  ghost predicate HeaderOnce(rpc: Rpc) {
    && rpc.headers in [[], [0]]
    && (rpc.streams == [] || rpc.streams[0].received == [] || rpc.streams[0].down.DownHeader? ==> rpc.headers == [])
    && (rpc.streams != [] && (rpc.streams[0].delivered != [] || rpc.streams[0].down.DownSending?) ==>
          rpc.headers == [0])
    && (forall r :: 1 <= r < |rpc.streams| ==> !rpc.streams[r].down.DownHeader?)
  }

  ghost predicate Flow(rpc: Rpc) {
    && UpFlow(rpc)
    && (forall r :: 0 <= r < |rpc.streams| ==> DownFlow(rpc.streams[r]))
    && (forall r :: 1 <= r < |rpc.streams| ==> Replayed(rpc, rpc.streams[r]))
    && InTurn(rpc)
    && TriggerFits(rpc)
    && HeaderOnce(rpc)
  }

  /** No transfer was caused by a failure towards the backend. */
  ghost predicate OnlyDownTransfers(rpc: Rpc) {
    forall r :: 0 <= r < |rpc.streams| ==> rpc.streams[r].trigger != ByUp
  }

  /** What the client got: the deliveries of the rounds. */
  ghost predicate Gathered(rpc: Rpc) {
    multiset(rpc.clientGot) == multiset(Flatten(rpc.streams))
  }

  /** What the client got, round after round. */
  ghost predicate InOrder(rpc: Rpc) {
    rpc.clientGot == Flatten(rpc.streams)
  }

  /** The first round's forwarder and one of a later round both run, or the later one has run. */
  ghost predicate Overlapping(rpc: Rpc) {
    |rpc.streams| >= 2 && !rpc.streams[1].down.DownIdle? && !rpc.streams[0].down.DownEnded?
  }

  /** No forwarder of a later round was started yet. */
  ghost predicate Early(rpc: Rpc) {
    |rpc.streams| <= 1 || (|rpc.streams| == 2 && rpc.streams[1].down.DownIdle?)
  }

  /** Until a later round's forwarder is started the order holds; the first round's starts at once. */
  ghost predicate StartsInOrder(rpc: Rpc) {
    && (Early(rpc) ==> InOrder(rpc))
    && (rpc.streams != [] ==> !rpc.streams[0].down.DownIdle?)
  }

  // ---------- the handler's events ----------

  /** Only the handler's own bookkeeping differs. */
  ghost predicate SameFlow(p: Rpc, q: Rpc) {
    q == p.(pc := q.pc, acquires := q.acquires, reports := q.reports, cancelled := q.cancelled,
            newStreams := q.newStreams)
  }

  lemma Bookkeeping(p: Rpc, q: Rpc)
    requires Flow(p) && SameFlow(p, q) && TriggerFits(q)
    ensures Flow(q)
  {
  }

  lemma HandleFlows<C>(call: Call, s: Sys<C>, e: Event<C>)
    requires Control(call, s.rpc) && Flow(s.rpc) && HandlerEnabled(s.rpc, e)
    ensures Flow(Handle(call, s, e).rpc)
  {
    hide Control, Flow, DoAcquire, DoOpenFailed, DoOpenOk, DoReplay, DoTakeUp, DoTakeDown;
    match e
    case Acquire(dials) => AcquireFlows(call, s, dials);
    case OpenOk => OpenOkFlows(call, s.rpc);
    case OpenFailed(err) => OpenFailedFlows(call, s, err);
    case Replay(sendErr) => ReplayFlows(call, s, sendErr);
    case TakeUp(ctxDone) => TakeUpFlows(call, s, ctxDone);
    case TakeDown(ctxDone) => TakeDownFlows(call, s, ctxDone);
  }

  lemma AcquireFlows<C>(call: Call, s: Sys<C>, dials: Dials<C>)
    requires Flow(s.rpc) && s.rpc.pc.Opening?
    ensures Flow(DoAcquire(call, s, dials).rpc)
  {
    hide GetConnection, UpFlow, DownFlow, Replayed, InTurn, HeaderOnce;
    Bookkeeping(s.rpc, DoAcquire(call, s, dials).rpc);
  }

  lemma OpenFailedFlows<C>(call: Call, s: Sys<C>, err: Error)
    requires Flow(s.rpc) && s.rpc.pc.Connecting? && s.rpc.acquires != []
    ensures Flow(DoOpenFailed(call, s, err).rpc)
  {
    hide UpFlow, DownFlow, Replayed, InTurn, HeaderOnce;
    Bookkeeping(s.rpc, DoOpenFailed(call, s, err).rpc);
  }

  lemma OpenOkFlows(call: Call, rpc: Rpc)
    requires Control(call, rpc) && Flow(rpc) && rpc.pc.Connecting?
    ensures Flow(DoOpenOk(rpc))
  {
    OpenOkUpFlow(rpc);
    hide Control, UpFlow, Flow;
    StreamAdded(rpc, DoOpenOk(rpc), Last(DoOpenOk(rpc).streams));
  }

  lemma StreamAdded(p: Rpc, q: Rpc, st: Stream)
    requires Flow(p) && UpFlow(q) && q.streams == p.streams + [st] && q.headers == p.headers && q.firstMsg == p.firstMsg
    requires p.pc.Connecting? && st.trigger == p.pc.trigger && !q.pc.Opening? && !q.pc.Connecting?
    requires st.down == if p.streams == [] then DownReceiving else DownIdle
    requires st.sent == [] && !st.halfClosed && st.received == [] && st.delivered == [] && st.lost == []
    ensures Flow(q)
  {
    hide UpFlow, HeaderOnce;
    forall r | 0 <= r < |q.streams|
      ensures DownFlow(q.streams[r]) && (r >= 1 ==> Replayed(q, q.streams[r]))
    {
      if r < |p.streams| {
        assert q.streams[r] == p.streams[r];
      }
    }
    hide DownFlow, Replayed;
    TurnAdded(p, q, st);
  }

  lemma TurnAdded(p: Rpc, q: Rpc, st: Stream)
    requires InTurn(p) && TriggerFits(p) && HeaderOnce(p)
    requires q.streams == p.streams + [st] && q.headers == p.headers
    requires p.pc.Connecting? && st.trigger == p.pc.trigger && !q.pc.Opening? && !q.pc.Connecting?
    requires (st.down.DownReceiving? || st.down.DownIdle?) && st.received == [] && st.delivered == []
    ensures InTurn(q) && TriggerFits(q) && HeaderOnce(q)
  {
  }

  lemma OpenOkUpFlow(rpc: Rpc)
    requires UpOnce(rpc) && UpFlow(rpc) && rpc.pc.Connecting? && rpc.acquires != []
    ensures UpFlow(DoOpenOk(rpc))
  {
  }

  lemma ReplayFlows<C>(call: Call, s: Sys<C>, sendErr: Option<Error>)
    requires Control(call, s.rpc) && Flow(s.rpc) && s.rpc.pc.Replaying?
    ensures Flow(DoReplay(call, s, sendErr).rpc)
  {
    var q := DoReplay(call, s, sendErr).rpc;
    if sendErr.Some? {
      hide UpFlow, DownFlow, Replayed, InTurn, HeaderOnce;
      Bookkeeping(s.rpc, q);
    } else {
      ReplaySent(s.rpc, q);
    }
  }

  lemma ReplaySent(p: Rpc, q: Rpc)
    requires Flow(p) && |p.streams| >= 2 && p.firstMsg.Some? && Last(p.streams).down.DownIdle? && p.pc.Replaying?
    requires var r := |p.streams| - 1;
      q == p.(pc := Awaiting, streams := p.streams[r := p.streams[r].(
        sent := p.streams[r].sent + [p.firstMsg.value], halfClosed := true, down := DownReceiving)])
    ensures Flow(q)
  {
    var r := |p.streams| - 1;
    assert p.streams[r].sent == [];
    assert UpFlow(q) && HeaderOnce(q) && InTurn(q);
  }

  lemma TakeUpFlows<C>(call: Call, s: Sys<C>, ctxDone: bool)
    requires Control(call, s.rpc) && Flow(s.rpc) && s.rpc.pc.Selecting? && s.rpc.upSlot.Some?
    ensures Flow(DoTakeUp(call, s, ctxDone).rpc)
  {
    var err := s.rpc.upSlot.value;
    var rpc := s.rpc.(upSlot := None);
    UpTaken(s.rpc);
    if err == EOF {
      HalfClosed(rpc);
    } else {
      PollFlows(rpc);
      var t := Sys(PollFirst(rpc), s.pool);
      FailShape(call, t, err, ByUp, t.rpc.firstMsg.None? || ctxDone);
      hide UpFlow, DownFlow, Replayed, InTurn, HeaderOnce, DoFail;
      Bookkeeping(t.rpc, DoFail(call, t, err, ByUp, t.rpc.firstMsg.None? || ctxDone).rpc);
    }
  }

  lemma UpTaken(rpc: Rpc)
    requires Flow(rpc)
    ensures Flow(rpc.(upSlot := None))
  {
  }

  lemma HalfClosed(rpc: Rpc)
    requires Flow(rpc) && rpc.pc.Selecting? && |rpc.streams| == 1
    ensures var closed := rpc.(streams := rpc.streams[0 := rpc.streams[0].(halfClosed := true)]);
      Flow(closed.(pc := Selecting(rpc.pc.i + 1))) && Flow(Return(closed, Some(UNEXPECTED)))
  {
  }

  lemma TakeDownFlows<C>(call: Call, s: Sys<C>, ctxDone: bool)
    requires Control(call, s.rpc) && Flow(s.rpc) && (s.rpc.pc.Selecting? || s.rpc.pc.Awaiting?)
    requires Last(s.rpc.streams).slot.Some?
    ensures Flow(DoTakeDown(call, s, ctxDone).rpc)
  {
    var r := |s.rpc.streams| - 1;
    var err := s.rpc.streams[r].slot.value;
    var rpc := s.rpc.(streams := s.rpc.streams[r := s.rpc.streams[r].(slot := None)],
                      trailers := s.rpc.trailers + [r]);
    SlotTaken(s.rpc, r);
    if err == EOF {
      Bookkeeping(rpc, Return(rpc, None));
    } else if s.rpc.pc.Awaiting? {
      ReopenFlows(call, Sys(rpc, s.pool), err, ctxDone);
    } else {
      PollFlows(rpc);
      ReopenFlows(call, Sys(PollFirst(rpc), s.pool), err, PollFirst(rpc).firstMsg.None? || ctxDone);
    }
  }

  lemma SlotTaken(rpc: Rpc, r: nat)
    requires Flow(rpc) && r < |rpc.streams|
    ensures Flow(rpc.(streams := rpc.streams[r := rpc.streams[r].(slot := None)], trailers := rpc.trailers + [r]))
  {
    var q := rpc.(streams := rpc.streams[r := rpc.streams[r].(slot := None)], trailers := rpc.trailers + [r]);
    forall j | 0 <= j < |rpc.streams| ensures q.streams[j] == rpc.streams[j].(slot := q.streams[j].slot) {}
    SlotFlows(rpc, q);
    hide Flow;
  }

  lemma SlotFlows(p: Rpc, q: Rpc)
    requires Flow(p) && q == p.(streams := q.streams, trailers := q.trailers) && |q.streams| == |p.streams|
    requires forall j :: 0 <= j < |p.streams| ==> q.streams[j] == p.streams[j].(slot := q.streams[j].slot)
    ensures Flow(q)
  {
    forall j | 0 <= j < |q.streams| ensures DownFlow(q.streams[j]) && (j >= 1 ==> Replayed(q, q.streams[j])) {
      assert DownFlow(p.streams[j]);
    }
    hide DownFlow, Replayed;
    assert UpFlow(q) && HeaderOnce(q);
    hide UpFlow, HeaderOnce;
    assert InTurn(q);
  }

  /** Leaving a round because its forwarder to the client ended with an error. */
  lemma ReopenFlows<C>(call: Call, s: Sys<C>, err: Error, stop: bool)
    requires Flow(s.rpc) && s.rpc.acquires != []
    requires s.rpc.streams != [] && Last(s.rpc.streams).down.DownEnded?
    ensures Flow(DoFail(call, s, err, ByDown, stop).rpc)
  {
    hide UpFlow, DownFlow, Replayed, InTurn, HeaderOnce, DoFail;
    FailShape(call, s, err, ByDown, stop);
    Bookkeeping(s.rpc, DoFail(call, s, err, ByDown, stop).rpc);
  }

  /** Taking the first message out of its slot, in the first round. */
  lemma PollFlows(rpc: Rpc)
    requires Flow(rpc) && |rpc.streams| == 1
    ensures Flow(PollFirst(rpc))
  {
  }

  // ---------- the forwarders' events ----------

  lemma UpFlows<C>(rpc: Rpc, e: Event<C>)
    requires Flow(rpc) && IsUp(e) && rpc.streams != []
    ensures Flow(StepUp(rpc, e))
  {
    UpFlowKept(rpc, e);
    UpTouches(rpc, e);
    hide StepUp;
    SentFlows(rpc, StepUp(rpc, e));
  }

  /** What the forwarder from the client can change. */
  lemma UpTouches<C>(rpc: Rpc, e: Event<C>)
    requires IsUp(e) && rpc.streams != []
    ensures TouchedByUp(rpc, StepUp(rpc, e))
  {
  }

  ghost predicate TouchedByUp(p: Rpc, q: Rpc) {
    && q == p.(streams := q.streams, up := q.up, upSlot := q.upSlot, clientSent := q.clientSent,
               firstSlot := q.firstSlot)
    && |q.streams| == |p.streams|
    && (forall r :: 1 <= r < |p.streams| ==> q.streams[r] == p.streams[r])
    && (p.streams != [] ==> q.streams[0] == p.streams[0].(sent := q.streams[0].sent))
  }

  lemma SentFlows(p: Rpc, q: Rpc)
    requires Flow(p) && TouchedByUp(p, q) && UpFlow(q)
    ensures Flow(q)
  {
    hide UpFlow;
  }

  lemma UpFlowKept<C>(rpc: Rpc, e: Event<C>)
    requires UpFlow(rpc) && IsUp(e) && rpc.streams != []
    ensures UpFlow(StepUp(rpc, e))
  {
    if rpc.up.UpSending? {
      assert rpc.clientSent[..|rpc.clientSent| - 1] + [rpc.up.msg] == rpc.clientSent;
    }
  }

  lemma DownFlows<C>(rpc: Rpc, e: Event<C>, r: nat)
    requires Flow(rpc) && IsDown(e) && r < |rpc.streams|
    ensures Flow(StepDown(rpc, e, r))
  {
    DownFlowKept(rpc, e, r);
    HeaderKept(rpc, e, r);
    DownTurns(rpc, e, r);
    hide UpFlow, DownFlow, Replayed, InTurn, TriggerFits, HeaderOnce;
  }

  /** What does not concern the messages to the client. */
  lemma DownTurns<C>(rpc: Rpc, e: Event<C>, r: nat)
    requires Flow(rpc) && IsDown(e) && r < |rpc.streams|
    ensures var q := StepDown(rpc, e, r);
      && UpFlow(q) && InTurn(q) && TriggerFits(q)
      && |q.streams| == |rpc.streams|
      && (forall j :: 0 <= j < |rpc.streams| && j != r ==> q.streams[j] == rpc.streams[j])
      && (forall j :: 1 <= j < |rpc.streams| ==> Replayed(q, q.streams[j]))
  {
    hide StepDown, DownFlow, HeaderOnce;
    DownTouches(rpc, e, r);
  }

  lemma DownFlowKept<C>(rpc: Rpc, e: Event<C>, r: nat)
    requires IsDown(e) && r < |rpc.streams| && DownFlow(rpc.streams[r])
    ensures DownFlow(StepDown(rpc, e, r).streams[r])
  {
    var st := rpc.streams[r];
    if st.down.DownHeader? || st.down.DownSending? {
      assert st.received == st.delivered + [st.down.msg];
    }
  }

  lemma HeaderKept<C>(rpc: Rpc, e: Event<C>, r: nat)
    requires IsDown(e) && r < |rpc.streams| && HeaderOnce(rpc) && DownFlow(rpc.streams[r])
    ensures HeaderOnce(StepDown(rpc, e, r))
  {
    if rpc.headers == [] && r == 0 {
      assert rpc.headers + [r] == [0];
    }
  }

  lemma NextFlows<C>(call: Call, s: Sys<C>, e: Event<C>)
    requires Control(call, s.rpc) && Flow(s.rpc)
    ensures Flow(Next(call, s, e).rpc)
  {
    hide Control, Flow;
    if HandlerEnabled(s.rpc, e) {
      HandleFlows(call, s, e);
    } else if IsUp(e) && s.rpc.streams != [] {
      UpFlows(s.rpc, e);
    } else if IsDown(e) && e.round < |s.rpc.streams| {
      DownFlows(s.rpc, e, e.round);
    }
  }

  // ---------- what the client gets ----------

  lemma StartFlows()
    ensures Flow(StartRpc()) && Gathered(StartRpc())
  {
  }

  /** Flatten is determined by the deliveries. */
  lemma {:induction false} FlattenSame(a: seq<Stream>, b: seq<Stream>)
    requires |a| == |b| && forall r :: 0 <= r < |a| ==> a[r].delivered == b[r].delivered
    ensures Flatten(a) == Flatten(b)
    decreases a
  {
    if a != [] {
      FlattenSame(a[..|a| - 1], b[..|b| - 1]);
    }
  }

  lemma FlattenSnoc(streams: seq<Stream>, st: Stream)
    ensures Flatten(streams + [st]) == Flatten(streams) + st.delivered
  {
    assert (streams + [st])[..|streams|] == streams;
  }

  /** b is a with one more delivery in round r. */
  ghost predicate OneMoreIn(a: seq<Stream>, b: seq<Stream>, r: nat, msg: Msg) {
    && r < |a| == |b|
    && forall j :: 0 <= j < |a| ==> b[j].delivered == if j == r then a[j].delivered + [msg] else a[j].delivered
  }

  lemma FlattenLast(a: seq<Stream>, b: seq<Stream>, r: nat, msg: Msg)
    requires OneMoreIn(a, b, r, msg) && r == |a| - 1
    ensures Flatten(b) == Flatten(a) + [msg]
  {
    FlattenSame(a[..r], b[..r]);
    assert Flatten(a[..r]) + (a[r].delivered + [msg]) == Flatten(a[..r]) + a[r].delivered + [msg];
  }

  lemma {:induction false} FlattenMore(a: seq<Stream>, b: seq<Stream>, r: nat, msg: Msg)
    requires OneMoreIn(a, b, r, msg)
    ensures multiset(Flatten(b)) == multiset(Flatten(a)) + multiset{msg}
    decreases a
  {
    if r == |a| - 1 {
      FlattenLast(a, b, r, msg);
    } else {
      var fa, fb := a[..|a| - 1], b[..|b| - 1];
      FlattenMore(fa, fb, r, msg);
      OneMoreBefore(Flatten(fa), Flatten(fb), Last(a).delivered, msg);
    }
  }

  lemma OneMoreBefore(x: seq<Msg>, y: seq<Msg>, z: seq<Msg>, msg: Msg)
    requires multiset(y) == multiset(x) + multiset{msg}
    ensures multiset(y + z) == multiset(x + z) + multiset{msg}
  {
    assert multiset(y + z) == multiset(y) + multiset(z);
    assert multiset(x + z) == multiset(x) + multiset(z);
  }

  lemma NextGathers<C>(call: Call, s: Sys<C>, e: Event<C>)
    requires Control(call, s.rpc) && Flow(s.rpc) && Gathered(s.rpc)
    ensures Gathered(Next(call, s, e).rpc)
    ensures InOrder(s.rpc) && !Overlapping(s.rpc) ==> InOrder(Next(call, s, e).rpc)
  {
    hide Control, Flow, Overlapping, Handle, StepUp, StepDown;
    if HandlerEnabled(s.rpc, e) {
      HandleGathers(call, s, e);
    } else if IsUp(e) && s.rpc.streams != [] {
      UpGathers(s.rpc, e);
    } else if IsDown(e) && e.round < |s.rpc.streams| {
      DownGathers(s.rpc, e, e.round);
    }
  }

  lemma UpGathers<C>(rpc: Rpc, e: Event<C>)
    requires IsUp(e) && rpc.streams != []
    ensures var q := StepUp(rpc, e); q.clientGot == rpc.clientGot && Flatten(q.streams) == Flatten(rpc.streams)
  {
    UpTouches(rpc, e);
    hide StepUp;
    FlattenSame(rpc.streams, StepUp(rpc, e).streams);
  }

  /** The handler hands no message to the client, and loses none. */
  lemma HandleTouches<C>(call: Call, s: Sys<C>, e: Event<C>)
    requires Control(call, s.rpc) && HandlerEnabled(s.rpc, e)
    ensures var q := Handle(call, s, e).rpc;
      && q.clientGot == s.rpc.clientGot
      && |s.rpc.streams| <= |q.streams| <= |s.rpc.streams| + 1
      && (forall r :: 0 <= r < |s.rpc.streams| ==>
            && q.streams[r].delivered == s.rpc.streams[r].delivered && q.streams[r].trigger == s.rpc.streams[r].trigger
            && q.streams[r].lost == s.rpc.streams[r].lost
            && (s.rpc.streams[r].down.DownEnded? ==> q.streams[r].down == s.rpc.streams[r].down)
            && (q.streams[r].down.DownIdle? ==> s.rpc.streams[r].down.DownIdle?))
      && (s.rpc.streams == [] && q.streams != [] ==> !q.streams[0].down.DownIdle?)
      && (forall r :: |s.rpc.streams| <= r < |q.streams| ==> q.streams[r].delivered == [] && q.streams[r].lost == [])
  {
    hide Accounted, Attached, Rounds, UpOnce, GetConnection, Report;
    match e
    case Acquire(dials) =>
    case OpenOk =>
    case OpenFailed(err) => OpenFailedTouches(call, s, err);
    case Replay(sendErr) => ReplayTouches(call, s, sendErr);
    case TakeUp(ctxDone) => TakeTouches(call, s, e);
    case TakeDown(ctxDone) => TakeTouches(call, s, e);
  }

  lemma OpenFailedTouches<C>(call: Call, s: Sys<C>, err: Error)
    requires s.rpc.pc.Connecting? && s.rpc.acquires != []
    ensures SameFlow(s.rpc, DoOpenFailed(call, s, err).rpc)
  {
  }

  lemma ReplayTouches<C>(call: Call, s: Sys<C>, sendErr: Option<Error>)
    requires s.rpc.streams != [] && s.rpc.acquires != []
    ensures var q, r := DoReplay(call, s, sendErr).rpc, |s.rpc.streams| - 1;
      && q.clientGot == s.rpc.clientGot
      && (q.streams == s.rpc.streams
          || q.streams == s.rpc.streams[r := s.rpc.streams[r].(sent := q.streams[r].sent, halfClosed := true,
                                                              down := DownReceiving)])
  {
  }

  /** Taking an error from a channel touches the slots and, for the client's EOF, the half-close. */
  lemma TakeTouches<C>(call: Call, s: Sys<C>, e: Event<C>)
    requires HandlerEnabled(s.rpc, e) && (e.TakeUp? || e.TakeDown?)
    ensures var q, r := Handle(call, s, e).rpc, |s.rpc.streams| - 1;
      && q.clientGot == s.rpc.clientGot && q.clientSent == s.rpc.clientSent && q.up == s.rpc.up
      && |q.streams| == |s.rpc.streams|
      && (q.streams == s.rpc.streams
          || q.streams == s.rpc.streams[r := s.rpc.streams[r].(slot := q.streams[r].slot,
                                                              halfClosed := q.streams[r].halfClosed)])
      && (e.TakeDown? ==> q.streams[r].halfClosed == s.rpc.streams[r].halfClosed)
  {
    hide DoTakeUp, DoTakeDown;
    if e.TakeUp? {
      TakeUpTouches(call, s, e.ctxDone);
    } else {
      TakeDownTouches(call, s, e.ctxDone);
    }
  }

  lemma TakeUpTouches<C>(call: Call, s: Sys<C>, ctxDone: bool)
    requires s.rpc.pc.Selecting? && s.rpc.upSlot.Some? && s.rpc.streams != [] && s.rpc.acquires != []
    ensures var q, r := DoTakeUp(call, s, ctxDone).rpc, |s.rpc.streams| - 1;
      && q.clientGot == s.rpc.clientGot && q.clientSent == s.rpc.clientSent && q.up == s.rpc.up
      && (q.streams == s.rpc.streams || q.streams == s.rpc.streams[r := s.rpc.streams[r].(halfClosed := true)])
  {
    hide DoFail, FailedOver;
    var polled := PollFirst(s.rpc.(upSlot := None));
    FailShape(call, Sys(polled, s.pool), s.rpc.upSlot.value, ByUp, polled.firstMsg.None? || ctxDone);
  }

  lemma TakeDownTouches<C>(call: Call, s: Sys<C>, ctxDone: bool)
    requires (s.rpc.pc.Selecting? || s.rpc.pc.Awaiting?) && s.rpc.streams != [] && s.rpc.acquires != []
    requires Last(s.rpc.streams).slot.Some?
    ensures var q, r := DoTakeDown(call, s, ctxDone).rpc, |s.rpc.streams| - 1;
      && q.clientGot == s.rpc.clientGot && q.clientSent == s.rpc.clientSent && q.up == s.rpc.up
      && q.streams == s.rpc.streams[r := s.rpc.streams[r].(slot := None)]
  {
    hide DoFail, FailedOver;
    var r := |s.rpc.streams| - 1;
    var rpc := s.rpc.(streams := s.rpc.streams[r := s.rpc.streams[r].(slot := None)], trailers := s.rpc.trailers + [r]);
    var polled := if s.rpc.pc.Awaiting? then rpc else PollFirst(rpc);
    FailShape(call, Sys(polled, s.pool), s.rpc.streams[r].slot.value, ByDown,
              (s.rpc.pc.Selecting? && polled.firstMsg.None?) || ctxDone);
  }

  lemma HandleGathers<C>(call: Call, s: Sys<C>, e: Event<C>)
    requires Control(call, s.rpc) && HandlerEnabled(s.rpc, e)
    ensures var q := Handle(call, s, e).rpc;
      q.clientGot == s.rpc.clientGot && Flatten(q.streams) == Flatten(s.rpc.streams)
  {
    hide Handle, Control;
    HandleTouches(call, s, e);
    var q := Handle(call, s, e).rpc;
    var front := q.streams[..|s.rpc.streams|];
    FlattenSame(s.rpc.streams, front);
    if |q.streams| > |s.rpc.streams| {
      assert q.streams == front + [Last(q.streams)];
      FlattenSnoc(front, Last(q.streams));
    } else {
      assert q.streams == front;
    }
  }

  /** A forwarder delivers at most one message, the one in hand. */
  lemma DownDelivers<C>(rpc: Rpc, e: Event<C>, r: nat)
    requires IsDown(e) && r < |rpc.streams|
    ensures var q, st := StepDown(rpc, e, r), rpc.streams[r];
      && |q.streams| == |rpc.streams|
      && (forall j :: 0 <= j < |rpc.streams| ==> q.streams[j].trigger == rpc.streams[j].trigger)
      && (forall j :: 0 <= j < |rpc.streams| && j != r ==> q.streams[j] == rpc.streams[j])
      && if e.DownSent? && st.down.DownSending?
         then q.clientGot == rpc.clientGot + [st.down.msg] && q.streams[r].delivered == st.delivered + [st.down.msg]
         else q.clientGot == rpc.clientGot && q.streams[r].delivered == st.delivered
  {
  }

  /** A later round is followed only once its forwarder has ended. */
  lemma EarlierEnded(rpc: Rpc, r: nat)
    requires InTurn(rpc) && 1 <= r && r + 1 < |rpc.streams|
    ensures rpc.streams[r].down.DownEnded?
  {
    assert rpc.streams[r + 1].trigger == ByDown;
  }

  /** Unless rounds overlap, a forwarder that delivers is the last, or the last has not been started. */
  lemma DeliversLast(rpc: Rpc, r: nat)
    requires Flow(rpc) && !Overlapping(rpc) && r + 1 < |rpc.streams| && !rpc.streams[r].down.DownEnded?
    ensures r == 0 && |rpc.streams| == 2 && rpc.streams[1].delivered == []
  {
    hide UpFlow, HeaderOnce, TriggerFits;
    forall j | 1 <= j && j + 1 < |rpc.streams| ensures rpc.streams[j].down.DownEnded? {
      EarlierEnded(rpc, j);
    }
    hide InTurn;
    assert DownFlow(rpc.streams[1]) && Replayed(rpc, rpc.streams[1]);
  }

  lemma DownGathers<C>(rpc: Rpc, e: Event<C>, r: nat)
    requires Flow(rpc) && Gathered(rpc) && IsDown(e) && r < |rpc.streams|
    ensures Gathered(StepDown(rpc, e, r))
    ensures InOrder(rpc) && !Overlapping(rpc) ==> InOrder(StepDown(rpc, e, r))
  {
    hide StepDown, Flow, Overlapping, Flatten;
    DownDelivers(rpc, e, r);
    var q := StepDown(rpc, e, r);
    if e.DownSent? && rpc.streams[r].down.DownSending? {
      var msg := rpc.streams[r].down.msg;
      assert OneMoreIn(rpc.streams, q.streams, r, msg);
      FlattenMore(rpc.streams, q.streams, r, msg);
      if !Overlapping(rpc) {
        DeliversInOrder(rpc, q, r, msg);
      }
    } else {
      FlattenSame(rpc.streams, q.streams);
    }
  }

  lemma DeliversInOrder(rpc: Rpc, q: Rpc, r: nat, msg: Msg)
    requires Flow(rpc) && !Overlapping(rpc) && OneMoreIn(rpc.streams, q.streams, r, msg)
    requires !rpc.streams[r].down.DownEnded?
    ensures Flatten(q.streams) == Flatten(rpc.streams) + [msg]
  {
    hide Flow, Overlapping, Flatten;
    if r == |rpc.streams| - 1 {
      FlattenLast(rpc.streams, q.streams, r, msg);
    } else {
      DeliversLast(rpc, r);
      FlattenTwo(rpc.streams);
      FlattenTwo(q.streams);
    }
  }

  lemma FlattenTwo(streams: seq<Stream>)
    requires |streams| == 2
    ensures Flatten(streams) == streams[0].delivered + streams[1].delivered
  {
    FlattenSnoc([], streams[0]);
    FlattenSnoc([streams[0]], streams[1]);
    assert streams == [streams[0]] + [streams[1]];
  }

  lemma {:induction false} ExecFlows<C>(call: Call, s: Sys<C>, events: seq<Event<C>>)
    requires Control(call, s.rpc) && Flow(s.rpc) && Gathered(s.rpc)
    ensures Flow(Exec(call, s, events).rpc) && Gathered(Exec(call, s, events).rpc)
    decreases |events|
  {
    hide Control, Flow, Gathered, Next;
    if events != [] {
      var front := events[..|events| - 1];
      ExecFlows(call, s, front);
      ExecKeeps(call, s, front);
      NextFlows(call, Exec(call, s, front), events[|events| - 1]);
      NextGathers(call, Exec(call, s, front), events[|events| - 1]);
    }
  }

  // ---------- the order of what the client gets ----------

  /** At some moment of a run, rounds overlapped. */
  ghost predicate EverOverlapped<C>(call: Call, s: Sys<C>, events: seq<Event<C>>) {
    || Overlapping(Exec(call, s, events).rpc)
    || (events != [] && EverOverlapped(call, s, events[..|events| - 1]))
  }

  /** Rounds are added, and keep how they were triggered; a forwarder is idle before it runs. */
  lemma NextRounds<C>(call: Call, s: Sys<C>, e: Event<C>)
    requires Control(call, s.rpc)
    ensures var q := Next(call, s, e).rpc;
      && |s.rpc.streams| <= |q.streams|
      && (forall r :: 0 <= r < |s.rpc.streams| ==>
            && q.streams[r].trigger == s.rpc.streams[r].trigger
            && (s.rpc.streams[r].down.DownEnded? ==> q.streams[r].down.DownEnded?)
            && (q.streams[r].down.DownIdle? ==> s.rpc.streams[r].down.DownIdle?))
      && (s.rpc.streams == [] && q.streams != [] ==> !q.streams[0].down.DownIdle?)
  {
    hide Control;
    if HandlerEnabled(s.rpc, e) {
      HandleTouches(call, s, e);
      hide Handle;
    } else if IsUp(e) && s.rpc.streams != [] {
      UpTouches(s.rpc, e);
      hide StepUp;
    } else if IsDown(e) && e.round < |s.rpc.streams| {
      DownTouches(s.rpc, e, e.round);
      hide StepDown;
    }
  }

  lemma NextStarts<C>(call: Call, s: Sys<C>, e: Event<C>)
    requires Control(call, s.rpc) && Flow(s.rpc) && Gathered(s.rpc) && StartsInOrder(s.rpc)
    ensures StartsInOrder(Next(call, s, e).rpc)
  {
    hide Control, Flow, Gathered, InOrder, Next;
    NextRounds(call, s, e);
    NextGathers(call, s, e);
  }

  /** Without a transfer caused by a failure towards the backend, rounds do not overlap. */
  lemma DownTransfersTakeTurns(rpc: Rpc)
    requires Flow(rpc) && OnlyDownTransfers(rpc)
    ensures !Overlapping(rpc)
  {
    hide UpFlow, DownFlow, Replayed, HeaderOnce, TriggerFits;
    if |rpc.streams| >= 2 {
      assert rpc.streams[1].trigger == ByDown;
    }
  }

  lemma {:induction false} ExecOrders<C>(call: Call, pool: Pool<C>, events: seq<Event<C>>)
    ensures var rpc := Exec(call, Start(pool), events).rpc;
      && StartsInOrder(rpc)
      && (!EverOverlapped(call, Start(pool), events) ==> InOrder(rpc))
      && (OnlyDownTransfers(rpc) ==> !EverOverlapped(call, Start(pool), events))
    decreases |events|
  {
    hide Control, Flow, Gathered, Overlapping, InOrder, StartsInOrder, Next;
    StartControl(call);
    StartFlows();
    ExecFlows(call, Start(pool), events);
    if events == [] {
      StartOrders();
    } else {
      var front, e := events[..|events| - 1], events[|events| - 1];
      ExecOrders(call, pool, front);
      ExecKeeps(call, Start(pool), front);
      ExecFlows(call, Start(pool), front);
      NextStarts(call, Exec(call, Start(pool), front), e);
      NextGathers(call, Exec(call, Start(pool), front), e);
      NextRounds(call, Exec(call, Start(pool), front), e);
    }
    if OnlyDownTransfers(Exec(call, Start(pool), events).rpc) {
      DownTransfersTakeTurns(Exec(call, Start(pool), events).rpc);
    }
  }

  lemma StartOrders()
    ensures StartsInOrder(StartRpc()) && InOrder(StartRpc())
  {
  }

  /** A transfer preserves the conversation. At every moment of every run: what the client got is what
      the rounds delivered, nothing lost, repeated or invented, and round after round in order unless
      a later round's forwarder was started before the first round's had ended, which takes a transfer
      caused by a failure towards the backend; a round delivered, in order, what its
      forwarder received, but for one message in hand or one that could not be handed on; the first
      backend got the client's messages in order; every later backend that its forwarder reads from
      got exactly the client's first message, then the half-close; and SendHeader was called at most
      once, in the first round, and before its first message. */
  lemma {:induction false} TransferKeepsConversation<C>(call: Call, pool: Pool<C>, events: seq<Event<C>>)
    ensures var rpc := Exec(call, Start(pool), events).rpc;
      && multiset(rpc.clientGot) == multiset(Flatten(rpc.streams))
      && (!EverOverlapped(call, Start(pool), events) ==> rpc.clientGot == Flatten(rpc.streams))
      && (OnlyDownTransfers(rpc) ==> !EverOverlapped(call, Start(pool), events))
      && (forall r :: 0 <= r < |rpc.streams| ==>
            && rpc.streams[r].delivered <= rpc.streams[r].received
            && |rpc.streams[r].received| <= |rpc.streams[r].delivered| + 1)
      && (rpc.streams != [] ==> rpc.streams[0].sent <= rpc.clientSent)
      && (forall r :: 1 <= r < |rpc.streams| ==>
            if rpc.streams[r].down.DownIdle? then rpc.streams[r].sent == [] && !rpc.streams[r].halfClosed
            else rpc.clientSent != [] && rpc.streams[r].sent == [rpc.clientSent[0]] && rpc.streams[r].halfClosed)
      && (rpc.headers == [] || rpc.headers == [0])
      && (rpc.streams != [] && rpc.streams[0].delivered != [] ==> rpc.headers == [0])
  {
    hide Exec;
    StartControl(call);
    StartFlows();
    ExecFlows(call, Start(pool), events);
    ExecOrders(call, pool, events);
    FlowSays(Exec(call, Start(pool), events).rpc);
  }

  lemma FlowSays(rpc: Rpc)
    requires Flow(rpc)
    ensures forall r :: 0 <= r < |rpc.streams| ==>
              && rpc.streams[r].delivered <= rpc.streams[r].received
              && |rpc.streams[r].received| <= |rpc.streams[r].delivered| + 1
    ensures rpc.streams != [] ==> rpc.streams[0].sent <= rpc.clientSent
    ensures forall r :: 1 <= r < |rpc.streams| ==>
              if rpc.streams[r].down.DownIdle? then rpc.streams[r].sent == [] && !rpc.streams[r].halfClosed
              else rpc.clientSent != [] && rpc.streams[r].sent == [rpc.clientSent[0]] && rpc.streams[r].halfClosed
    ensures rpc.headers == [] || rpc.headers == [0]
    ensures rpc.streams != [] && rpc.streams[0].delivered != [] ==> rpc.headers == [0]
  {
  }

  // ---------- the end of a round ----------

  /** What the handler does with an error from a channel: EOF is success when it comes from the backend
      and, from the client, the half-close; after any other error another round is opened
      if and only if the cluster is dynamic, a message was read from the client, rounds are left and
      the client's context is not done; otherwise that error is returned. */
  lemma {:induction false} RoundEnds<C>(call: Call, pool: Pool<C>, events: seq<Event<C>>, e: Event<C>)
    requires HandlerEnabled(Exec(call, Start(pool), events).rpc, e) && (e.TakeUp? || e.TakeDown?)
    ensures var s := Exec(call, Start(pool), events);
      var err := if e.TakeUp? then s.rpc.upSlot.value else Last(s.rpc.streams).slot.value;
      Next(call, s, e).rpc.pc ==
        if err == EOF then
          if e.TakeDown? then Returned(None) else Selecting(1)
        else if call.retryable && s.rpc.clientSent != [] && |s.rpc.streams| < call.retryCount && !e.ctxDone then
          Opening(0, if e.TakeUp? then ByUp else ByDown)
        else Returned(Some(err))
    ensures var s := Exec(call, Start(pool), events);
      e.TakeUp? && s.rpc.upSlot.value == EOF ==>
        Next(call, s, e).rpc.streams != [] && Next(call, s, e).rpc.streams[0].halfClosed
  {
    hide Exec;
    StartControl(call);
    StartFlows();
    ExecKeeps(call, Start(pool), events);
    ExecFlows(call, Start(pool), events);
    TakenFrom(call, Exec(call, Start(pool), events), e);
  }

  lemma TakenFrom<C>(call: Call, s: Sys<C>, e: Event<C>)
    requires Control(call, s.rpc) && Flow(s.rpc) && HandlerEnabled(s.rpc, e) && (e.TakeUp? || e.TakeDown?)
    ensures var err := if e.TakeUp? then s.rpc.upSlot.value else Last(s.rpc.streams).slot.value;
      Handle(call, s, e).rpc.pc ==
        if err == EOF then
          if e.TakeDown? then Returned(None) else Selecting(1)
        else if call.retryable && s.rpc.clientSent != [] && |s.rpc.streams| < call.retryCount && !e.ctxDone then
          Opening(0, if e.TakeUp? then ByUp else ByDown)
        else Returned(Some(err))
    ensures e.TakeUp? && s.rpc.upSlot.value == EOF ==>
              Handle(call, s, e).rpc.streams != [] && Handle(call, s, e).rpc.streams[0].halfClosed
  {
    hide Accounted, Attached, DownOnce, DownFlow, Replayed, InTurn, TriggerFits, HeaderOnce, PoolModel.OnBackendFailure;
  }
}
