/** When messages of an RPC get lost: what a nil answer means for the last backend's messages, and what
    the half-close means for the client's. */
module ProxyDelivery {
  import opened Options
  import opened GatewayErrors
  import opened PoolModel
  import opened Proxy
  import opened ProxyControl
  import opened ProxyConversation
  import opened ProxyHistory

  // ---------- towards the client ----------

  /** The forwarder of round r loses the message in hand: a call towards the client failed, or reading
      the backend's header. */
  ghost predicate Loses<C>(rpc: Rpc, e: Event<C>, r: nat) {
    && r < |rpc.streams|
    && ((e.DownHeaderFailed? && e.round == r && rpc.streams[r].down.DownHeader?)
        || (e.DownSendFailed? && e.round == r && rpc.streams[r].down.DownSending?))
  }

  /** That happened in a run. */
  ghost predicate LostIn<C>(call: Call, s: Sys<C>, events: seq<Event<C>>, r: nat) {
    events != [] &&
    var front := events[..|events| - 1];
    LostIn(call, s, front, r) || Loses(Exec(call, s, front).rpc, events[|events| - 1], r)
  }

  lemma NextLoses<C>(call: Call, s: Sys<C>, e: Event<C>, r: nat)
    requires Control(call, s.rpc)
    ensures var q := Next(call, s, e).rpc;
      && |s.rpc.streams| <= |q.streams|
      && (r < |q.streams| ==>
            (q.streams[r].lost != [] <==> (r < |s.rpc.streams| && s.rpc.streams[r].lost != []) || Loses(s.rpc, e, r)))
  {
    hide Control;
    if HandlerEnabled(s.rpc, e) {
      HandleTouches(call, s, e);
      hide Handle;
    } else if IsUp(e) && s.rpc.streams != [] {
      UpTouches(s.rpc, e);
      hide StepUp;
    } else if IsDown(e) && e.round < |s.rpc.streams| {
      StepLoses(s.rpc, e, e.round);
      DownTouches(s.rpc, e, e.round);
      hide StepDown;
    }
  }

  lemma StepLoses<C>(rpc: Rpc, e: Event<C>, r: nat)
    requires IsDown(e) && e.round == r < |rpc.streams|
    ensures |StepDown(rpc, e, r).streams| == |rpc.streams|
    ensures StepDown(rpc, e, r).streams[r].lost != [] <==> rpc.streams[r].lost != [] || Loses(rpc, e, r)
  {
  }

  lemma {:induction false} LostOrNot<C>(call: Call, pool: Pool<C>, events: seq<Event<C>>, r: nat)
    ensures var rpc := Exec(call, Start(pool), events).rpc;
      LostIn(call, Start(pool), events, r) <==> r < |rpc.streams| && rpc.streams[r].lost != []
    decreases |events|
  {
    hide Control, Next;
    if events != [] {
      var front := events[..|events| - 1];
      LostOrNot(call, pool, front, r);
      StartControl(call);
      ExecKeeps(call, Start(pool), front);
      NextLoses(call, Exec(call, Start(pool), front), events[|events| - 1], r);
    }
  }

  /** The handler returns nil only when the forwarder of the last round ended with EOF, and after
      setting that round's trailer. */
  ghost predicate SuccessIsEOF(rpc: Rpc) {
    rpc.pc == Returned(None) ==>
      && rpc.streams != [] && Last(rpc.streams).down == DownEnded(EOF)
      && rpc.trailers != [] && Last(rpc.trailers) == |rpc.streams| - 1
  }

  lemma NextSucceeds<C>(call: Call, s: Sys<C>, e: Event<C>)
    requires Control(call, s.rpc) && SuccessIsEOF(s.rpc)
    ensures SuccessIsEOF(Next(call, s, e).rpc)
  {
    hide Control;
    if HandlerEnabled(s.rpc, e) {
      HandleSucceeds(call, s, e);
      hide Handle;
    } else if IsUp(e) && s.rpc.streams != [] {
      UpTouches(s.rpc, e);
      hide StepUp;
    } else if IsDown(e) && e.round < |s.rpc.streams| {
      DownTouches(s.rpc, e, e.round);
      hide StepDown;
    }
  }

  lemma HandleSucceeds<C>(call: Call, s: Sys<C>, e: Event<C>)
    requires Control(call, s.rpc) && HandlerEnabled(s.rpc, e)
    ensures SuccessIsEOF(Handle(call, s, e).rpc)
  {
    hide Accounted, Attached, UpOnce, GetConnection, Report;
  }

  lemma {:induction false} ExecSucceeds<C>(call: Call, pool: Pool<C>, events: seq<Event<C>>)
    ensures SuccessIsEOF(Exec(call, Start(pool), events).rpc)
    decreases |events|
  {
    hide Control, Next;
    if events != [] {
      var front := events[..|events| - 1];
      ExecSucceeds(call, pool, front);
      StartControl(call);
      ExecKeeps(call, Start(pool), front);
      NextSucceeds(call, Exec(call, Start(pool), front), events[|events| - 1]);
    }
  }

  /** When the handler returns nil, the call that ended the forwarder of the last round answered EOF, and
      the trailer set last is that backend's. The client then got everything that backend sent if and only
      if no call towards the client, and no reading of the header, failed in that round. */
  lemma {:induction false} SuccessIsComplete<C>(call: Call, pool: Pool<C>, events: seq<Event<C>>)
    requires Exec(call, Start(pool), events).rpc.pc == Returned(None)
    ensures var rpc := Exec(call, Start(pool), events).rpc;
      && rpc.streams != [] && Last(rpc.streams).down == DownEnded(EOF)
      && DownError(call, Start(pool), events, |rpc.streams| - 1) == Some(EOF)
      && rpc.trailers != [] && Last(rpc.trailers) == |rpc.streams| - 1
      && Last(rpc.streams).received == FromBackend(call, Start(pool), events, |rpc.streams| - 1)
      && (Last(rpc.streams).delivered == FromBackend(call, Start(pool), events, |rpc.streams| - 1) <==>
            !LostIn(call, Start(pool), events, |rpc.streams| - 1))
  {
    hide Exec, LostIn, Control, Flow, DownFlow, Gathered, DownError, FromBackend;
    StartControl(call);
    StartFlows();
    ExecFlows(call, Start(pool), events);
    ExecSucceeds(call, pool, events);
    var rpc := Exec(call, Start(pool), events).rpc;
    LostOrNot(call, pool, events, |rpc.streams| - 1);
    StateTellsRun(call, pool, events, |rpc.streams| - 1);
    NothingMissing(rpc);
  }

  lemma NothingMissing(rpc: Rpc)
    requires Flow(rpc) && rpc.streams != [] && Last(rpc.streams).down.DownEnded?
    ensures var st := Last(rpc.streams); st.delivered == st.received <==> st.lost == []
  {
    hide UpFlow, Replayed, InTurn, TriggerFits, HeaderOnce;
    var st := Last(rpc.streams);
    assert DownFlow(st);
    assert st.received == st.delivered + st.lost;
  }

  /** The interfaces do not exclude it: were the call for the header to answer EOF, the handler would take
      that for the end of the stream and return nil, and the backend's message would be gone. */
  lemma SuccessMayLose<C>(c: C) returns (call: Call, pool: Pool<C>, events: seq<Event<C>>)
    ensures var rpc := Exec(call, Start(pool), events).rpc;
      rpc.pc == Returned(None) && |rpc.streams| == 1 && rpc.streams[0].received == ["m"] && rpc.clientGot == []
  {
    hide Exec;
    call := Call(Static("backend"), false, false, 1);
    pool := EmptyPool<C>();
    var s := OneStream(call, pool);
    events := [Acquire([]), OpenOk];
    ExecSnoc(call, Start(pool), events, DownRecv(0, "m"));
    events, s := events + [DownRecv(0, "m")], Next(call, s, DownRecv(0, "m"));
    ExecSnoc(call, Start(pool), events, DownHeaderFailed(0, EOF, false));
    events, s := events + [DownHeaderFailed(0, EOF, false)], Next(call, s, DownHeaderFailed(0, EOF, false));
    ExecSnoc(call, Start(pool), events, TakeDown(false));
    events, s := events + [TakeDown(false)], Next(call, s, TakeDown(false));
  }

  /** A static call with its stream open. */
  lemma OneStream<C>(call: Call, pool: Pool<C>) returns (s: Sys<C>)
    requires call == Call(Static("backend"), false, false, 1)
    ensures s == Exec(call, Start(pool), [Acquire([]), OpenOk])
    ensures s.pool == pool && s.rpc.pc == Selecting(0) && s.rpc.acquires == [Lease("", "backend")]
    ensures s.rpc.streams == [Stream(0, First, [], false, DownReceiving, None, [], [], [])]
    ensures s.rpc.up == UpReceiving(true) && s.rpc.clientGot == [] && s.rpc.clientSent == [] && s.rpc.firstSlot.None?
  {
    var none: seq<Event<C>> := [];
    s := Start(pool);
    assert Exec(call, Start(pool), none) == s;
    ExecSnoc(call, Start(pool), none, Acquire([]));
    assert none + [Acquire([])] == [Acquire([])];
    s := Next(call, s, Acquire([]));
    var one: seq<Event<C>> := [Acquire([])];
    ExecSnoc(call, Start(pool), one, OpenOk);
    assert one + [OpenOk] == [Acquire([]), OpenOk];
    s := Next(call, s, OpenOk);
  }

  // ---------- towards the first backend ----------

  /** The forwarder from the client loses the message in hand: sending it to the backend failed. */
  ghost predicate UpLoses<C>(rpc: Rpc, e: Event<C>) {
    rpc.streams != [] && e.UpSendFailed? && rpc.up.UpSending?
  }

  ghost predicate UpLostIn<C>(call: Call, s: Sys<C>, events: seq<Event<C>>) {
    events != [] &&
    var front := events[..|events| - 1];
    UpLostIn(call, s, front) || UpLoses(Exec(call, s, front).rpc, events[|events| - 1])
  }

  /** How far the client's messages got. */
  ghost predicate Upwards(rpc: Rpc, lost: bool) {
    && (rpc.streams == [] ==> rpc.up.UpIdle?)
    && (lost ==> rpc.up.UpEnded?)
    && (rpc.streams != [] ==>
          && (rpc.streams[0].halfClosed ==> rpc.up.UpEnded?)
          && (rpc.up.UpEnded? ==> (rpc.streams[0].sent == rpc.clientSent <==> !lost)))
  }

  /** What the handler does with the first round. */
  lemma HandleFirst<C>(call: Call, s: Sys<C>, e: Event<C>)
    requires Control(call, s.rpc) && HandlerEnabled(s.rpc, e)
    ensures var q := Handle(call, s, e).rpc;
      && q.clientSent == s.rpc.clientSent
      && (if s.rpc.streams == [] then
            || (q.streams == [] && q.up == s.rpc.up)
            || (q.streams != [] && q.up == UpReceiving(true) && !q.streams[0].halfClosed)
          else
            && q.streams != [] && q.up == s.rpc.up && q.streams[0].sent == s.rpc.streams[0].sent
            && (q.streams[0].halfClosed ==> s.rpc.streams[0].halfClosed || s.rpc.up.UpEnded?))
  {
    hide Accounted, Attached, DownOnce, GetConnection, Report;
    match e
    case Acquire(dials) =>
    case OpenOk =>
    case OpenFailed(err) => OpenFailedTouches(call, s, err);
    case Replay(sendErr) => ReplaySparesFirst(call, s, sendErr);
    case TakeUp(ctxDone) => TakeTouches(call, s, e);
    case TakeDown(ctxDone) => TakeTouches(call, s, e);
  }

  lemma ReplaySparesFirst<C>(call: Call, s: Sys<C>, sendErr: Option<Error>)
    requires |s.rpc.streams| >= 2 && s.rpc.acquires != []
    ensures var q := DoReplay(call, s, sendErr).rpc;
      && q.clientSent == s.rpc.clientSent && q.up == s.rpc.up
      && q.streams != [] && q.streams[0] == s.rpc.streams[0]
  {
  }

  lemma NextUpwards<C>(call: Call, s: Sys<C>, e: Event<C>, lost: bool)
    requires Control(call, s.rpc) && Flow(s.rpc) && Upwards(s.rpc, lost)
    ensures Upwards(Next(call, s, e).rpc, lost || UpLoses(s.rpc, e))
  {
    hide Control, Flow;
    if HandlerEnabled(s.rpc, e) {
      HandleFirst(call, s, e);
      hide Handle;
    } else if IsUp(e) && s.rpc.streams != [] {
      StepsUpwards(s.rpc, e, lost);
    } else if IsDown(e) && e.round < |s.rpc.streams| {
      DownTouches(s.rpc, e, e.round);
      hide StepDown;
    }
  }

  lemma StepsUpwards<C>(rpc: Rpc, e: Event<C>, lost: bool)
    requires Flow(rpc) && Upwards(rpc, lost) && IsUp(e) && rpc.streams != []
    ensures Upwards(StepUp(rpc, e), lost || UpLoses(rpc, e))
  {
    if e.UpSendFailed? && rpc.up.UpSending? {
      assert |rpc.streams[0].sent| < |rpc.clientSent|;
    }
  }

  lemma {:induction false} ExecUpwards<C>(call: Call, pool: Pool<C>, events: seq<Event<C>>)
    ensures Upwards(Exec(call, Start(pool), events).rpc, UpLostIn(call, Start(pool), events))
    decreases |events|
  {
    hide Control, Flow, Next;
    if events != [] {
      var front := events[..|events| - 1];
      ExecUpwards(call, pool, front);
      StartControl(call);
      StartFlows();
      ExecKeeps(call, Start(pool), front);
      ExecFlows(call, Start(pool), front);
      NextUpwards(call, Exec(call, Start(pool), front), events[|events| - 1], UpLostIn(call, Start(pool), front));
    }
  }

  /** The half-close comes last: once the first backend's sending side is closed, no more is sent to
      it, and it was sent everything that was read from the client if and only if no send to it
      failed. */
  lemma {:induction false} HalfCloseIsLast<C>(call: Call, pool: Pool<C>, events: seq<Event<C>>)
    requires var rpc := Exec(call, Start(pool), events).rpc; rpc.streams != [] && rpc.streams[0].halfClosed
    ensures var rpc := Exec(call, Start(pool), events).rpc;
      && rpc.up.UpEnded?
      && (rpc.streams[0].sent == rpc.clientSent <==> !UpLostIn(call, Start(pool), events))
  {
    hide Exec, UpLostIn;
    ExecUpwards(call, pool, events);
  }

  /** It can fail: a send to a backend whose stream is done answers EOF, which the handler takes for
      the end of the client's stream; the backend gets the half-close without the message. */
  lemma {:induction false} HalfCloseMayComeEarly<C>(c: C) returns (call: Call, pool: Pool<C>, events: seq<Event<C>>)
    ensures var rpc := Exec(call, Start(pool), events).rpc;
      && rpc.pc == Selecting(1) && rpc.clientSent == ["q"]
      && |rpc.streams| == 1 && rpc.streams[0].halfClosed && rpc.streams[0].sent == []
  {
    hide Exec;
    call := Call(Static("backend"), false, false, 1);
    pool := EmptyPool<C>();
    var s := OneStream(call, pool);
    events := [Acquire([]), OpenOk];
    ExecSnoc(call, Start(pool), events, UpRecv("q"));
    events, s := events + [UpRecv("q")], Next(call, s, UpRecv("q"));
    ExecSnoc(call, Start(pool), events, UpSendFailed(EOF));
    events, s := events + [UpSendFailed(EOF)], Next(call, s, UpSendFailed(EOF));
    ExecSnoc(call, Start(pool), events, TakeUp(false));
    events, s := events + [TakeUp(false)], Next(call, s, TakeUp(false));
  }
}
