/** One RPC through the transparent proxy (MyGateway/service/transparent.go) as a state machine: the
    handler with its retry and transfer loops, the forwarder goroutines it starts, and the pool it
    draws connections from, which other RPCs use at the same time.

    The events of the machine are the atomic actions of the handler, of the forwarders and of the
    others. An event carries what the outside world answers in that action: dial results, the result
    of NewStream, messages, errors, whether the client's context is done. An event that is not enabled
    leaves the state unchanged, so that every sequence of events is a run.

    The handler's actions between two channel operations are one event. This loses no behaviour: in
    between, it touches nothing a forwarder touches, except that it polls the first-message slot after
    taking an error from a channel, which an error taken later explains as well. */
module Proxy {
  import opened Options
  import opened GatewayErrors
  import opened PoolModel

  /** A message is forwarded without being looked into. */
  type Msg = string

  /** What the resolver makes of the route and the headers of the RPC. */
  datatype Target =
    | Static(cluster: string)
    | Sticky(key: string)
    | Balanced
    | Unresolved(err: Error)

  /** The constants of the RPC. `pooled`: the route's cluster has a pool, so that failure reports
      reach it; `retryable`: it is one of the proxy's dynamic clusters. */
  datatype Call = Call(target: Target, pooled: bool, retryable: bool, retryCount: int)

  /** The sticky key and instance ID that came with a connection. */
  datatype Lease = Lease(key: string, id: string)

  /** Why a round of forwarding was started: it is the first, or the round before failed towards the
      client or towards the backend. */
  datatype Trigger = First | ByDown | ByUp

  datatype Pc =
    | Opening(attempt: nat, trigger: Trigger)     // before an iteration of openBackendStream
    | Connecting(attempt: nat, trigger: Trigger)  // before NewStream
    | Selecting(i: nat)                           // in the select of the first round
    | Replaying                                   // a later round, before the replay
    | Awaiting                                    // a later round, waiting for its forwarder
    | Returned(err: Option<Error>)

  /** forwardServerToClient, which moves messages from the client to the first backend. */
  datatype Up = UpIdle | UpReceiving(first: bool) | UpSending(msg: Msg) | UpEnded

  /** forwardClientToServer, which moves messages from a backend to the client. */
  datatype Down = DownIdle | DownReceiving | DownHeader(msg: Msg) | DownSending(msg: Msg) | DownEnded(err: Error)

  /** A backend stream, the forwarder that reads from it, and what passed through. */
  datatype Stream = Stream(
    acquire: nat,          // which acquired connection it runs on
    trigger: Trigger,
    sent: seq<Msg>,        // what the backend got
    halfClosed: bool,
    down: Down,
    slot: Option<Error>,   // the one-slot channel of the forwarder
    received: seq<Msg>,    // what the forwarder got from the backend
    delivered: seq<Msg>,   // what it handed to the client
    lost: seq<Msg>)        // what it could not hand to the client

  datatype Rpc = Rpc(
    pc: Pc,
    acquires: seq<Lease>,
    reports: seq<Lease>,
    cancelled: set<nat>,   // the acquired connections whose stream context was cancelled
    newStreams: nat,       // calls of NewStream
    streams: seq<Stream>,  // the rounds of forwarding
    up: Up,
    upSlot: Option<Error>,
    firstSlot: Option<Msg>,
    firstMsg: Option<Msg>,
    clientSent: seq<Msg>,  // what was read from the client
    clientGot: seq<Msg>,   // what was handed to the client
    headers: seq<nat>,     // rounds in which SendHeader was called
    trailers: seq<nat>)    // rounds whose trailer was set

  datatype Sys<C(==)> = Sys(rpc: Rpc, pool: Pool<C>)

  datatype Event<C> =
    // the handler
    | Acquire(dials: Dials<C>)
    | OpenOk
    | OpenFailed(openErr: Error)
    | Replay(sendErr: Option<Error>)
    | TakeUp(ctxDone: bool)
    | TakeDown(ctxDone: bool)
    // the forwarder from the client to the first backend
    | UpRecv(upMsg: Msg)
    | UpRecvFailed(upErr: Error)
    | UpSent
    | UpSendFailed(upErr: Error)
    // the forwarder of a round, from its backend to the client
    | DownRecv(round: nat, downMsg: Msg)
    | DownRecvFailed(round: nat, downErr: Error)
    | DownHeaderSent(round: nat)
    | DownHeaderFailed(round: nat, downErr: Error, called: bool)
    | DownSent(round: nat)
    | DownSendFailed(round: nat, downErr: Error)
    // another user of the pool
    | Other(step: Step<C>)

  const UNAVAILABLE := Status(Unavailable, "backend service unavailable")
  const UNEXPECTED := Status(Internal, "unexpected proxy termination")

  function StartRpc(): Rpc {
    Rpc(Opening(0, First), [], [], {}, 0, [], UpIdle, None, None, None, [], [], [], [])
  }

  ghost function Start<C>(pool: Pool<C>): Sys<C> {
    Sys(StartRpc(), pool)
  }

  function Last<T>(s: seq<T>): T
    requires s != []
  {
    s[|s| - 1]
  }

  // ---------- the handler ----------

  /** Returning runs the deferred cancel of the last stream opened. */
  function Return(rpc: Rpc, err: Option<Error>): Rpc {
    rpc.(pc := Returned(err),
         cancelled := if rpc.streams == [] then rpc.cancelled
                      else rpc.cancelled + {Last(rpc.streams).acquire})
  }

  /** `resolver.OnBackendFailure` for the connection in hand, and cancelling its stream. */
  ghost function Report<C>(call: Call, s: Sys<C>): Sys<C>
    requires s.rpc.acquires != []
  {
    var lease := Last(s.rpc.acquires);
    Sys(s.rpc.(reports := s.rpc.reports + [lease], cancelled := s.rpc.cancelled + {|s.rpc.acquires| - 1}),
        if call.pooled then OnBackendFailure(s.pool, lease.key, lease.id) else s.pool)
  }

  /** `resolver.GetConnection` once the target is known. */
  ghost function GetConnection<C>(target: Target, pool: Pool<C>, dials: Dials<C>)
    : (r: (Pool<C>, Option<Lease>, Option<Error>))
    ensures r.1.Some? <==> r.2.None?
  {
    match target
    case Static(cluster) => (pool, Some(Lease("", cluster)), None)
    case Unresolved(err) => (pool, None, Some(err))
    case Sticky(key) =>
      var (q, reply) := GetForKey(pool, key, dials);
      if reply.Granted? then (q, Some(Lease(key, reply.id)), None) else (q, None, Some(reply.err))
    case Balanced =>
      var (q, reply) := GetRoundRobin(pool, dials);
      if reply.Granted? then (q, Some(Lease("", reply.id)), None) else (q, None, Some(reply.err))
  }

  ghost function DoAcquire<C>(call: Call, s: Sys<C>, dials: Dials<C>): Sys<C>
    requires s.rpc.pc.Opening?
  {
    if call.retryable && s.rpc.pc.attempt >= call.retryCount then
      Sys(Return(s.rpc, Some(UNAVAILABLE)), s.pool)
    else
      var (pool, lease, err) := GetConnection(call.target, s.pool, dials);
      if lease.None? then
        Sys(Return(s.rpc, err), pool)
      else
        Sys(s.rpc.(acquires := s.rpc.acquires + [lease.value],
                   pc := Connecting(s.rpc.pc.attempt, s.rpc.pc.trigger)), pool)
  }

  /** A stream was opened: the first round starts both forwarders, a later one replays first. */
  function DoOpenOk(rpc: Rpc): Rpc
    requires rpc.pc.Connecting? && rpc.acquires != []
  {
    var first := rpc.streams == [];
    var stream := Stream(|rpc.acquires| - 1, rpc.pc.trigger, [], false,
                         if first then DownReceiving else DownIdle, None, [], [], []);
    rpc.(newStreams := rpc.newStreams + 1,
         streams := rpc.streams + [stream],
         up := if first then UpReceiving(true) else rpc.up,
         pc := if first then Selecting(0) else Replaying)
  }

  ghost function DoOpenFailed<C>(call: Call, s: Sys<C>, err: Error): Sys<C>
    requires s.rpc.pc.Connecting? && s.rpc.acquires != []
  {
    var a := s.rpc.pc.attempt;
    var t := Report(call, s);
    var rpc := t.rpc.(newStreams := t.rpc.newStreams + 1);
    if !call.retryable || a == call.retryCount - 1 then Sys(Return(rpc, Some(err)), t.pool)
    else Sys(rpc.(pc := Opening(a + 1, s.rpc.pc.trigger)), t.pool)
  }

  /** The end of a round that failed: report, cancel, and return or open the next stream. */
  ghost function DoFail<C>(call: Call, s: Sys<C>, err: Error, trigger: Trigger, stop: bool): Sys<C>
    requires s.rpc.acquires != []
  {
    var t := Report(call, s);
    if !call.retryable || stop || |s.rpc.streams| - 1 >= call.retryCount - 1 then
      Sys(Return(t.rpc, Some(err)), t.pool)
    else
      Sys(t.rpc.(pc := Opening(0, trigger)), t.pool)
  }

  ghost function DoReplay<C>(call: Call, s: Sys<C>, sendErr: Option<Error>): Sys<C>
    requires s.rpc.streams != [] && s.rpc.acquires != []
  {
    if s.rpc.firstMsg.None? then
      Sys(Return(s.rpc, Some(UNAVAILABLE)), s.pool)
    else if sendErr.Some? then
      var t := Report(call, s);
      Sys(Return(t.rpc, sendErr), t.pool)
    else
      var r := |s.rpc.streams| - 1;
      var stream := s.rpc.streams[r].(sent := s.rpc.streams[r].sent + [s.rpc.firstMsg.value],
                                      halfClosed := true, down := DownReceiving);
      s.(rpc := s.rpc.(streams := s.rpc.streams[r := stream], pc := Awaiting))
  }

  /** After an error in the first round the handler polls the slot of the first message. */
  function PollFirst(rpc: Rpc): Rpc {
    if rpc.firstSlot.Some? then rpc.(firstMsg := rpc.firstSlot, firstSlot := None) else rpc
  }

  ghost function DoTakeUp<C>(call: Call, s: Sys<C>, ctxDone: bool): Sys<C>
    requires s.rpc.pc.Selecting? && s.rpc.upSlot.Some? && s.rpc.streams != [] && s.rpc.acquires != []
  {
    var err := s.rpc.upSlot.value;
    var rpc := s.rpc.(upSlot := None);
    if err == EOF then
      var i := rpc.pc.i + 1;
      var r := |rpc.streams| - 1;
      var closed := rpc.(streams := rpc.streams[r := rpc.streams[r].(halfClosed := true)]);
      Sys(if i < 2 then closed.(pc := Selecting(i)) else Return(closed, Some(UNEXPECTED)), s.pool)
    else
      var polled := PollFirst(rpc);
      DoFail(call, Sys(polled, s.pool), err, ByUp, polled.firstMsg.None? || ctxDone)
  }

  ghost function DoTakeDown<C>(call: Call, s: Sys<C>, ctxDone: bool): Sys<C>
    requires (s.rpc.pc.Selecting? || s.rpc.pc.Awaiting?) && s.rpc.streams != [] && s.rpc.acquires != []
    requires Last(s.rpc.streams).slot.Some?
  {
    var r := |s.rpc.streams| - 1;
    var err := s.rpc.streams[r].slot.value;
    var rpc := s.rpc.(streams := s.rpc.streams[r := s.rpc.streams[r].(slot := None)],
                      trailers := s.rpc.trailers + [r]);
    if err == EOF then Sys(Return(rpc, None), s.pool)
    else if s.rpc.pc.Awaiting? then DoFail(call, Sys(rpc, s.pool), err, ByDown, ctxDone)
    else
      var polled := PollFirst(rpc);
      DoFail(call, Sys(polled, s.pool), err, ByDown, polled.firstMsg.None? || ctxDone)
  }

  // ---------- the forwarders ----------

  /** forwardServerToClient: the first message is also offered to the one-slot channel, without
      blocking; the outcome is written to the channel once. */
  function StepUp<C>(rpc: Rpc, e: Event<C>): Rpc
    requires rpc.streams != []
  {
    match e
    case UpRecv(msg) =>
      if !rpc.up.UpReceiving? then rpc
      else rpc.(clientSent := rpc.clientSent + [msg],
                firstSlot := if rpc.up.first && rpc.firstSlot.None? then Some(msg) else rpc.firstSlot,
                up := UpSending(msg))
    case UpRecvFailed(err) =>
      if !rpc.up.UpReceiving? then rpc else rpc.(up := UpEnded, upSlot := Some(err))
    case UpSent =>
      if !rpc.up.UpSending? then rpc
      else rpc.(streams := rpc.streams[0 := rpc.streams[0].(sent := rpc.streams[0].sent + [rpc.up.msg])],
                up := UpReceiving(false))
    case UpSendFailed(err) =>
      if !rpc.up.UpSending? then rpc else rpc.(up := UpEnded, upSlot := Some(err))
    case _ => rpc
  }

  function EndDown(stream: Stream, err: Error): Stream {
    stream.(down := DownEnded(err), slot := Some(err))
  }

  /** forwardClientToServer of round r; in the first round the first message waits for the header. */
  function StepDown<C>(rpc: Rpc, e: Event<C>, r: nat): Rpc
    requires r < |rpc.streams|
  {
    var st := rpc.streams[r];
    match e
    case DownRecv(_, msg) =>
      if !st.down.DownReceiving? then rpc
      else rpc.(streams := rpc.streams[r := st.(received := st.received + [msg],
                  down := if r == 0 && st.received == [] then DownHeader(msg) else DownSending(msg))])
    case DownRecvFailed(_, err) =>
      if !st.down.DownReceiving? then rpc else rpc.(streams := rpc.streams[r := EndDown(st, err)])
    case DownHeaderSent(_) =>
      if !st.down.DownHeader? then rpc
      else rpc.(streams := rpc.streams[r := st.(down := DownSending(st.down.msg))], headers := rpc.headers + [r])
    case DownHeaderFailed(_, err, called) =>
      if !st.down.DownHeader? then rpc
      else rpc.(streams := rpc.streams[r := EndDown(st.(lost := st.lost + [st.down.msg]), err)],
                headers := if called then rpc.headers + [r] else rpc.headers)
    case DownSent(_) =>
      if !st.down.DownSending? then rpc
      else rpc.(streams := rpc.streams[r := st.(delivered := st.delivered + [st.down.msg], down := DownReceiving)],
                clientGot := rpc.clientGot + [st.down.msg])
    case DownSendFailed(_, err) =>
      if !st.down.DownSending? then rpc
      else rpc.(streams := rpc.streams[r := EndDown(st.(lost := st.lost + [st.down.msg]), err)])
    case _ => rpc
  }

  // ---------- runs ----------

  predicate IsUp<C>(e: Event<C>) {
    e.UpRecv? || e.UpRecvFailed? || e.UpSent? || e.UpSendFailed?
  }

  predicate IsDown<C>(e: Event<C>) {
    e.DownRecv? || e.DownRecvFailed? || e.DownHeaderSent? || e.DownHeaderFailed? || e.DownSent? || e.DownSendFailed?
  }

  /** The handler can take this event. */
  ghost predicate HandlerEnabled<C>(rpc: Rpc, e: Event<C>) {
    match e
    case Acquire(_) => rpc.pc.Opening?
    case OpenOk => rpc.pc.Connecting? && rpc.acquires != []
    case OpenFailed(_) => rpc.pc.Connecting? && rpc.acquires != []
    case Replay(_) => rpc.pc.Replaying? && rpc.streams != [] && rpc.acquires != []
    case TakeUp(_) => rpc.pc.Selecting? && rpc.upSlot.Some? && rpc.streams != [] && rpc.acquires != []
    case TakeDown(_) =>
      (rpc.pc.Selecting? || rpc.pc.Awaiting?) && rpc.streams != [] && rpc.acquires != [] && Last(rpc.streams).slot.Some?
    case _ => false
  }

  ghost function Handle<C>(call: Call, s: Sys<C>, e: Event<C>): Sys<C>
    requires HandlerEnabled(s.rpc, e)
  {
    match e
    case Acquire(dials) => DoAcquire(call, s, dials)
    case OpenOk => s.(rpc := DoOpenOk(s.rpc))
    case OpenFailed(err) => DoOpenFailed(call, s, err)
    case Replay(sendErr) => DoReplay(call, s, sendErr)
    case TakeUp(ctxDone) => DoTakeUp(call, s, ctxDone)
    case TakeDown(ctxDone) => DoTakeDown(call, s, ctxDone)
  }

  ghost function Next<C>(call: Call, s: Sys<C>, e: Event<C>): Sys<C> {
    if HandlerEnabled(s.rpc, e) then Handle(call, s, e)
    else if IsUp(e) && s.rpc.streams != [] then s.(rpc := StepUp(s.rpc, e))
    else if IsDown(e) && e.round < |s.rpc.streams| then s.(rpc := StepDown(s.rpc, e, e.round))
    else if e.Other? then s.(pool := Do(s.pool, e.step))
    else s
  }

  ghost function Exec<C>(call: Call, s: Sys<C>, events: seq<Event<C>>): Sys<C> {
    if events == [] then s
    else Next(call, Exec(call, s, events[..|events| - 1]), events[|events| - 1])
  }

  lemma ExecSnoc<C>(call: Call, s: Sys<C>, events: seq<Event<C>>, e: Event<C>)
    ensures Exec(call, s, events + [e]) == Next(call, Exec(call, s, events), e)
  {
    assert (events + [e])[..|events|] == events;
  }
}
