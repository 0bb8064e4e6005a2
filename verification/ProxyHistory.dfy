/** What the state of an RPC says is what happened: the messages and errors in it are those the streams
    gave, and the handler returns the error of the call that failed. */
module ProxyHistory {
  import opened Options
  import opened GatewayErrors
  import opened PoolModel
  import opened Proxy
  import opened ProxyControl
  import opened ProxyConversation

  // ---------- what an event tells ----------

  /** The message an event reads from the client. */
  ghost function ClientSays<C>(rpc: Rpc, e: Event<C>): seq<Msg> {
    if e.UpRecv? && rpc.up.UpReceiving? then [e.upMsg] else []
  }

  /** The message an event reads from the backend of round r. */
  ghost function BackendSays<C>(rpc: Rpc, e: Event<C>, r: nat): seq<Msg> {
    if e.DownRecv? && e.round == r < |rpc.streams| && rpc.streams[r].down.DownReceiving? then [e.downMsg] else []
  }

  /** The error that ends the forwarder from the client: of reading from the client, or of sending to the
      backend. */
  ghost function UpFails<C>(rpc: Rpc, e: Event<C>): Option<Error> {
    if e.UpRecvFailed? && rpc.up.UpReceiving? then Some(e.upErr)
    else if e.UpSendFailed? && rpc.up.UpSending? then Some(e.upErr)
    else None
  }

  /** The error that ends the forwarder of round r: of reading from the backend, of the header, or of
      sending to the client. */
  ghost function DownFails<C>(rpc: Rpc, e: Event<C>, r: nat): Option<Error> {
    if r >= |rpc.streams| then None
    else
      match e
      case DownRecvFailed(round, err) => if round == r && rpc.streams[r].down.DownReceiving? then Some(err) else None
      case DownHeaderFailed(round, err, _) => if round == r && rpc.streams[r].down.DownHeader? then Some(err) else None
      case DownSendFailed(round, err) => if round == r && rpc.streams[r].down.DownSending? then Some(err) else None
      case _ => None
  }

  /** The round whose SendHeader an event calls. */
  ghost function HeaderCalled<C>(rpc: Rpc, e: Event<C>): seq<nat> {
    if (e.DownHeaderSent? || (e.DownHeaderFailed? && e.called))
       && e.round < |rpc.streams| && rpc.streams[e.round].down.DownHeader? then [e.round]
    else []
  }

  /** The round whose outcome the handler takes, and whose trailer it then sets. */
  ghost function TrailerSet<C>(rpc: Rpc, e: Event<C>): seq<nat> {
    if e.TakeDown? && HandlerEnabled(rpc, e) then [|rpc.streams| - 1] else []
  }

  // ---------- what a run tells ----------

  ghost function FromClient<C>(call: Call, s: Sys<C>, events: seq<Event<C>>): seq<Msg> {
    if events == [] then []
    else
      var front := events[..|events| - 1];
      FromClient(call, s, front) + ClientSays(Exec(call, s, front).rpc, events[|events| - 1])
  }

  ghost function FromBackend<C>(call: Call, s: Sys<C>, events: seq<Event<C>>, r: nat): seq<Msg> {
    if events == [] then []
    else
      var front := events[..|events| - 1];
      FromBackend(call, s, front, r) + BackendSays(Exec(call, s, front).rpc, events[|events| - 1], r)
  }

  ghost function UpError<C>(call: Call, s: Sys<C>, events: seq<Event<C>>): Option<Error> {
    if events == [] then None
    else
      var front := events[..|events| - 1];
      var err := UpFails(Exec(call, s, front).rpc, events[|events| - 1]);
      if err.Some? then err else UpError(call, s, front)
  }

  ghost function DownError<C>(call: Call, s: Sys<C>, events: seq<Event<C>>, r: nat): Option<Error> {
    if events == [] then None
    else
      var front := events[..|events| - 1];
      var err := DownFails(Exec(call, s, front).rpc, events[|events| - 1], r);
      if err.Some? then err else DownError(call, s, front, r)
  }

  ghost function HeaderCalls<C>(call: Call, s: Sys<C>, events: seq<Event<C>>): seq<nat> {
    if events == [] then []
    else
      var front := events[..|events| - 1];
      HeaderCalls(call, s, front) + HeaderCalled(Exec(call, s, front).rpc, events[|events| - 1])
  }

  ghost function TrailersSet<C>(call: Call, s: Sys<C>, events: seq<Event<C>>): seq<nat> {
    if events == [] then []
    else
      var front := events[..|events| - 1];
      TrailersSet(call, s, front) + TrailerSet(Exec(call, s, front).rpc, events[|events| - 1])
  }

  // ---------- the state agrees ----------

  ghost predicate UpAgrees(rpc: Rpc, err: Option<Error>) {
    (rpc.up.UpEnded? <==> err.Some?) && (rpc.upSlot.Some? ==> rpc.upSlot == err)
  }

  /** The round got these messages from its backend, and has ended with this error if with any. */
  ghost predicate DownAgrees(rpc: Rpc, r: nat, msgs: seq<Msg>, err: Option<Error>) {
    if r < |rpc.streams| then
      && rpc.streams[r].received == msgs
      && (rpc.streams[r].down.DownEnded? <==> err.Some?)
      && (err.Some? ==> rpc.streams[r].down == DownEnded(err.value))
      && (rpc.streams[r].slot.Some? ==> rpc.streams[r].slot == err)
    else msgs == [] && err == None
  }

  ghost function Then(err: Option<Error>, later: Option<Error>): Option<Error> {
    if later.Some? then later else err
  }

  /** The handler reads nothing from a stream and ends no forwarder. */
  lemma HandleIsSilent<C>(call: Call, s: Sys<C>, e: Event<C>, r: nat, msgs: seq<Msg>, err: Option<Error>,
                          upErr: Option<Error>)
    requires Control(call, s.rpc) && HandlerEnabled(s.rpc, e)
    requires UpAgrees(s.rpc, upErr) && DownAgrees(s.rpc, r, msgs, err)
    ensures var q := Handle(call, s, e).rpc;
      && UpAgrees(q, upErr) && DownAgrees(q, r, msgs, err)
      && q.clientSent == s.rpc.clientSent && q.headers == s.rpc.headers
      && q.trailers == s.rpc.trailers + TrailerSet(s.rpc, e)
  {
    hide Accounted, Attached, GetConnection, DoTakeUp, DoTakeDown, OnBackendFailure;
    if e.TakeUp? {
      TakeUpIsSilent(call, s, e.ctxDone, r, msgs, err, upErr);
    } else if e.TakeDown? {
      TakeDownIsSilent(call, s, e.ctxDone, r, msgs, err, upErr);
    }
  }

  lemma TakeUpIsSilent<C>(call: Call, s: Sys<C>, ctxDone: bool, r: nat, msgs: seq<Msg>, err: Option<Error>,
                          upErr: Option<Error>)
    requires s.rpc.pc.Selecting? && s.rpc.upSlot.Some? && s.rpc.streams != [] && s.rpc.acquires != []
    requires UpAgrees(s.rpc, upErr) && DownAgrees(s.rpc, r, msgs, err)
    ensures var q := DoTakeUp(call, s, ctxDone).rpc;
      && UpAgrees(q, upErr) && DownAgrees(q, r, msgs, err)
      && q.clientSent == s.rpc.clientSent && q.headers == s.rpc.headers && q.trailers == s.rpc.trailers
  {
    hide DoFail, FailedOver;
    var polled := PollFirst(s.rpc.(upSlot := None));
    FailShape(call, Sys(polled, s.pool), s.rpc.upSlot.value, ByUp, polled.firstMsg.None? || ctxDone);
  }

  lemma TakeDownIsSilent<C>(call: Call, s: Sys<C>, ctxDone: bool, r: nat, msgs: seq<Msg>, err: Option<Error>,
                            upErr: Option<Error>)
    requires (s.rpc.pc.Selecting? || s.rpc.pc.Awaiting?) && s.rpc.streams != [] && s.rpc.acquires != []
    requires Last(s.rpc.streams).slot.Some?
    requires UpAgrees(s.rpc, upErr) && DownAgrees(s.rpc, r, msgs, err)
    ensures var q := DoTakeDown(call, s, ctxDone).rpc;
      && UpAgrees(q, upErr) && DownAgrees(q, r, msgs, err)
      && q.clientSent == s.rpc.clientSent && q.headers == s.rpc.headers
      && q.trailers == s.rpc.trailers + [|s.rpc.streams| - 1]
  {
    hide DoFail, FailedOver;
    var last := |s.rpc.streams| - 1;
    var rpc := s.rpc.(streams := s.rpc.streams[last := s.rpc.streams[last].(slot := None)],
                      trailers := s.rpc.trailers + [last]);
    var polled := if s.rpc.pc.Awaiting? then rpc else PollFirst(rpc);
    FailShape(call, Sys(polled, s.pool), s.rpc.streams[last].slot.value, ByDown,
              (s.rpc.pc.Selecting? && polled.firstMsg.None?) || ctxDone);
  }

  lemma UpTells<C>(rpc: Rpc, e: Event<C>, r: nat, msgs: seq<Msg>, err: Option<Error>, upErr: Option<Error>)
    requires IsUp(e) && rpc.streams != []
    requires UpAgrees(rpc, upErr) && DownAgrees(rpc, r, msgs, err)
    ensures var q := StepUp(rpc, e);
      && UpAgrees(q, Then(upErr, UpFails(rpc, e))) && DownAgrees(q, r, msgs, err)
      && q.clientSent == rpc.clientSent + ClientSays(rpc, e)
      && q.headers == rpc.headers && q.trailers == rpc.trailers
  {
  }

  lemma DownTells<C>(rpc: Rpc, e: Event<C>, r: nat, msgs: seq<Msg>, err: Option<Error>, upErr: Option<Error>)
    requires IsDown(e) && e.round < |rpc.streams|
    requires UpAgrees(rpc, upErr) && DownAgrees(rpc, r, msgs, err)
    ensures var q := StepDown(rpc, e, e.round);
      && UpAgrees(q, upErr)
      && DownAgrees(q, r, msgs + BackendSays(rpc, e, r), Then(err, DownFails(rpc, e, r)))
      && q.clientSent == rpc.clientSent && q.trailers == rpc.trailers
      && q.headers == rpc.headers + HeaderCalled(rpc, e)
  {
    DownCalls(rpc, e);
    if r == e.round {
      OwnDownTells(rpc, e, msgs, err);
    } else {
      assert msgs + [] == msgs;
    }
    DownTouches(rpc, e, e.round);
    hide StepDown, HeaderCalled;
  }

  lemma OwnDownTells<C>(rpc: Rpc, e: Event<C>, msgs: seq<Msg>, err: Option<Error>)
    requires IsDown(e) && e.round < |rpc.streams| && DownAgrees(rpc, e.round, msgs, err)
    ensures DownAgrees(StepDown(rpc, e, e.round), e.round, msgs + BackendSays(rpc, e, e.round),
                       Then(err, DownFails(rpc, e, e.round)))
  {
  }

  lemma DownCalls<C>(rpc: Rpc, e: Event<C>)
    requires IsDown(e) && e.round < |rpc.streams|
    ensures StepDown(rpc, e, e.round).headers == rpc.headers + HeaderCalled(rpc, e)
  {
  }

  lemma NextTells<C>(call: Call, s: Sys<C>, e: Event<C>, r: nat, msgs: seq<Msg>, err: Option<Error>,
                     upErr: Option<Error>)
    requires Control(call, s.rpc) && UpAgrees(s.rpc, upErr) && DownAgrees(s.rpc, r, msgs, err)
    ensures var q := Next(call, s, e).rpc;
      && UpAgrees(q, Then(upErr, UpFails(s.rpc, e)))
      && DownAgrees(q, r, msgs + BackendSays(s.rpc, e, r), Then(err, DownFails(s.rpc, e, r)))
      && q.clientSent == s.rpc.clientSent + ClientSays(s.rpc, e)
      && q.headers == s.rpc.headers + HeaderCalled(s.rpc, e)
      && q.trailers == s.rpc.trailers + TrailerSet(s.rpc, e)
  {
    hide Accounted, Attached, Rounds, DownOnce, UpAgrees, DownAgrees, Handle, StepUp, StepDown;
    assert msgs + [] == msgs;
    if HandlerEnabled(s.rpc, e) {
      HandleIsSilent(call, s, e, r, msgs, err, upErr);
    } else if IsUp(e) && s.rpc.streams != [] {
      UpTells(s.rpc, e, r, msgs, err, upErr);
    } else if IsDown(e) && e.round < |s.rpc.streams| {
      DownTells(s.rpc, e, r, msgs, err, upErr);
    }
  }

  /** The state tells the run: the messages read from the client and from each backend are those their
      streams gave, in order; a forwarder has ended exactly with the error of the call that failed in it,
      which is what its channel holds until the handler takes it; SendHeader was called and trailers were
      set in just the rounds in which that happened. */
  lemma {:induction false} StateTellsRun<C>(call: Call, pool: Pool<C>, events: seq<Event<C>>, r: nat)
    ensures var rpc := Exec(call, Start(pool), events).rpc;
      && rpc.clientSent == FromClient(call, Start(pool), events)
      && UpAgrees(rpc, UpError(call, Start(pool), events))
      && DownAgrees(rpc, r, FromBackend(call, Start(pool), events, r), DownError(call, Start(pool), events, r))
      && rpc.headers == HeaderCalls(call, Start(pool), events)
      && rpc.trailers == TrailersSet(call, Start(pool), events)
    decreases |events|
  {
    hide Control, Next, UpAgrees, DownAgrees, ClientSays, BackendSays, UpFails, DownFails, HeaderCalled, TrailerSet;
    if events == [] {
      StartAgrees(r);
    } else {
      var front, e := events[..|events| - 1], events[|events| - 1];
      StateTellsRun(call, pool, front, r);
      StartControl(call);
      ExecKeeps(call, Start(pool), front);
      NextTells(call, Exec(call, Start(pool), front), e, r, FromBackend(call, Start(pool), front, r),
                DownError(call, Start(pool), front, r), UpError(call, Start(pool), front));
    }
  }

  lemma StartAgrees(r: nat)
    ensures UpAgrees(StartRpc(), None) && DownAgrees(StartRpc(), r, [], None)
  {
  }

  // ---------- what the handler does next, and what it returns ----------

  /** Why no connection was had: the resolver's error, or that of the pool. */
  ghost function ConnectionError<C>(target: Target, pool: Pool<C>, dials: Dials<C>): Option<Error> {
    match target
    case Static(_) => None
    case Unresolved(err) => Some(err)
    case Sticky(key) =>
      var reply := GetForKey(pool, key, dials).1;
      if reply.Refused? then Some(reply.err) else None
    case Balanced =>
      var reply := GetRoundRobin(pool, dials).1;
      if reply.Refused? then Some(reply.err) else None
  }

  /** Where the handler stands after an event, over every run, in terms of what the streams and the pool
      answered: it returns nil only for the EOF of the last backend, and otherwise the error of the very
      call that failed; it goes on to another attempt, or another round, exactly while that is allowed. */
  lemma {:induction false} HandlerFollows<C>(call: Call, pool: Pool<C>, events: seq<Event<C>>, e: Event<C>)
    requires HandlerEnabled(Exec(call, Start(pool), events).rpc, e)
    ensures var s := Exec(call, Start(pool), events);
      var pc, k := s.rpc.pc, |s.rpc.streams|;
      Next(call, s, e).rpc.pc ==
        match e
        case Acquire(dials) =>
          if call.retryable && pc.attempt >= call.retryCount then Returned(Some(UNAVAILABLE))
          else
            var err := ConnectionError(call.target, s.pool, dials);
            if err.Some? then Returned(err) else Connecting(pc.attempt, pc.trigger)
        case OpenOk => if k == 0 then Selecting(0) else Replaying
        case OpenFailed(err) =>
          if call.retryable && pc.attempt + 1 < call.retryCount then Opening(pc.attempt + 1, pc.trigger)
          else Returned(Some(err))
        case Replay(sendErr) => if sendErr.Some? then Returned(sendErr) else Awaiting
        case TakeUp(ctxDone) =>
          var err := UpError(call, Start(pool), events);
          if err == Some(EOF) then Selecting(1)
          else if MayTransfer(call, pool, events, ctxDone) then Opening(0, ByUp)
          else Returned(err)
        case TakeDown(ctxDone) =>
          var err := DownError(call, Start(pool), events, k - 1);
          if err == Some(EOF) then Returned(None)
          else if MayTransfer(call, pool, events, ctxDone) then Opening(0, ByDown)
          else Returned(err)
  {
    hide Exec, UpError, DownError, FromClient, FromBackend;
    var s := Exec(call, Start(pool), events);
    StartControl(call);
    ExecKeeps(call, Start(pool), events);
    if e.TakeUp? || e.TakeDown? {
      StateTellsRun(call, pool, events, |s.rpc.streams| - 1);
      RoundEnds(call, pool, events, e);
      hide Next;
    } else {
      OpeningFollows(call, s, e);
    }
  }

  /** Another round is allowed: the cluster is dynamic, the client said something, rounds are left and the
      client still waits. */
  ghost predicate MayTransfer<C>(call: Call, pool: Pool<C>, events: seq<Event<C>>, ctxDone: bool) {
    && call.retryable && FromClient(call, Start(pool), events) != []
    && |Exec(call, Start(pool), events).rpc.streams| < call.retryCount && !ctxDone
  }

  lemma OpeningFollows<C>(call: Call, s: Sys<C>, e: Event<C>)
    requires Control(call, s.rpc) && HandlerEnabled(s.rpc, e) && !e.TakeUp? && !e.TakeDown?
    ensures var pc, k := s.rpc.pc, |s.rpc.streams|;
      Next(call, s, e).rpc.pc ==
        match e
        case Acquire(dials) =>
          if call.retryable && pc.attempt >= call.retryCount then Returned(Some(UNAVAILABLE))
          else
            var err := ConnectionError(call.target, s.pool, dials);
            if err.Some? then Returned(err) else Connecting(pc.attempt, pc.trigger)
        case OpenOk => if k == 0 then Selecting(0) else Replaying
        case OpenFailed(err) =>
          if call.retryable && pc.attempt + 1 < call.retryCount then Opening(pc.attempt + 1, pc.trigger)
          else Returned(Some(err))
        case Replay(sendErr) => if sendErr.Some? then Returned(sendErr) else Awaiting
  {
    hide Accounted, Attached, DownOnce, GetForKey, GetRoundRobin, OnBackendFailure;
  }
}
