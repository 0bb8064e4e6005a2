/** The handler of the transparent proxy in the form of its source: nested loops over transfers and
    attempts, local variables for the backend in hand and the first message, and channels to the
    forwarders. Each of its runs is proved to be a run of the machine in Proxy, so that what the
    lemmas about the machine say holds when it returns.

    What the outside world answers is chosen arbitrarily. A method cannot wait for ever: a run ends, without
    a result, when the handler waits for a stream and the others have had as many chances to act as it was
    given patience for. */
module TransparentProxies {
  import opened Options
  import opened GatewayErrors
  import opened PrefixTable
  import opened Routing
  import opened HeaderAuth
  import opened PoolModel
  import opened ConnectionPools
  import opened Resolvers
  import opened Proxy
  import opened ProxyControl
  import opened ProxyConversation

  /** The forwarders change nothing that belongs to the handler. */
  ghost predicate HandlerUntouched(p: Rpc, q: Rpc) {
    && q == p.(streams := q.streams, up := q.up, upSlot := q.upSlot, firstSlot := q.firstSlot,
               clientSent := q.clientSent, clientGot := q.clientGot, headers := q.headers)
    && |q.streams| == |p.streams|
  }

  /** Between two moments only forwarders and other users of the pool acted. */
  ghost predicate Others<C>(before: seq<Event<C>>, after: seq<Event<C>>) {
    before <= after && forall n :: |before| <= n < |after| ==> IsUp(after[n]) || IsDown(after[n]) || after[n].Other?
  }

  /** Between two moments the handler took one event, the last. */
  ghost predicate OneMore<C>(before: seq<Event<C>>, after: seq<Event<C>>) {
    after != [] && Others(before, after[..|after| - 1])
  }

  /** Between two moments the handler took an event, and then perhaps more. */
  ghost predicate Begins<C>(before: seq<Event<C>>, after: seq<Event<C>>) {
    before <= after && |before| < |after|
  }

  lemma OthersAndOne<C>(before: seq<Event<C>>, middle: seq<Event<C>>, e: Event<C>)
    requires Others(before, middle)
    ensures OneMore(before, middle + [e]) && Last(middle + [e]) == e && Begins(before, middle + [e])
  {
    assert (middle + [e])[..|middle|] == middle;
  }

  /** One RPC being handled: what the handler and its forwarders share, with its history. */
  class Exchange {
    const resolver: ConnectionResolver
    const route: Route
    const md: Metadata
    const retryable: bool
    const retryCount: int
    var rpc: Rpc
    var patience: nat  // how often the others are given a chance while the handler waits at a channel
    ghost var events: seq<Event<Connection>>
    ghost const origin: Pool<Connection>

    constructor (resolver: ConnectionResolver, route: Route, md: Metadata, retryable: bool, retryCount: int,
                 patience: nat)
      requires resolver.Valid()
      ensures this.resolver == resolver && this.route == route && this.md == md
      ensures this.retryable == retryable && this.retryCount == retryCount
      ensures Valid() && rpc == StartRpc() && origin == resolver.View(route.cluster)
    {
      this.resolver, this.route, this.md, this.retryable, this.retryCount := resolver, route, md, retryable, retryCount;
      rpc, events, origin, this.patience := StartRpc(), [], resolver.View(route.cluster), patience;
    }

    /** The constants of the RPC for the machine. */
    ghost function RpcCall(): Call {
      Call(Choose(route, md, resolver.staticConns.Keys, resolver.pools.Keys), route.cluster in resolver.pools,
           retryable, retryCount)
    }

    ghost function State(): Sys<Connection>
      reads this, if route.cluster in resolver.pools then {resolver.pools[route.cluster]} else {}
    {
      Sys(rpc, resolver.View(route.cluster))
    }

    /** What happened so far is a run of the machine. */
    ghost predicate Valid()
      reads this, resolver.pools.Values, set p, c | p in resolver.pools.Values && c in p.made :: c
    {
      resolver.Valid() && State() == Exec(RpcCall(), Start(origin), events)
    }

    /** Of the connections acquired, all are reported when an error is returned, and all but the last
        when nil is. */
    lemma Accounts()
      requires Valid()
      ensures rpc.pc.Returned? ==>
                && |rpc.reports| == |rpc.acquires| - (if rpc.pc.err.None? then 1 else 0)
                && rpc.reports == rpc.acquires[..|rpc.reports|]
    {
      FailuresAreAccounted(RpcCall(), origin, events);
    }

    ghost method Record(e: Event<Connection>, before: Sys<Connection>)
      requires resolver.Valid() && before == Exec(RpcCall(), Start(origin), events)
      requires State() == Next(RpcCall(), before, e)
      modifies this`events
      ensures Valid() && events == old(events) + [e]
    {
      hide ConnectionResolver.Valid, Exec, Next;
      ExecSnoc(RpcCall(), Start(origin), events, e);
      events := events + [e];
    }

    // ---------- the others ----------

    /** The forwarders and other users of the pool run for a while. */
    method Yield()
      requires Valid()
      modifies this, resolver.Reach(route.cluster)
      ensures Valid() && fresh(resolver.Reach(route.cluster) - old(resolver.Reach(route.cluster)))
      ensures HandlerUntouched(old(rpc), rpc) && Others(old(events), events) && patience == old(patience)
    {
      hide ConnectionResolver.Valid, Exec, Next;
      var n: nat :| true;
      for k := 0 to n
        invariant Valid() && fresh(resolver.Reach(route.cluster) - old(resolver.Reach(route.cluster)))
        invariant HandlerUntouched(old(rpc), rpc) && Others(old(events), events) && patience == old(patience)
      {
        if * {
          RunForwarder();
        } else {
          UsePool();
        }
      }
    }

    /** Waits at the channel of the last round's forwarder and, in the first round, also at that of the
        client's, until one of them holds an error or patience is at an end. */
    method Wait(both: bool)
      requires Valid() && rpc.streams != []
      modifies this, resolver.Reach(route.cluster)
      ensures Valid() && fresh(resolver.Reach(route.cluster) - old(resolver.Reach(route.cluster)))
      ensures HandlerUntouched(old(rpc), rpc)
      ensures Last(rpc.streams).slot.Some? || (both && rpc.upSlot.Some?) || patience == 0
    {
      hide ConnectionResolver.Valid, Exec, Next, Others;
      Yield();
      while Last(rpc.streams).slot.None? && (both ==> rpc.upSlot.None?) && patience > 0
        invariant Valid() && fresh(resolver.Reach(route.cluster) - old(resolver.Reach(route.cluster)))
        invariant HandlerUntouched(old(rpc), rpc) && rpc.streams != []
        decreases patience
      {
        patience := patience - 1;
        Yield();
      }
    }

    method RunForwarder()
      requires Valid()
      modifies this`rpc, this`events
      ensures Valid() && HandlerUntouched(old(rpc), rpc) && Others(old(events), events)
    {
      hide ConnectionResolver.Valid, Exec, StepUp, StepDown;
      ghost var before := State();
      var e: Event<Connection> :| true;
      if IsUp(e) && rpc.streams != [] {
        UpTouches(rpc, e);
        rpc := StepUp(rpc, e);
        Record(e, before);
      } else if IsDown(e) && e.round < |rpc.streams| {
        DownTouches(rpc, e, e.round);
        rpc := StepDown(rpc, e, e.round);
        Record(e, before);
      }
    }

    method UsePool()
      requires Valid()
      modifies this`events, resolver.Reach(route.cluster)
      ensures Valid() && fresh(resolver.Reach(route.cluster) - old(resolver.Reach(route.cluster)))
      ensures Others(old(events), events)
    {
      hide ConnectionResolver.Valid, Exec, Do;
      if route.cluster in resolver.pools {
        ghost var before := State();
        ghost var step := resolver.UsedByOthers(route.cluster);
        Record(Other(step), before);
      }
    }

    // ---------- opening a stream ----------

    /** The connection of one attempt. */
    method Acquire(ghost attempt: nat, ghost trigger: Trigger) returns (lease: Option<Lease>, err: Option<Error>)
      requires Valid() && rpc.pc == Opening(attempt, trigger) && (retryable ==> attempt < retryCount)
      modifies this, resolver.Reach(route.cluster)
      ensures Valid() && fresh(resolver.Reach(route.cluster) - old(resolver.Reach(route.cluster)))
      ensures |rpc.streams| == |old(rpc).streams| && rpc.firstMsg == old(rpc).firstMsg
      ensures OneMore(old(events), events) && Last(events).Acquire? && old(events) <= events
      ensures lease.None? <==> err.Some?
      ensures if lease.None? then rpc.pc == Returned(err)
              else rpc.pc == Connecting(attempt, trigger) && rpc.acquires != [] && Last(rpc.acquires) == lease.value
    {
      hide ConnectionResolver.Valid, Exec, Proxy.GetConnection;
      Yield();
      ghost var before := State();
      var conn;
      ghost var dials;
      conn, lease, err, dials := resolver.GetConnection(route, md);
      if lease.None? {
        rpc := Return(rpc, err);
      } else {
        rpc := rpc.(acquires := rpc.acquires + [lease.value], pc := Connecting(rpc.pc.attempt, rpc.pc.trigger));
      }
      OthersAndOne(old(events), events, Event.Acquire(dials));
      Record(Event.Acquire(dials), before);
    }

    /** NewStream on the connection in hand. */
    method NewStream(ghost attempt: nat, ghost trigger: Trigger) returns (err: Option<Error>)
      requires Valid() && rpc.pc == Connecting(attempt, trigger) && rpc.acquires != []
      modifies this, resolver.Reach(route.cluster)
      ensures Valid() && fresh(resolver.Reach(route.cluster) - old(resolver.Reach(route.cluster)))
      ensures rpc.firstMsg == old(rpc).firstMsg && rpc.acquires == old(rpc).acquires && old(events) <= events
      ensures if err.Some? then Others(old(events), events) else OneMore(old(events), events) && Last(events).OpenOk?
      ensures if err.Some? then |rpc.streams| == |old(rpc).streams| && rpc.pc == Connecting(attempt, trigger)
              else |rpc.streams| == |old(rpc).streams| + 1
                   && rpc.pc == if |old(rpc).streams| == 0 then Selecting(0) else Replaying
    {
      hide ConnectionResolver.Valid, Exec;
      Yield();
      err :| true;
      if err.None? {
        ghost var before := State();
        rpc := DoOpenOk(rpc);
        OthersAndOne(old(events), events, OpenOk);
        Record(OpenOk, before);
      }
    }

    /** `OnBackendFailure` for the connection in hand, and cancelling its stream. */
    method ReportFailure(lease: Lease)
      requires resolver.Valid() && rpc.acquires != [] && lease == Last(rpc.acquires)
      modifies this`rpc, resolver.Reach(route.cluster)
      ensures resolver.Valid() && resolver.Reach(route.cluster) == old(resolver.Reach(route.cluster))
      ensures State() == Report(RpcCall(), old(State()))
    {
      hide ConnectionResolver.Valid, Exec, PoolModel.OnBackendFailure;
      resolver.OnBackendFailure(route, lease.key, lease.id);
      rpc := rpc.(reports := rpc.reports + [lease], cancelled := rpc.cancelled + {|rpc.acquires| - 1});
    }

    /** NewStream failed: the attempt is reported, and it was the last one or another follows. */
    method GiveUpAttempt(lease: Lease, err: Error, last: bool, ghost attempt: nat, ghost trigger: Trigger)
      requires Valid() && rpc.pc == Connecting(attempt, trigger) && rpc.acquires != [] && lease == Last(rpc.acquires)
      requires last <==> !retryable || attempt == retryCount - 1
      modifies this, resolver.Reach(route.cluster)
      ensures Valid() && fresh(resolver.Reach(route.cluster) - old(resolver.Reach(route.cluster)))
      ensures |rpc.streams| == |old(rpc).streams| && rpc.firstMsg == old(rpc).firstMsg
      ensures rpc.pc == if last then Returned(Some(err)) else Opening(attempt + 1, trigger)
      ensures events == old(events) + [OpenFailed(err)]
    {
      hide ConnectionResolver.Valid, Exec, PoolModel.OnBackendFailure;
      ghost var before := State();
      ReportFailure(lease);
      rpc := rpc.(newStreams := rpc.newStreams + 1);
      if last {
        rpc := Return(rpc, Some(err));
      } else {
        rpc := rpc.(pc := Opening(rpc.pc.attempt + 1, rpc.pc.trigger));
      }
      Record(OpenFailed(err), before);
    }

    /** `openBackendStream`: a stream on a new connection, or the error to return. */
    method OpenBackendStream(ghost trigger: Trigger) returns (state: Option<Lease>, err: Option<Error>)
      requires Valid() && rpc.pc == Opening(0, trigger)
      modifies this, resolver.Reach(route.cluster)
      ensures Valid() && fresh(resolver.Reach(route.cluster) - old(resolver.Reach(route.cluster)))
      ensures rpc.firstMsg == old(rpc).firstMsg && old(events) <= events
      ensures state.None? <==> err.Some?
      ensures if state.None? then rpc.pc == Returned(err)
              else |rpc.streams| == |old(rpc).streams| + 1 && rpc.acquires != [] && Last(rpc.acquires) == state.value
                   && rpc.pc == if |old(rpc).streams| == 0 then Selecting(0) else Replaying
    {
      hide ConnectionResolver.Valid, Exec, Valid, Others, OneMore, Begins;
      if retryable {
        var attempt := 0;
        while attempt < retryCount
          invariant Valid() && fresh(resolver.Reach(route.cluster) - old(resolver.Reach(route.cluster)))
          invariant rpc.pc == Opening(attempt, trigger) && old(events) <= events
          invariant |rpc.streams| == |old(rpc).streams| && rpc.firstMsg == old(rpc).firstMsg
          invariant attempt == 0 || attempt < retryCount
        {
          state, err := Acquire(attempt, trigger);
          if err.Some? {
            return None, err;
          }
          var newStreamErr := NewStream(attempt, trigger);
          if newStreamErr.None? {
            return state, None;
          }
          GiveUpAttempt(state.value, newStreamErr.value, attempt == retryCount - 1, attempt, trigger);
          if attempt == retryCount - 1 {
            return None, newStreamErr;
          }
          attempt := attempt + 1;
        }
        NoAttemptLeft();
        return None, Some(UNAVAILABLE);
      }
      state, err := Acquire(0, trigger);
      if err.Some? {
        return None, err;
      }
      var newStreamErr := NewStream(0, trigger);
      if newStreamErr.Some? {
        GiveUpAttempt(state.value, newStreamErr.value, true, 0, trigger);
        return None, newStreamErr;
      }
      return state, None;
    }

    /** The loop of attempts ended, which it does only when none is allowed. */
    method NoAttemptLeft()
      requires Valid() && rpc.pc.Opening? && retryable && rpc.pc.attempt >= retryCount
      modifies this
      ensures Valid() && rpc.pc == Returned(Some(UNAVAILABLE)) && rpc.firstMsg == old(rpc).firstMsg
      ensures events == old(events) + [Event.Acquire([])]
    {
      hide ConnectionResolver.Valid, Exec;
      ghost var before := State();
      rpc := Return(rpc, Some(UNAVAILABLE));
      Record(Event.Acquire([]), before);
    }

    // ---------- the end of a round ----------

    /** The non-blocking receive of the first message. */
    method PollFirstMsg(firstClientMsg: Option<Msg>) returns (msg: Option<Msg>)
      requires firstClientMsg == rpc.firstMsg
      modifies this`rpc
      ensures rpc == PollFirst(old(rpc)) && msg == rpc.firstMsg
    {
      msg := firstClientMsg;
      if rpc.firstSlot.Some? {
        msg := rpc.firstSlot;
        rpc := rpc.(firstMsg := msg, firstSlot := None);
      }
    }

    /** A round failed: its connection is reported and cancelled, and either the error is final or the
        next stream is opened. */
    method FailOver(state: Lease, err: Error, trigger: Trigger, stop: bool, transferAttempt: nat,
                    ghost e: Event<Connection>, ghost before: Sys<Connection>)
      returns (next: Option<Lease>, openErr: Option<Error>)
      requires resolver.Valid() && before == Exec(RpcCall(), Start(origin), events)
      requires transferAttempt == |rpc.streams| - 1 && rpc.acquires != [] && state == Last(rpc.acquires)
      requires Next(RpcCall(), before, e) == DoFail(RpcCall(), State(), err, trigger, stop)
      modifies this, resolver.Reach(route.cluster)
      ensures Valid() && fresh(resolver.Reach(route.cluster) - old(resolver.Reach(route.cluster)))
      ensures next.Some? ==> retryable && transferAttempt < retryCount - 1
      ensures old(events) + [e] <= events
      ensures rpc.firstMsg == old(rpc).firstMsg
      ensures next.None? <==> openErr.Some?
      ensures if next.None? then rpc.pc == Returned(openErr)
              else |rpc.streams| == transferAttempt + 2 && rpc.acquires != [] && Last(rpc.acquires) == next.value
                   && rpc.pc == Replaying
    {
      hide ConnectionResolver.Valid, Exec, Next, PoolModel.OnBackendFailure;
      ReportFailure(state);
      if !retryable || stop || transferAttempt >= retryCount - 1 {
        rpc := Return(rpc, Some(err));
        Record(e, before);
        return None, Some(err);
      }
      rpc := rpc.(pc := Opening(0, trigger));
      Record(e, before);
      next, openErr := OpenBackendStream(trigger);
    }

    /** Sends the first message to the new backend and closes the sending side; then its forwarder
        starts. */
    method ReplayFirst(state: Lease, firstClientMsg: Option<Msg>) returns (err: Option<Error>)
      requires Valid() && rpc.pc.Replaying? && rpc.streams != [] && rpc.acquires != []
      requires state == Last(rpc.acquires) && firstClientMsg == rpc.firstMsg
      modifies this, resolver.Reach(route.cluster)
      ensures Valid() && fresh(resolver.Reach(route.cluster) - old(resolver.Reach(route.cluster)))
      ensures OneMore(old(events), events) && Last(events).Replay?
      ensures if err.Some? then rpc.pc == Returned(err)
              else rpc.pc == Awaiting && |rpc.streams| == |old(rpc).streams| && rpc.acquires == old(rpc).acquires
                   && rpc.firstMsg == old(rpc).firstMsg
    {
      hide ConnectionResolver.Valid, Exec, PoolModel.OnBackendFailure;
      Yield();
      ghost var before := State();
      if firstClientMsg.None? {
        rpc := Return(rpc, Some(UNAVAILABLE));
        OthersAndOne(old(events), events, Replay(None));
        Record(Replay(None), before);
        return Some(UNAVAILABLE);
      }
      var sendErr: Option<Error> :| true;
      if sendErr.Some? {
        ReportFailure(state);
        rpc := Return(rpc, sendErr);
        OthersAndOne(old(events), events, Replay(sendErr));
        Record(Replay(sendErr), before);
        return sendErr;
      }
      var r := |rpc.streams| - 1;
      var stream := rpc.streams[r];
      stream := stream.(sent := stream.sent + [firstClientMsg.value], halfClosed := true, down := DownReceiving);
      rpc := rpc.(streams := rpc.streams[r := stream], pc := Awaiting);
      OthersAndOne(old(events), events, Replay(None));
      Record(Replay(None), before);
      return None;
    }

    // ---------- the handler ----------

    /** What a round comes to. */
    method TakeUpErr(state: Lease, firstClientMsg: Option<Msg>, i: nat)
      returns (goOn: bool, next: Option<Lease>, msg: Option<Msg>, err: Option<Error>)
      requires Valid() && rpc.pc == Selecting(i) && rpc.upSlot.Some? && |rpc.streams| == 1 && rpc.acquires != []
      requires state == Last(rpc.acquires) && firstClientMsg == rpc.firstMsg
      modifies this, resolver.Reach(route.cluster)
      ensures Valid() && fresh(resolver.Reach(route.cluster) - old(resolver.Reach(route.cluster)))
      ensures Begins(old(events), events) && events[|old(events)|].TakeUp?
      ensures goOn ==> |events| == |old(events)| + 1
      ensures goOn ==> |rpc.streams| == 1 && rpc.acquires == old(rpc).acquires
                       && msg == rpc.firstMsg == firstClientMsg
                       && rpc.pc == if i + 1 < 2 then Selecting(i + 1) else Returned(Some(UNEXPECTED))
      ensures !goOn && next.None? ==> rpc.pc == Returned(err)
      ensures !goOn && next.Some? ==>
                && retryable && retryCount > 1 && |rpc.streams| == 2 && rpc.pc == Replaying && msg == rpc.firstMsg
                && rpc.acquires != [] && Last(rpc.acquires) == next.value
    {
      hide ConnectionResolver.Valid, Exec, PoolModel.OnBackendFailure, DoFail;
      ghost var before := State();
      var s2cErr := rpc.upSlot.value;
      rpc := rpc.(upSlot := None);
      if s2cErr == EOF {
        CloseSend(before, i);
        return true, None, firstClientMsg, None;
      }
      msg := PollFirstMsg(firstClientMsg);
      var ctxDone: bool :| true;
      next, err := FailOver(state, s2cErr, ByUp, msg.None? || ctxDone, 0, TakeUp(ctxDone), before);
      goOn := false;
    }

    /** The client's stream ended: the sending side of the backend's is closed. */
    method CloseSend(ghost before: Sys<Connection>, i: nat)
      requires resolver.Valid() && before == Exec(RpcCall(), Start(origin), events)
      requires before.rpc.pc == Selecting(i) && before.rpc.upSlot == Some(EOF) && before.rpc.acquires != []
      requires |rpc.streams| == 1 && State() == before.(rpc := before.rpc.(upSlot := None))
      modifies this`rpc, this`events
      ensures Valid() && |rpc.streams| == 1 && rpc.acquires == old(rpc).acquires && rpc.firstMsg == old(rpc).firstMsg
      ensures rpc.pc == if i + 1 < 2 then Selecting(i + 1) else Returned(Some(UNEXPECTED))
      ensures events == old(events) + [TakeUp(false)]
    {
      hide ConnectionResolver.Valid, Exec, DoFail;
      rpc := rpc.(streams := rpc.streams[0 := rpc.streams[0].(halfClosed := true)]);
      rpc := if i + 1 < 2 then rpc.(pc := Selecting(i + 1)) else Return(rpc, Some(UNEXPECTED));
      Record(TakeUp(false), before);
    }

    /** The backend's stream ended: the RPC is done. */
    method Succeed(ghost before: Sys<Connection>, ghost ctxDone: bool)
      requires resolver.Valid() && before == Exec(RpcCall(), Start(origin), events)
      requires HandlerEnabled<Connection>(before.rpc, TakeDown(ctxDone)) && Last(before.rpc.streams).slot == Some(EOF)
      requires var r := |before.rpc.streams| - 1;
        State() == before.(rpc := before.rpc.(trailers := before.rpc.trailers + [r],
                     streams := before.rpc.streams[r := before.rpc.streams[r].(slot := None)]))
      modifies this`rpc, this`events
      ensures Valid() && rpc.pc == Returned(None) && events == old(events) + [TakeDown(ctxDone)]
    {
      hide ConnectionResolver.Valid, Exec, DoFail;
      rpc := Return(rpc, None);
      Record(TakeDown(ctxDone), before);
    }

    method TakeDownErr(state: Lease, firstClientMsg: Option<Msg>, transferAttempt: nat)
      returns (next: Option<Lease>, msg: Option<Msg>, err: Option<Error>)
      requires Valid() && transferAttempt == |rpc.streams| - 1 && rpc.acquires != []
      requires if transferAttempt == 0 then rpc.pc.Selecting? else rpc.pc.Awaiting?
      requires Last(rpc.streams).slot.Some? && state == Last(rpc.acquires) && firstClientMsg == rpc.firstMsg
      modifies this, resolver.Reach(route.cluster)
      ensures Valid() && fresh(resolver.Reach(route.cluster) - old(resolver.Reach(route.cluster)))
      ensures Begins(old(events), events) && events[|old(events)|].TakeDown?
      ensures next.None? ==> rpc.pc == Returned(err)
      ensures next.Some? ==>
                && retryable && transferAttempt < retryCount - 1 && |rpc.streams| == transferAttempt + 2
                && rpc.pc == Replaying && msg == rpc.firstMsg && rpc.acquires != [] && Last(rpc.acquires) == next.value
    {
      hide ConnectionResolver.Valid, Exec, PoolModel.OnBackendFailure, DoFail;
      ghost var before := State();
      var r := |rpc.streams| - 1;
      var c2sErr := rpc.streams[r].slot.value;
      rpc := rpc.(streams := rpc.streams[r := rpc.streams[r].(slot := None)], trailers := rpc.trailers + [r]);
      msg := firstClientMsg;
      var ctxDone: bool :| true;
      if c2sErr == EOF {
        Succeed(before, ctxDone);
        return None, msg, None;
      }
      if transferAttempt == 0 {
        msg := PollFirstMsg(firstClientMsg);
      }
      next, err := FailOver(state, c2sErr, ByDown, (transferAttempt == 0 && msg.None?) || ctxDone, transferAttempt,
                            TakeDown(ctxDone), before);
    }

    /** The first round: the loop over the select, which waits, or ends with the error to return, or with
        the next stream. */
    method ForwardFirst(state: Lease, firstClientMsg: Option<Msg>)
      returns (waits: bool, next: Option<Lease>, msg: Option<Msg>, err: Option<Error>)
      requires Valid() && rpc.pc == Selecting(0) && |rpc.streams| == 1 && rpc.acquires != []
      requires state == Last(rpc.acquires) && firstClientMsg == rpc.firstMsg
      modifies this, resolver.Reach(route.cluster)
      ensures Valid() && fresh(resolver.Reach(route.cluster) - old(resolver.Reach(route.cluster)))
      ensures waits ==>
                && rpc.pc.Selecting? && |rpc.streams| == 1 && rpc.streams[0].slot.None? && rpc.upSlot.None?
                && patience == 0
      ensures !waits && next.None? ==> rpc.pc == Returned(err)
      ensures !waits && next.Some? ==>
                && retryable && retryCount > 1 && |rpc.streams| == 2 && rpc.pc == Replaying && msg == rpc.firstMsg
                && rpc.acquires != [] && Last(rpc.acquires) == next.value
    {
      hide ConnectionResolver.Valid, Exec, Valid, Others, OneMore, Begins;
      msg := firstClientMsg;
      for i := 0 to 2
        invariant Valid() && fresh(resolver.Reach(route.cluster) - old(resolver.Reach(route.cluster)))
        invariant |rpc.streams| == 1 && rpc.acquires != [] && state == Last(rpc.acquires) && msg == rpc.firstMsg
        invariant rpc.pc == if i < 2 then Selecting(i) else Returned(Some(UNEXPECTED))
      {
        Wait(true);
        var s2c, c2s := rpc.upSlot.Some?, rpc.streams[0].slot.Some?;
        if !s2c && !c2s {
          return true, None, msg, None;
        }
        var first: bool :| true;
        if s2c && (first || !c2s) {
          var goOn;
          goOn, next, msg, err := TakeUpErr(state, msg, i);
          if goOn {
            continue;
          }
          return false, next, msg, err;
        }
        next, msg, err := TakeDownErr(state, msg, 0);
        return false, next, msg, err;
      }
      return false, None, msg, Some(UNEXPECTED);
    }

    /** `Handler` from the first `openBackendStream` on: what it returns, or None when it waits for a
        stream that does not end in all that time. */
    method Handler() returns (result: Option<Option<Error>>)
      requires Valid() && rpc == StartRpc()
      modifies this, resolver.Reach(route.cluster)
      ensures Valid() && fresh(resolver.Reach(route.cluster) - old(resolver.Reach(route.cluster)))
      ensures match result
              case Some(err) => rpc.pc == Returned(err)
              case None =>
                && (rpc.pc.Selecting? || rpc.pc.Awaiting?) && rpc.streams != [] && Last(rpc.streams).slot.None?
                && (rpc.pc.Selecting? ==> rpc.upSlot.None?) && patience == 0
    {
      hide ConnectionResolver.Valid, Exec, Valid, Others, OneMore, Begins;
      var stream, openErr := OpenBackendStream(First);
      if openErr.Some? {
        return Some(openErr);
      }
      var state := stream.value;
      var firstClientMsg: Option<Msg> := None;
      var transferAttempt := 0;
      while true
        invariant Valid() && fresh(resolver.Reach(route.cluster) - old(resolver.Reach(route.cluster)))
        invariant transferAttempt == |rpc.streams| - 1 && rpc.acquires != [] && state == Last(rpc.acquires)
        invariant rpc.pc == if transferAttempt == 0 then Selecting(0) else Replaying
        invariant firstClientMsg == rpc.firstMsg
        decreases retryCount - transferAttempt
      {
        var next: Option<Lease>, err: Option<Error> := None, None;
        if transferAttempt > 0 {
          var sendErr := ReplayFirst(state, firstClientMsg);
          if sendErr.Some? {
            return Some(sendErr);
          }
          Wait(false);
          if rpc.streams[transferAttempt].slot.None? {
            return None;
          }
          next, firstClientMsg, err := TakeDownErr(state, firstClientMsg, transferAttempt);
        } else {
          var waits;
          waits, next, firstClientMsg, err := ForwardFirst(state, firstClientMsg);
          if waits {
            return None;
          }
        }
        if next.None? {
          return Some(err);
        }
        state := next.value;
        transferAttempt := transferAttempt + 1;
      }
    }
  }

  const NO_METHOD := Status(Internal, "missing grpc method in stream context")
  const NOT_ROUTED := Status(Unimplemented, "method not routed")

  class TransparentProxy {
    const router: RouteMatcher
    const resolver: ConnectionResolver
    const headers: ConfigurableAuthProcessor
    const retryCount: int
    const dynamicClusters: set<string>

    /** Router and authorization are built from the same configuration, by the same sort. */
    ghost predicate Wired() {
      && router.Valid() && headers.Valid()
      && headers.routes == router.config.routes && headers.sorter == router.sorter
    }

    ghost predicate Valid()
      reads resolver.pools.Values, set p, c | p in resolver.pools.Values && c in p.made :: c
    {
      Wired() && resolver.Valid()
    }

    constructor (router: RouteMatcher, resolver: ConnectionResolver, headers: ConfigurableAuthProcessor,
                 retryCount: int, dynamicClusters: set<string>)
      requires router.Valid() && headers.Valid() && resolver.Valid()
      requires headers.routes == router.config.routes && headers.sorter == router.sorter
      ensures Valid()
    {
      this.router, this.resolver, this.headers := router, resolver, headers;
      this.retryCount, this.dynamicClusters := retryCount, dynamicClusters;
    }

    /** The route of a method requires authorization and the request does not carry it. */
    ghost predicate Unauthorized(md: Metadata, route: Route) {
      route.authorization == AUTHORIZATION_REQUIRED && !Authenticated(headers.jwtService, md)
    }

    /** The first part of `Handler`: the route of a request and its outgoing headers, or the error. A
        request is let through exactly if it is routed and carries what the route taken requires. */
    method Admit(fullMethodName: Option<string>, md: Metadata) returns (route: Option<Route>, err: Option<Error>)
      requires Wired()
      ensures route.Some? <==> err.None?
      ensures fullMethodName.None? ==> err == Some(NO_METHOD)
      ensures fullMethodName.Some? ==>
                var routed := Lookup(router.routes, router.def, fullMethodName.value);
                && (routed.None? ==> err == Some(NOT_ROUTED))
                && (route.Some? ==> route == routed)
                && (route.Some? <==> routed.Some? && !Unauthorized(md, routed.value))
                && (routed.Some? && route.None? ==> RefusedWith(headers.jwtService, md, err.value))
    {
      if fullMethodName.None? {
        return None, Some(NO_METHOD);
      }
      route := router.Match(fullMethodName.value);
      if route.None? {
        return None, Some(NOT_ROUTED);
      }
      var outMD := headers.Process(md, fullMethodName.value);
      RouterAndAuthAgree(router.config, router.sorter, fullMethodName.value);
      if outMD.Err? {
        return None, Some(outMD.err);
      }
      return route, None;
    }

    /** `Handler`. A request is served exactly if it is routed and carries what its route requires; any
        other touches no pool and is answered with what it lacks. Of the connections acquired for a request
        that is served, all but one are reported exactly if the answer is nil, and all of them
        otherwise. */
    method Handler(fullMethodName: Option<string>, md: Metadata, patience: nat)
      returns (result: Option<Option<Error>>, exchange: Option<Exchange>)
      requires Valid()
      modifies resolver.pools.Values, set p, c | p in resolver.pools.Values && c in p.made :: c
      ensures exchange.Some? <==>
                && fullMethodName.Some? && Lookup(router.routes, router.def, fullMethodName.value).Some?
                && !Unauthorized(md, Lookup(router.routes, router.def, fullMethodName.value).value)
      ensures exchange.None? ==>
                && (forall p :: p in resolver.pools.Values ==> p.view == old(p.view))
                && result.Some? && result.value.Some?
                && if fullMethodName.None? then result.value == Some(NO_METHOD)
                   else if Lookup(router.routes, router.def, fullMethodName.value).None? then
                     result.value == Some(NOT_ROUTED)
                   else RefusedWith(headers.jwtService, md, result.value.value)
      ensures exchange.Some? ==>
                && Lookup(router.routes, router.def, fullMethodName.value) == Some(exchange.value.route)
                && exchange.value.resolver == resolver && exchange.value.md == md
                && exchange.value.retryCount == retryCount
                && exchange.value.retryable == (exchange.value.route.cluster in dynamicClusters)
                && exchange.value.Valid()
      ensures exchange.Some? ==>
                exchange.value.origin ==
                old(resolver.View(Lookup(router.routes, router.def, fullMethodName.value).value.cluster))
      ensures exchange.Some? && result.Some? ==>
                var rpc := exchange.value.rpc;
                && rpc.pc == Returned(result.value)
                && |rpc.reports| == |rpc.acquires| - (if result.value.None? then 1 else 0)
                && rpc.reports == rpc.acquires[..|rpc.reports|]
    {
      hide ConnectionResolver.Valid, RouteMatcher.Valid, ConfigurableAuthProcessor.Valid, Exec, Exchange.Valid;
      hide Lookup, Unauthorized, RefusedWith;
      var route, err := Admit(fullMethodName, md);
      if err.Some? {
        return Some(err), None;
      }
      var x := new Exchange(resolver, route.value, md, route.value.cluster in dynamicClusters, retryCount, patience);
      result := x.Handler();
      x.Accounts();
      exchange := Some(x);
    }
  }
}
