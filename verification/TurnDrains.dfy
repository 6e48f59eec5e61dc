/** Only the pulling of events takes events from the client: no other call changes what was drained. */
module TurnDrains {
  import opened Bytes
  import opened Addresses
  import opened StunMessages
  import opened StunBuilder
  import opened TurnRequests
  import opened TurnState
  import opened TurnSafety

  lemma CompleteDrains(s: Core, operation: Operation, status: Status, code: nat)
    ensures Complete(s, operation, status, code).drained == s.drained
    ensures DestroyAllocation(s, operation, status, code).drained == s.drained
    ensures DestroyAfterRebindExhausted(s).drained == s.drained
  {
    hide RelayOf;
  }

  lemma FailDrains(s: Core, operation: Operation, status: Status, code: nat, now: time)
    ensures CompleteFailure(s, operation, status, code, now).drained == s.drained
  {
    CompleteDrains(s, operation, status, code);
    hide Complete;
    hide DestroyAllocation;
    hide RetryDelay;
    if Retryable(s, operation, now) {
      var r := ScheduleRetry(Complete(s, operation, status, code), operation, now);
      CompleteDrains(r.core, operation, status, code);
      hide DestroyAfterRebindExhausted;
    }
  }

  lemma StartDrains(c: Config, s: Core, operation: Operation, authenticated: bool, retries: nat, draw: Draw)
    ensures StartOperation(c, s, operation, authenticated, retries, draw).core.drained == s.drained
  {
    StartStays(c, s, operation, authenticated, retries, draw);
    hide StartOperation;
  }

  lemma PushDrains(s: Core, e: Event)
    ensures PushEvent(s, e).drained == s.drained
  {
  }

  lemma SetDrains(s: Core, state: State)
    ensures SetState(s, state).drained == s.drained
  {
  }

  lemma SuccessDrains(c: Config, s: Core, operation: Operation, r: Response, now: time, draw: Draw)
    ensures CompleteSuccess(c, s, operation, r, now, draw).core.drained == s.drained
  {
    hide RefreshDeadline;
    hide Complete;
    hide SetState;
    hide PushEvent;
    hide StartOperation;
    match operation
    case Allocate =>
      if UsableRelay(c, r.relay) && r.lifetime != Some(0) {
        var granted := Allocated(c, s, r.relay.value, r.lifetime, now);
        var e := RelayAddress(FromSocketAddr(r.relay.value));
        PushDrains(granted, e);
        var announced := PushEvent(granted, e);
        SetDrains(announced, Deallocating);
        SetDrains(announced, Ready);
        StartDrains(c, SetState(announced, Deallocating), Deallocate, true, 0, draw);
        CompleteDrains(SetState(announced, Ready), Allocate, NoError, 0);
      }
    case Refresh => CompleteDrains(Granted(c, s, r.lifetime, now), Refresh, NoError, 0);
    case Deallocate =>
      var u := s.(relay := None, allocationRefresh := None, allocationExpires := None);
      CompleteDrains(u, Deallocate, NoError, 0);
      SetDrains(Complete(u, Deallocate, NoError, 0), Deallocated);
    case Permission => CompleteDrains(s.(permissionFailures := 0), Permission, NoError, 0);
    case Channel =>
      var u := s.(channel := Some(CHANNEL_NUMBER), channelFailures := 0);
      var e := ChannelBound(CHANNEL_NUMBER, FromSocketAddr(c.peer));
      PushDrains(u, e);
      CompleteDrains(PushEvent(u, e), Channel, NoError, 0);
  }

  lemma ErrorDrains(c: Config, s: Core, p: Pending, r: Response, now: time, draw: Draw)
    requires !r.success
    ensures HandleError(c, s, p, r, now, draw).drained == s.drained
  {
    hide StartOperation;
    hide CompleteFailure;
    hide DestroyAllocation;
    hide PushEvent;
    var method_ := MethodFor(p.operation);
    var code := if r.code.Some? then r.code.value else 0;
    var odd, e := ResponseError(method_, Protocol, 0, s.state), ResponseError(method_, NoError, code, s.state);
    PushDrains(s, odd);
    PushDrains(s, e);
    FailDrains(PushEvent(s, odd), p.operation, Protocol, 0, now);
    FailDrains(PushEvent(s, e), p.operation, Protocol, code, now);
    CompleteDrains(PushEvent(s, e), p.operation, Protocol, code);
    if Challenges(c, s, p, r) {
      var challenged := SetAuth(c, s, ChallengeRealm(s, r).value, r.nonce.value);
      StartDrains(c, challenged, p.operation, true, p.nonceRetries + 1, draw);
      var retried := StartOperation(c, challenged, p.operation, true, p.nonceRetries + 1, draw).core;
      PushDrains(retried, e);
      FailDrains(PushEvent(retried, e), p.operation, Protocol, code, now);
    }
  }

  lemma InputDrains(c: Config, s: Core, packet: bytes, now: time, draw: Draw)
    ensures InputStun(c, s, packet, now, draw).core.drained == s.drained
  {
    hide HandleResponse;
    hide VerifyIntegrity;
    hide ReadResponse;
    var decoded := Decode(packet);
    if decoded.Ok? {
      var message := decoded.value;
      hide Decode;
      ResponseDrains(c, s, ReadResponse(c.crypto, message), VerifyIntegrity(c.crypto, message, s.key), now,
                     draw);
    }
  }

  lemma ResponseDrains(c: Config, s: Core, r: Response, verified: bool, now: time, draw: Draw)
    ensures HandleResponse(c, s, r, verified, now, draw).core.drained == s.drained
  {
    hide HandleError;
    hide CompleteSuccess;
    hide CompleteFailure;
    hide Match;
    hide PushEvent;
    var found := Match(s.pending, r);
    if found.Some? {
      var p, taken := s.pending[found.value], TakePending(s, found.value);
      if Unverified(p, r, verified) {
        PushDrains(s, ResponseError(r.method_, Authentication, if r.code.Some? then r.code.value else 0,
                                    s.state));
      } else if !r.success {
        ErrorDrains(c, taken, p, r, now, draw);
      } else {
        SuccessDrains(c, taken, p.operation, r, now, draw);
        FailDrains(taken, p.operation, Authentication, 0, now);
        FailDrains(CompleteSuccess(c, taken, p.operation, r, now, draw).core, p.operation, Protocol, 0, now);
      }
    }
  }

  lemma {:induction false} ExpireDrains(c: Config, s: Core, now: time, index: nat)
    ensures ExpireFrom(c, s, now, index).drained == s.drained
    decreases |s.pending| - index
  {
    hide CompleteFailure;
    hide QueuePacket;
    hide Retransmit;
    if index < |s.pending| {
      var p := s.pending[index];
      if now < p.nextAttempt {
        ExpireDrains(c, s, now, index + 1);
      } else if p.transmissions >= MAX_TRANSMISSIONS || c.transport == Stream {
        FailDrains(TakePending(s, index), p.operation, Timeout, 0, now);
        ExpireDrains(c, CompleteFailure(TakePending(s, index), p.operation, Timeout, 0, now), now, index);
      } else {
        QueueStays(s, p.packet);
        var t := QueuePacket(s, p.packet);
        ExpireDrains(c, t.(pending := t.pending[index := Retransmit(p, now)]), now, index + 1);
      }
    }
  }

  lemma PollsDrain(c: Config, s: Core, now: time, due: bool, draw: Draw, started: bool)
    ensures PollRefresh(c, s, now, draw).core.drained == s.drained
    ensures PollPermission(c, s, due, draw).core.drained == s.drained
    ensures PollChannel(c, s, due, draw).core.drained == s.drained
    ensures PollKeepalive(c, s, now, started).drained == s.drained
  {
    hide StartOperation;
    hide KeepalivePacket;
    hide QueuePacket;
    StartDrains(c, s.(allocationRefresh := None), Refresh, true, 0, draw);
    StartDrains(c, s.(permissionRetry := None), Permission, true, 0, draw);
    StartDrains(c, s.(channelRetry := None), Channel, true, 0, draw);
    var t := s.(keepalive := Some(now + c.profile.keepaliveInterval));
    if t.channel.Some? {
      QueueStays(t, KeepalivePacket(t.channel.value));
    }
  }

  lemma MaintenanceDrains(c: Config, s: Core, now: time, draws: PollDraws)
    ensures PollMaintenance(c, s, now, draws).core.drained == s.drained
  {
    hide PollRefresh;
    hide PollPermission;
    hide PollChannel;
    hide PollKeepalive;
    hide Due;
    var maintenance := Due(s.maintenanceRefresh, now);
    PollsDrain(c, s, now, false, draws.refresh, false);
    var a := PollRefresh(c, s, now, draws.refresh);
    var rescheduled := if maintenance
                       then a.core.(maintenanceRefresh := Some(now + c.profile.maintenanceRefresh))
                       else a.core;
    var permission := maintenance || Due(s.permissionRetry, now);
    PollsDrain(c, rescheduled, now, permission, draws.permission, false);
    var b := PollPermission(c, rescheduled, permission, draws.permission);
    var channel := maintenance || Due(s.channelRetry, now);
    PollsDrain(c, b.core, now, channel, draws.channel, false);
    var d := PollChannel(c, b.core, channel, draws.channel);
    PollsDrain(c, d.core, now, false, draws.channel, a.any || b.any || d.any);
  }

  lemma PollDrains(c: Config, s: Core, now: time, draws: PollDraws)
    ensures Poll(c, s, now, draws).core.drained == s.drained
  {
    hide ExpireFrom;
    hide DestroyAllocation;
    hide PollMaintenance;
    ExpireDrains(c, s, now, 0);
    var e := ExpireFrom(c, s, now, 0);
    CompleteDrains(e, Refresh, Timeout, 0);
    MaintenanceDrains(c, CheckExpiry(e, now), now, draws);
  }

  /** No call but the pulling of events takes any. */
  lemma ApplyDrains(c: Config, s: Core, a: Action)
    requires a != TakeEvent
    ensures Apply(c, s, a).drained == s.drained
  {
    hide StartOperation;
    hide SetState;
    hide InputStun;
    hide Poll;
    hide PushEvent;
    match a
    case StartAllocate(draw) =>
      SetDrains(s, Allocating);
      StartDrains(c, SetState(s, Allocating), Allocate, false, 0, draw);
    case StartPermission(draw) => StartDrains(c, s, Permission, true, 0, draw);
    case StartChannel(draw) => StartDrains(c, s, Channel, true, 0, draw);
    case Input(packet, now, draw) => InputDrains(c, s, packet, now, draw);
    case PollAt(now, draws) => PollDrains(c, s, now, draws);
    case Shutdown(draw) => ShutdownDrains(c, s, draw);
    case Force(reason) =>
      var t := s.(destroyed := true, controls := [], pending := []);
      SetDrains(t, Destroying);
      PushDrains(SetState(t, Destroying), ForcedDestroy(reason));
    case TakeControl =>
  }

  lemma ShutdownDrains(c: Config, s: Core, draw: Draw)
    ensures GracefulShutdown(c, s, draw).core.drained == s.drained
  {
    hide StartOperation;
    hide SetState;
    var u := s.(shuttingDown := true, channel := None, maintenanceRefresh := None,
                permissionRetry := None, channelRetry := None, keepalive := None, controls := []);
    SetDrains(u.(pending := []), Deallocating);
    StartDrains(c, SetState(u.(pending := []), Deallocating), Deallocate, true, 0, draw);
  }

  lemma {:induction false} NothingDrained(c: Config, s: Core, actions: seq<Action>)
    requires TakeEvent !in actions
    ensures Run(c, s, actions).drained == s.drained
    decreases |actions|
  {
    hide Apply;
    if actions != [] {
      ApplyDrains(c, s, actions[0]);
      NothingDrained(c, Apply(c, s, actions[0]), actions[1..]);
    }
  }
}
