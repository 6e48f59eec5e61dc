/** Timing of an allocation: it is refreshed in time and never used much past its expiry. */
module TurnTimers {
  import opened Bytes
  import opened Addresses
  import opened StunMessages
  import opened StunBuilder
  import opened TurnRequests
  import opened TurnState
  import opened TurnSafety
  import opened TurnLifecycle

  // ---------------------------------------------------------------- granted deadlines

  /** The granted seconds, ten minutes when none are named. */
  function GrantedSeconds(r: Response): nat {
    if r.lifetime.Some? then r.lifetime.value else 600
  }

  /** The sooner of the configured interval and half the lifetime, but half a second at least. */
  function RefreshAhead(c: Config, lifetime: time): time {
    var sooner := if c.profile.allocationRefresh < lifetime / 2 then c.profile.allocationRefresh else lifetime / 2;
    if sooner < 500 * MS then 500 * MS else sooner
  }

  /** A grant expires when its lifetime is over. Its refresh is due after the configured interval or half
      the lifetime, whichever is sooner, but not within half a second; so there is as much time again before
      the allocation expires. */
  lemma GrantIsHalfway(c: Config, s: Core, operation: Operation, r: Response, now: time, draw: Draw)
    requires operation == Refresh || (operation == Allocate && !s.shuttingDown)
    requires |s.events| <= EVENT_CAPACITY
    ensures var done := CompleteSuccess(c, s, operation, r, now, draw);
            done.ok ==>
              && done.core.allocationRefresh.Some? && done.core.allocationExpires.Some?
              && done.core.allocationExpires.value == now + GrantedSeconds(r) * SECOND
              && done.core.allocationRefresh.value == now + RefreshAhead(c, GrantedSeconds(r) * SECOND)
              && 2 * (done.core.allocationRefresh.value - now) <= done.core.allocationExpires.value - now
  {
    var done := CompleteSuccess(c, s, operation, r, now, draw);
    if done.ok {
      var seconds := if r.lifetime.Some? then r.lifetime.value else REQUESTED_LIFETIME_SECS;
      HalfOf(seconds * SECOND);
      if operation == Refresh {
        CompleteForm(Granted(c, s, r.lifetime, now), Refresh, NoError, 0);
      } else {
        var granted := Allocated(c, s, r.relay.value, r.lifetime, now);
        var e := RelayAddress(FromSocketAddr(r.relay.value));
        PushForm(granted, e);
        SetStateForm(PushEvent(granted, e), Ready);
        CompleteForm(SetState(PushEvent(granted, e), Ready), Allocate, NoError, 0);
      }
      hide Complete;
      hide SetState;
      hide PushEvent;
      hide StartOperation;
    }
  }

  lemma HalfOf(n: nat)
    ensures 2 * (n / 2) <= n
  {
  }

  // ---------------------------------------------------------------- never past expiry

  /** After a poll, a client that is still READY holds an allocation that has not expired. */
  lemma PollLeavesFresh(c: Config, s: Core, now: time, draws: PollDraws)
    requires Inv(c, s)
    ensures var t := Poll(c, s, now, draws).core;
            t.state == Ready ==> t.allocationExpires.Some? && now < t.allocationExpires.value
  {
    hide IsRequest;
    hide Scheduled;
    hide PollMaintenance;
    ExpireKeeps(c, s, now, 0);
    hide ExpireFrom;
    var e := ExpireFrom(c, s, now, 0);
    CheckExpiryKeeps(c, e, now);
    CheckExpiryFresh(c, e, now);
    hide CheckExpiry;
    var t := CheckExpiry(e, now);
    if !t.shuttingDown && t.state == Ready {
      MaintenanceStays(c, t, now, draws);
    }
    assert Flags(t);
    hide Inv;
  }

  lemma CheckExpiryFresh(c: Config, s: Core, now: time)
    requires Inv(c, s)
    ensures var t := CheckExpiry(s, now);
            t.state == Ready ==> t.allocationExpires.Some? && now < t.allocationExpires.value
  {
    hide IsRequest;
    hide Scheduled;
    if !s.shuttingDown && s.state == Ready && Due(s.allocationExpires, now) {
      DestroyNoGrant(c, s, Refresh, Timeout, 0);
      DestroyEnds(s, Refresh, Timeout, 0);
      hide DestroyAllocation;
    }
  }

  lemma DestroyEnds(s: Core, operation: Operation, status: Status, code: nat)
    ensures DestroyAllocation(s, operation, status, code).state != Ready
  {
    hide RelayOf;
  }

  lemma MaintenanceStays(c: Config, s: Core, now: time, draws: PollDraws)
    ensures OnlyTimers(s, PollMaintenance(c, s, now, draws).core)
  {
    PollRefreshStays(c, s, now, draws.refresh);
    var maintenance := Due(s.maintenanceRefresh, now);
    var a := PollRefresh(c, s, now, draws.refresh);
    var rescheduled := if maintenance
                       then a.core.(maintenanceRefresh := Some(now + c.profile.maintenanceRefresh))
                       else a.core;
    var permission := maintenance || Due(s.permissionRetry, now);
    PollPermissionStays(c, rescheduled, permission, draws.permission);
    var b := PollPermission(c, rescheduled, permission, draws.permission);
    var channel := maintenance || Due(s.channelRetry, now);
    PollChannelStays(c, b.core, channel, draws.channel);
    var d := PollChannel(c, b.core, channel, draws.channel);
    PollKeepaliveStays(c, d.core, now, a.any || b.any || d.any);
    hide PollRefresh;
    hide PollPermission;
    hide PollChannel;
    hide PollKeepalive;
    hide Due;
  }

  // ---------------------------------------------------------------- the keepalive paces the polls

  /** The keepalive deadline is never more than one interval away. */
  ghost predicate Paced(c: Config, s: Core, now: time) {
    s.state == Ready && s.keepalive.Some? ==> s.keepalive.value <= now + c.profile.keepaliveInterval
  }

  /** The part of a step the pacing depends on: no grant, and keepalive and maintenance kept or gone. */
  ghost predicate KeepsPace(s: Core, t: Core) {
    t.state == Ready ==>
      s.state == Ready && t.keepalive == s.keepalive && t.maintenanceRefresh == s.maintenanceRefresh
  }

  lemma FailKeepsPace(c: Config, s: Core, operation: Operation, status: Status, code: nat, now: time)
    requires |s.events| <= EVENT_CAPACITY
    ensures KeepsPace(s, CompleteFailure(s, operation, status, code, now))
  {
    CompleteForm(s, operation, status, code);
    if Retryable(s, operation, now) {
      hide Complete;
      hide RetryDelay;
      var r := ScheduleRetry(Complete(s, operation, status, code), operation, now);
      RebindEnds(r.core);
      hide DestroyAfterRebindExhausted;
    } else {
      DestroyEnds(s, operation, status, code);
      hide DestroyAllocation;
    }
  }

  lemma RebindEnds(s: Core)
    ensures DestroyAfterRebindExhausted(s).state != Ready
  {
  }

  lemma {:induction false} ExpireKeepsPace(c: Config, s: Core, now: time, index: nat)
    requires Inv(c, s)
    ensures KeepsPace(s, ExpireFrom(c, s, now, index))
    decreases |s.pending| - index
  {
    hide Inv;
    hide CompleteFailure;
    hide QueuePacket;
    hide Retransmit;
    if index < |s.pending| {
      var p := s.pending[index];
      if now < p.nextAttempt {
        ExpireKeepsPace(c, s, now, index + 1);
      } else if p.transmissions >= MAX_TRANSMISSIONS || c.transport == Stream {
        ExpiredKeeps(c, s, now, index);
        EventsBounded(c, s);
        FailKeepsPace(c, TakePending(s, index), p.operation, Timeout, 0, now);
        ExpireKeepsPace(c, CompleteFailure(TakePending(s, index), p.operation, Timeout, 0, now), now, index);
      } else {
        RetransmitKeeps(c, s, now, index);
        QueueStays(s, p.packet);
        var t := QueuePacket(s, p.packet);
        ExpireKeepsPace(c, t.(pending := t.pending[index := Retransmit(p, now)]), now, index + 1);
      }
    }
  }

  lemma EventsBounded(c: Config, s: Core)
    requires Inv(c, s)
    ensures |s.events| <= EVENT_CAPACITY
  {
  }

  lemma Soonest(s: Core)
    requires s.keepalive.Some?
    ensures NextDeadline(s).Some? && NextDeadline(s).value <= s.keepalive.value
  {
  }

  /** A poll that leaves the client READY asks to be called again within one keepalive interval. */
  lemma PollDelay(c: Config, s: Core, now: time, draws: PollDraws)
    requires Inv(c, s) && Paced(c, s, now) && c.profile.keepaliveInterval >= MS
    ensures var r := Poll(c, s, now, draws);
            && Paced(c, r.core, now)
            && (r.core.state == Ready ==>
                  r.delay.Some? && r.delay.value <= c.profile.keepaliveInterval)
  {
    hide IsRequest;
    hide Scheduled;
    ExpireKeeps(c, s, now, 0);
    ExpireKeepsPace(c, s, now, 0);
    hide ExpireFrom;
    var e := ExpireFrom(c, s, now, 0);
    CheckExpiryKeeps(c, e, now);
    CheckKeepsPace(c, e, now);
    hide CheckExpiry;
    var t := CheckExpiry(e, now);
    assert !s.destroyed || s.state == Destroying;
    if !t.shuttingDown && t.state == Ready {
      PollMaintenanceKeeps(c, t, now, draws);
      assert Equipped(t, None);
      MaintenancePace(c, t, now, draws);
      hide PollMaintenance;
      Soonest(PollMaintenance(c, t, now, draws).core);
      hide NextDeadline;
    }
    assert Flags(t);
    hide Inv;
  }

  lemma CheckKeepsPace(c: Config, s: Core, now: time)
    requires Inv(c, s)
    ensures KeepsPace(s, CheckExpiry(s, now))
  {
    DestroyEnds(s, Refresh, Timeout, 0);
    hide DestroyAllocation;
    hide Inv;
  }

  lemma MaintenancePace(c: Config, s: Core, now: time, draws: PollDraws)
    requires s.keepalive.Some? && s.keepalive.value <= now + c.profile.keepaliveInterval
    ensures var r := PollMaintenance(c, s, now, draws);
            r.core.keepalive.Some? && r.core.keepalive.value <= now + c.profile.keepaliveInterval
  {
    hide PollRefresh;
    hide PollPermission;
    hide PollChannel;
    hide PollKeepalive;
    hide OnlyTimers;
    hide Due;
    var maintenance := Due(s.maintenanceRefresh, now);
    PollRefreshStays(c, s, now, draws.refresh);
    var a := PollRefresh(c, s, now, draws.refresh);
    var rescheduled := if maintenance
                       then a.core.(maintenanceRefresh := Some(now + c.profile.maintenanceRefresh))
                       else a.core;
    var permission := maintenance || Due(s.permissionRetry, now);
    PollPermissionStays(c, rescheduled, permission, draws.permission);
    var b := PollPermission(c, rescheduled, permission, draws.permission);
    var channel := maintenance || Due(s.channelRetry, now);
    PollChannelStays(c, b.core, channel, draws.channel);
    var d := PollChannel(c, b.core, channel, draws.channel);
    KeepaliveMoves(c, d.core, now, a.any || b.any || d.any);
  }

  lemma KeepaliveMoves(c: Config, s: Core, now: time, started: bool)
    ensures var t := PollKeepalive(c, s, now, started);
            t.keepalive == if Due(s.keepalive, now) then Some(now + c.profile.keepaliveInterval) else s.keepalive
  {
    hide KeepalivePacket;
  }

  // ---------------------------------------------------------------- inputs

  /** An input at `now` that leaves the client READY keeps its keepalive, its maintenance and either its
      expiry or one still ahead; one that makes it READY sets all three anew. */
  ghost predicate Fresher(c: Config, s: Core, t: Core, now: time) {
    t.state == Ready ==>
      && t.allocationExpires.Some? && t.keepalive.Some?
      && (s.state == Ready ==>
            t.keepalive == s.keepalive && t.maintenanceRefresh == s.maintenanceRefresh
            && (t.allocationExpires == s.allocationExpires || now < t.allocationExpires.value))
      && (s.state != Ready ==>
            t.keepalive.value == now + c.profile.keepaliveInterval && now < t.allocationExpires.value
            && t.maintenanceRefresh == Some(now + c.profile.maintenanceRefresh))
  }

  lemma ErrorKeepsPace(c: Config, s: Core, p: Pending, r: Response, now: time, draw: Draw)
    requires !r.success && |s.events| <= EVENT_CAPACITY
    requires Holding(c, s, Some(p.operation))
    requires p.operation == Refresh ==> s.allocationRefresh.None?
    requires r.realm.Some? ==> |r.realm.value| <= MAX_STUN_INPUT
    requires r.nonce.Some? ==> |r.nonce.value| <= MAX_STUN_INPUT
    ensures KeepsPace(s, HandleError(c, s, p, r, now, draw))
  {
    hide CompleteFailure;
    hide DestroyAllocation;
    hide StartOperation;
    hide IsRequest;
    hide Scheduled;
    var method_ := MethodFor(p.operation);
    var code := if r.code.Some? then r.code.value else 0;
    var odd := ResponseError(method_, Protocol, 0, s.state);
    var e := ResponseError(method_, NoError, code, s.state);
    PushForm(s, odd);
    PushForm(s, e);
    FailKeepsPace(c, PushEvent(s, odd), p.operation, Protocol, 0, now);
    FailKeepsPace(c, PushEvent(s, e), p.operation, Protocol, code, now);
    DestroyEnds(PushEvent(s, e), p.operation, Protocol, code);
    if !(r.code.None? || r.code == Some(0)) && Challenges(c, s, p, r) {
      var t := SetAuth(c, s, ChallengeRealm(s, r).value, r.nonce.value);
      AuthKeeps(c, s, ChallengeRealm(s, r).value, r.nonce.value, Some(p.operation));
      RestartKeeps(c, t, p.operation, p.nonceRetries + 1, draw);
      StartStays(c, t, p.operation, true, p.nonceRetries + 1, draw);
    }
    hide PushEvent;
    hide Holding;
  }

  lemma SuccessFresher(c: Config, s: Core, operation: Operation, r: Response, now: time, draw: Draw)
    requires Holding(c, s, Some(operation)) && HasCredentials(s)
    ensures var done := CompleteSuccess(c, s, operation, r, now, draw);
            done.ok ==> Fresher(c, s, done.core, now)
  {
    hide IsRequest;
    hide Scheduled;
    hide RefreshDeadline;
    match operation
    case Allocate =>
      if UsableRelay(c, r.relay) && r.lifetime != Some(0) {
        var granted := Allocated(c, s, r.relay.value, r.lifetime, now);
        var e := RelayAddress(FromSocketAddr(r.relay.value));
        PushForm(granted, e);
        var announced := PushEvent(granted, e);
        hide PushEvent;
        SetStateForm(announced, Deallocating);
        SetStateForm(announced, Ready);
        hide SetState;
        StartStays(c, SetState(announced, Deallocating), Deallocate, true, 0, draw);
        CompleteForm(SetState(announced, Ready), Allocate, NoError, 0);
        hide StartOperation;
        hide Complete;
      }
    case Refresh =>
      CompleteForm(Granted(c, s, r.lifetime, now), Refresh, NoError, 0);
      hide Complete;
    case Deallocate =>
      var t := s.(relay := None, allocationRefresh := None, allocationExpires := None);
      CompleteForm(t, Deallocate, NoError, 0);
      SetStateForm(Complete(t, Deallocate, NoError, 0), Deallocated);
      hide Complete;
      hide SetState;
    case Permission =>
      CompleteForm(s.(permissionFailures := 0), Permission, NoError, 0);
      hide Complete;
    case Channel =>
      var t := s.(channel := Some(CHANNEL_NUMBER), channelFailures := 0);
      var e := ChannelBound(CHANNEL_NUMBER, FromSocketAddr(c.peer));
      PushForm(t, e);
      CompleteForm(PushEvent(t, e), Channel, NoError, 0);
      hide Complete;
      hide PushEvent;
  }

  lemma FailFresher(c: Config, s: Core, operation: Operation, status: Status, now: time)
    requires Holding(c, s, Some(operation))
    ensures Fresher(c, s, CompleteFailure(s, operation, status, 0, now), now)
  {
    hide IsRequest;
    hide Scheduled;
    FailKeeps(c, s, operation, status, 0, now);
    FailKeepsPace(c, s, operation, status, 0, now);
    FailNoGrant(c, s, operation, status, 0, now);
    assert Equipped(CompleteFailure(s, operation, status, 0, now), None);
    hide CompleteFailure;
    hide Holding;
  }

  lemma ResponseFresher(c: Config, s: Core, r: Response, verified: bool, now: time, draw: Draw)
    requires Inv(c, s)
    requires r.realm.Some? ==> |r.realm.value| <= MAX_STUN_INPUT
    requires r.nonce.Some? ==> |r.nonce.value| <= MAX_STUN_INPUT
    ensures Fresher(c, s, HandleResponse(c, s, r, verified, now, draw).core, now)
  {
    hide IsRequest;
    hide Scheduled;
    hide HandleError;
    hide CompleteSuccess;
    hide CompleteFailure;
    hide Match;
    assert Equipped(s, None);
    var found := Match(s.pending, r);
    if found.Some? {
      var i := found.value;
      var p := s.pending[i];
      if Unverified(p, r, verified) {
        var e := ResponseError(r.method_, Authentication, if r.code.Some? then r.code.value else 0, s.state);
        PushForm(s, e);
        hide PushEvent;
      } else {
        TakeKeeps(c, s, i);
        TakenFacts(c, s, i);
        var taken := TakePending(s, i);
        if !r.success {
          ErrorKeeps(c, taken, p, r, now, draw);
          ErrorNoGrant(c, taken, p, r, now, draw);
          ErrorKeepsPace(c, taken, p, r, now, draw);
          assert Equipped(HandleError(c, taken, p, r, now, draw), None);
        } else if !p.authenticated {
          FailFresher(c, taken, p.operation, Authentication, now);
        } else {
          SuccessKeeps(c, taken, p.operation, r, now, draw);
          SuccessFresher(c, taken, p.operation, r, now, draw);
          FailFresher(c, taken, p.operation, Protocol, now);
        }
        hide Holding;
      }
    }
  }

  lemma SelfFresher(c: Config, s: Core, now: time)
    requires Inv(c, s)
    ensures Fresher(c, s, s, now)
  {
    assert Equipped(s, None);
    hide IsRequest;
    hide Scheduled;
  }

  lemma InputFresher(c: Config, s: Core, packet: bytes, now: time, draw: Draw)
    requires Inv(c, s) && |packet| <= MAX_STUN_INPUT
    ensures Fresher(c, s, InputStun(c, s, packet, now, draw).core, now)
  {
    hide HandleResponse;
    hide VerifyIntegrity;
    hide Inv;
    hide Fresher;
    hide ReadResponse;
    SelfFresher(c, s, now);
    var decoded := Decode(packet);
    if decoded.Ok? {
      var message := decoded.value;
      assert message.raw == packet;
      hide Decode;
      ResponseFresher(c, s, ReadResponse(c.crypto, message),
                      VerifyIntegrity(c.crypto, message, s.key), now, draw);
    }
  }

  // ---------------------------------------------------------------- a disciplined driver

  /** The client under a driver: `due` is the latest instant at which the driver polls next. */
  datatype Driven = Driven(core: Core, clock: time, due: Option<time>)

  predicate NoLater(t: time, due: Option<time>) {
    due.None? || t <= due.value
  }

  function Tighten(due: Option<time>, t: time): Option<time> {
    Sooner(due, Some(t))
  }

  /** What the driver does at instant `t`: it polls no later than the last poll asked for and no
      later than `slack` after any other call. The clock reading a call takes is the instant of the
      call. */
  function Drive(c: Config, d: Driven, t: time, a: Action, slack: time): Driven {
    var core := Apply(c, d.core, a);
    match a
    case PollAt(now, draws) =>
      var delay := Poll(c, d.core, now, draws).delay;
      Driven(core, t, if delay.None? then None else Some(t + delay.value))
    case _ => Driven(core, t, Tighten(d.due, t + slack))
  }

  predicate Timely(d: Driven, t: time, a: Action) {
    && d.clock <= t && NoLater(t, d.due)
    && Admissible(a)
    && (a.PollAt? ==> a.at == t)
    && (a.Input? ==> a.now == t)
  }

  ghost predicate Punctual(c: Config, d: Driven) {
    && Inv(c, d.core)
    && Paced(c, d.core, d.clock)
    && (d.core.state == Ready ==>
          && d.due.Some?
          && d.due.value < d.core.allocationExpires.value + c.profile.keepaliveInterval)
  }

  function DriveAll(c: Config, d: Driven, steps: seq<(time, Action)>, slack: time): Driven
    decreases |steps|
  {
    if steps == [] then d
    else DriveAll(c, Drive(c, d, steps[0].0, steps[0].1, slack), steps[1..], slack)
  }

  predicate AllTimely(c: Config, d: Driven, steps: seq<(time, Action)>, slack: time)
    decreases |steps|
  {
    steps == []
    || (Timely(d, steps[0].0, steps[0].1)
        && AllTimely(c, Drive(c, d, steps[0].0, steps[0].1, slack), steps[1..], slack))
  }

  /** Calls that are neither polls nor inputs move no expiry and no keepalive of a READY client. */
  lemma QuietFresher(c: Config, s: Core, a: Action, now: time)
    requires Inv(c, s) && !a.PollAt? && !a.Input?
    ensures Fresher(c, s, Apply(c, s, a), now)
  {
    hide IsRequest;
    hide Scheduled;
    assert Equipped(s, None) && Flags(s);
    match a
    case StartAllocate(draw) =>
      StartStays(c, SetState(s, Allocating), Allocate, false, 0, draw);
      SetStateForm(s, Allocating);
      hide SetState;
      hide StartOperation;
    case StartPermission(draw) =>
      StartStays(c, s, Permission, true, 0, draw);
      hide StartOperation;
    case StartChannel(draw) =>
      StartStays(c, s, Channel, true, 0, draw);
      hide StartOperation;
    case Shutdown(draw) => ShutdownStays(c, s, draw); ShutdownKeeps(c, s, draw); hide GracefulShutdown;
    case Force(reason) => ForceForm(c, s, reason); hide ForceDestroy;
    case TakeControl =>
    case TakeEvent =>
  }

  lemma PollPunctual(c: Config, d: Driven, t: time, a: Action, slack: time)
    requires Punctual(c, d) && Timely(d, t, a) && a.PollAt?
    requires c.profile.keepaliveInterval >= MS
    ensures Punctual(c, Drive(c, d, t, a, slack))
  {
    ApplyKeeps(c, d.core, a);
    PollLeavesFresh(c, d.core, t, a.draws);
    PollDelay(c, d.core, t, a.draws);
    hide Poll;
    hide Inv;
  }

  lemma CallPunctual(c: Config, d: Driven, t: time, a: Action, slack: time)
    requires Punctual(c, d) && Timely(d, t, a) && !a.PollAt?
    requires slack <= c.profile.keepaliveInterval
    ensures Punctual(c, Drive(c, d, t, a, slack))
  {
    ApplyKeeps(c, d.core, a);
    if a.Input? {
      InputFresher(c, d.core, a.packet, t, a.draw);
    } else {
      QuietFresher(c, d.core, a, t);
    }
    hide Apply;
    hide Inv;
  }

  lemma {:induction false} StepsPunctual(c: Config, d: Driven, steps: seq<(time, Action)>, slack: time)
    requires Punctual(c, d) && AllTimely(c, d, steps, slack)
    requires c.profile.keepaliveInterval >= MS && slack <= c.profile.keepaliveInterval
    ensures Punctual(c, DriveAll(c, d, steps, slack))
    decreases |steps|
  {
    hide Punctual;
    hide Drive;
    if steps != [] {
      var (t, a) := steps[0];
      if a.PollAt? {
        PollPunctual(c, d, t, a, slack);
      } else {
        CallPunctual(c, d, t, a, slack);
      }
      StepsPunctual(c, Drive(c, d, steps[0].0, steps[0].1, slack), steps[1..], slack);
    }
  }

  /** Under a driver that polls within the returned delay and within a keepalive interval of every
      other call, no call ever finds a READY client later than one keepalive interval after its
      allocation expired; and a poll at or after the expiry takes it out of READY. */
  lemma ExpiryIsNoticed(c: Config, steps: seq<(time, Action)>, slack: time, t: time, a: Action)
    requires c.Valid() && c.profile.keepaliveInterval >= MS && slack <= c.profile.keepaliveInterval
    requires var d := Driven(Initial(), 0, None);
             AllTimely(c, d, steps, slack) && Timely(DriveAll(c, d, steps, slack), t, a)
    ensures var s := DriveAll(c, Driven(Initial(), 0, None), steps, slack).core;
            s.state == Ready ==>
              && s.allocationExpires.Some?
              && t < s.allocationExpires.value + c.profile.keepaliveInterval
              && (a.PollAt? && s.allocationExpires.value <= t ==> Apply(c, s, a).state != Ready)
  {
    hide AllTimely;
    hide DriveAll;
    InitialHolds(c);
    StartsPunctual(c);
    StepsPunctual(c, Driven(Initial(), 0, None), steps, slack);
    ExpiryAt(c, DriveAll(c, Driven(Initial(), 0, None), steps, slack), t, a);
    hide Punctual;
  }

  lemma StartsPunctual(c: Config)
    requires Inv(c, Initial())
    ensures Punctual(c, Driven(Initial(), 0, None))
  {
    hide Inv;
  }

  lemma ExpiryAt(c: Config, d: Driven, t: time, a: Action)
    requires Punctual(c, d) && Timely(d, t, a)
    ensures var s := d.core;
            s.state == Ready ==>
              && s.allocationExpires.Some?
              && t < s.allocationExpires.value + c.profile.keepaliveInterval
              && (a.PollAt? && s.allocationExpires.value <= t ==> Apply(c, s, a).state != Ready)
  {
    hide Poll;
    if a.PollAt? {
      PollLeavesFresh(c, d.core, t, a.draws);
      PollNoGrant(c, d.core, t, a.draws);
    }
    ReadyExpires(c, d.core);
    hide Inv;
  }

  lemma ReadyExpires(c: Config, s: Core)
    requires Inv(c, s)
    ensures s.state == Ready ==> s.allocationExpires.Some?
  {
    hide IsRequest;
    hide Scheduled;
  }

  // ---------------------------------------------------------------- back-off

  /** The back-off in seconds after the n-th failure in a row. */
  function BackoffSeconds(failures: nat): nat {
    match failures
    case 0 => 1
    case 1 => 1
    case 2 => 2
    case 3 => 4
    case 4 => 8
    case 5 => 16
    case _ => 30
  }

  /** Retry delays are 1, 2, 4, 8, 16 and then always 30 seconds; they never shrink. */
  lemma RetryDelays(failures: nat, more: nat)
    requires failures <= more
    ensures RetryDelay(failures) == BackoffSeconds(failures) * SECOND
    ensures SECOND <= RetryDelay(failures) <= RetryDelay(more) <= 30 * SECOND
  {
    assert Pow2(0) == 1 && Pow2(1) == 2 && Pow2(2) == 4 && Pow2(3) == 8;
    assert Pow2(4) == 2 * Pow2(3) && Pow2(5) == 2 * Pow2(4);
    Pow2Grows(Min(if failures == 0 then 0 else failures - 1, 5), Min(if more == 0 then 0 else more - 1, 5));
  }

  lemma {:induction false} Pow2Grows(a: nat, b: nat)
    requires a <= b
    ensures Pow2(a) <= Pow2(b)
    decreases b
  {
    if a < b {
      Pow2Grows(a, b - 1);
    }
  }
}
