/** The event stream of the TURN client: the bounded ring never loses an event silently, and the
    fold the driver performs over the stream rebuilds the client's state, relay and channel. */
module TurnEvents {
  import opened Bytes
  import opened Addresses
  import opened StunMessages
  import opened StunBuilder
  import opened TurnRequests
  import opened TurnState
  import opened TurnSafety
  import opened TurnLifecycle

  // ---------------------------------------------------------------- the driver's fold

  /** What the driver keeps of the client; `failed` says that the connection was given a terminal
      reason. */
  datatype Snapshot = Snapshot(state: State, relay: Option<SocketAddr>, channel: Option<u16>, failed: bool)

  const FRESH: Snapshot := Snapshot(Null, None, None, false)

  /** A terminal reason is recorded only while the driver is not closing. */
  function Fail(snap: Snapshot, closing: bool): Snapshot {
    if closing then snap else snap.(failed := true)
  }

  predicate RetryableMethod(method_: u16) {
    method_ == METHOD_CREATE_PERMISSION || method_ == METHOD_CHANNEL_BIND || method_ == METHOD_REFRESH
  }

  function FoldEvent(c: Config, snap: Snapshot, e: Event, closing: bool): Snapshot {
    match e
    case StateChanged(state, _) =>
      snap.(state := state,
            channel := if state == Ready then snap.channel else None,
            relay := if state == Deallocated || state == Destroying then None else snap.relay)
    case RequestComplete(method_, status, code, _, _, _) =>
      if (status != NoError || code != 0) && !RetryableMethod(method_) then Fail(snap, closing) else snap
    case ChannelBound(channel, address) =>
      if ToSocketAddr(address) != Some(c.peer) then Fail(snap, closing)
      else if !(0x4000 <= channel <= 0x7fff) then Fail(snap, closing)
      else snap.(channel := Some(channel))
    case RelayAddress(address) => snap.(relay := ToSocketAddr(address))
    case ControlOverflow => Fail(snap, closing)
    case ForcedDestroy(_) => Fail(snap, closing)
    case EventOverflow => Fail(snap, closing)
    case ResponseError(_, _, _, _) => snap
    case RebindExhausted => snap
  }

  function Fold(c: Config, snap: Snapshot, events: seq<Event>, closing: bool): Snapshot {
    if events == [] then snap
    else FoldEvent(c, Fold(c, snap, events[..|events| - 1], closing), events[|events| - 1], closing)
  }

  lemma {:induction false} FoldAppend(c: Config, snap: Snapshot, a: seq<Event>, b: seq<Event>, closing: bool)
    ensures Fold(c, snap, a + b, closing) == Fold(c, Fold(c, snap, a, closing), b, closing)
    decreases |b|
  {
    hide FoldEvent;
    if b == [] {
      assert a + b == a;
    } else {
      assert (a + b)[..|a + b| - 1] == a + b[..|b| - 1];
      FoldAppend(c, snap, a, b[..|b| - 1], closing);
    }
  }

  // ---------------------------------------------------------------- what the stream tells

  ghost predicate NoMarker(events: seq<Event>) {
    forall e :: e in events ==> e != EventOverflow
  }

  /** Without a marker in what was drained or still waits, nothing is missing. */
  ghost predicate Logged(s: Core) {
    && NoMarker(s.emitted)
    && (NoMarker(s.drained + s.events) ==> s.drained + s.events == s.emitted)
  }

  ghost function Told(c: Config, s: Core): Snapshot {
    Fold(c, FRESH, s.emitted, false)
  }

  ghost predicate Tracks(c: Config, s: Core) {
    && Logged(s)
    && Told(c, s).state == s.state
    && (s.state != Ready ==> Told(c, s).channel.None?)
  }

  /** The fold of everything emitted is the client as the driver should see it. */
  ghost predicate Mirrors(c: Config, s: Core) {
    && Tracks(c, s)
    && (s.state == Ready ==> Told(c, s).relay == s.relay && Told(c, s).channel == s.channel)
  }

  /** Events that move neither state, relay nor channel. */
  predicate Neutral(e: Event) {
    !e.StateChanged? && !e.ChannelBound? && !e.RelayAddress? && !e.EventOverflow?
  }

  lemma PushLogged(s: Core, e: Event)
    requires Logged(s) && e != EventOverflow
    ensures Logged(PushEvent(s, e))
  {
    var t := PushEvent(s, e);
    if |s.events| >= EVENT_CAPACITY {
      assert EventOverflow in t.drained + t.events by {
        assert t.events[|t.events| - 1] == EventOverflow;
      }
    } else {
      assert t.drained + t.events == (s.drained + s.events) + [e];
      if NoMarker(t.drained + t.events) {
        assert forall x :: x in s.drained + s.events ==> x in t.drained + t.events;
      }
    }
  }

  lemma PushTold(c: Config, s: Core, e: Event)
    ensures Told(c, PushEvent(s, e)) == FoldEvent(c, Told(c, s), e, false)
  {
    assert (s.emitted + [e])[..|s.emitted|] == s.emitted;
    hide FoldEvent;
  }

  lemma PushMirrors(c: Config, s: Core, e: Event)
    requires Neutral(e)
    ensures Tracks(c, s) ==> Tracks(c, PushEvent(s, e))
    ensures Mirrors(c, s) ==> Mirrors(c, PushEvent(s, e))
  {
    if Tracks(c, s) {
      PushLogged(s, e);
      PushTold(c, s, e);
      hide Told;
      hide Logged;
      assert PushEvent(s, e) == s.(events := PushEvent(s, e).events, emitted := s.emitted + [e]);
      hide PushEvent;
    }
  }

  /** Entering any state but READY needs no agreement beforehand. */
  lemma SetStateTracks(c: Config, s: Core, state: State)
    requires Tracks(c, s)
    ensures Tracks(c, SetState(s, state))
    ensures state != s.state ==>
              Told(c, SetState(s, state))
              == FoldEvent(c, Told(c, s), StateChanged(state, s.state), false)
  {
    if s.state != state {
      var t := s.(state := state);
      PushLogged(t, StateChanged(state, s.state));
      PushTold(c, t, StateChanged(state, s.state));
      assert Told(c, t) == Told(c, s);
      hide Told;
      hide Logged;
    }
  }

  lemma QueueMirrors(c: Config, s: Core, packet: bytes)
    ensures Tracks(c, s) ==> Tracks(c, QueuePacket(s, packet))
    ensures Mirrors(c, s) ==> Mirrors(c, QueuePacket(s, packet))
  {
    if |s.controls| >= CONTROL_CAPACITY {
      PushMirrors(c, s.(controls := s.controls[1..]), ControlOverflow);
      var t := PushEvent(s.(controls := s.controls[1..]), ControlOverflow);
      Unseen(c, s, s.(controls := s.controls[1..]));
      Unseen(c, t, QueuePacket(s, packet));
    } else {
      Unseen(c, s, QueuePacket(s, packet));
    }
    hide PushEvent;
    hide Told;
    hide Logged;
  }

  /** Fields the driver does not see. */
  lemma Unseen(c: Config, s: Core, t: Core)
    requires t.state == s.state && t.relay == s.relay && t.channel == s.channel
    requires t.events == s.events && t.emitted == s.emitted && t.drained == s.drained
    ensures Tracks(c, s) <==> Tracks(c, t)
    ensures Mirrors(c, s) <==> Mirrors(c, t)
    ensures Told(c, t) == Told(c, s)
  {
  }

  lemma StartMirrors(c: Config, s: Core, operation: Operation, authenticated: bool, nonceRetries: nat,
                     draw: Draw)
    ensures var t := StartOperation(c, s, operation, authenticated, nonceRetries, draw).core;
            && (Tracks(c, s) ==> Tracks(c, t))
            && (Mirrors(c, s) ==> Mirrors(c, t))
  {
    hide BuildRequest;
    hide QueuePacket;
    hide Mirrors;
    hide Tracks;
    var t := StartOperation(c, s, operation, authenticated, nonceRetries, draw).core;
    if HasOperation(s.pending, operation) {
      if operation == Channel {
        QueueMirrors(c, s, s.pending[FirstOf(s.pending, operation)].packet);
      }
    } else if !(authenticated && !HasCredentials(s)) {
      var r := BuildRequest(c.crypto, operation, c.peer, draw.transaction, AuthOf(c, s, authenticated));
      if r.Ok? {
        QueueMirrors(c, s, r.value);
        Unseen(c, QueuePacket(s, r.value), t);
      }
    }
  }

  lemma CompleteMirrors(c: Config, s: Core, operation: Operation, status: Status, code: nat)
    ensures var t := Complete(s, operation, status, code);
            && (Tracks(c, s) ==> Tracks(c, t)) && (Mirrors(c, s) ==> Mirrors(c, t))
  {
    PushMirrors(c, s, RequestComplete(MethodFor(operation), status, code, s.state,
                                      if s.channel.Some? then s.channel.value else 0, RelayOf(s)));
    hide PushEvent;
    hide RelayOf;
    hide Mirrors;
    hide Tracks;
  }

  lemma DestroyMirrors(c: Config, s: Core, operation: Operation, status: Status, code: nat)
    requires Tracks(c, s)
    ensures Mirrors(c, DestroyAllocation(s, operation, status, code))
  {
    CompleteMirrors(c, s, operation, status, code);
    hide Complete;
    var completed := Complete(s, operation, status, code);
    var cleared := completed.(
      controls := [], pending := [], channel := None, allocationRefresh := None,
      allocationExpires := None, maintenanceRefresh := None, permissionRetry := None,
      channelRetry := None, keepalive := None, relay := None);
    assert Tracks(c, cleared);
    SetStateTracks(c, cleared, if operation == Deallocate then Deallocated else Destroying);
    hide Told;
    hide Logged;
  }

  lemma RebindMirrors(c: Config, s: Core)
    requires Tracks(c, s)
    ensures Mirrors(c, DestroyAfterRebindExhausted(s))
  {
    var cleared := s.(controls := [], pending := [], channel := None, maintenanceRefresh := None,
                      permissionRetry := None, channelRetry := None, keepalive := None);
    assert Tracks(c, cleared);
    PushMirrors(c, cleared, RebindExhausted);
    SetStateTracks(c, PushEvent(cleared, RebindExhausted), Destroying);
    hide PushEvent;
    hide Told;
    hide Logged;
  }

  lemma FailMirrors(c: Config, s: Core, operation: Operation, status: Status, code: nat, now: time)
    requires Mirrors(c, s)
    ensures Mirrors(c, CompleteFailure(s, operation, status, code, now))
  {
    if Retryable(s, operation, now) {
      CompleteMirrors(c, s, operation, status, code);
      var completed := Complete(s, operation, status, code);
      hide Complete;
      hide RetryDelay;
      var retried := ScheduleRetry(completed, operation, now);
      Unseen(c, completed, retried.core);
      if !retried.ok {
        RebindMirrors(c, retried.core);
        hide DestroyAfterRebindExhausted;
      }
      hide Told;
      hide Logged;
    } else {
      DestroyMirrors(c, s, operation, status, code);
      hide DestroyAllocation;
    }
  }

  // ---------------------------------------------------------------- successes

  lemma AllocateMirrors(c: Config, s: Core, r: Response, now: time, draw: Draw)
    requires Mirrors(c, s) && s.state == Allocating && s.channel.None?
    ensures Mirrors(c, CompleteAllocate(c, s, r, now, draw).core)
  {
    if UsableRelay(c, r.relay) && r.lifetime != Some(0) {
      var relay := r.relay.value;
      var granted := Allocated(c, s, relay, r.lifetime, now);
      var e := RelayAddress(FromSocketAddr(relay));
      hide RefreshDeadline;
      assert Tracks(c, granted) && Told(c, granted) == Told(c, s);
      PushLogged(granted, e);
      PushTold(c, granted, e);
      EventAddressRoundTrip(relay);
      var announced := PushEvent(granted, e);
      assert Tracks(c, announced) && Told(c, announced).relay == Some(relay)
             && announced.relay == Some(relay) && announced.channel.None?;
      hide PushEvent;
      hide Told;
      hide Logged;
      SetStateTracks(c, announced, if s.shuttingDown then Deallocating else Ready);
      var next := SetState(announced, if s.shuttingDown then Deallocating else Ready);
      SetStateSees(announced, if s.shuttingDown then Deallocating else Ready);
      hide SetState;
      assert Mirrors(c, next);
      if s.shuttingDown {
        StartMirrors(c, next, Deallocate, true, 0, draw);
      } else {
        CompleteMirrors(c, next, Allocate, NoError, 0);
      }
      hide StartOperation;
      hide Complete;
    }
  }

  lemma SetStateSees(s: Core, state: State)
    ensures var t := SetState(s, state);
            t.state == state && t.relay == s.relay && t.channel == s.channel
  {
  }

  lemma ChannelMirrors(c: Config, s: Core)
    requires Mirrors(c, s) && s.state == Ready
    ensures Mirrors(c, PushEvent(s.(channel := Some(CHANNEL_NUMBER), channelFailures := 0),
                                 ChannelBound(CHANNEL_NUMBER, FromSocketAddr(c.peer))))
  {
    var t := s.(channel := Some(CHANNEL_NUMBER), channelFailures := 0);
    var e := ChannelBound(CHANNEL_NUMBER, FromSocketAddr(c.peer));
    assert Told(c, t) == Told(c, s);
    PushLogged(t, e);
    PushTold(c, t, e);
    EventAddressRoundTrip(c.peer);
    hide Told;
    hide Logged;
  }

  lemma SuccessMirrors(c: Config, s: Core, operation: Operation, r: Response, now: time, draw: Draw)
    requires Mirrors(c, s) && Holding(c, s, Some(operation))
    ensures Mirrors(c, CompleteSuccess(c, s, operation, r, now, draw).core)
  {
    hide Scheduled;
    hide IsRequest;
    hide Told;
    hide Logged;
    hide RefreshDeadline;
    match operation
    case Allocate => AllocateMirrors(c, s, r, now, draw); hide CompleteAllocate;
    case Refresh =>
      Unseen(c, s, Granted(c, s, r.lifetime, now));
      CompleteMirrors(c, Granted(c, s, r.lifetime, now), Refresh, NoError, 0);
      hide Complete;
    case Deallocate =>
      var t := s.(relay := None, allocationRefresh := None, allocationExpires := None);
      assert Tracks(c, t) by { assert Told(c, t) == Told(c, s) by { ToldByEmitted(c, s, t); } LoggedStays(s, t); }
      CompleteMirrors(c, t, Deallocate, NoError, 0);
      SetStateTracks(c, Complete(t, Deallocate, NoError, 0), Deallocated);
      SetStateSees(Complete(t, Deallocate, NoError, 0), Deallocated);
      hide Complete;
      hide SetState;
    case Permission =>
      Unseen(c, s, s.(permissionFailures := 0));
      CompleteMirrors(c, s.(permissionFailures := 0), Permission, NoError, 0);
      hide Complete;
    case Channel =>
      ChannelMirrors(c, s);
      CompleteMirrors(c, PushEvent(s.(channel := Some(CHANNEL_NUMBER), channelFailures := 0),
                                   ChannelBound(CHANNEL_NUMBER, FromSocketAddr(c.peer))),
                      Channel, NoError, 0);
      hide Complete;
      hide PushEvent;
  }

  lemma ToldByEmitted(c: Config, s: Core, t: Core)
    requires t.emitted == s.emitted
    ensures Told(c, t) == Told(c, s)
  {
  }

  lemma LoggedStays(s: Core, t: Core)
    requires t.events == s.events && t.emitted == s.emitted && t.drained == s.drained && Logged(s)
    ensures Logged(t)
  {
  }

  // ---------------------------------------------------------------- responses

  lemma ErrorMirrors(c: Config, s: Core, p: Pending, r: Response, now: time, draw: Draw)
    requires !r.success && Mirrors(c, s)
    ensures Mirrors(c, HandleError(c, s, p, r, now, draw))
  {
    hide PushEvent;
    hide CompleteFailure;
    hide DestroyAllocation;
    hide StartOperation;
    hide Told;
    hide Logged;
    var method_ := MethodFor(p.operation);
    if r.code.None? || r.code == Some(0) {
      var e := ResponseError(method_, Protocol, 0, s.state);
      PushMirrors(c, s, e);
      FailMirrors(c, PushEvent(s, e), p.operation, Protocol, 0, now);
    } else if RequiresRecreate(p.operation, r.code.value) {
      var e := ResponseError(method_, NoError, r.code.value, s.state);
      PushMirrors(c, s, e);
      DestroyMirrors(c, PushEvent(s, e), p.operation, Protocol, r.code.value);
    } else {
      var e := ResponseError(method_, NoError, r.code.value, s.state);
      if Challenges(c, s, p, r) {
        var t := SetAuth(c, s, ChallengeRealm(s, r).value, r.nonce.value);
        Unseen(c, s, t);
        StartMirrors(c, t, p.operation, true, p.nonceRetries + 1, draw);
        var retried := StartOperation(c, t, p.operation, true, p.nonceRetries + 1, draw).core;
        PushMirrors(c, retried, e);
        FailMirrors(c, PushEvent(retried, e), p.operation, Protocol, r.code.value, now);
      } else {
        PushMirrors(c, s, e);
        FailMirrors(c, PushEvent(s, e), p.operation, Protocol, r.code.value, now);
      }
    }
  }

  lemma ResponseMirrors(c: Config, s: Core, r: Response, verified: bool, now: time, draw: Draw)
    requires Mirrors(c, s) && Inv(c, s)
    ensures Mirrors(c, HandleResponse(c, s, r, verified, now, draw).core)
  {
    hide Scheduled;
    hide HandleError;
    hide CompleteSuccess;
    hide CompleteFailure;
    hide PushEvent;
    hide Told;
    hide Logged;
    hide IsRequest;
    hide Match;
    var found := Match(s.pending, r);
    if found.Some? {
      var i := found.value;
      var p := s.pending[i];
      if Unverified(p, r, verified) {
        PushMirrors(c, s, ResponseError(r.method_, Authentication,
                                        if r.code.Some? then r.code.value else 0, s.state));
      } else {
        TakeKeeps(c, s, i);
        var taken := TakePending(s, i);
        Unseen(c, s, taken);
        hide TakePending;
        hide Holding;
        if !r.success {
          ErrorMirrors(c, taken, p, r, now, draw);
        } else if !p.authenticated {
          FailMirrors(c, taken, p.operation, Authentication, 0, now);
        } else {
          SuccessMirrors(c, taken, p.operation, r, now, draw);
          var completed := CompleteSuccess(c, taken, p.operation, r, now, draw).core;
          FailMirrors(c, completed, p.operation, Protocol, 0, now);
        }
      }
    }
  }

  lemma InputMirrors(c: Config, s: Core, packet: bytes, now: time, draw: Draw)
    requires Mirrors(c, s) && Inv(c, s)
    ensures Mirrors(c, InputStun(c, s, packet, now, draw).core)
  {
    hide Scheduled;
    hide HandleResponse;
    hide VerifyIntegrity;
    hide ReadResponse;
    hide Decode;
    hide Mirrors;
    hide Inv;
    var decoded := Decode(packet);
    if decoded.Ok? {
      var message := decoded.value;
      ResponseMirrors(c, s, ReadResponse(c.crypto, message),
                      VerifyIntegrity(c.crypto, message, s.key), now, draw);
    }
  }

  // ---------------------------------------------------------------- polling

  lemma {:induction false} ExpireMirrors(c: Config, s: Core, now: time, index: nat)
    requires Mirrors(c, s) && Inv(c, s)
    ensures Mirrors(c, ExpireFrom(c, s, now, index))
    decreases |s.pending| - index
  {
    hide Inv;
    hide Mirrors;
    hide CompleteFailure;
    hide TakePending;
    hide QueuePacket;
    hide Retransmit;
    if index < |s.pending| {
      var p := s.pending[index];
      if now < p.nextAttempt {
        ExpireMirrors(c, s, now, index + 1);
      } else if p.transmissions >= MAX_TRANSMISSIONS || c.transport == Stream {
        ExpiredKeeps(c, s, now, index);
        TakeMirrors(c, s, index);
        FailMirrors(c, TakePending(s, index), p.operation, Timeout, 0, now);
        ExpireMirrors(c, CompleteFailure(TakePending(s, index), p.operation, Timeout, 0, now), now, index);
      } else {
        RetransmitKeeps(c, s, now, index);
        QueueMirrors(c, s, p.packet);
        var t := QueuePacket(s, p.packet);
        var u := t.(pending := t.pending[index := Retransmit(p, now)]);
        Unseen(c, t, u);
        ExpireMirrors(c, u, now, index + 1);
      }
    }
  }

  lemma TakeMirrors(c: Config, s: Core, i: nat)
    requires i < |s.pending| && Mirrors(c, s)
    ensures Mirrors(c, TakePending(s, i))
  {
    Unseen(c, s, TakePending(s, i));
  }

  lemma PollRefreshMirrors(c: Config, s: Core, now: time, draw: Draw)
    requires Mirrors(c, s)
    ensures Mirrors(c, PollRefresh(c, s, now, draw).core)
  {
    Unseen(c, s, s.(allocationRefresh := None));
    StartMirrors(c, s.(allocationRefresh := None), Refresh, true, 0, draw);
    hide StartOperation;
    hide Mirrors;
    hide Tracks;
  }

  lemma PollPermissionMirrors(c: Config, s: Core, due: bool, draw: Draw)
    requires Mirrors(c, s)
    ensures Mirrors(c, PollPermission(c, s, due, draw).core)
  {
    Unseen(c, s, s.(permissionRetry := None));
    StartMirrors(c, s.(permissionRetry := None), Permission, true, 0, draw);
    hide StartOperation;
    hide Mirrors;
    hide Tracks;
  }

  lemma PollChannelMirrors(c: Config, s: Core, due: bool, draw: Draw)
    requires Mirrors(c, s)
    ensures Mirrors(c, PollChannel(c, s, due, draw).core)
  {
    Unseen(c, s, s.(channelRetry := None));
    StartMirrors(c, s.(channelRetry := None), Channel, true, 0, draw);
    hide StartOperation;
    hide Mirrors;
    hide Tracks;
  }

  lemma PollKeepaliveMirrors(c: Config, s: Core, now: time, started: bool)
    requires Mirrors(c, s)
    ensures Mirrors(c, PollKeepalive(c, s, now, started))
  {
    hide QueuePacket;
    hide Mirrors;
    hide Tracks;
    hide Told;
    if Due(s.keepalive, now) {
      var t := s.(keepalive := Some(now + c.profile.keepaliveInterval));
      Unseen(c, s, t);
      if t.channel.Some? {
        QueueMirrors(c, t, KeepalivePacket(t.channel.value));
      }
    }
  }

  lemma MaintenanceMirrors(c: Config, s: Core, now: time, draws: PollDraws)
    requires Mirrors(c, s)
    ensures Mirrors(c, PollMaintenance(c, s, now, draws).core)
  {
    hide PollRefresh;
    hide PollPermission;
    hide PollChannel;
    hide PollKeepalive;
    hide Due;
    hide Mirrors;
    var maintenance := Due(s.maintenanceRefresh, now);
    PollRefreshMirrors(c, s, now, draws.refresh);
    var a := PollRefresh(c, s, now, draws.refresh);
    var rescheduled := if maintenance
                       then a.core.(maintenanceRefresh := Some(now + c.profile.maintenanceRefresh))
                       else a.core;
    Unseen(c, a.core, rescheduled);
    var permission := maintenance || Due(s.permissionRetry, now);
    PollPermissionMirrors(c, rescheduled, permission, draws.permission);
    var b := PollPermission(c, rescheduled, permission, draws.permission);
    var channel := maintenance || Due(s.channelRetry, now);
    PollChannelMirrors(c, b.core, channel, draws.channel);
    var d := PollChannel(c, b.core, channel, draws.channel);
    PollKeepaliveMirrors(c, d.core, now, a.any || b.any || d.any);
  }

  lemma PollMirrors(c: Config, s: Core, now: time, draws: PollDraws)
    requires Mirrors(c, s) && Inv(c, s)
    ensures Mirrors(c, Poll(c, s, now, draws).core)
  {
    hide PollMaintenance;
    hide Mirrors;
    hide Inv;
    hide DestroyAllocation;
    ExpireMirrors(c, s, now, 0);
    hide ExpireFrom;
    var e := ExpireFrom(c, s, now, 0);
    MirrorsTracks(c, e);
    DestroyMirrors(c, e, Refresh, Timeout, 0);
    hide Due;
    MaintenanceMirrors(c, CheckExpiry(e, now), now, draws);
  }

  lemma MirrorsTracks(c: Config, s: Core)
    requires Mirrors(c, s)
    ensures Tracks(c, s)
  {
  }

  // ---------------------------------------------------------------- the other entry points

  lemma StartAllocationMirrors(c: Config, s: Core, draw: Draw)
    requires Mirrors(c, s)
    ensures Mirrors(c, StartAllocation(c, s, draw).core)
  {
    if Open(s) && s.state == Null {
      SetStateTracks(c, s, Allocating);
      SetStateSees(s, Allocating);
      hide SetState;
      hide Tracks;
      StartMirrors(c, SetState(s, Allocating), Allocate, false, 0, draw);
      hide StartOperation;
    }
  }

  lemma ShutdownMirrors(c: Config, s: Core, draw: Draw)
    requires Mirrors(c, s) && Inv(c, s)
    ensures Mirrors(c, GracefulShutdown(c, s, draw).core)
  {
    hide Scheduled;
    hide IsRequest;
    if Open(s) {
      var t := s.(shuttingDown := true, channel := None, maintenanceRefresh := None,
                  permissionRetry := None, channelRetry := None, keepalive := None, controls := []);
      ToldByEmitted(c, s, t);
      LoggedStays(s, t);
      var u := t.(pending := []);
      ToldByEmitted(c, s, u);
      LoggedStays(s, u);
      hide Told;
      hide Logged;
      assert Tracks(c, t) && Tracks(c, u);
      hide Holding;
      if t.state == Ready || (t.state == Destroying && t.allocationExpires.Some?) {
        SetStateTracks(c, u, Deallocating);
        SetStateSees(u, Deallocating);
        hide SetState;
        StartMirrors(c, SetState(u, Deallocating), Deallocate, true, 0, draw);
        hide StartOperation;
      }
    }
  }

  lemma ForceMirrors(c: Config, s: Core, reason: Status)
    requires Mirrors(c, s)
    ensures Mirrors(c, ForceDestroy(s, reason))
  {
    if !s.destroyed {
      var t := s.(destroyed := true, controls := [], pending := []);
      Unseen(c, s, t);
      SetStateTracks(c, t, Destroying);
      SetStateSees(t, Destroying);
      hide SetState;
      PushMirrors(c, SetState(t, Destroying), ForcedDestroy(reason));
      hide PushEvent;
      hide Told;
      hide Logged;
    }
  }

  lemma PullEventMirrors(c: Config, s: Core)
    requires Mirrors(c, s)
    ensures Mirrors(c, PullEvent(s).0)
  {
    var t := PullEvent(s).0;
    if s.events != [] {
      assert t.drained + t.events == s.drained + s.events;
      ToldByEmitted(c, s, t);
      hide Told;
    }
  }

  // ---------------------------------------------------------------- every run

  lemma ApplyMirrors(c: Config, s: Core, a: Action)
    requires Mirrors(c, s) && Inv(c, s)
    ensures Mirrors(c, Apply(c, s, a))
  {
    hide Inv;
    match a
    case StartAllocate(draw) => StartAllocationMirrors(c, s, draw); hide StartAllocation;
    case StartPermission(draw) => StartMirrors(c, s, Permission, true, 0, draw); hide StartOperation; hide Mirrors;
    case StartChannel(draw) => StartMirrors(c, s, Channel, true, 0, draw); hide StartOperation; hide Mirrors;
    case Input(packet, now, draw) => InputMirrors(c, s, packet, now, draw); hide InputStun;
    case PollAt(now, draws) => PollMirrors(c, s, now, draws); hide Poll;
    case Shutdown(draw) => ShutdownMirrors(c, s, draw); hide GracefulShutdown;
    case Force(reason) => ForceMirrors(c, s, reason); hide ForceDestroy;
    case TakeControl => Unseen(c, s, PullControl(s).0); hide Mirrors;
    case TakeEvent => PullEventMirrors(c, s); hide PullEvent;
  }

  lemma {:induction false} RunMirrors(c: Config, s: Core, actions: seq<Action>)
    requires Mirrors(c, s) && Inv(c, s) && forall a :: a in actions ==> Admissible(a)
    ensures Mirrors(c, Run(c, s, actions))
    decreases |actions|
  {
    hide Inv;
    hide Mirrors;
    hide Apply;
    if actions != [] {
      ApplyKeeps(c, s, actions[0]);
      ApplyMirrors(c, s, actions[0]);
      RunMirrors(c, Apply(c, s, actions[0]), actions[1..]);
    }
  }

  /** Nothing was lost exactly when no overflow marker was drained or waits; and what was emitted
      folds to the client's state and, while READY, to its relay and channel. */
  lemma EventsRebuild(c: Config, actions: seq<Action>, closing: bool)
    requires c.Valid() && forall a :: a in actions ==> Admissible(a)
    ensures var s := Run(c, Initial(), actions);
            var snap := Fold(c, FRESH, s.drained + s.events, closing);
            && (NoMarker(s.drained + s.events) <==> s.drained + s.events == s.emitted)
            && (NoMarker(s.drained + s.events) ==>
                  snap.state == s.state
                  && (s.state == Ready ==> snap.relay == s.relay && snap.channel == s.channel))
            && (!NoMarker(s.drained + s.events) && !closing ==> snap.failed)
  {
    InitialHolds(c);
    hide Inv;
    RunMirrors(c, Initial(), actions) by {
      assert NoMarker([]);
      assert Mirrors(c, Initial());
    }
    hide Run;
    var s := Run(c, Initial(), actions);
    ClosingAgrees(c, FRESH, s.emitted, closing);
    if !NoMarker(s.drained + s.events) && !closing {
      MarkerFails(c, FRESH, s.drained + s.events);
    }
  }

  /** Whether the driver is closing affects only the terminal reason. */
  lemma {:induction false} ClosingAgrees(c: Config, snap: Snapshot, events: seq<Event>, closing: bool)
    ensures var a, b := Fold(c, snap, events, false), Fold(c, snap, events, closing);
            a.state == b.state && a.relay == b.relay && a.channel == b.channel
    decreases |events|
  {
    if events != [] {
      ClosingAgrees(c, snap, events[..|events| - 1], closing);
    }
  }

  /** A drained marker always ends the connection. */
  lemma {:induction false} MarkerFails(c: Config, snap: Snapshot, events: seq<Event>)
    requires !NoMarker(events)
    ensures Fold(c, snap, events, false).failed
    decreases |events|
  {
    var before, last := events[..|events| - 1], events[|events| - 1];
    if last != EventOverflow {
      assert exists e :: e in before && e == EventOverflow by {
        var e :| e in events && e == EventOverflow;
        assert e in before;
      }
      MarkerFails(c, snap, before);
      FailedStays(c, Fold(c, snap, before, false), last);
    }
  }

  lemma FailedStays(c: Config, snap: Snapshot, e: Event)
    requires snap.failed
    ensures FoldEvent(c, snap, e, false).failed
  {
  }

  /** The events that end a connection: an Allocate that failed, a channel bound to somebody else or out of
      range, anything lost, and a forced end. Failed maintenance (methods 4, 8 and 9) is tried again. */
  predicate Fatal(c: Config, e: Event) {
    match e
    case RequestComplete(method_, status, code, _, _, _) =>
      (status != NoError || code != 0) && method_ !in {4, 8, 9}
    case ChannelBound(channel, address) =>
      ToSocketAddr(address) != Some(c.peer) || channel < 0x4000 || 0x7fff < channel
    case ControlOverflow => true
    case ForcedDestroy(_) => true
    case EventOverflow => true
    case _ => false
  }

  /** The driver is told of a failure exactly by those; while it is closing, by none. */
  lemma {:induction false} FailsExactly(c: Config, snap: Snapshot, events: seq<Event>)
    ensures Fold(c, snap, events, false).failed <==> snap.failed || exists e :: e in events && Fatal(c, e)
    ensures Fold(c, snap, events, true).failed == snap.failed
    decreases |events|
  {
    if events != [] {
      var before, last := events[..|events| - 1], events[|events| - 1];
      FailsExactly(c, snap, before);
      FailsOne(c, Fold(c, snap, before, false), last);
      FailsOne(c, Fold(c, snap, before, true), last);
      hide FoldEvent;
      hide Fatal;
      assert events == before + [last];
      assert forall e :: e in events <==> e in before || e == last;
    }
  }

  lemma FailsOne(c: Config, snap: Snapshot, e: Event)
    ensures FoldEvent(c, snap, e, false).failed <==> snap.failed || Fatal(c, e)
    ensures FoldEvent(c, snap, e, true).failed == snap.failed
  {
  }
}
