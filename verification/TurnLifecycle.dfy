/** Life of an allocation over whole runs: what the invariant says in the caller's terms, how the
    state may move, where grants come from, and what a shutdown owes the server. */
module TurnLifecycle {
  import opened Bytes
  import opened Addresses
  import opened StunMessages
  import opened StunBuilder
  import opened TurnRequests
  import opened TurnState
  import opened TurnSafety

  // ---------------------------------------------------------------- the invariant, spelled out

  function CountPending(pending: seq<Pending>, operation: Operation): nat {
    if pending == [] then 0
    else (if pending[0].operation == operation then 1 else 0) + CountPending(pending[1..], operation)
  }

  lemma {:induction false} CountDistinct(pending: seq<Pending>, operation: Operation)
    requires Distinct(pending)
    ensures CountPending(pending, operation) == (if HasOperation(pending, operation) then 1 else 0)
  {
    if pending != [] {
      assert forall i, j :: 0 <= i < j < |pending[1..]| ==>
               pending[1..][i].operation == pending[i + 1].operation
               && pending[1..][j].operation == pending[j + 1].operation;
      CountDistinct(pending[1..], operation);
      if HasOperation(pending[1..], operation) {
        var j :| 0 <= j < |pending[1..]| && pending[1..][j].operation == operation;
        assert pending[j + 1].operation == operation;
      } else if HasOperation(pending, operation) {
        var j :| 0 <= j < |pending| && pending[j].operation == operation;
        assert j == 0 || pending[1..][j - 1].operation == operation;
      }
    }
  }

  /** What holds after every run of a freshly created client. */
  lemma RunSafe(c: Config, actions: seq<Action>)
    requires c.Valid() && forall a :: a in actions ==> Admissible(a)
    ensures var s := Run(c, Initial(), actions);
      && |s.controls| <= CONTROL_CAPACITY
      && |s.events| <= EVENT_CAPACITY
      && (forall o :: CountPending(s.pending, o) <= 1)
      && (forall o :: Maintains(o) && HasOperation(s.pending, o) ==> s.state == Ready && !s.shuttingDown)
      && (HasOperation(s.pending, Allocate) <==> s.state == Allocating)
      && (HasOperation(s.pending, Deallocate) <==> s.state == Deallocating)
      && (s.state == Deallocating ==> |s.pending| == 1)
      && (s.state == Ready ==>
            && s.relay.Some? && s.allocationExpires.Some? && s.keepalive.Some?
            && s.maintenanceRefresh.Some? && s.realm.Some? && s.nonce.Some? && s.key.Some?
            && s.channelFailures < MAX_CHANNEL_FAILURES
            && (s.allocationRefresh.Some? <==> !HasOperation(s.pending, Refresh)))
      && (forall k :: k in s.controls && k != KeepalivePacket(CHANNEL_NUMBER) ==>
            exists i :: 0 <= i < |s.pending| && s.pending[i].packet == k)
  {
    InitialHolds(c);
    RunKeeps(c, Initial(), actions);
    hide Run;
    var s := Run(c, Initial(), actions);
    InvSafe(c, s);
  }

  lemma InvSafe(c: Config, s: Core)
    requires Inv(c, s)
    ensures forall o :: CountPending(s.pending, o) <= 1
    ensures forall o :: Maintains(o) && HasOperation(s.pending, o) ==> s.state == Ready && !s.shuttingDown
    ensures HasOperation(s.pending, Allocate) <==> s.state == Allocating
    ensures HasOperation(s.pending, Deallocate) <==> s.state == Deallocating
  {
    hide Scheduled;
    hide IsRequest;
    forall o ensures CountPending(s.pending, o) <= 1 {
      assert Distinct(s.pending);
      CountDistinct(s.pending, o);
    }
  }

  // ---------------------------------------------------------------- steps that grant nothing

  predicate KeptOrGone<T(==)>(before: Option<T>, after: Option<T>) {
    after == before || after.None?
  }

  /** Nothing new is granted, no flag moves, and the state stays or ends the allocation. */
  predicate NoGrant(s: Core, t: Core) {
    && KeptOrGone(s.relay, t.relay)
    && KeptOrGone(s.channel, t.channel)
    && KeptOrGone(s.allocationExpires, t.allocationExpires)
    && t.shuttingDown == s.shuttingDown && t.destroyed == s.destroyed
    && (t.state == s.state
        || ((s.state == Allocating || s.state == Ready) && t.state == Destroying)
        || (s.state == Deallocating && t.state == Deallocated))
  }

  lemma FailNoGrant(c: Config, s: Core, operation: Operation, status: Status, code: nat, now: time)
    requires Holding(c, s, Some(operation))
    ensures NoGrant(s, CompleteFailure(s, operation, status, code, now))
  {
    hide Scheduled;
    hide IsRequest;
    CompleteForm(s, operation, status, code);
    hide Complete;
    hide RetryDelay;
    if Retryable(s, operation, now) {
      var r := ScheduleRetry(Complete(s, operation, status, code), operation, now);
      if !r.ok {
        var cleared := r.core.(controls := [], pending := [], channel := None,
                               maintenanceRefresh := None, permissionRetry := None,
                               channelRetry := None, keepalive := None);
        PushForm(cleared, RebindExhausted);
        SetStateForm(PushEvent(cleared, RebindExhausted), Destroying);
        hide SetState;
        hide PushEvent;
      }
    } else {
      DestroyNoGrant(c, s, operation, status, code);
      hide DestroyAllocation;
    }
  }

  lemma DestroyNoGrant(c: Config, s: Core, operation: Operation, status: Status, code: nat)
    requires |s.events| <= EVENT_CAPACITY
    requires if operation == Deallocate then s.state == Deallocating
             else s.state == Allocating || s.state == Ready
    ensures NoGrant(s, DestroyAllocation(s, operation, status, code))
  {
    CompleteForm(s, operation, status, code);
    hide Complete;
    var cleared := Complete(s, operation, status, code).(
      controls := [], pending := [], channel := None, allocationRefresh := None,
      allocationExpires := None, maintenanceRefresh := None, permissionRetry := None,
      channelRetry := None, keepalive := None, relay := None);
    SetStateForm(cleared, if operation == Deallocate then Deallocated else Destroying);
    hide SetState;
  }

  lemma ErrorNoGrant(c: Config, s: Core, p: Pending, r: Response, now: time, draw: Draw)
    requires !r.success && Holding(c, s, Some(p.operation))
    requires p.operation == Refresh ==> s.allocationRefresh.None?
    requires r.realm.Some? ==> |r.realm.value| <= MAX_STUN_INPUT
    requires r.nonce.Some? ==> |r.nonce.value| <= MAX_STUN_INPUT
    ensures NoGrant(s, HandleError(c, s, p, r, now, draw))
  {
    hide Scheduled;
    hide IsRequest;
    hide CompleteFailure;
    hide DestroyAllocation;
    hide StartOperation;
    var method_ := MethodFor(p.operation);
    if r.code.None? || r.code == Some(0) {
      var e := ResponseError(method_, Protocol, 0, s.state);
      PushForm(s, e);
      PushKeeps(c, s, e, Some(p.operation));
      FailNoGrant(c, PushEvent(s, e), p.operation, Protocol, 0, now);
      hide PushEvent;
    } else if RequiresRecreate(p.operation, r.code.value) {
      var e := ResponseError(method_, NoError, r.code.value, s.state);
      PushForm(s, e);
      DestroyNoGrant(c, PushEvent(s, e), p.operation, Protocol, r.code.value);
      hide PushEvent;
    } else if Challenges(c, s, p, r) {
      var realm, nonce := ChallengeRealm(s, r).value, r.nonce.value;
      AuthKeeps(c, s, realm, nonce, Some(p.operation));
      RestartKeeps(c, SetAuth(c, s, realm, nonce), p.operation, p.nonceRetries + 1, draw);
      StartStays(c, SetAuth(c, s, realm, nonce), p.operation, true, p.nonceRetries + 1, draw);
      hide Holding;
    } else {
      var e := ResponseError(method_, NoError, r.code.value, s.state);
      PushForm(s, e);
      PushKeeps(c, s, e, Some(p.operation));
      FailNoGrant(c, PushEvent(s, e), p.operation, Protocol, r.code.value, now);
      hide PushEvent;
    }
  }

  lemma {:induction false} ExpireNoGrant(c: Config, s: Core, now: time, index: nat)
    requires Inv(c, s)
    ensures NoGrant(s, ExpireFrom(c, s, now, index))
    decreases |s.pending| - index
  {
    hide Inv;
    hide CompleteFailure;
    hide TakePending;
    hide QueuePacket;
    hide Retransmit;
    if index < |s.pending| {
      var p := s.pending[index];
      if now < p.nextAttempt {
        ExpireNoGrant(c, s, now, index + 1);
      } else if p.transmissions >= MAX_TRANSMISSIONS || c.transport == Stream {
        ExpiredKeeps(c, s, now, index);
        ExpiredNoGrant(c, s, now, index);
        ExpireNoGrant(c, CompleteFailure(TakePending(s, index), p.operation, Timeout, 0, now), now, index);
      } else {
        RetransmitKeeps(c, s, now, index);
        RetransmitNoGrant(c, s, now, index);
        var t := QueuePacket(s, p.packet);
        ExpireNoGrant(c, t.(pending := t.pending[index := Retransmit(p, now)]), now, index + 1);
      }
    }
  }

  lemma ExpiredNoGrant(c: Config, s: Core, now: time, i: nat)
    requires Inv(c, s) && i < |s.pending|
    ensures NoGrant(s, CompleteFailure(TakePending(s, i), s.pending[i].operation, Timeout, 0, now))
  {
    hide Scheduled;
    hide IsRequest;
    TakeKeeps(c, s, i);
    FailNoGrant(c, TakePending(s, i), s.pending[i].operation, Timeout, 0, now);
    hide CompleteFailure;
    hide Holding;
  }

  lemma RetransmitNoGrant(c: Config, s: Core, now: time, i: nat)
    requires Inv(c, s) && i < |s.pending|
    ensures var t := QueuePacket(s, s.pending[i].packet);
            && |t.pending| == |s.pending|
            && NoGrant(s, t.(pending := t.pending[i := Retransmit(s.pending[i], now)]))
  {
    hide Scheduled;
    hide IsRequest;
    QueuePacketKeeps(s, s.pending[i].packet);
    hide QueuePacket;
  }

  lemma MaintenanceNoGrant(c: Config, s: Core, now: time, draws: PollDraws)
    requires Inv(c, s) && s.state == Ready
    ensures NoGrant(s, PollMaintenance(c, s, now, draws).core)
  {
    hide Scheduled;
    hide IsRequest;
    PollRefreshStays(c, s, now, draws.refresh);
    var maintenance := Due(s.maintenanceRefresh, now);
    var a := PollRefresh(c, s, now, draws.refresh);
    var rescheduled := if maintenance
                       then a.core.(maintenanceRefresh := Some(now + c.profile.maintenanceRefresh))
                       else a.core;
    var permission := maintenance || Due(s.permissionRetry, now);
    PollPermissionStays(c, rescheduled, permission, draws.permission);
    var b := PollPermission(c, rescheduled, permission, draws.permission);
    var channel := maintenance || Due(s.channelRetry, now);
    PollChannelStays(c, b.core, channel, draws.channel);
    var d := PollChannel(c, b.core, channel, draws.channel);
    PollKeepaliveStays(c, d.core, now, a.any || b.any || d.any);
    hide PollRefresh;
    hide PollPermission;
    hide PollChannel;
    hide PollKeepalive;
    hide Due;
  }

  /** The maintenance part of a poll touches queues, pending transactions and timers only. */
  ghost predicate OnlyTimers(s: Core, t: Core) {
    && t.relay == s.relay && t.channel == s.channel && t.allocationExpires == s.allocationExpires
    && t.state == s.state && t.shuttingDown == s.shuttingDown && t.destroyed == s.destroyed
  }

  lemma PollRefreshStays(c: Config, s: Core, now: time, draw: Draw)
    ensures OnlyTimers(s, PollRefresh(c, s, now, draw).core)
    ensures PollRefresh(c, s, now, draw).core.keepalive == s.keepalive
  {
    StartStays(c, s.(allocationRefresh := None), Refresh, true, 0, draw);
    hide StartOperation;
  }

  lemma PollPermissionStays(c: Config, s: Core, due: bool, draw: Draw)
    ensures OnlyTimers(s, PollPermission(c, s, due, draw).core)
    ensures PollPermission(c, s, due, draw).core.keepalive == s.keepalive
  {
    StartStays(c, s.(permissionRetry := None), Permission, true, 0, draw);
    hide StartOperation;
  }

  lemma PollChannelStays(c: Config, s: Core, due: bool, draw: Draw)
    ensures OnlyTimers(s, PollChannel(c, s, due, draw).core)
    ensures PollChannel(c, s, due, draw).core.keepalive == s.keepalive
  {
    StartStays(c, s.(channelRetry := None), Channel, true, 0, draw);
    hide StartOperation;
  }

  lemma PollKeepaliveStays(c: Config, s: Core, now: time, started: bool)
    ensures OnlyTimers(s, PollKeepalive(c, s, now, started))
  {
    hide KeepalivePacket;
  }

  lemma PollNoGrant(c: Config, s: Core, now: time, draws: PollDraws)
    requires Inv(c, s)
    ensures NoGrant(s, Poll(c, s, now, draws).core)
  {
    hide Scheduled;
    hide IsRequest;
    ExpireKeeps(c, s, now, 0);
    ExpireNoGrant(c, s, now, 0);
    hide ExpireFrom;
    hide PollMaintenance;
    var e := ExpireFrom(c, s, now, 0);
    CheckExpiryKeeps(c, e, now);
    CheckNoGrant(c, e, now);
    hide CheckExpiry;
    var t := CheckExpiry(e, now);
    if !t.shuttingDown && t.state == Ready {
      MaintenanceNoGrant(c, t, now, draws);
    }
    hide Inv;
  }

  lemma CheckNoGrant(c: Config, s: Core, now: time)
    requires Inv(c, s)
    ensures NoGrant(s, CheckExpiry(s, now))
  {
    hide Scheduled;
    hide IsRequest;
    if !s.shuttingDown && s.state == Ready && Due(s.allocationExpires, now) {
      DestroyNoGrant(c, s, Refresh, Timeout, 0);
      hide DestroyAllocation;
    }
  }

  // ---------------------------------------------------------------- where grants come from

  /** The packet is a success response to an authenticated pending transaction and its
      MESSAGE-INTEGRITY verifies under the current key. */
  ghost predicate VerifiedSuccess(c: Config, s: Core, packet: bytes) {
    var decoded := Decode(packet);
    && decoded.Ok?
    && decoded.value.Class() == Class.Success
    && decoded.value.FingerprintValid(c.crypto) != Some(false)
    && VerifyIntegrity(c.crypto, decoded.value, s.key)
    && exists p :: p in s.pending && p.authenticated
                   && p.transaction == decoded.value.transaction
                   && MethodFor(p.operation) == decoded.value.Method()
  }

  lemma ResponseNoGrant(c: Config, s: Core, r: Response, verified: bool, now: time, draw: Draw)
    requires Inv(c, s)
    requires r.realm.Some? ==> |r.realm.value| <= MAX_STUN_INPUT
    requires r.nonce.Some? ==> |r.nonce.value| <= MAX_STUN_INPUT
    ensures NoGrant(s, HandleResponse(c, s, r, verified, now, draw).core)
            || (r.success && verified
                && Match(s.pending, r).Some? && s.pending[Match(s.pending, r).value].authenticated)
  {
    hide Scheduled;
    hide IsRequest;
    hide HandleError;
    hide CompleteSuccess;
    hide CompleteFailure;
    hide Match;
    var found := Match(s.pending, r);
    if found.Some? {
      var i := found.value;
      var p := s.pending[i];
      if Unverified(p, r, verified) {
        var e := ResponseError(r.method_, Authentication, if r.code.Some? then r.code.value else 0, s.state);
        PushForm(s, e);
        hide PushEvent;
      } else {
        TakeKeeps(c, s, i);
        TakenFacts(c, s, i);
        if !r.success {
          ErrorNoGrant(c, TakePending(s, i), p, r, now, draw);
        } else if !p.authenticated {
          FailNoGrant(c, TakePending(s, i), p.operation, Authentication, 0, now);
        }
        hide Holding;
      }
    }
  }

  /** A relay, a channel or a new expiry appears, or the state becomes READY, only in the step that
      receives an integrity-verified success response. */
  lemma GrantsAreVerified(c: Config, s: Core, a: Action)
    requires Inv(c, s) && Admissible(a)
    ensures var t := Apply(c, s, a);
            && (!KeptOrGone(s.relay, t.relay) || !KeptOrGone(s.channel, t.channel)
                || !KeptOrGone(s.allocationExpires, t.allocationExpires)
                || (t.state == Ready && s.state != Ready)
                ==> a.Input? && VerifiedSuccess(c, s, a.packet))
  {
    hide Scheduled;
    hide IsRequest;
    match a
    case StartAllocate(draw) =>
      StartStays(c, SetState(s, Allocating), Allocate, false, 0, draw);
      SetStateForm(s, Allocating);
      hide SetState;
      hide StartOperation;
    case StartPermission(draw) =>
      StartStays(c, s, Permission, true, 0, draw);
      hide StartOperation;
    case StartChannel(draw) =>
      StartStays(c, s, Channel, true, 0, draw);
      hide StartOperation;
    case Input(packet, now, draw) => InputGrants(c, s, packet, now, draw); hide InputStun;
    case PollAt(now, draws) => PollNoGrant(c, s, now, draws); hide Poll;
    case Shutdown(draw) => ShutdownStays(c, s, draw); hide GracefulShutdown;
    case Force(reason) => ForceForm(c, s, reason); hide ForceDestroy;
    case TakeControl =>
    case TakeEvent =>
  }

  lemma InputGrants(c: Config, s: Core, packet: bytes, now: time, draw: Draw)
    requires Inv(c, s) && |packet| <= MAX_STUN_INPUT
    ensures NoGrant(s, InputStun(c, s, packet, now, draw).core) || VerifiedSuccess(c, s, packet)
  {
    hide HandleResponse;
    hide VerifyIntegrity;
    hide Inv;
    var decoded := Decode(packet);
    if decoded.Ok? {
      var message := decoded.value;
      var r := ReadResponse(c.crypto, message);
      var verified := VerifyIntegrity(c.crypto, message, s.key);
      assert r.success == (message.Class() == Class.Success) && r.method_ == message.Method()
             && r.transaction == message.transaction;
      hide ReadResponse;
      hide Decode;
      ResponseNoGrant(c, s, r, verified, now, draw);
      if r.success && verified && Match(s.pending, r).Some? {
        var p := s.pending[Match(s.pending, r).value];
        assert p in s.pending;
      }
    }
  }

  lemma ShutdownStays(c: Config, s: Core, draw: Draw)
    requires Inv(c, s)
    ensures var t := GracefulShutdown(c, s, draw).core;
            && t.relay == s.relay && t.allocationExpires == s.allocationExpires
            && KeptOrGone(s.channel, t.channel)
            && t.destroyed == s.destroyed && (s.destroyed || t.shuttingDown)
            && (t.state == s.state || t.state == Deallocating)
            && (t.state == Deallocating <==>
                s.state == Deallocating
                || (Open(s) && (s.state == Ready
                                || (s.state == Destroying && s.allocationExpires.Some?))))
  {
    hide Scheduled;
    hide IsRequest;
    if Open(s) {
      var t := s.(shuttingDown := true, channel := None, maintenanceRefresh := None,
                  permissionRetry := None, channelRetry := None, keepalive := None, controls := []);
      SetStateForm(t.(pending := []), Deallocating);
      StartStays(c, SetState(t.(pending := []), Deallocating), Deallocate, true, 0, draw);
      hide StartOperation;
      hide SetState;
    }
  }

  lemma ForceForm(c: Config, s: Core, reason: Status)
    requires Inv(c, s)
    ensures var t := ForceDestroy(s, reason);
            && t.relay == s.relay && t.channel == s.channel && t.allocationExpires == s.allocationExpires
            && t.shuttingDown == s.shuttingDown && t.destroyed && t.state == Destroying && t.pending == []
  {
    hide Scheduled;
    hide IsRequest;
    if !s.destroyed {
      var t := s.(destroyed := true, controls := [], pending := []);
      SetStateForm(t, Destroying);
      PushForm(SetState(t, Destroying), ForcedDestroy(reason));
      hide SetState;
      hide PushEvent;
    }
  }

  // ---------------------------------------------------------------- how the state moves

  /** One input may finish what is under way; it changes no flag. */
  ghost predicate Moves(s: Core, t: Core) {
    && t.shuttingDown == s.shuttingDown && t.destroyed == s.destroyed
    && (|| t.state == s.state
        || (s.state == Allocating && t.state == (if s.shuttingDown then Deallocating else Ready))
        || ((s.state == Allocating || s.state == Ready) && t.state == Destroying)
        || (s.state == Deallocating && t.state == Deallocated))
  }

  lemma SuccessMoves(c: Config, s: Core, operation: Operation, r: Response, now: time, draw: Draw)
    requires Holding(c, s, Some(operation))
    ensures var done := CompleteSuccess(c, s, operation, r, now, draw);
            && (done.ok ==> Moves(s, done.core))
            && (done.ok && operation == Allocate ==>
                  done.core.state == (if s.shuttingDown then Deallocating else Ready))
  {
    hide Scheduled;
    hide IsRequest;
    hide RefreshDeadline;
    match operation
    case Allocate =>
      if UsableRelay(c, r.relay) && r.lifetime != Some(0) {
        var granted := Allocated(c, s, r.relay.value, r.lifetime, now);
        var e := RelayAddress(FromSocketAddr(r.relay.value));
        PushForm(granted, e);
        var announced := PushEvent(granted, e);
        hide PushEvent;
        SetStateForm(announced, Deallocating);
        SetStateForm(announced, Ready);
        hide SetState;
        StartStays(c, SetState(announced, Deallocating), Deallocate, true, 0, draw);
        CompleteForm(SetState(announced, Ready), Allocate, NoError, 0);
        hide StartOperation;
        hide Complete;
      }
    case Refresh =>
      CompleteForm(Granted(c, s, r.lifetime, now), Refresh, NoError, 0);
      hide Complete;
    case Deallocate =>
      var t := s.(relay := None, allocationRefresh := None, allocationExpires := None);
      CompleteForm(t, Deallocate, NoError, 0);
      SetStateForm(Complete(t, Deallocate, NoError, 0), Deallocated);
      hide Complete;
      hide SetState;
    case Permission =>
      CompleteForm(s.(permissionFailures := 0), Permission, NoError, 0);
      hide Complete;
    case Channel =>
      var t := s.(channel := Some(CHANNEL_NUMBER), channelFailures := 0);
      var e := ChannelBound(CHANNEL_NUMBER, FromSocketAddr(c.peer));
      PushForm(t, e);
      CompleteForm(PushEvent(t, e), Channel, NoError, 0);
      hide Complete;
      hide PushEvent;
  }

  lemma HandleSuccessMoves(c: Config, s: Core, p: Pending, r: Response, now: time, draw: Draw)
    requires Holding(c, s, Some(p.operation)) && (p.authenticated ==> HasCredentials(s))
    ensures Moves(s, HandleSuccess(c, s, p, r, now, draw).core)
  {
    hide Scheduled;
    hide CompleteSuccess;
    hide CompleteFailure;
    hide IsRequest;
    if p.authenticated {
      SuccessKeeps(c, s, p.operation, r, now, draw);
      SuccessMoves(c, s, p.operation, r, now, draw);
      FailNoGrant(c, s, p.operation, Protocol, 0, now);
    } else {
      FailNoGrant(c, s, p.operation, Authentication, 0, now);
    }
    hide Holding;
  }

  lemma ResponseMoves(c: Config, s: Core, r: Response, verified: bool, now: time, draw: Draw)
    requires Inv(c, s)
    requires r.realm.Some? ==> |r.realm.value| <= MAX_STUN_INPUT
    requires r.nonce.Some? ==> |r.nonce.value| <= MAX_STUN_INPUT
    ensures Moves(s, HandleResponse(c, s, r, verified, now, draw).core)
  {
    hide Scheduled;
    hide HandleError;
    hide HandleSuccess;
    hide Match;
    hide IsRequest;
    var found := Match(s.pending, r);
    if found.Some? {
      var i := found.value;
      var p := s.pending[i];
      if Unverified(p, r, verified) {
        var e := ResponseError(r.method_, Authentication, if r.code.Some? then r.code.value else 0, s.state);
        PushForm(s, e);
        hide PushEvent;
      } else {
        TakeKeeps(c, s, i);
        TakenFacts(c, s, i);
        if r.success {
          HandleSuccessMoves(c, TakePending(s, i), p, r, now, draw);
        } else {
          ErrorNoGrant(c, TakePending(s, i), p, r, now, draw);
        }
        hide Holding;
      }
    }
  }

  lemma InputMoves(c: Config, s: Core, packet: bytes, now: time, draw: Draw)
    requires Inv(c, s) && |packet| <= MAX_STUN_INPUT
    ensures Moves(s, InputStun(c, s, packet, now, draw).core)
  {
    hide HandleResponse;
    hide VerifyIntegrity;
    hide Inv;
    hide ReadResponse;
    var decoded := Decode(packet);
    if decoded.Ok? {
      var message := decoded.value;
      assert message.raw == packet;
      hide Decode;
      ResponseMoves(c, s, ReadResponse(c.crypto, message),
                    VerifyIntegrity(c.crypto, message, s.key), now, draw);
    }
  }

  /** The state machine, edge by edge: which step may take which edge. */
  ghost predicate Edge(s: Core, a: Action, t: Core) {
    || t.state == s.state
    || (s.state == Null && t.state == Allocating && a.StartAllocate?)
    || (s.state == Allocating && t.state == Ready && a.Input? && !s.shuttingDown)
    || (s.state == Allocating && t.state == Deallocating && a.Input? && s.shuttingDown)
    || ((s.state == Allocating || s.state == Ready) && t.state == Destroying
        && (a.Input? || a.PollAt?))
    || (s.state == Ready && t.state == Deallocating && a.Shutdown?)
    || (s.state == Destroying && t.state == Deallocating && a.Shutdown? && s.allocationExpires.Some?)
    || (s.state == Deallocating && t.state == Deallocated && (a.Input? || a.PollAt?))
    || (t.state == Destroying && a.Force?)
  }

  lemma ApplyEdge(c: Config, s: Core, a: Action)
    requires Inv(c, s) && Admissible(a)
    ensures Edge(s, a, Apply(c, s, a))
    ensures s.shuttingDown ==> Apply(c, s, a).shuttingDown
    ensures a.Shutdown? && !s.destroyed ==> Apply(c, s, a).shuttingDown
  {
    hide Scheduled;
    hide IsRequest;
    match a
    case StartAllocate(draw) =>
      StartStays(c, SetState(s, Allocating), Allocate, false, 0, draw);
      SetStateForm(s, Allocating);
      hide SetState;
      hide StartOperation;
    case StartPermission(draw) =>
      StartStays(c, s, Permission, true, 0, draw);
      hide StartOperation;
    case StartChannel(draw) =>
      StartStays(c, s, Channel, true, 0, draw);
      hide StartOperation;
    case Input(packet, now, draw) => InputMoves(c, s, packet, now, draw); hide InputStun;
    case PollAt(now, draws) => PollNoGrant(c, s, now, draws); hide Poll;
    case Shutdown(draw) => ShutdownStays(c, s, draw); hide GracefulShutdown;
    case Force(reason) => ForceForm(c, s, reason); hide ForceDestroy;
    case TakeControl =>
    case TakeEvent =>
  }

  // ---------------------------------------------------------------- READY at most once

  /** How often a run enters READY. */
  function ReadyEntries(c: Config, s: Core, actions: seq<Action>): nat
    decreases |actions|
  {
    if actions == [] then 0
    else
      var t := Apply(c, s, actions[0]);
      (if t.state == Ready && s.state != Ready then 1 else 0) + ReadyEntries(c, t, actions[1..])
  }

  lemma {:induction false} ReadyOnce(c: Config, s: Core, actions: seq<Action>)
    requires Inv(c, s) && forall a :: a in actions ==> Admissible(a)
    ensures ReadyEntries(c, s, actions)
            <= if s.state == Null || s.state == Allocating then 1 else 0
    decreases |actions|
  {
    hide Inv;
    hide Apply;
    if actions != [] {
      ApplyKeeps(c, s, actions[0]);
      ApplyEdge(c, s, actions[0]);
      ReadyOnce(c, Apply(c, s, actions[0]), actions[1..]);
    }
  }

  // ---------------------------------------------------------------- what shutdown guarantees

  /** After a graceful shutdown no run reaches READY. */
  lemma {:induction false} NeverReadyAgain(c: Config, s: Core, actions: seq<Action>)
    requires Inv(c, s) && s.shuttingDown && forall a :: a in actions ==> Admissible(a)
    ensures var t := Run(c, s, actions);
            t.shuttingDown && t.state != Ready
    decreases |actions|
  {
    hide Scheduled;
    hide Apply;
    if actions == [] {
      assert Flags(s);
    } else {
      ApplyKeeps(c, s, actions[0]);
      ApplyEdge(c, s, actions[0]);
      hide Inv;
      NeverReadyAgain(c, Apply(c, s, actions[0]), actions[1..]);
    }
  }

  /** A release in progress: the one pending transaction is a signed Refresh whose LIFETIME is zero,
      as the server reads it. */
  ghost predicate Releasing(c: Config, s: Core) {
    && |s.pending| == 1
    && var request := Decode(s.pending[0].packet);
       && request.Ok?
       && request.value.Class() == Request
       && request.value.Method() == METHOD_REFRESH
       && AttributeU32(request.value, ATTR_LIFETIME) == Some(0)
  }

  lemma DeallocatingReleases(c: Config, s: Core)
    requires Inv(c, s)
    ensures s.state == Deallocating ==> Releasing(c, s)
    ensures s.state != Deallocating ==> !HasOperation(s.pending, Deallocate)
  {
    hide Decode;
    hide AttributeU32;
    ReleaseIsAlone(c, s);
    hide Inv;
    if s.state == Deallocating {
      RequestOf(c, s.pending[0]);
    }
  }

  lemma ReleaseIsAlone(c: Config, s: Core)
    requires Inv(c, s)
    ensures s.state == Deallocating ==>
              |s.pending| == 1 && s.pending[0].operation == Deallocate && IsRequest(c, s.pending[0])
    ensures s.state != Deallocating ==> !HasOperation(s.pending, Deallocate)
  {
    hide Scheduled;
    hide IsRequest;
    hide Owned;
    if s.state == Deallocating {
      assert PendingOk(c, s, s.pending[0]);
    }
  }

  /** Every pending packet reads back as a request of its operation. */
  lemma RequestOf(c: Config, p: Pending)
    requires IsRequest(c, p)
    ensures var request := Decode(p.packet);
            && request.Ok?
            && request.value.Class() == Request
            && request.value.Method() == MethodFor(p.operation)
            && request.value.FingerprintValid(c.crypto) == Some(true)
            && (p.operation == Refresh || p.operation == Deallocate ==>
                  AttributeU32(request.value, ATTR_LIFETIME)
                  == Some(if p.operation == Deallocate then 0 else REQUESTED_LIFETIME_SECS))
  {
    var auth: Option<Auth> :|
      AuthBounded(auth) && auth.Some? == p.authenticated
      && BuildRequest(c.crypto, p.operation, c.peer, p.transaction, auth) == Ok(p.packet);
    RequestReadBack(c.crypto, p.operation, c.peer, p.transaction, auth);
    if p.operation == Refresh || p.operation == Deallocate {
      RequestLifetime(c.crypto, p.operation, c.peer, p.transaction, auth);
    }
    hide BuildRequest;
    hide Decode;
    hide AttributeU32;
  }

  /** Shutdown of a live allocation, or of one kept after its channel rebind was exhausted, begins
      its release at once; a pending Allocate is left to finish. */
  lemma ShutdownBeginsRelease(c: Config, s: Core, draw: Draw)
    requires Inv(c, s) && Open(s)
    ensures var t := GracefulShutdown(c, s, draw).core;
            && (s.state == Ready || (s.state == Destroying && s.allocationExpires.Some?) ==>
                  t.state == Deallocating && Releasing(c, t))
            && (s.state == Allocating ==> t.state == Allocating && t.pending == s.pending)
            && (s.state == Null ==> t.state == Null && t.pending == [])
  {
    hide Scheduled;
    ShutdownKeeps(c, s, draw);
    ShutdownStays(c, s, draw);
    DeallocatingReleases(c, GracefulShutdown(c, s, draw).core);
    hide IsRequest;
    hide Releasing;
    hide StartOperation;
  }

  /** A late Allocate success during shutdown is released, never used. */
  lemma LateSuccessIsReleased(c: Config, s: Core, r: Response, now: time, draw: Draw)
    requires Inv(c, s) && s.shuttingDown && s.state == Allocating
    requires r.success && Match(s.pending, r) == Some(0) && s.pending[0].authenticated
    requires UsableRelay(c, r.relay) && r.lifetime != Some(0)
    ensures var t := HandleResponse(c, s, r, true, now, draw).core;
            t.state == Deallocating && Releasing(c, t)
  {
    hide Scheduled;
    hide IsRequest;
    TakeKeeps(c, s, 0);
    TakenFacts(c, s, 0);
    var taken := TakePending(s, 0);
    assert s.pending[0].operation == Allocate;
    SuccessKeeps(c, taken, Allocate, r, now, draw);
    SuccessMoves(c, taken, Allocate, r, now, draw);
    LateAllocateOk(c, taken, r, now, draw);
    DeallocatingReleases(c, CompleteSuccess(c, taken, Allocate, r, now, draw).core);
    hide CompleteSuccess;
    hide Holding;
    hide Releasing;
  }

  lemma LateAllocateOk(c: Config, s: Core, r: Response, now: time, draw: Draw)
    requires Holding(c, s, Some(Allocate)) && HasCredentials(s) && s.shuttingDown
    requires UsableRelay(c, r.relay) && r.lifetime != Some(0)
    ensures CompleteSuccess(c, s, Allocate, r, now, draw).ok
  {
    hide Scheduled;
    hide IsRequest;
    hide RefreshDeadline;
    hide Owned;
    var granted := Allocated(c, s, r.relay.value, r.lifetime, now);
    var e := RelayAddress(FromSocketAddr(r.relay.value));
    PushForm(granted, e);
    var announced := PushEvent(granted, e);
    hide PushEvent;
    ReleaseKeeps(c, announced, draw);
    hide SetState;
    hide StartOperation;
  }

  /** A release ends in DEALLOCATED; only force_destroy can cut it short. Until then the lifetime-0
      Refresh stays the one pending transaction. */
  lemma ReleaseEnds(c: Config, s: Core, a: Action)
    requires Inv(c, s) && Admissible(a) && s.state == Deallocating
    ensures var t := Apply(c, s, a);
            && (t.state == Deallocating || t.state == Deallocated || a.Force?)
            && (t.state == Deallocating ==> Releasing(c, t))
  {
    hide Scheduled;
    hide Apply;
    ApplyKeeps(c, s, a);
    ApplyEdge(c, s, a);
    DeallocatingReleases(c, Apply(c, s, a));
    hide Inv;
    hide Releasing;
  }

  // ---------------------------------------------------------------- requests too long to be sent

  /** A queued request is lost when it is pulled exactly if it is authenticated and its user name, realm
      and nonce, each padded to a multiple of four, are too long together for the caller's 1024 bytes. */
  lemma PullLoses(c: Config, s: Core, operation: Operation, authenticated: bool, draw: Draw, t: Core)
    requires CredentialsBounded(c, s) && (authenticated ==> HasCredentials(s)) && t.controls != []
    requires BuildRequest(c.crypto, operation, c.peer, draw.transaction, AuthOf(c, s, authenticated))
             == Ok(t.controls[0])
    ensures PullControl(t).1 == Some(Err)
            <==> && authenticated
                 && Padded(|c.username|) + Padded(|s.realm.value|) + Padded(|s.nonce.value|)
                    > PULL_BUFFER - 64 - OperationLength(operation, c.peer)
    ensures PullControl(t).1 != Some(Err) ==> PullControl(t).1 == Some(Ok(t.controls[0]))
  {
    RequestLength(c.crypto, operation, c.peer, draw.transaction, AuthOf(c, s, authenticated));
    hide BuildRequest;
    hide Padded;
  }
}
