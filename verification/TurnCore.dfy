/** The TURN client object. Every method updates the fields in place, as the program does, and is
    proved to compute the function of the same name in `TurnState`; the invariant, lifecycle, event
    and timing theorems are about those functions. */
module TurnCore {
  import opened Bytes
  import opened Addresses
  import opened StunMessages
  import opened StunBuilder
  import opened TurnRequests
  import opened TurnState

  class NativeCore {
    const c: Config
    var realm: Option<bytes>
    var nonce: Option<bytes>
    var key: Option<Octets16>
    var state: State
    var relay: Option<SocketAddr>
    var channel: Option<u16>
    var controls: seq<bytes>
    var events: seq<Event>
    var pending: seq<Pending>
    var allocationRefresh: Option<time>
    var allocationExpires: Option<time>
    var maintenanceRefresh: Option<time>
    var permissionRetry: Option<time>
    var channelRetry: Option<time>
    var refreshFailures: nat
    var permissionFailures: nat
    var channelFailures: nat
    var keepalive: Option<time>
    var shuttingDown: bool
    var destroyed: bool
    ghost var emitted: seq<Event>
    ghost var drained: seq<Event>

    ghost function View(): Core
      reads this
    {
      Core(realm, nonce, key, state, relay, channel, controls, events, pending, allocationRefresh,
           allocationExpires, maintenanceRefresh, permissionRetry, channelRetry, refreshFailures,
           permissionFailures, channelFailures, keepalive, shuttingDown, destroyed, emitted, drained)
    }

    constructor (c: Config)
      requires c.Valid()
      ensures this.c == c && View() == Initial()
    {
      this.c := c;
      realm, nonce, key, state, relay, channel := None, None, None, Null, None, None;
      controls, events, pending := [], [], [];
      allocationRefresh, allocationExpires, maintenanceRefresh := None, None, None;
      permissionRetry, channelRetry, keepalive := None, None, None;
      refreshFailures, permissionFailures, channelFailures := 0, 0, 0;
      shuttingDown, destroyed := false, false;
      emitted, drained := [], [];
    }

    // -------------------------------------------------------------- queues

    method PushEvent(e: Event)
      modifies this
      ensures View() == TurnState.PushEvent(old(View()), e)
    {
      emitted := emitted + [e];
      if |events| >= EVENT_CAPACITY {
        events := events[1..];
        events := events + [EventOverflow];
        return;
      }
      events := events + [e];
    }

    method QueuePacket(packet: bytes)
      modifies this
      ensures View() == TurnState.QueuePacket(old(View()), packet)
    {
      if |controls| >= CONTROL_CAPACITY {
        controls := controls[1..];
        PushEvent(ControlOverflow);
      }
      controls := controls + [packet];
    }

    method SetState(to: State)
      modifies this
      ensures View() == TurnState.SetState(old(View()), to)
    {
      if state == to {
        return;
      }
      var previous := state;
      state := to;
      PushEvent(StateChanged(to, previous));
    }

    /** Drops the queued copies of a transaction, keeping the order of the rest. */
    method RemoveQueuedTransaction(transaction: Octets12)
      modifies this`controls
      ensures controls == WithoutTransaction(old(controls), transaction)
    {
      var kept: seq<bytes> := [];
      var i := 0;
      while i < |controls|
        invariant 0 <= i <= |controls|
        invariant controls == old(controls)
        invariant kept + WithoutTransaction(controls[i..], transaction)
                  == WithoutTransaction(controls, transaction)
      {
        assert controls[i..][1..] == controls[i + 1..];
        if !CarriesTransaction(controls[i], transaction) {
          kept := kept + [controls[i]];
        }
        i := i + 1;
      }
      assert controls[i..] == [];
      controls := kept;
    }

    method QueueKeepalive()
      modifies this
      ensures View() == TurnState.QueueKeepalive(old(View()))
    {
      if channel.None? {
        return;
      }
      QueuePacket(KeepalivePacket(channel.value));
    }

    // -------------------------------------------------------------- starting

    method StartOperation(operation: Operation, authenticated: bool, nonceRetries: nat, draw: Draw)
        returns (ok: bool)
      modifies this
      ensures Outcome(View(), ok)
              == TurnState.StartOperation(c, old(View()), operation, authenticated, nonceRetries, draw)
    {
      hide BuildRequest;
      hide TurnState.QueuePacket;
      if HasOperation(pending, operation) {
        if operation == Channel {
          QueuePacket(pending[FirstOf(pending, operation)].packet);
        }
        return true;
      }
      if authenticated && (realm.None? || nonce.None? || key.None?) {
        return false;
      }
      var auth := if authenticated then Some(Auth(c.username, realm.value, nonce.value, key.value))
                  else None;
      var packet := BuildRequestBytes(c.crypto, operation, c.peer, draw.transaction, auth);
      if packet.Err? {
        return false;
      }
      QueuePacket(packet.value);
      pending := pending
                 + [NewPending(c, operation, packet.value, authenticated, nonceRetries, draw)];
      ok := true;
    }

    method SetAuth(realm: bytes, nonce: bytes)
      modifies this
      ensures View() == TurnState.SetAuth(c, old(View()), realm, nonce)
    {
      key := Some(c.crypto.md5(c.username + [0x3a] + realm + [0x3a] + c.password));
      this.realm := Some(realm);
      this.nonce := Some(nonce);
    }

    // -------------------------------------------------------------- completing

    method Complete(operation: Operation, status: Status, code: nat)
      modifies this
      ensures View() == TurnState.Complete(old(View()), operation, status, code)
    {
      PushEvent(RequestComplete(MethodFor(operation), status, code, state,
                                if channel.Some? then channel.value else 0,
                                if relay.Some? then FromSocketAddr(relay.value) else NO_ADDRESS));
    }

    method ClearQueues()
      modifies this`controls, this`pending
      ensures View() == old(View()).(controls := [], pending := [])
    {
      controls, pending := [], [];
    }

    /** Forgets the channel and every timer but those of the allocation itself. */
    method StopMaintenance()
      modifies this`channel, this`maintenanceRefresh, this`permissionRetry, this`channelRetry, this`keepalive
      ensures View() == old(View()).(
        channel := None, maintenanceRefresh := None, permissionRetry := None, channelRetry := None,
        keepalive := None)
    {
      channel := None;
      StopTimers();
    }

    method StopTimers()
      modifies this`maintenanceRefresh, this`permissionRetry, this`channelRetry, this`keepalive
      ensures View() == old(View()).(
        maintenanceRefresh := None, permissionRetry := None, channelRetry := None, keepalive := None)
    {
      StopRetries();
      maintenanceRefresh, keepalive := None, None;
    }

    method StopRetries()
      modifies this`permissionRetry, this`channelRetry
      ensures View() == old(View()).(permissionRetry := None, channelRetry := None)
    {
      permissionRetry, channelRetry := None, None;
    }

    method ForgetGrant()
      modifies this`relay, this`allocationRefresh, this`allocationExpires
      ensures View() == old(View()).(relay := None, allocationRefresh := None, allocationExpires := None)
    {
      relay, allocationRefresh, allocationExpires := None, None, None;
    }

    method DestroyAllocation(operation: Operation, status: Status, code: nat)
      modifies this
      ensures View() == TurnState.DestroyAllocation(old(View()), operation, status, code)
    {
      hide View;
      hide TurnState.Complete;
      hide TurnState.SetState;
      Complete(operation, status, code);
      ClearQueues();
      StopMaintenance();
      ForgetGrant();
      if operation == Deallocate {
        SetState(Deallocated);
      } else {
        SetState(Destroying);
      }
    }

    method DestroyAfterRebindExhausted()
      modifies this
      ensures View() == TurnState.DestroyAfterRebindExhausted(old(View()))
    {
      hide View;
      hide TurnState.PushEvent;
      hide TurnState.SetState;
      ClearQueues();
      StopMaintenance();
      PushEvent(RebindExhausted);
      SetState(Destroying);
    }

    method ScheduleRetry(operation: Operation, now: time) returns (ok: bool)
      modifies this
      ensures Outcome(View(), ok) == TurnState.ScheduleRetry(old(View()), operation, now)
    {
      hide RetryDelay;
      hide Saturating8;
      hide View;
      ok := true;
      match operation {
        case Refresh => RetryRefresh(now);
        case Permission => RetryPermission(now);
        case Channel => ok := RetryChannel(now);
        case Allocate =>
        case Deallocate =>
      }
    }

    method RetryRefresh(now: time)
      modifies this`refreshFailures, this`allocationRefresh
      ensures View() == TurnState.ScheduleRetry(old(View()), Refresh, now).core
    {
      hide RetryDelay;
      hide Saturating8;
      refreshFailures := Saturating8(refreshFailures);
      allocationRefresh := Some(now + RetryDelay(refreshFailures));
    }

    method RetryPermission(now: time)
      modifies this`permissionFailures, this`permissionRetry
      ensures View() == TurnState.ScheduleRetry(old(View()), Permission, now).core
    {
      hide RetryDelay;
      hide Saturating8;
      permissionFailures := Saturating8(permissionFailures);
      permissionRetry := Some(now + RetryDelay(permissionFailures));
    }

    method RetryChannel(now: time) returns (ok: bool)
      modifies this`channelFailures, this`channelRetry
      ensures Outcome(View(), ok) == TurnState.ScheduleRetry(old(View()), Channel, now)
    {
      hide RetryDelay;
      hide Saturating8;
      channelFailures := Saturating8(channelFailures);
      if channelFailures >= MAX_CHANNEL_FAILURES {
        return false;
      }
      channelRetry := Some(now + RetryDelay(channelFailures));
      ok := true;
    }

    method CompleteFailure(operation: Operation, status: Status, code: nat, now: time)
      modifies this
      ensures View() == TurnState.CompleteFailure(old(View()), operation, status, code, now)
    {
      if (operation == Refresh || operation == Permission || operation == Channel)
         && state == Ready && allocationExpires.Some? && now < allocationExpires.value
      {
        Complete(operation, status, code);
        hide TurnState.Complete;
        hide TurnState.ScheduleRetry;
        hide TurnState.DestroyAfterRebindExhausted;
        var scheduled := ScheduleRetry(operation, now);
        if scheduled {
          return;
        }
        DestroyAfterRebindExhausted();
        return;
      }
      DestroyAllocation(operation, status, code);
      hide TurnState.DestroyAllocation;
    }

    method Grant(lifetime: Option<u32>, now: time)
      modifies this
      ensures View() == Granted(c, old(View()), lifetime, now)
    {
      var seconds := if lifetime.Some? then lifetime.value else REQUESTED_LIFETIME_SECS;
      allocationRefresh := Some(RefreshDeadline(now, lifetime, c.profile.allocationRefresh));
      allocationExpires := Some(now + seconds * SECOND);
      refreshFailures := 0;
    }

    method GrantAllocation(granted: SocketAddr, lifetime: Option<u32>, now: time)
      modifies this
      ensures View() == Allocated(c, old(View()), granted, lifetime, now)
    {
      Grant(lifetime, now);
      hide Granted;
      relay := Some(granted);
      maintenanceRefresh := Some(now + c.profile.maintenanceRefresh);
      keepalive := Some(now + c.profile.keepaliveInterval);
    }

    method CompleteAllocate(r: Response, now: time, draw: Draw) returns (ok: bool)
      modifies this
      ensures Outcome(View(), ok) == TurnState.CompleteAllocate(c, old(View()), r, now, draw)
    {
      hide Allocated;
      hide TurnState.PushEvent;
      hide TurnState.SetState;
      hide TurnState.StartOperation;
      hide TurnState.Complete;
      var releasing := shuttingDown;
      assert releasing == View().shuttingDown;
      hide View;
      if r.relay.Err? || r.relay.value.ip.V4? != c.peer.ip.V4? || r.relay.value.port == 0 {
        return false;
      }
      if r.lifetime == Some(0) {
        return false;
      }
      GrantAllocation(r.relay.value, r.lifetime, now);
      PushEvent(RelayAddress(FromSocketAddr(r.relay.value)));
      if releasing {
        SetState(Deallocating);
        ok := StartOperation(Deallocate, true, 0, draw);
        return;
      }
      SetState(Ready);
      Complete(Allocate, NoError, 0);
      ok := true;
    }

    method CompleteDeallocate(r: Response) returns (ok: bool)
      modifies this
      ensures forall now, draw ::
        Outcome(View(), ok) == TurnState.CompleteSuccess(c, old(View()), Deallocate, r, now, draw)
    {
      hide TurnState.Complete;
      hide TurnState.SetState;
      if r.lifetime.Some? && r.lifetime.value != 0 {
        return false;
      }
      hide View;
      ForgetGrant();
      Complete(Deallocate, NoError, 0);
      SetState(Deallocated);
      ok := true;
    }

    method CompleteChannel()
      modifies this
      ensures forall r, now, draw ::
        Outcome(View(), true) == TurnState.CompleteSuccess(c, old(View()), Channel, r, now, draw)
    {
      hide TurnState.Complete;
      hide TurnState.PushEvent;
      channel, channelFailures := Some(CHANNEL_NUMBER), 0;
      PushEvent(ChannelBound(CHANNEL_NUMBER, FromSocketAddr(c.peer)));
      Complete(Channel, NoError, 0);
    }

    method CompleteSuccess(operation: Operation, r: Response, now: time, draw: Draw) returns (ok: bool)
      modifies this
      ensures Outcome(View(), ok) == TurnState.CompleteSuccess(c, old(View()), operation, r, now, draw)
    {
      hide TurnState.CompleteAllocate;
      hide TurnState.Complete;
      hide TurnState.SetState;
      hide TurnState.PushEvent;
      hide Granted;
      ok := true;
      match operation {
        case Allocate =>
          ok := CompleteAllocate(r, now, draw);
        case Refresh =>
          if r.lifetime == Some(0) {
            return false;
          }
          Grant(r.lifetime, now);
          Complete(Refresh, NoError, 0);
        case Deallocate =>
          ok := CompleteDeallocate(r);
        case Permission =>
          permissionFailures := 0;
          Complete(Permission, NoError, 0);
        case Channel =>
          CompleteChannel();
      }
    }

    // -------------------------------------------------------------- responses

    method TakePending(i: nat) returns (p: Pending)
      requires i < |pending|
      modifies this
      ensures p == old(pending)[i] && View() == TurnState.TakePending(old(View()), i)
    {
      p := pending[i];
      pending := pending[..i] + pending[i + 1..];
      RemoveQueuedTransaction(p.transaction);
    }

    method FindAnswered(r: Response) returns (found: Option<nat>)
      ensures found == Match(pending, r)
    {
      var i := 0;
      while i < |pending|
        invariant 0 <= i <= |pending|
        invariant forall j :: 0 <= j < i ==> !Answers(pending[j], r)
      {
        if pending[i].transaction == r.transaction && MethodFor(pending[i].operation) == r.method_ {
          return Some(i);
        }
        i := i + 1;
      }
      found := None;
    }

    method HandleError(p: Pending, r: Response, now: time, draw: Draw)
      requires !r.success
      modifies this
      ensures View() == TurnState.HandleError(c, old(View()), p, r, now, draw)
    {
      hide TurnState.PushEvent;
      hide TurnState.CompleteFailure;
      hide TurnState.DestroyAllocation;
      hide TurnState.StartOperation;
      var method_ := MethodFor(p.operation);
      var seenIn := state;
      var code := if r.code.Some? then r.code.value else 0;
      if code == 0 {
        PushEvent(ResponseError(method_, Protocol, 0, seenIn));
        CompleteFailure(p.operation, Protocol, 0, now);
        return;
      }
      if RequiresRecreate(p.operation, code) {
        PushEvent(ResponseError(method_, NoError, code, seenIn));
        DestroyAllocation(p.operation, Protocol, code);
        return;
      }
      var challenge := if r.realm.Some? then r.realm else if code == 438 then realm else None;
      if (code == 401 || code == 438) && p.nonceRetries < c.profile.maxNonceRetries
         && challenge.Some? && r.nonce.Some?
      {
        SetAuth(challenge.value, r.nonce.value);
        var retried := StartOperation(p.operation, true, p.nonceRetries + 1, draw);
        if retried {
          return;
        }
      }
      PushEvent(ResponseError(method_, NoError, code, seenIn));
      CompleteFailure(p.operation, Protocol, code, now);
    }

    method HandleResponse(r: Response, verified: bool, now: time, draw: Draw) returns (status: Status)
      modifies this
      ensures Reply(View(), status) == TurnState.HandleResponse(c, old(View()), r, verified, now, draw)
    {
      hide TurnState.PushEvent;
      hide TurnState.CompleteFailure;
      hide TurnState.CompleteSuccess;
      hide TurnState.HandleError;
      hide TurnState.TakePending;
      hide Match;
      var found := FindAnswered(r);
      if found.None? {
        return NotControl;
      }
      var authenticated := pending[found.value].authenticated;
      if authenticated && RequiresIntegrity(r) && !verified && !FingerprintedMismatch(r) {
        if !r.success && r.code.Some? {
          PushEvent(ResponseError(r.method_, Authentication, r.code.value, state));
        }
        return Authentication;
      }
      var p := TakePending(found.value);
      if r.success && !authenticated {
        CompleteFailure(p.operation, Authentication, 0, now);
        return Authentication;
      }
      if !r.success {
        HandleError(p, r, now, draw);
        return NoError;
      }
      var ok := CompleteSuccess(p.operation, r, now, draw);
      if !ok {
        CompleteFailure(p.operation, Protocol, 0, now);
        return Protocol;
      }
      status := NoError;
    }

    method InputStun(packet: bytes, now: time, draw: Draw) returns (status: Status)
      modifies this
      ensures Reply(View(), status) == TurnState.InputStun(c, old(View()), packet, now, draw)
    {
      hide TurnState.HandleResponse;
      hide Decode;
      hide ReadResponse;
      hide VerifyIntegrity;
      var decoded := DecodeMessage(packet);
      if decoded.Err? {
        return InvalidArgument;
      }
      var message := decoded.value;
      if message.Class() != Class.Success && message.Class() != Error {
        return NotControl;
      }
      if message.FingerprintValid(c.crypto) == Some(false) {
        return InvalidArgument;
      }
      status := HandleResponse(ReadResponse(c.crypto, message),
                               VerifyIntegrity(c.crypto, message, key), now, draw);
    }

    // -------------------------------------------------------------- polling

    method ExpireTransactions(now: time)
      modifies this
      ensures View() == ExpireFrom(c, old(View()), now, 0)
    {
      hide TurnState.QueuePacket;
      hide TurnState.CompleteFailure;
      hide TurnState.TakePending;
      var index := 0;
      while index < |pending|
        invariant ExpireFrom(c, View(), now, index) == ExpireFrom(c, old(View()), now, 0)
        decreases |pending| - index
      {
        if now < pending[index].nextAttempt {
          index := index + 1;
          continue;
        }
        ghost var before := View();
        if pending[index].transmissions >= MAX_TRANSMISSIONS || c.transport == Stream {
          TakenShrinks(before, index);
          var p := TakePending(index);
          CompleteFailure(p.operation, Timeout, 0, now);
          continue;
        }
        QueuedSame(before, pending[index].packet);
        QueuePacket(pending[index].packet);
        pending := pending[index := Retransmit(pending[index], now)];
        index := index + 1;
      }
    }

    method CheckExpiry(now: time)
      modifies this
      ensures View() == TurnState.CheckExpiry(old(View()), now)
    {
      if !shuttingDown && state == Ready && Due(allocationExpires, now) {
        DestroyAllocation(Refresh, Timeout, 0);
      }
      hide TurnState.DestroyAllocation;
    }

    method PollRefresh(now: time, draw: Draw) returns (ok: bool, started: bool)
      modifies this
      ensures Started(View(), ok, started) == TurnState.PollRefresh(c, old(View()), now, draw)
    {
      hide TurnState.StartOperation;
      if Due(allocationRefresh, now) && !HasOperation(pending, Refresh) {
        allocationRefresh := None;
        ok := StartOperation(Refresh, true, 0, draw);
        return ok, true;
      }
      return true, false;
    }

    method PollPermission(due: bool, draw: Draw) returns (ok: bool, started: bool)
      modifies this
      ensures Started(View(), ok, started) == TurnState.PollPermission(c, old(View()), due, draw)
    {
      hide TurnState.StartOperation;
      if due && !HasOperation(pending, Permission) {
        permissionRetry := None;
        ok := StartOperation(Permission, true, 0, draw);
        return ok, true;
      }
      return true, false;
    }

    method PollChannel(due: bool, draw: Draw) returns (ok: bool, started: bool)
      modifies this
      ensures Started(View(), ok, started) == TurnState.PollChannel(c, old(View()), due, draw)
    {
      hide TurnState.StartOperation;
      if due && !HasOperation(pending, Channel) {
        channelRetry := None;
        ok := StartOperation(Channel, true, 0, draw);
        return ok, true;
      }
      return true, false;
    }

    method PollKeepalive(now: time, started: bool)
      modifies this
      ensures View() == TurnState.PollKeepalive(c, old(View()), now, started)
    {
      hide TurnState.QueueKeepalive;
      if Due(keepalive, now) {
        keepalive := Some(now + c.profile.keepaliveInterval);
        if !started {
          QueueKeepalive();
        }
      }
    }

    method PushMaintenance(now: time)
      modifies this`maintenanceRefresh
      ensures View()
              == old(View()).(maintenanceRefresh := Some(now + c.profile.maintenanceRefresh))
    {
      maintenanceRefresh := Some(now + c.profile.maintenanceRefresh);
    }

    /** The maintenance section of a poll; false when a start failed and the poll returns early. */
    method PollMaintenance(now: time, draws: PollDraws) returns (ok: bool)
      modifies this
      ensures Outcome(View(), ok) == TurnState.PollMaintenance(c, old(View()), now, draws)
    {
      hide TurnState.PollRefresh;
      hide TurnState.PollPermission;
      hide TurnState.PollChannel;
      hide TurnState.PollKeepalive;
      hide Due;
      var maintenanceDue := Due(maintenanceRefresh, now);
      var permissionDue := Due(permissionRetry, now);
      var channelDue := Due(channelRetry, now);
      assert maintenanceDue == Due(View().maintenanceRefresh, now)
             && permissionDue == Due(View().permissionRetry, now)
             && channelDue == Due(View().channelRetry, now);
      hide View;
      var refreshStarted, permissionStarted, channelStarted;
      ok, refreshStarted := PollRefresh(now, draws.refresh);
      if !ok {
        return;
      }
      if maintenanceDue {
        PushMaintenance(now);
      }
      ok, permissionStarted := PollPermission(maintenanceDue || permissionDue, draws.permission);
      if !ok {
        return;
      }
      ok, channelStarted := PollChannel(maintenanceDue || channelDue, draws.channel);
      if !ok {
        return;
      }
      PollKeepalive(now, refreshStarted || permissionStarted || channelStarted);
    }

    method ComputeNextDeadline() returns (deadline: Option<time>)
      ensures deadline == NextDeadline(View())
    {
      var rest := Sooner(allocationRefresh,
                  Sooner(maintenanceRefresh,
                  Sooner(permissionRetry, Sooner(channelRetry, keepalive))));
      deadline := None;
      var i := |pending|;
      while i > 0
        invariant 0 <= i <= |pending|
        invariant deadline == NextAttempts(pending[i..])
      {
        i := i - 1;
        assert pending[i..][1..] == pending[i + 1..];
        deadline := Sooner(Some(pending[i].nextAttempt), deadline);
      }
      deadline := Sooner(deadline, rest);
    }

    method Poll(now: time, draws: PollDraws) returns (ok: bool, delay: Option<time>)
      modifies this
      ensures Polled(View(), ok, delay) == TurnState.Poll(c, old(View()), now, draws)
    {
      hide ExpireFrom;
      hide TurnState.CheckExpiry;
      hide TurnState.PollMaintenance;
      hide NextDeadline;
      if destroyed {
        return true, None;
      }
      ExpireTransactions(now);
      CheckExpiry(now);
      if !shuttingDown && state == Ready {
        ok := PollMaintenance(now, draws);
        if !ok {
          return false, None;
        }
      }
      var deadline := ComputeNextDeadline();
      return true, Delay(deadline, now);
    }

    // -------------------------------------------------------------- the other entry points

    method StartAllocation(draw: Draw) returns (ok: bool)
      modifies this
      ensures Outcome(View(), ok) == TurnState.StartAllocation(c, old(View()), draw)
    {
      hide TurnState.StartOperation;
      hide TurnState.SetState;
      if destroyed || shuttingDown || state != Null {
        return false;
      }
      SetState(Allocating);
      ok := StartOperation(Allocate, false, 0, draw);
    }

    method StartMaintenance(operation: Operation, draw: Draw) returns (ok: bool)
      modifies this
      ensures Outcome(View(), ok) == TurnState.StartMaintenance(c, old(View()), operation, draw)
    {
      hide TurnState.StartOperation;
      if destroyed || shuttingDown || state != Ready {
        return false;
      }
      ok := StartOperation(operation, true, 0, draw);
    }

    method BeginShutdown()
      modifies this
      ensures View() == old(View()).(
        shuttingDown := true, channel := None, maintenanceRefresh := None, permissionRetry := None,
        channelRetry := None, keepalive := None, controls := [])
    {
      StopMaintenance();
      shuttingDown := true;
      controls := [];
    }

    method ClearPending()
      modifies this`pending
      ensures View() == old(View()).(pending := [])
    {
      pending := [];
    }

    method GracefulShutdown(draw: Draw) returns (ok: bool)
      modifies this
      ensures Outcome(View(), ok) == TurnState.GracefulShutdown(c, old(View()), draw)
    {
      hide TurnState.StartOperation;
      hide TurnState.SetState;
      if destroyed || shuttingDown {
        return true;
      }
      BeginShutdown();
      assert state == View().state && allocationExpires == View().allocationExpires;
      if state == Ready || (state == Destroying && allocationExpires.Some?) {
        hide View;
        ClearPending();
        SetState(Deallocating);
        ok := StartOperation(Deallocate, true, 0, draw);
        return;
      } else if state != Allocating {
        hide View;
        ClearPending();
      }
      ok := true;
    }

    method MarkDestroyed()
      modifies this
      ensures View() == old(View()).(destroyed := true, controls := [], pending := [])
    {
      destroyed, controls, pending := true, [], [];
    }

    method ForceDestroy(reason: Status)
      modifies this
      ensures View() == TurnState.ForceDestroy(old(View()), reason)
    {
      hide TurnState.SetState;
      hide TurnState.PushEvent;
      if destroyed {
        return;
      }
      hide View;
      MarkDestroyed();
      SetState(Destroying);
      PushEvent(ForcedDestroy(reason));
    }

    method PullControl() returns (pulled: Option<Result<bytes>>)
      modifies this`controls
      ensures (View(), pulled) == TurnState.PullControl(old(View()))
    {
      if controls == [] {
        return None;
      }
      var front := controls[0];
      controls := controls[1..];
      return Some(if |front| > PULL_BUFFER then Err else Ok(front));
    }

    method PullEvent() returns (pulled: Option<Event>)
      modifies this`events, this`drained
      ensures (View(), pulled) == TurnState.PullEvent(old(View()))
      ensures old(events) == [] ==> pulled.None? && events == [] && drained == old(drained)
      ensures old(events) != [] ==>
                pulled == Some(old(events)[0]) && events == old(events)[1..]
                && drained == old(drained) + [old(events)[0]]
    {
      if events == [] {
        return None;
      }
      pulled := Some(events[0]);
      drained := drained + [events[0]];
      events := events[1..];
    }
  }

  lemma TakenShrinks(s: Core, i: nat)
    requires i < |s.pending|
    ensures |TurnState.TakePending(s, i).pending| == |s.pending| - 1
  {
  }

  lemma QueuedSame(s: Core, packet: bytes)
    ensures TurnState.QueuePacket(s, packet).pending == s.pending
  {
  }
}
