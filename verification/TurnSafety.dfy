/** The invariant of the TURN client and the proof that every entry point keeps it, so that it
    holds in every run. */
module TurnSafety {
  import opened Bytes
  import opened Addresses
  import opened StunMessages
  import opened StunBuilder
  import opened TurnRequests
  import opened TurnState

  // ---------------------------------------------------------------- runs

  datatype Action =
    | StartAllocate(draw: Draw)
    | StartPermission(draw: Draw)
    | StartChannel(draw: Draw)
    | Input(packet: bytes, now: time, draw: Draw)
    | PollAt(at: time, draws: PollDraws)
    | Shutdown(draw: Draw)
    | Force(reason: Status)
    | TakeControl
    | TakeEvent

  /** What the drivers guarantee: no STUN message they hand over is longer than a control frame. */
  predicate Admissible(a: Action) {
    a.Input? ==> |a.packet| <= MAX_STUN_INPUT
  }

  function Apply(c: Config, s: Core, a: Action): Core {
    match a
    case StartAllocate(draw) => StartAllocation(c, s, draw).core
    case StartPermission(draw) => StartMaintenance(c, s, Permission, draw).core
    case StartChannel(draw) => StartMaintenance(c, s, Channel, draw).core
    case Input(packet, now, draw) => InputStun(c, s, packet, now, draw).core
    case PollAt(now, draws) => Poll(c, s, now, draws).core
    case Shutdown(draw) => GracefulShutdown(c, s, draw).core
    case Force(reason) => ForceDestroy(s, reason)
    case TakeControl => PullControl(s).0
    case TakeEvent => PullEvent(s).0
  }

  function Run(c: Config, s: Core, actions: seq<Action>): Core
    decreases |actions|
  {
    if actions == [] then s else Run(c, Apply(c, s, actions[0]), actions[1..])
  }

  // ---------------------------------------------------------------- the invariant

  predicate Maintains(operation: Operation) {
    operation == Refresh || operation == Permission || operation == Channel
  }

  ghost predicate Distinct(pending: seq<Pending>) {
    forall i, j :: 0 <= i < j < |pending| ==> pending[i].operation != pending[j].operation
  }

  /** Which transactions may be pending in which state. `missing` is a transaction that has just
      been taken off the list and whose completion is under way. */
  ghost predicate Staged(s: Core, missing: Option<Operation>) {
    match s.state
    case Ready =>
      && (forall i :: 0 <= i < |s.pending| ==> Maintains(s.pending[i].operation))
      && Distinct(s.pending)
      && (missing.Some? ==> Maintains(missing.value) && !HasOperation(s.pending, missing.value))
    case Allocating => Lone(s, Allocate, missing)
    case Deallocating => Lone(s, Deallocate, missing)
    case _ => s.pending == [] && missing.None?
  }

  ghost predicate Lone(s: Core, operation: Operation, missing: Option<Operation>) {
    if missing.None? then |s.pending| == 1 && s.pending[0].operation == operation
    else s.pending == [] && missing.value == operation
  }

  ghost predicate Flags(s: Core) {
    && (s.state == Ready ==> !s.shuttingDown)
    && (s.state == Deallocating || s.state == Deallocated ==> s.shuttingDown)
    && (s.destroyed ==> s.state == Destroying && s.controls == [])
  }

  /** A live allocation has everything its maintenance needs, and its refresh is never forgotten:
      exactly one of "timer set" and "refresh pending" holds. */
  ghost predicate Equipped(s: Core, missing: Option<Operation>) {
    s.state == Ready ==>
      && s.relay.Some? && s.allocationExpires.Some? && s.keepalive.Some? && s.maintenanceRefresh.Some?
      && HasCredentials(s)
      && s.channelFailures < MAX_CHANNEL_FAILURES
      && (s.allocationRefresh.Some? <==> !HasOperation(s.pending, Refresh) && missing != Some(Refresh))
  }

  ghost predicate Unallocated(s: Core) {
    && (s.state == Null || s.state == Allocating ==>
          s.relay.None? && s.allocationExpires.None? && s.channelFailures == 0)
    && (s.channel.Some? ==> s.channel.value == CHANNEL_NUMBER && (s.state == Ready || s.destroyed))
  }

  ghost predicate CredentialsBounded(c: Config, s: Core) {
    && |c.username| <= MAX_STUN_INPUT
    && (s.realm.Some? ==> |s.realm.value| <= MAX_STUN_INPUT)
    && (s.nonce.Some? ==> |s.nonce.value| <= MAX_STUN_INPUT)
  }

  /** The packet of a transaction is a request of its own operation, signed when the transaction is
      authenticated. */
  ghost predicate IsRequest(c: Config, p: Pending) {
    exists auth: Option<Auth> ::
      AuthBounded(auth) && auth.Some? == p.authenticated
      && BuildRequest(c.crypto, p.operation, c.peer, p.transaction, auth) == Ok(p.packet)
  }

  /** The wait after the k-th transmission of a datagram: 200, 400, 800, then 1600 ms. */
  function Wait(transmissions: nat): time {
    if transmissions <= 1 then INITIAL_RTO
    else Min(2 * Wait(transmissions - 1), MAX_RTO)
  }

  /** When a punctually polled datagram transaction may act again after its k-th transmission. */
  function Offset(transmissions: nat): time {
    if transmissions <= 1 then INITIAL_RTO else Offset(transmissions - 1) + Wait(transmissions)
  }

  /** The timing of a transaction since it started. */
  ghost predicate Scheduled(c: Config, p: Pending) {
    match c.transport
    case Datagram => p.rto == Wait(p.transmissions) && p.nextAttempt >= p.started + Offset(p.transmissions)
    case Stream => p.transmissions == 1 && p.nextAttempt == p.started + STREAM_TRANSACTION_TIMEOUT
  }

  ghost predicate PendingOk(c: Config, s: Core, p: Pending) {
    && IsRequest(c, p)
    && Scheduled(c, p)
    && CarriesTransaction(p.packet, p.transaction)
    && (p.operation != Allocate ==> p.authenticated)
    && (p.authenticated ==> HasCredentials(s))
    && p.nonceRetries <= c.profile.maxNonceRetries
    && 1 <= p.transmissions <= MAX_TRANSMISSIONS
  }

  ghost predicate Credentialed(c: Config, s: Core) {
    && CredentialsBounded(c, s)
    && (s.allocationExpires.Some? ==> HasCredentials(s))
    && forall i :: 0 <= i < |s.pending| ==> PendingOk(c, s, s.pending[i])
  }

  ghost predicate Owned(pending: seq<Pending>, packet: bytes) {
    || packet == KeepalivePacket(CHANNEL_NUMBER)
    || exists i :: 0 <= i < |pending| && pending[i].packet == packet
  }

  /** Both rings are bounded and every queued STUN packet belongs to a pending transaction. */
  ghost predicate Queued(s: Core) {
    && |s.controls| <= CONTROL_CAPACITY
    && |s.events| <= EVENT_CAPACITY
    && forall k :: k in s.controls ==> Owned(s.pending, k)
  }

  ghost predicate Holding(c: Config, s: Core, missing: Option<Operation>) {
    && Staged(s, missing)
    && Flags(s)
    && Equipped(s, missing)
    && Unallocated(s)
    && Credentialed(c, s)
    && Queued(s)
  }

  ghost predicate Inv(c: Config, s: Core) {
    Holding(c, s, None)
  }

  // ---------------------------------------------------------------- queue frames

  /** Only the two rings, and with them the history of events, may differ. */
  ghost predicate SameButQueues(s: Core, t: Core) {
    t == s.(controls := t.controls, events := t.events, emitted := t.emitted)
  }

  lemma PushForm(s: Core, e: Event)
    requires |s.events| <= EVENT_CAPACITY
    ensures var t := PushEvent(s, e);
            && t == s.(events := t.events, emitted := s.emitted + [e])
            && |t.events| <= EVENT_CAPACITY
  {
  }

  lemma SetStateForm(s: Core, state: State)
    requires |s.events| <= EVENT_CAPACITY
    ensures var t := SetState(s, state);
            && t == s.(state := state, events := t.events, emitted := t.emitted)
            && |t.events| <= EVENT_CAPACITY
  {
  }

  lemma CompleteForm(s: Core, operation: Operation, status: Status, code: nat)
    requires |s.events| <= EVENT_CAPACITY
    ensures var t := Complete(s, operation, status, code);
            && t == s.(events := t.events, emitted := t.emitted)
            && |t.events| <= EVENT_CAPACITY
  {
    hide RelayOf;
  }

  lemma QueuePacketKeeps(s: Core, packet: bytes)
    requires |s.controls| <= CONTROL_CAPACITY && |s.events| <= EVENT_CAPACITY
    ensures var t := QueuePacket(s, packet);
            && SameButQueues(s, t)
            && |t.controls| <= CONTROL_CAPACITY && |t.events| <= EVENT_CAPACITY
            && forall k :: k in t.controls ==> k in s.controls || k == packet
  {
  }

  lemma {:induction false} WithoutTransactionIs(controls: seq<bytes>, transaction: Octets12)
    ensures forall k :: k in WithoutTransaction(controls, transaction)
                        <==> k in controls && !CarriesTransaction(k, transaction)
    ensures |WithoutTransaction(controls, transaction)| <= |controls|
  {
    if controls != [] {
      WithoutTransactionIs(controls[1..], transaction);
      assert controls == [controls[0]] + controls[1..];
    }
  }

  // ---------------------------------------------------------------- starting

  /** A start that is not a repeat always succeeds, and adds exactly one pending transaction whose
      packet is queued. */
  lemma StartKeeps(c: Config, s: Core, operation: Operation, authenticated: bool, nonceRetries: nat,
                   draw: Draw)
      returns (packet: bytes)
    requires !HasOperation(s.pending, operation)
    requires authenticated ==> HasCredentials(s)
    requires CredentialsBounded(c, s) && Queued(s)
    ensures CarriesTransaction(packet, draw.transaction)
    ensures var r := StartOperation(c, s, operation, authenticated, nonceRetries, draw);
            var p := NewPending(c, operation, packet, authenticated, nonceRetries, draw);
            && r.ok
            && IsRequest(c, p) && Scheduled(c, p)
            && SameButQueues(s.(pending := s.pending + [p]), r.core)
            && Queued(r.core)
  {
    var auth := AuthOf(c, s, authenticated);
    RequestBuilds(c.crypto, operation, c.peer, draw.transaction, auth);
    hide BuildRequest;
    packet := BuildRequest(c.crypto, operation, c.peer, draw.transaction, auth).value;
    QueuePacketKeeps(s, packet);
    hide QueuePacket;
    var t := QueuePacket(s, packet);
    var p := NewPending(c, operation, packet, authenticated, nonceRetries, draw);
    OwnedMore(s.pending, p, t.controls);
  }

  lemma OwnedMore(pending: seq<Pending>, p: Pending, controls: seq<bytes>)
    requires forall k :: k in controls ==> Owned(pending, k) || k == p.packet
    ensures forall k :: k in controls ==> Owned(pending + [p], k)
  {
    var more := pending + [p];
    forall k | k in controls ensures Owned(more, k) {
      if k == p.packet {
        assert more[|pending|].packet == k;
      } else if k != KeepalivePacket(CHANNEL_NUMBER) {
        var i :| 0 <= i < |pending| && pending[i].packet == k;
        assert more[i].packet == k;
      }
    }
  }

  // ---------------------------------------------------------------- taking a transaction off

  lemma WithoutHas(pending: seq<Pending>, i: nat)
    requires i < |pending| && Distinct(pending)
    ensures Distinct(Without(pending, i))
    ensures forall o :: HasOperation(Without(pending, i), o)
                        <==> HasOperation(pending, o) && o != pending[i].operation
  {
    var rest := Without(pending, i);
    assert forall j :: 0 <= j < |rest| ==> rest[j] == pending[if j < i then j else j + 1];
    forall o | HasOperation(pending, o) && o != pending[i].operation
      ensures HasOperation(rest, o)
    {
      var j :| 0 <= j < |pending| && pending[j].operation == o;
      assert rest[if j < i then j else j - 1].operation == o;
    }
  }

  lemma WithoutOwned(pending: seq<Pending>, i: nat, controls: seq<bytes>)
    requires i < |pending| && CarriesTransaction(pending[i].packet, pending[i].transaction)
    requires forall k :: k in controls ==> Owned(pending, k)
    ensures forall k :: k in WithoutTransaction(controls, pending[i].transaction) ==>
              Owned(Without(pending, i), k)
  {
    var rest := Without(pending, i);
    WithoutTransactionIs(controls, pending[i].transaction);
    forall k | k in WithoutTransaction(controls, pending[i].transaction) ensures Owned(rest, k) {
      if k != KeepalivePacket(CHANNEL_NUMBER) {
        assert Owned(pending, k);
        var j :| 0 <= j < |pending| && pending[j].packet == k;
        assert rest[if j < i then j else j - 1].packet == k;
      }
    }
  }

  /** Removing an answered or expired transaction, and its queued copies, leaves the invariant short
      of exactly that operation. */
  lemma TakeKeeps(c: Config, s: Core, i: nat)
    requires Inv(c, s) && i < |s.pending|
    ensures Holding(c, TakePending(s, i), Some(s.pending[i].operation))
  {
    hide Scheduled;
    hide IsRequest;
    var t := TakePending(s, i);
    assert PendingOk(c, s, s.pending[i]);
    WithoutTransactionIs(s.controls, s.pending[i].transaction);
    WithoutOwned(s.pending, i, s.controls);
    assert Distinct(s.pending);
    WithoutHas(s.pending, i);
    assert HasOperation(s.pending, s.pending[i].operation);
    TakenKeeps(c, s, t, i);
  }

  lemma TakenKeeps(c: Config, s: Core, t: Core, i: nat)
    requires Inv(c, s) && i < |s.pending|
    requires t == s.(pending := Without(s.pending, i), controls := t.controls)
    requires |t.controls| <= |s.controls|
    requires forall k :: k in t.controls ==> Owned(t.pending, k)
    requires Distinct(t.pending) && HasOperation(s.pending, s.pending[i].operation)
    requires forall o :: HasOperation(t.pending, o)
                         <==> HasOperation(s.pending, o) && o != s.pending[i].operation
    ensures Holding(c, t, Some(s.pending[i].operation))
  {
    hide Scheduled;
    hide IsRequest;
    hide HasOperation;
    hide Owned;
    hide PendingOk;
    hide KeepalivePacket;
    assert forall j :: 0 <= j < |t.pending| ==>
             t.pending[j] == s.pending[if j < i then j else j + 1];
    PendingStays(c, s, t);
  }

  /** The per-transaction facts depend on the credentials alone. */
  lemma PendingStays(c: Config, s: Core, t: Core)
    requires t.realm == s.realm && t.nonce == s.nonce && t.key == s.key
    ensures forall p :: PendingOk(c, s, p) ==> PendingOk(c, t, p)
  {
    hide IsRequest;
    hide Scheduled;
    hide CarriesTransaction;
  }

  // ---------------------------------------------------------------- failures

  /** Nothing but the bound on the ring depends on the events. */
  lemma EventsKeep(c: Config, s: Core, t: Core, missing: Option<Operation>)
    requires Holding(c, s, missing)
    requires t == s.(events := t.events, emitted := t.emitted) && |t.events| <= EVENT_CAPACITY
    ensures Holding(c, t, missing)
  {
    hide Scheduled;
    hide IsRequest;
    hide HasOperation;
    hide Owned;
    assert forall i :: 0 <= i < |s.pending| ==> PendingOk(c, s, s.pending[i]);
  }

  lemma CompleteKeeps(c: Config, s: Core, operation: Operation, status: Status, code: nat,
                      missing: Option<Operation>)
    requires Holding(c, s, missing)
    ensures Holding(c, Complete(s, operation, status, code), missing)
    ensures SameButQueues(s, Complete(s, operation, status, code))
  {
    hide Scheduled;
    hide IsRequest;
    CompleteForm(s, operation, status, code);
    hide Complete;
    EventsKeep(c, s, Complete(s, operation, status, code), missing);
  }

  lemma PushKeeps(c: Config, s: Core, e: Event, missing: Option<Operation>)
    requires Holding(c, s, missing)
    ensures Holding(c, PushEvent(s, e), missing)
  {
    hide Scheduled;
    hide IsRequest;
    PushForm(s, e);
    hide PushEvent;
    EventsKeep(c, s, PushEvent(s, e), missing);
  }

  /** Giving up an allocation: legal from any state that has not been destroyed. */
  lemma DestroyKeeps(c: Config, s: Core, operation: Operation, status: Status, code: nat)
    requires !s.destroyed && |s.events| <= EVENT_CAPACITY && CredentialsBounded(c, s)
    requires operation == Deallocate ==> s.shuttingDown
    ensures Inv(c, DestroyAllocation(s, operation, status, code))
  {
    hide Scheduled;
    hide IsRequest;
    CompleteForm(s, operation, status, code);
    hide Complete;
    var cleared := Complete(s, operation, status, code).(
      controls := [], pending := [], channel := None, allocationRefresh := None,
      allocationExpires := None, maintenanceRefresh := None, permissionRetry := None,
      channelRetry := None, keepalive := None, relay := None);
    SetStateForm(cleared, if operation == Deallocate then Deallocated else Destroying);
    hide SetState;
  }

  lemma FailKeeps(c: Config, s: Core, operation: Operation, status: Status, code: nat, now: time)
    requires Holding(c, s, Some(operation))
    ensures Inv(c, CompleteFailure(s, operation, status, code, now))
  {
    hide Scheduled;
    hide IsRequest;
    if Retryable(s, operation, now) {
      CompleteKeeps(c, s, operation, status, code, Some(operation));
      hide Complete;
      RetryKeeps(c, Complete(s, operation, status, code), operation, now);
    } else {
      DestroyKeeps(c, s, operation, status, code);
    }
  }

  lemma RetryKeeps(c: Config, s: Core, operation: Operation, now: time)
    requires Holding(c, s, Some(operation)) && s.state == Ready
    ensures var r := ScheduleRetry(s, operation, now);
            Inv(c, if r.ok then r.core else DestroyAfterRebindExhausted(r.core))
  {
    hide Scheduled;
    hide IsRequest;
    hide RetryDelay;
    var r := ScheduleRetry(s, operation, now);
    assert r.core.pending == s.pending && r.core.controls == s.controls;
    assert forall i :: 0 <= i < |s.pending| ==> PendingOk(c, r.core, s.pending[i]) by {
      assert forall i :: 0 <= i < |s.pending| ==> PendingOk(c, s, s.pending[i]);
    }
    if !r.ok {
      var cleared := r.core.(controls := [], pending := [], channel := None, maintenanceRefresh := None,
                             permissionRetry := None, channelRetry := None, keepalive := None);
      PushForm(cleared, RebindExhausted);
      SetStateForm(PushEvent(cleared, RebindExhausted), Destroying);
      hide SetState;
      hide PushEvent;
    }
  }

  // ---------------------------------------------------------------- successes

  lemma SuccessKeeps(c: Config, s: Core, operation: Operation, r: Response, now: time, draw: Draw)
    requires Holding(c, s, Some(operation)) && HasCredentials(s)
    ensures var done := CompleteSuccess(c, s, operation, r, now, draw);
            if done.ok then Inv(c, done.core) else done.core == s
  {
    hide Scheduled;
    hide IsRequest;
    assert forall i :: 0 <= i < |s.pending| ==> PendingOk(c, s, s.pending[i]);
    match operation
    case Allocate => AllocateKeeps(c, s, r, now, draw);
    case Refresh =>
      if r.lifetime != Some(0) {
        var t := Granted(c, s, r.lifetime, now);
        assert forall i :: 0 <= i < |t.pending| ==> PendingOk(c, t, t.pending[i]);
        assert Inv(c, t);
        CompleteKeeps(c, t, Refresh, NoError, 0, None);
      }
    case Deallocate =>
      if !(r.lifetime.Some? && r.lifetime.value != 0) {
        var t := s.(relay := None, allocationRefresh := None, allocationExpires := None);
        CompleteKeeps(c, t, Deallocate, NoError, 0, Some(Deallocate));
      }
    case Permission =>
      var t := s.(permissionFailures := 0);
      assert forall i :: 0 <= i < |t.pending| ==> PendingOk(c, t, t.pending[i]);
      CompleteKeeps(c, t, Permission, NoError, 0, None);
    case Channel =>
      var t := s.(channel := Some(CHANNEL_NUMBER), channelFailures := 0);
      assert forall i :: 0 <= i < |t.pending| ==> PendingOk(c, t, t.pending[i]);
      var bound := ChannelBound(CHANNEL_NUMBER, FromSocketAddr(c.peer));
      PushKeeps(c, t, bound, None);
      CompleteKeeps(c, PushEvent(t, bound), Channel, NoError, 0, None);
  }

  lemma AllocateKeeps(c: Config, s: Core, r: Response, now: time, draw: Draw)
    requires Holding(c, s, Some(Allocate)) && HasCredentials(s)
    ensures var done := CompleteAllocate(c, s, r, now, draw);
            if done.ok then Inv(c, done.core) else done.core == s
  {
    hide Scheduled;
    hide IsRequest;
    if UsableRelay(c, r.relay) && r.lifetime != Some(0) {
      var granted := Allocated(c, s, r.relay.value, r.lifetime, now);
      var e := RelayAddress(FromSocketAddr(r.relay.value));
      PushForm(granted, e);
      var announced := PushEvent(granted, e);
      hide PushEvent;
      hide RefreshDeadline;
      hide Owned;
      if s.shuttingDown {
        ReleaseKeeps(c, announced, draw);
      } else {
        ReadyKeeps(c, announced);
      }
      hide SetState;
      hide StartOperation;
      hide Complete;
    }
  }

  /** An allocation granted after shutdown began goes straight into its release. */
  lemma ReleaseKeeps(c: Config, s: Core, draw: Draw)
    requires s.pending == [] && s.shuttingDown && !s.destroyed && s.channel.None?
    requires HasCredentials(s) && CredentialsBounded(c, s) && Queued(s)
    ensures var r := StartOperation(c, SetState(s, Deallocating), Deallocate, true, 0, draw);
            r.ok && Inv(c, r.core) && r.core.state == Deallocating
  {
    hide Scheduled;
    hide IsRequest;
    hide SetState;
    hide StartOperation;
    hide Owned;
    hide CarriesTransaction;
    SetStateForm(s, Deallocating);
    var packet := StartKeeps(c, SetState(s, Deallocating), Deallocate, true, 0, draw);
  }

  lemma ReadyKeeps(c: Config, s: Core)
    requires s.pending == [] && !s.shuttingDown && !s.destroyed && s.channel.None?
    requires HasCredentials(s) && CredentialsBounded(c, s) && Queued(s) && s.channelFailures == 0
    requires s.relay.Some? && s.allocationExpires.Some? && s.allocationRefresh.Some?
             && s.keepalive.Some? && s.maintenanceRefresh.Some?
    ensures Inv(c, Complete(SetState(s, Ready), Allocate, NoError, 0))
  {
    hide Scheduled;
    hide IsRequest;
    SetStateForm(s, Ready);
    hide SetState;
    CompleteKeeps(c, SetState(s, Ready), Allocate, NoError, 0, None);
    hide Complete;
  }

  // ---------------------------------------------------------------- responses

  lemma AuthKeeps(c: Config, s: Core, realm: bytes, nonce: bytes, missing: Option<Operation>)
    requires Holding(c, s, missing)
    requires |realm| <= MAX_STUN_INPUT && |nonce| <= MAX_STUN_INPUT
    ensures Holding(c, SetAuth(c, s, realm, nonce), missing)
    ensures HasCredentials(SetAuth(c, s, realm, nonce))
  {
    hide Scheduled;
    hide IsRequest;
    hide HasOperation;
    hide Owned;
    assert forall i :: 0 <= i < |s.pending| ==> PendingOk(c, s, s.pending[i]);
  }

  /** Starting the one operation that is missing completes the invariant again. */
  lemma RestartKeeps(c: Config, s: Core, operation: Operation, nonceRetries: nat, draw: Draw)
    requires Holding(c, s, Some(operation)) && HasCredentials(s)
    requires nonceRetries <= c.profile.maxNonceRetries
    requires operation == Refresh ==> s.allocationRefresh.None?
    ensures var r := StartOperation(c, s, operation, true, nonceRetries, draw);
            r.ok && Inv(c, r.core)
  {
    hide Scheduled;
    hide IsRequest;
    assert !HasOperation(s.pending, operation);
    var packet := StartKeeps(c, s, operation, true, nonceRetries, draw);
    hide StartOperation;
    AddedKeeps(c, s, StartOperation(c, s, operation, true, nonceRetries, draw).core,
               NewPending(c, operation, packet, true, nonceRetries, draw));
  }

  lemma AddedKeeps(c: Config, s: Core, t: Core, p: Pending)
    requires Holding(c, s, Some(p.operation)) && PendingOk(c, s, p)
    requires p.operation == Refresh ==> s.allocationRefresh.None?
    requires SameButQueues(s.(pending := s.pending + [p]), t) && Queued(t)
    ensures Inv(c, t)
  {
    hide Scheduled;
    hide IsRequest;
    AppendHas(s.pending, p);
    hide HasOperation;
    hide Owned;
    hide CarriesTransaction;
    assert t.pending == s.pending + [p];
    assert Credentialed(c, t) by {
      assert forall i :: 0 <= i < |s.pending| ==> PendingOk(c, s, s.pending[i]);
    }
    assert Staged(t, None);
  }

  lemma AppendHas(pending: seq<Pending>, p: Pending)
    requires !HasOperation(pending, p.operation)
    ensures Distinct(pending) ==> Distinct(pending + [p])
    ensures forall o :: HasOperation(pending + [p], o) <==> HasOperation(pending, o) || o == p.operation
  {
    var more := pending + [p];
    assert more[|pending|] == p;
    forall o | HasOperation(pending, o) ensures HasOperation(more, o) {
      var j :| 0 <= j < |pending| && pending[j].operation == o;
      assert more[j].operation == o;
    }
  }

  lemma FailWithCodeKeeps(c: Config, s: Core, p: Pending, code: nat, seenIn: State, now: time)
    requires Holding(c, s, Some(p.operation))
    ensures Inv(c, FailWithCode(s, p, code, seenIn, now))
  {
    hide Scheduled;
    hide IsRequest;
    var e := ResponseError(MethodFor(p.operation), NoError, code, seenIn);
    PushKeeps(c, s, e, Some(p.operation));
    FailKeeps(c, PushEvent(s, e), p.operation, Protocol, code, now);
    hide PushEvent;
    hide CompleteFailure;
  }

  lemma ErrorKeeps(c: Config, s: Core, p: Pending, r: Response, now: time, draw: Draw)
    requires !r.success
    requires Holding(c, s, Some(p.operation))
    requires p.operation == Refresh ==> s.allocationRefresh.None?
    requires r.realm.Some? ==> |r.realm.value| <= MAX_STUN_INPUT
    requires r.nonce.Some? ==> |r.nonce.value| <= MAX_STUN_INPUT
    ensures Inv(c, HandleError(c, s, p, r, now, draw))
  {
    hide Scheduled;
    hide IsRequest;
    hide PushEvent;
    hide CompleteFailure;
    hide DestroyAllocation;
    hide StartOperation;
    hide FailWithCode;
    var method_ := MethodFor(p.operation);
    if r.code.None? || r.code == Some(0) {
      var e := ResponseError(method_, Protocol, 0, s.state);
      PushKeeps(c, s, e, Some(p.operation));
      FailKeeps(c, PushEvent(s, e), p.operation, Protocol, 0, now);
    } else if RequiresRecreate(p.operation, r.code.value) {
      var e := ResponseError(method_, NoError, r.code.value, s.state);
      PushKeeps(c, s, e, Some(p.operation));
      DestroyKeeps(c, PushEvent(s, e), p.operation, Protocol, r.code.value);
    } else if Challenges(c, s, p, r) {
      var realm, nonce := ChallengeRealm(s, r).value, r.nonce.value;
      AuthKeeps(c, s, realm, nonce, Some(p.operation));
      RestartKeeps(c, SetAuth(c, s, realm, nonce), p.operation, p.nonceRetries + 1, draw);
    } else {
      FailWithCodeKeeps(c, s, p, r.code.value, s.state, now);
    }
  }

  lemma HandleSuccessKeeps(c: Config, s: Core, p: Pending, r: Response, now: time, draw: Draw)
    requires Holding(c, s, Some(p.operation))
    requires p.authenticated ==> HasCredentials(s)
    ensures Inv(c, HandleSuccess(c, s, p, r, now, draw).core)
  {
    hide Scheduled;
    hide IsRequest;
    hide CompleteSuccess;
    hide CompleteFailure;
    if p.authenticated {
      SuccessKeeps(c, s, p.operation, r, now, draw);
      FailKeeps(c, s, p.operation, Protocol, 0, now);
    } else {
      FailKeeps(c, s, p.operation, Authentication, 0, now);
    }
  }

  lemma ResponseKeeps(c: Config, s: Core, r: Response, verified: bool, now: time, draw: Draw)
    requires Inv(c, s)
    requires r.realm.Some? ==> |r.realm.value| <= MAX_STUN_INPUT
    requires r.nonce.Some? ==> |r.nonce.value| <= MAX_STUN_INPUT
    ensures Inv(c, HandleResponse(c, s, r, verified, now, draw).core)
  {
    hide Scheduled;
    hide IsRequest;
    hide HandleError;
    hide HandleSuccess;
    hide TakePending;
    hide PushEvent;
    var found := Match(s.pending, r);
    if found.Some? {
      var i := found.value;
      var p := s.pending[i];
      if Unverified(p, r, verified) {
        if !r.success && r.code.Some? {
          PushKeeps(c, s, ResponseError(r.method_, Authentication, r.code.value, s.state), None);
        }
      } else {
        TakeKeeps(c, s, i);
        TakenFacts(c, s, i);
        if r.success {
          HandleSuccessKeeps(c, TakePending(s, i), p, r, now, draw);
        } else {
          ErrorKeeps(c, TakePending(s, i), p, r, now, draw);
        }
      }
    }
  }

  lemma TakenFacts(c: Config, s: Core, i: nat)
    requires Inv(c, s) && i < |s.pending|
    ensures var p, t := s.pending[i], TakePending(s, i);
            && (p.authenticated ==> HasCredentials(t))
            && (p.operation == Refresh ==> t.allocationRefresh.None?)
  {
    hide Scheduled;
    hide IsRequest;
    assert PendingOk(c, s, s.pending[i]);
    assert HasOperation(s.pending, s.pending[i].operation);
  }

  lemma InputKeeps(c: Config, s: Core, packet: bytes, now: time, draw: Draw)
    requires Inv(c, s) && |packet| <= MAX_STUN_INPUT
    ensures Inv(c, InputStun(c, s, packet, now, draw).core)
  {
    hide HandleResponse;
    hide VerifyIntegrity;
    hide ReadResponse;
    hide Inv;
    var decoded := Decode(packet);
    if decoded.Ok? {
      var message := decoded.value;
      assert message.raw == packet;
      ResponseKeeps(c, s, ReadResponse(c.crypto, message), VerifyIntegrity(c.crypto, message, s.key), now, draw);
    }
  }

  // ---------------------------------------------------------------- polling

  lemma RetransmitOk(c: Config, s: Core, p: Pending, now: time)
    requires PendingOk(c, s, p) && p.transmissions < MAX_TRANSMISSIONS
    requires c.transport == Datagram && now >= p.nextAttempt
    ensures PendingOk(c, s, Retransmit(p, now))
  {
    assert Scheduled(c, Retransmit(p, now));
    var auth: Option<Auth> :|
      AuthBounded(auth) && auth.Some? == p.authenticated
      && BuildRequest(c.crypto, p.operation, c.peer, p.transaction, auth) == Ok(p.packet);
    hide BuildRequest;
    assert IsRequest(c, Retransmit(p, now));
  }

  lemma RetransmitKeeps(c: Config, s: Core, now: time, i: nat)
    requires Inv(c, s) && i < |s.pending| && s.pending[i].transmissions < MAX_TRANSMISSIONS
    requires c.transport == Datagram && now >= s.pending[i].nextAttempt
    ensures var t := QueuePacket(s, s.pending[i].packet);
            && |t.pending| == |s.pending|
            && Inv(c, t.(pending := t.pending[i := Retransmit(s.pending[i], now)]))
  {
    hide PendingOk;
    var packet := s.pending[i].packet;
    QueuePacketKeeps(s, packet);
    hide QueuePacket;
    var t := QueuePacket(s, packet);
    RetransmitOk(c, s, s.pending[i], now);
    assert Retransmit(s.pending[i], now).packet == packet
           && Retransmit(s.pending[i], now).operation == s.pending[i].operation;
    hide Retransmit;
    SamePackets(s.pending, i, Retransmit(s.pending[i], now), t.controls);
    ReplacedKeeps(c, s, t.(pending := t.pending[i := Retransmit(s.pending[i], now)]), i,
                  Retransmit(s.pending[i], now));
    hide Holding;
  }

  lemma ReplacedKeeps(c: Config, s: Core, t: Core, i: nat, p: Pending)
    requires Inv(c, s) && i < |s.pending| && PendingOk(c, s, p)
    requires p.operation == s.pending[i].operation
    requires SameButQueues(s.(pending := s.pending[i := p]), t)
    requires |t.controls| <= CONTROL_CAPACITY && |t.events| <= EVENT_CAPACITY
    requires forall k :: k in t.controls ==> Owned(t.pending, k)
    requires Distinct(s.pending) ==> Distinct(t.pending)
    requires forall o :: HasOperation(t.pending, o) <==> HasOperation(s.pending, o)
    ensures Inv(c, t)
  {
    hide Scheduled;
    hide PendingOk;
    hide Owned;
    hide HasOperation;
    PendingStays(c, s, t);
    assert s.state != Null && s.state != Deallocated && s.state != Destroying;
  }

  /** Replacing a transaction by one with the same operation and packet changes no ownership. */
  lemma SamePackets(pending: seq<Pending>, i: nat, p: Pending, controls: seq<bytes>)
    requires i < |pending| && p.operation == pending[i].operation && p.packet == pending[i].packet
    requires forall k :: k in controls ==> Owned(pending, k) || k == p.packet
    ensures forall k :: k in controls ==> Owned(pending[i := p], k)
    ensures forall o :: HasOperation(pending[i := p], o) <==> HasOperation(pending, o)
    ensures Distinct(pending) ==> Distinct(pending[i := p])
  {
    var more := pending[i := p];
    assert forall j :: 0 <= j < |pending| ==>
             more[j].operation == pending[j].operation && more[j].packet == pending[j].packet;
    forall k | k in controls ensures Owned(more, k) {
      if k == p.packet {
        assert more[i].packet == k;
      } else if k != KeepalivePacket(CHANNEL_NUMBER) {
        var j :| 0 <= j < |pending| && pending[j].packet == k;
        assert more[j].packet == k;
      }
    }
    forall o | HasOperation(pending, o) ensures HasOperation(more, o) {
      var j :| 0 <= j < |pending| && pending[j].operation == o;
      assert more[j].operation == o;
    }
  }

  lemma {:induction false} ExpireKeeps(c: Config, s: Core, now: time, index: nat)
    requires Inv(c, s)
    ensures Inv(c, ExpireFrom(c, s, now, index))
    decreases |s.pending| - index
  {
    hide Inv;
    hide CompleteFailure;
    hide TakePending;
    hide QueuePacket;
    hide Retransmit;
    if index < |s.pending| {
      var p := s.pending[index];
      if now < p.nextAttempt {
        ExpireKeeps(c, s, now, index + 1);
      } else if p.transmissions >= MAX_TRANSMISSIONS || c.transport == Stream {
        ExpiredKeeps(c, s, now, index);
        ExpireKeeps(c, CompleteFailure(TakePending(s, index), p.operation, Timeout, 0, now), now, index);
      } else {
        RetransmitKeeps(c, s, now, index);
        var t := QueuePacket(s, p.packet);
        ExpireKeeps(c, t.(pending := t.pending[index := Retransmit(p, now)]), now, index + 1);
      }
    }
  }

  lemma ExpiredKeeps(c: Config, s: Core, now: time, i: nat)
    requires Inv(c, s) && i < |s.pending|
    ensures var t := CompleteFailure(TakePending(s, i), s.pending[i].operation, Timeout, 0, now);
            Inv(c, t) && |t.pending| < |s.pending|
  {
    hide Scheduled;
    hide IsRequest;
    TakeKeeps(c, s, i);
    FailKeeps(c, TakePending(s, i), s.pending[i].operation, Timeout, 0, now);
  }

  lemma CheckExpiryKeeps(c: Config, s: Core, now: time)
    requires Inv(c, s)
    ensures Inv(c, CheckExpiry(s, now))
  {
    hide Scheduled;
    hide IsRequest;
    if !s.shuttingDown && s.state == Ready && Due(s.allocationExpires, now) {
      DestroyKeeps(c, s, Refresh, Timeout, 0);
      hide DestroyAllocation;
    }
  }

  lemma PollRefreshKeeps(c: Config, s: Core, now: time, draw: Draw)
    requires Inv(c, s) && s.state == Ready
    ensures var r := PollRefresh(c, s, now, draw);
            r.ok && Inv(c, r.core) && r.core.state == Ready
  {
    hide Scheduled;
    hide IsRequest;
    if Due(s.allocationRefresh, now) && !HasOperation(s.pending, Refresh) {
      var t := s.(allocationRefresh := None);
      hide Owned;
      assert forall i :: 0 <= i < |s.pending| ==> PendingOk(c, s, s.pending[i]);
      assert forall i :: 0 <= i < |t.pending| ==> PendingOk(c, t, t.pending[i]);
      assert Holding(c, t, Some(Refresh));
      RestartKeeps(c, t, Refresh, 0, draw);
      StartStays(c, t, Refresh, true, 0, draw);
      hide StartOperation;
    }
  }

  /** Starting never changes the state, the relay, the channel, any timer or any flag. */
  lemma StartStays(c: Config, s: Core, operation: Operation, authenticated: bool, nonceRetries: nat,
                   draw: Draw)
    ensures var t := StartOperation(c, s, operation, authenticated, nonceRetries, draw).core;
            t == s.(controls := t.controls, events := t.events, emitted := t.emitted, pending := t.pending)
  {
    hide BuildRequest;
    hide NewPending;
    if HasOperation(s.pending, operation) {
      QueueStays(s, s.pending[FirstOf(s.pending, operation)].packet);
    } else if !(authenticated && !HasCredentials(s)) {
      var r := BuildRequest(c.crypto, operation, c.peer, draw.transaction, AuthOf(c, s, authenticated));
      if r.Ok? {
        QueueStays(s, r.value);
      }
    }
    hide QueuePacket;
  }

  lemma QueueStays(s: Core, packet: bytes)
    ensures SameButQueues(s, QueuePacket(s, packet))
  {
  }

  lemma WithoutRetryKeeps(c: Config, s: Core, t: Core, operation: Operation)
    requires Inv(c, s) && s.state == Ready && !HasOperation(s.pending, operation)
    requires operation == Permission || operation == Channel
    requires t == s.(permissionRetry := t.permissionRetry, channelRetry := t.channelRetry)
    ensures Holding(c, t, Some(operation))
  {
    hide Scheduled;
    hide IsRequest;
    hide Owned;
    assert forall i :: 0 <= i < |s.pending| ==> PendingOk(c, s, s.pending[i]);
    assert forall i :: 0 <= i < |t.pending| ==> PendingOk(c, t, t.pending[i]);
  }

  lemma PollPermissionKeeps(c: Config, s: Core, due: bool, draw: Draw)
    requires Inv(c, s) && s.state == Ready
    ensures var r := PollPermission(c, s, due, draw);
            r.ok && Inv(c, r.core) && r.core.state == Ready
  {
    hide Scheduled;
    hide IsRequest;
    if due && !HasOperation(s.pending, Permission) {
      var t := s.(permissionRetry := None);
      WithoutRetryKeeps(c, s, t, Permission);
      RestartKeeps(c, t, Permission, 0, draw);
      StartStays(c, t, Permission, true, 0, draw);
      hide StartOperation;
      hide Inv;
    }
  }

  lemma PollChannelKeeps(c: Config, s: Core, due: bool, draw: Draw)
    requires Inv(c, s) && s.state == Ready
    ensures var r := PollChannel(c, s, due, draw);
            r.ok && Inv(c, r.core) && r.core.state == Ready
  {
    hide Scheduled;
    hide IsRequest;
    if due && !HasOperation(s.pending, Channel) {
      var t := s.(channelRetry := None);
      WithoutRetryKeeps(c, s, t, Channel);
      RestartKeeps(c, t, Channel, 0, draw);
      StartStays(c, t, Channel, true, 0, draw);
      hide StartOperation;
      hide Inv;
    }
  }

  /** Moving the maintenance or keepalive deadline. */
  lemma DeadlinesKeep(c: Config, s: Core, t: Core)
    requires Inv(c, s)
    requires t == s.(maintenanceRefresh := t.maintenanceRefresh, keepalive := t.keepalive)
    requires t.maintenanceRefresh.Some? && t.keepalive.Some?
    ensures Inv(c, t)
  {
    hide Scheduled;
    hide IsRequest;
    hide Owned;
    hide HasOperation;
    assert forall i :: 0 <= i < |s.pending| ==> PendingOk(c, s, s.pending[i]);
  }

  lemma PollKeepaliveKeeps(c: Config, s: Core, now: time, started: bool)
    requires Inv(c, s) && s.state == Ready
    ensures var t := PollKeepalive(c, s, now, started);
            Inv(c, t) && t.state == Ready
  {
    hide Scheduled;
    hide IsRequest;
    if Due(s.keepalive, now) {
      var t := s.(keepalive := Some(now + c.profile.keepaliveInterval));
      DeadlinesKeep(c, s, t);
      if !started && t.channel.Some? {
        QueuePacketKeeps(t, KeepalivePacket(CHANNEL_NUMBER));
        KeepaliveKeeps(c, t, QueuePacket(t, KeepalivePacket(CHANNEL_NUMBER)));
      }
    }
  }

  lemma KeepaliveKeeps(c: Config, s: Core, t: Core)
    requires Inv(c, s) && s.state == Ready
    requires SameButQueues(s, t)
    requires |t.controls| <= CONTROL_CAPACITY && |t.events| <= EVENT_CAPACITY
    requires forall k :: k in t.controls ==> k in s.controls || k == KeepalivePacket(CHANNEL_NUMBER)
    ensures Inv(c, t)
  {
    hide Scheduled;
    hide IsRequest;
    hide HasOperation;
    hide KeepalivePacket;
    assert forall i :: 0 <= i < |s.pending| ==> PendingOk(c, s, s.pending[i]);
    assert forall k :: k in t.controls ==> Owned(t.pending, k);
  }

  lemma PollMaintenanceKeeps(c: Config, s: Core, now: time, draws: PollDraws)
    requires Inv(c, s) && s.state == Ready
    ensures var r := PollMaintenance(c, s, now, draws);
            r.ok && Inv(c, r.core) && r.core.state == Ready
  {
    hide PollRefresh;
    hide PollPermission;
    hide PollChannel;
    hide PollKeepalive;
    hide Holding;
    hide Due;
    var maintenance := Due(s.maintenanceRefresh, now);
    PollRefreshKeeps(c, s, now, draws.refresh);
    var a := PollRefresh(c, s, now, draws.refresh);
    var rescheduled := if maintenance
                       then a.core.(maintenanceRefresh := Some(now + c.profile.maintenanceRefresh))
                       else a.core;
    if maintenance {
      ReadyTimers(c, a.core);
      DeadlinesKeep(c, a.core, rescheduled);
    }
    var permission := maintenance || Due(s.permissionRetry, now);
    PollPermissionKeeps(c, rescheduled, permission, draws.permission);
    var b := PollPermission(c, rescheduled, permission, draws.permission);
    var channel := maintenance || Due(s.channelRetry, now);
    PollChannelKeeps(c, b.core, channel, draws.channel);
    var d := PollChannel(c, b.core, channel, draws.channel);
    PollKeepaliveKeeps(c, d.core, now, a.any || b.any || d.any);
  }

  lemma ReadyTimers(c: Config, s: Core)
    requires Inv(c, s) && s.state == Ready
    ensures s.keepalive.Some? && s.maintenanceRefresh.Some?
  {
    hide Scheduled;
    hide IsRequest;
  }

  /** A poll keeps the invariant and never fails. */
  lemma PollKeeps(c: Config, s: Core, now: time, draws: PollDraws)
    requires Inv(c, s)
    ensures var r := Poll(c, s, now, draws);
            r.ok && Inv(c, r.core)
  {
    hide PollMaintenance;
    hide CheckExpiry;
    hide Holding;
    ExpireKeeps(c, s, now, 0);
    hide ExpireFrom;
    CheckExpiryKeeps(c, ExpireFrom(c, s, now, 0), now);
    var t := CheckExpiry(ExpireFrom(c, s, now, 0), now);
    if !t.shuttingDown && t.state == Ready {
      PollMaintenanceKeeps(c, t, now, draws);
    }
  }

  // ---------------------------------------------------------------- the other entry points

  lemma StartAllocationKeeps(c: Config, s: Core, draw: Draw)
    requires Inv(c, s)
    ensures Inv(c, StartAllocation(c, s, draw).core)
    ensures Open(s) && s.state == Null ==> StartAllocation(c, s, draw).ok
  {
    hide Scheduled;
    hide IsRequest;
    if Open(s) && s.state == Null {
      SetStateForm(s, Allocating);
      hide SetState;
      var t := SetState(s, Allocating);
      assert Queued(t) by {
        assert t.controls == s.controls && t.pending == s.pending;
      }
      var packet := StartKeeps(c, t, Allocate, false, 0, draw);
      hide StartOperation;
      hide Owned;
      hide CarriesTransaction;
    }
  }

  lemma StartMaintenanceKeeps(c: Config, s: Core, operation: Operation, draw: Draw)
    requires Inv(c, s) && (operation == Permission || operation == Channel)
    ensures Inv(c, StartMaintenance(c, s, operation, draw).core)
    ensures Open(s) && s.state == Ready ==> StartMaintenance(c, s, operation, draw).ok
  {
    hide Scheduled;
    hide IsRequest;
    if Open(s) && s.state == Ready {
      if HasOperation(s.pending, operation) {
        RepeatKeeps(c, s, operation, draw);
      } else {
        WithoutRetryKeeps(c, s, s, operation);
        RestartKeeps(c, s, operation, 0, draw);
      }
    }
    hide StartOperation;
    hide Inv;
  }

  lemma RepeatKeeps(c: Config, s: Core, operation: Operation, draw: Draw)
    requires Inv(c, s) && s.state == Ready && HasOperation(s.pending, operation)
    ensures var r := StartOperation(c, s, operation, true, 0, draw);
            r.ok && Inv(c, r.core)
  {
    hide Scheduled;
    hide IsRequest;
    if operation == Channel {
      var packet := s.pending[FirstOf(s.pending, operation)].packet;
      QueuePacketKeeps(s, packet);
      hide QueuePacket;
      var t := QueuePacket(s, packet);
      assert Owned(s.pending, packet);
      assert forall k :: k in t.controls ==> Owned(t.pending, k);
      assert forall i :: 0 <= i < |s.pending| ==> PendingOk(c, s, s.pending[i]);
    }
  }

  lemma ShutdownKeeps(c: Config, s: Core, draw: Draw)
    requires Inv(c, s)
    ensures var r := GracefulShutdown(c, s, draw);
            r.ok && Inv(c, r.core) && (s.destroyed || r.core.shuttingDown)
  {
    hide Scheduled;
    hide IsRequest;
    if !s.destroyed && !s.shuttingDown {
      var t := s.(shuttingDown := true, channel := None, maintenanceRefresh := None,
                  permissionRetry := None, channelRetry := None, keepalive := None, controls := []);
      if t.state == Ready || (t.state == Destroying && t.allocationExpires.Some?) {
        ReleaseKeeps(c, t.(pending := []), draw);
        StartStays(c, SetState(t.(pending := []), Deallocating), Deallocate, true, 0, draw);
        SetStateForm(t.(pending := []), Deallocating);
        hide StartOperation;
        hide SetState;
        hide Inv;
      } else {
        hide Owned;
        assert forall i :: 0 <= i < |s.pending| ==> PendingOk(c, s, s.pending[i]);
      }
    }
  }

  lemma ForceKeeps(c: Config, s: Core, reason: Status)
    requires Inv(c, s)
    ensures Inv(c, ForceDestroy(s, reason))
  {
    hide Scheduled;
    hide IsRequest;
    if !s.destroyed {
      var t := s.(destroyed := true, controls := [], pending := []);
      SetStateForm(t, Destroying);
      PushForm(SetState(t, Destroying), ForcedDestroy(reason));
      hide SetState;
      hide PushEvent;
    }
  }

  lemma PullsKeep(c: Config, s: Core)
    requires Inv(c, s)
    ensures Inv(c, PullControl(s).0) && Inv(c, PullEvent(s).0)
  {
    hide Scheduled;
    hide IsRequest;
    hide HasOperation;
    hide Owned;
    assert forall i :: 0 <= i < |s.pending| ==> PendingOk(c, s, s.pending[i]);
  }

  // ---------------------------------------------------------------- every run

  lemma ApplyKeeps(c: Config, s: Core, a: Action)
    requires Inv(c, s) && Admissible(a)
    ensures Inv(c, Apply(c, s, a))
  {
    hide Inv;
    match a
    case StartAllocate(draw) => StartAllocationKeeps(c, s, draw);
    case StartPermission(draw) => StartMaintenanceKeeps(c, s, Permission, draw);
    case StartChannel(draw) => StartMaintenanceKeeps(c, s, Channel, draw);
    case Input(packet, now, draw) => InputKeeps(c, s, packet, now, draw);
    case PollAt(now, draws) => PollKeeps(c, s, now, draws);
    case Shutdown(draw) => ShutdownKeeps(c, s, draw);
    case Force(reason) => ForceKeeps(c, s, reason);
    case TakeControl => PullsKeep(c, s);
    case TakeEvent => PullsKeep(c, s);
  }

  lemma {:induction false} RunKeeps(c: Config, s: Core, actions: seq<Action>)
    requires Inv(c, s) && forall a :: a in actions ==> Admissible(a)
    ensures Inv(c, Run(c, s, actions))
    decreases |actions|
  {
    hide Inv;
    hide Apply;
    if actions != [] {
      ApplyKeeps(c, s, actions[0]);
      RunKeeps(c, Apply(c, s, actions[0]), actions[1..]);
    }
  }

  lemma InitialHolds(c: Config)
    requires c.Valid()
    ensures Inv(c, Initial())
  {
    hide Scheduled;
    hide IsRequest;
  }
}
