/** The state of the sans-I/O TURN client and what each entry point does to it, as functions on
    values. `TurnCore` holds the object whose methods compute these functions in place. */
module TurnState {
  import opened Bytes
  import opened Addresses
  import opened StunMessages
  import opened StunBuilder
  import opened TurnRequests

  /** Instants and durations count nanoseconds. */
  type time = nat

  const MS: time := 1_000_000
  const SECOND: time := 1_000_000_000

  const CONTROL_CAPACITY: nat := 16
  const EVENT_CAPACITY: nat := 64
  const INITIAL_RTO: time := 200 * MS
  const MAX_RTO: time := 1600 * MS
  const MAX_TRANSMISSIONS: nat := 7
  const STREAM_TRANSACTION_TIMEOUT: time := 12 * SECOND
  const MAINTENANCE_RETRY_BASE: time := SECOND
  const MAINTENANCE_RETRY_MAX: time := 30 * SECOND
  const MAX_CHANNEL_FAILURES: nat := 4
  const PULL_BUFFER: nat := 1024

  datatype State = Null | Allocating | Ready | Deallocating | Deallocated | Destroying
  datatype Transport = Datagram | Stream

  datatype Profile = Profile(
    allocationRefresh: time,
    maintenanceRefresh: time,
    keepaliveInterval: time,
    maxNonceRetries: nat)

  const PJNATH_COMPAT: Profile := Profile(300 * SECOND, 175 * SECOND, 10 * SECOND, 3)

  datatype Config = Config(
    crypto: StunCrypto,
    server: SocketAddr,
    peer: SocketAddr,
    username: bytes,
    password: bytes,
    profile: Profile,
    transport: Transport)
  {
    /** What creation checks before it builds a core. */
    predicate Valid() {
      server.port != 0 && peer.port != 0
      && 0 < |username| <= 512 && 0 < |password| <= 512
    }
  }

  datatype Status =
    | NoError | InvalidArgument | NotControl | Timeout | Authentication | Protocol

  datatype Event =
    | StateChanged(state: State, previous: State)
    | RequestComplete(method_: u16, status: Status, code: nat, completedIn: State, boundChannel: u16,
                      relay: NativeAddress)
    | ChannelBound(channel: u16, peer: NativeAddress)
    | RelayAddress(address: NativeAddress)
    | ControlOverflow
    | ForcedDestroy(reason: Status)
    | EventOverflow
    | ResponseError(method_: u16, status: Status, code: nat, seenIn: State)
    | RebindExhausted

  /** A transaction waiting for its response. `started` is a history variable: the instant the
      transaction was created, which the program does not keep. */
  datatype Pending = Pending(
    operation: Operation,
    transaction: Octets12,
    packet: bytes,
    nextAttempt: time,
    rto: time,
    transmissions: nat,
    nonceRetries: nat,
    authenticated: bool,
    started: time)

  /** `emitted` and `drained` are history variables: every event ever pushed, and every event the
      driver pulled. Nothing reads them. */
  datatype Core = Core(
    realm: Option<bytes>,
    nonce: Option<bytes>,
    key: Option<Octets16>,
    state: State,
    relay: Option<SocketAddr>,
    channel: Option<u16>,
    controls: seq<bytes>,
    events: seq<Event>,
    pending: seq<Pending>,
    allocationRefresh: Option<time>,
    allocationExpires: Option<time>,
    maintenanceRefresh: Option<time>,
    permissionRetry: Option<time>,
    channelRetry: Option<time>,
    refreshFailures: nat,
    permissionFailures: nat,
    channelFailures: nat,
    keepalive: Option<time>,
    shuttingDown: bool,
    destroyed: bool,
    emitted: seq<Event>,
    drained: seq<Event>)

  function Initial(): Core {
    Core(None, None, None, Null, None, None, [], [], [], None, None, None, None, None, 0, 0, 0, None,
         false, false, [], [])
  }

  /** One random transaction identifier and the clock reading taken when a transaction starts. */
  datatype Draw = Draw(transaction: Octets12, clock: time)

  /** A core and whether the call that produced it succeeded. */
  datatype Outcome = Outcome(core: Core, ok: bool)

  // ---------------------------------------------------------------- queues

  function PushEvent(s: Core, e: Event): Core {
    if |s.events| >= EVENT_CAPACITY then
      s.(events := s.events[1..] + [EventOverflow], emitted := s.emitted + [e])
    else
      s.(events := s.events + [e], emitted := s.emitted + [e])
  }

  function QueuePacket(s: Core, packet: bytes): Core {
    if |s.controls| >= CONTROL_CAPACITY then
      var s' := PushEvent(s.(controls := s.controls[1..]), ControlOverflow);
      s'.(controls := s'.controls + [packet])
    else
      s.(controls := s.controls + [packet])
  }

  function SetState(s: Core, state: State): Core {
    if s.state == state then s else PushEvent(s.(state := state), StateChanged(state, s.state))
  }

  predicate CarriesTransaction(packet: bytes, transaction: Octets12) {
    |packet| >= 20 && packet[8..20] == transaction
  }

  function WithoutTransaction(controls: seq<bytes>, transaction: Octets12): seq<bytes> {
    if controls == [] then []
    else (if CarriesTransaction(controls[0], transaction) then [] else [controls[0]])
         + WithoutTransaction(controls[1..], transaction)
  }

  /** ChannelData framing (RFC 8656, section 12.4) of a one-byte payload padded to four. */
  function KeepalivePacket(channel: u16): (p: bytes)
    ensures |p| == 8
  {
    Be16(channel) + Be16(1) + [0xff, 0, 0, 0]
  }

  function QueueKeepalive(s: Core): Core {
    match s.channel
    case None => s
    case Some(channel) => QueuePacket(s, KeepalivePacket(channel))
  }

  // ---------------------------------------------------------------- starting transactions

  predicate HasOperation(pending: seq<Pending>, operation: Operation) {
    exists i :: 0 <= i < |pending| && pending[i].operation == operation
  }

  function FirstOf(pending: seq<Pending>, operation: Operation): (i: nat)
    requires HasOperation(pending, operation)
    ensures i < |pending| && pending[i].operation == operation
    ensures forall j :: 0 <= j < i ==> pending[j].operation != operation
  {
    if pending[0].operation == operation then 0 else 1 + FirstOf(pending[1..], operation)
  }

  predicate HasCredentials(s: Core) {
    s.realm.Some? && s.nonce.Some? && s.key.Some?
  }

  function AuthOf(c: Config, s: Core, authenticated: bool): Option<Auth>
    requires authenticated ==> HasCredentials(s)
  {
    if authenticated then Some(Auth(c.username, s.realm.value, s.nonce.value, s.key.value)) else None
  }

  function TransactionTimeout(c: Config): time {
    if c.transport == Datagram then INITIAL_RTO else STREAM_TRANSACTION_TIMEOUT
  }

  function NewPending(c: Config, operation: Operation, packet: bytes, authenticated: bool,
                      nonceRetries: nat, draw: Draw): Pending
  {
    Pending(operation, draw.transaction, packet, draw.clock + TransactionTimeout(c), INITIAL_RTO, 1,
            nonceRetries, authenticated, draw.clock)
  }

  function StartOperation(c: Config, s: Core, operation: Operation, authenticated: bool,
                          nonceRetries: nat, draw: Draw): Outcome
  {
    if HasOperation(s.pending, operation) then
      if operation == Channel then
        Outcome(QueuePacket(s, s.pending[FirstOf(s.pending, operation)].packet), true)
      else Outcome(s, true)
    else if authenticated && !HasCredentials(s) then Outcome(s, false)
    else
      match BuildRequest(c.crypto, operation, c.peer, draw.transaction, AuthOf(c, s, authenticated))
      case Err => Outcome(s, false)
      case Ok(packet) =>
        var s' := QueuePacket(s, packet);
        Outcome(s'.(pending := s'.pending
                               + [NewPending(c, operation, packet, authenticated, nonceRetries, draw)]),
                true)
  }

  /** The long-term key of RFC 8489, section 9.2.2. */
  function SetAuth(c: Config, s: Core, realm: bytes, nonce: bytes): Core {
    s.(key := Some(c.crypto.md5(c.username + [0x3a] + realm + [0x3a] + c.password)),
       realm := Some(realm),
       nonce := Some(nonce))
  }

  // ---------------------------------------------------------------- completing transactions

  function RelayOf(s: Core): NativeAddress {
    if s.relay.Some? then FromSocketAddr(s.relay.value) else NO_ADDRESS
  }

  function Complete(s: Core, operation: Operation, status: Status, code: nat): Core {
    PushEvent(s, RequestComplete(MethodFor(operation), status, code, s.state,
                                 if s.channel.Some? then s.channel.value else 0, RelayOf(s)))
  }

  function DestroyAllocation(s: Core, operation: Operation, status: Status, code: nat): Core {
    var s' := Complete(s, operation, status, code).(
      controls := [], pending := [], channel := None, allocationRefresh := None,
      allocationExpires := None, maintenanceRefresh := None, permissionRetry := None,
      channelRetry := None, keepalive := None, relay := None);
    SetState(s', if operation == Deallocate then Deallocated else Destroying)
  }

  function DestroyAfterRebindExhausted(s: Core): Core {
    var s' := s.(controls := [], pending := [], channel := None, maintenanceRefresh := None,
                 permissionRetry := None, channelRetry := None, keepalive := None);
    SetState(PushEvent(s', RebindExhausted), Destroying)
  }

  function Min(a: nat, b: nat): nat {
    if a < b then a else b
  }

  function Max(a: nat, b: nat): nat {
    if a < b then b else a
  }

  function Saturating8(count: nat): nat {
    Min(count + 1, 255)
  }

  /** Back-off after the n-th failure in a row: 1, 2, 4, 8, 16, 30, 30, ... seconds. */
  function RetryDelay(failures: nat): time {
    Min(MAINTENANCE_RETRY_BASE * Pow2(Min(if failures == 0 then 0 else failures - 1, 5)),
        MAINTENANCE_RETRY_MAX)
  }

  /** The failure counter goes up and a retry is scheduled; false when a channel has used up its
      attempts. */
  function ScheduleRetry(s: Core, operation: Operation, now: time): Outcome {
    match operation
    case Refresh =>
      var failures := Saturating8(s.refreshFailures);
      Outcome(s.(refreshFailures := failures, allocationRefresh := Some(now + RetryDelay(failures))), true)
    case Permission =>
      var failures := Saturating8(s.permissionFailures);
      Outcome(s.(permissionFailures := failures, permissionRetry := Some(now + RetryDelay(failures))), true)
    case Channel =>
      var failures := Saturating8(s.channelFailures);
      if failures >= MAX_CHANNEL_FAILURES then Outcome(s.(channelFailures := failures), false)
      else Outcome(s.(channelFailures := failures, channelRetry := Some(now + RetryDelay(failures))), true)
    case Allocate => Outcome(s, true)
    case Deallocate => Outcome(s, true)
  }

  predicate Retryable(s: Core, operation: Operation, now: time) {
    && (operation == Refresh || operation == Permission || operation == Channel)
    && s.state == Ready
    && s.allocationExpires.Some? && now < s.allocationExpires.value
  }

  function CompleteFailure(s: Core, operation: Operation, status: Status, code: nat, now: time): (r: Core)
    ensures r.pending == s.pending || r.pending == []
  {
    if Retryable(s, operation, now) then
      var retried := ScheduleRetry(Complete(s, operation, status, code), operation, now);
      if retried.ok then retried.core else DestroyAfterRebindExhausted(retried.core)
    else DestroyAllocation(s, operation, status, code)
  }

  function RefreshDeadline(now: time, lifetime: Option<u32>, interval: time): time {
    var seconds := if lifetime.Some? then lifetime.value else REQUESTED_LIFETIME_SECS;
    now + Max(Min(interval, seconds * SECOND / 2), 500 * MS)
  }

  /** The timers an allocation gets when it is granted or extended. */
  function Granted(c: Config, s: Core, lifetime: Option<u32>, now: time): Core {
    var seconds := if lifetime.Some? then lifetime.value else REQUESTED_LIFETIME_SECS;
    s.(allocationRefresh := Some(RefreshDeadline(now, lifetime, c.profile.allocationRefresh)),
       allocationExpires := Some(now + seconds * SECOND),
       refreshFailures := 0)
  }

  predicate UsableRelay(c: Config, relay: Result<SocketAddr>) {
    relay.Ok? && relay.value.ip.V4? == c.peer.ip.V4? && relay.value.port != 0
  }

  /** A granted allocation: relay, refresh, expiry, maintenance and keepalive timers. */
  function Allocated(c: Config, s: Core, relay: SocketAddr, lifetime: Option<u32>, now: time): Core {
    Granted(c, s, lifetime, now).(
      relay := Some(relay),
      maintenanceRefresh := Some(now + c.profile.maintenanceRefresh),
      keepalive := Some(now + c.profile.keepaliveInterval))
  }

  function CompleteAllocate(c: Config, s: Core, r: Response, now: time, draw: Draw): Outcome {
    if !UsableRelay(c, r.relay) || r.lifetime == Some(0) then Outcome(s, false)
    else
      var announced := PushEvent(Allocated(c, s, r.relay.value, r.lifetime, now),
                                 RelayAddress(FromSocketAddr(r.relay.value)));
      if s.shuttingDown then
        StartOperation(c, SetState(announced, Deallocating), Deallocate, true, 0, draw)
      else Outcome(Complete(SetState(announced, Ready), Allocate, NoError, 0), true)
  }

  function CompleteSuccess(c: Config, s: Core, operation: Operation, r: Response, now: time, draw: Draw)
    : Outcome
  {
    match operation
    case Allocate => CompleteAllocate(c, s, r, now, draw)
    case Refresh =>
      if r.lifetime == Some(0) then Outcome(s, false)
      else Outcome(Complete(Granted(c, s, r.lifetime, now), Refresh, NoError, 0), true)
    case Deallocate =>
      if r.lifetime.Some? && r.lifetime.value != 0 then Outcome(s, false)
      else
        var s' := s.(relay := None, allocationRefresh := None, allocationExpires := None);
        Outcome(SetState(Complete(s', Deallocate, NoError, 0), Deallocated), true)
    case Permission => Outcome(Complete(s.(permissionFailures := 0), Permission, NoError, 0), true)
    case Channel =>
      var s' := PushEvent(s.(channel := Some(CHANNEL_NUMBER), channelFailures := 0),
                          ChannelBound(CHANNEL_NUMBER, FromSocketAddr(c.peer)));
      Outcome(Complete(s', Channel, NoError, 0), true)
  }

  // ---------------------------------------------------------------- responses

  predicate Answers(p: Pending, r: Response) {
    p.transaction == r.transaction && MethodFor(p.operation) == r.method_
  }

  /** Index of the first pending transaction a response answers. */
  function Match(pending: seq<Pending>, r: Response): (i: Option<nat>)
    ensures i.None? <==> forall j :: 0 <= j < |pending| ==> !Answers(pending[j], r)
    ensures i.Some? ==> i.value < |pending| && Answers(pending[i.value], r)
                        && forall j :: 0 <= j < i.value ==> !Answers(pending[j], r)
  {
    if pending == [] then None
    else if Answers(pending[0], r) then Some(0)
    else
      match Match(pending[1..], r)
      case None => None
      case Some(i) => Some(i + 1)
  }

  predicate RequiresIntegrity(r: Response) {
    r.success || !(r.code.Some? && r.code.value in {400, 401, 420, 438})
  }

  predicate FingerprintedMismatch(r: Response) {
    !r.success && r.code == Some(437) && r.fingerprinted
  }

  predicate RequiresRecreate(operation: Operation, code: nat) {
    code == 437 || (operation == Channel && code == 400)
  }

  function Without(pending: seq<Pending>, i: nat): seq<Pending>
    requires i < |pending|
  {
    pending[..i] + pending[i + 1..]
  }

  function TakePending(s: Core, i: nat): Core
    requires i < |s.pending|
  {
    s.(pending := Without(s.pending, i),
       controls := WithoutTransaction(s.controls, s.pending[i].transaction))
  }

  datatype Reply = Reply(core: Core, status: Status)

  /** The realm a challenge names; a stale-nonce reply may leave it out. */
  function ChallengeRealm(s: Core, r: Response): Option<bytes> {
    if r.realm.Some? then r.realm
    else if r.code == Some(438) then s.realm
    else None
  }

  predicate Challenges(c: Config, s: Core, p: Pending, r: Response) {
    && (r.code == Some(401) || r.code == Some(438))
    && p.nonceRetries < c.profile.maxNonceRetries
    && ChallengeRealm(s, r).Some? && r.nonce.Some?
  }

  /** An error response to the transaction `p`, already taken off the pending list of `s`. */
  function HandleError(c: Config, s: Core, p: Pending, r: Response, now: time, draw: Draw): Core
    requires !r.success
  {
    var method_ := MethodFor(p.operation);
    if r.code.None? || r.code == Some(0) then
      CompleteFailure(PushEvent(s, ResponseError(method_, Protocol, 0, s.state)),
                      p.operation, Protocol, 0, now)
    else
      var code := r.code.value;
      if RequiresRecreate(p.operation, code) then
        DestroyAllocation(PushEvent(s, ResponseError(method_, NoError, code, s.state)),
                          p.operation, Protocol, code)
      else if Challenges(c, s, p, r) then
        var challenged := SetAuth(c, s, ChallengeRealm(s, r).value, r.nonce.value);
        var retried := StartOperation(c, challenged, p.operation, true, p.nonceRetries + 1, draw);
        if retried.ok then retried.core
        else FailWithCode(retried.core, p, code, s.state, now)
      else FailWithCode(s, p, code, s.state, now)
  }

  function FailWithCode(s: Core, p: Pending, code: nat, seenIn: State, now: time): Core {
    CompleteFailure(PushEvent(s, ResponseError(MethodFor(p.operation), NoError, code, seenIn)),
                    p.operation, Protocol, code, now)
  }

  function HandleSuccess(c: Config, s: Core, p: Pending, r: Response, now: time, draw: Draw): Reply {
    if !p.authenticated then
      Reply(CompleteFailure(s, p.operation, Authentication, 0, now), Authentication)
    else
      var completed := CompleteSuccess(c, s, p.operation, r, now, draw);
      if completed.ok then Reply(completed.core, NoError)
      else Reply(CompleteFailure(completed.core, p.operation, Protocol, 0, now), Protocol)
  }

  /** The response no longer matters for the transaction it answers: its signature does not hold. */
  predicate Unverified(p: Pending, r: Response, verified: bool) {
    p.authenticated && RequiresIntegrity(r) && !verified && !FingerprintedMismatch(r)
  }

  function HandleResponse(c: Config, s: Core, r: Response, verified: bool, now: time, draw: Draw): Reply {
    match Match(s.pending, r)
    case None => Reply(s, NotControl)
    case Some(i) =>
      var p := s.pending[i];
      if Unverified(p, r, verified) then
        if !r.success && r.code.Some? then
          Reply(PushEvent(s, ResponseError(r.method_, Authentication, r.code.value, s.state)),
                Authentication)
        else Reply(s, Authentication)
      else if r.success then HandleSuccess(c, TakePending(s, i), p, r, now, draw)
      else Reply(HandleError(c, TakePending(s, i), p, r, now, draw), NoError)
  }

  function InputStun(c: Config, s: Core, packet: bytes, now: time, draw: Draw): Reply {
    match Decode(packet)
    case Err => Reply(s, InvalidArgument)
    case Ok(message) =>
      if message.Class() != Class.Success && message.Class() != Error then Reply(s, NotControl)
      else if message.FingerprintValid(c.crypto) == Some(false) then Reply(s, InvalidArgument)
      else
        HandleResponse(c, s, ReadResponse(c.crypto, message),
                       VerifyIntegrity(c.crypto, message, s.key), now, draw)
  }

  // ---------------------------------------------------------------- timers

  predicate Due(deadline: Option<time>, now: time) {
    deadline.Some? && now >= deadline.value
  }

  function Retransmit(p: Pending, now: time): Pending {
    var rto := Min(2 * p.rto, MAX_RTO);
    p.(transmissions := p.transmissions + 1, rto := rto, nextAttempt := now + rto)
  }

  /** One look at the pending transactions from `index` on. */
  function ExpireFrom(c: Config, s: Core, now: time, index: nat): Core
    decreases |s.pending| - index
  {
    if index >= |s.pending| then s
    else
      var p := s.pending[index];
      if now < p.nextAttempt then ExpireFrom(c, s, now, index + 1)
      else if p.transmissions >= MAX_TRANSMISSIONS || c.transport == Stream then
        ExpireFrom(c, CompleteFailure(TakePending(s, index), p.operation, Timeout, 0, now), now, index)
      else
        var s' := QueuePacket(s, p.packet);
        ExpireFrom(c, s'.(pending := s'.pending[index := Retransmit(p, now)]), now, index + 1)
  }

  datatype PollDraws = PollDraws(refresh: Draw, permission: Draw, channel: Draw)

  function CheckExpiry(s: Core, now: time): Core {
    if !s.shuttingDown && s.state == Ready && Due(s.allocationExpires, now) then
      DestroyAllocation(s, Refresh, Timeout, 0)
    else s
  }

  /** What the three maintenance checks of a poll share: whether to start, then start. */
  datatype Started = Started(core: Core, ok: bool, any: bool)

  function PollRefresh(c: Config, s: Core, now: time, draw: Draw): Started {
    if Due(s.allocationRefresh, now) && !HasOperation(s.pending, Refresh) then
      var r := StartOperation(c, s.(allocationRefresh := None), Refresh, true, 0, draw);
      Started(r.core, r.ok, true)
    else Started(s, true, false)
  }

  function PollPermission(c: Config, s: Core, due: bool, draw: Draw): Started {
    if due && !HasOperation(s.pending, Permission) then
      var r := StartOperation(c, s.(permissionRetry := None), Permission, true, 0, draw);
      Started(r.core, r.ok, true)
    else Started(s, true, false)
  }

  function PollChannel(c: Config, s: Core, due: bool, draw: Draw): Started {
    if due && !HasOperation(s.pending, Channel) then
      var r := StartOperation(c, s.(channelRetry := None), Channel, true, 0, draw);
      Started(r.core, r.ok, true)
    else Started(s, true, false)
  }

  function PollKeepalive(c: Config, s: Core, now: time, started: bool): Core {
    if Due(s.keepalive, now) then
      var s' := s.(keepalive := Some(now + c.profile.keepaliveInterval));
      if started then s' else QueueKeepalive(s')
    else s
  }

  function PollMaintenance(c: Config, s: Core, now: time, draws: PollDraws): Outcome {
    var maintenance := Due(s.maintenanceRefresh, now);
    var permission := maintenance || Due(s.permissionRetry, now);
    var channel := maintenance || Due(s.channelRetry, now);
    var a := PollRefresh(c, s, now, draws.refresh);
    if !a.ok then Outcome(a.core, false)
    else
      var rescheduled := if maintenance
                         then a.core.(maintenanceRefresh := Some(now + c.profile.maintenanceRefresh))
                         else a.core;
      var b := PollPermission(c, rescheduled, permission, draws.permission);
      if !b.ok then Outcome(b.core, false)
      else
        var d := PollChannel(c, b.core, channel, draws.channel);
        if !d.ok then Outcome(d.core, false)
        else Outcome(PollKeepalive(c, d.core, now, a.any || b.any || d.any), true)
  }

  function Sooner(a: Option<time>, b: Option<time>): Option<time> {
    if a.None? then b
    else if b.None? then a
    else Some(Min(a.value, b.value))
  }

  function NextAttempts(pending: seq<Pending>): Option<time> {
    if pending == [] then None
    else Sooner(Some(pending[0].nextAttempt), NextAttempts(pending[1..]))
  }

  function NextDeadline(s: Core): Option<time> {
    Sooner(NextAttempts(s.pending),
    Sooner(s.allocationRefresh,
    Sooner(s.maintenanceRefresh,
    Sooner(s.permissionRetry,
    Sooner(s.channelRetry, s.keepalive)))))
  }

  /** How long the driver may wait before the next poll: at least a millisecond. */
  function Delay(deadline: Option<time>, now: time): Option<time> {
    if deadline.None? then None
    else Some(Max(if deadline.value > now then deadline.value - now else 0, MS))
  }

  datatype Polled = Polled(core: Core, ok: bool, delay: Option<time>)

  function Poll(c: Config, s: Core, now: time, draws: PollDraws): Polled {
    if s.destroyed then Polled(s, true, None)
    else
      var s' := CheckExpiry(ExpireFrom(c, s, now, 0), now);
      if !s'.shuttingDown && s'.state == Ready then
        var r := PollMaintenance(c, s', now, draws);
        if r.ok then Polled(r.core, true, Delay(NextDeadline(r.core), now))
        else Polled(r.core, false, None)
      else Polled(s', true, Delay(NextDeadline(s'), now))
  }

  // ---------------------------------------------------------------- the other entry points

  predicate Open(s: Core) {
    !s.destroyed && !s.shuttingDown
  }

  function StartAllocation(c: Config, s: Core, draw: Draw): Outcome {
    if Open(s) && s.state == Null then
      StartOperation(c, SetState(s, Allocating), Allocate, false, 0, draw)
    else Outcome(s, false)
  }

  function StartMaintenance(c: Config, s: Core, operation: Operation, draw: Draw): Outcome {
    if Open(s) && s.state == Ready then StartOperation(c, s, operation, true, 0, draw)
    else Outcome(s, false)
  }

  function GracefulShutdown(c: Config, s: Core, draw: Draw): Outcome {
    if s.destroyed || s.shuttingDown then Outcome(s, true)
    else
      var s' := s.(shuttingDown := true, channel := None, maintenanceRefresh := None,
                   permissionRetry := None, channelRetry := None, keepalive := None, controls := []);
      if s'.state == Ready || (s'.state == Destroying && s'.allocationExpires.Some?) then
        StartOperation(c, SetState(s'.(pending := []), Deallocating), Deallocate, true, 0, draw)
      else if s'.state != Allocating then Outcome(s'.(pending := []), true)
      else Outcome(s', true)
  }

  function ForceDestroy(s: Core, reason: Status): Core {
    if s.destroyed then s
    else
      PushEvent(SetState(s.(destroyed := true, controls := [], pending := []), Destroying),
                ForcedDestroy(reason))
  }

  /** The front of the send queue; a packet that does not fit the caller's buffer is lost. */
  function PullControl(s: Core): (Core, Option<Result<bytes>>) {
    if s.controls == [] then (s, None)
    else
      (s.(controls := s.controls[1..]),
       Some(if |s.controls[0]| > PULL_BUFFER then Err else Ok(s.controls[0])))
  }

  function PullEvent(s: Core): (Core, Option<Event>) {
    if s.events == [] then (s, None)
    else (s.(events := s.events[1..], drained := s.drained + [s.events[0]]), Some(s.events[0]))
  }
}
