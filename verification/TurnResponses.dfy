/** What a response does, from its bytes to the state of the client: which responses are ignored, and what
    follows from those that are not. */
module TurnResponses {
  import opened Bytes
  import opened Addresses
  import opened StunMessages
  import opened StunBuilder
  import opened StunReading
  import opened TurnRequests
  import opened TurnState
  import opened TurnSafety
  import opened TurnLifecycle
  import opened TurnTimers
  import opened TurnHandshake

  /** A response the client looks at: it decodes, and no fingerprint in it is wrong. */
  ghost predicate Heard(c: Config, packet: bytes, message: Message) {
    && Decode(packet) == Ok(message)
    && (message.Class() == Class.Success || message.Class() == Error)
    && message.FingerprintValid(c.crypto) != Some(false)
  }

  predicate Concerns(p: Pending, message: Message) {
    p.transaction == message.transaction && MethodNumber(p.operation) == message.Method()
  }

  /** The pending transaction a response answers. */
  ghost predicate Addressed(s: Core, message: Message, i: nat) {
    && i < |s.pending| && Concerns(s.pending[i], message)
    && forall j :: 0 <= j < i ==> !Concerns(s.pending[j], message)
  }

  /** The code an error response gives. */
  ghost predicate Gives(message: Message, code: nat) {
    exists value :: Holds(message, 0x0009, value) && Says(value, code)
  }

  /** The error codes that are believed without a signature: those a server sends before it shares a key
      or when it no longer does (RFC 8489, section 9.2), and a mismatch behind a valid fingerprint. */
  ghost predicate Believed(c: Config, message: Message, code: nat)
    requires message.Valid()
  {
    code in {400, 401, 420, 438} || (code == 437 && message.FingerprintValid(c.crypto) == Some(true))
  }

  // ---------------------------------------------------------------- reading

  lemma HeardIsValid(c: Config, packet: bytes, message: Message)
    requires Decode(packet) == Ok(message)
    ensures message.Valid()
  {
  }

  lemma GivesCode(message: Message, code: nat)
    requires message.Valid()
    ensures Gives(message, code) <==> ErrorCode(message) == Some(code)
  {
    hide ErrorCode;
    hide Holds;
    hide Says;
    if Gives(message, code) {
      var value :| Holds(message, 0x0009, value) && Says(value, code);
      ReadsCode(message, value, code);
    }
    if ErrorCode(message).Some? {
      CodeIsSaid(message);
    }
  }

  lemma {:induction false} MatchFound(pending: seq<Pending>, r: Response, i: nat)
    requires i < |pending| && Answers(pending[i], r) && forall j :: 0 <= j < i ==> !Answers(pending[j], r)
    ensures Match(pending, r) == Some(i)
  {
  }

  lemma AddressedAt(s: Core, message: Message, r: Response, i: nat)
    requires Addressed(s, message, i) && r.method_ == message.Method() && r.transaction == message.transaction
    ensures Match(s.pending, r) == Some(i)
  {
    hide MethodOf;
    forall p: Pending ensures Concerns(p, message) <==> Answers(p, r) {
    }
    MatchFound(s.pending, r, i);
    hide Match;
  }

  lemma AddressedMatches(c: Config, s: Core, message: Message, i: nat)
    requires message.Valid() && Addressed(s, message, i)
    ensures Match(s.pending, ReadResponse(c.crypto, message)) == Some(i)
  {
    hide *;
    ReadsEach(c.crypto, message);
    AddressedAt(s, message, ReadResponse(c.crypto, message), i);
  }

  /** What is done with a response comes down to its fields. */
  lemma HeardIsHandled(c: Config, s: Core, packet: bytes, message: Message, now: time, draw: Draw)
    requires Heard(c, packet, message)
    ensures message.Valid()
    ensures InputStun(c, s, packet, now, draw)
            == HandleResponse(c, s, ReadResponse(c.crypto, message),
                              VerifyIntegrity(c.crypto, message, s.key), now, draw)
  {
    HeardIsValid(c, packet, message);
    hide HandleResponse;
    hide VerifyIntegrity;
    hide ReadResponse;
    hide Decode;
  }

  // ---------------------------------------------------------------- what does not verify

  predicate BelievedFields(r: Response) {
    r.code.Some? && (r.code.value in {400, 401, 420, 438} || (r.code.value == 437 && r.fingerprinted))
  }

  lemma Unsigned(c: Config, s: Core, r: Response, i: nat, now: time, draw: Draw)
    requires Match(s.pending, r) == Some(i) && s.pending[i].authenticated
    ensures var t := HandleResponse(c, s, r, false, now, draw);
            if r.success then t == Reply(s, Authentication)
            else if BelievedFields(r) then
              t == Reply(HandleError(c, TakePending(s, i), s.pending[i], r, now, draw), NoError)
            else
              t == Reply(if r.code.None? then s
                         else PushEvent(s, ResponseError(r.method_, Authentication, r.code.value, s.state)),
                         Authentication)
  {
    hide HandleError;
    hide HandleSuccess;
    hide TakePending;
    hide PushEvent;
    hide Match;
  }

  /** A success that does not verify changes nothing. */
  lemma UnverifiedSuccess(c: Config, s: Core, packet: bytes, message: Message, i: nat, now: time, draw: Draw)
    requires Heard(c, packet, message) && message.Class() == Class.Success && Addressed(s, message, i)
    requires s.pending[i].authenticated
    requires message.Valid() && !VerifyIntegrity(c.crypto, message, s.key)
    ensures InputStun(c, s, packet, now, draw) == Reply(s, Authentication)
  {
    HeardIsHandled(c, s, packet, message, now, draw);
    AddressedMatches(c, s, message, i);
    ReadsEach(c.crypto, message);
    hide *;
    Unsigned(c, s, ReadResponse(c.crypto, message), i, now, draw);
  }

  /** An error that does not verify is ignored, exactly unless its code is among those that are believed;
      all the client does is to tell the code it saw. */
  lemma UnverifiedError(c: Config, s: Core, packet: bytes, message: Message, i: nat, now: time, draw: Draw)
    requires |s.events| <= EVENT_CAPACITY
    requires Heard(c, packet, message) && message.Class() == Error && Addressed(s, message, i)
    requires s.pending[i].authenticated
    requires message.Valid() && !VerifyIntegrity(c.crypto, message, s.key)
    ensures var t := InputStun(c, s, packet, now, draw);
            if exists code :: Gives(message, code) && Believed(c, message, code) then t.status == NoError
            else
              && t.status == Authentication
              && ((forall code :: !Gives(message, code)) ==> t.core == s)
              && forall code :: Gives(message, code) ==>
                   t.core == s.(events := t.core.events,
                                emitted := s.emitted
                                           + [ResponseError(message.Method(), Authentication, code, s.state)])
  {
    hide *;
    HeardIsHandled(c, s, packet, message, now, draw);
    AddressedMatches(c, s, message, i);
    ReadsEach(c.crypto, message);
    var r := ReadResponse(c.crypto, message);
    CodesRead(c, message);
    Unsigned(c, s, r, i, now, draw);
    if r.code.Some? {
      PushForm(s, ResponseError(r.method_, Authentication, r.code.value, s.state));
    }
  }

  lemma CodesRead(c: Config, message: Message)
    requires message.Valid()
    ensures var r := ReadResponse(c.crypto, message);
            && ((exists code :: Gives(message, code) && Believed(c, message, code)) <==> BelievedFields(r))
            && ((forall code :: !Gives(message, code)) <==> r.code.None?)
            && forall code: nat :: Gives(message, code) <==> r.code == Some(code)
  {
    hide *;
    ReadsEach(c.crypto, message);
    ReadsFingerprint(c.crypto, message);
    forall code: nat ensures Gives(message, code) <==> ErrorCode(message) == Some(code) {
      GivesCode(message, code);
    }
    var r := ReadResponse(c.crypto, message);
    if r.code.Some? {
      assert Gives(message, r.code.value);
      BelievedIs(c, message, r);
    }
    BelievedSome(r);
  }

  lemma BelievedIs(c: Config, message: Message, r: Response)
    requires message.Valid() && r.code.Some?
    requires r.fingerprinted <==> message.FingerprintValid(c.crypto) == Some(true)
    ensures Believed(c, message, r.code.value) <==> BelievedFields(r)
  {
  }

  lemma BelievedSome(r: Response)
    ensures BelievedFields(r) ==> r.code.Some?
  {
  }

  lemma ReadsFingerprint(crypto: StunCrypto, message: Message)
    requires message.Valid()
    ensures ReadResponse(crypto, message).fingerprinted <==> message.FingerprintValid(crypto) == Some(true)
  {
    hide ErrorCode;
    hide AttributeValue;
    hide AttributeU32;
    hide ClassOf;
    hide MethodOf;
    hide Find;
    hide AttributesAt;
    hide Walks;
    hide DecodeXorAddress;
  }

  // ---------------------------------------------------------------- failures

  /** What the driver is told when a request is over. */
  function Told(s: Core, operation: Operation, status: Status, code: nat): Event {
    RequestComplete(MethodNumber(operation), status, code, s.state, if s.channel.Some? then s.channel.value else 0,
                    if s.relay.Some? then FromSocketAddr(s.relay.value) else NativeAddress(0, 0, Zeros(16)))
  }

  /** A request whose failure the allocation survives: maintenance before its expiry. */
  predicate Survives(s: Core, operation: Operation, now: time) {
    && operation !in {Allocate, Deallocate} && s.state == Ready
    && s.allocationExpires.Some? && now < s.allocationExpires.value
  }

  ghost predicate Timerless(t: Core) {
    && t.channel.None? && t.maintenanceRefresh.None? && t.permissionRetry.None? && t.channelRetry.None?
    && t.keepalive.None? && t.pending == [] && t.controls == []
  }

  ghost predicate SameAccount(s: Core, t: Core) {
    && t.realm == s.realm && t.nonce == s.nonce && t.key == s.key
    && t.shuttingDown == s.shuttingDown && t.destroyed == s.destroyed && t.drained == s.drained
  }

  /** The allocation is over: nothing pending, queued, scheduled or bound. */
  ghost predicate Ends(s: Core, t: Core, operation: Operation, told: Event) {
    var over := if operation == Deallocate then Deallocated else Destroying;
    && t.state == over && t.relay.None? && t.allocationRefresh.None? && t.allocationExpires.None?
    && Timerless(t) && SameAccount(s, t)
    && t.emitted == s.emitted + [told] + (if s.state == over then [] else [StateChanged(over, s.state)])
  }

  /** The fourth failure of the channel: the allocation is kept only to be released. */
  ghost predicate Exhausts(s: Core, t: Core, told: Event) {
    && t.state == Destroying && t.relay == s.relay
    && t.allocationRefresh == s.allocationRefresh && t.allocationExpires == s.allocationExpires
    && Timerless(t) && SameAccount(s, t)
    && t.emitted == s.emitted + [told, RebindExhausted, StateChanged(Destroying, Ready)]
  }

  function OneMore(failures: nat): nat {
    if failures < 255 then failures + 1 else 255
  }

  /** One more failure of a maintenance request, and the back-off that belongs to it. */
  function Rescheduled(s: Core, operation: Operation, now: time): Core {
    match operation
    case Refresh =>
      var n := OneMore(s.refreshFailures);
      s.(refreshFailures := n, allocationRefresh := Some(now + BackoffSeconds(n) * SECOND))
    case Permission =>
      var n := OneMore(s.permissionFailures);
      s.(permissionFailures := n, permissionRetry := Some(now + BackoffSeconds(n) * SECOND))
    case _ =>
      var n := OneMore(s.channelFailures);
      s.(channelFailures := n, channelRetry := Some(now + BackoffSeconds(n) * SECOND))
  }

  /** What a failed request does: the end, the fourth failure of the channel, or another try later. */
  ghost predicate Fails(s: Core, t: Core, operation: Operation, status: Status, code: nat, now: time) {
    var told := Told(s, operation, status, code);
    if !Survives(s, operation, now) then Ends(s, t, operation, told)
    else if operation == Channel && OneMore(s.channelFailures) >= 4 then Exhausts(s, t, told)
    else t == Rescheduled(s.(events := t.events, emitted := s.emitted + [told]), operation, now)
  }

  lemma ToldIs(s: Core, operation: Operation, status: Status, code: nat)
    requires |s.events| <= EVENT_CAPACITY
    ensures var t := Complete(s, operation, status, code);
            && t == s.(events := t.events, emitted := s.emitted + [Told(s, operation, status, code)])
            && |t.events| <= EVENT_CAPACITY
  {
    PushForm(s, Told(s, operation, status, code));
    hide PushEvent;
  }

  lemma DestroyEndsIt(s: Core, operation: Operation, status: Status, code: nat)
    requires |s.events| <= EVENT_CAPACITY
    ensures Ends(s, DestroyAllocation(s, operation, status, code), operation, Told(s, operation, status, code))
  {
    ToldIs(s, operation, status, code);
    hide Complete;
    hide Told;
    var u := Complete(s, operation, status, code).(
      controls := [], pending := [], channel := None, allocationRefresh := None,
      allocationExpires := None, maintenanceRefresh := None, permissionRetry := None,
      channelRetry := None, keepalive := None, relay := None);
    PushForm(u.(state := if operation == Deallocate then Deallocated else Destroying),
             StateChanged(if operation == Deallocate then Deallocated else Destroying, u.state));
    hide PushEvent;
  }

  lemma ExhaustsIt(s: Core, t: Core, told: Event)
    requires |t.events| <= EVENT_CAPACITY && s.state == Ready
    requires t == s.(events := t.events, emitted := s.emitted + [told], channelFailures := t.channelFailures)
    ensures Exhausts(s, DestroyAfterRebindExhausted(t), told)
  {
    var u := t.(controls := [], pending := [], channel := None, maintenanceRefresh := None,
                permissionRetry := None, channelRetry := None, keepalive := None);
    PushForm(u, RebindExhausted);
    var v := PushEvent(u, RebindExhausted);
    PushForm(v.(state := Destroying), StateChanged(Destroying, v.state));
    hide PushEvent;
  }

  lemma RetriesIt(s: Core, t: Core, operation: Operation, now: time)
    requires Survives(s, operation, now)
    requires operation == Channel ==> OneMore(t.channelFailures) < 4
    ensures var r := ScheduleRetry(t, operation, now);
            r.ok && r.core == Rescheduled(t, operation, now)
  {
    RetryDelays(OneMore(t.refreshFailures), 255);
    RetryDelays(OneMore(t.permissionFailures), 255);
    RetryDelays(OneMore(t.channelFailures), 255);
    hide RetryDelay;
    hide BackoffSeconds;
  }

  /** A failed request, under any code and at any time. */
  lemma FailureOutcome(s: Core, operation: Operation, status: Status, code: nat, now: time)
    requires |s.events| <= EVENT_CAPACITY
    ensures Fails(s, CompleteFailure(s, operation, status, code, now), operation, status, code, now)
  {
    var told := Told(s, operation, status, code);
    ToldIs(s, operation, status, code);
    hide Complete;
    hide Told;
    hide BackoffSeconds;
    hide RetryDelay;
    if !Survives(s, operation, now) {
      DestroyEndsIt(s, operation, status, code);
      hide DestroyAllocation;
      hide Ends;
    } else {
      var completed := Complete(s, operation, status, code);
      if operation == Channel && OneMore(s.channelFailures) >= 4 {
        ExhaustsIt(s, completed.(channelFailures := OneMore(s.channelFailures)), told);
        hide DestroyAfterRebindExhausted;
        hide Exhausts;
      } else {
        RetriesIt(s, completed, operation, now);
        hide ScheduleRetry;
        hide DestroyAfterRebindExhausted;
      }
    }
  }

  // ---------------------------------------------------------------- errors

  /** The client without a transaction: off the list, and no queued packet carries it. */
  ghost predicate Taken(s: Core, u: Core, i: nat)
    requires i < |s.pending|
  {
    && u == s.(pending := s.pending[..i] + s.pending[i + 1..], controls := u.controls)
    && forall k :: k in u.controls
                   <==> k in s.controls && !(|k| >= 20 && k[8..20] == s.pending[i].transaction)
  }

  lemma TakenIs(s: Core, i: nat)
    requires i < |s.pending|
    ensures Taken(s, TakePending(s, i), i)
  {
    WithoutTransactionIs(s.controls, s.pending[i].transaction);
    hide WithoutTransaction;
  }

  /** The realm and nonce a challenge gives; a stale nonce may leave out the realm. */
  ghost predicate Offers(s: Core, message: Message, code: nat, realm: bytes, nonce: bytes) {
    && code in {401, 438} && Holds(message, 0x0015, nonce)
    && (Holds(message, 0x0014, realm)
        || (code == 438 && Lacks(message, 0x0014) && s.realm == Some(realm)))
  }

  function FirstWait(c: Config): time {
    if c.transport == Datagram then 200 * MS else 12 * SECOND
  }

  /** The same request again, as the next link of its chain: under a new transaction, naming the user as
      offered, pending and last in the queue. Nothing else changes but the credentials. */
  ghost predicate Restarts(c: Config, s: Core, t: Core, p: Pending, realm: bytes, nonce: bytes, draw: Draw) {
    && t.realm == Some(realm) && t.nonce == Some(nonce) && t.key == Some(LongTermKey(c, realm))
    && t == s.(realm := t.realm, nonce := t.nonce, key := t.key, pending := t.pending, controls := t.controls,
               events := t.events, emitted := t.emitted)
    && t.controls != []
    && var packet := t.controls[|t.controls| - 1];
       && t.pending == s.pending + [Pending(p.operation, draw.transaction, packet, draw.clock + FirstWait(c),
                                            200 * MS, 1, p.nonceRetries + 1, true, draw.clock)]
       && Decode(packet).Ok?
       && Asks(Decode(packet).value, p.operation, c.peer)
       && Names(Decode(packet).value, Some(Auth(c.username, realm, nonce, LongTermKey(c, realm))))
  }

  /** What a queue of sixteen keeps of all that was put into it. */
  function Newest(packets: seq<bytes>): (kept: seq<bytes>)
    ensures |kept| <= 16
  {
    if |packets| <= 16 then packets else packets[|packets| - 16..]
  }

  lemma StartsExactly(c: Config, s: Core, operation: Operation, nonceRetries: nat, draw: Draw)
    requires !HasOperation(s.pending, operation) && HasCredentials(s)
    requires CredentialsBounded(c, s) && Queued(s)
    ensures var auth := Auth(c.username, s.realm.value, s.nonce.value, s.key.value);
            var built := BuildRequest(c.crypto, operation, c.peer, draw.transaction, Some(auth));
            var r := StartOperation(c, s, operation, true, nonceRetries, draw);
            && r.ok && built.Ok? && r.core.controls != []
            && r.core.controls[|r.core.controls| - 1] == built.value
            && r.core.controls == Newest(s.controls + [built.value])
            && r.core == s.(controls := r.core.controls, events := r.core.events, emitted := r.core.emitted,
                            pending := s.pending
                                       + [Pending(operation, draw.transaction, built.value,
                                                  draw.clock + FirstWait(c), 200 * MS, 1, nonceRetries, true,
                                                  draw.clock)])
  {
    var auth := Auth(c.username, s.realm.value, s.nonce.value, s.key.value);
    assert AuthOf(c, s, true) == Some(auth);
    RequestBuilds(c.crypto, operation, c.peer, draw.transaction, Some(auth));
    hide BuildRequest;
    hide HasOperation;
    hide AuthOf;
    var packet := BuildRequest(c.crypto, operation, c.peer, draw.transaction, Some(auth)).value;
    QueuedLast(s, packet);
    hide QueuePacket;
    hide Newest;
  }

  lemma QueuedLast(s: Core, packet: bytes)
    requires |s.controls| <= CONTROL_CAPACITY
    ensures var t := QueuePacket(s, packet);
            && SameButQueues(s, t)
            && t.controls != [] && t.controls[|t.controls| - 1] == packet
            && t.controls == Newest(s.controls + [packet])
  {
    assert s.controls != [] ==> (s.controls + [packet])[1..] == s.controls[1..] + [packet];
  }

  lemma AccountSet(c: Config, s: Core, missing: Option<Operation>, realm: bytes, nonce: bytes)
    requires Holding(c, s, missing) && |realm| <= MAX_STUN_INPUT && |nonce| <= MAX_STUN_INPUT
    ensures var u := SetAuth(c, s, realm, nonce);
            && HasCredentials(u) && CredentialsBounded(c, u) && Queued(u)
            && u == s.(realm := Some(realm), nonce := Some(nonce), key := Some(LongTermKey(c, realm)))
            && AuthBounded(Some(Auth(c.username, realm, nonce, LongTermKey(c, realm))))
  {
    hide Owned;
    hide PendingOk;
    hide Staged;
    hide Equipped;
    hide HasOperation;
  }

  lemma RestartGathers(c: Config, s: Core, t: Core, p: Pending, realm: bytes, nonce: bytes, draw: Draw)
    requires var key := LongTermKey(c, realm);
             && t.controls != []
             && var packet := t.controls[|t.controls| - 1];
                && t == s.(realm := Some(realm), nonce := Some(nonce), key := Some(key),
                           controls := t.controls, events := t.events, emitted := t.emitted,
                           pending := s.pending
                                      + [Pending(p.operation, draw.transaction, packet, draw.clock + FirstWait(c),
                                                 200 * MS, 1, p.nonceRetries + 1, true, draw.clock)])
                && Decode(packet).Ok?
                && Asks(Decode(packet).value, p.operation, c.peer)
                && Names(Decode(packet).value, Some(Auth(c.username, realm, nonce, key)))
    ensures Restarts(c, s, t, p, realm, nonce, draw)
  {
    hide LongTermKey;
    hide Decode;
    hide Asks;
    hide Names;
  }

  lemma RestartsIt(c: Config, s: Core, p: Pending, realm: bytes, nonce: bytes, draw: Draw)
    requires Holding(c, s, Some(p.operation)) && !HasOperation(s.pending, p.operation)
    requires |realm| <= MAX_STUN_INPUT && |nonce| <= MAX_STUN_INPUT
    ensures var r := StartOperation(c, SetAuth(c, s, realm, nonce), p.operation, true, p.nonceRetries + 1, draw);
            r.ok && Restarts(c, s, r.core, p, realm, nonce, draw)
  {
    hide *;
    AccountSet(c, s, Some(p.operation), realm, nonce);
    var u := SetAuth(c, s, realm, nonce);
    StartsExactly(c, u, p.operation, p.nonceRetries + 1, draw);
    var auth := Auth(c.username, realm, nonce, LongTermKey(c, realm));
    RequestSays(c.crypto, p.operation, c.peer, draw.transaction, Some(auth));
    RestartGathers(c, s, StartOperation(c, u, p.operation, true, p.nonceRetries + 1, draw).core, p, realm, nonce,
                   draw);
  }

  /** An error response that is acted on: unsigned, verified or believed. */
  ghost predicate Accepted(c: Config, s: Core, message: Message, p: Pending, code: nat)
    requires message.Valid()
  {
    !p.authenticated || VerifyIntegrity(c.crypto, message, s.key) || Believed(c, message, code)
  }

  ghost predicate ErrorDoes(c: Config, s: Core, u: Core, t: Core, message: Message, p: Pending, code: nat,
                            now: time, draw: Draw)
  {
    var seen := ResponseError(MethodNumber(p.operation), NoError, code, s.state);
    var v := u.(emitted := u.emitted + [seen]);
    if code == 437 || (p.operation == Channel && code == 400) then
      Ends(v, t, p.operation, Told(v, p.operation, Protocol, code))
    else if p.nonceRetries < c.profile.maxNonceRetries
            && exists realm, nonce :: Offers(s, message, code, realm, nonce) then
      exists realm, nonce :: Offers(s, message, code, realm, nonce) && Restarts(c, u, t, p, realm, nonce, draw)
    else Fails(v, t, p.operation, Protocol, code, now)
  }

  lemma Acted(c: Config, s: Core, r: Response, verified: bool, i: nat, now: time, draw: Draw)
    requires Match(s.pending, r) == Some(i) && !r.success
    requires !s.pending[i].authenticated || verified || BelievedFields(r)
    ensures HandleResponse(c, s, r, verified, now, draw)
            == Reply(HandleError(c, TakePending(s, i), s.pending[i], r, now, draw), NoError)
  {
    hide HandleError;
    hide HandleSuccess;
    hide TakePending;
    hide PushEvent;
    hide Match;
  }

  predicate RecreatesOn(operation: Operation, code: nat) {
    code == 437 || (operation == Channel && code == 400)
  }

  /** The three ways of an error with a code. */
  lemma ErrorWays(c: Config, u: Core, p: Pending, r: Response, now: time, draw: Draw)
    requires !r.success && r.code.Some? && r.code.value != 0
    ensures var code := r.code.value;
            var t := HandleError(c, u, p, r, now, draw);
            var x := PushEvent(u, ResponseError(MethodNumber(p.operation), NoError, code, u.state));
            if RecreatesOn(p.operation, code) then t == DestroyAllocation(x, p.operation, Protocol, code)
            else if Challenges(c, u, p, r) then
              var again := StartOperation(c, SetAuth(c, u, ChallengeRealm(u, r).value, r.nonce.value), p.operation,
                                          true, p.nonceRetries + 1, draw);
              again.ok ==> t == again.core
            else t == CompleteFailure(x, p.operation, Protocol, code, now)
  {
    assert MethodFor(p.operation) == MethodNumber(p.operation);
    hide DestroyAllocation;
    hide CompleteFailure;
    hide StartOperation;
    hide SetAuth;
    hide PushEvent;
    hide ChallengeRealm;
    hide MethodFor;
    hide MethodNumber;
  }

  lemma OffersExactly(c: Config, s: Core, u: Core, p: Pending, message: Message, r: Response, code: nat)
    requires message.Valid() && r.code == Some(code) && u.realm == s.realm
    requires r.realm == AttributeValue(message, ATTR_REALM) && r.nonce == AttributeValue(message, ATTR_NONCE)
    ensures Challenges(c, u, p, r)
            <==> p.nonceRetries < c.profile.maxNonceRetries
                 && exists realm, nonce :: Offers(s, message, code, realm, nonce)
    ensures Challenges(c, u, p, r) ==> Offers(s, message, code, ChallengeRealm(u, r).value, r.nonce.value)
  {
    hide Find;
    hide AttributesAt;
    if Challenges(c, u, p, r) {
      assert Offers(s, message, code, ChallengeRealm(u, r).value, r.nonce.value);
    }
  }

  lemma EndsAlike(v: Core, x: Core, t: Core, operation: Operation, status: Status, code: nat, now: time)
    requires x == v.(events := x.events)
    ensures Told(x, operation, status, code) == Told(v, operation, status, code)
    ensures Ends(x, t, operation, Told(x, operation, status, code))
            ==> Ends(v, t, operation, Told(v, operation, status, code))
    ensures Fails(x, t, operation, status, code, now) ==> Fails(v, t, operation, status, code, now)
  {
    hide BackoffSeconds;
  }

  lemma OfferBounded(c: Config, u: Core, r: Response, missing: Option<Operation>)
    requires Holding(c, u, missing)
    requires r.realm.Some? ==> |r.realm.value| <= MAX_STUN_INPUT
    ensures ChallengeRealm(u, r).Some? ==> |ChallengeRealm(u, r).value| <= MAX_STUN_INPUT
    ensures |u.events| <= EVENT_CAPACITY
  {
    hide Staged;
    hide Equipped;
    hide Owned;
    hide PendingOk;
  }

  lemma TakenHolds(c: Config, s: Core, i: nat)
    requires Inv(c, s) && i < |s.pending|
    ensures var u := TakePending(s, i);
            Holding(c, u, Some(s.pending[i].operation)) && !HasOperation(u.pending, s.pending[i].operation)
  {
    TakeKeeps(c, s, i);
    StagedWithout(TakePending(s, i), s.pending[i].operation);
    hide Staged;
    hide Flags;
    hide Equipped;
    hide Unallocated;
    hide Credentialed;
    hide Queued;
    hide TakePending;
  }

  lemma StagedWithout(u: Core, operation: Operation)
    requires Staged(u, Some(operation))
    ensures !HasOperation(u.pending, operation)
  {
  }

  lemma ErrorFollows(c: Config, s: Core, u: Core, message: Message, p: Pending, r: Response, code: nat,
                     now: time, draw: Draw)
    requires Holding(c, u, Some(p.operation)) && !HasOperation(u.pending, p.operation)
    requires u.realm == s.realm && u.state == s.state
    requires message.Valid() && !r.success && r.code == Some(code) && code != 0
    requires r.realm == AttributeValue(message, ATTR_REALM) && r.nonce == AttributeValue(message, ATTR_NONCE)
    requires |message.raw| <= MAX_STUN_INPUT
    ensures ErrorDoes(c, s, u, HandleError(c, u, p, r, now, draw), message, p, code, now, draw)
  {
    OfferBounded(c, u, r, Some(p.operation));
    SameMethod(p.operation);
    hide *;
    var t := HandleError(c, u, p, r, now, draw);
    ErrorWays(c, u, p, r, now, draw);
    OffersExactly(c, s, u, p, message, r, code);
    var seen := ResponseError(MethodNumber(p.operation), NoError, code, u.state);
    PushForm(u, seen);
    var x := PushEvent(u, seen);
    EndsAlike(u.(emitted := u.emitted + [seen]), x, t, p.operation, Protocol, code, now);
    if RecreatesOn(p.operation, code) {
      DestroyEndsIt(x, p.operation, Protocol, code);
    } else if Challenges(c, u, p, r) {
      RestartsOffered(c, u, p, r, draw);
    } else {
      FailureOutcome(x, p.operation, Protocol, code, now);
    }
    ErrorGathers(c, s, u, t, message, p, r, code, now, draw);
  }

  lemma SameMethod(operation: Operation)
    ensures MethodFor(operation) == MethodNumber(operation)
  {
  }

  lemma RestartsOffered(c: Config, u: Core, p: Pending, r: Response, draw: Draw)
    requires Holding(c, u, Some(p.operation)) && !HasOperation(u.pending, p.operation)
    requires Challenges(c, u, p, r)
    requires |ChallengeRealm(u, r).value| <= MAX_STUN_INPUT && |r.nonce.value| <= MAX_STUN_INPUT
    ensures var realm, nonce := ChallengeRealm(u, r).value, r.nonce.value;
            var again := StartOperation(c, SetAuth(c, u, realm, nonce), p.operation, true, p.nonceRetries + 1, draw);
            again.ok && Restarts(c, u, again.core, p, realm, nonce, draw)
  {
    hide *;
    ChallengesNames(c, u, p, r);
    RestartsIt(c, u, p, ChallengeRealm(u, r).value, r.nonce.value, draw);
  }

  lemma ChallengesNames(c: Config, u: Core, p: Pending, r: Response)
    requires Challenges(c, u, p, r)
    ensures ChallengeRealm(u, r).Some? && r.nonce.Some?
  {
  }

  lemma ErrorGathers(c: Config, s: Core, u: Core, t: Core, message: Message, p: Pending, r: Response, code: nat,
                     now: time, draw: Draw)
    requires u.state == s.state
    requires var v := u.(emitted := u.emitted + [ResponseError(MethodNumber(p.operation), NoError, code, u.state)]);
             if RecreatesOn(p.operation, code) then Ends(v, t, p.operation, Told(v, p.operation, Protocol, code))
             else if Challenges(c, u, p, r) then
               && ChallengeRealm(u, r).Some? && r.nonce.Some?
               && Offers(s, message, code, ChallengeRealm(u, r).value, r.nonce.value)
               && Restarts(c, u, t, p, ChallengeRealm(u, r).value, r.nonce.value, draw)
             else Fails(v, t, p.operation, Protocol, code, now)
    requires Challenges(c, u, p, r)
             <==> p.nonceRetries < c.profile.maxNonceRetries
                  && exists realm, nonce :: Offers(s, message, code, realm, nonce)
    ensures ErrorDoes(c, s, u, t, message, p, code, now, draw)
  {
    hide Ends;
    hide Fails;
    hide Restarts;
    hide Offers;
    hide Told;
    hide Challenges;
    hide ChallengeRealm;
    hide MethodNumber;
  }

  /** From the bytes of an error response to what it does: the transaction is taken off; then the end of the
      allocation, the same request again with the offered credentials, or a failure. */
  lemma ErrorOutcome(c: Config, s: Core, packet: bytes, message: Message, i: nat, code: nat, now: time, draw: Draw)
    requires Inv(c, s) && |packet| <= MAX_STUN_INPUT
    requires Heard(c, packet, message) && message.Class() == Error && Addressed(s, message, i)
    requires message.Valid() && Gives(message, code) && code != 0
    requires Accepted(c, s, message, s.pending[i], code)
    ensures var t := InputStun(c, s, packet, now, draw);
            && t.status == NoError
            && exists u :: Taken(s, u, i) && ErrorDoes(c, s, u, t.core, message, s.pending[i], code, now, draw)
  {
    hide *;
    RawIs(c, packet, message);
    HeardIsHandled(c, s, packet, message, now, draw);
    AddressedMatches(c, s, message, i);
    ReadsEach(c.crypto, message);
    ReadsFingerprint(c.crypto, message);
    CodesRead(c, message);
    var r := ReadResponse(c.crypto, message);
    AcceptedIs(c, s, message, s.pending[i], r, code);
    Acted(c, s, r, VerifyIntegrity(c.crypto, message, s.key), i, now, draw);
    var u := TakePending(s, i);
    TakenIs(s, i);
    TakenSame(s, u, i);
    TakenHolds(c, s, i);
    ErrorFollows(c, s, u, message, s.pending[i], r, code, now, draw);
    assert Taken(s, u, i) && ErrorDoes(c, s, u, InputStun(c, s, packet, now, draw).core, message, s.pending[i],
                                       code, now, draw);
  }

  lemma RawIs(c: Config, packet: bytes, message: Message)
    requires Heard(c, packet, message)
    ensures message.raw == packet
  {
  }

  lemma TakenSame(s: Core, u: Core, i: nat)
    requires i < |s.pending| && Taken(s, u, i)
    ensures u.realm == s.realm && u.state == s.state
  {
  }

  lemma AcceptedIs(c: Config, s: Core, message: Message, p: Pending, r: Response, code: nat)
    requires message.Valid() && Accepted(c, s, message, p, code) && r.code == Some(code)
    requires r.fingerprinted <==> message.FingerprintValid(c.crypto) == Some(true)
    ensures !p.authenticated || VerifyIntegrity(c.crypto, message, s.key) || BelievedFields(r)
  {
    hide VerifyIntegrity;
  }

  // ---------------------------------------------------------------- successes

  /** The relay and the lifetime a success names, if it does. */
  ghost predicate Grants(message: Message, relay: Result<SocketAddr>, lifetime: Option<u32>) {
    && (relay.Ok? ==> exists value ::
          Holds(message, 0x0016, value) && DecodeXorAddress(value, message.transaction) == relay)
    && (relay.Err? ==> forall value ::
          Holds(message, 0x0016, value) ==> DecodeXorAddress(value, message.transaction).Err?)
    && (lifetime.Some? ==> Holds(message, 0x000d, Be32(lifetime.value)))
    && (lifetime.None? ==> forall value :: Holds(message, 0x000d, value) ==> |value| != 4)
  }

  /** A success the client has no use for: no relay of the peer's family, a zero lifetime, or a release that
      leaves some. */
  predicate Useless(c: Config, operation: Operation, relay: Result<SocketAddr>, lifetime: Option<u32>) {
    match operation
    case Allocate =>
      relay.Err? || relay.value.ip.V4? != c.peer.ip.V4? || relay.value.port == 0 || lifetime == Some(0)
    case Refresh => lifetime == Some(0)
    case Deallocate => lifetime.Some? && lifetime.value != 0
    case _ => false
  }

  /** A live allocation's new deadlines. */
  function Prolonged(c: Config, s: Core, lifetime: Option<u32>, now: time): Core {
    var seconds := if lifetime.Some? then lifetime.value else 600;
    s.(allocationRefresh := Some(now + RefreshAhead(c, seconds * SECOND)),
       allocationExpires := Some(now + seconds * SECOND),
       refreshFailures := 0)
  }

  /** What a useful success makes of the client, its event ring aside. */
  function Succeeded(c: Config, s: Core, operation: Operation, relay: Result<SocketAddr>, lifetime: Option<u32>,
                     now: time): Core
    requires operation == Allocate ==> relay.Ok?
  {
    match operation
    case Allocate =>
      var u := Prolonged(c, s, lifetime, now).(
        state := Ready, relay := Some(relay.value),
        maintenanceRefresh := Some(now + c.profile.maintenanceRefresh),
        keepalive := Some(now + c.profile.keepaliveInterval));
      u.(emitted := s.emitted + [RelayAddress(FromSocketAddr(relay.value)), StateChanged(Ready, s.state),
                                 Told(u, Allocate, NoError, 0)])
    case Refresh =>
      Prolonged(c, s, lifetime, now).(emitted := s.emitted + [Told(s, Refresh, NoError, 0)])
    case Deallocate =>
      var u := s.(relay := None, allocationRefresh := None, allocationExpires := None);
      u.(state := Deallocated,
         emitted := s.emitted + [Told(u, Deallocate, NoError, 0), StateChanged(Deallocated, s.state)])
    case Permission =>
      s.(permissionFailures := 0, emitted := s.emitted + [Told(s, Permission, NoError, 0)])
    case Channel =>
      var u := s.(channel := Some(0x4000), channelFailures := 0);
      u.(emitted := s.emitted + [ChannelBound(0x4000, FromSocketAddr(c.peer)), Told(u, Channel, NoError, 0)])
  }

  lemma SecondsHalf(c: Config, now: time, lifetime: Option<u32>)
    ensures var seconds: nat := if lifetime.Some? then lifetime.value else 600;
            RefreshDeadline(now, lifetime, c.profile.allocationRefresh) == now + RefreshAhead(c, seconds * SECOND)
  {
  }

  lemma ProlongedIs(c: Config, s: Core, lifetime: Option<u32>, now: time)
    ensures Granted(c, s, lifetime, now) == Prolonged(c, s, lifetime, now)
  {
    SecondsHalf(c, now, lifetime);
    hide RefreshDeadline;
    hide RefreshAhead;
  }

  lemma AllocateSucceeds(c: Config, s: Core, r: Response, now: time, draw: Draw)
    requires |s.events| <= EVENT_CAPACITY && s.state == Allocating && !s.shuttingDown
    requires !Useless(c, Allocate, r.relay, r.lifetime)
    ensures var done := CompleteSuccess(c, s, Allocate, r, now, draw);
            done.ok && done.core == Succeeded(c, s, Allocate, r.relay, r.lifetime, now).(events := done.core.events)
  {
    ProlongedIs(c, s, r.lifetime, now);
    hide Granted;
    hide RefreshAhead;
    var granted := Allocated(c, s, r.relay.value, r.lifetime, now);
    var e := RelayAddress(FromSocketAddr(r.relay.value));
    hide FromSocketAddr;
    PushForm(granted, e);
    var announced := PushEvent(granted, e);
    PushForm(announced.(state := Ready), StateChanged(Ready, Allocating));
    hide PushEvent;
    var ready := SetState(announced, Ready);
    ToldIs(ready, Allocate, NoError, 0);
    hide Complete;
    hide StartOperation;
  }

  lemma OthersSucceed(c: Config, s: Core, operation: Operation, r: Response, now: time, draw: Draw)
    requires |s.events| <= EVENT_CAPACITY && operation != Allocate
    requires operation == Deallocate ==> s.state == Deallocating
    requires !Useless(c, operation, r.relay, r.lifetime)
    ensures var done := CompleteSuccess(c, s, operation, r, now, draw);
            done.ok && done.core == Succeeded(c, s, operation, r.relay, r.lifetime, now).(events := done.core.events)
  {
    ProlongedIs(c, s, r.lifetime, now);
    var bound := s.(channel := Some(CHANNEL_NUMBER), channelFailures := 0);
    PushForm(bound, ChannelBound(CHANNEL_NUMBER, FromSocketAddr(c.peer)));
    var announced := PushEvent(bound, ChannelBound(CHANNEL_NUMBER, FromSocketAddr(c.peer)));
    ToldIs(announced, Channel, NoError, 0);
    var freed := s.(relay := None, allocationRefresh := None, allocationExpires := None);
    ToldIs(freed, Deallocate, NoError, 0);
    var told := Complete(freed, Deallocate, NoError, 0);
    PushForm(told.(state := Deallocated), StateChanged(Deallocated, Deallocating));
    ToldIs(Granted(c, s, r.lifetime, now), Refresh, NoError, 0);
    ToldIs(s.(permissionFailures := 0), Permission, NoError, 0);
    hide Granted;
    hide RefreshAhead;
    hide FromSocketAddr;
    hide PushEvent;
    hide Complete;
    hide StartOperation;
  }

  lemma UselessFails(c: Config, s: Core, operation: Operation, r: Response, now: time, draw: Draw)
    requires Useless(c, operation, r.relay, r.lifetime)
    ensures CompleteSuccess(c, s, operation, r, now, draw) == Outcome(s, false)
  {
    hide StartOperation;
    hide SetState;
    hide PushEvent;
  }

  lemma GrantsExactly(message: Message, r: Response, relay: Result<SocketAddr>, lifetime: Option<u32>)
    requires message.Valid() && Grants(message, relay, lifetime)
    requires r.lifetime == AttributeU32(message, ATTR_LIFETIME)
    requires Lacks(message, ATTR_XOR_RELAYED_ADDRESS) ==> r.relay == Err
    requires forall value :: Holds(message, ATTR_XOR_RELAYED_ADDRESS, value) ==>
               r.relay == DecodeXorAddress(value, message.transaction)
    ensures r.relay == relay && r.lifetime == lifetime
  {
    hide Find;
    hide AttributesAt;
    hide DecodeXorAddress;
    hide FromBe32;
    hide Be32;
    var found := message.Attribute(ATTR_LIFETIME);
    if found.Some? {
      assert Holds(message, ATTR_LIFETIME, found.value.value);
    }
    var named := message.Attribute(ATTR_XOR_RELAYED_ADDRESS);
    if named.Some? {
      assert Holds(message, ATTR_XOR_RELAYED_ADDRESS, named.value.value);
    } else {
      assert Lacks(message, ATTR_XOR_RELAYED_ADDRESS);
    }
  }

  lemma ReadsRelays(crypto: StunCrypto, message: Message)
    requires message.Valid()
    ensures var r := ReadResponse(crypto, message);
            && (Lacks(message, ATTR_XOR_RELAYED_ADDRESS) ==> r.relay == Err)
            && forall value :: Holds(message, ATTR_XOR_RELAYED_ADDRESS, value) ==>
                 r.relay == DecodeXorAddress(value, message.transaction)
  {
    hide ErrorCode;
    hide AttributeValue;
    hide AttributeU32;
    hide ClassOf;
    hide MethodOf;
    hide Find;
    hide AttributesAt;
    hide Walks;
    hide DecodeXorAddress;
  }

  lemma StateOf(c: Config, s: Core, i: nat)
    requires Inv(c, s) && i < |s.pending|
    ensures match s.pending[i].operation
            case Allocate => s.state == Allocating && i == 0
            case Deallocate => s.state == Deallocating && i == 0
            case _ => s.state == Ready && !s.shuttingDown
    ensures |s.events| <= EVENT_CAPACITY
  {
    hide PendingOk;
    hide Owned;
  }

  lemma Succeeding(c: Config, s: Core, r: Response, i: nat, now: time, draw: Draw)
    requires Match(s.pending, r) == Some(i) && s.pending[i].authenticated && r.success
    ensures var u, p := TakePending(s, i), s.pending[i];
            var done := CompleteSuccess(c, u, p.operation, r, now, draw);
            HandleResponse(c, s, r, true, now, draw)
            == if done.ok then Reply(done.core, NoError)
               else Reply(CompleteFailure(done.core, p.operation, Protocol, 0, now), Protocol)
  {
    hide HandleError;
    hide CompleteSuccess;
    hide CompleteFailure;
    hide TakePending;
    hide PushEvent;
    hide Match;
  }

  ghost predicate SuccessDoes(c: Config, u: Core, t: Reply, operation: Operation, relay: Result<SocketAddr>,
                              lifetime: Option<u32>, now: time)
  {
    if Useless(c, operation, relay, lifetime) then
      t.status == Protocol && Fails(u, t.core, operation, Protocol, 0, now)
    else if operation == Allocate && u.shuttingDown then
      t.core.state == Deallocating && Releasing(c, t.core)
    else
      t == Reply(Succeeded(c, u, operation, relay, lifetime, now).(events := t.core.events), NoError)
  }

  lemma SuccessFollows(c: Config, s: Core, r: Response, i: nat, now: time, draw: Draw)
    requires Inv(c, s) && Match(s.pending, r) == Some(i) && s.pending[i].authenticated && r.success
    ensures SuccessDoes(c, TakePending(s, i), HandleResponse(c, s, r, true, now, draw), s.pending[i].operation,
                        r.relay, r.lifetime, now)
  {
    var u, operation := TakePending(s, i), s.pending[i].operation;
    var t := HandleResponse(c, s, r, true, now, draw);
    StateOf(c, s, i);
    TakenIs(s, i);
    TakenKeepsRest(s, u, i);
    UselessIs(c, operation, r);
    hide *;
    Succeeding(c, s, r, i, now, draw);
    if Useless(c, operation, r.relay, r.lifetime) {
      UselessFails(c, u, operation, r, now, draw);
      FailureOutcome(u, operation, Protocol, 0, now);
    } else if operation != Allocate {
      OthersSucceed(c, u, operation, r, now, draw);
    } else if u.shuttingDown {
      LateSuccessIsReleased(c, s, r, now, draw);
    } else {
      AllocateSucceeds(c, u, r, now, draw);
    }
    SuccessGathers(c, u, t, operation, r.relay, r.lifetime, now);
  }

  lemma TakenKeepsRest(s: Core, u: Core, i: nat)
    requires i < |s.pending| && Taken(s, u, i)
    ensures u.shuttingDown == s.shuttingDown && u.state == s.state && u.events == s.events
  {
  }

  lemma UselessIs(c: Config, operation: Operation, r: Response)
    ensures operation == Allocate ==>
              (!Useless(c, operation, r.relay, r.lifetime) <==> UsableRelay(c, r.relay) && r.lifetime != Some(0))
    ensures operation == Allocate && !Useless(c, operation, r.relay, r.lifetime) ==> r.relay.Ok?
  {
  }

  lemma SuccessGathers(c: Config, u: Core, t: Reply, operation: Operation, relay: Result<SocketAddr>,
                       lifetime: Option<u32>, now: time)
    requires operation == Allocate && !Useless(c, operation, relay, lifetime) ==> relay.Ok?
    requires if Useless(c, operation, relay, lifetime) then
               t.status == Protocol && Fails(u, t.core, operation, Protocol, 0, now)
             else if operation == Allocate && u.shuttingDown then
               t.core.state == Deallocating && Releasing(c, t.core)
             else
               t == Reply(Succeeded(c, u, operation, relay, lifetime, now).(events := t.core.events), NoError)
    ensures SuccessDoes(c, u, t, operation, relay, lifetime, now)
  {
    hide Fails;
    hide Releasing;
    hide Succeeded;
  }

  /** From the bytes of a verified success to what it does, operation by operation. */
  lemma SuccessOutcome(c: Config, s: Core, packet: bytes, message: Message, i: nat, relay: Result<SocketAddr>,
                       lifetime: Option<u32>, now: time, draw: Draw)
    requires Inv(c, s)
    requires Heard(c, packet, message) && message.Class() == Class.Success && Addressed(s, message, i)
    requires message.Valid() && Grants(message, relay, lifetime)
    requires s.pending[i].authenticated && VerifyIntegrity(c.crypto, message, s.key)
    ensures var t := InputStun(c, s, packet, now, draw);
            exists u :: Taken(s, u, i) && SuccessDoes(c, u, t, s.pending[i].operation, relay, lifetime, now)
  {
    hide *;
    HeardIsHandled(c, s, packet, message, now, draw);
    AddressedMatches(c, s, message, i);
    ReadsEach(c.crypto, message);
    ReadsRelays(c.crypto, message);
    var r := ReadResponse(c.crypto, message);
    GrantsExactly(message, r, relay, lifetime);
    SuccessFollows(c, s, r, i, now, draw);
    var u := TakePending(s, i);
    TakenIs(s, i);
    assert Taken(s, u, i) && SuccessDoes(c, u, InputStun(c, s, packet, now, draw), s.pending[i].operation, relay,
                                         lifetime, now);
  }

  // ---------------------------------------------------------------- everything else

  /** What is no response, has a wrong fingerprint, or answers nothing that is pending changes nothing. */
  lemma Unheard(c: Config, s: Core, packet: bytes, now: time, draw: Draw)
    ensures var t := InputStun(c, s, packet, now, draw);
            match Decode(packet)
            case Err => t == Reply(s, InvalidArgument)
            case Ok(message) =>
              && (message.Class() in {Request, Indication} ==> t == Reply(s, NotControl))
              && (message.Class() in {Class.Success, Error} ==>
                    && (message.FingerprintValid(c.crypto) == Some(false) ==> t == Reply(s, InvalidArgument))
                    && (Heard(c, packet, message) && (forall p :: p in s.pending ==> !Concerns(p, message)) ==>
                          t == Reply(s, NotControl)))
  {
    hide HandleResponse;
    hide ReadResponse;
    hide VerifyIntegrity;
    hide Decode;
    hide ClassOf;
    hide MethodOf;
    hide Find;
    hide AttributesAt;
    if Decode(packet).Ok? {
      var message := Decode(packet).value;
      if forall p :: p in s.pending ==> !Concerns(p, message) {
        Unmatched(c, s, message, VerifyIntegrity(c.crypto, message, s.key), now, draw);
      }
    }
  }

  lemma Unmatched(c: Config, s: Core, message: Message, verified: bool, now: time, draw: Draw)
    requires message.Valid() && forall p :: p in s.pending ==> !Concerns(p, message)
    ensures HandleResponse(c, s, ReadResponse(c.crypto, message), verified, now, draw) == Reply(s, NotControl)
  {
    var r := ReadResponse(c.crypto, message);
    ReadsEach(c.crypto, message);
    hide ReadResponse;
    hide HandleError;
    hide HandleSuccess;
    forall j | 0 <= j < |s.pending| ensures !Answers(s.pending[j], r) {
      assert s.pending[j] in s.pending;
      SameMethod(s.pending[j].operation);
    }
    hide Answers;
    hide Concerns;
  }

  /** A success that answers an unauthenticated request fails it, signed or not. */
  lemma UnaskedSuccess(c: Config, s: Core, packet: bytes, message: Message, i: nat, now: time, draw: Draw)
    requires Inv(c, s)
    requires Heard(c, packet, message) && message.Class() == Class.Success && Addressed(s, message, i)
    requires !s.pending[i].authenticated
    ensures var t := InputStun(c, s, packet, now, draw);
            && t.status == Authentication
            && exists u :: Taken(s, u, i) && Fails(u, t.core, s.pending[i].operation, Authentication, 0, now)
  {
    HeardIsValid(c, packet, message);
    StateOf(c, s, i);
    TakenIs(s, i);
    var u := TakePending(s, i);
    TakenKeepsRest(s, u, i);
    hide *;
    HeardIsHandled(c, s, packet, message, now, draw);
    AddressedMatches(c, s, message, i);
    ReadsEach(c.crypto, message);
    Unasked(c, s, ReadResponse(c.crypto, message), VerifyIntegrity(c.crypto, message, s.key), i, now, draw);
    FailureOutcome(u, s.pending[i].operation, Authentication, 0, now);
    assert Taken(s, u, i) && Fails(u, InputStun(c, s, packet, now, draw).core, s.pending[i].operation,
                                   Authentication, 0, now);
  }

  lemma Unasked(c: Config, s: Core, r: Response, verified: bool, i: nat, now: time, draw: Draw)
    requires Match(s.pending, r) == Some(i) && !s.pending[i].authenticated && r.success
    ensures HandleResponse(c, s, r, verified, now, draw)
            == Reply(CompleteFailure(TakePending(s, i), s.pending[i].operation, Authentication, 0, now),
                     Authentication)
  {
    hide HandleError;
    hide CompleteSuccess;
    hide CompleteFailure;
    hide TakePending;
    hide PushEvent;
    hide Match;
  }

  /** An error that gives no code, or zero, is a failure if it is unsigned or verified. */
  lemma CodelessError(c: Config, s: Core, packet: bytes, message: Message, i: nat, now: time, draw: Draw)
    requires Inv(c, s)
    requires Heard(c, packet, message) && message.Class() == Error && Addressed(s, message, i)
    requires message.Valid() && forall code: nat :: Gives(message, code) ==> code == 0
    requires !s.pending[i].authenticated || VerifyIntegrity(c.crypto, message, s.key)
    ensures var t := InputStun(c, s, packet, now, draw);
            var p := s.pending[i];
            && t.status == NoError
            && exists u :: Taken(s, u, i)
                           && Fails(u.(emitted := u.emitted
                                                  + [ResponseError(MethodNumber(p.operation), Protocol, 0, s.state)]),
                                    t.core, p.operation, Protocol, 0, now)
  {
    StateOf(c, s, i);
    TakenIs(s, i);
    var u, p := TakePending(s, i), s.pending[i];
    TakenKeepsRest(s, u, i);
    SameMethod(p.operation);
    hide *;
    HeardIsHandled(c, s, packet, message, now, draw);
    AddressedMatches(c, s, message, i);
    ReadsEach(c.crypto, message);
    CodesRead(c, message);
    var r := ReadResponse(c.crypto, message);
    var verified := VerifyIntegrity(c.crypto, message, s.key);
    assert r.code.Some? ==> Gives(message, r.code.value);
    Acted(c, s, r, verified, i, now, draw);
    var seen := ResponseError(MethodNumber(p.operation), Protocol, 0, u.state);
    Codeless(c, u, p, r, now, draw);
    PushForm(u, seen);
    var x, t := PushEvent(u, seen), InputStun(c, s, packet, now, draw).core;
    FailureOutcome(x, p.operation, Protocol, 0, now);
    EndsAlike(u.(emitted := u.emitted + [seen]), x, t, p.operation, Protocol, 0, now);
    assert Taken(s, u, i) && Fails(u.(emitted := u.emitted + [seen]), t, p.operation, Protocol, 0, now);
  }

  lemma Codeless(c: Config, u: Core, p: Pending, r: Response, now: time, draw: Draw)
    requires !r.success && (r.code.None? || r.code.value == 0)
    ensures HandleError(c, u, p, r, now, draw)
            == CompleteFailure(PushEvent(u, ResponseError(MethodFor(p.operation), Protocol, 0, u.state)),
                               p.operation, Protocol, 0, now)
  {
    hide CompleteFailure;
    hide PushEvent;
    hide MethodFor;
  }

  // ---------------------------------------------------------------- one response

  const QUOTA_REACHED: seq<Field> := [Field(ATTR_ERROR_CODE, [0, 0, 4, 86])]

  lemma QuotaBuilds(crypto: StunCrypto, transaction: Octets12)
    ensures Build(crypto, 0x113, transaction, QUOTA_REACHED, None).Ok?
  {
    hide EncodeFields;
    hide Build;
    EncodedBound(QUOTA_REACHED);
    BuildBytes(crypto, 0x113, transaction, QUOTA_REACHED, None);
  }

  lemma QuotaRead(c: Config, transaction: Octets12, key: Option<Octets16>)
    ensures Build(c.crypto, 0x113, transaction, QUOTA_REACHED, None).Ok?
    ensures var packet := Build(c.crypto, 0x113, transaction, QUOTA_REACHED, None).value;
            var message := Message(packet, 0x113, transaction);
            && Heard(c, packet, message) && message.Valid() && message.Class() == Error
            && message.Method() == 3 && Gives(message, 486)
            && !VerifyIntegrity(c.crypto, message, key)
  {
    QuotaBuilds(c.crypto, transaction);
    assert QUOTA_REACHED[0] == Field(ATTR_ERROR_CODE, [0, 0, 4, 86]);
    assert forall f :: f in QUOTA_REACHED ==> Alias(f.kind) == ATTR_ERROR_CODE;
    KindsOfAllocate();
    assert Says([0, 0, 4, 86], 486);
    hide Build;
    hide Decode;
    hide Carries;
    hide Holds;
    hide AttributesAt;
    hide Find;
    hide Walks;
    var packet := Build(c.crypto, 0x113, transaction, QUOTA_REACHED, None).value;
    var message := Message(packet, 0x113, transaction);
    BuiltCarries(c.crypto, 0x113, transaction, QUOTA_REACHED, None);
    Carried(message, QUOTA_REACHED, 0);
    BuiltLacks(c.crypto, 0x113, transaction, QUOTA_REACHED, None, ATTR_MESSAGE_INTEGRITY);
    ReadBack(c.crypto, 0x113, transaction, QUOTA_REACHED, None);
  }

  /** An unsigned 486 (allocation quota reached) with the transaction of the pending, authenticated Allocate
      does not end the allocation: it is told to the driver and otherwise ignored. */
  lemma UnsignedQuotaIsIgnored(c: Config, s: Core, now: time, draw: Draw)
    requires Inv(c, s) && s.state == Allocating && s.pending[0].authenticated
    ensures Build(c.crypto, 0x113, s.pending[0].transaction, QUOTA_REACHED, None).Ok?
    ensures var packet := Build(c.crypto, 0x113, s.pending[0].transaction, QUOTA_REACHED, None).value;
            var t := InputStun(c, s, packet, now, draw);
            && t.status == Authentication
            && t.core == s.(events := t.core.events,
                            emitted := s.emitted + [ResponseError(3, Authentication, 486, Allocating)])
  {
    var transaction := s.pending[0].transaction;
    QuotaRead(c, transaction, s.key);
    AllocateAlone(c, s);
    var packet := Build(c.crypto, 0x113, transaction, QUOTA_REACHED, None).value;
    var message := Message(packet, 0x113, transaction);
    assert Addressed(s, message, 0);
    OneCode(c, message, 486);
    hide *;
    UnverifiedError(c, s, packet, message, 0, now, draw);
  }

  lemma AllocateAlone(c: Config, s: Core)
    requires Inv(c, s) && s.state == Allocating
    ensures |s.pending| == 1 && s.pending[0].operation == Allocate && |s.events| <= EVENT_CAPACITY
  {
    hide PendingOk;
    hide Owned;
  }

  lemma OneCode(c: Config, message: Message, code: nat)
    requires message.Valid() && Gives(message, code) && code !in {400, 401, 420, 437, 438}
    ensures !exists other :: Gives(message, other) && Believed(c, message, other)
  {
    hide Gives;
    forall other: nat | Gives(message, other) ensures other == code {
      GivesCode(message, other);
      GivesCode(message, code);
    }
  }
}
