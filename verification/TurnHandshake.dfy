/** The exchange that opens an allocation: start, challenge, authenticated request, success. It shows
    that the client gets to READY, and what a challenge can do to it. */
module TurnHandshake {
  import opened Bytes
  import opened Addresses
  import opened StunMessages
  import opened StunBuilder
  import opened StunReading
  import opened TurnRequests
  import opened TurnState
  import opened TurnSafety

  // ---------------------------------------------------------------- what a server writes

  const ALLOCATE_SUCCESS: u16 := 0x103
  const ALLOCATE_ERROR: u16 := 0x113
  const UNAUTHORIZED: bytes := [0, 0, 4, 1]

  function ChallengeFields(realm: bytes, nonce: bytes): seq<Field> {
    [Field(ATTR_ERROR_CODE, UNAUTHORIZED), Field(ATTR_REALM, realm), Field(ATTR_NONCE, nonce)]
  }

  /** A 401 response to an Allocate. */
  function Challenge(crypto: StunCrypto, transaction: Octets12, realm: bytes, nonce: bytes): Result<bytes> {
    Build(crypto, ALLOCATE_ERROR, transaction, ChallengeFields(realm, nonce), None)
  }

  function GrantFields(relay: SocketAddr, transaction: Octets12, lifetime: u32): seq<Field> {
    [Field(ATTR_XOR_RELAYED_ADDRESS, EncodeXorAddress(relay, transaction)),
     Field(ATTR_LIFETIME, Be32(lifetime))]
  }

  /** A success response to an Allocate, signed. */
  function Grant(crypto: StunCrypto, transaction: Octets12, relay: SocketAddr, lifetime: u32, key: Octets16)
    : Result<bytes>
  {
    Build(crypto, ALLOCATE_SUCCESS, transaction, GrantFields(relay, transaction, lifetime), Some(key))
  }

  // ---------------------------------------------------------------- what the client reads

  lemma ChallengeBuilds(crypto: StunCrypto, transaction: Octets12, realm: bytes, nonce: bytes)
    requires |realm| <= MAX_STUN_INPUT && |nonce| <= MAX_STUN_INPUT
    ensures Challenge(crypto, transaction, realm, nonce).Ok?
  {
    hide EncodeFields;
    hide Build;
    EncodedBound(ChallengeFields(realm, nonce));
    BuildBytes(crypto, ALLOCATE_ERROR, transaction, ChallengeFields(realm, nonce), None);
  }

  lemma ReadsChallenge(crypto: StunCrypto, message: Message, realm: bytes, nonce: bytes)
    requires Holds(message, ATTR_ERROR_CODE, UNAUTHORIZED)
    requires Holds(message, ATTR_REALM, realm) && Holds(message, ATTR_NONCE, nonce)
    ensures var r := ReadResponse(crypto, message);
            r.code == Some(401) && r.realm == Some(realm) && r.nonce == Some(nonce)
  {
    ReadsCode(message, UNAUTHORIZED, 401);
    ReadsHeld(message, ATTR_REALM, realm);
    ReadsHeld(message, ATTR_NONCE, nonce);
    HeldIsValid(message, ATTR_REALM, realm);
    hide *;
    ReadsEach(crypto, message);
  }

  lemma KindsOfAllocate()
    ensures ClassOf(ALLOCATE_ERROR) == Error && MethodOf(ALLOCATE_ERROR) == METHOD_ALLOCATE
    ensures ClassOf(ALLOCATE_SUCCESS) == Class.Success && MethodOf(ALLOCATE_SUCCESS) == METHOD_ALLOCATE
  {
  }

  lemma ChallengeKinds(realm: bytes, nonce: bytes)
    ensures var fields := ChallengeFields(realm, nonce);
            && fields == [Field(ATTR_ERROR_CODE, UNAUTHORIZED), Field(ATTR_REALM, realm), Field(ATTR_NONCE, nonce)]
            && forall f :: f in fields ==> f.kind != ATTR_FINGERPRINT && f.kind != ATTR_MESSAGE_INTEGRITY
    ensures Alias(ATTR_ERROR_CODE) == ATTR_ERROR_CODE && Alias(ATTR_REALM) == ATTR_REALM
            && Alias(ATTR_NONCE) == ATTR_NONCE
  {
  }

  lemma ChallengeRead(crypto: StunCrypto, transaction: Octets12, realm: bytes, nonce: bytes)
    requires Challenge(crypto, transaction, realm, nonce).Ok?
    ensures var packet := Challenge(crypto, transaction, realm, nonce).value;
            var message := Message(packet, ALLOCATE_ERROR, transaction);
            && Decode(packet) == Ok(message)
            && message.Class() == Error && message.FingerprintValid(crypto) == Some(true)
            && var r := ReadResponse(crypto, message);
               && !r.success && r.method_ == METHOD_ALLOCATE && r.transaction == transaction
               && r.code == Some(401) && r.realm == Some(realm) && r.nonce == Some(nonce)
  {
    var fields := ChallengeFields(realm, nonce);
    ChallengeKinds(realm, nonce);
    KindsOfAllocate();
    hide ReadResponse;
    hide Build;
    hide Decode;
    hide Carries;
    hide Holds;
    hide Alias;
    hide AttributesAt;
    hide Find;
    hide ClassOf;
    hide MethodOf;
    hide VerifyIntegrity;
    hide Walks;
    hide ErrorCode;
    hide AttributeValue;
    hide AttributeU32;
    var packet := Challenge(crypto, transaction, realm, nonce).value;
    var message := Message(packet, ALLOCATE_ERROR, transaction);
    BuiltCarries(crypto, ALLOCATE_ERROR, transaction, fields, None);
    ReadBack(crypto, ALLOCATE_ERROR, transaction, fields, None);
    Carried(message, fields, 0);
    Carried(message, fields, 1);
    Carried(message, fields, 2);
    ReadsChallenge(crypto, message, realm, nonce);
    ReadsEach(crypto, message);
  }

  lemma GrantBuilds(crypto: StunCrypto, transaction: Octets12, relay: SocketAddr, lifetime: u32, key: Octets16)
    ensures Grant(crypto, transaction, relay, lifetime, key).Ok?
  {
    hide EncodeFields;
    hide Build;
    PeerValueSize(relay, transaction);
    hide EncodeXorAddress;
    EncodedBound(GrantFields(relay, transaction, lifetime));
    BuildBytes(crypto, ALLOCATE_SUCCESS, transaction, GrantFields(relay, transaction, lifetime), Some(key));
  }

  lemma GrantRead(crypto: StunCrypto, transaction: Octets12, relay: SocketAddr, lifetime: u32, key: Octets16)
    ensures Grant(crypto, transaction, relay, lifetime, key).Ok?
    ensures var packet := Grant(crypto, transaction, relay, lifetime, key).value;
            var message := Message(packet, ALLOCATE_SUCCESS, transaction);
            && Decode(packet) == Ok(message)
            && message.Class() == Class.Success && message.FingerprintValid(crypto) == Some(true)
            && VerifyIntegrity(crypto, message, Some(key))
            && var r := ReadResponse(crypto, message);
               && r.success && r.method_ == METHOD_ALLOCATE && r.transaction == transaction
               && r.relay == Ok(relay) && r.lifetime == Some(lifetime)
  {
    GrantBuilds(crypto, transaction, relay, lifetime, key);
    var fields := GrantFields(relay, transaction, lifetime);
    var value := EncodeXorAddress(relay, transaction);
    var packet := Grant(crypto, transaction, relay, lifetime, key).value;
    var message := Message(packet, ALLOCATE_SUCCESS, transaction);
    assert fields[0] == Field(ATTR_XOR_RELAYED_ADDRESS, value);
    assert fields[1] == Field(ATTR_LIFETIME, Be32(lifetime));
    assert forall f :: f in fields ==> f.kind != ATTR_FINGERPRINT && f.kind != ATTR_MESSAGE_INTEGRITY;
    assert Alias(ATTR_XOR_RELAYED_ADDRESS) == ATTR_XOR_RELAYED_ADDRESS && Alias(ATTR_LIFETIME) == ATTR_LIFETIME;
    KindsOfAllocate();
    hide *;
    BuiltCarries(crypto, ALLOCATE_SUCCESS, transaction, fields, Some(key));
    ReadBack(crypto, ALLOCATE_SUCCESS, transaction, fields, Some(key));
    Carried(message, fields, 0);
    Carried(message, fields, 1);
    ReadsEach(crypto, message);
    ReadsHeld(message, ATTR_LIFETIME, Be32(lifetime));
    ReadsRelay(crypto, message, value);
    XorAddressRoundTrip(relay, transaction);
  }

  // ---------------------------------------------------------------- the steps

  /** The client after it started its allocation. */
  ghost predicate Asked(c: Config, s: Core, draw: Draw) {
    && s.state == Allocating && !s.shuttingDown && !s.destroyed && |s.events| == 1
    && |s.pending| == 1 && |s.controls| == 1
    && s.controls[0] == s.pending[0].packet
    && CarriesTransaction(s.controls[0], draw.transaction)
    && s.pending[0].operation == Allocate && s.pending[0].transaction == draw.transaction
    && s.pending[0].nonceRetries == 0 && !s.pending[0].authenticated
  }

  lemma Starts(c: Config, draw: Draw)
    requires c.Valid()
    ensures Asked(c, Apply(c, Initial(), StartAllocate(draw)), draw)
  {
    RequestBuilds(c.crypto, Allocate, c.peer, draw.transaction, None);
    hide BuildRequest;
  }

  /** The key of a user under a realm (RFC 8489, section 9.2.2). */
  function LongTermKey(c: Config, realm: bytes): Octets16 {
    c.crypto.md5(c.username + [0x3a] + realm + [0x3a] + c.password)
  }

  /** The client after it answered a challenge: one authenticated Allocate is pending, its packet alone
      is queued. */
  ghost predicate Answering(c: Config, s: Core, realm: bytes, nonce: bytes, draw: Draw) {
    && s.state == Allocating && !s.shuttingDown && !s.destroyed && |s.events| == 1
    && s.realm == Some(realm) && s.nonce == Some(nonce) && s.key == Some(LongTermKey(c, realm))
    && |s.pending| == 1 && s.controls == [s.pending[0].packet]
    && s.pending[0].operation == Allocate && s.pending[0].transaction == draw.transaction
    && s.pending[0].authenticated
    && BuildRequest(c.crypto, Allocate, c.peer, draw.transaction, AuthOf(c, s, true)) == Ok(s.controls[0])
  }

  lemma Answers401(c: Config, s: Core, first: Draw, realm: bytes, nonce: bytes, now: time, draw: Draw)
    requires c.Valid() && Asked(c, s, first) && 0 < c.profile.maxNonceRetries
    requires |realm| <= MAX_STUN_INPUT && |nonce| <= MAX_STUN_INPUT
    ensures Challenge(c.crypto, first.transaction, realm, nonce).Ok?
    ensures var packet := Challenge(c.crypto, first.transaction, realm, nonce).value;
            Answering(c, Apply(c, s, Input(packet, now, draw)), realm, nonce, draw)
  {
    hide Challenge;
    hide Answering;
    hide Decode;
    ChallengeBuilds(c.crypto, first.transaction, realm, nonce);
    ChallengeRead(c.crypto, first.transaction, realm, nonce);
    var packet := Challenge(c.crypto, first.transaction, realm, nonce).value;
    var message := Message(packet, ALLOCATE_ERROR, first.transaction);
    Hears(c, s, packet, message, now, draw);
    hide VerifyIntegrity;
    var r := ReadResponse(c.crypto, message);
    hide ReadResponse;
    TakenEmpty(s, first);
    Challenged(c, TakePending(s, 0), s.pending[0], r, now, draw);
    hide TakePending;
    ErrorHandled(c, s, r, VerifyIntegrity(c.crypto, message, s.key), now, draw);
    hide HandleResponse;
  }

  lemma ErrorHandled(c: Config, s: Core, r: Response, verified: bool, now: time, draw: Draw)
    requires |s.pending| == 1 && Answers(s.pending[0], r) && !s.pending[0].authenticated && !r.success
    ensures HandleResponse(c, s, r, verified, now, draw).core
            == HandleError(c, TakePending(s, 0), s.pending[0], r, now, draw)
  {
    hide HandleError;
    hide TakePending;
    hide Answers;
  }

  lemma SuccessHandled(c: Config, s: Core, r: Response, now: time, draw: Draw)
    requires |s.pending| == 1 && Answers(s.pending[0], r) && s.pending[0].authenticated && r.success
    requires CompleteSuccess(c, TakePending(s, 0), s.pending[0].operation, r, now, draw).ok
    ensures HandleResponse(c, s, r, true, now, draw).core
            == CompleteSuccess(c, TakePending(s, 0), s.pending[0].operation, r, now, draw).core
  {
    hide CompleteSuccess;
    hide TakePending;
    hide Answers;
  }

  /** A response that decodes and has no invalid fingerprint is handled. */
  lemma Hears(c: Config, s: Core, packet: bytes, message: Message, now: time, draw: Draw)
    requires Decode(packet) == Ok(message)
    requires message.Class() == Class.Success || message.Class() == Error
    requires message.FingerprintValid(c.crypto) == Some(true)
    ensures Apply(c, s, Input(packet, now, draw))
            == HandleResponse(c, s, ReadResponse(c.crypto, message),
                              VerifyIntegrity(c.crypto, message, s.key), now, draw).core
  {
    hide HandleResponse;
    hide VerifyIntegrity;
    hide ReadResponse;
    hide Decode;
  }

  lemma TakenEmpty(s: Core, draw: Draw)
    requires |s.pending| == 1 && |s.controls| == 1
    requires s.pending[0].transaction == draw.transaction && CarriesTransaction(s.controls[0], draw.transaction)
    ensures TakePending(s, 0) == s.(pending := [], controls := [])
  {
    assert s.controls[1..] == [];
    assert WithoutTransaction(s.controls[1..], draw.transaction) == [];
    assert WithoutTransaction(s.controls, draw.transaction) == [];
    assert s.pending[..0] == [] && s.pending[1..] == [];
    assert Without(s.pending, 0) == [];
  }

  lemma Challenged(c: Config, s: Core, p: Pending, r: Response, now: time, draw: Draw)
    requires c.Valid() && s.state == Allocating && !s.shuttingDown && !s.destroyed && |s.events| == 1
    requires s.pending == [] && s.controls == [] && p.operation == Allocate && p.nonceRetries == 0
    requires !r.success && r.code == Some(401) && r.realm.Some? && r.nonce.Some?
    requires |r.realm.value| <= MAX_STUN_INPUT && |r.nonce.value| <= MAX_STUN_INPUT
    requires 0 < c.profile.maxNonceRetries
    ensures Answering(c, HandleError(c, s, p, r, now, draw), r.realm.value, r.nonce.value, draw)
  {
    var u := SetAuth(c, s, r.realm.value, r.nonce.value);
    RequestBuilds(c.crypto, Allocate, c.peer, draw.transaction, AuthOf(c, u, true));
    hide BuildRequest;
    hide FailWithCode;
    hide CompleteFailure;
    hide DestroyAllocation;
    var t := StartOperation(c, u, Allocate, true, 1, draw);
    assert t.ok;
    assert HandleError(c, s, p, r, now, draw) == t.core;
  }

  lemma AnsweringHas(c: Config, s: Core, realm: bytes, nonce: bytes, draw: Draw)
    requires Answering(c, s, realm, nonce, draw)
    ensures s.key == Some(LongTermKey(c, realm)) && |s.pending| == 1 && s.pending[0].authenticated
    ensures s.pending[0].operation == Allocate && s.pending[0].transaction == draw.transaction
    ensures |s.events| == 1 && s.state == Allocating && !s.shuttingDown
  {
  }

  lemma GrantAnswers(c: Config, s: Core, r: Response)
    requires |s.pending| == 1 && s.pending[0].operation == Allocate
    requires r.method_ == METHOD_ALLOCATE && r.transaction == s.pending[0].transaction
    ensures Answers(s.pending[0], r)
  {
  }

  lemma Succeeds(c: Config, s: Core, realm: bytes, nonce: bytes, second: Draw, relay: SocketAddr,
                 lifetime: u32, now: time, draw: Draw)
    requires Answering(c, s, realm, nonce, second)
    requires relay.ip.V4? == c.peer.ip.V4? && relay.port != 0 && lifetime != 0
    ensures Grant(c.crypto, second.transaction, relay, lifetime, LongTermKey(c, realm)).Ok?
    ensures var packet := Grant(c.crypto, second.transaction, relay, lifetime, LongTermKey(c, realm)).value;
            var t := Apply(c, s, Input(packet, now, draw));
            && t.state == Ready && t.relay == Some(relay)
            && t.allocationExpires == Some(now + lifetime * SECOND)
  {
    hide *;
    AnsweringHas(c, s, realm, nonce, second);
    GrantRead(c.crypto, second.transaction, relay, lifetime, LongTermKey(c, realm));
    var packet := Grant(c.crypto, second.transaction, relay, lifetime, LongTermKey(c, realm)).value;
    var message := Message(packet, ALLOCATE_SUCCESS, second.transaction);
    Hears(c, s, packet, message, now, draw);
    var r := ReadResponse(c.crypto, message);
    GrantAnswers(c, s, r);
    TakenStays(s, 0);
    GrantedReady(c, TakePending(s, 0), r, now, draw);
    SuccessHandled(c, s, r, now, draw);
  }

  lemma TakenStays(s: Core, i: nat)
    requires i < |s.pending|
    ensures var t := TakePending(s, i); t == s.(pending := t.pending, controls := t.controls)
  {
  }

  lemma GrantedReady(c: Config, s: Core, r: Response, now: time, draw: Draw)
    requires |s.events| == 1 && s.state == Allocating && !s.shuttingDown
    requires r.relay.Ok? && r.relay.value.ip.V4? == c.peer.ip.V4? && r.relay.value.port != 0
    requires r.lifetime.Some? && r.lifetime.value != 0
    ensures var done := CompleteSuccess(c, s, Allocate, r, now, draw);
            && done.ok && done.core.state == Ready && done.core.relay == Some(r.relay.value)
            && done.core.allocationExpires == Some(now + r.lifetime.value * SECOND)
  {
    hide RefreshDeadline;
    var granted := Allocated(c, s, r.relay.value, r.lifetime, now);
    var e := RelayAddress(FromSocketAddr(r.relay.value));
    PushForm(granted, e);
    var announced := PushEvent(granted, e);
    hide PushEvent;
    SetStateForm(announced, Ready);
    hide SetState;
    CompleteForm(SetState(announced, Ready), Allocate, NoError, 0);
    hide Complete;
  }

  // ---------------------------------------------------------------- the exchange

  /** The one queued packet is an Allocate that names the user as the challenge did, and is signed with
      the key of the challenge's realm. */
  ghost predicate QueuesAnswer(c: Config, s: Core, realm: bytes, nonce: bytes) {
    && |s.controls| == 1
    && var request := Decode(s.controls[0]);
       && request.Ok?
       && request.value.Class() == Request && request.value.Method() == MethodNumber(Allocate)
       && Asks(request.value, Allocate, c.peer)
       && Holds(request.value, 0x0006, c.username)
       && Holds(request.value, 0x0014, realm) && Holds(request.value, 0x0015, nonce)
       && VerifyIntegrity(c.crypto, request.value, Some(LongTermKey(c, realm)))
  }

  lemma AnswerQueued(c: Config, s: Core, realm: bytes, nonce: bytes, draw: Draw)
    requires c.Valid() && Answering(c, s, realm, nonce, draw)
    requires |realm| <= MAX_STUN_INPUT && |nonce| <= MAX_STUN_INPUT
    ensures QueuesAnswer(c, s, realm, nonce)
  {
    var auth := AuthOf(c, s, true);
    assert auth == Some(Auth(c.username, realm, nonce, LongTermKey(c, realm)));
    hide LongTermKey;
    assert AuthBounded(auth) && KeyOf(auth) == Some(LongTermKey(c, realm));
    hide AuthOf;
    RequestSays(c.crypto, Allocate, c.peer, draw.transaction, auth);
    RequestReadBack(c.crypto, Allocate, c.peer, draw.transaction, auth);
    hide BuildRequest;
    hide Decode;
    hide Asks;
    hide Holds;
    hide VerifyIntegrity;
    hide KeyOf;
    hide ClassOf;
    hide MethodOf;
  }

  /** A new client that starts an allocation and is challenged with a realm and a nonce queues a signed
      request that gives both back; and when it is granted a relay in a response signed with its key under
      that realm, it is READY with that relay and the granted lifetime. */
  lemma ReachesReady(c: Config, first: Draw, realm: bytes, nonce: bytes, challengedAt: time, second: Draw,
                     relay: SocketAddr, lifetime: u32, grantedAt: time, third: Draw)
    requires c.Valid() && 0 < c.profile.maxNonceRetries
    requires |realm| <= MAX_STUN_INPUT && |nonce| <= MAX_STUN_INPUT
    requires relay.ip.V4? == c.peer.ip.V4? && relay.port != 0 && lifetime != 0
    ensures var challenge := Challenge(c.crypto, first.transaction, realm, nonce);
            var grant := Grant(c.crypto, second.transaction, relay, lifetime, LongTermKey(c, realm));
            && challenge.Ok? && grant.Ok?
            && var asked := [StartAllocate(first), Input(challenge.value, challengedAt, second)];
               var t := Run(c, Initial(), asked + [Input(grant.value, grantedAt, third)]);
               && QueuesAnswer(c, Run(c, Initial(), asked), realm, nonce)
               && t.state == Ready && t.relay == Some(relay)
               && t.allocationExpires == Some(grantedAt + lifetime * SECOND)
  {
    Exchange(c, first, realm, nonce, challengedAt, second);
    hide *;
    var asked := [StartAllocate(first),
                  Input(Challenge(c.crypto, first.transaction, realm, nonce).value, challengedAt, second)];
    var s := Run(c, Initial(), asked);
    AnswerQueued(c, s, realm, nonce, second);
    Succeeds(c, s, realm, nonce, second, relay, lifetime, grantedAt, third);
    var last := Input(Grant(c.crypto, second.transaction, relay, lifetime, LongTermKey(c, realm)).value,
                      grantedAt, third);
    RunOneMore(c, Initial(), asked, last);
  }

  lemma Exchange(c: Config, first: Draw, realm: bytes, nonce: bytes, at: time, second: Draw)
    requires c.Valid() && 0 < c.profile.maxNonceRetries
    requires |realm| <= MAX_STUN_INPUT && |nonce| <= MAX_STUN_INPUT
    ensures Challenge(c.crypto, first.transaction, realm, nonce).Ok?
    ensures var challenge := Input(Challenge(c.crypto, first.transaction, realm, nonce).value, at, second);
            Answering(c, Run(c, Initial(), [StartAllocate(first), challenge]), realm, nonce, second)
  {
    Starts(c, first);
    hide Apply;
    var s := Apply(c, Initial(), StartAllocate(first));
    Answers401(c, s, first, realm, nonce, at, second);
    hide Asked;
    hide Answering;
    hide Challenge;
    var challenge := Input(Challenge(c.crypto, first.transaction, realm, nonce).value, at, second);
    RunOneMore(c, Initial(), [StartAllocate(first)], challenge);
    assert [StartAllocate(first)] + [challenge] == [StartAllocate(first), challenge];
    assert Run(c, Initial(), [StartAllocate(first)]) == s;
  }

  lemma {:induction false} RunOneMore(c: Config, s: Core, actions: seq<Action>, last: Action)
    ensures Run(c, s, actions + [last]) == Apply(c, Run(c, s, actions), last)
    decreases |actions|
  {
    hide Apply;
    if actions == [] {
      assert actions + [last] == [last] && [last][1..] == [];
    } else {
      assert (actions + [last])[1..] == actions[1..] + [last] && (actions + [last])[0] == actions[0];
      RunOneMore(c, Apply(c, s, actions[0]), actions[1..], last);
    }
  }

  /** What follows a challenge is lost when it is pulled exactly if user name, realm and nonce are too
      long together; a nonce of 1000 bytes is enough whatever the others are. */
  lemma ChallengeCanSilence(c: Config, first: Draw, realm: bytes, nonce: bytes, at: time, second: Draw)
    requires c.Valid() && 0 < c.profile.maxNonceRetries
    requires |realm| <= MAX_STUN_INPUT && |nonce| <= MAX_STUN_INPUT
    ensures Challenge(c.crypto, first.transaction, realm, nonce).Ok?
    ensures var challenge := Input(Challenge(c.crypto, first.transaction, realm, nonce).value, at, second);
            var s := Run(c, Initial(), [StartAllocate(first), challenge]);
            && |s.controls| == 1
            && (PullControl(s).1 == Some(Err)
                <==> Padded(|c.username|) + Padded(|realm|) + Padded(|nonce|) > 936)
            && (|nonce| >= 1000 ==> PullControl(s).1 == Some(Err))
  {
    Exchange(c, first, realm, nonce, at, second);
    hide Challenge;
    hide Run;
    var challenge := Input(Challenge(c.crypto, first.transaction, realm, nonce).value, at, second);
    var s := Run(c, Initial(), [StartAllocate(first), challenge]);
    RequestLength(c.crypto, Allocate, c.peer, second.transaction, AuthOf(c, s, true));
    hide BuildRequest;
    hide Padded;
  }
}
