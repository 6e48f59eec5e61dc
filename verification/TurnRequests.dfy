/** The requests a TURN client sends and what it reads out of a response
    (RFC 8656, sections 7, 8, 10 and 12). */
module TurnRequests {
  import opened Bytes
  import opened Addresses
  import opened StunMessages
  import opened StunBuilder
  import opened StunReading

  datatype Operation = Allocate | Refresh | Deallocate | Permission | Channel

  const METHOD_ALLOCATE: u16 := 3
  const METHOD_REFRESH: u16 := 4
  const METHOD_CREATE_PERMISSION: u16 := 8
  const METHOD_CHANNEL_BIND: u16 := 9

  const ATTR_USERNAME: u16 := 0x0006
  const ATTR_ERROR_CODE: u16 := 0x0009
  const ATTR_CHANNEL_NUMBER: u16 := 0x000c
  const ATTR_LIFETIME: u16 := 0x000d
  const ATTR_XOR_PEER_ADDRESS: u16 := 0x0012
  const ATTR_REALM: u16 := 0x0014
  const ATTR_NONCE: u16 := 0x0015
  const ATTR_XOR_RELAYED_ADDRESS: u16 := 0x0016
  const ATTR_REQUESTED_ADDRESS_FAMILY: u16 := 0x0017
  const ATTR_REQUESTED_TRANSPORT: u16 := 0x0019

  const REQUESTED_LIFETIME_SECS: u32 := 600
  const CHANNEL_NUMBER: u16 := 0x4000

  /** The largest STUN message a driver hands to the core: a stream control frame. Datagrams are
      shorter, they fit a packet buffer. */
  const MAX_STUN_INPUT: nat := 4096

  function MethodFor(operation: Operation): u16 {
    match operation
    case Allocate => METHOD_ALLOCATE
    case Refresh => METHOD_REFRESH
    case Deallocate => METHOD_REFRESH
    case Permission => METHOD_CREATE_PERMISSION
    case Channel => METHOD_CHANNEL_BIND
  }

  datatype Auth = Auth(username: bytes, realm: bytes, nonce: bytes, key: Octets16)

  function OperationFields(operation: Operation, peer: SocketAddr, transaction: Octets12): seq<Field> {
    match operation
    case Allocate =>
      [Field(ATTR_REQUESTED_TRANSPORT, [17, 0, 0, 0]),
       Field(ATTR_REQUESTED_ADDRESS_FAMILY, [if peer.ip.V4? then 1 else 2, 0, 0, 0]),
       Field(ATTR_LIFETIME, Be32(REQUESTED_LIFETIME_SECS))]
    case Refresh => [Field(ATTR_LIFETIME, Be32(REQUESTED_LIFETIME_SECS))]
    case Deallocate => [Field(ATTR_LIFETIME, Be32(0))]
    case Permission => [Field(ATTR_XOR_PEER_ADDRESS, EncodeXorAddress(peer, transaction))]
    case Channel =>
      [Field(ATTR_CHANNEL_NUMBER, [0x40, 0, 0, 0]),
       Field(ATTR_XOR_PEER_ADDRESS, EncodeXorAddress(peer, transaction))]
  }

  function RequestFields(operation: Operation, peer: SocketAddr, transaction: Octets12,
                         auth: Option<Auth>): seq<Field>
  {
    match auth
    case None => OperationFields(operation, peer, transaction)
    case Some(a) =>
      OperationFields(operation, peer, transaction)
      + [Field(ATTR_USERNAME, a.username), Field(ATTR_REALM, a.realm), Field(ATTR_NONCE, a.nonce)]
  }

  function KeyOf(auth: Option<Auth>): Option<Octets16> {
    match auth
    case None => None
    case Some(a) => Some(a.key)
  }

  function BuildRequest(crypto: StunCrypto, operation: Operation, peer: SocketAddr,
                        transaction: Octets12, auth: Option<Auth>): Result<bytes>
  {
    Build(crypto, MethodFor(operation), transaction,
          RequestFields(operation, peer, transaction, auth), KeyOf(auth))
  }

  method BuildRequestBytes(crypto: StunCrypto, operation: Operation, peer: SocketAddr,
                           transaction: Octets12, auth: Option<Auth>)
      returns (r: Result<bytes>)
    ensures r == BuildRequest(crypto, operation, peer, transaction, auth)
  {
    hide EncodeFields;
    hide EncodeXorAddress;
    hide Header;
    hide Finish;
    hide FinishAuthenticated;
    hide OperationFields;
    var builder := new MessageBuilder(crypto, MethodFor(operation), transaction);
    AddOperationFields(builder, operation, peer);
    assert builder.fields == OperationFields(operation, peer, transaction);
    match auth {
      case None =>
        r := builder.FinishPlain();
      case Some(a) =>
        builder.AddAttribute(ATTR_USERNAME, a.username);
        builder.AddAttribute(ATTR_REALM, a.realm);
        builder.AddAttribute(ATTR_NONCE, a.nonce);
        assert builder.fields == RequestFields(operation, peer, transaction, auth);
        r := builder.FinishSigned(a.key);
    }
  }

  method AddOperationFields(builder: MessageBuilder, operation: Operation, peer: SocketAddr)
    requires builder.Valid()
    modifies builder`buffer, builder`fields
    ensures builder.Valid()
    ensures builder.fields
            == old(builder.fields) + OperationFields(operation, peer, builder.transaction)
  {
    hide EncodeFields;
    hide EncodeXorAddress;
    hide Header;
    match operation {
      case Allocate =>
        builder.AddAttribute(ATTR_REQUESTED_TRANSPORT, [17, 0, 0, 0]);
        builder.AddAttribute(ATTR_REQUESTED_ADDRESS_FAMILY, [if peer.ip.V4? then 1 else 2, 0, 0, 0]);
        builder.AddAttribute(ATTR_LIFETIME, Be32(REQUESTED_LIFETIME_SECS));
      case Refresh =>
        builder.AddAttribute(ATTR_LIFETIME, Be32(REQUESTED_LIFETIME_SECS));
      case Deallocate =>
        builder.AddAttribute(ATTR_LIFETIME, Be32(0));
      case Permission =>
        builder.AddXorAddress(ATTR_XOR_PEER_ADDRESS, peer);
      case Channel =>
        builder.AddAttribute(ATTR_CHANNEL_NUMBER, [0x40, 0, 0, 0]);
        builder.AddXorAddress(ATTR_XOR_PEER_ADDRESS, peer);
    }
  }

  ghost predicate AuthBounded(auth: Option<Auth>) {
    auth.Some? ==> |auth.value.username| <= MAX_STUN_INPUT
                   && |auth.value.realm| <= MAX_STUN_INPUT && |auth.value.nonce| <= MAX_STUN_INPUT
  }

  lemma {:induction false} EncodedBound(fields: seq<Field>)
    requires forall f :: f in fields ==> |f.value| <= MAX_STUN_INPUT
    ensures |EncodeFields(fields)| <= |fields| * (MAX_STUN_INPUT + 7)
  {
    hide EncodeField;
    if fields != [] {
      EncodedBound(fields[1..]);
      assert |EncodeField(fields[0])| <= MAX_STUN_INPUT + 7;
    }
  }

  /** With credentials no longer than a control frame every request fits its length field, and it
      carries its transaction where a response and the send queue look for it. */
  lemma RequestBuilds(crypto: StunCrypto, operation: Operation, peer: SocketAddr,
                      transaction: Octets12, auth: Option<Auth>)
    requires AuthBounded(auth)
    ensures var r := BuildRequest(crypto, operation, peer, transaction, auth);
            && r.Ok?
            && HEADER_SIZE <= |r.value|
            && r.value[8..20] == transaction
  {
    RequestFieldSizes(operation, peer, transaction, auth);
    hide EncodeFields;
    hide RequestFields;
    var fields := RequestFields(operation, peer, transaction, auth);
    EncodedBound(fields);
    BuildBytes(crypto, MethodFor(operation), transaction, fields, KeyOf(auth));
    RequestTransaction(crypto, operation, peer, transaction, auth);
  }

  lemma RequestFieldSizes(operation: Operation, peer: SocketAddr, transaction: Octets12,
                          auth: Option<Auth>)
    requires AuthBounded(auth)
    ensures var fields := RequestFields(operation, peer, transaction, auth);
            |fields| <= 6 && forall f :: f in fields ==> |f.value| <= MAX_STUN_INPUT
  {
    PeerValueSize(peer, transaction);
    hide EncodeXorAddress;
  }

  lemma PeerValueSize(peer: SocketAddr, transaction: Octets12)
    ensures |EncodeXorAddress(peer, transaction)| <= 20
  {
  }

  lemma RequestTransaction(crypto: StunCrypto, operation: Operation, peer: SocketAddr,
                           transaction: Octets12, auth: Option<Auth>)
    ensures var r := BuildRequest(crypto, operation, peer, transaction, auth);
            r.Ok? ==> HEADER_SIZE <= |r.value| && r.value[8..20] == transaction
  {
    hide RequestFields;
    hide EncodeFields;
    hide Build;
    var fields := RequestFields(operation, peer, transaction, auth);
    BuildBytes(crypto, MethodFor(operation), transaction, fields, KeyOf(auth));
    var r := BuildRequest(crypto, operation, peer, transaction, auth);
    if r.Ok? {
      var all := AllFields(crypto, MethodFor(operation), transaction, fields, KeyOf(auth));
      var header := Header(MethodFor(operation), |EncodeFields(all)|, transaction);
      assert r.value[8..20] == header[8..20] == transaction;
    }
  }

  lemma RequestKind(operation: Operation)
    ensures var kind := MethodFor(operation);
            0 < kind < 0x4000 && ClassOf(kind) == Request && MethodOf(kind) == kind
  {
  }

  lemma RequestFieldKinds(operation: Operation, peer: SocketAddr, transaction: Octets12,
                          auth: Option<Auth>)
    ensures forall f :: f in RequestFields(operation, peer, transaction, auth) ==>
              f.kind != ATTR_FINGERPRINT && f.kind != ATTR_MESSAGE_INTEGRITY
  {
    hide EncodeXorAddress;
    hide Be32;
  }

  /** What the peer of the exchange reads in a request: the method, the transaction, a valid
      fingerprint, and a signature that verifies under the shared key. */
  lemma RequestReadBack(crypto: StunCrypto, operation: Operation, peer: SocketAddr,
                        transaction: Octets12, auth: Option<Auth>)
    requires AuthBounded(auth)
    ensures BuildRequest(crypto, operation, peer, transaction, auth).Ok?
    ensures var request := Decode(BuildRequest(crypto, operation, peer, transaction, auth).value);
            && request.Ok?
            && request.value.Class() == Request
            && request.value.Method() == MethodFor(operation)
            && request.value.transaction == transaction
            && request.value.FingerprintValid(crypto) == Some(true)
            && (auth.Some? ==> VerifyIntegrity(crypto, request.value, KeyOf(auth)))
  {
    RequestBuilds(crypto, operation, peer, transaction, auth);
    RequestFieldKinds(operation, peer, transaction, auth);
    RequestKind(operation);
    BuildIs(crypto, operation, peer, transaction, auth);
    assert auth.Some? ==> KeyOf(auth).Some?;
    var fields := RequestFields(operation, peer, transaction, auth);
    hide *;
    ReadBack(crypto, MethodFor(operation), transaction, fields, KeyOf(auth));
  }

  /** Any message whose fields hold neither signature nor fingerprint reads back well. */
  lemma ReadBack(crypto: StunCrypto, kind: u16, transaction: Octets12, fields: seq<Field>,
                 key: Option<Octets16>)
    requires 0 < kind < 0x4000 && Build(crypto, kind, transaction, fields, key).Ok?
    requires forall f :: f in fields ==> f.kind != ATTR_FINGERPRINT && f.kind != ATTR_MESSAGE_INTEGRITY
    ensures var request := Decode(Build(crypto, kind, transaction, fields, key).value);
            && request.Ok?
            && request.value.Class() == ClassOf(kind)
            && request.value.Method() == MethodOf(kind)
            && request.value.transaction == transaction
            && request.value.FingerprintValid(crypto) == Some(true)
            && (key.Some? ==> VerifyIntegrity(crypto, request.value, key))
  {
    hide *;
    DecodeBuild(crypto, kind, transaction, fields, key);
    ReadsKind(Message(Build(crypto, kind, transaction, fields, key).value, kind, transaction));
    FingerprintOfBuild(crypto, kind, transaction, fields, key);
    if key.Some? {
      assert Unsigned(fields) == |fields|;
      IntegrityOfBuild(crypto, kind, transaction, fields, key.value);
    }
  }

  lemma ReadsKind(message: Message)
    ensures message.Class() == ClassOf(message.kind) && message.Method() == MethodOf(message.kind)
  {
  }

  /** The method numbers of RFC 8656, section 17; a Deallocate is a Refresh. */
  function MethodNumber(operation: Operation): nat {
    match operation
    case Allocate => 3
    case Refresh => 4
    case Deallocate => 4
    case Permission => 8
    case Channel => 9
  }

  ghost predicate NamesPeer(message: Message, peer: SocketAddr) {
    && message.Valid()
    && var found := message.Attribute(0x0012);
       found.Some? && DecodeXorAddress(found.value.value, message.transaction) == Ok(peer)
  }

  /** What a request asks for, attribute by attribute: UDP transport, family and ten minutes; ten minutes
      more or none; the peer; the channel and the peer. */
  ghost predicate Asks(message: Message, operation: Operation, peer: SocketAddr) {
    match operation
    case Allocate =>
      && Holds(message, 0x0019, [17, 0, 0, 0])
      && Holds(message, 0x0017, [if peer.ip.V4? then 1 else 2, 0, 0, 0])
      && Holds(message, 0x000d, [0, 0, 2, 88])
    case Refresh => Holds(message, 0x000d, [0, 0, 2, 88])
    case Deallocate => Holds(message, 0x000d, [0, 0, 0, 0])
    case Permission => NamesPeer(message, peer)
    case Channel => Holds(message, 0x000c, Be16(CHANNEL_NUMBER) + [0, 0]) && NamesPeer(message, peer)
  }

  /** Whom a request names: user, realm and nonce, or nobody. */
  ghost predicate Names(message: Message, auth: Option<Auth>) {
    match auth
    case Some(a) =>
      Holds(message, 0x0006, a.username) && Holds(message, 0x0014, a.realm) && Holds(message, 0x0015, a.nonce)
    case None => Lacks(message, 0x0006) && Lacks(message, 0x0014) && Lacks(message, 0x0015)
  }

  lemma BuildIs(crypto: StunCrypto, operation: Operation, peer: SocketAddr, transaction: Octets12,
                auth: Option<Auth>)
    ensures BuildRequest(crypto, operation, peer, transaction, auth)
            == Build(crypto, MethodFor(operation), transaction,
                     RequestFields(operation, peer, transaction, auth), KeyOf(auth))
  {
  }

  lemma RequestCarries(crypto: StunCrypto, operation: Operation, peer: SocketAddr, transaction: Octets12,
                       auth: Option<Auth>)
    requires AuthBounded(auth)
    ensures BuildRequest(crypto, operation, peer, transaction, auth).Ok?
    ensures var packet := BuildRequest(crypto, operation, peer, transaction, auth).value;
            var message := Message(packet, MethodFor(operation), transaction);
            && Decode(packet) == Ok(message) && message.Valid()
            && Carries(message, RequestFields(operation, peer, transaction, auth))
  {
    RequestBuilds(crypto, operation, peer, transaction, auth);
    RequestKind(operation);
    var kind, key := MethodFor(operation), KeyOf(auth);
    var fields := RequestFields(operation, peer, transaction, auth);
    BuildIs(crypto, operation, peer, transaction, auth);
    hide *;
    BuiltCarries(crypto, kind, transaction, fields, key);
    CarriesIsValid(Message(BuildRequest(crypto, operation, peer, transaction, auth).value, kind, transaction),
                   fields);
  }

  lemma CarriesIsValid(message: Message, fields: seq<Field>)
    requires Carries(message, fields)
    ensures message.Valid()
  {
  }

  lemma FixedValues()
    ensures Be32(REQUESTED_LIFETIME_SECS) == [0, 0, 2, 88] && Be32(0) == [0, 0, 0, 0]
    ensures Be16(CHANNEL_NUMBER) + [0, 0] == [0x40, 0, 0, 0]
    ensures FromBe32([0, 0, 2, 88]) == 600 && FromBe32([0, 0, 0, 0]) == 0
  {
    assert Be32(600)[..2] == [0, 0] && Be32(600)[2..] == [2, 88];
  }

  lemma OperationAsks(message: Message, operation: Operation, peer: SocketAddr, more: seq<Field>)
    requires Carries(message, OperationFields(operation, peer, message.transaction) + more)
    ensures Asks(message, operation, peer)
  {
    FixedValues();
    hide Carries;
    hide Holds;
    hide Be32;
    hide Be16;
    hide FromBe32;
    hide EncodeXorAddress;
    hide NamesPeer;
    PeerNamed(message, peer);
    var own := OperationFields(operation, peer, message.transaction);
    var fields := own + more;
    Carried(message, fields, 0);
    if |own| > 1 {
      Carried(message, fields, 1);
    }
    if |own| > 2 {
      Carried(message, fields, 2);
    }
  }

  lemma PeerNamed(message: Message, peer: SocketAddr)
    ensures Holds(message, 0x0012, EncodeXorAddress(peer, message.transaction)) ==> NamesPeer(message, peer)
  {
    XorAddressRoundTrip(peer, message.transaction);
    hide EncodeXorAddress;
    hide DecodeXorAddress;
    hide Find;
    hide AttributesAt;
  }

  lemma AuthNames(message: Message, operation: Operation, peer: SocketAddr, a: Auth)
    requires Carries(message, RequestFields(operation, peer, message.transaction, Some(a)))
    ensures Names(message, Some(a))
  {
    hide Carries;
    hide Holds;
    hide Be32;
    hide EncodeXorAddress;
    var fields := RequestFields(operation, peer, message.transaction, Some(a));
    var n := |OperationFields(operation, peer, message.transaction)|;
    assert fields[n] == Field(ATTR_USERNAME, a.username) && fields[n + 1] == Field(ATTR_REALM, a.realm)
           && fields[n + 2] == Field(ATTR_NONCE, a.nonce);
    Carried(message, fields, n);
    Carried(message, fields, n + 1);
    Carried(message, fields, n + 2);
  }

  lemma NobodyNamed(crypto: StunCrypto, operation: Operation, peer: SocketAddr, transaction: Octets12)
    requires BuildRequest(crypto, operation, peer, transaction, None).Ok?
    ensures Names(Message(BuildRequest(crypto, operation, peer, transaction, None).value, MethodFor(operation),
                          transaction), None)
  {
    var fields := RequestFields(operation, peer, transaction, None);
    assert forall f :: f in fields ==> Alias(f.kind) !in {0x0006, 0x0014, 0x0015} by {
      hide EncodeXorAddress;
      hide Be32;
    }
    RequestKind(operation);
    BuildIs(crypto, operation, peer, transaction, None);
    var kind := MethodFor(operation);
    hide RequestFields;
    hide OperationFields;
    hide BuildRequest;
    hide Build;
    hide Lacks;
    hide MethodFor;
    hide Alias;
    BuiltLacks(crypto, kind, transaction, fields, None, 0x0006);
    BuiltLacks(crypto, kind, transaction, fields, None, 0x0014);
    BuiltLacks(crypto, kind, transaction, fields, None, 0x0015);
  }

  /** What the other side finds in a request: method, credentials and everything it asks for, each where
      the standard puts it. */
  lemma RequestSays(crypto: StunCrypto, operation: Operation, peer: SocketAddr, transaction: Octets12,
                    auth: Option<Auth>)
    requires AuthBounded(auth)
    ensures BuildRequest(crypto, operation, peer, transaction, auth).Ok?
    ensures var request := Decode(BuildRequest(crypto, operation, peer, transaction, auth).value);
            && request.Ok?
            && request.value.Class() == Request && request.value.Method() == MethodNumber(operation)
            && Asks(request.value, operation, peer) && Names(request.value, auth)
  {
    RequestCarries(crypto, operation, peer, transaction, auth);
    RequestReadBack(crypto, operation, peer, transaction, auth);
    assert MethodNumber(operation) == MethodFor(operation);
    var more := match auth
                case None => []
                case Some(a) => [Field(ATTR_USERNAME, a.username), Field(ATTR_REALM, a.realm),
                                 Field(ATTR_NONCE, a.nonce)];
    assert RequestFields(operation, peer, transaction, auth)
           == OperationFields(operation, peer, transaction) + more;
    hide *;
    var message := Message(BuildRequest(crypto, operation, peer, transaction, auth).value, MethodFor(operation),
                           transaction);
    OperationAsks(message, operation, peer, more);
    match auth
    case None => NobodyNamed(crypto, operation, peer, transaction);
    case Some(a) => AuthNames(message, operation, peer, a);
  }

  /** A Deallocate is a Refresh that asks for lifetime zero; every other LIFETIME asks for ten
      minutes. */
  lemma RequestLifetime(crypto: StunCrypto, operation: Operation, peer: SocketAddr,
                        transaction: Octets12, auth: Option<Auth>)
    requires AuthBounded(auth)
    requires operation == Refresh || operation == Deallocate
    ensures BuildRequest(crypto, operation, peer, transaction, auth).Ok?
    ensures var request := Decode(BuildRequest(crypto, operation, peer, transaction, auth).value);
            && request.Ok?
            && AttributeU32(request.value, ATTR_LIFETIME)
               == Some(if operation == Deallocate then 0 else REQUESTED_LIFETIME_SECS)
  {
    RequestSays(crypto, operation, peer, transaction, auth);
    FixedValues();
    hide *;
    LifetimeHeld(Decode(BuildRequest(crypto, operation, peer, transaction, auth).value).value, operation, peer);
  }

  lemma LifetimeHeld(message: Message, operation: Operation, peer: SocketAddr)
    requires Asks(message, operation, peer) && (operation == Refresh || operation == Deallocate)
    ensures message.Valid()
            && AttributeU32(message, ATTR_LIFETIME)
               == Some(FromBe32(if operation == Deallocate then [0, 0, 0, 0] else [0, 0, 2, 88]))
  {
    hide Find;
    hide AttributesAt;
    hide FromBe32;
  }

  // ---------------------------------------------------------------- how long a request is

  /** The length of the operation's own attributes. */
  function OperationLength(operation: Operation, peer: SocketAddr): nat {
    match operation
    case Allocate => 24
    case Refresh => 8
    case Deallocate => 8
    case Permission => if peer.ip.V4? then 12 else 24
    case Channel => if peer.ip.V4? then 20 else 32
  }

  /** What the credentials add: three padded attributes and the signature. */
  function AuthLength(auth: Option<Auth>): nat {
    match auth
    case None => 0
    case Some(a) => 36 + Padded(|a.username|) + Padded(|a.realm|) + Padded(|a.nonce|)
  }

  lemma FieldLength(field: Field)
    ensures |EncodeField(field)| == 4 + Padded(|field.value|)
  {
    AlignmentIsPadding(|field.value|);
    hide Alignment;
    hide Padded;
  }

  lemma AddressLength(peer: SocketAddr, transaction: Octets12)
    ensures Padded(|EncodeXorAddress(peer, transaction)|) == if peer.ip.V4? then 8 else 20
  {
    hide Xor16;
    hide Xor32;
  }

  lemma OperationFieldsLength(operation: Operation, peer: SocketAddr, transaction: Octets12)
    ensures |EncodeFields(OperationFields(operation, peer, transaction))| == OperationLength(operation, peer)
  {
    hide EncodeXorAddress;
    hide Be32;
    var fields := OperationFields(operation, peer, transaction);
    AddressLength(peer, transaction);
    assert Padded(4) == 4;
    FieldLength(fields[0]);
    FieldsLength(fields);
    if |fields| > 1 {
      FieldLength(fields[1]);
    }
    if |fields| > 2 {
      FieldLength(fields[2]);
    }
    hide EncodeField;
    hide EncodeFields;
    hide Padded;
  }

  lemma {:induction false} FieldsLength(fields: seq<Field>)
    requires 1 <= |fields| <= 3
    ensures |EncodeFields(fields)|
            == |EncodeField(fields[0])| + (if |fields| > 1 then |EncodeField(fields[1])| else 0)
               + (if |fields| > 2 then |EncodeField(fields[2])| else 0)
  {
    hide EncodeField;
    var rest := fields[1..];
    assert EncodeFields(fields) == EncodeField(fields[0]) + EncodeFields(rest);
    if |fields| > 1 {
      assert EncodeFields(rest) == EncodeField(fields[1]) + EncodeFields(rest[1..]);
      if |fields| > 2 {
        assert EncodeFields(rest[1..]) == EncodeField(fields[2]) + EncodeFields(rest[1..][1..]);
      }
    }
  }

  /** A request is exactly as long as header, operation, credentials and fingerprint make it. */
  lemma RequestLength(crypto: StunCrypto, operation: Operation, peer: SocketAddr, transaction: Octets12,
                      auth: Option<Auth>)
    requires AuthBounded(auth)
    ensures var r := BuildRequest(crypto, operation, peer, transaction, auth);
            r.Ok? && |r.value| == HEADER_SIZE + OperationLength(operation, peer) + AuthLength(auth) + 8
  {
    hide EncodeFields;
    hide EncodeField;
    hide OperationFields;
    hide OperationLength;
    hide Build;
    hide AllFields;
    hide Header;
    RequestBuilds(crypto, operation, peer, transaction, auth);
    OperationFieldsLength(operation, peer, transaction);
    BuildBytes(crypto, MethodFor(operation), transaction, RequestFields(operation, peer, transaction, auth),
               KeyOf(auth));
    if auth.Some? {
      var a := auth.value;
      var own := OperationFields(operation, peer, transaction);
      var more := [Field(ATTR_USERNAME, a.username), Field(ATTR_REALM, a.realm), Field(ATTR_NONCE, a.nonce)];
      EncodedJoined(own, more);
      FieldsLength(more);
      FieldLength(more[0]);
      FieldLength(more[1]);
      FieldLength(more[2]);
    }
    hide Padded;
  }

  lemma {:induction false} EncodedJoined(a: seq<Field>, b: seq<Field>)
    ensures |EncodeFields(a + b)| == |EncodeFields(a)| + |EncodeFields(b)|
    decreases |a|
  {
    hide EncodeField;
    if a == [] {
      assert a + b == b;
    } else {
      assert (a + b)[1..] == a[1..] + b && (a + b)[0] == a[0];
      EncodedJoined(a[1..], b);
    }
  }

  // ---------------------------------------------------------------- responses

  /** What the client reads out of a decoded success or error response. */
  datatype Response = Response(
    success: bool,
    method_: u16,
    transaction: Octets12,
    code: Option<nat>,
    fingerprinted: bool,
    realm: Option<bytes>,
    nonce: Option<bytes>,
    relay: Result<SocketAddr>,
    lifetime: Option<u32>)

  function ErrorCode(message: Message): (code: Option<nat>)
    requires message.Valid()
    ensures code.Some? ==> code.value < 700
  {
    match message.Attribute(ATTR_ERROR_CODE)
    case None => None
    case Some(a) =>
      if |a.value| < 4 || a.value[2] > 6 || a.value[3] > 99 then None
      else
        var hundreds: nat, rest: nat := a.value[2], a.value[3];
        Some(hundreds * 100 + rest)
  }

  function AttributeU32(message: Message, kind: u16): Option<u32>
    requires message.Valid()
  {
    match message.Attribute(kind)
    case None => None
    case Some(a) => if |a.value| == 4 then Some(FromBe32(a.value)) else None
  }

  function AttributeValue(message: Message, kind: u16): (value: Option<bytes>)
    requires message.Valid()
    ensures value.Some? ==> |value.value| <= |message.raw|
  {
    match message.Attribute(kind)
    case None => None
    case Some(a) =>
      AttributesWithin(message.raw, HEADER_SIZE);
      Some(a.value)
  }

  function ReadResponse(crypto: StunCrypto, message: Message): (r: Response)
    requires message.Valid()
    ensures r.realm.Some? ==> |r.realm.value| <= |message.raw|
    ensures r.nonce.Some? ==> |r.nonce.value| <= |message.raw|
  {
    Response(
      message.Class() == Success,
      message.Method(),
      message.transaction,
      ErrorCode(message),
      message.FingerprintValid(crypto) == Some(true),
      AttributeValue(message, ATTR_REALM),
      AttributeValue(message, ATTR_NONCE),
      match message.Attribute(ATTR_XOR_RELAYED_ADDRESS)
      case None => Err
      case Some(a) => DecodeXorAddress(a.value, message.transaction),
      AttributeU32(message, ATTR_LIFETIME))
  }

  /** The error code of a value: class and number in its third and fourth octet (RFC 8489, section 14.8). */
  ghost predicate Says(value: bytes, code: nat) {
    |value| >= 4 && value[2] <= 6 && value[3] <= 99 && code == Hundreds(value[2]) + value[3]
  }

  function Hundreds(n: byte): nat {
    var class_: nat := n;
    100 * class_
  }

  lemma ReadsHeld(message: Message, kind: u16, value: bytes)
    requires Holds(message, kind, value)
    ensures AttributeValue(message, kind) == Some(value)
    ensures |value| == 4 ==> AttributeU32(message, kind) == Some(FromBe32(value))
  {
    hide Find;
    hide AttributesAt;
    hide FromBe32;
  }

  lemma ReadsCode(message: Message, value: bytes, code: nat)
    requires Holds(message, ATTR_ERROR_CODE, value) && Says(value, code)
    ensures message.Valid() && ErrorCode(message) == Some(code)
  {
    hide Find;
    hide AttributesAt;
  }

  lemma CodeIsSaid(message: Message)
    requires message.Valid() && ErrorCode(message).Some?
    ensures exists value :: Holds(message, ATTR_ERROR_CODE, value) && Says(value, ErrorCode(message).value)
  {
    hide Find;
    hide AttributesAt;
    var value := message.Attribute(ATTR_ERROR_CODE).value.value;
    assert Holds(message, ATTR_ERROR_CODE, value);
    assert Says(value, ErrorCode(message).value);
  }

  lemma HeldIsValid(message: Message, kind: u16, value: bytes)
    requires Holds(message, kind, value)
    ensures message.Valid()
  {
  }

  lemma ReadsEach(crypto: StunCrypto, message: Message)
    requires message.Valid()
    ensures var r := ReadResponse(crypto, message);
            && r.success == (message.Class() == Class.Success)
            && r.method_ == message.Method() && r.transaction == message.transaction
            && r.code == ErrorCode(message)
            && r.realm == AttributeValue(message, ATTR_REALM) && r.nonce == AttributeValue(message, ATTR_NONCE)
            && r.lifetime == AttributeU32(message, ATTR_LIFETIME)
  {
    hide ErrorCode;
    hide AttributeValue;
    hide AttributeU32;
    hide ClassOf;
    hide MethodOf;
    hide Find;
    hide AttributesAt;
    hide Walks;
    hide DecodeXorAddress;
  }

  lemma ReadsRelay(crypto: StunCrypto, message: Message, value: bytes)
    requires Holds(message, ATTR_XOR_RELAYED_ADDRESS, value)
    ensures message.Valid() && ReadResponse(crypto, message).relay == DecodeXorAddress(value, message.transaction)
  {
    hide ErrorCode;
    hide AttributeValue;
    hide AttributeU32;
    hide ClassOf;
    hide MethodOf;
    hide Find;
    hide AttributesAt;
    hide Walks;
    hide DecodeXorAddress;
  }
}
