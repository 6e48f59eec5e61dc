/** What a receiver finds in a message that was built from given fields. */
module StunReading {
  import opened Bytes
  import opened Addresses
  import opened StunMessages
  import opened StunBuilder

  /** A message that decodes to the given fields, followed by more. */
  ghost predicate Carries(message: Message, fields: seq<Field>) {
    message.Valid() && exists all :: fields <= all && message.Attributes() == Placed(HEADER_SIZE, all)
  }

  /** The first attribute of the kind has this value. */
  ghost predicate Holds(message: Message, kind: u16, value: bytes) {
    && message.Valid()
    && var found := message.Attribute(kind);
       found.Some? && found.value.value == value
  }

  /** No attribute has the kind. */
  ghost predicate Lacks(message: Message, kind: u16) {
    message.Valid() && message.Attribute(kind).None?
  }

  lemma {:induction false} FirstOfKind(position: nat, fields: seq<Field>, i: nat)
    requires i < |fields| && forall j :: 0 <= j < i ==> Alias(fields[j].kind) != Alias(fields[i].kind)
    ensures var found := Find(Placed(position, fields), Alias(fields[i].kind));
            found.Some? && found.value.value == fields[i].value
    decreases i
  {
    hide EncodeField;
    hide Alias;
    if i > 0 {
      assert fields[1..][i - 1] == fields[i];
      assert forall j :: 0 <= j < i - 1 ==> fields[1..][j] == fields[j + 1];
      FirstOfKind(position + |EncodeField(fields[0])|, fields[1..], i - 1);
    }
  }

  lemma Carried(message: Message, fields: seq<Field>, i: nat)
    requires Carries(message, fields) && i < |fields|
    requires forall j :: 0 <= j < i ==> Alias(fields[j].kind) != Alias(fields[i].kind)
    ensures Holds(message, Alias(fields[i].kind), fields[i].value)
  {
    hide Alias;
    hide Placed;
    hide Find;
    hide AttributesAt;
    var all :| fields <= all && message.Attributes() == Placed(HEADER_SIZE, all);
    assert forall j :: 0 <= j <= i ==> all[j] == fields[j];
    FirstOfKind(HEADER_SIZE, all, i);
  }

  lemma BuiltCarries(crypto: StunCrypto, kind: u16, transaction: Octets12, fields: seq<Field>,
                     key: Option<Octets16>)
    requires 0 < kind < 0x4000 && Build(crypto, kind, transaction, fields, key).Ok?
    ensures var packet := Build(crypto, kind, transaction, fields, key).value;
            && Decode(packet) == Ok(Message(packet, kind, transaction))
            && Carries(Message(packet, kind, transaction), fields)
  {
    hide Build;
    hide Decode;
    hide Placed;
    hide EncodeFields;
    hide AttributesAt;
    DecodeBuild(crypto, kind, transaction, fields, key);
    BuildBytes(crypto, kind, transaction, fields, key);
    var all := AllFields(crypto, kind, transaction, fields, key);
    assert fields <= all;
  }

  /** What no field claims to be is not found, fingerprint and, when there is a key, signature aside. */
  lemma BuiltLacks(crypto: StunCrypto, kind: u16, transaction: Octets12, fields: seq<Field>,
                   key: Option<Octets16>, target: u16)
    requires 0 < kind < 0x4000 && Build(crypto, kind, transaction, fields, key).Ok?
    requires target != ATTR_FINGERPRINT && (target == ATTR_MESSAGE_INTEGRITY ==> key.None?)
    requires forall f :: f in fields ==> Alias(f.kind) != target
    ensures Lacks(Message(Build(crypto, kind, transaction, fields, key).value, kind, transaction), target)
  {
    hide Build;
    hide Decode;
    hide Placed;
    hide EncodeFields;
    hide AttributesAt;
    hide Find;
    DecodeBuild(crypto, kind, transaction, fields, key);
    BuildBytes(crypto, kind, transaction, fields, key);
    var all := AllFields(crypto, kind, transaction, fields, key);
    AddedKinds(crypto, kind, transaction, fields, key);
    PlacedKinds(HEADER_SIZE, all, target);
  }

  lemma AddedKinds(crypto: StunCrypto, kind: u16, transaction: Octets12, fields: seq<Field>,
                   key: Option<Octets16>)
    ensures forall f :: f in AllFields(crypto, kind, transaction, fields, key) ==>
              f in fields || Alias(f.kind) == ATTR_FINGERPRINT
              || (key.Some? && Alias(f.kind) == ATTR_MESSAGE_INTEGRITY)
  {
    hide EncodeFields;
    hide Header;
  }
}
