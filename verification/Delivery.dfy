/** Packets of one sender at the receiver, byte by byte: wrapped, delivered out of order, lost, repeated
    and mixed with foreign ones, and what is let through. */
module Delivery {
  import opened Bytes
  import opened RtpIndex
  import opened ReplayWindow
  import opened Obfuscation
  import opened PacketPath

  /** A payload that is wrapped, and what is drawn for it. */
  datatype Outgoing = Outgoing(payload: bytes, draws: Draws)

  /** A sender: the first numbers of its counters, and its packets in the order of wrapping. */
  datatype Sender = Sender(config: ObfsConfig, sequence: u16, transport: u16, packets: seq<Outgoing>) {
    ghost predicate Valid() {
      forall n :: 0 <= n < |packets| ==> packets[n].payload != [] && Drawable(config, packets[n].draws)
    }

    /** Packet n on the wire. */
    function Nth(cipher: Cipher, n: nat): bytes
      requires n < |packets| && Drawable(config, packets[n].draws)
    {
      Wire(cipher, config, packets[n].payload, packets[n].draws, Numbered(sequence, n), Numbered(transport, n))
    }
  }

  /** What arrives: a packet of the sender, or bytes whose header, padding and tag or seal do not fit. */
  datatype Arrival = Genuine(n: nat) | Foreign(wire: bytes)

  ghost predicate Arrives(cipher: Cipher, sender: Sender, a: Arrival) {
    match a
    case Genuine(n) => n < |sender.packets|
    case Foreign(wire) => forall o :: !Authentic(cipher, sender.config.mode, wire, o)
  }

  ghost predicate AllArrive(cipher: Cipher, sender: Sender, arrivals: seq<Arrival>) {
    sender.Valid() && forall k :: 0 <= k < |arrivals| ==> Arrives(cipher, sender, arrivals[k])
  }

  ghost function WireOf(cipher: Cipher, sender: Sender, a: Arrival): bytes
    requires sender.Valid() && Arrives(cipher, sender, a)
  {
    match a
    case Genuine(n) => sender.Nth(cipher, n)
    case Foreign(wire) => wire
  }

  /** The receiver over a run: its window, and for each arrival the payload if it is let through. */
  ghost function AuthenticateAll(cipher: Cipher, sender: Sender, arrivals: seq<Arrival>)
    : (Model, seq<Option<bytes>>)
    requires AllArrive(cipher, sender, arrivals)
  {
    if arrivals == [] then (EMPTY, [])
    else
      var (m, taken) := AuthenticateAll(cipher, sender, arrivals[..|arrivals| - 1]);
      var (m', payload) := Authenticate(cipher, sender.config.mode, m,
                                        WireOf(cipher, sender, arrivals[|arrivals| - 1]));
      (m', taken + [payload])
  }

  /** The numbers of the genuine packets. */
  function Genuines(arrivals: seq<Arrival>): seq<nat> {
    if arrivals == [] then []
    else
      var last := arrivals[|arrivals| - 1];
      Genuines(arrivals[..|arrivals| - 1]) + (if last.Genuine? then [last.n] else [])
  }

  /** Whether they were let through. */
  function Verdicts(arrivals: seq<Arrival>, taken: seq<Option<bytes>>): (v: seq<bool>)
    requires |arrivals| == |taken|
    ensures |v| == |Genuines(arrivals)|
  {
    if arrivals == [] then []
    else
      var n := |arrivals| - 1;
      Verdicts(arrivals[..n], taken[..n]) + (if arrivals[n].Genuine? then [taken[n].Some?] else [])
  }

  /** When an arrival has to be let through: it is genuine, no genuine packet more than the window ahead
      of it came before, and it was not let through before. */
  predicate Expected(arrivals: seq<Arrival>, taken: seq<Option<bytes>>, a: Arrival)
    requires |arrivals| == |taken|
  {
    && a.Genuine?
    && forall i :: 0 <= i < |arrivals| && arrivals[i].Genuine? ==>
         arrivals[i].n <= a.n + 16383 && (arrivals[i].n == a.n ==> taken[i].None?)
  }

  lemma {:induction false} ExpectedIsAcceptable(arrivals: seq<Arrival>, taken: seq<Option<bytes>>, n: nat)
    requires |arrivals| == |taken|
    ensures Expected(arrivals, taken, Genuine(n))
            <==> Acceptable(Genuines(arrivals), Verdicts(arrivals, taken), n)
    decreases |arrivals|
  {
    if arrivals != [] {
      var last := |arrivals| - 1;
      ExpectedIsAcceptable(arrivals[..last], taken[..last], n);
      ExpectedLast(arrivals[..last], taken[..last], arrivals[last], taken[last], n);
      assert arrivals[..last] + [arrivals[last]] == arrivals && taken[..last] + [taken[last]] == taken;
      hide Expected;
      if arrivals[last].Genuine? {
        AcceptableLast(Genuines(arrivals[..last]), Verdicts(arrivals[..last], taken[..last]),
                       arrivals[last].n, taken[last].Some?, n);
      } else {
        assert Genuines(arrivals) == Genuines(arrivals[..last]);
        assert Verdicts(arrivals, taken) == Verdicts(arrivals[..last], taken[..last]);
      }
    }
  }

  lemma ExpectedLast(arrivals: seq<Arrival>, taken: seq<Option<bytes>>, a: Arrival, t: Option<bytes>, n: nat)
    requires |arrivals| == |taken|
    ensures Expected(arrivals + [a], taken + [t], Genuine(n))
            <==> Expected(arrivals, taken, Genuine(n))
                 && (a.Genuine? ==> a.n <= n + 16383 && (a.n == n ==> t.None?))
  {
    var more, taken' := arrivals + [a], taken + [t];
    assert more[|arrivals|] == a && taken'[|arrivals|] == t;
    assert forall i :: 0 <= i < |arrivals| ==> more[i] == arrivals[i] && taken'[i] == taken[i];
  }

  lemma AcceptableLast(before: seq<nat>, verdicts: seq<bool>, last: nat, verdict: bool, n: nat)
    requires |before| == |verdicts|
    ensures Acceptable(before + [last], verdicts + [verdict], n)
            <==> Acceptable(before, verdicts, n) && last <= n + 16383 && (last == n ==> !verdict)
  {
    var more, verdicts' := before + [last], verdicts + [verdict];
    assert more[|before|] == last && verdicts'[|before|] == verdict;
    assert forall i :: 0 <= i < |before| ==> more[i] == before[i] && verdicts'[i] == verdicts[i];
  }

  /** The receiver of bytes and the receiver of sequence numbers do the same. */
  ghost predicate Matches(cipher: Cipher, sender: Sender, arrivals: seq<Arrival>)
    requires AllArrive(cipher, sender, arrivals)
  {
    var (m, taken) := AuthenticateAll(cipher, sender, arrivals);
    && |taken| == |arrivals|
    && JudgeRtpAll(EMPTY, Numbers(sender.sequence, Genuines(arrivals))) == (m, Verdicts(arrivals, taken))
    && forall k :: 0 <= k < |arrivals| ==>
         (taken[k].Some? ==> arrivals[k].Genuine? && taken[k].value == sender.packets[arrivals[k].n].payload)
  }

  lemma GenuineOpens(cipher: Cipher, sender: Sender, m: Model, n: nat)
    requires cipher.Lawful() && sender.Valid() && n < |sender.packets|
    ensures var v := JudgeRtp(m, Numbered(sender.sequence, n));
            Authenticate(cipher, sender.config.mode, m, sender.Nth(cipher, n))
            == (v.model, if v.accepted then Some(sender.packets[n].payload) else None)
  {
    var p := sender.packets[n];
    UnwrapWire(cipher, sender.config, p.payload, p.draws, Numbered(sender.sequence, n),
               Numbered(sender.transport, n));
    hide Unwrap;
    hide Wire;
    hide JudgeRtp;
    hide Numbered;
  }

  lemma ForeignIsRefused(cipher: Cipher, mode: Mode, m: Model, wire: bytes)
    requires cipher.Lawful() && forall o :: !Authentic(cipher, mode, wire, o)
    ensures Authenticate(cipher, mode, m, wire) == (m, None)
  {
    hide Unwrap;
    hide Authentic;
    hide JudgeRtp;
    if Unwrap(cipher, wire, mode).Ok? {
      UnwrapExactly(cipher, mode, wire, Unwrap(cipher, wire, mode).value);
    }
  }

  /** A video packet whose last ten bytes are not the tag of all before them is foreign: with any other
      tag it is refused and the window stays. */
  lemma ForgedVideo(cipher: Cipher, m: Model, wire: bytes)
    requires cipher.Lawful()
    requires |wire| < 10 || wire[|wire| - 10..] != cipher.mac(wire[..|wire| - 10])
    ensures Authenticate(cipher, Video, m, wire) == (m, None)
  {
    hide Unwrap;
    hide JudgeRtp;
    if Unwrap(cipher, wire, Video).Ok? {
      VideoTagHolds(cipher, wire);
    }
  }

  lemma NumbersLast(initial: u16, sent: seq<nat>, n: nat)
    ensures Numbers(initial, sent + [n]) == Numbers(initial, sent) + [Numbered(initial, n)]
  {
    hide Numbered;
  }

  lemma {:induction false} RunMatches(cipher: Cipher, sender: Sender, arrivals: seq<Arrival>)
    requires cipher.Lawful() && AllArrive(cipher, sender, arrivals)
    ensures Matches(cipher, sender, arrivals)
    decreases |arrivals|
  {
    hide Numbers;
    hide Wire;
    hide Unwrap;
    hide Authentic;
    hide Authenticate;
    hide Numbered;
    hide JudgeRtp;
    hide JudgeRtpAll;
    if arrivals == [] {
      NoNumbers(sender.sequence);
    } else {
      var last := |arrivals| - 1;
      var before, a := arrivals[..last], arrivals[last];
      RunMatches(cipher, sender, before);
      var (m, taken) := AuthenticateAll(cipher, sender, before);
      match a
      case Genuine(n) =>
        GenuineOpens(cipher, sender, m, n);
        NumbersLast(sender.sequence, Genuines(before), n);
        JudgeRtpAllLast(EMPTY, Numbers(sender.sequence, Genuines(before)), Numbered(sender.sequence, n));
      case Foreign(wire) =>
        assert Arrives(cipher, sender, a);
        ForeignIsRefused(cipher, sender.config.mode, m, wire);
        assert Genuines(arrivals) == Genuines(before);
        assert Verdicts(arrivals, taken + [None]) == Verdicts(before, taken) by {
          assert (taken + [None])[..last] == taken;
        }
    }
  }

  lemma NoNumbers(initial: u16)
    ensures JudgeRtpAll(EMPTY, Numbers(initial, [])) == (EMPTY, [])
  {
  }

  /** A run in which exactly what was expected was let through. */
  ghost predicate AsExpected(arrivals: seq<Arrival>, taken: seq<Option<bytes>>) {
    && |taken| == |arrivals|
    && forall k :: 0 <= k < |arrivals| ==>
         (taken[k].Some? <==> Expected(arrivals[..k], taken[..k], arrivals[k]))
  }

  lemma ExactlyLess(counters: seq<nat>, verdicts: seq<bool>, c: nat, verdict: bool)
    requires |counters| == |verdicts| && Exactly(counters + [c], verdicts + [verdict])
    ensures Exactly(counters, verdicts) && (verdict <==> Acceptable(counters, verdicts, c))
  {
    hide Acceptable;
    var more, verdicts' := counters + [c], verdicts + [verdict];
    assert more[..|counters|] == counters && verdicts'[..|counters|] == verdicts;
    assert more[|counters|] == c && verdicts'[|counters|] == verdict;
    forall j | 0 <= j < |counters|
      ensures verdicts[j] <==> Acceptable(counters[..j], verdicts[..j], counters[j])
    {
      assert more[..j] == counters[..j] && verdicts'[..j] == verdicts[..j];
      assert more[j] == counters[j] && verdicts'[j] == verdicts[j];
    }
  }

  lemma {:induction false} ExactlyAsExpected(arrivals: seq<Arrival>, taken: seq<Option<bytes>>)
    requires |taken| == |arrivals| && Exactly(Genuines(arrivals), Verdicts(arrivals, taken))
    requires forall k :: 0 <= k < |arrivals| && taken[k].Some? ==> arrivals[k].Genuine?
    ensures AsExpected(arrivals, taken)
    decreases |arrivals|
  {
    hide Exactly;
    hide Acceptable;
    if arrivals != [] {
      var last := |arrivals| - 1;
      var before, taken', a := arrivals[..last], taken[..last], arrivals[last];
      if a.Genuine? {
        ExactlyLess(Genuines(before), Verdicts(before, taken'), a.n, taken[last].Some?);
        ExpectedIsAcceptable(before, taken', a.n);
      } else {
        assert Genuines(arrivals) == Genuines(before);
        assert Verdicts(arrivals, taken) == Verdicts(before, taken');
      }
      ExactlyAsExpected(before, taken');
      assert taken[last].Some? <==> Expected(before, taken', a);
      hide Expected;
      forall k | 0 <= k < last
        ensures taken[k].Some? <==> Expected(arrivals[..k], taken[..k], arrivals[k])
      {
        assert arrivals[..k] == before[..k] && taken[..k] == taken'[..k];
        assert arrivals[k] == before[k] && taken[k] == taken'[k];
      }
    }
  }

  /** From the bytes of one sender to the payloads at the receiver: wrapped packets that arrive in any
      order, with losses, repeats and foreign packets among them, within reach of the index recovery. An
      arrival is let through exactly when it is genuine, was not let through before, and no genuine packet
      more than 16383 ahead of it came before; and it is let through with the payload that was wrapped. */
  lemma PayloadsArrive(cipher: Cipher, sender: Sender, arrivals: seq<Arrival>)
    requires cipher.Lawful() && AllArrive(cipher, sender, arrivals)
    requires Genuines(arrivals) == [] || InRange(Indices(sender.sequence, Genuines(arrivals)))
    ensures var taken := AuthenticateAll(cipher, sender, arrivals).1;
            && AsExpected(arrivals, taken)
            && forall k :: 0 <= k < |arrivals| && taken[k].Some? ==>
                 arrivals[k].Genuine? && taken[k].value == sender.packets[arrivals[k].n].payload
  {
    RunMatches(cipher, sender, arrivals);
    var taken := AuthenticateAll(cipher, sender, arrivals).1;
    hide AuthenticateAll;
    hide AllArrive;
    hide JudgeRtpAll;
    hide Numbers;
    hide InRange;
    if Genuines(arrivals) != [] {
      DeliveredExactly(sender.sequence, Genuines(arrivals));
    }
    ExactlyAsExpected(arrivals, taken);
    hide Exactly;
    hide AsExpected;
  }
}
