/** Recovery of 64-bit packet indices from 16-bit RTP sequence numbers (in the style of RFC 3711,
    section 3.3.1) in front of the replay window, and the sender's counters. */
module RtpIndex {
  import opened Bytes
  import opened ReplayWindow

  const BLOCK: nat := 0x1_0000
  const HALF: nat := 0x8000

  function SatAdd(a: u64, b: nat): u64 {
    if a + b > U64_MAX then U64_MAX else a + b
  }

  function BlockOf(index: u64): u64 {
    index / BLOCK * BLOCK
  }

  /** The extension the receiver computes from its highest index and a sequence number. */
  function Extend(highest: u64, sequence: u16): u64 {
    var extended := BlockOf(highest) + sequence;
    if SatAdd(extended, HALF) < highest then SatAdd(extended, BLOCK)
    else if extended > SatAdd(highest, HALF) && extended >= BLOCK then extended - BLOCK
    else extended
  }

  function Distance(a: nat, b: nat): nat {
    if a < b then b - a else a - b
  }

  /** Reference: the nearest of the candidates in the previous, current and next block, the current
      one winning ties. */
  function Nearest(highest: u64, sequence: u16): u64 {
    var current := BlockOf(highest) + sequence;
    var near := if current >= BLOCK && Distance(current - BLOCK, highest) < Distance(current, highest)
                then current - BLOCK else current;
    if Distance(SatAdd(current, BLOCK), highest) < Distance(near, highest) then SatAdd(current, BLOCK)
    else near
  }

  lemma BlockBounds(index: u64)
    ensures BlockOf(index) <= index < BlockOf(index) + BLOCK
    ensures BlockOf(index) + BLOCK - 1 <= U64_MAX
    ensures index % BLOCK == index - BlockOf(index)
  {
  }

  /** In the last block of 64-bit indices the next candidate saturates. It then wins when it is nearer
      than the current one, and the extension, which takes the current one, is not the nearest. */
  predicate SaturatedWins(highest: u64, sequence: u16) {
    var low := highest % BLOCK;
    && highest >= U64_MAX - (BLOCK - 1)
    && low - HALF <= sequence < low
    && BLOCK - 1 - low < low - sequence
  }

  /** The extension is the nearest candidate, except exactly where the saturated one wins. */
  lemma ExtendIsNearest(highest: u64, sequence: u16)
    ensures Extend(highest, sequence) == Nearest(highest, sequence) <==> !SaturatedWins(highest, sequence)
  {
    BlockBounds(highest);
    LastBlock(highest);
    hide BlockOf;
  }

  lemma LastBlock(index: u64)
    ensures BlockOf(index) + BLOCK > U64_MAX <==> index >= U64_MAX - (BLOCK - 1)
  {
    var blocks := index / BLOCK;
    assert BlockOf(index) == blocks * BLOCK;
  }

  /** So it is below the last block, whatever the sequence number. */
  lemma NearestBelowLastBlock(highest: u64, sequence: u16)
    requires highest < U64_MAX - (BLOCK - 1)
    ensures Extend(highest, sequence) == Nearest(highest, sequence)
  {
    ExtendIsNearest(highest, sequence);
  }

  /** In the last block it may not be: no packet has the index the reference would choose. */
  lemma LastBlockDiffers()
    ensures Extend(U64_MAX - 1, 0xfffa) != Nearest(U64_MAX - 1, 0xfffa) == U64_MAX
  {
    ExtendIsNearest(U64_MAX - 1, 0xfffa);
  }

  /** An index strictly within half a block of the highest is recovered exactly from its sequence
      number, across any number of wraps. */
  lemma ExtendRecovers(highest: u64, index: u64)
    requires Distance(index, highest) < HALF
    ensures Extend(highest, index % BLOCK) == index
  {
    BlockBounds(highest);
    BlockBounds(index);
    BlockNeighbours(highest, index);
    hide BlockOf;
  }

  lemma BlockNeighbours(a: u64, b: u64)
    requires Distance(a, b) < BLOCK
    ensures BlockOf(b) == BlockOf(a) || BlockOf(b) == BlockOf(a) + BLOCK || BlockOf(b) + BLOCK == BlockOf(a)
  {
    var p, q := a / BLOCK, b / BLOCK;
    assert p - 1 <= q <= p + 1;
  }

  // ---------------------------------------------------------------- the receiver

  /** What the receiver does with one sequence number, over the set model of the window. */
  function JudgeRtp(m: Model, sequence: u16): Verdict {
    match m.highest
    case None => Judge(m, sequence)
    case Some(highest) => Judge(m, Extend(highest, sequence))
  }

  class Receiver {
    const window: Window

    ghost predicate Valid()
      reads this, window, window.seen
    {
      window.Valid()
    }

    constructor ()
      ensures Valid() && fresh(window) && fresh(window.seen) && window.View() == EMPTY
    {
      window := new Window();
    }

    method AcceptRtp(sequence: u16) returns (ok: bool)
      requires Valid()
      modifies window, window.seen
      ensures Valid()
      ensures Verdict(window.View(), ok) == JudgeRtp(old(window.View()), sequence)
    {
      hide Window.Valid;
      hide Judge;
      if window.highest.None? {
        ok := window.Accept(sequence);
        return;
      }
      var highest := window.highest.value;
      var base := BlockOf(highest);
      BlockBounds(highest);
      var extended: u64 := base + sequence;
      if SatAdd(extended, HALF) < highest {
        extended := SatAdd(extended, BLOCK);
      } else if extended > SatAdd(highest, HALF) && extended >= BLOCK {
        extended := extended - BLOCK;
      }
      ok := window.Accept(extended);
    }
  }

  // ---------------------------------------------------------------- whole traces

  /** The first index of a block, and the sixteen bits a packet carries. */
  function Start(index: nat): nat {
    index / BLOCK * BLOCK
  }

  function Low(index: nat): u16 {
    index % BLOCK
  }

  /** The highest packet index among those that arrived. */
  function Highest(indices: seq<nat>): nat
    requires indices != []
  {
    if |indices| == 1 then indices[0]
    else
      var before := Highest(indices[..|indices| - 1]);
      if indices[|indices| - 1] > before then indices[|indices| - 1] else before
  }

  /** Every packet after the first lies at or above the block of the first and strictly within half
      a block of the highest that arrived before it. */
  ghost predicate Near(indices: seq<nat>) {
    forall k :: 0 < k < |indices| ==>
      Start(indices[0]) <= indices[k]
      && Distance(indices[k], Highest(indices[..k])) < HALF
  }

  /** What the receiver sees: the low sixteen bits. */
  function Sequences(indices: seq<nat>): seq<u16> {
    if indices == [] then []
    else Sequences(indices[..|indices| - 1]) + [Low(indices[|indices| - 1])]
  }

  /** Every index lies at or above `offset` and within 64 bits of it. */
  ghost predicate Above(indices: seq<nat>, offset: nat) {
    forall k :: 0 <= k < |indices| ==> offset <= indices[k] <= offset + U64_MAX
  }

  /** The indices counted from the block of the first packet. */
  ghost function Relative(indices: seq<nat>, offset: nat): seq<u64>
    requires Above(indices, offset)
  {
    if indices == [] then []
    else
      assert Above(indices[..|indices| - 1], offset);
      Relative(indices[..|indices| - 1], offset) + [indices[|indices| - 1] - offset]
  }

  function JudgeAll(m: Model, counters: seq<u64>): (Model, seq<bool>) {
    if counters == [] then (m, [])
    else
      var (before, verdicts) := JudgeAll(m, counters[..|counters| - 1]);
      var v := Judge(before, counters[|counters| - 1]);
      (v.model, verdicts + [v.accepted])
  }

  function JudgeRtpAll(m: Model, sequences: seq<u16>): (Model, seq<bool>) {
    if sequences == [] then (m, [])
    else
      var (before, verdicts) := JudgeRtpAll(m, sequences[..|sequences| - 1]);
      var v := JudgeRtp(before, sequences[|sequences| - 1]);
      (v.model, verdicts + [v.accepted])
  }

  ghost predicate InRange(indices: seq<nat>) {
    && indices != []
    && Near(indices)
    && Above(indices, Start(indices[0]))
  }

  lemma {:induction false} HighestBound(indices: seq<nat>, bound: nat)
    requires indices != [] && forall k :: 0 <= k < |indices| ==> indices[k] <= bound
    ensures indices[0] <= Highest(indices) <= bound
  {
    if |indices| > 1 {
      HighestBound(indices[..|indices| - 1], bound);
    }
  }

  lemma NearBefore(indices: seq<nat>)
    requires InRange(indices) && |indices| > 1
    ensures InRange(indices[..|indices| - 1])
  {
    hide Start;
    hide Highest;
    var before := indices[..|indices| - 1];
    assert before[0] == indices[0];
    forall k | 0 < k < |before|
      ensures Start(before[0]) <= before[k]
              && Distance(before[k], Highest(before[..k])) < HALF
    {
      assert before[..k] == indices[..k];
    }
  }

  /** What the hypothesis says of the last packet. */
  lemma NearLast(indices: seq<nat>)
    requires InRange(indices) && |indices| > 1
    ensures var before, last := indices[..|indices| - 1], indices[|indices| - 1];
            && before[0] == indices[0]
            && Start(indices[0]) <= last <= Start(indices[0]) + U64_MAX
            && Start(indices[0]) <= Highest(before) <= Start(indices[0]) + U64_MAX
            && Distance(last, Highest(before)) < HALF
  {
    hide Start;
    HighestBound(indices[..|indices| - 1], Start(indices[0]) + U64_MAX);
    hide Highest;
  }

  lemma JudgeAllLast(m: Model, counters: seq<u64>, last: u64)
    ensures var (before, verdicts) := JudgeAll(m, counters);
            JudgeAll(m, counters + [last])
            == (Judge(before, last).model, verdicts + [Judge(before, last).accepted])
  {
    assert (counters + [last])[..|counters + [last]| - 1] == counters;
    hide Judge;
  }

  lemma JudgeRtpAllLast(m: Model, sequences: seq<u16>, last: u16)
    ensures var (before, verdicts) := JudgeRtpAll(m, sequences);
            JudgeRtpAll(m, sequences + [last])
            == (JudgeRtp(before, last).model, verdicts + [JudgeRtp(before, last).accepted])
  {
    assert (sequences + [last])[..|sequences + [last]| - 1] == sequences;
    hide JudgeRtp;
  }

  /** The receiver agrees with the window over true indices counted from `offset`. */
  ghost predicate Recovered(indices: seq<nat>, offset: nat)
    requires indices != [] && Above(indices, offset)
  {
    && JudgeRtpAll(EMPTY, Sequences(indices)) == JudgeAll(EMPTY, Relative(indices, offset))
    && offset <= Highest(indices) <= offset + U64_MAX
    && JudgeAll(EMPTY, Relative(indices, offset)).0.highest == Some(Highest(indices) - offset)
  }

  lemma RecoveredOne(index: nat, offset: nat)
    requires Start(index) == offset && offset <= index <= offset + U64_MAX && index - offset == Low(index)
    requires Above([index], offset)
    ensures Recovered([index], offset)
  {
    hide Start;
    hide Low;
    var one := [index];
    assert one[..0] == [];
    assert Sequences(one[..0]) == [] && Relative(one[..0], offset) == [];
    assert Sequences(one) == [Low(index)];
    assert Relative(one, offset) == [index - offset];
    hide Sequences;
    hide Relative;
    FirstRecovered(index, offset);
    hide JudgeAll;
    hide JudgeRtpAll;
  }

  lemma RecoveredMore(before: seq<nat>, last: nat, offset: nat)
    requires before != [] && Above(before, offset) && Above(before + [last], offset)
    requires Recovered(before, offset)
    requires offset <= last <= offset + U64_MAX && Low(last - offset) == Low(last)
    requires Distance(last, Highest(before)) < HALF
    ensures Recovered(before + [last], offset)
  {
    hide Low;
    hide Sequences;
    hide Relative;
    hide Highest;
    hide JudgeAll;
    hide JudgeRtpAll;
    hide Above;
    hide Judge;
    hide JudgeRtp;
    hide Distance;
    LastOf(before, last, offset);
    var r: u64 := last - offset;
    JudgeAllLast(EMPTY, Relative(before, offset), r);
    JudgeRtpAllLast(EMPTY, Sequences(before), Low(last));
    StepRecovered(JudgeAll(EMPTY, Relative(before, offset)).0, Highest(before) - offset, r) by {
      SameDistance(last, Highest(before), offset);
    }
  }

  lemma SameDistance(a: nat, b: nat, offset: nat)
    requires offset <= a && offset <= b
    ensures Distance(a - offset, b - offset) == Distance(a, b)
  {
  }

  lemma LastOf(before: seq<nat>, last: nat, offset: nat)
    requires before != [] && Above(before, offset) && Above(before + [last], offset)
    requires offset <= last <= offset + U64_MAX
    ensures Sequences(before + [last]) == Sequences(before) + [Low(last)]
    ensures Relative(before + [last], offset) == Relative(before, offset) + [last - offset]
    ensures Highest(before + [last]) == if last > Highest(before) then last else Highest(before)
  {
    hide Low;
    assert (before + [last])[..|before|] == before;
  }

  /** The receiver, fed sequence numbers only, gives every packet the verdict the window would give
      its true index: across any number of wraps, in any order, with losses and repeats. */
  lemma {:induction false} TraceRecovered(indices: seq<nat>)
    requires InRange(indices)
    ensures Recovered(indices, Start(indices[0]))
    decreases |indices|
  {
    hide Start;
    hide Low;
    hide Recovered;
    var offset := Start(indices[0]);
    var before, last := indices[..|indices| - 1], indices[|indices| - 1];
    RelativeModulo(last, indices[0]);
    if |indices| == 1 {
      assert indices == [last];
      RecoveredOne(last, offset);
    } else {
      NearBefore(indices);
      NearLast(indices);
      TraceRecovered(before);
      assert indices == before + [last];
      RecoveredMore(before, last, offset);
    }
  }

  lemma FirstRecovered(index: nat, offset: nat)
    requires offset <= index <= offset + U64_MAX && index - offset == Low(index)
    ensures JudgeRtpAll(EMPTY, [Low(index)]) == JudgeAll(EMPTY, [index - offset])
    ensures JudgeAll(EMPTY, [index - offset]).0.highest == Some(index - offset)
  {
    var r: u64 := index - offset;
    hide Low;
    JudgeAllLast(EMPTY, [], r);
    JudgeRtpAllLast(EMPTY, [], r);
    assert JudgeRtpAll(EMPTY, []) == (EMPTY, []) && JudgeAll(EMPTY, []) == (EMPTY, []);
    assert [] + [r] == [r];
    hide JudgeAll;
    hide JudgeRtpAll;
  }

  lemma StepRecovered(m: Model, highest: u64, index: u64)
    requires m.highest == Some(highest) && Distance(index, highest) < HALF
    ensures JudgeRtp(m, Low(index)) == Judge(m, index)
    ensures Judge(m, index).model.highest == Some(if index > highest then index else highest)
  {
    ExtendRecovers(highest, index);
    hide Extend;
  }

  lemma RelativeModulo(index: nat, first: nat)
    requires Start(first) <= index
    ensures Low(index - Start(first)) == Low(index)
    ensures index == first ==> index - Start(first) == Low(index)
  {
    ShiftMod(index - Start(first), first / BLOCK);
  }

  // ---------------------------------------------------------------- the sender

  /** The number of packet `n` when the first one has number `initial`. */
  function Numbered(initial: u16, n: nat): u16 {
    (initial + n) % BLOCK
  }

  /** The counters of the obfuscation state: packets counted modulo 2^64, transport sequence numbers
      modulo 2^16. */
  class SenderCounters {
    var count: u64
    var transportSequence: u16
    const initialSequence: u16
    const initialTransport: u16
    ghost var sent: nat

    ghost predicate Valid()
      reads this
    {
      count == sent % (U64_MAX + 1)
      && transportSequence == (initialTransport + sent) % BLOCK
    }

    constructor (initialSequence: u16, initialTransport: u16)
      ensures Valid() && sent == 0
      ensures this.initialSequence == initialSequence && this.initialTransport == initialTransport
    {
      this.initialSequence, this.initialTransport := initialSequence, initialTransport;
      count, transportSequence, sent := 0, initialTransport, 0;
    }

    /** The n-th packet carries (s0 + n) mod 2^16, however often either counter has wrapped. */
    method Next() returns (sequence: u16, transport: u16)
      requires Valid()
      modifies this
      ensures Valid() && sent == old(sent) + 1
      ensures sequence == Numbered(initialSequence, old(sent))
      ensures transport == Numbered(initialTransport, old(sent))
    {
      sequence := (initialSequence + count % BLOCK) % BLOCK;
      transport := transportSequence;
      Truncated(sent, initialSequence);
      WrappingStep(sent, initialTransport);
      CountStep(sent);
      count := if count == U64_MAX then 0 else count + 1;
      transportSequence := if transportSequence == 0xffff then 0 else transportSequence + 1;
      sent := sent + 1;
    }
  }

  lemma Truncated(n: nat, s0: u16)
    ensures (s0 + n % (U64_MAX + 1) % BLOCK) % BLOCK == (s0 + n) % BLOCK
  {
    var q, r := n / (U64_MAX + 1), n % (U64_MAX + 1);
    var k := (U64_MAX + 1) / BLOCK;
    assert n == q * (k * BLOCK) + r;
    assert q * (k * BLOCK) == (q * k) * BLOCK;
    ShiftMod(r, q * k);
    ModSum(s0, n);
  }

  lemma ShiftMod(r: nat, k: nat)
    ensures (k * BLOCK + r) % BLOCK == r % BLOCK
  {
    Quotient(k * BLOCK + r, BLOCK, k + r / BLOCK, r % BLOCK);
  }

  lemma ModSum(a: nat, b: nat)
    ensures (a + b % BLOCK) % BLOCK == (a + b) % BLOCK
  {
    ShiftMod(a + b % BLOCK, b / BLOCK);
  }

  lemma WrappingStep(n: nat, s0: u16)
    ensures (s0 + n + 1) % BLOCK == if (s0 + n) % BLOCK == 0xffff then 0 else (s0 + n) % BLOCK + 1
  {
  }

  lemma CountStep(n: nat)
    ensures (n + 1) % (U64_MAX + 1) == if n % (U64_MAX + 1) == U64_MAX then 0 else n % (U64_MAX + 1) + 1
  {
  }

  // ---------------------------------------------------------------- from sender to receiver

  /** When a counter has to be accepted after others: none of them is more than the window ahead of it,
      and it is not among those accepted. */
  predicate Acceptable(before: seq<nat>, verdicts: seq<bool>, counter: nat)
    requires |before| == |verdicts|
  {
    && (forall i :: 0 <= i < |before| ==> before[i] <= counter + 16383)
    && (forall i :: 0 <= i < |before| && before[i] == counter ==> !verdicts[i])
  }

  /** A run in which exactly those were accepted. */
  ghost predicate Exactly(counters: seq<nat>, verdicts: seq<bool>) {
    && |verdicts| == |counters|
    && (forall j :: 0 <= j < |counters| ==>
          (verdicts[j] <==> Acceptable(counters[..j], verdicts[..j], counters[j])))
  }

  /** The window after a run: its highest counter, and the accepted ones. */
  ghost predicate Remembers(m: Model, counters: seq<u64>, verdicts: seq<bool>) {
    && Sound(m) && |verdicts| == |counters|
    && (m.highest.None? <==> counters == [])
    && (m.highest.Some? ==> m.highest.value in counters
                            && forall i :: 0 <= i < |counters| ==> counters[i] <= m.highest.value)
    && (forall i :: 0 <= i < |counters| && verdicts[i] ==> counters[i] in m.accepted)
    && (forall x :: x in m.accepted ==> exists i :: 0 <= i < |counters| && counters[i] == x && verdicts[i])
  }

  lemma RemembersMore(m: Model, counters: seq<u64>, verdicts: seq<bool>, c: u64)
    requires Remembers(m, counters, verdicts)
    ensures var v := Judge(m, c); Remembers(v.model, counters + [c], verdicts + [v.accepted])
  {
    var v := Judge(m, c);
    AcceptExactly(m, c);
    var more, verdicts' := counters + [c], verdicts + [v.accepted];
    assert more[|counters|] == c;
    forall x | x in v.model.accepted
      ensures exists i :: 0 <= i < |more| && more[i] == x && verdicts'[i]
    {
      if x in m.accepted {
        var i :| 0 <= i < |counters| && counters[i] == x && verdicts[i];
        assert more[i] == x && verdicts'[i];
      } else {
        assert more[|counters|] == x && verdicts'[|counters|];
      }
    }
  }

  lemma JudgedAcceptable(m: Model, counters: seq<u64>, verdicts: seq<bool>, c: u64)
    requires Remembers(m, counters, verdicts)
    ensures Judge(m, c).accepted <==> Acceptable(counters, verdicts, c)
  {
    AcceptExactly(m, c);
    hide Judge;
    if m.highest.Some? {
      var h :| 0 <= h < |counters| && counters[h] == m.highest.value;
    }
    if c in m.accepted {
      var i :| 0 <= i < |counters| && counters[i] == c && verdicts[i];
    }
  }

  lemma ExactlyMore(counters: seq<u64>, verdicts: seq<bool>, c: u64, accepted: bool)
    requires Exactly(counters, verdicts) && (accepted <==> Acceptable(counters, verdicts, c))
    ensures Exactly(counters + [c], verdicts + [accepted])
  {
    hide Acceptable;
    var more, verdicts' := counters + [c], verdicts + [accepted];
    forall j | 0 <= j < |more|
      ensures verdicts'[j] <==> Acceptable(more[..j], verdicts'[..j], more[j])
    {
      if j < |counters| {
        assert more[..j] == counters[..j] && verdicts'[..j] == verdicts[..j];
      } else {
        assert more[..j] == counters && verdicts'[..j] == verdicts;
      }
    }
  }

  lemma {:induction false} JudgedExactly(counters: seq<u64>)
    ensures var (m, verdicts) := JudgeAll(EMPTY, counters);
            Remembers(m, counters, verdicts) && Exactly(counters, verdicts)
    decreases |counters|
  {
    if counters != [] {
      var before, c := counters[..|counters| - 1], counters[|counters| - 1];
      JudgedExactly(before);
      hide Exactly;
      hide Remembers;
      hide Judge;
      hide Acceptable;
      var (m, verdicts) := JudgeAll(EMPTY, before);
      RemembersMore(m, before, verdicts, c);
      JudgedAcceptable(m, before, verdicts, c);
      ExactlyMore(before, verdicts, c, Judge(m, c).accepted);
      assert counters == before + [c];
    }
  }

  /** The indices of packets counted from the sender's first number. */
  function Indices(initial: u16, sent: seq<nat>): seq<nat> {
    seq(|sent|, k requires 0 <= k < |sent| => initial + sent[k])
  }

  /** The sequence numbers the sender wrote into them. */
  function Numbers(initial: u16, sent: seq<nat>): seq<u16> {
    seq(|sent|, k requires 0 <= k < |sent| => Numbered(initial, sent[k]))
  }

  lemma {:induction false} SequenceAt(indices: seq<nat>, k: nat)
    requires k < |indices|
    ensures |Sequences(indices)| == |indices| && Sequences(indices)[k] == Low(indices[k])
    decreases |indices|
  {
    hide Low;
    if |indices| > 1 {
      SequenceAt(indices[..|indices| - 1], if k == |indices| - 1 then 0 else k);
    }
  }

  lemma {:induction false} RelativeAt(indices: seq<nat>, offset: nat, k: nat)
    requires Above(indices, offset) && k < |indices|
    ensures |Relative(indices, offset)| == |indices| && Relative(indices, offset)[k] == indices[k] - offset
    decreases |indices|
  {
    if |indices| > 1 {
      RelativeAt(indices[..|indices| - 1], offset, if k == |indices| - 1 then 0 else k);
    }
  }

  /** From the sender's counter to the receiver's window: packets delivered in any order, with losses and
      repeats, as long as they stay within reach of the index recovery, are each accepted exactly when
      they were not accepted before and no packet delivered before was more than 16383 ahead. */
  lemma DeliveredExactly(initial: u16, sent: seq<nat>)
    requires InRange(Indices(initial, sent))
    ensures Exactly(sent, JudgeRtpAll(EMPTY, Numbers(initial, sent)).1)
  {
    hide JudgeAll;
    hide JudgeRtpAll;
    hide Near;
    var indices := Indices(initial, sent);
    var offset := Start(indices[0]);
    hide Start;
    TraceRecovered(indices);
    forall k | 0 <= k < |indices|
      ensures |Sequences(indices)| == |indices| && Sequences(indices)[k] == Numbers(initial, sent)[k]
    {
      SequenceAt(indices, k);
    }
    SequenceAt(indices, 0);
    assert Sequences(indices) == Numbers(initial, sent);
    var counters := Relative(indices, offset);
    forall k | 0 <= k < |indices|
      ensures |counters| == |indices| && counters[k] == initial + sent[k] - offset
    {
      RelativeAt(indices, offset, k);
    }
    hide Sequences;
    hide Relative;
    JudgedExactly(counters);
    hide Remembers;
    Shifted(counters, sent, offset, initial, JudgeAll(EMPTY, counters).1);
  }

  lemma Shifted(counters: seq<u64>, sent: seq<nat>, offset: nat, initial: nat, verdicts: seq<bool>)
    requires |counters| == |sent| && forall k :: 0 <= k < |sent| ==> counters[k] == initial + sent[k] - offset
    requires Exactly(counters, verdicts)
    ensures Exactly(sent, verdicts)
  {
    forall j | 0 <= j < |sent|
      ensures Acceptable(counters[..j], verdicts[..j], counters[j])
              <==> Acceptable(sent[..j], verdicts[..j], sent[j])
    {
      assert forall i :: 0 <= i < j ==> counters[..j][i] + sent[j] == sent[..j][i] + counters[j];
    }
    hide Acceptable;
  }

  /** In particular none is accepted twice. */
  lemma DeliveredOnce(initial: u16, sent: seq<nat>, i: nat, j: nat)
    requires InRange(Indices(initial, sent)) && i < j < |sent| && sent[i] == sent[j]
    ensures var verdicts := JudgeRtpAll(EMPTY, Numbers(initial, sent)).1;
            |verdicts| == |sent| && !(verdicts[i] && verdicts[j])
  {
    DeliveredExactly(initial, sent);
    var verdicts := JudgeRtpAll(EMPTY, Numbers(initial, sent)).1;
    assert verdicts[j] ==> Acceptable(sent[..j], verdicts[..j], sent[j]);
    assert sent[..j][i] == sent[j] && verdicts[..j][i] == verdicts[i];
    hide InRange;
    hide JudgeRtpAll;
  }
}
