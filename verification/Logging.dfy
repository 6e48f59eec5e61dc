/** The logger: producers push lines into two bounded lanes, replacing the oldest when a lane is full,
    and one writer empties the lanes, joining equal diagnostics. All interleavings of their atomic
    steps. */
module Logging {
  import opened Bytes
  import opened Tally

  const PROTOCOL_BURST: nat := 32
  const COALESCE_BATCH: nat := 64
  const ATTEMPTS: nat := 4

  datatype Kind = Protocol | Diagnostic

  /** A line in a lane, and its place among all lines pushed to the lane. */
  datatype Entry = Entry(text: string, place: nat)

  /** One write to the sink: a line and how often it is repeated. */
  datatype Written = Written(text: string, count: nat)

  /** A lane with its counters. The last four fields are its history: how many lines were accepted and
      pushed, what the writer took, and what it handed to the sink. */
  datatype Lane = Lane(capacity: nat, queue: seq<Entry>, outstanding: int, dropped: nat,
                       accepted: nat, pushed: nat, taken: seq<Entry>, output: seq<Written>)

  function NewLane(capacity: nat): Lane {
    Lane(if capacity == 0 then 1 else capacity, [], 0, 0, 0, 0, [], [])
  }

  /** Where a producer stands: about to push; found the lane full; took out the oldest line; took it off
      the outstanding count; failed for good; took its own line off the count. */
  datatype Thread =
    | Idle
    | Pushing(kind: Kind, text: string, tries: nat)
    | Full(kind: Kind, text: string, tries: nat)
    | Displaced(kind: Kind, text: string, tries: nat)
    | Subtracted(kind: Kind, text: string, tries: nat)
    | GivingUp(kind: Kind)
    | GivenUp(kind: Kind)

  /** Where the writer stands. `again` marks a protocol line that was taken after no diagnostic had been
      found. */
  datatype Writer =
    | Top(burst: nat, pending: Option<Entry>)
    | LineTaken(burst: nat, pending: Option<Entry>, entry: Entry, again: bool)
    | LineWritten(burst: nat, pending: Option<Entry>, again: bool)
    | Diagnose(burst: nat, pending: Option<Entry>)
    | LastLook(burst: nat)
    | Coalescing(entry: Entry, count: nat)
    | Coalesced(entry: Entry, count: nat)
    | Emitting(entry: Entry, count: nat, pending: Option<Entry>)
    | Emitted(pending: Option<Entry>)

  /** `overtaken` counts the protocol lines written in a row while some diagnostic was waiting. `empty` is
      whether the diagnostics were empty when the writer last looked for one to join, and `empties` what that
      was before each write of a diagnostic. */
  datatype System = System(protocol: Lane, diagnostic: Lane, threads: seq<Thread>, writer: Writer,
                           overtaken: nat, empty: bool, empties: seq<bool>, passed: nat)

  datatype Action = Log(thread: nat, kind: Kind, text: string) | Step(thread: nat) | Write

  function Initial(protocolCapacity: nat, diagnosticCapacity: nat, threads: nat): System {
    System(NewLane(protocolCapacity), NewLane(diagnosticCapacity), seq(threads, _ => Idle), Top(0, None), 0,
           false, [], 0)
  }

  function LaneOf(s: System, kind: Kind): Lane {
    if kind == Protocol then s.protocol else s.diagnostic
  }

  function SetLane(s: System, kind: Kind, lane: Lane): System {
    if kind == Protocol then s.(protocol := lane) else s.(diagnostic := lane)
  }

  function SetThread(s: System, k: nat, t: Thread): System
    requires k < |s.threads|
  {
    s.(threads := s.threads[k := t])
  }

  // ---------------------------------------------------------------- one producer alone

  /** A lane used by one thread. */
  class LaneQueue {
    const capacity: nat
    var queue: seq<string>
    var outstanding: nat
    var dropped: nat

    ghost predicate Valid()
      reads this
    {
      0 < capacity && |queue| <= capacity && |queue| <= outstanding
    }

    constructor (capacity: nat)
      ensures Valid() && queue == [] && outstanding == 0 && dropped == 0
    {
      this.capacity := if capacity == 0 then 1 else capacity;
      queue, outstanding, dropped := [], 0, 0;
    }

    /** The line is always taken; a full lane loses its oldest line for it, and counts that. */
    method ReplaceOldest(line: string)
      requires Valid()
      modifies this
      ensures Valid()
      ensures var full := |old(queue)| == capacity;
              && queue == (if full then old(queue)[1..] else old(queue)) + [line]
              && dropped == old(dropped) + (if full then 1 else 0)
              && outstanding == old(outstanding) + (if full then 0 else 1)
    {
      outstanding := outstanding + 1;
      var tries := 0;
      while tries < ATTEMPTS
        invariant tries <= 1 && Valid()
        invariant tries == 0 ==> queue == old(queue) && dropped == old(dropped)
                                 && outstanding == old(outstanding) + 1
        invariant tries == 1 ==> |old(queue)| == capacity && queue == old(queue)[1..]
                                 && dropped == old(dropped) + 1 && outstanding == old(outstanding)
        invariant |queue| + 1 <= outstanding
      {
        if |queue| < capacity {
          queue := queue + [line];
          return;
        }
        queue := queue[1..];
        outstanding := outstanding - 1;
        dropped := dropped + 1;
        tries := tries + 1;
      }
      // Alone, a producer is done with its second attempt at the latest.
    }
  }

  // ---------------------------------------------------------------- producers

  /** After a failed attempt: the next one, or the end of the attempts. */
  function Retry(kind: Kind, text: string, tries: nat): Thread {
    if tries + 1 < ATTEMPTS then Pushing(kind, text, tries + 1) else GivingUp(kind)
  }

  function ThreadNext(t: Thread, lane: Lane): (Thread, Lane)
    requires t != Idle
  {
    match t
    case Pushing(kind, text, tries) =>
      if |lane.queue| < lane.capacity then
        (Idle, lane.(queue := lane.queue + [Entry(text, lane.pushed)], pushed := lane.pushed + 1))
      else (Full(kind, text, tries), lane)
    case Full(kind, text, tries) =>
      if lane.queue == [] then (Retry(kind, text, tries), lane)
      else (Displaced(kind, text, tries), lane.(queue := lane.queue[1..]))
    case Displaced(kind, text, tries) =>
      (Subtracted(kind, text, tries), lane.(outstanding := lane.outstanding - 1))
    case Subtracted(kind, text, tries) =>
      (Retry(kind, text, tries), lane.(dropped := lane.dropped + 1))
    case GivingUp(kind) => (GivenUp(kind), lane.(outstanding := lane.outstanding - 1))
    case GivenUp(kind) => (Idle, lane.(dropped := lane.dropped + 1))
  }

  function ThreadStep(s: System, k: nat): System
    requires k < |s.threads|
  {
    var t := s.threads[k];
    if t == Idle then s
    else
      var (next, lane) := ThreadNext(t, LaneOf(s, t.kind));
      SetThread(SetLane(s, t.kind, lane), k, next)
  }

  function Accept(s: System, k: nat, kind: Kind, text: string): System
    requires k < |s.threads|
  {
    var lane := LaneOf(s, kind);
    SetThread(SetLane(s, kind, lane.(outstanding := lane.outstanding + 1, accepted := lane.accepted + 1)),
              k, Pushing(kind, text, 0))
  }

  // ---------------------------------------------------------------- the writer

  function Take(lane: Lane): Lane
    requires lane.queue != []
  {
    lane.(queue := lane.queue[1..], taken := lane.taken + [lane.queue[0]])
  }

  function Hand(lane: Lane, text: string, count: nat): Lane {
    lane.(output := lane.output + [Written(text, count)])
  }

  function Done(lane: Lane): Lane {
    lane.(outstanding := lane.outstanding - 1)
  }

  function WriterStep(s: System): System {
    match s.writer
    case Top(burst, pending) =>
      if burst < PROTOCOL_BURST && s.protocol.queue != [] then
        s.(protocol := Take(s.protocol), writer := LineTaken(burst, pending, s.protocol.queue[0], false))
      else s.(writer := Diagnose(burst, pending))
    case LineTaken(burst, pending, entry, again) =>
      s.(protocol := Hand(s.protocol, entry.text, 1), writer := LineWritten(burst, pending, again),
         overtaken := s.overtaken + 1)
    case LineWritten(burst, pending, again) =>
      s.(protocol := Done(s.protocol), writer := Top(if again then 1 else burst + 1, pending))
    case Diagnose(burst, pending) =>
      if pending.Some? then s.(writer := Coalescing(pending.value, 1))
      else if s.diagnostic.queue != [] then
        s.(diagnostic := Take(s.diagnostic), writer := Coalescing(s.diagnostic.queue[0], 1))
      else s.(writer := LastLook(burst))
    case LastLook(burst) =>
      if s.protocol.queue != [] then
        s.(protocol := Take(s.protocol), writer := LineTaken(burst, None, s.protocol.queue[0], true))
      else s.(writer := Top(burst, None))
    case Coalescing(entry, count) =>
      if count >= COALESCE_BATCH || s.diagnostic.queue == [] then
        s.(writer := Emitting(entry, count, None))
      else
        var next := s.diagnostic.queue[0];
        var taken := s.(diagnostic := Take(s.diagnostic));
        if next.text == entry.text then taken.(writer := Coalesced(entry, count + 1))
        else taken.(writer := Emitting(entry, count, Some(next)))
    case Coalesced(entry, count) =>
      s.(diagnostic := Done(s.diagnostic), writer := Coalescing(entry, count))
    case Emitting(entry, count, pending) =>
      s.(diagnostic := Hand(s.diagnostic, entry.text, count), writer := Emitted(pending), overtaken := 0)
    case Emitted(pending) =>
      s.(diagnostic := Done(s.diagnostic), writer := Top(0, pending))
  }

  function Pending(w: Writer): Option<Entry> {
    match w
    case Top(_, pending) => pending
    case LineTaken(_, pending, _, _) => pending
    case LineWritten(_, pending, _) => pending
    case Diagnose(_, pending) => pending
    case Emitting(_, _, pending) => pending
    case Emitted(pending) => pending
    case _ => None
  }

  predicate DiagnosticWaits(s: System) {
    s.diagnostic.queue != [] || Pending(s.writer).Some?
  }

  /** A step before the count of overtaking lines is settled. */
  function Stepped(s: System, a: Action): System {
    match a
    case Log(k, kind, text) =>
      if k < |s.threads| && s.threads[k] == Idle then Accept(s, k, kind, text) else s
    case Step(k) => if k < |s.threads| then ThreadStep(s, k) else s
    case Write => WriterStep(s)
  }

  /** What the writer saw, for the histories. */
  function Noted(s: System, a: Action, n: System): System {
    n.(empty := if a.Write? && s.writer.Coalescing? then s.diagnostic.queue == [] else s.empty,
       empties := if a.Write? && s.writer.Emitting? then s.empties + [s.empty] else s.empties,
       passed := if n.protocol.queue == [] || |n.protocol.taken| > |s.protocol.taken| then 0
                 else if a.Write? && s.writer.Emitting? then s.passed + 1
                 else s.passed)
  }

  function Next(s: System, a: Action): System {
    var n := Noted(s, a, Stepped(s, a));
    if DiagnosticWaits(n) then n else n.(overtaken := 0)
  }

  function Run(s: System, actions: seq<Action>): System {
    if actions == [] then s else Next(Run(s, actions[..|actions| - 1]), actions[|actions| - 1])
  }

  // ---------------------------------------------------------------- where every line is

  /** Lines handed to the sink, repetitions counted. */
  function Lines(output: seq<Written>): nat {
    if output == [] then 0 else Lines(output[..|output| - 1]) + output[|output| - 1].count
  }

  /** Lines in the hands of a producer: its own, and the one it displaced. */
  function Hands(t: Thread): nat {
    if t == Idle then 0 else if t.Displaced? || t.Subtracted? then 2 else 1
  }

  /** Lines a producer has taken off the outstanding count, but not yet counted as dropped. */
  function Owed(t: Thread): nat {
    if t.Subtracted? || t.GivenUp? then 1 else 0
  }

  predicate On(t: Thread, kind: Kind) {
    t != Idle && t.kind == kind
  }

  function InHand(kind: Kind): Thread -> nat {
    (t: Thread) => if On(t, kind) then Hands(t) else 0
  }

  function Uncounted(kind: Kind): Thread -> nat {
    (t: Thread) => if On(t, kind) then Owed(t) else 0
  }

  function One(pending: Option<Entry>): nat {
    if pending.Some? then 1 else 0
  }

  /** Lines in the hands of the writer. */
  function WriterHolds(w: Writer, kind: Kind): nat {
    if kind == Protocol then (if w.LineTaken? then 1 else 0)
    else One(Pending(w)) + (if w.Coalescing? || w.Coalesced? || w.Emitting? then w.count else 0)
  }

  /** How far the outstanding count is behind (or, if negative, ahead of) what was handed to the sink:
      joined lines are taken off before the write, the first of them after it. */
  function WriterGap(w: Writer, kind: Kind): int {
    if kind == Protocol then (if w.LineWritten? then -1 else 0)
    else
      match w
      case Coalescing(_, count) => count - 1
      case Coalesced(_, count) => count - 2
      case Emitting(_, count, _) => count - 1
      case Emitted(_) => -1
      case _ => 0
  }

  /** Every accepted line is somewhere, and the outstanding count is where the hands of producers and
      writer have brought it. */
  ghost predicate LaneNumbers(lane: Lane, inHand: nat, uncounted: nat, held: nat, gap: int) {
    && 0 < lane.capacity && |lane.queue| <= lane.capacity
    && lane.accepted == Lines(lane.output) + lane.dropped + |lane.queue| + inHand + held
    && lane.accepted == Lines(lane.output) + lane.dropped + lane.outstanding + uncounted + gap
  }

  ghost predicate Numbers(s: System, kind: Kind) {
    LaneNumbers(LaneOf(s, kind), Total(s.threads, InHand(kind)), Total(s.threads, Uncounted(kind)),
                WriterHolds(s.writer, kind), WriterGap(s.writer, kind))
  }

  lemma LinesLast(output: seq<Written>, text: string, count: nat)
    ensures Lines(output + [Written(text, count)]) == Lines(output) + count
  {
    assert (output + [Written(text, count)])[..|output|] == output;
  }

  /** A producer's step moves lines between its hands, the lane and the counters. */
  lemma ThreadNumbers(t: Thread, lane: Lane, inHand: nat, uncounted: nat, held: nat, gap: int)
    requires t != Idle && LaneNumbers(lane, inHand + Hands(t), uncounted + Owed(t), held, gap)
    ensures var (next, after) := ThreadNext(t, lane);
            && LaneNumbers(after, inHand + Hands(next), uncounted + Owed(next), held, gap)
            && (next == Idle || next.kind == t.kind)
  {
    hide Lines;
  }

  lemma ThreadKeepsNumbers(s: System, k: nat, kind: Kind)
    requires Numbers(s, kind) && k < |s.threads| && s.threads[k] != Idle
    ensures Numbers(ThreadStep(s, k), kind)
  {
    hide LaneNumbers;
    hide WriterHolds;
    hide WriterGap;
    hide ThreadNext;
    hide Hands;
    hide Owed;
    hide Total;
    var t, n, others := s.threads[k], ThreadStep(s, k), s.threads[k := Idle];
    TotalUpdate(s.threads, k, Idle, InHand(kind));
    TotalUpdate(s.threads, k, Idle, Uncounted(kind));
    TotalUpdate(others, k, n.threads[k], InHand(kind));
    TotalUpdate(others, k, n.threads[k], Uncounted(kind));
    assert n.threads == others[k := n.threads[k]];
    NextKind(t, LaneOf(s, t.kind));
    if t.kind == kind {
      NoHands();
      ThreadNumbers(t, LaneOf(s, kind), Total(others, InHand(kind)), Total(others, Uncounted(kind)),
                    WriterHolds(s.writer, kind), WriterGap(s.writer, kind));
    } else {
      assert LaneOf(n, kind) == LaneOf(s, kind);
    }
  }

  lemma NoHands()
    ensures Hands(Idle) == 0 && Owed(Idle) == 0
  {
  }

  lemma NextKind(t: Thread, lane: Lane)
    requires t != Idle
    ensures ThreadNext(t, lane).0 == Idle || ThreadNext(t, lane).0.kind == t.kind
  {
  }

  lemma AcceptKeepsNumbers(s: System, k: nat, other: Kind, text: string, kind: Kind)
    requires Numbers(s, kind) && k < |s.threads| && s.threads[k] == Idle
    ensures Numbers(Accept(s, k, other, text), kind)
  {
    TotalUpdate(s.threads, k, Pushing(other, text, 0), InHand(kind));
    TotalUpdate(s.threads, k, Pushing(other, text, 0), Uncounted(kind));
    hide WriterHolds;
    hide WriterGap;
    hide Lines;
    hide Total;
  }

  lemma WriterKeepsNumbers(s: System, kind: Kind)
    requires Numbers(s, kind)
    ensures Numbers(WriterStep(s), kind)
  {
    var inHand, uncounted := Total(s.threads, InHand(kind)), Total(s.threads, Uncounted(kind));
    hide LaneNumbers;
    if kind == Protocol {
      WriterKeepsProtocolNumbers(s, inHand, uncounted);
    } else {
      WriterKeepsDiagnosticNumbers(s, inHand, uncounted);
    }
    hide WriterHolds;
    hide WriterGap;
  }

  lemma WriterKeepsProtocolNumbers(s: System, inHand: nat, uncounted: nat)
    requires LaneNumbers(s.protocol, inHand, uncounted, WriterHolds(s.writer, Protocol),
                         WriterGap(s.writer, Protocol))
    ensures var n := WriterStep(s);
            LaneNumbers(n.protocol, inHand, uncounted, WriterHolds(n.writer, Protocol),
                        WriterGap(n.writer, Protocol))
  {
    var lane := s.protocol;
    match s.writer
    case LineTaken(_, _, entry, _) => LinesLast(lane.output, entry.text, 1);
    case Top(_, _) => assert lane.queue != [] ==> |Take(lane).queue| == |lane.queue| - 1;
    case LastLook(_) => assert lane.queue != [] ==> |Take(lane).queue| == |lane.queue| - 1;
    case LineWritten(_, _, _) =>
    case _ => assert WriterStep(s).protocol == lane;
  }

  lemma WriterKeepsDiagnosticNumbers(s: System, inHand: nat, uncounted: nat)
    requires LaneNumbers(s.diagnostic, inHand, uncounted, WriterHolds(s.writer, Diagnostic),
                         WriterGap(s.writer, Diagnostic))
    ensures var n := WriterStep(s);
            LaneNumbers(n.diagnostic, inHand, uncounted, WriterHolds(n.writer, Diagnostic),
                        WriterGap(n.writer, Diagnostic))
  {
    hide Lines;
    var lane := s.diagnostic;
    match s.writer
    case Emitting(entry, count, _) => LinesLast(lane.output, entry.text, count);
    case Diagnose(_, _) => assert lane.queue != [] ==> |Take(lane).queue| == |lane.queue| - 1;
    case Coalescing(_, _) => assert lane.queue != [] ==> |Take(lane).queue| == |lane.queue| - 1;
    case Coalesced(_, _) =>
    case Emitted(_) =>
    case _ => assert WriterStep(s).diagnostic == lane;
  }

  // ---------------------------------------------------------------- in which order

  function Repeat(text: string, count: nat): seq<string> {
    seq(count, _ => text)
  }

  /** What a reader of the sink sees, repetitions written out. */
  function Expand(output: seq<Written>): seq<string> {
    if output == [] then []
    else Expand(output[..|output| - 1]) + Repeat(output[|output| - 1].text, output[|output| - 1].count)
  }

  function Texts(entries: seq<Entry>): seq<string> {
    seq(|entries|, i requires 0 <= i < |entries| => entries[i].text)
  }

  /** What the writer has taken from a lane and not yet handed to the sink. */
  function Held(w: Writer, kind: Kind): seq<string> {
    if kind == Protocol then (if w.LineTaken? then [w.entry.text] else [])
    else
      (if w.Coalescing? || w.Coalesced? || w.Emitting? then Repeat(w.entry.text, w.count) else [])
      + (if Pending(w).Some? then [Pending(w).value.text] else [])
  }

  ghost predicate Order(s: System, kind: Kind) {
    var lane := LaneOf(s, kind);
    && Texts(lane.taken) == Expand(lane.output) + Held(s.writer, kind)
    && (forall i :: 0 <= i < |lane.output| ==> 1 <= lane.output[i].count <= COALESCE_BATCH)
    && (s.writer.Coalescing? || s.writer.Coalesced? || s.writer.Emitting? ==>
          1 <= s.writer.count <= COALESCE_BATCH)
  }

  /** Lines keep the order in which they were pushed, and none is taken twice. */
  ghost predicate Places(lane: Lane) {
    && (forall i, j :: 0 <= i < j < |lane.taken| ==> lane.taken[i].place < lane.taken[j].place)
    && (forall i, j :: 0 <= i < j < |lane.queue| ==> lane.queue[i].place < lane.queue[j].place)
    && (forall i, j :: 0 <= i < |lane.taken| && 0 <= j < |lane.queue| ==>
          lane.taken[i].place < lane.queue[j].place)
    && (forall i :: 0 <= i < |lane.taken| ==> lane.taken[i].place < lane.pushed)
    && (forall j :: 0 <= j < |lane.queue| ==> lane.queue[j].place < lane.pushed)
  }

  lemma TextsLast(entries: seq<Entry>, entry: Entry)
    ensures Texts(entries + [entry]) == Texts(entries) + [entry.text]
  {
  }

  lemma ExpandLast(output: seq<Written>, text: string, count: nat)
    ensures Expand(output + [Written(text, count)]) == Expand(output) + Repeat(text, count)
  {
    assert (output + [Written(text, count)])[..|output|] == output;
  }

  lemma RepeatMore(text: string, count: nat)
    ensures Repeat(text, count + 1) == Repeat(text, count) + [text] && Repeat(text, 1) == [text]
  {
  }

  lemma TakeKeepsPlaces(lane: Lane)
    requires Places(lane) && lane.queue != []
    ensures Places(Take(lane))
  {
    var after := Take(lane);
    assert forall i :: 0 <= i < |lane.taken| ==> after.taken[i] == lane.taken[i];
    assert forall j :: 0 <= j < |after.queue| ==> after.queue[j] == lane.queue[j + 1];
  }

  lemma ThreadKeepsPlaces(t: Thread, lane: Lane)
    requires Places(lane) && t != Idle
    ensures Places(ThreadNext(t, lane).1)
  {
    var after := ThreadNext(t, lane).1;
    if t.Pushing? && |lane.queue| < lane.capacity {
      assert forall j :: 0 <= j < |lane.queue| ==> after.queue[j] == lane.queue[j];
    } else if t.Full? && lane.queue != [] {
      assert forall j :: 0 <= j < |after.queue| ==> after.queue[j] == lane.queue[j + 1];
    }
  }

  lemma WriterKeepsProtocolOrder(s: System)
    requires Order(s, Protocol)
    ensures Order(WriterStep(s), Protocol)
  {
    var lane, n := s.protocol, WriterStep(s);
    hide Expand;
    hide Texts;
    match s.writer
    case LineTaken(_, _, entry, _) =>
      ExpandLast(lane.output, entry.text, 1);
      RepeatMore(entry.text, 0);
      assert Held(n.writer, Protocol) == [];
    case Top(_, _) => if n.writer.LineTaken? {
        TextsLast(lane.taken, lane.queue[0]);
        assert Held(s.writer, Protocol) == [];
      }
    case LastLook(_) => if n.writer.LineTaken? {
        TextsLast(lane.taken, lane.queue[0]);
        assert Held(s.writer, Protocol) == [];
      }
    case _ =>
  }

  lemma WriterKeepsDiagnosticOrder(s: System)
    requires Order(s, Diagnostic)
    ensures Order(WriterStep(s), Diagnostic)
  {
    hide Expand;
    hide Texts;
    var lane, w := s.diagnostic, s.writer;
    match w {
      case Coalescing(_, _) => CoalescingKeepsOrder(s);
      case Diagnose(_, _) => DiagnoseKeepsOrder(s);
      case Emitting(entry, count, _) =>
        ExpandLast(lane.output, entry.text, count);
        hide Repeat;
      case _ => assert WriterStep(s).diagnostic.taken == lane.taken;
    }
  }

  lemma DiagnoseKeepsOrder(s: System)
    requires Order(s, Diagnostic) && s.writer.Diagnose?
    ensures Order(WriterStep(s), Diagnostic)
  {
    hide Expand;
    hide Texts;
    var lane, pending := s.diagnostic, s.writer.pending;
    if pending.Some? {
      RepeatMore(pending.value.text, 0);
    } else if lane.queue != [] {
      TextsLast(lane.taken, lane.queue[0]);
      RepeatMore(lane.queue[0].text, 0);
    }
    hide Repeat;
  }

  lemma CoalescingKeepsOrder(s: System)
    requires Order(s, Diagnostic) && s.writer.Coalescing?
    ensures Order(WriterStep(s), Diagnostic)
  {
    hide Expand;
    hide Texts;
    var lane, w := s.diagnostic, s.writer;
    RepeatMore(w.entry.text, w.count);
    hide Repeat;
    if lane.queue != [] {
      TextsLast(lane.taken, lane.queue[0]);
    }
  }

  // ---------------------------------------------------------------- the burst rule

  ghost predicate Burst(s: System) {
    match s.writer
    case Top(burst, _) => s.overtaken <= burst <= PROTOCOL_BURST
    case LineTaken(burst, pending, _, again) =>
      if again then s.overtaken == 0 && pending.None? else s.overtaken <= burst < PROTOCOL_BURST
    case LineWritten(burst, _, again) =>
      if again then s.overtaken <= 1 else s.overtaken <= burst + 1 <= PROTOCOL_BURST
    case Diagnose(burst, _) => s.overtaken <= burst <= PROTOCOL_BURST
    case LastLook(burst) => s.overtaken == 0 && burst <= PROTOCOL_BURST
    case Emitted(_) => s.overtaken == 0
    case _ => s.overtaken <= PROTOCOL_BURST
  }

  lemma WriterBurst(s: System)
    requires Burst(s)
    requires s.writer.Diagnose? && !DiagnosticWaits(s) ==> s.overtaken == 0
    ensures Burst(WriterStep(s))
  {
  }

  lemma NotesLeave(s: System, a: Action)
    ensures var n, m := Next(s, a), Stepped(s, a);
            n.writer == m.writer && n.overtaken <= m.overtaken && n.threads == m.threads
            && n.protocol == m.protocol && n.diagnostic == m.diagnostic
  {
    hide Stepped;
  }

  lemma BurstStays(s: System, n: System)
    requires Burst(s) && n.writer == s.writer && n.overtaken <= s.overtaken
    ensures Burst(n)
  {
  }

  lemma ProducersBurst(s: System, a: Action)
    requires !a.Write?
    ensures Next(s, a).writer == s.writer && Next(s, a).overtaken <= s.overtaken
  {
    hide ThreadNext;
  }

  lemma BurstKeeps(s: System, a: Action)
    requires Burst(s)
    requires s.writer.Diagnose? && !DiagnosticWaits(s) ==> s.overtaken == 0
    ensures Burst(Next(s, a))
  {
    hide Burst;
    hide Next;
    hide DiagnosticWaits;
    if a.Write? {
      WriterBurst(s);
      NotesLeave(s, a);
      hide WriterStep;
      BurstStays(WriterStep(s), Next(s, a));
    } else {
      ProducersBurst(s, a);
      BurstStays(s, Next(s, a));
    }
  }

  // ---------------------------------------------------------------- joining

  /** A write after which an equal line may follow: it stands for 64 lines, or no line was left to join. */
  predicate Full64(w: Written, empty: bool) {
    w.count == COALESCE_BATCH || empty
  }

  /** Of two writes in a row with the same text the first is full or found nothing left. */
  ghost predicate Joined(output: seq<Written>, empties: seq<bool>) {
    && |empties| == |output|
    && forall i :: 0 <= i < |output| - 1 && output[i].text == output[i + 1].text ==>
         Full64(output[i], empties[i])
  }

  /** What may be written next after the last write. */
  ghost predicate MayFollow(output: seq<Written>, empties: seq<bool>, text: string)
    requires |empties| == |output|
  {
    output != [] && output[|output| - 1].text == text ==> Full64(output[|output| - 1], empties[|output| - 1])
  }

  ghost predicate AnyFollows(output: seq<Written>, empties: seq<bool>)
    requires |empties| == |output|
  {
    output != [] ==> Full64(output[|output| - 1], empties[|output| - 1])
  }

  ghost predicate Joins(s: System) {
    var output := s.diagnostic.output;
    && Joined(output, s.empties)
    && match s.writer
       case Coalescing(entry, _) => MayFollow(output, s.empties, entry.text)
       case Coalesced(entry, _) => MayFollow(output, s.empties, entry.text)
       case Emitting(entry, count, pending) =>
         && MayFollow(output, s.empties, entry.text)
         && (if pending.Some? then pending.value.text != entry.text
             else count == COALESCE_BATCH || s.empty)
       case w =>
         if Pending(w).Some? then MayFollow(output, s.empties, Pending(w).value.text)
         else AnyFollows(output, s.empties)
  }

  lemma JoinedMore(output: seq<Written>, empties: seq<bool>, w: Written, empty: bool)
    requires Joined(output, empties) && MayFollow(output, empties, w.text)
    ensures Joined(output + [w], empties + [empty])
  {
    var more, empties' := output + [w], empties + [empty];
    forall i | 0 <= i < |more| - 1 && more[i].text == more[i + 1].text
      ensures Full64(more[i], empties'[i])
    {
      assert more[i] == output[i] && empties'[i] == empties[i];
    }
  }

  /** Producers touch neither the writer nor what was written. */
  lemma ProducersApart(s: System, a: Action)
    requires !a.Write?
    ensures var n := Next(s, a);
            && n.writer == s.writer && n.empty == s.empty && n.empties == s.empties
            && n.diagnostic.output == s.diagnostic.output && n.protocol.output == s.protocol.output
            && n.diagnostic.taken == s.diagnostic.taken && n.protocol.taken == s.protocol.taken
  {
  }

  lemma FollowsAny(output: seq<Written>, empties: seq<bool>, text: string)
    requires |empties| == |output| && AnyFollows(output, empties)
    ensures MayFollow(output, empties, text)
  {
  }

  lemma EmittingJoins(s: System)
    requires Joins(s) && s.writer.Emitting?
    ensures Joins(Next(s, Write))
  {
    var w := s.writer;
    JoinedMore(s.diagnostic.output, s.empties, Written(w.entry.text, w.count), s.empty);
    hide Joined;
  }

  lemma WriterLeaves(s: System)
    requires !s.writer.Emitting?
    ensures Next(s, Write).diagnostic.output == s.diagnostic.output && Next(s, Write).empties == s.empties
    ensures Next(s, Write).writer == WriterStep(s).writer
    ensures !s.writer.Coalescing? ==> Next(s, Write).empty == s.empty
    ensures s.writer.Coalescing? ==> Next(s, Write).empty == (s.diagnostic.queue == [])
  {
  }

  lemma WriterJoins(s: System)
    requires Joins(s) && !s.writer.Emitting?
    requires s.writer.Coalescing? ==> s.writer.count <= COALESCE_BATCH
    ensures Joins(Next(s, Write))
  {
    assert |s.empties| == |s.diagnostic.output|;
    WriterLeaves(s);
    hide Next;
    hide Joined;
    hide MayFollow;
    hide AnyFollows;
    hide Take;
    hide Hand;
    hide Done;
    if s.writer.Diagnose? && s.writer.pending.None? && s.diagnostic.queue != [] {
      FollowsAny(s.diagnostic.output, s.empties, s.diagnostic.queue[0].text);
    }
  }

  lemma JoinsKeep(s: System, a: Action)
    requires Joins(s)
    requires s.writer.Coalescing? ==> s.writer.count <= COALESCE_BATCH
    ensures Joins(Next(s, a))
  {
    if !a.Write? {
      ProducersApart(s, a);
      hide Next;
      hide Joined;
      hide MayFollow;
      hide AnyFollows;
    } else if s.writer.Emitting? {
      EmittingJoins(s);
      hide Next;
      hide Joins;
    } else {
      WriterJoins(s);
      hide Next;
      hide Joins;
    }
  }

  // ---------------------------------------------------------------- the turn of the protocol

  /** One diagnostic at most is written while a protocol line waits; then it is the line's turn. */
  ghost predicate Turn(s: System) {
    && (s.passed > 0 ==> s.protocol.queue != [])
    && match s.writer
       case Top(burst, _) => s.passed <= 1 && (s.passed == 1 ==> burst == 0)
       case Emitted(_) => s.passed <= 1
       case _ => s.passed == 0
  }

  lemma WriterTurn(s: System)
    requires Turn(s)
    ensures Turn(Next(s, Write))
  {
    hide Hand;
    hide Done;
  }

  lemma TurnStays(s: System, n: System)
    requires Turn(s) && n.writer == s.writer
    requires n.passed == 0 || (n.passed == s.passed && n.protocol.queue != [])
    ensures Turn(n)
  {
  }

  lemma ProducersTurn(s: System, a: Action)
    requires !a.Write?
    ensures var n := Next(s, a);
            && n.writer == s.writer
            && (n.passed == 0 || (n.passed == s.passed && n.protocol.queue != []))
  {
    hide ThreadNext;
  }

  lemma TurnKeeps(s: System, a: Action)
    requires Turn(s)
    ensures Turn(Next(s, a))
  {
    hide Turn;
    hide Next;
    if a.Write? {
      WriterTurn(s);
    } else {
      ProducersTurn(s, a);
      TurnStays(s, Next(s, a));
    }
  }

  // ---------------------------------------------------------------- every run

  ghost predicate Inv(s: System) {
    && Burst(s) && (!DiagnosticWaits(s) ==> s.overtaken == 0)
    && Joins(s) && Turn(s)
    && (forall kind :: Numbers(s, kind) && Order(s, kind) && Places(LaneOf(s, kind)))
  }

  lemma Counted(s: System, n: System, kind: Kind)
    requires Numbers(s, kind) && Order(s, kind)
    requires n == s.(overtaken := n.overtaken, empty := n.empty, empties := n.empties, passed := n.passed)
    ensures Numbers(n, kind) && Order(n, kind)
  {
  }

  lemma NextKeeps(s: System, a: Action)
    requires Inv(s)
    ensures Inv(Next(s, a))
  {
    BurstKeeps(s, a);
    hide Burst;
    assert Order(s, Diagnostic);
    JoinsKeep(s, a);
    TurnKeeps(s, a);
    hide Joins;
    hide Turn;
    forall kind: Kind
      ensures Numbers(Next(s, a), kind) && Order(Next(s, a), kind) && Places(LaneOf(Next(s, a), kind))
    {
      StepKeeps(s, a, kind);
    }
  }

  lemma NumbersKeep(s: System, a: Action, kind: Kind)
    requires Numbers(s, kind)
    ensures Numbers(Stepped(s, a), kind)
  {
    hide Numbers;
    hide WriterStep;
    match a
    case Log(k, other, text) =>
      if k < |s.threads| && s.threads[k] == Idle {
        AcceptKeepsNumbers(s, k, other, text, kind);
      }
    case Step(k) =>
      if k < |s.threads| && s.threads[k] != Idle {
        ThreadKeepsNumbers(s, k, kind);
      }
    case Write => WriterKeepsNumbers(s, kind);
  }

  lemma OrderKeeps(s: System, a: Action, kind: Kind)
    requires Order(s, kind)
    ensures Order(Stepped(s, a), kind)
  {
    hide Texts;
    hide Expand;
    hide Held;
    hide WriterStep;
    match a
    case Log(_, _, _) =>
    case Step(_) =>
    case Write =>
      hide Order;
      if kind == Protocol {
        WriterKeepsProtocolOrder(s);
      } else {
        WriterKeepsDiagnosticOrder(s);
      }
  }

  lemma WriterPlaces(s: System, kind: Kind)
    requires Places(LaneOf(s, kind))
    ensures Places(LaneOf(WriterStep(s), kind))
  {
    var lane, after := LaneOf(s, kind), LaneOf(WriterStep(s), kind);
    assert (after.queue == lane.queue && after.taken == lane.taken && after.pushed == lane.pushed)
           || (lane.queue != [] && after == Take(lane));
    if lane.queue != [] {
      TakeKeepsPlaces(lane);
    }
    hide Take;
    hide WriterStep;
  }

  lemma PlacesKeep(s: System, a: Action, kind: Kind)
    requires Places(LaneOf(s, kind))
    ensures Places(LaneOf(Stepped(s, a), kind))
  {
    hide WriterStep;
    match a
    case Log(_, _, _) =>
    case Step(k) =>
      hide Places;
      if k < |s.threads| && s.threads[k] != Idle && s.threads[k].kind == kind {
        ThreadKeepsPlaces(s.threads[k], LaneOf(s, kind));
        hide ThreadNext;
      }
    case Write =>
      hide Places;
      WriterPlaces(s, kind);
  }

  lemma StepKeeps(s: System, a: Action, kind: Kind)
    requires Numbers(s, kind) && Order(s, kind) && Places(LaneOf(s, kind))
    ensures Numbers(Next(s, a), kind) && Order(Next(s, a), kind) && Places(LaneOf(Next(s, a), kind))
  {
    NumbersKeep(s, a, kind);
    OrderKeeps(s, a, kind);
    PlacesKeep(s, a, kind);
    hide Numbers;
    hide Order;
    hide Places;
    hide Stepped;
    Counted(Stepped(s, a), Next(s, a), kind);
  }

  lemma {:induction false} RunKeeps(s: System, actions: seq<Action>)
    requires Inv(s)
    ensures Inv(Run(s, actions))
    decreases |actions|
  {
    if actions != [] {
      RunKeeps(s, actions[..|actions| - 1]);
      NextKeeps(Run(s, actions[..|actions| - 1]), actions[|actions| - 1]);
    }
  }

  lemma InitialHolds(protocolCapacity: nat, diagnosticCapacity: nat, threads: nat)
    ensures Inv(Initial(protocolCapacity, diagnosticCapacity, threads))
  {
    var s := Initial(protocolCapacity, diagnosticCapacity, threads);
    forall kind: Kind
      ensures Numbers(s, kind) && Order(s, kind) && Places(LaneOf(s, kind))
    {
      NoTotal(s.threads, InHand(kind));
      NoTotal(s.threads, Uncounted(kind));
    }
  }

  ghost predicate Quiet(s: System) {
    s.writer.Top? && forall k :: 0 <= k < |s.threads| ==> s.threads[k] == Idle
  }

  /** Under every interleaving of producers and writer, whenever none of them is in the middle of a
      call: in each lane the lines accepted are those handed to the sink, repetitions counted, plus the
      dropped and the outstanding ones; and the outstanding ones are exactly those still queued or kept
      by the writer for its next turn. */
  lemma LinesAreConserved(protocolCapacity: nat, diagnosticCapacity: nat, threads: nat,
                          actions: seq<Action>, kind: Kind)
    requires Quiet(Run(Initial(protocolCapacity, diagnosticCapacity, threads), actions))
    ensures var s := Run(Initial(protocolCapacity, diagnosticCapacity, threads), actions);
            var lane := LaneOf(s, kind);
            && lane.accepted == Lines(lane.output) + lane.dropped + lane.outstanding
            && lane.outstanding == |lane.queue| + (if kind == Diagnostic then One(Pending(s.writer)) else 0)
  {
    InitialHolds(protocolCapacity, diagnosticCapacity, threads);
    RunKeeps(Initial(protocolCapacity, diagnosticCapacity, threads), actions);
    var s := Run(Initial(protocolCapacity, diagnosticCapacity, threads), actions);
    NoTotal(s.threads, InHand(kind));
    NoTotal(s.threads, Uncounted(kind));
    assert Numbers(s, kind);
  }

  /** At every moment of every run: the sink's output, repetitions written out, is what the writer took
      from the lane, in order, up to what it still holds; the writer takes lines in the order in which
      they were pushed, none twice; and no write stands for more than 64 lines. */
  lemma OutputIsWhatWasTaken(protocolCapacity: nat, diagnosticCapacity: nat, threads: nat,
                             actions: seq<Action>, kind: Kind)
    ensures var s := Run(Initial(protocolCapacity, diagnosticCapacity, threads), actions);
            var lane := LaneOf(s, kind);
            && Texts(lane.taken) == Expand(lane.output) + Held(s.writer, kind)
            && (forall i, j :: 0 <= i < j < |lane.taken| ==> lane.taken[i].place < lane.taken[j].place)
            && (forall i :: 0 <= i < |lane.output| ==> 1 <= lane.output[i].count <= COALESCE_BATCH)
  {
    InitialHolds(protocolCapacity, diagnosticCapacity, threads);
    RunKeeps(Initial(protocolCapacity, diagnosticCapacity, threads), actions);
    var s := Run(Initial(protocolCapacity, diagnosticCapacity, threads), actions);
    assert Order(s, kind) && Places(LaneOf(s, kind));
  }

  /** No diagnostic waits while more than 32 protocol lines are written. */
  lemma DiagnosticsGetTheirTurn(protocolCapacity: nat, diagnosticCapacity: nat, threads: nat,
                                actions: seq<Action>)
    ensures Run(Initial(protocolCapacity, diagnosticCapacity, threads), actions).overtaken <= PROTOCOL_BURST
  {
    InitialHolds(protocolCapacity, diagnosticCapacity, threads);
    RunKeeps(Initial(protocolCapacity, diagnosticCapacity, threads), actions);
  }

  /** At every moment of every run: of two diagnostic writes in a row with the same text, the first stands for
      64 lines, or the lane was empty when the writer last looked for more before it. */
  lemma EqualLinesAreJoined(protocolCapacity: nat, diagnosticCapacity: nat, threads: nat, actions: seq<Action>,
                            i: nat)
    ensures var s := Run(Initial(protocolCapacity, diagnosticCapacity, threads), actions);
            var output := s.diagnostic.output;
            && |s.empties| == |output|
            && (i + 1 < |output| && output[i].text == output[i + 1].text ==>
                  output[i].count == COALESCE_BATCH || s.empties[i])
  {
    InitialHolds(protocolCapacity, diagnosticCapacity, threads);
    RunKeeps(Initial(protocolCapacity, diagnosticCapacity, threads), actions);
    var s := Run(Initial(protocolCapacity, diagnosticCapacity, threads), actions);
    assert Joins(s) && Joined(s.diagnostic.output, s.empties);
    hide Run;
    hide Inv;
  }

  /** No protocol line waits while more than one diagnostic write is made. */
  lemma ProtocolGetsItsTurn(protocolCapacity: nat, diagnosticCapacity: nat, threads: nat, actions: seq<Action>)
    ensures Run(Initial(protocolCapacity, diagnosticCapacity, threads), actions).passed <= 1
  {
    InitialHolds(protocolCapacity, diagnosticCapacity, threads);
    RunKeeps(Initial(protocolCapacity, diagnosticCapacity, threads), actions);
  }
}
