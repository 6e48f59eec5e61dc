/** The writer of the logger alone, and a producer alone: what they get done when nobody interrupts them. */
module LoggingAlone {
  import opened Bytes
  import opened Tally
  import opened Logging

  // ---------------------------------------------------------------- the writer alone

  function Writes(s: System, steps: nat): System
    decreases steps
  {
    if steps == 0 then s else Writes(Next(s, Write), steps - 1)
  }

  lemma {:induction false} WritesMore(s: System, a: nat, b: nat)
    ensures Writes(Writes(s, a), b) == Writes(s, a + b)
    decreases a
  {
    hide Next;
    if a > 0 {
      WritesMore(Next(s, Write), a - 1, b);
    }
  }

  /** The writes of n equal lines: 64 at a time, and the rest. */
  function Batches(text: string, n: nat): (writes: seq<Written>)
    ensures |writes| == (n + 63) / 64
  {
    if n == 0 then [] else if n <= 64 then [Written(text, n)] else [Written(text, 64)] + Batches(text, n - 64)
  }

  ghost predicate AllEqual(queue: seq<Entry>, text: string) {
    forall i :: 0 <= i < |queue| ==> queue[i].text == text
  }

  /** The writer alone, with nothing but equal diagnostics queued. */
  ghost predicate Alone(s: System, text: string, n: nat) {
    s.protocol.queue == [] && |s.diagnostic.queue| == n && AllEqual(s.diagnostic.queue, text)
  }

  function Least(a: nat, b: nat): nat {
    if a < b then a else b
  }

  /** A batch is about to be written. */
  ghost predicate BatchJoined(s: System, t: System, text: string, left: nat, count: nat) {
    && Alone(t, text, left) && t.writer.Emitting? && t.writer.pending.None?
    && t.writer.entry.text == text && t.writer.count == count
    && t.diagnostic.output == s.diagnostic.output
  }

  lemma FirstWrites(s: System)
    ensures Writes(s, 1) == Next(s, Write) && Writes(s, 2) == Next(Next(s, Write), Write)
  {
    var t := Next(s, Write);
    assert Writes(s, 1) == Writes(t, 0) == t;
    assert Writes(s, 2) == Writes(t, 1) == Writes(Next(t, Write), 0) == Next(t, Write);
    hide Next;
  }

  lemma JoinNone(s: System, text: string, n: nat)
    requires Alone(s, text, n) && s.writer.Coalescing? && s.writer.entry.text == text
    requires n == 0 || s.writer.count >= 64
    ensures BatchJoined(s, Next(s, Write), text, n, s.writer.count)
  {
  }

  lemma JoinOne(s: System, text: string, n: nat)
    requires Alone(s, text, n) && s.writer.Coalescing? && s.writer.entry.text == text
    requires n > 0 && s.writer.count < 64
    ensures var t := Next(Next(s, Write), Write);
            && Alone(t, text, n - 1) && t.writer == Coalescing(s.writer.entry, s.writer.count + 1)
            && t.diagnostic.output == s.diagnostic.output
  {
    assert forall i :: 0 <= i < n - 1 ==> s.diagnostic.queue[1..][i] == s.diagnostic.queue[i + 1];
    var x := Next(s, Write);
    assert x.writer == Coalesced(s.writer.entry, s.writer.count + 1) && x.protocol.queue == [];
    assert x.diagnostic.queue == s.diagnostic.queue[1..] && x.diagnostic.output == s.diagnostic.output;
  }

  /** The writer joins what is left of a batch. */
  lemma {:induction false} JoinsBatch(s: System, text: string, n: nat)
    requires Alone(s, text, n) && s.writer.Coalescing? && s.writer.entry.text == text
    requires s.writer.count <= 64
    ensures var m := Least(n, 64 - s.writer.count);
            exists k: nat :: BatchJoined(s, Writes(s, k), text, n - m, s.writer.count + m)
    decreases n
  {
    hide Alone;
    hide Next;
    hide Writes;
    FirstWrites(s);
    if n == 0 || s.writer.count == 64 {
      JoinNone(s, text, n);
      assert BatchJoined(s, Writes(s, 1), text, n, s.writer.count);
    } else {
      JoinOne(s, text, n);
      var t := Writes(s, 2);
      JoinsBatch(t, text, n - 1);
      var m := Least(n - 1, 64 - t.writer.count);
      var k: nat :| BatchJoined(t, Writes(t, k), text, n - 1 - m, t.writer.count + m);
      WritesMore(s, 2, k);
      assert BatchJoined(s, Writes(s, 2 + k), text, n - (m + 1), s.writer.count + (m + 1));
    }
  }

  lemma BatchBegins(s: System, text: string, n: nat)
    requires Alone(s, text, n) && n > 0 && s.writer.Top? && s.writer.pending.None?
    ensures var t := Writes(s, 2);
            && Alone(t, text, n - 1) && t.writer.Coalescing? && t.writer.entry.text == text
            && t.writer.count == 1 && t.diagnostic.output == s.diagnostic.output
  {
    FirstWrites(s);
    assert forall i :: 0 <= i < n - 1 ==> s.diagnostic.queue[1..][i] == s.diagnostic.queue[i + 1];
    hide Writes;
  }

  lemma BatchEnds(s: System, x: System, text: string, left: nat, count: nat)
    requires BatchJoined(s, x, text, left, count)
    ensures BatchWritten(s, Writes(x, 2), text, left, [Written(text, count)])
  {
    FirstWrites(x);
    hide Writes;
  }

  ghost predicate BatchWritten(s: System, t: System, text: string, left: nat, writes: seq<Written>) {
    && Alone(t, text, left) && t.writer.Top? && t.writer.pending.None?
    && t.diagnostic.output == s.diagnostic.output + writes
  }

  lemma OneBatch(s: System, text: string, n: nat) returns (k: nat)
    requires Alone(s, text, n) && n > 0 && s.writer.Top? && s.writer.pending.None?
    ensures var m := Least(n, 64); BatchWritten(s, Writes(s, k), text, n - m, [Written(text, m)])
  {
    hide Alone;
    hide Next;
    hide Writes;
    BatchBegins(s, text, n);
    var x := Writes(s, 2);
    JoinsBatch(x, text, n - 1);
    var m := Least(n - 1, 63);
    var j: nat :| BatchJoined(x, Writes(x, j), text, n - 1 - m, 1 + m);
    BatchEnds(x, Writes(x, j), text, n - 1 - m, 1 + m);
    WritesMore(s, 2, j);
    WritesMore(s, 2 + j, 2);
    k := 2 + j + 2;
  }

  /** With n equal diagnostics queued and nobody else at work, the writer makes exactly (n + 63) / 64 writes
      of them, all full but the last. */
  lemma {:induction false} EqualLinesAlone(s: System, text: string, n: nat)
    requires Alone(s, text, n) && s.writer.Top? && s.writer.pending.None?
    ensures exists k: nat :: BatchWritten(s, Writes(s, k), text, 0, Batches(text, n))
    decreases n
  {
    hide Alone;
    hide Next;
    hide Writes;
    if n == 0 {
      NoWrites(s);
      assert BatchWritten(s, Writes(s, 0), text, 0, Batches(text, 0));
    } else {
      var j := OneBatch(s, text, n);
      var t := Writes(s, j);
      var m := Least(n, 64);
      EqualLinesAlone(t, text, n - m);
      var k: nat :| BatchWritten(t, Writes(t, k), text, 0, Batches(text, n - m));
      WritesMore(s, j, k);
      assert Batches(text, n) == [Written(text, m)] + Batches(text, n - m);
      assert BatchWritten(s, Writes(s, j + k), text, 0, Batches(text, n));
    }
  }

  lemma NoWrites(s: System)
    ensures Writes(s, 0) == s
  {
  }

  // ---------------------------------------------------------------- the writer gets done

  /** Nothing is left to write. */
  predicate Drained(s: System) {
    s.protocol.queue == [] && s.diagnostic.queue == [] && s.writer.Top? && s.writer.pending.None?
  }

  /** How much the writer has to do with what is in its hands. */
  function Phase(s: System): nat {
    (match s.writer
     case Top(_, _) => 3
     case LineTaken(_, _, _, _) => 5
     case LineWritten(_, _, _) => 4
     case Diagnose(_, _) => 2
     case LastLook(_) => if s.diagnostic.queue == [] then 1 else 4
     case Coalescing(_, _) => 6
     case Coalesced(_, _) => 7
     case Emitting(_, _, _) => 5
     case Emitted(_) => 4)
    + (if Pending(s.writer).Some? then 8 else 0)
  }

  function Work(s: System): nat {
    10 * (|s.protocol.queue| + |s.diagnostic.queue|) + Phase(s)
  }

  lemma StepShrinks(s: System)
    requires !Drained(s)
    requires !(s.writer.LastLook? && s.protocol.queue == [] && s.diagnostic.queue == [])
    ensures Work(WriterStep(s)) < Work(s)
  {
  }

  lemma WorkShrinks(s: System)
    requires !Drained(s)
    requires !(s.writer.LastLook? && s.protocol.queue == [] && s.diagnostic.queue == [])
    ensures Work(Next(s, Write)) < Work(s)
  {
    StepShrinks(s);
    NotesLeave(s, Write);
    hide WriterStep;
    hide Next;
    hide Drained;
  }

  lemma {:induction false} WriterDrains(s: System)
    ensures exists k: nat :: Drained(Writes(s, k))
    decreases Work(s)
  {
    if Drained(s) {
      NoWrites(s);
      assert Drained(Writes(s, 0));
    } else {
      FirstWrites(s);
      var n := Next(s, Write);
      if s.writer.LastLook? && s.protocol.queue == [] && s.diagnostic.queue == [] {
        assert Drained(Writes(s, 1));
      } else {
        WorkShrinks(s);
        hide Work;
        hide Next;
        WriterDrains(n);
        var k: nat :| Drained(Writes(n, k));
        WritesMore(s, 1, k);
        assert Drained(Writes(s, 1 + k));
      }
    }
  }

  lemma WriterThreads(s: System)
    ensures Next(s, Write).threads == s.threads
  {
    NotesLeave(s, Write);
    hide Next;
  }

  lemma {:induction false} WritesKeep(s: System, k: nat)
    requires Inv(s)
    ensures Inv(Writes(s, k)) && Writes(s, k).threads == s.threads
    decreases k
  {
    if k > 0 {
      NextKeeps(s, Write);
      WriterThreads(s);
      hide Inv;
      hide Next;
      WritesKeep(Next(s, Write), k - 1);
    }
  }

  ghost predicate AllIdle(s: System) {
    forall k :: 0 <= k < |s.threads| ==> s.threads[k] == Idle
  }

  /** Every accepted line was handed to the sink or counted as dropped, and nothing is outstanding. */
  ghost predicate Settled(lane: Lane) {
    lane.accepted == Lines(lane.output) + lane.dropped && lane.outstanding == 0
  }

  /** From any moment of any run: once no producer is in the middle of a call, the writer alone empties both
      lanes; and then every line accepted was handed to the sink or counted as dropped. */
  lemma EverythingIsWritten(protocolCapacity: nat, diagnosticCapacity: nat, threads: nat, actions: seq<Action>)
    requires AllIdle(Run(Initial(protocolCapacity, diagnosticCapacity, threads), actions))
    ensures var s := Run(Initial(protocolCapacity, diagnosticCapacity, threads), actions);
            exists k: nat :: Drained(Writes(s, k))
                             && Settled(Writes(s, k).protocol) && Settled(Writes(s, k).diagnostic)
  {
    hide *;
    var s := Run(Initial(protocolCapacity, diagnosticCapacity, threads), actions);
    InitialHolds(protocolCapacity, diagnosticCapacity, threads);
    RunKeeps(Initial(protocolCapacity, diagnosticCapacity, threads), actions);
    WriterDrains(s);
    var k: nat :| Drained(Writes(s, k));
    WritesKeep(s, k);
    IdleAlike(s, Writes(s, k));
    DrainedNumbers(Writes(s, k));
    assert Drained(Writes(s, k)) && Settled(Writes(s, k).protocol) && Settled(Writes(s, k).diagnostic);
  }

  lemma IdleAlike(s: System, t: System)
    requires AllIdle(s) && t.threads == s.threads
    ensures AllIdle(t)
  {
  }

  lemma DrainedNumbers(t: System)
    requires Inv(t) && Drained(t) && AllIdle(t)
    ensures Settled(t.protocol) && Settled(t.diagnostic)
  {
    assert Numbers(t, Protocol) && Numbers(t, Diagnostic);
    hide Inv;
    forall kind: Kind ensures Settled(LaneOf(t, kind)) {
      NoTotal(t.threads, InHand(kind));
      NoTotal(t.threads, Uncounted(kind));
      assert kind == Protocol || kind == Diagnostic;
    }
    assert LaneOf(t, Protocol) == t.protocol && LaneOf(t, Diagnostic) == t.diagnostic;
  }

  // ---------------------------------------------------------------- a producer alone, step by step

  function Steps(s: System, thread: nat, steps: nat): System
    decreases steps
  {
    if steps == 0 then s else Steps(Next(s, Step(thread)), thread, steps - 1)
  }

  /** A lane after one line more: behind the others, for the oldest when the lane is full. */
  ghost predicate Placed(before: Lane, after: Lane, text: string) {
    var full := |before.queue| == before.capacity;
    && (full ==> before.queue != [])
    && after.queue == (if full then before.queue[1..] else before.queue) + [Entry(text, before.pushed)]
    && after.dropped == before.dropped + (if full then 1 else 0)
    && after.outstanding == before.outstanding + (if full then 0 else 1)
    && after.accepted == before.accepted + 1 && after.pushed == before.pushed + 1
  }

  lemma StepIs(s: System, k: nat)
    requires k < |s.threads| && s.threads[k] != Idle
    ensures var kind := s.threads[k].kind;
            var (next, lane) := ThreadNext(s.threads[k], LaneOf(s, kind));
            var n := Next(s, Step(k));
            |n.threads| == |s.threads| && n.threads[k] == next && LaneOf(n, kind) == lane
  {
    hide ThreadNext;
  }

  lemma AcceptIs(s: System, k: nat, kind: Kind, text: string)
    requires k < |s.threads| && s.threads[k] == Idle
    ensures var lane := LaneOf(s, kind);
            var n := Next(s, Log(k, kind, text));
            && |n.threads| == |s.threads| && n.threads[k] == Pushing(kind, text, 0)
            && LaneOf(n, kind) == lane.(outstanding := lane.outstanding + 1, accepted := lane.accepted + 1)
  {
  }

  function Five(t: Thread, lane: Lane, steps: nat): (Thread, Lane)
    decreases steps
  {
    if steps == 0 || t == Idle then (t, lane)
    else Five(ThreadNext(t, lane).0, ThreadNext(t, lane).1, steps - 1)
  }

  /** The steps of one thread, on its own lane. */
  lemma {:induction false} StepsAlone(s: System, k: nat, kind: Kind, steps: nat)
    requires k < |s.threads| && (s.threads[k] == Idle || s.threads[k].kind == kind)
    ensures var t := Steps(s, k, steps);
            |t.threads| == |s.threads| && (t.threads[k], LaneOf(t, kind)) == Five(s.threads[k], LaneOf(s, kind), steps)
    decreases steps
  {
    if steps > 0 {
      if s.threads[k] == Idle {
        IdleStays(s, k, kind);
      } else {
        StepIs(s, k);
        NextKind(s.threads[k], LaneOf(s, kind));
      }
      hide Next;
      hide ThreadNext;
      hide LaneOf;
      StepsAlone(Next(s, Step(k)), k, kind, steps - 1);
    }
  }

  lemma IdleStays(s: System, k: nat, kind: Kind)
    requires k < |s.threads| && s.threads[k] == Idle
    ensures var n := Next(s, Step(k)); n.threads == s.threads && LaneOf(n, kind) == LaneOf(s, kind)
  {
  }

  /** Its five steps on a full lane, or its one step on another. */
  lemma FiveSteps(before: Lane, kind: Kind, text: string)
    requires 0 < before.capacity && |before.queue| <= before.capacity
    ensures var lane := before.(outstanding := before.outstanding + 1, accepted := before.accepted + 1);
            var (t, after) := Five(Pushing(kind, text, 0), lane, 5);
            t == Idle && Placed(before, after, text)
  {
    var lane := before.(outstanding := before.outstanding + 1, accepted := before.accepted + 1);
    var t0 := Pushing(kind, text, 0);
    var (t1, l1) := ThreadNext(t0, lane);
    assert Five(t0, lane, 5) == Five(t1, l1, 4);
    if |before.queue| < before.capacity {
      assert t1 == Idle;
    } else {
      var (t2, l2) := ThreadNext(t1, l1);
      assert Five(t1, l1, 4) == Five(t2, l2, 3);
      var (t3, l3) := ThreadNext(t2, l2);
      assert Five(t2, l2, 3) == Five(t3, l3, 2);
      var (t4, l4) := ThreadNext(t3, l3);
      assert Five(t3, l3, 2) == Five(t4, l4, 1);
      var (t5, l5) := ThreadNext(t4, l4);
      assert Five(t4, l4, 1) == (t5, l5);
    }
    hide Five;
  }

  /** A producer that nobody interrupts places its line at the end of the lane, at the cost of the oldest line
      when the lane is full: the atomic steps do what the call does. */
  lemma ProducerAlone(s: System, k: nat, kind: Kind, text: string)
    requires k < |s.threads| && s.threads[k] == Idle
    requires 0 < LaneOf(s, kind).capacity && |LaneOf(s, kind).queue| <= LaneOf(s, kind).capacity
    ensures var t := Steps(Next(s, Log(k, kind, text)), k, 5);
            && |t.threads| == |s.threads| && t.threads[k] == Idle
            && Placed(LaneOf(s, kind), LaneOf(t, kind), text)
  {
    hide *;
    AcceptIs(s, k, kind, text);
    FiveSteps(LaneOf(s, kind), kind, text);
    StepsAlone(Next(s, Log(k, kind, text)), k, kind, 5);
  }
}
