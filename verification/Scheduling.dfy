/** Which worker a packet goes to: chunked round robin, one cursor for each packet class. */
module Scheduling {
  import opened Bytes

  datatype PacketClass = Small | Medium | Bulk {
    function Index(): (i: nat)
      ensures i < 3
    {
      match this
      case Small => 0
      case Medium => 1
      case Bulk => 2
    }

    function Chunk(): (n: nat)
      ensures n > 0
    {
      match this
      case Small => 4
      case Medium => 16
      case Bulk => 32
    }
  }

  datatype Cursor = Cursor(current: nat, remaining: nat)

  datatype Schedule = Schedule(workerCount: nat, small: Cursor, medium: Cursor, bulk: Cursor) {
    function At(class_: PacketClass): Cursor {
      match class_
      case Small => small
      case Medium => medium
      case Bulk => bulk
    }

    function With(class_: PacketClass, c: Cursor): Schedule {
      match class_
      case Small => this.(small := c)
      case Medium => this.(medium := c)
      case Bulk => this.(bulk := c)
    }

    /** Every cursor names a worker and is within its chunk. */
    predicate Sound() {
      forall class_: PacketClass ::
        && At(class_).remaining < class_.Chunk()
        && (if workerCount == 0 then At(class_) == START else At(class_).current < workerCount)
    }
  }

  const START: Cursor := Cursor(0, 0)

  function Fresh(workerCount: nat): Schedule {
    Schedule(workerCount, START, START, START)
  }

  /** The cursors start over when the number of workers changes. */
  function Synced(s: Schedule, workerCount: nat): Schedule {
    if s.workerCount == workerCount then s else Fresh(workerCount)
  }

  function Issue(s: Schedule, workerCount: nat, class_: PacketClass): (Schedule, Option<nat>) {
    if workerCount == 0 then (s, None)
    else
      var t := Synced(s, workerCount);
      var c := t.At(class_);
      var remaining := if c.remaining == 0 then class_.Chunk() else c.remaining;
      if remaining > 1 then (t.With(class_, Cursor(c.current, remaining - 1)), Some(c.current))
      else
        var next := if c.current + 1 == workerCount then 0 else c.current + 1;
        (t.With(class_, Cursor(next, 0)), Some(c.current))
  }

  // ---------------------------------------------------------------- the n-th ticket

  /** The slot of ticket `n` of a class, counted from 0. */
  function Slot(n: nat, chunk: nat, workerCount: nat): nat
    requires chunk > 0 && workerCount > 0
  {
    n / chunk % workerCount
  }

  /** The cursor after `n` tickets of the class. */
  function CursorAfter(n: nat, chunk: nat, workerCount: nat): Cursor
    requires chunk > 0 && workerCount > 0
  {
    Cursor(Slot(n, chunk, workerCount), if n % chunk == 0 then 0 else chunk - n % chunk)
  }

  function Occurrences(classes: seq<PacketClass>, class_: PacketClass): nat {
    if classes == [] then 0
    else
      var last := |classes| - 1;
      Occurrences(classes[..last], class_) + (if classes[last] == class_ then 1 else 0)
  }

  /** Tickets for a sequence of packets while the number of workers stays the same. */
  function Serve(s: Schedule, workerCount: nat, classes: seq<PacketClass>): (r: (Schedule, seq<nat>))
    requires workerCount > 0
    ensures |r.1| == |classes|
  {
    if classes == [] then (Synced(s, workerCount), [])
    else
      var last := |classes| - 1;
      var (before, slots) := Serve(s, workerCount, classes[..last]);
      var (after, slot) := Issue(before, workerCount, classes[last]);
      (after, slots + [slot.value])
  }

  lemma Divided(n: nat, d: nat)
    requires d > 0
    ensures if n % d == d - 1 then (n + 1) / d == n / d + 1 && (n + 1) % d == 0
            else (n + 1) / d == n / d && (n + 1) % d == n % d + 1
  {
    var q, r := n / d, n % d;
    if r == d - 1 {
      assert q * d + d == (q + 1) * d;
      Quotient(n + 1, d, q + 1, 0);
    } else {
      Quotient(n + 1, d, q, r + 1);
    }
  }

  lemma SlotStep(n: nat, chunk: nat, workerCount: nat)
    requires chunk > 0 && workerCount > 0
    ensures var slot := Slot(n, chunk, workerCount);
            slot < workerCount
            && Slot(n + 1, chunk, workerCount)
               == if n % chunk != chunk - 1 then slot
                  else if slot + 1 == workerCount then 0 else slot + 1
  {
    Divided(n, chunk);
    Divided(n / chunk, workerCount);
  }

  /** One ticket advances the cursor of its class from `n` to `n + 1` tickets and leaves the others. */
  lemma IssueAdvances(s: Schedule, workerCount: nat, class_: PacketClass, n: nat)
    requires workerCount > 0 && s.workerCount == workerCount
    requires s.At(class_) == CursorAfter(n, class_.Chunk(), workerCount)
    ensures var (after, slot) := Issue(s, workerCount, class_);
            && slot == Some(Slot(n, class_.Chunk(), workerCount))
            && after.workerCount == workerCount
            && after.At(class_) == CursorAfter(n + 1, class_.Chunk(), workerCount)
            && (forall other: PacketClass :: other != class_ ==> after.At(other) == s.At(other))
  {
    SlotStep(n, class_.Chunk(), workerCount);
    Divided(n, class_.Chunk());
    hide Slot;
  }

  ghost predicate ServedTo(s: Schedule, workerCount: nat, classes: seq<PacketClass>)
    requires workerCount > 0
  {
    && s.workerCount == workerCount
    && (forall class_: PacketClass ::
          s.At(class_) == CursorAfter(Occurrences(classes, class_), class_.Chunk(), workerCount))
  }

  /** However the classes interleave: while the number of workers stays the same, the ticket with
      number n of a class goes to slot (n / chunk) mod workers. */
  lemma {:induction false} NthTicket(s: Schedule, workerCount: nat, classes: seq<PacketClass>)
    requires workerCount > 0 && Synced(s, workerCount) == Fresh(workerCount)
    ensures var (after, slots) := Serve(s, workerCount, classes);
            && ServedTo(after, workerCount, classes)
            && (forall k :: 0 <= k < |classes| ==>
                  slots[k] == Slot(Occurrences(classes[..k], classes[k]), classes[k].Chunk(), workerCount))
    decreases |classes|
  {
    hide Issue;
    hide Slot;
    if classes == [] {
      SlotZero(workerCount);
    } else {
      hide CursorAfter;
      var last := |classes| - 1;
      var init := classes[..last];
      NthTicket(s, workerCount, init);
      ServedOne(Serve(s, workerCount, init).0, workerCount, init, classes[last]);
      assert classes == init + [classes[last]];
      hide ServedTo;
      assert forall k :: 0 <= k < last ==> classes[..k] == init[..k];
    }
  }

  lemma ServedOne(s: Schedule, workerCount: nat, init: seq<PacketClass>, class_: PacketClass)
    requires workerCount > 0 && ServedTo(s, workerCount, init)
    ensures var (after, slot) := Issue(s, workerCount, class_);
            && ServedTo(after, workerCount, init + [class_])
            && slot == Some(Slot(Occurrences(init, class_), class_.Chunk(), workerCount))
  {
    OccurrencesLast(init, class_);
    hide Occurrences;
    IssueAdvances(s, workerCount, class_, Occurrences(init, class_));
    hide Issue;
    hide CursorAfter;
    hide Slot;
    var after := Issue(s, workerCount, class_).0;
    forall other: PacketClass
      ensures after.At(other)
              == CursorAfter(Occurrences(init + [class_], other), other.Chunk(), workerCount)
    {
      if other != class_ {
        assert after.At(other) == s.At(other);
      }
    }
  }

  lemma OccurrencesLast(init: seq<PacketClass>, last: PacketClass)
    ensures forall other: PacketClass ::
              Occurrences(init + [last], other) == Occurrences(init, other) + (if last == other then 1 else 0)
  {
    assert (init + [last])[..|init|] == init;
  }

  lemma SlotZero(workerCount: nat)
    requires workerCount > 0
    ensures forall class_: PacketClass :: CursorAfter(0, class_.Chunk(), workerCount) == START
  {
  }

  /** How many of the first `n` tickets of a class go to a slot. */
  function Share(n: nat, chunk: nat, workerCount: nat, slot: nat): nat
    requires chunk > 0 && workerCount > 0
  {
    if n == 0 then 0
    else Share(n - 1, chunk, workerCount, slot) + (if Slot(n - 1, chunk, workerCount) == slot then 1 else 0)
  }

  /** Whole rounds, then one chunk for each slot passed in this round, then the open chunk. */
  function Portion(n: nat, chunk: nat, workerCount: nat, slot: nat): nat
    requires chunk > 0 && workerCount > 0
  {
    Dealt(n / chunk / workerCount, n / chunk % workerCount, n % chunk, chunk, slot)
  }

  function Dealt(rounds: nat, current: nat, inChunk: nat, chunk: nat, slot: nat): nat {
    rounds * chunk + (if slot < current then chunk else if slot == current then inChunk else 0)
  }

  lemma PortionStep(n: nat, chunk: nat, workerCount: nat, slot: nat)
    requires chunk > 0 && slot < workerCount
    ensures Portion(n + 1, chunk, workerCount, slot)
            == Portion(n, chunk, workerCount, slot) + (if Slot(n, chunk, workerCount) == slot then 1 else 0)
  {
    Divided(n, chunk);
    Divided(n / chunk, workerCount);
    var rounds := n / chunk / workerCount;
    DealtStep(rounds, n / chunk % workerCount, n % chunk, chunk, workerCount, slot);
    hide Dealt;
  }

  lemma DealtStep(rounds: nat, current: nat, inChunk: nat, chunk: nat, workerCount: nat, slot: nat)
    requires inChunk < chunk && slot < workerCount && current < workerCount
    ensures Dealt(rounds, current, inChunk, chunk, slot) + (if current == slot then 1 else 0)
            == if inChunk + 1 < chunk then Dealt(rounds, current, inChunk + 1, chunk, slot)
               else if current + 1 < workerCount then Dealt(rounds, current + 1, 0, chunk, slot)
               else Dealt(rounds + 1, 0, 0, chunk, slot)
  {
    assert (rounds + 1) * chunk == rounds * chunk + chunk;
  }

  lemma PortionZero(chunk: nat, workerCount: nat, slot: nat)
    requires chunk > 0 && workerCount > 0
    ensures Portion(0, chunk, workerCount, slot) == 0
  {
    Quotient(0, chunk, 0, 0);
    Quotient(0, workerCount, 0, 0);
  }

  lemma {:induction false} ShareIsPortion(n: nat, chunk: nat, workerCount: nat, slot: nat)
    requires chunk > 0 && slot < workerCount
    ensures Share(n, chunk, workerCount, slot) == Portion(n, chunk, workerCount, slot)
  {
    hide Portion;
    hide Slot;
    if n == 0 {
      PortionZero(chunk, workerCount, slot);
    } else {
      ShareIsPortion(n - 1, chunk, workerCount, slot);
      PortionStep(n - 1, chunk, workerCount, slot);
    }
  }

  /** At every moment two workers have received numbers of packets of a class that differ by at most
      one chunk, and after whole rounds they have received the same. */
  lemma SharesAreEven(n: nat, chunk: nat, workerCount: nat, a: nat, b: nat)
    requires chunk > 0 && a < workerCount && b < workerCount
    ensures Share(n, chunk, workerCount, a) <= Share(n, chunk, workerCount, b) + chunk
    ensures n % chunk == 0 && n / chunk % workerCount == 0 ==>
              Share(n, chunk, workerCount, a) == Share(n, chunk, workerCount, b)
                                              == n / chunk / workerCount * chunk
  {
    ShareIsPortion(n, chunk, workerCount, a);
    ShareIsPortion(n, chunk, workerCount, b);
  }

  // ---------------------------------------------------------------- the scheduler

  lemma IssueIsSound(s: Schedule, workerCount: nat, class_: PacketClass)
    requires s.Sound()
    ensures var (after, slot) := Issue(s, workerCount, class_);
            after.Sound() && (slot.None? <==> workerCount == 0) && (slot.Some? ==> slot.value < workerCount)
  {
    var after := Issue(s, workerCount, class_).0;
    if workerCount > 0 {
      var t := Synced(s, workerCount);
      assert t.workerCount == workerCount && t.Sound();
      forall c: PacketClass
        ensures after.At(c).remaining < c.Chunk() && after.At(c).current < workerCount
      {
        assert c != class_ ==> after.At(c) == t.At(c);
        assert t.At(c).current < workerCount && t.At(c).remaining < c.Chunk();
      }
    }
  }

  class FastPathScheduler<W> {
    var workers: seq<W>
    var workerCount: nat
    var cursors: array<Cursor>

    ghost predicate Valid()
      reads this, cursors
    {
      cursors.Length == 3 && View().Sound() && workerCount == |workers|
    }

    ghost function View(): Schedule
      reads this, cursors
      requires cursors.Length == 3
    {
      Schedule(workerCount, cursors[0], cursors[1], cursors[2])
    }

    constructor ()
      ensures Valid() && fresh(cursors) && View() == Fresh(0) && workers == []
    {
      workers, workerCount, cursors := [], 0, new Cursor[3](_ => START);
    }

    method SyncWorkerCount(n: nat)
      requires cursors.Length == 3
      modifies this`workerCount, cursors
      ensures View() == Synced(old(View()), n)
    {
      if workerCount != n {
        workerCount := n;
        cursors[0], cursors[1], cursors[2] := START, START, START;
      }
    }

    method BeginForClass(n: nat, class_: PacketClass) returns (slot: Option<nat>)
      requires cursors.Length == 3
      modifies this`workerCount, cursors
      ensures (View(), slot) == Issue(old(View()), n, class_)
    {
      if n == 0 {
        return None;
      }
      SyncWorkerCount(n);
      var i := class_.Index();
      var c := cursors[i];
      if c.remaining == 0 {
        c := c.(remaining := class_.Chunk());
      }
      slot := Some(c.current);
      c := c.(remaining := c.remaining - 1);
      if c.remaining == 0 {
        c := c.(current := c.current + 1);
        if c.current == n {
          c := c.(current := 0);
        }
      }
      cursors[i] := c;
    }

    /** Changes of the worker list are taken over where a chunk of the class begins. Whatever lists are
        passed in whatever order, the ticket names a worker of the list in use. */
    method Begin(source: seq<W>, class_: PacketClass) returns (slot: Option<nat>)
      requires Valid()
      modifies this, cursors
      ensures Valid() && cursors == old(cursors)
      ensures workers == if old(View()).At(class_).remaining == 0 then source else old(workers)
      ensures slot.None? <==> workers == []
      ensures slot.Some? ==> slot.value < |workers|
      ensures (View(), slot) == Issue(Synced(old(View()), |workers|), |workers|, class_)
    {
      ghost var before := View();
      if cursors[class_.Index()].remaining == 0 {
        workers := source;
        SyncWorkerCount(|workers|);
      }
      IssueIsSound(Synced(before, |workers|), |workers|, class_);
      slot := BeginForClass(workerCount, class_);
    }
  }
}
