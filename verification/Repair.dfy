/** Repair commands: which workers they restart, for one caller at a time and for any interleaving of
    callers. */
module Repair {
  import opened Tally

  /** The counters of one worker, and what happened to it: the sequences written to `last`, and the
      sequences of all commands that have been decided for it. */
  datatype Slot = Slot(restarts: nat, credentials: nat, last: nat, ready: nat,
                       installed: seq<nat>, decided: seq<nat>)

  const NEW: Slot := Slot(0, 0, 0, 0, [], [])

  function MaxOf(s: seq<nat>): nat {
    if s == [] then 0
    else
      var rest := MaxOf(s[..|s| - 1]);
      if s[|s| - 1] > rest then s[|s| - 1] else rest
  }

  /** Worker 0 does not exist. */
  predicate HasSlot(slots: seq<Slot>, id: nat) {
    0 < id < |slots|
  }

  // ---------------------------------------------------------------- one caller at a time

  /** The state a repair command leaves in a slot it names. */
  function Repaired(slot: Slot, sequence: nat): Slot {
    if sequence <= slot.last then slot.(decided := slot.decided + [sequence])
    else
      var reset := slot.last != 0 && slot.ready < slot.last;
      slot.(restarts := slot.restarts + 1, credentials := slot.credentials + (if reset then 1 else 0),
            last := sequence, installed := slot.installed + [sequence], decided := slot.decided + [sequence])
  }

  /** What a command may change of a slot: nothing but the record of the decision when the slot is not
      named or has seen this sequence or a later one; otherwise it is repaired once. */
  ghost predicate Outcome(before: Slot, after: Slot, named: bool, sequence: nat) {
    if !named || sequence <= before.last then after == before.(decided := after.decided)
    else
      && after.last == sequence && after.ready == before.ready && after.restarts == before.restarts + 1
      && after.credentials == before.credentials + (if before.last != 0 && before.ready < before.last then 1 else 0)
      && after.installed == before.installed + [sequence]
  }

  lemma OutcomeAgain(before: Slot, after: Slot, named: bool, sequence: nat)
    requires Outcome(before, after, named, sequence)
    ensures Outcome(before, Repaired(after, sequence), true, sequence)
  {
  }

  function SumRestarts(slots: seq<Slot>): nat {
    if slots == [] then 0 else SumRestarts(slots[..|slots| - 1]) + slots[|slots| - 1].restarts
  }

  function SumCredentials(slots: seq<Slot>): nat {
    if slots == [] then 0 else SumCredentials(slots[..|slots| - 1]) + slots[|slots| - 1].credentials
  }

  lemma {:induction false} SumsUpdate(slots: seq<Slot>, i: nat, slot: Slot)
    requires i < |slots|
    ensures SumRestarts(slots[i := slot]) + slots[i].restarts == SumRestarts(slots) + slot.restarts
    ensures SumCredentials(slots[i := slot]) + slots[i].credentials == SumCredentials(slots) + slot.credentials
    decreases |slots|
  {
    var last := |slots| - 1;
    if i == last {
      assert slots[i := slot][..last] == slots[..last];
    } else {
      SumsUpdate(slots[..last], i, slot);
      assert slots[i := slot][..last] == slots[..last][i := slot];
    }
  }

  /** How often a list of worker ids names a worker that exists. */
  function Mentions(slots: nat, ids: seq<nat>): nat {
    if ids == [] then 0
    else Mentions(slots, ids[..|ids| - 1]) + (if 0 < ids[|ids| - 1] < slots then 1 else 0)
  }

  /** A command, worker by worker in the order in which it names them. */
  function RepairedAll(slots: seq<Slot>, sequence: nat, ids: seq<nat>): (r: seq<Slot>)
    ensures |r| == |slots|
  {
    if ids == [] then slots
    else
      var before := RepairedAll(slots, sequence, ids[..|ids| - 1]);
      var id := ids[|ids| - 1];
      if HasSlot(before, id) then before[id := Repaired(before[id], sequence)] else before
  }

  lemma RepairedMore(slots: seq<Slot>, sequence: nat, ids: seq<nat>, k: nat)
    requires k < |ids|
    ensures var before := RepairedAll(slots, sequence, ids[..k]);
            RepairedAll(slots, sequence, ids[..k + 1])
            == if HasSlot(before, ids[k]) then before[ids[k] := Repaired(before[ids[k]], sequence)] else before
  {
    assert ids[..k + 1][..k] == ids[..k] && ids[..k + 1][k] == ids[k];
    hide Repaired;
  }

  /** A command does to each worker what it may do to it. */
  lemma {:induction false} RepairedOutcome(slots: seq<Slot>, sequence: nat, ids: seq<nat>)
    ensures var after := RepairedAll(slots, sequence, ids);
            forall i :: 0 <= i < |slots| ==> Outcome(slots[i], after[i], i != 0 && i in ids, sequence)
    decreases |ids|
  {
    if ids != [] {
      var before := ids[..|ids| - 1];
      var id := ids[|ids| - 1];
      RepairedOutcome(slots, sequence, before);
      assert ids == before + [id];
      var middle := RepairedAll(slots, sequence, before);
      if HasSlot(middle, id) {
        OutcomeAgain(slots[id], middle[id], id in before, sequence);
      }
      hide Outcome;
      hide Repaired;
    }
  }

  class RepairState {
    var slots: seq<Slot>

    constructor (desiredCount: nat)
      ensures |slots| == desiredCount + 1 && forall i :: 0 <= i < |slots| ==> slots[i] == NEW
    {
      slots := seq(desiredCount + 1, _ => NEW);
    }

    method MarkReady(id: nat)
      modifies this
      ensures slots == if HasSlot(old(slots), id)
                       then old(slots)[id := old(slots)[id].(ready := old(slots)[id].last)] else old(slots)
    {
      if HasSlot(slots, id) {
        slots := slots[id := slots[id].(ready := slots[id].last)];
      }
    }

    /** A worker is restarted when the command is newer than all before it, once, however often the
        command names it; and it gets new credentials when it never recovered from the one before. */
    method ApplyRepair(sequence: nat, ids: seq<nat>) returns (restarts: nat, resets: nat)
      modifies this
      ensures |slots| == |old(slots)| && slots == RepairedAll(old(slots), sequence, ids)
      ensures forall i :: 0 <= i < |slots| ==>
                Outcome(old(slots)[i], slots[i], i != 0 && i in ids, sequence)
      ensures SumRestarts(slots) == SumRestarts(old(slots)) + restarts
      ensures SumCredentials(slots) == SumCredentials(old(slots)) + resets
    {
      restarts, resets := 0, 0;
      hide Outcome;
      var k := 0;
      while k < |ids|
        invariant k <= |ids| && |slots| == |old(slots)| && slots == RepairedAll(old(slots), sequence, ids[..k])
        invariant SumRestarts(slots) == SumRestarts(old(slots)) + restarts
        invariant SumCredentials(slots) == SumCredentials(old(slots)) + resets
      {
        var id := ids[k];
        RepairedMore(old(slots), sequence, ids, k);
        if HasSlot(slots, id) {
          var slot := slots[id];
          SumsUpdate(slots, id, Repaired(slot, sequence));
          if sequence > slot.last {
            if slot.last != 0 && slot.ready < slot.last {
              resets := resets + 1;
            }
            restarts := restarts + 1;
          }
          slots := slots[id := Repaired(slot, sequence)];
        }
        k := k + 1;
      }
      assert ids[..k] == ids;
      RepairedOutcome(old(slots), sequence, ids);
    }

    /** Every named worker is ready up to the sequence at least; each mention counts. */
    method ApplyAlive(sequence: nat, ids: seq<nat>) returns (applied: nat)
      modifies this
      ensures |slots| == |old(slots)| && applied == Mentions(|slots|, ids)
      ensures forall i :: 0 <= i < |slots| ==>
                slots[i] == if i == 0 || i !in ids || sequence <= old(slots)[i].ready then old(slots)[i]
                            else old(slots)[i].(ready := sequence)
    {
      applied := 0;
      var k := 0;
      while k < |ids|
        invariant k <= |ids| && |slots| == |old(slots)| && applied == Mentions(|slots|, ids[..k])
        invariant forall i :: 0 <= i < |slots| ==>
          slots[i] == if i == 0 || i !in ids[..k] || sequence <= old(slots)[i].ready then old(slots)[i]
                      else old(slots)[i].(ready := sequence)
      {
        var id := ids[k];
        assert ids[..k + 1] == ids[..k] + [id];
        assert ids[..k + 1][..k] == ids[..k];
        if HasSlot(slots, id) {
          if slots[id].ready < sequence {
            slots := slots[id := slots[id].(ready := sequence)];
          }
          applied := applied + 1;
        }
        k := k + 1;
      }
      assert ids[..k] == ids;
    }
  }

  // ---------------------------------------------------------------- all interleavings

  /** Where a repair call stands with the worker it has come to. */
  datatype Progress = Begin | Loaded(current: nat) | Swapped(previous: nat) | Resetting | Restarting

  datatype Thread =
    | Idle
    | Applying(sequence: nat, ids: seq<nat>, restarts: nat, resets: nat, at: Progress)
    | Reviving(sequence: nat, ids: seq<nat>)
    | Marking(id: nat, sequence: nat)

  /** `reported` and `reportedResets` add up what all finished calls have returned. */
  datatype System = System(slots: seq<Slot>, threads: seq<Thread>, reported: nat, reportedResets: nat)

  /** A call begins on an idle thread, or a thread takes its next atomic step. */
  datatype Action =
    | Repair(thread: nat, sequence: nat, ids: seq<nat>)
    | Alive(thread: nat, sequence: nat, ids: seq<nat>)
    | Ready(thread: nat, id: nat)
    | Step(thread: nat)

  function Initial(desiredCount: nat, threads: nat): System {
    System(seq(desiredCount + 1, _ => NEW), seq(threads, _ => Idle), 0, 0)
  }

  function SetThread(s: System, k: nat, t: Thread): System
    requires k < |s.threads|
  {
    s.(threads := s.threads[k := t])
  }

  function Next(s: System, a: Action): System {
    var k := a.thread;
    if k >= |s.threads| then s
    else
      match a
      case Repair(_, sequence, ids) =>
        if s.threads[k] == Idle then SetThread(s, k, Applying(sequence, ids, 0, 0, Begin)) else s
      case Alive(_, sequence, ids) =>
        if s.threads[k] == Idle then SetThread(s, k, Reviving(sequence, ids)) else s
      case Ready(_, id) =>
        if s.threads[k] == Idle && HasSlot(s.slots, id) then
          SetThread(s, k, Marking(id, s.slots[id].last))
        else s
      case Step(_) => ThreadStep(s, k)
  }

  function ThreadStep(s: System, k: nat): System
    requires k < |s.threads|
  {
    match s.threads[k]
    case Idle => s
    case Marking(id, sequence) =>
      var idle := SetThread(s, k, Idle);
      if HasSlot(s.slots, id) then idle.(slots := s.slots[id := s.slots[id].(ready := sequence)]) else idle
    case Reviving(sequence, ids) =>
      if ids == [] then SetThread(s, k, Idle)
      else
        var next := SetThread(s, k, Reviving(sequence, ids[1..]));
        if HasSlot(s.slots, ids[0]) && s.slots[ids[0]].ready < sequence then
          next.(slots := s.slots[ids[0] := s.slots[ids[0]].(ready := sequence)])
        else next
    case Applying(sequence, ids, restarts, resets, at) =>
      if ids == [] then
        SetThread(s, k, Idle).(reported := s.reported + restarts, reportedResets := s.reportedResets + resets)
      else if !HasSlot(s.slots, ids[0]) then
        SetThread(s, k, Applying(sequence, ids[1..], restarts, resets, Begin))
      else ApplyStep(s, k)
  }

  /** A step of a repair call at an existing worker. */
  function ApplyStep(s: System, k: nat): System
    requires k < |s.threads| && s.threads[k].Applying? && s.threads[k].ids != []
    requires HasSlot(s.slots, s.threads[k].ids[0])
  {
    var t := s.threads[k];
    var id := t.ids[0];
    var slot := s.slots[id];
    match t.at
    case Begin => SetThread(s, k, t.(at := Loaded(slot.last)))
    case Loaded(current) =>
      if t.sequence <= current then
        SetThread(s, k, t.(ids := t.ids[1..], at := Begin))
        .(slots := s.slots[id := slot.(decided := slot.decided + [t.sequence])])
      else if slot.last == current then
        SetThread(s, k, t.(at := Swapped(current)))
        .(slots := s.slots[id := slot.(last := t.sequence, installed := slot.installed + [t.sequence],
                                       decided := slot.decided + [t.sequence])])
      else SetThread(s, k, t.(at := Loaded(slot.last)))
    case Swapped(previous) =>
      SetThread(s, k, t.(at := if previous != 0 && slot.ready < previous then Resetting else Restarting))
    case Resetting =>
      SetThread(s, k, t.(at := Restarting, resets := t.resets + 1))
      .(slots := s.slots[id := slot.(credentials := slot.credentials + 1)])
    case Restarting =>
      SetThread(s, k, t.(ids := t.ids[1..], at := Begin, restarts := t.restarts + 1))
      .(slots := s.slots[id := slot.(restarts := slot.restarts + 1)])
  }

  function Run(s: System, actions: seq<Action>): System {
    if actions == [] then s else Next(Run(s, actions[..|actions| - 1]), actions[|actions| - 1])
  }

  // ---------------------------------------------------------------- what every step keeps

  predicate At(t: Thread, id: nat) {
    t.Applying? && t.ids != [] && t.ids[0] == id
  }

  /** Calls that have installed their sequence in a slot and still owe it the restart. */
  function Owing(id: nat): Thread -> nat {
    (t: Thread) => if At(t, id) && (t.at.Swapped? || t.at.Resetting? || t.at.Restarting?) then 1 else 0
  }

  /** Calls that may still reset the credentials of a slot. */
  function MayReset(id: nat): Thread -> nat {
    (t: Thread) => if At(t, id) && ((t.at.Swapped? && t.at.previous != 0) || t.at.Resetting?) then 1 else 0
  }

  function Restarts(): Thread -> nat {
    (t: Thread) => if t.Applying? then t.restarts else 0
  }

  function Resets(): Thread -> nat {
    (t: Thread) => if t.Applying? then t.resets else 0
  }

  ghost predicate Increasing(s: seq<nat>) {
    forall i, j :: 0 <= i < j < |s| ==> s[i] < s[j]
  }

  /** The history of a slot: it goes up strictly, from nothing to the greatest sequence ever asked. */
  ghost predicate History(slot: Slot) {
    && Increasing(slot.installed)
    && slot.last == MaxOf(slot.decided)
    && (if slot.installed == [] then slot.last == 0
        else 0 < slot.installed[0] && slot.last == slot.installed[|slot.installed| - 1])
  }

  ghost predicate SlotOk(s: System, id: nat)
    requires id < |s.slots|
  {
    var slot := s.slots[id];
    && History(slot)
    && |slot.installed| == slot.restarts + Total(s.threads, Owing(id))
    && slot.credentials + Total(s.threads, MayReset(id))
       <= (if slot.installed == [] then 0 else |slot.installed| - 1)
  }

  ghost predicate ThreadOk(slots: seq<Slot>, t: Thread) {
    t.Applying? && t.at != Begin ==>
      && t.ids != [] && HasSlot(slots, t.ids[0])
      && (t.at.Loaded? ==> t.at.current <= slots[t.ids[0]].last)
  }

  ghost predicate SumsOk(s: System) {
    && SumRestarts(s.slots) == s.reported + Total(s.threads, Restarts())
    && SumCredentials(s.slots) == s.reportedResets + Total(s.threads, Resets())
  }

  ghost predicate Inv(s: System) {
    && (forall id :: 0 <= id < |s.slots| ==> SlotOk(s, id))
    && (forall k :: 0 <= k < |s.threads| ==> ThreadOk(s.slots, s.threads[k]))
    && SumsOk(s)
  }

  /** Thread `k` moves on and slot `id` changes: what has to be shown of the two. */
  ghost predicate Moves(s: System, n: System, k: nat, id: nat)
    requires k < |s.threads| && id < |s.slots|
  {
    && |n.threads| == |s.threads| && n.threads == s.threads[k := n.threads[k]]
    && |n.slots| == |s.slots| && n.slots == s.slots[id := n.slots[id]]
    && var t, u, a, b := s.threads[k], n.threads[k], s.slots[id], n.slots[id];
       && a.last <= b.last && History(b) && ThreadOk(n.slots, u)
       && |b.installed| - b.restarts - Owing(id)(u) == |a.installed| - a.restarts - Owing(id)(t)
       && Less(b) - b.credentials - MayReset(id)(u) >= Less(a) - a.credentials - MayReset(id)(t)
       && (forall other :: other != id ==>
             Owing(other)(u) == Owing(other)(t) && MayReset(other)(u) == MayReset(other)(t))
       && b.restarts - Restarts()(u) - n.reported == a.restarts - Restarts()(t) - s.reported
       && b.credentials - Resets()(u) - n.reportedResets == a.credentials - Resets()(t) - s.reportedResets
  }

  /** Every installed sequence but the first can cost the credentials once. */
  function Less(slot: Slot): nat {
    if slot.installed == [] then 0 else |slot.installed| - 1
  }

  lemma MovesKeep(s: System, n: System, k: nat, id: nat)
    requires Inv(s) && k < |s.threads| && id < |s.slots| && Moves(s, n, k, id)
    ensures Inv(n)
  {
    var u := n.threads[k];
    hide History;
    hide HasSlot;
    forall i | 0 <= i < |n.slots|
      ensures SlotOk(n, i)
    {
      assert SlotOk(s, i);
      TotalUpdate(s.threads, k, u, Owing(i));
      TotalUpdate(s.threads, k, u, MayReset(i));
      hide Owing;
      hide MayReset;
      hide ThreadOk;
    }
    TotalUpdate(s.threads, k, u, Restarts());
    TotalUpdate(s.threads, k, u, Resets());
    SumsUpdate(s.slots, id, n.slots[id]);
    hide Owing;
    hide MayReset;
    hide SlotOk;
    OthersOk(s, n, k, id);
  }

  lemma OthersOk(s: System, n: System, k: nat, id: nat)
    requires k < |s.threads| && id < |s.slots|
    requires |n.threads| == |s.threads| && n.threads == s.threads[k := n.threads[k]]
    requires |n.slots| == |s.slots| && n.slots == s.slots[id := n.slots[id]]
    requires s.slots[id].last <= n.slots[id].last && ThreadOk(n.slots, n.threads[k])
    requires forall j :: 0 <= j < |s.threads| ==> ThreadOk(s.slots, s.threads[j])
    ensures forall j :: 0 <= j < |n.threads| ==> ThreadOk(n.slots, n.threads[j])
  {
    forall j | 0 <= j < |n.threads|
      ensures ThreadOk(n.slots, n.threads[j])
    {
      assert ThreadOk(s.slots, s.threads[j]);
    }
  }

  lemma HistoryGrows(slot: Slot, sequence: nat)
    requires History(slot)
    ensures sequence <= slot.last ==> History(slot.(decided := slot.decided + [sequence]))
    ensures sequence > slot.last ==>
              History(slot.(last := sequence, installed := slot.installed + [sequence],
                            decided := slot.decided + [sequence]))
  {
    assert (slot.decided + [sequence])[..|slot.decided|] == slot.decided;
    hide MaxOf;
    assert MaxOf(slot.decided + [sequence]) == if sequence > slot.last then sequence else slot.last by {
      MaxLast(slot.decided, sequence);
    }
  }

  lemma MaxLast(s: seq<nat>, n: nat)
    ensures MaxOf(s + [n]) == if n > MaxOf(s) then n else MaxOf(s)
  {
    assert (s + [n])[..|s|] == s;
  }

  lemma ApplyKeeps(s: System, k: nat)
    requires Inv(s) && k < |s.threads| && s.threads[k].Applying? && s.threads[k].ids != []
    requires HasSlot(s.slots, s.threads[k].ids[0])
    ensures Inv(ApplyStep(s, k))
  {
    var t, id, n := s.threads[k], s.threads[k].ids[0], ApplyStep(s, k);
    assert SlotOk(s, id) && ThreadOk(s.slots, t);
    HistoryGrows(s.slots[id], t.sequence);
    hide SlotOk;
    hide History;
    assert Moves(s, n, k, id);
    MovesKeep(s, n, k, id);
  }

  lemma NextKeeps(s: System, a: Action)
    requires Inv(s) && 0 < |s.slots|
    ensures Inv(Next(s, a)) && |Next(s, a).slots| == |s.slots|
  {
    var k, n := a.thread, Next(s, a);
    if k < |s.threads| {
      var t := s.threads[k];
      assert ThreadOk(s.slots, t);
      if a.Step? && t.Applying? && t.ids != [] && HasSlot(s.slots, t.ids[0]) {
        ApplyKeeps(s, k);
      } else if a.Step? && t.Applying? {
        SkipKeeps(s, k);
      } else if n != s {
        CallKeeps(s, a);
      }
    }
  }

  lemma CallKeeps(s: System, a: Action)
    requires Inv(s) && 0 < |s.slots| && a.thread < |s.threads|
    requires a.Step? ==> !s.threads[a.thread].Applying?
    ensures Inv(Next(s, a)) && |Next(s, a).slots| == |s.slots|
  {
    if a.Step? {
      ReadyStepKeeps(s, a.thread);
    } else if Next(s, a) != s {
      var n := Next(s, a);
      assert SlotOk(s, 0) && ThreadOk(s.slots, n.threads[a.thread]);
      hide SlotOk;
      hide History;
      assert Moves(s, n, a.thread, 0);
      MovesKeep(s, n, a.thread, 0);
    }
  }

  /** Steps of the calls that only move the ready sequence of a slot. */
  lemma ReadyStepKeeps(s: System, k: nat)
    requires Inv(s) && 0 < |s.slots| && k < |s.threads| && !s.threads[k].Applying?
    ensures Inv(ThreadStep(s, k)) && |ThreadStep(s, k).slots| == |s.slots|
  {
    var n, t := ThreadStep(s, k), s.threads[k];
    if n != s {
      var id := if t.Marking? && HasSlot(s.slots, t.id) then t.id
                else if t.Reviving? && t.ids != [] && HasSlot(s.slots, t.ids[0]) then t.ids[0] else 0;
      assert SlotOk(s, id);
      hide SlotOk;
      ReadyApart(s.slots[id], n.slots[id].ready);
      hide History;
      assert n.slots[id] == s.slots[id].(ready := n.slots[id].ready);
      assert Moves(s, n, k, id);
      MovesKeep(s, n, k, id);
    }
  }

  lemma ReadyApart(slot: Slot, ready: nat)
    requires History(slot)
    ensures History(slot.(ready := ready))
  {
  }

  lemma SkipKeeps(s: System, k: nat)
    requires Inv(s) && 0 < |s.slots| && k < |s.threads| && s.threads[k].Applying?
    requires s.threads[k].ids == [] || !HasSlot(s.slots, s.threads[k].ids[0])
    ensures Inv(ThreadStep(s, k)) && |ThreadStep(s, k).slots| == |s.slots|
  {
    assert SlotOk(s, 0) && ThreadOk(s.slots, s.threads[k]);
    hide SlotOk;
    hide History;
    assert Moves(s, ThreadStep(s, k), k, 0);
    MovesKeep(s, ThreadStep(s, k), k, 0);
  }

  lemma {:induction false} InitialHolds(desiredCount: nat, threads: nat)
    ensures Inv(Initial(desiredCount, threads))
  {
    NoSums(desiredCount + 1);
    forall weight: Thread -> nat | weight(Idle) == 0
      ensures Total(seq(threads, _ => Idle), weight) == 0
    {
      NoTotal(seq(threads, _ => Idle), weight);
    }
  }

  lemma {:induction false} NoSums(n: nat)
    ensures SumRestarts(seq(n, _ => NEW)) == 0 && SumCredentials(seq(n, _ => NEW)) == 0
  {
    if n > 0 {
      NoSums(n - 1);
      assert seq(n, _ => NEW)[..n - 1] == seq(n - 1, _ => NEW);
    }
  }

  lemma {:induction false} RunKeeps(s: System, actions: seq<Action>)
    requires Inv(s) && 0 < |s.slots|
    ensures Inv(Run(s, actions)) && |Run(s, actions).slots| == |s.slots|
    decreases |actions|
  {
    if actions != [] {
      RunKeeps(s, actions[..|actions| - 1]);
      NextKeeps(Run(s, actions[..|actions| - 1]), actions[|actions| - 1]);
    }
  }

  /** However repair, alive and ready calls interleave, at every moment: each slot has taken strictly
      increasing sequences, so each at most once, and stands at the greatest one decided for it; no
      slot has been restarted more often than that; and the restarts and resets of all slots are those
      the calls have reported or will report. */
  lemma AtMostOnce(desiredCount: nat, threads: nat, actions: seq<Action>)
    ensures var s := Run(Initial(desiredCount, threads), actions);
            && (forall id :: 0 <= id < |s.slots| ==>
                  && Increasing(s.slots[id].installed)
                  && s.slots[id].last == MaxOf(s.slots[id].decided)
                  && s.slots[id].restarts <= |s.slots[id].installed|)
            && SumRestarts(s.slots) == s.reported + Total(s.threads, Restarts())
            && SumCredentials(s.slots) == s.reportedResets + Total(s.threads, Resets())
  {
    InitialHolds(desiredCount, threads);
    RunKeeps(Initial(desiredCount, threads), actions);
    var s := Run(Initial(desiredCount, threads), actions);
    forall id | 0 <= id < |s.slots|
      ensures Increasing(s.slots[id].installed) && s.slots[id].last == MaxOf(s.slots[id].decided)
              && s.slots[id].restarts <= |s.slots[id].installed|
    {
      assert SlotOk(s, id);
    }
    hide Increasing;
  }

  ghost predicate Quiet(s: System) {
    forall k :: 0 <= k < |s.threads| ==> s.threads[k] == Idle
  }

  /** When no call is under way: every installed sequence has restarted its worker exactly once, the
      callers have been told of exactly these restarts, and the credentials were reset less often than
      the worker was restarted, unless neither ever happened. */
  lemma QuietCounts(desiredCount: nat, threads: nat, actions: seq<Action>)
    requires Quiet(Run(Initial(desiredCount, threads), actions))
    ensures var s := Run(Initial(desiredCount, threads), actions);
            && (forall id :: 0 <= id < |s.slots| ==>
                  var slot := s.slots[id];
                  && slot.restarts == |slot.installed|
                  && (slot.credentials < slot.restarts || (slot.credentials == 0 && slot.restarts == 0)))
            && SumRestarts(s.slots) == s.reported
            && SumCredentials(s.slots) == s.reportedResets
  {
    InitialHolds(desiredCount, threads);
    RunKeeps(Initial(desiredCount, threads), actions);
    var s := Run(Initial(desiredCount, threads), actions);
    NoTotal(s.threads, Restarts());
    NoTotal(s.threads, Resets());
    forall id | 0 <= id < |s.slots|
      ensures var slot := s.slots[id];
              && slot.restarts == |slot.installed|
              && (slot.credentials < slot.restarts || (slot.credentials == 0 && slot.restarts == 0))
    {
      NoTotal(s.threads, Owing(id));
      assert SlotOk(s, id);
    }
  }

  // ---------------------------------------------------------------- a call alone

  function Steps(s: System, k: nat, steps: nat): System
    decreases steps
  {
    if steps == 0 then s else Steps(Next(s, Step(k)), k, steps - 1)
  }

  lemma {:induction false} StepsMore(s: System, k: nat, a: nat, b: nat)
    ensures Steps(Steps(s, k, a), k, b) == Steps(s, k, a + b)
    decreases a
  {
    hide Next;
    if a > 0 {
      StepsMore(Next(s, Step(k)), k, a - 1, b);
    }
  }

  /** Where a call that nobody interrupts stands before the worker at `ids[0]`. */
  ghost predicate Arrived(s: System, k: nat, sequence: nat, ids: seq<nat>) {
    k < |s.threads| && s.threads[k].Applying? && s.threads[k].sequence == sequence && s.threads[k].ids == ids
    && s.threads[k].at == Begin
  }

  /** What it has counted so far and what others have reported. */
  ghost predicate Counts(s: System, t: System, k: nat, restarts: int, resets: int)
    requires k < |s.threads| && s.threads[k].Applying? && k < |t.threads| && t.threads[k].Applying?
  {
    && t.reported == s.reported && t.reportedResets == s.reportedResets
    && t.threads[k].restarts == s.threads[k].restarts + restarts
    && t.threads[k].resets == s.threads[k].resets + resets
  }

  lemma UnknownAlone(s: System, k: nat, sequence: nat, ids: seq<nat>)
    requires Arrived(s, k, sequence, ids) && ids != [] && !HasSlot(s.slots, ids[0])
    ensures var t := Next(s, Step(k));
            Arrived(t, k, sequence, ids[1..]) && t.slots == s.slots && Counts(s, t, k, 0, 0)
  {
  }

  lemma OldAlone(s: System, k: nat, sequence: nat, ids: seq<nat>)
    requires Arrived(s, k, sequence, ids) && ids != [] && HasSlot(s.slots, ids[0])
    requires sequence <= s.slots[ids[0]].last
    ensures var t := Next(Next(s, Step(k)), Step(k));
            && Arrived(t, k, sequence, ids[1..])
            && t.slots == s.slots[ids[0] := Repaired(s.slots[ids[0]], sequence)] && Counts(s, t, k, 0, 0)
  {
    var a := Next(s, Step(k));
    assert a.slots == s.slots && a.threads[k] == s.threads[k].(at := Loaded(s.slots[ids[0]].last));
  }

  lemma NewAlone(s: System, k: nat, sequence: nat, ids: seq<nat>)
    requires Arrived(s, k, sequence, ids) && ids != [] && HasSlot(s.slots, ids[0])
    requires sequence > s.slots[ids[0]].last
    ensures var slot := s.slots[ids[0]];
            var reset := slot.last != 0 && slot.ready < slot.last;
            var t := Steps(s, k, if reset then 5 else 4);
            && Arrived(t, k, sequence, ids[1..])
            && t.slots == s.slots[ids[0] := Repaired(slot, sequence)]
            && Counts(s, t, k, 1, if reset then 1 else 0)
  {
    var id := ids[0];
    var slot := s.slots[id];
    var reset := slot.last != 0 && slot.ready < slot.last;
    var a := Next(s, Step(k));
    assert a.slots == s.slots && a.threads[k] == s.threads[k].(at := Loaded(slot.last));
    var b := Next(a, Step(k));
    var swapped := slot.(last := sequence, installed := slot.installed + [sequence],
                         decided := slot.decided + [sequence]);
    assert b.slots == s.slots[id := swapped] && b.threads[k] == s.threads[k].(at := Swapped(slot.last));
    var c := Next(b, Step(k));
    assert c.slots == b.slots && c.threads[k] == s.threads[k].(at := if reset then Resetting else Restarting);
    var d := Next(c, Step(k));
    var e := Next(d, Step(k));
    assert Steps(e, k, 0) == e && Steps(d, k, 1) == e && Steps(c, k, 2) == e && Steps(b, k, 3) == e
           && Steps(a, k, 4) == e && Steps(s, k, 5) == e;
    assert Steps(d, k, 0) == d && Steps(c, k, 1) == d && Steps(b, k, 2) == d && Steps(a, k, 3) == d
           && Steps(s, k, 4) == d;
  }

  function RepairedOne(slots: seq<Slot>, sequence: nat, id: nat): (r: seq<Slot>)
    ensures |r| == |slots|
  {
    if HasSlot(slots, id) then slots[id := Repaired(slots[id], sequence)] else slots
  }

  lemma {:induction false} RepairedFirst(slots: seq<Slot>, sequence: nat, ids: seq<nat>)
    requires ids != []
    ensures RepairedAll(slots, sequence, ids)
            == RepairedAll(RepairedOne(slots, sequence, ids[0]), sequence, ids[1..])
    decreases |ids|
  {
    hide Repaired;
    var last := |ids| - 1;
    if last == 0 {
      assert ids[..0] == [] && ids[1..] == [];
    } else {
      RepairedFirst(slots, sequence, ids[..last]);
      assert ids[..last][1..] == ids[1..][..last - 1] && ids[1..][last - 1] == ids[last];
    }
  }

  /** One worker of a call that nobody interrupts: as the call does it in one go. */
  lemma WorkerAlone(s: System, k: nat, sequence: nat, ids: seq<nat>) returns (n: nat)
    requires Arrived(s, k, sequence, ids) && ids != []
    ensures var t := Steps(s, k, n);
            && Arrived(t, k, sequence, ids[1..])
            && t.slots == RepairedOne(s.slots, sequence, ids[0])
            && Counts(s, t, k, SumRestarts(t.slots) - SumRestarts(s.slots),
                      SumCredentials(t.slots) - SumCredentials(s.slots))
  {
    var id := ids[0];
    var a := Next(s, Step(k));
    var b := Next(a, Step(k));
    assert Steps(a, k, 0) == a && Steps(s, k, 1) == a;
    assert Steps(b, k, 0) == b && Steps(a, k, 1) == b && Steps(s, k, 2) == b;
    if !HasSlot(s.slots, id) {
      UnknownAlone(s, k, sequence, ids);
      n := 1;
    } else {
      SumsUpdate(s.slots, id, Repaired(s.slots[id], sequence));
      if sequence <= s.slots[id].last {
        OldAlone(s, k, sequence, ids);
        n := 2;
      } else {
        NewAlone(s, k, sequence, ids);
        n := if s.slots[id].last != 0 && s.slots[id].ready < s.slots[id].last then 5 else 4;
      }
    }
    hide Next;
    hide Steps;
    hide SumRestarts;
    hide SumCredentials;
  }

  /** The call is over: the thread idle, and reported what it did. */
  ghost predicate Finished(s: System, t: System, k: nat, slots: seq<Slot>)
    requires k < |s.threads| && s.threads[k].Applying?
  {
    && k < |t.threads| && t.threads[k] == Idle && t.slots == slots
    && t.reported + SumRestarts(s.slots) == s.reported + s.threads[k].restarts + SumRestarts(slots)
    && t.reportedResets + SumCredentials(s.slots)
       == s.reportedResets + s.threads[k].resets + SumCredentials(slots)
  }

  lemma NoMore(s: System, k: nat, sequence: nat)
    requires Arrived(s, k, sequence, [])
    ensures Finished(s, Steps(s, k, 1), k, s.slots)
  {
    var a := Next(s, Step(k));
    assert Steps(a, k, 0) == a && Steps(s, k, 1) == a;
  }

  lemma {:induction false} WorkersAlone(s: System, k: nat, sequence: nat, ids: seq<nat>)
    requires Arrived(s, k, sequence, ids)
    ensures exists n: nat :: Finished(s, Steps(s, k, n), k, RepairedAll(s.slots, sequence, ids))
    decreases |ids|
  {
    hide Next;
    hide Steps;
    hide RepairedAll;
    if ids == [] {
      NoMore(s, k, sequence);
      NobodyNamed(s.slots, sequence);
      assert Finished(s, Steps(s, k, 1), k, RepairedAll(s.slots, sequence, ids));
    } else {
      var a := WorkerAlone(s, k, sequence, ids);
      var t := Steps(s, k, a);
      RepairedFirst(s.slots, sequence, ids);
      WorkersAlone(t, k, sequence, ids[1..]);
      var n: nat :| Finished(t, Steps(t, k, n), k, RepairedAll(t.slots, sequence, ids[1..]));
      StepsMore(s, k, a, n);
      assert Finished(s, Steps(s, k, a + n), k, RepairedAll(s.slots, sequence, ids));
    }
  }

  lemma NobodyNamed(slots: seq<Slot>, sequence: nat)
    ensures RepairedAll(slots, sequence, []) == slots
  {
  }

  /** The atomic steps of a repair call that nobody interrupts leave the workers as the call in one go does,
      and report the restarts and resets they made. */
  lemma CallAlone(s: System, k: nat, sequence: nat, ids: seq<nat>)
    requires k < |s.threads| && s.threads[k] == Idle
    ensures var begun := Next(s, Action.Repair(k, sequence, ids));
            exists n: nat :: (var t := Steps(begun, k, n);
              && k < |t.threads| && t.threads[k] == Idle
              && t.slots == RepairedAll(s.slots, sequence, ids)
              && t.reported == s.reported + SumRestarts(t.slots) - SumRestarts(s.slots)
              && t.reportedResets == s.reportedResets + SumCredentials(t.slots) - SumCredentials(s.slots))
  {
    var begun := Next(s, Action.Repair(k, sequence, ids));
    assert Arrived(begun, k, sequence, ids) && begun.slots == s.slots && begun.reported == s.reported
           && begun.reportedResets == s.reportedResets && begun.threads[k].restarts == 0
           && begun.threads[k].resets == 0;
    hide Next;
    hide Steps;
    hide RepairedAll;
    WorkersAlone(begun, k, sequence, ids);
    var n: nat :| Finished(begun, Steps(begun, k, n), k, RepairedAll(begun.slots, sequence, ids));
    var t := Steps(begun, k, n);
  }
}
