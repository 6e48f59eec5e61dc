/** The driver's event pump: it drains the client's events in order and folds them into its own
    snapshot of the connection. */
module TurnDriver {
  import opened Bytes
  import opened Addresses
  import opened TurnRequests
  import opened TurnState
  import opened TurnEvents
  import opened TurnSafety
  import opened TurnLifecycle
  import opened TurnDrains
  import opened TurnCore

  ghost predicate EntersDestroying(events: seq<Event>) {
    exists e :: e in events && e.StateChanged? && e.state == Destroying
  }

  /** The snapshot after one pump: the fold, and a terminal reason when the allocation ended without
      the driver closing. */
  ghost function Pumped(c: Config, snap: Snapshot, events: seq<Event>, closing: bool): Snapshot {
    var folded := Fold(c, snap, events, closing);
    if EntersDestroying(events) then Fail(folded, closing) else folded
  }

  /** The pump stops at a relay announcement that no longer agrees with the client's getter. */
  predicate Disagrees(e: Event, relay: Option<SocketAddr>) {
    e.RelayAddress? && (ToSocketAddr(e.address).None? || ToSocketAddr(e.address) != relay)
  }

  /** How many events come before the first that disagrees. */
  function Agreeing(events: seq<Event>, relay: Option<SocketAddr>): (n: nat)
    ensures n <= |events|
    ensures n < |events| ==> Disagrees(events[n], relay)
    ensures forall i :: 0 <= i < n ==> !Disagrees(events[i], relay)
  {
    if events == [] || Disagrees(events[0], relay) then 0 else 1 + Agreeing(events[1..], relay)
  }

  datatype Pumping = Pumping(core: Core, snap: Snapshot, ok: bool)

  /** One pump over the events that wait: all of them, or up to the first that disagrees, which is taken
      but not folded. */
  ghost function PumpOn(c: Config, core: Core, snap: Snapshot, closing: bool): Pumping {
    var n := Agreeing(core.events, core.relay);
    if n == |core.events| then
      Pumping(core.(events := [], drained := core.drained + core.events),
              Pumped(c, snap, core.events, closing), true)
    else
      Pumping(core.(events := core.events[n + 1..], drained := core.drained + core.events[..n + 1]),
              Fold(c, snap, core.events[..n], closing), false)
  }

  /** One event more. */
  lemma FoldMore(c: Config, snap: Snapshot, events: seq<Event>, n: nat, closing: bool)
    requires n < |events|
    ensures Fold(c, snap, events[..n + 1], closing)
            == FoldEvent(c, Fold(c, snap, events[..n], closing), events[n], closing)
    ensures EntersDestroying(events[..n + 1])
            <==> EntersDestroying(events[..n]) || (events[n].StateChanged? && events[n].state == Destroying)
    ensures events[..n + 1] == events[..n] + [events[n]]
  {
    assert events[..n + 1][..n] == events[..n] && events[..n + 1][n] == events[n];
    assert events[n] in events[..n + 1];
    assert forall e :: e in events[..n] ==> e in events[..n + 1];
    hide FoldEvent;
  }

  lemma NothingFolded(c: Config, snap: Snapshot, events: seq<Event>, closing: bool)
    ensures Fold(c, snap, events[..0], closing) == snap
  {
  }

  class Driver {
    const c: Config
    var state: State
    var relay: Option<SocketAddr>
    var channel: Option<u16>
    var failed: bool

    ghost function View(): Snapshot
      reads this
    {
      Snapshot(state, relay, channel, failed)
    }

    constructor (c: Config)
      ensures this.c == c && View() == FRESH
    {
      this.c := c;
      state, relay, channel, failed := Null, None, None, false;
    }

    method NoteFailure(closing: bool)
      modifies this`failed
      ensures View() == Fail(old(View()), closing)
    {
      if !closing {
        failed := true;
      }
    }

    method Consume(e: Event, closing: bool)
      modifies this
      ensures View() == FoldEvent(c, old(View()), e, closing)
    {
      match e {
        case StateChanged(to, _) =>
          state := to;
          if to != Ready {
            channel := None;
          }
          if to == Deallocated || to == Destroying {
            relay := None;
          }
        case RequestComplete(method_, status, code, _, _, _) =>
          if (status != NoError || code != 0) && !RetryableMethod(method_) {
            NoteFailure(closing);
          }
        case ChannelBound(bound, address) =>
          if ToSocketAddr(address) != Some(c.peer) {
            NoteFailure(closing);
          } else if !(0x4000 <= bound <= 0x7fff) {
            NoteFailure(closing);
          } else {
            channel := Some(bound);
          }
        case RelayAddress(address) => relay := ToSocketAddr(address);
        case ControlOverflow => NoteFailure(closing);
        case ForcedDestroy(_) => NoteFailure(closing);
        case EventOverflow => NoteFailure(closing);
        case ResponseError(_, _, _, _) =>
        case RebindExhausted =>
      }
    }

    /** Takes and folds events up to the first relay announcement that disagrees with the getter. */
    method Drain(core: NativeCore, closing: bool) returns (ok: bool, unexpected: bool)
      modifies this, core`events, core`drained
      ensures var all, n := old(core.events), Agreeing(old(core.events), core.relay);
              && (ok <==> n == |all|)
              && core.events == (if ok then [] else all[n + 1..])
              && core.drained == old(core.drained) + (if ok then all else all[..n + 1])
              && View() == Fold(c, old(View()), all[..n], closing)
              && (unexpected <==> EntersDestroying(all[..n]))
    {
      hide FoldEvent;
      hide View;
      hide NativeCore.View;
      hide TurnState.PullEvent;
      ghost var all, done := core.events, 0;
      ghost var n := Agreeing(all, core.relay);
      hide Agreeing;
      unexpected := false;
      hide Fold;
      assert !EntersDestroying(all[..0]);
      hide EntersDestroying;
      NothingFolded(c, old(View()), all, closing);
      while core.events != []
        invariant 0 <= done <= n
        invariant core.events == all[done..]
        invariant core.drained == old(core.drained) + all[..done]
        invariant View() == Fold(c, old(View()), all[..done], closing)
        invariant unexpected <==> EntersDestroying(all[..done])
        decreases |core.events|
      {
        var pulled := core.PullEvent();
        var e := pulled.value;
        assert e == all[done];
        FoldMore(c, old(View()), all, done, closing);
        if e.RelayAddress? && (ToSocketAddr(e.address).None? || core.relay != ToSocketAddr(e.address)) {
          assert done == n;
          return false, unexpected;
        }
        Consume(e, closing);
        if e.StateChanged? && e.state == Destroying {
          unexpected := true;
        }
        done := done + 1;
      }
      assert all[..done] == all;
      ok := true;
    }

    /** Drains the client into the snapshot; stops at a relay announcement that disagrees with the
        getter. */
    method Pump(core: NativeCore, closing: bool) returns (ok: bool)
      modifies this, core`events, core`drained
      ensures Pumping(core.View(), View(), ok) == PumpOn(c, old(core.View()), old(View()), closing)
    {
      hide Fold;
      hide View;
      hide Agreeing;
      ghost var all := core.events;
      var unexpected;
      ok, unexpected := Drain(core, closing);
      assert all[..|all|] == all;
      hide EntersDestroying;
      if ok && unexpected {
        NoteFailure(closing);
      }
    }

    /** What the driver loop makes of a pump: one that stops is a failure. */
    method PumpOrFail(core: NativeCore, closing: bool)
      modifies this, core`events, core`drained
      ensures var p := PumpOn(c, old(core.View()), old(View()), closing);
              core.View() == p.core && View() == if p.ok then p.snap else Fail(p.snap, closing)
    {
      hide NativeCore.View;
      var ok := Pump(core, closing);
      if !ok {
        NoteFailure(closing);
      }
    }
  }

  // ---------------------------------------------------------------- a driver's session

  /** Calls to the client, then a pump. Only the pump takes events. */
  datatype Round = Round(actions: seq<Action>, closing: bool)

  ghost predicate Proper(round: Round) {
    TakeEvent !in round.actions && forall a :: a in round.actions ==> Admissible(a)
  }

  /** A client, its driver, and whether a pump has stopped early. */
  datatype Session = Session(core: Core, snap: Snapshot, stopped: bool)

  ghost function After(c: Config, z: Session, round: Round): Session {
    var p := PumpOn(c, Run(c, z.core, round.actions), z.snap, round.closing);
    Session(p.core, if p.ok then p.snap else Fail(p.snap, round.closing), z.stopped || !p.ok)
  }

  ghost function Play(c: Config, rounds: seq<Round>): Session {
    if rounds == [] then Session(Initial(), FRESH, false)
    else After(c, Play(c, rounds[..|rounds| - 1]), rounds[|rounds| - 1])
  }

  ghost predicate SameView(a: Snapshot, b: Snapshot) {
    a.state == b.state && a.relay == b.relay && a.channel == b.channel
  }

  /** Folding depends on the view alone; and only failing depends on closing. */
  lemma {:induction false} FoldAlike(c: Config, a: Snapshot, b: Snapshot, events: seq<Event>, closing: bool)
    requires SameView(a, b)
    ensures SameView(Fold(c, a, events, closing), Fold(c, b, events, false))
    ensures a.failed ==> Fold(c, a, events, closing).failed
    ensures !closing && (b.failed ==> a.failed) ==>
              (Fold(c, b, events, false).failed ==> Fold(c, a, events, closing).failed)
    decreases |events|
  {
    if events != [] {
      FoldAlike(c, a, b, events[..|events| - 1], closing);
    }
  }

  ghost predicate Agrees(snap: Snapshot, s: Core) {
    snap.state == s.state && (s.state == Ready ==> snap.relay == s.relay && snap.channel == s.channel)
  }

  /** What a session keeps: the client is one that some run leaves; unless a pump stopped early, the
      driver has folded everything that was ever drained. */
  ghost predicate Followed(c: Config, z: Session, acts: seq<Action>) {
    && (forall a :: a in acts ==> Admissible(a))
    && z.core == Run(c, Initial(), acts)
    && (!z.stopped ==> z.core.events == [] && SameView(z.snap, Fold(c, FRESH, z.core.drained, false)))
  }

  /** Failures are on record, as long as the driver was never closing. */
  ghost predicate Recorded(c: Config, z: Session) {
    z.stopped || Fold(c, FRESH, z.core.drained, false).failed ==> z.snap.failed
  }

  lemma {:induction false} RunAppend(c: Config, s: Core, a: seq<Action>, b: seq<Action>)
    ensures Run(c, s, a + b) == Run(c, Run(c, s, a), b)
    decreases |a|
  {
    hide Apply;
    if a == [] {
      assert a + b == b;
    } else {
      assert (a + b)[1..] == a[1..] + b && (a + b)[0] == a[0];
      RunAppend(c, Apply(c, s, a[0]), a[1..], b);
    }
  }

  function Takes(n: nat): seq<Action> {
    if n == 0 then [] else [TakeEvent] + Takes(n - 1)
  }

  lemma TakeOne(c: Config, s: Core)
    requires s.events != []
    ensures Apply(c, s, TakeEvent) == s.(events := s.events[1..], drained := s.drained + [s.events[0]])
  {
  }

  lemma RunTakesOne(c: Config, s: Core, n: nat)
    requires 0 < n && s.events != []
    ensures Run(c, s, Takes(n))
            == Run(c, s.(events := s.events[1..], drained := s.drained + [s.events[0]]), Takes(n - 1))
  {
    TakeOne(c, s);
    hide Apply;
    assert Takes(n)[0] == TakeEvent && Takes(n)[1..] == Takes(n - 1);
    hide Takes;
  }

  lemma {:induction false} RunTakes(c: Config, s: Core, n: nat)
    requires n <= |s.events|
    ensures Run(c, s, Takes(n)) == s.(events := s.events[n..], drained := s.drained + s.events[..n])
    decreases n
  {
    if n == 0 {
      assert s.drained + s.events[..0] == s.drained;
      hide Apply;
    } else {
      hide Run;
      hide Takes;
      var t := s.(events := s.events[1..], drained := s.drained + [s.events[0]]);
      RunTakesOne(c, s, n);
      RunTakes(c, t, n - 1);
      var first, rest := [s.events[0]], s.events[1..];
      assert rest[n - 1..] == s.events[n..];
      assert s.drained + first + rest[..n - 1] == s.drained + s.events[..n];
    }
  }

  lemma {:induction false} OnlyTakes(n: nat)
    ensures forall a :: a in Takes(n) ==> Admissible(a)
  {
    if n > 0 {
      OnlyTakes(n - 1);
    }
  }

  /** A pump takes events and nothing else. */
  lemma PumpTakes(c: Config, s: Core, snap: Snapshot, closing: bool)
      returns (n: nat)
    ensures n <= |s.events| && PumpOn(c, s, snap, closing).core == Run(c, s, Takes(n))
  {
    n := Agreeing(s.events, s.relay);
    n := if n == |s.events| then n else n + 1;
    RunTakes(c, s, n);
    assert s.events[..|s.events|] == s.events && s.events[|s.events|..] == [];
    hide Fold;
    hide Run;
  }

  lemma RoundFollowed(c: Config, z: Session, acts: seq<Action>, round: Round)
      returns (more: seq<Action>)
    requires Followed(c, z, acts) && Proper(round)
    ensures Followed(c, After(c, z, round), more)
    ensures Recorded(c, z) && !round.closing ==> Recorded(c, After(c, z, round))
  {
    hide Run;
    hide Fold;
    var core := Run(c, z.core, round.actions);
    var n := PumpTakes(c, core, z.snap, round.closing);
    RunAppend(c, Initial(), acts, round.actions);
    RunAppend(c, Initial(), acts + round.actions, Takes(n));
    OnlyTakes(n);
    hide Takes;
    more := acts + round.actions + Takes(n);
    NothingDrained(c, z.core, round.actions);
    FoldedRound(c, z, core, round.closing);
  }

  lemma FoldedRound(c: Config, z: Session, core: Core, closing: bool)
    requires !z.stopped ==> SameView(z.snap, Fold(c, FRESH, z.core.drained, false))
    requires core.drained == z.core.drained
    ensures var p := PumpOn(c, core, z.snap, closing);
            var snap := if p.ok then p.snap else Fail(p.snap, closing);
            && (!z.stopped && p.ok ==>
                  p.core.events == [] && SameView(snap, Fold(c, FRESH, p.core.drained, false)))
            && (!closing && Recorded(c, z) ==>
                  Recorded(c, Session(p.core, snap, z.stopped || !p.ok)))
  {
    var p := PumpOn(c, core, z.snap, closing);
    var told := Fold(c, FRESH, z.core.drained, false);
    if z.snap.failed {
      FailedStays(c, z.snap, core.events, closing);
      FailedStays(c, z.snap, core.events[..Agreeing(core.events, core.relay)], closing);
    }
    if p.ok {
      FoldAppend(c, FRESH, z.core.drained, core.events, false);
      if !z.stopped {
        FoldAlike(c, z.snap, told, core.events, closing);
      }
    }
    hide Fold;
    hide Agreeing;
  }

  lemma {:induction false} FailedStays(c: Config, snap: Snapshot, events: seq<Event>, closing: bool)
    requires snap.failed
    ensures Fold(c, snap, events, closing).failed
    decreases |events|
  {
    if events != [] {
      FailedStays(c, snap, events[..|events| - 1], closing);
    }
  }

  lemma {:induction false} SessionFollowed(c: Config, rounds: seq<Round>)
      returns (acts: seq<Action>)
    requires forall r :: r in rounds ==> Proper(r)
    ensures Followed(c, Play(c, rounds), acts)
    ensures (forall r :: r in rounds ==> !r.closing) ==> Recorded(c, Play(c, rounds))
    decreases |rounds|
  {
    hide After;
    hide Proper;
    if rounds == [] {
      acts := [];
      assert Fold(c, FRESH, [], false) == FRESH && Run(c, Initial(), []) == Initial();
    } else {
      var init, last := rounds[..|rounds| - 1], rounds[|rounds| - 1];
      var before := SessionFollowed(c, init);
      hide Followed;
      hide Recorded;
      acts := RoundFollowed(c, Play(c, init), before, last);
    }
  }

  /** However calls and pumps alternate: as long as the driver is not closing, after every pump it has
      either been told of a failure, a pump that stopped included, or sees the client as it is: same
      state and, while READY, same relay and channel. */
  lemma PumpSees(c: Config, rounds: seq<Round>)
    requires c.Valid() && forall r :: r in rounds ==> Proper(r)
    requires forall r :: r in rounds ==> !r.closing
    ensures var z := Play(c, rounds); z.snap.failed || Agrees(z.snap, z.core)
  {
    var acts := SessionFollowed(c, rounds);
    var z := Play(c, rounds);
    SessionAgrees(c, z, acts);
    if !NoMarker(z.core.drained) {
      MarkerFails(c, FRESH, z.core.drained);
    }
    hide Play;
    hide Fold;
    hide Followed;
  }

  /** Closing or not: while no pump stopped and no marker was drained, it sees the client as it is. */
  lemma PumpSeesWhileClosing(c: Config, rounds: seq<Round>)
    requires c.Valid() && forall r :: r in rounds ==> Proper(r)
    ensures var z := Play(c, rounds);
            !z.stopped && NoMarker(z.core.drained) ==> Agrees(z.snap, z.core)
  {
    var acts := SessionFollowed(c, rounds);
    SessionAgrees(c, Play(c, rounds), acts);
    hide Play;
  }

  lemma SessionAgrees(c: Config, z: Session, acts: seq<Action>)
    requires c.Valid() && Followed(c, z, acts)
    ensures !z.stopped && NoMarker(z.core.drained) ==> Agrees(z.snap, z.core)
  {
    EventsRebuild(c, acts, false);
    assert z.core.drained + [] == z.core.drained;
    hide Run;
    hide Fold;
  }

  /** After a pump that took everything the driver has been told of a failure exactly if it was before, or
      one of the events is fatal or announces the end of the allocation. */
  lemma PumpFails(c: Config, core: Core, snap: Snapshot)
    requires PumpOn(c, core, snap, false).ok
    ensures PumpOn(c, core, snap, false).snap.failed
            <==> snap.failed
                 || exists e :: e in core.events
                                && (Fatal(c, e) || (e.StateChanged? && e.state == Destroying))
  {
    FailsExactly(c, snap, core.events);
    hide Fold;
    hide Fatal;
  }
}
