/** Permission and channel are refreshed in time: under a driver that polls when it is asked to, neither
    transaction is left alone for longer than the maintenance interval and one keepalive interval. */
module TurnUpkeep {
  import opened Bytes
  import opened TurnRequests
  import opened TurnState
  import opened TurnSafety
  import opened TurnLifecycle
  import opened TurnTimers
  import opened TurnPolls
  import opened TurnResponses

  // ---------------------------------------------------------------- what a poll starts

  lemma AppendKeepsOperations(pending: seq<Pending>, p: Pending, operation: Operation)
    ensures HasOperation(pending + [p], p.operation)
    ensures HasOperation(pending, operation) ==> HasOperation(pending + [p], operation)
  {
    assert (pending + [p])[|pending|] == p;
    if HasOperation(pending, operation) {
      var i :| 0 <= i < |pending| && pending[i].operation == operation;
      assert (pending + [p])[i] == pending[i];
    }
  }

  lemma QueueKeepsPending(s: Core, packet: bytes)
    ensures QueuePacket(s, packet).pending == s.pending
    ensures QueuePacket(s, packet).maintenanceRefresh == s.maintenanceRefresh
  {
  }

  /** A start that succeeds leaves the transaction pending and takes none away. */
  lemma StartHas(c: Config, s: Core, operation: Operation, authenticated: bool, nonceRetries: nat, draw: Draw,
                 other: Operation)
    ensures var r := StartOperation(c, s, operation, authenticated, nonceRetries, draw);
            && (r.ok ==> HasOperation(r.core.pending, operation))
            && (HasOperation(s.pending, other) ==> HasOperation(r.core.pending, other))
            && r.core.maintenanceRefresh == s.maintenanceRefresh
  {
    hide BuildRequest;
    hide QueuePacket;
    hide HasCredentials;
    hide AuthOf;
    if HasOperation(s.pending, operation) {
      QueueKeepsPending(s, s.pending[FirstOf(s.pending, operation)].packet);
    } else if !(authenticated && !HasCredentials(s)) {
      var built := BuildRequest(c.crypto, operation, c.peer, draw.transaction, AuthOf(c, s, authenticated));
      if built.Ok? {
        QueueKeepsPending(s, built.value);
        AppendKeepsOperations(s.pending, NewPending(c, operation, built.value, authenticated, nonceRetries, draw),
                              other);
      }
    }
    hide HasOperation;
  }

  lemma PermissionHas(c: Config, s: Core, due: bool, draw: Draw)
    ensures var r := PollPermission(c, s, due, draw);
            && (r.ok && due ==> HasOperation(r.core.pending, Permission))
            && r.core.maintenanceRefresh == s.maintenanceRefresh
  {
    StartHas(c, s.(permissionRetry := None), Permission, true, 0, draw, Permission);
    hide StartOperation;
    hide HasOperation;
  }

  lemma ChannelHas(c: Config, s: Core, due: bool, draw: Draw)
    ensures var r := PollChannel(c, s, due, draw);
            && (r.ok && due ==> HasOperation(r.core.pending, Channel))
            && (HasOperation(s.pending, Permission) ==> HasOperation(r.core.pending, Permission))
            && r.core.maintenanceRefresh == s.maintenanceRefresh
  {
    StartHas(c, s.(channelRetry := None), Channel, true, 0, draw, Permission);
    hide StartOperation;
    hide HasOperation;
  }

  lemma RefreshKeepsMaintenance(c: Config, s: Core, now: time, draw: Draw)
    ensures PollRefresh(c, s, now, draw).core.maintenanceRefresh == s.maintenanceRefresh
  {
    StartHas(c, s.(allocationRefresh := None), Refresh, true, 0, draw, Refresh);
    hide StartOperation;
    hide HasOperation;
  }

  lemma KeepaliveKeepsPending(c: Config, s: Core, now: time, started: bool)
    ensures var t := PollKeepalive(c, s, now, started);
            t.pending == s.pending && t.maintenanceRefresh == s.maintenanceRefresh
  {
    hide KeepalivePacket;
  }

  /** Both transactions are under way after maintenance that was due, and the next is an interval away. */
  ghost predicate Renewed(c: Config, s: Core, t: Core, now: time) {
    if Due(s.maintenanceRefresh, now) then
      && t.maintenanceRefresh == Some(now + c.profile.maintenanceRefresh)
      && HasOperation(t.pending, Permission) && HasOperation(t.pending, Channel)
    else t.maintenanceRefresh == s.maintenanceRefresh
  }

  lemma MaintenanceRenews(c: Config, s: Core, now: time, draws: PollDraws)
    ensures var r := PollMaintenance(c, s, now, draws);
            r.ok ==> Renewed(c, s, r.core, now)
  {
    hide PollRefresh;
    hide PollPermission;
    hide PollChannel;
    hide PollKeepalive;
    hide Due;
    hide HasOperation;
    var maintenance := Due(s.maintenanceRefresh, now);
    RefreshKeepsMaintenance(c, s, now, draws.refresh);
    var a := PollRefresh(c, s, now, draws.refresh);
    var rescheduled := if maintenance
                       then a.core.(maintenanceRefresh := Some(now + c.profile.maintenanceRefresh))
                       else a.core;
    var permission := maintenance || Due(s.permissionRetry, now);
    PermissionHas(c, rescheduled, permission, draws.permission);
    var b := PollPermission(c, rescheduled, permission, draws.permission);
    var channel := maintenance || Due(s.channelRetry, now);
    ChannelHas(c, b.core, channel, draws.channel);
    var d := PollChannel(c, b.core, channel, draws.channel);
    KeepaliveKeepsPending(c, d.core, now, a.any || b.any || d.any);
  }

  lemma PollRenews(c: Config, s: Core, now: time, draws: PollDraws)
    requires Inv(c, s)
    ensures var t := Poll(c, s, now, draws).core;
            t.state == Ready ==> s.state == Ready && Renewed(c, s, t, now)
  {
    hide IsRequest;
    hide Scheduled;
    ExpireKeeps(c, s, now, 0);
    ExpireKeepsPace(c, s, now, 0);
    hide ExpireFrom;
    var e := ExpireFrom(c, s, now, 0);
    CheckExpiryKeeps(c, e, now);
    CheckKeepsPace(c, e, now);
    hide CheckExpiry;
    var t := CheckExpiry(e, now);
    if !t.shuttingDown && t.state == Ready {
      PollMaintenanceKeeps(c, t, now, draws);
      MaintenanceRenews(c, t, now, draws);
      hide PollMaintenance;
    }
    assert Flags(t) && Flags(s);
    hide HasOperation;
    hide Inv;
  }

  // ---------------------------------------------------------------- over runs

  /** When a READY client was last seen with the transaction under way after a call, or became READY. */
  function Seen(s: Core, t: Core, at: time, operation: Operation, last: time): time {
    if t.state == Ready && (s.state != Ready || HasOperation(t.pending, operation)) then at else last
  }

  function LastSeen(c: Config, d: Driven, steps: seq<(time, Action)>, slack: time, operation: Operation,
                    last: time): time
    decreases |steps|
  {
    if steps == [] then last
    else
      var next := Drive(c, d, steps[0].0, steps[0].1, slack);
      LastSeen(c, next, steps[1..], slack, operation, Seen(d.core, next.core, steps[0].0, operation, last))
  }

  /** Maintenance is due no later than an interval after either was seen, and the poll that finds it due
      comes within a keepalive interval of that. */
  ghost predicate Kept(c: Config, d: Driven, last: time) {
    && Inv(c, d.core)
    && Paced(c, d.core, d.clock)
    && last <= d.clock
    && (d.core.state == Ready ==>
          && d.core.maintenanceRefresh.Some? && d.due.Some?
          && d.core.maintenanceRefresh.value <= last + c.profile.maintenanceRefresh
          && d.due.value <= d.core.maintenanceRefresh.value + c.profile.keepaliveInterval)
  }

  lemma PollKept(c: Config, d: Driven, t: time, a: Action, slack: time, operation: Operation, last: time)
    requires Kept(c, d, last) && Timely(d, t, a) && a.PollAt?
    requires c.profile.keepaliveInterval >= MS
    requires operation == Permission || operation == Channel
    ensures var e := Drive(c, d, t, a, slack);
            Kept(c, e, Seen(d.core, e.core, t, operation, last))
  {
    hide HasOperation;
    ApplyKeeps(c, d.core, a);
    PollRenews(c, d.core, t, a.draws);
    PollDelay(c, d.core, t, a.draws);
    hide Poll;
    hide Inv;
  }

  lemma CallKept(c: Config, d: Driven, t: time, a: Action, slack: time, operation: Operation, last: time)
    requires Kept(c, d, last) && Timely(d, t, a) && !a.PollAt?
    requires slack <= c.profile.keepaliveInterval
    ensures var e := Drive(c, d, t, a, slack);
            Kept(c, e, Seen(d.core, e.core, t, operation, last))
  {
    hide HasOperation;
    ApplyKeeps(c, d.core, a);
    if a.Input? {
      InputFresher(c, d.core, a.packet, t, a.draw);
    } else {
      QuietFresher(c, d.core, a, t);
    }
    hide Apply;
    hide Inv;
  }

  lemma {:induction false} StepsKept(c: Config, d: Driven, steps: seq<(time, Action)>, slack: time,
                                     operation: Operation, last: time)
    requires Kept(c, d, last) && AllTimely(c, d, steps, slack)
    requires c.profile.keepaliveInterval >= MS && slack <= c.profile.keepaliveInterval
    requires operation == Permission || operation == Channel
    ensures Kept(c, DriveAll(c, d, steps, slack), LastSeen(c, d, steps, slack, operation, last))
    decreases |steps|
  {
    hide Kept;
    hide Drive;
    hide Seen;
    if steps != [] {
      var (t, a) := steps[0];
      if a.PollAt? {
        PollKept(c, d, t, a, slack, operation, last);
      } else {
        CallKept(c, d, t, a, slack, operation, last);
      }
      var next := Drive(c, d, t, a, slack);
      StepsKept(c, next, steps[1..], slack, operation, Seen(d.core, next.core, t, operation, last));
    }
  }

  lemma StartsKept(c: Config)
    requires c.Valid()
    ensures Kept(c, Driven(Initial(), 0, None), 0)
  {
    InitialHolds(c);
    hide Inv;
  }

  /** Under a driver that polls within the returned delay and within a keepalive interval of every other
      call, no call finds a client READY more than the maintenance interval and one keepalive interval
      after it became READY or its permission, or channel, was last under way. */
  lemma MaintenanceIsTimely(c: Config, steps: seq<(time, Action)>, slack: time, t: time, a: Action,
                            operation: Operation)
    requires c.Valid() && c.profile.keepaliveInterval >= MS && slack <= c.profile.keepaliveInterval
    requires operation == Permission || operation == Channel
    requires var d := Driven(Initial(), 0, None);
             AllTimely(c, d, steps, slack) && Timely(DriveAll(c, d, steps, slack), t, a)
    ensures var d := Driven(Initial(), 0, None);
            DriveAll(c, d, steps, slack).core.state == Ready ==>
              t <= LastSeen(c, d, steps, slack, operation, 0)
                   + c.profile.maintenanceRefresh + c.profile.keepaliveInterval
  {
    hide AllTimely;
    hide DriveAll;
    hide LastSeen;
    var d := Driven(Initial(), 0, None);
    StartsKept(c);
    StepsKept(c, d, steps, slack, operation, 0);
    hide Inv;
    hide Paced;
  }

  // ---------------------------------------------------------------- the keepalive over runs

  /** A poll that begins a request or queues a keepalive. */
  predicate Speaks(c: Config, s: Core, t: Core, a: Action) {
    && a.PollAt?
    && var x := Looked(c, s, a.at);
       |t.pending| > |x.pending| || t.controls == Newest(x.controls + [KEEPALIVE])
  }

  /** When the client last spoke, or was not READY with a bound channel both before and after a call. */
  function Spoke(c: Config, s: Core, t: Core, a: Action, at: time, last: time): time {
    if s.state != Ready || t.state != Ready || t.channel.None? || Speaks(c, s, t, a) then at else last
  }

  function LastSpoke(c: Config, d: Driven, steps: seq<(time, Action)>, slack: time, last: time): time
    decreases |steps|
  {
    if steps == [] then last
    else
      var next := Drive(c, d, steps[0].0, steps[0].1, slack);
      LastSpoke(c, next, steps[1..], slack, Spoke(c, d.core, next.core, steps[0].1, steps[0].0, last))
  }

  ghost predicate Speaking(c: Config, d: Driven, last: time) {
    && Inv(c, d.core)
    && last <= d.clock
    && (d.core.state == Ready ==>
          && d.core.keepalive.Some? && d.due.Some?
          && d.core.keepalive.value <= last + c.profile.keepaliveInterval
          && d.due.value <= d.core.keepalive.value + MS)
  }

  /** A poll with what matters for the keepalive. */
  lemma PollSpeaks(c: Config, s: Core, now: time, draws: PollDraws)
    requires Inv(c, s)
    ensures var r := Poll(c, s, now, draws);
            var t := r.core;
            t.state == Ready ==>
              && s.state == Ready && s.keepalive.Some? && t.keepalive.Some? && r.delay.Some?
              && t.keepalive.value == (if s.keepalive.value <= now then now + c.profile.keepaliveInterval
                                       else s.keepalive.value)
              && (now + r.delay.value <= t.keepalive.value || r.delay.value == MS)
              && (s.keepalive.value <= now ==> t.channel.None? || Speaks(c, s, t, PollAt(now, draws)))
  {
    var x, t := Looked(c, s, now), Poll(c, s, now, draws).core;
    LookedKeeps(c, s, now);
    LookedKeepsPace(c, s, now);
    PollOutcome(c, s, now, draws);
    KeepaliveIsSent(c, s, now, draws);
    ReadyIsOpen(c, s);
    ReadyIsOpen(c, x);
    KeepaliveIsThis();
    hide Looked;
    hide Poll;
    hide Inv;
    hide Newest;
    hide Keepalives;
    hide HasCredentials;
    if t.state == Ready {
      MaintainsLeaves(c, x, t, now, draws);
      hide Upkeeps;
      assert Wants(t, t.keepalive.value);
      hide Wants;
    } else {
      hide Upkeeps;
      hide Waits;
    }
  }

  lemma PollSpeaking(c: Config, d: Driven, t: time, a: Action, slack: time, last: time)
    requires Speaking(c, d, last) && Timely(d, t, a) && a.PollAt?
    ensures var e := Drive(c, d, t, a, slack);
            Speaking(c, e, Spoke(c, d.core, e.core, a, t, last))
  {
    ApplyKeeps(c, d.core, a);
    PollSpeaks(c, d.core, t, a.draws);
    hide Poll;
    hide Inv;
    hide Speaks;
  }

  lemma CallSpeaking(c: Config, d: Driven, t: time, a: Action, slack: time, last: time)
    requires Speaking(c, d, last) && Timely(d, t, a) && !a.PollAt?
    requires slack <= c.profile.keepaliveInterval
    ensures var e := Drive(c, d, t, a, slack);
            Speaking(c, e, Spoke(c, d.core, e.core, a, t, last))
  {
    ApplyKeeps(c, d.core, a);
    if a.Input? {
      InputFresher(c, d.core, a.packet, t, a.draw);
    } else {
      QuietFresher(c, d.core, a, t);
    }
    hide Apply;
    hide Inv;
    hide Looked;
    hide Newest;
  }

  lemma {:induction false} StepsSpeaking(c: Config, d: Driven, steps: seq<(time, Action)>, slack: time, last: time)
    requires Speaking(c, d, last) && AllTimely(c, d, steps, slack)
    requires slack <= c.profile.keepaliveInterval
    ensures Speaking(c, DriveAll(c, d, steps, slack), LastSpoke(c, d, steps, slack, last))
    decreases |steps|
  {
    hide Speaking;
    hide Drive;
    hide Spoke;
    if steps != [] {
      var (t, a) := steps[0];
      if a.PollAt? {
        PollSpeaking(c, d, t, a, slack, last);
      } else {
        CallSpeaking(c, d, t, a, slack, last);
      }
      var next := Drive(c, d, t, a, slack);
      StepsSpeaking(c, next, steps[1..], slack, Spoke(c, d.core, next.core, a, t, last));
    }
  }

  lemma StartsSpeaking(c: Config)
    requires c.Valid()
    ensures Speaking(c, Driven(Initial(), 0, None), 0)
  {
    InitialHolds(c);
    hide Inv;
  }

  /** Under the same driver, no call finds a client READY with a bound channel more than one keepalive
      interval, and the millisecond a delay may be rounded up to, after it last began a request or queued a
      keepalive, or came to be so. */
  lemma KeepaliveIsTimely(c: Config, steps: seq<(time, Action)>, slack: time, t: time, a: Action)
    requires c.Valid() && slack <= c.profile.keepaliveInterval
    requires var d := Driven(Initial(), 0, None);
             AllTimely(c, d, steps, slack) && Timely(DriveAll(c, d, steps, slack), t, a)
    ensures var d := Driven(Initial(), 0, None);
            DriveAll(c, d, steps, slack).core.state == Ready ==>
              t <= LastSpoke(c, d, steps, slack, 0) + c.profile.keepaliveInterval + MS
  {
    hide AllTimely;
    hide DriveAll;
    hide LastSpoke;
    var d := Driven(Initial(), 0, None);
    StartsSpeaking(c);
    StepsSpeaking(c, d, steps, slack, 0);
    hide Inv;
  }
}
