/** What a poll does: the requests it begins, the keepalive it sends, and when it asks to be called again. */
module TurnPolls {
  import opened Bytes
  import opened Addresses
  import opened StunMessages
  import opened StunBuilder
  import opened TurnRequests
  import opened TurnState
  import opened TurnSafety
  import opened TurnLifecycle
  import opened TurnTimers
  import opened TurnHandshake
  import opened TurnResponses

  // ---------------------------------------------------------------- what maintenance begins

  predicate Ripe(deadline: Option<time>, now: time) {
    deadline.Some? && deadline.value <= now
  }

  predicate Awaits(s: Core, operation: Operation) {
    exists p :: p in s.pending && p.operation == operation
  }

  /** The requests that are due and not under way. */
  function Needed(s: Core, now: time): seq<Operation> {
    (if Ripe(s.allocationRefresh, now) && !Awaits(s, Refresh) then [Refresh] else [])
    + (if (Ripe(s.maintenanceRefresh, now) || Ripe(s.permissionRetry, now)) && !Awaits(s, Permission)
       then [Permission] else [])
    + (if (Ripe(s.maintenanceRefresh, now) || Ripe(s.channelRetry, now)) && !Awaits(s, Channel)
       then [Channel] else [])
  }

  function DrawFor(draws: PollDraws, operation: Operation): Draw {
    match operation
    case Refresh => draws.refresh
    case Permission => draws.permission
    case _ => draws.channel
  }

  /** A transaction that has just begun, its request naming the user as the client knows it. */
  ghost predicate IsBegun(c: Config, s: Core, p: Pending, operation: Operation, draw: Draw)
    requires HasCredentials(s)
  {
    var auth := Auth(c.username, s.realm.value, s.nonce.value, s.key.value);
    && BuildRequest(c.crypto, operation, c.peer, draw.transaction, Some(auth)) == Ok(p.packet)
    && p == Pending(operation, draw.transaction, p.packet, draw.clock + FirstWait(c), 200 * MS, 1, 0, true,
                    draw.clock)
  }

  function Packets(pending: seq<Pending>): (packets: seq<bytes>)
    ensures |packets| == |pending|
  {
    seq(|pending|, i requires 0 <= i < |pending| => pending[i].packet)
  }

  /** ChannelData (RFC 8656, section 12.4) with one octet of payload, padded. */
  const KEEPALIVE: bytes := [0x40, 0, 0, 1, 0xff, 0, 0, 0]

  /** The transactions that have begun, one after the other. */
  ghost predicate EachBegun(c: Config, s: Core, pending: seq<Pending>, operations: seq<Operation>, draws: PollDraws)
    requires HasCredentials(s)
  {
    && |pending| == |operations|
    && forall k :: 0 <= k < |operations| ==>
         IsBegun(c, s, pending[k], operations[k], DrawFor(draws, operations[k]))
  }

  /** Requests for the operations were begun, in this order, and put into the queue, then what else is given. */
  ghost predicate Begins(c: Config, s: Core, t: Core, operations: seq<Operation>, draws: PollDraws,
                         more: seq<bytes>)
    requires HasCredentials(s)
  {
    && s.pending <= t.pending && EachBegun(c, s, t.pending[|s.pending|..], operations, draws)
    && t.controls == Newest(s.controls + Packets(t.pending[|s.pending|..]) + more)
  }

  /** The timers after maintenance. */
  function Reset(c: Config, s: Core, now: time): Core {
    var operations := Needed(s, now);
    s.(allocationRefresh := if Refresh in operations then None else s.allocationRefresh,
       maintenanceRefresh := if Ripe(s.maintenanceRefresh, now) then Some(now + c.profile.maintenanceRefresh)
                             else s.maintenanceRefresh,
       permissionRetry := if Permission in operations then None else s.permissionRetry,
       channelRetry := if Channel in operations then None else s.channelRetry,
       keepalive := if Ripe(s.keepalive, now) then Some(now + c.profile.keepaliveInterval) else s.keepalive)
  }

  /** The keepalive is sent when it is due, a channel is bound and nothing else goes out. */
  function Sounds(s: Core, now: time): seq<bytes> {
    if Ripe(s.keepalive, now) && Needed(s, now) == [] && s.channel.Some? then [KEEPALIVE] else []
  }

  lemma NewestTwice(a: seq<bytes>, b: seq<bytes>, c: seq<bytes>)
    ensures Newest(Newest(a + b) + c) == Newest(a + b + c)
  {
    var all := a + b + c;
    var kept := Newest(a + b);
    if |a + b| > 16 {
      assert kept == (a + b)[|a + b| - 16..];
      assert kept + c == all[|a + b| - 16..];
    }
  }

  lemma AwaitsIs(s: Core, operation: Operation)
    ensures Awaits(s, operation) <==> HasOperation(s.pending, operation)
  {
    if HasOperation(s.pending, operation) {
      var i :| 0 <= i < |s.pending| && s.pending[i].operation == operation;
      assert s.pending[i] in s.pending;
    }
  }

  /** One of the three stages of maintenance. */
  ghost predicate Stage(c: Config, s: Core, t: Core, begins: bool, operation: Operation, draw: Draw)
    requires HasCredentials(s)
  {
    && t == s.(pending := t.pending, controls := t.controls, events := t.events, emitted := t.emitted,
               allocationRefresh := t.allocationRefresh, permissionRetry := t.permissionRetry,
               channelRetry := t.channelRetry)
    && if begins then
         && |t.pending| == |s.pending| + 1
         && var p := t.pending[|s.pending|];
            && t.pending == s.pending + [p] && IsBegun(c, s, p, operation, draw)
            && t.controls == Newest(s.controls + [p.packet])
       else t.pending == s.pending && t.controls == s.controls
  }

  lemma StageBegins(c: Config, s: Core, u: Core, operation: Operation, draw: Draw)
    requires !HasOperation(s.pending, operation) && HasCredentials(s)
    requires CredentialsBounded(c, s) && Queued(s)
    requires u == s.(allocationRefresh := u.allocationRefresh, permissionRetry := u.permissionRetry,
                     channelRetry := u.channelRetry)
    ensures var r := StartOperation(c, u, operation, true, 0, draw);
            && r.ok && Stage(c, s, r.core, true, operation, draw)
            && r.core.allocationRefresh == u.allocationRefresh && r.core.permissionRetry == u.permissionRetry
            && r.core.channelRetry == u.channelRetry
  {
    StartsExactly(c, u, operation, 0, draw);
    hide StartOperation;
    hide BuildRequest;
    hide Newest;
    hide HasOperation;
  }

  lemma ReadyToStart(c: Config, s: Core)
    requires Inv(c, s) && s.state == Ready
    ensures HasCredentials(s) && CredentialsBounded(c, s) && Queued(s)
  {
    hide PendingOk;
    hide Owned;
    hide Staged;
  }

  lemma RefreshStage(c: Config, s: Core, now: time, draw: Draw)
    requires Inv(c, s) && s.state == Ready
    ensures HasCredentials(s)
    ensures var r := PollRefresh(c, s, now, draw);
            var begins := Ripe(s.allocationRefresh, now) && !HasOperation(s.pending, Refresh);
            && r.ok && r.any == begins && Stage(c, s, r.core, begins, Refresh, draw)
            && r.core.allocationRefresh == (if begins then None else s.allocationRefresh)
            && r.core.permissionRetry == s.permissionRetry && r.core.channelRetry == s.channelRetry
  {
    ReadyToStart(c, s);
    if !HasOperation(s.pending, Refresh) {
      StageBegins(c, s, s.(allocationRefresh := None), Refresh, draw);
    }
    hide StartOperation;
    hide HasOperation;
    hide Inv;
    hide IsBegun;
    hide Newest;
  }

  lemma PermissionStage(c: Config, s: Core, due: bool, draw: Draw)
    requires Inv(c, s) && s.state == Ready
    ensures HasCredentials(s)
    ensures var r := PollPermission(c, s, due, draw);
            var begins := due && !HasOperation(s.pending, Permission);
            && r.ok && r.any == begins && Stage(c, s, r.core, begins, Permission, draw)
            && r.core.permissionRetry == (if begins then None else s.permissionRetry)
            && r.core.allocationRefresh == s.allocationRefresh && r.core.channelRetry == s.channelRetry
  {
    ReadyToStart(c, s);
    if !HasOperation(s.pending, Permission) {
      StageBegins(c, s, s.(permissionRetry := None), Permission, draw);
    }
    hide StartOperation;
    hide HasOperation;
    hide Inv;
    hide IsBegun;
    hide Newest;
  }

  lemma ChannelStage(c: Config, s: Core, due: bool, draw: Draw)
    requires Inv(c, s) && s.state == Ready
    ensures HasCredentials(s)
    ensures var r := PollChannel(c, s, due, draw);
            var begins := due && !HasOperation(s.pending, Channel);
            && r.ok && r.any == begins && Stage(c, s, r.core, begins, Channel, draw)
            && r.core.channelRetry == (if begins then None else s.channelRetry)
            && r.core.allocationRefresh == s.allocationRefresh && r.core.permissionRetry == s.permissionRetry
  {
    ReadyToStart(c, s);
    if !HasOperation(s.pending, Channel) {
      StageBegins(c, s, s.(channelRetry := None), Channel, draw);
    }
    hide StartOperation;
    hide HasOperation;
    hide Inv;
    hide IsBegun;
    hide Newest;
  }

  lemma NothingBegun(c: Config, s: Core, draws: PollDraws)
    requires HasCredentials(s) && |s.controls| <= 16
    ensures Begins(c, s, s, [], draws, [])
  {
    assert s.pending[|s.pending|..] == [] && Packets([]) == [];
    assert s.controls + [] + [] == s.controls;
  }

  lemma PacketsMore(pending: seq<Pending>, p: Pending)
    ensures Packets(pending + [p]) == Packets(pending) + [p.packet]
  {
  }

  lemma QueueMore(queue: seq<bytes>, before: seq<bytes>, packet: bytes)
    ensures Newest(Newest(queue + before + []) + [packet]) == Newest(queue + (before + [packet]) + [])
  {
    assert queue + before + [] == queue + before;
    assert queue + (before + [packet]) + [] == queue + before + [packet];
    NewestTwice(queue, before, [packet]);
    hide Newest;
  }

  lemma OneMoreBegun(c: Config, s: Core, pending: seq<Pending>, operations: seq<Operation>, draws: PollDraws,
                     p: Pending, operation: Operation)
    requires HasCredentials(s) && EachBegun(c, s, pending, operations, draws)
    requires IsBegun(c, s, p, operation, DrawFor(draws, operation))
    ensures EachBegun(c, s, pending + [p], operations + [operation], draws)
  {
    hide IsBegun;
    hide DrawFor;
  }

  lemma BeginsMore(c: Config, s: Core, x: Core, y: Core, z: Core, operations: seq<Operation>, begins: bool,
                   operation: Operation, draws: PollDraws)
    requires HasCredentials(s) && Begins(c, s, x, operations, draws, [])
    requires y.pending == x.pending && y.controls == x.controls
    requires y.realm == s.realm && y.nonce == s.nonce && y.key == s.key
    requires Stage(c, y, z, begins, operation, DrawFor(draws, operation))
    ensures Begins(c, s, z, operations + (if begins then [operation] else []), draws, [])
  {
    hide BuildRequest;
    if begins {
      var n := |s.pending|;
      var p := z.pending[|y.pending|];
      assert IsBegun(c, s, p, operation, DrawFor(draws, operation));
      hide IsBegun;
      hide DrawFor;
      hide Newest;
      var begun := x.pending[n..];
      assert z.pending[n..] == begun + [p] && z.pending[..n] == x.pending[..n];
      PacketsMore(begun, p);
      QueueMore(s.controls, Packets(begun), p.packet);
      hide Packets;
      OneMoreBegun(c, s, begun, operations, draws, p, operation);
    } else {
      assert operations + [] == operations;
    }
  }

  /** Whether an operation is still awaited after a stage that concerns another. */
  lemma StillAwaited(c: Config, s: Core, t: Core, begins: bool, operation: Operation, draw: Draw, other: Operation)
    requires HasCredentials(s) && Stage(c, s, t, begins, operation, draw) && other != operation
    requires begins ==> !HasOperation(s.pending, operation)
    ensures HasOperation(t.pending, other) <==> HasOperation(s.pending, other)
  {
    hide Newest;
    if begins {
      var p := t.pending[|s.pending|];
      assert p.operation == operation;
      AppendHas(s.pending, p);
    }
    hide IsBegun;
    hide HasOperation;
  }

  lemma KeepaliveBytes()
    ensures KeepalivePacket(CHANNEL_NUMBER) == KEEPALIVE
  {
  }

  lemma KeepaliveForm(c: Config, s: Core, now: time, started: bool)
    requires s.channel.Some? ==> s.channel.value == CHANNEL_NUMBER
    ensures var u := s.(keepalive := Some(now + c.profile.keepaliveInterval));
            PollKeepalive(c, s, now, started)
            == if !Ripe(s.keepalive, now) then s
               else if started || s.channel.None? then u
               else QueuePacket(u, KEEPALIVE)
  {
    KeepaliveBytes();
    hide KeepalivePacket;
    hide QueuePacket;
  }

  lemma NewestOf(queue: seq<bytes>)
    requires |queue| <= 16
    ensures Newest(queue + []) == queue
  {
    assert queue + [] == queue;
  }

  lemma QueuesKeepalive(s: Core, t: Core)
    requires |s.controls| <= 16 && t == QueuePacket(s, KEEPALIVE)
    ensures t == s.(controls := t.controls, events := t.events, emitted := t.emitted)
    ensures t.controls == Newest(s.controls + [KEEPALIVE])
  {
    QueuedLast(s, KEEPALIVE);
    hide QueuePacket;
    hide Newest;
  }

  lemma KeepaliveStage(c: Config, s: Core, now: time, started: bool)
    requires s.channel.Some? ==> s.channel.value == CHANNEL_NUMBER
    requires |s.controls| <= 16
    ensures var t := PollKeepalive(c, s, now, started);
            && t == s.(keepalive := t.keepalive, controls := t.controls, events := t.events, emitted := t.emitted)
            && t.keepalive == (if Ripe(s.keepalive, now) then Some(now + c.profile.keepaliveInterval) else s.keepalive)
            && t.controls == Newest(s.controls
                                    + (if Ripe(s.keepalive, now) && !started && s.channel.Some? then [KEEPALIVE]
                                       else []))
  {
    hide *;
    KeepaliveForm(c, s, now, started);
    NewestOf(s.controls);
    if Ripe(s.keepalive, now) && !started && s.channel.Some? {
      QueuesKeepalive(s.(keepalive := Some(now + c.profile.keepaliveInterval)), PollKeepalive(c, s, now, started));
    }
  }

  lemma ChannelKnown(c: Config, s: Core)
    requires Inv(c, s)
    ensures s.channel.Some? ==> s.channel.value == CHANNEL_NUMBER
    ensures |s.controls| <= 16
  {
    hide Staged;
    hide PendingOk;
    hide Owned;
  }

  /** What maintenance does: the needed requests begin, refresh before permission before channel; the timers
      are reset; and the keepalive is sent exactly when it is due and nothing began. */
  ghost predicate Upkeeps(c: Config, s: Core, t: Core, now: time, draws: PollDraws)
    requires HasCredentials(s)
  {
    && Begins(c, s, t, Needed(s, now), draws, Sounds(s, now))
    && t == Reset(c, s, now).(pending := t.pending, controls := t.controls, events := t.events, emitted := t.emitted)
  }

  /** Between the stages: what has begun so far, and what is as it was. */
  ghost predicate Underway(c: Config, s: Core, x: Core, operations: seq<Operation>, draws: PollDraws)
    requires HasCredentials(s)
  {
    && Inv(c, x) && x.state == Ready
    && Begins(c, s, x, operations, draws, [])
    && x == s.(pending := x.pending, controls := x.controls, events := x.events, emitted := x.emitted,
               allocationRefresh := x.allocationRefresh, maintenanceRefresh := x.maintenanceRefresh,
               permissionRetry := x.permissionRetry, channelRetry := x.channelRetry)
  }

  lemma Underways(c: Config, s: Core, x: Core, y: Core, operations: seq<Operation>, begins: bool,
                  operation: Operation, draws: PollDraws)
    requires HasCredentials(s) && Underway(c, s, x, operations, draws) && Inv(c, y) && y.state == Ready
    requires HasCredentials(x) && Stage(c, x, y, begins, operation, DrawFor(draws, operation))
    ensures Underway(c, s, y, operations + (if begins then [operation] else []), draws)
  {
    BeginsMore(c, s, x, x, y, operations, begins, operation, draws);
    hide Begins;
    hide IsBegun;
    hide Newest;
    hide Inv;
  }

  lemma UnderwayCredentials(c: Config, s: Core, x: Core, operations: seq<Operation>, draws: PollDraws)
    requires HasCredentials(s) && Underway(c, s, x, operations, draws)
    ensures HasCredentials(x)
  {
    hide Begins;
    hide Inv;
  }

  function Rescheduling(c: Config, s: Core, due: bool, now: time): Core {
    if due then s.(maintenanceRefresh := Some(now + c.profile.maintenanceRefresh)) else s
  }

  lemma ReschedulingKeeps(c: Config, s: Core, x: Core, operations: seq<Operation>, draws: PollDraws, due: bool,
                          now: time)
    requires HasCredentials(s) && Underway(c, s, x, operations, draws)
    ensures Underway(c, s, Rescheduling(c, x, due, now), operations, draws)
  {
    if due {
      ReadyTimers(c, x);
      DeadlinesKeep(c, x, Rescheduling(c, x, due, now));
    }
    hide IsBegun;
    hide Newest;
    hide Inv;
  }

  /** The operations before each stage. */
  function First(s: Core, now: time): seq<Operation> {
    if Ripe(s.allocationRefresh, now) && !HasOperation(s.pending, Refresh) then [Refresh] else []
  }

  function Second(s: Core, now: time): seq<Operation> {
    if (Ripe(s.maintenanceRefresh, now) || Ripe(s.permissionRetry, now)) && !HasOperation(s.pending, Permission)
    then [Permission] else []
  }

  function Third(s: Core, now: time): seq<Operation> {
    if (Ripe(s.maintenanceRefresh, now) || Ripe(s.channelRetry, now)) && !HasOperation(s.pending, Channel)
    then [Channel] else []
  }

  lemma NeededIs(s: Core, now: time)
    ensures Needed(s, now) == First(s, now) + Second(s, now) + Third(s, now)
    ensures Refresh in Needed(s, now) <==> First(s, now) != []
    ensures Permission in Needed(s, now) <==> Second(s, now) != []
    ensures Channel in Needed(s, now) <==> Third(s, now) != []
  {
    AwaitsIs(s, Refresh);
    AwaitsIs(s, Permission);
    AwaitsIs(s, Channel);
    hide Awaits;
    hide HasOperation;
  }

  lemma NothingUnderway(c: Config, s: Core, draws: PollDraws)
    requires Inv(c, s) && s.state == Ready && HasCredentials(s)
    ensures Underway(c, s, s, [], draws)
  {
    ChannelKnown(c, s);
    NothingBegun(c, s, draws);
    hide Begins;
    hide Inv;
  }

  lemma RefreshBegins(c: Config, s: Core, now: time, draws: PollDraws)
    requires Inv(c, s) && s.state == Ready
    ensures HasCredentials(s)
    ensures var a := PollRefresh(c, s, now, draws.refresh);
            && a.ok && a.any == (First(s, now) != []) && Underway(c, s, a.core, First(s, now), draws)
            && a.core.allocationRefresh == (if First(s, now) != [] then None else s.allocationRefresh)
            && a.core.maintenanceRefresh == s.maintenanceRefresh
            && a.core.permissionRetry == s.permissionRetry && a.core.channelRetry == s.channelRetry
            && (HasOperation(a.core.pending, Permission) <==> HasOperation(s.pending, Permission))
            && (HasOperation(a.core.pending, Channel) <==> HasOperation(s.pending, Channel))
  {
    var a := PollRefresh(c, s, now, draws.refresh);
    var begins := Ripe(s.allocationRefresh, now) && !HasOperation(s.pending, Refresh);
    assert First(s, now) == [] + (if begins then [Refresh] else []);
    assert DrawFor(draws, Refresh) == draws.refresh;
    hide *;
    RefreshStage(c, s, now, draws.refresh);
    PollRefreshKeeps(c, s, now, draws.refresh);
    StillAwaited(c, s, a.core, begins, Refresh, draws.refresh, Permission);
    StillAwaited(c, s, a.core, begins, Refresh, draws.refresh, Channel);
    NothingUnderway(c, s, draws);
    Underways(c, s, s, a.core, [], begins, Refresh, draws);
    StageLeaves(c, s, a.core, begins, Refresh, draws.refresh);
  }

  lemma FirstStage(c: Config, s: Core, now: time, draws: PollDraws)
    requires Inv(c, s) && s.state == Ready
    ensures HasCredentials(s)
    ensures var a := PollRefresh(c, s, now, draws.refresh);
            var x := Rescheduling(c, a.core, Ripe(s.maintenanceRefresh, now), now);
            && a.ok && a.any == (First(s, now) != []) && Underway(c, s, x, First(s, now), draws)
            && x.allocationRefresh == (if First(s, now) != [] then None else s.allocationRefresh)
            && x.maintenanceRefresh == (if Ripe(s.maintenanceRefresh, now)
                                        then Some(now + c.profile.maintenanceRefresh) else s.maintenanceRefresh)
            && x.permissionRetry == s.permissionRetry && x.channelRetry == s.channelRetry
            && (HasOperation(x.pending, Permission) <==> HasOperation(s.pending, Permission))
            && (HasOperation(x.pending, Channel) <==> HasOperation(s.pending, Channel))
  {
    hide *;
    RefreshBegins(c, s, now, draws);
    var a := PollRefresh(c, s, now, draws.refresh).core;
    ReschedulingKeeps(c, s, a, First(s, now), draws, Ripe(s.maintenanceRefresh, now), now);
    ReschedulingIs(c, a, Ripe(s.maintenanceRefresh, now), now);
  }

  lemma ReschedulingIs(c: Config, s: Core, due: bool, now: time)
    ensures var t := Rescheduling(c, s, due, now);
            && t == s.(maintenanceRefresh := t.maintenanceRefresh)
            && t.maintenanceRefresh == (if due then Some(now + c.profile.maintenanceRefresh) else s.maintenanceRefresh)
  {
  }

  lemma StageLeaves(c: Config, s: Core, t: Core, begins: bool, operation: Operation, draw: Draw)
    requires HasCredentials(s) && Stage(c, s, t, begins, operation, draw)
    ensures t.maintenanceRefresh == s.maintenanceRefresh && t.keepalive == s.keepalive && t.channel == s.channel
  {
  }

  lemma SecondStage(c: Config, s: Core, x: Core, now: time, draws: PollDraws)
    requires HasCredentials(s) && Underway(c, s, x, First(s, now), draws)
    requires x.permissionRetry == s.permissionRetry
    requires HasOperation(x.pending, Permission) <==> HasOperation(s.pending, Permission)
    requires HasOperation(x.pending, Channel) <==> HasOperation(s.pending, Channel)
    ensures var due := Ripe(s.maintenanceRefresh, now) || Ripe(s.permissionRetry, now);
            var b := PollPermission(c, x, due, draws.permission);
            && b.ok && b.any == (Second(s, now) != [])
            && Underway(c, s, b.core, First(s, now) + Second(s, now), draws)
            && b.core.permissionRetry == (if Second(s, now) != [] then None else s.permissionRetry)
            && b.core.allocationRefresh == x.allocationRefresh && b.core.channelRetry == x.channelRetry
            && b.core.maintenanceRefresh == x.maintenanceRefresh
            && (HasOperation(b.core.pending, Channel) <==> HasOperation(s.pending, Channel))
  {
    var due := Ripe(s.maintenanceRefresh, now) || Ripe(s.permissionRetry, now);
    UnderwayCredentials(c, s, x, First(s, now), draws);
    PermissionStage(c, x, due, draws.permission);
    PollPermissionKeeps(c, x, due, draws.permission);
    hide First;
    hide PollPermission;
    hide Underway;
    hide Stage;
    hide Inv;
    hide HasCredentials;
    hide HasOperation;
    hide Ripe;
    var b := PollPermission(c, x, due, draws.permission);
    StillAwaited(c, x, b.core, b.any, Permission, draws.permission, Channel);
    StageLeaves(c, x, b.core, b.any, Permission, draws.permission);
    assert DrawFor(draws, Permission) == draws.permission;
    Underways(c, s, x, b.core, First(s, now), b.any, Permission, draws);
  }

  lemma ThirdStage(c: Config, s: Core, x: Core, operations: seq<Operation>, now: time, draws: PollDraws)
    requires HasCredentials(s) && Underway(c, s, x, operations, draws)
    requires x.channelRetry == s.channelRetry
    requires HasOperation(x.pending, Channel) <==> HasOperation(s.pending, Channel)
    ensures var due := Ripe(s.maintenanceRefresh, now) || Ripe(s.channelRetry, now);
            var d := PollChannel(c, x, due, draws.channel);
            && d.ok && d.any == (Third(s, now) != [])
            && Underway(c, s, d.core, operations + Third(s, now), draws)
            && d.core.channelRetry == (if Third(s, now) != [] then None else s.channelRetry)
            && d.core.allocationRefresh == x.allocationRefresh && d.core.permissionRetry == x.permissionRetry
            && d.core.maintenanceRefresh == x.maintenanceRefresh
  {
    var due := Ripe(s.maintenanceRefresh, now) || Ripe(s.channelRetry, now);
    UnderwayCredentials(c, s, x, operations, draws);
    ChannelStage(c, x, due, draws.channel);
    PollChannelKeeps(c, x, due, draws.channel);
    hide PollChannel;
    hide Underway;
    hide Stage;
    hide Inv;
    hide HasCredentials;
    hide HasOperation;
    hide Ripe;
    var d := PollChannel(c, x, due, draws.channel);
    StageLeaves(c, x, d.core, d.any, Channel, draws.channel);
    assert DrawFor(draws, Channel) == draws.channel;
    Underways(c, s, x, d.core, operations, d.any, Channel, draws);
  }

  lemma RipeIsDue(deadline: Option<time>, now: time)
    ensures Ripe(deadline, now) <==> Due(deadline, now)
  {
  }

  lemma MaintenanceIs(c: Config, s: Core, now: time, draws: PollDraws)
    requires Inv(c, s) && s.state == Ready
    ensures var a := PollRefresh(c, s, now, draws.refresh);
            var m := Ripe(s.maintenanceRefresh, now);
            var b := PollPermission(c, Rescheduling(c, a.core, m, now), m || Ripe(s.permissionRetry, now),
                                    draws.permission);
            var d := PollChannel(c, b.core, m || Ripe(s.channelRetry, now), draws.channel);
            a.ok && b.ok && d.ok ==>
              PollMaintenance(c, s, now, draws)
              == Outcome(PollKeepalive(c, d.core, now, a.any || b.any || d.any), true)
  {
    RipeIsDue(s.maintenanceRefresh, now);
    RipeIsDue(s.permissionRetry, now);
    RipeIsDue(s.channelRetry, now);
    hide PollRefresh;
    hide PollPermission;
    hide PollChannel;
    hide PollKeepalive;
    hide Ripe;
    hide Due;
    hide Inv;
  }

  lemma MaintainsGathers(c: Config, s: Core, d: Core, t: Core, now: time, draws: PollDraws)
    requires HasCredentials(s) && |s.controls| <= 16
    requires Underway(c, s, d, Needed(s, now), draws)
    requires d == Reset(c, s, now).(keepalive := s.keepalive, pending := d.pending, controls := d.controls,
                                    events := d.events, emitted := d.emitted)
    requires t == d.(keepalive := t.keepalive, controls := t.controls, events := t.events, emitted := t.emitted)
    requires t.keepalive == Reset(c, s, now).keepalive
    requires t.controls == Newest(d.controls + Sounds(s, now))
    ensures Upkeeps(c, s, t, now, draws)
  {
    hide Needed;
    hide Sounds;
    hide IsBegun;
    hide Inv;
    var packets := Packets(d.pending[|s.pending|..]);
    assert s.controls + packets + [] == s.controls + packets;
    NewestTwice(s.controls, packets, Sounds(s, now));
    hide Newest;
  }

  lemma ResetIs(c: Config, s: Core, d: Core, now: time, draws: PollDraws)
    requires HasCredentials(s) && Underway(c, s, d, Needed(s, now), draws)
    requires d.allocationRefresh == (if First(s, now) != [] then None else s.allocationRefresh)
    requires d.permissionRetry == (if Second(s, now) != [] then None else s.permissionRetry)
    requires d.channelRetry == (if Third(s, now) != [] then None else s.channelRetry)
    requires d.maintenanceRefresh == (if Ripe(s.maintenanceRefresh, now)
                                      then Some(now + c.profile.maintenanceRefresh) else s.maintenanceRefresh)
    ensures d == Reset(c, s, now).(keepalive := s.keepalive, pending := d.pending, controls := d.controls,
                                   events := d.events, emitted := d.emitted)
    ensures Inv(c, d) && d.keepalive == s.keepalive && d.channel == s.channel
  {
    NeededIs(s, now);
    hide Needed;
    hide First;
    hide Second;
    hide Third;
    hide Begins;
    hide Inv;
  }

  lemma SoundsIs(c: Config, s: Core, now: time)
    ensures Reset(c, s, now).keepalive
            == if Ripe(s.keepalive, now) then Some(now + c.profile.keepaliveInterval) else s.keepalive
    ensures Sounds(s, now)
            == if Ripe(s.keepalive, now) && Needed(s, now) == [] && s.channel.Some? then [KEEPALIVE] else []
  {
    hide Needed;
    hide Ripe;
  }

  lemma KeepaliveIs(c: Config, s: Core, d: Core, now: time, draws: PollDraws)
    requires Inv(c, s) && Inv(c, d) && HasCredentials(s) && Underway(c, s, d, Needed(s, now), draws)
    requires d == Reset(c, s, now).(keepalive := s.keepalive, pending := d.pending, controls := d.controls,
                                    events := d.events, emitted := d.emitted)
    requires d.keepalive == s.keepalive && d.channel == s.channel
    ensures Upkeeps(c, s, PollKeepalive(c, d, now, Needed(s, now) != []), now, draws)
  {
    hide *;
    var started := Needed(s, now) != [];
    SoundsIs(c, s, now);
    ChannelKnown(c, s);
    ChannelKnown(c, d);
    KeepaliveStage(c, d, now, started);
    MaintainsGathers(c, s, d, PollKeepalive(c, d, now, started), now, draws);
  }

  /** What maintenance does, for every state of the timers. */
  lemma MaintenanceOutcome(c: Config, s: Core, now: time, draws: PollDraws)
    requires Inv(c, s) && s.state == Ready
    ensures HasCredentials(s)
    ensures var r := PollMaintenance(c, s, now, draws);
            r.ok && Upkeeps(c, s, r.core, now, draws)
  {
    hide *;
    ReadyToStart(c, s);
    NeededIs(s, now);
    MaintenanceIs(c, s, now, draws);
    FirstStage(c, s, now, draws);
    var m := Ripe(s.maintenanceRefresh, now);
    var x := Rescheduling(c, PollRefresh(c, s, now, draws.refresh).core, m, now);
    SecondStage(c, s, x, now, draws);
    var b := PollPermission(c, x, m || Ripe(s.permissionRetry, now), draws.permission).core;
    ThirdStage(c, s, b, First(s, now) + Second(s, now), now, draws);
    var d := PollChannel(c, b, m || Ripe(s.channelRetry, now), draws.channel).core;
    ResetIs(c, s, d, now, draws);
    KeepaliveIs(c, s, d, now, draws);
  }

  // ---------------------------------------------------------------- a whole poll

  /** The client after a poll has looked at its transactions and at its expiry. */
  function Looked(c: Config, s: Core, now: time): Core {
    CheckExpiry(ExpireFrom(c, s, now, 0), now)
  }

  /** An allocation that has run out ends, and the driver is told that its refresh timed out. */
  lemma ExpiryOutcome(s: Core, now: time)
    requires |s.events| <= EVENT_CAPACITY
    ensures var t := CheckExpiry(s, now);
            if s.state == Ready && !s.shuttingDown && Ripe(s.allocationExpires, now)
            then Ends(s, t, Refresh, Told(s, Refresh, Timeout, 0))
            else t == s
  {
    DestroyEndsIt(s, Refresh, Timeout, 0);
    hide DestroyAllocation;
    hide Ends;
    hide Told;
  }

  /** The instants at which the client wants to be polled. */
  ghost predicate Wants(t: Core, d: time) {
    || (exists p :: p in t.pending && p.nextAttempt == d)
    || Some(d) in {t.allocationRefresh, t.maintenanceRefresh, t.permissionRetry, t.channelRetry, t.keepalive}
  }

  /** The delay of a poll: none when nothing is wanted, else up to the first instant wanted, but at least
      a millisecond. */
  ghost predicate Waits(t: Core, now: time, delay: Option<time>) {
    match delay
    case None => forall d :: !Wants(t, d)
    case Some(n) =>
      && n >= MS
      && (exists d :: Wants(t, d))
      && (forall d :: Wants(t, d) ==> now + n <= d || n == MS)
      && (n > MS ==> Wants(t, now + n))
  }

  lemma {:induction false} FirstAttempt(pending: seq<Pending>)
    ensures var first := NextAttempts(pending);
            && (first.None? <==> pending == [])
            && (first.Some? ==> exists p :: p in pending && p.nextAttempt == first.value)
            && (first.Some? ==> forall p :: p in pending ==> first.value <= p.nextAttempt)
  {
    if pending != [] {
      FirstAttempt(pending[1..]);
      assert forall p :: p in pending <==> p == pending[0] || p in pending[1..];
    }
  }

  lemma SoonerIs(a: Option<time>, b: Option<time>)
    ensures Sooner(a, b).None? <==> a.None? && b.None?
    ensures Sooner(a, b).Some? ==> Sooner(a, b) in {a, b}
    ensures a.Some? ==> Sooner(a, b).value <= a.value
    ensures b.Some? ==> Sooner(a, b).value <= b.value
  {
  }

  lemma FirstWanted(t: Core)
    ensures var first := NextDeadline(t);
            && (first.None? ==> forall d :: !Wants(t, d))
            && (first.Some? ==> Wants(t, first.value) && forall d :: Wants(t, d) ==> first.value <= d)
  {
    FirstAttempt(t.pending);
    var e := Sooner(t.channelRetry, t.keepalive);
    var d := Sooner(t.permissionRetry, e);
    var b := Sooner(t.maintenanceRefresh, d);
    var a := Sooner(t.allocationRefresh, b);
    SoonerIs(t.channelRetry, t.keepalive);
    SoonerIs(t.permissionRetry, e);
    SoonerIs(t.maintenanceRefresh, d);
    SoonerIs(t.allocationRefresh, b);
    SoonerIs(NextAttempts(t.pending), a);
    hide Sooner;
    hide NextAttempts;
  }

  lemma DelayWaits(t: Core, now: time)
    ensures Waits(t, now, Delay(NextDeadline(t), now))
  {
    FirstWanted(t);
    hide NextDeadline;
    hide Wants;
  }

  lemma LookedKeeps(c: Config, s: Core, now: time)
    requires Inv(c, s)
    ensures Inv(c, Looked(c, s, now))
  {
    ExpireKeeps(c, s, now, 0);
    CheckExpiryKeeps(c, ExpireFrom(c, s, now, 0), now);
    hide Inv;
    hide ExpireFrom;
    hide CheckExpiry;
  }

  /** What a poll does: it looks at transactions and expiry, maintains a client that is READY then, and says
      when to come back. */
  lemma PollOutcome(c: Config, s: Core, now: time, draws: PollDraws)
    requires Inv(c, s)
    ensures var r := Poll(c, s, now, draws);
            && r.ok
            && if s.destroyed then r.core == s && r.delay.None?
               else
                 && Waits(r.core, now, r.delay)
                 && var x := Looked(c, s, now);
                    if x.state == Ready && !x.shuttingDown then
                      HasCredentials(x) && Upkeeps(c, x, r.core, now, draws)
                    else r.core == x
  {
    LookedKeeps(c, s, now);
    var x := Looked(c, s, now);
    if x.state == Ready {
      MaintenanceOutcome(c, x, now, draws);
    }
    DelayWaits(Poll(c, s, now, draws).core, now);
    hide Inv;
    hide ExpireFrom;
    hide CheckExpiry;
    hide PollMaintenance;
    hide Upkeeps;
    hide Waits;
    hide Delay;
    hide NextDeadline;
    hide HasCredentials;
  }

  // ---------------------------------------------------------------- the keepalive

  function Keepalives(packets: seq<bytes>): nat {
    multiset(packets)[KEEPALIVE]
  }

  lemma KeepalivesOf(a: seq<bytes>, b: seq<bytes>)
    ensures Keepalives(a + b) == Keepalives(a) + Keepalives(b)
    ensures Keepalives(Newest(a)) <= Keepalives(a)
  {
    assert a == a[..|a| - |Newest(a)|] + Newest(a);
    var dropped := a[..|a| - |Newest(a)|];
    assert multiset(a) == multiset(dropped) + multiset(Newest(a));
  }

  lemma NoKeepalives(packets: seq<bytes>)
    requires forall k :: k in packets ==> |k| >= 20
    ensures Keepalives(packets) == 0
  {
    assert KEEPALIVE !in packets;
  }

  lemma {:induction false} WithoutKeepalives(controls: seq<bytes>, transaction: Octets12)
    ensures Keepalives(WithoutTransaction(controls, transaction)) <= Keepalives(controls)
  {
    if controls != [] {
      WithoutKeepalives(controls[1..], transaction);
      assert controls == [controls[0]] + controls[1..];
      var head := if CarriesTransaction(controls[0], transaction) then [] else [controls[0]];
      KeepalivesOf(head, WithoutTransaction(controls[1..], transaction));
      KeepalivesOf([controls[0]], controls[1..]);
      assert Keepalives([]) == 0;
      hide Keepalives;
    }
  }

  lemma FailureQueues(s: Core, operation: Operation, status: Status, code: nat, now: time)
    requires |s.events| <= EVENT_CAPACITY
    ensures var t := CompleteFailure(s, operation, status, code, now);
            t.controls == s.controls || t.controls == []
  {
    FailureOutcome(s, operation, status, code, now);
    hide CompleteFailure;
    hide BackoffSeconds;
    hide Told;
  }

  lemma PendingPacket(c: Config, s: Core, i: nat)
    requires Inv(c, s) && i < |s.pending|
    ensures |s.pending[i].packet| >= 20 && |s.controls| <= CONTROL_CAPACITY && |s.events| <= EVENT_CAPACITY
  {
    hide IsRequest;
    hide Scheduled;
    assert PendingOk(c, s, s.pending[i]);
  }

  /** Looking at the transactions queues none. */
  lemma {:induction false} ExpireKeepalives(c: Config, s: Core, now: time, index: nat)
    requires Inv(c, s)
    ensures Keepalives(ExpireFrom(c, s, now, index).controls) <= Keepalives(s.controls)
    decreases |s.pending| - index
  {
    hide Inv;
    hide CompleteFailure;
    hide QueuePacket;
    hide Retransmit;
    hide Keepalives;
    if index < |s.pending| {
      var p := s.pending[index];
      PendingPacket(c, s, index);
      if now < p.nextAttempt {
        ExpireKeepalives(c, s, now, index + 1);
      } else if p.transmissions >= MAX_TRANSMISSIONS || c.transport == Stream {
        var taken := TakePending(s, index);
        ExpiredKeeps(c, s, now, index);
        WithoutKeepalives(s.controls, p.transaction);
        NoKeepalives([]);
        FailureQueues(taken, p.operation, Timeout, 0, now);
        ExpireKeepalives(c, CompleteFailure(taken, p.operation, Timeout, 0, now), now, index);
      } else {
        RetransmitKeeps(c, s, now, index);
        QueuedLast(s, p.packet);
        KeepalivesOf(s.controls, [p.packet]);
        KeepalivesOf(s.controls + [p.packet], []);
        NoKeepalives([p.packet]);
        hide Newest;
        var t := QueuePacket(s, p.packet);
        ExpireKeepalives(c, t.(pending := t.pending[index := Retransmit(p, now)]), now, index + 1);
      }
    }
  }

  lemma LookedKeepalives(c: Config, s: Core, now: time)
    requires Inv(c, s)
    ensures Keepalives(Looked(c, s, now).controls) <= Keepalives(s.controls)
  {
    ExpireKeepalives(c, s, now, 0);
    ExpireKeeps(c, s, now, 0);
    var e := ExpireFrom(c, s, now, 0);
    EventsBounded(c, e);
    ExpiryOutcome(e, now);
    NoKeepalives([]);
    hide ExpireFrom;
    hide CheckExpiry;
    hide Keepalives;
    hide Told;
    hide Inv;
  }

  lemma BegunPackets(c: Config, s: Core, pending: seq<Pending>, operations: seq<Operation>, draws: PollDraws)
    requires HasCredentials(s) && CredentialsBounded(c, s) && EachBegun(c, s, pending, operations, draws)
    ensures Keepalives(Packets(pending)) == 0
  {
    forall k | 0 <= k < |pending| ensures |Packets(pending)[k]| >= 20 {
      var auth := Auth(c.username, s.realm.value, s.nonce.value, s.key.value);
      assert IsBegun(c, s, pending[k], operations[k], DrawFor(draws, operations[k]));
      RequestBuilds(c.crypto, operations[k], c.peer, DrawFor(draws, operations[k]).transaction, Some(auth));
    }
    hide IsBegun;
    NoKeepalives(Packets(pending));
  }

  lemma MaintainsKeepalives(c: Config, s: Core, t: Core, now: time, draws: PollDraws)
    requires HasCredentials(s) && CredentialsBounded(c, s) && Upkeeps(c, s, t, now, draws)
    requires Sounds(s, now) == []
    ensures Keepalives(t.controls) <= Keepalives(s.controls)
  {
    var begun := t.pending[|s.pending|..];
    BegunPackets(c, s, begun, Needed(s, now), draws);
    KeepalivesOf(s.controls, Packets(begun));
    KeepalivesOf(s.controls + Packets(begun), []);
    assert s.controls + Packets(begun) + [] == s.controls + Packets(begun);
    hide Keepalives;
    hide Newest;
    hide EachBegun;
    hide Reset;
    hide Needed;
  }

  lemma MaintainsQuiet(c: Config, s: Core, t: Core, now: time, draws: PollDraws)
    requires HasCredentials(s) && Upkeeps(c, s, t, now, draws) && Needed(s, now) == []
    ensures |t.pending| == |s.pending| && t.controls == Newest(s.controls + Sounds(s, now))
  {
    assert t.pending[|s.pending|..] == [];
    assert s.controls + Packets([]) == s.controls;
    hide Newest;
    hide Reset;
    hide Sounds;
  }

  lemma MaintainsBusy(c: Config, s: Core, t: Core, now: time, draws: PollDraws)
    requires HasCredentials(s) && Upkeeps(c, s, t, now, draws) && Needed(s, now) != []
    ensures |t.pending| > |s.pending|
  {
    hide Needed;
    hide IsBegun;
    hide Newest;
    hide Reset;
    hide Sounds;
  }

  lemma MaintainsLeaves(c: Config, s: Core, t: Core, now: time, draws: PollDraws)
    requires HasCredentials(s) && Upkeeps(c, s, t, now, draws)
    ensures t.state == s.state && t.channel == s.channel
    ensures t.keepalive == (if Ripe(s.keepalive, now) then Some(now + c.profile.keepaliveInterval) else s.keepalive)
  {
    hide Needed;
    hide Begins;
    hide Sounds;
  }

  lemma LookedKeepsPace(c: Config, s: Core, now: time)
    requires Inv(c, s)
    ensures KeepsPace(s, Looked(c, s, now))
  {
    ExpireKeeps(c, s, now, 0);
    ExpireKeepsPace(c, s, now, 0);
    CheckKeepsPace(c, ExpireFrom(c, s, now, 0), now);
    hide Inv;
    hide ExpireFrom;
    hide CheckExpiry;
  }

  lemma ReadyIsOpen(c: Config, s: Core)
    requires Inv(c, s)
    ensures s.state == Ready ==> !s.shuttingDown && !s.destroyed && s.keepalive.Some? && CredentialsBounded(c, s)
  {
    hide PendingOk;
    hide Owned;
    hide HasOperation;
  }

  /** The poll that finds the keepalive due queues one, with a bound channel and unless it begins a request;
      its eight octets are ChannelData on channel 0x4000. No other poll queues any. */
  lemma KeepaliveIsSent(c: Config, s: Core, now: time, draws: PollDraws)
    requires Inv(c, s)
    ensures var x, t := Looked(c, s, now), Poll(c, s, now, draws).core;
            if t.state == Ready && Ripe(s.keepalive, now) && t.channel.Some? && |t.pending| <= |x.pending|
            then t.controls == Newest(x.controls + [[0x40, 0, 0, 1, 0xff, 0, 0, 0]])
            else Keepalives(t.controls) <= Keepalives(s.controls)
  {
    hide *;
    var x, t := Looked(c, s, now), Poll(c, s, now, draws).core;
    LookedKeeps(c, s, now);
    LookedKeepalives(c, s, now);
    LookedKeepsPace(c, s, now);
    PollOutcome(c, s, now, draws);
    ReadyIsOpen(c, s);
    ReadyIsOpen(c, x);
    PaceIs(s, x);
    if !s.destroyed && x.state == Ready {
      MaintainsLeaves(c, x, t, now, draws);
      SoundsIs(c, x, now);
      if Needed(x, now) == [] {
        MaintainsQuiet(c, x, t, now, draws);
      } else {
        MaintainsBusy(c, x, t, now, draws);
      }
      if Sounds(x, now) == [] {
        MaintainsKeepalives(c, x, t, now, draws);
      }
    }
    KeepaliveIsThis();
  }

  lemma KeepaliveIsThis()
    ensures KEEPALIVE == [0x40, 0, 0, 1, 0xff, 0, 0, 0]
  {
  }

  lemma PaceIs(s: Core, x: Core)
    requires KeepsPace(s, x)
    ensures x.state == Ready ==> s.state == Ready && x.keepalive == s.keepalive
  {
  }
}
