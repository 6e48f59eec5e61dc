/** What one call does to the pending transaction of an operation: it goes, stays as it is, is sent
    again, or another one is started in its place. */
module TurnEntries {
  import opened Bytes
  import opened Addresses
  import opened StunMessages
  import opened StunBuilder
  import opened TurnRequests
  import opened TurnState
  import opened TurnSafety

  // ---------------------------------------------------------------- the transaction of an operation

  /** The first pending transaction of an operation; under the invariant there is at most one. */
  function Of(pending: seq<Pending>, o: Operation): (p: Option<Pending>)
    ensures p.Some? <==> HasOperation(pending, o)
    ensures p.Some? ==> p.value in pending && p.value.operation == o
  {
    if pending == [] then None
    else if pending[0].operation == o then Some(pending[0])
    else
      assert HasOperation(pending[1..], o) ==> HasOperation(pending, o) by {
        if HasOperation(pending[1..], o) {
          var j :| 0 <= j < |pending[1..]| && pending[1..][j].operation == o;
          assert pending[j + 1].operation == o;
        }
      }
      assert HasOperation(pending, o) ==> HasOperation(pending[1..], o) by {
        if HasOperation(pending, o) {
          var j :| 0 <= j < |pending| && pending[j].operation == o;
          assert pending[1..][j - 1].operation == o;
        }
      }
      Of(pending[1..], o)
  }

  lemma OfAt(pending: seq<Pending>, i: nat)
    requires Distinct(pending) && i < |pending|
    ensures Of(pending, pending[i].operation) == Some(pending[i])
  {
    var p := Of(pending, pending[i].operation);
    assert HasOperation(pending, pending[i].operation);
    var j :| 0 <= j < |pending| && pending[j] == p.value;
    assert i == j;
  }

  /** Under distinct operations, `Of` is determined by membership. */
  lemma OfMember(pending: seq<Pending>, p: Pending)
    requires Distinct(pending) && p in pending
    ensures Of(pending, p.operation) == Some(p)
  {
    var i :| 0 <= i < |pending| && pending[i] == p;
    OfAt(pending, i);
  }

  lemma {:induction false} OfAppend(pending: seq<Pending>, p: Pending, o: Operation)
    ensures Of(pending + [p], o)
            == if HasOperation(pending, o) then Of(pending, o) else if p.operation == o then Some(p) else None
  {
    if pending == [] {
      assert (pending + [p])[1..] == [];
    } else {
      assert (pending + [p])[1..] == pending[1..] + [p] && (pending + [p])[0] == pending[0];
      OfAppend(pending[1..], p, o);
      assert Of(pending, o).Some? <==> HasOperation(pending, o);
      assert Of(pending[1..], o).Some? <==> HasOperation(pending[1..], o);
    }
  }

  lemma OfWithout(pending: seq<Pending>, i: nat, o: Operation)
    requires Distinct(pending) && i < |pending|
    ensures Of(Without(pending, i), o) == if pending[i].operation == o then None else Of(pending, o)
  {
    WithoutHas(pending, i);
    hide HasOperation;
    hide Of;
    var rest := Without(pending, i);
    if Of(rest, o).Some? {
      var p := Of(rest, o).value;
      WithoutMember(pending, i, p);
      OfMember(pending, p);
    }
  }

  lemma WithoutMember(pending: seq<Pending>, i: nat, p: Pending)
    requires i < |pending| && p in Without(pending, i)
    ensures p in pending
  {
    var rest := Without(pending, i);
    var j :| 0 <= j < |rest| && rest[j] == p;
    assert pending[if j < i then j else j + 1] == p;
  }

  lemma OfReplaced(pending: seq<Pending>, i: nat, p: Pending, o: Operation)
    requires Distinct(pending) && i < |pending| && p.operation == pending[i].operation
    ensures Distinct(pending[i := p])
    ensures Of(pending[i := p], o) == if p.operation == o then Some(p) else Of(pending, o)
  {
    var more := pending[i := p];
    assert forall j :: 0 <= j < |pending| ==> more[j].operation == pending[j].operation;
    OfAt(more, i);
    if p.operation != o {
      if Of(more, o).Some? {
        var q := Of(more, o).value;
        var j :| 0 <= j < |more| && more[j] == q;
        assert pending[j] == q;
        OfAt(pending, j);
      } else {
        assert forall j :: 0 <= j < |pending| ==> pending[j].operation == more[j].operation != o;
      }
    }
  }

  lemma InvDistinct(c: Config, s: Core)
    requires Inv(c, s)
    ensures Distinct(s.pending)
  {
    hide IsRequest;
    hide Scheduled;
  }

  // ---------------------------------------------------------------- starting

  /** A transaction just started, at or after `t`, as the `retries`-th answer to a challenge. */
  predicate Anew(c: Config, p: Pending, t: time, retries: nat) {
    && p.transmissions == 1 && p.rto == INITIAL_RTO && p.nonceRetries == retries
    && t <= p.started && p.nextAttempt == p.started + TransactionTimeout(c)
  }

  /** A start either changes no pending transaction or appends a new one. */
  lemma StartPending(c: Config, s: Core, operation: Operation, authenticated: bool, retries: nat, draw: Draw)
      returns (packet: bytes)
    ensures var r := StartOperation(c, s, operation, authenticated, retries, draw);
            || r.core.pending == s.pending
            || (r.ok && !HasOperation(s.pending, operation)
                && r.core.pending
                   == s.pending + [NewPending(c, operation, packet, authenticated, retries, draw)])
    ensures var r := StartOperation(c, s, operation, authenticated, retries, draw); !r.ok ==> r.core == s
  {
    hide BuildRequest;
    hide NewPending;
    hide QueuePacket;
    packet := [];
    if HasOperation(s.pending, operation) {
      QueueStays(s, s.pending[FirstOf(s.pending, operation)].packet);
    } else if !(authenticated && !HasCredentials(s)) {
      var r := BuildRequest(c.crypto, operation, c.peer, draw.transaction, AuthOf(c, s, authenticated));
      if r.Ok? {
        packet := r.value;
        QueueStays(s, packet);
      }
    }
  }

  lemma StartEntry(c: Config, s: Core, operation: Operation, authenticated: bool, retries: nat, draw: Draw,
                   t: time, o: Operation)
    requires t <= draw.clock
    ensures var u := Of(StartOperation(c, s, operation, authenticated, retries, draw).core.pending, o);
            || u == Of(s.pending, o)
            || (o == operation && Of(s.pending, o) == None && u.Some? && Anew(c, u.value, t, retries))
  {
    hide StartOperation;
    hide Of;
    hide HasOperation;
    var packet := StartPending(c, s, operation, authenticated, retries, draw);
    OfAppend(s.pending, NewPending(c, operation, packet, authenticated, retries, draw), o);
  }

  // ---------------------------------------------------------------- expiring

  /** What a look at `now` makes of a transaction that does not time out. */
  function Looked(p: Pending, now: time): Pending {
    if now < p.nextAttempt then p else Retransmit(p, now)
  }

  predicate TimesOut(c: Config, p: Pending, now: time) {
    now >= p.nextAttempt && (p.transmissions >= MAX_TRANSMISSIONS || c.transport == Stream)
  }

  predicate Passed(pending: seq<Pending>, index: nat, o: Operation) {
    exists j :: 0 <= j < index && j < |pending| && pending[j].operation == o
  }

  /** What is left of a transaction after expiry: nothing, or, from `index` on, what a look at it makes
      of one that does not time out. */
  ghost predicate Aged(c: Config, before: seq<Pending>, after: seq<Pending>, now: time, index: nat,
                       o: Operation)
  {
    var e, f := Of(before, o), Of(after, o);
    f.Some? ==>
      && e.Some?
      && if Passed(before, index, o) then f == e
         else !TimesOut(c, e.value, now) && f == Some(Looked(e.value, now))
  }

  lemma {:induction false} ExpireEntry(c: Config, s: Core, now: time, index: nat, o: Operation)
    requires Inv(c, s)
    ensures Aged(c, s.pending, ExpireFrom(c, s, now, index).pending, now, index, o)
    decreases |s.pending| - index
  {
    hide Inv;
    hide CompleteFailure;
    hide TakePending;
    hide QueuePacket;
    hide Retransmit;
    hide Aged;
    hide Of;
    if index >= |s.pending| {
      NothingAged(c, s.pending, now, index, o);
    } else {
      var p := s.pending[index];
      InvDistinct(c, s);
      if now < p.nextAttempt {
        ExpireEntry(c, s, now, index + 1, o);
        AgedKept(c, s.pending, ExpireFrom(c, s, now, index + 1).pending, now, index, o);
      } else if p.transmissions >= MAX_TRANSMISSIONS || c.transport == Stream {
        ExpiredKeeps(c, s, now, index);
        var next := CompleteFailure(TakePending(s, index), p.operation, Timeout, 0, now);
        ExpireEntry(c, next, now, index, o);
        TakenPending(s, index);
        AgedGone(c, s.pending, next.pending, ExpireFrom(c, next, now, index).pending, now, index, o);
      } else {
        RetransmitKeeps(c, s, now, index);
        QueueStays(s, p.packet);
        var t := QueuePacket(s, p.packet);
        var next := t.(pending := t.pending[index := Retransmit(p, now)]);
        ExpireEntry(c, next, now, index + 1, o);
        AgedSent(c, s.pending, next.pending, ExpireFrom(c, next, now, index + 1).pending, now, index, o);
      }
    }
  }

  lemma TakenPending(s: Core, i: nat)
    requires i < |s.pending|
    ensures TakePending(s, i).pending == Without(s.pending, i)
  {
  }

  lemma NothingAged(c: Config, pending: seq<Pending>, now: time, index: nat, o: Operation)
    requires index >= |pending|
    ensures Aged(c, pending, pending, now, index, o)
  {
    if Of(pending, o).Some? {
      var j :| 0 <= j < |pending| && pending[j].operation == o;
      assert Passed(pending, index, o);
    }
  }

  lemma AgedKept(c: Config, before: seq<Pending>, after: seq<Pending>, now: time, index: nat, o: Operation)
    requires Distinct(before) && index < |before| && now < before[index].nextAttempt
    requires Aged(c, before, after, now, index + 1, o)
    ensures Aged(c, before, after, now, index, o)
  {
    OfAt(before, index);
    hide Of;
    if before[index].operation == o {
      assert Passed(before, index + 1, o);
      assert !Passed(before, index, o);
    } else {
      assert Passed(before, index, o) <==> Passed(before, index + 1, o);
    }
  }

  lemma AgedGone(c: Config, before: seq<Pending>, next: seq<Pending>, after: seq<Pending>, now: time,
                 index: nat, o: Operation)
    requires Distinct(before) && index < |before|
    requires next == Without(before, index) || next == []
    requires Aged(c, next, after, now, index, o)
    ensures Aged(c, before, after, now, index, o)
  {
    OfWithout(before, index, o);
    hide Of;
    if next != [] && before[index].operation != o {
      assert forall j :: 0 <= j < index ==> next[j] == before[j];
      assert Passed(before, index, o) ==> Passed(next, index, o) by {
        if Passed(before, index, o) {
          var j :| 0 <= j < index && j < |before| && before[j].operation == o;
          assert next[j].operation == o;
        }
      }
      assert Passed(next, index, o) ==> Passed(before, index, o) by {
        if Passed(next, index, o) {
          var j :| 0 <= j < index && j < |next| && next[j].operation == o;
          assert before[j].operation == o;
        }
      }
    }
  }

  lemma AgedSent(c: Config, before: seq<Pending>, next: seq<Pending>, after: seq<Pending>, now: time,
                 index: nat, o: Operation)
    requires Distinct(before) && index < |before|
    requires now >= before[index].nextAttempt && !TimesOut(c, before[index], now)
    requires next == before[index := Retransmit(before[index], now)]
    requires Aged(c, next, after, now, index + 1, o)
    ensures Aged(c, before, after, now, index, o)
  {
    OfReplaced(before, index, Retransmit(before[index], now), o);
    OfAt(before, index);
    hide Of;
    if before[index].operation == o {
      assert next[index].operation == o;
      assert Passed(next, index + 1, o);
      assert !Passed(before, index, o);
    } else {
      PassedSame(before, next, index, o);
    }
  }

  lemma PassedSame(before: seq<Pending>, next: seq<Pending>, index: nat, o: Operation)
    requires index < |before| == |next| && before[index].operation != o
    requires forall j :: 0 <= j < |before| ==> next[j].operation == before[j].operation
    ensures Passed(before, index, o) <==> Passed(next, index + 1, o)
  {
    if Passed(before, index, o) {
      var j :| 0 <= j < index && j < |before| && before[j].operation == o;
      assert next[j].operation == o;
    }
    if Passed(next, index + 1, o) {
      var j :| 0 <= j < index + 1 && j < |next| && next[j].operation == o;
      assert before[j].operation == o;
    }
  }

  // ---------------------------------------------------------------- polling

  /** The client after the expiring part of a poll. */
  function Expired(c: Config, s: Core, now: time): Core {
    CheckExpiry(ExpireFrom(c, s, now, 0), now)
  }

  lemma ExpiredEntry(c: Config, s: Core, now: time, o: Operation)
    requires Inv(c, s)
    ensures Aged(c, s.pending, Expired(c, s, now).pending, now, 0, o)
  {
    ExpireEntry(c, s, now, 0, o);
    CheckPending(ExpireFrom(c, s, now, 0), now);
    hide ExpireFrom;
    hide CheckExpiry;
  }

  lemma CheckPending(s: Core, now: time)
    ensures CheckExpiry(s, now).pending == s.pending || CheckExpiry(s, now).pending == []
  {
    DestroyedPending(s, Refresh, Timeout, 0);
    hide DestroyAllocation;
  }

  lemma DestroyedPending(s: Core, operation: Operation, status: Status, code: nat)
    ensures DestroyAllocation(s, operation, status, code).pending == []
  {
    hide RelayOf;
  }

  /** The old transaction, or a new one where there was none. */
  ghost predicate KeptOrAnew(c: Config, before: seq<Pending>, after: seq<Pending>, t: time, o: Operation) {
    || Of(after, o) == Of(before, o)
    || (Of(before, o) == None && Of(after, o).Some? && Anew(c, Of(after, o).value, t, 0))
  }

  lemma PollRefreshEntry(c: Config, s: Core, now: time, draw: Draw, t: time, o: Operation)
    requires t <= draw.clock
    ensures KeptOrAnew(c, s.pending, PollRefresh(c, s, now, draw).core.pending, t, o)
  {
    StartEntry(c, s.(allocationRefresh := None), Refresh, true, 0, draw, t, o);
    hide StartOperation;
  }

  lemma PollPermissionEntry(c: Config, s: Core, due: bool, draw: Draw, t: time, o: Operation)
    requires t <= draw.clock
    ensures KeptOrAnew(c, s.pending, PollPermission(c, s, due, draw).core.pending, t, o)
  {
    StartEntry(c, s.(permissionRetry := None), Permission, true, 0, draw, t, o);
    hide StartOperation;
  }

  lemma PollChannelEntry(c: Config, s: Core, due: bool, draw: Draw, t: time, o: Operation)
    requires t <= draw.clock
    ensures KeptOrAnew(c, s.pending, PollChannel(c, s, due, draw).core.pending, t, o)
  {
    StartEntry(c, s.(channelRetry := None), Channel, true, 0, draw, t, o);
    hide StartOperation;
  }

  lemma PollKeepalivePending(c: Config, s: Core, now: time, started: bool)
    ensures PollKeepalive(c, s, now, started).pending == s.pending
  {
    hide KeepalivePacket;
  }

  lemma MaintenanceEntry(c: Config, s: Core, now: time, draws: PollDraws, t: time, o: Operation)
    requires t <= draws.refresh.clock && t <= draws.permission.clock && t <= draws.channel.clock
    ensures KeptOrAnew(c, s.pending, PollMaintenance(c, s, now, draws).core.pending, t, o)
  {
    hide PollRefresh;
    hide PollPermission;
    hide PollChannel;
    hide PollKeepalive;
    hide Due;
    hide KeptOrAnew;
    var maintenance := Due(s.maintenanceRefresh, now);
    PollRefreshEntry(c, s, now, draws.refresh, t, o);
    var a := PollRefresh(c, s, now, draws.refresh);
    var rescheduled := if maintenance
                       then a.core.(maintenanceRefresh := Some(now + c.profile.maintenanceRefresh))
                       else a.core;
    var permission := maintenance || Due(s.permissionRetry, now);
    PollPermissionEntry(c, rescheduled, permission, draws.permission, t, o);
    var b := PollPermission(c, rescheduled, permission, draws.permission);
    var channel := maintenance || Due(s.channelRetry, now);
    PollChannelEntry(c, b.core, channel, draws.channel, t, o);
    var d := PollChannel(c, b.core, channel, draws.channel);
    PollKeepalivePending(c, d.core, now, a.any || b.any || d.any);
    Chained(c, s.pending, a.core.pending, b.core.pending, t, o);
    Chained(c, s.pending, b.core.pending, d.core.pending, t, o);
  }

  lemma Chained(c: Config, x: seq<Pending>, y: seq<Pending>, z: seq<Pending>, t: time, o: Operation)
    requires KeptOrAnew(c, x, y, t, o) && KeptOrAnew(c, y, z, t, o)
    ensures KeptOrAnew(c, x, z, t, o)
  {
    hide Anew;
    hide Of;
  }

  lemma PollEntry(c: Config, s: Core, now: time, draws: PollDraws, t: time, o: Operation)
    requires Inv(c, s)
    requires t <= draws.refresh.clock && t <= draws.permission.clock && t <= draws.channel.clock
    ensures s.destroyed ==> s.pending == []
    ensures KeptOrAnew(c, if s.destroyed then [] else Expired(c, s, now).pending,
                       Poll(c, s, now, draws).core.pending, t, o)
  {
    DestroyedIdle(c, s);
    hide Inv;
    MaintenanceEntry(c, Expired(c, s, now), now, draws, t, o);
    hide ExpireFrom;
    hide CheckExpiry;
    hide PollMaintenance;
    hide Anew;
    hide Of;
  }

  lemma DestroyedIdle(c: Config, s: Core)
    requires Inv(c, s)
    ensures s.destroyed ==> s.pending == []
  {
    hide IsRequest;
    hide Scheduled;
  }

  // ---------------------------------------------------------------- responses

  /** The operation whose transaction a response takes off the pending list. */
  function AnsweredBy(s: Core, r: Response, verified: bool): Option<Operation> {
    match Match(s.pending, r)
    case None => None
    case Some(i) => if Unverified(s.pending[i], r, verified) then None else Some(s.pending[i].operation)
  }

  function Answered(c: Config, s: Core, packet: bytes): Option<Operation> {
    match Decode(packet)
    case Err => None
    case Ok(message) =>
      if message.Class() != Class.Success && message.Class() != Error then None
      else if message.FingerprintValid(c.crypto) == Some(false) then None
      else AnsweredBy(s, ReadResponse(c.crypto, message), VerifyIntegrity(c.crypto, message, s.key))
  }

  /** Another transaction of `o` after the answer to `p`: only an answer to a challenge. */
  ghost predicate Replaced(c: Config, p: Pending, before: seq<Pending>, after: seq<Pending>, t: time,
                           o: Operation)
  {
    Of(after, o).Some? ==>
      if o == p.operation then
        p.nonceRetries < c.profile.maxNonceRetries && Anew(c, Of(after, o).value, t, p.nonceRetries + 1)
      else KeptOrAnew(c, before, after, t, o)
  }

  /** An error response ends the transaction, unless it is a challenge that is answered. */
  lemma ErrorPending(c: Config, s: Core, p: Pending, r: Response, now: time, draw: Draw)
      returns (challenged: Core)
    requires !r.success
    ensures var u := HandleError(c, s, p, r, now, draw).pending;
            || u == s.pending || u == []
            || (&& p.nonceRetries < c.profile.maxNonceRetries && challenged.pending == s.pending
                && u == StartOperation(c, challenged, p.operation, true, p.nonceRetries + 1, draw).core.pending)
  {
    hide StartOperation;
    hide CompleteFailure;
    hide DestroyAllocation;
    hide PushEvent;
    challenged := s;
    var method_ := MethodFor(p.operation);
    var code := if r.code.Some? then r.code.value else 0;
    var odd, e := ResponseError(method_, Protocol, 0, s.state), ResponseError(method_, NoError, code, s.state);
    PushedPending(s, odd);
    PushedPending(s, e);
    DestroyedPending(PushEvent(s, e), p.operation, Protocol, code);
    if code != 0 && !RequiresRecreate(p.operation, code) && Challenges(c, s, p, r) {
      challenged := SetAuth(c, s, ChallengeRealm(s, r).value, r.nonce.value);
      var packet := StartPending(c, challenged, p.operation, true, p.nonceRetries + 1, draw);
      PushedPending(challenged, e);
    }
  }

  lemma ErrorEntry(c: Config, s: Core, p: Pending, r: Response, now: time, draw: Draw, t: time, o: Operation)
    requires !r.success && Of(s.pending, p.operation) == None && t <= draw.clock
    ensures Replaced(c, p, s.pending, HandleError(c, s, p, r, now, draw).pending, t, o)
  {
    hide HandleError;
    hide StartOperation;
    hide Anew;
    assert Of([], o) == None;
    hide Of;
    var challenged := ErrorPending(c, s, p, r, now, draw);
    StartEntry(c, challenged, p.operation, true, p.nonceRetries + 1, draw, t, o);
    if o != p.operation {
      StartElsewhere(c, challenged, p.operation, p.nonceRetries + 1, draw, o);
    }
  }

  lemma StartElsewhere(c: Config, s: Core, operation: Operation, retries: nat, draw: Draw, o: Operation)
    requires o != operation
    ensures Of(StartOperation(c, s, operation, true, retries, draw).core.pending, o) == Of(s.pending, o)
  {
    hide StartOperation;
    hide Of;
    StartEntry(c, s, operation, true, retries, draw, draw.clock, o);
  }

  lemma PushedPending(s: Core, e: Event)
    ensures PushEvent(s, e).pending == s.pending
  {
  }

  lemma SuccessEntry(c: Config, s: Core, operation: Operation, r: Response, now: time, draw: Draw, t: time,
                     o: Operation)
    requires t <= draw.clock
    ensures KeptOrAnew(c, s.pending, CompleteSuccess(c, s, operation, r, now, draw).core.pending, t, o)
    ensures o == operation && Of(s.pending, o) == None ==>
              Of(CompleteSuccess(c, s, operation, r, now, draw).core.pending, o) == None
  {
    hide Of;
    hide Anew;
    hide RefreshDeadline;
    match operation
    case Allocate =>
      if UsableRelay(c, r.relay) && r.lifetime != Some(0) {
        var granted := Allocated(c, s, r.relay.value, r.lifetime, now);
        var e := RelayAddress(FromSocketAddr(r.relay.value));
        PushedPending(granted, e);
        var announced := PushEvent(granted, e);
        hide PushEvent;
        SetPending(announced, Deallocating);
        SetPending(announced, Ready);
        hide SetState;
        StartEntry(c, SetState(announced, Deallocating), Deallocate, true, 0, draw, t, o);
        CompletedPending(SetState(announced, Ready), Allocate, NoError, 0);
        hide StartOperation;
        hide Complete;
      }
    case Refresh =>
      CompletedPending(Granted(c, s, r.lifetime, now), Refresh, NoError, 0);
      hide Complete;
    case Deallocate =>
      var u := s.(relay := None, allocationRefresh := None, allocationExpires := None);
      CompletedPending(u, Deallocate, NoError, 0);
      SetPending(Complete(u, Deallocate, NoError, 0), Deallocated);
      hide Complete;
      hide SetState;
    case Permission =>
      CompletedPending(s.(permissionFailures := 0), Permission, NoError, 0);
      hide Complete;
    case Channel =>
      var u := s.(channel := Some(CHANNEL_NUMBER), channelFailures := 0);
      var e := ChannelBound(CHANNEL_NUMBER, FromSocketAddr(c.peer));
      PushedPending(u, e);
      CompletedPending(PushEvent(u, e), Channel, NoError, 0);
      hide Complete;
      hide PushEvent;
  }

  lemma SetPending(s: Core, state: State)
    ensures SetState(s, state).pending == s.pending
  {
  }

  lemma CompletedPending(s: Core, operation: Operation, status: Status, code: nat)
    ensures Complete(s, operation, status, code).pending == s.pending
  {
    hide RelayOf;
  }

  lemma HandleSuccessEntry(c: Config, s: Core, p: Pending, r: Response, now: time, draw: Draw, t: time,
                           o: Operation)
    requires Of(s.pending, p.operation) == None && t <= draw.clock
    ensures Replaced(c, p, s.pending, HandleSuccess(c, s, p, r, now, draw).core.pending, t, o)
  {
    SuccessEntry(c, s, p.operation, r, now, draw, t, o);
    assert Of([], o) == None;
    hide Of;
    hide CompleteSuccess;
    hide CompleteFailure;
    hide Anew;
  }

  /** What a response does to the transaction of an operation. */
  ghost predicate Responded(c: Config, s: Core, answered: Option<Operation>, after: seq<Pending>, t: time,
                            o: Operation)
  {
    var e, f := Of(s.pending, o), Of(after, o);
    f.Some? ==>
      if answered == Some(o) then
        && e.Some? && e.value.nonceRetries < c.profile.maxNonceRetries
        && Anew(c, f.value, t, e.value.nonceRetries + 1)
      else KeptOrAnew(c, s.pending, after, t, o)
  }

  lemma ResponseEntry(c: Config, s: Core, r: Response, verified: bool, now: time, draw: Draw, t: time,
                      o: Operation)
    requires Inv(c, s) && t <= draw.clock
    ensures Responded(c, s, AnsweredBy(s, r, verified),
                      HandleResponse(c, s, r, verified, now, draw).core.pending, t, o)
  {
    hide HandleError;
    hide HandleSuccess;
    hide Match;
    hide Anew;
    hide Inv;
    hide Of;
    hide TakePending;
    var found := Match(s.pending, r);
    if found.Some? {
      var i := found.value;
      var p := s.pending[i];
      if Unverified(p, r, verified) {
        PushedPending(s, ResponseError(r.method_, Authentication, if r.code.Some? then r.code.value else 0,
                                       s.state));
        hide PushEvent;
      } else {
        InvDistinct(c, s);
        TakenPending(s, i);
        OfWithout(s.pending, i, o);
        OfWithout(s.pending, i, p.operation);
        OfAt(s.pending, i);
        if r.success {
          HandleSuccessEntry(c, TakePending(s, i), p, r, now, draw, t, o);
        } else {
          ErrorEntry(c, TakePending(s, i), p, r, now, draw, t, o);
        }
      }
    }
  }

  lemma InputEntry(c: Config, s: Core, packet: bytes, now: time, draw: Draw, t: time, o: Operation)
    requires Inv(c, s) && t <= draw.clock
    ensures Responded(c, s, Answered(c, s, packet), InputStun(c, s, packet, now, draw).core.pending, t, o)
  {
    hide HandleResponse;
    hide VerifyIntegrity;
    hide AnsweredBy;
    hide Anew;
    hide Inv;
    hide Of;
    hide ReadResponse;
    var decoded := Decode(packet);
    if decoded.Ok? {
      var message := decoded.value;
      hide Decode;
      ResponseEntry(c, s, ReadResponse(c.crypto, message), VerifyIntegrity(c.crypto, message, s.key), now,
                    draw, t, o);
    }
  }

  // ---------------------------------------------------------------- every call

  /** Clock readings taken during a call are not earlier than the call. */
  predicate ReadAfter(a: Action, t: time) {
    match a
    case StartAllocate(draw) => t <= draw.clock
    case StartPermission(draw) => t <= draw.clock
    case StartChannel(draw) => t <= draw.clock
    case Input(_, _, draw) => t <= draw.clock
    case PollAt(_, draws) =>
      t <= draws.refresh.clock && t <= draws.permission.clock && t <= draws.channel.clock
    case Shutdown(draw) => t <= draw.clock
    case _ => true
  }

  /** What a call leaves of the transaction of `o` before it starts any other. */
  function Left(c: Config, s: Core, a: Action, o: Operation): Option<Pending> {
    match a
    case PollAt(now, _) => if s.destroyed then None else Of(Expired(c, s, now).pending, o)
    case Input(packet, _, _) => if Answered(c, s, packet) == Some(o) then None else Of(s.pending, o)
    case _ => Of(s.pending, o)
  }

  function IsAnswered(c: Config, s: Core, a: Action, o: Operation): bool {
    a.Input? && Answered(c, s, a.packet) == Some(o)
  }

  /** `f` is what a call left of the transaction of `o`, or was started anew in it: after an answer as
      the next link of its challenge chain, otherwise as a first. */
  ghost predicate Stepped(c: Config, s: Core, a: Action, t: time, o: Operation, f: Pending) {
    if Left(c, s, a, o).Some? then Some(f) == Left(c, s, a, o)
    else if IsAnswered(c, s, a, o) then
      && Of(s.pending, o).Some?
      && Of(s.pending, o).value.nonceRetries < c.profile.maxNonceRetries
      && Anew(c, f, t, Of(s.pending, o).value.nonceRetries + 1)
    else Anew(c, f, t, 0)
  }

  /** That is all a call can do. */
  lemma EntryStep(c: Config, s: Core, a: Action, t: time, o: Operation)
    requires Inv(c, s) && ReadAfter(a, t)
    ensures var f := Of(Apply(c, s, a).pending, o);
            f.Some? ==> Stepped(c, s, a, t, o, f.value)
  {
    match a
    case Input(packet, now, draw) => InputStep(c, s, packet, now, draw, t, o);
    case PollAt(now, draws) => PollStep(c, s, now, draws, t, o);
    case _ => QuietEntry(c, s, a, t, o); hide Apply; hide Anew; hide Of;
  }

  lemma InputStep(c: Config, s: Core, packet: bytes, now: time, draw: Draw, t: time, o: Operation)
    requires Inv(c, s) && t <= draw.clock
    ensures var f := Of(InputStun(c, s, packet, now, draw).core.pending, o);
            f.Some? ==> Stepped(c, s, Input(packet, now, draw), t, o, f.value)
  {
    hide Answered;
    hide Anew;
    hide Of;
    hide InputStun;
    hide Inv;
    InputEntry(c, s, packet, now, draw, t, o);
  }

  lemma PollStep(c: Config, s: Core, now: time, draws: PollDraws, t: time, o: Operation)
    requires Inv(c, s) && ReadAfter(PollAt(now, draws), t)
    ensures var f := Of(Poll(c, s, now, draws).core.pending, o);
            f.Some? ==> Stepped(c, s, PollAt(now, draws), t, o, f.value)
  {
    assert Of([], o) == None;
    hide Expired;
    hide Anew;
    hide Of;
    hide Poll;
    hide Inv;
    PollEntry(c, s, now, draws, t, o);
  }

  /** Calls that are neither inputs nor polls. */
  lemma QuietEntry(c: Config, s: Core, a: Action, t: time, o: Operation)
    requires Inv(c, s) && ReadAfter(a, t) && !a.Input? && !a.PollAt?
    ensures var f := Of(Apply(c, s, a).pending, o);
            f.Some? ==> if Of(s.pending, o).Some? then f == Of(s.pending, o) else Anew(c, f.value, t, 0)
  {
    hide IsRequest;
    hide Scheduled;
    hide Anew;
    hide Of;
    assert Of([], o) == None;
    match a
    case StartAllocate(draw) =>
      SetPending(s, Allocating);
      StartEntry(c, SetState(s, Allocating), Allocate, false, 0, draw, t, o);
      hide SetState;
      hide StartOperation;
    case StartPermission(draw) =>
      StartEntry(c, s, Permission, true, 0, draw, t, o);
      hide StartOperation;
    case StartChannel(draw) =>
      StartEntry(c, s, Channel, true, 0, draw, t, o);
      hide StartOperation;
    case Shutdown(draw) => ShutdownEntry(c, s, draw, t, o);
    case Force(reason) => ForcedPending(s, reason);
    case TakeControl =>
    case TakeEvent =>
  }

  /** A shutdown keeps the pending transactions, drops them, or drops them and starts the release. */
  lemma ShutdownPending(c: Config, s: Core, draw: Draw)
      returns (cleared: Core)
    ensures cleared.pending == []
    ensures var u := GracefulShutdown(c, s, draw).core;
            || u.pending == s.pending || u.pending == []
            || ((s.state == Ready || s.state == Destroying)
                && u.pending == StartOperation(c, cleared, Deallocate, true, 0, draw).core.pending)
  {
    hide StartOperation;
    hide SetState;
    var u := s.(shuttingDown := true, channel := None, maintenanceRefresh := None,
                permissionRetry := None, channelRetry := None, keepalive := None, controls := []);
    cleared := SetState(u.(pending := []), Deallocating);
    SetPending(u.(pending := []), Deallocating);
  }

  lemma NoRelease(c: Config, s: Core)
    requires Inv(c, s) && (s.state == Ready || s.state == Destroying)
    ensures Of(s.pending, Deallocate) == None
  {
    hide IsRequest;
    hide Scheduled;
  }

  lemma ShutdownEntry(c: Config, s: Core, draw: Draw, t: time, o: Operation)
    requires Inv(c, s) && t <= draw.clock
    ensures var f := Of(GracefulShutdown(c, s, draw).core.pending, o);
            f.Some? ==> if Of(s.pending, o).Some? then f == Of(s.pending, o) else Anew(c, f.value, t, 0)
  {
    hide GracefulShutdown;
    hide StartOperation;
    hide Inv;
    hide Anew;
    assert Of([], o) == None;
    hide Of;
    var cleared := ShutdownPending(c, s, draw);
    StartEntry(c, cleared, Deallocate, true, 0, draw, t, o);
    if s.state == Ready || s.state == Destroying {
      NoRelease(c, s);
    }
  }

  lemma ForcedPending(s: Core, reason: Status)
    ensures ForceDestroy(s, reason).pending == s.pending || ForceDestroy(s, reason).pending == []
  {
  }

  /** What a poll leaves is what a look makes of a transaction that does not time out. */
  lemma LeftByPoll(c: Config, s: Core, now: time, draws: PollDraws, o: Operation)
    requires Inv(c, s)
    ensures var f := Left(c, s, PollAt(now, draws), o);
            f.Some? ==>
              && Of(s.pending, o).Some? && !TimesOut(c, Of(s.pending, o).value, now)
              && f == Some(Looked(Of(s.pending, o).value, now))
  {
    ExpiredEntry(c, s, now, o);
    hide Expired;
    hide Of;
  }
}
