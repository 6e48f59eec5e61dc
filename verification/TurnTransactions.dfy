/** Transactions end: how often they are sent, when they time out, and how long a chain of challenges
    can get, over whole runs of the client. */
module TurnTransactions {
  import opened Bytes
  import opened Addresses
  import opened StunMessages
  import opened StunBuilder
  import opened TurnRequests
  import opened TurnState
  import opened TurnSafety
  import opened TurnEntries
  import opened TurnTimers

  // ---------------------------------------------------------------- how long a transaction may live

  /** How old a transaction is when it times out under punctual polls: 7.8 s over datagrams, 12 s over
      a stream. */
  function Lifetime(c: Config): time {
    if c.transport == Datagram then 7800 * MS else STREAM_TRANSACTION_TIMEOUT
  }

  /** How often it is sent until then. */
  function Transmissions(c: Config): nat {
    if c.transport == Datagram then MAX_TRANSMISSIONS else 1
  }

  lemma LastOffset()
    ensures Offset(MAX_TRANSMISSIONS) == 7800 * MS
  {
    assert Wait(1) == 200 * MS && Wait(2) == 400 * MS;
    assert Wait(3) == 800 * MS && Wait(4) == 1600 * MS;
    assert Wait(5) == 1600 * MS && Wait(6) == 1600 * MS && Wait(7) == 1600 * MS;
    assert Offset(1) == 200 * MS && Offset(2) == 600 * MS && Offset(3) == 1400 * MS;
    assert Offset(4) == 3000 * MS && Offset(5) == 4600 * MS && Offset(6) == 6200 * MS;
  }

  lemma {:induction false} WaitGrows(transmissions: nat)
    ensures INITIAL_RTO <= Wait(transmissions) <= MAX_RTO
  {
    if transmissions > 1 {
      WaitGrows(transmissions - 1);
    }
  }

  lemma {:induction false} OffsetGrows(a: nat, b: nat)
    requires 1 <= a < b
    ensures Offset(a) < Offset(b)
    decreases b
  {
    WaitGrows(b);
    if a < b - 1 {
      OffsetGrows(a, b - 1);
    }
  }

  lemma PendingHolds(c: Config, s: Core, i: nat)
    requires Inv(c, s) && i < |s.pending|
    ensures PendingOk(c, s, s.pending[i])
  {
    hide PendingOk;
  }

  /** The timing part of the invariant. */
  lemma Timing(c: Config, s: Core, p: Pending)
    requires Inv(c, s) && p in s.pending
    ensures 1 <= p.transmissions <= MAX_TRANSMISSIONS
    ensures if c.transport == Datagram then
              p.rto == Wait(p.transmissions) && p.nextAttempt >= p.started + Offset(p.transmissions)
            else p.transmissions == 1 && p.nextAttempt == p.started + STREAM_TRANSACTION_TIMEOUT
  {
    var i :| 0 <= i < |s.pending| && s.pending[i] == p;
    PendingHolds(c, s, i);
    hide IsRequest;
    hide Offset;
    hide Wait;
    hide Holding;
  }

  /** Never early: a transaction that times out has been sent as often as it may be, and has its full
      age. This holds under any polls. */
  lemma TimeoutIsLate(c: Config, s: Core, p: Pending, now: time)
    requires Inv(c, s) && p in s.pending && TimesOut(c, p, now)
    ensures now >= p.started + Lifetime(c) && p.transmissions == Transmissions(c)
  {
    Timing(c, s, p);
    LastOffset();
    hide Inv;
    hide Offset;
    hide Wait;
  }

  // ---------------------------------------------------------------- one look at all transactions

  predicate NoneTimesOut(c: Config, pending: seq<Pending>, now: time) {
    forall i :: 0 <= i < |pending| ==> !TimesOut(c, pending[i], now)
  }

  /** The packets that are due, in order. */
  function Resent(pending: seq<Pending>, now: time): seq<bytes> {
    if pending == [] then []
    else (if now < pending[0].nextAttempt then [] else [pending[0].packet]) + Resent(pending[1..], now)
  }

  function LookedAll(pending: seq<Pending>, now: time): seq<Pending> {
    if pending == [] then [] else [Looked(pending[0], now)] + LookedAll(pending[1..], now)
  }

  function QueueAll(s: Core, packets: seq<bytes>): Core
    decreases |packets|
  {
    if packets == [] then s else QueueAll(QueuePacket(s, packets[0]), packets[1..])
  }

  lemma QueueApart(s: Core, packet: bytes, pending: seq<Pending>)
    ensures QueuePacket(s.(pending := pending), packet) == QueuePacket(s, packet).(pending := pending)
  {
  }

  lemma {:induction false} QueueAllApart(s: Core, packets: seq<bytes>, pending: seq<Pending>)
    ensures QueueAll(s.(pending := pending), packets) == QueueAll(s, packets).(pending := pending)
    decreases |packets|
  {
    hide QueuePacket;
    if packets != [] {
      QueueApart(s, packets[0], pending);
      QueueAllApart(QueuePacket(s, packets[0]), packets[1..], pending);
    }
  }

  /** The client after a look that times nothing out: the due packets are queued again, in order, and
      their transactions advanced; nothing else changes. */
  function LookForm(s: Core, now: time, index: nat): Core
    requires index <= |s.pending|
  {
    QueueAll(s, Resent(s.pending[index..], now)).(
      pending := s.pending[..index] + LookedAll(s.pending[index..], now))
  }

  lemma LookKept(s: Core, now: time, index: nat)
    requires index < |s.pending| && now < s.pending[index].nextAttempt
    ensures LookForm(s, now, index) == LookForm(s, now, index + 1)
  {
    hide QueueAll;
    var p, rest := s.pending[index], s.pending[index..];
    assert rest[0] == p && rest[1..] == s.pending[index + 1..];
    assert s.pending[..index + 1] == s.pending[..index] + [p];
    assert Resent(rest, now) == Resent(rest[1..], now);
    assert s.pending[..index + 1] + LookedAll(rest[1..], now)
           == s.pending[..index] + ([p] + LookedAll(rest[1..], now));
  }

  /** The client after transaction `index` was sent again. */
  function SentAgain(s: Core, now: time, index: nat): Core
    requires index < |s.pending|
  {
    var p := s.pending[index];
    QueuePacket(s, p.packet).(pending := s.pending[index := Retransmit(p, now)])
  }

  lemma LookSent(s: Core, now: time, index: nat)
    requires index < |s.pending| && now >= s.pending[index].nextAttempt
    ensures LookForm(s, now, index) == LookForm(SentAgain(s, now, index), now, index + 1)
  {
    hide QueuePacket;
    hide Retransmit;
    var p, rest, next := s.pending[index], s.pending[index..], SentAgain(s, now, index);
    var q := Retransmit(p, now);
    assert rest[0] == p && rest[1..] == s.pending[index + 1..];
    assert next.pending[index + 1..] == rest[1..];
    assert next.pending[..index + 1] == s.pending[..index] + [q];
    assert Resent(rest, now) == [p.packet] + Resent(rest[1..], now);
    assert ([p.packet] + Resent(rest[1..], now))[1..] == Resent(rest[1..], now);
    assert QueueAll(s, Resent(rest, now)) == QueueAll(QueuePacket(s, p.packet), Resent(rest[1..], now));
    QueueAllApart(QueuePacket(s, p.packet), Resent(rest[1..], now), next.pending);
    hide QueueAll;
    assert s.pending[..index] + [q] + LookedAll(rest[1..], now)
           == s.pending[..index] + ([q] + LookedAll(rest[1..], now));
  }

  /** That is what a look does whenever no transaction times out in it. */
  lemma {:induction false} LookExactly(c: Config, s: Core, now: time, index: nat)
    requires index <= |s.pending| && NoneTimesOut(c, s.pending[index..], now)
    ensures ExpireFrom(c, s, now, index) == LookForm(s, now, index)
    decreases |s.pending| - index
  {
    hide LookForm;
    hide CompleteFailure;
    hide TakePending;
    hide Retransmit;
    hide QueuePacket;
    if index == |s.pending| {
      LookNone(s, now);
    } else {
      var p, rest := s.pending[index], s.pending[index..];
      assert rest[0] == p && !TimesOut(c, p, now);
      assert rest[1..] == s.pending[index + 1..];
      if now < p.nextAttempt {
        LookExactly(c, s, now, index + 1);
        LookKept(s, now, index);
      } else {
        QueueStays(s, p.packet);
        var next := SentAgain(s, now, index);
        assert next.pending[index + 1..] == s.pending[index + 1..];
        LookExactly(c, next, now, index + 1);
        LookSent(s, now, index);
      }
    }
  }

  lemma LookNone(s: Core, now: time)
    ensures LookForm(s, now, |s.pending|) == s
  {
    assert s.pending[|s.pending|..] == [];
    assert s.pending[..|s.pending|] + [] == s.pending;
  }

  /** Never early, for the whole client: while every pending transaction is younger than its lifetime,
      a look only sends the due ones again. */
  lemma NoEarlyTimeout(c: Config, s: Core, now: time)
    requires Inv(c, s)
    requires forall i :: 0 <= i < |s.pending| ==> now < s.pending[i].started + Lifetime(c)
    ensures ExpireFrom(c, s, now, 0) == LookForm(s, now, 0)
  {
    hide Inv;
    hide Lifetime;
    hide LookForm;
    assert s.pending[0..] == s.pending;
    forall i | 0 <= i < |s.pending|
      ensures !TimesOut(c, s.pending[i], now)
    {
      if TimesOut(c, s.pending[i], now) {
        TimeoutIsLate(c, s, s.pending[i], now);
      }
    }
    hide TimesOut;
    LookExactly(c, s, now, 0);
  }

  /** A look leaves nothing undone: what is pending after it is due only later. */
  lemma AllAhead(c: Config, s: Core, now: time, q: Pending)
    requires Inv(c, s) && q in ExpireFrom(c, s, now, 0).pending
    ensures now < q.nextAttempt
  {
    hide ExpireFrom;
    hide Inv;
    hide Of;
    var t, o := ExpireFrom(c, s, now, 0), q.operation;
    ExpireKeeps(c, s, now, 0);
    InvDistinct(c, t);
    OfMember(t.pending, q);
    ExpireEntry(c, s, now, 0, o);
    var p := Of(s.pending, o).value;
    Timing(c, s, p);
    WaitGrows(p.transmissions);
    hide Wait;
    hide Offset;
  }

  // ---------------------------------------------------------------- time-outs are reported

  ghost predicate Reports(e: Event, o: Operation) {
    e.RequestComplete? && e.method_ == MethodFor(o) && e.status == Timeout && e.code == 0
  }

  /** Between the two states, a time-out of the operation was reported. */
  ghost predicate Reported(s: Core, t: Core, o: Operation) {
    s.emitted <= t.emitted && exists k :: |s.emitted| <= k < |t.emitted| && Reports(t.emitted[k], o)
  }

  lemma ReportedLater(r: Core, s: Core, t: Core, u: Core, o: Operation)
    requires r.emitted <= s.emitted && Reported(s, t, o) && t.emitted <= u.emitted
    ensures Reported(r, u, o)
  {
    var k :| |s.emitted| <= k < |t.emitted| && Reports(t.emitted[k], o);
    assert Reports(u.emitted[k], o);
  }

  lemma CompleteReports(s: Core, o: Operation)
    ensures var t := Complete(s, o, Timeout, 0);
            |t.emitted| == |s.emitted| + 1 && s.emitted <= t.emitted && Reports(t.emitted[|s.emitted|], o)
    ensures Complete(s, o, Timeout, 0).pending == s.pending
  {
    hide RelayOf;
  }

  lemma RebindForm(s: Core)
    ensures var t := DestroyAfterRebindExhausted(s); s.emitted <= t.emitted && t.pending == [] && Ended(t)
  {
  }

  lemma DestroyForm(s: Core, o: Operation)
    ensures var t := DestroyAllocation(s, o, Timeout, 0);
            Complete(s, o, Timeout, 0).emitted <= t.emitted && t.pending == [] && Ended(t)
  {
    hide Complete;
  }

  /** What a time-out does: it is reported, and no transaction but its own goes unless all go with the
      allocation. */
  lemma FailReports(s: Core, o: Operation, now: time)
    ensures var t := CompleteFailure(s, o, Timeout, 0, now);
            && Reported(s, t, o)
            && (t.pending == s.pending || (t.pending == [] && Ended(t)))
  {
    CompleteReports(s, o);
    DestroyForm(s, o);
    hide Complete;
    hide DestroyAllocation;
    hide RetryDelay;
    hide Reports;
    hide Ended;
    var completed := Complete(s, o, Timeout, 0);
    assert Reports(completed.emitted[|s.emitted|], o);
    var t := CompleteFailure(s, o, Timeout, 0, now);
    if Retryable(s, o, now) {
      var retried := ScheduleRetry(completed, o, now);
      RebindForm(retried.core);
      hide DestroyAfterRebindExhausted;
    }
    assert completed.emitted <= t.emitted;
    assert t.emitted[|s.emitted|] == completed.emitted[|s.emitted|];
  }

  predicate Ended(s: Core) {
    s.state == Destroying || s.state == Deallocated
  }

  lemma QueueGrows(s: Core, packet: bytes)
    ensures s.emitted <= QueuePacket(s, packet).emitted
  {
  }

  lemma {:induction false} ExpireGrows(c: Config, s: Core, now: time, index: nat)
    ensures s.emitted <= ExpireFrom(c, s, now, index).emitted
    decreases |s.pending| - index
  {
    hide CompleteFailure;
    hide QueuePacket;
    hide Retransmit;
    if index < |s.pending| {
      var p := s.pending[index];
      if now < p.nextAttempt {
        ExpireGrows(c, s, now, index + 1);
      } else if p.transmissions >= MAX_TRANSMISSIONS || c.transport == Stream {
        FailReports(TakePending(s, index), p.operation, now);
        ExpireGrows(c, CompleteFailure(TakePending(s, index), p.operation, Timeout, 0, now), now, index);
      } else {
        QueueStays(s, p.packet);
        QueueGrows(s, p.packet);
        var t := QueuePacket(s, p.packet);
        ExpireGrows(c, t.(pending := t.pending[index := Retransmit(p, now)]), now, index + 1);
      }
    }
  }

  /** The outcome for a transaction that times out in a look: reported, or gone with the allocation. */
  ghost predicate Finished(s: Core, t: Core, o: Operation) {
    Reported(s, t, o) || (t.pending == [] && Ended(t))
  }

  lemma {:induction false} TimeoutFinishes(c: Config, s: Core, now: time, index: nat, i: nat)
    requires index <= i < |s.pending| && TimesOut(c, s.pending[i], now)
    ensures Finished(s, ExpireFrom(c, s, now, index), s.pending[i].operation)
    decreases |s.pending| - index
  {
    hide CompleteFailure;
    hide QueuePacket;
    hide Retransmit;
    hide Reported;
    var p, o := s.pending[index], s.pending[i].operation;
    if now < p.nextAttempt {
      TimeoutFinishes(c, s, now, index + 1, i);
    } else if p.transmissions >= MAX_TRANSMISSIONS || c.transport == Stream {
      var taken := TakePending(s, index);
      var next := CompleteFailure(taken, p.operation, Timeout, 0, now);
      FailReports(taken, p.operation, now);
      ExpireGrows(c, next, now, index);
      ReportGrows(taken, next, p.operation);
      if index == i {
        ReportedLater(s, taken, next, ExpireFrom(c, next, now, index), o);
      } else if next.pending != [] {
        assert next.pending[i - 1] == s.pending[i];
        TimeoutFinishes(c, next, now, index, i - 1);
        FinishedEarlier(s, next, ExpireFrom(c, next, now, index), o);
      }
    } else {
      QueueStays(s, p.packet);
      QueueGrows(s, p.packet);
      var t := QueuePacket(s, p.packet);
      var next := t.(pending := t.pending[index := Retransmit(p, now)]);
      TimeoutFinishes(c, next, now, index + 1, i);
      FinishedEarlier(s, next, ExpireFrom(c, next, now, index + 1), o);
    }
  }

  lemma ReportGrows(s: Core, t: Core, o: Operation)
    requires Reported(s, t, o)
    ensures s.emitted <= t.emitted
  {
  }

  lemma FinishedEarlier(r: Core, s: Core, t: Core, o: Operation)
    requires r.emitted <= s.emitted && Finished(s, t, o)
    ensures Finished(r, t, o)
  {
    if Reported(s, t, o) {
      ReportedLater(r, s, t, t, o);
    }
  }

  /** The first transaction that times out in a look is always reported. */
  lemma {:induction false} FirstTimeoutReported(c: Config, s: Core, now: time, index: nat, i: nat)
    requires index <= i < |s.pending| && TimesOut(c, s.pending[i], now)
    requires forall j :: index <= j < i ==> !TimesOut(c, s.pending[j], now)
    ensures Reported(s, ExpireFrom(c, s, now, index), s.pending[i].operation)
    decreases |s.pending| - index
  {
    hide CompleteFailure;
    hide QueuePacket;
    hide Retransmit;
    hide Reported;
    var p, o := s.pending[index], s.pending[i].operation;
    if index == i {
      var taken := TakePending(s, index);
      var next := CompleteFailure(taken, o, Timeout, 0, now);
      FailReports(taken, o, now);
      ExpireGrows(c, next, now, index);
      ReportGrows(taken, next, o);
      ReportedLater(s, taken, next, ExpireFrom(c, next, now, index), o);
    } else if now < p.nextAttempt {
      FirstTimeoutReported(c, s, now, index + 1, i);
    } else {
      QueueStays(s, p.packet);
      QueueGrows(s, p.packet);
      var t := QueuePacket(s, p.packet);
      var next := t.(pending := t.pending[index := Retransmit(p, now)]);
      FirstTimeoutReported(c, next, now, index + 1, i);
      var last := ExpireFrom(c, next, now, index + 1);
      ReportedLater(s, next, last, last, o);
    }
  }

  // ---------------------------------------------------------------- polled at every deadline

  function RunTimed(c: Config, s: Core, steps: seq<(time, Action)>): Core
    decreases |steps|
  {
    if steps == [] then s else RunTimed(c, Apply(c, s, steps[0].1), steps[1..])
  }

  /** No deadline of a pending transaction has been passed over. */
  predicate OnTime(s: Core, t: time) {
    forall i :: 0 <= i < |s.pending| ==> t <= s.pending[i].nextAttempt
  }

  /** A run in which every transaction is polled at each of its deadlines: no call is made later than
      one without a poll at it. Other calls and polls may come in between. */
  predicate PolledOnTime(c: Config, s: Core, steps: seq<(time, Action)>)
    decreases |steps|
  {
    steps == []
    || (&& OnTime(s, steps[0].0) && Admissible(steps[0].1)
        && (steps[0].1.PollAt? ==> steps[0].1.at == steps[0].0)
        && PolledOnTime(c, Apply(c, s, steps[0].1), steps[1..]))
  }

  /** The deadline of a transaction lies exactly where its sends and back-offs put it. */
  predicate Exact(c: Config, p: Pending) {
    p.nextAttempt
    == p.started + (if c.transport == Datagram then Offset(p.transmissions) else STREAM_TRANSACTION_TIMEOUT)
  }

  ghost predicate AllExact(c: Config, s: Core) {
    Inv(c, s) && forall p :: p in s.pending ==> Exact(c, p)
  }

  /** Where a pending transaction comes from in one call. */
  lemma Origin(c: Config, s: Core, a: Action, t: time, q: Pending)
    requires Inv(c, s) && Admissible(a) && ReadAfter(a, t) && q in Apply(c, s, a).pending
    ensures || (exists r :: Anew(c, q, t, r))
            || (q in s.pending && (a.PollAt? ==> a.at < q.nextAttempt))
            || (a.PollAt? && exists p :: p in s.pending && !TimesOut(c, p, a.at)
                                         && a.at >= p.nextAttempt && q == Retransmit(p, a.at))
  {
    hide Apply;
    hide Retransmit;
    hide Anew;
    hide Of;
    hide Inv;
    hide Left;
    hide IsAnswered;
    ApplyKeeps(c, s, a);
    var u, o := Apply(c, s, a), q.operation;
    InvDistinct(c, u);
    OfMember(u.pending, q);
    EntryStep(c, s, a, t, o);
    if Left(c, s, a, o).Some? {
      if a.PollAt? {
        assert a == PollAt(a.at, a.draws);
        LeftByPoll(c, s, a.at, a.draws, o);
        var p := Of(s.pending, o).value;
        assert p in s.pending && q == Looked(p, a.at);
      } else {
        LeftSame(c, s, a, o);
      }
    }
  }

  lemma ExactStep(c: Config, s: Core, t: time, a: Action)
    requires AllExact(c, s) && OnTime(s, t) && Admissible(a) && (a.PollAt? ==> a.at == t)
    ensures AllExact(c, Apply(c, s, a))
  {
    hide Apply;
    hide Inv;
    ApplyKeeps(c, s, a);
    forall q | q in Apply(c, s, a).pending
      ensures Exact(c, q)
    {
      ExactOne(c, s, t, a, q);
    }
  }

  lemma ExactOne(c: Config, s: Core, t: time, a: Action, q: Pending)
    requires AllExact(c, s) && OnTime(s, t) && Admissible(a) && (a.PollAt? ==> a.at == t)
    requires q in Apply(c, s, a).pending
    ensures Exact(c, q)
  {
    hide Apply;
    hide Inv;
    hide Retransmit;
    hide Wait;
    Origin(c, s, a, 0, q);
    if p :| p in s.pending && a.PollAt? && !TimesOut(c, p, a.at) && a.at >= p.nextAttempt
            && q == Retransmit(p, a.at) {
      Timing(c, s, p);
      RetransmitExact(c, p, t);
    }
  }

  lemma RetransmitExact(c: Config, p: Pending, t: time)
    requires Exact(c, p) && c.transport == Datagram && t == p.nextAttempt
    requires p.transmissions >= 1 && p.rto == Wait(p.transmissions)
    ensures Exact(c, Retransmit(p, t))
  {
  }

  lemma {:induction false} ExactRun(c: Config, s: Core, steps: seq<(time, Action)>)
    requires AllExact(c, s) && PolledOnTime(c, s, steps)
    ensures AllExact(c, RunTimed(c, s, steps))
    decreases |steps|
  {
    hide AllExact;
    hide Apply;
    hide OnTime;
    if steps != [] {
      ExactStep(c, s, steps[0].0, steps[0].1);
      ExactRun(c, Apply(c, s, steps[0].1), steps[1..]);
    }
  }

  /** The instant at which an exact transaction times out. */
  lemma ExactTimeout(c: Config, s: Core, p: Pending, t: time)
    requires AllExact(c, s) && p in s.pending && t <= p.nextAttempt
    ensures t <= p.started + Lifetime(c)
    ensures TimesOut(c, p, t) <==> t == p.started + Lifetime(c)
    ensures t == p.started + Lifetime(c) ==> p.transmissions == Transmissions(c)
  {
    Timing(c, s, p);
    LastOffset();
    hide Offset;
    hide Wait;
    hide Inv;
    if c.transport == Datagram && p.transmissions < MAX_TRANSMISSIONS {
      OffsetGrows(p.transmissions, MAX_TRANSMISSIONS);
    }
  }

  /** A client polled at every deadline, in every run: no transaction is ever pending longer than its
      lifetime, 7.8 s over datagrams and 12 s over a stream. A poll before that time sends the due
      transactions again and ends none. A poll at exactly that time finds it sent seven times (once),
      takes it off, and reports the time-out: of several at once always of the first, and of the others
      unless the allocation as a whole was given up. */
  lemma PunctualTimeout(c: Config, steps: seq<(time, Action)>, t: time, draws: PollDraws, i: nat)
    requires c.Valid() && PolledOnTime(c, Initial(), steps)
    requires OnTime(RunTimed(c, Initial(), steps), t) && i < |RunTimed(c, Initial(), steps).pending|
    ensures var s := RunTimed(c, Initial(), steps);
            var p := s.pending[i];
            && t <= p.started + Lifetime(c)
            && (t == p.started + Lifetime(c) ==>
                  && p.transmissions == Transmissions(c)
                  && Left(c, s, PollAt(t, draws), p.operation) == None
                  && Finished(s, Poll(c, s, t, draws).core, p.operation)
                  && ((forall j :: 0 <= j < i ==> t < s.pending[j].started + Lifetime(c)) ==>
                        Reported(s, Poll(c, s, t, draws).core, p.operation)))
            && ((forall j :: 0 <= j < |s.pending| ==> t < s.pending[j].started + Lifetime(c)) ==>
                  ExpireFrom(c, s, t, 0) == LookForm(s, t, 0))
  {
    InitialHolds(c);
    ExactStart(c);
    ExactRun(c, Initial(), steps);
    hide RunTimed;
    hide PolledOnTime;
    PunctualPoll(c, RunTimed(c, Initial(), steps), t, draws, i);
    hide AllExact;
  }

  lemma ExactStart(c: Config)
    requires Inv(c, Initial())
    ensures AllExact(c, Initial())
  {
    hide Inv;
  }

  lemma PunctualPoll(c: Config, s: Core, t: time, draws: PollDraws, i: nat)
    requires AllExact(c, s) && OnTime(s, t) && i < |s.pending|
    ensures var p := s.pending[i];
            && t <= p.started + Lifetime(c)
            && (t == p.started + Lifetime(c) ==>
                  && p.transmissions == Transmissions(c)
                  && Left(c, s, PollAt(t, draws), p.operation) == None
                  && Finished(s, Poll(c, s, t, draws).core, p.operation)
                  && ((forall j :: 0 <= j < i ==> t < s.pending[j].started + Lifetime(c)) ==>
                        Reported(s, Poll(c, s, t, draws).core, p.operation)))
            && ((forall j :: 0 <= j < |s.pending| ==> t < s.pending[j].started + Lifetime(c)) ==>
                  ExpireFrom(c, s, t, 0) == LookForm(s, t, 0))
  {
    hide Lifetime;
    hide LookForm;
    hide Poll;
    hide ExpireFrom;
    var p := s.pending[i];
    ExactTimeout(c, s, p, t);
    if t == p.started + Lifetime(c) {
      TimedOutPoll(c, s, t, draws, i);
      if forall j :: 0 <= j < i ==> t < s.pending[j].started + Lifetime(c) {
        forall j | 0 <= j < i
          ensures !TimesOut(c, s.pending[j], t)
        {
          ExactTimeout(c, s, s.pending[j], t);
        }
        FirstTimedOutPoll(c, s, t, draws, i);
      }
    }
    if forall j :: 0 <= j < |s.pending| ==> t < s.pending[j].started + Lifetime(c) {
      forall j | 0 <= j < |s.pending|
        ensures !TimesOut(c, s.pending[j], t)
      {
        ExactTimeout(c, s, s.pending[j], t);
      }
      assert s.pending[0..] == s.pending;
      LookExactly(c, s, t, 0);
    }
    hide Inv;
  }

  /** A poll that finds a transaction timed out takes it off and says so. */
  lemma TimedOutPoll(c: Config, s: Core, now: time, draws: PollDraws, i: nat)
    requires Inv(c, s) && i < |s.pending| && TimesOut(c, s.pending[i], now)
    ensures Left(c, s, PollAt(now, draws), s.pending[i].operation) == None
    ensures Finished(s, Poll(c, s, now, draws).core, s.pending[i].operation)
  {
    var o := s.pending[i].operation;
    InvDistinct(c, s);
    OfAt(s.pending, i);
    DestroyedIdle(c, s);
    LeftByPoll(c, s, now, draws, o);
    TimeoutFinishes(c, s, now, 0, i);
    hide Inv;
    hide Finished;
    hide Of;
    PollFinishes(c, s, now, draws, o);
  }

  lemma FirstTimedOutPoll(c: Config, s: Core, now: time, draws: PollDraws, i: nat)
    requires Inv(c, s) && i < |s.pending| && TimesOut(c, s.pending[i], now)
    requires forall j :: 0 <= j < i ==> !TimesOut(c, s.pending[j], now)
    ensures Reported(s, Poll(c, s, now, draws).core, s.pending[i].operation)
  {
    DestroyedIdle(c, s);
    hide Inv;
    FirstTimeoutReported(c, s, now, 0, i);
    PollGrows(c, s, now, draws);
    var e := ExpireFrom(c, s, now, 0);
    ReportedLater(s, s, e, Poll(c, s, now, draws).core, s.pending[i].operation);
  }

  lemma PollGrows(c: Config, s: Core, now: time, draws: PollDraws)
    requires !s.destroyed
    ensures ExpireFrom(c, s, now, 0).emitted <= Poll(c, s, now, draws).core.emitted
  {
    hide ExpireFrom;
    hide PollMaintenance;
    var e := ExpireFrom(c, s, now, 0);
    CheckGrows(e, now);
    MaintenanceGrows(c, CheckExpiry(e, now), now, draws);
    hide CheckExpiry;
  }

  lemma PollFinishes(c: Config, s: Core, now: time, draws: PollDraws, o: Operation)
    requires !s.destroyed && Finished(s, ExpireFrom(c, s, now, 0), o)
    ensures Finished(s, Poll(c, s, now, draws).core, o)
  {
    hide ExpireFrom;
    hide PollMaintenance;
    hide Reported;
    PollGrows(c, s, now, draws);
    var e, u := ExpireFrom(c, s, now, 0), Poll(c, s, now, draws).core;
    CheckGrows(e, now);
    hide CheckExpiry;
    if Reported(s, e, o) {
      ReportedLater(s, s, e, u, o);
    }
  }

  lemma CheckGrows(s: Core, now: time)
    ensures s.emitted <= CheckExpiry(s, now).emitted
    ensures s.state != Ready ==> CheckExpiry(s, now) == s
  {
    CompleteReports(s, Refresh);
    DestroyForm(s, Refresh);
    hide DestroyAllocation;
    hide Complete;
  }

  lemma StartGrows(c: Config, s: Core, operation: Operation, draw: Draw)
    ensures s.emitted <= StartOperation(c, s, operation, true, 0, draw).core.emitted
  {
    hide BuildRequest;
    hide NewPending;
    if HasOperation(s.pending, operation) {
      QueueGrows(s, s.pending[FirstOf(s.pending, operation)].packet);
    } else if HasCredentials(s) {
      var r := BuildRequest(c.crypto, operation, c.peer, draw.transaction, AuthOf(c, s, true));
      if r.Ok? {
        QueueGrows(s, r.value);
      }
    }
    hide QueuePacket;
  }

  lemma PollsGrow(c: Config, s: Core, now: time, due: bool, draw: Draw, started: bool)
    ensures s.emitted <= PollRefresh(c, s, now, draw).core.emitted
    ensures s.emitted <= PollPermission(c, s, due, draw).core.emitted
    ensures s.emitted <= PollChannel(c, s, due, draw).core.emitted
    ensures s.emitted <= PollKeepalive(c, s, now, started).emitted
  {
    hide StartOperation;
    hide QueuePacket;
    hide KeepalivePacket;
    StartGrows(c, s.(allocationRefresh := None), Refresh, draw);
    StartGrows(c, s.(permissionRetry := None), Permission, draw);
    StartGrows(c, s.(channelRetry := None), Channel, draw);
    var t := s.(keepalive := Some(now + c.profile.keepaliveInterval));
    if t.channel.Some? {
      QueueGrows(t, KeepalivePacket(t.channel.value));
    }
  }

  lemma MaintenanceGrows(c: Config, s: Core, now: time, draws: PollDraws)
    ensures s.emitted <= PollMaintenance(c, s, now, draws).core.emitted
  {
    hide PollRefresh;
    hide PollPermission;
    hide PollChannel;
    hide PollKeepalive;
    hide Due;
    var maintenance := Due(s.maintenanceRefresh, now);
    PollsGrow(c, s, now, false, draws.refresh, false);
    var a := PollRefresh(c, s, now, draws.refresh);
    var rescheduled := if maintenance
                       then a.core.(maintenanceRefresh := Some(now + c.profile.maintenanceRefresh))
                       else a.core;
    var permission := maintenance || Due(s.permissionRetry, now);
    PollsGrow(c, rescheduled, now, permission, draws.permission, false);
    var b := PollPermission(c, rescheduled, permission, draws.permission);
    var channel := maintenance || Due(s.channelRetry, now);
    PollsGrow(c, b.core, now, channel, draws.channel, false);
    var d := PollChannel(c, b.core, channel, draws.channel);
    PollsGrow(c, d.core, now, false, draws.channel, a.any || b.any || d.any);
  }

  // ---------------------------------------------------------------- polled when asked

  /** The latest deadline after a number of sends when every poll comes at most `late` after it. */
  function LateOffset(transmissions: nat, late: time): time {
    if transmissions <= 1 then INITIAL_RTO
    else LateOffset(transmissions - 1, late) + late + Wait(transmissions)
  }

  lemma {:induction false} LateOffsetIs(transmissions: nat, late: time)
    requires transmissions >= 1
    ensures LateOffset(transmissions, late) == Offset(transmissions) + (transmissions - 1) * late
  {
    if transmissions > 1 {
      LateOffsetIs(transmissions - 1, late);
      assert (transmissions - 1) * late == (transmissions - 2) * late + late;
    }
  }

  /** How much later than at its exact deadline a transaction may end: once for each send. */
  function Lateness(c: Config, late: time): time {
    if c.transport == Datagram then MAX_TRANSMISSIONS * late else late
  }

  lemma LatestDeadline(c: Config, p: Pending, late: time)
    requires 1 <= p.transmissions <= MAX_TRANSMISSIONS && Bounded(c, p, late)
    ensures p.nextAttempt + late <= p.started + Lifetime(c) + Lateness(c, late)
  {
    if c.transport == Datagram {
      LastOffset();
      LateOffsetIs(p.transmissions, late);
      if p.transmissions < MAX_TRANSMISSIONS {
        OffsetGrows(p.transmissions, MAX_TRANSMISSIONS);
      }
      assert (p.transmissions - 1) * late <= (MAX_TRANSMISSIONS - 1) * late;
      hide Offset;
      hide LateOffset;
    }
  }

  predicate Bounded(c: Config, p: Pending, late: time) {
    p.nextAttempt
    <= p.started + (if c.transport == Datagram then LateOffset(p.transmissions, late)
                    else STREAM_TRANSACTION_TIMEOUT)
  }

  /** The driver is to poll at most `late` after every deadline, and none has moved out too far. */
  ghost predicate Attended(c: Config, d: Driven, late: time) {
    && Inv(c, d.core)
    && (forall p :: p in d.core.pending ==>
          d.due.Some? && d.due.value <= p.nextAttempt + late && Bounded(c, p, late))
  }

  lemma {:induction false} NextAttemptsLeast(pending: seq<Pending>, p: Pending)
    requires p in pending
    ensures NextAttempts(pending).Some? && NextAttempts(pending).value <= p.nextAttempt
  {
    if pending[0] != p {
      NextAttemptsLeast(pending[1..], p);
    }
  }

  lemma DeadlineLeast(s: Core, p: Pending)
    requires p in s.pending
    ensures NextDeadline(s).Some? && NextDeadline(s).value <= p.nextAttempt
  {
    NextAttemptsLeast(s.pending, p);
    hide NextAttempts;
  }

  /** The delay a poll returns leads no further than each deadline, or one millisecond. */
  lemma DelayLeast(c: Config, s: Core, now: time, draws: PollDraws, p: Pending)
    requires Inv(c, s)
    ensures var r := Poll(c, s, now, draws);
            p in r.core.pending ==> r.delay.Some? && now + r.delay.value <= Max(p.nextAttempt, now + MS)
  {
    hide Poll;
    DestroyedIdle(c, s);
    PollKeeps(c, s, now, draws);
    hide Inv;
    PollAsks(c, s, now, draws);
    var r := Poll(c, s, now, draws);
    if p in r.core.pending {
      DeadlineLeast(r.core, p);
    }
    hide NextDeadline;
  }

  lemma PollAsks(c: Config, s: Core, now: time, draws: PollDraws)
    ensures var r := Poll(c, s, now, draws);
            if s.destroyed then r.core == s else r.ok ==> r.delay == Delay(NextDeadline(r.core), now)
  {
    hide ExpireFrom;
    hide CheckExpiry;
    hide PollMaintenance;
    hide NextDeadline;
  }

  lemma AttendedStep(c: Config, d: Driven, t: time, a: Action, slack: time, late: time)
    requires Attended(c, d, late) && Timely(d, t, a) && ReadAfter(a, t)
    requires MS <= late && slack <= late
    ensures Attended(c, Drive(c, d, t, a, slack), late)
  {
    ApplyKeeps(c, d.core, a);
    var u := Drive(c, d, t, a, slack);
    assert u.core == Apply(c, d.core, a);
    hide Apply;
    hide Inv;
    hide Poll;
    forall q | q in u.core.pending
      ensures u.due.Some? && u.due.value <= q.nextAttempt + late && Bounded(c, q, late)
    {
      AttendedOne(c, d, t, a, slack, late, q);
    }
  }

  lemma AttendedOne(c: Config, d: Driven, t: time, a: Action, slack: time, late: time, q: Pending)
    requires Attended(c, d, late) && Timely(d, t, a) && ReadAfter(a, t)
    requires MS <= late && slack <= late && q in Apply(c, d.core, a).pending
    ensures var u := Drive(c, d, t, a, slack);
            u.due.Some? && u.due.value <= q.nextAttempt + late && Bounded(c, q, late)
  {
    hide Inv;
    Origin(c, d.core, a, t, q);
    hide TimesOut;
    if r :| Anew(c, q, t, r) {
      assert Bounded(c, q, late) && t <= q.nextAttempt;
    } else if p :| p in d.core.pending && a.PollAt? && !TimesOut(c, p, a.at) && a.at >= p.nextAttempt
                   && q == Retransmit(p, a.at) {
      SentLate(c, d.core, p, t, late);
    }
    hide Bounded;
    hide Anew;
    if a.PollAt? {
      DelayLeast(c, d.core, t, a.draws, q);
    }
    hide Poll;
  }

  lemma SentLate(c: Config, s: Core, p: Pending, t: time, late: time)
    requires Inv(c, s) && p in s.pending && Bounded(c, p, late)
    requires p.nextAttempt <= t <= p.nextAttempt + late && !TimesOut(c, p, t)
    ensures Bounded(c, Retransmit(p, t), late) && t <= Retransmit(p, t).nextAttempt
  {
    hide Inv;
    hide Offset;
    hide Wait;
    hide LateOffset;
    Timing(c, s, p);
    NextLate(p.transmissions, late);
  }

  lemma NextLate(transmissions: nat, late: time)
    requires transmissions >= 1
    ensures Wait(transmissions + 1) == Min(2 * Wait(transmissions), MAX_RTO)
    ensures LateOffset(transmissions + 1, late)
            == LateOffset(transmissions, late) + late + Wait(transmissions + 1)
  {
  }

  predicate AllReadAfter(steps: seq<(time, Action)>) {
    forall i :: 0 <= i < |steps| ==> ReadAfter(steps[i].1, steps[i].0)
  }

  lemma {:induction false} AttendedRun(c: Config, d: Driven, steps: seq<(time, Action)>, slack: time,
                                       late: time)
    requires Attended(c, d, late) && AllTimely(c, d, steps, slack) && AllReadAfter(steps)
    requires MS <= late && slack <= late
    ensures Attended(c, DriveAll(c, d, steps, slack), late)
    decreases |steps|
  {
    hide Attended;
    hide Drive;
    hide ReadAfter;
    hide Timely;
    if steps != [] {
      AttendedStep(c, d, steps[0].0, steps[0].1, slack, late);
      AttendedRun(c, Drive(c, d, steps[0].0, steps[0].1, slack), steps[1..], slack, late);
    }
  }

  /** Under a driver that polls within the delay each poll returned, and within `slack` of every other
      call, transactions end: no call ever finds one pending that started more than its lifetime ago,
      plus for each of its sends the larger of `slack` and the one millisecond a delay is at least. */
  lemma TransactionsEnd(c: Config, steps: seq<(time, Action)>, slack: time, t: time, a: Action, p: Pending)
    requires c.Valid() && AllReadAfter(steps)
    requires var d := Driven(Initial(), 0, None);
             AllTimely(c, d, steps, slack) && Timely(DriveAll(c, d, steps, slack), t, a)
    requires p in DriveAll(c, Driven(Initial(), 0, None), steps, slack).core.pending
    ensures t <= p.started + Lifetime(c) + Lateness(c, Max(slack, MS))
  {
    var d, late := Driven(Initial(), 0, None), Max(slack, MS);
    InitialHolds(c);
    AttendedStart(c, late);
    AttendedRun(c, d, steps, slack, late);
    AttendedBound(c, DriveAll(c, d, steps, slack), t, a, p, late);
    hide DriveAll;
    hide AllTimely;
    hide Attended;
  }

  lemma AttendedStart(c: Config, late: time)
    requires Inv(c, Initial())
    ensures Attended(c, Driven(Initial(), 0, None), late)
  {
    hide Inv;
  }

  lemma AttendedBound(c: Config, d: Driven, t: time, a: Action, p: Pending, late: time)
    requires Attended(c, d, late) && Timely(d, t, a) && p in d.core.pending
    ensures t <= p.started + Lifetime(c) + Lateness(c, late)
  {
    Timing(c, d.core, p);
    LatestDeadline(c, p, late);
    hide Inv;
    hide Bounded;
    hide Lifetime;
    hide Lateness;
  }

  // ---------------------------------------------------------------- chains of challenges

  /** How many transactions in a row an operation has used: the pending one and those before it that
      were answered by a challenge it followed. */
  function ChainStep(c: Config, s: Core, a: Action, o: Operation, length: nat): nat {
    if Of(Apply(c, s, a).pending, o).None? then 0
    else if Left(c, s, a, o).Some? then length
    else if IsAnswered(c, s, a, o) then length + 1
    else 1
  }

  function Chain(c: Config, s: Core, actions: seq<Action>, o: Operation, length: nat): nat
    decreases |actions|
  {
    if actions == [] then length
    else Chain(c, Apply(c, s, actions[0]), actions[1..], o, ChainStep(c, s, actions[0], o, length))
  }

  /** The client's own counter counts the links of the chain. */
  ghost predicate Counted(s: Core, o: Operation, length: nat) {
    length == match Of(s.pending, o) case None => 0 case Some(p) => p.nonceRetries + 1
  }

  lemma ChainCounted(c: Config, s: Core, a: Action, o: Operation, length: nat)
    requires Inv(c, s) && Counted(s, o, length)
    ensures Counted(Apply(c, s, a), o, ChainStep(c, s, a, o, length))
  {
    hide Apply;
    hide Of;
    hide IsAnswered;
    hide Left;
    hide Inv;
    LeftRetries(c, s, a, o);
    EntryStep(c, s, a, 0, o);
  }

  lemma LeftSame(c: Config, s: Core, a: Action, o: Operation)
    requires !a.PollAt?
    ensures Left(c, s, a, o).Some? ==> Left(c, s, a, o) == Of(s.pending, o)
  {
    hide Answered;
    hide Of;
  }

  /** What a call leaves of a transaction is as far in its chain as before. */
  lemma LeftRetries(c: Config, s: Core, a: Action, o: Operation)
    requires Inv(c, s)
    ensures var left := Left(c, s, a, o);
            left.Some? ==> Of(s.pending, o).Some?
                           && left.value.nonceRetries == Of(s.pending, o).value.nonceRetries
  {
    hide Left;
    hide Of;
    hide Inv;
    if a.PollAt? {
      LeftByPoll(c, s, a.at, a.draws, o);
      assert a == PollAt(a.at, a.draws);
    } else {
      LeftSame(c, s, a, o);
    }
  }

  lemma {:induction false} ChainBound(c: Config, s: Core, actions: seq<Action>, o: Operation, length: nat)
    requires Inv(c, s) && Counted(s, o, length) && forall a :: a in actions ==> Admissible(a)
    ensures Chain(c, s, actions, o, length) <= c.profile.maxNonceRetries + 1
    decreases |actions|
  {
    hide Inv;
    hide Counted;
    hide Apply;
    hide ChainStep;
    if actions == [] {
      ChainNow(c, s, o, length);
    } else {
      ApplyKeeps(c, s, actions[0]);
      ChainCounted(c, s, actions[0], o, length);
      ChainBound(c, Apply(c, s, actions[0]), actions[1..], o, ChainStep(c, s, actions[0], o, length));
    }
  }

  lemma ChainNow(c: Config, s: Core, o: Operation, length: nat)
    requires Inv(c, s) && Counted(s, o, length)
    ensures length <= c.profile.maxNonceRetries + 1
  {
    if Of(s.pending, o).Some? {
      var p := Of(s.pending, o).value;
      var i :| 0 <= i < |s.pending| && s.pending[i] == p;
      PendingHolds(c, s, i);
    }
    hide Inv;
    hide IsRequest;
    hide Scheduled;
  }

  /** In every run, an operation uses at most one transaction more than it may answer challenges before
      it succeeds, fails or is given up: at most four with the profile the client is shipped with. */
  lemma ChainIsShort(c: Config, actions: seq<Action>, o: Operation)
    requires c.Valid() && forall a :: a in actions ==> Admissible(a)
    ensures Chain(c, Initial(), actions, o, 0) <= c.profile.maxNonceRetries + 1
    ensures c.profile == PJNATH_COMPAT ==> Chain(c, Initial(), actions, o, 0) <= 4
  {
    InitialHolds(c);
    assert Counted(Initial(), o, 0);
    ChainBound(c, Initial(), actions, o, 0);
    hide Chain;
  }
}
