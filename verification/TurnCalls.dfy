/** What the other calls do to the client: starting, shutting down, forcing an end, pulling packets and
    events. */
module TurnCalls {
  import opened Bytes
  import opened Addresses
  import opened StunMessages
  import opened StunBuilder
  import opened TurnRequests
  import opened TurnState
  import opened TurnSafety
  import opened TurnHandshake
  import opened TurnResponses
  import opened TurnPolls

  // ---------------------------------------------------------------- the rings

  /** The send queue keeps the newest sixteen packets and tells when it lost one; the event ring keeps the
      newest events behind a marker. */
  lemma RingsOutcome(s: Core, packet: bytes, e: Event)
    requires |s.controls| <= 16 && |s.events| <= 64
    ensures var t := QueuePacket(s, packet);
            && t == s.(controls := Newest(s.controls + [packet]), events := t.events,
                       emitted := s.emitted + (if |s.controls| == 16 then [ControlOverflow] else []))
    ensures var t := PushEvent(s, e);
            && t == s.(events := t.events, emitted := s.emitted + [e])
            && t.events == (if |s.events| == 64 then s.events[1..] + [EventOverflow] else s.events + [e])
  {
    QueuedLast(s, packet);
    hide Newest;
  }

  // ---------------------------------------------------------------- starting

  /** A first Allocate: it names nobody and is not signed. */
  ghost predicate IsFirst(c: Config, p: Pending, draw: Draw) {
    && p == Pending(Allocate, draw.transaction, p.packet, draw.clock + FirstWait(c), 200 * MS, 1, 0, false,
                    draw.clock)
    && var request := Decode(p.packet);
       && request.Ok? && request.value.transaction == draw.transaction
       && request.value.Class() == Request && request.value.Method() == MethodNumber(Allocate)
       && Asks(request.value, Allocate, c.peer) && Names(request.value, None)
  }

  lemma FirstSays(c: Config, draw: Draw)
    ensures var built := BuildRequest(c.crypto, Allocate, c.peer, draw.transaction, None);
            && built.Ok?
            && IsFirst(c, Pending(Allocate, draw.transaction, built.value, draw.clock + FirstWait(c), 200 * MS, 1, 0,
                                  false, draw.clock), draw)
  {
    RequestSays(c.crypto, Allocate, c.peer, draw.transaction, None);
    RequestReadBack(c.crypto, Allocate, c.peer, draw.transaction, None);
    hide BuildRequest;
    hide Decode;
    hide Asks;
    hide Names;
    hide ClassOf;
    hide MethodOf;
    hide VerifyIntegrity;
    hide Find;
  }

  lemma FirstStart(c: Config, s: Core, draw: Draw)
    requires s.pending == [] && |s.controls| <= 16
    ensures var r := StartOperation(c, s, Allocate, false, 0, draw);
            && r.ok && |r.core.pending| == 1 && IsFirst(c, r.core.pending[0], draw)
            && r.core.controls == Newest(s.controls + [r.core.pending[0].packet])
            && r.core == s.(pending := r.core.pending, controls := r.core.controls, events := r.core.events,
                            emitted := r.core.emitted)
  {
    FirstSays(c, draw);
    var packet := BuildRequest(c.crypto, Allocate, c.peer, draw.transaction, None).value;
    QueuedLast(s, packet);
    hide BuildRequest;
    hide QueuePacket;
    hide Newest;
    hide Asks;
    hide Names;
    hide Decode;
    hide ClassOf;
    hide MethodOf;
  }

  /** An allocation is started once, from the state a client is created in; any other call is refused and
      changes nothing. */
  lemma AllocationStart(c: Config, s: Core, draw: Draw)
    requires Inv(c, s)
    ensures var r := StartAllocation(c, s, draw);
            if s.state == Null && !s.shuttingDown && !s.destroyed then
              && r.ok && |r.core.pending| == 1 && IsFirst(c, r.core.pending[0], draw)
              && r.core.controls == Newest(s.controls + [r.core.pending[0].packet])
              && r.core == s.(state := Allocating, pending := r.core.pending, controls := r.core.controls,
                              events := r.core.events, emitted := r.core.emitted)
              && s.emitted + [StateChanged(Allocating, Null)] <= r.core.emitted
            else r == Outcome(s, false)
  {
    ChannelKnown(c, s);
    if s.state == Null && !s.shuttingDown && !s.destroyed {
      NothingPending(c, s);
      PushForm(s.(state := Allocating), StateChanged(Allocating, Null));
      hide PushEvent;
      var u := SetState(s, Allocating);
      FirstStart(c, u, draw);
      StartEmits(c, u, Allocate, false, 0, draw);
    }
    hide StartOperation;
    hide IsFirst;
    hide Newest;
    hide Inv;
  }

  lemma NothingPending(c: Config, s: Core)
    requires Inv(c, s) && s.state == Null
    ensures s.pending == [] && |s.events| <= EVENT_CAPACITY
  {
    hide PendingOk;
    hide Owned;
  }

  lemma StartEmits(c: Config, s: Core, operation: Operation, authenticated: bool, nonceRetries: nat, draw: Draw)
    ensures s.emitted <= StartOperation(c, s, operation, authenticated, nonceRetries, draw).core.emitted
  {
    hide BuildRequest;
    hide AuthOf;
    hide HasOperation;
  }

  /** Starting maintenance of a live allocation: a permission that is under way is left alone, a channel
      that is under way is sent again, and what is not under way begins. */
  lemma MaintenanceStart(c: Config, s: Core, operation: Operation, draw: Draw)
    requires Inv(c, s) && (operation == Permission || operation == Channel)
    ensures var r := StartMaintenance(c, s, operation, draw);
            if s.state != Ready then r == Outcome(s, false)
            else
              && r.ok && HasCredentials(s)
              && r.core == s.(pending := r.core.pending, controls := r.core.controls, events := r.core.events,
                              emitted := r.core.emitted)
              && if !Awaits(s, operation) then
                   && |r.core.pending| == |s.pending| + 1
                   && var p := r.core.pending[|s.pending|];
                      && r.core.pending == s.pending + [p] && IsBegun(c, s, p, operation, draw)
                      && r.core.controls == Newest(s.controls + [p.packet])
                 else
                   && r.core.pending == s.pending
                   && (operation == Permission ==> r.core == s)
                   && (operation == Channel ==> exists p :: p in s.pending && p.operation == Channel
                                                            && r.core.controls == Newest(s.controls + [p.packet]))
  {
    AwaitsIs(s, operation);
    hide Awaits;
    if s.state == Ready {
      ReadyToStart(c, s);
      ReadyIsOpen(c, s);
      ChannelKnown(c, s);
      if HasOperation(s.pending, operation) {
        SentAgain(c, s, operation, draw);
      } else {
        StageBegins(c, s, s, operation, draw);
      }
    } else {
      NotOpen(c, s);
    }
    hide StartOperation;
    hide HasOperation;
    hide HasCredentials;
    hide IsBegun;
    hide Newest;
    hide Inv;
  }

  lemma NotOpen(c: Config, s: Core)
    requires s.state != Ready
    ensures forall operation, draw :: StartMaintenance(c, s, operation, draw) == Outcome(s, false)
  {
    hide StartOperation;
  }

  lemma SentAgain(c: Config, s: Core, operation: Operation, draw: Draw)
    requires HasOperation(s.pending, operation) && |s.controls| <= 16
    ensures var r := StartOperation(c, s, operation, true, 0, draw);
            && r.ok && r.core.pending == s.pending
            && r.core == s.(controls := r.core.controls, events := r.core.events, emitted := r.core.emitted)
            && (operation != Channel ==> r.core == s)
            && (operation == Channel ==> exists p :: p in s.pending && p.operation == Channel
                                                     && r.core.controls == Newest(s.controls + [p.packet]))
  {
    hide Newest;
    hide QueuePacket;
    hide BuildRequest;
    hide AuthOf;
    var p := s.pending[FirstOf(s.pending, operation)];
    QueuedLast(s, p.packet);
    assert p in s.pending;
    hide HasOperation;
  }

  // ---------------------------------------------------------------- ends

  /** A graceful shutdown: a live allocation, or one whose channel was given up, is released with a lone
      signed Deallocate; an Allocate under way is left to end; everything else just ends. The second call
      does nothing. */
  lemma ShutdownOutcome(c: Config, s: Core, draw: Draw)
    requires Inv(c, s)
    ensures var r := GracefulShutdown(c, s, draw);
            && r.ok
            && if s.destroyed || s.shuttingDown then r.core == s
               else
                 var u := s.(shuttingDown := true, channel := None, maintenanceRefresh := None,
                             permissionRetry := None, channelRetry := None, keepalive := None,
                             pending := r.core.pending, controls := r.core.controls,
                             events := r.core.events, emitted := r.core.emitted);
                 if s.state == Ready || (s.state == Destroying && s.allocationExpires.Some?) then
                   && HasCredentials(s)
                   && r.core == u.(state := Deallocating)
                   && |r.core.pending| == 1 && IsBegun(c, s, r.core.pending[0], Deallocate, draw)
                   && r.core.controls == [r.core.pending[0].packet]
                   && s.emitted + [StateChanged(Deallocating, s.state)] <= r.core.emitted
                 else
                   && r.core == u && r.core.controls == [] && r.core.emitted == s.emitted
                   && r.core.events == s.events
                   && r.core.pending == (if s.state == Allocating then s.pending else [])
  {
    if !s.destroyed && !s.shuttingDown
       && (s.state == Ready || (s.state == Destroying && s.allocationExpires.Some?)) {
      ShutdownReleases(c, s, draw);
    }
    hide StartOperation;
    hide IsBegun;
    hide Inv;
  }

  lemma LiveCredentials(c: Config, s: Core)
    requires Inv(c, s)
    requires s.state == Ready || (s.state == Destroying && s.allocationExpires.Some?)
    ensures HasCredentials(s) && CredentialsBounded(c, s) && |s.events| <= EVENT_CAPACITY
  {
    hide PendingOk;
    hide Owned;
  }

  lemma ShutdownReleases(c: Config, s: Core, draw: Draw)
    requires Inv(c, s) && !s.destroyed && !s.shuttingDown
    requires s.state == Ready || (s.state == Destroying && s.allocationExpires.Some?)
    ensures var r := GracefulShutdown(c, s, draw);
            && r.ok && HasCredentials(s)
            && r.core == s.(shuttingDown := true, channel := None, maintenanceRefresh := None,
                            permissionRetry := None, channelRetry := None, keepalive := None,
                            pending := r.core.pending, controls := r.core.controls,
                            events := r.core.events, emitted := r.core.emitted, state := Deallocating)
            && |r.core.pending| == 1 && IsBegun(c, s, r.core.pending[0], Deallocate, draw)
            && r.core.controls == [r.core.pending[0].packet]
            && s.emitted + [StateChanged(Deallocating, s.state)] <= r.core.emitted
  {
    LiveCredentials(c, s);
    var u := s.(shuttingDown := true, channel := None, maintenanceRefresh := None, permissionRetry := None,
                channelRetry := None, keepalive := None, controls := [], pending := []);
    PushForm(u.(state := Deallocating), StateChanged(Deallocating, s.state));
    hide PushEvent;
    var v := SetState(u, Deallocating);
    DeallocateBegins(c, s, v, draw);
    StartEmits(c, v, Deallocate, true, 0, draw);
    hide StartOperation;
    hide Inv;
    hide IsBegun;
  }

  lemma DeallocateBegins(c: Config, s: Core, v: Core, draw: Draw)
    requires v.pending == [] && v.controls == [] && HasCredentials(s) && CredentialsBounded(c, s)
    requires v.realm == s.realm && v.nonce == s.nonce && v.key == s.key && |v.events| <= EVENT_CAPACITY
    ensures var r := StartOperation(c, v, Deallocate, true, 0, draw);
            && r.ok && |r.core.pending| == 1 && IsBegun(c, s, r.core.pending[0], Deallocate, draw)
            && r.core.controls == [r.core.pending[0].packet]
            && r.core == v.(pending := r.core.pending, controls := r.core.controls, events := r.core.events,
                            emitted := r.core.emitted)
  {
    StartsExactly(c, v, Deallocate, 0, draw);
    hide BuildRequest;
    hide StartOperation;
  }

  /** A forced end keeps what is known of the allocation but sends and awaits nothing more. */
  lemma ForceOutcome(c: Config, s: Core, reason: Status)
    requires Inv(c, s)
    ensures var t := ForceDestroy(s, reason);
            if s.destroyed then t == s
            else
              t == s.(destroyed := true, state := Destroying, pending := [], controls := [], events := t.events,
                      emitted := s.emitted
                                 + (if s.state == Destroying then [] else [StateChanged(Destroying, s.state)])
                                 + [ForcedDestroy(reason)])
  {
    EventsFit(c, s);
    hide Inv;
    var u := s.(destroyed := true, controls := [], pending := []);
    PushForm(u.(state := Destroying), StateChanged(Destroying, s.state));
    PushForm(SetState(u, Destroying), ForcedDestroy(reason));
    hide PushEvent;
  }

  lemma EventsFit(c: Config, s: Core)
    requires Inv(c, s)
    ensures |s.events| <= EVENT_CAPACITY
  {
    hide PendingOk;
    hide Owned;
    hide Staged;
  }

  // ---------------------------------------------------------------- pulling

  /** Packets and events leave in the order in which they came; a packet over 1024 bytes leaves unseen. */
  lemma PullOutcome(s: Core)
    ensures var (t, packet) := PullControl(s);
            match packet
            case None => s.controls == [] && t == s
            case Some(Ok(b)) => |b| <= 1024 && s.controls == [b] + t.controls && t == s.(controls := t.controls)
            case Some(Err) =>
              s.controls != [] && |s.controls[0]| > 1024 && t == s.(controls := s.controls[1..])
    ensures var (t, event) := PullEvent(s);
            match event
            case None => s.events == [] && t == s
            case Some(e) =>
              s.events == [e] + t.events && t == s.(events := t.events, drained := s.drained + [e])
  {
  }
}
