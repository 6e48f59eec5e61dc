/** The atomic steps of the epoch queue when nobody interrupts a call: they do what the call does in one go. */
module EpochQueueAlone {
  import opened Bytes
  import opened EpochQueue

  // ---------------------------------------------------------------- sending

  /** A sender alone: refused when the queue is closed or inactive; a full queue refuses it too, or loses its
      oldest packet when the packet is forced in. The packet is stamped with the epoch of the moment. */
  lemma SendAlone(s: System, sender: nat, force: bool)
    requires 0 < s.capacity && |s.queue| <= s.capacity && At(s, sender) == Idle
    ensures var begun := Next(s, Send(sender, force));
            var t := Next(Next(begun, SenderStep(sender)), SenderStep(sender));
            var item := Item(Epoch(s.word), s.resumes, s.pushed);
            && At(t, sender) == Idle
            && t == s.(queue := t.queue, pushed := t.pushed, lost := t.lost, senders := t.senders)
            && t.queue == (if !s.open || !Active(s.word) then s.queue
                           else if |s.queue| < s.capacity then s.queue + [item]
                           else if force then s.queue[1..] + [item]
                           else s.queue)
            && t.pushed == s.pushed + (if s.open && Active(s.word) && (force || |s.queue| < s.capacity) then 1 else 0)
  {
    hide Active;
    hide Epoch;
    if s.open {
      var a := Next(s, Send(sender, force));
      assert At(a, sender) == Opened(force);
      var b := Next(a, SenderStep(sender));
      assert At(b, sender) == Loaded(force, s.word, s.resumes);
    }
  }

  // ---------------------------------------------------------------- receiving

  function Steps(s: System, steps: nat): System
    requires 0 < s.capacity
    decreases steps
  {
    if steps == 0 then s
    else
      SameCapacity(s);
      Steps(Next(s, ReceiverStep), steps - 1)
  }

  lemma SameCapacity(s: System)
    requires 0 < s.capacity
    ensures Next(s, ReceiverStep).capacity == s.capacity
  {
  }

  lemma {:induction false} StepsMore(s: System, a: nat, b: nat)
    requires 0 < s.capacity
    ensures Steps(s, a).capacity == s.capacity && Steps(Steps(s, a), b) == Steps(s, a + b)
    decreases a
  {
    hide Next;
    if a > 0 {
      SameCapacity(s);
      StepsMore(Next(s, ReceiverStep), a - 1, b);
    }
  }

  lemma OneStep(s: System)
    requires 0 < s.capacity
    ensures Steps(s, 1) == Next(s, ReceiverStep)
  {
    SameCapacity(s);
    assert Steps(Next(s, ReceiverStep), 0) == Next(s, ReceiverStep);
    hide Next;
  }

  predicate IsCurrent(s: System, item: Item) {
    Active(s.word) && item.epoch == Epoch(s.word)
  }

  /** How many packets lie before the first of the current epoch. */
  function Stale(s: System, queue: seq<Item>): (n: nat)
    ensures n <= |queue|
    ensures forall i :: 0 <= i < n ==> !IsCurrent(s, queue[i])
    ensures n < |queue| ==> IsCurrent(s, queue[n])
  {
    if queue == [] || IsCurrent(s, queue[0]) then 0 else 1 + Stale(s, queue[1..])
  }

  /** The receiver got the first packet of the current epoch and threw away what lay before it, or found
      none. */
  ghost predicate Received(s: System, t: System) {
    var n := Stale(s, s.queue);
    && t == s.(receiver := Ready, queue := t.queue, returned := t.returned, lost := s.lost + n)
    && if n < |s.queue| then
         t.queue == s.queue[n + 1..] && t.returned == s.returned + [Receipt(s.queue[n], s.resumes)]
       else t.queue == [] && t.returned == s.returned
  }

  lemma ReceivesStale(s: System)
    requires 0 < s.capacity && s.receiver == Receiving && s.queue != [] && !IsCurrent(s, s.queue[0])
    ensures Steps(s, 2) == s.(queue := s.queue[1..], lost := s.lost + 1)
  {
    OneStep(s);
    var a := Next(s, ReceiverStep);
    assert a == s.(queue := s.queue[1..], receiver := Holding(s.queue[0]));
    OneStep(a);
    StepsMore(s, 1, 1);
  }

  lemma ReceivesCurrent(s: System)
    requires 0 < s.capacity && s.receiver == Receiving && s.queue != [] && IsCurrent(s, s.queue[0])
    ensures Received(s, Steps(s, 2))
  {
    OneStep(s);
    var a := Next(s, ReceiverStep);
    assert a == s.(queue := s.queue[1..], receiver := Holding(s.queue[0]));
    OneStep(a);
    StepsMore(s, 1, 1);
  }

  lemma StaleStep(s: System, t: System, x: System)
    requires s.queue != [] && !IsCurrent(s, s.queue[0])
    requires x == s.(queue := s.queue[1..], lost := s.lost + 1) && Received(x, t)
    ensures Received(s, t)
  {
    StaleSame(s, x, x.queue);
  }

  lemma {:induction false} StaleSame(s: System, x: System, queue: seq<Item>)
    requires x.word == s.word
    ensures Stale(s, queue) == Stale(x, queue)
    decreases |queue|
  {
    if queue != [] {
      StaleSame(s, x, queue[1..]);
    }
  }

  lemma {:induction false} Receives(s: System) returns (n: nat)
    requires 0 < s.capacity && s.receiver == Receiving
    ensures Received(s, Steps(s, n))
    decreases |s.queue|
  {
    if s.queue == [] {
      OneStep(s);
      n := 1;
    } else if IsCurrent(s, s.queue[0]) {
      ReceivesCurrent(s);
      n := 2;
    } else {
      ReceivesStale(s);
      var x := Steps(s, 2);
      hide Next;
      hide Steps;
      var m := Receives(x);
      StepsMore(s, 2, m);
      StaleStep(s, Steps(x, m), x);
      n := 2 + m;
    }
  }

  /** A receiver alone returns the oldest packet of the current epoch, throws away what lies before it, and
      leaves everything behind it. */
  lemma ReceiveAlone(s: System)
    requires 0 < s.capacity && s.receiver == Ready
    ensures exists n: nat :: Received(s, Steps(Next(s, Receive), n))
  {
    var a := Next(s, Receive);
    assert a == s.(receiver := Receiving);
    hide Next;
    var n := Receives(a);
    StaleSame(s, a, s.queue);
    assert Received(s, Steps(a, n));
  }

  // ---------------------------------------------------------------- resuming and suspending

  lemma {:induction false} Purges(s: System, then_: ReceiverAt) returns (n: nat)
    requires 0 < s.capacity
    requires (s.receiver.ResumePurging? && then_ == ResumePurged(s.receiver.epoch))
             || (s.receiver == Purging && then_ == Ready)
    ensures var t := Steps(s, n);
            t == s.(queue := [], receiver := then_, lost := s.lost + |s.queue|)
    decreases |s.queue|
  {
    OneStep(s);
    var x := Next(s, ReceiverStep);
    if s.queue == [] {
      n := 1;
    } else {
      assert x == s.(queue := s.queue[1..], lost := s.lost + 1);
      hide Next;
      hide Steps;
      var m := Purges(x, then_);
      StepsMore(s, 1, m);
      n := 1 + m;
    }
  }

  /** A resume alone begins a new, empty, active epoch. */
  lemma ResumeAlone(s: System)
    requires 0 < s.capacity && s.receiver == Ready
    ensures exists n: nat ::
              Steps(Next(s, Resume), n)
              == s.(word := Word(Epoch(s.word) + 1, true), queue := [], resumes := s.resumes + 1,
                    lost := s.lost + |s.queue|)
  {
    var epoch := Epoch(s.word) + 1;
    var a := Next(s, Resume);
    assert a == s.(receiver := Resuming(epoch));
    OneStep(a);
    var b := Next(a, ReceiverStep);
    assert b == a.(word := Word(epoch, false), receiver := ResumePurging(epoch));
    var n := Purges(b, ResumePurged(epoch));
    var d := Steps(b, n);
    OneStep(d);
    assert Next(d, ReceiverStep)
           == s.(word := Word(epoch, true), queue := [], resumes := s.resumes + 1, lost := s.lost + |s.queue|);
    hide Next;
    hide Steps;
    hide Word;
    StepsMore(a, 1, n);
    StepsMore(a, 1 + n, 1);
    assert Steps(a, 1 + n + 1) == Next(d, ReceiverStep);
  }

  /** A suspension alone leaves the queue inactive and empty. */
  lemma SuspendAlone(s: System)
    requires 0 < s.capacity && s.receiver == Ready
    ensures exists n: nat ::
              Steps(Next(s, Suspend), n)
              == s.(word := Word(Epoch(s.word), false), queue := [], lost := s.lost + |s.queue|)
  {
    var a := Next(s, Suspend);
    assert a == s.(receiver := Suspending(s.word));
    OneStep(a);
    var b := Next(a, ReceiverStep);
    assert b == a.(word := Word(Epoch(s.word), false), receiver := Purging);
    var n := Purges(b, Ready);
    hide Next;
    hide Steps;
    hide Word;
    StepsMore(a, 1, n);
    assert Steps(a, 1 + n) == s.(word := Word(Epoch(s.word), false), queue := [], lost := s.lost + |s.queue|);
  }
}
