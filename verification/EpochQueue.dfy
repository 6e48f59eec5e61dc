/** The bounded packet queue whose packets carry the epoch in which they were sent: first the queue
    itself, used by one thread at a time, then every interleaving of its senders and its receiver. */
module EpochQueue {
  import opened Bytes

  // The state word holds the epoch and, in its lowest bit, whether the queue is active.

  predicate Active(word: nat) {
    word % 2 == 1
  }

  function Epoch(word: nat): nat {
    word / 2
  }

  function Word(epoch: nat, active: bool): (word: nat)
    ensures Epoch(word) == epoch && Active(word) == active
  {
    2 * epoch + (if active then 1 else 0)
  }

  /** The two ways of pushing onto a full ring: refuse, or let the oldest go. */
  function Push<T>(queue: seq<T>, capacity: nat, item: T): Option<seq<T>> {
    if |queue| >= capacity then None else Some(queue + [item])
  }

  function ForcePush<T>(queue: seq<T>, capacity: nat, item: T): seq<T>
    requires 0 < capacity
  {
    if |queue| >= capacity then queue[1..] + [item] else queue + [item]
  }

  // ---------------------------------------------------------------- one thread at a time

  datatype Queued<P> = Queued(packet: P, epoch: nat)

  /** The packets of one epoch. */
  function Current<P>(queue: seq<Queued<P>>, epoch: nat): seq<P> {
    if queue == [] then []
    else (if queue[0].epoch == epoch then [queue[0].packet] else []) + Current(queue[1..], epoch)
  }

  lemma {:induction false} CurrentAppend<P>(queue: seq<Queued<P>>, item: Queued<P>, epoch: nat)
    ensures Current(queue + [item], epoch)
            == Current(queue, epoch) + (if item.epoch == epoch then [item.packet] else [])
  {
    if queue == [] {
      assert (queue + [item])[1..] == [];
    } else {
      assert (queue + [item])[1..] == queue[1..] + [item];
      assert (queue + [item])[0] == queue[0];
      CurrentAppend(queue[1..], item, epoch);
      var head := if queue[0].epoch == epoch then [queue[0].packet] else [];
      assert Current(queue + [item], epoch) == head + Current(queue[1..] + [item], epoch);
    }
  }

  lemma {:induction false} CurrentLength<P>(queue: seq<Queued<P>>, epoch: nat)
    requires forall i :: 0 <= i < |queue| ==> queue[i].epoch == epoch
    ensures |Current(queue, epoch)| == |queue|
  {
    if queue != [] {
      CurrentLength(queue[1..], epoch);
    }
  }

  lemma CurrentDrop<P>(queue: seq<Queued<P>>, epoch: nat)
    ensures queue != [] && queue[0].epoch == epoch ==> Current(queue, epoch)[1..] == Current(queue[1..], epoch)
  {
  }

  lemma Forced<P>(queue: seq<Queued<P>>, capacity: nat, item: Queued<P>)
    requires 0 < capacity && |queue| <= capacity
    ensures Current(ForcePush(queue, capacity, item), item.epoch)
            == Current(if |queue| == capacity then queue[1..] else queue, item.epoch) + [item.packet]
  {
    CurrentAppend(if |queue| == capacity then queue[1..] else queue, item, item.epoch);
  }

  lemma CleanForced<P>(queue: seq<Queued<P>>, capacity: nat, item: Queued<P>)
    requires 0 < capacity && |queue| <= capacity
    requires forall i :: 0 <= i < |queue| ==> queue[i].epoch == item.epoch
    ensures Current(ForcePush(queue, capacity, item), item.epoch)
            == Newest(Current(queue, item.epoch) + [item.packet], capacity)
  {
    Forced(queue, capacity, item);
    CurrentLength(queue, item.epoch);
    CurrentDrop(queue, item.epoch);
    hide ForcePush;
    hide Current;
    NewestOfOneMore(Current(queue, item.epoch), item.packet, capacity);
    hide Newest;
  }

  /** A bounded first-in-first-out buffer that can be switched off. */
  datatype Fifo<P> = Fifo(capacity: nat, on: bool, items: seq<P>) {
    function Offer(packet: P): (Fifo<P>, bool) {
      if on && |items| < capacity then (this.(items := items + [packet]), true) else (this, false)
    }

    function Force(packet: P): (Fifo<P>, bool) {
      if !on || capacity == 0 then (this, false)
      else (this.(items := Newest(items + [packet], capacity)), true)
    }

    function Take(): (Fifo<P>, Option<P>) {
      if items == [] then (this, None) else (this.(items := items[1..]), Some(items[0]))
    }
  }

  function Newest<P>(items: seq<P>, n: nat): seq<P> {
    if |items| <= n then items else items[|items| - n..]
  }

  lemma NewestOfOneMore<P>(items: seq<P>, packet: P, n: nat)
    requires 0 < n && |items| <= n
    ensures Newest(items + [packet], n) == (if |items| == n then items[1..] else items) + [packet]
  {
  }

  function ForceAll<P>(q: Fifo<P>, packets: seq<P>): Fifo<P>
    decreases |packets|
  {
    if packets == [] then q else ForceAll(q.Force(packets[0]).0, packets[1..])
  }

  /** However many packets are forced in, the newest ones are kept, in order. */
  lemma {:induction false} ForceKeepsNewest<P>(q: Fifo<P>, packets: seq<P>)
    requires q.on && |q.items| <= q.capacity && 0 < q.capacity
    ensures ForceAll(q, packets).items == Newest(q.items + packets, q.capacity)
    decreases |packets|
  {
    if packets == [] {
      assert q.items + packets == q.items;
    } else {
      var next := q.Force(packets[0]).0;
      ForceKeepsNewest(next, packets[1..]);
      assert (q.items + [packets[0]]) + packets[1..] == q.items + packets;
      assert Newest(next.items + packets[1..], q.capacity) == Newest(q.items + packets, q.capacity);
    }
  }

  class PacketQueue<P> {
    const capacity: nat
    var queue: seq<Queued<P>>
    var word: nat
    var open: bool

    ghost predicate Valid()
      reads this
    {
      0 < capacity && |queue| <= capacity
    }

    /** What a receiver would see: packets of other epochs do not exist for it. */
    ghost function Contents(): seq<P>
      reads this
    {
      if Active(word) then Current(queue, Epoch(word)) else []
    }

    /** No packet of another epoch lies about. Only a racing sender can break this. */
    ghost predicate Clean()
      reads this
    {
      && (forall i :: 0 <= i < |queue| ==> queue[i].epoch == Epoch(word))
      && (!Active(word) ==> queue == [])
    }

    ghost function Model(): Fifo<P>
      reads this
    {
      Fifo(capacity, open && Active(word), Contents())
    }

    constructor (capacity: nat, active: bool)
      ensures Valid() && Clean() && Model() == Fifo(if capacity == 0 then 1 else capacity, active, [])
    {
      this.capacity := if capacity == 0 then 1 else capacity;
      queue, word, open := [], Word(0, active), true;
    }

    /** Refused when closed, suspended or full; the packet goes behind all others. */
    method TrySend(packet: P) returns (ok: bool)
      requires Valid()
      modifies this
      ensures Valid() && word == old(word) && open == old(open)
      ensures ok <==> open && Active(word) && |old(queue)| < capacity
      ensures Contents() == if ok then old(Contents()) + [packet] else old(Contents())
      ensures old(Clean()) ==> Clean() && (Model(), ok) == old(Model()).Offer(packet)
    {
      if !open || !Active(word) {
        return false;
      }
      var item := Queued(packet, Epoch(word));
      if old(Clean()) {
        CurrentLength(queue, Epoch(word));
      }
      match Push(queue, capacity, item) {
        case None => ok := false;
        case Some(pushed) =>
          CurrentAppend(queue, item, Epoch(word));
          queue, ok := pushed, true;
      }
    }

    /** Refused only when closed or suspended; when full, the oldest packet is lost. */
    method ForceSend(packet: P) returns (ok: bool)
      requires Valid()
      modifies this
      ensures Valid() && word == old(word) && open == old(open)
      ensures ok <==> open && Active(word)
      ensures !ok ==> queue == old(queue)
      ensures ok && |old(queue)| < capacity ==> Contents() == old(Contents()) + [packet]
      ensures ok && |old(queue)| == capacity ==>
        Contents() == Current(old(queue)[1..], Epoch(word)) + [packet]
      ensures old(Clean()) ==> Clean() && (Model(), ok) == old(Model()).Force(packet)
    {
      if !open || !Active(word) {
        return false;
      }
      var item := Queued(packet, Epoch(word));
      Forced(queue, capacity, item);
      if old(Clean()) {
        CleanForced(queue, capacity, item);
      }
      hide Current;
      queue := ForcePush(queue, capacity, item);
      ok := true;
    }

    /** The oldest packet of the current epoch; what lies before it is thrown away. */
    method TryRecv() returns (r: Option<P>)
      requires Valid()
      modifies this
      ensures Valid() && word == old(word) && open == old(open)
      ensures r == if old(Contents()) == [] then None else Some(old(Contents())[0])
      ensures Contents() == if old(Contents()) == [] then [] else old(Contents())[1..]
      ensures old(Clean()) ==> Clean() && (Model(), r) == old(Model()).Take()
    {
      r := None;
      while queue != []
        invariant Valid() && word == old(word) && open == old(open)
        invariant Contents() == old(Contents())
        invariant old(Clean()) ==> Clean()
        decreases |queue|
      {
        var item := queue[0];
        queue := queue[1..];
        if Active(word) && item.epoch == Epoch(word) {
          return Some(item.packet);
        }
      }
    }

    method Purge()
      modifies this
      ensures queue == [] && word == old(word) && open == old(open)
    {
      while queue != []
        invariant word == old(word) && open == old(open)
        decreases |queue|
      {
        queue := queue[1..];
      }
    }

    /** A new epoch begins, empty. */
    method Resume()
      requires Valid()
      modifies this
      ensures Valid() && Clean() && open == old(open)
      ensures word == Word(Epoch(old(word)) + 1, true)
      ensures Model() == Fifo(capacity, open, [])
    {
      var epoch := Epoch(word) + 1;
      word := Word(epoch, false);
      Purge();
      word := Word(epoch, true);
    }

    /** Nothing is left and nothing gets in. */
    method Suspend()
      requires Valid()
      modifies this
      ensures Valid() && Clean() && open == old(open)
      ensures word == Word(Epoch(old(word)), false)
      ensures Model() == Fifo(capacity, false, [])
    {
      word := Word(Epoch(word), false);
      Purge();
    }

    /** The receiver goes away. */
    method Close()
      requires Valid()
      modifies this
      ensures Valid() && word == old(word) && !open && queue == []
      ensures Model() == Fifo(capacity, false, [])
    {
      open := false;
      Purge();
    }
  }

  // ---------------------------------------------------------------- all interleavings

  /** A queued packet with its history: how many resumes had completed when its sender read the state
      word, and its place among all pushes. */
  datatype Item = Item(epoch: nat, generation: nat, place: nat)

  datatype SenderAt =
    | Idle
    | Opened(force: bool)
    | Loaded(force: bool, word: nat, generation: nat)

  datatype ReceiverAt =
    | Ready
    | Receiving
    | Holding(item: Item)
    | Resuming(epoch: nat)
    | ResumePurging(epoch: nat)
    | ResumePurged(epoch: nat)
    | Suspending(word: nat)
    | Purging

  /** A packet given to the caller, and the number of resumes completed at that moment. */
  datatype Receipt = Receipt(item: Item, resumes: nat)

  datatype System = System(
    capacity: nat, queue: seq<Item>, word: nat, open: bool,
    senders: map<nat, SenderAt>, receiver: ReceiverAt,
    resumes: nat, pushed: nat, returned: seq<Receipt>, lost: nat)

  function Initial(capacity: nat, active: bool): System {
    System(if capacity == 0 then 1 else capacity, [], Word(0, active), true, map[], Ready, 0, 0, [], 0)
  }

  /** One atomic step. A sender calls, or goes on with its call; the receiver begins an operation, or
      goes on with it. */
  datatype Action =
    | Send(sender: nat, force: bool)
    | SenderStep(sender: nat)
    | Receive | Resume | Suspend | Close
    | ReceiverStep

  function At(s: System, sender: nat): SenderAt {
    if sender in s.senders then s.senders[sender] else Idle
  }

  function Move(s: System, sender: nat, at: SenderAt): System {
    s.(senders := s.senders[sender := at])
  }

  function Held(s: System): nat {
    if s.receiver.Holding? then 1 else 0
  }

  /** Steps that are not possible change nothing. */
  function Next(s: System, a: Action): System
    requires 0 < s.capacity
  {
    match a
    case Send(sender, force) =>
      if At(s, sender) == Idle && s.open then Move(s, sender, Opened(force)) else s
    case SenderStep(sender) => SenderNext(s, sender)
    case Receive => if s.receiver == Ready then s.(receiver := Receiving) else s
    case Resume => if s.receiver == Ready then s.(receiver := Resuming(Epoch(s.word) + 1)) else s
    case Suspend => if s.receiver == Ready then s.(receiver := Suspending(s.word)) else s
    case Close => if s.receiver == Ready then s.(open := false, receiver := Purging) else s
    case ReceiverStep => ReceiverNext(s)
  }

  function SenderNext(s: System, sender: nat): System
    requires 0 < s.capacity
  {
    match At(s, sender)
    case Idle => s
    case Opened(force) => Move(s, sender, Loaded(force, s.word, s.resumes))
    case Loaded(force, word, generation) =>
      var idle := Move(s, sender, Idle);
      if !Active(word) then idle
      else Pushed(idle, force, Item(Epoch(word), generation, s.pushed))
  }

  function Pushed(s: System, force: bool, item: Item): System
    requires 0 < s.capacity
  {
    if force then
      s.(queue := ForcePush(s.queue, s.capacity, item), pushed := s.pushed + 1,
         lost := s.lost + if |s.queue| >= s.capacity then 1 else 0)
    else
      match Push(s.queue, s.capacity, item)
      case None => s
      case Some(queue) => s.(queue := queue, pushed := s.pushed + 1)
  }

  function Drained(s: System, at: ReceiverAt): System {
    if s.queue == [] then s.(receiver := at) else s.(queue := s.queue[1..], lost := s.lost + 1)
  }

  function ReceiverNext(s: System): System {
    match s.receiver
    case Ready => s
    case Receiving =>
      if s.queue == [] then s.(receiver := Ready)
      else s.(queue := s.queue[1..], receiver := Holding(s.queue[0]))
    case Holding(item) =>
      if Active(s.word) && item.epoch == Epoch(s.word) then
        s.(receiver := Ready, returned := s.returned + [Receipt(item, s.resumes)])
      else s.(receiver := Receiving, lost := s.lost + 1)
    case Resuming(epoch) => s.(word := Word(epoch, false), receiver := ResumePurging(epoch))
    case ResumePurging(epoch) => Drained(s, ResumePurged(epoch))
    case ResumePurged(epoch) =>
      s.(word := Word(epoch, true), receiver := Ready, resumes := s.resumes + 1)
    case Suspending(word) => s.(word := Word(Epoch(word), false), receiver := Purging)
    case Purging => Drained(s, Ready)
  }

  function Run(s: System, actions: seq<Action>): System
    requires 0 < s.capacity
    decreases |actions|
  {
    if actions == [] then s
    else
      var before := Run(s, actions[..|actions| - 1]);
      if before.capacity == 0 then before else Next(before, actions[|actions| - 1])
  }

  ghost predicate Stamped(item: Item, s: System) {
    item.epoch == item.generation && item.generation <= s.resumes && item.place < s.pushed
  }

  /** The epoch counts the resumes, and runs ahead only while one is under way. */
  ghost predicate WordOk(s: System) {
    match s.receiver
    case Resuming(epoch) => Epoch(s.word) == s.resumes && epoch == s.resumes + 1
    case ResumePurging(epoch) => s.word == Word(epoch, false) && epoch == s.resumes + 1
    case ResumePurged(epoch) => s.word == Word(epoch, false) && epoch == s.resumes + 1
    case Suspending(word) => Epoch(s.word) == s.resumes && word == s.word
    case _ => Epoch(s.word) == s.resumes
  }

  /** Places grow along what was returned, what is held and what is queued. */
  ghost predicate Ordered(s: System) {
    && (forall i, j :: 0 <= i < j < |s.queue| ==> s.queue[i].place < s.queue[j].place)
    && (forall i, j :: 0 <= i < j < |s.returned| ==> s.returned[i].item.place < s.returned[j].item.place)
    && (forall i, j :: 0 <= i < |s.returned| && 0 <= j < |s.queue| ==>
          s.returned[i].item.place < s.queue[j].place)
    && (s.receiver.Holding? ==>
          && (forall j :: 0 <= j < |s.queue| ==> s.receiver.item.place < s.queue[j].place)
          && (forall i :: 0 <= i < |s.returned| ==> s.returned[i].item.place < s.receiver.item.place))
  }

  ghost predicate Stamps(s: System) {
    && (forall i :: 0 <= i < |s.queue| ==> Stamped(s.queue[i], s))
    && (s.receiver.Holding? ==> Stamped(s.receiver.item, s))
    && (forall i :: 0 <= i < |s.returned| ==>
          && Stamped(s.returned[i].item, s)
          && s.returned[i].item.generation == s.returned[i].resumes)
    && (forall t | t in s.senders ::
          match s.senders[t]
          case Loaded(_, word, generation) =>
            generation <= s.resumes && (Active(word) ==> Epoch(word) == generation)
          case _ => true)
  }

  ghost predicate Inv(s: System) {
    && 0 < s.capacity && |s.queue| <= s.capacity
    && s.pushed == |s.returned| + Held(s) + |s.queue| + s.lost
    && WordOk(s) && Stamps(s) && Ordered(s)
  }

  lemma InitialHolds(capacity: nat, active: bool)
    ensures Inv(Initial(capacity, active))
  {
  }

  /** A push puts the newest place at the end. */
  lemma Appended(s: System, item: Item)
    requires Stamps(s) && Ordered(s) && Stamped(item, s.(pushed := s.pushed + 1)) && item.place == s.pushed
    ensures var n := s.(queue := s.queue + [item], pushed := s.pushed + 1); Stamps(n) && Ordered(n)
  {
    AppendedStamps(s, item);
    AppendedOrder(s, item);
  }

  lemma AppendedStamps(s: System, item: Item)
    requires Stamps(s) && Stamped(item, s.(pushed := s.pushed + 1))
    ensures Stamps(s.(queue := s.queue + [item], pushed := s.pushed + 1))
  {
    hide Active;
    hide Epoch;
    var n := s.(queue := s.queue + [item], pushed := s.pushed + 1);
    assert forall x :: Stamped(x, s) ==> Stamped(x, n);
    assert forall i :: 0 <= i < |n.queue| ==> n.queue[i] == if i < |s.queue| then s.queue[i] else item;
  }

  lemma AppendedOrder(s: System, item: Item)
    requires Stamps(s) && Ordered(s) && item.place == s.pushed
    ensures Ordered(s.(queue := s.queue + [item], pushed := s.pushed + 1))
  {
    hide Active;
    hide Epoch;
    var n := s.(queue := s.queue + [item], pushed := s.pushed + 1);
    assert forall i :: 0 <= i < |n.queue| ==> n.queue[i] == if i < |s.queue| then s.queue[i] else item;
  }

  lemma DroppedFirst(s: System)
    requires Stamps(s) && Ordered(s) && s.queue != []
    ensures var n := s.(queue := s.queue[1..]); Stamps(n) && Ordered(n)
  {
    var n := s.(queue := s.queue[1..]);
    assert forall i :: 0 <= i < |n.queue| ==> n.queue[i] == s.queue[i + 1];
  }

  lemma Moved(s: System, sender: nat, at: SenderAt)
    requires Stamps(s) && Ordered(s)
    requires at.Loaded? ==> at.generation <= s.resumes && (Active(at.word) ==> Epoch(at.word) == at.generation)
    ensures Stamps(Move(s, sender, at)) && Ordered(Move(s, sender, at))
  {
    hide Active;
    hide Epoch;
  }

  lemma SenderKeeps(s: System, sender: nat)
    requires Inv(s)
    ensures Inv(SenderNext(s, sender)) && SenderNext(s, sender).capacity == s.capacity
  {
    var at, idle := At(s, sender), Move(s, sender, Idle);
    match at
    case Idle =>
    case Opened(force) =>
      Moved(s, sender, Loaded(force, s.word, s.resumes));
    case Loaded(force, word, generation) =>
      Moved(s, sender, Idle);
      if Active(word) {
        var item := Item(Epoch(word), generation, s.pushed);
        PushKeeps(idle, force, item);
      }
  }

  lemma PushKeeps(s: System, force: bool, item: Item)
    requires Inv(s) && Stamped(item, s.(pushed := s.pushed + 1)) && item.place == s.pushed
    ensures Inv(Pushed(s, force, item)) && Pushed(s, force, item).capacity == s.capacity
  {
    hide Stamps;
    hide Ordered;
    hide Active;
    hide Epoch;
    if |s.queue| < s.capacity {
      Appended(s, item);
    } else if force {
      DroppedFirst(s);
      Appended(s.(queue := s.queue[1..]), item);
      WithLost(s.(queue := s.queue[1..] + [item], pushed := s.pushed + 1), s.lost + 1);
    }
  }

  lemma WithLost(s: System, lost: nat)
    requires Stamps(s) && Ordered(s)
    ensures Stamps(s.(lost := lost)) && Ordered(s.(lost := lost))
  {
  }

  lemma ReceiverKeeps(s: System)
    requires Inv(s)
    ensures Inv(ReceiverNext(s)) && ReceiverNext(s).capacity == s.capacity
  {
    hide Stamps;
    hide Ordered;
    hide Active;
    hide Epoch;
    match s.receiver
    case Receiving =>
      if s.queue == [] {
        ReceiverMoved(s, s.word, Ready, s.resumes);
      } else {
        Taken(s);
      }
    case Holding(_) => Judged(s);
    case ResumePurging(epoch) => DrainKeeps(s, ResumePurged(epoch));
    case Purging => DrainKeeps(s, Ready);
    case Resuming(epoch) => ReceiverMoved(s, Word(epoch, false), ResumePurging(epoch), s.resumes);
    case ResumePurged(epoch) => ReceiverMoved(s, Word(epoch, true), Ready, s.resumes + 1);
    case Suspending(word) => ReceiverMoved(s, Word(Epoch(word), false), Purging, s.resumes);
    case Ready =>
  }

  lemma ReceiverMoved(s: System, word: nat, at: ReceiverAt, resumes: nat)
    requires Stamps(s) && Ordered(s) && !at.Holding? && s.resumes <= resumes
    ensures var n := s.(word := word, receiver := at, resumes := resumes); Stamps(n) && Ordered(n)
  {
    hide Active;
    hide Epoch;
    var n := s.(word := word, receiver := at, resumes := resumes);
    assert forall item :: Stamped(item, s) ==> Stamped(item, n);
  }

  lemma DrainKeeps(s: System, at: ReceiverAt)
    requires Inv(s) && !at.Holding?
    requires if s.receiver.ResumePurging? then at == ResumePurged(s.receiver.epoch)
             else s.receiver == Purging && at == Ready
    ensures Inv(Drained(s, at))
  {
    assert WordOk(Drained(s, at));
    hide Active;
    hide Epoch;
    if s.queue == [] {
      ReceiverMoved(s, s.word, at, s.resumes);
    } else {
      DroppedFirst(s);
      WithLost(s.(queue := s.queue[1..]), s.lost + 1);
    }
  }

  lemma Taken(s: System)
    requires Inv(s) && s.receiver == Receiving && s.queue != []
    ensures Inv(ReceiverNext(s))
  {
    hide Active;
    hide Epoch;
    DroppedFirst(s);
    var n := ReceiverNext(s);
    assert Stamped(s.queue[0], s);
    assert forall j :: 0 <= j < |n.queue| ==> n.queue[j] == s.queue[j + 1];
    assert WordOk(n);
  }

  lemma Judged(s: System)
    requires Inv(s) && s.receiver.Holding?
    ensures Inv(ReceiverNext(s))
  {
    var item, n := s.receiver.item, ReceiverNext(s);
    assert n.receiver == Ready ==> item.generation == s.resumes;
    hide Active;
    hide Epoch;
    if n.receiver == Ready {
      assert forall i :: 0 <= i < |s.returned| ==> n.returned[i] == s.returned[i];
    }
  }

  lemma BeginKeeps(s: System, at: ReceiverAt, open: bool)
    requires Inv(s) && s.receiver == Ready
    requires at in {Receiving, Resuming(Epoch(s.word) + 1), Suspending(s.word), Purging}
    ensures Inv(s.(open := open, receiver := at))
  {
    var n := s.(open := open, receiver := at);
    assert WordOk(n);
    hide Active;
    hide Epoch;
    assert forall item :: Stamped(item, s) ==> Stamped(item, n);
  }

  lemma OpenedKeeps(s: System, sender: nat, force: bool)
    requires Inv(s)
    ensures Inv(Move(s, sender, Opened(force)))
  {
    Moved(s, sender, Opened(force));
    hide Stamps;
    hide Ordered;
    hide Active;
    hide Epoch;
  }

  lemma NextKeeps(s: System, a: Action)
    requires Inv(s)
    ensures Inv(Next(s, a)) && Next(s, a).capacity == s.capacity
  {
    hide Inv;
    hide SenderNext;
    hide ReceiverNext;
    hide Epoch;
    match a
    case Send(sender, force) => OpenedKeeps(s, sender, force);
    case SenderStep(sender) => SenderKeeps(s, sender);
    case ReceiverStep => ReceiverKeeps(s);
    case _ =>
      if s.receiver == Ready {
        BeginKeeps(s, Receiving, s.open);
        BeginKeeps(s, Resuming(Epoch(s.word) + 1), s.open);
        BeginKeeps(s, Suspending(s.word), s.open);
        BeginKeeps(s, Purging, false);
      }
  }

  lemma {:induction false} RunKeeps(s: System, actions: seq<Action>)
    requires Inv(s)
    ensures Inv(Run(s, actions)) && Run(s, actions).capacity == s.capacity
    decreases |actions|
  {
    if actions != [] {
      var before := actions[..|actions| - 1];
      RunKeeps(s, before);
      NextKeeps(Run(s, before), actions[|actions| - 1]);
    }
  }

  /** Under every interleaving: a packet that is returned was sent by a call that read the state word
      after the latest resume had completed; packets are returned in the order in which they were
      pushed, each at most once; the queue never exceeds its capacity; and every push is accounted
      for. */
  lemma ReturnedIsCurrent(capacity: nat, active: bool, actions: seq<Action>)
    ensures var s := Run(Initial(capacity, active), actions);
            && |s.queue| <= (if capacity == 0 then 1 else capacity)
            && s.pushed == |s.returned| + Held(s) + |s.queue| + s.lost
            && (forall i :: 0 <= i < |s.returned| ==>
                  s.returned[i].item.generation == s.returned[i].resumes)
            && (forall i, j :: 0 <= i < j < |s.returned| ==>
                  s.returned[i].item.place < s.returned[j].item.place)
  {
    InitialHolds(capacity, active);
    RunKeeps(Initial(capacity, active), actions);
  }

  /** What the receiver itself throws away was sent before the latest resume, unless the queue is
      suspended. */
  lemma DiscardIsStale(s: System)
    requires Inv(s) && s.receiver.Holding? && ReceiverNext(s).lost > s.lost
    ensures !Active(s.word) || s.receiver.item.generation < s.resumes
  {
  }
}
