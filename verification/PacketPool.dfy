/** The bounded pool of packet buffers: the pool itself, and every interleaving of threads that take
    buffers out of it and drop them. */
module PacketPool {
  import opened Bytes
  import opened Packets
  import opened Tally

  const PACKET_POOL_RETAINED_MAX: nat := 2048

  function Limit(buffers: nat): (n: nat)
    ensures n > 0
  {
    if buffers == 0 then 1 else buffers
  }

  function Retained(limit: nat): (n: nat)
    ensures n <= limit && n <= PACKET_POOL_RETAINED_MAX
    ensures n == limit || n == PACKET_POOL_RETAINED_MAX
  {
    if limit <= PACKET_POOL_RETAINED_MAX then limit else PACKET_POOL_RETAINED_MAX
  }

  // ---------------------------------------------------------------- one thread at a time

  class Pool {
    const limit: nat
    var free: seq<array<byte>>
    var made: nat
    /** The storages of the packets that are in use. */
    ghost var live: set<array<byte>>

    ghost predicate Valid()
      reads this
    {
      && (forall i :: 0 <= i < |free| ==> free[i] !in live)
      && (forall i, j :: 0 <= i < j < |free| ==> free[i] != free[j])
      && (forall i :: 0 <= i < |free| ==> free[i].Length == PACKET_CAPACITY)
      && |free| <= Retained(limit) && made == |free| + |live| <= limit
    }

    constructor (buffers: nat)
      ensures Valid() && limit == Limit(buffers) && free == [] && live == {}
    {
      limit := Limit(buffers);
      free, made, live := [], 0, {};
    }

    /** A free buffer is used again before a new one is made; there is none left exactly when the whole
        budget is in use. Nobody else has the buffer. */
    method TryAcquire() returns (packet: Option<PacketBuf>)
      requires Valid()
      modifies this
      ensures Valid()
      ensures packet.None? <==> |old(live)| == limit
      ensures packet.None? ==> free == old(free) && live == old(live) && made == old(made)
      ensures packet.Some? ==>
        var p := packet.value;
        && fresh(p) && p.Valid() && p.start == p.end == PACKET_HEADROOM
        && p.storage !in old(live) && live == old(live) + {p.storage}
        && (old(free) != [] ==> p.storage == old(free)[0] && free == old(free)[1..])
        && (old(free) == [] ==> fresh(p.storage) && free == [])
    {
      var storage: array<byte>;
      if free != [] {
        storage := free[0];
        free := free[1..];
      } else {
        if made >= limit {
          return None;
        }
        made := made + 1;
        storage := new byte[PACKET_CAPACITY](_ => 0);
      }
      var p := new PacketBuf.Around(storage);
      live := live + {storage};
      packet := Some(p);
    }

    /** A dropped packet gives its storage back, or gives up its place in the budget. */
    method Release(packet: PacketBuf)
      requires Valid() && packet.Valid() && packet.storage in live
      modifies this
      ensures Valid() && live == old(live) - {packet.storage}
      ensures free == if |old(free)| < Retained(limit) then old(free) + [packet.storage] else old(free)
    {
      live := live - {packet.storage};
      if packet.storage.Length != PACKET_CAPACITY || |free| >= Retained(limit) {
        made := made - 1;
        return;
      }
      free := free + [packet.storage];
    }
  }

  // ---------------------------------------------------------------- all interleavings

  /** Between the atomic steps of a call: the free list was found empty, or was found full. */
  datatype Thread = Idle | Allocating | Discarding

  datatype System = System(limit: nat, free: seq<nat>, live: set<nat>, made: int, created: nat,
                           threads: seq<Thread>)

  /** Buffers are numbered as they are made. `whole` says whether a dropped storage still has its full
      length. */
  datatype Action = Acquire(thread: nat) | Drop(thread: nat, buffer: nat, whole: bool) | Step(thread: nat)

  function Initial(buffers: nat, threads: nat): System {
    System(Limit(buffers), [], {}, 0, 0, seq(threads, _ => Idle))
  }

  function SetThread(s: System, k: nat, t: Thread): System
    requires k < |s.threads|
  {
    s.(threads := s.threads[k := t])
  }

  function Next(s: System, a: Action): System {
    var k := a.thread;
    if k >= |s.threads| then s
    else
      match a
      case Acquire(_) =>
        if s.threads[k] != Idle then s
        else if s.free != [] then s.(free := s.free[1..], live := s.live + {s.free[0]})
        else SetThread(s, k, Allocating)
      case Drop(_, buffer, whole) =>
        if s.threads[k] != Idle || buffer !in s.live then s
        else if whole && |s.free| < Retained(s.limit) then
          s.(free := s.free + [buffer], live := s.live - {buffer})
        else SetThread(s, k, Discarding).(live := s.live - {buffer})
      case Step(_) =>
        match s.threads[k]
        case Idle => s
        case Allocating =>
          if s.made < s.limit then
            SetThread(s, k, Idle).(made := s.made + 1, created := s.created + 1,
                                   live := s.live + {s.created})
          else SetThread(s, k, Idle)
        case Discarding => SetThread(s, k, Idle).(made := s.made - 1)
  }

  function Run(s: System, actions: seq<Action>): System {
    if actions == [] then s else Next(Run(s, actions[..|actions| - 1]), actions[|actions| - 1])
  }

  function Departing(): Thread -> nat {
    (t: Thread) => if t == Discarding then 1 else 0
  }

  ghost predicate Owned(s: System) {
    && (forall i :: 0 <= i < |s.free| ==> s.free[i] < s.created && s.free[i] !in s.live)
    && (forall i, j :: 0 <= i < j < |s.free| ==> s.free[i] != s.free[j])
    && (forall b :: b in s.live ==> b < s.created)
  }

  ghost predicate Counted(s: System) {
    && s.made == |s.free| + |s.live| + Total(s.threads, Departing())
    && s.made <= s.limit && |s.free| <= Retained(s.limit)
  }

  ghost predicate Inv(s: System) {
    Owned(s) && Counted(s)
  }

  /** Buffers stay in one place as they move. */
  lemma OwnedKeeps(s: System, a: Action)
    requires Owned(s)
    ensures Owned(Next(s, a))
  {
    var n := Next(s, a);
    if a.Acquire? && n.free != s.free {
      assert forall i :: 0 <= i < |n.free| ==> n.free[i] == s.free[i + 1];
    }
  }

  lemma OneMore(live: set<nat>, b: nat)
    requires b !in live
    ensures |live + {b}| == |live| + 1
  {
  }

  lemma OneLess(live: set<nat>, b: nat)
    ensures b in live ==> |live - {b}| == |live| - 1
  {
  }

  /** A step of thread `k` that leaves the numbers in balance. */
  lemma Balanced(s: System, n: System, k: nat)
    requires Counted(s) && k < |s.threads| && |n.threads| == |s.threads|
    requires n.threads == s.threads[k := n.threads[k]] && n.limit == s.limit
    requires n.made - |n.free| - |n.live| - Departing()(n.threads[k])
             == s.made - |s.free| - |s.live| - Departing()(s.threads[k])
    requires n.made <= s.limit && |n.free| <= Retained(s.limit)
    ensures Counted(n)
  {
    TotalUpdate(s.threads, k, n.threads[k], Departing());
    hide Total;
    hide Departing;
    hide Retained;
  }

  lemma DepartingIs()
    ensures forall t: Thread :: Departing()(t) == if t == Discarding then 1 else 0
  {
  }

  lemma CountsKeep(s: System, a: Action)
    requires Counted(s) && s.created !in s.live && (s.free != [] ==> s.free[0] !in s.live)
    ensures Counted(Next(s, a))
  {
    hide Total;
    hide Retained;
    hide Departing;
    var k, n := a.thread, Next(s, a);
    if k < |s.threads| && n != s {
      hide Counted;
      match a
      case Acquire(_) => AcquireCounts(s, k);
      case Drop(_, buffer, whole) => DropCounts(s, k, buffer, whole);
      case Step(_) => StepCounts(s, k);
    }
  }

  lemma AcquireCounts(s: System, k: nat)
    requires Counted(s) && k < |s.threads| && s.threads[k] == Idle && (s.free != [] ==> s.free[0] !in s.live)
    ensures Counted(Next(s, Acquire(k)))
  {
    hide Total;
    hide Departing;
    DepartingIs();
    var n := Next(s, Acquire(k));
    if s.free != [] {
      OneMore(s.live, s.free[0]);
    }
    assert n.threads == s.threads[k := n.threads[k]];
    Balanced(s, n, k);
  }

  lemma DropCounts(s: System, k: nat, buffer: nat, whole: bool)
    requires Counted(s) && k < |s.threads| && s.threads[k] == Idle && buffer in s.live
    ensures Counted(Next(s, Drop(k, buffer, whole)))
  {
    hide Total;
    hide Departing;
    DepartingIs();
    var n := Next(s, Drop(k, buffer, whole));
    OneLess(s.live, buffer);
    assert n.threads == s.threads[k := n.threads[k]];
    Balanced(s, n, k);
  }

  lemma StepCounts(s: System, k: nat)
    requires Counted(s) && k < |s.threads| && s.created !in s.live
    ensures Counted(Next(s, Step(k)))
  {
    hide Total;
    hide Departing;
    DepartingIs();
    var n := Next(s, Step(k));
    OneMore(s.live, s.created);
    assert n.threads == s.threads[k := n.threads[k]];
    Balanced(s, n, k);
  }

  lemma NextKeeps(s: System, a: Action)
    requires Inv(s)
    ensures Inv(Next(s, a)) && Next(s, a).limit == s.limit
  {
    OwnedKeeps(s, a);
    NewIsNew(s);
    CountsKeep(s, a);
    hide Departing;
    hide Retained;
  }

  lemma NewIsNew(s: System)
    requires Owned(s)
    ensures s.created !in s.live
  {
  }

  lemma {:induction false} RunKeeps(s: System, actions: seq<Action>)
    requires Inv(s)
    ensures Inv(Run(s, actions)) && Run(s, actions).limit == s.limit
    decreases |actions|
  {
    if actions != [] {
      RunKeeps(s, actions[..|actions| - 1]);
      NextKeeps(Run(s, actions[..|actions| - 1]), actions[|actions| - 1]);
    }
  }

  /** However threads interleave: never more packets are in use than the budget allows, no buffer is in
      use and free at once or free twice, the free list keeps its bound, and the budget counts the free
      buffers, those in use and those just being given up. */
  lemma BuffersAreConserved(buffers: nat, threads: nat, actions: seq<Action>)
    ensures var s := Run(Initial(buffers, threads), actions);
            && |s.live| <= Limit(buffers) && |s.free| <= Retained(Limit(buffers))
            && (forall i :: 0 <= i < |s.free| ==> s.free[i] !in s.live)
            && (forall i, j :: 0 <= i < j < |s.free| ==> s.free[i] != s.free[j])
            && s.made == |s.free| + |s.live| + Total(s.threads, Departing())
            && ((forall k :: 0 <= k < |s.threads| ==> s.threads[k] == Idle) ==>
                  s.made == |s.free| + |s.live|)
  {
    NoTotal(Initial(buffers, threads).threads, Departing());
    RunKeeps(Initial(buffers, threads), actions);
    var s := Run(Initial(buffers, threads), actions);
    if forall k :: 0 <= k < |s.threads| ==> s.threads[k] == Idle {
      NoTotal(s.threads, Departing());
    }
  }

  /** An acquire is refused only when the budget is used up at that moment: by packets in use, by
      buffers that have become free since, or by buffers just being given up. */
  lemma RefusedOnlyWhenUsedUp(s: System, k: nat)
    requires Inv(s) && k < |s.threads| && s.threads[k] == Allocating
    ensures var n := Next(s, Step(k));
            if n.live == s.live then |s.live| + |s.free| + Total(s.threads, Departing()) == s.limit
            else n.live == s.live + {s.created} && s.created !in s.live
  {
    NewIsNew(s);
  }

  /** No buffer has been given up. */
  ghost predicate Thrifty(s: System) {
    s.made == s.created && forall k :: 0 <= k < |s.threads| ==> s.threads[k] != Discarding
  }

  lemma ThriftyStays(s: System, a: Action)
    requires Inv(s) && Thrifty(s) && s.limit <= PACKET_POOL_RETAINED_MAX && (a.Drop? ==> a.whole)
    ensures Thrifty(Next(s, a))
  {
    hide Total;
    hide Departing;
    DepartingIs();
    NoTotal(s.threads, Departing());
    if a.Drop? && a.thread < |s.threads| && a.buffer in s.live {
      OneLess(s.live, a.buffer);
    }
  }

  lemma {:induction false} RunThrifty(s: System, actions: seq<Action>)
    requires Inv(s) && Thrifty(s) && s.limit <= PACKET_POOL_RETAINED_MAX
    requires forall a :: a in actions && a.Drop? ==> a.whole
    ensures Inv(Run(s, actions)) && Thrifty(Run(s, actions)) && Run(s, actions).limit == s.limit
    decreases |actions|
  {
    hide Inv;
    hide Thrifty;
    if actions != [] {
      var before, last := actions[..|actions| - 1], actions[|actions| - 1];
      RunThrifty(s, before);
      NextKeeps(Run(s, before), last);
      ThriftyStays(Run(s, before), last);
      hide Next;
    }
  }

  /** A budget of up to 2048 buffers is made at most once: while nobody returns a storage of another length,
      every dropped buffer is kept for the next packet, so no more buffers than the budget are ever made. */
  lemma NothingIsWasted(buffers: nat, threads: nat, actions: seq<Action>)
    requires Limit(buffers) <= 2048 && forall a :: a in actions && a.Drop? ==> a.whole
    ensures var s := Run(Initial(buffers, threads), actions);
            s.created == |s.free| + |s.live| <= Limit(buffers)
  {
    InitialInv(buffers, threads);
    RunThrifty(Initial(buffers, threads), actions);
    var s := Run(Initial(buffers, threads), actions);
    hide Run;
    hide Total;
    hide Departing;
    DepartingIs();
    NoTotal(s.threads, Departing());
  }

  lemma InitialInv(buffers: nat, threads: nat)
    ensures Inv(Initial(buffers, threads))
  {
    NoTotal(Initial(buffers, threads).threads, Departing());
  }
}
