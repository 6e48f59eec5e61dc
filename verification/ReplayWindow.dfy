/** The anti-replay window: a ring bitmap of 16384 counters that agrees with the plain set of every
    counter accepted so far. */
module ReplayWindow {
  import opened Bytes

  const WINDOW: nat := 16384
  const WORDS: nat := 256
  const WORD_BITS: nat := 64
  const U64_MAX: nat := 0xffff_ffff_ffff_ffff

  type u64 = x: int | 0 <= x <= U64_MAX

  // ---------------------------------------------------------------- the set model

  /** The highest counter accepted and every counter ever accepted. */
  datatype Model = Model(highest: Option<u64>, accepted: set<u64>)

  const EMPTY: Model := Model(None, {})

  datatype Verdict = Verdict(model: Model, accepted: bool)

  function Judge(m: Model, counter: u64): Verdict {
    if m.highest.None? || counter > m.highest.value then
      Verdict(Model(Some(counter), m.accepted + {counter}), true)
    else if m.highest.value - counter >= WINDOW || counter in m.accepted then Verdict(m, false)
    else Verdict(m.(accepted := m.accepted + {counter}), true)
  }

  ghost predicate Sound(m: Model) {
    && (m.highest.None? ==> m.accepted == {})
    && (m.highest.Some? ==> m.highest.value in m.accepted
                            && forall x :: x in m.accepted ==> x <= m.highest.value)
  }

  /** A counter is accepted exactly when it is not older than the window and was never accepted. */
  lemma AcceptExactly(m: Model, counter: u64)
    requires Sound(m)
    ensures Sound(Judge(m, counter).model)
    ensures Judge(m, counter).accepted
            <==> (m.highest.Some? ==> counter + 16383 >= m.highest.value)
                 && counter !in m.accepted
    ensures Judge(m, counter).accepted ==> counter in Judge(m, counter).model.accepted
    ensures m.accepted <= Judge(m, counter).model.accepted
  {
  }

  function AcceptAll(m: Model, counters: seq<u64>): Model
    decreases |counters|
  {
    if counters == [] then m else AcceptAll(Judge(m, counters[0]).model, counters[1..])
  }

  /** How often one counter is accepted in a run. */
  function Acceptances(m: Model, counters: seq<u64>, counter: u64): nat
    decreases |counters|
  {
    if counters == [] then 0
    else
      var v := Judge(m, counters[0]);
      (if v.accepted && counters[0] == counter then 1 else 0)
      + Acceptances(v.model, counters[1..], counter)
  }

  /** No counter is accepted twice, and none that was accepted before the run. */
  lemma {:induction false} AcceptedOnce(m: Model, counters: seq<u64>, counter: u64)
    requires Sound(m)
    ensures Acceptances(m, counters, counter) <= if counter in m.accepted then 0 else 1
    decreases |counters|
  {
    if counters != [] {
      AcceptExactly(m, counters[0]);
      AcceptedOnce(Judge(m, counters[0]).model, counters[1..], counter);
    }
  }

  // ---------------------------------------------------------------- one word

  /** The word with only bit k set: 1 << k. */
  function Mask(k: nat): bv64
    requires k < WORD_BITS
  {
    if k == 0 then 1 else Mask(k - 1) << 1
  }

  function Both(word: bv64, mask: bv64): bv64 {
    word & mask
  }

  function With(word: bv64, mask: bv64): bv64 {
    word | mask
  }

  function Less(word: bv64, mask: bv64): bv64 {
    word & !mask
  }

  predicate Bit(word: bv64, k: nat)
    requires k < WORD_BITS
  {
    Both(word, Mask(k)) != 0
  }

  lemma ShiftBits(a: bv64, b: bv64)
    ensures (a << 1) & 1 == 0
    ensures a & b == 0 ==> (a << 1) & (b << 1) == 0
  {
  }

  lemma MaskStep(k: nat)
    requires 0 < k < WORD_BITS
    ensures Mask(k) == Mask(k - 1) << 1
  {
  }

  lemma {:induction false} MasksDisjoint(j: nat, k: nat)
    requires j < k < WORD_BITS
    ensures Mask(k) & Mask(j) == 0
  {
    MaskStep(k);
    if j > 0 {
      MasksDisjoint(j - 1, k - 1);
      MaskStep(j);
      hide Mask;
      ShiftBits(Mask(k - 1), Mask(j - 1));
    } else {
      assert Mask(0) == 1;
      hide Mask;
      ShiftBits(Mask(k - 1), 0);
    }
  }

  lemma ByteShift(a: bv64)
    ensures a << 1 << 1 << 1 << 1 << 1 << 1 << 1 << 1 == a << 8
    ensures 0 < a <= 0x80 ==> 0 < a << 8 <= 0x8000
    ensures 0 < a <= 0x8000 ==> 0 < a << 8 <= 0x80_0000
    ensures 0 < a <= 0x80_0000 ==> 0 < a << 8 <= 0x8000_0000
    ensures 0 < a <= 0x8000_0000 ==> 0 < a << 8 <= 0x80_0000_0000
    ensures 0 < a <= 0x80_0000_0000 ==> 0 < a << 8 <= 0x8000_0000_0000
    ensures 0 < a <= 0x8000_0000_0000 ==> 0 < a << 8 <= 0x80_0000_0000_0000
    ensures 0 < a <= 0x80_0000_0000_0000 ==> 0 < a << 8
  {
  }

  lemma MaskByte(k: nat)
    requires k + 8 < WORD_BITS
    ensures Mask(k + 8) == Mask(k) << 8
  {
    hide Mask;
    MaskStep(k + 1);
    MaskStep(k + 2);
    MaskStep(k + 3);
    MaskStep(k + 4);
    MaskStep(k + 5);
    MaskStep(k + 6);
    MaskStep(k + 7);
    MaskStep(k + 8);
    ByteShift(Mask(k));
  }

  lemma LowMasks(k: nat)
    requires k < 8
    ensures 0 < Mask(k) <= 0x80
  {
    assert Mask(1) == 2 && Mask(2) == 4 && Mask(3) == 8 && Mask(4) == 0x10;
    assert Mask(5) == 0x20 && Mask(6) == 0x40 && Mask(7) == 0x80;
  }

  /** The one bit never falls off the end of the word. */
  lemma {:induction false} MaskRange(k: nat)
    requires k < WORD_BITS
    ensures 0 < Mask(k)
    ensures k < 8 ==> Mask(k) <= 0x80
    ensures k < 16 ==> Mask(k) <= 0x8000
    ensures k < 24 ==> Mask(k) <= 0x80_0000
    ensures k < 32 ==> Mask(k) <= 0x8000_0000
    ensures k < 40 ==> Mask(k) <= 0x80_0000_0000
    ensures k < 48 ==> Mask(k) <= 0x8000_0000_0000
    ensures k < 56 ==> Mask(k) <= 0x80_0000_0000_0000
  {
    if k < 8 {
      LowMasks(k);
    } else {
      MaskRange(k - 8);
      MaskByte(k - 8);
      ByteShift(Mask(k - 8));
    }
  }

  lemma SameBit(word: bv64, mask: bv64)
    ensures Both(With(word, mask), mask) == mask
    ensures Both(Less(word, mask), mask) == 0
  {
  }

  lemma OrApart(word: bv64, mask: bv64, other: bv64)
    requires mask & other == 0
    ensures (word | mask) & other == word & other
  {
  }

  lemma AndNotApart(word: bv64, mask: bv64, other: bv64)
    requires mask & other == 0
    ensures (word & !mask) & other == word & other
  {
  }

  lemma WithApart(word: bv64, mask: bv64, other: bv64)
    requires Both(mask, other) == 0
    ensures Both(With(word, mask), other) == Both(word, other)
  {
    OrApart(word, mask, other);
    var set_ := word | mask;
    assert With(word, mask) == set_;
    hide With;
    assert Both(set_, other) == set_ & other;
    assert Both(word, other) == word & other;
    hide Both;
  }

  lemma LessApart(word: bv64, mask: bv64, other: bv64)
    requires Both(mask, other) == 0
    ensures Both(Less(word, mask), other) == Both(word, other)
  {
    AndNotApart(word, mask, other);
    var cleared := word & !mask;
    assert Less(word, mask) == cleared;
    hide Less;
    assert Both(cleared, other) == cleared & other;
    assert Both(word, other) == word & other;
    hide Both;
  }

  lemma Commutes(a: bv64, b: bv64)
    ensures a & b == b & a
  {
  }

  /** Setting or clearing one bit of a word moves no other. */
  lemma SetWord(word: bv64, k: nat, j: nat)
    requires k < WORD_BITS && j < WORD_BITS
    ensures Bit(With(word, Mask(k)), j) <==> j == k || Bit(word, j)
    ensures Bit(Less(word, Mask(k)), j) <==> j != k && Bit(word, j)
  {
    hide Mask;
    hide Both;
    hide With;
    hide Less;
    if j == k {
      SameBit(word, Mask(k));
      MaskSome(k);
    } else {
      MasksApart(j, k);
      WithApart(word, Mask(k), Mask(j));
      LessApart(word, Mask(k), Mask(j));
    }
  }

  lemma MaskSome(k: nat)
    requires k < WORD_BITS
    ensures Mask(k) != 0
  {
    hide Mask;
    MaskRange(k);
  }

  lemma MasksApart(j: nat, k: nat)
    requires j < WORD_BITS && k < WORD_BITS && j != k
    ensures Both(Mask(k), Mask(j)) == 0
  {
    hide Mask;
    if j < k {
      MasksDisjoint(j, k);
    } else {
      MasksDisjoint(k, j);
      Commutes(Mask(j), Mask(k));
    }
  }

  lemma ZeroWord(mask: bv64)
    ensures Both(0, mask) == 0
  {
  }

  // ---------------------------------------------------------------- the ring

  /** Counters that share a ring position differ by a multiple of the window. */
  lemma SameSlot(a: nat, b: nat)
    requires a < b < a + WINDOW
    ensures a % WINDOW != b % WINDOW
  {
  }

  lemma SlotParts(c: nat)
    ensures c % WINDOW / WORD_BITS < WORDS
    ensures c % WINDOW == c % WINDOW / WORD_BITS * WORD_BITS + c % WINDOW % WORD_BITS
  {
  }

  function WordOf(c: nat): (w: nat)
    ensures w < WORDS
  {
    c % WINDOW / WORD_BITS
  }

  function BitOf(c: nat): (k: nat)
    ensures k < WORD_BITS
  {
    c % WINDOW % WORD_BITS
  }

  class Window {
    var highest: Option<u64>
    const seen: array<bv64>
    ghost var accepted: set<u64>

    ghost predicate Marked(c: nat)
      reads seen
      requires seen.Length == WORDS
    {
      Bit(seen[WordOf(c)], BitOf(c))
    }

    /** Inside the window the ring holds exactly the accepted counters. */
    ghost predicate Valid()
      reads this, seen
    {
      && seen.Length == WORDS
      && Sound(Model(highest, accepted))
      && (highest.None? ==> forall c: nat :: !Marked(c))
      && (highest.Some? ==>
            forall c: nat :: c <= highest.value < c + WINDOW ==> (Marked(c) <==> c in accepted))
    }

    ghost function View(): Model
      reads this
    {
      Model(highest, accepted)
    }

    constructor ()
      ensures Valid() && fresh(seen) && View() == EMPTY
    {
      highest, accepted := None, {};
      seen := new bv64[WORDS](_ => 0);
      new;
      forall c: nat ensures !Marked(c) {
        ZeroWord(Mask(BitOf(c)));
      }
    }

    method SetBit(c: u64)
      requires seen.Length == WORDS
      modifies seen
      ensures forall x: nat :: Marked(x) <==> x % WINDOW == c % WINDOW || old(Marked(x))
    {
      hide Bit;
      hide Mask;
      hide With;
      seen[WordOf(c)] := With(seen[WordOf(c)], Mask(BitOf(c)));
      forall x: nat ensures Marked(x) <==> x % WINDOW == c % WINDOW || old(Marked(x)) {
        SetWord(old(seen[WordOf(c)]), BitOf(c), BitOf(x));
        SlotParts(x);
        SlotParts(c);
      }
    }

    method ClearBit(c: u64)
      requires seen.Length == WORDS
      modifies seen
      ensures forall x: nat :: Marked(x) <==> x % WINDOW != c % WINDOW && old(Marked(x))
    {
      hide Bit;
      hide Mask;
      hide Less;
      seen[WordOf(c)] := Less(seen[WordOf(c)], Mask(BitOf(c)));
      forall x: nat ensures Marked(x) <==> x % WINDOW != c % WINDOW && old(Marked(x)) {
        SetWord(old(seen[WordOf(c)]), BitOf(c), BitOf(x));
        SlotParts(x);
        SlotParts(c);
      }
    }

    method TestBit(c: u64) returns (set_: bool)
      requires seen.Length == WORDS
      ensures set_ == Marked(c)
    {
      set_ := Bit(seen[WordOf(c)], BitOf(c));
    }

    method ClearAll()
      requires seen.Length == WORDS
      modifies seen
      ensures forall x: nat :: !Marked(x)
    {
      hide Mask;
      forall i | 0 <= i < WORDS {
        seen[i] := 0;
      }
      forall x: nat ensures !Marked(x) {
        ZeroWord(Mask(BitOf(x)));
      }
    }

    /** Clears the positions of the counters the window moves over. */
    method Advance(from: u64, shift: nat)
      requires seen.Length == WORDS && 0 < shift < WINDOW && from + shift <= U64_MAX
      modifies seen
      ensures forall x: nat :: from < x <= from + shift ==> !Marked(x)
      ensures forall x: nat :: x <= from && from + shift < x + WINDOW ==> (Marked(x) <==> old(Marked(x)))
    {
      hide Marked;
      hide WordOf;
      var i := 1;
      while i <= shift
        invariant 1 <= i <= shift + 1
        invariant forall x: nat :: from < x < from + i ==> !Marked(x)
        invariant forall x: nat :: x <= from && from + shift < x + WINDOW ==>
                    (Marked(x) <==> old(Marked(x)))
      {
        ClearBit(from + i);
        forall x: nat | x <= from && from + shift < x + WINDOW
          ensures x % WINDOW != (from + i) % WINDOW
        {
          SameSlot(x, from + i);
        }
        i := i + 1;
      }
    }

    method Accept(counter: u64) returns (ok: bool)
      requires Valid()
      modifies this, seen
      ensures Valid()
      ensures Verdict(View(), ok) == Judge(old(View()), counter)
    {
      hide Marked;
      if highest.None? {
        highest := Some(counter);
        SetBit(counter);
        accepted := accepted + {counter};
        OnlyHere(counter);
        return true;
      }
      if counter > highest.value {
        var shift := counter - highest.value;
        if shift >= WINDOW {
          ClearAll();
        } else {
          Advance(highest.value, shift);
        }
        highest := Some(counter);
        SetBit(counter);
        accepted := accepted + {counter};
        OnlyHere(counter);
        return true;
      }
      var age := highest.value - counter;
      if age >= WINDOW {
        return false;
      }
      var seenBefore := TestBit(counter);
      if seenBefore {
        return false;
      }
      SetBit(counter);
      accepted := accepted + {counter};
      InWindow(counter, highest.value);
      ok := true;
    }
  }

  /** Within the window ending at `counter` only `counter` has its ring position. */
  lemma OnlyHere(counter: u64)
    ensures forall x: nat :: x <= counter < x + WINDOW ==> (x % WINDOW == counter % WINDOW <==> x == counter)
  {
    forall x: nat | x < counter < x + WINDOW ensures x % WINDOW != counter % WINDOW {
      SameSlot(x, counter);
    }
  }

  lemma InWindow(counter: u64, highest: u64)
    requires counter <= highest < counter + WINDOW
    ensures forall x: nat :: x <= highest < x + WINDOW ==> (x % WINDOW == counter % WINDOW <==> x == counter)
  {
    forall x: nat | x <= highest < x + WINDOW && x != counter ensures x % WINDOW != counter % WINDOW {
      if x < counter {
        SameSlot(x, counter);
      } else {
        SameSlot(counter, x);
      }
    }
  }
}
