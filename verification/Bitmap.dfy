/** A pool bitmap: words of BITS_PER_LONG bits, read as a set of slot indices. */
module Bitmap {
  import opened HostState

  const BITS_PER_LONG: nat := 64

  const TOP_BIT: bv64 := 0x8000_0000_0000_0000

  /** The word with only bit `k` set. */
  function Mask(k: nat): bv64 {
    if k == 0 then 1 else Mask(k - 1) << 1
  }

  predicate Bit(w: bv64, k: nat) { And(w, Mask(k)) != 0 }

  function And(w: bv64, m: bv64): bv64 { w & m }

  function Or(w: bv64, m: bv64): bv64 { w | m }

  function AndNot(w: bv64, m: bv64): bv64 { w & !m }

  function ShiftUp(w: bv64, n: nat): bv64
    decreases n
  {
    if n == 0 then w else ShiftUp(w << 1, n - 1)
  }

  lemma {:induction false} ShiftUpZero(n: nat)
    ensures ShiftUp(0, n) == 0
  {
    if n > 0 { ShiftUpZero(n - 1); }
  }

  lemma FourUp(k: nat)
    ensures Mask(k + 4) == Mask(k) << 4
  {
    assert Mask(k + 2) == Mask(k) << 2;
  }

  lemma SixteenUp(k: nat)
    ensures Mask(k + 16) == Mask(k) << 16
  {
    FourUp(k);
    FourUp(k + 4);
    FourUp(k + 8);
    FourUp(k + 12);
  }

  lemma LastMask()
    ensures Mask(BITS_PER_LONG - 1) == TOP_BIT
  {
    SixteenUp(0);
    SixteenUp(16);
    SixteenUp(32);
    FourUp(48);
    FourUp(52);
    FourUp(56);
    assert Mask(62) == Mask(60) << 2;
  }

  lemma {:induction false} MaskReachesTop(k: nat)
    requires k < BITS_PER_LONG
    ensures ShiftUp(Mask(k), BITS_PER_LONG - 1 - k) == TOP_BIT
    decreases BITS_PER_LONG - k
  {
    if k == BITS_PER_LONG - 1 {
      LastMask();
    } else {
      MaskReachesTop(k + 1);
    }
  }

  lemma MaskNonZero(k: nat)
    requires k < BITS_PER_LONG
    ensures Mask(k) != 0
  {
    MaskReachesTop(k);
    ShiftUpZero(BITS_PER_LONG - 1 - k);
  }

  lemma ShiftsDisjoint(a: bv64, b: bv64)
    requires And(a, b) == 0
    ensures And(a << 1, b << 1) == 0 && And(1, a << 1) == 0
  {}

  lemma AndSymmetric(a: bv64, b: bv64)
    ensures And(a, b) == And(b, a)
  {}

  lemma {:induction false} MasksApart(j: nat, k: nat)
    requires j != k
    ensures And(Mask(j), Mask(k)) == 0
    decreases k < j, j
  {
    if k < j {
      MasksApart(k, j);
      AndSymmetric(Mask(j), Mask(k));
    } else if j == 0 {
      ShiftsDisjoint(Mask(k - 1), 0);
    } else {
      MasksApart(j - 1, k - 1);
      ShiftsDisjoint(Mask(j - 1), Mask(k - 1));
    }
  }

  lemma OwnMask(w: bv64, m: bv64)
    ensures And(Or(w, m), m) == m && And(AndNot(w, m), m) == 0
  {}

  lemma OtherMaskSet(w: bv64, m: bv64, n: bv64)
    requires And(m, n) == 0
    ensures And(Or(w, m), n) == And(w, n)
  {}

  lemma OtherMaskCleared(w: bv64, m: bv64, n: bv64)
    requires And(m, n) == 0
    ensures And(AndNot(w, m), n) == And(w, n)
  {}

  /** Setting or clearing one bit of a word leaves the others alone. */
  lemma BitUpdates(w: bv64, k: nat, j: nat)
    requires k < BITS_PER_LONG
    ensures Bit(Or(w, Mask(k)), j) <==> j == k || Bit(w, j)
    ensures Bit(AndNot(w, Mask(k)), j) <==> j != k && Bit(w, j)
  {
    hide Mask, And, Or, AndNot;
    if j == k {
      MaskNonZero(k);
      OwnMask(w, Mask(k));
    } else {
      MasksApart(k, j);
      OtherMaskSet(w, Mask(k), Mask(j));
      OtherMaskCleared(w, Mask(k), Mask(j));
    }
  }

  class PoolBits {
    const nr: nat
    const words: array<bv64>

    predicate IsSet(i: nat)
      requires i / BITS_PER_LONG < words.Length
      reads words
    {
      Bit(words[i / BITS_PER_LONG], i % BITS_PER_LONG)
    }

    /** The padding bits of the last word are never set. */
    ghost predicate Valid()
      reads words
    {
      && words.Length == (nr + BITS_PER_LONG - 1) / BITS_PER_LONG
      && forall i: nat :: nr <= i < BITS_PER_LONG * words.Length ==> !IsSet(i)
    }

    ghost function Elements(): set<nat>
      requires Valid()
      reads words
    {
      set i: nat | 0 <= i < nr && IsSet(i)
    }

    constructor (nr: nat)
      ensures Valid() && this.nr == nr && fresh(words) && Elements() == {}
    {
      this.nr := nr;
      words := new bv64[(nr + BITS_PER_LONG - 1) / BITS_PER_LONG](i => 0);
    }

    /** The first index whose bit is clear, or `nr` when there is none. */
    method FindFirstZero() returns (i: nat)
      requires Valid()
      ensures i <= nr && (forall j: nat :: j < i ==> j in Elements()) && i !in Elements()
    {
      i := 0;
      while i < nr && IsSet(i)
        invariant i <= nr && forall j: nat :: j < i ==> IsSet(j)
      {
        i := i + 1;
      }
    }

    method TestAndSet(i: nat) returns (was: bool)
      requires Valid() && i < nr
      modifies words
      ensures Valid() && was == (i in old(Elements())) && Elements() == old(Elements()) + {i}
    {
      hide Bit, Or, AndNot, Mask;
      was := IsSet(i);
      ghost var w := words[i / BITS_PER_LONG];
      words[i / BITS_PER_LONG] := Or(words[i / BITS_PER_LONG], Mask(i % BITS_PER_LONG));
      forall j: nat | j < BITS_PER_LONG * words.Length
        ensures IsSet(j) <==> j == i || old(IsSet(j))
      {
        BitUpdates(w, i % BITS_PER_LONG, j % BITS_PER_LONG);
      }
    }

    /** The loop around the two: the least free index, set; or `nr` when there is none. The retry is for others that
        set the bit in between, which the lock excludes. */
    method Claim() returns (i: nat)
      requires Valid()
      modifies words
      ensures Valid() && i == FirstFree(old(Elements()), 0, nr)
      ensures Elements() == if i < nr then old(Elements()) + {i} else old(Elements())
    {
      i := 0;
      var busy := true;
      while busy
        invariant Valid() && (busy ==> Elements() == old(Elements()))
        invariant !busy ==> i == FirstFree(old(Elements()), 0, nr) < nr && Elements() == old(Elements()) + {i}
        decreases busy
      {
        i := FindFirstZero();
        if i == nr {
          return;
        }
        busy := TestAndSet(i);
      }
    }

    method Clear(i: nat)
      requires Valid() && i < nr
      modifies words
      ensures Valid() && Elements() == old(Elements()) - {i}
    {
      hide Bit, Or, AndNot, Mask;
      ghost var w := words[i / BITS_PER_LONG];
      words[i / BITS_PER_LONG] := AndNot(words[i / BITS_PER_LONG], Mask(i % BITS_PER_LONG));
      forall j: nat | j < BITS_PER_LONG * words.Length
        ensures IsSet(j) <==> j != i && old(IsSet(j))
      {
        BitUpdates(w, i % BITS_PER_LONG, j % BITS_PER_LONG);
      }
    }
  }
}
