/** The dispatcher: read and write commands of a volume go round its sibling hosts in batches. */
module Dispatch {
  import opened HostState

  const MAX_HOST_NR_PER_VBS: nat := 8

  /** The volume's serial, cut to 32 bits, is what picks the host. */
  function HostIndex(sn: nat, b: nat, k: nat): (r: nat)
    requires b > 0 && k > 0
    ensures r < k
  {
    sn % TWO32 / b % k
  }

  /** Of `n` consecutive serials from `start`, those that go to host `h`. */
  function Hits(start: nat, n: nat, b: nat, k: nat, h: nat): nat
    requires b > 0 && k > 0
  {
    if n == 0 then 0 else Hits(start, n - 1, b, k, h) + if HostIndex(start + n - 1, b, k) == h then 1 else 0
  }

  /** Every host gets its share of whole rounds, give or take one batch. */
  ghost predicate Fair(start: nat, n: nat, b: nat, k: nat)
    requires b > 0 && k > 0
  {
    forall h: nat :: h < k ==> n / (k * b) * b <= Hits(start, n, b, k, h) <= n / (k * b) * b + b
  }

  // ----- Positions within a round -----

  /** How many of the first `r` places of a round belong to host `h`. */
  function Share(r: nat, b: nat, h: nat): nat {
    if r <= h * b then 0 else if r <= h * b + b then r - h * b else b
  }

  lemma MulDistributes(a: int, b: int, c: int)
    ensures (a + b) * c == a * c + b * c
  {}

  lemma MulNonNegative(a: nat, b: nat)
    ensures 0 <= a * b
  {}

  lemma NoMultiple(e: int, d: nat)
    requires 0 < e * d + d && e * d < d
    ensures e == 0
  {
    MulDistributes(e - 1, 1, d);
    MulDistributes(e + 1, -1, d);
    if e >= 1 { MulNonNegative(e - 1, d); }
    if e <= -1 { MulNonNegative(-(e + 1), d); }
  }

  lemma DivUnique(x: nat, d: nat, q: nat, r: nat)
    requires x == q * d + r && r < d
    ensures x / d == q && x % d == r
  {
    DivMod(x, d);
    MulDistributes(x / d - q, q, d);
    NoMultiple(x / d - q, d);
  }

  lemma DivMod(x: nat, d: nat)
    requires d > 0
    ensures x == x / d * d + x % d && 0 <= x % d < d
  {}

  /** A serial's host is told by its place in the round. */
  lemma PlaceOf(x: nat, b: nat, k: nat, a: nat, r: nat)
    requires b > 0 && k > 0 && x == a * (k * b) + r && r < k * b
    ensures x / b % k == r / b
  {
    var p := r / b;
    DivMod(r, b);
    MulDistributes(k, p - k, b);
    if p >= k { MulNonNegative(p - k, b); }
    calc {
      a * (k * b) + p * b;
      (a * k) * b + p * b;
      { MulDistributes(a * k, p, b); }
      (a * k + p) * b;
    }
    DivUnique(x, b, a * k + p, r % b);
    DivUnique(a * k + p, k, a, p);
  }

  lemma ShareStep(r: nat, b: nat, h: nat)
    requires b > 0
    ensures Share(r + 1, b, h) == Share(r, b, h) + if r / b == h then 1 else 0
  {
    if r / b == h { assert r == h * b + r % b; }
    if h * b <= r < h * b + b { DivUnique(r, b, h, r - h * b); }
  }

  /** The hits up to a place, when the count starts with a round. */
  function Closed(a: nat, r: nat, b: nat, h: nat): nat { a * b + Share(r, b, h) }

  lemma ShareFull(b: nat, k: nat, h: nat)
    requires h < k
    ensures Share(k * b, b, h) == b
  {
    MulDistributes(h + 1, k - (h + 1), b);
    MulDistributes(h, 1, b);
    assert (k - (h + 1)) * b >= 0;
  }

  /** The serial `x`, its round and its place. */
  ghost predicate Placed(x: nat, b: nat, k: nat, a: nat, r: nat) { x == a * (k * b) + r && r < k * b }

  /** Where the next serial stands. */
  lemma NextPlace(x: nat, b: nat, k: nat, a: nat, r: nat) returns (a': nat, r': nat)
    requires b > 0 && k > 0 && Placed(x, b, k, a, r)
    ensures Placed(x + 1, b, k, a', r')
    ensures forall h: nat :: h < k ==>
      Closed(a', r', b, h) == Closed(a, r, b, h) + if x / b % k == h then 1 else 0
  {
    PlaceOf(x, b, k, a, r);
    a', r' := if r + 1 < k * b then a else a + 1, if r + 1 < k * b then r + 1 else 0;
    MulDistributes(a, 1, k * b);
    forall h: nat | h < k ensures Closed(a', r', b, h) == Closed(a, r, b, h) + if x / b % k == h then 1 else 0 {
      ShareStep(r, b, h);
      ShareFull(b, k, h);
      MulDistributes(a, 1, b);
      hide Share;
      assert Share(0, b, h) == 0 by { ShareNone(b, h); }
    }
  }

  lemma ShareNone(b: nat, h: nat)
    ensures Share(0, b, h) == 0
  {
    MulNonNegative(h, b);
  }

  /** The 32-bit cut does not show in the window. */
  ghost predicate Uncut(start: nat, n: nat, b: nat, k: nat)
    requires b > 0 && k > 0
  {
    forall x: nat :: start <= x < start + n ==> HostIndex(x, b, k) == x / b % k
  }

  /** There, hits are a difference of closed forms. */
  lemma {:induction false} HitsClosed(start: nat, n: nat, b: nat, k: nat, a: nat, r: nat) returns (a': nat, r': nat)
    requires b > 0 && k > 0 && Placed(start, b, k, a, r) && Uncut(start, n, b, k)
    ensures Placed(start + n, b, k, a', r')
    ensures forall h: nat :: h < k ==> Closed(a', r', b, h) == Closed(a, r, b, h) + Hits(start, n, b, k, h)
  {
    hide HostIndex, Placed, Closed;
    if n == 0 {
      a', r' := a, r;
    } else {
      var c, s := HitsClosed(start, n - 1, b, k, a, r);
      a', r' := NextPlace(start + n - 1, b, k, c, s);
    }
  }

  lemma ShareGrows(r: nat, s: nat, b: nat, h: nat)
    requires r <= s
    ensures 0 <= Share(r, b, h) <= Share(s, b, h) <= b
  {}

  /** `n` places on from a place: that many whole rounds, or one more. */
  lemma RoundsPassed(p: nat, n: nat, a: nat, r: nat, a': nat, r': nat)
    requires p > 0 && r < p && r' < p && a' * p + r' == a * p + r + n
    ensures a' == a + n / p || a' == a + n / p + 1
    ensures a' == a + n / p ==> r <= r'
    ensures a' == a + n / p + 1 ==> r' <= r
  {
    DivMod(n, p);
    var q, m, e := n / p, n % p, a' - a - n / p;
    MulDistributes(a, q, p);
    MulDistributes(a + q, e, p);
    assert e * p == r + m - r';
    MulDistributes(e - 1, 1, p);
    MulDistributes(e - 2, 2, p);
    MulDistributes(e + 1, -1, p);
    if e >= 2 { MulNonNegative(e - 2, p); }
  }

  lemma UncutIsFair(start: nat, n: nat, b: nat, k: nat)
    requires b > 0 && k > 0 && Uncut(start, n, b, k)
    ensures Fair(start, n, b, k)
  {
    MulNonNegative(k - 1, b);
    MulDistributes(k - 1, 1, b);
    var p, q := k * b, n / (k * b);
    DivMod(start, p);
    var a, r := start / p, start % p;
    var a', r' := HitsClosed(start, n, b, k, a, r);
    RoundsPassed(p, n, a, r, a', r');
    forall h: nat | h < k ensures q * b <= Hits(start, n, b, k, h) <= q * b + b {
      MulDistributes(a, q, b);
      MulDistributes(a + q, 1, b);
      if r <= r' { ShareGrows(r, r', b, h); }
      if r' <= r { ShareGrows(r', r, b, h); }
      hide Share, Hits;
      assert Closed(a', r', b, h) == Closed(a, r, b, h) + Hits(start, n, b, k, h);
    }
  }

  /** A window that does not cross the 32-bit wrap is fair, wherever it starts: with `q` whole rounds in it,
      every host gets between `q * b` and `q * b + b` of its commands. */
  lemma WindowIsFair(start: nat, n: nat, b: nat, k: nat)
    requires b > 0 && k > 0 && start % TWO32 + n <= TWO32
    ensures Fair(start, n, b, k)
    ensures forall g: nat, h: nat :: g < k && h < k ==> Hits(start, n, b, k, g) <= Hits(start, n, b, k, h) + b
  {
    var low := start % TWO32;
    forall x: nat | low <= x < low + n ensures HostIndex(x, b, k) == x / b % k { SmallMod(x, TWO32); }
    UncutIsFair(low, n, b, k);
    forall h: nat | h < k ensures Hits(start, n, b, k, h) == Hits(low, n, b, k, h) { HitsCut(start, n, b, k, h); }
  }

  lemma SmallMod(x: nat, m: nat)
    requires x < m
    ensures x % m == x
  {}

  lemma {:induction false} HitsCut(start: nat, n: nat, b: nat, k: nat, h: nat)
    requires b > 0 && k > 0
    ensures Hits(start, n, b, k, h) == Hits(start % TWO32, n, b, k, h)
  {
    hide HostIndex;
    if n > 0 {
      HitsCut(start, n - 1, b, k, h);
      IndexCut(start, n - 1, b, k);
    }
  }

  lemma IndexCut(start: nat, i: nat, b: nat, k: nat)
    requires b > 0 && k > 0
    ensures HostIndex(start + i, b, k) == HostIndex(start % TWO32 + i, b, k)
  {
    DivMod(start, TWO32);
    DivMod(start % TWO32 + i, TWO32);
    var q, m := (start % TWO32 + i) / TWO32, (start % TWO32 + i) % TWO32;
    DivUnique(start + i, TWO32, start / TWO32 + q, m);
  }

  /** Each aligned run of `b` serials goes to one host. */
  lemma BatchToOneHost(j: nat, i: nat, b: nat, k: nat)
    requires b > 0 && k > 0 && i < b && j * b + i < TWO32
    ensures HostIndex(j * b + i, b, k) == j % k
  {
    SmallMod(j * b + i, TWO32);
    DivUnique(j * b + i, b, j, i);
  }

  // ----- Across the 32-bit wrap -----

  lemma {:induction false} HitsSplit(start: nat, m: nat, n: nat, b: nat, k: nat, h: nat)
    requires b > 0 && k > 0
    ensures Hits(start, m + n, b, k, h) == Hits(start, m, b, k, h) + Hits(start + m, n, b, k, h)
  {
    hide HostIndex;
    if n > 0 {
      HitsSplit(start, m, n - 1, b, k, h);
      assert start + m + n - 1 == start + (m + n) - 1;
    }
  }

  /** When a whole number of rounds fits into 2^32, the cut never shows. */
  lemma RoundsFit(x: nat, b: nat, k: nat)
    requires b > 0 && k > 0 && k * b > 0 && TWO32 % (k * b) == 0
    ensures HostIndex(x, b, k) == x / b % k
  {
    var p, low := k * b, x % TWO32;
    DivMod(x, TWO32);
    DivMod(TWO32, p);
    DivMod(low, p);
    var q, c, a, r := x / TWO32, TWO32 / p, low / p, low % p;
    Regroup(q, c, p, a, r);
    PlaceOf(low, b, k, a, r);
    PlaceOf(x, b, k, q * c + a, r);
  }

  lemma Regroup(q: nat, c: nat, p: nat, a: nat, r: nat)
    ensures q * (c * p) + (a * p + r) == (q * c + a) * p + r
  {
    MulDistributes(q * c, a, p);
    assert q * (c * p) == (q * c) * p;
  }

  /** Hits over the first places of a round. */
  lemma RoundStart(c: nat, m: nat, b: nat, k: nat, h: nat)
    requires b > 0 && k > 0 && h < k && m < k * b && c * (k * b) + m <= TWO32
    ensures Hits(c * (k * b), m, b, k, h) == Share(m, b, h)
  {
    var start := c * (k * b);
    forall x: nat | start <= x < start + m ensures HostIndex(x, b, k) == x / b % k { SmallMod(x, TWO32); }
    var a', r' := HitsClosed(start, m, b, k, c, 0);
    DivUnique(start + m, k * b, a', r');
    DivUnique(start + m, k * b, c, m);
    ShareNone(b, h);
  }

  /** `w` places hold `c` rounds and the first `m` places of another, whole batches all. */
  lemma LastRound(w: nat, b: nat, k: nat) returns (c: nat, m: nat)
    requires b > 0 && k * b > 0 && w % b == 0 && w % (k * b) != 0
    ensures w == c * (k * b) + m && m == w % (k * b) && b <= m && m + b <= k * b && k >= 2
  {
    var p := k * b;
    DivMod(w, p);
    DivMod(w, b);
    c, m := w / p, w % p;
    var j := w / b - c * k;
    MulDistributes(j, c * k, b);
    assert (c * k) * b == c * p;
    BatchesIn(j, m, b, k);
  }

  lemma BatchesIn(j: int, m: nat, b: nat, k: nat)
    requires j * b == m && 0 < m < k * b
    ensures b <= m && m + b <= k * b && k >= 2
  {
    MulDistributes(j - 1, 1, b);
    MulDistributes(k - j - 1, j + 1, b);
    MulDistributes(j, 1, b);
    if j <= 0 { MulNonNegative(-j, b); MulDistributes(-j, j, b); }
    else if j >= k { MulNonNegative(j - k, b); MulDistributes(j - k, k, b); }
    else {
      MulNonNegative(j - 1, b);
      MulNonNegative(k - j - 1, b);
    }
  }

  /** The window from the start of a round that the wrap cuts short to the end of the first batch after the wrap. */
  lemma CutRoundHits(c: nat, m: nat, b: nat, k: nat, h: nat)
    requires b > 0 && h < k && b <= m && m + b <= k * b && TWO32 == c * (k * b) + m
    ensures Hits(c * (k * b), m + b, b, k, h) == Share(m, b, h) + Share(b, b, h)
  {
    hide Hits, Share, HostIndex;
    HitsSplit(c * (k * b), m, b, b, k, h);
    RoundStart(c, m, b, k, h);
    AfterWrap(b, k, h);
  }

  lemma AfterWrap(b: nat, k: nat, h: nat)
    requires b > 0 && h < k && b < k * b && b <= TWO32
    ensures Hits(TWO32, b, b, k, h) == Share(b, b, h)
  {
    hide Hits, Share;
    HitsCut(TWO32, b, b, k, h);
    assert TWO32 % TWO32 == 0 == 0 * (k * b);
    RoundStart(0, b, b, k, h);
  }

  lemma CutRoundIsUnfair(c: nat, m: nat, b: nat, k: nat)
    requires b > 0 && k >= 2 && b <= m && m + b <= k * b && TWO32 == c * (k * b) + m
    ensures !Fair(c * (k * b), m + b, b, k)
  {
    if m + b < k * b {
      SmallDiv(m + b, k * b);
      CutRoundHits(c, m, b, k, 0);
    } else {
      DivUnique(m + b, k * b, 1, 0);
      ShareLast(m, b, k);
      CutRoundHits(c, m, b, k, k - 1);
    }
  }

  lemma SmallDiv(x: nat, d: nat)
    requires x < d
    ensures x / d == 0
  {}

  lemma ShareLast(m: nat, b: nat, k: nat)
    requires k >= 2 && b <= m && m + b == k * b
    ensures Share(m, b, k - 1) == 0 && Share(b, b, k - 1) == 0
  {
    MulDistributes(k - 1, 1, b);
  }

  /** What is left of 2^32 after the last whole round. */
  function SpareSerials(b: nat, k: nat): nat
    requires k * b > 0
  {
    TWO32 % (k * b)
  }

  /** For batches that divide 2^32, every window from every serial is fair if and only if a whole number of rounds
      fits into 2^32. */
  lemma AlwaysFairIff(b: nat, k: nat)
    requires b > 0 && k > 0 && k * b > 0 && TWO32 % b == 0
    ensures (forall start: nat, n: nat :: Fair(start, n, b, k)) <==> SpareSerials(b, k) == 0
  {
    hide Fair, HostIndex;
    if SpareSerials(b, k) == 0 {
      forall start: nat, n: nat ensures Fair(start, n, b, k) {
        forall x: nat | start <= x < start + n ensures HostIndex(x, b, k) == x / b % k { RoundsFit(x, b, k); }
        UncutIsFair(start, n, b, k);
      }
    } else {
      var c, m := LastRound(TWO32, b, k);
      CutRoundIsUnfair(c, m, b, k);
    }
  }

  /** For the batch sizes the driver accepts and up to eight hosts: 1, 2, 4 or 8 of them. */
  lemma FairHostCounts(b: nat, k: nat)
    requires b in {1, 2, 4} && 0 < k <= MAX_HOST_NR_PER_VBS
    ensures (forall start: nat, n: nat :: Fair(start, n, b, k)) <==> k in {1, 2, 4, 8}
  {
    SpareIs(b, k);
    hide Fair, SpareSerials;
    AlwaysFairIff(b, k);
  }

  lemma SpareIs(b: nat, k: nat)
    requires b in {1, 2, 4} && 0 < k <= MAX_HOST_NR_PER_VBS
    ensures k * b > 0 && TWO32 % b == 0 && (SpareSerials(b, k) == 0 <==> k in {1, 2, 4, 8})
  {
    var p := k * b;
    if b == 1 { assert p == k; } else if b == 2 { assert p == 2 * k; } else { assert p == 4 * k; }
    assert k in {1, 2, 4, 8} ==> p in {1, 2, 4, 8, 16, 32};
    assert k in {3, 5, 6, 7} ==> p in {3, 5, 6, 7, 10, 12, 14, 20, 24, 28};
    Spares(p);
  }

  lemma Spares(p: nat)
    ensures p in {1, 2, 4, 8, 16, 32} ==> TWO32 % p == 0
    ensures p in {3, 5, 6, 7, 10, 12, 14, 20, 24, 28} ==> TWO32 % p != 0
  {
    assert TWO32 % 3 == 1 && TWO32 % 5 == 1 && TWO32 % 6 == 4 && TWO32 % 7 == 4 && TWO32 % 10 == 6;
    assert TWO32 % 12 == 4 && TWO32 % 14 == 4 && TWO32 % 20 == 16 && TWO32 % 24 == 16 && TWO32 % 28 == 4;
    assert TWO32 % 1 == 0 && TWO32 % 2 == 0 && TWO32 % 4 == 0 && TWO32 % 8 == 0 && TWO32 % 16 == 0 && TWO32 % 32 == 0;
  }
}
