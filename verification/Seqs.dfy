/** Queues as duplicate-free sequences. */
module Seqs {

  ghost predicate NoDup<T>(s: seq<T>) {
    forall i, j :: 0 <= i < j < |s| ==> s[i] != s[j]
  }

  /** `s` without the first occurrence of `x`. */
  function Remove<T(==)>(s: seq<T>, x: T): seq<T> {
    if s == [] then [] else if s[0] == x then s[1..] else [s[0]] + Remove(s[1..], x)
  }

  function Reverse<T>(s: seq<T>): (r: seq<T>)
    ensures |r| == |s| && forall i :: 0 <= i < |r| ==> r[i] == s[|s| - 1 - i]
  {
    if s == [] then [] else Reverse(s[1..]) + [s[0]]
  }

  lemma NoDupCons<T>(x: T, s: seq<T>)
    ensures NoDup([x] + s) <==> x !in s && NoDup(s)
  {
    var t := [x] + s;
    assert t[0] == x && t[1..] == s;
    assert forall i :: 0 <= i < |s| ==> t[i + 1] == s[i];
    if NoDup(t) {
      forall i, j | 0 <= i < j < |s| ensures s[i] != s[j] {
        assert s[i] == t[i + 1] && s[j] == t[j + 1];
      }
    }
  }

  lemma NoDupAppend<T>(s: seq<T>, x: T)
    ensures NoDup(s + [x]) <==> x !in s && NoDup(s)
  {
    var t := s + [x];
    assert t[|s|] == x && t[..|s|] == s;
    if NoDup(t) {
      assert forall i :: 0 <= i < |s| ==> t[i] == s[i] && t[i] != t[|s|];
    }
  }

  lemma NoDupParts<T>(a: seq<T>, b: seq<T>)
    ensures NoDup(a + b) <==> NoDup(a) && NoDup(b) && forall x :: x in a ==> x !in b
  {
    var s := a + b;
    if NoDup(s) {
      forall i, j | 0 <= i < j < |a| ensures a[i] != a[j] { assert s[i] == a[i] && s[j] == a[j]; }
      forall i, j | 0 <= i < j < |b| ensures b[i] != b[j] { assert s[|a| + i] == b[i] && s[|a| + j] == b[j]; }
      forall x | x in a ensures x !in b {
        var i :| 0 <= i < |a| && a[i] == x;
        forall j | 0 <= j < |b| ensures b[j] != x { assert s[i] == x && s[|a| + j] == b[j]; }
      }
    } else {
      var i, j :| 0 <= i < j < |s| && s[i] == s[j];
      if j < |a| { assert a[i] == a[j]; }
      else if |a| <= i { assert b[i - |a|] == b[j - |a|]; }
      else { assert a[i] in a && b[j - |a|] in b; }
    }
  }

  lemma ReverseElems<T>(s: seq<T>)
    ensures forall x :: x in Reverse(s) <==> x in s
  {
    forall x | x in s ensures x in Reverse(s) {
      var i :| 0 <= i < |s| && s[i] == x;
      assert Reverse(s)[|s| - 1 - i] == x;
    }
  }

  lemma NoDupReverse<T>(s: seq<T>)
    requires NoDup(s)
    ensures NoDup(Reverse(s))
  {}

  lemma {:induction false} RemoveIs<T>(s: seq<T>, x: T)
    requires NoDup(s)
    ensures NoDup(Remove(s, x)) && x !in Remove(s, x)
    ensures forall y :: y != x ==> (y in Remove(s, x) <==> y in s)
    ensures x !in s ==> Remove(s, x) == s
    ensures x in s ==> |Remove(s, x)| == |s| - 1
  {
    if s != [] {
      var rest := s[1..];
      RemoveIs(rest, x);
      assert s == [s[0]] + rest;
      NoDupCons(s[0], rest);
      NoDupCons(s[0], Remove(rest, x));
      if s[0] != x {
        assert forall y :: y in Remove(s, x) <==> y == s[0] || y in Remove(rest, x);
      } else {
        assert x !in rest;
        assert forall y :: y in s <==> y == x || y in rest;
      }
    }
  }

  lemma {:induction false} RemoveElems<T>(s: seq<T>, x: T)
    ensures forall y :: y != x ==> (y in Remove(s, x) <==> y in s)
    ensures forall y :: y in Remove(s, x) ==> y in s
  {
    if s != [] {
      RemoveElems(s[1..], x);
      assert s == [s[0]] + s[1..];
    }
  }

  lemma Assoc<T>(y: T, a: seq<T>, b: seq<T>)
    ensures ([y] + a) + b == [y] + (a + b)
  {}

  lemma {:induction false} RemoveConcat<T>(a: seq<T>, b: seq<T>, x: T)
    ensures x in a ==> Remove(a + b, x) == Remove(a, x) + b
    ensures x !in a ==> Remove(a + b, x) == a + Remove(b, x)
  {
    hide Remove;
    if a == [] {
      assert a + b == b && a + Remove(b, x) == Remove(b, x);
    } else {
      var y, rest := a[0], a[1..];
      assert a == [y] + rest;
      RemoveConcat(rest, b, x);
      RemoveHead(y, rest + b, x);
      RemoveHead(y, rest, x);
      Assoc(y, rest, b);
      if y != x {
        if x in rest { Assoc(y, Remove(rest, x), b); } else { Assoc(y, rest, Remove(b, x)); }
      }
    }
  }

  lemma RemoveHead<T>(y: T, s: seq<T>, x: T)
    ensures Remove([y] + s, x) == if y == x then s else [y] + Remove(s, x)
  {
    assert ([y] + s)[1..] == s;
  }

  lemma {:induction false} RemoveAbsent<T>(s: seq<T>, x: T)
    requires x !in s
    ensures Remove(s, x) == s
  {
    if s != [] { RemoveAbsent(s[1..], x); }
  }

  /** The elements of a duplicate-free sequence. */
  ghost function Elems<T>(s: seq<T>): set<T> { set x | x in s }

  lemma {:induction false} ElemsSize<T>(s: seq<T>)
    requires NoDup(s)
    ensures |Elems(s)| == |s|
  {
    if s != [] {
      var rest := s[1..];
      ElemsSize(rest);
      assert Elems(s) == Elems(rest) + {s[0]} && s[0] !in rest;
    }
  }

  lemma {:induction false} Below(n: nat) returns (all: set<nat>)
    ensures |all| == n && forall i: nat :: i in all <==> i < n
  {
    if n == 0 {
      all := {};
    } else {
      var less := Below(n - 1);
      all := less + {n - 1};
    }
  }

  lemma SubsetSize<T>(a: set<T>, b: set<T>)
    requires a <= b
    ensures |a| <= |b|
  {
    if a != {} {
      var x :| x in a;
      SubsetSize(a - {x}, b - {x});
    }
  }

  /** Distinct indices below `n` are at most `n` many. */
  lemma Pigeonhole(s: seq<nat>, n: nat)
    requires NoDup(s) && forall x :: x in s ==> x < n
    ensures |s| <= n
  {
    var all := Below(n);
    ElemsSize(s);
    SubsetSize(Elems(s), all);
  }
}
