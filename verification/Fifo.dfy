/** The order in which the target sees commands. */
module Fifo {
  import opened Seqs
  import opened HostState
  import opened Lifecycle
  import opened CommandSafety

  /** `s` without the elements of `out`. */
  ghost function Keep(s: seq<nat>, out: set<nat>): seq<nat> {
    if s == [] then [] else if s[0] in out then Keep(s[1..], out) else [s[0]] + Keep(s[1..], out)
  }

  lemma {:induction false} KeepElems(s: seq<nat>, out: set<nat>)
    ensures forall x :: x in Keep(s, out) <==> x in s && x !in out
    ensures NoDup(s) ==> NoDup(Keep(s, out))
  {
    if s != [] {
      KeepElems(s[1..], out);
      assert s == [s[0]] + s[1..];
      NoDupCons(s[0], s[1..]);
      NoDupCons(s[0], Keep(s[1..], out));
    }
  }

  lemma {:induction false} KeepAppend(s: seq<nat>, out: set<nat>, x: nat)
    requires x !in out
    ensures Keep(s + [x], out) == Keep(s, out) + [x]
  {
    if s == [] {
      assert s + [x] == [x];
    } else {
      KeepAppend(s[1..], out, x);
      assert (s + [x])[1..] == s[1..] + [x];
    }
  }

  lemma {:induction false} KeepLess(s: seq<nat>, out: set<nat>, x: nat)
    requires NoDup(s) && x !in out
    ensures Keep(s, out + {x}) == Remove(Keep(s, out), x)
  {
    if s != [] {
      var rest := s[1..];
      assert s == [s[0]] + rest;
      NoDupCons(s[0], rest);
      KeepLess(rest, out, x);
      if s[0] == x {
        KeepElems(rest, out);
        RemoveIs(Keep(rest, out), x);
      }
    }
  }

  /** The requests the target has seen, then those it will see next, oldest first. */
  ghost function Order(w: World): seq<nat> {
    w.delivered + Ids(w.h, w.h.cmpQ) + Ids(w.h, w.h.reqQ)
  }

  /** The enqueue order, less the requests removed before the target read them. */
  ghost predicate InOrder(w: World) {
    && Order(w) == Keep(w.accepted, w.dropped)
    && forall x :: x in w.dropped ==> x in w.accepted
  }

  lemma {:induction false} IdsRemove(h: Host, q: seq<nat>, t: nat)
    requires NoDup(q) && t in q
    requires forall a :: a in q && a != t ==> IdOf(h, a) != IdOf(h, t)
    ensures Ids(h, Remove(q, t)) == Remove(Ids(h, q), IdOf(h, t))
  {
    hide IdOf, NoDup;
    var c, rest := q[0], q[1..];
    assert q == [c] + rest;
    NoDupCons(c, rest);
    IdsCons(h, c, rest);
    if c != t {
      IdsRemove(h, rest, t);
      IdsCons(h, c, Remove(rest, t));
    }
  }

  lemma IdsCons(h: Host, c: nat, rest: seq<nat>)
    ensures Ids(h, [c] + rest) == [IdOf(h, c)] + Ids(h, rest)
    ensures Remove(Ids(h, [c] + rest), IdOf(h, c)) == Ids(h, rest)
    ensures forall x :: x != IdOf(h, c) ==> Remove(Ids(h, [c] + rest), x) == [IdOf(h, c)] + Remove(Ids(h, rest), x)
  {
    hide IdOf;
    assert Ids(h, [c] + rest) == [IdOf(h, c)] + Ids(h, rest);
    assert Ids(h, [c] + rest)[1..] == Ids(h, rest);
  }

  lemma SameIds(h: Host, k: Host, q: seq<nat>)
    requires forall t :: t in q ==> IdOf(h, t) == IdOf(k, t)
    ensures Ids(h, q) == Ids(k, q)
  {
    assert forall i :: 0 <= i < |q| ==> q[i] in q;
  }

  lemma IdsConcat(h: Host, a: seq<nat>, b: seq<nat>)
    ensures Ids(h, a + b) == Ids(h, a) + Ids(h, b)
  {}

  /** Queued slots carry different requests. */
  lemma IdsDiffer(w: World)
    requires Inv(w)
    ensures forall a: nat, b: nat :: w.h.Listed(a) && w.h.Listed(b) && a != b ==> IdOf(w.h, a) != IdOf(w.h, b)
    ensures forall a: nat :: w.h.Listed(a) ==> IdOf(w.h, a) in w.accepted
  {
    forall a: nat | w.h.Listed(a) ensures a < |w.books| && IdOf(w.h, a) in w.accepted && w.home[IdOf(w.h, a)] == a {
      assert SlotOk(w, a) && OwedOk(w, a);
    }
  }

  lemma RemoveMiddle(d: seq<nat>, c: seq<nat>, r: seq<nat>, x: nat)
    requires NoDup(d + c + r)
    ensures x in c ==> Remove(d + c + r, x) == d + Remove(c, x) + r
    ensures x in r ==> Remove(d + c + r, x) == d + c + Remove(r, x)
  {
    NoDupParts(d + c, r);
    NoDupParts(d, c);
    RemoveConcat(d + c, r, x);
    RemoveConcat(d, c, x);
  }

  lemma TakeInOrder(w: World, t: nat, b: Book)
    requires Inv(w) && InOrder(w) && t < |w.books| && w.h.Listed(t)
    ensures InOrder(Take(w, t, b))
  {
    hide IdOf, Remove, NoDup, LedgerOk, GensOk, SlotsOk;
    var v, x := Take(w, t, b), IdOf(w.h, t);
    var d, c, r := w.delivered, Ids(w.h, w.h.cmpQ), Ids(w.h, w.h.reqQ);
    IdsDiffer(w);
    RemoveIs(w.h.reqQ, t);
    RemoveIs(w.h.cmpQ, t);
    TakeIds(w, t, b);
    if t in w.h.cmpQ || t in w.h.reqQ {
      KeepElems(w.accepted, w.dropped);
      IdIn(w.h, t);
      AcceptedNoDup(w);
      KeepLess(w.accepted, w.dropped, x);
      RemoveMiddle(d, c, r, x);
      if t in w.h.cmpQ { IdsRemove(w.h, w.h.cmpQ, t); } else { IdsRemove(w.h, w.h.reqQ, t); }
      assert v.dropped == w.dropped + {x};
    } else {
      assert v.dropped == w.dropped;
    }
  }

  lemma AcceptedNoDup(w: World)
    requires Inv(w)
    ensures NoDup(w.accepted)
  {}

  lemma IdIn(h: Host, t: nat)
    ensures t in h.cmpQ ==> IdOf(h, t) in Ids(h, h.cmpQ)
    ensures t in h.reqQ ==> IdOf(h, t) in Ids(h, h.reqQ)
  {
    if t in h.cmpQ { var i :| 0 <= i < |h.cmpQ| && h.cmpQ[i] == t; assert Ids(h, h.cmpQ)[i] == IdOf(h, t); }
    if t in h.reqQ { var i :| 0 <= i < |h.reqQ| && h.reqQ[i] == t; assert Ids(h, h.reqQ)[i] == IdOf(h, t); }
  }

  lemma TakeIds(w: World, t: nat, b: Book)
    requires t < |w.books| == |w.h.slots|
    ensures Ids(Take(w, t, b).h, Take(w, t, b).h.cmpQ) == Ids(w.h, Remove(w.h.cmpQ, t))
    ensures Ids(Take(w, t, b).h, Take(w, t, b).h.reqQ) == Ids(w.h, Remove(w.h.reqQ, t))
  {}

  /** Steps that leave the queues and the requests on them alone. */
  lemma QuietInOrder(w: World, v: World)
    requires Inv(w) && InOrder(w)
    requires v.h.cmpQ == w.h.cmpQ && v.h.reqQ == w.h.reqQ && v.delivered == w.delivered
    requires v.accepted == w.accepted && v.dropped == w.dropped
    requires |v.h.slots| == |w.h.slots|
    requires forall t: nat :: w.h.Listed(t) ==> IdOf(v.h, t) == IdOf(w.h, t)
    ensures InOrder(v)
  {
    SameIds(w.h, v.h, w.h.cmpQ);
    SameIds(w.h, v.h, w.h.reqQ);
  }

  lemma SubmitInOrder(w: World, t: nat, sc: nat)
    requires Inv(w) && InOrder(w) && t < |w.books| && w.Phase(t).Submitting? && sc !in w.accepted
    ensures InOrder(DoSubmit(w, t, sc))
  {
    var v := DoSubmit(w, t, sc);
    assert SlotOk(w, t);
    SameIds(w.h, v.h, w.h.cmpQ);
    SameIds(w.h, v.h, w.h.reqQ);
    IdsConcat(v.h, w.h.reqQ, [t]);
    KeepAppend(w.accepted, w.dropped, sc);
    assert Order(v) == Order(w) + [sc];
  }

  lemma StartInOrder(w: World)
    requires Inv(w) && InOrder(w) && w.h.reqQ != [] && w.h.reqQ[0] < |w.h.slots|
    ensures InOrder(w.(h := StartOne(w.h)))
  {
    hide Inv, IdOf;
    StartKeepsOrder(w);
  }

  lemma StartKeepsOrder(w: World)
    requires w.h.reqQ != [] && w.h.reqQ[0] < |w.h.slots|
    ensures Order(w.(h := StartOne(w.h))) == Order(w)
  {
    var h, c, rest := StartOne(w.h), w.h.reqQ[0], w.h.reqQ[1..];
    StartKeepsIds(w.h);
    hide IdOf, StartOne;
    SameIds(w.h, h, w.h.cmpQ);
    SameIds(w.h, h, rest);
    SameIds(w.h, h, [c]);
    assert w.h.reqQ == [c] + rest;
    IdsConcat(h, w.h.cmpQ, [c]);
    IdsConcat(w.h, [c], rest);
    Regroup(w.delivered, Ids(w.h, w.h.cmpQ), Ids(w.h, [c]), Ids(w.h, rest));
  }

  lemma StartKeepsIds(h: Host)
    requires h.reqQ != [] && h.reqQ[0] < |h.slots|
    ensures StartOne(h).reqQ == h.reqQ[1..] && StartOne(h).cmpQ == h.cmpQ + [h.reqQ[0]]
    ensures forall t: nat :: IdOf(StartOne(h), t) == IdOf(h, t)
  {}

  lemma RespondInOrder(w: World, t: nat, outcome: Outcome)
    requires Inv(w) && InOrder(w) && t < |w.books| && w.h.Listed(t)
    ensures InOrder(DoRespond(w, t, outcome))
  {
    hide InOrder, Unlink, LedgerOk, GensOk, QueuesOk;
    var b := w.books[t].(phase := RespTaken(outcome));
    assert SlotOk(w, t);
    TakeInOrder(w, t, b);
    TakeKeeps(w, t, b);
    QuietInOrder(Take(w, t, b), DoRespond(w, t, outcome));
  }

  lemma GetInOrder(w: World)
    requires Inv(w) && InOrder(w)
    ensures InOrder(DoGet(w, false))
  {
    GetKeepsOrder(w);
  }

  lemma GetKeepsOrder(w: World)
    ensures Order(DoGet(w, false)) == Order(w)
  {
    hide IdOf, SetStats;
    var h, b, rest := GetBatch(w.h, false), Batch(w.h), w.h.cmpQ[BatchSize(w.h)..];
    StatsKeepIds(w.h, h);
    SameIds(w.h, h, rest);
    SameIds(w.h, h, w.h.reqQ);
    assert w.h.cmpQ == b + rest;
    IdsConcat(w.h, b, rest);
    Regroup(w.delivered, Ids(w.h, b), Ids(w.h, rest), Ids(w.h, w.h.reqQ));
  }

  lemma Regroup(d: seq<nat>, b: seq<nat>, rest: seq<nat>, r: seq<nat>)
    ensures (d + b) + rest + r == d + (b + rest) + r == d + b + (rest + r)
  {}

  lemma StatsKeepIds(h: Host, k: Host)
    requires k == GetBatch(h, false)
    ensures forall t: nat :: IdOf(k, t) == IdOf(h, t)
  {}

  /** A faulted read of the only waiting command puts it back where it was. */
  lemma SingleFaultInOrder(w: World)
    requires Inv(w) && InOrder(w) && |w.h.cmpQ| == 1
    ensures InOrder(DoGet(w, true))
  {
    hide InOrder, SlotsOk, LedgerOk, GensOk, QueuesOk, SetStats;
    var v := DoGet(w, true);
    assert Batch(w.h) == w.h.cmpQ && v.h.cmpQ == w.h.cmpQ;
    assert v.delivered == w.delivered;
    QuietInOrder(w, v);
  }

  /** The read has more than one command to put back. */
  ghost predicate Shuffles(w: World, s: Step) { s == GetStep(true) && |w.h.cmpQ| > 1 }

  /** Every step but a read whose copy faults with several commands waiting keeps the order. */
  lemma StepInOrder(w: World, s: Step)
    requires Inv(w) && InOrder(w) && Enabled(w, s) && !Shuffles(w, s)
    ensures InOrder(Apply(w, s))
  {
    hide InOrder, SlotsOk, LedgerOk, GensOk, QueuesOk;
    hide Take, DoGet, DoSubmit, DoRespond, DoAlloc, Edit, EditOf, StartOne, Alloc;
    match s
    case Submit(t, sc) => SubmitInOrder(w, t, sc);
    case StartStep => StartInOrder(w);
    case GetStep(fault) => if fault { SingleFaultInOrder(w); } else { GetInOrder(w); }
    case Respond(tag, sn, outcome) =>
      if Addressed(w.h, tag, sn) { RespondInOrder(w, tag, outcome); }
    case TakeStep(q) =>
      InvQueues(w);
      HeadInRange(w.h, q);
      TakeInOrder(w, QueueOf(w.h, q)[0], w.books[QueueOf(w.h, q)[0]].(phase := SweepTaken));
    case AbortDecide(t, sc) =>
      var b := w.books[t].(waiting := w.books[t].waiting - multiset{sc});
      if w.h.Listed(t) { TakeInOrder(w, t, b.(phase := AbortTaken(sc))); }
      else { EditInOrder(w, t, b.(leaving := b.leaving + 1), KEEP, []); }
    case AllocStep => AllocInOrder(w);
    case _ =>
      var (b, op, finished) := EditOf(w, s);
      EditInOrder(w, s.t, b, op, finished);
  }

  lemma InvQueues(w: World)
    requires Inv(w)
    ensures QueuesOk(w.h) && forall t: nat :: w.h.Listed(t) ==> t < |w.books|
  {}

  lemma EditInOrder(w: World, t: nat, b: Book, op: RefOp, finished: seq<Completion>)
    requires Inv(w) && InOrder(w) && t < |w.books|
    ensures InOrder(Edit(w, t, b, op, finished))
  {
    hide InOrder, SlotsOk, LedgerOk, GensOk, QueuesOk;
    QuietInOrder(w, Edit(w, t, b, op, finished));
  }

  lemma AllocInOrder(w: World)
    requires Inv(w) && InOrder(w) && Alloc(w.h).1.Some?
    ensures InOrder(DoAlloc(w))
  {
    hide InOrder, LedgerOk, GensOk, QueuesOk;
    assert SlotOk(w, Alloc(w.h).1.value);
    QuietInOrder(w, DoAlloc(w));
  }

  /** No read of the run faults with more than one command waiting. */
  ghost predicate NeverShuffles(w: World, steps: seq<Step>)
    decreases |steps|
  {
    steps == [] || (w.Shaped() && Enabled(w, steps[0]) && !Shuffles(w, steps[0])
                    && NeverShuffles(Apply(w, steps[0]), steps[1..]))
  }

  lemma {:induction false} RunInOrder(w: World, steps: seq<Step>, v: World)
    requires Inv(w) && InOrder(w) && Run(w, steps, v) && NeverShuffles(w, steps)
    ensures InOrder(v)
    decreases |steps|
  {
    hide InOrder, Inv, Apply, Enabled, Shuffles;
    if steps != [] {
      StepInOrder(w, steps[0]);
      StepKeeps(w, steps[0]);
      RunInOrder(Apply(w, steps[0]), steps[1..], v);
    }
  }

  /** Over a whole run in which no read faults with several commands waiting, with any interleaving of start loops,
      what the target has seen is a prefix of the enqueue order less the commands removed before delivery, and what
      waits in `cmpQ` and then `reqQ` is the rest of it. */
  lemma FifoDelivery(w0: World, steps: seq<Step>, w: World)
    requires Reachable(w0, steps, w) && NeverShuffles(w0, steps)
    ensures w.delivered + Ids(w.h, w.h.cmpQ) + Ids(w.h, w.h.reqQ) == Keep(w.accepted, w.dropped)
    ensures w.delivered <= Keep(w.accepted, w.dropped)
  {
    InitInv(w0);
    RunInOrder(w0, steps, w);
  }

  /** A faulted read keeps the order if and only if one command was waiting. */
  lemma FaultKeepsOrderIff(w: World)
    requires Inv(w) && w.h.cmpQ != []
    ensures DoGet(w, true).h.cmpQ == w.h.cmpQ <==> |w.h.cmpQ| == 1
  {
    var b, v := Batch(w.h), DoGet(w, true).h.cmpQ;
    assert v[0] == b[|b| - 1] == w.h.cmpQ[|b| - 1];
    if |w.h.cmpQ| == 1 { assert v == w.h.cmpQ; }
  }

  /** A read whose copy faults loses nothing, but puts its batch back in reverse. */
  lemma FaultReverses(w: World)
    requires Inv(w) && w.h.cmpQ != []
    ensures Inv(DoGet(w, true))
    ensures var v, n := DoGet(w, true), BatchSize(w.h);
      && v.h.cmpQ == Reverse(w.h.cmpQ[..n]) + w.h.cmpQ[n..] && v.h.reqQ == w.h.reqQ && v.h.rspQ == w.h.rspQ
      && multiset(v.h.cmpQ) == multiset(w.h.cmpQ) && v.h.slots == w.h.slots && v.delivered == w.delivered
  {
    GetKeeps(w, true);
    var n := BatchSize(w.h);
    assert w.h.cmpQ == w.h.cmpQ[..n] + w.h.cmpQ[n..];
    ReverseSame(w.h.cmpQ[..n]);
    var v := DoGet(w, true);
    forall t | 0 <= t < |w.h.slots| ensures v.h.slots[t] == w.h.slots[t] {
      if t in Batch(w.h) { assert t in w.h.cmpQ; }
    }
  }

  lemma ReverseSame(s: seq<nat>)
    ensures multiset(Reverse(s)) == multiset(s)
  {
    if s != [] {
      ReverseSame(s[1..]);
      assert s == [s[0]] + s[1..];
    }
  }
}
