/** The batch read taken apart has all the runs it has as one step, and more: one in which a slot changes hands during a
    read, every rollback finds its slots linked, and the target reads a command twice. */
module SlotReuse {
  import opened Seqs
  import opened HostState
  import opened Lifecycle
  import opened CommandSafety
  import opened Calls
  import opened Refinement
  import opened AbortVerdict
  import opened SplitRead
  import opened SplitRuns

  ghost predicate LinkedRun(c: Split, acts: seq<Act>, last: Split) { SplitRun(c, acts, last) && AlwaysLinked(c, acts) }

  lemma NoActs(c: Split)
    ensures LinkedRun(c, [], c)
  {}

  lemma ActThen(c: Split, a: Act, rest: seq<Act>, last: Split)
    requires SplitShaped(c) && CanAct(c, a) && Linked(c, a) && LinkedRun(After(c, a), rest, last)
    ensures LinkedRun(c, [a] + rest, last)
  {
    hide SplitShaped, CanAct, Linked, After;
    assert ([a] + rest)[1..] == rest;
  }

  lemma {:induction false} LinkedJoins(c: Split, a: seq<Act>, m: Split, b: seq<Act>, v: Split)
    requires LinkedRun(c, a, m) && LinkedRun(m, b, v)
    ensures LinkedRun(c, a + b, v)
    decreases |a|
  {
    hide SplitShaped, CanAct, Linked, After;
    if a == [] {
      assert a + b == b;
    } else {
      LinkedJoins(After(c, a[0]), a[1..], m, b, v);
      assert (a + b)[1..] == a[1..] + b;
    }
  }

  // ----- The read as one step is a run of its parts -----

  function Marks(r: nat, n: nat): seq<Act> { if n == 0 then [] else [Mark(r)] + Marks(r, n - 1) }

  /** Reader `r` with its first `n` messages built. */
  ghost function Marked(c: Split, r: nat, n: nat): Split
    requires r in c.readings && n <= |c.readings[r].slots|
  {
    var rd := c.readings[r];
    Split(c.w.(h := MarkBatch(c.w.h, rd.slots[..n])), c.readings[r := rd.(msgs := Ids(c.w.h, rd.slots[..n]))])
  }

  /** One mark more, on the host and in the messages. */
  lemma OneMoreMark(h: Host, q: seq<nat>, n: nat)
    requires n < |q| && q[n] < h.Nr()
    ensures |MarkBatch(h, q[..n]).slots| == h.Nr()
    ensures SetStat(MarkBatch(h, q[..n]), q[n], READ_COMP) == MarkBatch(h, q[..n + 1])
    ensures Ids(h, q[..n]) + [IdOf(MarkBatch(h, q[..n]), q[n])] == Ids(h, q[..n + 1])
  {
    assert q[..n + 1] == q[..n] + [q[n]];
    StatsSnoc(h.slots, q[..n], q[n], READ_COMP);
    assert IdOf(MarkBatch(h, q[..n]), q[n]) == IdOf(h, q[n]);
  }

  lemma SetTwice<T>(m: map<nat, T>, r: nat, x: T, y: T)
    ensures m[r := x][r := y] == m[r := y]
  {}

  lemma MarkOne(c: Split, r: nat, n: nat)
    requires SplitShaped(c) && r in c.readings && n < |c.readings[r].slots|
    ensures SplitShaped(Marked(c, r, n)) && CanAct(Marked(c, r, n), Mark(r)) && Linked(Marked(c, r, n), Mark(r))
    ensures After(Marked(c, r, n), Mark(r)) == Marked(c, r, n + 1)
  {
    hide MarkBatch, SetStat, Ids, IdOf;
    var rd := c.readings[r];
    OneMoreMark(c.w.h, rd.slots, n);
    MarkedShape(c, r, n);
    SetTwice(c.readings, r, Marked(c, r, n).readings[r], Marked(c, r, n + 1).readings[r]);
  }

  lemma {:induction false} MarksRun(c: Split, r: nat, n: nat, m: nat)
    requires SplitShaped(c) && r in c.readings && n <= m == |c.readings[r].slots|
    ensures LinkedRun(Marked(c, r, n), Marks(r, m - n), Marked(c, r, m))
    decreases m - n
  {
    hide Marked, SplitShaped, CanAct, After, LinkedRun, Linked;
    if n == m {
      NoActs(Marked(c, r, m));
    } else {
      MarkOne(c, r, n);
      MarksRun(c, r, n + 1, m);
      ActThen(Marked(c, r, n), Mark(r), Marks(r, m - (n + 1)), Marked(c, r, m));
    }
  }

  /** The actions of one read that nobody interrupts. */
  function ReadAlone(r: nat, n: nat, fault: bool): seq<Act> {
    [Move(r)] + (Marks(r, n) + [if fault then Fault(r) else Deliver(r)])
  }

  lemma EndsRun(c: Split, a: Act)
    requires SplitShaped(c) && CanAct(c, a) && Linked(c, a)
    ensures LinkedRun(c, [a], After(c, a))
  {
    hide SplitShaped, CanAct, Linked, After;
    assert [a] + [] == [a];
    ActThen(c, a, [], After(c, a));
  }

  /** Reader `r` has moved its batch and built all its messages. */
  ghost predicate AllMarked(w: World, e: Split, rs: map<nat, Reading>, r: nat) {
    var b := Batch(w.h);
    && e.w == w.(h := MarkBatch(MoveBatch(w.h), b)) && r in e.readings && e.readings - {r} == rs
    && e.readings[r].slots == b && e.readings[r].msgs == Ids(w.h, b)
  }

  lemma Unmarked(c: Split, r: nat)
    requires r in c.readings && c.readings[r].msgs == []
    ensures Marked(c, r, 0) == c
  {
    var none := c.readings[r].slots[..0];
    assert none == [];
    StatsNone(c.w.h.slots, READ_COMP);
    assert Ids(c.w.h, none) == [];
    assert c.readings[r := c.readings[r]] == c.readings;
  }

  lemma MovedIs(c: Split, r: nat)
    requires SplitShaped(c) && CanAct(c, Move(r))
    ensures var d, b := After(c, Move(r)), Batch(c.w.h);
      && SplitShaped(d) && d.w == c.w.(h := MoveBatch(c.w.h)) && r in d.readings && d.readings - {r} == c.readings
      && d.readings[r].slots == b && d.readings[r].msgs == []
  {
    ActKeepsShape(c, Move(r));
    hide Batch;
  }

  lemma AllOf(w: World, d: Split, rs: map<nat, Reading>, r: nat)
    requires r in d.readings && d.w == w.(h := MoveBatch(w.h)) && d.readings - {r} == rs
    requires d.readings[r].slots == Batch(w.h)
    ensures AllMarked(w, Marked(d, r, |Batch(w.h)|), rs, r)
  {
    var b := Batch(w.h);
    assert b[..|b|] == b;
    SameIds(w.h, d.w.h, b);
    hide Batch, MarkBatch, Ids;
    assert Marked(d, r, |b|).readings - {r} == rs;
  }

  lemma MovedMarked(w: World, rs: map<nat, Reading>, r: nat) returns (e: Split)
    requires SplitShaped(Split(w, rs)) && CanAct(Split(w, rs), Move(r))
    ensures SplitShaped(e) && AllMarked(w, e, rs, r)
    ensures LinkedRun(Split(w, rs), [Move(r)] + Marks(r, |Batch(w.h)|), e)
  {
    hide Batch, LinkedRun, CanAct, After, SplitShaped, Marked, Marks, AllMarked, MoveBatch;
    var c := Split(w, rs);
    MovedIs(c, r);
    var d := After(c, Move(r));
    Unmarked(d, r);
    MarksRun(d, r, 0, |Batch(w.h)|);
    e := Marked(d, r, |Batch(w.h)|);
    ActThen(c, Move(r), Marks(r, |Batch(w.h)|), e);
    AllOf(w, d, rs, r);
    MarkedShape(d, r, |Batch(w.h)|);
  }

  lemma SameIds(h: Host, v: Host, b: seq<nat>)
    requires v.slots == h.slots
    ensures Ids(v, b) == Ids(h, b)
  {}

  lemma MarkedShape(c: Split, r: nat, n: nat)
    requires SplitShaped(c) && r in c.readings && n <= |c.readings[r].slots|
    ensures SplitShaped(Marked(c, r, n))
  {}

  lemma ReadEnds(w: World, fault: bool, rs: map<nat, Reading>, r: nat, e: Split)
    requires Inv(w) && w.h.cmpQ != [] && SplitShaped(e) && AllMarked(w, e, rs, r)
    ensures var a := if fault then Fault(r) else Deliver(r);
      CanAct(e, a) && Linked(e, a) && After(e, a) == Split(DoGet(w, fault), rs)
  {
    hide Inv, RollBack, MarkBatch, Batch, Ids, Linked, GetBatch;
    ReadIsStep(w);
    GetIs(w, fault);
    MarkedLinked(w, e, rs, r, if fault then Fault(r) else Deliver(r));
  }

  lemma GetIs(w: World, fault: bool)
    requires Inv(w) && w.h.cmpQ != []
    ensures Enabled(w, GetStep(fault)) && Enabled(w, GetStep(false)) && Enabled(w, GetStep(true))
    ensures DoGet(w, fault) == Apply(w, GetStep(fault))
    ensures DoGet(w, false) == w.(h := Apply(w, GetStep(false)).h, delivered := w.delivered + Ids(w.h, Batch(w.h)))
    ensures DoGet(w, true) == w.(h := Apply(w, GetStep(true)).h)
  {
    hide GetBatch, SlotsOk, QueuesOk, GensOk, LedgerOk;
    assert w.delivered + [] == w.delivered;
  }

  lemma MarkedLinked(w: World, e: Split, rs: map<nat, Reading>, r: nat, a: Act)
    requires AllMarked(w, e, rs, r) && (a.Fault? ==> a.r == r)
    ensures Linked(e, a)
  {
    hide SetStats, Batch;
  }

  lemma MayMove(w: World, rs: map<nat, Reading>, r: nat)
    requires Inv(w) && w.h.cmpQ != [] && SplitShaped(Split(w, rs)) && r !in rs
    ensures CanAct(Split(w, rs), Move(r))
  {
    ReadIsStep(w);
    hide Batch;
  }

  lemma ReadIsRun(w: World, fault: bool, rs: map<nat, Reading>, r: nat)
    requires Inv(w) && w.h.cmpQ != [] && SplitShaped(Split(w, rs)) && r !in rs
    ensures LinkedRun(Split(w, rs), ReadAlone(r, |Batch(w.h)|, fault), Split(DoGet(w, fault), rs))
  {
    var c, n := Split(w, rs), |Batch(w.h)|;
    hide Inv, Batch, AllMarked, LinkedRun, DoGet, SplitShaped, CanAct, After, Linked;
    MayMove(w, rs, r);
    var e := MovedMarked(w, rs, r);
    ReadEnds(w, fault, rs, r, e);
    var a := if fault then Fault(r) else Deliver(r);
    EndsRun(e, a);
    LinkedJoins(c, [Move(r)] + Marks(r, n), e, [a], After(e, a));
    assert [Move(r)] + Marks(r, n) + [a] == ReadAlone(r, n, fault);
  }

  lemma OtherIsRun(w: World, s: Step, rs: map<nat, Reading>)
    requires SplitShaped(Split(w, rs)) && Enabled(w, s) && !s.GetStep?
    ensures SplitShaped(Split(Apply(w, s), rs))
    ensures LinkedRun(Split(w, rs), [Other(s)], Split(Apply(w, s), rs))
  {
    hide Apply, Enabled, LinkedRun;
    ActKeepsShape(Split(w, rs), Other(s));
    EndsRun(Split(w, rs), Other(s));
  }

  lemma ReadKeepsShape(w: World, fault: bool, rs: map<nat, Reading>)
    requires SplitShaped(Split(w, rs))
    ensures SplitShaped(Split(DoGet(w, fault), rs))
  {}

  /** Whatever reads are under way: every run in which further reads are one step each is a run of the split system,
      with every rollback on linked slots. */
  lemma {:induction false} RunIsSplitRun(w: World, steps: seq<Step>, last: World, rs: map<nat, Reading>, r: nat)
    returns (acts: seq<Act>)
    requires Inv(w) && Run(w, steps, last) && SplitShaped(Split(w, rs)) && r !in rs
    ensures LinkedRun(Split(w, rs), acts, Split(last, rs)) && SplitShaped(Split(last, rs))
    decreases |steps|
  {
    hide Inv, Apply, LinkedRun, SplitShaped;
    var c := Split(w, rs);
    if steps == [] {
      NoActs(c);
      acts := [];
    } else {
      var s := steps[0];
      var first: seq<Act>;
      StepKeeps(w, s);
      if s.GetStep? {
        ReadIsRun(w, s.fault, rs, r);
        ReadKeepsShape(w, s.fault, rs);
        GetIs(w, s.fault);
        first := ReadAlone(r, |Batch(w.h)|, s.fault);
      } else {
        OtherIsRun(w, s, rs);
        first := [Other(s)];
      }
      hide Run, Enabled;
      var rest := RunIsSplitRun(Apply(w, s), steps[1..], last, rs, r);
      LinkedJoins(c, first, Split(Apply(w, s), rs), rest, Split(last, rs));
      acts := first + rest;
    }
  }

  // ----- A slot that changes hands during a read -----

  /** Command 7 waits for a read. */
  lemma CommandWaiting() returns (steps: seq<Step>, w: World)
    ensures Reachable(START, steps, w) && w == Racing(REQUEST, 1, ONQUEUE, [], [0], [], 0)
  {
    w := Racing(REQUEST, 1, ONQUEUE, [], [0], [], 0);
    assert Run(w, [], w);
    StartIsInit();
    hide Run, Racing, Init;
    Started(w, []);
    Submitted(w, [StartStep] + []);
    steps := [AllocStep] + ([Submit(0, 7)] + ([StartStep] + []));
  }

  /** A slot whose command the target has read already: relisted by a rollback, it is read again, though the slot is
      linked and the invariant is kept. */
  lemma RelistedIsReadAgain(w: World, t: nat)
    requires Inv(w) && w.h.Listed(t) && IdOf(w.h, t) in w.delivered
    ensures t < w.h.Nr() && Inv(w.(h := RollOne(w.h, t))) && RollOne(w.h, t).cmpQ != []
    ensures !NoDup(DoGet(w.(h := RollOne(w.h, t)), false).delivered)
  {
    HeadsInRange(w.h);
    RollBackInvIff(w, [t]);
    assert RollBack(w.h, [t]) == RollOne(w.h, t);
    hide Inv;
    var v := w.(h := RollOne(w.h, t));
    var d := DoGet(v, false).delivered;
    assert Batch(v.h)[0] == t;
    assert Ids(v.h, Batch(v.h))[0] == IdOf(w.h, t);
    var i :| 0 <= i < |w.delivered| && w.delivered[i] == IdOf(w.h, t);
    assert d[i] == d[|w.delivered|];
  }

  ghost const READ7: World := Racing(READ_COMP, 1, ONQUEUE, [], [], [0], 0).(delivered := [])

  const READING7: map<nat, Reading> := map[0 := Reading([0], [1], [7], [7])]

  /** Reader 0 has moved command 7 and built its message. */
  lemma SevenMoved() returns (acts: seq<Act>)
    ensures LinkedRun(Split(START, map[]), acts, Split(READ7, READING7)) && SplitShaped(Split(READ7, READING7))
  {
    var steps, w := CommandWaiting();
    ReachableInv(START, steps, w);
    InitInv(START);
    var first := RunIsSplitRun(START, steps, w, map[], 0);
    MoveSeven();
    MarkSeven();
    hide LinkedRun, SplitShaped, After, CanAct, Linked, Racing;
    var c := Split(w, map[]);
    EndsRun(After(c, Move(0)), Mark(0));
    ActThen(c, Move(0), [Mark(0)], Split(READ7, READING7));
    LinkedJoins(Split(START, map[]), first, c, [Move(0)] + [Mark(0)], Split(READ7, READING7));
    acts := first + ([Move(0)] + [Mark(0)]);
  }

  lemma MoveSeven()
    ensures var c := Split(Racing(REQUEST, 1, ONQUEUE, [], [0], [], 0), map[]);
      && SplitShaped(c) && CanAct(c, Move(0)) && Linked(c, Move(0))
      && After(c, Move(0)) == Split(READ7.(h := READ7.h.(slots := c.w.h.slots)), map[0 := Reading([0], [1], [7], [])])
  {
    var w := Racing(REQUEST, 1, ONQUEUE, [], [0], [], 0);
    assert Batch(w.h) == [0] && Ids(w.h, [0]) == [7] && GensAt(w, [0]) == [1];
    assert w.h.cmpQ[BatchSize(w.h)..] == [];
  }

  const SEVEN: Slot := Slot(REQUEST, 1, 1, Some(7))

  lemma SevenMarked()
    ensures var h := READ7.h.(slots := [SEVEN]);
      && SetStat(h, 0, READ_COMP) == READ7.h && IdOf(h, 0) == 7
      && SplitShaped(Split(READ7.(h := h), map[0 := Reading([0], [1], [7], [])]))
      && SplitShaped(Split(READ7, READING7))
  {
    assert [SEVEN][0 := Slot(READ_COMP, 1, 1, Some(7))] == READ7.h.slots;
  }

  lemma MarkSeven()
    ensures var d := Split(READ7.(h := READ7.h.(slots := [SEVEN])), map[0 := Reading([0], [1], [7], [])]);
      && SplitShaped(d) && CanAct(d, Mark(0)) && Linked(d, Mark(0)) && After(d, Mark(0)) == Split(READ7, READING7)
      && SplitShaped(Split(READ7, READING7))
  {
    SevenMarked();
    hide Racing, SetStat, IdOf, SplitShaped;
    var rd := Reading([0], [1], [7], []);
    assert rd.msgs + [7] == [7];
    assert map[0 := rd][0 := rd.(msgs := [7])] == READING7;
  }

  /** The slot is free again, and its last request was 7. */
  ghost predicate SevenGone(w: World) {
    && Inv(w) && w.h.slots == [Slot(READ_COMP, 1, 0, Some(7))] && Completed(w.h) == [7]
    && w.h.bits == {} && w.h.reqQ == w.h.cmpQ == w.h.rspQ == [] && w.h.qdepth == 0
  }

  lemma Read7Sound()
    ensures Inv(READ7) && Ready(READ7.h)
  {
    var before, a := CommandRead();
    ReachableInv(START, before, a);
    hide SlotsOk, QueuesOk, GensOk, LedgerOk;
    DeliveredIsFree(a, READ7);
    ReachableReady(READ7);
  }

  lemma SevenSwept() returns (steps: seq<Step>, w: World)
    ensures Run(READ7, steps, w) && SevenGone(w) && Inv(w) && Inv(READ7)
  {
    hide Run, Inv, SweepOne, Ready, Racing;
    Read7Sound();
    Read7Queue();
    steps, w := SweepTurnIsSteps(READ7, RSPQ, DID_REQUEUE);
    SweptOff(READ7.h);
    assert Completed(w.h) == [7];
  }

  lemma Read7Queue()
    ensures READ7.h.rspQ == [0] && READ7.h.qdepth == 0
  {}

  lemma EightIsNew(w: World)
    requires SevenGone(w)
    ensures 8 !in w.accepted
  {
    hide SlotsOk, QueuesOk, GensOk;
  }

  /** The slot goes to command 8, which waits for a read. */
  lemma EightSubmitted(w: World) returns (steps: seq<Step>, v: World)
    requires SevenGone(w)
    ensures Run(w, steps, v) && Inv(v) && v.h.cmpQ == [0] && v.h.rspQ == [] && IdOf(v.h, 0) == 8
  {
    EightIsNew(w);
    steps, v := SubmitIsSteps(w, 8);
    hide Run, SlotsOk, QueuesOk, GensOk, LedgerOk, StartAll;
    SubmitCallIs(w.h, 8);
    assert 0 !in w.h.bits;
    assert FirstFree(w.h.bits, 0, 1) == 0;
    assert w.h.cmpQ + w.h.reqQ + [0] == [0];
  }

  /** Reader 1 reads command 8. */
  lemma EightRead(w: World)
    requires Inv(w) && w.h.cmpQ == [0] && w.h.rspQ == [] && IdOf(w.h, 0) == 8
    ensures var v := DoGet(w, false);
      && Inv(v) && v.Shaped() && v.h.rspQ == [0] && IdOf(v.h, 0) == 8 && 8 in v.delivered
  {
    GetKeeps(w, false);
    hide Inv;
    assert Batch(w.h) == [0];
    var v := DoGet(w, false);
    assert Ids(w.h, [0])[0] == 8;
    assert v.delivered[|w.delivered|] == 8;
  }

  lemma RolledAlone(w: World)
    requires w.Shaped() && w.h.rspQ == [0]
    ensures var c := Split(w, READING7);
      && SplitShaped(c) && CanAct(c, Fault(0)) && Linked(c, Fault(0))
      && After(c, Fault(0)) == Split(w.(h := RollOne(w.h, 0)), map[])
  {
    assert [0][1..] == [];
    assert RollBack(w.h, [0]) == RollOne(w.h, 0);
    assert READING7 - {0} == map[];
    hide RollOne;
  }

  /** The copy of reader 0 faults, and command 8 is read once more. */
  lemma ReadThenFault(w: World) returns (acts: seq<Act>, v: World)
    requires Inv(w) && w.h.cmpQ == [0] && w.h.rspQ == [] && IdOf(w.h, 0) == 8 && SplitShaped(Split(w, READING7))
    ensures LinkedRun(Split(w, READING7), acts, Split(v, map[])) && Inv(v) && !NoDup(v.delivered)
  {
    var a := DoGet(w, false);
    ReadIsRun(w, false, READING7, 1);
    EightRead(w);
    RolledAlone(a);
    RelistedIsReadAgain(a, 0);
    var b := a.(h := RollOne(a.h, 0));
    v := DoGet(b, false);
    GetKeeps(b, false);
    hide Inv, LinkedRun, After, CanAct, Linked, DoGet, RollOne, ReadAlone;
    ReadIsRun(b, false, map[], 1);
    var first, last := ReadAlone(1, |Batch(w.h)|, false), ReadAlone(1, |Batch(b.h)|, false);
    ActThen(Split(a, READING7), Fault(0), last, Split(v, map[]));
    LinkedJoins(Split(w, READING7), first, Split(a, READING7), [Fault(0)] + last, Split(v, map[]));
    acts := first + ([Fault(0)] + last);
  }

  lemma LinkedMeans(c: Split, acts: seq<Act>, last: Split)
    requires LinkedRun(c, acts, last)
    ensures SplitRun(c, acts, last) && AlwaysLinked(c, acts)
  {}

  /** Over this run of split reads every rollback finds its slots linked; the target reads a command twice all the
      same: reader 0 moves command 7, a sweep completes it, its slot goes to command 8, reader 1 reads 8, and the copy
      of reader 0 faults. */
  lemma LinkedButReadTwice() returns (acts: seq<Act>, c: Split)
    ensures Init(START) && SplitRun(Split(START, map[]), acts, c) && AlwaysLinked(Split(START, map[]), acts)
    ensures Inv(c.w) && NoReadings(c) && !NoDup(c.w.delivered)
  {
    StartIsInit();
    hide Run, Inv, LinkedRun, SplitShaped, After, CanAct, Linked, Racing, DoGet, SevenGone;
    var c0, c1 := Split(START, map[]), Split(READ7, READING7);
    var a1 := SevenMoved();
    var sweep, w2 := SevenSwept();
    var a2 := RunIsSplitRun(READ7, sweep, w2, READING7, 1);
    LinkedJoins(c0, a1, c1, a2, Split(w2, READING7));
    var submit, w3 := EightSubmitted(w2);
    var a3 := RunIsSplitRun(w2, submit, w3, READING7, 1);
    LinkedJoins(c0, a1 + a2, Split(w2, READING7), a3, Split(w3, READING7));
    var a4, w5 := ReadThenFault(w3);
    LinkedJoins(c0, a1 + a2 + a3, Split(w3, READING7), a4, Split(w5, map[]));
    acts, c := a1 + a2 + a3 + a4, Split(w5, map[]);
    LinkedMeans(c0, acts, c);
  }
}
