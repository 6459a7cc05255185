/** Runs in which the batch read is taken apart: any number of readers move a batch under the lock, mark and describe
    it command by command outside, and end with a copy that succeeds or with the rollback. */
module SplitRuns {
  import opened Seqs
  import opened HostState
  import opened Lifecycle
  import opened CommandSafety
  import opened Calls
  import opened SplitRead

  /** A read under way: the slots of its batch, the allocations and requests they held when it was moved, and the
      requests named by the messages built so far. */
  datatype Reading = Reading(slots: seq<nat>, gens: seq<nat>, ids: seq<nat>, msgs: seq<nat>)

  datatype Split = Split(w: World, readings: map<nat, Reading>)

  /** `Other` is any step but a read; the rest are the actions of reader `r`. */
  datatype Act = Other(s: Step) | Move(r: nat) | Mark(r: nat) | Deliver(r: nat) | Fault(r: nat)

  predicate ReadingShaped(rd: Reading, n: nat) {
    |rd.gens| == |rd.ids| == |rd.slots| && |rd.msgs| <= |rd.slots| && InRange(rd.slots, n)
  }

  ghost predicate SplitShaped(c: Split) {
    c.w.Shaped() && forall r :: r in c.readings ==> ReadingShaped(c.readings[r], |c.w.books|)
  }

  ghost predicate CanAct(c: Split, a: Act)
    requires SplitShaped(c)
  {
    match a
    case Other(s) => !s.GetStep? && Enabled(c.w, s)
    case Move(r) => r !in c.readings && c.w.h.cmpQ != [] && InRange(Batch(c.w.h), |c.w.books|)
    case Mark(r) => r in c.readings && |c.readings[r].msgs| < |c.readings[r].slots|
    case Deliver(r) => r in c.readings && |c.readings[r].msgs| == |c.readings[r].slots|
    case Fault(r) => r in c.readings && |c.readings[r].msgs| == |c.readings[r].slots|
  }

  function GensAt(w: World, b: seq<nat>): (r: seq<nat>)
    requires InRange(b, |w.books|)
    ensures |r| == |b| && forall k :: 0 <= k < |b| ==> r[k] == w.books[b[k]].gen
  {
    seq(|b|, k requires 0 <= k < |b| => w.books[b[k]].gen)
  }

  ghost function After(c: Split, a: Act): Split
    requires SplitShaped(c) && CanAct(c, a)
  {
    match a
    case Other(s) => c.(w := Apply(c.w, s))
    case Move(r) =>
      var b := Batch(c.w.h);
      Split(c.w.(h := MoveBatch(c.w.h)), c.readings[r := Reading(b, GensAt(c.w, b), Ids(c.w.h, b), [])])
    case Mark(r) =>
      var rd := c.readings[r];
      var t := rd.slots[|rd.msgs|];
      Split(c.w.(h := SetStat(c.w.h, t, READ_COMP)), c.readings[r := rd.(msgs := rd.msgs + [IdOf(c.w.h, t)])])
    case Deliver(r) => Split(c.w.(delivered := c.w.delivered + c.readings[r].msgs), c.readings - {r})
    case Fault(r) => Split(c.w.(h := RollBack(c.w.h, c.readings[r].slots)), c.readings - {r})
  }

  ghost predicate SplitRun(c: Split, acts: seq<Act>, last: Split)
    decreases |acts|
  {
    if acts == [] then c == last
    else SplitShaped(c) && CanAct(c, acts[0]) && SplitRun(After(c, acts[0]), acts[1..], last)
  }

  // ----- Forgetting the stats -----

  /** What a slot's stat is when no read is under way; the marks outside the lock blur it. */
  function NormalStat(h: Host, t: nat): Stat {
    if t in h.reqQ then INIT else if t in h.cmpQ then REQUEST else if t in h.rspQ then READ_COMP else INIT
  }

  function NormalSlots(h: Host): (r: seq<Slot>)
    ensures |r| == |h.slots| && forall t :: 0 <= t < |r| ==> r[t] == h.slots[t].(stat := NormalStat(h, t))
  {
    seq(|h.slots|, t requires 0 <= t < |h.slots| => h.slots[t].(stat := NormalStat(h, t)))
  }

  function Normal(w: World): World { w.(h := w.h.(slots := NormalSlots(w.h)), delivered := []) }

  /** All of the invariant but what it says of stats. */
  ghost predicate Sound(w: World) { Inv(Normal(w)) }

  /** Two worlds that differ in stats and in what the target has read at most. */
  ghost predicate Alike(a: World, b: World) {
    && |a.h.slots| == |b.h.slots| && a == b.(h := b.h.(slots := a.h.slots), delivered := a.delivered)
    && forall t :: 0 <= t < |a.h.slots| ==> a.h.slots[t] == b.h.slots[t].(stat := a.h.slots[t].stat)
  }

  lemma AlikeNormal(a: World, b: World)
    requires Alike(a, b)
    ensures Normal(a) == Normal(b)
  {
    assert NormalSlots(a.h) == NormalSlots(b.h);
  }

  lemma NormalAlike(w: World)
    ensures Alike(w, Normal(w))
  {}

  /** The invariant does not need the stats that the normal form gives up. */
  lemma NormalKeeps(w: World)
    requires Inv(w)
    ensures Inv(Normal(w))
  {
    var v := Normal(w);
    forall t | 0 <= t < |v.books| ensures SlotOk(v, t) { assert SlotOk(w, t); }
    NormalQueues(w.h);
    hide QueuesOk, SlotOk, NormalStat;
    assert Completed(v.h) == Completed(w.h);
    forall u | 0 <= u < |v.books| ensures OwedOk(v, u) { assert OwedOk(w, u); }
    forall x | x in v.accepted ensures AccountedFor(v, x) { assert AccountedFor(w, x); }
  }

  lemma NormalQueues(h: Host)
    requires QueuesOk(h)
    ensures QueuesOk(h.(slots := NormalSlots(h)))
  {}

  /** Sound worlds: how a step on one world carries over to its normal form. */
  lemma SoundBy(v: World, n: World)
    requires Inv(n) && Alike(v, n)
    ensures Sound(v)
  {
    NormalKeeps(n);
    AlikeNormal(v, n);
  }

  // ----- Steps do not look at stats, but for the check of a response -----

  lemma EditAlike(a: World, b: World, t: nat, book: Book, op: RefOp, finished: seq<Completion>)
    requires Alike(a, b) && t < |a.books| == |a.h.slots|
    ensures Alike(Edit(a, t, book, op, finished), Edit(b, t, book, op, finished))
  {}

  lemma EditOfAlike(a: World, b: World, s: Step)
    requires Alike(a, b) && a.Shaped() && Enabled(a, s) && IsEdit(s)
    ensures b.Shaped() && Enabled(b, s) && EditOf(b, s) == EditOf(a, s)
  {}

  lemma TakeAlike(a: World, b: World, t: nat, book: Book)
    requires Alike(a, b) && t < |a.books| == |a.h.slots|
    ensures Alike(Take(a, t, book), Take(b, t, book))
  {
    hide Remove;
  }

  lemma RespondAlike(a: World, b: World, t: nat, outcome: Outcome)
    requires Alike(a, b) && t < |a.books| == |a.h.slots|
    ensures Alike(DoRespond(a, t, outcome), DoRespond(b, t, outcome))
  {
    TakeAlike(a, b, t, a.books[t].(phase := RespTaken(outcome)));
    hide Take;
  }

  lemma AllocAlike(a: World, b: World)
    requires Alike(a, b) && a.Shaped() && Alloc(a.h).1.Some?
    ensures Alloc(b.h).1 == Alloc(a.h).1 && Alike(DoAlloc(a), DoAlloc(b))
  {
    hide FirstFree;
  }

  lemma QueueStepAlike(a: World, b: World, s: Step)
    requires Alike(a, b) && a.Shaped() && Enabled(a, s) && !IsEdit(s) && !s.Respond? && !s.GetStep?
    ensures b.Shaped() && Enabled(b, s) && Alike(Apply(a, s), Apply(b, s))
  {
    hide Take, Edit, EditOf, DoAlloc, Alloc;
    match s
    case AllocStep => AllocAlike(a, b);
    case TakeStep(q) =>
      var t := QueueOf(a.h, q)[0];
      TakeAlike(a, b, t, a.books[t].(phase := SweepTaken));
    case AbortDecide(t, sc) =>
      var book := a.books[t].(waiting := a.books[t].waiting - multiset{sc});
      if a.h.Listed(t) { TakeAlike(a, b, t, book.(phase := AbortTaken(sc))); }
      else { EditAlike(a, b, t, book.(leaving := book.leaving + 1), KEEP, []); }
    case _ =>
  }

  lemma StepAlike(a: World, b: World, s: Step)
    requires Alike(a, b) && a.Shaped() && Enabled(a, s) && !s.Respond? && !s.GetStep?
    ensures b.Shaped() && Enabled(b, s) && Alike(Apply(a, s), Apply(b, s))
  {
    hide Apply, EditOf, Edit;
    if IsEdit(s) {
      EditOfAlike(a, b, s);
      EditApplied(a, s);
      EditApplied(b, s);
      var (book, op, finished) := EditOf(a, s);
      EditAlike(a, b, s.t, book, op, finished);
    } else {
      QueueStepAlike(a, b, s);
    }
  }

  /** A step as it acts on the normal form: a response is taken if the checks let it through in the world itself. */
  ghost function Effect(n: World, s: Step, through: bool): World
    requires n.Shaped() && Enabled(n, s) && !s.GetStep? && (s.Respond? && through ==> s.tag < |n.books|)
  {
    if s.Respond? then (if through then DoRespond(n, s.tag, s.outcome) else n) else Apply(n, s)
  }

  ghost predicate Through(w: World, s: Step) { s.Respond? && Addressed(w.h, s.tag, s.sn) }

  lemma EffectAlike(w: World, s: Step)
    requires w.Shaped() && Enabled(w, s) && !s.GetStep?
    ensures var n := Normal(w);
      && n.Shaped() && Enabled(n, s) && (Through(w, s) ==> s.tag < |n.books| && n.h.Listed(s.tag))
      && Alike(Apply(w, s), Effect(n, s, Through(w, s)))
  {
    NormalAlike(w);
    if !s.Respond? {
      StepAlike(w, Normal(w), s);
    } else if Through(w, s) {
      RespondAlike(w, Normal(w), s.tag, s.outcome);
    }
  }

  lemma EffectKeeps(n: World, s: Step, through: bool)
    requires Inv(n) && Enabled(n, s) && !s.GetStep?
    requires s.Respond? && through ==> s.tag < |n.books| && n.h.Listed(s.tag)
    ensures Inv(Effect(n, s, through))
  {
    hide SlotsOk, QueuesOk, GensOk, LedgerOk, Apply, DoRespond;
    if !s.Respond? { StepKeeps(n, s); } else if through { RespondKeeps(n, s.tag, s.outcome); }
  }

  lemma StepKeepsSound(w: World, s: Step)
    requires w.Shaped() && Sound(w) && Enabled(w, s) && !s.GetStep?
    ensures Sound(Apply(w, s))
  {
    hide Inv, Alike, Apply, Effect, Normal;
    EffectAlike(w, s);
    EffectKeeps(Normal(w), s, Through(w, s));
    SoundBy(Apply(w, s), Effect(Normal(w), s, Through(w, s)));
  }

  // ----- The actions of the readers -----

  lemma MoveKeepsSound(w: World)
    requires w.Shaped() && Sound(w)
    ensures Sound(w.(h := MoveBatch(w.h)))
  {
    var n := Normal(w);
    GetKeeps(n, false);
    hide Inv;
    assert Alike(w.(h := MoveBatch(w.h)), DoGet(n, false)) by { hide Ids, NormalSlots; }
    SoundBy(w.(h := MoveBatch(w.h)), DoGet(n, false));
  }

  lemma MarkKeepsSound(w: World, t: nat, d: seq<nat>)
    requires w.Shaped() && Sound(w) && t < |w.books|
    ensures Sound(w.(h := SetStat(w.h, t, READ_COMP))) && Sound(w.(delivered := d))
  {
    hide Inv;
    AlikeNormal(w.(h := SetStat(w.h, t, READ_COMP)), w);
    AlikeNormal(w.(delivered := d), w);
  }

  /** Off the queues and back, only stats and queues of the batch's slots change. */
  lemma {:induction false} RollBackElse(h: Host, b: seq<nat>)
    requires InRange(b, h.Nr())
    ensures var v := RollBack(h, b);
      && v == h.(slots := v.slots, reqQ := v.reqQ, cmpQ := v.cmpQ, rspQ := v.rspQ)
      && (forall t :: 0 <= t < |h.slots| ==> v.slots[t] == h.slots[t].(stat := v.slots[t].stat))
      && (forall t: nat :: v.Listed(t) <==> t in b || h.Listed(t))
    decreases |b|
  {
    if b != [] {
      var c := b[0];
      assert b == [c] + b[1..];
      RollOneElse(h, c);
      hide RollOne;
      RollBackElse(RollOne(h, c), b[1..]);
    }
  }

  lemma RollOneElse(h: Host, c: nat)
    requires c < h.Nr()
    ensures var v := RollOne(h, c);
      && v == h.(slots := v.slots, reqQ := v.reqQ, cmpQ := v.cmpQ, rspQ := v.rspQ)
      && (forall t :: 0 <= t < |h.slots| ==> v.slots[t] == h.slots[t].(stat := v.slots[t].stat))
      && (forall t: nat :: v.Listed(t) <==> t == c || h.Listed(t))
  {
    RemoveElems(h.reqQ, c);
    RemoveElems(h.cmpQ, c);
    RemoveElems(h.rspQ, c);
    hide Remove;
  }

  /** Where the slots stand after the rollback. */
  ghost predicate RolledTo(h: Host, v: Host, b: seq<nat>) {
    && |v.slots| == |h.slots|
    && (forall t: nat :: t in v.reqQ <==> t in h.reqQ && t !in b)
    && (forall t: nat :: t in v.cmpQ <==> t in h.cmpQ || t in b)
    && (forall t: nat :: t in v.rspQ <==> t in h.rspQ && t !in b)
    && forall t :: 0 <= t < |h.slots| ==> v.slots[t].stat == if t in b then REQUEST else h.slots[t].stat
  }

  lemma RollOneTo(h: Host, c: nat)
    requires NoDup(h.reqQ + h.cmpQ + h.rspQ) && c < h.Nr()
    ensures RolledTo(h, RollOne(h, c), [c]) && NoDup(RollOne(h, c).reqQ + RollOne(h, c).cmpQ + RollOne(h, c).rspQ)
  {
    RollOneCounts(h, c);
    ThreeParts(h);
    RemoveIs(h.reqQ, c);
    RemoveIs(h.cmpQ, c);
    RemoveIs(h.rspQ, c);
    hide NoDup, Remove;
  }

  lemma {:induction false} RollBackTo(h: Host, b: seq<nat>)
    requires NoDup(h.reqQ + h.cmpQ + h.rspQ) && InRange(b, h.Nr())
    ensures RolledTo(h, RollBack(h, b), b)
    decreases |b|
  {
    hide NoDup;
    if b != [] {
      var v := RollOne(h, b[0]);
      assert b == [b[0]] + b[1..];
      RollOneTo(h, b[0]);
      hide RollOne;
      RollBackTo(v, b[1..]);
      RolledOn(h, v, RollBack(v, b[1..]), b[0], b[1..]);
    }
  }

  lemma RolledOn(h: Host, v: Host, u: Host, c: nat, rest: seq<nat>)
    requires RolledTo(h, v, [c]) && RolledTo(v, u, rest)
    ensures RolledTo(h, u, [c] + rest)
  {}

  lemma QueuesNoDup(h: Host)
    requires QueuesOk(h)
    ensures NoDup(h.reqQ + h.cmpQ + h.rspQ) && h.ioRunning == |h.reqQ| + |h.cmpQ| + |h.rspQ|
  {
    ThreeParts(h);
  }

  lemma RolledQueues(h: Host, b: seq<nat>)
    requires QueuesOk(h) && InRange(b, h.Nr()) && NoDup(b) && forall t :: t in b ==> h.Listed(t)
    ensures QueuesOk(RollBack(h, b))
  {
    var v := RollBack(h, b);
    QueuesNoDup(h);
    RollBackTo(h, b);
    RollBackCounts(h, b);
    MissingNone(h, b);
    ThreeParts(v);
    hide RollBack, NoDup;
    assert forall t :: t in b ==> t < |h.slots|;
  }

  /** The rollback keeps the invariant if and only if every command of its batch is still linked. */
  lemma RollBackInvIff(w: World, b: seq<nat>)
    requires Inv(w) && InRange(b, w.h.Nr()) && NoDup(b)
    ensures Inv(w.(h := RollBack(w.h, b))) <==> forall t :: t in b ==> w.h.Listed(t)
  {
    hide SlotsOk, GensOk, LedgerOk, RollBack, QueuesOk, NoDup;
    var v := RollBack(w.h, b);
    if forall t :: t in b ==> w.h.Listed(t) {
      RolledQueues(w.h, b);
      RollBackElse(w.h, b);
      RolledStats(w.h, b);
      StatsOnly(w, v);
    } else if Inv(w.(h := v)) {
      QueuesNoDup(w.h);
      QueuesNoDup(v);
      RollBackCounts(w.h, b);
      MissingNone(w.h, b);
    }
  }

  lemma RolledStats(h: Host, b: seq<nat>)
    requires QueuesOk(h) && InRange(b, h.Nr()) && forall t :: t in b ==> h.Listed(t)
    ensures forall t :: 0 <= t < |h.slots| && !h.Listed(t) ==> RollBack(h, b).slots[t].stat == h.slots[t].stat
  {
    QueuesNoDup(h);
    RollBackTo(h, b);
  }

  lemma RollBackAlike(w: World, b: seq<nat>)
    requires w.Shaped() && InRange(b, w.h.Nr())
    ensures Alike(w.(h := RollBack(w.h, b)), Normal(w).(h := RollBack(Normal(w).h, b)))
  {
    SameRollBack(w.h, Normal(w).h, b);
  }

  /** The rollback, stats aside, does not look at stats. */
  lemma {:induction false} SameRollBack(h: Host, k: Host, b: seq<nat>)
    requires |h.slots| == |k.slots| && h == k.(slots := h.slots) && InRange(b, h.Nr())
    requires forall t :: 0 <= t < |h.slots| ==> h.slots[t] == k.slots[t].(stat := h.slots[t].stat)
    ensures var v, u := RollBack(h, b), RollBack(k, b);
      && v == u.(slots := v.slots)
      && forall t :: 0 <= t < |h.slots| ==> v.slots[t] == u.slots[t].(stat := v.slots[t].stat)
    decreases |b|
  {
    hide Remove;
    if b != [] { SameRollBack(RollOne(h, b[0]), RollOne(k, b[0]), b[1..]); }
  }

  /** The same of worlds with reads under way, whose stats are blurred. */
  lemma RollBackSoundIff(w: World, b: seq<nat>)
    requires w.Shaped() && Sound(w) && InRange(b, w.h.Nr()) && NoDup(b)
    ensures Sound(w.(h := RollBack(w.h, b))) <==> forall t :: t in b ==> w.h.Listed(t)
  {
    hide Inv, RollBack, NoDup, Alike;
    var n, v := Normal(w), w.(h := RollBack(w.h, b));
    RollBackInvIff(n, b);
    RollBackAlike(w, b);
    var u := n.(h := RollBack(n.h, b));
    if Inv(u) {
      SoundBy(v, u);
    } else if Sound(v) {
      AlikeNormal(v, u);
      SoundCounts(u);
      assert n.h.ioRunning == w.h.ioRunning;
      RolledCounts(n, b);
    }
  }

  lemma SoundCounts(w: World)
    requires Sound(w)
    ensures NoDup(w.h.reqQ + w.h.cmpQ + w.h.rspQ) && w.h.ioRunning == |w.h.reqQ| + |w.h.cmpQ| + |w.h.rspQ|
  {
    QueuesNoDup(Normal(w).h);
  }

  lemma RolledCounts(n: World, b: seq<nat>)
    requires Inv(n) && InRange(b, n.h.Nr()) && NoDup(b)
    requires var v := RollBack(n.h, b); v.ioRunning == |v.reqQ| + |v.cmpQ| + |v.rspQ|
    ensures forall t :: t in b ==> n.h.Listed(t)
  {
    QueuesNoDup(n.h);
    RollBackCounts(n.h, b);
    MissingNone(n.h, b);
  }

  // ----- Exactly-once completion with split reads -----

  ghost predicate SplitOk(c: Split) {
    SplitShaped(c) && Sound(c.w) && forall r :: r in c.readings ==> NoDup(c.readings[r].slots)
  }

  /** A rollback finds all of its slots on some queue. */
  ghost predicate Linked(c: Split, a: Act) {
    a.Fault? && a.r in c.readings ==> forall t :: t in c.readings[a.r].slots ==> c.w.h.Listed(t)
  }

  lemma ActKeepsShape(c: Split, a: Act)
    requires SplitShaped(c) && CanAct(c, a)
    ensures SplitShaped(After(c, a)) && |After(c, a).w.books| == |c.w.books|
  {
    hide Apply, Enabled, RollBack;
    if a.Other? { ShapeStays(c.w, a.s); }
  }

  lemma BatchNoDup(w: World)
    requires w.Shaped() && Sound(w)
    ensures NoDup(Batch(w.h)) && InRange(Batch(w.h), |w.books|)
  {
    ReachableReady(Normal(w));
    BatchParts(Normal(w).h);
  }

  /** With every rollback on linked slots, every action keeps the invariant but for stats. */
  lemma ActKeeps(c: Split, a: Act)
    requires SplitOk(c) && CanAct(c, a) && Linked(c, a)
    ensures SplitOk(After(c, a))
  {
    hide Sound, NoDup, Apply, Enabled, RollBack;
    ActKeepsShape(c, a);
    match a
    case Other(s) => StepKeepsSound(c.w, s);
    case Move(r) => MoveKeepsSound(c.w); BatchNoDup(c.w);
    case Mark(r) => MarkKeepsSound(c.w, c.readings[r].slots[|c.readings[r].msgs|], []);
    case Deliver(r) => MarkKeepsSound(c.w, 0, c.w.delivered + c.readings[r].msgs);
    case Fault(r) => RollBackSoundIff(c.w, c.readings[r].slots);
  }

  /** Every rollback of the run finds all of its slots on some queue. */
  ghost predicate AlwaysLinked(c: Split, acts: seq<Act>)
    decreases |acts|
  {
    acts != [] ==>
      && SplitShaped(c) && CanAct(c, acts[0]) && Linked(c, acts[0])
      && AlwaysLinked(After(c, acts[0]), acts[1..])
  }

  lemma {:induction false} SplitKeeps(c: Split, acts: seq<Act>, last: Split)
    requires SplitOk(c) && SplitRun(c, acts, last) && AlwaysLinked(c, acts)
    ensures SplitOk(last)
    decreases |acts|
  {
    hide SplitOk, SplitShaped, CanAct, Linked, After;
    if acts != [] {
      ActKeeps(c, acts[0]);
      SplitKeeps(After(c, acts[0]), acts[1..], last);
    }
  }

  predicate NoReadings(c: Split) { c.readings == map[] }

  lemma InitSplit(c: Split)
    requires Init(c.w) && NoReadings(c)
    ensures SplitOk(c)
  {
    InitInv(c.w);
    NormalKeeps(c.w);
  }

  /** Over every run of any number of split reads and everything else, in which each rollback finds its slots linked, no
      command is completed twice, no accepted command is lost, and no allocation is answered twice. */
  lemma ExactlyOnceSplit(c0: Split, acts: seq<Act>, c: Split, x: nat)
    requires Init(c0.w) && NoReadings(c0) && SplitRun(c0, acts, c) && AlwaysLinked(c0, acts)
    ensures c.w.Shaped() && OnceNow(c.w, x) && NoDup(c.w.answered)
  {
    InitSplit(c0);
    SplitKeeps(c0, acts, c);
    InvMeansOnce(Normal(c.w), x);
    SameOnce(c.w, x);
  }

  lemma SameOnce(w: World, x: nat)
    requires w.Shaped() && Normal(w).Shaped() && OnceNow(Normal(w), x)
    ensures OnceNow(w, x)
  {
    var n := Normal(w);
    assert Completed(n.h) == Completed(w.h);
    assert IsQueued(n, x) <==> IsQueued(w, x) by {
      assert forall t :: 0 <= t < |w.books| ==> n.h.slots[t].scsiCmd == w.h.slots[t].scsiCmd;
      assert forall t: nat :: n.h.Listed(t) <==> w.h.Listed(t);
    }
    assert IsDoomed(n, x) <==> IsDoomed(w, x) by {
      assert forall t :: 0 <= t < |w.books| ==> n.h.slots[t].scsiCmd == w.h.slots[t].scsiCmd;
      assert forall t: nat :: n.h.Listed(t) <==> w.h.Listed(t);
    }
  }
}
