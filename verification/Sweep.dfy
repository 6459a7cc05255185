/** One sweep of the three queues, with every other path running in between. */
module Sweep {
  import opened Seqs
  import opened HostState
  import opened Lifecycle
  import opened CommandSafety

  // ----- Requests only ever move forward -----

  /** Some slot on the queue carries the request. */
  ghost predicate On(h: Host, q: seq<nat>, x: nat) {
    exists t :: t in q && t < |h.slots| && h.slots[t].scsiCmd == Some(x)
  }

  /** The request is on none of the first `k` queues, in the order commands flow. */
  ghost predicate Passed(h: Host, x: nat, k: nat) {
    && (k >= 1 ==> !On(h, h.reqQ, x))
    && (k >= 2 ==> !On(h, h.cmpQ, x))
    && (k >= 3 ==> !On(h, h.rspQ, x))
  }

  /** What one step may do to the queues. */
  ghost predicate Flows(w: World, v: World, s: Step) {
    && (forall t :: t in v.h.reqQ ==> t in w.h.reqQ || (s.Submit? && t == s.t))
    && (forall t :: t in v.h.cmpQ ==> t in w.h.cmpQ || t in w.h.reqQ)
    && (forall t :: t in v.h.rspQ ==> t in w.h.rspQ || t in w.h.cmpQ)
    && |v.h.slots| == |w.h.slots|
    && (forall t: nat :: w.h.Listed(t) && t < |w.h.slots| ==> v.h.slots[t].scsiCmd == w.h.slots[t].scsiCmd)
  }

  lemma RemoveFlows(h: Host, t: nat)
    requires QueuesOk(h)
    ensures forall u :: u in Remove(h.reqQ, t) ==> u in h.reqQ
    ensures forall u :: u in Remove(h.cmpQ, t) ==> u in h.cmpQ
    ensures forall u :: u in Remove(h.rspQ, t) ==> u in h.rspQ
  {
    RemoveIs(h.reqQ, t);
    RemoveIs(h.cmpQ, t);
    RemoveIs(h.rspQ, t);
  }

  lemma GetFlows(h: Host, fault: bool)
    ensures forall t :: t in GetBatch(h, fault).cmpQ ==> t in h.cmpQ
    ensures forall t :: t in GetBatch(h, fault).rspQ ==> t in h.rspQ || t in h.cmpQ
  {
    ReverseElems(Batch(h));
  }

  lemma EditFlows(w: World, t: nat, b: Book, op: RefOp, finished: seq<Completion>, s: Step)
    requires w.Shaped() && t < |w.books|
    ensures Flows(w, Edit(w, t, b, op, finished), s)
  {}

  lemma TakeFlows(w: World, t: nat, b: Book, s: Step)
    requires w.Shaped() && QueuesOk(w.h) && t < |w.books|
    ensures Flows(w, Take(w, t, b), s)
  {
    hide QueuesOk, Remove;
    RemoveFlows(w.h, t);
  }

  lemma AllocFlows(w: World)
    requires w.Shaped() && SlotsOk(w) && Alloc(w.h).1.Some?
    ensures Flows(w, DoAlloc(w), AllocStep)
  {
    assert SlotOk(w, Alloc(w.h).1.value);
  }

  lemma SubmitFlows(w: World, t: nat, sc: nat)
    requires w.Shaped() && SlotsOk(w) && t < |w.books| && w.Phase(t).Submitting?
    ensures Flows(w, DoSubmit(w, t, sc), Submit(t, sc))
  {
    assert SlotOk(w, t);
  }

  lemma StepFlows(w: World, s: Step)
    requires Inv(w) && Enabled(w, s)
    ensures Flows(w, Apply(w, s), s)
  {
    hide LedgerOk, GensOk, QueuesOk, SlotOk, Edit, Take, EditOf, DoAlloc, DoSubmit, Alloc, Reverse, BatchSize, SetStats;
    match s
    case AllocStep => AllocFlows(w);
    case Submit(t, sc) => SubmitFlows(w, t, sc);
    case StartStep =>
    case GetStep(fault) => GetFlows(w.h, fault);
    case Respond(tag, sn, outcome) =>
      if Addressed(w.h, tag, sn) { TakeFlows(w, tag, w.books[tag].(phase := RespTaken(outcome)), s); }
    case TakeStep(q) =>
      var t := QueueOf(w.h, q)[0];
      TakeFlows(w, t, w.books[t].(phase := SweepTaken), s);
    case AbortDecide(t, sc) =>
      var b := w.books[t].(waiting := w.books[t].waiting - multiset{sc});
      if w.h.Listed(t) { TakeFlows(w, t, b.(phase := AbortTaken(sc)), s); }
      else { EditFlows(w, t, b.(leaving := b.leaving + 1), KEEP, [], s); }
    case _ =>
      var (b, op, finished) := EditOf(w, s);
      EditFlows(w, s.t, b, op, finished, s);
  }

  /** A request that has passed a queue never comes back to it. */
  lemma PassedStays(w: World, s: Step, x: nat, k: nat)
    requires Inv(w) && Enabled(w, s) && x in w.accepted && Passed(w.h, x, k)
    ensures Passed(Apply(w, s).h, x, k) && x in Apply(w, s).accepted
  {
    hide SlotsOk, QueuesOk, GensOk, LedgerOk, Apply, Enabled;
    StepFlows(w, s);
    SubmittedIsNew(w, s, x);
  }

  lemma SubmittedIsNew(w: World, s: Step, x: nat)
    requires Inv(w) && Enabled(w, s) && x in w.accepted
    ensures x in Apply(w, s).accepted
    ensures s.Submit? ==> Apply(w, s).h.slots[s.t].scsiCmd != Some(x)
  {}

  // ----- The sweep -----

  /** `Scan(k)`: looking at queue `k`. `Holding`: a slot was taken and its callback is running.
      `Putting`: only the sweep's own reference is left. The sweep is over at `Scan(3)`. */
  datatype Sweeper = Scan(k: nat) | Holding(k: nat, t: nat) | Putting(k: nat, t: nat)

  function Queue(k: nat): QueueName { if k == 0 then REQQ else if k == 1 then COMQ else RSPQ }

  datatype Move = Own(outcome: Outcome) | Other(s: Step)

  /** `mine` collects the requests this sweep has taken. */
  datatype Joint = Joint(w: World, sw: Sweeper, mine: set<nat>)

  ghost predicate SweepShaped(j: Joint) {
    j.w.Shaped() && j.sw.k <= 3 && (j.sw.Holding? || j.sw.Putting? ==> j.sw.t < |j.w.books|)
  }

  /** What the sweep holds stays its own. */
  ghost predicate SweepOk(j: Joint) {
    && Inv(j.w) && j.sw.k <= 3
    && (j.sw.Holding? ==> j.sw.k < 3 && j.sw.t < |j.w.books| && SweepPhase(j.w.Phase(j.sw.t)))
    && (j.sw.Putting? ==> j.sw.k < 3 && j.sw.t < |j.w.books| && j.w.books[j.sw.t].leaving > 0)
  }

  predicate SweepPhase(p: Phase) { p.SweepTaken? || p.SweepHeld? || p.SweepDone? }

  /** The step of the host behind the sweep's next move; the end of a queue is no step at all. */
  ghost function OwnStep(j: Joint, outcome: Outcome): Option<Step>
    requires SweepShaped(j) && j.sw != Scan(3)
  {
    match j.sw
    case Scan(k) => if QueueOf(j.w.h, Queue(k)) == [] then None else Some(TakeStep(Queue(k)))
    case Holding(k, t) =>
      var p := j.w.Phase(t);
      Some(if p.SweepTaken? then SweepGet(t) else if p.SweepHeld? then SweepFinish(t, outcome) else SweepDrop(t))
    case Putting(k, t) => Some(Leave(t))
  }

  /** The others may do anything except act for this sweep. */
  ghost predicate Allowed(j: Joint, m: Move)
    requires SweepShaped(j)
  {
    match m
    case Own(outcome) =>
      j.sw != Scan(3) && (OwnStep(j, outcome).Some? ==> Enabled(j.w, OwnStep(j, outcome).value))
    case Other(s) =>
      && Enabled(j.w, s)
      && (j.sw.Holding? ==> !((s.SweepGet? || s.SweepFinish? || s.SweepDrop?) && s.t == j.sw.t))
      && (j.sw.Putting? ==> !(s.Leave? && s.t == j.sw.t && j.w.books[s.t].leaving == 1))
  }

  /** Nothing that the host can do has to wait for the sweep, except what is the sweep's own to do. */
  lemma OthersRunFreely(j: Joint, s: Step)
    requires SweepShaped(j) && Enabled(j.w, s)
    ensures j.sw.Scan? || (!s.Leave? && !s.SweepGet? && !s.SweepFinish? && !s.SweepDrop?) || s.t != j.sw.t ==>
      Allowed(j, Other(s))
  {}

  /** The sweep is never stuck. */
  lemma OwnEnabled(j: Joint, outcome: Outcome)
    requires SweepOk(j) && j.sw != Scan(3)
    ensures OwnStep(j, outcome).Some? ==> Enabled(j.w, OwnStep(j, outcome).value)
    ensures Allowed(j, Own(outcome))
  {
    if j.sw.Scan? && QueueOf(j.w.h, Queue(j.sw.k)) != [] { HeadInRange(j.w.h, Queue(j.sw.k)); }
  }

  ghost function Next(j: Joint, m: Move): Joint
    requires SweepShaped(j) && Allowed(j, m)
  {
    match m
    case Other(s) => j.(w := Apply(j.w, s))
    case Own(outcome) =>
      match OwnStep(j, outcome)
      case None => j.(sw := Scan(j.sw.k + 1))
      case Some(s) =>
        var v := Apply(j.w, s);
        match j.sw
        case Scan(k) =>
          var t := QueueOf(j.w.h, Queue(k))[0];
          Joint(v, Holding(k, t), j.mine + {IdOf(j.w.h, t)})
        case Holding(k, t) => Joint(v, if s.SweepDrop? then Putting(k, t) else j.sw, j.mine)
        case Putting(k, t) => Joint(v, Scan(k), j.mine)
  }

  /** A slot in the hands of a sweep is left to it by every other step. */
  lemma OthersKeepSweepPhase(w: World, s: Step, t: nat)
    requires Inv(w) && Enabled(w, s) && t < |w.books| && SweepPhase(w.Phase(t))
    requires !((s.SweepGet? || s.SweepFinish? || s.SweepDrop?) && s.t == t)
    ensures Apply(w, s).Shaped() && t < |Apply(w, s).books| && Apply(w, s).Phase(t) == w.Phase(t)
    ensures Apply(w, s).h.slots[t].scsiCmd == w.h.slots[t].scsiCmd
  {
    hide LedgerOk, GensOk, QueuesOk, SlotsOk, EditOf, Apply;
    ShapeStays(w, s);
    if IsEdit(s) {
      if s.t == t { EditKeepsSweepPhase(w, s); }
      EditApplied(w, s);
    } else {
      QueueStepKeepsSweepPhase(w, s, t);
    }
  }

  ghost predicate SamePhase(w: World, v: World, t: nat) {
    && t < |w.books| == |v.books| && t < |w.h.slots| == |v.h.slots|
    && v.books[t].phase == w.books[t].phase && v.h.slots[t].scsiCmd == w.h.slots[t].scsiCmd
  }

  lemma StaysPut(w: World, t: nat)
    requires w.Shaped() && t < |w.books|
    ensures SamePhase(w, w, t)
  {}

  lemma TakeElsewhere(w: World, u: nat, b: Book, t: nat)
    requires w.Shaped() && t < |w.books| && u < |w.books| && u != t
    ensures SamePhase(w, Take(w, u, b), t)
  {
    hide Remove, IdOf;
  }

  lemma EditSamePhase(w: World, u: nat, b: Book, op: RefOp, t: nat)
    requires w.Shaped() && t < |w.books| && u < |w.books| && (u == t ==> b.phase == w.books[t].phase)
    ensures SamePhase(w, Edit(w, u, b, op, []), t)
  {}

  lemma RespondElsewhere(w: World, u: nat, outcome: Outcome, t: nat)
    requires w.Shaped() && t < |w.books| && u < |w.books| && u != t
    ensures SamePhase(w, DoRespond(w, u, outcome), t)
  {
    TakeElsewhere(w, u, w.books[u].(phase := RespTaken(outcome)), t);
    hide Take;
  }

  lemma QueueMovesElsewhere(w: World, s: Step, t: nat)
    requires w.Shaped() && Enabled(w, s) && (s.Submit? || s.StartStep? || s.GetStep?) && t < |w.books|
    requires s.Submit? ==> s.t != t
    ensures SamePhase(w, Apply(w, s), t)
  {
    hide Batch, Reverse, Ids;
  }

  lemma QueueStepKeepsSweepPhase(w: World, s: Step, t: nat)
    requires w.Shaped() && SlotsOk(w) && Enabled(w, s) && !IsEdit(s) && t < |w.books| && SweepPhase(w.Phase(t))
    ensures SamePhase(w, Apply(w, s), t)
  {
    hide EditOf, Take, Edit, DoRespond, Alloc, DoAlloc, DoSubmit, DoGet, StartOne, SamePhase, SlotsOk;
    NotListed(w, t);
    match s
    case AllocStep => AllocKeepsSweepPhase(w, t);
    case Respond(tag, sn, outcome) =>
      if Addressed(w.h, tag, sn) { RespondElsewhere(w, tag, outcome, t); } else { StaysPut(w, t); }
    case TakeStep(q) => TakeElsewhere(w, QueueOf(w.h, q)[0], w.books[QueueOf(w.h, q)[0]].(phase := SweepTaken), t);
    case AbortDecide(u, sc) =>
      var b := w.books[u].(waiting := w.books[u].waiting - multiset{sc});
      if w.h.Listed(u) { TakeElsewhere(w, u, b.(phase := AbortTaken(sc)), t); }
      else { EditSamePhase(w, u, b.(leaving := b.leaving + 1), KEEP, t); }
    case _ => QueueMovesElsewhere(w, s, t);
  }

  lemma NotListed(w: World, t: nat)
    requires w.Shaped() && SlotsOk(w) && t < |w.books| && SweepPhase(w.Phase(t))
    ensures !w.h.Listed(t)
  {
    assert SlotOk(w, t);
  }

  lemma AllocKeepsSweepPhase(w: World, t: nat)
    requires w.Shaped() && SlotsOk(w) && Alloc(w.h).1.Some? && t < |w.books| && SweepPhase(w.Phase(t))
    ensures SamePhase(w, DoAlloc(w), t)
  {
    hide FirstFree;
    assert SlotOk(w, t) && SlotOk(w, Alloc(w.h).1.value);
  }

  lemma EditKeepsSweepPhase(w: World, s: Step)
    requires w.Shaped() && Enabled(w, s) && IsEdit(s) && SweepPhase(w.Phase(s.t))
    requires !s.SweepGet? && !s.SweepFinish? && !s.SweepDrop?
    ensures EditOf(w, s).0.phase == w.Phase(s.t)
  {}

  lemma OthersKeepLeaving(w: World, s: Step, t: nat)
    requires Inv(w) && Enabled(w, s) && t < |w.books| && w.books[t].leaving > 0
    requires !(s.Leave? && s.t == t && w.books[t].leaving == 1)
    ensures t < |Apply(w, s).books| && Apply(w, s).books[t].leaving > 0
  {
    hide LedgerOk, GensOk, QueuesOk, SlotsOk, EditOf, Apply;
    if IsEdit(s) {
      EditApplied(w, s);
      if s.t == t { EditKeepsLeaving(w, s); }
    } else {
      QueueStepKeepsLeaving(w, s, t);
    }
  }

  lemma EditKeepsLeaving(w: World, s: Step)
    requires w.Shaped() && Enabled(w, s) && IsEdit(s) && w.books[s.t].leaving > 0
    requires s.Leave? ==> w.books[s.t].leaving > 1
    ensures EditOf(w, s).0.leaving > 0
  {}

  lemma QueueStepKeepsLeaving(w: World, s: Step, t: nat)
    requires w.Shaped() && SlotsOk(w) && Enabled(w, s) && !IsEdit(s) && t < |w.books| && w.books[t].leaving > 0
    ensures t < |Apply(w, s).books| && Apply(w, s).books[t].leaving > 0
  {
    hide EditOf, FirstFree, TakeOff, GetBatch, StartOne, Enqueue, SetStat, Ids, IdOf;
    assert SlotOk(w, t);
    if s.AllocStep? { assert SlotOk(w, Alloc(w.h).1.value); }
  }

  lemma NextOk(j: Joint, m: Move)
    requires SweepOk(j) && Allowed(j, m)
    ensures SweepOk(Next(j, m))
  {
    match m
    case Other(s) =>
      StepKeeps(j.w, s);
      if j.sw.Holding? { OthersKeepSweepPhase(j.w, s, j.sw.t); }
      if j.sw.Putting? { OthersKeepLeaving(j.w, s, j.sw.t); }
    case Own(outcome) =>
      OwnEnabled(j, outcome);
      if OwnStep(j, outcome).Some? {
        StepKeeps(j.w, OwnStep(j, outcome).value);
        if j.sw.Scan? { HeadInRange(j.w.h, Queue(j.sw.k)); }
      }
  }

  ghost predicate SweepRun(j: Joint, moves: seq<Move>, last: Joint)
    decreases |moves|
  {
    if moves == [] then j == last
    else SweepShaped(j) && Allowed(j, moves[0]) && SweepRun(Next(j, moves[0]), moves[1..], last)
  }

  // ----- Nothing queued at the start is missed -----

  ghost predicate Covered(j: Joint, x: nat) {
    x in j.w.accepted && Passed(j.w.h, x, j.sw.k)
  }

  lemma NextCovers(j: Joint, m: Move, x: nat)
    requires SweepOk(j) && Allowed(j, m) && Covered(j, x)
    ensures Covered(Next(j, m), x)
  {
    hide SlotsOk, QueuesOk, GensOk, LedgerOk, Apply, Enabled, On, SweepPhase;
    match m
    case Other(s) => PassedStays(j.w, s, x, j.sw.k);
    case Own(outcome) =>
      OwnEnabled(j, outcome);
      if OwnStep(j, outcome).Some? { PassedStays(j.w, OwnStep(j, outcome).value, x, j.sw.k); }
      else { EmptyIsPassed(j, x); }
  }

  lemma EmptyIsPassed(j: Joint, x: nat)
    requires j.sw.Scan? && j.sw.k < 3 && QueueOf(j.w.h, Queue(j.sw.k)) == [] && Passed(j.w.h, x, j.sw.k)
    ensures Passed(j.w.h, x, j.sw.k + 1)
  {}

  /** What the sweep took it has completed, but for the one in its hands. */
  ghost predicate MineOk(j: Joint) {
    forall x :: x in j.mine ==>
      || x in Completed(j.w.h)
      || (j.sw.Holding? && j.sw.t < |j.w.books| == |j.w.h.slots| && !j.w.Phase(j.sw.t).SweepDone?
          && j.w.h.slots[j.sw.t].scsiCmd == Some(x))
  }

  lemma CompletedStay(w: World, s: Step)
    requires w.Shaped() && Enabled(w, s)
    ensures forall x :: x in Completed(w.h) ==> x in Completed(Apply(w, s).h)
  {
    DoneGrows(w, s);
    var a, b := Completed(w.h), Completed(Apply(w, s).h);
    assert forall i :: 0 <= i < |a| ==> b[i] == a[i];
  }

  lemma DoneGrows(w: World, s: Step)
    requires w.Shaped() && Enabled(w, s)
    ensures w.h.done <= Apply(w, s).h.done
  {
    hide EditOf, Remove, GetBatch, SetStats, IdOf, Alloc, DoAlloc, Take, Apply, Enabled;
    if IsEdit(s) {
      EditApplied(w, s);
    } else {
      QueueStepCompletesNone(w, s);
    }
  }

  lemma QueueStepCompletesNone(w: World, s: Step)
    requires w.Shaped() && Enabled(w, s) && !IsEdit(s)
    ensures Apply(w, s).h.done == w.h.done
  {
    hide EditOf, FirstFree, Remove, Reverse, Batch, SetStats, IdOf;
    assert w.h.done + [] == w.h.done;
  }

  lemma NextMine(j: Joint, m: Move)
    requires SweepOk(j) && Allowed(j, m) && MineOk(j)
    ensures MineOk(Next(j, m))
  {
    hide Completed, Apply, Enabled, SlotsOk, QueuesOk, GensOk, LedgerOk;
    NextOk(j, m);
    match m
    case Other(s) =>
      CompletedStay(j.w, s);
      if j.sw.Holding? { OthersKeepSweepPhase(j.w, s, j.sw.t); }
    case Own(outcome) =>
      OwnEnabled(j, outcome);
      if OwnStep(j, outcome).Some? {
        CompletedStay(j.w, OwnStep(j, outcome).value);
        if j.sw.Scan? { TakenIsMine(j, outcome); }
        if j.sw.Holding? { CallbackCompletes(j, outcome); }
      }
  }

  lemma TakenIsMine(j: Joint, outcome: Outcome)
    requires SweepOk(j) && j.sw.Scan? && j.sw != Scan(3) && OwnStep(j, outcome).Some?
    ensures Enabled(j.w, OwnStep(j, outcome).value)
    ensures var t := QueueOf(j.w.h, Queue(j.sw.k))[0];
      var v := Apply(j.w, OwnStep(j, outcome).value);
      t < |v.books| == |v.h.slots| && v.Phase(t).SweepTaken? && v.h.slots[t].scsiCmd == Some(IdOf(j.w.h, t))
  {
    hide Remove, LedgerOk, GensOk;
    OwnEnabled(j, outcome);
    HeadInRange(j.w.h, Queue(j.sw.k));
    assert SlotOk(j.w, QueueOf(j.w.h, Queue(j.sw.k))[0]);
  }

  lemma CallbackCompletes(j: Joint, outcome: Outcome)
    requires SweepOk(j) && j.sw.Holding?
    ensures Enabled(j.w, OwnStep(j, outcome).value)
    ensures var t := j.sw.t;
      var v := Apply(j.w, OwnStep(j, outcome).value);
      && t < |v.books| == |v.h.slots| && v.h.slots[t].scsiCmd == j.w.h.slots[t].scsiCmd
      && j.w.h.slots[t].scsiCmd.Some?
      && (v.Phase(t).SweepHeld? || j.w.Sc(t) in Completed(v.h) || !j.w.Phase(t).SweepHeld?)
      && (j.w.Phase(t).SweepTaken? ==> v.Phase(t).SweepHeld?)
  {
    hide LedgerOk, GensOk, QueuesOk;
    OwnEnabled(j, outcome);
    var t := j.sw.t;
    assert SlotOk(j.w, t);
    if j.w.Phase(t).SweepHeld? {
      var v := Apply(j.w, SweepFinish(t, outcome));
      assert Completed(v.h)[|j.w.h.done|] == j.w.Sc(t);
    }
  }

  lemma {:induction false} RunCovers(j: Joint, moves: seq<Move>, last: Joint, x: nat)
    requires SweepOk(j) && SweepRun(j, moves, last) && Covered(j, x) && MineOk(j)
    ensures SweepOk(last) && Covered(last, x) && MineOk(last)
    decreases |moves|
  {
    hide Covered, MineOk, SweepOk, Next, Allowed;
    if moves != [] {
      NextOk(j, moves[0]);
      NextCovers(j, moves[0], x);
      NextMine(j, moves[0]);
      RunCovers(Next(j, moves[0]), moves[1..], last, x);
    }
  }

  /** When a sweep is over, all it took has been completed. */
  lemma SweptIsCompleted(w: World, moves: seq<Move>, last: Joint)
    requires Inv(w) && SweepRun(Joint(w, Scan(0), {}), moves, last) && last.sw == Scan(3)
    ensures forall y :: y in last.mine ==> y in Completed(last.w.h)
  {
    RunMine(Joint(w, Scan(0), {}), moves, last);
  }

  lemma {:induction false} RunMine(j: Joint, moves: seq<Move>, last: Joint)
    requires SweepOk(j) && SweepRun(j, moves, last) && MineOk(j)
    ensures SweepOk(last) && MineOk(last)
    decreases |moves|
  {
    hide MineOk, SweepOk, Next, Allowed;
    if moves != [] {
      NextOk(j, moves[0]);
      NextMine(j, moves[0]);
      RunMine(Next(j, moves[0]), moves[1..], last);
    }
  }

  /** Whatever else runs meanwhile, a request queued when the sweep starts is on no queue when it ends:
      it has been completed, or the one path that took it is about to complete it; what the sweep
      itself took has been completed. */
  lemma SweepMissesNothing(w: World, moves: seq<Move>, last: Joint, x: nat)
    requires Inv(w) && IsQueued(w, x) && SweepRun(Joint(w, Scan(0), {}), moves, last) && last.sw == Scan(3)
    ensures Inv(last.w) && !IsQueued(last.w, x)
    ensures x in Completed(last.w.h) || IsDoomed(last.w, x)
    ensures forall y :: y in last.mine ==> y in Completed(last.w.h)
  {
    var t :| 0 <= t < |w.books| && w.h.Listed(t) && w.h.slots[t].scsiCmd == Some(x);
    assert SlotOk(w, t) && OwedOk(w, t);
    RunCovers(Joint(w, Scan(0), {}), moves, last, x);
    OffAllQueues(last.w, x);
  }

  lemma OffAllQueues(w: World, x: nat)
    requires Inv(w) && Passed(w.h, x, 3)
    ensures !IsQueued(w, x)
    ensures x in w.accepted ==> x in Completed(w.h) || IsDoomed(w, x)
  {
    forall t | 0 <= t < |w.books| && w.h.Listed(t) ensures w.h.slots[t].scsiCmd != Some(x) {
      assert !On(w.h, w.h.reqQ, x) && !On(w.h, w.h.cmpQ, x) && !On(w.h, w.h.rspQ, x);
    }
    if x in w.accepted && x !in Completed(w.h) {
      assert AccountedFor(w, x);
      assert SlotOk(w, w.home[x]);
    }
  }

  // ----- With no new arrivals -----

  predicate IsArrival(m: Move) { m.Other? && m.s.Submit? }

  /** `io_running` moves with the queues: up on a submission, down on a removal. */
  lemma RunningChanges(w: World, s: Step)
    requires Inv(w) && Enabled(w, s) && !s.Submit?
    ensures Apply(w, s).h.ioRunning <= w.h.ioRunning && Apply(w, s).accepted == w.accepted
    ensures s.TakeStep? ==> Apply(w, s).h.ioRunning == w.h.ioRunning - 1
  {
    hide EditOf, FirstFree, Remove, GetBatch, StartOne, SlotsOk, GensOk, LedgerOk, Apply, Enabled;
    SomeRuns(w.h);
    if IsEdit(s) { EditApplied(w, s); } else { QueueRunningChanges(w, s); }
  }

  lemma SomeRuns(h: Host)
    requires QueuesOk(h)
    ensures forall t: nat :: h.Listed(t) ==> h.ioRunning > 0
    ensures forall q :: QueueOf(h, q) != [] ==> h.ioRunning > 0
  {}

  lemma QueueRunningChanges(w: World, s: Step)
    requires w.Shaped() && Enabled(w, s) && !IsEdit(s) && !s.Submit?
    requires forall t: nat :: w.h.Listed(t) ==> w.h.ioRunning > 0
    requires forall q :: QueueOf(w.h, q) != [] ==> w.h.ioRunning > 0
    ensures Apply(w, s).h.ioRunning <= w.h.ioRunning && Apply(w, s).accepted == w.accepted
    ensures s.TakeStep? ==> Apply(w, s).h.ioRunning == w.h.ioRunning - 1
  {
    hide EditOf, FirstFree, Remove, Batch, SetStats, IdOf, Ids;
  }

  /** How many moves the sweep can still make if nothing arrives. */
  ghost function Rank(j: Joint): nat
    requires SweepOk(j)
  {
    6 * j.w.h.ioRunning + (3 - j.sw.k) + match j.sw
      case Scan(_) => 0
      case Putting(_, _) => 1
      case Holding(_, t) => var p := j.w.Phase(t); if p.SweepTaken? then 4 else if p.SweepHeld? then 3 else 2
  }

  lemma OwnMoveDescends(j: Joint, outcome: Outcome)
    requires SweepOk(j) && j.sw != Scan(3)
    ensures Allowed(j, Own(outcome)) && SweepOk(Next(j, Own(outcome))) && Rank(Next(j, Own(outcome))) < Rank(j)
  {
    hide LedgerOk, GensOk, QueuesOk, SlotsOk, Remove;
    OwnEnabled(j, outcome);
    NextOk(j, Own(outcome));
    if OwnStep(j, outcome).Some? { RunningChanges(j.w, OwnStep(j, outcome).value); }
  }

  lemma OtherMoveKeepsRank(j: Joint, s: Step)
    requires SweepOk(j) && Allowed(j, Other(s)) && !s.Submit?
    ensures SweepOk(Next(j, Other(s))) && Rank(Next(j, Other(s))) <= Rank(j)
  {
    hide LedgerOk, GensOk, QueuesOk, SlotsOk, Apply, Enabled;
    NextOk(j, Other(s));
    RunningChanges(j.w, s);
    if j.sw.Holding? { OthersKeepSweepPhase(j.w, s, j.sw.t); }
  }

  function OwnMoves(moves: seq<Move>): nat {
    if moves == [] then 0 else OwnMoves(moves[1..]) + if moves[0].Own? then 1 else 0
  }

  /** The sweep is over after at most `Rank` moves of its own, however many the others make. */
  lemma {:induction false} SweepTerminates(j: Joint, moves: seq<Move>, last: Joint)
    requires SweepOk(j) && SweepRun(j, moves, last) && forall i :: 0 <= i < |moves| ==> !IsArrival(moves[i])
    ensures SweepOk(last) && OwnMoves(moves) + Rank(last) <= Rank(j)
    decreases |moves|
  {
    hide SweepOk, Next, Allowed, Rank;
    if moves != [] {
      match moves[0] {
        case Own(outcome) => MovesOn(j, outcome); OwnMoveDescends(j, outcome);
        case Other(s) => assert !IsArrival(moves[0]); OtherMoveKeepsRank(j, s);
      }
      SweepTerminates(Next(j, moves[0]), moves[1..], last);
    }
  }

  lemma MovesOn(j: Joint, outcome: Outcome)
    requires SweepOk(j) && Allowed(j, Own(outcome))
    ensures j.sw != Scan(3)
  {}

  lemma {:induction false} AcceptedSame(j: Joint, moves: seq<Move>, last: Joint)
    requires SweepOk(j) && SweepRun(j, moves, last) && forall i :: 0 <= i < |moves| ==> !IsArrival(moves[i])
    ensures last.w.accepted == j.w.accepted
    decreases |moves|
  {
    hide Apply, Enabled, LedgerOk, GensOk, QueuesOk, SlotsOk;
    if moves != [] {
      NextOk(j, moves[0]);
      assert !IsArrival(moves[0]);
      match moves[0] {
        case Own(outcome) =>
          OwnEnabled(j, outcome);
          if OwnStep(j, outcome).Some? { RunningChanges(j.w, OwnStep(j, outcome).value); }
        case Other(s) => RunningChanges(j.w, s);
      }
      AcceptedSame(Next(j, moves[0]), moves[1..], last);
    }
  }

  /** If nothing arrives, the sweep leaves all three queues empty and `io_running` at 0. */
  lemma QuietSweepEmpties(w: World, moves: seq<Move>, last: Joint)
    requires Inv(w) && SweepRun(Joint(w, Scan(0), {}), moves, last) && last.sw == Scan(3)
    requires forall i :: 0 <= i < |moves| ==> !IsArrival(moves[i])
    ensures last.w.h.reqQ == last.w.h.cmpQ == last.w.h.rspQ == [] && last.w.h.ioRunning == 0
  {
    var j := Joint(w, Scan(0), {});
    SweepTerminates(j, moves, last);
    AcceptedSame(j, moves, last);
    forall x | x in w.accepted ensures Passed(last.w.h, x, 3) {
      RunCovers(j, moves, last, x);
    }
    NothingListed(last.w);
  }

  lemma NothingListed(w: World)
    requires Inv(w) && forall x :: x in w.accepted ==> Passed(w.h, x, 3)
    ensures w.h.reqQ == w.h.cmpQ == w.h.rspQ == [] && w.h.ioRunning == 0
  {
    forall t: nat ensures !w.h.Listed(t) {
      if w.h.Listed(t) {
        assert SlotOk(w, t) && OwedOk(w, t);
        OffAllQueues(w, w.Sc(t));
      }
    }
    forall q: QueueName ensures QueueOf(w.h, q) == [] {
      if QueueOf(w.h, q) != [] { HeadInRange(w.h, q); }
    }
    assert QueueOf(w.h, REQQ) == QueueOf(w.h, COMQ) == QueueOf(w.h, RSPQ) == [];
  }
}
