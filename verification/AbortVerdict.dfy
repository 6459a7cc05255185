/** What success of the abort handler is worth: exactly when its command is completed on return. */
module AbortVerdict {
  import opened Seqs
  import opened HostState
  import opened Lifecycle
  import opened CommandSafety
  import opened AbortRace

  // ----- The command was found on a queue -----

  /** Found under the lock, in the handler's own guard: in every continuation, once the handler has let go of the slot,
      the command has been completed with DID_ABORT. */
  lemma FoundIsAborted(w0: World, before: seq<Step>, w: World, t: nat, sc: nat, after: seq<Step>, last: World)
    requires Reachable(w0, before, w) && w.Shaped() && Enabled(w, AbortDecide(t, sc)) && w.h.Listed(t)
    requires Run(Apply(w, AbortDecide(t, sc)), after, last) && !AbortHolds(last, t, sc)
    ensures Completion(sc, ABORTED) in last.h.done
  {
    hide Run, AbortHolds, SlotsOk, QueuesOk, GensOk, LedgerOk;
    ReachableInv(w0, before, w);
    FoundIsHeld(w, t, sc);
    StepKeeps(w, AbortDecide(t, sc));
    HandlerCompletes(Apply(w, AbortDecide(t, sc)), after, last, t, sc);
  }

  lemma FoundIsHeld(w: World, t: nat, sc: nat)
    requires Inv(w) && Enabled(w, AbortDecide(t, sc)) && w.h.Listed(t)
    ensures AbortHolds(Apply(w, AbortDecide(t, sc)), t, sc)
  {}

  // ----- It was not -----

  /** The same host as far as the driver can tell: all that its records hold, and the same handlers at the slot. Only
      the mid-layer's record of completions may differ. */
  ghost predicate SameDriver(w: World, v: World, t: nat) {
    && w.Shaped() && v.Shaped() && t < |w.books| == |v.books|
    && v.h == w.h.(done := v.h.done)
    && v.books[t].waiting == w.books[t].waiting && v.books[t].leaving == w.books[t].leaving
  }

  /** `p` is the phase just before the call of `scsi_done` that leads to `q`. */
  predicate LeadsTo(p: Phase, q: Phase) { (p.RespTaken? && q.RespDone?) || (p.SweepHeld? && q.SweepDone?) }

  /** `v` is `w` with the completion of slot `t`'s command still to come. */
  ghost predicate Undone(w: World, v: World, t: nat) {
    && w.Shaped() && v.Shaped() && t < |w.books| == |v.books| && LeadsTo(v.books[t].phase, w.books[t].phase)
    && v == w.(h := w.h.(done := v.h.done), books := w.books[t := w.books[t].(phase := v.books[t].phase)])
  }

  /** The completion can be put off: what `w` can do next, `v` can do too. */
  lemma PutOff(w: World, v: World, s: Step, t: nat)
    requires Inv(w) && Undone(w, v, t) && Enabled(w, s)
    requires !((s.RespPut? || s.SweepDrop?) && s.t == t)
    ensures Enabled(v, s) && Undone(Apply(w, s), Apply(v, s), t)
  {
    hide SlotsOk, GensOk, LedgerOk, QueuesOk, EditOf, Apply, Edit;
    if IsEdit(s) {
      PutOffEdit(w, v, s, t);
      EditApplied(w, s);
      EditApplied(v, s);
      var (b, op, finished) := EditOf(w, s);
      EditBoth(w, v, t, s.t, b, EditOf(v, s).0, op, finished);
    } else {
      PutOffQueueStep(w, v, s, t);
    }
  }

  lemma EditBoth(w: World, v: World, t: nat, u: nat, b: Book, c: Book, op: RefOp, finished: seq<Completion>)
    requires Undone(w, v, t) && u < |w.books|
    requires c == (if u == t then b.(phase := v.books[t].phase) else b) && (u == t ==> b.phase == w.books[t].phase)
    ensures Undone(Edit(w, u, b, op, finished), Edit(v, u, c, op, finished), t)
  {}

  lemma PutOffEdit(w: World, v: World, s: Step, t: nat)
    requires w.Shaped() && Undone(w, v, t) && Enabled(w, s) && IsEdit(s)
    requires !((s.RespPut? || s.SweepDrop?) && s.t == t)
    ensures Enabled(v, s)
    ensures var (b, op, finished) := EditOf(w, s);
      EditOf(v, s) == (if s.t == t then b.(phase := v.books[t].phase) else b, op, finished)
      && (s.t == t ==> b.phase == w.books[t].phase)
  {}

  /** No region under the lock looks at the mid-layer's record. */
  lemma DoneAside(h: Host, d: seq<Completion>)
    ensures Alloc(h.(done := d)) == (Alloc(h).0.(done := d), Alloc(h).1)
    ensures forall t: nat :: TakeOff(h.(done := d), t) == TakeOff(h, t).(done := d)
    ensures forall fault :: GetBatch(h.(done := d), fault) == GetBatch(h, fault).(done := d)
    ensures forall q :: Ids(h.(done := d), q) == Ids(h, q)
  {
    hide FirstFree, Remove, Reverse, SetStats;
  }

  lemma TakeBoth(w: World, v: World, t: nat, u: nat, b: Book)
    requires Undone(w, v, t) && u < |w.books| && u != t
    ensures Undone(Take(w, u, b), Take(v, u, b), t)
  {
    hide Remove;
    DoneAside(w.h, v.h.done);
  }

  lemma AllocBoth(w: World, v: World, t: nat)
    requires Undone(w, v, t) && SlotsOk(w) && Alloc(w.h).1.Some?
    ensures Alloc(v.h).1.Some? && Undone(DoAlloc(w), DoAlloc(v), t)
  {
    assert SlotOk(w, t) && SlotOk(w, Alloc(w.h).1.value);
    DoneAside(w.h, v.h.done);
    hide FirstFree;
  }

  lemma GetBoth(w: World, v: World, fault: bool, t: nat)
    requires Undone(w, v, t)
    ensures Undone(DoGet(w, fault), DoGet(v, fault), t)
  {
    hide Reverse, SetStats, IdOf, Ids;
    DoneAside(w.h, v.h.done);
  }

  lemma MoveBoth(w: World, v: World, s: Step, t: nat)
    requires Undone(w, v, t) && Enabled(w, s) && (s.Submit? || s.StartStep?)
    requires s.Submit? ==> s.t != t
    ensures Enabled(v, s) && Undone(Apply(w, s), Apply(v, s), t)
  {}

  lemma FoundBoth(w: World, v: World, t: nat, u: nat, sc: nat)
    requires Undone(w, v, t) && Enabled(w, AbortDecide(u, sc)) && w.h.Listed(u) && u != t
    ensures Enabled(v, AbortDecide(u, sc)) && Undone(Apply(w, AbortDecide(u, sc)), Apply(v, AbortDecide(u, sc)), t)
  {
    var b := w.books[u].(waiting := w.books[u].waiting - multiset{sc});
    TakeBoth(w, v, t, u, b.(phase := AbortTaken(sc)));
    hide Take, Edit;
  }

  function LateBook(b: Book, sc: nat): Book { b.(waiting := b.waiting - multiset{sc}, leaving := b.leaving + 1) }

  lemma LateApply(w: World, u: nat, sc: nat)
    requires w.Shaped() && Enabled(w, AbortDecide(u, sc)) && !w.h.Listed(u)
    ensures Apply(w, AbortDecide(u, sc)) == Edit(w, u, LateBook(w.books[u], sc), KEEP, [])
  {}

  lemma LateBoth(w: World, v: World, t: nat, u: nat, sc: nat)
    requires Undone(w, v, t) && Enabled(w, AbortDecide(u, sc)) && !w.h.Listed(u)
    ensures Enabled(v, AbortDecide(u, sc)) && Undone(Apply(w, AbortDecide(u, sc)), Apply(v, AbortDecide(u, sc)), t)
  {
    hide Apply, Edit;
    LateApply(w, u, sc);
    LateApply(v, u, sc);
    EditBoth(w, v, t, u, LateBook(w.books[u], sc), LateBook(v.books[u], sc), KEEP, []);
  }

  lemma PutOffQueueStep(w: World, v: World, s: Step, t: nat)
    requires Inv(w) && Undone(w, v, t) && Enabled(w, s) && !IsEdit(s)
    ensures Enabled(v, s) && Undone(Apply(w, s), Apply(v, s), t)
  {
    hide GensOk, LedgerOk, SlotsOk, QueuesOk, Take, Edit, DoAlloc, EditOf, Alloc;
    SlotAt(w, t);
    match s
    case AllocStep => AllocBoth(w, v, t);
    case Respond(tag, sn, outcome) =>
      if Addressed(w.h, tag, sn) { RespondBoth(w, v, t, tag, outcome); }
    case TakeStep(q) =>
      HeadOf(w, q);
      TakeBoth(w, v, t, QueueOf(w.h, q)[0], w.books[QueueOf(w.h, q)[0]].(phase := SweepTaken));
    case AbortDecide(u, sc) =>
      if w.h.Listed(u) { FoundBoth(w, v, t, u, sc); } else { LateBoth(w, v, t, u, sc); }
    case GetStep(fault) => GetBoth(w, v, fault, t);
    case _ => MoveBoth(w, v, s, t);
  }

  lemma SlotAt(w: World, t: nat)
    requires Inv(w) && t < |w.books| && (w.Phase(t).RespDone? || w.Phase(t).SweepDone?)
    ensures !w.h.Listed(t)
  {
    assert SlotOk(w, t);
  }

  lemma HeadOf(w: World, q: QueueName)
    requires Inv(w) && QueueOf(w.h, q) != []
    ensures QueueOf(w.h, q)[0] < |w.books| && w.h.Listed(QueueOf(w.h, q)[0])
  {
    HeadInRange(w.h, q);
  }

  lemma RespondBoth(w: World, v: World, t: nat, u: nat, outcome: Outcome)
    requires Undone(w, v, t) && u < |w.books| && u != t
    ensures Undone(DoRespond(w, u, outcome), DoRespond(v, u, outcome), t)
  {
    TakeBoth(w, v, t, u, w.books[u].(phase := RespTaken(outcome)));
    hide Take;
  }

  lemma LastStep(w: World, steps: seq<Step>, last: World) returns (m: World)
    requires steps != [] && Run(w, steps, last)
    ensures m.Shaped() && Run(w, steps[..|steps| - 1], m)
    ensures Enabled(m, steps[|steps| - 1]) && last == Apply(m, steps[|steps| - 1])
    decreases |steps|
  {
    hide Apply, Enabled;
    if |steps| == 1 {
      m := w;
      assert steps[1..] == [];
    } else {
      m := LastStep(Apply(w, steps[0]), steps[1..], last);
      assert steps[..|steps| - 1][1..] == steps[1..][..|steps| - 2];
    }
  }

  lemma OneMore(w: World, steps: seq<Step>, m: World, s: Step)
    requires Run(w, steps, m) && m.Shaped() && Enabled(m, s)
    ensures Run(w, steps + [s], Apply(m, s))
  {
    hide Apply, Enabled;
    assert Run(Apply(m, s), [], Apply(m, s));
    RunCons(m, s, [], Apply(m, s));
    assert [s] + [] == [s];
    RunJoins(w, steps, m, [s], Apply(m, s));
  }

  predicate JustCompleted(p: Phase) { p.RespDone? || p.SweepDone? }

  /** A slot comes to have its command just completed by that very completion only. */
  lemma CompletingStep(m: World, s: Step, t: nat)
    requires Inv(m) && Enabled(m, s) && t < |m.books| == |Apply(m, s).books|
    requires JustCompleted(Apply(m, s).Phase(t)) && !JustCompleted(m.Phase(t))
    ensures Undone(Apply(m, s), m, t)
  {
    hide SlotsOk, QueuesOk, GensOk, LedgerOk, Apply, EditOf;
    StepKeeps(m, s);
    if IsEdit(s) {
      EditApplied(m, s);
      CompletingEdit(m, s, t);
    } else {
      QueueStepCompletesNothing(m, s, t);
    }
  }

  lemma CompletingEdit(m: World, s: Step, t: nat)
    requires m.Shaped() && Enabled(m, s) && IsEdit(s) && t < |m.books| && !JustCompleted(m.Phase(t))
    ensures var (b, op, finished) := EditOf(m, s);
      s.t == t && JustCompleted(b.phase) ==>
        op == KEEP && LeadsTo(m.books[t].phase, b.phase) && m.books[t].(phase := b.phase) == b
  {}

  lemma QueueStepCompletesNothing(m: World, s: Step, t: nat)
    requires m.Shaped() && Enabled(m, s) && !IsEdit(s) && t < |m.books| == |Apply(m, s).books|
    requires !JustCompleted(m.Phase(t))
    ensures !JustCompleted(Apply(m, s).Phase(t))
  {
    hide EditOf, FirstFree, TakeOff, GetBatch, StartOne, Enqueue, SetStat, Ids, IdOf;
  }

  /** Whatever run led to a just completed command, another run leads to the same driver with the completion
      still to come. */
  lemma {:induction false} Unfinished(w0: World, steps: seq<Step>, w: World, t: nat)
    returns (others: seq<Step>, v: World)
    requires Reachable(w0, steps, w) && t < |w.books| && JustCompleted(w.books[t].phase)
    ensures Reachable(w0, others, v) && Undone(w, v, t)
    decreases |steps|
  {
    if steps == [] {
      assert false;
    } else {
      var m := LastStep(w0, steps, w);
      var before, s := steps[..|steps| - 1], steps[|steps| - 1];
      hide Run, Apply, Enabled, SlotsOk, QueuesOk, GensOk, LedgerOk;
      ReachableInv(w0, before, m);
      StepKeeps(m, s);
      ShapeStays(m, s);
      if JustCompleted(m.books[t].phase) {
        var less, u := Unfinished(w0, before, m, t);
        StillThere(m, s, t);
        PutOff(m, u, s, t);
        OneMore(w0, less, u, s);
        others, v := less + [s], Apply(u, s);
      } else {
        CompletingStep(m, s, t);
        others, v := before, m;
      }
    }
  }

  /** The put that ends the phase did not happen. */
  lemma StillThere(m: World, s: Step, t: nat)
    requires m.Shaped() && Enabled(m, s) && t < |m.books| == |Apply(m, s).books| && JustCompleted(Apply(m, s).Phase(t))
    ensures !((s.RespPut? || s.SweepDrop?) && s.t == t)
  {}

  /** For a command the handler did not find on a queue: the driver's state settles that it is completed if and only if
      nobody but error handlers holds the slot. While anybody else does, there is a run to the very same state of the
      driver in which the command is not completed when the handler returns success. */
  lemma SettledIff(w0: World, before: seq<Step>, w: World, t: nat, sc: nat)
    requires Reachable(w0, before, w) && w.Shaped() && Enabled(w, AbortDecide(t, sc)) && !w.h.Listed(t)
    ensures OnlyHandlersHold(w, t) <==>
      forall v0, steps, v :: Reachable(v0, steps, v) && SameDriver(w, v, t) ==> sc in Completed(v.h)
  {
    hide Run, SlotsOk, QueuesOk, GensOk, LedgerOk;
    if OnlyHandlersHold(w, t) {
      forall v0, steps, v | Reachable(v0, steps, v) && SameDriver(w, v, t) ensures sc in Completed(v.h) {
        LateAbort(v0, steps, v, t, sc);
      }
    } else {
      ReachableInv(w0, before, w);
      HeldByAnother(w, t, sc);
      if Owes(w.Phase(t)) {
        LateAbort(w0, before, w, t, sc);
        assert SameDriver(w, w, t);
      } else {
        var others, v := Unfinished(w0, before, w, t);
        LateAbort(w0, others, v, t, sc);
        assert SameDriver(w, v, t);
      }
    }
  }

  lemma HeldByAnother(w: World, t: nat, sc: nat)
    requires Inv(w) && Enabled(w, AbortDecide(t, sc)) && !w.h.Listed(t) && !OnlyHandlersHold(w, t)
    ensures Owes(w.Phase(t)) || JustCompleted(w.Phase(t))
  {
    assert SlotOk(w, t);
  }


  // ----- A run in which the handler reports success too early -----

  const EMPTY: Host := Host([Slot(INIT, 0, 0, None)], {}, [], [], [], 0, 0, 0, [])

  const START: World := World(EMPTY, [Book(Idle, multiset{}, 0, 0)], 0, [], map[], [], {}, [])

  const RACE: seq<Step> :=
    [AllocStep, Submit(0, 7), StartStep, GetStep(false), EhEnter(0, 7), Respond(0, 1, Outcome(DID_OK, 0))]

  /** The one slot once command 7 is on its way: its state, its book, and the queues. */
  ghost function Racing(stat: Stat, refcnt: int, b: Book, reqQ: seq<nat>, cmpQ: seq<nat>, rspQ: seq<nat>, qdepth: nat)
    : World
  {
    World(Host([Slot(stat, 1, refcnt, Some(7))], {0}, reqQ, cmpQ, rspQ, qdepth, |reqQ + cmpQ + rspQ|, 1, []),
          [b], 1, [7], map[7 := 0], if rspQ == [] then [] else [7], {}, [])
  }

  const ONQUEUE: Book := Book(Queued, multiset{}, 0, 1)

  lemma Allocated()
    ensures Enabled(START, AllocStep)
    ensures Apply(START, AllocStep) == World(Host([Slot(INIT, 1, 1, None)], {0}, [], [], [], 0, 0, 1, []),
                                             [Book(Submitting, multiset{}, 0, 1)], 1, [], map[], [], {}, [])
  {
    assert Apply(START, AllocStep).h.slots == [Slot(INIT, 1, 1, None)];
  }

  lemma Submitted(last: World, rest: seq<Step>)
    requires Run(Racing(INIT, 1, ONQUEUE, [0], [], [], 1), rest, last)
    ensures Run(START, [AllocStep] + ([Submit(0, 7)] + rest), last)
  {
    Allocated();
    var a := Apply(START, AllocStep);
    var w := Apply(a, Submit(0, 7));
    assert w.h.slots == [Slot(INIT, 1, 1, Some(7))];
    assert w == Racing(INIT, 1, ONQUEUE, [0], [], [], 1);
    hide Apply;
    RunCons(a, Submit(0, 7), rest, last);
    RunCons(START, AllocStep, [Submit(0, 7)] + rest, last);
  }

  lemma Started(last: World, rest: seq<Step>)
    requires Run(Racing(REQUEST, 1, ONQUEUE, [], [0], [], 0), rest, last)
    ensures Run(Racing(INIT, 1, ONQUEUE, [0], [], [], 1), [StartStep] + rest, last)
  {
    var a := Racing(INIT, 1, ONQUEUE, [0], [], [], 1);
    assert Apply(a, StartStep) == Racing(REQUEST, 1, ONQUEUE, [], [0], [], 0);
    RunCons(a, StartStep, rest, last);
  }

  lemma BatchOfOne(w: World)
    requires w == Racing(REQUEST, 1, ONQUEUE, [], [0], [], 0)
    ensures DoGet(w, false) == Racing(READ_COMP, 1, ONQUEUE, [], [], [0], 0)
  {
    assert Batch(w.h) == [0] && Ids(w.h, [0]) == [7];
    assert GetBatch(w.h, false).slots == [Slot(READ_COMP, 1, 1, Some(7))];
  }

  lemma TargetReads(last: World, rest: seq<Step>)
    requires Run(Racing(READ_COMP, 1, ONQUEUE, [], [], [0], 0), rest, last)
    ensures Run(Racing(REQUEST, 1, ONQUEUE, [], [0], [], 0), [GetStep(false)] + rest, last)
  {
    hide Run, DoGet;
    BatchOfOne(Racing(REQUEST, 1, ONQUEUE, [], [0], [], 0));
    RunCons(Racing(REQUEST, 1, ONQUEUE, [], [0], [], 0), GetStep(false), rest, last);
  }

  lemma StartIsInit()
    ensures Init(START)
  {}

  /** Command 7 has been read by the target. */
  lemma CommandRead() returns (steps: seq<Step>, w: World)
    ensures Reachable(START, steps, w) && w == Racing(READ_COMP, 1, ONQUEUE, [], [], [0], 0)
  {
    w := Racing(READ_COMP, 1, ONQUEUE, [], [], [0], 0);
    assert Run(w, [], w);
    StartIsInit();
    hide Run, Racing, Init;
    TargetReads(w, []);
    Started(w, [GetStep(false)] + []);
    Submitted(w, [StartStep] + ([GetStep(false)] + []));
    steps := [AllocStep] + ([Submit(0, 7)] + ([StartStep] + ([GetStep(false)] + [])));
  }

  lemma Entered(last: World, rest: seq<Step>)
    requires Run(Racing(READ_COMP, 2, ONQUEUE.(waiting := multiset{7}), [], [], [0], 0), rest, last)
    ensures Run(Racing(READ_COMP, 1, ONQUEUE, [], [], [0], 0), [EhEnter(0, 7)] + rest, last)
  {
    var a := Racing(READ_COMP, 1, ONQUEUE, [], [], [0], 0);
    var b := Apply(a, EhEnter(0, 7));
    assert b.h.slots == [Slot(READ_COMP, 1, 2, Some(7))];
    assert b.books[0].waiting == multiset{7};
    assert b.books == [ONQUEUE.(waiting := multiset{7})];
    RunCons(a, EhEnter(0, 7), rest, last);
  }

  lemma Responded() returns (a: World, w: World)
    ensures a == Racing(READ_COMP, 2, ONQUEUE.(waiting := multiset{7}), [], [], [0], 0)
    ensures a.Shaped() && Run(a, [Respond(0, 1, Outcome(DID_OK, 0))], w)
    ensures w.Shaped() && Enabled(w, AbortDecide(0, 7)) && !w.h.Listed(0) && 7 in w.accepted
    ensures w.Phase(0).RespTaken? && w.h.slots[0].scsiCmd == Some(7)
  {
    a := Racing(READ_COMP, 2, ONQUEUE.(waiting := multiset{7}), [], [], [0], 0);
    w := Apply(a, Respond(0, 1, Outcome(DID_OK, 0)));
    assert Addressed(a.h, 0, 1);
    assert Run(w, [], w);
    RunCons(a, Respond(0, 1, Outcome(DID_OK, 0)), [], w);
    assert [Respond(0, 1, Outcome(DID_OK, 0))] + [] == [Respond(0, 1, Outcome(DID_OK, 0))];
  }

  /** The target's response takes command 7 off its queue but has not called `scsi_done` yet; the handler then finds
      it on no queue and returns success with the command not completed. */
  lemma SuccessBeforeCompletion() returns (w: World)
    ensures Reachable(START, RACE, w) && w.Shaped() && Enabled(w, AbortDecide(0, 7)) && !w.h.Listed(0)
    ensures 7 in w.accepted && 7 !in Completed(Apply(w, AbortDecide(0, 7)).h)
    ensures w.Phase(0).RespTaken? && w.h.slots[0].scsiCmd == Some(7)
  {
    hide Run, Apply, Racing;
    var a;
    a, w := Responded();
    Entered(w, RACE[5..]);
    TargetReads(w, [RACE[4]] + RACE[5..]);
    Started(w, [RACE[3]] + ([RACE[4]] + RACE[5..]));
    Submitted(w, [RACE[2]] + ([RACE[3]] + ([RACE[4]] + RACE[5..])));
    assert RACE == [RACE[0]] + ([RACE[1]] + ([RACE[2]] + ([RACE[3]] + ([RACE[4]] + RACE[5..]))));
    LateAbort(START, RACE, w, 0, 7);
  }

  /** One more step, the response's `scsi_done`, and the command is completed; the driver's records are the same. */
  lemma EitherOutcome() returns (w: World, v: World)
    ensures Reachable(START, RACE, w) && Reachable(START, RACE + [RespFinish(0)], v) && SameDriver(w, v, 0)
    ensures Enabled(w, AbortDecide(0, 7)) && !w.h.Listed(0) && 7 !in Completed(w.h)
    ensures Enabled(v, AbortDecide(0, 7)) && !v.h.Listed(0) && 7 in Completed(v.h)
  {
    w := SuccessBeforeCompletion();
    hide Run, SlotsOk, QueuesOk, GensOk, LedgerOk;
    LateAbort(START, RACE, w, 0, 7);
    ReachableInv(START, RACE, w);
    v := Apply(w, RespFinish(0));
    OneMore(START, RACE, w, RespFinish(0));
    LateAbort(START, RACE + [RespFinish(0)], v, 0, 7);
  }
}
