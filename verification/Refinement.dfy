/** The calls of the host object are runs of the transition system: a call run alone is the sequence of its own
    lock regions, so what is proved of every run holds of the calls, and the calls are among the runs. */
module Refinement {
  import opened HostState
  import opened Lifecycle
  import opened Calls

  /** A step outside the queues: the reference moved, the completion recorded. */
  lemma EditStep(w: World, s: Step, b: Book, op: RefOp, finished: seq<Completion>)
    requires Inv(w) && Enabled(w, s) && IsEdit(s) && EditOf(w, s) == (b, op, finished)
    ensures Inv(Apply(w, s)) && s.t < |Apply(w, s).books| && Apply(w, s).books[s.t] == b
    ensures Apply(w, s).h == Refs(w.h, s.t, op).(done := w.h.done + finished)
    ensures finished == [] ==> Apply(w, s).h == Refs(w.h, s.t, op)
  {
    hide SlotsOk, QueuesOk, GensOk, LedgerOk, EditOf;
    StepKeeps(w, s);
    assert w.h.done + [] == w.h.done;
  }

  /** A response off its queue, its completion still to come. */
  lemma RespondStep(w: World, r: Rsp, s: Step)
    requires Inv(w) && Accepts(w.h, r) && s == Respond(r.tag, r.cmdSn, OutcomeOf(r))
    ensures r.tag < |TakeOff(w.h, r.tag).slots|
    ensures Inv(Apply(w, s)) && Apply(w, s).h == SetStat(TakeOff(w.h, r.tag), r.tag, RESP)
    ensures r.tag < |Apply(w, s).books| && Apply(w, s).Phase(r.tag) == RespTaken(OutcomeOf(r))
    ensures w.h.slots[r.tag].scsiCmd.Some?
  {
    hide Unlink, QueuesOk, GensOk, LedgerOk;
    assert SlotOk(w, r.tag);
    StepKeeps(w, s);
    TakeOffIs(w.h, r.tag);
  }

  /** An accepted response: taken off its queue, completed, released. */
  lemma ResponseIsSteps(w: World, r: Rsp) returns (steps: seq<Step>, v: World)
    requires Inv(w) && Accepts(w.h, r)
    ensures Run(w, steps, v) && Inv(v) && v.h == Answer(w.h, r)
  {
    hide Unlink, TakeOff, SlotsOk, QueuesOk, GensOk, LedgerOk, Apply;
    var t, s1 := r.tag, Respond(r.tag, r.cmdSn, OutcomeOf(r));
    RespondStep(w, r, s1);
    TakeOffIs(w.h, t);
    var w1 := Apply(w, s1);
    EditStep(w1, RespFinish(t), w1.books[t].(phase := RespDone), KEEP, [CompletionOf(w.h, r)]);
    var w2 := Apply(w1, RespFinish(t));
    EditStep(w2, RespPut(t), w2.books[t].(phase := Idle), PUT, []);
    v := Apply(w2, RespPut(t));
    assert Run(v, [], v);
    RunCons(w2, RespPut(t), [], v);
    RunCons(w1, RespFinish(t), [RespPut(t)] + [], v);
    steps := [s1] + ([RespFinish(t)] + ([RespPut(t)] + []));
    RunCons(w, s1, [RespFinish(t)] + ([RespPut(t)] + []), v);
  }

  /** A batch of responses, up to its first failure. */
  lemma {:induction false} BatchIsSteps(w: World, rs: seq<Rsp>) returns (steps: seq<Step>, v: World)
    requires Inv(w)
    ensures Run(w, steps, v) && Inv(v) && v.h == AnswerAll(w.h, rs).0
    decreases |rs|
  {
    hide Inv, Answer, Addressed;
    if rs == [] || !Accepts(w.h, rs[0]) {
      steps, v := [], w;
    } else {
      var first, m := ResponseIsSteps(w, rs[0]);
      var rest;
      rest, v := BatchIsSteps(m, rs[1..]);
      RunJoins(w, first, m, rest, v);
      steps := first + rest;
    }
  }

  /** The start loop. */
  lemma {:induction false} StartLoopIsSteps(w: World) returns (steps: seq<Step>, v: World)
    requires Inv(w)
    ensures InRange(w.h.reqQ, w.h.Nr()) && Run(w, steps, v) && Inv(v) && v.h == StartAll(w.h)
    decreases |w.h.reqQ|
  {
    HeadsInRange(w.h);
    hide SlotsOk, QueuesOk, GensOk, LedgerOk;
    assert forall i :: 0 <= i < |w.h.reqQ| ==> w.h.Listed(w.h.reqQ[i]);
    if w.h.reqQ == [] {
      steps, v := [], w;
    } else {
      StepKeeps(w, StartStep);
      var rest;
      rest, v := StartLoopIsSteps(Apply(w, StartStep));
      RunCons(w, StartStep, rest, v);
      steps := [StartStep] + rest;
    }
  }

  /** `vsc_scsi_queue_command` on the chosen host, for a request not submitted before. */
  lemma SubmitIsSteps(w: World, sc: nat) returns (steps: seq<Step>, v: World)
    requires Inv(w) && sc !in w.accepted
    ensures InRange(w.h.reqQ, w.h.Nr()) && Run(w, steps, v) && Inv(v) && v.h == SubmitCall(w.h, sc).0
  {
    HeadsInRange(w.h);
    hide SlotsOk, QueuesOk, GensOk, LedgerOk, FirstFree, StartAll;
    assert forall i :: 0 <= i < |w.h.reqQ| ==> w.h.Listed(w.h.reqQ[i]);
    if Alloc(w.h).1.None? {
      steps, v := [], w;
    } else {
      var i := Alloc(w.h).1.value;
      var w1 := Apply(w, AllocStep);
      StepKeeps(w, AllocStep);
      var w2 := Apply(w1, Submit(i, sc));
      StepKeeps(w1, Submit(i, sc));
      var rest;
      rest, v := StartLoopIsSteps(w2);
      RunCons(w1, Submit(i, sc), rest, v);
      RunCons(w, AllocStep, [Submit(i, sc)] + rest, v);
      steps := [AllocStep] + ([Submit(i, sc)] + rest);
    }
  }

  /** One turn of the sweep, but for `Qdepth`, which the transition system leaves out. */
  lemma SweepTurnIsSteps(w: World, q: QueueName, hb: HostByte) returns (steps: seq<Step>, v: World)
    requires Inv(w) && QueueOf(w.h, q) != []
    ensures QueueOf(w.h, q)[0] < w.h.Nr() && Run(w, steps, v) && Inv(v)
    ensures v.h == SweepOne(w.h, q, hb).(qdepth := w.h.qdepth)
  {
    hide Unlink, TakeOff, SlotsOk, QueuesOk, GensOk, LedgerOk, Apply;
    var t, outcome := QueueOf(w.h, q)[0], Outcome(hb, 0);
    TakeStepIs(w, q);
    TakeOffIs(w.h, t);
    var w1 := Apply(w, TakeStep(q));
    EditStep(w1, SweepGet(t), w1.books[t].(phase := SweepHeld), GET, []);
    var w2 := Apply(w1, SweepGet(t));
    var rest;
    rest, v := CallbackIsSteps(w2, t, outcome);
    hide Run;
    RunCons(w1, SweepGet(t), rest, v);
    steps := [TakeStep(q)] + ([SweepGet(t)] + rest);
    RunCons(w, TakeStep(q), [SweepGet(t)] + rest, v);
  }

  /** The callback completes the command, and both references go. */
  lemma CallbackIsSteps(w: World, t: nat, outcome: Outcome) returns (steps: seq<Step>, v: World)
    requires Inv(w) && t < |w.books| && w.Phase(t) == SweepHeld && w.h.slots[t].scsiCmd.Some?
    ensures Run(w, steps, v) && Inv(v)
    ensures var k := Finish(w.h, IdOf(w.h, t), outcome);
      |k.slots| == |PutRef(k, t).slots| == |w.h.slots| && v.h == PutRef(PutRef(k, t), t)
  {
    hide SlotsOk, QueuesOk, GensOk, LedgerOk, Apply, Run;
    EditStep(w, SweepFinish(t, outcome), w.books[t].(phase := SweepDone), KEEP, [Completion(IdOf(w.h, t), outcome)]);
    var rest;
    rest, v := ReleaseIsSteps(Apply(w, SweepFinish(t, outcome)), t);
    steps := [SweepFinish(t, outcome)] + rest;
    RunCons(w, SweepFinish(t, outcome), rest, v);
  }

  /** The last put of a holder. */
  lemma LeaveIsStep(w: World, t: nat) returns (v: World)
    requires Inv(w) && t < |w.books| && w.books[t].leaving > 0
    ensures Run(w, [Leave(t)], v) && Inv(v) && v.h == PutRef(w.h, t)
  {
    hide SlotsOk, QueuesOk, GensOk, LedgerOk, Apply;
    EditStep(w, Leave(t), w.books[t].(leaving := w.books[t].leaving - 1), PUT, []);
    v := Apply(w, Leave(t));
    assert Run(v, [], v);
    RunCons(w, Leave(t), [], v);
  }

  /** The callback's put and the sweep's own. */
  lemma ReleaseIsSteps(w: World, t: nat) returns (steps: seq<Step>, v: World)
    requires Inv(w) && t < |w.books| && w.Phase(t) == SweepDone
    ensures Run(w, steps, v) && Inv(v) && |PutRef(w.h, t).slots| == |w.h.slots| && v.h == PutRef(PutRef(w.h, t), t)
  {
    hide SlotsOk, QueuesOk, GensOk, LedgerOk, Apply, Run;
    EditStep(w, SweepDrop(t), w.books[t].(phase := Idle, leaving := w.books[t].leaving + 1), PUT, []);
    v := LeaveIsStep(Apply(w, SweepDrop(t)), t);
    steps := [SweepDrop(t)] + [Leave(t)];
    RunCons(w, SweepDrop(t), [Leave(t)], v);
  }

  lemma TakeStepIs(w: World, q: QueueName)
    requires Inv(w) && QueueOf(w.h, q) != []
    ensures var t := QueueOf(w.h, q)[0];
      && Enabled(w, TakeStep(q)) && Inv(Apply(w, TakeStep(q))) && t < |w.h.slots| == |Apply(w, TakeStep(q)).books|
      && Apply(w, TakeStep(q)).Phase(t) == SweepTaken && Apply(w, TakeStep(q)).h == TakeOff(w.h, t)
      && w.h.slots[t].scsiCmd.Some?
  {
    hide Unlink, GensOk, LedgerOk;
    HeadInRange(w.h, q);
    hide QueuesOk;
    assert SlotOk(w, QueueOf(w.h, q)[0]);
    StepKeeps(w, TakeStep(q));
  }

  lemma GiveUpIsSteps(w: World, t: nat, sc: nat) returns (v: World)
    requires Inv(w) && Enabled(w, EhGiveUp(t, sc))
    ensures Run(w, [EhGiveUp(t, sc)] + [Leave(t)], v) && Inv(v) && v.h == PutRef(w.h, t)
  {
    hide SlotsOk, QueuesOk, GensOk, LedgerOk, Apply, Run;
    var b := w.books[t].(waiting := w.books[t].waiting - multiset{sc}, leaving := w.books[t].leaving + 1);
    EditStep(w, EhGiveUp(t, sc), b, KEEP, []);
    v := LeaveIsStep(Apply(w, EhGiveUp(t, sc)), t);
    RunCons(w, EhGiveUp(t, sc), [Leave(t)], v);
  }

  /** A command the handler found on a queue: its base reference dropped, completed, the handler's reference dropped. */
  lemma FoundIsSteps(w: World, t: nat, sc: nat) returns (steps: seq<Step>, v: World)
    requires Inv(w) && t < |w.books| && w.Phase(t) == AbortTaken(sc)
    ensures Run(w, steps, v) && Inv(v) && |PutRef(w.h, t).slots| == |w.h.slots|
    ensures v.h == PutRef(Finish(PutRef(w.h, t), sc, Outcome(DID_ABORT, 0)), t)
  {
    hide SlotsOk, QueuesOk, GensOk, LedgerOk, Apply, Run;
    EditStep(w, AbortDrop(t), w.books[t].(phase := AbortPut(sc)), PUT, []);
    var w1 := Apply(w, AbortDrop(t));
    EditStep(w1, AbortFinish(t), w1.books[t].(phase := Idle, leaving := w1.books[t].leaving + 1), KEEP,
             [Completion(sc, Outcome(DID_ABORT, 0))]);
    v := LeaveIsStep(Apply(w1, AbortFinish(t)), t);
    RunCons(w1, AbortFinish(t), [Leave(t)], v);
    steps := [AbortDrop(t)] + ([AbortFinish(t)] + [Leave(t)]);
    RunCons(w, AbortDrop(t), [AbortFinish(t)] + [Leave(t)], v);
  }

  /** What the handler does once the abort is confirmed. */
  ghost function Decided(g: Host, t: nat, sc: nat): Host
    requires t < g.Nr()
  {
    if g.Listed(t) then PutRef(Finish(PutRef(TakeOff(g, t), t), sc, Outcome(DID_ABORT, 0)), t) else PutRef(g, t)
  }

  lemma DecideIsSteps(w: World, t: nat, sc: nat) returns (steps: seq<Step>, v: World)
    requires Inv(w) && Enabled(w, AbortDecide(t, sc))
    ensures Run(w, steps, v) && Inv(v) && v.h == Decided(w.h, t, sc) && w.h.slots[t].scsiCmd == Some(sc)
  {
    hide Unlink, TakeOff, SlotsOk, QueuesOk, GensOk, LedgerOk, Apply, Run, PutRef;
    DecideStep(w, t, sc);
    var w1 := Apply(w, AbortDecide(t, sc));
    var rest;
    if w.h.Listed(t) {
      TakeOffIs(w.h, t);
      rest, v := FoundIsSteps(w1, t, sc);
    } else {
      v := LeaveIsStep(w1, t);
      rest := [Leave(t)];
    }
    steps := [AbortDecide(t, sc)] + rest;
    RunCons(w, AbortDecide(t, sc), rest, v);
  }

  /** The abort handler on a live command: entered, waited, decided. Without an event slot, or with the abort
      refused, it only enters and leaves. */
  lemma AbortIsSteps(w: World, t: nat, sc: nat, slot: bool, confirmed: bool) returns (steps: seq<Step>, v: World)
    requires Inv(w) && w.Shaped() && Enabled(w, EhEnter(t, sc))
    ensures Run(w, steps, v) && Inv(v) && v.h == AbortCall(w.h, t, slot, confirmed)
  {
    hide Unlink, TakeOff, SlotsOk, QueuesOk, GensOk, LedgerOk, Apply, Run, PutRef;
    EditStep(w, EhEnter(t, sc), w.books[t].(waiting := w.books[t].waiting + multiset{sc}), GET, []);
    var w1 := Apply(w, EhEnter(t, sc));
    var rest;
    if slot && confirmed {
      rest, v := DecideIsSteps(w1, t, sc);
    } else {
      v := GiveUpIsSteps(w1, t, sc);
      rest := [EhGiveUp(t, sc)] + [Leave(t)];
    }
    steps := [EhEnter(t, sc)] + rest;
    RunCons(w, EhEnter(t, sc), rest, v);
  }

  lemma DecideStep(w: World, t: nat, sc: nat)
    requires Inv(w) && Enabled(w, AbortDecide(t, sc))
    ensures var v := Apply(w, AbortDecide(t, sc));
      && Inv(v) && t < |v.books| && w.h.slots[t].scsiCmd == Some(sc)
      && (w.h.Listed(t) ==> v.Phase(t) == AbortTaken(sc) && v.h == TakeOff(w.h, t))
      && (!w.h.Listed(t) ==> v.books[t].leaving > 0 && v.h == w.h)
  {
    hide Unlink, QueuesOk, GensOk, LedgerOk;
    assert SlotOk(w, t);
    StepKeeps(w, AbortDecide(t, sc));
    assert w.h.done + [] == w.h.done;
  }
}
