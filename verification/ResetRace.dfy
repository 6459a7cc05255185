/** The sweeps of a device reset, sibling after sibling, with every other path of every sibling running in between. */
module ResetRace {
  import opened HostState
  import opened Lifecycle
  import opened CommandSafety
  import opened Sweep

  /** One host and its sweep per sibling. The handler is at sibling `at`: the sweeps before it are over, those
      after it have not begun. */
  datatype Reset = Reset(js: seq<Joint>, at: nat)

  /** A move of the handler's sweep, its step to the next sibling, or a step of anybody else on any sibling. */
  datatype ResetMove = Sweeping(outcome: Outcome) | Advance | Elsewhere(i: nat, s: Step)

  ghost predicate Shaped(r: Reset) {
    r.at <= |r.js| && forall i :: 0 <= i < |r.js| ==> SweepShaped(r.js[i])
  }

  ghost predicate Enabled(r: Reset, m: ResetMove)
    requires Shaped(r)
  {
    match m
    case Sweeping(outcome) => r.at < |r.js| && Allowed(r.js[r.at], Own(outcome))
    case Advance => r.at < |r.js| && r.js[r.at].sw == Scan(3)
    case Elsewhere(i, s) => i < |r.js| && Allowed(r.js[i], Other(s))
  }

  ghost function Apply(r: Reset, m: ResetMove): Reset
    requires Shaped(r) && Enabled(r, m)
  {
    match m
    case Sweeping(outcome) => r.(js := r.js[r.at := Next(r.js[r.at], Own(outcome))])
    case Advance => r.(at := r.at + 1)
    case Elsewhere(i, s) => r.(js := r.js[i := Next(r.js[i], Other(s))])
  }

  /** The handler is about to sweep the first sibling. */
  ghost predicate Begins(r: Reset) {
    r.at == 0 && forall i :: 0 <= i < |r.js| ==> Lifecycle.Inv(r.js[i].w) && r.js[i].sw == Scan(0) && r.js[i].mine == {}
  }

  ghost predicate Run(r: Reset, moves: seq<ResetMove>, last: Reset)
    decreases |moves|
  {
    if moves == [] then r == last
    else Shaped(r) && Enabled(r, moves[0]) && Run(Apply(r, moves[0]), moves[1..], last)
  }

  predicate IsEnqueue(m: ResetMove) { m.Elsewhere? && m.s.Submit? }

  /** What is known of the siblings at every moment. */
  ghost predicate Ok(r: Reset) {
    && r.at <= |r.js| && (forall i :: 0 <= i < |r.js| ==> SweepOk(r.js[i]))
    && forall i :: 0 <= i < r.at ==> r.js[i].sw == Scan(3)
  }

  lemma MoveKeeps(r: Reset, m: ResetMove)
    requires Ok(r) && Shaped(r) && Enabled(r, m)
    ensures Ok(Apply(r, m)) && |Apply(r, m).js| == |r.js|
  {
    hide SweepOk, Allowed, Next;
    match m
    case Sweeping(outcome) => NextOk(r.js[r.at], Own(outcome)); NotOver(r.js[r.at], outcome);
    case Advance =>
    case Elsewhere(i, s) => NextOk(r.js[i], Other(s)); OthersKeepPlace(r.js[i], s);
  }

  lemma NotOver(j: Joint, outcome: Outcome)
    requires SweepShaped(j) && Allowed(j, Own(outcome))
    ensures j.sw != Scan(3)
  {}

  lemma OthersKeepPlace(j: Joint, s: Step)
    requires SweepShaped(j) && Allowed(j, Other(s))
    ensures Next(j, Other(s)).sw == j.sw
  {}

  /** Seen from one sibling, the run is a run of its own sweep and of the others on that host. */
  lemma {:induction false} Seen(r: Reset, moves: seq<ResetMove>, last: Reset, i: nat) returns (mine: seq<Move>)
    requires Ok(r) && Run(r, moves, last) && i < |r.js|
    ensures Ok(last) && |last.js| == |r.js| && SweepRun(r.js[i], mine, last.js[i])
    ensures (forall k :: 0 <= k < |moves| ==> !IsEnqueue(moves[k])) ==>
      forall k :: 0 <= k < |mine| ==> !IsArrival(mine[k])
    decreases |moves|
  {
    hide SweepOk, Allowed, Next, SweepShaped;
    if moves == [] {
      mine := [];
      assert SweepRun(r.js[i], mine, last.js[i]);
    } else {
      var m := moves[0];
      MoveKeeps(r, m);
      var rest := Seen(Apply(r, m), moves[1..], last, i);
      if m.Sweeping? && i == r.at {
        mine := [Own(m.outcome)] + rest;
      } else if m.Elsewhere? && m.i == i {
        mine := [Other(m.s)] + rest;
      } else {
        mine := rest;
      }
      if mine != rest { assert mine[1..] == rest; }
    }
  }

  predicate IsHandlers(m: ResetMove) { m.Sweeping? || m.Advance? }

  ghost function RankAt(r: Reset): nat
    requires Ok(r)
  {
    if r.at < |r.js| then Rank(r.js[r.at]) else 0
  }

  lemma OkShaped(r: Reset)
    requires Ok(r)
    ensures Shaped(r)
  {
    forall i | 0 <= i < |r.js| ensures SweepShaped(r.js[i]) { assert SweepOk(r.js[i]); }
  }

  /** The handler is never stuck: from wherever it stands its own moves alone bring the reset to its end. */
  lemma {:induction false} ResetCanEnd(r: Reset, outcome: Outcome) returns (moves: seq<ResetMove>, last: Reset)
    requires Ok(r)
    ensures Run(r, moves, last) && last.at == |last.js| && forall k :: 0 <= k < |moves| ==> IsHandlers(moves[k])
    decreases |r.js| - r.at, RankAt(r)
  {
    OkShaped(r);
    hide SweepOk, Allowed, Next, SweepShaped, Rank;
    if r.at == |r.js| {
      moves, last := [], r;
    } else {
      var m := if r.js[r.at].sw == Scan(3) then Advance else Sweeping(outcome);
      if m.Sweeping? { OwnMoveDescends(r.js[r.at], outcome); }
      MoveKeeps(r, m);
      var rest;
      rest, last := ResetCanEnd(Apply(r, m), outcome);
      moves := [m] + rest;
      assert moves[1..] == rest;
    }
  }

  /** Run with everything but enqueues in between, on any sibling and in any order, the reset leaves the queues of every
      sibling empty, `io_running` at 0, and every command its sweeps took completed. */
  lemma QuietResetEmpties(r: Reset, moves: seq<ResetMove>, last: Reset)
    requires Begins(r) && Run(r, moves, last) && last.at == |last.js|
    requires forall k :: 0 <= k < |moves| ==> !IsEnqueue(moves[k])
    ensures |last.js| == |r.js|
    ensures forall i :: 0 <= i < |last.js| ==>
      var h := last.js[i].w.h; h.reqQ == h.cmpQ == h.rspQ == [] && h.ioRunning == 0
    ensures forall i, y :: 0 <= i < |last.js| && y in last.js[i].mine ==> y in Completed(last.js[i].w.h)
  {
    hide Run, SweepRun;
    BeginsOk(r);
    LengthStays(r, moves, last);
    forall i | 0 <= i < |last.js|
      ensures last.js[i].w.h.reqQ == last.js[i].w.h.cmpQ == last.js[i].w.h.rspQ == [] && last.js[i].w.h.ioRunning == 0
      ensures forall y :: y in last.js[i].mine ==> y in Completed(last.js[i].w.h)
    {
      var mine := Seen(r, moves, last, i);
      QuietSweepEmpties(r.js[i].w, mine, last.js[i]);
      SweptIsCompleted(r.js[i].w, mine, last.js[i]);
    }
  }

  lemma BeginsOk(r: Reset)
    requires Begins(r)
    ensures Ok(r) && forall i :: 0 <= i < |r.js| ==> r.js[i] == Joint(r.js[i].w, Scan(0), {})
  {}

  lemma {:induction false} LengthStays(r: Reset, moves: seq<ResetMove>, last: Reset)
    requires Run(r, moves, last)
    ensures |last.js| == |r.js|
    decreases |moves|
  {
    hide SweepShaped, Allowed, Next;
    if moves != [] { LengthStays(Apply(r, moves[0]), moves[1..], last); }
  }

  /** With enqueues too, nothing that was queued on any sibling when the reset began is queued when it ends: it is
      completed, or the one path that took it is about to complete it. */
  lemma ResetMissesNothing(r: Reset, moves: seq<ResetMove>, last: Reset, i: nat, x: nat)
    requires Begins(r) && Run(r, moves, last) && last.at == |last.js|
    requires i < |r.js| && r.js[i].w.Shaped() && IsQueued(r.js[i].w, x)
    ensures i < |last.js| && last.js[i].w.Shaped() && !IsQueued(last.js[i].w, x)
    ensures x in Completed(last.js[i].w.h) || IsDoomed(last.js[i].w, x)
  {
    hide Run, SweepRun, IsQueued;
    BeginsOk(r);
    var mine := Seen(r, moves, last, i);
    SweepMissesNothing(r.js[i].w, mine, last.js[i], x);
  }
}
