/** Attach against the offline timer: `target_abnormal_lock` is a counter used as a try-lock, and attach waits for
    the timer callback while it holds the host lock. Any number of threads attach; detach is one step, and only a file
    that its attach has returned to can be detached. */
module AttachTimer {
  import opened Errors
  import opened HostState

  /** Where a thread stands in `vsc_dev_attach_host` and the `vsc_scsi_attach` inside it. */
  datatype Pc =
    | Start
    | Locked      // holds the host lock
    | TooMany     // ... and raised the counter above 1
    | Backed      // ... and lowered it again
    | Counted     // ... or raised it to 1: the section is its own
    | Waiting     // ... in del_timer_sync, the timer no longer pending
    | Cleared     // ... and the callback is not running
    | Attached    // ... and the file is set
    | Tail        // lock released, counter still raised
    | Unpaired    // counter lowered, the file's private data not yet set
    | Done(errno: Option<Errno>)

  /** Where the timer callback `vsc_target_abnormal` stands. */
  datatype Cb =
    | Idle
    | Fired       // before its increment
    | CbBack      // raised the counter above 1
    | Body        // in the offline body, without the host lock
    | BodyLocked  // in the offline body, with it

  datatype Holder = Nobody | Thread(i: nat) | Callback

  datatype Gate = Gate(pcs: seq<Pc>, cb: Cb, lock: Holder, count: int, file: Option<nat>, armed: bool)

  datatype Step =
    | Lock(i: nat) | Busy(i: nat) | Inc(i: nat) | Back(i: nat) | GiveUp(i: nat) | DelTimer(i: nat) | Synced(i: nat)
    | SetFile(i: nat) | Unlock(i: nat) | Leave(i: nat) | Pair(i: nat)
    | Fire | CbInc | CbDec | BodyLock | BodyUnlock | BodyEnd
    | Detach(timeout: bool)

  predicate HasLock(p: Pc) {
    p.Locked? || p.TooMany? || p.Backed? || p.Counted? || p.Waiting? || p.Cleared? || p.Attached?
  }

  /** The thread owns the attach section. */
  predicate Inside(p: Pc) { p.Counted? || p.Waiting? || p.Cleared? || p.Attached? || p.Tail? }

  /** The thread owns the section and has still to set the file. */
  predicate Coming(p: Pc) { p.Counted? || p.Waiting? || p.Cleared? }

  predicate Raised(p: Pc) { Inside(p) || p.TooMany? }

  predicate CbRaised(c: Cb) { c.CbBack? || c.Body? || c.BodyLocked? }

  predicate Offline(c: Cb) { c.Body? || c.BodyLocked? }

  predicate IsThreadStep(s: Step) {
    || s.Lock? || s.Busy? || s.Inc? || s.Back? || s.GiveUp? || s.DelTimer? || s.Synced? || s.SetFile? || s.Unlock?
    || s.Leave? || s.Pair?
  }

  /** The file of thread `i` has its private data set: detach and release find the host through it. */
  predicate Paired(g: Gate, i: nat) { i < |g.pcs| && g.pcs[i] == Done(None) }

  predicate Enabled(g: Gate, s: Step) {
    if IsThreadStep(s) then
      s.i < |g.pcs| &&
      var p := g.pcs[s.i];
      match s
      case Lock(_) => p.Start? && g.lock.Nobody?
      case Busy(_) => p.Locked? && g.file.Some?
      case Inc(_) => p.Locked? && g.file.None?
      case Back(_) => p.TooMany?
      case GiveUp(_) => p.Backed?
      case DelTimer(_) => p.Counted?
      case Synced(_) => p.Waiting? && g.cb.Idle?
      case SetFile(_) => p.Cleared?
      case Unlock(_) => p.Attached?
      case Leave(_) => p.Tail?
      case Pair(_) => p.Unpaired?
    else
      match s
      case Fire => g.armed && g.cb.Idle?
      case CbInc => g.cb.Fired?
      case CbDec => g.cb.CbBack?
      case BodyLock => g.cb.Body? && g.lock.Nobody?
      case BodyUnlock => g.cb.BodyLocked?
      case BodyEnd => g.cb.Body?
      case Detach(_) => g.lock.Nobody? && g.file.Some? && Paired(g, g.file.value)
      case _ => false
  }

  function Apply(g: Gate, s: Step): Gate
    requires Enabled(g, s)
  {
    match s
    case Lock(i) => g.(pcs := g.pcs[i := Locked], lock := Thread(i))
    case Busy(i) => g.(pcs := g.pcs[i := Done(Some(EBUSY))], lock := Nobody)
    case Inc(i) => g.(pcs := g.pcs[i := if g.count + 1 > 1 then TooMany else Counted], count := g.count + 1)
    case Back(i) => g.(pcs := g.pcs[i := Backed], count := g.count - 1)
    case GiveUp(i) => g.(pcs := g.pcs[i := Done(Some(EAGAIN))], lock := Nobody)
    case DelTimer(i) => g.(pcs := g.pcs[i := Waiting], armed := false)
    case Synced(i) => g.(pcs := g.pcs[i := Cleared])
    case SetFile(i) => g.(pcs := g.pcs[i := Attached], file := Some(i))
    case Unlock(i) => g.(pcs := g.pcs[i := Tail], lock := Nobody)
    case Leave(i) => g.(pcs := g.pcs[i := Unpaired], count := g.count - 1)
    case Pair(i) => g.(pcs := g.pcs[i := Done(None)])
    case Fire => g.(armed := false, cb := Fired)
    case CbInc => g.(cb := if g.count + 1 > 1 then CbBack else Body, count := g.count + 1)
    case CbDec => g.(cb := Idle, count := g.count - 1)
    case BodyLock => g.(cb := BodyLocked, lock := Callback)
    case BodyUnlock => g.(cb := Body, lock := Nobody)
    case BodyEnd => g.(cb := Idle, count := g.count - 1)
    case Detach(timeout) => g.(file := None, armed := g.armed || timeout)
  }

  /** A registered host: nobody attached, no timer pending, any number of threads about to attach. */
  predicate Init(g: Gate) {
    (forall i :: 0 <= i < |g.pcs| ==> g.pcs[i].Start?) && g.cb.Idle? && g.lock.Nobody? && g.count == 0
    && g.file.None? && !g.armed
  }

  ghost predicate Run(g: Gate, steps: seq<Step>, last: Gate)
    decreases |steps|
  {
    if steps == [] then g == last else Enabled(g, steps[0]) && Run(Apply(g, steps[0]), steps[1..], last)
  }

  /** How many threads have the counter raised. */
  function Raisers(pcs: seq<Pc>): nat {
    if pcs == [] then 0 else Raisers(pcs[1..]) + if Raised(pcs[0]) then 1 else 0
  }

  lemma {:induction false} RaisersUpdate(pcs: seq<Pc>, i: nat, p: Pc)
    requires i < |pcs|
    ensures Raisers(pcs[i := p]) == Raisers(pcs) + (if Raised(p) then 1 else 0) - (if Raised(pcs[i]) then 1 else 0)
  {
    if i == 0 {
      assert pcs[i := p][1..] == pcs[1..];
    } else {
      RaisersUpdate(pcs[1..], i - 1, p);
      assert pcs[i := p][1..] == pcs[1..][i - 1 := p];
    }
  }

  lemma {:induction false} NoRaisers(pcs: seq<Pc>)
    ensures Raisers(pcs) == 0 <==> forall i :: 0 <= i < |pcs| ==> !Raised(pcs[i])
  {
    if pcs != [] {
      NoRaisers(pcs[1..]);
      assert forall i :: 0 < i < |pcs| ==> pcs[i] == pcs[1..][i - 1];
    }
  }

  ghost predicate LockOk(g: Gate) {
    && (forall i :: 0 <= i < |g.pcs| ==> (HasLock(g.pcs[i]) <==> g.lock == Thread(i)))
    && (g.cb.BodyLocked? <==> g.lock.Callback?)
    && (g.lock.Thread? ==> g.lock.i < |g.pcs|)
  }

  /** At most one of the attach sections and the offline body is under way. */
  ghost predicate Exclusive(g: Gate) {
    && (forall i, j :: 0 <= i < j < |g.pcs| ==> !(Inside(g.pcs[i]) && Inside(g.pcs[j])))
    && (forall i :: 0 <= i < |g.pcs| && Inside(g.pcs[i]) ==> !Offline(g.cb))
  }

  ghost predicate TimerOk(g: Gate) {
    && (g.armed || !g.cb.Idle? ==> g.file.None?)
    && (g.armed ==> g.cb.Idle?)
    && (forall i :: 0 <= i < |g.pcs| && g.pcs[i].TooMany? ==> !g.armed && !g.cb.Fired?)
    && (forall i :: 0 <= i < |g.pcs| && (g.pcs[i].Waiting? || g.pcs[i].Cleared? || g.pcs[i].Attached?) ==> !g.armed)
    && (forall i :: 0 <= i < |g.pcs| && (g.pcs[i].Cleared? || g.pcs[i].Attached?) ==> g.cb.Idle?)
  }

  /** An attach in its section finds no file, and from the moment it sets the file until it has returned the
      file is its own. */
  ghost predicate FileOk(g: Gate) {
    && (forall i :: 0 <= i < |g.pcs| && (g.pcs[i].TooMany? || Coming(g.pcs[i])) ==> g.file.None?)
    && (forall i :: 0 <= i < |g.pcs| && (g.pcs[i].Attached? || g.pcs[i].Tail? || g.pcs[i].Unpaired?)
          ==> g.file == Some(i))
  }

  ghost predicate Inv(g: Gate) {
    && LockOk(g) && Exclusive(g) && TimerOk(g) && FileOk(g)
    && g.count == Raisers(g.pcs) + if CbRaised(g.cb) then 1 else 0
  }

  lemma InitInv(g: Gate)
    requires Init(g)
    ensures Inv(g)
  {
    NoRaisers(g.pcs);
  }

  lemma KeepsLock(g: Gate, s: Step)
    requires LockOk(g) && Enabled(g, s)
    ensures LockOk(Apply(g, s))
  {}

  /** A counter at 0 means an empty section: whoever raises it to 1 is alone. */
  lemma KeepsExclusive(g: Gate, s: Step)
    requires Exclusive(g) && Enabled(g, s) && g.count >= 0
    requires g.count == 0 ==> (forall i :: 0 <= i < |g.pcs| ==> !Raised(g.pcs[i])) && !CbRaised(g.cb)
    ensures Exclusive(Apply(g, s))
  {}

  lemma KeepsTimer(g: Gate, s: Step)
    requires LockOk(g) && TimerOk(g) && Enabled(g, s) && (s.Inc? && g.count > 0 ==> CbRaised(g.cb))
    ensures TimerOk(Apply(g, s))
  {}

  lemma KeepsFile(g: Gate, s: Step)
    requires LockOk(g) && FileOk(g) && Enabled(g, s)
    ensures FileOk(Apply(g, s))
  {}

  lemma KeepsCount(g: Gate, s: Step)
    requires Enabled(g, s) && g.count == Raisers(g.pcs) + if CbRaised(g.cb) then 1 else 0
    ensures Apply(g, s).count == Raisers(Apply(g, s).pcs) + if CbRaised(Apply(g, s).cb) then 1 else 0
  {
    if IsThreadStep(s) { RaisersUpdate(g.pcs, s.i, Apply(g, s).pcs[s.i]); }
  }

  /** An attach is told to try again if and only if the callback has the counter raised: no other attach can. */
  lemma AgainMeansCallback(g: Gate, i: nat)
    requires Inv(g) && Enabled(g, Inc(i))
    ensures g.count > 0 <==> CbRaised(g.cb)
    ensures Apply(g, Inc(i)).pcs[i].TooMany? <==> CbRaised(g.cb)
  {
    NoRaisers(g.pcs);
  }

  lemma StepKeeps(g: Gate, s: Step)
    requires Inv(g) && Enabled(g, s)
    ensures Inv(Apply(g, s))
  {
    hide LockOk, Exclusive, TimerOk, FileOk, Apply, Enabled;
    NoRaisers(g.pcs);
    KeepsLock(g, s);
    KeepsExclusive(g, s);
    if s.Inc? { AgainMeansCallback(g, s.i); }
    KeepsTimer(g, s);
    KeepsFile(g, s);
    KeepsCount(g, s);
  }

  lemma {:induction false} RunKeeps(g: Gate, steps: seq<Step>, last: Gate)
    requires Inv(g) && Run(g, steps, last)
    ensures Inv(last)
    decreases |steps|
  {
    hide Inv, Apply, Enabled;
    if steps != [] {
      StepKeeps(g, steps[0]);
      RunKeeps(Apply(g, steps[0]), steps[1..], last);
    }
  }

  /** The attach sections and the offline body never overlap, and while the timer is pending or its callback
      is anywhere in its code the host has no file. */
  lemma AttachSafe(g0: Gate, steps: seq<Step>, g: Gate)
    requires Init(g0) && Run(g0, steps, g)
    ensures forall i, j :: 0 <= i < j < |g.pcs| ==> !(Inside(g.pcs[i]) && Inside(g.pcs[j]))
    ensures forall i :: 0 <= i < |g.pcs| && Inside(g.pcs[i]) ==> !Offline(g.cb)
    ensures g.armed || !g.cb.Idle? ==> g.file.None?
  {
    InitInv(g0);
    RunKeeps(g0, steps, g);
  }

  // ----- No deadlock -----

  function CbStepsLeft(c: Cb): nat { if c.Fired? then 2 else if c.CbBack? then 1 else 0 }

  /** While attach waits in `del_timer_sync` with the host lock held, the callback is never at a point where it
      takes that lock: it is idle, or its next step is enabled, gets it closer to idle, and lets attach wait on. */
  lemma WaitEnds(g0: Gate, steps: seq<Step>, g: Gate, i: nat)
    requires Init(g0) && Run(g0, steps, g) && i < |g.pcs| && g.pcs[i].Waiting?
    ensures g.lock == Thread(i) && !Offline(g.cb)
    ensures g.cb.Idle? ==> Enabled(g, Synced(i))
    ensures !g.cb.Idle? ==>
      var s := if g.cb.Fired? then CbInc else CbDec;
      && Enabled(g, s) && CbStepsLeft(Apply(g, s).cb) == CbStepsLeft(g.cb) - 1 && Apply(g, s).pcs == g.pcs
  {
    InitInv(g0);
    RunKeeps(g0, steps, g);
    NoRaisers(g.pcs);
  }

  /** The step that the holder of the host lock, or the callback it waits for, can always take. */
  function NextRelease(g: Gate): Step
    requires g.lock.Thread? ==> g.lock.i < |g.pcs|
  {
    match g.lock
    case Callback => BodyUnlock
    case Nobody => if g.cb.Fired? then CbInc else CbDec
    case Thread(i) =>
      match g.pcs[i]
      case Locked => if g.file.Some? then Busy(i) else Inc(i)
      case TooMany => Back(i)
      case Backed => GiveUp(i)
      case Counted => DelTimer(i)
      case Waiting => if g.cb.Idle? then Synced(i) else if g.cb.Fired? then CbInc else CbDec
      case Cleared => SetFile(i)
      case _ => Unlock(i)
  }

  /** How far the lock is from being released. */
  function Distance(g: Gate): nat
    requires g.lock.Thread? ==> g.lock.i < |g.pcs|
  {
    match g.lock
    case Nobody => 0
    case Callback => 1
    case Thread(i) =>
      match g.pcs[i]
      case Locked => 8
      case Counted => 7
      case TooMany => 2
      case Backed => 1
      case Waiting => 3 + CbStepsLeft(g.cb)
      case Cleared => 2
      case _ => 1
  }

  lemma NextEnabled(g: Gate)
    requires LockOk(g) && Exclusive(g) && !g.lock.Nobody?
    ensures Enabled(g, NextRelease(g))
  {}

  /** A held host lock is released within eight steps of its holder and the callback, whatever the others wait for. */
  lemma LockIsReleased(g: Gate)
    requires Inv(g) && !g.lock.Nobody?
    ensures Enabled(g, NextRelease(g)) && Inv(Apply(g, NextRelease(g)))
    ensures Distance(Apply(g, NextRelease(g))) < Distance(g) <= 8
  {
    hide TimerOk, Raisers;
    NextEnabled(g);
    StepKeeps(g, NextRelease(g));
    hide Inv, Enabled;
  }

  /** Nobody else's step puts the release off. */
  lemma ReleaseComesNearer(g: Gate, s: Step)
    requires Inv(g) && !g.lock.Nobody? && Enabled(g, s)
    ensures Inv(Apply(g, s)) && Distance(Apply(g, s)) <= Distance(g)
  {
    StepKeeps(g, s);
  }

  // ----- No offline shot is lost -----

  /** The callback runs the offline body exactly when nobody else has the counter raised. */
  lemma ShotRunsIff(g: Gate)
    requires Inv(g) && g.cb.Fired?
    ensures Apply(g, CbInc).cb.Body? <==> forall i :: 0 <= i < |g.pcs| ==> !Raised(g.pcs[i])
  {
    NoRaisers(g.pcs);
  }

  /** Whoever has the counter raised against a fired callback is an attach on its way to the file. */
  lemma RivalIsComing(g: Gate, i: nat)
    requires Inv(g) && g.cb.Fired? && i < |g.pcs| && Raised(g.pcs[i])
    ensures Coming(g.pcs[i])
  {}

  /** An attach on its way to the file, or past it, does not fail. */
  predicate Winning(p: Pc) { Inside(p) || p.Unpaired? || p == Done(None) }

  lemma {:induction false} ComingWins(g: Gate, steps: seq<Step>, last: Gate, i: nat)
    requires Run(g, steps, last) && i < |g.pcs| && Winning(g.pcs[i])
    ensures i < |last.pcs| && Winning(last.pcs[i])
    ensures Coming(g.pcs[i]) && !Coming(last.pcs[i]) ==> SetFile(i) in steps
    decreases |steps|
  {
    if steps != [] { ComingWins(Apply(g, steps[0]), steps[1..], last, i); }
  }

  /** The offline shot is still due: the timer is pending, its callback is on the way, or an attach is. */
  ghost predicate Due(g: Gate) {
    g.armed || g.cb.Fired? || Offline(g.cb) || exists i :: 0 <= i < |g.pcs| && Coming(g.pcs[i])
  }

  lemma StaysDue(g: Gate, s: Step)
    requires Inv(g) && Due(g) && Enabled(g, s) && !s.BodyEnd? && !s.SetFile?
    ensures Due(Apply(g, s))
  {
    var v := Apply(g, s);
    if s.CbInc? && !v.cb.Body? {
      ShotRunsIff(g);
      var i :| 0 <= i < |g.pcs| && Raised(g.pcs[i]);
      RivalIsComing(g, i);
      assert Coming(v.pcs[i]);
    } else if s.DelTimer? {
      assert Coming(v.pcs[s.i]);
    } else if exists i :: 0 <= i < |g.pcs| && Coming(g.pcs[i]) {
      var i :| 0 <= i < |g.pcs| && Coming(g.pcs[i]);
      assert Coming(v.pcs[i]);
    }
  }

  /** No shot is lost: from a detach that armed the timer, no run comes to a state in which the shot is no longer due
      unless on the way the offline body has run to its end or a new attach has set its file. */
  lemma {:induction false} NoShotLost(g: Gate, steps: seq<Step>, last: Gate)
    requires Inv(g) && Due(g) && Run(g, steps, last) && !Due(last)
    ensures exists k :: 0 <= k < |steps| && (steps[k].BodyEnd? || steps[k].SetFile?)
    decreases |steps|
  {
    hide Inv, Due, Apply, Enabled;
    if !steps[0].BodyEnd? && !steps[0].SetFile? {
      StepKeeps(g, steps[0]);
      StaysDue(g, steps[0]);
      NoShotLost(Apply(g, steps[0]), steps[1..], last);
      var k :| 0 <= k < |steps| - 1 && (steps[1..][k].BodyEnd? || steps[1..][k].SetFile?);
      assert steps[k + 1] == steps[1..][k];
    }
  }

  /** Over every run from a registered host: a fired callback that backs off does so for an attach that does not
      fail, and a timer armed by a release is answered by the offline body or by the next owner. */
  lemma ShotAnswered(g0: Gate, before: seq<Step>, g: Gate, steps: seq<Step>, last: Gate)
    requires Init(g0) && Run(g0, before, g) && Run(g, steps, last)
    ensures g.cb.Fired? && Apply(g, CbInc).cb.CbBack? ==>
      exists i :: 0 <= i < |g.pcs| && Coming(g.pcs[i]) && i < |last.pcs| && Winning(last.pcs[i])
    ensures g.armed && !Due(last) ==> exists k :: 0 <= k < |steps| && (steps[k].BodyEnd? || steps[k].SetFile?)
  {
    InitInv(g0);
    RunKeeps(g0, before, g);
    if g.cb.Fired? && Apply(g, CbInc).cb.CbBack? {
      ShotRunsIff(g);
      var i :| 0 <= i < |g.pcs| && Raised(g.pcs[i]);
      RivalIsComing(g, i);
      ComingWins(g, steps, last, i);
    }
    if g.armed && !Due(last) { NoShotLost(g, steps, last); }
  }

  // ----- From the release on -----

  predicate Answers(s: Step) { s.BodyEnd? || s.SetFile? }

  /** A release arms the timer, and the shot is then due until the offline body has run or a new attach has set its
      file; a detach asked for by the target leaves the timer off. */
  lemma ReleaseIsAnswered(g: Gate, timeout: bool, steps: seq<Step>, last: Gate)
    requires Inv(g) && g.lock.Nobody? && g.file.Some? && Paired(g, g.file.value)
    requires Enabled(g, Detach(timeout)) ==> Run(Apply(g, Detach(timeout)), steps, last)
    ensures Enabled(g, Detach(timeout))
    ensures Apply(g, Detach(timeout)).file.None? && (Apply(g, Detach(timeout)).armed <==> timeout)
    ensures timeout ==> Due(last) || exists k :: 0 <= k < |steps| && Answers(steps[k])
  {
    StepKeeps(g, Detach(timeout));
    if timeout && !Due(last) { NoShotLost(Apply(g, Detach(timeout)), steps, last); }
  }

  /** Nothing but such a release arms the timer. */
  lemma {:induction false} ArmedByRelease(g: Gate, steps: seq<Step>, last: Gate)
    requires Run(g, steps, last) && !g.armed && last.armed
    ensures Detach(true) in steps
    decreases |steps|
  {
    if steps[0] != Detach(true) { ArmedByRelease(Apply(g, steps[0]), steps[1..], last); }
  }

  /** How an attach can fail: busy, when it found a file, or try again, when it found the counter raised. */
  lemma {:induction false} AttachAnswer(g: Gate, steps: seq<Step>, last: Gate, i: nat)
    requires i < |g.pcs| && !g.pcs[i].Done? && Run(g, steps, last)
    ensures i < |last.pcs|
    ensures last.pcs[i].Done? && last.pcs[i].errno.Some? ==>
      || (last.pcs[i].errno.value == EBUSY && Busy(i) in steps)
      || (last.pcs[i].errno.value == EAGAIN && GiveUp(i) in steps)
    decreases |steps|
  {
    if steps != [] {
      var v := Apply(g, steps[0]);
      assert steps == [steps[0]] + steps[1..];
      if v.pcs[i].Done? { DoneStays(v, steps[1..], last, i); } else { AttachAnswer(v, steps[1..], last, i); }
    }
  }

  lemma {:induction false} DoneStays(g: Gate, steps: seq<Step>, last: Gate, i: nat)
    requires i < |g.pcs| && g.pcs[i].Done? && Run(g, steps, last)
    ensures i < |last.pcs| && last.pcs[i] == g.pcs[i]
    decreases |steps|
  {
    if steps != [] { DoneStays(Apply(g, steps[0]), steps[1..], last, i); }
  }

  /** How many steps of the callback, or of the attach that comes, answer a due shot. */
  ghost function ToAnswer(g: Gate): nat {
    if exists i :: 0 <= i < |g.pcs| && Coming(g.pcs[i]) then
      var i :| 0 <= i < |g.pcs| && Coming(g.pcs[i]);
      if g.pcs[i].Counted? then 5 else if g.pcs[i].Waiting? then 2 + CbStepsLeft(g.cb) else 1
    else if g.armed then 3
    else if g.cb.Body? then 1
    else 2
  }

  /** The step that brings a due shot nearer to its answer: one of the attach that comes, if there is one, or of the
      callback. */
  ghost function TowardsAnswer(g: Gate): Step {
    if exists i :: 0 <= i < |g.pcs| && Coming(g.pcs[i]) then
      var i :| 0 <= i < |g.pcs| && Coming(g.pcs[i]);
      if g.pcs[i].Counted? then DelTimer(i)
      else if g.pcs[i].Cleared? then SetFile(i)
      else if g.cb.Idle? then Synced(i)
      else if g.cb.Fired? then CbInc
      else CbDec
    else if g.armed then Fire
    else if g.cb.Fired? then CbInc
    else if g.cb.BodyLocked? then BodyUnlock
    else BodyEnd
  }

  /** There is one attach at most on its way. */
  lemma ComingIs(g: Gate, i: nat)
    requires Inv(g) && i < |g.pcs| && Coming(g.pcs[i])
    ensures ToAnswer(g) == if g.pcs[i].Counted? then 5 else if g.pcs[i].Waiting? then 2 + CbStepsLeft(g.cb) else 1
    ensures TowardsAnswer(g) ==
      if g.pcs[i].Counted? then DelTimer(i) else if g.pcs[i].Cleared? then SetFile(i)
      else if g.cb.Idle? then Synced(i) else if g.cb.Fired? then CbInc else CbDec
  {}

  ghost predicate Nearer(g: Gate) {
    var s := TowardsAnswer(g);
    Enabled(g, s) && (Answers(s) || (Inv(Apply(g, s)) && ToAnswer(Apply(g, s)) < ToAnswer(g)))
  }

  lemma AttachTowards(g: Gate, i: nat)
    requires Inv(g) && i < |g.pcs| && Coming(g.pcs[i])
    ensures Nearer(g)
  {
    ComingIs(g, i);
    NoRaisers(g.pcs);
    hide ToAnswer, TowardsAnswer;
    var s := TowardsAnswer(g);
    assert Enabled(g, s);
    if !Answers(s) {
      StepKeeps(g, s);
      hide Inv;
      assert Coming(Apply(g, s).pcs[i]);
      ComingIs(Apply(g, s), i);
    }
  }

  lemma CallbackTowards(g: Gate)
    requires Inv(g) && Due(g) && forall i :: 0 <= i < |g.pcs| ==> !Coming(g.pcs[i])
    ensures Nearer(g)
  {
    var s := TowardsAnswer(g);
    NoRaisers(g.pcs);
    if !Answers(s) {
      StepKeeps(g, s);
      hide Inv;
    }
  }

  lemma TowardsAnswerIs(g: Gate)
    requires Inv(g) && Due(g)
    ensures Nearer(g) && (Answers(TowardsAnswer(g)) || Due(Apply(g, TowardsAnswer(g))))
  {
    hide Inv, Apply, Enabled, TowardsAnswer;
    if exists i :: 0 <= i < |g.pcs| && Coming(g.pcs[i]) {
      var i :| 0 <= i < |g.pcs| && Coming(g.pcs[i]);
      AttachTowards(g, i);
    } else {
      CallbackTowards(g);
    }
    if !Answers(TowardsAnswer(g)) { StaysDue(g, TowardsAnswer(g)); }
  }

  /** A due shot can be answered at every moment, within five steps of the callback and of the attach that comes. */
  lemma {:induction false} CanBeAnswered(g: Gate) returns (steps: seq<Step>, last: Gate)
    requires Inv(g) && Due(g)
    ensures Run(g, steps, last) && 0 < |steps| <= ToAnswer(g) <= 5 && Answers(steps[|steps| - 1])
    decreases ToAnswer(g)
  {
    hide Inv, Due, Apply, Enabled, TowardsAnswer;
    var s := TowardsAnswer(g);
    TowardsAnswerIs(g);
    if Answers(s) {
      steps, last := [s], Apply(g, s);
      assert steps[1..] == [];
    } else {
      var rest;
      rest, last := CanBeAnswered(Apply(g, s));
      steps := [s] + rest;
      assert steps[1..] == rest;
    }
  }

  lemma RunCons(g: Gate, s: Step, rest: seq<Step>, last: Gate)
    requires Enabled(g, s) && Run(Apply(g, s), rest, last)
    ensures Run(g, [s] + rest, last)
  {
    assert ([s] + rest)[1..] == rest;
  }

  lemma {:induction false} RunJoins(g: Gate, a: seq<Step>, m: Gate, b: seq<Step>, v: Gate)
    requires Run(g, a, m) && Run(m, b, v)
    ensures Run(g, a + b, v)
    decreases |a|
  {
    hide Apply, Enabled;
    if a == [] {
      assert a + b == b;
    } else {
      RunJoins(Apply(g, a[0]), a[1..], m, b, v);
      assert (a + b)[1..] == a[1..] + b;
    }
  }

  /** An attach that nobody disturbs sets its file. */
  lemma AttachIn(g: Gate) returns (steps: seq<Step>, last: Gate)
    requires Init(g) && g.pcs != []
    ensures Run(g, steps, last)
    ensures last == g.(pcs := g.pcs[0 := Attached], lock := Thread(0), count := 1, file := Some(0))
  {
    var g1 := Apply(g, Lock(0));
    var g2 := Apply(g1, Inc(0));
    var g3 := Apply(g2, DelTimer(0));
    var g4 := Apply(g3, Synced(0));
    last := Apply(g4, SetFile(0));
    assert Run(last, [], last);
    hide Run, Apply, Enabled;
    RunCons(g4, SetFile(0), [], last);
    RunCons(g3, Synced(0), [SetFile(0)] + [], last);
    RunCons(g2, DelTimer(0), [Synced(0)] + ([SetFile(0)] + []), last);
    var rest := [DelTimer(0)] + ([Synced(0)] + ([SetFile(0)] + []));
    RunCons(g1, Inc(0), rest, last);
    RunCons(g, Lock(0), [Inc(0)] + rest, last);
    steps := [Lock(0)] + ([Inc(0)] + rest);
  }

  lemma AttachOut(g: Gate) returns (steps: seq<Step>, last: Gate)
    requires g.pcs != [] && g.pcs[0].Attached?
    ensures Run(g, steps, last) && last == g.(pcs := g.pcs[0 := Done(None)], lock := Nobody, count := g.count - 1)
  {
    var g1 := Apply(g, Unlock(0));
    var g2 := Apply(g1, Leave(0));
    last := Apply(g2, Pair(0));
    assert Run(last, [], last);
    hide Run, Apply, Enabled;
    RunCons(g2, Pair(0), [], last);
    RunCons(g1, Leave(0), [Pair(0)] + [], last);
    RunCons(g, Unlock(0), [Leave(0)] + ([Pair(0)] + []), last);
    steps := [Unlock(0)] + ([Leave(0)] + ([Pair(0)] + []));
  }

  /** An armed timer that nobody disturbs runs the offline body, its part under the host lock included. */
  lemma ShotAlone(g: Gate) returns (steps: seq<Step>, last: Gate)
    requires g.armed && g.cb.Idle? && g.lock.Nobody? && g.count == 0
    ensures Run(g, steps, last) && last == g.(armed := false, cb := Body, count := 1) && BodyLock in steps
  {
    var g1 := Apply(g, Fire);
    var g2 := Apply(g1, CbInc);
    var g3 := Apply(g2, BodyLock);
    last := Apply(g3, BodyUnlock);
    assert Run(last, [], last);
    hide Run, Apply, Enabled;
    RunCons(g3, BodyUnlock, [], last);
    RunCons(g2, BodyLock, [BodyUnlock] + [], last);
    RunCons(g1, CbInc, [BodyLock] + ([BodyUnlock] + []), last);
    RunCons(g, Fire, [CbInc] + ([BodyLock] + ([BodyUnlock] + [])), last);
    steps := [Fire] + ([CbInc] + ([BodyLock] + ([BodyUnlock] + [])));
    assert steps[2] == BodyLock;
  }

  lemma DetachAlone(g: Gate) returns (last: Gate)
    requires g.lock.Nobody? && g.file == Some(0) && Paired(g, 0)
    ensures Run(g, [Detach(true)], last) && last == g.(file := None, armed := true)
  {
    last := Apply(g, Detach(true));
    assert [Detach(true)][1..] == [];
  }

  lemma BodyAlone(g: Gate) returns (last: Gate)
    requires g.cb.Body?
    ensures Enabled(g, BodyEnd) && last == Apply(g, BodyEnd) && last == g.(cb := Idle, count := g.count - 1)
  {
    last := Apply(g, BodyEnd);
  }

  /** With at least one thread, a host can go from its registration through an attach and a release to the offline
      body and out of it again. */
  lemma OfflineReached(g0: Gate) returns (steps: seq<Step>, m: Gate, last: Gate)
    requires Init(g0) && g0.pcs != []
    ensures Run(g0, steps, m) && Detach(true) in steps && BodyLock in steps && Offline(m.cb) && Enabled(m, BodyEnd)
    ensures last == Apply(m, BodyEnd) && last.cb.Idle? && last.count == 0 && last.file.None?
  {
    hide Run, Apply, Enabled;
    var one, g1 := AttachIn(g0);
    var two, g2 := AttachOut(g1);
    var g3 := DetachAlone(g2);
    var three;
    three, m := ShotAlone(g3);
    last := BodyAlone(m);
    RunJoins(g2, [Detach(true)], g3, three, m);
    RunJoins(g0, one, g1, two, g2);
    RunJoins(g0, one + two, g2, [Detach(true)] + three, m);
    steps := (one + two) + ([Detach(true)] + three);
    assert steps[|one + two|] == Detach(true);
  }
}
