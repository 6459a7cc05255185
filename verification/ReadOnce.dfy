/** No request is read twice: what it takes of the reads, and when the rollback alone breaks it. */
module ReadOnce {
  import opened Seqs
  import opened HostState
  import opened Lifecycle
  import opened Calls
  import opened SplitRead
  import opened SplitRuns
  import opened SplitReaders

  ghost predicate Holds(rd: Reading, x: nat) { x in rd.ids }

  ghost predicate InReading(c: Split, x: nat) { exists r :: r in c.readings && Holds(c.readings[r], x) }

  /** The target has read the request, or a read under way is about to hand it over. */
  ghost predicate Served(c: Split, x: nat) { x in c.w.delivered || InReading(c, x) }

  ghost predicate ReadingOnce(rd: Reading, delivered: seq<nat>) {
    && NoDup(rd.slots) && NoDup(rd.ids) && |rd.msgs| <= |rd.ids| && rd.msgs == rd.ids[..|rd.msgs|]
    && forall x :: Holds(rd, x) ==> x !in delivered
  }

  /** The reads, done and under way, hold different requests, and each message so far names the request its reading
      holds. */
  ghost predicate ReadsOnce(c: Split) {
    && NoDup(c.w.delivered)
    && (forall r :: r in c.readings ==> ReadingOnce(c.readings[r], c.w.delivered))
    && (forall r, q, x :: r in c.readings && q in c.readings && r != q && Holds(c.readings[r], x) ==>
          !Holds(c.readings[q], x))
  }

  /** Nothing that waits for a read has been read; what waits for its answer has. */
  ghost predicate QueuesOnce(c: Split) {
    && (forall t :: t in c.w.h.reqQ || t in c.w.h.cmpQ ==> !Served(c, IdOf(c.w.h, t)))
    && (forall t :: t in c.w.h.rspQ ==> Served(c, IdOf(c.w.h, t)))
  }

  ghost predicate Once(c: Split) {
    ReadsOnce(c) && QueuesOnce(c) && forall x :: Served(c, x) ==> x in c.w.accepted
  }

  /** All that is known of a run so far. */
  ghost predicate Known(c: Split) { SplitOk(c) && ReadingsOk(c) }

  lemma QueuesCarry(c: Split, d: Split, s: Step)
    requires QueuesOnce(c) && Feeds(c.w, d.w, s) && d.readings == c.readings && d.w.delivered == c.w.delivered
    requires forall t: nat :: c.w.h.Listed(t) ==> IdOf(d.w.h, t) == IdOf(c.w.h, t)
    requires s.Submit? ==> !Served(c, IdOf(d.w.h, s.t))
    ensures QueuesOnce(d)
  {
    hide IdOf, Holds;
    assert forall x :: Served(d, x) <==> Served(c, x);
  }

  lemma SameServed(c: Split, d: Split)
    requires Once(c) && d.readings == c.readings && d.w.delivered == c.w.delivered && QueuesOnce(d)
    requires forall x :: x in c.w.accepted ==> x in d.w.accepted
    ensures Once(d)
  {
    hide ReadingOnce, QueuesOnce, Holds, NoDup;
    assert forall x :: Served(d, x) <==> Served(c, x);
  }

  lemma OtherKeepsOnce(c: Split, s: Step)
    requires Known(c) && Once(c) && CanAct(c, Other(s))
    ensures Once(After(c, Other(s)))
  {
    hide Apply, Sound, Served, ReadingsOk, ReadsOnce, QueuesOnce, IdOf;
    var d := After(c, Other(s));
    OtherFeeds(c.w, s);
    OtherAccepts(c.w, s);
    forall t: nat | c.w.h.Listed(t) ensures IdOf(d.w.h, t) == IdOf(c.w.h, t) { QueuedKeeps(c.w, s, t); }
    if s.Submit? { SubmitCarries(c.w, s); }
    hide SplitShaped, Enabled, Feeds, Host.Listed;
    QueuesCarry(c, d, s);
    SameServed(c, d);
  }

  lemma QueuedKeeps(w: World, s: Step, t: nat)
    requires w.Shaped() && Sound(w) && Enabled(w, s) && !s.GetStep? && w.h.Listed(t)
    ensures IdOf(Apply(w, s).h, t) == IdOf(w.h, t)
  {
    hide Sound, Apply;
    ShapeStays(w, s);
    QueuedStays(w, s, t);
  }

  lemma SubmitCarries(w: World, s: Step)
    requires w.Shaped() && Enabled(w, s) && s.Submit?
    ensures IdOf(Apply(w, s).h, s.t) == s.sc
  {}

  /** A queued request stands in one slot. */
  lemma IdsDiffer(w: World, t: nat, u: nat)
    requires w.Shaped() && Sound(w) && w.h.Listed(t) && w.h.Listed(u) && t != u
    ensures IdOf(w.h, t) != IdOf(w.h, u)
  {
    hide Sound, EntryOk;
    QueuedEntry(w, t);
    QueuedEntry(w, u);
  }

  // ----- Each action -----

  /** The slot is on some queue and still at the allocation that was read. */
  ghost predicate StillOwn(w: World, rd: Reading, k: nat)
    requires k < |rd.slots| == |rd.gens|
  {
    w.h.Listed(rd.slots[k]) && rd.slots[k] < |w.books| && w.books[rd.slots[k]].gen == rd.gens[k]
  }

  /** A mark finds its slot at the allocation that was read; a rollback finds all of its slots so, and linked. */
  ghost predicate Own(c: Split, a: Act) {
    match a
    case Mark(r) =>
      r in c.readings && var rd := c.readings[r];
      |rd.msgs| < |rd.slots| == |rd.gens| && rd.slots[|rd.msgs|] < |c.w.books|
      && c.w.books[rd.slots[|rd.msgs|]].gen == rd.gens[|rd.msgs|]
    case Fault(r) =>
      r in c.readings && var rd := c.readings[r];
      |rd.slots| == |rd.gens| && forall k :: 0 <= k < |rd.slots| ==> StillOwn(c.w, rd, k)
    case _ => true
  }

  lemma BatchIn(h: Host)
    ensures forall t :: t in Batch(h) ==> t in h.cmpQ
    ensures forall t :: t in h.cmpQ[BatchSize(h)..] ==> t in h.cmpQ
  {}

  lemma BatchIds(w: World)
    requires w.Shaped() && Sound(w)
    ensures NoDup(Ids(w.h, Batch(w.h)))
    ensures forall t :: w.h.Listed(t) && t !in Batch(w.h) ==> IdOf(w.h, t) !in Ids(w.h, Batch(w.h))
    ensures forall x :: x in Ids(w.h, Batch(w.h)) ==> x in w.accepted
  {
    var b := Batch(w.h);
    BatchNoDup(w);
    BatchIn(w.h);
    hide Sound, Batch;
    var ids := Ids(w.h, b);
    forall i, j | 0 <= i < j < |ids| ensures ids[i] != ids[j] {
      assert b[i] in b && b[j] in b;
      IdsDiffer(w, b[i], b[j]);
    }
    forall t | w.h.Listed(t) && t !in b ensures IdOf(w.h, t) !in ids {
      forall i | 0 <= i < |ids| ensures ids[i] != IdOf(w.h, t) {
        assert b[i] in b;
        IdsDiffer(w, b[i], t);
      }
    }
    forall x | x in ids ensures x in w.accepted {
      var i :| 0 <= i < |ids| && ids[i] == x;
      assert b[i] in b;
      QueuedEntry(w, b[i]);
    }
  }

  /** The commands a read takes are nobody's yet. */
  lemma BatchIsNew(c: Split)
    requires QueuesOnce(c)
    ensures forall x :: x in Ids(c.w.h, Batch(c.w.h)) ==> !Served(c, x)
  {
    var b := Batch(c.w.h);
    BatchIn(c.w.h);
    hide Batch, Served, IdOf;
    forall x | x in Ids(c.w.h, b) ensures !Served(c, x) {
      var i :| 0 <= i < |b| && Ids(c.w.h, b)[i] == x;
      assert b[i] in b;
    }
  }

  lemma MovedReads(c: Split, d: Split, r: nat, rd: Reading)
    requires ReadsOnce(c) && r !in c.readings && d.readings == c.readings[r := rd] && d.w.delivered == c.w.delivered
    requires NoDup(rd.slots) && NoDup(rd.ids) && rd.msgs == [] && forall x :: x in rd.ids ==> !Served(c, x)
    ensures ReadsOnce(d) && forall x :: Served(d, x) <==> Served(c, x) || x in rd.ids
  {
    hide NoDup;
    forall x ensures InReading(d, x) <==> InReading(c, x) || x in rd.ids {
      if x in rd.ids { assert Holds(d.readings[r], x); }
      if InReading(c, x) {
        var q :| q in c.readings && Holds(c.readings[q], x);
        assert d.readings[q] == c.readings[q];
      }
    }
  }

  lemma MovedQueues(c: Split, d: Split)
    requires QueuesOnce(c) && d.w.h == MoveBatch(c.w.h)
    requires forall x :: Served(d, x) <==> Served(c, x) || x in Ids(c.w.h, Batch(c.w.h))
    requires forall t :: t in Batch(c.w.h) ==> t !in c.w.h.cmpQ[BatchSize(c.w.h)..] && t !in c.w.h.reqQ
    requires forall t :: c.w.h.Listed(t) && t !in Batch(c.w.h) ==> IdOf(c.w.h, t) !in Ids(c.w.h, Batch(c.w.h))
    ensures QueuesOnce(d)
  {
    BatchIn(c.w.h);
    var b := Batch(c.w.h);
    forall t | t in b ensures IdOf(c.w.h, t) in Ids(c.w.h, b) {
      var i :| 0 <= i < |b| && b[i] == t;
      assert Ids(c.w.h, b)[i] == IdOf(c.w.h, t);
    }
    hide Batch, Served, BatchSize;
    assert forall t: nat :: IdOf(d.w.h, t) == IdOf(c.w.h, t);
    hide IdOf;
  }

  lemma MoveKeepsOnce(c: Split, r: nat)
    requires Known(c) && Once(c) && CanAct(c, Move(r))
    ensures Once(After(c, Move(r)))
  {
    var d, b := After(c, Move(r)), Batch(c.w.h);
    hide Sound, NoDup, Ids, IdOf, ReadingOk, SplitShaped, ReadsOnce, QueuesOnce, Batch, MoveBatch, Served;
    BatchIds(c.w);
    BatchNoDup(c.w);
    BatchApart(c.w);
    BatchIsNew(c);
    MovedReads(c, d, r, d.readings[r]);
    MovedQueues(c, d);
  }

  lemma BatchApart(w: World)
    requires w.Shaped() && Sound(w)
    ensures forall t :: t in Batch(w.h) ==> t !in w.h.cmpQ[BatchSize(w.h)..] && t !in w.h.reqQ
  {
    ReachableReady(Normal(w));
    BatchParts(Normal(w).h);
  }

  lemma MarkNames(c: Split, r: nat)
    requires Known(c) && CanAct(c, Mark(r)) && Own(c, Mark(r))
    ensures var rd := c.readings[r];
      |rd.ids| == |rd.slots| && IdOf(c.w.h, rd.slots[|rd.msgs|]) == rd.ids[|rd.msgs|]
  {
    hide Sound, NoDup;
    var rd := c.readings[r];
    var k := |rd.msgs|;
    assert ReadingOk(c.w, rd) && EntryOk(c.w, rd.slots[k], rd.gens[k], rd.ids[k]);
  }

  lemma MarkIs(c: Split, r: nat)
    requires SplitShaped(c) && CanAct(c, Mark(r))
    ensures var d, rd := After(c, Mark(r)), c.readings[r];
      && d.readings == c.readings[r := rd.(msgs := rd.msgs + [IdOf(c.w.h, rd.slots[|rd.msgs|])])]
      && d.w == c.w.(h := d.w.h) && d.w.h == c.w.h.(slots := d.w.h.slots)
      && forall t: nat :: IdOf(d.w.h, t) == IdOf(c.w.h, t)
  {}

  /** One message more that names what the reading holds. */
  lemma OneMoreNamed(c: Split, d: Split, r: nat)
    requires ReadsOnce(c) && r in c.readings && |c.readings[r].msgs| < |c.readings[r].ids|
    requires var rd := c.readings[r];
      d.readings == c.readings[r := rd.(msgs := rd.msgs + [rd.ids[|rd.msgs|]])] && d.w.delivered == c.w.delivered
    ensures ReadsOnce(d) && forall x :: Served(d, x) <==> Served(c, x)
  {
    hide NoDup;
    var rd := c.readings[r];
    assert d.readings[r].msgs == rd.ids[..|rd.msgs| + 1];
    assert forall q, x :: q in c.readings ==> (Holds(d.readings[q], x) <==> Holds(c.readings[q], x));
  }

  /** A mark that finds its slot at the allocation that was read names the request that was read. */
  lemma MarkKeepsOnce(c: Split, r: nat)
    requires Known(c) && Once(c) && CanAct(c, Mark(r)) && Own(c, Mark(r))
    ensures Once(After(c, Mark(r)))
  {
    hide Sound, ReadsOnce, ReadingsOk, Served, IdOf, Own, After;
    var d := After(c, Mark(r));
    MarkNames(c, r);
    MarkIs(c, r);
    OneMoreNamed(c, d, r);
  }

  lemma DeliverKeepsOnce(c: Split, r: nat)
    requires Known(c) && Once(c) && CanAct(c, Deliver(r))
    ensures Once(After(c, Deliver(r)))
  {
    var d, rd := After(c, Deliver(r)), c.readings[r];
    assert rd.msgs == rd.ids;
    NoDupParts(c.w.delivered, rd.ids);
    hide Sound, NoDup, IdOf;
    assert forall x :: x in d.w.delivered <==> x in c.w.delivered || Holds(rd, x);
    forall x ensures Served(d, x) <==> Served(c, x) {
      if InReading(c, x) && !Holds(rd, x) {
        var q :| q in c.readings && Holds(c.readings[q], x);
        assert q in d.readings && d.readings[q] == c.readings[q];
      }
    }
  }

  // ----- The rollback -----

  /** A reading that holds a queued request read it from the very slot it is queued in. */
  lemma HeldIsOwn(c: Split, r: nat, t: nat)
    requires Known(c) && r in c.readings && c.w.h.Listed(t) && Holds(c.readings[r], IdOf(c.w.h, t))
    ensures exists k :: 0 <= k < |c.readings[r].slots| && c.readings[r].slots[k] == t && StillOwn(c.w, c.readings[r], k)
  {
    var rd := c.readings[r];
    var k :| 0 <= k < |rd.ids| && rd.ids[k] == IdOf(c.w.h, t);
    hide Sound, NoDup;
    QueuedEntry(c.w, t);
    assert ReadingOk(c.w, rd) && EntryOk(c.w, rd.slots[k], rd.gens[k], rd.ids[k]);
    assert rd.slots[k] == t && StillOwn(c.w, rd, k);
  }

  lemma OwnIsHeld(c: Split, r: nat, k: nat)
    requires Known(c) && r in c.readings && k < |c.readings[r].slots| && StillOwn(c.w, c.readings[r], k)
    ensures IdOf(c.w.h, c.readings[r].slots[k]) == c.readings[r].ids[k]
    ensures Holds(c.readings[r], IdOf(c.w.h, c.readings[r].slots[k]))
  {
    hide Sound, NoDup;
    var rd := c.readings[r];
    assert ReadingOk(c.w, rd) && EntryOk(c.w, rd.slots[k], rd.gens[k], rd.ids[k]);
  }

  /** A rollback lets go of what its reading holds and of nothing else. */
  lemma FaultReads(c: Split, d: Split, r: nat)
    requires ReadsOnce(c) && r in c.readings && d.readings == c.readings - {r} && d.w.delivered == c.w.delivered
    ensures ReadsOnce(d) && forall x :: Served(d, x) <==> Served(c, x) && !Holds(c.readings[r], x)
  {
    hide NoDup, Holds;
    forall x ensures InReading(d, x) <==> InReading(c, x) && !Holds(c.readings[r], x) {
      if InReading(c, x) && !Holds(c.readings[r], x) {
        var q :| q in c.readings && Holds(c.readings[q], x);
        assert q in d.readings && d.readings[q] == c.readings[q];
      }
    }
  }

  /** The slot of a batch comes back as a command that nobody has read if and only if it is still at the allocation that
      was read, or waits for a read anyway. */
  lemma PutBackIff(c: Split, d: Split, r: nat, k: nat)
    requires Known(c) && QueuesOnce(c) && r in c.readings && k < |c.readings[r].slots|
    requires c.w.h.Listed(c.readings[r].slots[k])
    requires forall x :: Served(d, x) <==> Served(c, x) && !Holds(c.readings[r], x)
    ensures var t := c.readings[r].slots[k];
      !Served(d, IdOf(c.w.h, t)) <==> StillOwn(c.w, c.readings[r], k) || t !in c.w.h.rspQ
  {
    var rd, t := c.readings[r], c.readings[r].slots[k];
    hide Sound, Served, IdOf, ReadingOk;
    if StillOwn(c.w, rd, k) {
      OwnIsHeld(c, r, k);
    } else if Holds(rd, IdOf(c.w.h, t)) {
      HeldIsOwn(c, r, t);
      assert false;
    }
  }

  /** Put back, entry `k` is not read a second time. */
  ghost predicate Harmless(w: World, rd: Reading, k: nat)
    requires k < |rd.slots| == |rd.gens|
  {
    StillOwn(w, rd, k) || rd.slots[k] !in w.h.rspQ
  }

  lemma FaultQueuesIff(c: Split, d: Split, r: nat)
    requires Known(c) && QueuesOnce(c) && r in c.readings
    requires RolledTo(c.w.h, d.w.h, c.readings[r].slots) && forall t: nat :: IdOf(d.w.h, t) == IdOf(c.w.h, t)
    requires forall t :: t in c.readings[r].slots ==> c.w.h.Listed(t)
    requires forall x :: Served(d, x) <==> Served(c, x) && !Holds(c.readings[r], x)
    ensures QueuesOnce(d) <==> forall k :: 0 <= k < |c.readings[r].slots| ==> Harmless(c.w, c.readings[r], k)
  {
    var rd := c.readings[r];
    hide Sound, Served, IdOf, ReadingOk, NoDup, Holds;
    forall k | 0 <= k < |rd.slots| ensures !Served(d, IdOf(c.w.h, rd.slots[k])) <==> Harmless(c.w, rd, k) {
      PutBackIff(c, d, r, k);
    }
    forall t | t in c.w.h.rspQ && t !in rd.slots ensures !Holds(rd, IdOf(c.w.h, t)) {
      if Holds(rd, IdOf(c.w.h, t)) { HeldIsOwn(c, r, t); }
    }
    hide StillOwn, Harmless;
    if forall k :: 0 <= k < |rd.slots| ==> Harmless(c.w, rd, k) {
      assert forall t :: t in rd.slots ==> !Served(d, IdOf(c.w.h, t));
    } else {
      var k :| 0 <= k < |rd.slots| && !Harmless(c.w, rd, k);
      assert rd.slots[k] in rd.slots;
      assert rd.slots[k] in d.w.h.cmpQ;
    }
  }

  lemma RolledWorld(c: Split, r: nat)
    requires Known(c) && CanAct(c, Fault(r))
    ensures RolledTo(c.w.h, After(c, Fault(r)).w.h, c.readings[r].slots)
    ensures forall t: nat :: IdOf(After(c, Fault(r)).w.h, t) == IdOf(c.w.h, t)
  {
    SoundCounts(c.w);
    RollBackTo(c.w.h, c.readings[r].slots);
    RollBackElse(c.w.h, c.readings[r].slots);
    hide RollBack, NoDup, RolledTo, Sound;
  }

  /** Given that all slots are linked, the rollback makes no request be read twice if and only if each slot still
      holds the allocation that was read, or holds a command that nobody has read. */
  lemma RollBackOnceIff(c: Split, r: nat)
    requires Known(c) && Once(c) && CanAct(c, Fault(r)) && Linked(c, Fault(r))
    ensures Once(After(c, Fault(r))) <==>
      forall k :: 0 <= k < |c.readings[r].slots| ==> Harmless(c.w, c.readings[r], k)
  {
    var d := After(c, Fault(r));
    hide SplitOk, ReadingsOk, ReadsOnce, QueuesOnce, RollBack, RolledTo, IdOf, Served, Holds, Harmless;
    RolledWorld(c, r);
    FaultReads(c, d, r);
    FaultQueuesIff(c, d, r);
    assert d.w.accepted == c.w.accepted;
  }

  lemma OwnIsLinked(c: Split, a: Act)
    requires Own(c, a)
    ensures Linked(c, a)
  {
    if a.Fault? {
      var rd := c.readings[a.r];
      forall t | t in rd.slots ensures c.w.h.Listed(t) {
        var k :| 0 <= k < |rd.slots| && rd.slots[k] == t;
        assert StillOwn(c.w, rd, k);
      }
    }
  }

  lemma ActKeepsOnce(c: Split, a: Act)
    requires Known(c) && Once(c) && CanAct(c, a) && Own(c, a)
    ensures Known(After(c, a)) && Once(After(c, a))
  {
    hide SplitOk, ReadingsOk, Once;
    OwnIsLinked(c, a);
    ActKeeps(c, a);
    ActKeepsReadings(c, a);
    match a
    case Other(s) => OtherKeepsOnce(c, s);
    case Move(r) => MoveKeepsOnce(c, r);
    case Mark(r) => MarkKeepsOnce(c, r);
    case Deliver(r) => DeliverKeepsOnce(c, r);
    case Fault(r) => RollBackOnceIff(c, r);
  }

  /** Every mark and every rollback of the run finds its slots as they were read. */
  ghost predicate AlwaysOwn(c: Split, acts: seq<Act>)
    decreases |acts|
  {
    acts != [] ==>
      && SplitShaped(c) && CanAct(c, acts[0]) && Own(c, acts[0])
      && AlwaysOwn(After(c, acts[0]), acts[1..])
  }

  lemma {:induction false} RunKeepsOnce(c: Split, acts: seq<Act>, last: Split)
    requires Known(c) && Once(c) && SplitRun(c, acts, last) && AlwaysOwn(c, acts)
    ensures Known(last) && Once(last)
    decreases |acts|
  {
    hide Known, Once, SplitShaped, CanAct, Own, After;
    if acts != [] {
      ActKeepsOnce(c, acts[0]);
      RunKeepsOnce(After(c, acts[0]), acts[1..], last);
    }
  }

  /** Over every run of split reads and everything else in which marks and rollbacks find their slots as they were read,
      the target reads no request twice, however many copies fault, and only requests that were submitted. */
  lemma NothingReadTwice(c0: Split, acts: seq<Act>, c: Split)
    requires Init(c0.w) && NoReadings(c0) && SplitRun(c0, acts, c) && AlwaysOwn(c0, acts)
    ensures NoDup(c.w.delivered) && forall x :: x in c.w.delivered ==> x in c.w.accepted
  {
    InitSplit(c0);
    hide SplitOk;
    RunKeepsOnce(c0, acts, c);
    assert forall x :: x in c.w.delivered ==> Served(c, x);
  }

  // ----- Whose commands come back -----

  /** The rollback is sound and puts back its own commands and no others if and only if each of its slots is linked and
      still holds the allocation that was read. */
  lemma RollBackOwnIff(c: Split, r: nat)
    requires Known(c) && CanAct(c, Fault(r))
    ensures var v, rd := After(c, Fault(r)).w, c.readings[r];
      (Sound(v) && forall k :: 0 <= k < |rd.slots| ==> v.h.slots[rd.slots[k]].scsiCmd == Some(rd.ids[k])) <==>
      forall k :: 0 <= k < |rd.slots| ==> StillOwn(c.w, rd, k)
  {
    hide Sound, RollBack, NoDup, StillOwn, ReadingsOk, Host.Listed;
    var v, rd := After(c, Fault(r)).w, c.readings[r];
    RequestsKept(c.w.h, rd.slots);
    RollBackSoundIff(c.w, rd.slots);
    forall k | 0 <= k < |rd.slots|
      ensures StillOwn(c.w, rd, k) <==> c.w.h.Listed(rd.slots[k]) && c.w.h.slots[rd.slots[k]].scsiCmd == Some(rd.ids[k])
    {
      StillOwnMeans(c, r, k);
    }
    AllListed(c.w.h, rd.slots);
    assert forall k :: 0 <= k < |rd.slots| ==> v.h.slots[rd.slots[k]].scsiCmd == c.w.h.slots[rd.slots[k]].scsiCmd;
  }

  lemma AllListed(h: Host, b: seq<nat>)
    ensures (forall t :: t in b ==> h.Listed(t)) <==> forall k :: 0 <= k < |b| ==> h.Listed(b[k])
  {
    hide Host.Listed;
    if forall k :: 0 <= k < |b| ==> h.Listed(b[k]) {
      forall t | t in b ensures h.Listed(t) {
        var k :| 0 <= k < |b| && b[k] == t;
      }
    }
  }

  lemma RequestsKept(h: Host, b: seq<nat>)
    requires InRange(b, h.Nr())
    ensures forall t :: 0 <= t < |h.slots| ==> RollBack(h, b).slots[t].scsiCmd == h.slots[t].scsiCmd
  {
    RollBackElse(h, b);
  }

  lemma StillOwnMeans(c: Split, r: nat, k: nat)
    requires Known(c) && r in c.readings && k < |c.readings[r].slots|
    ensures var rd := c.readings[r];
      StillOwn(c.w, rd, k) <==> c.w.h.Listed(rd.slots[k]) && c.w.h.slots[rd.slots[k]].scsiCmd == Some(rd.ids[k])
  {
    hide Sound, NoDup;
    var rd := c.readings[r];
    assert ReadingOk(c.w, rd) && EntryOk(c.w, rd.slots[k], rd.gens[k], rd.ids[k]);
  }

  /** The driver can tell: with fewer than 2^32 allocations since the move, the slot holds the allocation that was read
      if and only if it still carries its serial. */
  lemma OwnBySerial(c: Split, r: nat, k: nat)
    requires Known(c) && r in c.readings && k < |c.readings[r].slots| && c.w.allocs - c.readings[r].gens[k] < TWO32
    ensures var t, g := c.readings[r].slots[k], c.readings[r].gens[k];
      c.w.h.slots[t].cmdSn == g % TWO32 <==> c.w.books[t].gen == g
  {
    var rd := c.readings[r];
    var t, g := rd.slots[k], rd.gens[k];
    assert ReadingOk(c.w, rd) && EntryOk(c.w, t, g, rd.ids[k]);
    SerialOf(c.w, t);
    hide Sound, NoDup;
    ModsAgree(c.w.books[t].gen, g);
    NearMultiple(c.w.books[t].gen - g);
  }

  lemma SerialOf(w: World, t: nat)
    requires w.Shaped() && Sound(w) && t < |w.books| && w.books[t].gen > 0
    ensures w.h.slots[t].cmdSn == w.books[t].gen % TWO32 && w.books[t].gen <= w.allocs
  {
    assert SlotOk(Normal(w), t);
  }
}
