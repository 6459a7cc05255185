/** Whose commands a split read serves: what a slot number is worth once the lock was dropped. */
module SplitReaders {
  import opened Seqs
  import opened HostState
  import opened Lifecycle
  import opened Calls
  import opened SplitRead
  import opened SplitRuns

  // ----- What a reading knows of its slots -----

  /** An entry of a reading: its slot was at the allocation `gen`, which carries the request `id`; no other allocation
      of the slot ever does. */
  ghost predicate EntryOk(w: World, t: nat, gen: nat, id: nat)
    requires w.Shaped() && t < |w.books|
  {
    && 0 < gen <= w.books[t].gen && id in w.accepted && id in w.home && w.home[id] == t
    && (w.books[t].gen == gen ==> !w.Phase(t).Submitting? && w.h.slots[t].scsiCmd == Some(id))
    && (w.books[t].gen != gen ==> w.h.slots[t].scsiCmd != Some(id))
  }

  ghost predicate ReadingOk(w: World, rd: Reading)
    requires w.Shaped() && ReadingShaped(rd, |w.books|)
  {
    forall k :: 0 <= k < |rd.slots| ==> EntryOk(w, rd.slots[k], rd.gens[k], rd.ids[k])
  }

  ghost predicate ReadingsOk(c: Split)
    requires SplitShaped(c)
  {
    forall r :: r in c.readings ==> ReadingOk(c.w, c.readings[r])
  }

  /** What a step can do to a slot's allocation and request. */
  ghost predicate SlotMoves(w: World, v: World, s: Step, t: nat)
    requires w.Shaped() && v.Shaped() && t < |w.books| == |v.books|
  {
    || (v.books[t].gen == w.books[t].gen && v.h.slots[t].scsiCmd == w.h.slots[t].scsiCmd
        && (v.Phase(t).Submitting? ==> w.Phase(t).Submitting?))
    || (s.Submit? && s.t == t && v.books[t].gen == w.books[t].gen && w.Phase(t).Submitting?
        && v.h.slots[t].scsiCmd == Some(s.sc))
    || (s.AllocStep? && v.books[t].gen == w.allocs + 1 && v.h.slots[t].scsiCmd == None && t !in w.h.bits)
  }

  lemma OtherMoves(w: World, s: Step, t: nat)
    requires w.Shaped() && Enabled(w, s) && !s.GetStep? && t < |w.books|
    ensures Apply(w, s).Shaped() && |Apply(w, s).books| == |w.books| && SlotMoves(w, Apply(w, s), s, t)
  {
    ShapeStays(w, s);
    hide EditOf, Apply;
    if IsEdit(s) {
      EditMoves(w, s, t);
      EditApplied(w, s);
    } else {
      QueueStepMoves(w, s, t);
    }
  }

  lemma EditMoves(w: World, s: Step, t: nat)
    requires w.Shaped() && Enabled(w, s) && IsEdit(s) && t < |w.books|
    ensures EditOf(w, s).0.gen == w.books[s.t].gen
    ensures s.t == t ==> !EditOf(w, s).0.phase.Submitting? || w.Phase(t).Submitting?
  {}

  lemma QueueStepMoves(w: World, s: Step, t: nat)
    requires w.Shaped() && Enabled(w, s) && !IsEdit(s) && !s.GetStep? && t < |w.books| == |Apply(w, s).books|
    requires Apply(w, s).Shaped()
    ensures SlotMoves(w, Apply(w, s), s, t)
  {
    hide EditOf, Remove, IdOf;
  }

  lemma OtherAccepts(w: World, s: Step)
    requires w.Shaped() && Enabled(w, s) && !s.GetStep?
    ensures forall x :: x in w.accepted ==> x in Apply(w, s).accepted
    ensures forall x :: x in w.accepted && x in w.home ==> x in Apply(w, s).home && Apply(w, s).home[x] == w.home[x]
    ensures Apply(w, s).delivered == w.delivered
    ensures s.Submit? ==> s.sc !in w.accepted
  {
    hide EditOf, FirstFree, Remove, IdOf;
  }

  lemma EntryStays(w: World, s: Step, t: nat, gen: nat, id: nat)
    requires w.Shaped() && Sound(w) && Enabled(w, s) && !s.GetStep? && t < |w.books| && EntryOk(w, t, gen, id)
    ensures Apply(w, s).Shaped() && t < |Apply(w, s).books| && EntryOk(Apply(w, s), t, gen, id)
  {
    OtherMoves(w, s, t);
    OtherAccepts(w, s);
    hide Apply;
    assert w.books[t].gen <= w.allocs by { assert GensOk(Normal(w)); }
  }

  lemma ReadingStays(w: World, s: Step, rd: Reading)
    requires w.Shaped() && Sound(w) && Enabled(w, s) && !s.GetStep?
    requires ReadingShaped(rd, |w.books|) && ReadingOk(w, rd)
    ensures Apply(w, s).Shaped() && |Apply(w, s).books| == |w.books| && ReadingOk(Apply(w, s), rd)
  {
    ShapeStays(w, s);
    hide Apply, EntryOk, Sound;
    forall k | 0 <= k < |rd.slots| ensures EntryOk(Apply(w, s), rd.slots[k], rd.gens[k], rd.ids[k]) {
      EntryStays(w, s, rd.slots[k], rd.gens[k], rd.ids[k]);
    }
  }

  /** What the invariant says of a queued slot. */
  lemma QueuedEntry(w: World, t: nat)
    requires w.Shaped() && Sound(w) && w.h.Listed(t)
    ensures t < |w.books| && w.h.slots[t].scsiCmd.Some? && w.Phase(t).Queued? && w.books[t].gen > 0 && t in w.h.bits
    ensures IdOf(w.h, t) in w.accepted && IdOf(w.h, t) in w.home && w.home[IdOf(w.h, t)] == t
    ensures EntryOk(w, t, w.books[t].gen, IdOf(w.h, t))
  {
    var n := Normal(w);
    ReachableReady(n);
    assert n.h.Listed(t);
    HeadsInRange(n.h);
    assert SlotOk(n, t) && OwedOk(n, t);
  }

  lemma QueuedStays(w: World, s: Step, t: nat)
    requires w.Shaped() && Sound(w) && Enabled(w, s) && !s.GetStep? && w.h.Listed(t)
    ensures t < |w.books| && Apply(w, s).Shaped() && Apply(w, s).h.slots[t].scsiCmd == w.h.slots[t].scsiCmd
  {
    hide Apply, Sound, EntryOk;
    QueuedEntry(w, t);
    OtherMoves(w, s, t);
  }

  // ----- Where commands can go without a read -----

  ghost predicate Feeds(w: World, v: World, s: Step) {
    && (forall t :: t in v.h.reqQ ==> t in w.h.reqQ || (s.Submit? && t == s.t))
    && (forall t :: t in v.h.cmpQ ==> t in w.h.cmpQ || t in w.h.reqQ)
    && (forall t :: t in v.h.rspQ ==> t in w.h.rspQ)
  }

  lemma TakeFeeds(w: World, t: nat, b: Book, s: Step)
    requires w.Shaped() && t < |w.books|
    ensures Feeds(w, Take(w, t, b), s)
  {
    RemoveElems(w.h.reqQ, t);
    RemoveElems(w.h.cmpQ, t);
    RemoveElems(w.h.rspQ, t);
    hide Remove;
  }

  lemma OtherFeeds(w: World, s: Step)
    requires w.Shaped() && Enabled(w, s) && !s.GetStep?
    ensures Feeds(w, Apply(w, s), s)
  {
    hide Take, EditOf, Edit, Alloc;
    if IsEdit(s) {
      EditApplied(w, s);
      var (b, op, finished) := EditOf(w, s);
      EditFeeds(w, s.t, b, op, finished, s);
    } else if s.Respond? && Addressed(w.h, s.tag, s.sn) {
      TakeFeeds(w, s.tag, w.books[s.tag].(phase := RespTaken(s.outcome)), s);
    } else if s.TakeStep? {
      var t := QueueOf(w.h, s.q)[0];
      TakeFeeds(w, t, w.books[t].(phase := SweepTaken), s);
    } else if s.AbortDecide? {
      var b := w.books[s.t].(waiting := w.books[s.t].waiting - multiset{s.sc});
      if w.h.Listed(s.t) { TakeFeeds(w, s.t, b.(phase := AbortTaken(s.sc)), s); }
      else { EditFeeds(w, s.t, b.(leaving := b.leaving + 1), KEEP, [], s); }
    } else if s.AllocStep? {
      AllocFeeds(w);
    }
  }

  lemma EditFeeds(w: World, t: nat, b: Book, op: RefOp, finished: seq<Completion>, s: Step)
    requires w.Shaped() && t < |w.books|
    ensures Feeds(w, Edit(w, t, b, op, finished), s)
  {}

  lemma AllocFeeds(w: World)
    requires w.Shaped() && Alloc(w.h).1.Some?
    ensures Feeds(w, DoAlloc(w), AllocStep)
  {}

  // ----- Readings stay true -----

  /** Same books, requests and records: only stats, queues and what the target has read may differ. */
  ghost predicate SameBooks(w: World, v: World) {
    && v.books == w.books && v.accepted == w.accepted && v.home == w.home && v.allocs == w.allocs
    && |v.h.slots| == |w.h.slots|
    && forall t :: 0 <= t < |w.h.slots| ==> v.h.slots[t].scsiCmd == w.h.slots[t].scsiCmd
  }

  lemma ReaderSameBooks(c: Split, a: Act)
    requires SplitShaped(c) && CanAct(c, a) && !a.Other?
    ensures SameBooks(c.w, After(c, a).w)
  {
    if a.Fault? { RollBackElse(c.w.h, c.readings[a.r].slots); }
    hide RollBack;
  }

  lemma SameBooksKeep(w: World, v: World, rd: Reading)
    requires w.Shaped() && v.Shaped() && SameBooks(w, v) && ReadingShaped(rd, |w.books|) && ReadingOk(w, rd)
    ensures ReadingOk(v, rd)
  {
    forall k | 0 <= k < |rd.slots| ensures EntryOk(v, rd.slots[k], rd.gens[k], rd.ids[k]) {
      assert EntryOk(w, rd.slots[k], rd.gens[k], rd.ids[k]);
    }
  }

  lemma BatchListedIn(h: Host, k: nat)
    requires k < |Batch(h)|
    ensures h.Listed(Batch(h)[k])
  {}

  /** A batch just moved holds what it says. */
  lemma NewReadingOk(w: World)
    requires w.Shaped() && Sound(w) && InRange(Batch(w.h), |w.books|)
    ensures ReadingOk(w, Reading(Batch(w.h), GensAt(w, Batch(w.h)), Ids(w.h, Batch(w.h)), []))
  {
    hide Sound, EntryOk, Batch;
    var b := Batch(w.h);
    forall k | 0 <= k < |b| ensures EntryOk(w, b[k], w.books[b[k]].gen, IdOf(w.h, b[k])) {
      BatchListedIn(w.h, k);
      QueuedEntry(w, b[k]);
    }
  }

  lemma ActKeepsReadings(c: Split, a: Act)
    requires SplitOk(c) && ReadingsOk(c) && CanAct(c, a)
    ensures SplitShaped(After(c, a)) && ReadingsOk(After(c, a))
  {
    ActKeepsShape(c, a);
    hide Sound, Apply, Enabled, ReadingOk, RollBack, NoDup, SameBooks;
    var d := After(c, a);
    if a.Other? {
      forall r | r in d.readings ensures ReadingOk(d.w, d.readings[r]) { ReadingStays(c.w, a.s, c.readings[r]); }
    } else {
      ReaderSameBooks(c, a);
      if a.Move? { NewReadingOk(c.w); }
      forall r | r in d.readings ensures ReadingOk(d.w, d.readings[r]) { ReadingAfter(c, a, r); }
    }
  }

  lemma ReadingAfter(c: Split, a: Act, r: nat)
    requires SplitShaped(c) && ReadingsOk(c) && CanAct(c, a) && !a.Other? && r in After(c, a).readings
    requires SplitShaped(After(c, a)) && SameBooks(c.w, After(c, a).w)
    requires a.Move? ==> ReadingOk(c.w, Reading(Batch(c.w.h), GensAt(c.w, Batch(c.w.h)), Ids(c.w.h, Batch(c.w.h)), []))
    ensures ReadingOk(After(c, a).w, After(c, a).readings[r])
  {
    hide SameBooks, EntryOk, RollBack;
    var d := After(c, a);
    if a.Move? && r == a.r {
      SameBooksKeep(c.w, d.w, d.readings[r]);
    } else {
      assert ReadingOk(c.w, c.readings[r]);
      SameBooksKeep(c.w, d.w, c.readings[r]);
    }
  }
}
