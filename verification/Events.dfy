/** Event delivery: requests of the error handlers, read and answered by the target. One call is one step. */
module Events {
  import opened Seqs
  import opened HostState

  datatype EvStat = EvInit | EvRead | EvResp

  datatype Ev = Ev(stat: EvStat, sn: nat)

  /** The event side of a host. `gens`, `allocs`, `aborted` and `shots` are its history: which allocation each
      slot holds (0 for none), how many there were, which were swept off the queues, and for which the
      callback ran with EVENT_SHOOT, in order. */
  datatype Side = Side(tbl: seq<Ev>, bits: set<nat>, reqQ: seq<nat>, rspQ: seq<nat>, eventSn: nat,
                       gens: seq<nat>, allocs: nat, aborted: set<nat>, shots: seq<nat>)
  {
    predicate Linked(t: nat) { t in reqQ || t in rspQ }
  }

  const PAGE_SIZE: nat := 4096

  /** What the target writes back: the header, whether the copies fault, and the length inside the message. */
  datatype Answer = Answer(headFault: bool, tag: nat, sn: nat, dataLength: nat, dataFault: bool, innerLength: nat)

  datatype Call =
    | Raise
    | GetEvent(fault: bool)
    | Respond(a: Answer, len: nat)
    | Delete(t: nat)
    | AbortAll

  /** `vsc_event_alloc` and `vsc_event_add`, when a slot is free. */
  function RaiseOn(s: Side): (v: Side)
    requires |s.gens| == |s.tbl|
    ensures |v.gens| == |v.tbl| == |s.tbl|
  {
    var i := FirstFree(s.bits, 0, |s.tbl|);
    if i == |s.tbl| then s
    else
      var sn := (s.eventSn + 1) % TWO64;
      s.(tbl := s.tbl[i := Ev(EvInit, sn % TWO32)], bits := s.bits + {i}, reqQ := s.reqQ + [i], eventSn := sn,
         gens := s.gens[i := s.allocs + 1], allocs := s.allocs + 1)
  }

  /** `vsc_get_event`: the oldest request moves to the answer queue; a faulted copy sends it to the back. */
  function GetOn(s: Side, fault: bool): (v: Side)
    requires s.reqQ == [] || s.reqQ[0] < |s.tbl|
    ensures |v.tbl| == |s.tbl|
  {
    if s.reqQ == [] then s
    else if fault then s.(reqQ := s.reqQ[1..] + [s.reqQ[0]])
    else
      var t := s.reqQ[0];
      s.(reqQ := s.reqQ[1..], rspQ := s.rspQ + [t], tbl := s.tbl[t := s.tbl[t].(stat := EvRead)])
  }

  /** The header names an event the target has read and not answered. */
  predicate Matches(s: Side, tag: nat, sn: nat) {
    tag < |s.tbl| && s.tbl[tag].stat == EvRead && s.tbl[tag].sn == sn
  }

  predicate LengthsOk(a: Answer, len: nat) {
    a.dataLength <= len && a.dataLength < PAGE_SIZE && !a.dataFault && a.innerLength <= a.dataLength
  }

  /** `vsc_response_event`: a matching header marks the event answered, whatever becomes of the rest. */
  function RespondOn(s: Side, a: Answer, len: nat): (v: Side)
    requires |s.gens| == |s.tbl|
    ensures |v.tbl| == |s.tbl|
  {
    if a.headFault || !Matches(s, a.tag, a.sn) then s
    else
      var v := s.(tbl := s.tbl[a.tag := s.tbl[a.tag].(stat := EvResp)]);
      if LengthsOk(a, len) then v.(shots := s.shots + [s.gens[a.tag]]) else v
  }

  /** `vsc_event_del`: the handler is done with its event. */
  function DeleteOn(s: Side, t: nat): Side {
    s.(reqQ := Remove(s.reqQ, t), rspQ := Remove(s.rspQ, t), bits := s.bits - {t})
  }

  function GensOf(s: Side, q: seq<nat>): set<nat> {
    set t | t in q && t < |s.gens| :: s.gens[t]
  }

  /** `vsc_abort_all_event`: both queues are emptied; the slots stay with their handlers. */
  function AbortOn(s: Side): Side {
    s.(reqQ := [], rspQ := [], aborted := s.aborted + GensOf(s, s.reqQ) + GensOf(s, s.rspQ))
  }

  /** The sweep empties both queues and leaves every slot as it is; swept off are the events that were linked, and no
      others. */
  lemma AbortedIs(s: Side)
    requires |s.gens| == |s.tbl|
    ensures var v := AbortOn(s);
      && v.reqQ == v.rspQ == [] && v == s.(reqQ := [], rspQ := [], aborted := v.aborted)
      && forall g :: g in v.aborted <==>
           g in s.aborted || exists t: nat :: t < |s.gens| && s.Linked(t) && s.gens[t] == g
  {
    var v := AbortOn(s);
    forall t: nat | t < |s.gens| && s.Linked(t) ensures s.gens[t] in v.aborted {
      if t in s.reqQ { assert s.gens[t] in GensOf(s, s.reqQ); } else { assert s.gens[t] in GensOf(s, s.rspQ); }
    }
  }

  ghost predicate Inv(s: Side) { |s.gens| == |s.tbl| && QueuesOk(s) && GensOk(s) && ShotsOk(s) }

  ghost predicate QueuesOk(s: Side)
    requires |s.gens| == |s.tbl|
  {
    && NoDup(s.reqQ) && NoDup(s.rspQ) && (forall t :: t in s.reqQ ==> t !in s.rspQ)
    && (forall t :: t in s.bits ==> t < |s.tbl|)
    && (forall t :: t in s.reqQ ==> t in s.bits && s.tbl[t].stat == EvInit)
    && (forall t :: t in s.rspQ ==> t in s.bits && s.tbl[t].stat != EvInit)
    && (forall t :: t in s.bits ==> s.gens[t] > 0 && (s.Linked(t) <==> s.gens[t] !in s.aborted))
  }

  ghost predicate GensOk(s: Side)
    requires |s.gens| == |s.tbl|
  {
    && s.eventSn == s.allocs % TWO64
    && (forall t :: 0 <= t < |s.tbl| ==> s.gens[t] <= s.allocs)
    && (forall t, u :: 0 <= t < u < |s.tbl| && s.gens[t] > 0 ==> s.gens[t] != s.gens[u])
    && (forall t :: 0 <= t < |s.tbl| && s.gens[t] > 0 ==> s.tbl[t].sn == s.gens[t] % TWO32)
    && (forall t :: 0 <= t < |s.tbl| && s.gens[t] == 0 ==> s.tbl[t].stat == EvInit)
    && (forall g :: g in s.aborted ==> g <= s.allocs)
  }

  ghost predicate ShotsOk(s: Side)
    requires |s.gens| == |s.tbl|
  {
    && NoDup(s.shots) && (forall g :: g in s.shots ==> 0 < g <= s.allocs)
    && (forall t :: 0 <= t < |s.tbl| && s.gens[t] in s.shots ==> s.tbl[t].stat == EvResp)
  }

  /** A handler deletes only an event it holds. */
  predicate Enabled(s: Side, c: Call) { c.Delete? ==> c.t in s.bits }

  lemma InvShaped(s: Side)
    requires Inv(s)
    ensures Shaped(s)
  {
    if s.reqQ != [] { assert s.reqQ[0] in s.reqQ; }
  }

  predicate Shaped(s: Side) { |s.gens| == |s.tbl| && (s.reqQ == [] || s.reqQ[0] < |s.tbl|) }

  ghost function Apply(s: Side, c: Call): Side
    requires Shaped(s) && Enabled(s, c)
  {
    match c
    case Raise => RaiseOn(s)
    case GetEvent(fault) => GetOn(s, fault)
    case Respond(a, len) => RespondOn(s, a, len)
    case Delete(t) => DeleteOn(s, t)
    case AbortAll => AbortOn(s)
  }

  predicate Init(s: Side) {
    && |s.gens| == |s.tbl| && (forall t :: 0 <= t < |s.tbl| ==> s.gens[t] == 0 && s.tbl[t].stat == EvInit)
    && s.bits == {} && s.reqQ == [] && s.rspQ == [] && s.eventSn == 0
    && s.allocs == 0 && s.aborted == {} && s.shots == []
  }

  ghost predicate Run(s: Side, calls: seq<Call>, last: Side)
    decreases |calls|
  {
    if calls == [] then s == last
    else Shaped(s) && Enabled(s, calls[0]) && Run(Apply(s, calls[0]), calls[1..], last)
  }

  lemma RaiseKeepsQueues(s: Side)
    requires |s.gens| == |s.tbl| && QueuesOk(s) && forall g :: g in s.aborted ==> g <= s.allocs
    ensures QueuesOk(RaiseOn(s))
  {
    var i := FirstFree(s.bits, 0, |s.tbl|);
    if i < |s.tbl| {
      NoDupAppend(s.reqQ, i);
      hide NoDup;
      assert forall t :: t in RaiseOn(s).reqQ <==> t in s.reqQ || t == i;
    }
  }

  lemma RaiseKeepsGens(s: Side)
    requires |s.gens| == |s.tbl| && GensOk(s) && ShotsOk(s)
    ensures GensOk(RaiseOn(s)) && ShotsOk(RaiseOn(s))
  {
    hide NoDup;
    SerialWraps(s.allocs);
  }

  lemma RaiseKeeps(s: Side)
    requires Inv(s)
    ensures Inv(RaiseOn(s))
  {
    hide QueuesOk, ShotsOk, RaiseOn;
    RaiseKeepsQueues(s);
    hide GensOk;
    RaiseKeepsGens(s);
  }

  lemma GetKeepsQueues(s: Side, fault: bool)
    requires |s.gens| == |s.tbl| && QueuesOk(s) && (s.reqQ == [] || s.reqQ[0] < |s.tbl|)
    ensures QueuesOk(GetOn(s, fault))
  {
    if s.reqQ != [] {
      var c, rest := s.reqQ[0], s.reqQ[1..];
      assert s.reqQ == [c] + rest;
      NoDupCons(c, rest);
      NoDupAppend(rest, c);
      NoDupAppend(s.rspQ, c);
      hide NoDup;
      assert forall t :: t in s.reqQ <==> t == c || t in rest;
    }
  }

  lemma GetKeeps(s: Side, fault: bool)
    requires Inv(s) && (s.reqQ == [] || s.reqQ[0] < |s.tbl|)
    ensures Inv(GetOn(s, fault))
  {
    hide NoDup;
    if s.reqQ != [] { HeadIsLive(s); }
    GetKeepsQueues(s, fault);
    hide QueuesOk;
  }

  lemma HeadIsLive(s: Side)
    requires Inv(s) && s.reqQ != []
    ensures s.reqQ[0] < |s.tbl| && s.gens[s.reqQ[0]] > 0 && s.tbl[s.reqQ[0]].stat == EvInit
  {
    assert s.reqQ[0] in s.reqQ;
  }

  lemma RespondKeepsQueues(s: Side, a: Answer, len: nat)
    requires |s.gens| == |s.tbl| && QueuesOk(s)
    ensures QueuesOk(RespondOn(s, a, len))
  {
    hide NoDup;
  }

  lemma RespondKeepsGens(s: Side, a: Answer, len: nat)
    requires |s.gens| == |s.tbl| && GensOk(s)
    ensures GensOk(RespondOn(s, a, len))
  {
    hide NoDup;
  }

  /** The answered event was not answered before: its callback has not run. */
  lemma RespondKeepsShots(s: Side, a: Answer, len: nat)
    requires |s.gens| == |s.tbl| && GensOk(s) && ShotsOk(s)
    ensures ShotsOk(RespondOn(s, a, len))
  {
    hide NoDup;
    if Matches(s, a.tag, a.sn) { NoDupAppend(s.shots, s.gens[a.tag]); }
  }

  lemma RespondKeeps(s: Side, a: Answer, len: nat)
    requires Inv(s)
    ensures Inv(RespondOn(s, a, len))
  {
    hide QueuesOk, GensOk, ShotsOk;
    RespondKeepsQueues(s, a, len);
    RespondKeepsGens(s, a, len);
    RespondKeepsShots(s, a, len);
  }

  lemma DeleteKeeps(s: Side, t: nat)
    requires Inv(s) && t in s.bits
    ensures Inv(DeleteOn(s, t))
  {
    hide NoDup, Remove;
    RemoveIs(s.reqQ, t);
    RemoveIs(s.rspQ, t);
    hide GensOk, ShotsOk;
    assert GensOk(DeleteOn(s, t)) && ShotsOk(DeleteOn(s, t)) by { HistoryAlone(s, DeleteOn(s, t)); }
  }

  lemma HistoryAlone(s: Side, v: Side)
    requires |s.gens| == |s.tbl| && GensOk(s) && ShotsOk(s)
    requires v == s.(reqQ := v.reqQ, rspQ := v.rspQ, bits := v.bits)
    ensures GensOk(v) && ShotsOk(v)
  {}

  lemma AbortKeeps(s: Side)
    requires Inv(s)
    ensures Inv(AbortOn(s))
  {}

  lemma CallKeeps(s: Side, c: Call)
    requires Inv(s) && Enabled(s, c)
    ensures Shaped(s) && Inv(Apply(s, c))
  {
    hide Inv, RaiseOn, GetOn, RespondOn, DeleteOn, AbortOn;
    InvShaped(s);
    match c
    case Raise => RaiseKeeps(s);
    case GetEvent(fault) => GetKeeps(s, fault);
    case Respond(a, len) => RespondKeeps(s, a, len);
    case Delete(t) => DeleteKeeps(s, t);
    case AbortAll => AbortKeeps(s);
  }

  lemma {:induction false} RunKeeps(s: Side, calls: seq<Call>, last: Side)
    requires Inv(s) && Run(s, calls, last)
    ensures Inv(last)
    decreases |calls|
  {
    hide Inv, Apply, Enabled;
    if calls != [] {
      CallKeeps(s, calls[0]);
      RunKeeps(Apply(s, calls[0]), calls[1..], last);
    }
  }

  lemma InitInv(s: Side)
    requires Init(s)
    ensures Inv(s)
  {}

  /** Whatever the target sends, the callback of no event instance runs with EVENT_SHOOT twice; and an event that is
      in use and was not swept away is on exactly one of the two queues. */
  lemma ShotAtMostOnce(s0: Side, calls: seq<Call>, s: Side)
    requires Init(s0) && Run(s0, calls, s)
    ensures NoDup(s.shots) && |s.gens| == |s.tbl| && NoDup(s.reqQ + s.rspQ)
    ensures forall t :: t in s.bits ==> t < |s.tbl| && (t in s.reqQ + s.rspQ <==> s.gens[t] !in s.aborted)
  {
    InitInv(s0);
    RunKeeps(s0, calls, s);
    NoDupParts(s.reqQ, s.rspQ);
  }

  lemma CallGrows(s: Side, c: Call, t: nat)
    requires Inv(s) && Shaped(s) && Enabled(s, c) && t < |s.tbl|
    ensures |Apply(s, c).gens| == |s.gens| == |s.tbl| && s.gens[t] <= Apply(s, c).gens[t]
    ensures s.shots <= Apply(s, c).shots
  {
    hide NoDup, ShotsOk, Remove;
  }

  lemma {:induction false} GensGrow(s: Side, calls: seq<Call>, v: Side, t: nat)
    requires Inv(s) && Run(s, calls, v) && t < |s.tbl|
    ensures Inv(v) && t < |v.tbl| && s.gens[t] <= v.gens[t] && s.shots <= v.shots
    decreases |calls|
  {
    hide Apply, Enabled, NoDup, GensOk, ShotsOk;
    if calls != [] {
      CallKeeps(s, calls[0]);
      CallGrows(s, calls[0], t);
      GensGrow(Apply(s, calls[0]), calls[1..], v, t);
    }
  }

  /** An answer naming the instance `a` that slot `tag` once held matches exactly when the slot's event has been read
      and not answered, and is `a` or an allocation a multiple of 2^32 later. */
  lemma StaleEventExactly(s: Side, calls: seq<Call>, v: Side, tag: nat, a: nat)
    requires Inv(s) && Run(s, calls, v) && tag < |s.tbl| && s.gens[tag] == a > 0
    ensures tag < |v.tbl| == |v.gens|
    ensures Matches(v, tag, a % TWO32) <==> v.tbl[tag].stat == EvRead && (v.gens[tag] - a) % TWO32 == 0
    ensures v.allocs - a < TWO32 ==> (Matches(v, tag, a % TWO32) <==> v.tbl[tag].stat == EvRead && v.gens[tag] == a)
  {
    hide Run, NoDup, ShotsOk;
    GensGrow(s, calls, v, tag);
    ModsAgree(v.gens[tag], a);
    if v.gens[tag] - a < TWO32 { NearMultiple(v.gens[tag] - a); }
  }

  /** An event that was answered once is never matched again, by any header. */
  lemma AnsweredForGood(s: Side, calls: seq<Call>, v: Side, tag: nat)
    requires Inv(s) && Run(s, calls, v) && tag < |s.tbl| && s.gens[tag] in s.shots
    ensures tag < |v.tbl| == |v.gens| && (v.gens[tag] == s.gens[tag] ==> forall sn :: !Matches(v, tag, sn))
  {
    hide Run, NoDup, GensOk;
    GensGrow(s, calls, v, tag);
  }

  /** A handler can always let go of its event; the slot is then on no queue and free for another. */
  lemma DeleteFrees(s: Side, t: nat)
    requires Inv(s) && t in s.bits
    ensures Shaped(s) && Enabled(s, Delete(t))
    ensures var v := Apply(s, Delete(t));
      && Inv(v) && t !in v.bits && !v.Linked(t) && v.tbl == s.tbl
      && (forall u :: u != t ==> (u in v.bits <==> u in s.bits))
      && (forall u: nat :: u != t ==> (v.Linked(u) <==> s.Linked(u))) && FirstFree(v.bits, 0, |v.tbl|) < |v.tbl|
  {
    InvShaped(s);
    DeleteKeeps(s, t);
    RemoveIs(s.reqQ, t);
    RemoveIs(s.rspQ, t);
    hide NoDup, Remove, GensOk, ShotsOk;
  }

  lemma AbortedGrows(s: Side, c: Call)
    requires Shaped(s) && Enabled(s, c)
    ensures s.aborted <= Apply(s, c).aborted
  {}

  lemma {:induction false} AbortedStays(s: Side, calls: seq<Call>, v: Side, t: nat)
    requires Inv(s) && Run(s, calls, v) && t < |s.tbl|
    ensures Inv(v) && t < |v.tbl| && s.aborted <= v.aborted
    decreases |calls|
  {
    hide Apply, Enabled, NoDup, GensOk, ShotsOk;
    if calls != [] {
      CallKeeps(s, calls[0]);
      CallGrows(s, calls[0], t);
      AbortedGrows(s, calls[0]);
      AbortedStays(Apply(s, calls[0]), calls[1..], v, t);
    }
  }

  /** An event that was linked when both queues were swept is never linked again: whatever is called afterwards, its
      slot comes back to a queue only for another event. */
  lemma SweptStaysOff(s: Side, calls: seq<Call>, v: Side, t: nat)
    requires Inv(s) && s.Linked(t) && Run(AbortOn(s), calls, v)
    ensures t < |s.gens| && t < |v.gens| && (v.Linked(t) ==> v.gens[t] != s.gens[t])
  {
    hide Run, NoDup;
    AbortKeeps(s);
    AbortedIs(s);
    AbortedStays(AbortOn(s), calls, v, t);
  }

  /** A faulted read loses and repeats nothing, but the event goes to the back of its queue. */
  lemma FaultedGet(s: Side)
    requires Inv(s) && s.reqQ != []
    ensures s.reqQ[0] < |s.tbl| && Inv(GetOn(s, true))
    ensures GetOn(s, true) == s.(reqQ := s.reqQ[1..] + [s.reqQ[0]])
    ensures multiset(GetOn(s, true).reqQ) == multiset(s.reqQ)
  {
    InvShaped(s);
    GetKeeps(s, true);
    assert s.reqQ == [s.reqQ[0]] + s.reqQ[1..];
  }
}
