/** The event calls of the driver, updated in place and tied to the functions of the event side. */
module EventHost {
  import opened Seqs
  import opened HostState
  import opened Events
  import opened Bitmap
  import opened Errors

  /** The header the target reads; `more` says that something else is waiting. */
  datatype EventMsg = EventMsg(sn: nat, tag: nat, more: bool)

  class EventCtrl {
    const bits: PoolBits
    var tbl: seq<Ev>
    var reqQ: seq<nat>
    var rspQ: seq<nat>
    var eventSn: nat
    ghost var gens: seq<nat>
    ghost var allocs: nat
    ghost var aborted: set<nat>
    ghost var shots: seq<nat>

    ghost predicate Valid()
      reads this, bits.words
    {
      |tbl| == |gens| == bits.nr && bits.Valid()
    }

    ghost function View(): Side
      requires Valid()
      reads this, bits.words
    {
      Side(tbl, bits.Elements(), reqQ, rspQ, eventSn, gens, allocs, aborted, shots)
    }

    constructor (nrEvents: nat)
      ensures Valid() && fresh(bits.words) && |tbl| == nrEvents && Init(View())
    {
      bits := new PoolBits(nrEvents);
      tbl := seq(nrEvents, i => Ev(EvInit, 0));
      reqQ, rspQ, eventSn := [], [], 0;
      gens, allocs, aborted, shots := seq(nrEvents, i => 0), 0, {}, [];
    }

    /** The handler's `vsc_event_alloc` and `vsc_event_add`. */
    method Raise() returns (e: Option<nat>)
      requires Valid()
      modifies this, bits.words
      ensures Valid() && View() == RaiseOn(old(View()))
      ensures e.None? <==> forall t :: 0 <= t < |tbl| ==> t in old(bits.Elements())
      ensures e.Some? ==> e.value < |tbl| && e.value !in old(bits.Elements()) && reqQ == old(reqQ) + [e.value]
      ensures e.Some? ==>
        && (forall j: nat :: j < e.value ==> j in old(bits.Elements()))
        && bits.Elements() == old(bits.Elements()) + {e.value} && rspQ == old(rspQ)
        && eventSn == (old(eventSn) + 1) % 0x1_0000_0000_0000_0000
        && tbl == old(tbl)[e.value := Ev(EvInit, eventSn % 0x1_0000_0000)]
    {
      hide FirstFree;
      var i := bits.Claim();
      if i == bits.nr {
        return None;
      }
      eventSn := (eventSn + 1) % TWO64;
      tbl := tbl[i := Ev(EvInit, eventSn % TWO32)];
      gens, allocs := gens[i := allocs + 1], allocs + 1;
      reqQ := reqQ + [i];
      e := Some(i);
    }

    method GetEvent(lengthOk: bool, commands: bool, fault: bool) returns (r: Result<EventMsg>)
      requires Valid() && Inv(View())
      modifies this`reqQ, this`rspQ, this`tbl
      ensures Valid() && Inv(View())
      ensures !lengthOk ==> View() == old(View()) && r == Err(EINVAL)
      ensures lengthOk && old(reqQ) == [] ==> View() == old(View()) && r == Err(ENODATA)
      ensures lengthOk && old(reqQ) != [] ==> old(reqQ)[0] < |tbl| && View() == GetOn(old(View()), fault)
      ensures lengthOk && old(reqQ) != [] ==>
        var t := old(reqQ)[0];
        r == if fault then Err(EFAULT) else Ok(EventMsg(old(tbl)[t].sn, t, commands || |old(reqQ)| > 1))
      ensures r.Ok? ==>
        var t := old(reqQ)[0];
        && reqQ == old(reqQ)[1..] && rspQ == old(rspQ) + [t] && tbl == old(tbl)[t := old(tbl)[t].(stat := EvRead)]
      ensures lengthOk && old(reqQ) != [] && fault ==>
        reqQ == old(reqQ)[1..] + [old(reqQ)[0]] && rspQ == old(rspQ) && tbl == old(tbl)
    {
      hide QueuesOk, GensOk, ShotsOk, Remove;
      ghost var was := View();
      if !lengthOk {
        return Err(EINVAL);
      }
      if reqQ == [] {
        return Err(ENODATA);
      }
      HeadIsLive(was);
      GetKeeps(was, fault);
      var t := reqQ[0];
      reqQ := reqQ[1..];
      rspQ := rspQ + [t];
      var more := commands || reqQ != [];
      if fault {
        BackInLine(was);
        reqQ, rspQ := Remove(reqQ, t), Remove(rspQ, t);
        reqQ := reqQ + [t];
        return Err(EFAULT);
      }
      r := Ok(EventMsg(tbl[t].sn, t, more));
      tbl := tbl[t := tbl[t].(stat := EvRead)];
    }

    /** `callback` is what the handler's callback returns. */
    method ResponseEvent(a: Answer, len: nat, callback: bool) returns (r: Result<()>)
      requires Valid()
      modifies this`tbl, this`shots
      ensures Valid() && View() == RespondOn(old(View()), a, len)
      ensures r.Ok? <==> !a.headFault && Matches(old(View()), a.tag, a.sn) && LengthsOk(a, len) && callback
      ensures var read := a.tag < |tbl| && old(tbl)[a.tag].stat == EvRead && old(tbl)[a.tag].sn == a.sn;
        var long := a.dataLength > len || a.dataLength >= 4096;
        && (a.headFault ==> r == Err(EFAULT)) && (!a.headFault && !read ==> r == Err(EIO))
        && (a.headFault || !read ==> tbl == old(tbl) && shots == old(shots))
        && (!a.headFault && read ==>
              && tbl == old(tbl)[a.tag := old(tbl)[a.tag].(stat := EvResp)]
              && (long ==> r == Err(EIO))
              && (!long && (a.dataFault || a.innerLength > a.dataLength) ==> r == Err(EFAULT))
              && (long || a.dataFault || a.innerLength > a.dataLength ==> shots == old(shots))
              && (!long && !a.dataFault && a.innerLength <= a.dataLength ==>
                    shots == old(shots) + [gens[a.tag]] && r == if callback then Ok(()) else Err(CALLBACK)))
    {
      if a.headFault {
        return Err(EFAULT);
      }
      if a.tag >= |tbl| {
        return Err(EIO);
      }
      if tbl[a.tag].stat != EvRead || tbl[a.tag].sn != a.sn {
        return Err(EIO);
      }
      tbl := tbl[a.tag := tbl[a.tag].(stat := EvResp)];
      if a.dataLength > len || a.dataLength >= PAGE_SIZE {
        return Err(EIO);
      }
      if a.dataFault {
        return Err(EFAULT);
      }
      if a.innerLength > a.dataLength {
        return Err(EFAULT);
      }
      shots := shots + [gens[a.tag]];
      if !callback {
        return Err(CALLBACK);
      }
      r := Ok(());
    }

    method Delete(t: nat)
      requires Valid() && t < |tbl|
      modifies this`reqQ, this`rspQ, bits.words
      ensures Valid() && View() == DeleteOn(old(View()), t)
      ensures bits.Elements() == old(bits.Elements()) - {t} && tbl == old(tbl)
      ensures old(Inv(View())) ==> forall u: nat ::
        && (u in reqQ <==> u in old(reqQ) && u != t) && (u in rspQ <==> u in old(rspQ) && u != t)
    {
      ghost var req, rsp := reqQ, rspQ;
      if Inv(View()) {
        RemoveIs(req, t);
        RemoveIs(rsp, t);
      }
      hide Inv, Remove;
      reqQ, rspQ := Remove(reqQ, t), Remove(rspQ, t);
      bits.Clear(t);
    }

    /** `vsc_abort_all_event`: both queues are emptied, and every event that was linked is recorded as swept off. */
    method AbortAllEvent()
      requires Valid() && Inv(View())
      modifies this`reqQ, this`rspQ, this`aborted
      ensures Valid() && View() == AbortOn(old(View())) && Inv(View())
      ensures reqQ == rspQ == [] && tbl == old(tbl)
      ensures bits.Elements() == old(bits.Elements()) && eventSn == old(eventSn)
      ensures forall t: nat :: t < |gens| && old(View()).Linked(t) ==> gens[t] in aborted
      ensures forall g :: g in aborted ==>
        g in old(aborted) || exists t: nat :: t < |gens| && old(View()).Linked(t) && gens[t] == g
    {
      hide Inv, GensOf;
      ghost var was := View();
      EventsInRange(was);
      NoGens(was);
      while reqQ != []
        invariant Valid() && View() == was.(reqQ := reqQ, aborted := aborted)
        invariant aborted + GensOf(was, reqQ) == was.aborted + GensOf(was, was.reqQ)
        invariant forall i :: 0 <= i < |reqQ| ==> reqQ[i] < |gens|
        decreases |reqQ|
      {
        GensOfHead(was, reqQ);
        aborted := aborted + {gens[reqQ[0]]};
        reqQ := reqQ[1..];
      }
      while rspQ != []
        invariant Valid() && View() == was.(reqQ := [], rspQ := rspQ, aborted := aborted)
        invariant aborted + GensOf(was, rspQ) == was.aborted + GensOf(was, was.reqQ) + GensOf(was, was.rspQ)
        invariant forall i :: 0 <= i < |rspQ| ==> rspQ[i] < |gens|
        decreases |rspQ|
      {
        GensOfHead(was, rspQ);
        aborted := aborted + {gens[rspQ[0]]};
        rspQ := rspQ[1..];
      }
      assert View() == AbortOn(was);
      AbortKeeps(was);
      AbortedIs(was);
    }
  }

  lemma EventsInRange(s: Side)
    requires Inv(s)
    ensures forall i :: 0 <= i < |s.reqQ| ==> s.reqQ[i] < |s.gens|
    ensures forall i :: 0 <= i < |s.rspQ| ==> s.rspQ[i] < |s.gens|
  {
    assert forall i :: 0 <= i < |s.reqQ| ==> s.reqQ[i] in s.reqQ;
    assert forall i :: 0 <= i < |s.rspQ| ==> s.rspQ[i] in s.rspQ;
  }

  lemma NoGens(s: Side)
    ensures GensOf(s, []) == {}
  {}

  lemma GensOfHead(s: Side, q: seq<nat>)
    requires q != [] && q[0] < |s.gens|
    ensures GensOf(s, q) == {s.gens[q[0]]} + GensOf(s, q[1..])
  {
    assert q == [q[0]] + q[1..];
  }

  /** Taking the head off the request queue and back out of the answer queue. */
  lemma BackInLine(s: Side)
    requires Inv(s) && s.reqQ != []
    ensures var t := s.reqQ[0]; Remove(s.reqQ[1..], t) == s.reqQ[1..] && Remove(s.rspQ + [t], t) == s.rspQ
  {
    var t, rest := s.reqQ[0], s.reqQ[1..];
    assert s.reqQ == [t] + rest;
    NoDupCons(t, rest);
    RemoveIs(rest, t);
    RemoveConcat(s.rspQ, [t], t);
  }
}
