/** The device-reset handler: it empties the queues of every sibling host. */
module DeviceReset {
  import opened HostState
  import opened Calls
  import opened VscHost
  import opened EventWait
  import Events
  import EventHost

  /** The hosts of one target share nothing. */
  ghost predicate Siblings(hosts: seq<Ctrl>) {
    forall i, j :: 0 <= i < j < |hosts| ==>
      && hosts[i] != hosts[j] && hosts[i].bits.words != hosts[j].bits.words
      && forall k, l :: 0 <= k < |hosts[i].tbl| && 0 <= l < |hosts[j].tbl| ==> hosts[i].tbl[k] != hosts[j].tbl[l]
  }

  ghost function Cmnds(hosts: seq<Ctrl>): set<Cmnd> {
    set i, k | 0 <= i < |hosts| && 0 <= k < |hosts[i].tbl| :: hosts[i].tbl[k]
  }

  ghost function Words(hosts: seq<Ctrl>): set<array<bv64>> {
    set i | 0 <= i < |hosts| :: hosts[i].bits.words
  }

  ghost predicate AllReady(hosts: seq<Ctrl>)
    reads hosts, Cmnds(hosts), Words(hosts)
  {
    forall i :: 0 <= i < |hosts| ==> hosts[i].Valid() && Ready(hosts[i].View())
  }

  ghost predicate AllValid(hosts: seq<Ctrl>)
    reads Words(hosts)
  {
    forall i :: 0 <= i < |hosts| ==> hosts[i].Valid()
  }

  /** All sibling hosts as values. */
  ghost function Views(hosts: seq<Ctrl>): (r: seq<Host>)
    requires AllValid(hosts)
    reads hosts, Cmnds(hosts), Words(hosts)
    ensures |r| == |hosts| && forall i :: 0 <= i < |hosts| ==> r[i] == hosts[i].View()
  {
    seq(|hosts|, i requires 0 <= i < |hosts| && hosts[i].Valid() reads hosts, Cmnds(hosts), Words(hosts) =>
      hosts[i].View())
  }

  lemma ReadyViews(hosts: seq<Ctrl>)
    ensures AllReady(hosts) <==> AllValid(hosts) && forall i :: 0 <= i < |hosts| ==> Ready(Views(hosts)[i])
  {
    hide Ready;
    if AllValid(hosts) { assert forall i :: 0 <= i < |hosts| ==> Views(hosts)[i] == hosts[i].View(); }
  }

  twostate lemma Untouched(h: Ctrl)
    requires old(h.Valid()) && unchanged(h) && unchanged(h.bits.words)
    requires forall k :: 0 <= k < |h.tbl| ==> unchanged(h.tbl[k])
    ensures h.Valid() && h.View() == old(h.View())
  {
    assert h.Slots() == old(h.Slots());
  }

  /** `vsc_requeue_all_cmd` or `vsc_abort_all_cmd` on one host after the other. */
  method SweepHosts(hosts: seq<Ctrl>, hb: HostByte)
    requires Siblings(hosts) && AllReady(hosts)
    modifies hosts, Cmnds(hosts), Words(hosts)
    ensures AllReady(hosts) && AllValid(hosts)
    ensures forall i :: 0 <= i < |hosts| ==> Views(hosts)[i] == SweepAll(old(Views(hosts))[i], hb)
  {
    hide Ready, SweepAll;
    for i := 0 to |hosts|
      invariant AllReady(hosts)
      invariant forall j :: 0 <= j < i ==> hosts[j].View() == SweepAll(old(hosts[j].View()), hb)
      invariant forall j :: i <= j < |hosts| ==> hosts[j].View() == old(hosts[j].View())
    {
      label before:
      hosts[i].EachQueueRemove(hb);
      forall j | 0 <= j < |hosts| && j != i
        ensures hosts[j].Valid() && hosts[j].View() == old@before(hosts[j].View())
      {
        Untouched@before(hosts[j]);
      }
    }
  }

  /** A reference on a slot of one host, the siblings untouched. */
  method GetAt(hosts: seq<Ctrl>, at: nat, t: nat)
    requires Siblings(hosts) && AllValid(hosts) && at < |hosts| && t < Views(hosts)[at].Nr()
    modifies hosts, Cmnds(hosts), Words(hosts)
    ensures AllValid(hosts) && Views(hosts) == old(Views(hosts))[at := GetRef(old(Views(hosts))[at], t)]
  {
    hide Ready;
    hosts[at].CmdGet(t);
    forall j | 0 <= j < |hosts| && j != at ensures hosts[j].Valid() && hosts[j].View() == old(hosts[j].View()) {
      Untouched(hosts[j]);
    }
  }

  method PutAt(hosts: seq<Ctrl>, at: nat, t: nat)
    requires Siblings(hosts) && AllValid(hosts) && at < |hosts| && t < Views(hosts)[at].Nr()
    modifies hosts, Cmnds(hosts), Words(hosts)
    ensures AllValid(hosts) && Views(hosts) == old(Views(hosts))[at := PutRef(old(Views(hosts))[at], t)]
  {
    hosts[at].CmdPut(t);
    forall j | 0 <= j < |hosts| && j != at ensures hosts[j].Valid() && hosts[j].View() == old(hosts[j].View()) {
      Untouched(hosts[j]);
    }
  }

  /** Nothing is queued any more; every command that was has been completed once and released. */
  ghost predicate Emptied(h: Host, v: Host, hb: HostByte) {
    v.reqQ == v.cmpQ == v.rspQ == [] && v.ioRunning == 0 && Swept(h, v, h.reqQ + h.cmpQ + h.rspQ, hb)
  }

  lemma SweepEmpties(h: Host, hb: HostByte)
    requires Ready(h)
    ensures Emptied(h, SweepAll(h, hb), hb)
  {
    SweepAllIs(h, hb);
  }

  /** The handler's own reference makes no difference in the end. */
  lemma HeldSweepEmpties(h: Host, t: nat, hb: HostByte)
    requires Ready(h) && t < h.Nr() && h.slots[t].refcnt > 0
    ensures Ready(GetRef(h, t)) && |SweepAll(GetRef(h, t), hb).slots| == h.Nr()
    ensures var v := PutRef(SweepAll(GetRef(h, t), hb), t); Ready(v) && Emptied(h, v, hb)
  {
    var g := GetRef(h, t);
    HeldReady(h, t);
    SweepAllIs(g, hb);
    var k, gone := SweepAll(g, hb), h.reqQ + h.cmpQ + h.rspQ;
    EmptyReady(k, t);
    hide SweepAll, Ready;
    assert Fates(g, gone, hb) == Fates(h, gone, hb) by { SameFates(h, g, gone, hb); }
    PutUndoesGet(h, k, t, gone);
  }

  lemma HeldReady(h: Host, t: nat)
    requires Ready(h) && t < h.Nr()
    ensures Ready(GetRef(h, t))
  {
    RefsKeepQueues(h, GetRef(h, t));
  }

  lemma EmptyReady(k: Host, t: nat)
    requires Ready(k) && t < k.Nr() && k.reqQ == k.cmpQ == k.rspQ == []
    ensures Ready(PutRef(k, t))
  {
    RefsKeepQueues(k, PutRef(k, t));
  }

  lemma PutUndoesGet(h: Host, k: Host, t: nat, gone: seq<nat>)
    requires t < h.Nr() && h.slots[t].refcnt > 0 && Released(GetRef(h, t), k, gone)
    ensures Released(h, PutRef(k, t), gone)
  {}

  /** Every sibling's queues emptied, with a reference of the handler's own on one slot meanwhile. */
  lemma ResetEmpties(was: seq<Host>, swept: seq<Host>, at: nat, t: nat, hb: HostByte)
    requires |swept| == |was| && at < |was| && t < was[at].Nr() && was[at].slots[t].refcnt > 0
    requires forall i :: 0 <= i < |was| ==> Ready(was[i])
    requires Ready(GetRef(was[at], t))
    requires forall i :: 0 <= i < |was| ==> swept[i] == SweepAll(if i == at then GetRef(was[at], t) else was[i], hb)
    ensures t < swept[at].Nr()
    ensures forall i :: 0 <= i < |was| ==>
      var v := if i == at then PutRef(swept[at], t) else swept[i]; Ready(v) && Emptied(was[i], v, hb)
  {
    hide Ready, SweepAll, Emptied, GetRef, PutRef;
    HeldSweepEmpties(was[at], t, hb);
    forall i | 0 <= i < |was| && i != at ensures Ready(swept[i]) && Emptied(was[i], swept[i], hb) {
      SweepEmpties(was[i], hb);
    }
  }

  /** The two readings of the verdict, which touch no host. */
  method Verdict(hosts: seq<Ctrl>, waited: seq<Told>, late: seq<Told>) returns (result: bool, settled: bool)
    requires AllReady(hosts) && AllValid(hosts)
    ensures AllReady(hosts) && AllValid(hosts) && Views(hosts) == old(Views(hosts))
    ensures result <==> Settled(RESET_DEV_EVENT, waited)
    ensures settled <==> Settled(RESET_DEV_EVENT, waited + late)
  {
    hide Ready, Settled;
    result, settled := Readings(RESET_DEV_EVENT, waited, late);
    forall i | 0 <= i < |hosts| ensures hosts[i].Valid() && hosts[i].View() == old(hosts[i].View()) {
      Untouched(hosts[i]);
    }
  }

  /** The handler's work on the hosts. */
  method ResetSiblings(hosts: seq<Ctrl>, at: nat, t: nat, slot: bool, waited: seq<Told>, late: seq<Told>)
    returns (success: bool)
    requires Siblings(hosts) && AllReady(hosts)
    requires at < |hosts| && t < Views(hosts)[at].Nr() && Views(hosts)[at].slots[t].refcnt > 0
    modifies hosts, Cmnds(hosts), Words(hosts)
    ensures AllReady(hosts) && (success <==> !slot || Settled(RESET_DEV_EVENT, waited))
    ensures !slot ==> Views(hosts) == old(Views(hosts))
    ensures slot ==> forall i :: 0 <= i < |hosts| ==>
      Emptied(old(Views(hosts))[i], Views(hosts)[i],
              if Settled(RESET_DEV_EVENT, waited + late) then DID_REQUEUE else DID_SOFT_ERROR)
  {
    hide Ready, SweepAll, Emptied, GetRef, PutRef, Siblings, Settled, AllReady, AllValid, Views, Cmnds, Words;
    ReadyViews(hosts);
    ghost var was := Views(hosts);
    HeldReady(was[at], t);
    RefBack(was[at], t);
    GetAt(hosts, at, t);
    ReadyViews(hosts);
    if !slot {
      PutAt(hosts, at, t);
      ReadyViews(hosts);
      return true;
    }
    var result, settled := Verdict(hosts, waited, late);
    var hb := if settled then DID_REQUEUE else DID_SOFT_ERROR;
    SweepHosts(hosts, hb);
    ResetEmpties(was, Views(hosts), at, t, hb);
    PutAt(hosts, at, t);
    ReadyViews(hosts);
    success := result;
  }

  /** The device-reset handler for the command in slot `t` of host `at`, whose events are `events`. `slot`: an event
      slot was free; `waited`: the calls of the event's callback until the wait is over; `late`: those between the two
      readings of the verdict. The first reading is returned, the second decides how commands end. */
  method EhDeviceReset(hosts: seq<Ctrl>, at: nat, t: nat, events: EventHost.EventCtrl, slot: bool, waited: seq<Told>,
                       late: seq<Told>)
    returns (success: bool)
    requires Siblings(hosts) && AllReady(hosts)
    requires at < |hosts| && t < Views(hosts)[at].Nr() && Views(hosts)[at].slots[t].refcnt > 0
    requires events.Valid() && Events.Inv(events.View()) && events.bits.words !in Words(hosts)
    modifies hosts, Cmnds(hosts), Words(hosts), events`reqQ, events`rspQ, events`aborted
    ensures AllReady(hosts) && (success <==> !slot || Settled(RESET_DEV_EVENT, waited))
    ensures !slot ==> Views(hosts) == old(Views(hosts)) && events.reqQ == old(events.reqQ)
                      && events.rspQ == old(events.rspQ)
    ensures slot ==> events.reqQ == events.rspQ == []
    ensures slot ==> forall i :: 0 <= i < |hosts| ==>
      Emptied(old(Views(hosts))[i], Views(hosts)[i],
              if Settled(RESET_DEV_EVENT, waited + late) then DID_REQUEUE else DID_SOFT_ERROR)
  {
    hide Ready, Emptied, Settled, Siblings, Events.Inv;
    success := ResetSiblings(hosts, at, t, slot, waited, late);
    if slot {
      label swept:
      events.AbortAllEvent();
      forall i | 0 <= i < |hosts| ensures hosts[i].Valid() && hosts[i].View() == old@swept(hosts[i].View()) {
        Untouched@swept(hosts[i]);
      }
    }
  }

  lemma RefBack(h: Host, t: nat)
    requires t < h.Nr() && h.slots[t].refcnt > 0
    ensures |GetRef(h, t).slots| == h.Nr() && PutRef(GetRef(h, t), t) == h
  {
    assert PutRef(GetRef(h, t), t).slots == h.slots;
  }
}
