/** `vsc_scsi_queue_command` over the sibling hosts of a volume. */
module QueueCommand {
  import opened HostState
  import opened Calls
  import opened VscHost
  import opened DeviceReset
  import opened Dispatch

  /** A volume's counter of read and write commands, 64 bits wide. */
  class Volume {
    var extend: nat

    constructor ()
      ensures extend == 1
    {
      extend := 1;
    }

    /** `atomic64_add_return(1, ..)`. */
    method AddReturn() returns (sn: nat)
      modifies this
      ensures sn == extend == (old(extend) + 1) % TWO64
    {
      extend := (extend + 1) % TWO64;
      sn := extend;
    }
  }

  /** The settings the module accepts. */
  predicate IsIoPerHost(n: nat) { n in {0, 1, 2, 4} }

  function ShiftOf(ioPerHost: nat): nat { if ioPerHost == 4 then 2 else if ioPerHost == 2 then 1 else 0 }

  function ShiftRight(x: nat, s: nat): nat { if s == 0 then x else ShiftRight(x / 2, s - 1) }

  lemma ShiftDivides(x: nat, ioPerHost: nat)
    requires IsIoPerHost(ioPerHost) && ioPerHost > 0
    ensures ShiftRight(x, ShiftOf(ioPerHost)) == x / ioPerHost
  {
    if ioPerHost == 4 { assert ShiftRight(x, 2) == ShiftRight(x / 2, 1) == ShiftRight(x / 2 / 2, 0); }
    if ioPerHost == 2 { assert ShiftRight(x, 1) == ShiftRight(x / 2, 0); }
  }

  /** The host of the next command. Only reads and writes take a serial. */
  method SelectHost(vol: Volume, ioPerHost: nat, readWrite: bool, orig: nat, hostCount: nat) returns (i: nat)
    requires IsIoPerHost(ioPerHost) && orig < hostCount <= MAX_HOST_NR_PER_VBS
    modifies vol
    ensures i < hostCount
    ensures ioPerHost == 0 ==> i == orig && vol.extend == old(vol.extend)
    ensures ioPerHost > 0 && !readWrite ==> i == 0 && vol.extend == old(vol.extend)
    ensures ioPerHost > 0 && readWrite ==>
      vol.extend == (old(vol.extend) + 1) % TWO64 && i == HostIndex(vol.extend, ioPerHost, hostCount)
  {
    if ioPerHost > 0 {
      if readWrite {
        var sn := vol.AddReturn();
        ShiftDivides(sn % TWO32, ioPerHost);
        i := ShiftRight(sn % TWO32, ShiftOf(ioPerHost)) % hostCount;
      } else {
        i := 0;
      }
    } else {
      i := orig;
    }
  }

  /** The counter after `n` more reads and writes. */
  function SerialAfter(extend: nat, n: nat): nat {
    if n == 0 then extend else (SerialAfter(extend, n - 1) + 1) % TWO64
  }

  lemma {:induction false} SerialMod(extend: nat, n: nat)
    ensures SerialAfter(extend, n) % TWO64 == (extend + n) % TWO64
  {
    if n > 0 {
      SerialMod(extend, n - 1);
      AddMod(SerialAfter(extend, n - 1), extend + n - 1);
    }
  }

  lemma AddMod(x: nat, y: nat)
    requires x % TWO64 == y % TWO64
    ensures (x + 1) % TWO64 % TWO64 == (y + 1) % TWO64
  {
    SerialWraps(x);
    SerialWraps(y);
  }

  /** The 64-bit wrap of the counter does not show: the `n`-th command from now goes where the unbounded count says. */
  lemma SerialsRunOn(extend: nat, n: nat, b: nat, k: nat)
    requires b > 0 && k > 0
    ensures HostIndex(SerialAfter(extend, n), b, k) == HostIndex(extend + n, b, k)
  {
    SerialMod(extend, n);
    CutOf64(SerialAfter(extend, n));
    CutOf64(extend + n);
  }

  lemma CutOf64(x: nat)
    ensures x % TWO32 == x % TWO64 % TWO32
  {
    DivMod(x, TWO64);
    DivMod(x % TWO64, TWO32);
    DivUnique(x, TWO32, x / TWO64 * TWO32 + x % TWO64 / TWO32, x % TWO64 % TWO32);
  }

  /** `Gone`: the disk is about to be deleted, and the command was completed on the spot. */
  datatype Verdict = Queued | Busy | Gone

  /** A command for a disk about to be deleted is completed with DID_NO_CONNECT. Otherwise the chosen host takes it or
      is busy. The other hosts are not touched. */
  method QueueCommand(vol: Volume, hosts: seq<Ctrl>, deleting: bool, ioPerHost: nat, readWrite: bool, orig: nat,
                      sc: nat)
    returns (at: nat, r: Verdict)
    requires Siblings(hosts) && AllReady(hosts)
    requires IsIoPerHost(ioPerHost) && orig < |hosts| <= MAX_HOST_NR_PER_VBS
    modifies vol, hosts, Cmnds(hosts), Words(hosts)
    ensures at < |hosts| && (r.Gone? <==> deleting)
    ensures deleting || ioPerHost == 0 ==> at == orig
    ensures !deleting && ioPerHost > 0 && !readWrite ==> at == 0
    ensures !deleting && ioPerHost > 0 && readWrite ==>
      vol.extend == (old(vol.extend) + 1) % TWO64 && at == HostIndex(vol.extend, ioPerHost, |hosts|)
    ensures deleting || ioPerHost == 0 || !readWrite ==> vol.extend == old(vol.extend)
    ensures forall i :: 0 <= i < |hosts| ==> hosts[i].Valid()
    ensures InRange(old(hosts[at].View()).reqQ, old(hosts[at].View()).Nr())
    ensures deleting ==> hosts[at].View() == Finish(old(hosts[at].View()), sc, Outcome(DID_NO_CONNECT, 0))
    ensures !deleting ==> (hosts[at].View(), r.Queued?) == SubmitCall(old(hosts[at].View()), sc)
    ensures forall i :: 0 <= i < |hosts| && i != at ==> hosts[i].View() == old(hosts[i].View())
  {
    hide Ready, SubmitCall, Finish;
    forall i | 0 <= i < |hosts| ensures InRange(hosts[i].View().reqQ, hosts[i].View().Nr()) {
      ReadyInRange(hosts[i].View());
    }
    if deleting {
      DoneAt(hosts, orig, sc);
      return orig, Gone;
    }
    at := SelectHost(vol, ioPerHost, readWrite, orig, |hosts|);
    var queued := SubmitAt(hosts, at, sc);
    r := if queued then Queued else Busy;
  }

  method DoneAt(hosts: seq<Ctrl>, at: nat, sc: nat)
    requires Siblings(hosts) && (forall i :: 0 <= i < |hosts| ==> hosts[i].Valid()) && at < |hosts|
    modifies hosts
    ensures forall i :: 0 <= i < |hosts| ==> hosts[i].Valid()
    ensures hosts[at].View() == Finish(old(hosts[at].View()), sc, Outcome(DID_NO_CONNECT, 0))
    ensures forall i :: 0 <= i < |hosts| && i != at ==> hosts[i].View() == old(hosts[i].View())
  {
    hosts[at].ScsiDone(sc, Outcome(DID_NO_CONNECT, 0));
    forall j | 0 <= j < |hosts| && j != at ensures hosts[j].Valid() && hosts[j].View() == old(hosts[j].View()) {
      Untouched(hosts[j]);
    }
  }

  method SubmitAt(hosts: seq<Ctrl>, at: nat, sc: nat) returns (queued: bool)
    requires Siblings(hosts) && (forall i :: 0 <= i < |hosts| ==> hosts[i].Valid()) && at < |hosts|
    requires InRange(hosts[at].View().reqQ, hosts[at].View().Nr())
    modifies hosts, Cmnds(hosts), Words(hosts)
    ensures forall i :: 0 <= i < |hosts| ==> hosts[i].Valid()
    ensures InRange(old(hosts[at].View()).reqQ, old(hosts[at].View()).Nr())
    ensures (hosts[at].View(), queued) == SubmitCall(old(hosts[at].View()), sc)
    ensures forall i :: 0 <= i < |hosts| && i != at ==> hosts[i].View() == old(hosts[i].View())
  {
    hide SubmitCall;
    queued := hosts[at].Submit(sc);
    forall j | 0 <= j < |hosts| && j != at ensures hosts[j].Valid() && hosts[j].View() == old(hosts[j].View()) {
      Untouched(hosts[j]);
    }
  }

  lemma ReadyInRange(h: Host)
    requires Ready(h)
    ensures InRange(h.reqQ, h.Nr())
  {
    HeadsInRange(h);
    assert forall i :: 0 <= i < |h.reqQ| ==> h.Listed(h.reqQ[i]);
  }
}
