/** The event an error handler waits on: its callbacks write the verdict into the event's private data, and the handler
    reads it. */
module EventWait {
  import opened Errors

  /** What an event asks the target to do; the numbers are those of the interface. */
  const ABORT_EVENT: nat := 1
  const RESET_DEV_EVENT: nat := 2

  /** The size of the result record. */
  const RESULT_LENGTH: nat := 4

  /** Why a callback runs: the target answered, the wait timed out, or the event was deleted under the handler. */
  datatype Notice = Shoot(dataType: nat, dataLength: nat, result: nat) | Timeout | Abort

  /** One call of the callback; `attached`: the host has a file at that moment. */
  datatype Told = Told(notice: Notice, attached: bool)

  /** The call says that the target did what it was asked, or that there is no target to ask. */
  predicate Confirms(dataType: nat, c: Told) {
    match c.notice
    case Shoot(kind, length, result) => kind == dataType && length == RESULT_LENGTH && result == 0
    case _ => !c.attached
  }

  /** The call says that the target did not. */
  predicate Refuses(dataType: nat, c: Told) {
    c.notice.Shoot? && c.notice.dataType == dataType && c.notice.dataLength == RESULT_LENGTH && c.notice.result != 0
  }

  /** Somebody confirmed, and nobody refused afterwards. */
  ghost predicate Settled(dataType: nat, calls: seq<Told>) {
    exists k :: 0 <= k < |calls| && Confirms(dataType, calls[k]) && NoneRefuses(dataType, calls[k + 1..])
  }

  ghost predicate NoneRefuses(dataType: nat, calls: seq<Told>) {
    forall j :: 0 <= j < |calls| ==> !Refuses(dataType, calls[j])
  }

  lemma NoneRefusesStep(dataType: nat, calls: seq<Told>, c: Told)
    ensures NoneRefuses(dataType, calls + [c]) <==> NoneRefuses(dataType, calls) && !Refuses(dataType, c)
  {
    var all := calls + [c];
    assert all[|calls|] == c && forall j :: 0 <= j < |calls| ==> all[j] == calls[j];
  }

  lemma SettledAt(dataType: nat, calls: seq<Told>, c: Told, k: nat)
    requires k <= |calls|
    ensures var all := calls + [c];
      Confirms(dataType, all[k]) && NoneRefuses(dataType, all[k + 1..]) <==>
      if k == |calls| then Confirms(dataType, c)
      else Confirms(dataType, calls[k]) && NoneRefuses(dataType, calls[k + 1..]) && !Refuses(dataType, c)
  {
    var all := calls + [c];
    if k < |calls| {
      assert all[k + 1..] == calls[k + 1..] + [c];
      NoneRefusesStep(dataType, calls[k + 1..], c);
    }
  }

  /** The verdict of a call more. */
  lemma SettledStep(dataType: nat, calls: seq<Told>, c: Told)
    ensures Settled(dataType, calls + [c]) <==>
      Confirms(dataType, c) || (Settled(dataType, calls) && !Refuses(dataType, c))
  {
    hide Confirms, Refuses, NoneRefuses;
    var all := calls + [c];
    forall k: nat | k <= |calls| { SettledAt(dataType, calls, c, k); }
    if Confirms(dataType, c) { assert Confirms(dataType, all[|calls|]); }
    if Settled(dataType, calls) && !Refuses(dataType, c) {
      var k :| 0 <= k < |calls| && Confirms(dataType, calls[k]) && NoneRefuses(dataType, calls[k + 1..]);
      assert Confirms(dataType, all[k]);
    }
  }

  /** A wait that ends with one call, or without any: success on an answer of the event's own type, four bytes long,
      with result 0, or, when nothing was answered, on a host without a file; failure on everything else. */
  lemma OneCall(c: Told)
    ensures !Settled(ABORT_EVENT, []) && !Settled(RESET_DEV_EVENT, [])
    ensures Settled(ABORT_EVENT, [c]) <==> if c.notice.Shoot? then c.notice == Shoot(1, 4, 0) else !c.attached
    ensures Settled(RESET_DEV_EVENT, [c]) <==> if c.notice.Shoot? then c.notice == Shoot(2, 4, 0) else !c.attached
  {
    assert [] + [c] == [c];
    SettledStep(ABORT_EVENT, [], c);
    SettledStep(RESET_DEV_EVENT, [], c);
  }

  /** The verdict is read twice, and a call in between can turn it: the two readings agree if and only if that call
      neither refuses what was settled nor confirms what was not. */
  lemma LateCall(dataType: nat, waited: seq<Told>, c: Told)
    ensures (Settled(dataType, waited + [c]) <==> Settled(dataType, waited)) <==>
      if Settled(dataType, waited) then !Refuses(dataType, c) else !Confirms(dataType, c)
  {
    SettledStep(dataType, waited, c);
  }

  class Pending {
    const dataType: nat
    var succeeded: bool

    /** `vsc_event_add` by a handler: the verdict starts at FAILED. */
    constructor (dataType: nat)
      ensures this.dataType == dataType && !succeeded
    {
      this.dataType := dataType;
      succeeded := false;
    }

    /** `vsc_abort_event_callback` and `vsc_reset_dev_event_callback`, which differ in the type they expect only. */
    method Callback(c: Told) returns (r: Result<()>)
      modifies this
      ensures !c.notice.Shoot? ==> r == Ok(()) && succeeded == (old(succeeded) || !c.attached)
      ensures c.notice.Shoot? && (c.notice.dataType != dataType || c.notice.dataLength != RESULT_LENGTH) ==>
        r == Err(EINVAL) && succeeded == old(succeeded)
      ensures c.notice.Shoot? && c.notice.dataType == dataType && c.notice.dataLength == RESULT_LENGTH ==>
        r == Ok(()) && succeeded == (c.notice.result == 0)
    {
      match c.notice {
        case Shoot(kind, length, result) =>
          if kind != dataType {
            return Err(EINVAL);
          }
          if length != RESULT_LENGTH {
            return Err(EINVAL);
          }
          succeeded := result == 0;
        case _ =>
          if !c.attached {
            succeeded := true;
          }
      }
      r := Ok(());
    }

    /** What the callbacks leave, whoever calls them in whatever order. */
    method Hear(ghost before: seq<Told>, calls: seq<Told>)
      requires succeeded <==> Settled(dataType, before)
      modifies this
      ensures succeeded <==> Settled(dataType, before + calls)
    {
      assert before + calls[..0] == before;
      for i := 0 to |calls|
        invariant succeeded <==> Settled(dataType, before + calls[..i])
      {
        var r := Callback(calls[i]);
        assert before + calls[..i + 1] == before + calls[..i] + [calls[i]];
        SettledStep(dataType, before + calls[..i], calls[i]);
      }
      assert calls[..|calls|] == calls;
    }
  }

  /** A handler's event from `vsc_event_add` to its deletion: the verdict as the handler reads it when the wait is over,
      and as it reads it again later. Nothing else of the host is written. */
  method Readings(dataType: nat, waited: seq<Told>, late: seq<Told>) returns (first: bool, second: bool)
    ensures first <==> Settled(dataType, waited)
    ensures second <==> Settled(dataType, waited + late)
  {
    var e := new Pending(dataType);
    assert [] + waited == waited;
    e.Hear([], waited);
    first := e.succeeded;
    e.Hear(waited, late);
    second := e.succeeded;
  }
}
