/** Which open file owns which host. Files are numbered in the order they were opened, hosts as registered. */
module Ownership {
  import opened Errors
  import opened HostState

  type Code = Result<()>

  const DONE: Code := Ok(())

  /** `priv[f]` is `file->private_data`, `file[h]` is `h->file`. */
  datatype Table = Table(priv: seq<Option<nat>>, file: seq<Option<nat>>)

  /** `host` is what the lookup of the host number gives; `contended`: another attach or the offline
      timer has the counter raised. */
  datatype AttachArgs = AttachArgs(fault: bool, capable: bool, host: Option<nat>, contended: bool)

  datatype Call = Open | Attach(f: nat, args: AttachArgs) | Detach(f: nat) | Release(f: nat)

  predicate Legal(t: Table, c: Call) {
    (c.Open? || c.f < |t.priv|) && (c.Attach? && c.args.host.Some? ==> c.args.host.value < |t.file|)
  }

  function AttachOn(t: Table, f: nat, a: AttachArgs): (Table, Code)
    requires Legal(t, Attach(f, a))
  {
    if t.priv[f].Some? then (t, Err(EALREADY))
    else if a.fault then (t, Err(EFAULT))
    else if !a.capable then (t, Err(EPERM))
    else if a.host.None? then (t, Err(ENODEV))
    else if t.file[a.host.value].Some? then (t, Err(EBUSY))
    else if a.contended then (t, Err(EAGAIN))
    else (Table(t.priv[f := a.host], t.file[a.host.value := Some(f)]), DONE)
  }

  /** Detach and release share this: the file lets go of its host, and the host of whatever file it has. */
  function LetGo(t: Table, f: nat, none: Code): (Table, Code)
    requires f < |t.priv| && (t.priv[f].Some? ==> t.priv[f].value < |t.file|)
  {
    if t.priv[f].None? then (t, none)
    else
      var h := t.priv[f].value;
      var u := t.(priv := t.priv[f := None]);
      if t.file[h].None? then (u, Err(EPERM)) else (u.(file := u.file[h := None]), DONE)
  }

  predicate Shaped(t: Table) { forall f :: 0 <= f < |t.priv| && t.priv[f].Some? ==> t.priv[f].value < |t.file| }

  /** A file points at a host exactly when the host points back. */
  predicate Paired(t: Table) {
    && Shaped(t)
    && (forall h :: 0 <= h < |t.file| && t.file[h].Some? ==> t.file[h].value < |t.priv|)
    && (forall f, h :: 0 <= f < |t.priv| && 0 <= h < |t.file| ==> (t.priv[f] == Some(h) <==> t.file[h] == Some(f)))
  }

  function Apply(t: Table, c: Call): (Table, Code)
    requires Shaped(t) && Legal(t, c)
  {
    match c
    case Open => (t.(priv := t.priv + [None]), DONE)
    case Attach(f, a) => AttachOn(t, f, a)
    case Detach(f) => LetGo(t, f, Err(EBADF))
    case Release(f) => LetGo(t, f, DONE)
  }

  predicate Run(t: Table, calls: seq<Call>, last: Table)
    decreases |calls|
  {
    if calls == [] then t == last
    else Shaped(t) && Legal(t, calls[0]) && Run(Apply(t, calls[0]).0, calls[1..], last)
  }

  lemma AttachKeeps(t: Table, f: nat, a: AttachArgs)
    requires Paired(t) && Legal(t, Attach(f, a))
    ensures Paired(AttachOn(t, f, a).0)
  {}

  lemma LetGoKeeps(t: Table, f: nat, none: Code)
    requires Paired(t) && f < |t.priv|
    ensures Paired(LetGo(t, f, none).0)
  {}

  lemma CallKeeps(t: Table, c: Call)
    requires Paired(t) && Legal(t, c)
    ensures Paired(Apply(t, c).0)
  {
    hide AttachOn, LetGo;
    match c
    case Open =>
    case Attach(f, a) => AttachKeeps(t, f, a);
    case Detach(f) => LetGoKeeps(t, f, Err(EBADF));
    case Release(f) => LetGoKeeps(t, f, DONE);
  }

  lemma {:induction false} RunKeeps(t: Table, calls: seq<Call>, last: Table)
    requires Paired(t) && Run(t, calls, last)
    ensures Paired(last)
    decreases |calls|
  {
    hide Shaped, Apply, Legal;
    if calls != [] {
      CallKeeps(t, calls[0]);
      RunKeeps(Apply(t, calls[0]).0, calls[1..], last);
    }
  }

  /** In every run that starts with all hosts free, a host has at most one owner and a file owns at most one host. */
  lemma OneOwner(t0: Table, calls: seq<Call>, t: Table)
    requires t0.priv == [] && (forall h :: 0 <= h < |t0.file| ==> t0.file[h].None?) && Run(t0, calls, t)
    ensures Paired(t)
    ensures forall f, g :: 0 <= f < g < |t.priv| && t.priv[f].Some? ==> t.priv[f] != t.priv[g]
    ensures forall h, k :: 0 <= h < k < |t.file| && t.file[h].Some? ==> t.file[h] != t.file[k]
  {
    RunKeeps(t0, calls, t);
  }

  /** Attach succeeds exactly when nothing stands in its way, and then makes the one pair; a detach or a release by the
      same file takes it back and leaves the table as it was. Meanwhile no attach to that host changes anything. */
  lemma AttachPairs(t: Table, f: nat, a: AttachArgs)
    requires Paired(t) && Legal(t, Attach(f, a))
    ensures var (v, code) := Apply(t, Attach(f, a));
      && (code == DONE <==>
            t.priv[f].None? && !a.fault && a.capable && a.host.Some? && t.file[a.host.value].None? && !a.contended)
      && (code == DONE ==> v.priv == t.priv[f := a.host] && v.file == t.file[a.host.value := Some(f)])
      && (code != DONE ==> v == t)
      && Paired(v)
      && (code == DONE ==> Apply(v, Detach(f)) == (t, DONE) && Apply(v, Release(f)) == (t, DONE))
      && (code == DONE ==> forall g, b :: Legal(v, Attach(g, b)) && b.host == a.host ==> Apply(v, Attach(g, b)).0 == v)
  {
    AttachKeeps(t, f, a);
    var v := Apply(t, Attach(f, a)).0;
    if Apply(t, Attach(f, a)).1 == DONE {
      assert v.priv[f := None] == t.priv;
      assert v.file[a.host.value := None] == t.file;
    }
  }

  /** Detach and release of an owning file free exactly its pair; the host's own check never fails. */
  lemma LetGoFreesThePair(t: Table, c: Call)
    requires Paired(t) && Legal(t, c) && (c.Detach? || c.Release?)
    ensures var (v, code) := Apply(t, c);
      match t.priv[c.f]
      case None => v == t && code == (if c.Detach? then Err(EBADF) else DONE)
      case Some(h) =>
        code == DONE && t.file[h] == Some(c.f) && v == Table(t.priv[c.f := None], t.file[h := None])
  {}

  // ----- The objects -----

  class OpenFile {
    var privateData: Option<nat>

    constructor ()
      ensures privateData == None
    {
      privateData := None;
    }
  }

  class HostNode {
    var file: Option<nat>

    constructor ()
      ensures file == None
    {
      file := None;
    }
  }

  class Driver {
    var files: seq<OpenFile>
    const hosts: seq<HostNode>

    ghost predicate Valid()
      reads this
    {
      && (forall i, j :: 0 <= i < j < |files| ==> files[i] != files[j])
      && (forall i, j :: 0 <= i < j < |hosts| ==> hosts[i] != hosts[j])
    }

    ghost function Owners(): (t: Table)
      reads this, files, hosts
      ensures |t.priv| == |files| && forall f :: 0 <= f < |files| ==> t.priv[f] == files[f].privateData
      ensures |t.file| == |hosts| && forall h :: 0 <= h < |hosts| ==> t.file[h] == hosts[h].file
    {
      Table(seq(|files|, f requires 0 <= f < |files| reads this, files => files[f].privateData),
            seq(|hosts|, h requires 0 <= h < |hosts| reads this, hosts => hosts[h].file))
    }

    method DevOpen()
      requires Valid()
      modifies this
      ensures Valid() && Owners().priv == old(Owners().priv) + [None] && Owners().file == old(Owners().file)
    {
      var file := new OpenFile();
      files := files + [file];
    }

    /** The host side of an attach. */
    method ScsiAttach(h: nat, f: nat, contended: bool) returns (r: Code)
      requires Valid() && h < |hosts|
      modifies hosts
      ensures old(hosts[h].file).Some? ==> r == Err(EBUSY) && Owners() == old(Owners())
      ensures old(hosts[h].file).None? && contended ==> r == Err(EAGAIN) && Owners() == old(Owners())
      ensures old(hosts[h].file).None? && !contended ==>
        r == DONE && Owners() == old(Owners()).(file := old(Owners()).file[h := Some(f)])
    {
      if hosts[h].file.Some? {
        return Err(EBUSY);
      }
      if contended {
        return Err(EAGAIN);
      }
      hosts[h].file := Some(f);
      r := DONE;
    }

    method DevAttachHost(f: nat, a: AttachArgs) returns (r: Code)
      requires Valid() && Legal(Owners(), Attach(f, a))
      modifies files, hosts
      ensures Valid() && (Owners(), r) == AttachOn(old(Owners()), f, a)
      ensures r ==
        if old(files[f].privateData).Some? then Err(EALREADY) else if a.fault then Err(EFAULT)
        else if !a.capable then Err(EPERM) else if a.host.None? then Err(ENODEV)
        else if old(hosts[a.host.value].file).Some? then Err(EBUSY) else if a.contended then Err(EAGAIN) else Ok(())
    {
      if files[f].privateData.Some? {
        return Err(EALREADY);
      }
      if a.fault {
        return Err(EFAULT);
      }
      if !a.capable {
        return Err(EPERM);
      }
      if a.host.None? {
        return Err(ENODEV);
      }
      r := ScsiAttach(a.host.value, f, a.contended);
      if r != DONE {
        return;
      }
      assert Owners() == old(Owners()).(file := old(Owners()).file[a.host.value := Some(f)]);
      files[f].privateData := a.host;
      assert Owners().priv == old(Owners()).priv[f := a.host];
      assert Owners().file == old(Owners()).file[a.host.value := Some(f)];
    }

    /** The host side of a detach; what happens to its commands is told elsewhere. */
    method ScsiDetach(h: nat) returns (r: Code)
      requires Valid() && h < |hosts|
      modifies hosts
      ensures old(hosts[h].file).None? ==> r == Err(EPERM) && Owners() == old(Owners())
      ensures old(hosts[h].file).Some? ==>
        r == DONE && Owners() == old(Owners()).(file := old(Owners()).file[h := None])
    {
      if hosts[h].file.None? {
        return Err(EPERM);
      }
      hosts[h].file := None;
      r := DONE;
    }

    method DevDetachHost(f: nat) returns (r: Code)
      requires Valid() && Shaped(Owners()) && f < |files|
      modifies files, hosts
      ensures Valid() && (Owners(), r) == LetGo(old(Owners()), f, Err(EBADF))
      ensures old(files[f].privateData).None? ==> r == Err(EBADF) && Owners() == old(Owners())
      ensures old(Paired(Owners())) && old(files[f].privateData).Some? ==>
        var h := old(files[f].privateData).value;
        r == Ok(()) && Owners() == Table(old(Owners()).priv[f := None], old(Owners()).file[h := None])
    {
      var h := files[f].privateData;
      if h.None? {
        return Err(EBADF);
      }
      files[f].privateData := None;
      assert Owners() == old(Owners()).(priv := old(Owners()).priv[f := None]);
      r := ScsiDetach(h.value);
    }

    method DevRelease(f: nat) returns (r: Code)
      requires Valid() && Shaped(Owners()) && f < |files|
      modifies files, hosts
      ensures Valid() && (Owners(), r) == LetGo(old(Owners()), f, DONE)
      ensures old(files[f].privateData).None? ==> r == Ok(()) && Owners() == old(Owners())
      ensures old(Paired(Owners())) && old(files[f].privateData).Some? ==>
        var h := old(files[f].privateData).value;
        r == Ok(()) && Owners() == Table(old(Owners()).priv[f := None], old(Owners()).file[h := None])
    {
      var h := files[f].privateData;
      if h.None? {
        return DONE;
      }
      files[f].privateData := None;
      assert Owners() == old(Owners()).(priv := old(Owners()).priv[f := None]);
      r := ScsiDetach(h.value);
    }
  }
}
