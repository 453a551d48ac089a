/** Runs of the client: any sequence of its public operations, with any outcomes and any failures of the cloud. */
module Runs {
  import opened Wrappers
  import opened Storage
  import opened CloudModel
  import opened Slots
  import opened Lifecycle
  import opened Invariant

  /** One operation with its outcome; calm: no call to the cloud failed whose error is returned. The errors that are
      logged only are told apart: submitting the create (lost), looking the disk up in a VDC (missed). */
  datatype Label =
    | Create(vdc: string, name: string, size: StorageSize, done: Result<(), Error>, lost: bool, calm: bool)
    | Delete(name: string, done: Result<(), Error>, missed: set<string>, calm: bool)
    | Detach(name: string, done: Result<(), Error>, calm: bool)
    | Attach(vm: string, name: string, params: Result<DiskAttachParams, Error>, calm: bool)
    | Resize(vdc: string, name: string, size: StorageSize, done: Result<(), Error>, calm: bool)

  ghost predicate Step(cfg: Config, s: State, l: Label, s': State) {
    match l
    case Create(vdc, name, size, r, lost, calm) => CreateRel(cfg, s, vdc, name, size, s', r, lost, calm)
    case Delete(name, r, missed, calm) => DeleteRel(cfg, s, name, s', r, missed, calm)
    case Detach(name, r, calm) => DetachRel(cfg, s, name, s', r, calm)
    case Attach(vm, name, r, calm) => AttachRel(cfg, s, vm, name, s', r, calm)
    case Resize(vdc, name, size, r, calm) => ResizeRel(cfg, s, vdc, name, size, s', r, calm)
  }

  // ---------- One attach ----------

  /** The unit is chosen from a copy of the VM made before the disk is taken off another VM. The copy still
      tells the truth: that detach edits another VM. */
  lemma StaleSnapshotSafe(cfg: Config, s: State, v: Href, h: Href)
    requires Inv(cfg, s) && h in s.disks && v in s.vms && !AttachedHere(s, v, h)
    ensures Detached(s, h).vms[v] == s.vms[v]
  {
    assert DiskOk(cfg, s, h);
    if s.disks[h].attached.Some? {
      DetachKeepsInv(cfg, s, h);
    }
  }

  /** What an attach to a VM of the disk's VDC does. It is refused only where the allocator had no unit to give,
      and unit 0 of the bus is in use too. */
  lemma AttachEffect(cfg: Config, s: State, vdc: string, v: Href, h: Href, unit: int)
    requires Inv(cfg, s) && vdc in cfg.vdcs && v in Listed(s, vdc) && v in s.vms
    requires h in s.disks && s.disks[h].vdc == vdc
    requires UnitChoice(s.vms[v].settings, cfg.bus, unit)
    ensures var (s', r) := AttachIn(s, cfg.bus, vdc, v, s.disks[h].name, unit);
            && Inv(cfg, s') && OnlyMoved(s, s', h)
            && h in s'.disks && s'.disks[h] == s.disks[h].(attached := s'.disks[h].attached)
            && (AttachedHere(s, v, h) ==> s' == s && r.Ok?)
            && (!AttachedHere(s, v, h) && r.Ok? ==> PlaceOf(s', h) == Some(Place(v, cfg.bus, unit)))
            && (r.Ok? ==>
                  && PlaceOf(s', h).Some? && PlaceOf(s', h).value.vm == v
                  && r.value == ParamsFor(s.disks[h].name, PlaceOf(s', h).value.unit, s.disks[h].sizeMb))
            && (r.Err? <==> !AttachedHere(s, v, h)
                            && FreeUnits(s.vms[v].settings, cfg.bus) == {} && Taken(s.vms[v].settings, cfg.bus, 0))
            && (r.Err? ==> r.error == Rejected && s' == Detached(s, h))
  {
    LoneDiskIs(cfg, s, h);
    assert DiskOk(cfg, s, h);
    if !AttachedHere(s, v, h) {
      DetachEffect(cfg, s, h);
      DetachKeepsInv(cfg, s, h);
      StaleSnapshotSafe(cfg, s, v, h);
      var free := Detached(s, h);
      if TaskAttach(free, v, h, cfg.bus, unit).Some? {
        AttachKeepsInv(cfg, free, v, h, cfg.bus, unit);
        MovedTwice(s, free, TaskAttach(free, v, h, cfg.bus, unit).value, h);
      }
    }
  }

  lemma MovedTwice(s: State, mid: State, s': State, h: Href)
    requires OnlyMoved(s, mid, h) && OnlyMoved(mid, s', h)
    ensures OnlyMoved(s, s', h)
  {
  }

  /** Either no VDC has the VM, or no disk of the name is in the VM's VDC, or AttachEffect tells what happened. */
  lemma AttachCases(cfg: Config, s: State, c: string, u: int, vm: string, name: string,
                    s': State, r: Result<DiskAttachParams, Error>)
    returns (v: Href, h: Option<Href>)
    requires Inv(cfg, s) && AttachVia(cfg, s, c, u, vm, name, s', r)
    ensures v in s.vms && v in Listed(s, c) && s.vms[v].name == vm && FindVm(s, c, vm) == Some(v)
    ensures h.None? ==> DisksNamed(s, c, name) == {} && s' == s && r == Err(DiskNotExists)
    ensures h.Some? ==> h.value in s.disks && s.disks[h.value].vdc == c && s.disks[h.value].name == name
                        && UnitChoice(s.vms[v].settings, cfg.bus, u)
                        && (s', r) == AttachIn(s, cfg.bus, c, v, name, u)
  {
    v := FindVm(s, c, vm).value;
    NeverTwoDisks(cfg, s, c, name);
    match LoneDisk(s, c, name)
    case Ok(d) =>
      assert d in DisksNamed(s, c, name);
      h := Some(d);
    case Err(_) =>
      h := None;
  }

  // ---------- One step ----------

  /** What a step may do to a disk that outlives it: its name and VDC stay, and so does its size while attached. */
  predicate Kept(before: Disk, after: Disk) {
    && after.name == before.name && after.vdc == before.vdc
    && (before.attached.Some? ==> after.sizeMb == before.sizeMb)
  }

  /** The step moved only h, a disk of the name given in a VDC of the driver, there before or created now. */
  ghost predicate About(cfg: Config, s: State, l: Label, s': State, h: Href) {
    && OnlyMoved(s, s', h)
    && (h in s.disks ==> s.disks[h].name == l.name && s.disks[h].vdc in cfg.vdcs)
    && (h in s'.disks ==> s'.disks[h].name == l.name && s'.disks[h].vdc in cfg.vdcs)
    && (h in s.disks && h in s'.disks ==>
          Kept(s.disks[h], s'.disks[h]) && (s'.disks[h].sizeMb == s.disks[h].sizeMb || l.Resize?))
    && (h in s.disks && h !in s'.disks ==> l.Delete?)
    && (h !in s.disks && h in s'.disks ==> h !in s.issued && s'.disks[h].attached.None? && l.Create?)
  }

  lemma Unmoved(cfg: Config, s: State, l: Label)
    requires Inv(cfg, s)
    ensures exists h :: About(cfg, s, l, s, h)
  {
    FreshHref(s.disks.Keys);
    var h: Href :| h !in s.disks.Keys;
    assert About(cfg, s, l, s, h);
  }

  lemma DetachStep(cfg: Config, s: State, l: Label, c: string, name: string)
    requires Inv(cfg, s) && c in cfg.vdcs && l.name == name
    ensures Inv(cfg, DetachIn(s, c, name).0) && exists h :: About(cfg, s, l, DetachIn(s, c, name).0, h)
  {
    NeverTwoDisks(cfg, s, c, name);
    match LoneDisk(s, c, name)
    case Ok(h) =>
      assert h in DisksNamed(s, c, name);
      DetachEffect(cfg, s, h);
      DetachKeepsInv(cfg, s, h);
      assert About(cfg, s, l, Detached(s, h), h);
    case Err(_) =>
      Unmoved(cfg, s, l);
  }

  lemma DeleteEffect(cfg: Config, s: State, c: string, name: string)
    requires Inv(cfg, s) && c in cfg.vdcs && LoneDisk(s, c, name).Ok?
    ensures var h := LoneDisk(s, c, name).value;
            var (s', r) := DeleteIn(s, c, name);
            && h in s.disks && s.disks[h].vdc == c && s.disks[h].name == name
            && TaskDelete(Detached(s, h), h) == Some(s') && r == Ok(())
            && Inv(cfg, s') && OnlyMoved(s, s', h) && s'.disks == s.disks - {h}
  {
    var h := LoneDisk(s, c, name).value;
    assert h in DisksNamed(s, c, name);
    DetachEffect(cfg, s, h);
    DetachKeepsInv(cfg, s, h);
    DeleteKeepsInv(cfg, Detached(s, h), h);
    MovedTwice(s, Detached(s, h), DeleteIn(s, c, name).0, h);
    assert s.disks[h := s.disks[h].(attached := None)] - {h} == s.disks - {h};
  }

  lemma DeleteStep(cfg: Config, s: State, l: Label, s': State, c: string, name: string, r: Result<(), Error>)
    requires Inv(cfg, s) && DeleteVia(cfg, s, c, name, s', r) && l.name == name && l.Delete?
    ensures Inv(cfg, s') && exists h :: About(cfg, s, l, s', h)
  {
    DeleteEffect(cfg, s, c, name);
    assert About(cfg, s, l, s', LoneDisk(s, c, name).value);
  }

  lemma AttachStep(cfg: Config, s: State, l: Label, s': State)
    requires Inv(cfg, s) && l.Attach? && Step(cfg, s, l, s')
    ensures Inv(cfg, s') && exists h :: About(cfg, s, l, s', h)
  {
    if s' == s {
      Unmoved(cfg, s, l);
    } else if l.calm {
      var c, u :| AttachVia(cfg, s, c, u, l.vm, l.name, s', l.params);
      var v, h := AttachCases(cfg, s, c, u, l.vm, l.name, s', l.params);
      AttachEffect(cfg, s, c, v, h.value, u);
      assert About(cfg, s, l, s', h.value);
    } else {
      var c :| AttachBroken(cfg, s, c, l.vm, l.name, s', l.params);
      DetachStep(cfg, s, l, c, l.name);
    }
  }

  lemma CreateStep(cfg: Config, s: State, l: Label, s': State)
    requires Inv(cfg, s) && l.Create? && Step(cfg, s, l, s')
    ensures Inv(cfg, s') && exists h :: About(cfg, s, l, s', h)
  {
    if s' == s {
      Unmoved(cfg, s, l);
    } else {
      var h: Href :| h !in s.issued && h !in s.disks && s' == TaskCreate(s, h, l.vdc, l.name, l.size.Mb());
      MbInRange(l.size);
      CreateKeepsInv(cfg, s, h, l.vdc, l.name, l.size.Mb());
      assert About(cfg, s, l, s', h);
    }
  }

  lemma ResizeStep(cfg: Config, s: State, l: Label, s': State)
    requires Inv(cfg, s) && l.Resize? && Step(cfg, s, l, s')
    ensures Inv(cfg, s') && exists h :: About(cfg, s, l, s', h)
  {
    if s' == s {
      Unmoved(cfg, s, l);
    } else {
      var h := LoneDisk(s, l.vdc, l.name).value;
      assert h in DisksNamed(s, l.vdc, l.name);
      MbInRange(l.size);
      UpdateKeepsInv(cfg, s, h, l.size.Mb());
      assert About(cfg, s, l, s', h);
    }
  }

  /** Every operation, whatever fails in it, keeps the invariant and is about at most one disk, named by it. */
  lemma StepSafe(cfg: Config, s: State, l: Label, s': State)
    requires Inv(cfg, s) && Step(cfg, s, l, s')
    ensures Inv(cfg, s')
    ensures exists h :: About(cfg, s, l, s', h)
  {
    match l
    case Create(_, _, _, _, _, _) => CreateStep(cfg, s, l, s');
    case Attach(_, _, _, _) => AttachStep(cfg, s, l, s');
    case Resize(_, _, _, _, _) => ResizeStep(cfg, s, l, s');
    case Detach(name, r, calm) =>
      if s' == s {
        Unmoved(cfg, s, l);
      } else {
        var c :| c in cfg.vdcs && LoneDisk(s, c, name) != Err(EntityNotFound) && (s', r) == DetachIn(s, c, name);
        DetachStep(cfg, s, l, c, name);
      }
    case Delete(name, r, missed, calm) =>
      if s' == s {
        Unmoved(cfg, s, l);
      } else if c :| c !in missed && DeleteVia(cfg, s, c, name, s', r) {
        DeleteStep(cfg, s, l, s', c, name, r);
      } else {
        var c :| c !in missed && Dropped(cfg, s, c, name, s');
        DetachStep(cfg, s, l, c, name);
      }
  }

  /** An operation leaves the disks of other names where they are, and never changes the size of an attached disk. */
  lemma StepFrame(cfg: Config, s: State, l: Label, s': State, g: Href)
    requires Inv(cfg, s) && Step(cfg, s, l, s') && g in s.disks
    ensures s.disks[g].name != l.name || s.disks[g].vdc !in cfg.vdcs ==>
              g in s'.disks && s'.disks[g] == s.disks[g] && PlaceOf(s', g) == PlaceOf(s, g)
    ensures g in s'.disks ==> Kept(s.disks[g], s'.disks[g])
    ensures g in s'.disks && !l.Resize? ==> s'.disks[g].sizeMb == s.disks[g].sizeMb
    ensures !l.Delete? ==> g in s'.disks
  {
    StepSafe(cfg, s, l, s');
    var h :| About(cfg, s, l, s', h);
  }

  /** An HREF that was given away never comes back after its disk is deleted. */
  lemma NeverReissued(cfg: Config, s: State, l: Label, s': State, g: Href)
    requires Inv(cfg, s) && Step(cfg, s, l, s') && g in s.issued && g !in s.disks
    ensures g in s'.issued && g !in s'.disks
  {
    StepSafe(cfg, s, l, s');
    var h :| About(cfg, s, l, s', h);
    assert g in s'.disks.Keys - {h} <==> g in s.disks.Keys - {h};
  }

  // ---------- Runs ----------

  ghost predicate Run(cfg: Config, states: seq<State>, labels: seq<Label>) {
    && |states| == |labels| + 1
    && forall i :: 0 <= i < |labels| ==> Step(cfg, states[i], labels[i], states[i + 1])
  }

  /** The two views of the attachments agree after any run, since they did at the start. */
  lemma {:induction false} RunSafe(cfg: Config, states: seq<State>, labels: seq<Label>, n: nat)
    requires Run(cfg, states, labels) && Inv(cfg, states[0]) && n <= |labels|
    ensures Inv(cfg, states[n])
  {
    if n > 0 {
      RunSafe(cfg, states, labels, n - 1);
      StepSafe(cfg, states[n - 1], labels[n - 1], states[n]);
    }
  }

  /** A disk no operation of the run names keeps its record, its VM and its slot. */
  lemma {:induction false} RunFrame(cfg: Config, states: seq<State>, labels: seq<Label>, from: nat, to: nat, g: Href)
    requires Run(cfg, states, labels) && Inv(cfg, states[0]) && from <= to <= |labels|
    requires g in states[from].disks
    requires forall i :: from <= i < to ==> labels[i].name != states[from].disks[g].name
    ensures g in states[to].disks && states[to].disks[g] == states[from].disks[g]
    ensures PlaceOf(states[to], g) == PlaceOf(states[from], g)
  {
    if from < to {
      RunFrame(cfg, states, labels, from, to - 1, g);
      RunSafe(cfg, states, labels, to - 1);
      StepFrame(cfg, states[to - 1], labels[to - 1], states[to], g);
    }
  }

  /** The branches the client logs as bugs are taken in no state of any run: an attached disk's VM is found by its
      name, its settings name the disk, and no VDC has two disks of one name. */
  lemma BugBranchesDead(cfg: Config, states: seq<State>, labels: seq<Label>, n: nat, c: string, name: string)
    requires Run(cfg, states, labels) && Inv(cfg, states[0]) && n <= |labels| && c in cfg.vdcs
    ensures LoneDisk(states[n], c, name) != Err(CountMismatch)
    ensures LoneDisk(states[n], c, name).Ok? ==>
              var h := LoneDisk(states[n], c, name).value;
              h in states[n].disks && (states[n].disks[h].attached.Some? ==>
                var vm := states[n].disks[h].attached.value;
                && FindVm(states[n], c, vm.name) == Some(vm.href)
                && vm.href in states[n].vms
                && SlotOf(states[n].vms[vm.href].settings, h).Some?)
  {
    RunSafe(cfg, states, labels, n);
    NeverTwoDisks(cfg, states[n], c, name);
    if LoneDisk(states[n], c, name).Ok? {
      var h := LoneDisk(states[n], c, name).value;
      assert h in DisksNamed(states[n], c, name);
      DetachEffect(cfg, states[n], h);
      assert DiskOk(cfg, states[n], h);
    }
  }

  // ---------- Conservation ----------

  /** 1 when the disk exists and is attached. */
  function OnVm(s: State, h: Href): nat {
    if h in s.disks && s.disks[h].attached.Some? then 1 else 0
  }

  /** The number of settings entries that name a disk follows the one disk the step moved. */
  lemma ConservationStep(cfg: Config, s: State, s': State, h: Href)
    requires Inv(cfg, s) && Inv(cfg, s') && OnlyMoved(s, s', h)
    ensures |NamingEntries(s')| == |NamingEntries(s)| + OnVm(s', h) - OnVm(s, h)
  {
    Conservation(cfg, s);
    Conservation(cfg, s');
    AttachedCount(s, s', h);
  }

  /** A detach or delete in the VDC of an attached disk takes one entry away, of another disk none. */
  lemma TakeAwayCounts(cfg: Config, s: State, c: string, name: string)
    requires Inv(cfg, s) && c in cfg.vdcs && LoneDisk(s, c, name).Ok?
    ensures |NamingEntries(DetachIn(s, c, name).0)| == |NamingEntries(s)| - OnVm(s, LoneDisk(s, c, name).value)
    ensures |NamingEntries(DeleteIn(s, c, name).0)| == |NamingEntries(s)| - OnVm(s, LoneDisk(s, c, name).value)
  {
    var h := LoneDisk(s, c, name).value;
    assert h in DisksNamed(s, c, name);
    DetachEffect(cfg, s, h);
    DetachKeepsInv(cfg, s, h);
    ConservationStep(cfg, s, Detached(s, h), h);
    DeleteEffect(cfg, s, c, name);
    ConservationStep(cfg, s, DeleteIn(s, c, name).0, h);
  }

  lemma AttachedCount(s: State, s': State, h: Href)
    requires OnlyMoved(s, s', h)
    ensures |AttachedDisks(s')| - |AttachedDisks(s)| == OnVm(s', h) - OnVm(s, h)
  {
    assert AttachedDisks(s') - {h} == AttachedDisks(s) - {h} by {
      forall g | g != h
        ensures g in AttachedDisks(s') <==> g in AttachedDisks(s)
      {
        assert g in s'.disks.Keys - {h} <==> g in s.disks.Keys - {h};
      }
    }
    WithAndWithout(AttachedDisks(s), h);
    WithAndWithout(AttachedDisks(s'), h);
  }

  lemma WithAndWithout(hs: set<Href>, h: Href)
    ensures |hs| == |hs - {h}| + if h in hs then 1 else 0
  {
  }
}
