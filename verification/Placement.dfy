/** From the controller to the node: the unit AttachDisk reports leads GetDiskUnit to that disk's device. */
module Placement {
  import opened Wrappers
  import opened Storage
  import opened Text
  import opened CloudModel
  import opened Slots
  import opened Lifecycle
  import opened Invariant
  import opened Runs
  import opened Attachment
  import opened Devices

  /** The rule for operators: units 8 to 15 are used on no other bus of a VM. */
  ghost predicate Rule(cfg: Config, s: State) {
    forall v, i | v in s.vms && 0 <= i < |s.vms[v].settings| ::
      Reserved(s.vms[v].settings[i].unit) ==> s.vms[v].settings[i].bus == cfg.bus
  }

  /** Every attached disk of the driver's VDCs sits in a reserved unit of the driver's bus. */
  ghost predicate Placed(cfg: Config, s: State) {
    forall h :: h in s.disks && s.disks[h].vdc in cfg.vdcs && s.disks[h].attached.Some? ==> WellPlaced(cfg, s, h)
  }

  ghost predicate WellPlaced(cfg: Config, s: State, h: Href) {
    PlaceOf(s, h).Some? && PlaceOf(s, h).value.bus == cfg.bus && Reserved(PlaceOf(s, h).value.unit)
  }

  // ---------- The rule is kept ----------

  /** The entries of every VM were there before, or are the driver's. */
  ghost predicate Grew(cfg: Config, s: State, s': State) {
    && s'.vms.Keys == s.vms.Keys
    && forall v :: v in s.vms ==> EntriesGrew(cfg, s.vms[v].settings, s'.vms[v].settings)
  }

  ghost predicate EntriesGrew(cfg: Config, before: seq<Setting>, after: seq<Setting>) {
    forall i :: 0 <= i < |after| ==> after[i] in before || after[i].bus == cfg.bus
  }

  lemma DetachGrew(cfg: Config, s: State, c: string, name: string)
    ensures Grew(cfg, s, DetachIn(s, c, name).0)
  {
    match LoneDisk(s, c, name)
    case Err(_) =>
    case Ok(h) =>
      assert h in DisksNamed(s, c, name);
  }

  lemma AttachGrew(cfg: Config, s: State, c: string, v: Href, name: string, unit: int)
    requires v in s.vms
    ensures Grew(cfg, s, AttachIn(s, cfg.bus, c, v, name, unit).0)
  {
    DetachGrew(cfg, s, c, name);
  }

  lemma TakeAwayGrew(cfg: Config, s: State, c: string, name: string)
    ensures Grew(cfg, s, DetachIn(s, c, name).0)
    ensures LoneDisk(s, c, name).Ok? ==> Grew(cfg, s, DeleteIn(s, c, name).0)
  {
    DetachGrew(cfg, s, c, name);
  }

  lemma AttachRelGrew(cfg: Config, s: State, vm: string, name: string, s': State, r: Result<DiskAttachParams, Error>,
                      calm: bool)
    requires AttachRel(cfg, s, vm, name, s', r, calm) && s' != s
    ensures Grew(cfg, s, s')
  {
    if calm {
      var c, u :| AttachVia(cfg, s, c, u, vm, name, s', r);
      AttachGrew(cfg, s, c, FindVm(s, c, vm).value, name, u);
    } else {
      var c :| AttachBroken(cfg, s, c, vm, name, s', r);
      DetachGrew(cfg, s, c, name);
    }
  }

  lemma DeleteRelGrew(cfg: Config, s: State, name: string, s': State, r: Result<(), Error>, missed: set<string>,
                      calm: bool)
    requires DeleteRel(cfg, s, name, s', r, missed, calm) && s' != s
    ensures Grew(cfg, s, s')
  {
    if calm {
      var c :| c !in missed && DeleteVia(cfg, s, c, name, s', r);
      TakeAwayGrew(cfg, s, c, name);
    } else {
      var c :| c !in missed && Dropped(cfg, s, c, name, s');
      DetachGrew(cfg, s, c, name);
    }
  }

  lemma StepGrew(cfg: Config, s: State, l: Label, s': State)
    requires Step(cfg, s, l, s')
    ensures Grew(cfg, s, s')
  {
    if s' != s {
      match l
      case Create(_, _, _, _, _, _) =>
      case Resize(_, _, _, _, _) =>
      case Attach(vm, name, r, calm) => AttachRelGrew(cfg, s, vm, name, s', r, calm);
      case Delete(name, r, missed, calm) => DeleteRelGrew(cfg, s, name, s', r, missed, calm);
      case Detach(name, r, calm) =>
        var c :| c in cfg.vdcs && LoneDisk(s, c, name) != Err(EntityNotFound) && (s', r) == DetachIn(s, c, name);
        DetachGrew(cfg, s, c, name);
    }
  }

  /** No operation breaks the operators' rule. */
  lemma RuleKept(cfg: Config, s: State, l: Label, s': State)
    requires Rule(cfg, s) && Step(cfg, s, l, s')
    ensures Rule(cfg, s')
  {
    StepGrew(cfg, s, l, s');
    forall v, i | v in s'.vms && 0 <= i < |s'.vms[v].settings| && Reserved(s'.vms[v].settings[i].unit)
      ensures s'.vms[v].settings[i].bus == cfg.bus
    {
      var before := s.vms[v].settings;
      assert EntriesGrew(cfg, before, s'.vms[v].settings);
      if s'.vms[v].settings[i] in before {
        var k :| 0 <= k < |before| && before[k] == s'.vms[v].settings[i];
      }
    }
  }

  // ---------- Placement is kept ----------

  /** Nothing but a successful attach puts a disk in a slot. */
  lemma StaysPut(cfg: Config, s: State, l: Label, s': State, h: Href)
    requires Inv(cfg, s) && Step(cfg, s, l, s') && (l.Attach? ==> l.params.Err?)
    requires h in s'.disks && s'.disks[h].attached.Some?
    ensures h in s.disks && PlaceOf(s', h) == PlaceOf(s, h)
  {
    if s' != s {
      match l
      case Create(_, _, _, _, _, _) =>
        CreateStaysPut(cfg, s, l, s', h);
      case Resize(vdc, name, size, _, _) =>
        var g := LoneDisk(s, vdc, name).value;
        assert g in DisksNamed(s, vdc, name);
        MbInRange(size);
        UpdateKeepsInv(cfg, s, g, size.Mb());
      case Attach(vm, name, r, calm) =>
        if calm {
          var c, u :| AttachVia(cfg, s, c, u, vm, name, s', r);
          var v, d := AttachCases(cfg, s, c, u, vm, name, s', r);
          AttachEffect(cfg, s, c, v, d.value, u);
          DetachKeepsInv(cfg, s, d.value);
        } else {
          var c :| AttachBroken(cfg, s, c, vm, name, s', r);
          DetachStaysPut(cfg, s, c, name, h);
        }
      case Detach(name, r, calm) =>
        var c :| c in cfg.vdcs && LoneDisk(s, c, name) != Err(EntityNotFound) && (s', r) == DetachIn(s, c, name);
        DetachStaysPut(cfg, s, c, name, h);
      case Delete(name, r, missed, calm) =>
        if c :| c !in missed && DeleteVia(cfg, s, c, name, s', r) {
          DeleteEffect(cfg, s, c, name);
        } else {
          var c :| c !in missed && Dropped(cfg, s, c, name, s');
          DetachStaysPut(cfg, s, c, name, h);
        }
    }
  }

  lemma CreateStaysPut(cfg: Config, s: State, l: Label, s': State, h: Href)
    requires Inv(cfg, s) && l.Create? && Step(cfg, s, l, s') && s' != s
    requires h in s'.disks && s'.disks[h].attached.Some?
    ensures h in s.disks && PlaceOf(s', h) == PlaceOf(s, h)
  {
    var g: Href :| g !in s.issued && g !in s.disks && s' == TaskCreate(s, g, l.vdc, l.name, l.size.Mb());
    MbInRange(l.size);
    CreateKeepsInv(cfg, s, g, l.vdc, l.name, l.size.Mb());
  }

  lemma DetachStaysPut(cfg: Config, s: State, c: string, name: string, h: Href)
    requires Inv(cfg, s) && c in cfg.vdcs
    requires h in DetachIn(s, c, name).0.disks && DetachIn(s, c, name).0.disks[h].attached.Some?
    ensures h in s.disks && PlaceOf(DetachIn(s, c, name).0, h) == PlaceOf(s, h)
  {
    NeverTwoDisks(cfg, s, c, name);
    match LoneDisk(s, c, name)
    case Err(_) =>
    case Ok(g) =>
      assert g in DisksNamed(s, c, name);
      DetachEffect(cfg, s, g);
      DetachKeepsInv(cfg, s, g);
  }

  /** The VM holds fewer volumes than a node may, or holds this one already. */
  ghost predicate Roomy(cfg: Config, s: State, vm: string, name: string) {
    forall c :: c in cfg.vdcs && FindVm(s, c, vm).Some? && LoneDisk(s, c, name).Ok? ==>
      var v, h := FindVm(s, c, vm).value, LoneDisk(s, c, name).value;
      h in s.disks && (AttachedHere(s, v, h) || |ReservedSettings(s.vms[v].settings, cfg.bus)| < MAX_VOLUMES_PER_NODE)
  }

  /** While no node is given more volumes than it may hold, the allocator always finds a unit, unit 0 is never asked
      for, and every disk is placed where the node can find it. */
  lemma PlacedKept(cfg: Config, s: State, l: Label, s': State)
    requires Inv(cfg, s) && Placed(cfg, s) && Step(cfg, s, l, s')
    requires l.Attach? ==> Roomy(cfg, s, l.vm, l.name)
    ensures Placed(cfg, s')
    ensures l.Attach? && l.params.Ok? ==> exists u :: Reserved(u) && l.params.value.path == Itoa(u)
    ensures l.Attach? && l.calm ==> l.params != Err(Rejected)
  {
    if l.Attach? && l.params.Ok? {
      AttachedPlaced(cfg, s, l.vm, l.name, s', l.params, l.calm);
    } else {
      StepSafe(cfg, s, l, s');
      forall h | h in s'.disks && s'.disks[h].vdc in cfg.vdcs && s'.disks[h].attached.Some?
        ensures WellPlaced(cfg, s', h)
      {
        StaysPut(cfg, s, l, s', h);
        StepFrame(cfg, s, l, s', h);
        PlaceIsAttached(s, h);
        PlaceIsAttached(s', h);
        assert DiskOk(cfg, s', h);
        assert WellPlaced(cfg, s, h);
      }
      if l.Attach? && l.calm && l.params == Err(Rejected) {
        NeverRejected(cfg, s, l.vm, l.name, s', l.params);
      }
    }
  }

  lemma AttachedPlaced(cfg: Config, s: State, vm: string, name: string, s': State,
                       r: Result<DiskAttachParams, Error>, calm: bool)
    requires Inv(cfg, s) && Placed(cfg, s) && AttachRel(cfg, s, vm, name, s', r, calm) && r.Ok?
    requires Roomy(cfg, s, vm, name)
    ensures Placed(cfg, s') && exists u :: Reserved(u) && r.value.path == Itoa(u)
  {
    var c, v, d := AttachPlaces(cfg, s, vm, name, s', r, calm);
    LoneDiskIs(cfg, s, d);
    if !AttachedHere(s, v, d) {
      RoomMeansFreeUnit(s.vms[v].settings, cfg.bus);
    }
    assert WellPlaced(cfg, s', d);
    forall h | h in s'.disks && s'.disks[h].vdc in cfg.vdcs && s'.disks[h].attached.Some?
      ensures WellPlaced(cfg, s', h)
    {
      if h != d {
        assert h in s'.disks.Keys - {d};
        assert WellPlaced(cfg, s, h);
      }
    }
  }

  lemma PlaceIsAttached(s: State, h: Href)
    ensures PlaceOf(s, h).Some? ==> h in s.disks && s.disks[h].attached.Some?
  {
  }

  lemma NeverRejected(cfg: Config, s: State, vm: string, name: string, s': State, r: Result<DiskAttachParams, Error>)
    requires Inv(cfg, s) && AttachRel(cfg, s, vm, name, s', r, true) && Roomy(cfg, s, vm, name)
    ensures r != Err(Rejected)
  {
    if c, u :| AttachVia(cfg, s, c, u, vm, name, s', r) {
      var v, d := AttachCases(cfg, s, c, u, vm, name, s', r);
      if d.Some? {
        LoneDiskIs(cfg, s, d.value);
        AttachEffect(cfg, s, c, v, d.value, u);
        if !AttachedHere(s, v, d.value) {
          RoomMeansFreeUnit(s.vms[v].settings, cfg.bus);
        }
      }
    }
  }

  /** A fresh attach is placed in a reserved unit exactly when the VM has one free. On a full VM the allocator's
      error is lost and the attach goes on with unit 0. */
  lemma FullNode(cfg: Config, s: State, c: string, v: Href, h: Href, unit: int)
    requires Inv(cfg, s) && c in cfg.vdcs && v in Listed(s, c) && v in s.vms
    requires h in s.disks && s.disks[h].vdc == c && !AttachedHere(s, v, h)
    requires UnitChoice(s.vms[v].settings, cfg.bus, unit)
    ensures var (s', r) := AttachIn(s, cfg.bus, c, v, s.disks[h].name, unit);
            && (r.Ok? && WellPlaced(cfg, s', h) <==> FreeUnits(s.vms[v].settings, cfg.bus) != {})
            && (r.Ok? && !WellPlaced(cfg, s', h) ==>
                  r.value.path == "0" && PlaceOf(s', h) == Some(Place(v, cfg.bus, 0)))
  {
    AttachEffect(cfg, s, c, v, h, unit);
    assert Itoa(0) == "0";
  }

  // ---------- Identification ----------

  /** On any devices VM v may show, path leads GetDiskUnit to the device of the entry of h. */
  ghost predicate Identifies(s: State, v: Href, h: Href, path: string) {
    && v in s.vms && SlotOf(s.vms[v].settings, h).Some?
    && forall devices, at :: Shows(devices, s.vms[v].settings, at) ==>
         FindByUnit(devices, path) == Ok(DevicePath(devices[at[SlotOf(s.vms[v].settings, h).value]]))
  }

  /** No other entry, on whatever bus, has the unit of entry i. */
  ghost predicate AloneInUnit(settings: seq<Setting>, i: nat) {
    i < |settings| && forall j :: 0 <= j < |settings| && j != i ==> settings[j].unit != settings[i].unit
  }

  /** The unit of an attached disk identifies it exactly when no other entry of its VM has that unit. */
  lemma UnitIdentifies(s: State, h: Href)
    requires PlaceOf(s, h).Some?
    ensures var v := PlaceOf(s, h).value.vm;
            Identifies(s, v, h, Itoa(PlaceOf(s, h).value.unit)) <==>
            AloneInUnit(s.vms[v].settings, SlotOf(s.vms[v].settings, h).value)
  {
    var v := PlaceOf(s, h).value.vm;
    var settings := s.vms[v].settings;
    var i := SlotOf(settings, h).value;
    forall devices, at | Shows(devices, settings, at)
      ensures FindByUnit(devices, Itoa(settings[i].unit)) == Ok(DevicePath(devices[at[i]])) <==> AloneInUnit(settings, i)
    {
      Identified(devices, settings, at, i);
    }
    var devices, at := ShownSomehow(settings);
  }

  /** Every successful attach, be it a fresh one, a migration or a repeat, in a reserved unit or in unit 0: the path it
      returns identifies the disk exactly when no other entry of the VM, on any bus, has the unit reported. */
  lemma PathIdentifies(cfg: Config, s: State, vm: string, name: string,
                       s': State, r: Result<DiskAttachParams, Error>, calm: bool)
    returns (v: Href, h: Href)
    requires Inv(cfg, s) && AttachRel(cfg, s, vm, name, s', r, calm) && r.Ok?
    ensures v in s'.vms && s'.vms[v].name == vm
    ensures h in s'.disks && s'.disks[h].name == name && s'.disks[h].attached == Some(VmRef(v, vm))
    ensures SlotOf(s'.vms[v].settings, h).Some?
    ensures Identifies(s', v, h, r.value.path) <==> AloneInUnit(s'.vms[v].settings, SlotOf(s'.vms[v].settings, h).value)
  {
    var c, w, d := AttachPlaces(cfg, s, vm, name, s', r, calm);
    v, h := w, d;
    UnitIdentifies(s', h);
  }

  /** No entry of the VM, on whatever bus, has the unit. */
  predicate UnitUnused(settings: seq<Setting>, unit: int) {
    forall j :: 0 <= j < |settings| ==> settings[j].unit != unit
  }

  /** Before the attach: the unit the disk has on v already is no other entry's, or no unit the cloud would accept from
      the allocator is the unit of an entry. */
  ghost predicate WillIdentify(cfg: Config, s: State, v: Href, h: Href)
    requires v in s.vms && h in s.disks
  {
    var settings := s.vms[v].settings;
    if AttachedHere(s, v, h) then AloneInUnit(settings, SlotOf(settings, h).value)
    else forall u :: UnitChoice(settings, cfg.bus, u) && !Taken(settings, cfg.bus, u) ==> UnitUnused(settings, u)
  }

  ghost predicate AlwaysIdentifies(cfg: Config, s: State, c: string, vm: string, name: string, v: Href, h: Href) {
    forall u, s', r :: AttachVia(cfg, s, c, u, vm, name, s', r) && r.Ok? ==> Identifies(s', v, h, r.value.path)
  }

  /** The attach in VDC c: whatever unit is chosen, a path it returns identifies the disk, exactly when the condition
      above holds before the call. */
  lemma PathsIdentify(cfg: Config, s: State, c: string, vm: string, name: string, v: Href, h: Href)
    requires Inv(cfg, s) && c in cfg.vdcs && FindVm(s, c, vm) == Some(v) && LoneDisk(s, c, name) == Ok(h)
    ensures v in s.vms && h in s.disks
    ensures AlwaysIdentifies(cfg, s, c, vm, name, v, h) <==> WillIdentify(cfg, s, v, h)
  {
    assert h in DisksNamed(s, c, name);
    var settings := s.vms[v].settings;
    if AttachedHere(s, v, h) {
      SomeUnit(settings, cfg.bus);
      var u :| UnitChoice(settings, cfg.bus, u);
      var (s', r) := AttachIn(s, cfg.bus, c, v, name, u);
      assert AttachVia(cfg, s, c, u, vm, name, s', r);
      UnitIdentified(cfg, s, c, v, h, u);
    } else {
      forall u | UnitChoice(settings, cfg.bus, u) && !Taken(settings, cfg.bus, u)
                 && AlwaysIdentifies(cfg, s, c, vm, name, v, h)
        ensures UnitUnused(settings, u)
      {
        var (s', r) := AttachIn(s, cfg.bus, c, v, name, u);
        assert AttachVia(cfg, s, c, u, vm, name, s', r);
        UnitIdentified(cfg, s, c, v, h, u);
      }
    }
    forall u, s', r | AttachVia(cfg, s, c, u, vm, name, s', r) && r.Ok? && WillIdentify(cfg, s, v, h)
      ensures Identifies(s', v, h, r.value.path)
    {
      UnitIdentified(cfg, s, c, v, h, u);
    }
  }

  /** One attach with unit u. */
  lemma UnitIdentified(cfg: Config, s: State, c: string, v: Href, h: Href, u: int)
    requires Inv(cfg, s) && c in cfg.vdcs && v in Listed(s, c) && v in s.vms
    requires h in s.disks && s.disks[h].vdc == c && UnitChoice(s.vms[v].settings, cfg.bus, u)
    ensures var (s', r) := AttachIn(s, cfg.bus, c, v, s.disks[h].name, u);
            && (r.Ok? <==> AttachedHere(s, v, h) || !Taken(s.vms[v].settings, cfg.bus, u))
            && (r.Ok? ==>
                  (Identifies(s', v, h, r.value.path) <==>
                   if AttachedHere(s, v, h) then AloneInUnit(s.vms[v].settings, SlotOf(s.vms[v].settings, h).value)
                   else UnitUnused(s.vms[v].settings, u)))
  {
    var settings := s.vms[v].settings;
    var (s', r) := AttachIn(s, cfg.bus, c, v, s.disks[h].name, u);
    AttachEffect(cfg, s, c, v, h, u);
    if r.Ok? {
      UnitIdentifies(s', h);
      if !AttachedHere(s, v, h) {
        EntryAdded(cfg, s, c, v, h, u);
        LastAlone(settings, Setting(cfg.bus, u, Some(h)));
      }
    }
  }

  lemma EntryAdded(cfg: Config, s: State, c: string, v: Href, h: Href, u: int)
    requires Inv(cfg, s) && c in cfg.vdcs && v in Listed(s, c) && v in s.vms
    requires h in s.disks && s.disks[h].vdc == c && !AttachedHere(s, v, h)
    requires AttachIn(s, cfg.bus, c, v, s.disks[h].name, u).1.Ok?
    ensures var s' := AttachIn(s, cfg.bus, c, v, s.disks[h].name, u).0;
            && v in s'.vms && s'.vms[v].settings == s.vms[v].settings + [Setting(cfg.bus, u, Some(h))]
            && SlotOf(s'.vms[v].settings, h) == Some(|s.vms[v].settings|)
  {
    LoneDiskIs(cfg, s, h);
    DetachEffect(cfg, s, h);
    StaleSnapshotSafe(cfg, s, v, h);
    assert DiskOk(cfg, s, h);
    NamedNowhereElse(cfg, s, h, v);
    LastEntry(s.vms[v].settings, Setting(cfg.bus, u, Some(h)), h);
  }

  lemma LastEntry(settings: seq<Setting>, entry: Setting, h: Href)
    requires SlotOf(settings, h).None? && entry.disk == Some(h)
    ensures SlotOf(settings + [entry], h) == Some(|settings|)
  {
    var more := settings + [entry];
    assert more[|settings|].disk == Some(h);
    assert forall k :: 0 <= k < |settings| ==> more[k] == settings[k];
  }

  lemma LastAlone(settings: seq<Setting>, entry: Setting)
    ensures AloneInUnit(settings + [entry], |settings|) <==> UnitUnused(settings, entry.unit)
  {
    var more := settings + [entry];
    assert forall k :: 0 <= k < |settings| ==> more[k] == settings[k];
  }

  /** A well placed disk is found by its unit: the device GetDiskUnit returns on its VM is the one of its entry. */
  lemma DiskIdentified(cfg: Config, s: State, h: Href)
    requires Inv(cfg, s) && Rule(cfg, s) && h in s.disks && WellPlaced(cfg, s, h)
    ensures Identifies(s, PlaceOf(s, h).value.vm, h, Itoa(PlaceOf(s, h).value.unit))
  {
    assert VmOk(s, PlaceOf(s, h).value.vm);
    UnitIdentifies(s, h);
  }

  /** A run in which no node is given more volumes than it may hold, from a state the driver could have made. */
  ghost predicate GoodRun(cfg: Config, states: seq<State>, labels: seq<Label>) {
    && Run(cfg, states, labels)
    && Inv(cfg, states[0]) && Rule(cfg, states[0]) && Placed(cfg, states[0])
    && forall i :: 0 <= i < |labels| && labels[i].Attach? ==> Roomy(cfg, states[i], labels[i].vm, labels[i].name)
  }

  lemma {:induction false} GoodRunSafe(cfg: Config, states: seq<State>, labels: seq<Label>, n: nat)
    requires GoodRun(cfg, states, labels) && n <= |labels|
    ensures Inv(cfg, states[n]) && Rule(cfg, states[n]) && Placed(cfg, states[n])
  {
    if n > 0 {
      GoodRunSafe(cfg, states, labels, n - 1);
      StepSafe(cfg, states[n - 1], labels[n - 1], states[n]);
      RuleKept(cfg, states[n - 1], labels[n - 1], states[n]);
      PlacedKept(cfg, states[n - 1], labels[n - 1], states[n]);
    }
  }

  /** Disk h is on VM v, the two that attach l named, in a slot with the unit it reported. */
  ghost predicate SitsAt(cfg: Config, s: State, l: Label, v: Href, h: Href) {
    && l.Attach? && l.params.Ok?
    && v in s.vms && s.vms[v].name == l.vm
    && h in s.disks && s.disks[h].name == l.name && s.disks[h].vdc in cfg.vdcs
    && s.disks[h].attached == Some(VmRef(v, l.vm))
    && PlaceOf(s, h).Some? && PlaceOf(s, h).value.vm == v
    && l.params.value.path == Itoa(PlaceOf(s, h).value.unit)
  }

  lemma AttachedThen(cfg: Config, s: State, l: Label, s': State) returns (v: Href, h: Href)
    requires Inv(cfg, s) && Step(cfg, s, l, s') && l.Attach? && l.params.Ok?
    ensures SitsAt(cfg, s', l, v, h)
  {
    var c, w, d := AttachPlaces(cfg, s, l.vm, l.name, s', l.params, l.calm);
    v, h := w, d;
  }

  lemma SitsStill(cfg: Config, s: State, m: Label, s': State, l: Label, v: Href, h: Href)
    requires Inv(cfg, s) && Step(cfg, s, m, s') && SitsAt(cfg, s, l, v, h) && m.name != l.name
    ensures SitsAt(cfg, s', l, v, h)
  {
    StepSafe(cfg, s, m, s');
    StepFrame(cfg, s, m, s', h);
  }

  /** When step k of a run attached a disk and no step since has named it, it still is where step k put it. */
  lemma {:induction false} AttachedStays(cfg: Config, states: seq<State>, labels: seq<Label>, k: nat, n: nat)
    returns (v: Href, h: Href)
    requires Run(cfg, states, labels) && Inv(cfg, states[0]) && k < n <= |labels|
    requires labels[k].Attach? && labels[k].params.Ok?
    requires forall i :: k < i < n ==> labels[i].name != labels[k].name
    ensures SitsAt(cfg, states[n], labels[k], v, h)
    decreases n
  {
    RunSafe(cfg, states, labels, n - 1);
    assert Step(cfg, states[n - 1], labels[n - 1], states[n]);
    if n == k + 1 {
      v, h := AttachedThen(cfg, states[k], labels[k], states[n]);
    } else {
      v, h := AttachedStays(cfg, states, labels, k, n - 1);
      SitsStill(cfg, states[n - 1], labels[n - 1], states[n], labels[k], v, h);
    }
  }

  /** End to end, in any run: when step k attached a disk and no step since has named it, the path that step returned
      identifies the disk exactly when no other entry of the VM has by now the unit it was given. */
  lemma EndToEndExactly(cfg: Config, states: seq<State>, labels: seq<Label>, k: nat, n: nat) returns (v: Href, h: Href)
    requires Run(cfg, states, labels) && Inv(cfg, states[0]) && k < n <= |labels|
    requires labels[k].Attach? && labels[k].params.Ok?
    requires forall i :: k < i < n ==> labels[i].name != labels[k].name
    ensures SitsAt(cfg, states[n], labels[k], v, h)
    ensures SlotOf(states[n].vms[v].settings, h).Some?
    ensures Identifies(states[n], v, h, labels[k].params.value.path) <==>
            AloneInUnit(states[n].vms[v].settings, SlotOf(states[n].vms[v].settings, h).value)
  {
    v, h := AttachedStays(cfg, states, labels, k, n);
    UnitIdentifies(states[n], h);
  }

  /** End to end, in a good run: when step k attached a disk and no step since has named it, the path that step
      returned identifies it. */
  lemma EndToEnd(cfg: Config, states: seq<State>, labels: seq<Label>, k: nat, n: nat) returns (v: Href, h: Href)
    requires GoodRun(cfg, states, labels) && k < n <= |labels|
    requires labels[k].Attach? && labels[k].params.Ok?
    requires forall i :: k < i < n ==> labels[i].name != labels[k].name
    ensures SitsAt(cfg, states[n], labels[k], v, h)
    ensures Identifies(states[n], v, h, labels[k].params.value.path)
  {
    v, h := AttachedStays(cfg, states, labels, k, n);
    GoodRunSafe(cfg, states, labels, n);
    assert WellPlaced(cfg, states[n], h);
    DiskIdentified(cfg, states[n], h);
  }
}
