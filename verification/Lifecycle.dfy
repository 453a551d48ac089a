/** What each operation of the client does to the cloud, the invariant of the cloud state, and why every
    operation keeps it. */
module Lifecycle {
  import opened Wrappers
  import opened Storage
  import opened Text
  import opened CloudModel
  import opened Slots

  /** The bus the driver attaches to (DefaultBusNum) and the VDCs it has clients for. */
  datatype Config = Config(bus: int, vdcs: set<string>)

  datatype DiskAttachParams = DiskAttachParams(name: string, path: string, size: StorageSize)

  // ---------- Look-ups ----------

  function FindIn(s: State, hrefs: seq<Href>, name: string): (r: Option<Href>)
    ensures r.Some? ==> r.value in hrefs && r.value in s.vms && s.vms[r.value].name == name
    ensures r.None? ==> forall h :: h in hrefs && h in s.vms ==> s.vms[h].name != name
  {
    if hrefs == [] then None
    else if hrefs[0] in s.vms && s.vms[hrefs[0]].name == name then Some(hrefs[0])
    else FindIn(s, hrefs[1..], name)
  }

  /** Of the VMs in the list h is the first with the name. */
  ghost predicate FirstNamed(s: State, hrefs: seq<Href>, name: string, h: Href) {
    exists i :: 0 <= i < |hrefs| && hrefs[i] == h && h in s.vms && s.vms[h].name == name
                && forall j :: 0 <= j < i ==> !(hrefs[j] in s.vms && s.vms[hrefs[j]].name == name)
  }

  function FindVm(s: State, vdc: string, name: string): Option<Href> {
    FindIn(s, Listed(s, vdc), name)
  }

  ghost function LoneDisk(s: State, vdc: string, name: string): (r: Result<Href, Error>)
    ensures r.Ok? ==> DisksNamed(s, vdc, name) == {r.value}
  {
    var found := DisksNamed(s, vdc, name);
    if found == {} then Err(EntityNotFound)
    else if exists h :: found == {h} then
      var h :| found == {h};
      Ok(h)
    else Err(CountMismatch)
  }

  // ---------- The operations within one VDC ----------

  ghost function DetachIn(s: State, vdc: string, name: string): (State, Result<(), Error>) {
    match LoneDisk(s, vdc, name)
    case Err(e) => (s, Err(e))
    case Ok(h) =>
      match s.disks[h].attached
      case None => (s, Ok(()))
      case Some(vm) =>
        match FindVm(s, vdc, vm.name)
        case None => (s, Err(VmNotFound))
        case Some(v) =>
          // A VM whose settings do not name the disk is logged as a bug and left alone.
          (TaskDetach(s, v, h).Or(s), Ok(()))
  }

  predicate UnitChoice(settings: seq<Setting>, bus: int, unit: int) {
    unit in FreeUnits(settings, bus) || (FreeUnits(settings, bus) == {} && unit == 0)
  }

  lemma SomeUnit(settings: seq<Setting>, bus: int)
    ensures exists u :: UnitChoice(settings, bus, u)
  {
    if FreeUnits(settings, bus) == {} {
      assert UnitChoice(settings, bus, 0);
    } else {
      assert exists u :: u in FreeUnits(settings, bus);
      var u :| u in FreeUnits(settings, bus);
      assert UnitChoice(settings, bus, u);
    }
  }

  predicate AttachedHere(s: State, v: Href, h: Href)
    requires v in s.vms && h in s.disks
  {
    && s.disks[h].attached.Some? && s.disks[h].attached.value.href == v
    && SlotOf(s.vms[v].settings, h).Some?
  }

  function ParamsFor(name: string, unit: int, mb: int64): DiskAttachParams {
    DiskAttachParams(name, Itoa(unit), FromMb(mb))
  }

  /** The attach to VM v once its VDC is found; unit is the allocator's answer for the settings of v in s. */
  ghost function AttachIn(s: State, bus: int, vdc: string, v: Href, name: string, unit: int)
    : (State, Result<DiskAttachParams, Error>)
    requires v in s.vms
  {
    match LoneDisk(s, vdc, name)
    case Err(e) => (s, Err(if e == EntityNotFound then DiskNotExists else e))
    case Ok(h) =>
      if AttachedHere(s, v, h) then
        var setting := s.vms[v].settings[SlotOf(s.vms[v].settings, h).value];
        (s, Ok(ParamsFor(name, setting.unit, s.disks[h].sizeMb)))
      else
        var (free, detached) := if s.disks[h].attached.Some? then DetachIn(s, vdc, name) else (s, Ok(()));
        if detached.Err? then (free, Err(WrongDiskAttach))
        else
          match TaskAttach(free, v, h, bus, unit)
          case None => (free, Err(Rejected))
          case Some(after) => (after, Ok(ParamsFor(name, unit, s.disks[h].sizeMb)))
  }

  ghost function DeleteIn(s: State, vdc: string, name: string): (State, Result<(), Error>)
    requires LoneDisk(s, vdc, name).Ok?
  {
    var h := LoneDisk(s, vdc, name).value;
    var (free, detached) := if s.disks[h].attached.Some? then DetachIn(s, vdc, name) else (s, Ok(()));
    if detached.Err? then (free, detached)
    else
      match TaskDelete(free, h)
      case None => (free, Err(Rejected))
      case Some(after) => (after, Ok(()))
  }

  /** The branches logged as bugs, where the two records of an attachment disagree: the VM the disk names is not found,
      or does not name the disk. Nothing changes; the second is no error for a detach, and then the cloud refuses what
      follows. */
  lemma RecordsDisagree(s: State, bus: int, vdc: string, v: Href, name: string, unit: int, h: Href)
    requires v in s.vms && h in s.disks && LoneDisk(s, vdc, name) == Ok(h) && s.disks[h].attached.Some?
    ensures FindVm(s, vdc, s.disks[h].attached.value.name).None? ==>
              && DetachIn(s, vdc, name) == (s, Err(VmNotFound))
              && DeleteIn(s, vdc, name) == (s, Err(VmNotFound))
              && (!AttachedHere(s, v, h) ==> AttachIn(s, bus, vdc, v, name, unit) == (s, Err(WrongDiskAttach)))
    ensures FindVm(s, vdc, s.disks[h].attached.value.name).Some?
            && SlotOf(s.vms[FindVm(s, vdc, s.disks[h].attached.value.name).value].settings, h).None? ==>
              && DetachIn(s, vdc, name) == (s, Ok(()))
              && DeleteIn(s, vdc, name) == (s, Err(Rejected))
              && (!AttachedHere(s, v, h) ==> AttachIn(s, bus, vdc, v, name, unit) == (s, Err(Rejected)))
  {
  }

  /** Without one disk of the name in the VDC. */
  lemma NoLoneDisk(s: State, bus: int, vdc: string, v: Href, name: string, unit: int)
    requires v in s.vms && forall h :: DisksNamed(s, vdc, name) != {h}
    ensures var e := if DisksNamed(s, vdc, name) == {} then EntityNotFound else CountMismatch;
            DetachIn(s, vdc, name) == (s, Err(e))
    ensures var e := if DisksNamed(s, vdc, name) == {} then DiskNotExists else CountMismatch;
            AttachIn(s, bus, vdc, v, name, unit) == (s, Err(e))
  {
  }

  // ---------- The public operations; calm: no call to the cloud failed whose error is returned ----------

  ghost predicate AttachVia(cfg: Config, s: State, vdc: string, unit: int, vm: string, name: string,
                            s': State, r: Result<DiskAttachParams, Error>)
  {
    && vdc in cfg.vdcs && FindVm(s, vdc, vm).Some?
    && UnitChoice(s.vms[FindVm(s, vdc, vm).value].settings, cfg.bus, unit)
    && (s', r) == AttachIn(s, cfg.bus, vdc, FindVm(s, vdc, vm).value, name, unit)
  }

  /** The disk is on another VM than v, so that the attach begins with a detach. */
  ghost predicate MustDetach(s: State, vdc: string, v: Href, name: string) {
    && v in s.vms && LoneDisk(s, vdc, name).Ok? && LoneDisk(s, vdc, name).value in s.disks
    && s.disks[LoneDisk(s, vdc, name).value].attached.Some?
    && !AttachedHere(s, v, LoneDisk(s, vdc, name).value)
  }

  /** A call failed within the detach from another VM, or after it. */
  ghost predicate AttachBroken(cfg: Config, s: State, vdc: string, vm: string, name: string,
                               s': State, r: Result<DiskAttachParams, Error>)
  {
    && vdc in cfg.vdcs && FindVm(s, vdc, vm).Some? && MustDetach(s, vdc, FindVm(s, vdc, vm).value, name)
    && ((r == Err(WrongDiskAttach) && s' == s)
        || (r == Err(CloudFault) && DetachIn(s, vdc, name) == (s', Ok(()))))
  }

  ghost predicate AttachRel(cfg: Config, s: State, vm: string, name: string,
                            s': State, r: Result<DiskAttachParams, Error>, calm: bool)
  {
    if calm then
      || ((forall c :: c in cfg.vdcs ==> FindVm(s, c, vm).None?) && s' == s && r == Err(VmNotFound))
      || (exists c, u :: AttachVia(cfg, s, c, u, vm, name, s', r))
    else
      || (s' == s && r == Err(CloudFault))
      || (exists c :: AttachBroken(cfg, s, c, vm, name, s', r))
  }

  ghost predicate DetachRel(cfg: Config, s: State, name: string, s': State, r: Result<(), Error>, calm: bool) {
    if calm then
      || ((forall c :: c in cfg.vdcs ==> LoneDisk(s, c, name) == Err(EntityNotFound)) && s' == s && r == Ok(()))
      || (exists c :: c in cfg.vdcs && LoneDisk(s, c, name) != Err(EntityNotFound)
                      && (s', r) == DetachIn(s, c, name))
    else
      s' == s && r == Err(CloudFault)
  }

  ghost predicate DeleteVia(cfg: Config, s: State, vdc: string, name: string, s': State, r: Result<(), Error>) {
    && vdc in cfg.vdcs && LoneDisk(s, vdc, name).Ok?
    && (s', r) == DeleteIn(s, vdc, name)
  }

  /** A call failed after the disk was detached to be deleted. */
  ghost predicate Dropped(cfg: Config, s: State, vdc: string, name: string, s': State) {
    vdc in cfg.vdcs && LoneDisk(s, vdc, name).Ok? && s' == DetachIn(s, vdc, name).0
  }

  /** missed: the VDCs in which looking the disk up failed. Such a failure is logged only, and the search goes on. */
  ghost predicate DeleteRel(cfg: Config, s: State, name: string, s': State, r: Result<(), Error>,
                            missed: set<string>, calm: bool)
  {
    && missed <= cfg.vdcs
    && (calm ==>
          || ((forall c :: c in cfg.vdcs - missed ==> LoneDisk(s, c, name).Err?) && s' == s && r == Ok(()))
          || (exists c :: c !in missed && DeleteVia(cfg, s, c, name, s', r)))
    && (!calm ==>
          r == Err(CloudFault) && (s' == s || exists c :: c !in missed && Dropped(cfg, s, c, name, s')))
  }

  /** lost: submitting the create failed. That error is logged only; what waiting for the job that never was reports
      is up to the client library. */
  ghost predicate CreateRel(cfg: Config, s: State, vdc: string, name: string, size: StorageSize,
                            s': State, r: Result<(), Error>, lost: bool, calm: bool)
  {
    && (lost ==> calm && vdc in cfg.vdcs && DisksNamed(s, vdc, name) == {})
    && (if !calm then s' == s && r == Err(CloudFault)
        else if vdc !in cfg.vdcs then s' == s && r == Err(VdcNotFound)
        else if DisksNamed(s, vdc, name) != {} then s' == s && r == Ok(())
        else if lost then s' == s && (r == Ok(()) || r == Err(CloudFault))
        else r == Ok(()) && exists h: Href :: h !in s.issued && h !in s.disks
                                              && s' == TaskCreate(s, h, vdc, name, size.Mb()))
  }

  ghost predicate ResizeRel(cfg: Config, s: State, vdc: string, name: string, size: StorageSize,
                            s': State, r: Result<(), Error>, calm: bool)
  {
    if !calm then s' == s && r == Err(CloudFault)
    else if vdc !in cfg.vdcs then s' == s && r == Err(VdcNotFound)
    else match LoneDisk(s, vdc, name)
      case Err(e) => s' == s && r == Err(e)
      case Ok(h) =>
        if s.disks[h].attached.Some? then s' == s && r == Err(DiskAttachedToVm)
        else r == Ok(()) && TaskUpdate(s, h, size.Mb()) == Some(s')
  }

  datatype VolumeWithCap = VolumeWithCap(name: string, cap: StorageSize, vdcName: string)

  function Listing(disk: Disk): VolumeWithCap {
    VolumeWithCap(disk.name, FromMb(disk.sizeMb), disk.vdc)
  }

  /** vols lists every disk of the VDCs of the driver once, in the order given by hrefs. */
  ghost predicate Lists(cfg: Config, s: State, vols: seq<VolumeWithCap>, hrefs: seq<Href>) {
    && |vols| == |hrefs|
    && (forall i :: 0 <= i < |hrefs| ==> hrefs[i] in s.disks && vols[i] == Listing(s.disks[hrefs[i]]))
    && (forall i, j :: 0 <= i < j < |hrefs| ==> hrefs[i] != hrefs[j])
    && (forall h :: h in hrefs <==> h in s.disks && s.disks[h].vdc in cfg.vdcs)
  }

  // ---------- The invariant ----------

  ghost predicate VmNamesUnique(cfg: Config, s: State) {
    forall c, v, w | c in cfg.vdcs && v in Listed(s, c) && w in Listed(s, c) && v in s.vms && w in s.vms ::
      s.vms[v].name == s.vms[w].name ==> v == w
  }

  ghost predicate DiskNamesUnique(cfg: Config, s: State) {
    forall g, h | g in s.disks && h in s.disks && s.disks[g].vdc in cfg.vdcs ::
      s.disks[g].vdc == s.disks[h].vdc && s.disks[g].name == s.disks[h].name ==> g == h
  }

  ghost predicate NamedOnce(settings: seq<Setting>) {
    forall i, j | 0 <= i < |settings| && 0 <= j < |settings| && settings[i].disk.Some? ::
      settings[i].disk == settings[j].disk ==> i == j
  }

  /** One VM: no slot holds two entries, no disk is named twice, and the disks it names point back at it. */
  ghost predicate VmOk(s: State, v: Href)
    requires v in s.vms
  {
    var settings := s.vms[v].settings;
    && SlotsDistinct(settings)
    && NamedOnce(settings)
    && (forall i :: 0 <= i < |settings| && settings[i].disk.Some? ==>
          && settings[i].disk.value in s.disks
          && s.disks[settings[i].disk.value].attached == Some(VmRef(v, s.vms[v].name)))
  }

  /** One disk: the VM it is attached to names it, and belongs to the VDC of the disk. */
  ghost predicate DiskOk(cfg: Config, s: State, h: Href)
    requires h in s.disks
  {
    s.disks[h].attached.Some? ==>
      var vm := s.disks[h].attached.value;
      && vm.href in s.vms && s.vms[vm.href].name == vm.name
      && SlotOf(s.vms[vm.href].settings, h).Some?
      && (s.disks[h].vdc in cfg.vdcs ==> vm.href in Listed(s, s.disks[h].vdc))
  }

  /** Sizes whose bytes fit in 64 bits. */
  predicate SizeOk(disk: Disk) {
    -TWO_43 <= disk.sizeMb < TWO_43
  }

  ghost predicate Inv(cfg: Config, s: State) {
    && VmNamesUnique(cfg, s)
    && DiskNamesUnique(cfg, s)
    && (forall v :: v in s.vms ==> VmOk(s, v))
    && (forall h :: h in s.disks ==> DiskOk(cfg, s, h) && SizeOk(s.disks[h]) && h in s.issued)
  }

  // ---------- Consequences of the invariant ----------

  lemma FindListed(cfg: Config, s: State, vdc: string, v: Href)
    requires Inv(cfg, s) && vdc in cfg.vdcs && v in Listed(s, vdc) && v in s.vms
    ensures FindVm(s, vdc, s.vms[v].name) == Some(v)
  {
    var found := FindIn(s, Listed(s, vdc), s.vms[v].name);
    assert found.Some?;
  }

  lemma LoneDiskIs(cfg: Config, s: State, h: Href)
    requires Inv(cfg, s) && h in s.disks && s.disks[h].vdc in cfg.vdcs
    ensures LoneDisk(s, s.disks[h].vdc, s.disks[h].name) == Ok(h)
  {
    var found := DisksNamed(s, s.disks[h].vdc, s.disks[h].name);
    assert h in found;
    assert found == {h};
  }

  /** Under the invariant a look-up never meets two disks of one name: the count-mismatch branch is dead. */
  lemma NeverTwoDisks(cfg: Config, s: State, vdc: string, name: string)
    requires Inv(cfg, s) && vdc in cfg.vdcs
    ensures LoneDisk(s, vdc, name) != Err(CountMismatch)
  {
    var found := DisksNamed(s, vdc, name);
    if found != {} {
      var h :| h in found;
      LoneDiskIs(cfg, s, h);
    }
  }

  /** The cloud without disk h on any VM. */
  ghost function Detached(s: State, h: Href): State
    requires h in s.disks
  {
    if s.disks[h].attached.None? then s
    else TaskDetach(s, s.disks[h].attached.value.href, h).Or(s)
  }

  /** detachDisk finds the VM and the entry it looks for, and the disk ends up detached: neither of the two
      branches marked as bugs is taken. */
  lemma DetachEffect(cfg: Config, s: State, h: Href)
    requires Inv(cfg, s) && h in s.disks && s.disks[h].vdc in cfg.vdcs
    ensures DetachIn(s, s.disks[h].vdc, s.disks[h].name) == (Detached(s, h), Ok(()))
    ensures s.disks[h].attached.Some? ==>
              && FindVm(s, s.disks[h].vdc, s.disks[h].attached.value.name) == Some(s.disks[h].attached.value.href)
              && TaskDetach(s, s.disks[h].attached.value.href, h) == Some(Detached(s, h))
    ensures h in Detached(s, h).disks && Detached(s, h).disks[h] == s.disks[h].(attached := None)
  {
    LoneDiskIs(cfg, s, h);
    if s.disks[h].attached.Some? {
      FindListed(cfg, s, s.disks[h].vdc, s.disks[h].attached.value.href);
    }
  }

  lemma {:induction false} SlotOfUnique(settings: seq<Setting>, i: nat)
    requires NamedOnce(settings) && i < |settings| && settings[i].disk.Some?
    ensures SlotOf(settings, settings[i].disk.value) == Some(i)
  {
    var found := SlotOf(settings, settings[i].disk.value);
    assert found.Some?;
  }

  /** Where entry k of the list goes when entry i is taken out. */
  function Shift(i: nat, k: nat): nat {
    if k <= i then k else k - 1
  }

  lemma RemovedEntry(settings: seq<Setting>, h: Href)
    requires SlotsDistinct(settings) && NamedOnce(settings) && SlotOf(settings, h).Some?
    ensures var i := SlotOf(settings, h).value;
            var rest := settings[..i] + settings[i + 1..];
            && SlotsDistinct(rest) && NamedOnce(rest) && SlotOf(rest, h).None?
            && (forall k :: 0 <= k < |settings| && k != i ==>
                  && 0 <= Shift(i, k) < |rest| && rest[Shift(i, k)] == settings[k])
            && (forall k :: 0 <= k < |rest| ==> rest[k] == settings[if k < i then k else k + 1])
  {
    var i := SlotOf(settings, h).value;
    var rest := settings[..i] + settings[i + 1..];
    assert forall k :: 0 <= k < |rest| ==> rest[k] == settings[if k < i then k else k + 1];
  }

  lemma RemovedOther(settings: seq<Setting>, h: Href, g: Href)
    requires SlotsDistinct(settings) && NamedOnce(settings) && SlotOf(settings, h).Some? && g != h
    ensures var i := SlotOf(settings, h).value;
            var rest := settings[..i] + settings[i + 1..];
            (SlotOf(settings, g).Some? <==> SlotOf(rest, g).Some?)
            && (SlotOf(settings, g).Some? ==>
                  rest[SlotOf(rest, g).value] == settings[SlotOf(settings, g).value])
  {
    RemovedEntry(settings, h);
    var i := SlotOf(settings, h).value;
    var rest := settings[..i] + settings[i + 1..];
    if SlotOf(settings, g).Some? {
      var k := SlotOf(settings, g).value;
      assert rest[Shift(i, k)] == settings[k];
      SlotOfUnique(rest, Shift(i, k));
    }
  }

  lemma AddedOther(settings: seq<Setting>, entry: Setting, g: Href)
    requires entry.disk != Some(g)
    ensures SlotOf(settings + [entry], g) == SlotOf(settings, g)
  {
    var more := settings + [entry];
    if SlotOf(settings, g).Some? {
      assert more[SlotOf(settings, g).value].disk == Some(g);
    }
    if SlotOf(more, g).Some? {
      assert settings[SlotOf(more, g).value].disk == Some(g);
    }
  }
}
