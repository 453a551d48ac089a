/** The simple form of the client: a map from a volume, known by its VDC and name, to its size and its node.
    Every operation on disks, VMs and settings is one step on that map. */
module Volumes {
  import opened Wrappers
  import opened Storage
  import opened CloudModel
  import opened Lifecycle
  import opened Invariant
  import opened Runs

  datatype Volume = Volume(sizeMb: int64, node: Option<string>)

  type Key = (string, string)

  type VolumeMap = map<Key, Volume>

  /** The VMs of each VDC, by name. Nodes come and go without the driver. */
  type NodeMap = map<string, set<string>>

  // ---------- The simple machine ----------

  predicate HasNode(nodes: NodeMap, vdc: string, vm: string) {
    vdc in nodes && vm in nodes[vdc]
  }

  function Freed(m: VolumeMap, k: Key): VolumeMap {
    if k in m then m[k := m[k].(node := None)] else m
  }

  ghost predicate AttachOne(m: VolumeMap, k: Key, vm: string, m': VolumeMap, r: Result<DiskAttachParams, Error>) {
    if k !in m then m' == m && r == Err(DiskNotExists)
    else
      && (r.Ok? ==> r.value.name == k.1 && r.value.size == FromMb(m[k].sizeMb))
      && (if m[k].node == Some(vm) then m' == m && r.Ok?
          else if r.Ok? then m' == m[k := m[k].(node := Some(vm))]
          else r == Err(Rejected) && m' == Freed(m, k))
  }

  /** m' is m without volume k. */
  ghost predicate Gone(m: VolumeMap, k: Key, m': VolumeMap) {
    k in m && m' == m - {k}
  }

  /** m' is m with volume k on no node. */
  ghost predicate Loose(m: VolumeMap, k: Key, m': VolumeMap) {
    k in m && m' == Freed(m, k)
  }

  ghost predicate Nowhere(vdcs: set<string>, m: VolumeMap, name: string) {
    forall c :: c in vdcs ==> (c, name) !in m
  }

  /** The volume is on another node than vm. */
  predicate Elsewhere(m: VolumeMap, k: Key, vm: string) {
    k in m && m[k].node.Some? && m[k].node != Some(vm)
  }

  /** An attach in which a call failed within the detach from the other node, or after it. */
  ghost predicate AttachCut(m: VolumeMap, k: Key, vm: string, m': VolumeMap, r: Result<DiskAttachParams, Error>) {
    && Elsewhere(m, k, vm)
    && ((r == Err(WrongDiskAttach) && m' == m) || (r == Err(CloudFault) && Loose(m, k, m')))
  }

  ghost predicate SimpleStep(nodes: NodeMap, m: VolumeMap, l: Label, m': VolumeMap) {
    match l
    case Create(vdc, name, size, r, lost, calm) =>
      && (lost ==> calm && vdc in nodes && (vdc, name) !in m)
      && (if !calm then m' == m && r == Err(CloudFault)
          else if vdc !in nodes then m' == m && r == Err(VdcNotFound)
          else if (vdc, name) in m then m' == m && r == Ok(())
          else if lost then m' == m && (r == Ok(()) || r == Err(CloudFault))
          else m' == m[(vdc, name) := Volume(size.Mb(), None)] && r == Ok(()))
    case Delete(name, r, missed, calm) =>
      && missed <= nodes.Keys
      && (calm ==>
            && r == Ok(())
            && ((Nowhere(nodes.Keys - missed, m, name) && m' == m)
                || exists c :: c in nodes.Keys - missed && Gone(m, (c, name), m')))
      && (!calm ==>
            && r == Err(CloudFault)
            && (m' == m || exists c :: c in nodes.Keys - missed && Loose(m, (c, name), m')))
    case Detach(name, r, calm) =>
      if calm then
        r == Ok(()) && ((Nowhere(nodes.Keys, m, name) && m' == m)
                        || exists c :: c in nodes && Loose(m, (c, name), m'))
      else
        m' == m && r == Err(CloudFault)
    case Attach(vm, name, r, calm) =>
      if calm then
        || ((forall c :: !HasNode(nodes, c, vm)) && m' == m && r == Err(VmNotFound))
        || exists c :: HasNode(nodes, c, vm) && AttachOne(m, (c, name), vm, m', r)
      else
        || (m' == m && r == Err(CloudFault))
        || exists c :: HasNode(nodes, c, vm) && AttachCut(m, (c, name), vm, m', r)
    case Resize(vdc, name, size, r, calm) =>
      if !calm then m' == m && r == Err(CloudFault)
      else if vdc !in nodes then m' == m && r == Err(VdcNotFound)
      else if (vdc, name) !in m then m' == m && r == Err(EntityNotFound)
      else if m[(vdc, name)].node.Some? then m' == m && r == Err(DiskAttachedToVm)
      else m' == m[(vdc, name) := Volume(size.Mb(), None)] && r == Ok(())
  }

  // ---------- The abstraction ----------

  function VolumeOf(disk: Disk): Volume {
    Volume(disk.sizeMb, match disk.attached case Some(vm) => Some(vm.name) case None => None)
  }

  ghost function VolumesOf(cfg: Config, s: State): VolumeMap
    requires DiskNamesUnique(cfg, s)
  {
    map h | h in s.disks && s.disks[h].vdc in cfg.vdcs :: (s.disks[h].vdc, s.disks[h].name) := VolumeOf(s.disks[h])
  }

  ghost function NodesOf(cfg: Config, s: State): NodeMap {
    map c | c in cfg.vdcs :: set v | v in Listed(s, c) && v in s.vms :: s.vms[v].name
  }

  lemma NodeFound(cfg: Config, s: State, c: string, vm: string)
    requires c in cfg.vdcs
    ensures FindVm(s, c, vm).Some? <==> HasNode(NodesOf(cfg, s), c, vm)
  {
    var found := FindIn(s, Listed(s, c), vm);
  }

  lemma VolumeFound(cfg: Config, s: State, c: string, name: string)
    requires Inv(cfg, s) && c in cfg.vdcs
    ensures (c, name) in VolumesOf(cfg, s) <==> LoneDisk(s, c, name).Ok?
    ensures (c, name) !in VolumesOf(cfg, s) <==> LoneDisk(s, c, name) == Err(EntityNotFound)
    ensures (c, name) !in VolumesOf(cfg, s) <==> DisksNamed(s, c, name) == {}
    ensures (c, name) in VolumesOf(cfg, s) ==>
              && LoneDisk(s, c, name).value in s.disks
              && s.disks[LoneDisk(s, c, name).value].vdc == c && s.disks[LoneDisk(s, c, name).value].name == name
              && VolumesOf(cfg, s)[(c, name)] == VolumeOf(s.disks[LoneDisk(s, c, name).value])
  {
    NeverTwoDisks(cfg, s, c, name);
    if LoneDisk(s, c, name).Ok? {
      var h := LoneDisk(s, c, name).value;
      assert h in DisksNamed(s, c, name);
    } else {
      assert forall h :: h in s.disks && s.disks[h].vdc == c && s.disks[h].name == name ==> h in DisksNamed(s, c, name);
    }
  }

  lemma VolumeAt(cfg: Config, s: State, h: Href)
    requires DiskNamesUnique(cfg, s) && h in s.disks && s.disks[h].vdc in cfg.vdcs
    ensures (s.disks[h].vdc, s.disks[h].name) in VolumesOf(cfg, s)
    ensures VolumesOf(cfg, s)[(s.disks[h].vdc, s.disks[h].name)] == VolumeOf(s.disks[h])
  {
  }

  lemma DiskBehind(cfg: Config, s: State, k: Key) returns (h: Href)
    requires DiskNamesUnique(cfg, s) && k in VolumesOf(cfg, s)
    ensures h in s.disks && s.disks[h].vdc in cfg.vdcs && (s.disks[h].vdc, s.disks[h].name) == k
    ensures VolumesOf(cfg, s)[k] == VolumeOf(s.disks[h])
  {
    h :| h in s.disks && s.disks[h].vdc in cfg.vdcs && (s.disks[h].vdc, s.disks[h].name) == k;
  }

  /** A volume map is told by its disks: k holds the volume of its disk in s', if there is one. */
  lemma VolumesAre(cfg: Config, s: State, m: VolumeMap)
    requires DiskNamesUnique(cfg, s)
    requires forall h :: h in s.disks && s.disks[h].vdc in cfg.vdcs ==>
                           && (s.disks[h].vdc, s.disks[h].name) in m
                           && m[(s.disks[h].vdc, s.disks[h].name)] == VolumeOf(s.disks[h])
    requires forall k :: k in m ==> k in VolumesOf(cfg, s)
    ensures VolumesOf(cfg, s) == m
  {
    forall k | k in VolumesOf(cfg, s)
      ensures k in m && m[k] == VolumesOf(cfg, s)[k]
    {
      var h := DiskBehind(cfg, s, k);
    }
  }

  lemma VolumeUpdated(cfg: Config, s: State, s': State, h: Href)
    requires DiskNamesUnique(cfg, s) && DiskNamesUnique(cfg, s')
    requires h in s'.disks && s'.disks[h].vdc in cfg.vdcs
    requires s'.disks == s.disks[h := s'.disks[h]]
    requires h in s.disks ==> s.disks[h].name == s'.disks[h].name && s.disks[h].vdc == s'.disks[h].vdc
    ensures VolumesOf(cfg, s') == VolumesOf(cfg, s)[(s'.disks[h].vdc, s'.disks[h].name) := VolumeOf(s'.disks[h])]
  {
    var k := (s'.disks[h].vdc, s'.disks[h].name);
    var m := VolumesOf(cfg, s)[k := VolumeOf(s'.disks[h])];
    forall g | g in s'.disks && s'.disks[g].vdc in cfg.vdcs
      ensures (s'.disks[g].vdc, s'.disks[g].name) in m
      ensures m[(s'.disks[g].vdc, s'.disks[g].name)] == VolumeOf(s'.disks[g])
    {
      if g != h {
        VolumeAt(cfg, s, g);
      }
    }
    VolumeAt(cfg, s', h);
    forall j | j in m && j != k
      ensures j in VolumesOf(cfg, s')
    {
      var g := DiskBehind(cfg, s, j);
      VolumeAt(cfg, s', g);
    }
    VolumesAre(cfg, s', m);
  }

  lemma MovedDisk(s: State, s': State, h: Href)
    requires OnlyMoved(s, s', h) && h in s'.disks
    ensures s'.disks == s.disks[h := s'.disks[h]]
  {
    forall g
      ensures g in s'.disks <==> g in s.disks || g == h
    {
      assert g in s'.disks.Keys - {h} <==> g in s.disks.Keys - {h};
    }
  }

  lemma VolumeRemoved(cfg: Config, s: State, s': State, h: Href)
    requires DiskNamesUnique(cfg, s) && DiskNamesUnique(cfg, s')
    requires h in s.disks && s'.disks == s.disks - {h}
    requires s.disks[h].vdc in cfg.vdcs
    ensures VolumesOf(cfg, s') == VolumesOf(cfg, s) - {(s.disks[h].vdc, s.disks[h].name)}
  {
    var m := VolumesOf(cfg, s) - {(s.disks[h].vdc, s.disks[h].name)};
    forall g | g in s'.disks && s'.disks[g].vdc in cfg.vdcs
      ensures (s'.disks[g].vdc, s'.disks[g].name) in m
      ensures m[(s'.disks[g].vdc, s'.disks[g].name)] == VolumeOf(s'.disks[g])
    {
      VolumeAt(cfg, s, g);
    }
    forall j | j in m
      ensures j in VolumesOf(cfg, s')
    {
      var g := DiskBehind(cfg, s, j);
      VolumeAt(cfg, s', g);
    }
    VolumesAre(cfg, s', m);
  }

  /** Nodes and their VDCs are not the driver's to change. */
  lemma NodesFixed(cfg: Config, s: State, l: Label, s': State)
    requires Inv(cfg, s) && Step(cfg, s, l, s')
    ensures NodesOf(cfg, s') == NodesOf(cfg, s)
  {
    StepSafe(cfg, s, l, s');
    var h :| About(cfg, s, l, s', h);
    SameNodes(cfg, s, s');
  }

  lemma SameNodes(cfg: Config, s: State, s': State)
    requires s'.listing == s.listing && s'.vms.Keys == s.vms.Keys
    requires forall v :: v in s.vms ==> s'.vms[v].name == s.vms[v].name
    ensures NodesOf(cfg, s') == NodesOf(cfg, s)
  {
    forall c | c in cfg.vdcs
      ensures NodesOf(cfg, s')[c] == NodesOf(cfg, s)[c]
    {
      assert Listed(s', c) == Listed(s, c);
    }
  }

  // ---------- The operations, one by one ----------

  lemma DetachSimple(cfg: Config, s: State, c: string, name: string)
    requires Inv(cfg, s) && c in cfg.vdcs
    ensures Inv(cfg, DetachIn(s, c, name).0)
    ensures VolumesOf(cfg, DetachIn(s, c, name).0) == Freed(VolumesOf(cfg, s), (c, name))
    ensures DetachIn(s, c, name).1 == if (c, name) in VolumesOf(cfg, s) then Ok(()) else Err(EntityNotFound)
  {
    VolumeFound(cfg, s, c, name);
    if (c, name) in VolumesOf(cfg, s) {
      var h := LoneDisk(s, c, name).value;
      DetachEffect(cfg, s, h);
      DetachKeepsInv(cfg, s, h);
      MovedDisk(s, Detached(s, h), h);
      VolumeUpdated(cfg, s, Detached(s, h), h);
    }
  }

  lemma DeleteSimple(cfg: Config, s: State, c: string, name: string, s': State, r: Result<(), Error>)
    requires Inv(cfg, s) && DeleteVia(cfg, s, c, name, s', r)
    ensures Inv(cfg, s') && r == Ok(()) && (c, name) in VolumesOf(cfg, s)
    ensures VolumesOf(cfg, s') == VolumesOf(cfg, s) - {(c, name)}
  {
    VolumeFound(cfg, s, c, name);
    DeleteEffect(cfg, s, c, name);
    VolumeRemoved(cfg, s, s', LoneDisk(s, c, name).value);
  }

  /** Within a VDC the name of its node says which VM a disk is attached to. */
  lemma NodeIsVm(cfg: Config, s: State, v: Href, h: Href)
    requires Inv(cfg, s) && h in s.disks && s.disks[h].vdc in cfg.vdcs
    requires v in s.vms && v in Listed(s, s.disks[h].vdc)
    ensures VolumeOf(s.disks[h]).node == Some(s.vms[v].name) <==> AttachedHere(s, v, h)
  {
    assert DiskOk(cfg, s, h);
  }

  lemma AttachSimple(cfg: Config, s: State, c: string, u: int, vm: string, name: string,
                     s': State, r: Result<DiskAttachParams, Error>)
    requires Inv(cfg, s) && AttachVia(cfg, s, c, u, vm, name, s', r)
    ensures Inv(cfg, s') && HasNode(NodesOf(cfg, s), c, vm)
    ensures AttachOne(VolumesOf(cfg, s), (c, name), vm, VolumesOf(cfg, s'), r)
  {
    var v, h := AttachCases(cfg, s, c, u, vm, name, s', r);
    NodeFound(cfg, s, c, vm);
    VolumeFound(cfg, s, c, name);
    if h.Some? {
      LoneDiskIs(cfg, s, h.value);
      AttachEffect(cfg, s, c, v, h.value, u);
      NodeIsVm(cfg, s, v, h.value);
      MovedDisk(s, s', h.value);
      VolumeUpdated(cfg, s, s', h.value);
      if r.Ok? {
        assert DiskOk(cfg, s', h.value);
      } else {
        DetachEffect(cfg, s, h.value);
      }
    }
  }

  lemma RefineAttach(cfg: Config, s: State, l: Label, s': State)
    requires Inv(cfg, s) && Inv(cfg, s') && Step(cfg, s, l, s') && l.Attach?
    ensures SimpleStep(NodesOf(cfg, s), VolumesOf(cfg, s), l, VolumesOf(cfg, s'))
  {
    var nodes := NodesOf(cfg, s);
    if l.calm {
      if c, u :| AttachVia(cfg, s, c, u, l.vm, l.name, s', l.params) {
        AttachSimple(cfg, s, c, u, l.vm, l.name, s', l.params);
      } else {
        forall c
          ensures !HasNode(nodes, c, l.vm)
        {
          if c in cfg.vdcs { NodeFound(cfg, s, c, l.vm); }
        }
      }
    } else if !(s' == s && l.params == Err(CloudFault)) {
      var c :| AttachBroken(cfg, s, c, l.vm, l.name, s', l.params);
      AttachCutSimple(cfg, s, c, l.vm, l.name, s', l.params);
    }
  }

  lemma AttachCutSimple(cfg: Config, s: State, c: string, vm: string, name: string,
                        s': State, r: Result<DiskAttachParams, Error>)
    requires Inv(cfg, s) && Inv(cfg, s') && AttachBroken(cfg, s, c, vm, name, s', r)
    ensures HasNode(NodesOf(cfg, s), c, vm)
    ensures AttachCut(VolumesOf(cfg, s), (c, name), vm, VolumesOf(cfg, s'), r)
  {
    var v, h := FindVm(s, c, vm).value, LoneDisk(s, c, name).value;
    assert h in DisksNamed(s, c, name);
    NodeFound(cfg, s, c, vm);
    VolumeFound(cfg, s, c, name);
    NodeIsVm(cfg, s, v, h);
    DetachSimple(cfg, s, c, name);
  }

  lemma NowhereSimple(cfg: Config, s: State, vdcs: set<string>, name: string)
    requires Inv(cfg, s) && vdcs <= cfg.vdcs
    ensures Nowhere(vdcs, VolumesOf(cfg, s), name) <==> forall c :: c in vdcs ==> LoneDisk(s, c, name).Err?
  {
    forall c | c in vdcs
      ensures (c, name) !in VolumesOf(cfg, s) <==> LoneDisk(s, c, name).Err?
    {
      VolumeFound(cfg, s, c, name);
    }
  }

  lemma RefineDelete(cfg: Config, s: State, l: Label, s': State)
    requires Inv(cfg, s) && Inv(cfg, s') && Step(cfg, s, l, s') && l.Delete?
    ensures SimpleStep(NodesOf(cfg, s), VolumesOf(cfg, s), l, VolumesOf(cfg, s'))
  {
    var m, m', seen := VolumesOf(cfg, s), VolumesOf(cfg, s'), NodesOf(cfg, s).Keys - l.missed;
    assert NodesOf(cfg, s).Keys == cfg.vdcs;
    if l.calm {
      if c :| c !in l.missed && DeleteVia(cfg, s, c, l.name, s', l.done) {
        DeleteSimple(cfg, s, c, l.name, s', l.done);
        assert c in seen && Gone(m, (c, l.name), m');
      } else {
        NowhereSimple(cfg, s, seen, l.name);
      }
    } else if s' != s {
      var c :| c !in l.missed && Dropped(cfg, s, c, l.name, s');
      VolumeFound(cfg, s, c, l.name);
      DetachSimple(cfg, s, c, l.name);
      assert c in seen && Loose(m, (c, l.name), m');
    }
  }

  lemma RefineDetach(cfg: Config, s: State, l: Label, s': State)
    requires Inv(cfg, s) && Inv(cfg, s') && Step(cfg, s, l, s') && l.Detach?
    ensures SimpleStep(NodesOf(cfg, s), VolumesOf(cfg, s), l, VolumesOf(cfg, s'))
  {
    var m, m' := VolumesOf(cfg, s), VolumesOf(cfg, s');
    if l.calm {
      if c :| c in cfg.vdcs && LoneDisk(s, c, l.name) != Err(EntityNotFound) && (s', l.done) == DetachIn(s, c, l.name) {
        DetachSimple(cfg, s, c, l.name);
        VolumeFound(cfg, s, c, l.name);
        assert c in NodesOf(cfg, s) && Loose(m, (c, l.name), m');
      } else {
        assert NodesOf(cfg, s).Keys == cfg.vdcs;
        NowhereSimple(cfg, s, cfg.vdcs, l.name);
      }
    }
  }

  lemma RefineCreate(cfg: Config, s: State, l: Label, s': State)
    requires Inv(cfg, s) && Inv(cfg, s') && Step(cfg, s, l, s') && l.Create?
    ensures SimpleStep(NodesOf(cfg, s), VolumesOf(cfg, s), l, VolumesOf(cfg, s'))
  {
    if l.calm && l.vdc in cfg.vdcs {
      VolumeFound(cfg, s, l.vdc, l.name);
      if DisksNamed(s, l.vdc, l.name) == {} && !l.lost {
        var h: Href :| h !in s.issued && h !in s.disks && s' == TaskCreate(s, h, l.vdc, l.name, l.size.Mb());
        MbInRange(l.size);
        CreateKeepsInv(cfg, s, h, l.vdc, l.name, l.size.Mb());
        VolumeUpdated(cfg, s, s', h);
      }
    }
  }

  lemma RefineResize(cfg: Config, s: State, l: Label, s': State)
    requires Inv(cfg, s) && Inv(cfg, s') && Step(cfg, s, l, s') && l.Resize?
    ensures SimpleStep(NodesOf(cfg, s), VolumesOf(cfg, s), l, VolumesOf(cfg, s'))
  {
    if l.calm && l.vdc in cfg.vdcs {
      VolumeFound(cfg, s, l.vdc, l.name);
      if LoneDisk(s, l.vdc, l.name).Ok? {
        var h := LoneDisk(s, l.vdc, l.name).value;
        if s.disks[h].attached.None? {
          MbInRange(l.size);
          UpdateKeepsInv(cfg, s, h, l.size.Mb());
          VolumeUpdated(cfg, s, s', h);
        }
      }
    }
  }

  /** Refinement: every operation with every outcome is one step of the simple machine. */
  lemma Refinement(cfg: Config, s: State, l: Label, s': State)
    requires Inv(cfg, s) && Step(cfg, s, l, s')
    ensures Inv(cfg, s')
    ensures SimpleStep(NodesOf(cfg, s), VolumesOf(cfg, s), l, VolumesOf(cfg, s'))
    ensures NodesOf(cfg, s') == NodesOf(cfg, s)
  {
    NodesFixed(cfg, s, l, s');
    StepSafe(cfg, s, l, s');
    match l
    case Create(_, _, _, _, _, _) => RefineCreate(cfg, s, l, s');
    case Delete(_, _, _, _) => RefineDelete(cfg, s, l, s');
    case Detach(_, _, _) => RefineDetach(cfg, s, l, s');
    case Attach(_, _, _, _) => RefineAttach(cfg, s, l, s');
    case Resize(_, _, _, _, _) => RefineResize(cfg, s, l, s');
  }

  lemma {:induction false} RunNodes(cfg: Config, states: seq<State>, labels: seq<Label>, n: nat)
    requires Run(cfg, states, labels) && Inv(cfg, states[0]) && n <= |labels|
    ensures Inv(cfg, states[n]) && NodesOf(cfg, states[n]) == NodesOf(cfg, states[0])
  {
    if n > 0 {
      RunNodes(cfg, states, labels, n - 1);
      Refinement(cfg, states[n - 1], labels[n - 1], states[n]);
    }
  }

  /** Over a run: the maps the cloud states stand for are a run of the simple machine. */
  lemma RunRefines(cfg: Config, states: seq<State>, labels: seq<Label>, n: nat)
    requires Run(cfg, states, labels) && Inv(cfg, states[0]) && n < |labels|
    ensures Inv(cfg, states[n]) && Inv(cfg, states[n + 1])
    ensures NodesOf(cfg, states[n]) == NodesOf(cfg, states[0])
    ensures SimpleStep(NodesOf(cfg, states[0]), VolumesOf(cfg, states[n]), labels[n], VolumesOf(cfg, states[n + 1]))
  {
    RunNodes(cfg, states, labels, n);
    Refinement(cfg, states[n], labels[n], states[n + 1]);
  }
}
