/** Every cloud task, as the client issues it, keeps the invariant and moves only the disk it is about. */
module Invariant {
  import opened Wrappers
  import opened Storage
  import opened CloudModel
  import opened Slots
  import opened Lifecycle

  /** Where a disk is: the VM and the slot its settings give it. */
  datatype Place = Place(vm: Href, bus: int, unit: int)

  function PlaceOf(s: State, h: Href): Option<Place> {
    if h in s.disks && s.disks[h].attached.Some? && s.disks[h].attached.value.href in s.vms then
      var v := s.disks[h].attached.value.href;
      match SlotOf(s.vms[v].settings, h)
      case Some(i) => Some(Place(v, s.vms[v].settings[i].bus, s.vms[v].settings[i].unit))
      case None => None
    else None
  }

  /** Nothing but disk h differs: every other disk keeps its size, its VM and its slot, and the VMs keep their names. */
  ghost predicate OnlyMoved(s: State, s': State, h: Href) {
    && s'.listing == s.listing
    && s'.vms.Keys == s.vms.Keys
    && (forall v :: v in s.vms ==> s'.vms[v].name == s.vms[v].name)
    && s'.disks.Keys - {h} == s.disks.Keys - {h}
    && s.issued <= s'.issued
    && (forall g :: g in s.disks && g != h ==>
          g in s'.disks && s'.disks[g] == s.disks[g] && PlaceOf(s', g) == PlaceOf(s, g))
  }

  lemma NamesCarryOver(cfg: Config, s: State, s': State)
    requires VmNamesUnique(cfg, s) && DiskNamesUnique(cfg, s)
    requires s'.listing == s.listing && s'.vms.Keys == s.vms.Keys && s'.disks.Keys == s.disks.Keys
    requires forall v :: v in s.vms ==> s'.vms[v].name == s.vms[v].name
    requires forall h :: h in s.disks ==> s'.disks[h].name == s.disks[h].name && s'.disks[h].vdc == s.disks[h].vdc
    ensures VmNamesUnique(cfg, s') && DiskNamesUnique(cfg, s')
  {
    assert forall c :: Listed(s', c) == Listed(s, c);
  }

  /** s' is s with the settings of v and the attachment of h replaced. */
  ghost predicate Rewired(s: State, s': State, v: Href, h: Href, settings: seq<Setting>, attached: Option<VmRef>) {
    && v in s.vms && h in s.disks
    && s' == s.(vms := s.vms[v := s.vms[v].(settings := settings)],
                disks := s.disks[h := s.disks[h].(attached := attached)])
  }

  /** The entries of the other disks are the same, wherever they stand in the list. */
  ghost predicate OthersKept(before: seq<Setting>, after: seq<Setting>, h: Href) {
    forall g | g != h ::
      && (SlotOf(before, g).Some? <==> SlotOf(after, g).Some?)
      && (SlotOf(before, g).Some? ==> after[SlotOf(after, g).value] == before[SlotOf(before, g).value])
  }

  lemma RewiredVms(s: State, s': State, v: Href, h: Href, settings: seq<Setting>, attached: Option<VmRef>)
    requires Rewired(s, s', v, h, settings, attached)
    requires forall w :: w in s.vms ==> VmOk(s, w)
    requires forall w :: w in s.vms && w != v ==> SlotOf(s.vms[w].settings, h).None?
    requires VmOk(s', v)
    ensures forall w :: w in s'.vms ==> VmOk(s', w)
  {
    forall w | w in s'.vms && w != v
      ensures VmOk(s', w)
    {
      assert VmOk(s, w);
    }
  }

  lemma RewiredDisks(cfg: Config, s: State, s': State, v: Href, h: Href, settings: seq<Setting>, attached: Option<VmRef>)
    requires Rewired(s, s', v, h, settings, attached)
    requires forall g :: g in s.disks ==> DiskOk(cfg, s, g)
    requires OthersKept(s.vms[v].settings, settings, h)
    requires DiskOk(cfg, s', h)
    ensures forall g :: g in s'.disks ==> DiskOk(cfg, s', g)
    ensures forall g :: g in s.disks && g != h ==> PlaceOf(s', g) == PlaceOf(s, g)
  {
    forall g | g in s.disks && g != h
      ensures DiskOk(cfg, s', g) && PlaceOf(s', g) == PlaceOf(s, g)
    {
      assert DiskOk(cfg, s, g);
    }
  }

  lemma RewiredMovesOnly(cfg: Config, s: State, s': State, v: Href, h: Href, settings: seq<Setting>, attached: Option<VmRef>)
    requires Rewired(s, s', v, h, settings, attached)
    requires forall g :: g in s.disks ==> DiskOk(cfg, s, g)
    requires OthersKept(s.vms[v].settings, settings, h)
    requires DiskOk(cfg, s', h)
    ensures OnlyMoved(s, s', h)
  {
    RewiredDisks(cfg, s, s', v, h, settings, attached);
  }

  lemma RewiredKeepsInv(cfg: Config, s: State, s': State, v: Href, h: Href, settings: seq<Setting>, attached: Option<VmRef>)
    requires Inv(cfg, s) && Rewired(s, s', v, h, settings, attached)
    requires forall w :: w in s.vms && w != v ==> SlotOf(s.vms[w].settings, h).None?
    requires OthersKept(s.vms[v].settings, settings, h)
    requires VmOk(s', v) && DiskOk(cfg, s', h)
    ensures Inv(cfg, s') && OnlyMoved(s, s', h)
  {
    RewiredMovesOnly(cfg, s, s', v, h, settings, attached);
    NamesCarryOver(cfg, s, s');
    assert forall w :: w in s'.vms ==> VmOk(s', w) by {
      RewiredVms(s, s', v, h, settings, attached);
    }
    assert forall g :: g in s'.disks ==> DiskOk(cfg, s', g) by {
      RewiredDisks(cfg, s, s', v, h, settings, attached);
    }
    assert forall g :: g in s'.disks ==> SizeOk(s'.disks[g]) && g in s'.issued;
  }

  /** Under the invariant a disk is named by no VM but the one it is attached to. */
  lemma NamedNowhereElse(cfg: Config, s: State, h: Href, w: Href)
    requires Inv(cfg, s) && h in s.disks && w in s.vms
    requires s.disks[h].attached.Some? ==> s.disks[h].attached.value.href != w
    ensures SlotOf(s.vms[w].settings, h).None?
  {
    assert VmOk(s, w);
  }

  lemma RemovedKeepsOthers(settings: seq<Setting>, h: Href)
    requires SlotsDistinct(settings) && NamedOnce(settings) && SlotOf(settings, h).Some?
    ensures var i := SlotOf(settings, h).value;
            OthersKept(settings, settings[..i] + settings[i + 1..], h)
  {
    forall g | g != h { RemovedOther(settings, h, g); }
  }

  lemma RemovedVmOk(s: State, s': State, v: Href, h: Href)
    requires v in s.vms && VmOk(s, v) && SlotOf(s.vms[v].settings, h).Some?
    requires TaskDetach(s, v, h) == Some(s')
    ensures VmOk(s', v)
  {
    RemovedEntry(s.vms[v].settings, h);
  }

  lemma DetachKeepsInv(cfg: Config, s: State, h: Href)
    requires Inv(cfg, s) && h in s.disks
    ensures Inv(cfg, Detached(s, h)) && OnlyMoved(s, Detached(s, h), h)
    ensures h in Detached(s, h).disks && Detached(s, h).disks[h] == s.disks[h].(attached := None)
    ensures forall v :: v in s.vms && s.disks[h].attached != Some(VmRef(v, s.vms[v].name)) ==>
                          Detached(s, h).vms[v] == s.vms[v]
  {
    if s.disks[h].attached.Some? {
      var v := s.disks[h].attached.value.href;
      var s' := Detached(s, h);
      var settings := s.vms[v].settings;
      assert DiskOk(cfg, s, h) && VmOk(s, v);
      var i := SlotOf(settings, h).value;
      var rest := settings[..i] + settings[i + 1..];
      assert Rewired(s, s', v, h, rest, None);
      RemovedKeepsOthers(settings, h);
      forall w | w in s.vms && w != v { NamedNowhereElse(cfg, s, h, w); }
      RemovedVmOk(s, s', v, h);
      RewiredKeepsInv(cfg, s, s', v, h, rest, None);
    }
  }

  lemma AttachKeepsInv(cfg: Config, s: State, v: Href, h: Href, bus: int, unit: int)
    requires Inv(cfg, s) && TaskAttach(s, v, h, bus, unit).Some?
    requires s.disks[h].vdc in cfg.vdcs ==> v in Listed(s, s.disks[h].vdc)
    ensures var s' := TaskAttach(s, v, h, bus, unit).value;
            Inv(cfg, s') && OnlyMoved(s, s', h) && PlaceOf(s', h) == Some(Place(v, bus, unit))
  {
    var s' := TaskAttach(s, v, h, bus, unit).value;
    var settings := s.vms[v].settings;
    var entry := Setting(bus, unit, Some(h));
    var more := settings + [entry];
    var attached := Some(VmRef(v, s.vms[v].name));
    assert VmOk(s, v);
    forall w | w in s.vms { NamedNowhereElse(cfg, s, h, w); }
    AddedEntry(settings, entry);
    assert Rewired(s, s', v, h, more, attached);
    assert OthersKept(settings, more, h) by {
      forall g | g != h { AddedOther(settings, entry, g); }
    }
    assert VmOk(s', v);
    assert DiskOk(cfg, s', h);
    RewiredKeepsInv(cfg, s, s', v, h, more, attached);
  }

  lemma AddedEntry(settings: seq<Setting>, entry: Setting)
    requires SlotsDistinct(settings) && NamedOnce(settings)
    requires entry.disk.Some? && SlotOf(settings, entry.disk.value).None?
    requires !Taken(settings, entry.bus, entry.unit)
    ensures SlotsDistinct(settings + [entry]) && NamedOnce(settings + [entry])
    ensures SlotOf(settings + [entry], entry.disk.value) == Some(|settings|)
  {
    var more := settings + [entry];
    assert forall k :: 0 <= k < |settings| ==> more[k] == settings[k];
    assert more[|settings|] == entry;
    SlotOfUnique(more, |settings|);
  }

  /** s' has the VMs of s and the attachments of s. */
  ghost predicate SameWiring(s: State, s': State) {
    && s'.vms == s.vms && s'.listing == s.listing
    && (forall g :: g in s.disks && s.disks[g].attached.Some? ==> g in s'.disks)
    && (forall g :: g in s'.disks ==>
          if g in s.disks then s'.disks[g].attached == s.disks[g].attached && s'.disks[g].vdc == s.disks[g].vdc
          else s'.disks[g].attached.None?)
  }

  lemma SameWiringVms(s: State, s': State)
    requires SameWiring(s, s') && forall v :: v in s.vms ==> VmOk(s, v)
    ensures forall v :: v in s'.vms ==> VmOk(s', v)
  {
    forall v | v in s'.vms
      ensures VmOk(s', v)
    {
      assert VmOk(s, v);
    }
  }

  lemma SameWiringDisks(cfg: Config, s: State, s': State)
    requires SameWiring(s, s') && forall g :: g in s.disks ==> DiskOk(cfg, s, g)
    ensures forall g :: g in s'.disks ==> DiskOk(cfg, s', g)
    ensures forall g :: g in s'.disks && g in s.disks ==> PlaceOf(s', g) == PlaceOf(s, g)
  {
    forall g | g in s'.disks && g in s.disks
      ensures DiskOk(cfg, s', g)
    {
      assert DiskOk(cfg, s, g);
    }
  }

  lemma SameWiringKeepsInv(cfg: Config, s: State, s': State)
    requires Inv(cfg, s) && SameWiring(s, s') && DiskNamesUnique(cfg, s')
    requires forall g :: g in s'.disks ==> SizeOk(s'.disks[g]) && g in s'.issued
    ensures Inv(cfg, s')
    ensures forall g :: g in s'.disks && g in s.disks ==> PlaceOf(s', g) == PlaceOf(s, g)
  {
    SameWiringVms(s, s');
    SameWiringDisks(cfg, s, s');
    assert VmNamesUnique(cfg, s') by {
      assert forall c :: Listed(s', c) == Listed(s, c);
    }
  }

  lemma CreatedNameUnique(cfg: Config, s: State, h: Href, vdc: string, name: string, mb: int64)
    requires DiskNamesUnique(cfg, s) && h !in s.disks
    requires vdc in cfg.vdcs ==> DisksNamed(s, vdc, name) == {}
    ensures DiskNamesUnique(cfg, TaskCreate(s, h, vdc, name, mb))
  {
    assert forall g :: g in DisksNamed(s, vdc, name) <==> g in s.disks && s.disks[g].vdc == vdc && s.disks[g].name == name;
  }

  lemma CreateKeepsInv(cfg: Config, s: State, h: Href, vdc: string, name: string, mb: int64)
    requires Inv(cfg, s) && h !in s.issued && -TWO_43 <= mb < TWO_43
    requires vdc in cfg.vdcs ==> DisksNamed(s, vdc, name) == {}
    ensures var s' := TaskCreate(s, h, vdc, name, mb);
            Inv(cfg, s') && OnlyMoved(s, s', h) && PlaceOf(s', h) == None
  {
    var s' := TaskCreate(s, h, vdc, name, mb);
    assert h !in s.disks;
    CreatedNameUnique(cfg, s, h, vdc, name, mb);
    SameWiringKeepsInv(cfg, s, s');
  }

  lemma UpdateKeepsInv(cfg: Config, s: State, h: Href, mb: int64)
    requires Inv(cfg, s) && TaskUpdate(s, h, mb).Some? && -TWO_43 <= mb < TWO_43
    ensures var s' := TaskUpdate(s, h, mb).value;
            Inv(cfg, s') && OnlyMoved(s, s', h) && PlaceOf(s', h) == PlaceOf(s, h)
  {
    var s' := TaskUpdate(s, h, mb).value;
    NamesCarryOver(cfg, s, s');
    SameWiringKeepsInv(cfg, s, s');
  }

  lemma DeleteKeepsInv(cfg: Config, s: State, h: Href)
    requires Inv(cfg, s) && TaskDelete(s, h).Some?
    ensures var s' := TaskDelete(s, h).value;
            Inv(cfg, s') && OnlyMoved(s, s', h) && PlaceOf(s', h) == None
  {
    SameWiringKeepsInv(cfg, s, TaskDelete(s, h).value);
  }

  // ---------- The two views agree ----------

  /** v's settings name h. */
  ghost predicate Names(s: State, v: Href, h: Href) {
    v in s.vms && exists i :: 0 <= i < |s.vms[v].settings| && s.vms[v].settings[i].disk == Some(h)
  }

  /** A disk says it is attached to v exactly when the settings of v name it; they name it once, no other VM does,
      and v is a VM of the disk's VDC. */
  lemma TwoViewsAgree(cfg: Config, s: State, h: Href, v: Href)
    requires Inv(cfg, s) && h in s.disks && v in s.vms
    ensures s.disks[h].attached == Some(VmRef(v, s.vms[v].name)) <==> Names(s, v, h)
    ensures Names(s, v, h) ==>
              && (exists i :: 0 <= i < |s.vms[v].settings| && s.vms[v].settings[i].disk == Some(h)
                              && forall j :: 0 <= j < |s.vms[v].settings| && j != i ==> s.vms[v].settings[j].disk != Some(h))
              && (forall w :: Names(s, w, h) ==> w == v)
              && (s.disks[h].vdc in cfg.vdcs ==> v in Listed(s, s.disks[h].vdc))
  {
    assert VmOk(s, v) && DiskOk(cfg, s, h);
    if Names(s, v, h) {
      SlotOfUnique(s.vms[v].settings, SlotOf(s.vms[v].settings, h).value);
      forall w | Names(s, w, h)
        ensures w == v
      {
        assert VmOk(s, w);
      }
    }
  }

  function AttachedDisks(s: State): set<Href> {
    set h | h in s.disks && s.disks[h].attached.Some?
  }

  /** The entries, over all VMs, that name a disk. */
  ghost function NamingEntries(s: State): set<(Href, nat)> {
    set v, i: nat | v in s.vms && i < |s.vms[v].settings| && s.vms[v].settings[i].disk.Some? :: (v, i)
  }

  ghost function DiskAt(s: State, at: (Href, nat)): Href {
    if at.0 in s.vms && at.1 < |s.vms[at.0].settings| && s.vms[at.0].settings[at.1].disk.Some?
    then s.vms[at.0].settings[at.1].disk.value else 0
  }

  /** Conservation: as many settings entries name a disk as there are attached disks. */
  lemma Conservation(cfg: Config, s: State)
    requires Inv(cfg, s)
    ensures |NamingEntries(s)| == |AttachedDisks(s)|
  {
    var entries := NamingEntries(s);
    var disks := AttachedDisks(s);
    var diskAt: ((Href, nat)) -> Href := at => DiskAt(s, at);
    forall at | at in entries
      ensures diskAt(at) in disks
    {
      assert VmOk(s, at.0);
    }
    forall h | h in disks
      ensures exists at :: at in entries && diskAt(at) == h
    {
      assert DiskOk(cfg, s, h);
      var v := s.disks[h].attached.value.href;
      var at := (v, SlotOf(s.vms[v].settings, h).value);
      assert at in entries && diskAt(at) == h;
    }
    forall a, b | a in entries && b in entries && diskAt(a) == diskAt(b)
      ensures a == b
    {
      assert VmOk(s, a.0) && VmOk(s, b.0);
    }
    ImageSize(diskAt, entries, disks);
  }
}
