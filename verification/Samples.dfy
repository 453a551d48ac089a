/** Small clouds on which the properties that fail are shown to fail. */
module Samples {
  import opened Wrappers
  import opened Storage
  import opened Text
  import opened CloudModel
  import opened Slots
  import opened Lifecycle

  const ONE_VDC: Config := Config(3, {"z"})
  const TWO_VDCS: Config := Config(3, {"y", "z"})

  /** One detached disk. */
  function OneDisk(mb: int64): State {
    State(map["z" := []], map[], map[0 := Disk("d", "z", mb, None)], {0})
  }

  lemma OneDiskInv(mb: int64)
    requires -TWO_43 <= mb < TWO_43
    ensures Inv(ONE_VDC, OneDisk(mb))
  {
    assert forall h :: h in OneDisk(mb).disks ==> DiskOk(ONE_VDC, OneDisk(mb), h);
  }

  lemma OneDiskFound(mb: int64)
    ensures LoneDisk(OneDisk(mb), "z", "d") == Ok(0)
  {
    assert DisksNamed(OneDisk(mb), "z", "d") == {0};
  }

  /** Two VDCs that each have a VM n and a disk d; the disk of z is attached. */
  function TwoDisks(): State {
    State(map["y" := [0], "z" := [1]],
          map[0 := Vm("n", []), 1 := Vm("n", [Setting(3, 8, Some(1))])],
          map[0 := Disk("d", "y", 4, None), 1 := Disk("d", "z", 4, Some(VmRef(1, "n")))],
          {0, 1})
  }

  lemma TwoDisksNames()
    ensures DiskNamesUnique(TWO_VDCS, TwoDisks()) && VmNamesUnique(TWO_VDCS, TwoDisks())
  {
  }

  lemma TwoDisksInv()
    ensures Inv(TWO_VDCS, TwoDisks())
  {
    var s := TwoDisks();
    TwoDisksNames();
    assert VmOk(s, 0) && VmOk(s, 1);
    assert DiskOk(TWO_VDCS, s, 0);
    assert SlotOf(s.vms[1].settings, 1) == Some(0);
    assert DiskOk(TWO_VDCS, s, 1);
  }

  lemma TwoDisksFound()
    ensures LoneDisk(TwoDisks(), "y", "d") == Ok(0) && LoneDisk(TwoDisks(), "z", "d") == Ok(1)
    ensures FindVm(TwoDisks(), "y", "n") == Some(0) && FindVm(TwoDisks(), "z", "n") == Some(1)
  {
    assert DisksNamed(TwoDisks(), "y", "d") == {0} && DisksNamed(TwoDisks(), "z", "d") == {1};
  }

  /** As before, with the disk of y attached too, in another unit. */
  function BothThere(): State {
    State(map["y" := [0], "z" := [1]],
          map[0 := Vm("n", [Setting(3, 9, Some(0))]), 1 := Vm("n", [Setting(3, 8, Some(1))])],
          map[0 := Disk("d", "y", 4, Some(VmRef(0, "n"))), 1 := Disk("d", "z", 4, Some(VmRef(1, "n")))],
          {0, 1})
  }

  lemma BothThereNames()
    ensures DiskNamesUnique(TWO_VDCS, BothThere()) && VmNamesUnique(TWO_VDCS, BothThere())
  {
  }

  lemma BothThereInv()
    ensures Inv(TWO_VDCS, BothThere())
  {
    var s := BothThere();
    BothThereNames();
    assert VmOk(s, 0) && VmOk(s, 1);
    assert SlotOf(s.vms[0].settings, 0) == Some(0);
    assert DiskOk(TWO_VDCS, s, 0);
    assert SlotOf(s.vms[1].settings, 1) == Some(0);
    assert DiskOk(TWO_VDCS, s, 1);
  }

  lemma BothThereFound()
    ensures LoneDisk(BothThere(), "y", "d") == Ok(0) && LoneDisk(BothThere(), "z", "d") == Ok(1)
    ensures FindVm(BothThere(), "y", "n") == Some(0) && FindVm(BothThere(), "z", "n") == Some(1)
  {
    assert DisksNamed(BothThere(), "y", "d") == {0} && DisksNamed(BothThere(), "z", "d") == {1};
  }

  /** The settings of a VM with a system disk in unit 0 of bus 0 and eight volumes. */
  function FullSettings(): seq<Setting> {
    seq(9, (i: nat) => if i == 0 then Setting(0, 0, None) else Setting(3, 7 + i, Some(i)))
  }

  function VolumeName(h: Href): string {
    "pvc-" + Itoa(h)
  }

  /** That VM, and a ninth volume, disk 0, on no VM. */
  function FullVm(): State {
    var disks := map h: Href | h < 9 :: Disk(VolumeName(h), "z", 16, if h == 0 then None else Some(VmRef(0, "n")));
    State(map["z" := [0]], map[0 := Vm("n", FullSettings())], disks, disks.Keys)
  }

  lemma VolumeNameInjective(g: Href, h: Href)
    requires VolumeName(g) == VolumeName(h)
    ensures g == h
  {
    assert VolumeName(g)[4..] == Itoa(g) && VolumeName(h)[4..] == Itoa(h);
    ItoaInjective(g, h);
  }

  lemma FullVmNames()
    ensures DiskNamesUnique(ONE_VDC, FullVm()) && VmNamesUnique(ONE_VDC, FullVm())
  {
    var s := FullVm();
    forall g, h | g in s.disks && h in s.disks && s.disks[g].name == s.disks[h].name
      ensures g == h
    {
      VolumeNameInjective(g, h);
    }
  }

  lemma FullVmInv()
    ensures Inv(ONE_VDC, FullVm())
  {
    var s := FullVm();
    FullVmNames();
    assert VmOk(s, 0);
    forall h | h in s.disks
      ensures DiskOk(ONE_VDC, s, h)
    {
      if h != 0 {
        assert FullSettings()[h].disk == Some(h);
        assert SlotOf(FullSettings(), h).Some?;
      }
    }
  }

  lemma FullVmIsFull()
    ensures FindVm(FullVm(), "z", "n") == Some(0)
    ensures |ReservedSettings(FullSettings(), 3)| == MAX_VOLUMES_PER_NODE
    ensures FreeUnits(FullSettings(), 3) == {} && !Taken(FullSettings(), 3, 0)
  {
    forall u: int | 8 <= u <= 15
      ensures Taken(FullSettings(), 3, u)
    {
      assert FullSettings()[u - 7] == Setting(3, u, Some(u - 7));
    }
    FreeUnitCount(FullSettings(), 3);
  }
}
