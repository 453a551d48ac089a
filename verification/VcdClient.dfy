/** The client the driver calls. Each public method holds one mutex from its first line to its last, so it is one
    step on the cloud; its contract says which steps it can take. */
module VcdClient {
  import opened Wrappers
  import opened Storage
  import opened Text
  import opened CloudModel
  import opened Slots
  import opened Lifecycle

  /** Copies the client holds of what the cloud said when it asked. */
  datatype VmView = VmView(href: Href, vm: Vm)
  datatype DiskView = DiskView(href: Href, disk: Disk)

  class VcdClient {
    const cloud: Cloud
    const vdcs: set<string>
    const busNum: int

    constructor (cloud: Cloud, vdcs: set<string>, busNum: int)
      ensures this.cloud == cloud && this.vdcs == vdcs && this.busNum == busNum
    {
      this.cloud := cloud;
      this.vdcs := vdcs;
      this.busNum := busNum;
    }

    function Cfg(): Config {
      Config(busNum, vdcs)
    }

    // ---------- Look-ups ----------

    method GetVMByName(vdc: string, name: string) returns (r: Result<VmView, Error>)
      modifies cloud`faults
      ensures old(cloud.faults) <= cloud.faults
      ensures cloud.faults == old(cloud.faults) <==> r != Err(CloudFault)
      ensures r.Ok? ==> FindVm(cloud.state, vdc, name) == Some(r.value.href)
                        && r.value.href in cloud.state.vms && cloud.state.vms[r.value.href] == r.value.vm
      ensures r.Err? && r.error != CloudFault ==> r.error == VmNotFound && FindVm(cloud.state, vdc, name).None?
      ensures r.Ok? ==> FirstNamed(cloud.state, Listed(cloud.state, vdc), name, r.value.href)
    {
      var listed := Listed(cloud.state, vdc);
      for i := 0 to |listed|
        invariant cloud.faults == old(cloud.faults)
        invariant FindVm(cloud.state, vdc, name) == FindIn(cloud.state, listed[i..], name)
        invariant forall j :: 0 <= j < i ==> !(listed[j] in cloud.state.vms && cloud.state.vms[listed[j]].name == name)
      {
        var ok := cloud.Call();
        if !ok { return Err(CloudFault); }
        var h := listed[i];
        if h in cloud.state.vms && cloud.state.vms[h].name == name {
          return Ok(VmView(h, cloud.state.vms[h]));
        }
        assert listed[i..][1..] == listed[i + 1..];
      }
      return Err(VmNotFound);
    }

    method GetDiskByName(vdc: string, name: string) returns (r: Result<DiskView, Error>)
      modifies cloud`faults
      ensures cloud.faults == old(cloud.faults) + if r == Err(CloudFault) then 1 else 0
      ensures r.Ok? ==> LoneDisk(cloud.state, vdc, name) == Ok(r.value.href)
                        && r.value.href in cloud.state.disks && cloud.state.disks[r.value.href] == r.value.disk
      ensures r.Err? && r.error != CloudFault ==> LoneDisk(cloud.state, vdc, name) == Err(r.error)
      ensures r.Ok? ==> DisksNamed(cloud.state, vdc, name) == {r.value.href}
      ensures r == Err(EntityNotFound) ==> DisksNamed(cloud.state, vdc, name) == {}
      ensures r == Err(CountMismatch) ==> |DisksNamed(cloud.state, vdc, name)| > 1
      ensures r.Err? ==> r.error in {EntityNotFound, CountMismatch, CloudFault}
    {
      var disks := cloud.GetDisksByName(vdc, name);
      if disks.Err? { return Err(disks.error); }
      if |disks.value| != 1 {
        return Err(CountMismatch);
      }
      var h :| h in disks.value;
      OneElement(disks.value, h);
      return Ok(DiskView(h, cloud.state.disks[h]));
    }

    static lemma OneElement(s: set<Href>, h: Href)
      requires |s| == 1 && h in s
      ensures s == {h}
    {
      assert |s - {h}| == 0;
    }

    method DisksExists(vdc: string, name: string) returns (r: Result<bool, Error>)
      modifies cloud`faults
      ensures old(cloud.faults) <= cloud.faults
      ensures cloud.faults == old(cloud.faults) <==> r.Ok?
      ensures r.Err? ==> r.error == CloudFault
      ensures r.Ok? ==> r.value == (DisksNamed(cloud.state, vdc, name) != {})
    {
      var disks := cloud.GetDisksByName(vdc, name);
      if disks.Err? {
        if disks.error == EntityNotFound { return Ok(false); }
        return Err(disks.error);
      }
      return Ok(true);
    }

    // ---------- Detach ----------

    method DetachFrom(vdc: string, name: string) returns (r: Result<(), Error>)
      modifies cloud
      ensures old(cloud.faults) <= cloud.faults
      ensures cloud.faults == old(cloud.faults) <==> r != Err(CloudFault)
      ensures r != Err(CloudFault) ==> (cloud.state, r) == DetachIn(old(cloud.state), vdc, name)
      ensures r == Err(CloudFault) ==> cloud.state == old(cloud.state)
    {
      var disk := GetDiskByName(vdc, name);
      if disk.Err? { return Err(disk.error); }
      var ok := cloud.Call();
      if !ok { return Err(CloudFault); }
      var attachedVM := disk.value.disk.attached;
      if attachedVM.None? { return Ok(()); }
      var vm := GetVMByName(vdc, attachedVM.value.name);
      if vm.Err? { return Err(vm.error); }
      var settings := vm.value.vm.settings;
      for i := 0 to |settings|
        invariant forall j :: 0 <= j < i ==> settings[j].disk != Some(disk.value.href)
        invariant cloud.state == old(cloud.state) && cloud.faults == old(cloud.faults)
      {
        if settings[i].disk.None? { continue; }
        if settings[i].disk.value == disk.value.href {
          assert TaskDetach(cloud.state, vm.value.href, disk.value.href).Some?;
          r := cloud.DetachDisk(vm.value.href, disk.value.href);
          return;
        }
      }
      return Ok(());
    }

    method DetachDisk(vm: string, name: string) returns (r: Result<(), Error>)
      modifies cloud
      ensures DetachRel(Cfg(), old(cloud.state), name, cloud.state, r, cloud.faults == old(cloud.faults))
    {
      var ok := cloud.Call();
      if !ok { return Err(CloudFault); }
      var rest := vdcs;
      while rest != {}
        invariant rest <= vdcs
        invariant cloud.state == old(cloud.state) && cloud.faults == old(cloud.faults)
        invariant forall c :: c in vdcs - rest ==> LoneDisk(cloud.state, c, name) == Err(EntityNotFound)
      {
        var vdc :| vdc in rest;
        rest := rest - {vdc};
        ok := cloud.Call();
        if !ok { return Err(CloudFault); }
        r := DetachFrom(vdc, name);
        if r == Err(EntityNotFound) {
          DetachNotFound(old(cloud.state), vdc, name);
          continue;
        }
        return;
      }
      return Ok(());
    }

    /** Only a missing disk makes the search go on. */
    static lemma DetachNotFound(s: State, vdc: string, name: string)
      ensures DetachIn(s, vdc, name).1 == Err(EntityNotFound) <==> LoneDisk(s, vdc, name) == Err(EntityNotFound)
      ensures DetachIn(s, vdc, name).1.Err? ==> DetachIn(s, vdc, name).0 == s
    {
    }

    // ---------- Attach ----------

    method AttachDisk(vm: string, name: string) returns (r: Result<DiskAttachParams, Error>)
      modifies cloud
      ensures AttachRel(Cfg(), old(cloud.state), vm, name, cloud.state, r, cloud.faults == old(cloud.faults))
    {
      var ok := cloud.Call();
      if !ok { return Err(CloudFault); }
      var rest := vdcs;
      while rest != {}
        invariant rest <= vdcs
        invariant cloud.state == old(cloud.state) && cloud.faults == old(cloud.faults)
        invariant forall c :: c in vdcs - rest ==> FindVm(cloud.state, c, vm).None?
      {
        var vdc :| vdc in rest;
        rest := rest - {vdc};
        ok := cloud.Call();
        if !ok { return Err(CloudFault); }
        var vappVm := GetVMByName(vdc, vm);
        if vappVm.Err? {
          if vappVm.error == VmNotFound { continue; }
          return Err(vappVm.error);
        }
        r := AttachTo(vdc, vappVm.value, name);
        if cloud.faults == old(cloud.faults) {
          ghost var u :| UnitChoice(vappVm.value.vm.settings, busNum, u)
                         && (cloud.state, r) == AttachIn(old(cloud.state), busNum, vdc, vappVm.value.href, name, u);
          assert AttachVia(Cfg(), old(cloud.state), vdc, u, vm, name, cloud.state, r);
        } else {
          assert || (r == Err(CloudFault) && cloud.state == old(cloud.state))
                 || AttachBroken(Cfg(), old(cloud.state), vdc, vm, name, cloud.state, r);
        }
        return;
      }
      return Err(VmNotFound);
    }

    /** The rest of AttachDisk, once the VM is found: vappVm is a copy taken before anything is detached. */
    method AttachTo(vdc: string, vappVm: VmView, name: string) returns (r: Result<DiskAttachParams, Error>)
      requires vappVm.href in cloud.state.vms && cloud.state.vms[vappVm.href] == vappVm.vm
      modifies cloud
      ensures old(cloud.faults) <= cloud.faults
      ensures cloud.faults == old(cloud.faults) ==>
                exists u :: UnitChoice(vappVm.vm.settings, busNum, u)
                            && (cloud.state, r) == AttachIn(old(cloud.state), busNum, vdc, vappVm.href, name, u)
      ensures cloud.faults != old(cloud.faults) ==>
                || (r == Err(CloudFault) && cloud.state == old(cloud.state))
                || (MustDetach(old(cloud.state), vdc, vappVm.href, name)
                    && ((r == Err(WrongDiskAttach) && cloud.state == old(cloud.state))
                        || (r == Err(CloudFault) && DetachIn(old(cloud.state), vdc, name) == (cloud.state, Ok(())))))
    {
      var disk := GetDiskByName(vdc, name);
      SomeUnit(vappVm.vm.settings, busNum);
      if disk.Err? {
        if disk.error == EntityNotFound { return Err(DiskNotExists); }
        return Err(disk.error);
      }
      var ok := cloud.Call();
      if !ok { return Err(CloudFault); }
      var attachedVM := disk.value.disk.attached;
      if attachedVM.Some? {
        if vappVm.href == attachedVM.value.href {
          var unit := UnitOfDisk(vappVm.vm.settings, disk.value.href);
          if unit.Some? {
            return Ok(DiskAttachParams(name, Itoa(unit.value), FromMb(disk.value.disk.sizeMb)));
          }
        }
        var detached := DetachFrom(vdc, name);
        if detached.Err? {
          return Err(WrongDiskAttach);
        }
      }
      // The allocator's error is overwritten by the next call's.
      var unitNum, _ := GetFreeUnitNum(vappVm.vm, busNum);
      assert UnitChoice(vappVm.vm.settings, busNum, unitNum);
      var task := cloud.AttachDisk(vappVm.href, disk.value.href, busNum, unitNum);
      if task.Err? {
        return Err(task.error);
      }
      return Ok(DiskAttachParams(name, Itoa(unitNum), FromMb(disk.value.disk.sizeMb)));
    }

    /** The loop over the settings of a VM that looks for the entry of a disk. */
    static method UnitOfDisk(settings: seq<Setting>, disk: Href) returns (unit: Option<int>)
      ensures SlotOf(settings, disk).None? <==> unit.None?
      ensures unit.Some? ==> unit.value == settings[SlotOf(settings, disk).value].unit
    {
      for i := 0 to |settings|
        invariant forall j :: 0 <= j < i ==> settings[j].disk != Some(disk)
      {
        if settings[i].disk.None? { continue; }
        if settings[i].disk.value == disk {
          return Some(settings[i].unit);
        }
      }
      return None;
    }

    // ---------- Create, delete, resize, list ----------

    method CreateDisk(vdcName: string, diskName: string, capacity: StorageSize)
      returns (r: Result<(), Error>, ghost lost: bool)
      modifies cloud
      ensures CreateRel(Cfg(), old(cloud.state), vdcName, diskName, capacity, cloud.state, r,
                        lost, cloud.faults == old(cloud.faults) + if lost then 1 else 0)
    {
      lost := false;
      var ok := cloud.Call();
      if !ok { return Err(CloudFault), lost; }
      if vdcName in vdcs {
        ok := cloud.Call();
        if !ok { return Err(CloudFault), lost; }
        var found := DisksExists(vdcName, diskName);
        if found.Err? { return Err(found.error), lost; }
        if found.value { return Ok(()), lost; }
        ok := cloud.Call();
        if !ok { return Err(CloudFault), lost; }
        ok := cloud.Call();
        if !ok {
          // The error is logged only; what waiting for no job reports is not determined here.
          lost := true;
          var reported: bool := *;
          return if reported then Err(CloudFault) else Ok(()), lost;
        }
        var job := cloud.CreateDisk(vdcName, diskName, capacity.Mb());
        return job, lost;
      }
      return Err(VdcNotFound), lost;
    }

    method DeleteDisk(diskName: string) returns (r: Result<(), Error>, ghost missed: set<string>)
      modifies cloud
      ensures DeleteRel(Cfg(), old(cloud.state), diskName, cloud.state, r,
                        missed, cloud.faults == old(cloud.faults) + |missed|)
    {
      missed := {};
      var ok := cloud.Call();
      if !ok { return Err(CloudFault), missed; }
      var rest := vdcs;
      while rest != {}
        invariant rest <= vdcs && missed <= vdcs - rest
        invariant cloud.state == old(cloud.state) && cloud.faults == old(cloud.faults) + |missed|
        invariant forall c :: c in vdcs - rest - missed ==> LoneDisk(cloud.state, c, diskName).Err?
      {
        var vdc :| vdc in rest;
        rest := rest - {vdc};
        ok := cloud.Call();
        if !ok { return Err(CloudFault), missed; }
        var disk := GetDiskByName(vdc, diskName);
        if disk.Err? {
          if disk.error == CloudFault {
            missed := missed + {vdc};
          }
          continue;
        }
        r := DeleteFrom(vdc, disk.value, diskName);
        assert cloud.faults == old(cloud.faults) + |missed| ==>
                 DeleteVia(Cfg(), old(cloud.state), vdc, diskName, cloud.state, r);
        assert cloud.state == old(cloud.state) || cloud.faults == old(cloud.faults) + |missed|
               || Dropped(Cfg(), old(cloud.state), vdc, diskName, cloud.state);
        return;
      }
      return Ok(()), missed;
    }

    method DeleteFrom(vdc: string, disk: DiskView, name: string) returns (r: Result<(), Error>)
      requires disk.href in cloud.state.disks && cloud.state.disks[disk.href] == disk.disk
      requires LoneDisk(cloud.state, vdc, name) == Ok(disk.href)
      modifies cloud
      ensures old(cloud.faults) <= cloud.faults
      ensures cloud.faults == old(cloud.faults) ==> (cloud.state, r) == DeleteIn(old(cloud.state), vdc, name)
      ensures cloud.faults != old(cloud.faults) ==>
                && r == Err(CloudFault)
                && (cloud.state == old(cloud.state) || cloud.state == DetachIn(old(cloud.state), vdc, name).0)
    {
      var ok := cloud.Call();
      if !ok { return Err(CloudFault); }
      if disk.disk.attached.Some? {
        r := DetachFrom(vdc, name);
        if r.Err? { return; }
      }
      r := cloud.DeleteDisk(disk.href);
    }

    method ResizeDisk(vdcName: string, diskName: string, newDiskSize: StorageSize) returns (r: Result<(), Error>)
      modifies cloud
      ensures ResizeRel(Cfg(), old(cloud.state), vdcName, diskName, newDiskSize,
                        cloud.state, r, cloud.faults == old(cloud.faults))
    {
      var ok := cloud.Call();
      if !ok { return Err(CloudFault); }
      if vdcName in vdcs {
        var disk := GetDiskByName(vdcName, diskName);
        if disk.Err? { return Err(disk.error); }
        ok := cloud.Call();
        if !ok { return Err(CloudFault); }
        if disk.value.disk.attached.Some? {
          return Err(DiskAttachedToVm);
        }
        assert TaskUpdate(cloud.state, disk.value.href, newDiskSize.Mb()).Some?;
        r := cloud.UpdateDisk(disk.value.href, newDiskSize.Mb());
        return;
      }
      return Err(VdcNotFound);
    }

    method ListVolumes() returns (r: Result<seq<VolumeWithCap>, Error>, ghost hrefs: seq<Href>)
      modifies cloud`faults
      ensures r.Ok? <==> cloud.faults == old(cloud.faults)
      ensures r.Err? ==> r.error == CloudFault
      ensures r.Ok? ==> Lists(Cfg(), cloud.state, r.value, hrefs)
    {
      hrefs := [];
      var ok := cloud.Call();
      if !ok { return Err(CloudFault), []; }
      var resp: seq<VolumeWithCap> := [];
      var rest := vdcs;
      while rest != {}
        invariant rest <= vdcs
        invariant cloud.faults == old(cloud.faults)
        invariant Lists(Config(busNum, vdcs - rest), cloud.state, resp, hrefs)
      {
        var vdc :| vdc in rest;
        ok := cloud.Call();
        if !ok { return Err(CloudFault), []; }
        var entities := set h | h in cloud.state.disks && cloud.state.disks[h].vdc == vdc;
        ghost var all := entities;
        while entities != {}
          invariant entities <= all
          invariant cloud.faults == old(cloud.faults)
          invariant |resp| == |hrefs|
          invariant forall i :: 0 <= i < |hrefs| ==>
                                  hrefs[i] in cloud.state.disks && resp[i] == Listing(cloud.state.disks[hrefs[i]])
          invariant forall i, j :: 0 <= i < j < |hrefs| ==> hrefs[i] != hrefs[j]
          invariant forall h :: h in hrefs <==> h in cloud.state.disks
                                                && (cloud.state.disks[h].vdc in vdcs - rest || h in all - entities)
        {
          var h :| h in entities;
          ok := cloud.Call();
          if !ok { return Err(CloudFault), []; }
          entities := entities - {h};
          resp := resp + [Listing(cloud.state.disks[h])];
          hrefs := hrefs + [h];
        }
        rest := rest - {vdc};
      }
      assert vdcs - rest == vdcs;
      return Ok(resp), hrefs;
    }
  }
}
