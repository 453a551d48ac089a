/** The vCloud Director state the client works on, and the tasks the cloud runs for it.

    A disk's attachment is recorded twice: in the disk (AttachedVM) and in the settings of the VM.
    The govcd objects the client holds are copies of what the cloud said, so they are values here. */
module CloudModel {
  import opened Wrappers
  import opened Storage

  // Only equality of HREFs is ever used.
  type Href = nat

  datatype VmRef = VmRef(href: Href, name: string)

  /** One entry of VmSpecSection.DiskSection.DiskSettings; disk is None where the entry names no independent disk. */
  datatype Setting = Setting(bus: int, unit: int, disk: Option<Href>)

  datatype Vm = Vm(name: string, settings: seq<Setting>)

  datatype Disk = Disk(name: string, vdc: string, sizeMb: int64, attached: Option<VmRef>)

  /** listing: the VMs of each VDC in the order its entities are visited; issued: every HREF ever given to a disk. */
  datatype State = State(
    listing: map<string, seq<Href>>,
    vms: map<Href, Vm>,
    disks: map<Href, Disk>,
    issued: set<Href>)

  datatype Error = VmNotFound | WrongDiskAttach | DiskNotExists | DiskAttachedToVm | NoFreeUnits
                 | EntityNotFound | CountMismatch | VdcNotFound | Rejected | CloudFault

  function Listed(s: State, vdc: string): seq<Href> {
    if vdc in s.listing then s.listing[vdc] else []
  }

  /** The disks GetDisksByName returns. */
  function DisksNamed(s: State, vdc: string, name: string): set<Href> {
    set h | h in s.disks && s.disks[h].vdc == vdc && s.disks[h].name == name
  }

  predicate Taken(settings: seq<Setting>, bus: int, unit: int) {
    exists i :: 0 <= i < |settings| && settings[i].bus == bus && settings[i].unit == unit
  }

  /** The first entry that names the disk. */
  function SlotOf(settings: seq<Setting>, disk: Href): (i: Option<nat>)
    ensures i.Some? ==>
              && i.value < |settings| && settings[i.value].disk == Some(disk)
              && forall j :: 0 <= j < i.value ==> settings[j].disk != Some(disk)
    ensures i.None? ==> forall j :: 0 <= j < |settings| ==> settings[j].disk != Some(disk)
  {
    if settings == [] then None
    else if settings[0].disk == Some(disk) then Some(0)
    else match SlotOf(settings[1..], disk)
      case Some(k) => assert settings[1..][k] == settings[k + 1]; Some(k + 1)
      case None =>
        assert forall j :: 1 <= j < |settings| ==> settings[j] == settings[1..][j - 1];
        None
  }

  /** The cloud's tasks. None: the request does not fit the state and is refused. */
  function TaskAttach(s: State, v: Href, h: Href, bus: int, unit: int): Option<State> {
    if v in s.vms && h in s.disks && s.disks[h].attached.None? && !Taken(s.vms[v].settings, bus, unit) then
      Some(s.(vms := s.vms[v := s.vms[v].(settings := s.vms[v].settings + [Setting(bus, unit, Some(h))])],
              disks := s.disks[h := s.disks[h].(attached := Some(VmRef(v, s.vms[v].name)))]))
    else None
  }

  function TaskDetach(s: State, v: Href, h: Href): Option<State> {
    if v in s.vms && h in s.disks && SlotOf(s.vms[v].settings, h).Some? then
      var settings := s.vms[v].settings;
      var i := SlotOf(settings, h).value;
      Some(s.(vms := s.vms[v := s.vms[v].(settings := settings[..i] + settings[i + 1..])],
              disks := s.disks[h := s.disks[h].(attached := None)]))
    else None
  }

  function TaskCreate(s: State, h: Href, vdc: string, name: string, mb: int64): State {
    s.(disks := s.disks[h := Disk(name, vdc, mb, None)], issued := s.issued + {h})
  }

  function TaskUpdate(s: State, h: Href, mb: int64): Option<State> {
    if h in s.disks then Some(s.(disks := s.disks[h := s.disks[h].(sizeMb := mb)])) else None
  }

  function TaskDelete(s: State, h: Href): Option<State> {
    if h in s.disks && s.disks[h].attached.None? then Some(s.(disks := s.disks - {h})) else None
  }

  lemma {:induction false} FreshHref(used: set<Href>)
    ensures exists h: Href :: h !in used
  {
    var bound := Above(used);
    assert bound !in used;
  }

  lemma {:induction false} Above(used: set<Href>) returns (bound: Href)
    ensures forall h :: h in used ==> h < bound
    decreases |used|
  {
    if used == {} {
      bound := 0;
    } else {
      var h :| h in used;
      var rest := used - {h};
      bound := Above(rest);
      if bound <= h { bound := h + 1; }
      assert used == rest + {h};
    }
  }

  /** The cloud as the client reaches it. Every call can fail without effect; faults counts the calls that did. */
  class Cloud {
    var state: State
    ghost var faults: nat

    constructor (state: State)
      ensures this.state == state && faults == 0
    {
      this.state := state;
      faults := 0;
    }

    /** A read of the cloud, a refresh, or a new session. */
    method Call() returns (ok: bool)
      modifies this`faults
      ensures faults == old(faults) + if ok then 0 else 1
    {
      ok := *;
      if !ok { faults := faults + 1; }
    }

    method GetDisksByName(vdc: string, name: string) returns (r: Result<set<Href>, Error>)
      modifies this`faults
      ensures faults == old(faults) + if r == Err(CloudFault) then 1 else 0
      ensures r.Ok? ==> r.value == DisksNamed(state, vdc, name) && r.value != {}
      ensures r.Err? && r.error != CloudFault ==> r.error == EntityNotFound && DisksNamed(state, vdc, name) == {}
    {
      var ok := Call();
      if !ok { return Err(CloudFault); }
      var found := DisksNamed(state, vdc, name);
      return if found == {} then Err(EntityNotFound) else Ok(found);
    }

    method AttachDisk(v: Href, h: Href, bus: int, unit: int) returns (r: Result<(), Error>)
      modifies this
      ensures faults == old(faults) <==> r != Err(CloudFault)
      ensures old(faults) <= faults
      ensures r.Ok? ==> r == Ok(()) && TaskAttach(old(state), v, h, bus, unit) == Some(state)
      ensures r.Err? ==> state == old(state)
      ensures r.Err? && r.error != CloudFault ==> r.error == Rejected && TaskAttach(state, v, h, bus, unit).None?
    {
      r := Run(TaskAttach(state, v, h, bus, unit));
    }

    method DetachDisk(v: Href, h: Href) returns (r: Result<(), Error>)
      modifies this
      ensures faults == old(faults) <==> r != Err(CloudFault)
      ensures old(faults) <= faults
      ensures r.Ok? ==> r == Ok(()) && TaskDetach(old(state), v, h) == Some(state)
      ensures r.Err? ==> state == old(state)
      ensures r.Err? && r.error != CloudFault ==> r.error == Rejected && TaskDetach(state, v, h).None?
    {
      r := Run(TaskDetach(state, v, h));
    }

    method UpdateDisk(h: Href, mb: int64) returns (r: Result<(), Error>)
      modifies this
      ensures faults == old(faults) <==> r != Err(CloudFault)
      ensures old(faults) <= faults
      ensures r.Ok? ==> r == Ok(()) && TaskUpdate(old(state), h, mb) == Some(state)
      ensures r.Err? ==> state == old(state)
      ensures r.Err? && r.error != CloudFault ==> r.error == Rejected && TaskUpdate(state, h, mb).None?
    {
      r := Run(TaskUpdate(state, h, mb));
    }

    method DeleteDisk(h: Href) returns (r: Result<(), Error>)
      modifies this
      ensures faults == old(faults) <==> r != Err(CloudFault)
      ensures old(faults) <= faults
      ensures r.Ok? ==> r == Ok(()) && TaskDelete(old(state), h) == Some(state)
      ensures r.Err? ==> state == old(state)
      ensures r.Err? && r.error != CloudFault ==> r.error == Rejected && TaskDelete(state, h).None?
    {
      r := Run(TaskDelete(state, h));
    }

    method CreateDisk(vdc: string, name: string, mb: int64) returns (r: Result<(), Error>)
      modifies this
      ensures faults == old(faults) <==> r != Err(CloudFault)
      ensures old(faults) <= faults
      ensures r.Ok? ==> r == Ok(())
      ensures r.Ok? ==> exists h: Href :: h !in old(state).issued && h !in old(state).disks &&
                                          state == TaskCreate(old(state), h, vdc, name, mb)
      ensures r.Err? ==> r.error == CloudFault && state == old(state)
    {
      FreshHref(state.issued + state.disks.Keys);
      var h: Href :| h !in state.issued + state.disks.Keys;
      r := Run(Some(TaskCreate(state, h, vdc, name, mb)));
    }

    /** Submits a task and waits for it. */
    method Run(task: Option<State>) returns (r: Result<(), Error>)
      modifies this
      ensures faults == old(faults) <==> r != Err(CloudFault)
      ensures old(faults) <= faults
      ensures r.Ok? ==> r == Ok(()) && task == Some(state)
      ensures r.Err? ==> state == old(state)
      ensures r.Err? && r.error != CloudFault ==> r.error == Rejected && task.None?
    {
      var ok := Call();
      if !ok { return Err(CloudFault); }
      match task
      case None => return Err(Rejected);
      case Some(after) =>
        state := after;
        return Ok(());
    }
  }
}
