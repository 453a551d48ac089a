/** The controller's handlers over the client and the lock. */
module Controller {
  import opened Wrappers
  import opened Storage
  import opened CloudModel
  import opened Lifecycle
  import opened VcdClient
  import opened Locker
  import opened Csi

  datatype CreateRequest = CreateRequest(
    name: string, caps: seq<Capability>, parameters: map<string, string>, range: Option<CapacityRange>)

  datatype CreatedVolume = CreatedVolume(capacityBytes: int64, volumeId: string, zone: string)

  datatype PublishRequest = PublishRequest(
    volumeId: string, nodeId: string, capability: Option<Capability>, readonly: bool)

  datatype ExpandRequest = ExpandRequest(
    volumeId: string, range: Option<CapacityRange>, capability: Option<Capability>)

  datatype Expanded = Expanded(capacityBytes: int64, nodeExpansionRequired: bool)

  // ---------- Decisions ----------

  predicate Supported(c: Capability) {
    c.mode.SingleNodeWriter? && !c.access.Unset?
  }

  predicate ValidCreate(req: CreateRequest) {
    && req.name != ""
    && req.caps != []
    && (forall i :: 0 <= i < |req.caps| ==> Supported(req.caps[i]))
    && VDC_PARAM in req.parameters && PROFILE_PARAM in req.parameters
  }

  predicate ValidPublish(req: PublishRequest) {
    req.volumeId != "" && req.nodeId != "" && req.capability.Some?
  }

  function PublishAnswer(r: Result<DiskAttachParams, Error>): Result<map<string, string>, Code> {
    match r
    case Ok(params) => Ok(map[UNIT_KEY := params.path])
    case Err(e) =>
      if e == VmNotFound then Err(NotFound)
      else if e == WrongDiskAttach then Err(FailedPrecondition)
      else Err(Internal)
  }

  /** The volume an expand takes from the list: of several with the name, the last. */
  function LastNamed(vols: seq<VolumeWithCap>, name: string): Option<VolumeWithCap> {
    if vols == [] then None
    else if vols[|vols| - 1].name == name then Some(vols[|vols| - 1])
    else LastNamed(vols[..|vols| - 1], name)
  }

  datatype Decision = Refuse(code: Code) | Skip(capacity: int64) | Grow(vdc: string, to: StorageSize)

  /** What an expand does with the list it read. */
  function Decide(vols: seq<VolumeWithCap>, volumeId: string, range: CapacityRange): Decision {
    match ExtractStorage(Some(range))
    case Err(_) => Refuse(OutOfRange)
    case Ok(to) =>
      match LastNamed(vols, volumeId)
      case None => Refuse(Crashed)
      case Some(volume) =>
        if to.Bytes() <= volume.cap.Bytes() then Skip(volume.cap.Bytes()) else Grow(volume.vdcName, to)
  }

  function NodeMustExpand(capability: Option<Capability>): bool {
    !(capability.Some? && capability.value.access.Block?)
  }

  // ---------- The handlers ----------

  class CsiDriver {
    const client: VcdClient
    const lock: SimpleLock
    /** The lock events of the handlers so far. */
    ghost var log: seq<Event>

    constructor (client: VcdClient)
      ensures Valid() && log == [] && this.client == client && fresh(lock)
    {
      this.client := client;
      this.lock := new SimpleLock();
      log := [];
    }

    ghost predicate Valid()
      reads this, lock
    {
      Legal(log) && lock.storage.Keys == LockedAfter(log)
    }

    ghost method Record(e: Event)
      requires Legal(log) && Answers(LockedAfter(log), e) && lock.storage.Keys == Apply(LockedAfter(log), e)
      modifies this`log
      ensures Valid() && log == old(log) + [e]
    {
      LegalOneMore(log, e);
      log := log + [e];
    }

    method ValidateCapabilities(caps: seq<Capability>) returns (violations: set<string>)
      ensures violations == {} <==>
              forall i :: 0 <= i < |caps| ==>
                            caps[i].mode == SingleNodeWriter && (caps[i].access.Block? || caps[i].access.Mount?)
    {
      violations := {};
      for i := 0 to |caps|
        invariant violations == {} <==> forall j :: 0 <= j < i ==> Supported(caps[j])
      {
        if caps[i].mode != SingleNodeWriter {
          violations := violations + {"unsupported access mode"};
        }
        if caps[i].access == Unset {
          violations := violations + {"unsupported access type"};
        }
      }
    }

    method CreateVolume(req: CreateRequest)
      returns (r: Result<CreatedVolume, Code>, ghost done: Result<(), Error>, ghost lost: bool)
      modifies client.cloud
      ensures !ValidCreate(req) ==> r == Err(InvalidArgument) && client.cloud.state == old(client.cloud.state)
      ensures r == Err(InvalidArgument) <==>
              || req.name == "" || req.caps == [] || "vcd" !in req.parameters || "storageProfile" !in req.parameters
              || exists i :: 0 <= i < |req.caps| && (req.caps[i].mode != SingleNodeWriter || req.caps[i].access == Unset)
      ensures ValidCreate(req) && ExtractStorage(req.range).Err? ==>
                r == Err(OutOfRange) && client.cloud.state == old(client.cloud.state)
      ensures ValidCreate(req) && ExtractStorage(req.range).Ok? ==>
                && CreateRel(client.Cfg(), old(client.cloud.state), req.parameters[VDC_PARAM], req.name,
                             ExtractStorage(req.range).value, client.cloud.state, done, lost,
                             client.cloud.faults == old(client.cloud.faults) + if lost then 1 else 0)
                && r == match done
                        case Ok(_) => Ok(CreatedVolume(ExtractStorage(req.range).value.Bytes(), req.name,
                                                       req.parameters[VDC_PARAM]))
                        case Err(e) => Err(Raw(e))
    {
      done, lost := Err(CloudFault), false;
      if req.name == "" { return Err(InvalidArgument), done, lost; }
      if |req.caps| == 0 { return Err(InvalidArgument), done, lost; }
      var violations := ValidateCapabilities(req.caps);
      if violations != {} { return Err(InvalidArgument), done, lost; }
      if VDC_PARAM !in req.parameters { return Err(InvalidArgument), done, lost; }
      var vdc := req.parameters[VDC_PARAM];
      if PROFILE_PARAM !in req.parameters { return Err(InvalidArgument), done, lost; }
      var size := ExtractStorage(req.range);
      if size.Err? { return Err(OutOfRange), done, lost; }
      var resp := CreatedVolume(size.value.Bytes(), req.name, vdc);
      var created;
      created, lost := client.CreateDisk(vdc, req.name, size.value);
      done := created;
      if created.Err? { return Err(Raw(created.error)), done, lost; }
      return Ok(resp), done, lost;
    }

    method DeleteVolume(volumeId: string)
      returns (r: Result<(), Code>, ghost done: Result<(), Error>, ghost missed: set<string>)
      modifies client.cloud
      ensures volumeId == "" ==> r == Err(InvalidArgument) && client.cloud.state == old(client.cloud.state)
      ensures volumeId != "" ==>
                && DeleteRel(client.Cfg(), old(client.cloud.state), volumeId, client.cloud.state, done, missed,
                             client.cloud.faults == old(client.cloud.faults) + |missed|)
                && r == if done.Ok? then Ok(()) else Err(Internal)
    {
      done, missed := Err(CloudFault), {};
      if volumeId == "" { return Err(InvalidArgument), done, missed; }
      var deleted;
      deleted, missed := client.DeleteDisk(volumeId);
      done := deleted;
      if deleted.Err? { return Err(Internal), done, missed; }
      return Ok(()), done, missed;
    }

    method ControllerPublishVolume(req: PublishRequest)
      returns (r: Result<map<string, string>, Code>, ghost done: Result<DiskAttachParams, Error>)
      requires Valid()
      modifies this, lock, client.cloud
      ensures Valid()
      ensures PublishRel(client.Cfg(), old(client.cloud.state), old(log), req, done,
                         client.cloud.faults == old(client.cloud.faults), client.cloud.state, log, r)
    {
      done := Err(CloudFault);
      if req.volumeId == "" { return Err(InvalidArgument), done; }
      if req.nodeId == "" { return Err(InvalidArgument), done; }
      if req.capability.None? { return Err(InvalidArgument), done; }
      if req.readonly { return Err(AlreadyExists), done; }
      var locked := lock.IsLocked(req.volumeId);
      if locked {
        Record(PublishRejected(req.volumeId));
        return Err(Internal), done;
      }
      Record(PublishPassed(req.volumeId));
      var attached := client.AttachDisk(req.nodeId, req.volumeId);
      done := attached;
      if attached.Err? {
        match attached.error {
          case DiskNotExists => return Err(Internal), done;
          case VmNotFound => return Err(NotFound), done;
          case WrongDiskAttach => return Err(FailedPrecondition), done;
          case _ => return Err(Internal), done;
        }
      }
      return Ok(map[UNIT_KEY := attached.value.path]), done;
    }

    method ControllerUnpublishVolume(volumeId: string, nodeId: string)
      returns (r: Result<(), Code>, ghost done: Result<(), Error>)
      modifies client.cloud
      ensures volumeId == "" ==> r == Err(InvalidArgument) && client.cloud.state == old(client.cloud.state)
      ensures volumeId != "" ==>
                && DetachRel(client.Cfg(), old(client.cloud.state), volumeId, client.cloud.state, done,
                             client.cloud.faults == old(client.cloud.faults))
                && r == if done.Ok? then Ok(()) else Err(Internal)
    {
      done := Err(CloudFault);
      if volumeId == "" { return Err(InvalidArgument), done; }
      var detached := client.DetachDisk(nodeId, volumeId);
      done := detached;
      if detached.Err? { return Err(Internal), done; }
      return Ok(()), done;
    }

    method ListVolumes() returns (r: Result<seq<(string, int64)>, Code>, ghost hrefs: seq<Href>)
      modifies client.cloud`faults
      ensures r.Ok? <==> client.cloud.faults == old(client.cloud.faults)
      ensures r.Err? ==> r.error == Raw(CloudFault)
      ensures r.Ok? ==> exists vols: seq<VolumeWithCap> :: Lists(client.Cfg(), client.cloud.state, vols, hrefs)
                          && |r.value| == |vols|
                          && forall i :: 0 <= i < |vols| ==> r.value[i] == (vols[i].name, vols[i].cap.Bytes())
    {
      var volumes;
      volumes, hrefs := client.ListVolumes();
      if volumes.Err? { return Err(Raw(volumes.error)), hrefs; }
      var entries: seq<(string, int64)> := [];
      for i := 0 to |volumes.value|
        invariant |entries| == i
        invariant forall j :: 0 <= j < i ==>
                                entries[j] == (volumes.value[j].name, volumes.value[j].cap.Bytes())
      {
        entries := entries + [(volumes.value[i].name, volumes.value[i].cap.Bytes())];
      }
      return Ok(entries), hrefs;
    }

    method FindVolume(volumes: seq<VolumeWithCap>, name: string) returns (found: Option<VolumeWithCap>)
      ensures found == LastNamed(volumes, name)
    {
      found := None;
      for i := 0 to |volumes|
        invariant found == LastNamed(volumes[..i], name)
      {
        assert volumes[..i + 1][..i] == volumes[..i];
        if volumes[i].name == name {
          found := Some(volumes[i]);
        }
      }
      assert volumes[..|volumes|] == volumes;
    }

    /** Two visits to the client; nothing holds them together, but here nobody else comes in between. */
    method ControllerExpandVolume(req: ExpandRequest)
      returns (r: Result<Expanded, Code>, ghost run: ExpandRun)
      requires Valid()
      modifies this, lock, client.cloud
      ensures Valid()
      ensures ExpandRel(client.Cfg(), old(client.cloud.state), old(log), req, run, client.cloud.state, log, r)
    {
      run := ExpandRun(None, [], Err(CloudFault), false);
      // The first log line reads the range.
      if req.range.None? { return Err(Crashed), run; }
      if req.volumeId == "" { return Err(InvalidArgument), run; }
      var volumes;
      ghost var hrefs;
      volumes, hrefs := client.ListVolumes();
      if volumes.Err? { return Err(Raw(volumes.error)), run; }
      run := run.(listed := Some(volumes.value), hrefs := hrefs);
      var current := FindVolume(volumes.value, req.volumeId);
      var resizeBytes := ExtractStorage(req.range);
      if resizeBytes.Err? { return Err(OutOfRange), run; }
      if current.None? { return Err(Crashed), run; }
      if resizeBytes.value.Bytes() <= current.value.cap.Bytes() {
        return Ok(Expanded(current.value.cap.Bytes(), true)), run;
      }
      ghost var before := client.cloud.faults;
      var resized := client.ResizeDisk(current.value.vdcName, req.volumeId, resizeBytes.value);
      run := run.(done := resized, calm := client.cloud.faults == before);
      if resized.Err? {
        if resized.error == DiskAttachedToVm {
          lock.Put(req.volumeId);
          Record(ExpandAttached(req.volumeId));
          return Err(Internal), run;
        }
        return Err(Internal), run;
      }
      var _ := lock.Pop(req.volumeId);
      Record(Resized(req.volumeId));
      var nodeExpansionRequired := true;
      if req.capability.Some? && req.capability.value.access.Block? {
        nodeExpansionRequired := false;
      }
      return Ok(Expanded(resizeBytes.value.Bytes(), nodeExpansionRequired)), run;
    }
  }

  /** What a publish does when nothing comes between its look at the lock and its visit to the cloud. A locked volume is
      rejected once, and unlocked by that. */
  ghost predicate PublishRel(cfg: Config, s: State, log: seq<Event>, req: PublishRequest,
                             done: Result<DiskAttachParams, Error>, calm: bool,
                             s': State, log': seq<Event>, r: Result<map<string, string>, Code>)
  {
    if !ValidPublish(req) then r == Err(InvalidArgument) && s' == s && log' == log
    else if req.readonly then r == Err(AlreadyExists) && s' == s && log' == log
    else if req.volumeId in LockedAfter(log) then
      r == Err(Internal) && s' == s && log' == log + [PublishRejected(req.volumeId)]
    else
      && log' == log + [PublishPassed(req.volumeId)]
      && r == PublishAnswer(done)
      && AttachRel(cfg, s, req.nodeId, req.volumeId, s', done, calm)
  }

  /** What an expand saw of the cloud: the list it read, if it could, and the answer to its resize. */
  datatype ExpandRun = ExpandRun(
    listed: Option<seq<VolumeWithCap>>, hrefs: seq<Href>, done: Result<(), Error>, calm: bool)

  /** What an expand does when nothing comes between its two visits to the cloud. */
  ghost predicate ExpandRel(cfg: Config, s: State, log: seq<Event>, req: ExpandRequest, run: ExpandRun,
                            s': State, log': seq<Event>, r: Result<Expanded, Code>)
  {
    if req.range.None? then r == Err(Crashed) && s' == s && log' == log
    else if req.volumeId == "" then r == Err(InvalidArgument) && s' == s && log' == log
    else if run.listed.None? then r == Err(Raw(CloudFault)) && s' == s && log' == log
    else
      && Lists(cfg, s, run.listed.value, run.hrefs)
      && match Decide(run.listed.value, req.volumeId, req.range.value)
         case Refuse(code) => r == Err(code) && s' == s && log' == log
         case Skip(capacity) => r == Ok(Expanded(capacity, true)) && s' == s && log' == log
         case Grow(vdc, to) =>
           && ResizeRel(cfg, s, vdc, req.volumeId, to, s', run.done, run.calm)
           && match run.done
              case Ok(_) =>
                && r == Ok(Expanded(to.Bytes(), NodeMustExpand(req.capability)))
                && log' == log + [Resized(req.volumeId)]
              case Err(e) =>
                && r == Err(Internal)
                && log' == if e == DiskAttachedToVm then log + [ExpandAttached(req.volumeId)] else log
  }
}
