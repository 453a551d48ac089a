/** The node's handlers: they decide what to format and what to mount from the mount table and the state of the
    devices. */
module Node {
  import opened Wrappers
  import opened Csi
  import opened Devices

  const SHARED: string := "shared"

  /** One record of the mount table, as findmnt reports it. */
  datatype FileSystem = FileSystem(
    target: string, propagation: string, source: string, fsType: string, options: seq<string>)

  /** One run of mkfs. */
  datatype Mkfs = Mkfs(device: string, fsType: string)

  /** formats: every run of mkfs, in order; propagation: what the node gives to new mounts. */
  datatype NodeState = NodeState(
    devices: seq<BlockDevice>,
    mounts: seq<FileSystem>,
    formatted: set<string>,
    formats: seq<Mkfs>,
    propagation: string)

  /** Crashed: the handler dereferences a nil pointer. */
  datatype NodeError = BadRequest | NoDevice | Crashed | NotShared | CommandFailed

  datatype StageRequest = StageRequest(
    volumeId: string, stagingPath: string, capability: Option<Capability>, context: map<string, string>)

  datatype PublishRequest = PublishRequest(
    volumeId: string, stagingPath: string, targetPath: string, capability: Option<Capability>,
    context: map<string, string>, readonly: bool)

  // ---------- The mount table ----------

  predicate MisMounted(mounts: seq<FileSystem>, target: string) {
    exists i :: 0 <= i < |mounts| && mounts[i].target == target && mounts[i].propagation != SHARED
  }

  predicate HasMount(mounts: seq<FileSystem>, target: string) {
    exists i :: 0 <= i < |mounts| && mounts[i].target == target
  }

  function MountedAt(mounts: seq<FileSystem>, target: string): Result<bool, NodeError> {
    if MisMounted(mounts, target) then Err(NotShared) else Ok(HasMount(mounts, target))
  }

  /** The records of one path, which is all findmnt -M shows. */
  function FindMnt(mounts: seq<FileSystem>, target: string): (found: seq<FileSystem>)
    ensures forall fs :: fs in found <==> fs in mounts && fs.target == target
  {
    if mounts == [] then []
    else
      var last := mounts[|mounts| - 1];
      FindMnt(mounts[..|mounts| - 1], target) + if last.target == target then [last] else []
  }

  /** umount takes the topmost mount of the path away. */
  function RemoveLast(mounts: seq<FileSystem>, target: string): seq<FileSystem> {
    if mounts == [] then []
    else
      var front, last := mounts[..|mounts| - 1], mounts[|mounts| - 1];
      if last.target == target then front else RemoveLast(front, target) + [last]
  }

  function Mounted(n: NodeState, source: string, target: string, fsType: string, options: seq<string>): NodeState {
    n.(mounts := n.mounts + [FileSystem(target, n.propagation, source, fsType, options)])
  }

  function Unmounted(n: NodeState, target: string): NodeState {
    n.(mounts := RemoveLast(n.mounts, target))
  }

  function Formatted(n: NodeState, source: string, fsType: string): NodeState {
    n.(formatted := n.formatted + {source}, formats := n.formats + [Mkfs(source, fsType)])
  }

  // ---------- What the handlers do when no command fails ----------

  predicate ValidStage(req: StageRequest) {
    && req.volumeId != "" && req.stagingPath != "" && req.capability.Some?
    && UNIT_KEY in req.context && SIZE_KEY in req.context
  }

  function FsTypeOf(mount: AccessType): string
    requires mount.Mount?
  {
    if mount.fsType != "" then mount.fsType else "ext4"
  }

  /** The node after the format step of a stage. */
  function Prepared(n: NodeState, source: string, fsType: string): NodeState {
    if source in n.formatted then n else Formatted(n, source, fsType)
  }

  function MountUnlessMounted(n: NodeState, source: string, target: string, fsType: string, options: seq<string>)
    : (NodeState, Result<(), NodeError>)
  {
    match MountedAt(n.mounts, target)
    case Err(e) => (n, Err(e))
    case Ok(mounted) => (if mounted then n else Mounted(n, source, target, fsType, options), Ok(()))
  }

  function UnmountIfMounted(n: NodeState, target: string): (NodeState, Result<(), NodeError>) {
    match MountedAt(n.mounts, target)
    case Err(e) => (n, Err(e))
    case Ok(mounted) => (if mounted then Unmounted(n, target) else n, Ok(()))
  }

  function Stage(n: NodeState, req: StageRequest): (NodeState, Result<(), NodeError>) {
    if !ValidStage(req) then (n, Err(BadRequest))
    else
      var access := req.capability.value.access;
      if access.Block? then (n, Ok(()))
      else
        match FindByUnit(n.devices, req.context[UNIT_KEY])
        case Err(_) => (n, Err(NoDevice))
        case Ok(source) =>
          if access.Mount? then
            var fsType := FsTypeOf(access);
            MountUnlessMounted(Prepared(n, source, fsType), source, req.stagingPath, fsType, access.flags)
          else (n, Err(NodeError.Crashed))
  }

  function Unstage(n: NodeState, volumeId: string, stagingPath: string): (NodeState, Result<(), NodeError>) {
    if volumeId == "" || stagingPath == "" then (n, Err(BadRequest)) else UnmountIfMounted(n, stagingPath)
  }

  function BindOptions(readonly: bool, access: AccessType): seq<string> {
    ["bind"] + (if readonly then ["ro"] else []) + if access.Mount? then access.flags else []
  }

  predicate ValidPublish(req: PublishRequest) {
    && req.volumeId != "" && req.stagingPath != "" && req.targetPath != ""
    && req.capability.Some? && !req.capability.value.access.Unset?
  }

  function Publish(n: NodeState, req: PublishRequest): (NodeState, Result<(), NodeError>) {
    if !ValidPublish(req) then (n, Err(BadRequest))
    else
      var access := req.capability.value.access;
      if access.Mount? then
        MountUnlessMounted(n, req.stagingPath, req.targetPath, FsTypeOf(access), BindOptions(req.readonly, access))
      else if UNIT_KEY !in req.context || SIZE_KEY !in req.context then (n, Err(BadRequest))
      else
        match FindByUnit(n.devices, req.context[UNIT_KEY])
        case Err(_) => (n, Err(NoDevice))
        case Ok(source) => MountUnlessMounted(n, source, req.targetPath, "", BindOptions(req.readonly, access))
  }

  function Unpublish(n: NodeState, volumeId: string, targetPath: string): (NodeState, Result<(), NodeError>) {
    if volumeId == "" || targetPath == "" then (n, Err(BadRequest)) else UnmountIfMounted(n, targetPath)
  }

  /** A stage in which a command failed changed nothing, or got as far as formatting. */
  ghost predicate StageRel(n: NodeState, req: StageRequest, n': NodeState, r: Result<(), NodeError>, calm: bool) {
    if calm then (n', r) == Stage(n, req)
    else
      && r == Err(CommandFailed)
      && (n' == n
          || (ValidStage(req) && req.capability.value.access.Mount? && FindByUnit(n.devices, req.context[UNIT_KEY]).Ok?
              && n' == Prepared(n, FindByUnit(n.devices, req.context[UNIT_KEY]).value,
                                FsTypeOf(req.capability.value.access))))
  }

  // ---------- The handlers ----------

  /** The commands of the node. Each can fail without effect; faults counts the ones that did. */
  class Mounter {
    var state: NodeState
    ghost var faults: nat

    constructor (state: NodeState)
      ensures this.state == state && faults == 0
    {
      this.state := state;
      faults := 0;
    }

    method Command() returns (ok: bool)
      modifies this`faults
      ensures faults == old(faults) + if ok then 0 else 1
    {
      ok := *;
      if !ok { faults := faults + 1; }
    }

    method IsFormatted(source: string) returns (r: Result<bool, NodeError>)
      modifies this`faults
      ensures faults == old(faults) <==> r.Ok?
      ensures old(faults) <= faults && (r.Err? ==> r.error == CommandFailed)
      ensures r.Ok? ==> r.value == (source in state.formatted)
    {
      var ok := Command();
      if !ok { return Err(CommandFailed); }
      return Ok(source in state.formatted);
    }

    method Format(source: string, fsType: string) returns (r: Result<(), NodeError>)
      modifies this
      ensures faults == old(faults) <==> r.Ok?
      ensures old(faults) <= faults && (r.Err? ==> r.error == CommandFailed)
      ensures state == if r.Ok? then Formatted(old(state), source, fsType) else old(state)
    {
      var ok := Command();
      if !ok { return Err(CommandFailed); }
      state := Formatted(state, source, fsType);
      return Ok(());
    }

    method Mount(source: string, target: string, fsType: string, options: seq<string>) returns (r: Result<(), NodeError>)
      modifies this
      ensures faults == old(faults) <==> r == Ok(())
      ensures old(faults) <= faults && (r == Ok(()) || r == Err(CommandFailed))
      ensures state == if r.Ok? then Mounted(old(state), source, target, fsType, options) else old(state)
    {
      var ok := Command();
      if !ok { return Err(CommandFailed); }
      state := Mounted(state, source, target, fsType, options);
      return Ok(());
    }

    method Unmount(target: string) returns (r: Result<(), NodeError>)
      modifies this
      ensures faults == old(faults) <==> r == Ok(())
      ensures old(faults) <= faults && (r == Ok(()) || r == Err(CommandFailed))
      ensures state == if r.Ok? then Unmounted(old(state), target) else old(state)
    {
      var ok := Command();
      if !ok { return Err(CommandFailed); }
      state := Unmounted(state, target);
      return Ok(());
    }

    method IsMounted(target: string) returns (r: Result<bool, NodeError>)
      modifies this`faults
      ensures faults == old(faults) <==> r != Err(CommandFailed)
      ensures old(faults) <= faults
      ensures r != Err(CommandFailed) ==> r == MountedAt(state.mounts, target)
      ensures r == Err(NotShared) ==> exists fs :: fs in state.mounts && fs.target == target && fs.propagation != "shared"
      ensures r.Ok? ==> forall fs :: fs in state.mounts && fs.target == target ==> fs.propagation == "shared"
      ensures r.Ok? ==> (r.value <==> exists fs :: fs in state.mounts && fs.target == target)
    {
      var ok := Command();
      if !ok { return Err(CommandFailed); }
      var entries := FindMnt(state.mounts, target);
      var targetFound := false;
      for i := 0 to |entries|
        invariant targetFound <==> i > 0
        invariant forall j :: 0 <= j < i ==> entries[j].propagation == SHARED
      {
        assert entries[i] in entries;
        // The mount must be propagated.
        if entries[i].propagation != SHARED {
          return Err(NotShared);
        }
        if entries[i].target == target {
          targetFound := true;
        }
      }
      FindMntSays(state.mounts, target);
      return Ok(targetFound);
    }

    method GetDiskUnit(unit: string) returns (r: Result<string, NodeError>)
      modifies this`faults
      ensures faults == old(faults) <==> r != Err(CommandFailed)
      ensures old(faults) <= faults
      ensures r.Ok? ==> FindByUnit(state.devices, unit) == Ok(r.value)
      ensures r.Err? && r.error != CommandFailed ==> r.error == NoDevice && FindByUnit(state.devices, unit).Err?
    {
      var ok := Command();
      if !ok { return Err(CommandFailed); }
      var found := Devices.GetDiskUnit(state.devices, unit);
      if found.Err? { return Err(NoDevice); }
      return Ok(found.value);
    }
  }

  lemma FindMntSays(mounts: seq<FileSystem>, target: string)
    ensures MisMounted(mounts, target) <==> exists fs :: fs in FindMnt(mounts, target) && fs.propagation != SHARED
    ensures HasMount(mounts, target) <==> FindMnt(mounts, target) != []
  {
    var found := FindMnt(mounts, target);
    if HasMount(mounts, target) {
      var i :| 0 <= i < |mounts| && mounts[i].target == target;
      assert mounts[i] in found;
    }
    if found != [] {
      assert found[0] in found;
    }
    if MisMounted(mounts, target) {
      var i :| 0 <= i < |mounts| && mounts[i].target == target && mounts[i].propagation != SHARED;
      assert mounts[i] in found;
    }
  }

  class NodeDriver {
    const m: Mounter

    constructor (m: Mounter)
      ensures this.m == m
    {
      this.m := m;
    }

    method NodeStageVolume(req: StageRequest) returns (r: Result<(), NodeError>)
      modifies m
      ensures StageRel(old(m.state), req, m.state, r, m.faults == old(m.faults))
    {
      if req.volumeId == "" { return Err(BadRequest); }
      if req.stagingPath == "" { return Err(BadRequest); }
      if req.capability.None? { return Err(BadRequest); }
      if UNIT_KEY !in req.context { return Err(BadRequest); }
      if SIZE_KEY !in req.context { return Err(BadRequest); }
      var access := req.capability.value.access;
      if access.Block? { return Ok(()); }
      var source := m.GetDiskUnit(req.context[UNIT_KEY]);
      if source.Err? { return Err(source.error); }
      if !access.Mount? { return Err(NodeError.Crashed); }
      var options := access.flags;
      var fsType := "ext4";
      if access.fsType != "" {
        fsType := access.fsType;
      }
      var formatted := m.IsFormatted(source.value);
      if formatted.Err? { return Err(formatted.error); }
      if !formatted.value {
        var made := m.Format(source.value, fsType);
        if made.Err? { return Err(made.error); }
      }
      r := MountIfNeeded(source.value, req.stagingPath, fsType, options);
    }

    /** The last part of stage and publish. */
    method MountIfNeeded(source: string, target: string, fsType: string, options: seq<string>)
      returns (r: Result<(), NodeError>)
      modifies m
      ensures old(m.faults) <= m.faults
      ensures m.faults == old(m.faults) ==>
                (m.state, r) == MountUnlessMounted(old(m.state), source, target, fsType, options)
      ensures m.faults != old(m.faults) ==> r == Err(CommandFailed) && m.state == old(m.state)
    {
      var mounted := m.IsMounted(target);
      if mounted.Err? { return Err(mounted.error); }
      if !mounted.value {
        var done := m.Mount(source, target, fsType, options);
        if done.Err? { return Err(done.error); }
      }
      return Ok(());
    }

    method UnmountIfNeeded(target: string) returns (r: Result<(), NodeError>)
      modifies m
      ensures old(m.faults) <= m.faults
      ensures m.faults == old(m.faults) ==> (m.state, r) == UnmountIfMounted(old(m.state), target)
      ensures m.faults != old(m.faults) ==> r == Err(CommandFailed) && m.state == old(m.state)
    {
      var mounted := m.IsMounted(target);
      if mounted.Err? { return Err(mounted.error); }
      if mounted.value {
        var done := m.Unmount(target);
        if done.Err? { return Err(done.error); }
      }
      return Ok(());
    }

    method NodeUnstageVolume(volumeId: string, stagingPath: string) returns (r: Result<(), NodeError>)
      modifies m
      ensures m.faults == old(m.faults) ==> (m.state, r) == Unstage(old(m.state), volumeId, stagingPath)
      ensures m.faults != old(m.faults) ==> r == Err(CommandFailed) && m.state == old(m.state)
    {
      if volumeId == "" { return Err(BadRequest); }
      if stagingPath == "" { return Err(BadRequest); }
      r := UnmountIfNeeded(stagingPath);
    }

    method NodePublishVolume(req: PublishRequest) returns (r: Result<(), NodeError>)
      modifies m
      ensures m.faults == old(m.faults) ==> (m.state, r) == Publish(old(m.state), req)
      ensures m.faults != old(m.faults) ==> r == Err(CommandFailed) && m.state == old(m.state)
    {
      if req.volumeId == "" { return Err(BadRequest); }
      if req.stagingPath == "" { return Err(BadRequest); }
      if req.targetPath == "" { return Err(BadRequest); }
      if req.capability.None? { return Err(BadRequest); }
      var options := ["bind"];
      if req.readonly {
        options := options + ["ro"];
      }
      var access := req.capability.value.access;
      match access
      case Block => r := PublishForBlock(req, options);
      case Mount(_, _) => r := PublishForFileSystem(req, options);
      case Unset => return Err(BadRequest);
    }

    method PublishForFileSystem(req: PublishRequest, mountOptions: seq<string>) returns (r: Result<(), NodeError>)
      requires ValidPublish(req) && req.capability.value.access.Mount?
      requires mountOptions == BindOptions(req.readonly, Block)
      modifies m
      ensures m.faults == old(m.faults) ==> (m.state, r) == Publish(old(m.state), req)
      ensures m.faults != old(m.faults) ==> r == Err(CommandFailed) && m.state == old(m.state)
    {
      var mnt := req.capability.value.access;
      var options := mountOptions;
      for i := 0 to |mnt.flags|
        invariant options == mountOptions + mnt.flags[..i]
      {
        options := options + [mnt.flags[i]];
      }
      assert options == BindOptions(req.readonly, mnt);
      r := MountIfNeeded(req.stagingPath, req.targetPath, FsTypeOf(mnt), options);
    }

    method PublishForBlock(req: PublishRequest, mountOptions: seq<string>) returns (r: Result<(), NodeError>)
      requires ValidPublish(req) && req.capability.value.access.Block?
      requires mountOptions == BindOptions(req.readonly, Block)
      modifies m
      ensures m.faults == old(m.faults) ==> (m.state, r) == Publish(old(m.state), req)
      ensures m.faults != old(m.faults) ==> r == Err(CommandFailed) && m.state == old(m.state)
    {
      if UNIT_KEY !in req.context { return Err(BadRequest); }
      if SIZE_KEY !in req.context { return Err(BadRequest); }
      var source := m.GetDiskUnit(req.context[UNIT_KEY]);
      if source.Err? { return Err(source.error); }
      r := MountIfNeeded(source.value, req.targetPath, "", mountOptions);
    }

    method NodeUnpublishVolume(volumeId: string, targetPath: string) returns (r: Result<(), NodeError>)
      modifies m
      ensures m.faults == old(m.faults) ==> (m.state, r) == Unpublish(old(m.state), volumeId, targetPath)
      ensures m.faults != old(m.faults) ==> r == Err(CommandFailed) && m.state == old(m.state)
    {
      if volumeId == "" { return Err(BadRequest); }
      if targetPath == "" { return Err(BadRequest); }
      r := UnmountIfNeeded(targetPath);
    }
  }

  // ---------- Laws of the handlers ----------

  lemma MountedOne(n: NodeState, source: string, target: string, fsType: string, options: seq<string>, path: string)
    ensures var n' := Mounted(n, source, target, fsType, options);
            && Unmounted(n', target) == n
            && (path != target ==> MountedAt(n'.mounts, path) == MountedAt(n.mounts, path))
            && HasMount(n'.mounts, target)
            && (MisMounted(n'.mounts, target) <==> MisMounted(n.mounts, target) || n.propagation != SHARED)
  {
    var n' := Mounted(n, source, target, fsType, options);
    assert n'.mounts[..|n'.mounts| - 1] == n.mounts;
    assert forall i :: 0 <= i < |n.mounts| ==> n'.mounts[i] == n.mounts[i];
    assert n'.mounts[|n.mounts|] == FileSystem(target, n.propagation, source, fsType, options);
  }

  /** A stage that succeeded can be repeated, with the same answer and no change, exactly when the node gives shared
      propagation to its mounts or the stage had nothing to mount. */
  lemma StageIdempotent(n: NodeState, req: StageRequest)
    requires Stage(n, req).1 == Ok(())
    ensures Stage(Stage(n, req).0, req) == (Stage(n, req).0, Ok(())) <==>
            || n.propagation == SHARED
            || req.capability.value.access.Block? || HasMount(n.mounts, req.stagingPath)
  {
    if req.capability.value.access.Mount? {
      var source := FindByUnit(n.devices, req.context[UNIT_KEY]).value;
      var access := req.capability.value.access;
      MountedOne(Prepared(n, source, FsTypeOf(access)), source, req.stagingPath, FsTypeOf(access), access.flags, "");
    }
  }

  /** And so can a publish. */
  lemma PublishIdempotent(n: NodeState, req: PublishRequest)
    requires Publish(n, req).1 == Ok(())
    ensures Publish(Publish(n, req).0, req) == (Publish(n, req).0, Ok(())) <==>
            n.propagation == SHARED || HasMount(n.mounts, req.targetPath)
  {
    var access := req.capability.value.access;
    if access.Mount? {
      MountedOne(n, req.stagingPath, req.targetPath, FsTypeOf(access), BindOptions(req.readonly, access), "");
    } else {
      var source := FindByUnit(n.devices, req.context[UNIT_KEY]).value;
      MountedOne(n, source, req.targetPath, "", BindOptions(req.readonly, access), "");
    }
  }

  /** When staging dereferences nil: the access type of a valid request is unset, and its unit finds a device. */
  lemma StageCrashes(n: NodeState, req: StageRequest)
    ensures Stage(n, req).1 == Err(NodeError.Crashed) <==>
            && ValidStage(req) && req.capability.value.access.Unset?
            && exists i :: Only(n.devices, HasUnit(req.context[UNIT_KEY]), i)
  {
    if ValidStage(req) {
      MatchingCount(n.devices, HasUnit(req.context[UNIT_KEY]));
    }
  }

  /** The life of a volume on a node. */
  function StagePublish(n: NodeState, stage: StageRequest, publish: PublishRequest): NodeState {
    Publish(Stage(n, stage).0, publish).0
  }

  function WholeLife(n: NodeState, stage: StageRequest, publish: PublishRequest): NodeState {
    Unstage(Unpublish(StagePublish(n, stage, publish), publish.volumeId, publish.targetPath).0,
            stage.volumeId, stage.stagingPath).0
  }

  predicate AllSucceed(n: NodeState, stage: StageRequest, publish: PublishRequest) {
    var n1, n2 := Stage(n, stage).0, StagePublish(n, stage, publish);
    var n3 := Unpublish(n2, publish.volumeId, publish.targetPath).0;
    && Stage(n, stage).1.Ok? && Publish(n1, publish).1.Ok?
    && Unpublish(n2, publish.volumeId, publish.targetPath).1.Ok?
    && Unstage(n3, stage.volumeId, stage.stagingPath).1.Ok?
  }

  /** The two requests are about one volume that the node has, on two different paths with nothing mounted. */
  predicate FreshVolume(n: NodeState, stage: StageRequest, publish: PublishRequest) {
    && ValidStage(stage) && ValidPublish(publish) && stage.capability == publish.capability
    && stage.context == publish.context && stage.stagingPath == publish.stagingPath
    && stage.stagingPath != publish.targetPath
    && FindByUnit(n.devices, stage.context[UNIT_KEY]).Ok?
    && MountedAt(n.mounts, stage.stagingPath) == Ok(false) && MountedAt(n.mounts, publish.targetPath) == Ok(false)
  }

  /** Stage, publish, unpublish, unstage: all four succeed and the mount table is as it was exactly when the node
      gives shared propagation to its mounts. */
  lemma RoundTrip(n: NodeState, stage: StageRequest, publish: PublishRequest)
    requires FreshVolume(n, stage, publish)
    ensures AllSucceed(n, stage, publish) && WholeLife(n, stage, publish).mounts == n.mounts <==>
            n.propagation == SHARED
    ensures n.propagation == SHARED ==>
              WholeLife(n, stage, publish) ==
              if stage.capability.value.access.Block? then n
              else Prepared(n, FindByUnit(n.devices, stage.context[UNIT_KEY]).value,
                            FsTypeOf(stage.capability.value.access))
  {
    var source := FindByUnit(n.devices, stage.context[UNIT_KEY]).value;
    var access := stage.capability.value.access;
    var staging, target := stage.stagingPath, publish.targetPath;
    if access.Block? {
      MountedOne(n, source, target, "", BindOptions(publish.readonly, access), staging);
    } else {
      var n0 := Prepared(n, source, FsTypeOf(access));
      var n1 := Mounted(n0, source, staging, FsTypeOf(access), access.flags);
      MountedOne(n0, source, staging, FsTypeOf(access), access.flags, target);
      MountedOne(n1, staging, target, FsTypeOf(access), BindOptions(publish.readonly, access), staging);
    }
  }

  // ---------- Other paths ----------

  lemma {:induction false} RemoveLastElsewhere(mounts: seq<FileSystem>, target: string, path: string)
    requires path != target
    ensures FindMnt(RemoveLast(mounts, target), path) == FindMnt(mounts, path)
  {
    if mounts != [] {
      var front, last := mounts[..|mounts| - 1], mounts[|mounts| - 1];
      RemoveLastElsewhere(front, target, path);
      var rest := RemoveLast(front, target) + [last];
      assert rest[..|rest| - 1] == RemoveLast(front, target);
      if last.target == target {
        assert FindMnt(mounts, path) == FindMnt(front, path) + [];
      }
    }
  }

  lemma MountElsewhere(n: NodeState, source: string, target: string, fsType: string, options: seq<string>, path: string)
    requires path != target
    ensures FindMnt(Mounted(n, source, target, fsType, options).mounts, path) == FindMnt(n.mounts, path)
  {
    var mounts := Mounted(n, source, target, fsType, options).mounts;
    assert mounts[..|mounts| - 1] == n.mounts;
    assert FindMnt(mounts, path) == FindMnt(n.mounts, path) + [];
  }

  lemma MountUnlessElsewhere(n: NodeState, source: string, target: string, fsType: string, options: seq<string>,
                             path: string)
    requires path != target
    ensures FindMnt(MountUnlessMounted(n, source, target, fsType, options).0.mounts, path) == FindMnt(n.mounts, path)
  {
    MountElsewhere(n, source, target, fsType, options, path);
  }

  /** No handler touches the mounts of a path it was not given. */
  lemma StageElsewhere(n: NodeState, req: StageRequest, path: string)
    requires path != req.stagingPath
    ensures FindMnt(Stage(n, req).0.mounts, path) == FindMnt(n.mounts, path)
  {
    if ValidStage(req) && req.capability.value.access.Mount? && FindByUnit(n.devices, req.context[UNIT_KEY]).Ok? {
      var source := FindByUnit(n.devices, req.context[UNIT_KEY]).value;
      var access := req.capability.value.access;
      var fsType := FsTypeOf(access);
      MountUnlessElsewhere(Prepared(n, source, fsType), source, req.stagingPath, fsType, access.flags, path);
    }
  }

  lemma PublishElsewhere(n: NodeState, req: PublishRequest, path: string)
    requires path != req.targetPath
    ensures FindMnt(Publish(n, req).0.mounts, path) == FindMnt(n.mounts, path)
  {
    if ValidPublish(req) {
      var access := req.capability.value.access;
      var options := BindOptions(req.readonly, access);
      if access.Mount? {
        MountUnlessElsewhere(n, req.stagingPath, req.targetPath, FsTypeOf(access), options, path);
      } else if UNIT_KEY in req.context && FindByUnit(n.devices, req.context[UNIT_KEY]).Ok? {
        MountUnlessElsewhere(n, FindByUnit(n.devices, req.context[UNIT_KEY]).value, req.targetPath, "", options, path);
      }
    }
  }

  lemma UnmountElsewhere(n: NodeState, volumeId: string, own: string, path: string)
    requires path != own
    ensures FindMnt(Unstage(n, volumeId, own).0.mounts, path) == FindMnt(n.mounts, path)
    ensures FindMnt(Unpublish(n, volumeId, own).0.mounts, path) == FindMnt(n.mounts, path)
  {
    RemoveLastElsewhere(n.mounts, own, path);
  }
}
