/** What the node's handlers answer, and the record each adds to the mount table or takes from it, in terms of the
    request, the devices and the table. */
module Records {
  import opened Wrappers
  import opened Csi
  import opened Devices
  import opened Node

  ghost predicate NothingAt(mounts: seq<FileSystem>, path: string) {
    forall fs :: fs in mounts ==> fs.target != path
  }

  /** A mount of the path that is not shared. */
  ghost predicate UnsharedAt(mounts: seq<FileSystem>, path: string) {
    exists fs :: fs in mounts && fs.target == path && fs.propagation != "shared"
  }

  /** One device, and no other, has the unit. */
  ghost predicate OneHas(devices: seq<BlockDevice>, unit: string) {
    exists i :: Only(devices, HasUnit(unit), i)
  }

  /** The path is that of the one device with the unit. */
  ghost predicate IsSource(devices: seq<BlockDevice>, unit: string, path: string) {
    exists i :: Only(devices, HasUnit(unit), i) && path == "/dev/" + devices[i].name
  }

  lemma SourceFound(devices: seq<BlockDevice>, unit: string)
    ensures FindByUnit(devices, unit).Ok? <==> OneHas(devices, unit)
    ensures FindByUnit(devices, unit).Ok? ==> IsSource(devices, unit, FindByUnit(devices, unit).value)
  {
    MatchingCount(devices, HasUnit(unit));
  }

  lemma TableSays(mounts: seq<FileSystem>, path: string)
    ensures MountedAt(mounts, path) == Err(NotShared) <==> UnsharedAt(mounts, path)
    ensures MountedAt(mounts, path) == Ok(false) <==> NothingAt(mounts, path)
    ensures MountedAt(mounts, path).Err? ==> MountedAt(mounts, path).error == NotShared
  {
    FindMntSays(mounts, path);
    forall fs | fs in mounts && fs.target == path
      ensures HasMount(mounts, path)
    {
    }
  }

  // ---------- Staging ----------

  /** The five things a stage must carry. */
  predicate StageComplete(req: StageRequest) {
    && req.volumeId != "" && req.stagingPath != "" && req.capability.Some?
    && "diskUnitNum" in req.context && "diskSizeB" in req.context
  }

  /** Every answer of an undisturbed stage. */
  lemma StageAnswers(n: NodeState, req: StageRequest)
    ensures var (n', r) := Stage(n, req);
            && (r == Err(BadRequest) <==> !StageComplete(req))
            && (StageComplete(req) ==>
                  var access, unit := req.capability.value.access, req.context["diskUnitNum"];
                  && (access.Block? ==> n' == n && r == Ok(()))
                  && (r == Err(NoDevice) <==> !access.Block? && !OneHas(n.devices, unit))
                  && (r == Err(NodeError.Crashed) <==> access.Unset? && OneHas(n.devices, unit))
                  && (r == Err(NotShared) <==>
                      access.Mount? && OneHas(n.devices, unit) && UnsharedAt(n.mounts, req.stagingPath)))
            && r != Err(CommandFailed)
            && (r.Err? ==> n'.mounts == n.mounts && (r.error == NotShared || n' == n))
  {
    if StageComplete(req) {
      SourceFound(n.devices, req.context[UNIT_KEY]);
      TableSays(n.mounts, req.stagingPath);
    }
  }

  /** A stage of a filesystem volume on a path with nothing mounted adds one record: the device with the unit, the file
      system type of the request, ext4 where it names none, and the flags. A blank device was made that type of file
      system first, and no other. */
  lemma StageRecord(n: NodeState, req: StageRequest)
    requires StageComplete(req) && req.capability.value.access.Mount? && Stage(n, req).1 == Ok(())
    requires NothingAt(n.mounts, req.stagingPath)
    ensures var n', access := Stage(n, req).0, req.capability.value.access;
            && |n'.mounts| == |n.mounts| + 1 && n'.mounts[..|n.mounts|] == n.mounts
            && var fs := n'.mounts[|n.mounts|];
               && fs.target == req.stagingPath && fs.propagation == n.propagation
               && IsSource(n.devices, req.context["diskUnitNum"], fs.source)
               && (access.fsType != "" ==> fs.fsType == access.fsType) && (access.fsType == "" ==> fs.fsType == "ext4")
               && fs.options == access.flags
               && n'.formatted == n.formatted + {fs.source}
               && n'.formats == if fs.source in n.formatted then n.formats else n.formats + [Mkfs(fs.source, fs.fsType)]
  {
    SourceFound(n.devices, req.context[UNIT_KEY]);
    TableSays(n.mounts, req.stagingPath);
    var n' := Stage(n, req).0;
    assert n'.mounts[..|n.mounts|] == n.mounts;
  }

  /** Where something is mounted on the path already, no record is added. */
  lemma StageOnMounted(n: NodeState, req: StageRequest)
    requires !NothingAt(n.mounts, req.stagingPath)
    ensures Stage(n, req).0.mounts == n.mounts
  {
    TableSays(n.mounts, req.stagingPath);
  }

  // ---------- Publishing ----------

  /** What a publish must carry; for a block volume the two context entries too. */
  predicate PublishComplete(req: PublishRequest) {
    && req.volumeId != "" && req.stagingPath != "" && req.targetPath != ""
    && req.capability.Some? && (req.capability.value.access.Block? || req.capability.value.access.Mount?)
    && (req.capability.value.access.Block? ==> "diskUnitNum" in req.context && "diskSizeB" in req.context)
  }

  /** Every answer of an undisturbed publish. */
  lemma PublishAnswers(n: NodeState, req: PublishRequest)
    ensures var (n', r) := Publish(n, req);
            && (r == Err(BadRequest) <==> !PublishComplete(req))
            && (PublishComplete(req) ==>
                  var access := req.capability.value.access;
                  && (r == Err(NoDevice) <==> access.Block? && !OneHas(n.devices, req.context["diskUnitNum"]))
                  && (r == Err(NotShared) <==>
                      (access.Mount? || OneHas(n.devices, req.context["diskUnitNum"]))
                      && UnsharedAt(n.mounts, req.targetPath)))
            && r != Err(CommandFailed) && r != Err(NodeError.Crashed)
            && (r.Err? ==> n' == n)
  {
    TableSays(n.mounts, req.targetPath);
    if PublishComplete(req) && req.capability.value.access.Block? {
      SourceFound(n.devices, req.context[UNIT_KEY]);
    }
  }

  /** The mount flags of the request; a block volume has none. */
  function Flags(access: AccessType): seq<string> {
    match access
    case Mount(_, flags) => flags
    case _ => []
  }

  /** A publish on a target with nothing mounted adds one record and changes nothing else. Its options are bind, ro
      exactly where the request is read-only or has that flag, and the flags, in this order and nothing else. A
      filesystem volume is mounted from its staging path, a block volume from the device with its unit. */
  lemma PublishRecord(n: NodeState, req: PublishRequest)
    requires PublishComplete(req) && Publish(n, req).1 == Ok(()) && NothingAt(n.mounts, req.targetPath)
    ensures var n', access := Publish(n, req).0, req.capability.value.access;
            && n' == n.(mounts := n'.mounts)
            && |n'.mounts| == |n.mounts| + 1 && n'.mounts[..|n.mounts|] == n.mounts
            && var fs := n'.mounts[|n.mounts|];
               && fs.target == req.targetPath && fs.propagation == n.propagation
               && |fs.options| == 1 + (if req.readonly then 1 else 0) + |Flags(access)|
               && fs.options[0] == "bind"
               && ("ro" in fs.options <==> req.readonly || "ro" in Flags(access))
               && (req.readonly ==> fs.options[1] == "ro")
               && fs.options[|fs.options| - |Flags(access)|..] == Flags(access)
               && (access.Mount? ==>
                     && fs.source == req.stagingPath
                     && (access.fsType != "" ==> fs.fsType == access.fsType)
                     && (access.fsType == "" ==> fs.fsType == "ext4"))
               && (access.Block? ==> IsSource(n.devices, req.context["diskUnitNum"], fs.source) && fs.fsType == "")
  {
    TableSays(n.mounts, req.targetPath);
    var n', access := Publish(n, req).0, req.capability.value.access;
    if access.Block? {
      SourceFound(n.devices, req.context[UNIT_KEY]);
    }
    assert n'.mounts[..|n.mounts|] == n.mounts;
    OptionsAre(req.readonly, access);
  }

  lemma OptionsAre(readonly: bool, access: AccessType)
    ensures var o := BindOptions(readonly, access);
            && |o| == 1 + (if readonly then 1 else 0) + |Flags(access)|
            && o[0] == "bind" && (readonly ==> o[1] == "ro")
            && ("ro" in o <==> readonly || "ro" in Flags(access))
            && o[|o| - |Flags(access)|..] == Flags(access)
  {
    var o := BindOptions(readonly, access);
    assert o == ["bind"] + (if readonly then ["ro"] else []) + Flags(access);
    assert "bind"[0] != "ro"[0];
  }

  // ---------- Unmounting ----------

  lemma {:induction false} RemoveLastTakes(mounts: seq<FileSystem>, path: string)
    requires !NothingAt(mounts, path)
    ensures FindMnt(mounts, path) != []
    ensures FindMnt(RemoveLast(mounts, path), path) == FindMnt(mounts, path)[..|FindMnt(mounts, path)| - 1]
    ensures |RemoveLast(mounts, path)| == |mounts| - 1
  {
    var front, last := mounts[..|mounts| - 1], mounts[|mounts| - 1];
    if last.target != path {
      assert !NothingAt(front, path) by {
        var fs :| fs in mounts && fs.target == path;
        assert fs in front;
      }
      RemoveLastTakes(front, path);
      var rest := RemoveLast(front, path) + [last];
      assert rest[..|rest| - 1] == RemoveLast(front, path);
      assert FindMnt(mounts, path) == FindMnt(front, path) + [];
    } else {
      assert FindMnt(mounts, path) == FindMnt(front, path) + [last];
    }
  }

  /** The last mount of the path is gone; the others of the path, and all of other paths, are as they were. */
  ghost predicate LastGone(before: seq<FileSystem>, after: seq<FileSystem>, path: string) {
    && FindMnt(before, path) != []
    && FindMnt(after, path) == FindMnt(before, path)[..|FindMnt(before, path)| - 1]
    && forall other :: other != path ==> FindMnt(after, other) == FindMnt(before, other)
  }

  ghost predicate TakesLast(n: NodeState, complete: bool, path: string, n': NodeState, r: Result<(), NodeError>) {
    && (r == Err(BadRequest) <==> !complete)
    && (r == Err(NotShared) <==> complete && UnsharedAt(n.mounts, path))
    && (r == Ok(()) <==> complete && !UnsharedAt(n.mounts, path))
    && (r.Err? || NothingAt(n.mounts, path) ==> n' == n)
    && (r.Ok? && !NothingAt(n.mounts, path) ==> n' == n.(mounts := n'.mounts) && LastGone(n.mounts, n'.mounts, path))
  }

  /** Every answer of an undisturbed unstage and unpublish: with nothing mounted they succeed without effect, else they
      take one mount of the path away. */
  lemma UnmountAnswers(n: NodeState, volumeId: string, path: string)
    ensures var (n', r) := Unstage(n, volumeId, path); TakesLast(n, volumeId != "" && path != "", path, n', r)
    ensures var (n', r) := Unpublish(n, volumeId, path); TakesLast(n, volumeId != "" && path != "", path, n', r)
  {
    TableSays(n.mounts, path);
    if !NothingAt(n.mounts, path) {
      RemoveLastTakes(n.mounts, path);
      forall other | other != path { RemoveLastElsewhere(n.mounts, path, other); }
    }
  }
}
