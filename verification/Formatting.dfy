/** Filesystems across the cloud: which disks the nodes format while volumes are staged, detached and attached to
    other nodes. A filesystem is on the disk, so it goes where the disk goes. */
module Formatting {
  import opened Wrappers
  import opened CloudModel
  import opened Lifecycle
  import opened Runs
  import opened Csi
  import opened Devices
  import opened Node
  import opened Placement
  import Controller

  /** fmt: the disks with a filesystem; formats: every disk mkfs was run on, in order. */
  datatype World = World(cloud: State, fmt: set<Href>, formats: seq<Href>)

  datatype Deed =
    | CloudStep(l: Label)
    | StageOn(v: Href, at: seq<nat>, before: NodeState, req: StageRequest, after: NodeState,
              r: Result<(), NodeError>, calm: bool)

  ghost predicate DistinctNames(devices: seq<BlockDevice>) {
    forall i, j :: 0 <= i < j < |devices| ==> devices[i].name != devices[j].name
  }

  /** The node before is how VM v looks from inside: its devices are those of its settings, and a device has a
      filesystem when its disk does. */
  ghost predicate Inside(w: World, v: Href, at: seq<nat>, before: NodeState) {
    && v in w.cloud.vms
    && Shows(before.devices, w.cloud.vms[v].settings, at)
    && DistinctNames(before.devices)
    && forall i :: 0 <= i < |at| && w.cloud.vms[v].settings[i].disk.Some? ==>
         (DevicePath(before.devices[at[i]]) in before.formatted <==> w.cloud.vms[v].settings[i].disk.value in w.fmt)
  }

  /** Entry i of v is a disk, and path is its device. */
  ghost predicate Owns(w: World, v: Href, at: seq<nat>, devices: seq<BlockDevice>, path: string, i: int) {
    && v in w.cloud.vms && 0 <= i < |at| && |at| == |w.cloud.vms[v].settings| && at[i] < |devices|
    && w.cloud.vms[v].settings[i].disk.Some? && DevicePath(devices[at[i]]) == path
  }

  function FormattedDisk(w: World, h: Href): World {
    w.(fmt := w.fmt + {h}, formats := w.formats + [h])
  }

  ghost predicate Does(cfg: Config, w: World, d: Deed, w': World) {
    match d
    case CloudStep(l) => Step(cfg, w.cloud, l, w'.cloud) && w' == w.(cloud := w'.cloud)
    case StageOn(v, at, before, req, after, r, calm) =>
      && Inside(w, v, at, before)
      && StageRel(before, req, after, r, calm)
      && (if after.formats == before.formats then w' == w
          else FormatCounts(w, v, at, before.devices, after.formats[|after.formats| - 1].device, w'))
  }

  /** mkfs was run on a device of v: if it is a disk's, the disk has a filesystem now. */
  ghost predicate FormatCounts(w: World, v: Href, at: seq<nat>, devices: seq<BlockDevice>, path: string, w': World) {
    if exists i :: Owns(w, v, at, devices, path, i) then
      exists i :: Owns(w, v, at, devices, path, i) && w' == FormattedDisk(w, w.cloud.vms[v].settings[i].disk.value)
    else w' == w
  }

  /** A stage runs mkfs on at most one device, and only on one without a filesystem. */
  lemma FormatsOnlyBlank(n: NodeState, req: StageRequest, n': NodeState, r: Result<(), NodeError>, calm: bool)
    requires StageRel(n, req, n', r, calm)
    ensures || (n'.formats == n.formats && n'.formatted == n.formatted)
            || exists source, fsType ::
                 && source !in n.formatted && ValidStage(req)
                 && FindByUnit(n.devices, req.context[UNIT_KEY]) == Ok(source)
                 && n'.formats == n.formats + [Mkfs(source, fsType)] && n'.formatted == n.formatted + {source}
  {
    if n'.formats != n.formats || n'.formatted != n.formatted {
      var source := FindByUnit(n.devices, req.context[UNIT_KEY]).value;
      assert source !in n.formatted;
    }
  }

  // ---------- Each disk at most once ----------

  ghost predicate NoRepeats(hs: seq<Href>) {
    forall i, j :: 0 <= i < j < |hs| ==> hs[i] != hs[j]
  }

  ghost predicate FormatsOk(w: World) {
    && NoRepeats(w.formats)
    && (forall h :: h in w.formats ==> h in w.fmt)
    && w.fmt <= w.cloud.issued
  }

  /** A stage leaves the world alone or formats one disk that had no filesystem. */
  lemma StageCases(cfg: Config, w: World, d: Deed, w': World) returns (h: Href)
    requires Inv(cfg, w.cloud) && Does(cfg, w, d, w') && d.StageOn? && w' != w
    ensures h in w.cloud.disks && h !in w.fmt && w' == FormattedDisk(w, h)
  {
    FormatsOnlyBlank(d.before, d.req, d.after, d.r, d.calm);
    var path := d.after.formats[|d.after.formats| - 1].device;
    h := CountedDisk(w, d.v, d.at, d.before, path, w');
    assert VmOk(w.cloud, d.v);
  }

  lemma CountedDisk(w: World, v: Href, at: seq<nat>, before: NodeState, path: string, w': World) returns (h: Href)
    requires Inside(w, v, at, before) && path !in before.formatted && w' != w
    requires FormatCounts(w, v, at, before.devices, path, w')
    ensures h !in w.fmt && w' == FormattedDisk(w, h)
    ensures exists i :: 0 <= i < |w.cloud.vms[v].settings| && w.cloud.vms[v].settings[i].disk == Some(h)
  {
    var i :| Owns(w, v, at, before.devices, path, i)
             && w' == FormattedDisk(w, w.cloud.vms[v].settings[i].disk.value);
    h := w.cloud.vms[v].settings[i].disk.value;
  }

  lemma DoesSafe(cfg: Config, w: World, d: Deed, w': World)
    requires Inv(cfg, w.cloud) && FormatsOk(w) && Does(cfg, w, d, w')
    ensures Inv(cfg, w'.cloud) && FormatsOk(w')
    ensures w.fmt <= w'.fmt && w.formats <= w'.formats
    ensures forall h :: h in w'.formats && h !in w.formats ==> h !in w.fmt
  {
    if d.CloudStep? {
      StepSafe(cfg, w.cloud, d.l, w'.cloud);
    } else if w' != w {
      var h := StageCases(cfg, w, d, w');
      OneMoreFormat(w, h);
    }
  }

  lemma OneMoreFormat(w: World, h: Href)
    requires FormatsOk(w) && h !in w.fmt && h in w.cloud.issued
    ensures FormatsOk(FormattedDisk(w, h))
    ensures w.fmt <= FormattedDisk(w, h).fmt && w.formats <= FormattedDisk(w, h).formats
    ensures forall g :: g in FormattedDisk(w, h).formats && g !in w.formats ==> g !in w.fmt
  {
  }

  ghost predicate History(cfg: Config, ws: seq<World>, deeds: seq<Deed>) {
    && |ws| == |deeds| + 1
    && (forall i :: 0 <= i < |deeds| ==> Does(cfg, ws[i], deeds[i], ws[i + 1]))
    && Inv(cfg, ws[0].cloud) && ws[0].formats == [] && ws[0].fmt <= ws[0].cloud.issued
  }

  lemma {:induction false} HistoryOk(cfg: Config, ws: seq<World>, deeds: seq<Deed>, n: nat)
    requires History(cfg, ws, deeds) && n <= |deeds|
    ensures Inv(cfg, ws[n].cloud) && FormatsOk(ws[n])
  {
    if n > 0 {
      HistoryOk(cfg, ws, deeds, n - 1);
      DoesSafe(cfg, ws[n - 1], deeds[n - 1], ws[n]);
    }
  }

  /** Over any history of cloud operations and stagings on any nodes, with any failures, no disk is formatted twice,
      a disk that came with a filesystem is never formatted, and a filesystem once made stays. */
  lemma {:induction false} FormattedOnce(cfg: Config, ws: seq<World>, deeds: seq<Deed>, k: nat, n: nat)
    requires History(cfg, ws, deeds) && k <= n <= |deeds|
    ensures Inv(cfg, ws[n].cloud) && FormatsOk(ws[n])
    ensures ws[k].fmt <= ws[n].fmt && ws[k].formats <= ws[n].formats
    ensures forall h :: h in ws[k].fmt && h !in ws[k].formats ==> h !in ws[n].formats
    decreases n
  {
    HistoryOk(cfg, ws, deeds, n);
    if k < n {
      FormattedOnce(cfg, ws, deeds, k, n - 1);
      DoesSafe(cfg, ws[n - 1], deeds[n - 1], ws[n]);
    }
  }

  // ---------- Staging reaches the right disk ----------

  /** An undisturbed stage of a filesystem volume, with a unit that identifies disk h on the VM. */
  ghost predicate StagesDisk(w: World, d: Deed, h: Href) {
    && d.StageOn? && d.calm
    && ValidStage(d.req) && d.req.capability.value.access.Mount?
    && Identifies(w.cloud, d.v, h, d.req.context[UNIT_KEY])
  }

  /** Staging finds the device of the disk's entry. */
  lemma StageSource(cfg: Config, w: World, d: Deed, w': World, h: Href) returns (k: nat, source: string)
    requires Does(cfg, w, d, w') && StagesDisk(w, d, h)
    ensures SlotOf(w.cloud.vms[d.v].settings, h) == Some(k) && k < |d.at|
    ensures source == DevicePath(d.before.devices[d.at[k]])
    ensures FindByUnit(d.before.devices, d.req.context[UNIT_KEY]) == Ok(source)
    ensures source in d.before.formatted <==> h in w.fmt
  {
    k := SlotOf(w.cloud.vms[d.v].settings, h).value;
    source := DevicePath(d.before.devices[d.at[k]]);
  }

  lemma CountsOwner(w: World, v: Href, at: seq<nat>, before: NodeState, w': World, h: Href, k: nat)
    requires Inside(w, v, at, before) && SlotOf(w.cloud.vms[v].settings, h) == Some(k)
    requires FormatCounts(w, v, at, before.devices, DevicePath(before.devices[at[k]]), w')
    ensures w' == FormattedDisk(w, h)
  {
    var path := DevicePath(before.devices[at[k]]);
    assert Owns(w, v, at, before.devices, path, k);
    forall i | Owns(w, v, at, before.devices, path, i)
      ensures i == k
    {
      SameNameSameEntry(before.devices, at, i, k);
    }
  }

  /** Staging a disk by a unit that identifies it is about that disk only: it is formatted if it has no filesystem, and
      nothing is formatted if it has one, be it from this node or from another. */
  lemma StageFormats(cfg: Config, w: World, d: Deed, w': World, h: Href)
    requires Does(cfg, w, d, w') && StagesDisk(w, d, h)
    ensures w' == if h in w.fmt then w else FormattedDisk(w, h)
  {
    var k, source := StageSource(cfg, w, d, w', h);
    PreparedFormats(d.before, d.req, d.after, d.r, source);
    if h !in w.fmt {
      CountsOwner(w, d.v, d.at, d.before, w', h, k);
    }
  }

  lemma PreparedFormats(n: NodeState, req: StageRequest, n': NodeState, r: Result<(), NodeError>, source: string)
    requires StageRel(n, req, n', r, true) && ValidStage(req) && req.capability.value.access.Mount?
    requires FindByUnit(n.devices, req.context[UNIT_KEY]) == Ok(source)
    ensures n'.formats == if source in n.formatted then n.formats
                          else n.formats + [Mkfs(source, FsTypeOf(req.capability.value.access))]
  {
  }

  /** The mount a stage makes: the device of entry k of the VM on the staging path. */
  ghost predicate MountsEntry(d: Deed, k: nat) {
    && d.StageOn? && k < |d.at| && d.at[k] < |d.before.devices|
    && d.req.capability.Some? && d.req.capability.value.access.Mount?
    && |d.after.mounts| == |d.before.mounts| + 1 && d.before.mounts <= d.after.mounts
    && var fs, access := d.after.mounts[|d.before.mounts|], d.req.capability.value.access;
       && fs.target == d.req.stagingPath && fs.propagation == d.before.propagation
       && fs.source == "/dev/" + d.before.devices[d.at[k]].name && fs.options == access.flags
       && (access.fsType != "" ==> fs.fsType == access.fsType) && (access.fsType == "" ==> fs.fsType == "ext4")
  }

  /** Where nothing was mounted on the staging path, it shows the device of the disk afterwards. */
  lemma StageMounts(cfg: Config, w: World, d: Deed, w': World, h: Href) returns (k: nat)
    requires Does(cfg, w, d, w') && StagesDisk(w, d, h)
    requires MountedAt(d.before.mounts, d.req.stagingPath) == Ok(false)
    ensures d.r == Ok(())
    ensures SlotOf(w.cloud.vms[d.v].settings, h) == Some(k) && MountsEntry(d, k)
  {
    var i, source := StageSource(cfg, w, d, w', h);
    k := i;
  }

  lemma SameNameSameEntry(devices: seq<BlockDevice>, at: seq<nat>, i: int, k: int)
    requires DistinctNames(devices) && 0 <= i < |at| && 0 <= k < |at|
    requires at[i] < |devices| && at[k] < |devices|
    requires forall a, b :: 0 <= a < b < |at| ==> at[a] != at[b]
    requires DevicePath(devices[at[i]]) == DevicePath(devices[at[k]])
    ensures i == k
  {
    assert DevicePath(devices[at[i]])[5..] == devices[at[i]].name;
    assert DevicePath(devices[at[k]])[5..] == devices[at[k]].name;
  }

  /** In a history, staging leaves the disk with a filesystem. */
  lemma StagedAt(cfg: Config, ws: seq<World>, deeds: seq<Deed>, k: nat, h: Href)
    requires History(cfg, ws, deeds) && k < |deeds|
    requires StagesDisk(ws[k], deeds[k], h)
    ensures h in ws[k + 1].fmt && (h in ws[k].fmt ==> ws[k + 1] == ws[k])
  {
    HistorySafe(cfg, ws, deeds, k, k);
    StageFormats(cfg, ws[k], deeds[k], ws[k + 1], h);
  }

  /** Migration keeps data: a disk that had a filesystem at step k, be it from an earlier staging, is not formatted by
      a later staging, on whatever node and unit it has come to by then. */
  lemma MigrationKeepsData(cfg: Config, ws: seq<World>, deeds: seq<Deed>, k: nat, n: nat, h: Href)
    requires History(cfg, ws, deeds) && k <= n < |deeds| && h in ws[k].fmt
    requires StagesDisk(ws[n], deeds[n], h)
    ensures ws[n + 1] == ws[n]
  {
    HistorySafe(cfg, ws, deeds, k, n);
    StagedAt(cfg, ws, deeds, n, h);
  }

  lemma HistorySafe(cfg: Config, ws: seq<World>, deeds: seq<Deed>, k: nat, n: nat)
    requires History(cfg, ws, deeds) && k <= n <= |deeds|
    ensures Inv(cfg, ws[n].cloud) && ws[k].fmt <= ws[n].fmt
  {
    FormattedOnce(cfg, ws, deeds, k, n);
  }

  // ---------- From publish to stage ----------

  /** A history in which no node is given more volumes than it may hold, from a cloud the driver could have made. */
  ghost predicate GoodHistory(cfg: Config, ws: seq<World>, deeds: seq<Deed>) {
    && History(cfg, ws, deeds) && Rule(cfg, ws[0].cloud) && Placed(cfg, ws[0].cloud)
    && forall i :: 0 <= i < |deeds| ==> RoomFor(cfg, ws[i].cloud, deeds[i])
  }

  ghost predicate RoomFor(cfg: Config, s: State, d: Deed) {
    d.CloudStep? && d.l.Attach? ==> Roomy(cfg, s, d.l.vm, d.l.name)
  }

  lemma StageKeepsCloud(cfg: Config, w: World, d: Deed, w': World)
    requires Does(cfg, w, d, w') && d.StageOn?
    ensures w'.cloud == w.cloud
  {
  }

  lemma {:induction false} GoodHistorySafe(cfg: Config, ws: seq<World>, deeds: seq<Deed>, n: nat)
    requires GoodHistory(cfg, ws, deeds) && n <= |deeds|
    ensures Inv(cfg, ws[n].cloud) && Rule(cfg, ws[n].cloud) && Placed(cfg, ws[n].cloud)
  {
    if n > 0 {
      GoodHistorySafe(cfg, ws, deeds, n - 1);
      GoodDeed(cfg, ws[n - 1], deeds[n - 1], ws[n]);
    }
  }

  lemma GoodDeed(cfg: Config, w: World, d: Deed, w': World)
    requires Inv(cfg, w.cloud) && Rule(cfg, w.cloud) && Placed(cfg, w.cloud)
    requires Does(cfg, w, d, w') && RoomFor(cfg, w.cloud, d)
    ensures Inv(cfg, w'.cloud) && Rule(cfg, w'.cloud) && Placed(cfg, w'.cloud)
  {
    if d.CloudStep? {
      StepSafe(cfg, w.cloud, d.l, w'.cloud);
      RuleKept(cfg, w.cloud, d.l, w'.cloud);
      PlacedKept(cfg, w.cloud, d.l, w'.cloud);
    } else {
      StageKeepsCloud(cfg, w, d, w');
    }
  }

  /** Deed k is an attach that succeeded, and no later deed before n names its disk. */
  ghost predicate PublishedAt(deeds: seq<Deed>, k: nat, n: nat) {
    && k < n <= |deeds| && deeds[k].CloudStep? && deeds[k].l.Attach? && deeds[k].l.params.Ok?
    && forall i :: k < i < n && deeds[i].CloudStep? ==> deeds[i].l.name != deeds[k].l.name
  }

  lemma DeedSits(cfg: Config, w: World, d: Deed, w': World, l: Label, v: Href, h: Href)
    requires Inv(cfg, w.cloud) && Does(cfg, w, d, w') && SitsAt(cfg, w.cloud, l, v, h)
    requires d.CloudStep? ==> d.l.name != l.name
    ensures SitsAt(cfg, w'.cloud, l, v, h)
  {
    if d.CloudStep? {
      SitsStill(cfg, w.cloud, d.l, w'.cloud, l, v, h);
    } else {
      StageKeepsCloud(cfg, w, d, w');
    }
  }

  lemma DeedAttaches(cfg: Config, w: World, d: Deed, w': World) returns (v: Href, h: Href)
    requires Inv(cfg, w.cloud) && Does(cfg, w, d, w') && d.CloudStep? && d.l.Attach? && d.l.params.Ok?
    ensures SitsAt(cfg, w'.cloud, d.l, v, h)
  {
    v, h := AttachedThen(cfg, w.cloud, d.l, w'.cloud);
  }

  lemma HistoryDeed(cfg: Config, ws: seq<World>, deeds: seq<Deed>, i: nat)
    requires History(cfg, ws, deeds) && i < |deeds|
    ensures Inv(cfg, ws[i].cloud) && Does(cfg, ws[i], deeds[i], ws[i + 1])
  {
    FormattedOnce(cfg, ws, deeds, i, i);
  }

  /** Until an operation names the disk again it stays on the VM and in the slot that deed k gave it. */
  lemma {:induction false} PublishedStays(cfg: Config, ws: seq<World>, deeds: seq<Deed>, k: nat, n: nat)
    returns (v: Href, h: Href)
    requires History(cfg, ws, deeds) && PublishedAt(deeds, k, n)
    ensures SitsAt(cfg, ws[n].cloud, deeds[k].l, v, h)
    decreases n
  {
    var last: nat := n - 1;
    HistoryDeed(cfg, ws, deeds, last);
    if last == k {
      v, h := DeedAttaches(cfg, ws[k], deeds[k], ws[n]);
    } else {
      assert PublishedAt(deeds, k, last);
      v, h := PublishedStays(cfg, ws, deeds, k, last);
      DeedSits(cfg, ws[last], deeds[last], ws[n], deeds[k].l, v, h);
    }
  }

  /** In any history, up to the next operation that names the disk, the path an attach returned identifies the disk
      exactly when no other entry of its VM has the unit by then; in a good history it does. */
  lemma PublishedIdentifies(cfg: Config, ws: seq<World>, deeds: seq<Deed>, k: nat, n: nat) returns (v: Href, h: Href)
    requires History(cfg, ws, deeds) && PublishedAt(deeds, k, n)
    ensures SitsAt(cfg, ws[n].cloud, deeds[k].l, v, h) && SlotOf(ws[n].cloud.vms[v].settings, h).Some?
    ensures Identifies(ws[n].cloud, v, h, deeds[k].l.params.value.path) <==>
            AloneInUnit(ws[n].cloud.vms[v].settings, SlotOf(ws[n].cloud.vms[v].settings, h).value)
    ensures GoodHistory(cfg, ws, deeds) ==> Identifies(ws[n].cloud, v, h, deeds[k].l.params.value.path)
  {
    v, h := PublishedStays(cfg, ws, deeds, k, n);
    UnitIdentifies(ws[n].cloud, h);
    if GoodHistory(cfg, ws, deeds) {
      GoodHistorySafe(cfg, ws, deeds, n);
      assert WellPlaced(cfg, ws[n].cloud, h);
      DiskIdentified(cfg, ws[n].cloud, h);
    }
  }

  /** Deed n is an undisturbed stage of a filesystem volume with the path that deed k returned. */
  ghost predicate StagedWith(deeds: seq<Deed>, k: nat, n: nat) {
    && k < n < |deeds| && deeds[k].CloudStep? && deeds[k].l.Attach? && deeds[k].l.params.Ok?
    && deeds[n].StageOn? && deeds[n].calm && ValidStage(deeds[n].req)
    && deeds[n].req.capability.value.access.Mount?
    && deeds[n].req.context[UNIT_KEY] == deeds[k].l.params.value.path
  }

  /** From publish to stage, in a good history: a stage on the VM the disk was attached to, with the path the attach
      returned, formats that disk if it is blank and nothing otherwise, and shows its device on the staging path. */
  lemma StagePublished(cfg: Config, ws: seq<World>, deeds: seq<Deed>, k: nat, n: nat) returns (v: Href, h: Href, e: nat)
    requires GoodHistory(cfg, ws, deeds) && PublishedAt(deeds, k, n) && StagedWith(deeds, k, n)
    ensures SitsAt(cfg, ws[n].cloud, deeds[k].l, v, h) && SlotOf(ws[n].cloud.vms[v].settings, h) == Some(e)
    ensures deeds[n].v == v ==> ws[n + 1] == if h in ws[n].fmt then ws[n] else FormattedDisk(ws[n], h)
    ensures deeds[n].v == v && MountedAt(deeds[n].before.mounts, deeds[n].req.stagingPath) == Ok(false) ==>
              deeds[n].r == Ok(()) && MountsEntry(deeds[n], e)
  {
    v, h := PublishedIdentifies(cfg, ws, deeds, k, n);
    e := SlotOf(ws[n].cloud.vms[v].settings, h).value;
    if deeds[n].v == v {
      StageFormats(cfg, ws[n], deeds[n], ws[n + 1], h);
      if MountedAt(deeds[n].before.mounts, deeds[n].req.stagingPath) == Ok(false) {
        var i := StageMounts(cfg, ws[n], deeds[n], ws[n + 1], h);
      }
    }
  }

  /** The context a publish returns carries the unit only. A stage that gets it, with whatever else is added on the
      way, is accepted exactly when the disk size is among what is added; as returned, it never is. */
  lemma PublishedContext(n: NodeState, req: StageRequest, params: DiskAttachParams, added: map<string, string>)
    requires UNIT_KEY !in added
    requires req.context == Controller.PublishAnswer(Ok(params)).value + added
    requires req.volumeId != "" && req.stagingPath != "" && req.capability.Some?
    ensures ValidStage(req) <==> SIZE_KEY in added
    ensures SIZE_KEY !in added ==> Stage(n, req) == (n, Err(BadRequest))
    ensures ValidStage(req) ==> req.context[UNIT_KEY] == params.path
  {
    assert UNIT_KEY != SIZE_KEY by {
      assert |UNIT_KEY| != |SIZE_KEY|;
    }
  }
}
