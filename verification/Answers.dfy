/** What the controller's handlers answer, in terms of the request and the cloud. */
module Answers {
  import opened Wrappers
  import opened Storage
  import opened Text
  import opened CloudModel
  import opened Slots
  import opened Lifecycle
  import opened Invariant
  import opened Runs
  import opened Attachment
  import opened Locker
  import opened Csi
  import opened Controller
  import opened Expanding

  // ---------- Publishing ----------

  /** The request is complete, asks for a writable volume, and the volume is not locked. */
  predicate Proceeds(log: seq<Event>, req: PublishRequest) {
    && req.volumeId != "" && req.nodeId != "" && req.capability.Some? && !req.readonly
    && req.volumeId !in LockedAfter(log)
  }

  /** What is answered before the cloud is asked. A locked volume is answered Internal. */
  lemma PublishRefusals(cfg: Config, s: State, log: seq<Event>, req: PublishRequest,
                        done: Result<DiskAttachParams, Error>, calm: bool,
                        s': State, log': seq<Event>, r: Result<map<string, string>, Code>)
    requires PublishRel(cfg, s, log, req, done, calm, s', log', r)
    ensures r == Err(InvalidArgument) <==> req.volumeId == "" || req.nodeId == "" || req.capability.None?
    ensures r == Err(AlreadyExists) <==>
            req.volumeId != "" && req.nodeId != "" && req.capability.Some? && req.readonly
    ensures !Proceeds(log, req) ==> s' == s && r.Err?
    ensures !Proceeds(log, req) && r.error != InvalidArgument && r.error != AlreadyExists ==> r == Err(Internal)
    ensures Proceeds(log, req) && r.Err? ==> r.error in {NotFound, FailedPrecondition, Internal}
  {
  }

  /** NotFound exactly where no call failed and no VDC has the node. */
  lemma PublishNotFound(cfg: Config, s: State, log: seq<Event>, req: PublishRequest,
                        done: Result<DiskAttachParams, Error>, calm: bool,
                        s': State, log': seq<Event>, r: Result<map<string, string>, Code>)
    requires PublishRel(cfg, s, log, req, done, calm, s', log', r) && Proceeds(log, req)
    ensures r == Err(NotFound) <==> calm && forall c :: c in cfg.vdcs ==> FindVm(s, c, req.nodeId).None?
  {
  }

  /** FailedPrecondition exactly where a call failed within the detach from another node; the disk is still there. */
  lemma PublishWrongNode(cfg: Config, s: State, log: seq<Event>, req: PublishRequest,
                         done: Result<DiskAttachParams, Error>, calm: bool,
                         s': State, log': seq<Event>, r: Result<map<string, string>, Code>)
    requires Inv(cfg, s) && PublishRel(cfg, s, log, req, done, calm, s', log', r) && Proceeds(log, req)
    ensures r == Err(FailedPrecondition) <==> done == Err(WrongDiskAttach)
    ensures r == Err(FailedPrecondition) ==>
              !calm && s' == s
              && exists c :: c in cfg.vdcs && FindVm(s, c, req.nodeId).Some?
                             && MustDetach(s, c, FindVm(s, c, req.nodeId).value, req.volumeId)
    ensures !calm ==> r == Err(FailedPrecondition) || r == Err(Internal)
  {
    if calm {
      CalmNotWrong(cfg, s, req.nodeId, req.volumeId, s', done);
    }
  }

  lemma CalmNotWrong(cfg: Config, s: State, vm: string, name: string, s': State, r: Result<DiskAttachParams, Error>)
    requires Inv(cfg, s) && AttachRel(cfg, s, vm, name, s', r, true)
    ensures r != Err(WrongDiskAttach)
  {
    if c, u :| AttachVia(cfg, s, c, u, vm, name, s', r) {
      var v, h := AttachCases(cfg, s, c, u, vm, name, s', r);
      if h.Some? {
        AttachEffect(cfg, s, c, v, h.value, u);
      }
    }
  }

  /** VDC c has the node, and no disk of the name, or one that is not there and finds no slot. */
  ghost predicate NoPlace(cfg: Config, s: State, c: string, node: string, vol: string) {
    && c in cfg.vdcs && FindVm(s, c, node).Some?
    && var v := FindVm(s, c, node).value;
       (DisksNamed(s, c, vol) == {}
        || (exists h :: h in DisksNamed(s, c, vol) && !AttachedHere(s, v, h)
                        && FreeUnits(s.vms[v].settings, cfg.bus) == {} && Taken(s.vms[v].settings, cfg.bus, 0)))
  }

  /** VDC c has the node and a disk of the name that is there or finds a slot. */
  ghost predicate HasPlace(cfg: Config, s: State, c: string, node: string, vol: string) {
    && c in cfg.vdcs && FindVm(s, c, node).Some?
    && var v := FindVm(s, c, node).value;
       exists h :: h in DisksNamed(s, c, vol)
                   && (AttachedHere(s, v, h) || FreeUnits(s.vms[v].settings, cfg.bus) != {}
                       || !Taken(s.vms[v].settings, cfg.bus, 0))
  }

  /** The disk is on that node of its VDC, and the context holds its unit and nothing else. */
  ghost predicate PublishedOn(cfg: Config, s': State, node: string, vol: string, context: map<string, string>) {
    exists h :: h in s'.disks && s'.disks[h].vdc in cfg.vdcs && s'.disks[h].name == vol
                && PlaceOf(s', h).Some?
                && s'.disks[h].attached == Some(VmRef(PlaceOf(s', h).value.vm, node))
                && context == map["diskUnitNum" := Itoa(PlaceOf(s', h).value.unit)]
  }

  /** With no failed call: Internal only where some VDC with the node has no place for the disk, success only where some
      VDC has one, so exactly so where one VDC has the node. */
  lemma PublishUndisturbed(cfg: Config, s: State, log: seq<Event>, req: PublishRequest,
                           done: Result<DiskAttachParams, Error>,
                           s': State, log': seq<Event>, r: Result<map<string, string>, Code>)
    requires Inv(cfg, s) && PublishRel(cfg, s, log, req, done, true, s', log', r) && Proceeds(log, req)
    ensures r == Err(Internal) ==> exists c :: NoPlace(cfg, s, c, req.nodeId, req.volumeId)
    ensures r.Ok? ==> (exists c :: HasPlace(cfg, s, c, req.nodeId, req.volumeId))
                      && PublishedOn(cfg, s', req.nodeId, req.volumeId, r.value)
    ensures r != Err(FailedPrecondition)
  {
    CalmNotWrong(cfg, s, req.nodeId, req.volumeId, s', done);
    if c, u :| AttachVia(cfg, s, c, u, req.nodeId, req.volumeId, s', done) {
      ViaPlace(cfg, s, c, u, req.nodeId, req.volumeId, s', done);
    }
    if done.Ok? {
      var c, v, h := AttachPlaces(cfg, s, req.nodeId, req.volumeId, s', done, true);
      assert UNIT_KEY == "diskUnitNum";
    }
  }

  lemma ViaPlace(cfg: Config, s: State, c: string, u: int, node: string, vol: string,
                 s': State, done: Result<DiskAttachParams, Error>)
    requires Inv(cfg, s) && AttachVia(cfg, s, c, u, node, vol, s', done)
    ensures done.Err? <==> NoPlace(cfg, s, c, node, vol)
    ensures done.Ok? <==> HasPlace(cfg, s, c, node, vol)
  {
    var v, h := AttachCases(cfg, s, c, u, node, vol, s', done);
    if h.Some? {
      LoneDiskIs(cfg, s, h.value);
      AttachEffect(cfg, s, c, v, h.value, u);
      assert DisksNamed(s, c, vol) == {h.value};
    }
  }

  /** A VDC with the node has a place for the disk, or it has none. */
  lemma PlaceOrNot(cfg: Config, s: State, c: string, node: string, vol: string)
    requires Inv(cfg, s) && c in cfg.vdcs && FindVm(s, c, node).Some?
    ensures NoPlace(cfg, s, c, node, vol) <==> !HasPlace(cfg, s, c, node, vol)
  {
    forall h | h in DisksNamed(s, c, vol)
      ensures DisksNamed(s, c, vol) == {h}
    {
      LoneDiskIs(cfg, s, h);
    }
  }

  // ---------- Expanding ----------

  /** What is answered before the resize. */
  lemma ExpandRefusals(cfg: Config, s: State, log: seq<Event>, req: ExpandRequest, run: ExpandRun,
                       s': State, log': seq<Event>, r: Result<Expanded, Code>)
    requires ExpandRel(cfg, s, log, req, run, s', log', r)
    ensures r == Err(InvalidArgument) <==> req.range.Some? && req.volumeId == ""
    ensures r == Err(OutOfRange) <==>
            req.range.Some? && req.volumeId != "" && run.listed.Some? && ExtractStorage(req.range).Err?
    ensures r == Err(Raw(CloudFault)) <==> req.range.Some? && req.volumeId != "" && run.listed.None?
    ensures r.Err? && r.error != Internal ==> s' == s && log' == log
  {
  }

  /** The node must expand its file system after every expand but one that resized a block volume. */
  lemma NodeExpands(cfg: Config, s: State, log: seq<Event>, req: ExpandRequest, run: ExpandRun,
                    s': State, log': seq<Event>, r: Result<Expanded, Code>)
    requires ExpandRel(cfg, s, log, req, run, s', log', r) && r.Ok?
    ensures req.capability.None? || req.capability.value.access.Mount? || req.capability.value.access.Unset? ==>
              r.value.nodeExpansionRequired
    ensures req.capability.Some? && req.capability.value.access.Block? ==>
              (r.value.nodeExpansionRequired <==> log' == log)
  {
  }

  /** The volume's disk has the bytes asked for: it is left alone and its own size is the answer. */
  ghost predicate WasEnough(s: State, log: seq<Event>, to: int, h: Href, s': State, log': seq<Event>, bytes: int)
    requires h in s.disks
  {
    to <= s.disks[h].sizeMb * MIB == bytes && s' == s && log' == log
  }

  /** A detached disk of fewer bytes is given the whole mebibytes of the request, and the request is the answer. */
  ghost predicate WasResized(s: State, log: seq<Event>, vol: string, to: int, h: Href,
                             s': State, log': seq<Event>, bytes: int)
    requires h in s.disks
  {
    && s.disks[h].sizeMb * MIB < to == bytes && s.disks[h].attached.None?
    && s'.disks.Keys == s.disks.Keys && s'.disks[h] == Disk(vol, s.disks[h].vdc, s'.disks[h].sizeMb, None)
    && s'.disks[h].sizeMb * MIB <= to < (s'.disks[h].sizeMb + 1) * MIB
    && (forall g :: g in s.disks && g != h ==> s'.disks[g] == s.disks[g])
    && log' == log + [Resized(vol)]
  }

  /** Every success of an expand. */
  lemma ExpandSucceeds(cfg: Config, s: State, log: seq<Event>, req: ExpandRequest, run: ExpandRun,
                       s': State, log': seq<Event>, r: Result<Expanded, Code>)
    returns (h: Href, to: int)
    requires Inv(cfg, s) && ExpandRel(cfg, s, log, req, run, s', log', r) && r.Ok?
    ensures Candidate(cfg, s, req.volumeId, h) && Best(req.range, to)
    ensures || WasEnough(s, log, to, h, s', log', r.value.capacityBytes)
            || WasResized(s, log, req.volumeId, to, h, s', log', r.value.capacityBytes)
  {
    h := AfterExpand(cfg, s, log, req, run, s', log', r);
    var size := ExtractStorage(req.range).value;
    to := size.Bytes();
    GrantIsBest(req.range);
    FromMbExact(s.disks[h].sizeMb);
    MbInRange(size);
  }

  /** Internal: a disk of the name is too small and is attached, which locks the volume, or a call failed in the resize.
      The cloud is as it was. */
  lemma ExpandInternal(cfg: Config, s: State, log: seq<Event>, req: ExpandRequest, run: ExpandRun,
                       s': State, log': seq<Event>, r: Result<Expanded, Code>)
    requires Inv(cfg, s) && ExpandRel(cfg, s, log, req, run, s', log', r) && r == Err(Internal)
    ensures s' == s
    ensures run.calm ==>
              && log' == log + [ExpandAttached(req.volumeId)]
              && exists h, to: int :: Candidate(cfg, s, req.volumeId, h) && Best(req.range, to)
                                      && s.disks[h].sizeMb * MIB < to && s.disks[h].attached.Some?
    ensures !run.calm ==> log' == log
  {
    if run.calm {
      var h := ExpandPicks(cfg, s, log, req, run, s', log', r);
      GrantIsBest(req.range);
      FromMbExact(s.disks[h.value].sizeMb);
      var to: int := ExtractStorage(req.range).value.Bytes();
      assert Candidate(cfg, s, req.volumeId, h.value) && Best(req.range, to);
    }
  }
}
