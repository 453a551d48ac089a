/** The handlers as they really run: every visit to the cloud and every touch of the lock is one act, and the acts of
    different requests interleave in any way. */
module Interleaving {
  import opened Wrappers
  import opened Storage
  import opened CloudModel
  import opened Lifecycle
  import opened Runs
  import opened Locker
  import opened Csi
  import opened Controller
  import opened Sizes
  import opened Samples

  /** Where a request stands between two acts. */
  datatype Pending =
    | Listed(vol: string, vdc: string, to: StorageSize)  // the list is read, the resize is to come
    | Stuck(vol: string)                                 // the resize found the disk attached
    | Grown(vol: string)                                 // the resize is done
    | Unlocked(vol: string, node: string)                // a publish found no lock

  datatype Ctl = Ctl(cloud: State, locked: set<string>, log: seq<Event>, pending: map<nat, Pending>)

  datatype Act =
    | ExpandList(p: nat, vol: string, range: CapacityRange, vols: seq<VolumeWithCap>, hrefs: seq<Href>)
    | ExpandResize(p: nat, done: Result<(), Error>, calm: bool)
    | ExpandLock(p: nat)
    | PublishCheck(p: nat, vol: string, node: string)
    | PublishAttach(p: nat, params: Result<DiskAttachParams, Error>, calm: bool)
    | Whole(l: Label)  // create, delete, unpublish: one visit each

  function After(c: Ctl, e: Event): Ctl {
    c.(locked := Apply(c.locked, e), log := c.log + [e])
  }

  function AfterResize(c: Ctl, p: nat, vol: string, done: Result<(), Error>): map<nat, Pending> {
    match done
    case Ok(_) => c.pending[p := Grown(vol)]
    case Err(e) => if e == DiskAttachedToVm then c.pending[p := Stuck(vol)] else c.pending - {p}
  }

  ghost predicate Next(cfg: Config, c: Ctl, a: Act, c': Ctl) {
    match a
    case ExpandList(p, vol, range, vols, hrefs) =>
      && p !in c.pending && Lists(cfg, c.cloud, vols, hrefs)
      && c' == (match Decide(vols, vol, range)
                case Grow(vdc, to) => c.(pending := c.pending[p := Listed(vol, vdc, to)])
                case _ => c)
    case ExpandResize(p, done, calm) =>
      && p in c.pending && c.pending[p].Listed?
      && ResizeRel(cfg, c.cloud, c.pending[p].vdc, c.pending[p].vol, c.pending[p].to, c'.cloud, done, calm)
      && c' == c.(cloud := c'.cloud, pending := AfterResize(c, p, c.pending[p].vol, done))
    case ExpandLock(p) =>
      && p in c.pending && (c.pending[p].Stuck? || c.pending[p].Grown?)
      && c' == After(c, if c.pending[p].Stuck? then ExpandAttached(c.pending[p].vol) else Resized(c.pending[p].vol))
               .(pending := c.pending - {p})
    case PublishCheck(p, vol, node) =>
      && p !in c.pending
      && c' == if vol in c.locked then After(c, PublishRejected(vol))
               else After(c, PublishPassed(vol)).(pending := c.pending[p := Unlocked(vol, node)])
    case PublishAttach(p, params, calm) =>
      && p in c.pending && c.pending[p].Unlocked?
      && AttachRel(cfg, c.cloud, c.pending[p].node, c.pending[p].vol, c'.cloud, params, calm)
      && c' == c.(cloud := c'.cloud, pending := c.pending - {p})
    case Whole(l) =>
      && (l.Create? || l.Delete? || l.Detach?)
      && Step(cfg, c.cloud, l, c'.cloud)
      && c' == c.(cloud := c'.cloud)
  }

  /** The visit to the cloud an act makes, if it can change anything. */
  ghost function Visit(c: Ctl, a: Act): Option<Label> {
    match a
    case ExpandResize(p, done, calm) =>
      if p in c.pending && c.pending[p].Listed?
      then Some(Resize(c.pending[p].vdc, c.pending[p].vol, c.pending[p].to, done, calm)) else None
    case PublishAttach(p, params, calm) =>
      if p in c.pending && c.pending[p].Unlocked?
      then Some(Attach(c.pending[p].node, c.pending[p].vol, params, calm)) else None
    case Whole(l) => Some(l)
    case _ => None
  }

  lemma ActIsStep(cfg: Config, c: Ctl, a: Act, c': Ctl)
    requires Next(cfg, c, a, c')
    ensures Visit(c, a).None? ==> c'.cloud == c.cloud
    ensures Visit(c, a).Some? ==> Step(cfg, c.cloud, Visit(c, a).value, c'.cloud)
  {
  }

  // ---------- Every interleaving ----------

  ghost predicate LockOk(c: Ctl) {
    Legal(c.log) && c.locked == LockedAfter(c.log)
  }

  /** Whatever the interleaving: the cloud keeps its invariant, the lock keeps its law, and no act changes the size of
      an attached disk. */
  lemma ActSafe(cfg: Config, c: Ctl, a: Act, c': Ctl)
    requires Inv(cfg, c.cloud) && LockOk(c) && Next(cfg, c, a, c')
    ensures Inv(cfg, c'.cloud) && LockOk(c')
    ensures forall g :: g in c.cloud.disks && g in c'.cloud.disks && c.cloud.disks[g].attached.Some? ==>
                          c'.cloud.disks[g].sizeMb == c.cloud.disks[g].sizeMb
  {
    ActIsStep(cfg, c, a, c');
    match a {
      case ExpandLock(p) =>
        LegalOneMore(c.log, if c.pending[p].Stuck? then ExpandAttached(c.pending[p].vol) else Resized(c.pending[p].vol));
      case PublishCheck(p, vol, node) =>
        LegalOneMore(c.log, if vol in c.locked then PublishRejected(vol) else PublishPassed(vol));
      case _ =>
    }
    if Visit(c, a).Some? {
      var l := Visit(c, a).value;
      StepSafe(cfg, c.cloud, l, c'.cloud);
      forall g | g in c.cloud.disks && g in c'.cloud.disks && c.cloud.disks[g].attached.Some?
        ensures c'.cloud.disks[g].sizeMb == c.cloud.disks[g].sizeMb
      {
        StepFrame(cfg, c.cloud, l, c'.cloud, g);
      }
    }
  }

  // ---------- Sizes never shrink ----------

  /** The disk a waiting expand will resize is there and still smaller than asked. */
  ghost predicate Awaits(cfg: Config, s: State, e: Pending) {
    e.Listed? ==>
      && e.vdc in cfg.vdcs && LoneDisk(s, e.vdc, e.vol).Ok? && LoneDisk(s, e.vdc, e.vol).value in s.disks
      && s.disks[LoneDisk(s, e.vdc, e.vol).value].sizeMb * MIB < e.to.Bytes()
  }

  ghost predicate AllAwait(cfg: Config, c: Ctl) {
    forall p :: p in c.pending ==> Awaits(cfg, c.cloud, c.pending[p])
  }

  /** The act does not come between the list and the resize of a waiting expand of the same volume, as the resize of
      another expand or as a delete. */
  ghost predicate Quiet(c: Ctl, a: Act) {
    forall p :: p in c.pending && c.pending[p].Listed? ==>
      && (a.Whole? && a.l.Delete? ==> a.l.name != c.pending[p].vol)
      && (a.ExpandResize? && a.p in c.pending && a.p != p ==> c.pending[a.p].vol != c.pending[p].vol)
  }

  lemma StillAwaits(cfg: Config, s: State, l: Label, s': State, e: Pending)
    requires Inv(cfg, s) && Step(cfg, s, l, s') && Awaits(cfg, s, e)
    requires e.Listed? && l.name == e.vol ==> !l.Delete? && !l.Resize?
    ensures Awaits(cfg, s', e)
  {
    if e.Listed? {
      var h := LoneDisk(s, e.vdc, e.vol).value;
      assert h in DisksNamed(s, e.vdc, e.vol);
      StepSafe(cfg, s, l, s');
      StepFrame(cfg, s, l, s', h);
      LoneDiskIs(cfg, s', h);
    }
  }

  lemma AwaitsKept(cfg: Config, c: Ctl, a: Act, c': Ctl)
    requires Inv(cfg, c.cloud) && AllAwait(cfg, c) && Next(cfg, c, a, c') && Quiet(c, a)
    ensures AllAwait(cfg, c')
  {
    ActIsStep(cfg, c, a, c');
    forall p | p in c'.pending && c'.pending[p].Listed?
      ensures Awaits(cfg, c'.cloud, c'.pending[p])
    {
      if p in c.pending {
        assert c.pending[p] == c'.pending[p];
        if Visit(c, a).Some? {
          StillAwaits(cfg, c.cloud, Visit(c, a).value, c'.cloud, c.pending[p]);
        }
      } else {
        GrowSawDisk(cfg, c.cloud, a.vols, a.hrefs, a.vol, a.range);
      }
    }
  }

  /** While no other expand's resize and no delete of the same volume comes between an expand's two visits, no act
      makes any disk smaller. */
  lemma NeverShrinks(cfg: Config, c: Ctl, a: Act, c': Ctl)
    requires Inv(cfg, c.cloud) && AllAwait(cfg, c) && Next(cfg, c, a, c') && Quiet(c, a)
    ensures AllAwait(cfg, c')
    ensures forall g :: g in c.cloud.disks && g in c'.cloud.disks ==>
                          c.cloud.disks[g].sizeMb <= c'.cloud.disks[g].sizeMb
  {
    AwaitsKept(cfg, c, a, c');
    ActIsStep(cfg, c, a, c');
    if Visit(c, a).Some? {
      var l := Visit(c, a).value;
      forall g | g in c.cloud.disks && g in c'.cloud.disks
        ensures c.cloud.disks[g].sizeMb <= c'.cloud.disks[g].sizeMb
      {
        StepFrame(cfg, c.cloud, l, c'.cloud, g);
        if a.ExpandResize? {
          ResizeGrows(cfg, c.cloud, c.pending[a.p], c'.cloud, a.done, a.calm, g);
        }
      }
    }
  }

  lemma ResizeGrows(cfg: Config, s: State, e: Pending, s': State, done: Result<(), Error>, calm: bool, g: Href)
    requires Inv(cfg, s) && e.Listed? && Awaits(cfg, s, e) && ResizeRel(cfg, s, e.vdc, e.vol, e.to, s', done, calm)
    requires g in s.disks && g in s'.disks
    ensures s.disks[g].sizeMb <= s'.disks[g].sizeMb
  {
    var h := LoneDisk(s, e.vdc, e.vol).value;
    assert SizeOk(s.disks[h]);
    GrowthBound(s.disks[h].sizeMb, e.to);
  }

  /** The only act that makes a disk smaller is a resize that comes to a detached disk grown past its request. */
  lemma ShrinksExactlyWhen(cfg: Config, c: Ctl, a: Act, c': Ctl)
    requires Inv(cfg, c.cloud) && Next(cfg, c, a, c')
    ensures (exists g :: g in c.cloud.disks && g in c'.cloud.disks && c'.cloud.disks[g].sizeMb < c.cloud.disks[g].sizeMb)
            <==>
            && a.ExpandResize? && a.calm && c.pending[a.p].vdc in cfg.vdcs
            && var held := LoneDisk(c.cloud, c.pending[a.p].vdc, c.pending[a.p].vol);
               && held.Ok? && held.value in c.cloud.disks && c.cloud.disks[held.value].attached.None?
               && c.pending[a.p].to.Mb() < c.cloud.disks[held.value].sizeMb
  {
    ActIsStep(cfg, c, a, c');
    if Visit(c, a).Some? && !a.ExpandResize? {
      forall g | g in c.cloud.disks && g in c'.cloud.disks
        ensures c'.cloud.disks[g].sizeMb == c.cloud.disks[g].sizeMb
      {
        StepFrame(cfg, c.cloud, Visit(c, a).value, c'.cloud, g);
      }
    }
    if a.ExpandResize? && a.calm && c.pending[a.p].vdc in cfg.vdcs {
      var held := LoneDisk(c.cloud, c.pending[a.p].vdc, c.pending[a.p].vol);
      if held.Ok? {
        assert held.value in DisksNamed(c.cloud, c.pending[a.p].vdc, c.pending[a.p].vol);
      }
    }
  }

  // ---------- Runs ----------

  ghost predicate Trace(cfg: Config, cs: seq<Ctl>, acts: seq<Act>) {
    && |cs| == |acts| + 1
    && forall i :: 0 <= i < |acts| ==> Next(cfg, cs[i], acts[i], cs[i + 1])
  }

  ghost predicate Start(cfg: Config, c: Ctl) {
    Inv(cfg, c.cloud) && c.locked == {} && c.log == [] && c.pending == map[]
  }

  lemma {:induction false} TraceSafe(cfg: Config, cs: seq<Ctl>, acts: seq<Act>, n: nat)
    requires Trace(cfg, cs, acts) && Start(cfg, cs[0]) && n <= |acts|
    ensures Inv(cfg, cs[n].cloud) && LockOk(cs[n])
  {
    if n > 0 {
      TraceSafe(cfg, cs, acts, n - 1);
      ActSafe(cfg, cs[n - 1], acts[n - 1], cs[n]);
    }
  }

  ghost predicate AsksForBytes(c: Ctl) {
    forall p :: p in c.pending && c.pending[p].Listed? ==> 0 < c.pending[p].to.Bytes()
  }

  /** Every expand that waits for its resize asks for a positive size. */
  lemma {:induction false} TraceAsks(cfg: Config, cs: seq<Ctl>, acts: seq<Act>, n: nat)
    requires Trace(cfg, cs, acts) && Start(cfg, cs[0]) && n <= |acts|
    ensures AsksForBytes(cs[n])
  {
    if n > 0 {
      TraceAsks(cfg, cs, acts, n - 1);
      assert Next(cfg, cs[n - 1], acts[n - 1], cs[n]);
    }
  }

  /** In any trace a successful resize leaves the disk with the requested size to within one mebibyte. */
  lemma ResizeGives(cfg: Config, cs: seq<Ctl>, acts: seq<Act>, n: nat)
    requires Trace(cfg, cs, acts) && Start(cfg, cs[0]) && n < |acts|
    requires acts[n].ExpandResize? && acts[n].done.Ok?
    ensures acts[n].p in cs[n].pending && cs[n].pending[acts[n].p].Listed?
    ensures var e, s' := cs[n].pending[acts[n].p], cs[n + 1].cloud;
            && LoneDisk(s', e.vdc, e.vol).Ok? && LoneDisk(s', e.vdc, e.vol).value in s'.disks
            && Fits(s'.disks[LoneDisk(s', e.vdc, e.vol).value].sizeMb, e.to)
            && s'.disks[LoneDisk(s', e.vdc, e.vol).value].attached.None?
  {
    TraceSafe(cfg, cs, acts, n);
    TraceAsks(cfg, cs, acts, n);
    assert Next(cfg, cs[n], acts[n], cs[n + 1]);
    var e := cs[n].pending[acts[n].p];
    ResizeLeaves(cfg, cs[n].cloud, e, cs[n + 1].cloud, acts[n].done, acts[n].calm);
  }

  lemma ResizeLeaves(cfg: Config, s: State, e: Pending, s': State, done: Result<(), Error>, calm: bool)
    requires Inv(cfg, s) && e.Listed? && 0 < e.to.Bytes() && done.Ok?
    requires ResizeRel(cfg, s, e.vdc, e.vol, e.to, s', done, calm)
    ensures LoneDisk(s', e.vdc, e.vol).Ok? && LoneDisk(s', e.vdc, e.vol).value in s'.disks
    ensures Fits(s'.disks[LoneDisk(s', e.vdc, e.vol).value].sizeMb, e.to)
    ensures s'.disks[LoneDisk(s', e.vdc, e.vol).value].attached.None?
  {
    var h := LoneDisk(s, e.vdc, e.vol).value;
    assert h in DisksNamed(s, e.vdc, e.vol);
    StepSafe(cfg, s, Resize(e.vdc, e.vol, e.to, done, calm), s');
    LoneDiskIs(cfg, s', h);
    MbOfBytes(e.to);
  }

  /** Over any trace, publishes of a volume rejected by the lock never outnumber the expands that found it attached. */
  lemma TraceRejections(cfg: Config, cs: seq<Ctl>, acts: seq<Act>, n: nat, vol: string)
    requires Trace(cfg, cs, acts) && Start(cfg, cs[0]) && n <= |acts|
    ensures Count(cs[n].log, PublishRejected(vol)) <= Count(cs[n].log, ExpandAttached(vol))
    ensures vol in cs[n].locked <==> exists i :: LastAbout(cs[n].log, vol, i) && cs[n].log[i].ExpandAttached?
  {
    TraceSafe(cfg, cs, acts, n);
    RejectionsBounded(cs[n].log, vol);
    LockedIffLastSet(cs[n].log, vol);
  }

  /** Over any quiet trace no disk that survives it gets smaller. */
  lemma {:induction false} TraceNeverShrinks(cfg: Config, cs: seq<Ctl>, acts: seq<Act>, n: nat, g: Href)
    requires Trace(cfg, cs, acts) && Start(cfg, cs[0]) && n <= |acts|
    requires forall i :: 0 <= i < |acts| ==> Quiet(cs[i], acts[i])
    ensures AllAwait(cfg, cs[n])
    ensures g in cs[0].cloud.disks ==> g in cs[n].cloud.issued
    ensures g in cs[0].cloud.disks && g in cs[n].cloud.disks ==>
              cs[0].cloud.disks[g].sizeMb <= cs[n].cloud.disks[g].sizeMb
  {
    if n > 0 {
      TraceNeverShrinks(cfg, cs, acts, n - 1, g);
      TraceSafe(cfg, cs, acts, n - 1);
      var c, a, c' := cs[n - 1], acts[n - 1], cs[n];
      NeverShrinks(cfg, c, a, c');
      ActIsStep(cfg, c, a, c');
      if Visit(c, a).Some? {
        StepSafe(cfg, c.cloud, Visit(c, a).value, c'.cloud);
        if g in c.cloud.issued && g !in c.cloud.disks {
          NeverReissued(cfg, c.cloud, Visit(c, a).value, c'.cloud, g);
        }
      }
    }
  }

  /** Two expands of one volume, to 16 and to 8 MiB, that both read the list before either resizes: the second
      resize takes away what the first gave. */
  lemma ExpandsRace() returns (cfg: Config, cs: seq<Ctl>, acts: seq<Act>)
    ensures |acts| == 4 && Trace(cfg, cs, acts) && Start(cfg, cs[0]) && !Quiet(cs[2], acts[2])
    ensures 0 in cs[3].cloud.disks && 0 in cs[4].cloud.disks
    ensures cs[4].cloud.disks[0].sizeMb == 8 && cs[3].cloud.disks[0].sizeMb == 16
  {
    cfg := ONE_VDC;
    var range8, range16 := CapacityRange(8 * MIB, 0), CapacityRange(16 * MIB, 0);
    var c0 := Ctl(OneDisk(4), {}, [], map[]);
    var c1 := RaceList(c0, 0, 8);
    var c2 := RaceList(c1, 1, 16);
    var c3 := RaceResize(c2, 1, 4, 16);
    var c4 := RaceResize(c3, 0, 16, 8);
    cs := [c0, c1, c2, c3, c4];
    var vols := [Listing(OneDisk(4).disks[0])];
    acts := [ExpandList(0, "d", range8, vols, [0]), ExpandList(1, "d", range16, vols, [0]),
             ExpandResize(1, Ok(()), true), ExpandResize(0, Ok(()), true)];
    RaceStarts();
    FourActs(cfg, c0, acts[0], c1, acts[1], c2, acts[2], c3, acts[3], c4);
    assert 0 in c2.pending && c2.pending[0].Listed?;
  }

  lemma FourActs(cfg: Config, c0: Ctl, a0: Act, c1: Ctl, a1: Act, c2: Ctl, a2: Act, c3: Ctl, a3: Act, c4: Ctl)
    requires Next(cfg, c0, a0, c1) && Next(cfg, c1, a1, c2) && Next(cfg, c2, a2, c3) && Next(cfg, c3, a3, c4)
    ensures Trace(cfg, [c0, c1, c2, c3, c4], [a0, a1, a2, a3])
  {
  }

  lemma RaceStarts()
    ensures Start(ONE_VDC, Ctl(OneDisk(4), {}, [], map[]))
  {
    OneDiskInv(4);
  }

  lemma RaceList(c: Ctl, p: nat, mb: int64) returns (c': Ctl)
    requires c.cloud == OneDisk(4) && p !in c.pending && 4 < mb < 1024
    ensures Next(ONE_VDC, c, ExpandList(p, "d", CapacityRange(mb * MIB, 0), [Listing(OneDisk(4).disks[0])], [0]), c')
    ensures c' == c.(pending := c.pending[p := Listed("d", "z", StorageSize(mb * MIB))])
  {
    FromMbExact(4);
    var vols := [Listing(OneDisk(4).disks[0])];
    assert LastNamed(vols, "d") == Some(vols[0]);
    assert Lists(ONE_VDC, OneDisk(4), vols, [0]);
    c' := c.(pending := c.pending[p := Listed("d", "z", StorageSize(mb * MIB))]);
  }

  lemma RaceResize(c: Ctl, p: nat, from: int64, to: int64) returns (c': Ctl)
    requires c.cloud == OneDisk(from) && 0 < to < 1024
    requires p in c.pending && c.pending[p] == Listed("d", "z", StorageSize(to * MIB))
    ensures Next(ONE_VDC, c, ExpandResize(p, Ok(()), true), c')
    ensures c' == c.(cloud := OneDisk(to), pending := c.pending[p := Grown("d")])
  {
    WholeMb(StorageSize(to * MIB));
    assert StorageSize(to * MIB).Mb() == to;
    OneDiskResized(from, to);
    OneDiskFound(from);
    c' := c.(cloud := OneDisk(to), pending := c.pending[p := Grown("d")]);
  }

  lemma OneDiskResized(a: int64, b: int64)
    ensures TaskUpdate(OneDisk(a), 0, b) == Some(OneDisk(b))
  {
    assert OneDisk(a).disks[0 := OneDisk(a).disks[0].(sizeMb := b)] == OneDisk(b).disks;
  }

  /** The publish handler, called with nothing in between, is a trace of these acts. */
  lemma PublishIsTrace(cfg: Config, c: Ctl, req: PublishRequest, done: Result<DiskAttachParams, Error>, calm: bool,
                       s': State, log': seq<Event>, r: Result<map<string, string>, Code>, p: nat)
    returns (cs: seq<Ctl>, acts: seq<Act>)
    requires c.locked == LockedAfter(c.log) && p !in c.pending
    requires PublishRel(cfg, c.cloud, c.log, req, done, calm, s', log', r)
    ensures Trace(cfg, cs, acts) && cs[0] == c
    ensures cs[|acts|].cloud == s' && cs[|acts|].log == log' && cs[|acts|].pending == c.pending
    ensures cs[|acts|].locked == LockedAfter(log')
  {
    var vol := req.volumeId;
    if !ValidPublish(req) || req.readonly {
      cs, acts := [c], [];
    } else if vol in c.locked {
      LockedOneMore(c.log, PublishRejected(vol));
      cs, acts := [c, After(c, PublishRejected(vol))], [PublishCheck(p, vol, req.nodeId)];
    } else {
      LockedOneMore(c.log, PublishPassed(vol));
      var c1, c2 := PublishNext(cfg, c, vol, req.nodeId, done, calm, s', p);
      cs, acts := [c, c1, c2], [PublishCheck(p, vol, req.nodeId), PublishAttach(p, done, calm)];
    }
  }

  lemma PublishNext(cfg: Config, c: Ctl, vol: string, node: string, done: Result<DiskAttachParams, Error>, calm: bool,
                    s': State, p: nat)
    returns (c1: Ctl, c2: Ctl)
    requires p !in c.pending && vol !in c.locked && AttachRel(cfg, c.cloud, node, vol, s', done, calm)
    ensures Next(cfg, c, PublishCheck(p, vol, node), c1) && Next(cfg, c1, PublishAttach(p, done, calm), c2)
    ensures c2 == After(c, PublishPassed(vol)).(cloud := s')
  {
    c1 := After(c, PublishPassed(vol)).(pending := c.pending[p := Unlocked(vol, node)]);
    c2 := c1.(cloud := s', pending := c1.pending - {p});
    assert c2.pending == c.pending;
  }

  /** The expand handler, called with nothing in between, is a trace of these acts. */
  lemma ExpandIsTrace(cfg: Config, c: Ctl, req: ExpandRequest, run: ExpandRun, s': State, log': seq<Event>,
                      r: Result<Expanded, Code>, p: nat)
    returns (cs: seq<Ctl>, acts: seq<Act>)
    requires Inv(cfg, c.cloud) && LockOk(c) && p !in c.pending
    requires ExpandRel(cfg, c.cloud, c.log, req, run, s', log', r)
    ensures Trace(cfg, cs, acts) && cs[0] == c
    ensures cs[|acts|].cloud == s' && cs[|acts|].log == log' && cs[|acts|].pending == c.pending
  {
    if req.range.None? || req.volumeId == "" || run.listed.None? {
      cs, acts := [c], [];
    } else {
      var vol, vols := req.volumeId, run.listed.value;
      var list := ExpandList(p, vol, req.range.value, vols, run.hrefs);
      match Decide(vols, vol, req.range.value)
      case Refuse(_) =>
        cs, acts := [c, c], [list];
      case Skip(_) =>
        cs, acts := [c, c], [list];
      case Grow(_, _) =>
        cs, acts := GrowIsTrace(cfg, c, req, run, s', log', r, p);
    }
  }

  lemma GrowIsTrace(cfg: Config, c: Ctl, req: ExpandRequest, run: ExpandRun, s': State, log': seq<Event>,
                    r: Result<Expanded, Code>, p: nat)
    returns (cs: seq<Ctl>, acts: seq<Act>)
    requires p !in c.pending && req.range.Some? && req.volumeId != "" && run.listed.Some?
    requires ExpandRel(cfg, c.cloud, c.log, req, run, s', log', r)
    requires Decide(run.listed.value, req.volumeId, req.range.value).Grow?
    ensures Trace(cfg, cs, acts) && cs[0] == c
    ensures cs[|acts|].cloud == s' && cs[|acts|].log == log' && cs[|acts|].pending == c.pending
  {
    var list := ExpandList(p, req.volumeId, req.range.value, run.listed.value, run.hrefs);
    var c1, c2 := GrowNext(cfg, c, req, run, s', log', r, p);
    if p in c2.pending {
      var c3 := UnlockNext(cfg, c2, p);
      cs, acts := [c, c1, c2, c3], [list, ExpandResize(p, run.done, run.calm), ExpandLock(p)];
    } else {
      cs, acts := [c, c1, c2], [list, ExpandResize(p, run.done, run.calm)];
      assert c2.pending == c.pending;
    }
  }

  lemma GrowNext(cfg: Config, c: Ctl, req: ExpandRequest, run: ExpandRun, s': State, log': seq<Event>,
                 r: Result<Expanded, Code>, p: nat)
    returns (c1: Ctl, c2: Ctl)
    requires p !in c.pending && req.range.Some? && req.volumeId != "" && run.listed.Some?
    requires ExpandRel(cfg, c.cloud, c.log, req, run, s', log', r)
    requires Decide(run.listed.value, req.volumeId, req.range.value).Grow?
    ensures Next(cfg, c, ExpandList(p, req.volumeId, req.range.value, run.listed.value, run.hrefs), c1)
    ensures Next(cfg, c1, ExpandResize(p, run.done, run.calm), c2)
    ensures c2.cloud == s' && c2.log == c.log && c2.locked == c.locked
    ensures c2.pending - {p} == c.pending
    ensures p in c2.pending <==> run.done.Ok? || run.done.error == DiskAttachedToVm
    ensures p in c2.pending ==>
              c2.pending[p] == if run.done.Ok? then Grown(req.volumeId) else Stuck(req.volumeId)
  {
    var d := Decide(run.listed.value, req.volumeId, req.range.value);
    c1 := c.(pending := c.pending[p := Listed(req.volumeId, d.vdc, d.to)]);
    c2 := c1.(cloud := s', pending := AfterResize(c1, p, req.volumeId, run.done));
  }

  lemma UnlockNext(cfg: Config, c: Ctl, p: nat) returns (c': Ctl)
    requires p in c.pending && (c.pending[p].Stuck? || c.pending[p].Grown?)
    ensures Next(cfg, c, ExpandLock(p), c')
    ensures c'.cloud == c.cloud && c'.pending == c.pending - {p}
    ensures c'.log == c.log + [if c.pending[p].Stuck? then ExpandAttached(c.pending[p].vol) else Resized(c.pending[p].vol)]
  {
    var e := if c.pending[p].Stuck? then ExpandAttached(c.pending[p].vol) else Resized(c.pending[p].vol);
    c' := After(c, e).(pending := c.pending - {p});
  }
}
