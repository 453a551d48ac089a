/** What an expand undisturbed by others comes to: which disk it picks, when the order of the list shows, and what
    repeating it does. */
module Expanding {
  import opened Wrappers
  import opened Storage
  import opened CloudModel
  import opened Lifecycle
  import opened Invariant
  import opened Locker
  import opened Csi
  import opened Controller
  import opened Sizes

  /** A disk of the driver's VDCs with the name of the volume. */
  ghost predicate Candidate(cfg: Config, s: State, vol: string, h: Href) {
    h in s.disks && s.disks[h].vdc in cfg.vdcs && s.disks[h].name == vol
  }

  ghost predicate Sole(cfg: Config, s: State, vol: string, h: Href) {
    Candidate(cfg, s, vol, h) && forall g :: Candidate(cfg, s, vol, g) ==> g == h
  }

  /** A request that gets past its checks once the list is read. */
  predicate Granted(req: ExpandRequest) {
    req.range.Some? && req.volumeId != "" && ExtractStorage(req.range).Ok?
  }

  /** The list could be read, and no call failed in the resize, if there was one. */
  predicate Undisturbed(req: ExpandRequest, run: ExpandRun) {
    req.range.Some? && req.volumeId != "" ==>
      run.listed.Some? && (Decide(run.listed.value, req.volumeId, req.range.value).Grow? ==> run.calm)
  }

  datatype Outcome = Outcome(s: State, log: seq<Event>, r: Result<Expanded, Code>)

  /** What the expand comes to when h is the last disk of its name in the list. */
  function ExpandOn(s: State, log: seq<Event>, req: ExpandRequest, to: StorageSize, h: Href): Outcome
    requires h in s.disks
  {
    var held := FromMb(s.disks[h].sizeMb).Bytes();
    if to.Bytes() <= held then Outcome(s, log, Ok(Expanded(held, true)))
    else if s.disks[h].attached.Some? then Outcome(s, log + [ExpandAttached(req.volumeId)], Err(Internal))
    else Outcome(TaskUpdate(s, h, to.Mb()).value, log + [Resized(req.volumeId)],
                 Ok(Expanded(to.Bytes(), NodeMustExpand(req.capability))))
  }

  // ---------- Which disk ----------

  /** An undisturbed expand that is granted crashes, or comes to what it comes to on some disk of the name. */
  lemma ExpandPicks(cfg: Config, s: State, log: seq<Event>, req: ExpandRequest, run: ExpandRun,
                    s': State, log': seq<Event>, r: Result<Expanded, Code>)
    returns (h: Option<Href>)
    requires Inv(cfg, s) && ExpandRel(cfg, s, log, req, run, s', log', r) && Undisturbed(req, run) && Granted(req)
    ensures h.None? ==> r == Err(Crashed) && s' == s && log' == log
                        && forall g :: !Candidate(cfg, s, req.volumeId, g)
    ensures h.Some? ==> Candidate(cfg, s, req.volumeId, h.value)
                        && Outcome(s', log', r) == ExpandOn(s, log, req, ExtractStorage(req.range).value, h.value)
  {
    var vols, vol := run.listed.value, req.volumeId;
    ListedNames(cfg, s, vols, run.hrefs, vol);
    if LastNamed(vols, vol).None? {
      h := None;
    } else {
      LastNamedIs(vols, vol);
      var i :| LastAt(vols, vol, i) && vols[i] == LastNamed(vols, vol).value;
      h := Some(run.hrefs[i]);
      assert run.hrefs[i] in run.hrefs;
      LoneDiskIs(cfg, s, h.value);
    }
  }

  lemma {:induction false} Enumerated(hs: set<Href>) returns (hrefs: seq<Href>)
    ensures forall h :: h in hrefs <==> h in hs
    ensures forall i, j :: 0 <= i < j < |hrefs| ==> hrefs[i] != hrefs[j]
    decreases |hs|
  {
    if hs == {} {
      hrefs := [];
    } else {
      var h :| h in hs;
      var rest := Enumerated(hs - {h});
      hrefs := rest + [h];
    }
  }

  /** Any disk of the VDCs can come last in the list. */
  lemma ListEnding(cfg: Config, s: State, h: Href) returns (vols: seq<VolumeWithCap>, hrefs: seq<Href>)
    requires h in s.disks && s.disks[h].vdc in cfg.vdcs
    ensures Lists(cfg, s, vols, hrefs) && vols != [] && vols[|vols| - 1] == Listing(s.disks[h])
  {
    var rest := Enumerated((set g | g in s.disks && s.disks[g].vdc in cfg.vdcs) - {h});
    hrefs := rest + [h];
    forall i | 0 <= i < |hrefs|
      ensures hrefs[i] in s.disks
    {
      assert hrefs[i] in hrefs;
    }
    vols := seq(|hrefs|, i requires 0 <= i < |hrefs| && hrefs[i] in s.disks => Listing(s.disks[hrefs[i]]));
  }

  /** And every disk of the name is the one picked for some order of the list. */
  lemma ExpandCanPick(cfg: Config, s: State, log: seq<Event>, req: ExpandRequest, h: Href) returns (run: ExpandRun)
    requires Inv(cfg, s) && Granted(req) && Candidate(cfg, s, req.volumeId, h)
    ensures var o := ExpandOn(s, log, req, ExtractStorage(req.range).value, h);
            Undisturbed(req, run) && ExpandRel(cfg, s, log, req, run, o.s, o.log, o.r)
  {
    var vols, hrefs := ListEnding(cfg, s, h);
    assert LastNamed(vols, req.volumeId) == Some(Listing(s.disks[h]));
    LoneDiskIs(cfg, s, h);
    run := ExpandRun(Some(vols), hrefs, if s.disks[h].attached.Some? then Err(DiskAttachedToVm) else Ok(()), true);
  }

  // ---------- The order of the list ----------

  ghost predicate ExpandOrderFree(cfg: Config, s: State, log: seq<Event>, req: ExpandRequest) {
    forall run1, s1, log1, r1, run2, s2, log2, r2 ::
      && Undisturbed(req, run1) && ExpandRel(cfg, s, log, req, run1, s1, log1, r1)
      && Undisturbed(req, run2) && ExpandRel(cfg, s, log, req, run2, s2, log2, r2) ==>
        s1 == s2 && log1 == log2 && r1 == r2
  }

  /** What a disk is to an expand: big enough with its size, attached, resized to the size it has, or grown. */
  datatype Fate = Enough(mb: int64) | Busy | Same | Grows

  function FateOf(disk: Disk, to: StorageSize): Fate {
    if to.Bytes() <= FromMb(disk.sizeMb).Bytes() then Enough(disk.sizeMb)
    else if disk.attached.Some? then Busy
    else if disk.sizeMb == to.Mb() then Same
    else Grows
  }

  ghost predicate OneFate(cfg: Config, s: State, vol: string, to: StorageSize) {
    forall g, h :: Candidate(cfg, s, vol, g) && Candidate(cfg, s, vol, h) && g != h ==>
                     FateOf(s.disks[g], to) == FateOf(s.disks[h], to) != Grows
  }

  lemma SameOutcome(s: State, log: seq<Event>, req: ExpandRequest, to: StorageSize, g: Href, h: Href)
    requires g in s.disks && h in s.disks && g != h && SizeOk(s.disks[g]) && SizeOk(s.disks[h])
    ensures ExpandOn(s, log, req, to, g) == ExpandOn(s, log, req, to, h) <==>
            FateOf(s.disks[g], to) == FateOf(s.disks[h], to) != Grows
  {
    FromMbExact(s.disks[g].sizeMb);
    FromMbExact(s.disks[h].sizeMb);
    LogShows(s, log, req, to, g);
    LogShows(s, log, req, to, h);
    ResizeShows(s, g, to.Mb());
    ResizeShows(s, h, to.Mb());
  }

  lemma LogShows(s: State, log: seq<Event>, req: ExpandRequest, to: StorageSize, h: Href)
    requires h in s.disks
    ensures FateOf(s.disks[h], to).Enough? <==> ExpandOn(s, log, req, to, h).log == log
  {
  }

  lemma ResizeShows(s: State, h: Href, mb: int64)
    requires h in s.disks
    ensures TaskUpdate(s, h, mb).value.disks[h].sizeMb == mb
    ensures forall g :: g in s.disks && g != h ==> TaskUpdate(s, h, mb).value.disks[g] == s.disks[g]
    ensures TaskUpdate(s, h, mb).value == s <==> s.disks[h].sizeMb == mb
  {
    if s.disks[h].sizeMb == mb {
      assert s.disks[h := s.disks[h]] == s.disks;
    }
  }

  /** An undisturbed expand ends the same way for every order of the list exactly when all disks of the name, should
      there be several, have the same fate and none is grown. */
  lemma ExpandOrder(cfg: Config, s: State, log: seq<Event>, req: ExpandRequest)
    requires Inv(cfg, s)
    ensures ExpandOrderFree(cfg, s, log, req) <==>
            (Granted(req) ==> OneFate(cfg, s, req.volumeId, ExtractStorage(req.range).value))
  {
    if Granted(req) {
      var to, vol := ExtractStorage(req.range).value, req.volumeId;
      forall g, h | Candidate(cfg, s, vol, g) && Candidate(cfg, s, vol, h) && g != h && ExpandOrderFree(cfg, s, log, req)
        ensures FateOf(s.disks[g], to) == FateOf(s.disks[h], to) != Grows
      {
        var run1 := ExpandCanPick(cfg, s, log, req, g);
        var run2 := ExpandCanPick(cfg, s, log, req, h);
        SameOutcome(s, log, req, to, g, h);
      }
    }
    forall run1, s1, log1, r1, run2, s2, log2, r2
      | && Undisturbed(req, run1) && ExpandRel(cfg, s, log, req, run1, s1, log1, r1)
        && Undisturbed(req, run2) && ExpandRel(cfg, s, log, req, run2, s2, log2, r2)
        && (Granted(req) ==> OneFate(cfg, s, req.volumeId, ExtractStorage(req.range).value))
      ensures s1 == s2 && log1 == log2 && r1 == r2
    {
      if Granted(req) {
        var g := ExpandPicks(cfg, s, log, req, run1, s1, log1, r1);
        var h := ExpandPicks(cfg, s, log, req, run2, s2, log2, r2);
        if g.Some? && g != h {
          SameOutcome(s, log, req, ExtractStorage(req.range).value, g.value, h.value);
        }
      }
    }
  }

  // ---------- Expanding again ----------

  ghost predicate Unchanging(cfg: Config, s: State, log: seq<Event>, req: ExpandRequest) {
    forall run, s', log', r :: ExpandRel(cfg, s, log, req, run, s', log', r) ==> s' == s
  }

  /** An expand, with whatever failures and for every order of the list, leaves the cloud as it is exactly when no disk
      of the name would be grown. */
  lemma LeavesAlone(cfg: Config, s: State, log: seq<Event>, req: ExpandRequest)
    requires Inv(cfg, s) && Granted(req)
    ensures Unchanging(cfg, s, log, req) <==>
            forall h :: Candidate(cfg, s, req.volumeId, h) ==>
                          FateOf(s.disks[h], ExtractStorage(req.range).value) != Grows
  {
    var to, vol := ExtractStorage(req.range).value, req.volumeId;
    forall h | Candidate(cfg, s, vol, h) && FateOf(s.disks[h], to).Grows?
      ensures !Unchanging(cfg, s, log, req)
    {
      var run := ExpandCanPick(cfg, s, log, req, h);
      ResizeShows(s, h, to.Mb());
    }
    forall run, s', log', r | ExpandRel(cfg, s, log, req, run, s', log', r)
                              && (forall h :: Candidate(cfg, s, vol, h) ==> FateOf(s.disks[h], to) != Grows)
      ensures s' == s
    {
      if Undisturbed(req, run) {
        var h := ExpandPicks(cfg, s, log, req, run, s', log', r);
        if h.Some? { ResizeShows(s, h.value, to.Mb()); }
      }
    }
  }

  lemma ExpandOnKeeps(cfg: Config, s: State, log: seq<Event>, req: ExpandRequest, to: StorageSize, h: Href)
    requires Inv(cfg, s) && h in s.disks
    ensures var o := ExpandOn(s, log, req, to, h);
            && Inv(cfg, o.s)
            && (o.s == s || o.s.disks == s.disks[h := s.disks[h].(sizeMb := to.Mb())])
            && (o.r.Ok? ==> FateOf(o.s.disks[h], to) != Grows)
  {
    MbInRange(to);
    UpdateKeepsInv(cfg, s, h, to.Mb());
  }

  /** A successful expand saw a disk of the name, and afterwards it would not be grown again. */
  lemma AfterExpand(cfg: Config, s: State, log: seq<Event>, req: ExpandRequest, run: ExpandRun,
                    s': State, log': seq<Event>, r: Result<Expanded, Code>)
    returns (h: Href)
    requires Inv(cfg, s) && ExpandRel(cfg, s, log, req, run, s', log', r) && r.Ok?
    ensures Granted(req) && Candidate(cfg, s, req.volumeId, h) && Inv(cfg, s')
    ensures Outcome(s', log', r) == ExpandOn(s, log, req, ExtractStorage(req.range).value, h)
    ensures forall g :: Candidate(cfg, s', req.volumeId, g) <==> Candidate(cfg, s, req.volumeId, g)
    ensures s' == s || s'.disks == s.disks[h := s.disks[h].(sizeMb := ExtractStorage(req.range).value.Mb())]
    ensures FateOf(s'.disks[h], ExtractStorage(req.range).value) != Grows
  {
    var picked := ExpandPicks(cfg, s, log, req, run, s', log', r);
    h := picked.value;
    ExpandOnKeeps(cfg, s, log, req, ExtractStorage(req.range).value, h);
  }

  /** Repeating a successful expand leaves the cloud as it is, whatever fails in it and for every order of the list,
      exactly when no other disk of the name would be grown. */
  lemma ExpandRepeats(cfg: Config, s: State, log: seq<Event>, req: ExpandRequest, run: ExpandRun,
                      s': State, log': seq<Event>, r: Result<Expanded, Code>)
    returns (h: Href)
    requires Inv(cfg, s) && ExpandRel(cfg, s, log, req, run, s', log', r) && r.Ok?
    ensures Candidate(cfg, s, req.volumeId, h) && ExtractStorage(req.range).Ok?
    ensures Unchanging(cfg, s', log', req) <==>
            forall g :: Candidate(cfg, s, req.volumeId, g) && g != h ==>
                          FateOf(s.disks[g], ExtractStorage(req.range).value) != Grows
  {
    h := AfterExpand(cfg, s, log, req, run, s', log', r);
    LeavesAlone(cfg, s', log', req);
    assert forall g :: g in s.disks && g != h ==> s'.disks[g] == s.disks[g];
  }

  /** Where one VDC holds the name, repeating a successful expand never changes the cloud. After a first expand that
      found the disk big enough it answers the same. After one that resized, it is answered without a resize exactly
      when the request is a whole number of mebibytes, and then asks for node expansion even for a block volume;
      otherwise the same resize is done again and the same answer given. */
  lemma ExpandAgain(cfg: Config, s: State, log: seq<Event>, req: ExpandRequest, h: Href,
                    run1: ExpandRun, s1: State, log1: seq<Event>, r1: Result<Expanded, Code>,
                    run2: ExpandRun, s2: State, log2: seq<Event>, r2: Result<Expanded, Code>)
    requires Inv(cfg, s) && Sole(cfg, s, req.volumeId, h)
    requires ExpandRel(cfg, s, log, req, run1, s1, log1, r1) && r1.Ok?
    requires ExpandRel(cfg, s1, log1, req, run2, s2, log2, r2)
    ensures ExtractStorage(req.range).Ok? && s2 == s1
    ensures var to := ExtractStorage(req.range).value;
            Undisturbed(req, run2) ==>
              if log1 == log then r2 == r1 && log2 == log1
              else if to.Bytes() % MIB == 0 then r2 == Ok(Expanded(to.Bytes(), true)) && log2 == log1
              else r2 == r1 && log2 == log1 + [Resized(req.volumeId)]
  {
    var g := ExpandRepeats(cfg, s, log, req, run1, s1, log1, r1);
    var k := AfterExpand(cfg, s, log, req, run1, s1, log1, r1);
    assert Unchanging(cfg, s1, log1, req);
    if Undisturbed(req, run2) {
      var p := ExpandPicks(cfg, s1, log1, req, run2, s2, log2, r2);
      ExpandOnAgain(s, log, req, ExtractStorage(req.range).value, h);
    }
  }

  lemma ExpandOnAgain(s: State, log: seq<Event>, req: ExpandRequest, to: StorageSize, h: Href)
    requires h in s.disks && ExpandOn(s, log, req, to, h).r.Ok? && 0 < to.Bytes()
    ensures var o := ExpandOn(s, log, req, to, h);
            var again := ExpandOn(o.s, o.log, req, to, h);
            if o.log == log then again == o
            else if to.Bytes() % MIB == 0 then again.r == Ok(Expanded(to.Bytes(), true)) && again.log == o.log
            else again.r == o.r && again.log == o.log + [Resized(req.volumeId)]
  {
    ResizedAgain(to);
    LogShows(s, log, req, to, h);
  }

  /** A disk resized to a size holds all its bytes exactly when the size is whole mebibytes. */
  lemma ResizedAgain(to: StorageSize)
    ensures 0 < to.Bytes() ==> (to.Bytes() <= FromMb(to.Mb()).Bytes() <==> to.Bytes() % MIB == 0)
    ensures 0 < to.Bytes() && to.Bytes() % MIB == 0 ==> FromMb(to.Mb()).Bytes() == to.Bytes()
  {
    MbOfBytes(to);
    if 0 < to.Bytes() {
      WholeMb(to);
    }
  }

  // ---------- A disk that has the request's size ----------

  /** The disk of a volume that one VDC holds is the one the list ends with. */
  lemma OnlyListed(cfg: Config, s: State, vols: seq<VolumeWithCap>, hrefs: seq<Href>, vol: string, h: Href)
    requires Inv(cfg, s) && Lists(cfg, s, vols, hrefs) && Sole(cfg, s, vol, h)
    ensures LastNamed(vols, vol) == Some(Listing(s.disks[h]))
  {
    LastNamedIs(vols, vol);
    assert h in hrefs;
    var k :| 0 <= k < |hrefs| && hrefs[k] == h;
    assert vols[k].name == vol;
    var i :| LastAt(vols, vol, i) && vols[i] == LastNamed(vols, vol).value;
    assert hrefs[i] in hrefs;
    assert Candidate(cfg, s, vol, hrefs[i]);
  }

  /** An expand that meets a disk with the whole mebibytes of the request already: it is skipped exactly when the
      request is whole mebibytes; otherwise the resize asked for changes nothing, and is refused if the disk is
      attached by then. */
  lemma ExpandMet(cfg: Config, s: State, vol: string, h: Href, range: CapacityRange, to: StorageSize,
                  vols: seq<VolumeWithCap>, hrefs: seq<Href>)
    requires Inv(cfg, s) && Lists(cfg, s, vols, hrefs)
    requires ExtractStorage(Some(range)) == Ok(to)
    requires Sole(cfg, s, vol, h) && s.disks[h].sizeMb == to.Mb()
    ensures Decide(vols, vol, range) ==
            if to.Bytes() % MIB == 0 then Skip(to.Bytes()) else Grow(s.disks[h].vdc, to)
    ensures forall s', r, calm :: ResizeRel(cfg, s, s.disks[h].vdc, vol, to, s', r, calm) ==>
              && s' == s
              && (calm ==> r == if s.disks[h].attached.Some? then Err(DiskAttachedToVm) else Ok(()))
  {
    OnlyListed(cfg, s, vols, hrefs, vol, h);
    LoneDiskIs(cfg, s, h);
    ResizedAgain(to);
    assert s.disks[h].(sizeMb := to.Mb()) == s.disks[h];
    assert s.disks[h := s.disks[h]] == s.disks;
  }
}
