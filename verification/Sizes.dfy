/** Sizes: what a created volume gets, what an expand finds in the list, and how a resize follows the request. */
module Sizes {
  import opened Wrappers
  import opened Storage
  import opened CloudModel
  import opened Lifecycle
  import opened Invariant
  import opened Locker
  import opened Csi
  import opened Controller

  // ---------- Creating ----------

  /** The bytes reported for a volume of this many mebibytes are less than one mebibyte too many. */
  predicate Fits(mb: int64, size: StorageSize) {
    0 <= size.Bytes() - FromMb(mb).Bytes() < MIB
  }

  /** After a create that reported success the volume exists exactly when submitting the create did not fail. The
      capacity reported for it is the one the range should be granted, and a disk that exists has it to within one mebibyte
      exactly when the disk is new or already had that many whole mebibytes. */
  lemma CreatedCapacity(cfg: Config, s: State, req: CreateRequest, s': State, lost: bool, calm: bool)
    requires Inv(cfg, s) && ValidCreate(req) && ExtractStorage(req.range).Ok?
    requires CreateRel(cfg, s, req.parameters[VDC_PARAM], req.name, ExtractStorage(req.range).value, s', Ok(()), lost, calm)
    ensures Inv(cfg, s')
    ensures var vdc, size := req.parameters[VDC_PARAM], ExtractStorage(req.range).value;
            && Best(req.range, size.Bytes()) && 0 < size.Bytes() <= 4_398_046_511_104
            && (LoneDisk(s', vdc, req.name).Ok? <==> !lost)
            && (lost ==> s' == s)
            && (!lost ==>
                  var h := LoneDisk(s', vdc, req.name).value;
                  && h in s'.disks
                  && (Fits(s'.disks[h].sizeMb, size) <==> h !in s.disks || s.disks[h].sizeMb == size.Mb())
                  && (h in s.disks ==> s' == s)
                  && (h !in s.disks ==> s'.disks[h] == Disk(req.name, vdc, size.Bytes() / MIB, None)))
  {
    var vdc, size := req.parameters[VDC_PARAM], ExtractStorage(req.range).value;
    MbOfBytes(size);
    GrantIsBest(req.range);
    if DisksNamed(s, vdc, req.name) == {} {
      if !lost {
        var h: Href :| h !in s.issued && h !in s.disks && s' == TaskCreate(s, h, vdc, req.name, size.Mb());
        CreateKeepsInv(cfg, s, h, vdc, req.name, size.Mb());
        LoneDiskIs(cfg, s', h);
        WholeMb(size);
      }
    } else {
      NeverTwoDisks(cfg, s, vdc, req.name);
      var h := LoneDisk(s, vdc, req.name).value;
      assert h in DisksNamed(s, vdc, req.name);
      FromMbExact(s.disks[h].sizeMb);
      SameWholeMb(s.disks[h].sizeMb, size);
    }
  }

  lemma WholeMb(size: StorageSize)
    requires 0 <= size.b
    ensures size.Mb() == size.b / MIB
  {
  }

  lemma SameWholeMb(mb: int64, size: StorageSize)
    requires 0 <= size.b && -TWO_43 <= mb < TWO_43
    ensures Fits(mb, size) <==> mb == size.Mb()
  {
    FromMbExact(mb);
    MbInRange(size);
  }

  // ---------- Expanding ----------

  /** Entry i is the last of the list with the name. */
  ghost predicate LastAt(vols: seq<VolumeWithCap>, name: string, i: int) {
    0 <= i < |vols| && vols[i].name == name && forall j :: i < j < |vols| ==> vols[j].name != name
  }

  lemma {:induction false} LastNamedIs(vols: seq<VolumeWithCap>, name: string)
    ensures LastNamed(vols, name).Some? ==> exists i :: LastAt(vols, name, i) && vols[i] == LastNamed(vols, name).value
    ensures LastNamed(vols, name).None? ==> forall i :: 0 <= i < |vols| ==> vols[i].name != name
  {
    if vols != [] {
      var n := |vols| - 1;
      LastNamedIs(vols[..n], name);
      if vols[n].name == name {
        assert LastAt(vols, name, n);
      } else if LastNamed(vols, name).Some? {
        var i :| LastAt(vols[..n], name, i) && vols[..n][i] == LastNamed(vols[..n], name).value;
        assert forall j :: i < j < n ==> vols[..n][j] == vols[j];
        assert LastAt(vols, name, i);
      }
    }
  }

  lemma ListedNames(cfg: Config, s: State, vols: seq<VolumeWithCap>, hrefs: seq<Href>, name: string)
    requires Lists(cfg, s, vols, hrefs)
    ensures LastNamed(vols, name).Some? <==>
            exists h :: h in s.disks && s.disks[h].vdc in cfg.vdcs && s.disks[h].name == name
  {
    LastNamedIs(vols, name);
    if LastNamed(vols, name).Some? {
      var i :| LastAt(vols, name, i) && vols[i] == LastNamed(vols, name).value;
      assert hrefs[i] in hrefs;
    } else {
      forall h | h in s.disks && s.disks[h].vdc in cfg.vdcs
        ensures s.disks[h].name != name
      {
        assert h in hrefs;
        var k :| 0 <= k < |hrefs| && hrefs[k] == h;
        assert vols[k].name == s.disks[h].name;
      }
    }
  }

  /** When an expand dereferences nil: it carries no range, or it can read the list and names a volume that is not
      listed with a range that would be granted. */
  lemma ExpandCrashes(cfg: Config, s: State, log: seq<Event>, req: ExpandRequest, run: ExpandRun,
                      s': State, log': seq<Event>, r: Result<Expanded, Code>)
    requires ExpandRel(cfg, s, log, req, run, s', log', r)
    ensures r == Err(Crashed) <==>
            || req.range.None?
            || (run.listed.Some? && req.volumeId != "" && ExtractStorage(req.range).Ok?
                && !exists h :: h in s.disks && s.disks[h].vdc in cfg.vdcs && s.disks[h].name == req.volumeId)
  {
    if req.range.Some? && req.volumeId != "" && run.listed.Some? {
      ListedNames(cfg, s, run.listed.value, run.hrefs, req.volumeId);
    }
  }

  /** An expand that goes on to resize has seen the disk it will resize, with its size. */
  lemma GrowSawDisk(cfg: Config, s: State, vols: seq<VolumeWithCap>, hrefs: seq<Href>, vol: string, range: CapacityRange)
    requires Inv(cfg, s) && Lists(cfg, s, vols, hrefs) && Decide(vols, vol, range).Grow?
    ensures var d := Decide(vols, vol, range);
            && d.vdc in cfg.vdcs && LoneDisk(s, d.vdc, vol).Ok? && LoneDisk(s, d.vdc, vol).value in s.disks
            && s.disks[LoneDisk(s, d.vdc, vol).value].sizeMb * MIB < d.to.Bytes()
  {
    LastNamedIs(vols, vol);
    var i :| LastAt(vols, vol, i) && vols[i] == LastNamed(vols, vol).value;
    var h := hrefs[i];
    assert h in hrefs;
    LoneDiskIs(cfg, s, h);
    FromMbExact(s.disks[h].sizeMb);
  }

  /** A resize to more bytes than the disk has does not take mebibytes away, and gives the request to within one. */
  lemma GrowthBound(mb: int64, to: StorageSize)
    requires -TWO_43 <= mb < TWO_43 && mb * MIB < to.Bytes()
    ensures mb <= to.Mb()
    ensures 0 <= to.Bytes() ==> Fits(to.Mb(), to)
  {
    MbOfBytes(to);
  }
}
