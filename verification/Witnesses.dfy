/** Inputs on which the properties that do not hold of every input fail; the exact conditions are the theorems named
    with them. */
module Witnesses {
  import opened Wrappers
  import opened Storage
  import opened Text
  import opened CloudModel
  import opened Slots
  import opened Lifecycle
  import opened Invariant
  import opened Runs
  import opened Attachment
  import opened Outcomes
  import opened Csi
  import opened Controller
  import opened Sizes
  import opened Expanding
  import opened Locker
  import opened Placement
  import opened Samples

  /** A range granted below the supported minimum (ExtractStorageBounds). */
  lemma GrantedTooSmall()
    ensures ExtractStorage(Some(CapacityRange(1, MINIMUM_VOLUME_SIZE))) == Ok(StorageSize(1))
    ensures StraddlesMinimum(CapacityRange(1, MINIMUM_VOLUME_SIZE)) && 1 < MINIMUM_VOLUME_SIZE
  {
  }

  /** A bare limit above the maximum and a bare requirement below the minimum, both refused (ExtractStorageComplete). */
  lemma RefusedOneSided()
    ensures ExtractStorage(Some(CapacityRange(0, MAXIMUM_VOLUME_SIZE + 1))) == Err(LimitAboveMaximum)
    ensures SomeSizeMeets(CapacityRange(0, MAXIMUM_VOLUME_SIZE + 1))
    ensures ExtractStorage(Some(CapacityRange(1, 0))) == Err(RequiredBelowMinimum)
    ensures SomeSizeMeets(CapacityRange(1, 0))
  {
    OneSidedRefused(CapacityRange(0, MAXIMUM_VOLUME_SIZE + 1));
    OneSidedRefused(CapacityRange(1, 0));
  }

  /** A create of 16 MiB that finds a disk of 4 MiB succeeds, and the disk does not have the capacity reported
      (CreatedCapacity). */
  lemma ReportsWrongCapacity()
    ensures Inv(ONE_VDC, OneDisk(4)) && LoneDisk(OneDisk(4), "z", "d") == Ok(0)
    ensures CreateRel(ONE_VDC, OneDisk(4), "z", "d", StorageSize(16 * MIB), OneDisk(4), Ok(()), false, true)
    ensures !Fits(OneDisk(4).disks[0].sizeMb, StorageSize(16 * MIB))
  {
    OneDiskInv(4);
    OneDiskFound(4);
    FromMbExact(4);
  }

  /** A create whose submission failed may report success, and there is no disk (CreateOutcome). */
  lemma CreatesNothing()
    ensures Inv(ONE_VDC, OneDisk(4))
    ensures CreateRel(ONE_VDC, OneDisk(4), "z", "e", StorageSize(16 * MIB), OneDisk(4), Ok(()), true, true)
    ensures LoneDisk(OneDisk(4), "z", "e").Err?
  {
    OneDiskInv(4);
    assert DisksNamed(OneDisk(4), "z", "e") == {};
  }

  /** A delete whose look-up failed reports success, and the disk is still there (DeleteOutcome). */
  lemma DeletesNothing()
    ensures Inv(ONE_VDC, OneDisk(4))
    ensures DeleteRel(ONE_VDC, OneDisk(4), "d", OneDisk(4), Ok(()), {"z"}, true)
    ensures !GoneEverywhere(ONE_VDC, OneDisk(4), "d")
  {
    OneDiskInv(4);
    assert 0 in OneDisk(4).disks;
  }

  /** An expand of a volume that is not listed, with a range that sets no bound (ExpandCrashes). */
  lemma ExpandOfUnlisted(req: ExpandRequest, run: ExpandRun)
    requires req == ExpandRequest("e", Some(CapacityRange(0, 0)), None)
    requires run == ExpandRun(Some([Listing(OneDisk(4).disks[0])]), [0], Err(CloudFault), false)
    ensures Inv(ONE_VDC, OneDisk(4))
    ensures ExpandRel(ONE_VDC, OneDisk(4), [], req, run, OneDisk(4), [], Err(Crashed))
  {
    OneDiskInv(4);
    assert Lists(ONE_VDC, OneDisk(4), run.listed.value, run.hrefs);
    assert LastNamed(run.listed.value, "e") == None;
  }

  /** A VM with eight volumes: the allocator's error is lost, the attach of a ninth succeeds in unit 0 of the driver's
      bus, and the path it returns does not identify the disk, since the system disk has unit 0 of another bus
      (FullNode, PathIdentifies). */
  lemma NinthVolume() returns (s': State, r: Result<DiskAttachParams, Error>)
    ensures Inv(ONE_VDC, FullVm()) && |ReservedSettings(FullSettings(), 3)| == MAX_VOLUMES_PER_NODE
    ensures AttachRel(ONE_VDC, FullVm(), "n", VolumeName(0), s', r, true) && r.Ok? && r.value.path == "0"
    ensures PlaceOf(s', 0) == Some(Place(0, 3, 0)) && !WellPlaced(ONE_VDC, s', 0)
    ensures !Identifies(s', 0, 0, r.value.path)
  {
    var s := FullVm();
    FullVmInv();
    FullVmIsFull();
    LoneDiskIs(ONE_VDC, s, 0);
    var (after, answer) := AttachIn(s, 3, "z", 0, VolumeName(0), 0);
    s', r := after, answer;
    assert AttachVia(ONE_VDC, s, "z", 0, "n", VolumeName(0), s', r);
    NinthPlaced(s', r);
    UnitIdentifies(s', 0);
    assert s'.vms[0].settings[0] == Setting(0, 0, None);
  }

  lemma NinthPlaced(s': State, r: Result<DiskAttachParams, Error>)
    requires Inv(ONE_VDC, FullVm()) && FindVm(FullVm(), "z", "n") == Some(0)
    requires (s', r) == AttachIn(FullVm(), 3, "z", 0, VolumeName(0), 0)
    ensures r.Ok? && r.value.path == "0"
    ensures PlaceOf(s', 0) == Some(Place(0, 3, 0))
    ensures 0 in s'.vms && s'.vms[0].settings == FullSettings() + [Setting(3, 0, Some(0))]
  {
    FullVmIsFull();
    LoneDiskIs(ONE_VDC, FullVm(), 0);
    AttachEffect(ONE_VDC, FullVm(), "z", 0, 0, 0);
    assert Itoa(0) == "0";
  }

  /** Two VDCs that each have the VM and the disk: delete, detach and attach depend on the order in which they are
      visited (DeleteOrder, DetachOrder, AttachOrder). */
  lemma DeleteOrderMatters()
    ensures Inv(TWO_VDCS, TwoDisks()) && !DeleteOrderFree(TWO_VDCS, TwoDisks(), "d")
  {
    TwoDisksInv();
    TwoDisksFound();
    assert Holds(TWO_VDCS, TwoDisks(), "y", "d") && Holds(TWO_VDCS, TwoDisks(), "z", "d");
    DeleteOrder(TWO_VDCS, TwoDisks(), "d");
  }

  lemma DetachOrderMatters()
    ensures Inv(TWO_VDCS, TwoDisks()) && !DetachOrderFree(TWO_VDCS, TwoDisks(), "d")
  {
    TwoDisksInv();
    TwoDisksFound();
    assert Holds(TWO_VDCS, TwoDisks(), "y", "d") && HeldAttached(TWO_VDCS, TwoDisks(), "z", "d");
    DetachOrder(TWO_VDCS, TwoDisks(), "d");
  }

  lemma AttachOrderMatters()
    ensures Inv(TWO_VDCS, TwoDisks()) && !AttachOrderFree(TWO_VDCS, TwoDisks(), "n", "d")
  {
    TwoDisksInv();
    OtherVerdict();
    AttachOrder(TWO_VDCS, TwoDisks(), "n", "d");
  }

  lemma OtherVerdict()
    ensures !SameVerdict(TWO_VDCS, TwoDisks(), "y", "z", "n", "d")
  {
    TwoDisksFound();
    assert 8 in FreeUnits(TwoDisks().vms[0].settings, 3);
    assert VerdictOf(TWO_VDCS, TwoDisks(), "y", "n", "d") == Some(Moves);
  }

  /** Two VDCs that each have the VM with the disk on it, in units 9 and 8: nothing changes for either order, but the
      node is told unit 9 or unit 8 (AttachOrder). */
  lemma PathByOrder()
    ensures Inv(TWO_VDCS, BothThere())
    ensures AttachRel(TWO_VDCS, BothThere(), "n", "d", BothThere(), Ok(ParamsFor("d", 9, 4)), true)
    ensures AttachRel(TWO_VDCS, BothThere(), "n", "d", BothThere(), Ok(ParamsFor("d", 8, 4)), true)
    ensures !AttachOrderFree(TWO_VDCS, BothThere(), "n", "d")
  {
    BothThereInv();
    BothThereFound();
    var s := BothThere();
    assert 8 in FreeUnits(s.vms[0].settings, 3) && 9 in FreeUnits(s.vms[1].settings, 3);
    assert AttachVia(TWO_VDCS, s, "y", 8, "n", "d", s, Ok(ParamsFor("d", 9, 4)));
    assert AttachVia(TWO_VDCS, s, "z", 9, "n", "d", s, Ok(ParamsFor("d", 8, 4)));
    assert VerdictOf(TWO_VDCS, s, "y", "n", "d") == Some(Here(9, 4));
    assert VerdictOf(TWO_VDCS, s, "z", "n", "d") == Some(Here(8, 4));
    assert !SameVerdict(TWO_VDCS, s, "y", "z", "n", "d");
    AttachOrder(TWO_VDCS, s, "n", "d");
  }

  /** Two VDCs that each have the disk, one of them attached: an expand resizes the one or is refused by the other
      (ExpandOrder). */
  lemma ExpandOrderMatters(log: seq<Event>, req: ExpandRequest)
    requires req == ExpandRequest("d", Some(CapacityRange(8 * MIB, 0)), None)
    ensures Inv(TWO_VDCS, TwoDisks()) && !ExpandOrderFree(TWO_VDCS, TwoDisks(), log, req)
  {
    TwoDisksInv();
    FromMbExact(4);
    var s, to := TwoDisks(), StorageSize(8 * MIB);
    assert ExtractStorage(req.range) == Ok(to);
    assert Candidate(TWO_VDCS, s, "d", 0) && Candidate(TWO_VDCS, s, "d", 1);
    assert FateOf(s.disks[1], to) == Busy;
    assert FateOf(s.disks[0], to) != Busy;
    ExpandOrder(TWO_VDCS, s, log, req);
  }

  /** A disk of 16 MiB is big enough for a request of 8 MiB and a byte: an expand that succeeds without a resize,
      although the request is not a whole number of mebibytes (ExpandAgain). */
  lemma EnoughAlready(log: seq<Event>, req: ExpandRequest)
    requires req == ExpandRequest("d", Some(CapacityRange(8 * MIB + 1, 0)), None)
    ensures ExtractStorage(req.range) == Ok(StorageSize(8 * MIB + 1)) && (8 * MIB + 1) % MIB != 0
    ensures ExpandOn(OneDisk(16), log, req, StorageSize(8 * MIB + 1), 0)
            == Outcome(OneDisk(16), log, Ok(Expanded(16 * MIB, true)))
  {
    FromMbExact(16);
  }
}
