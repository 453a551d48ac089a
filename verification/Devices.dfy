/** Finding on a node the block device of a disk, from the unit number the controller passed on. */
module Devices {
  import opened Wrappers
  import opened Text
  import opened CloudModel

  /** A disk as the node's inventory reports it. */
  datatype BlockDevice = BlockDevice(name: string, busPath: string, sizeBytes: nat)

  datatype DeviceError = BadSize | NoDisk | WrongUnit | Ambiguous(count: nat)

  function ExtractUnitNumForScsi(bus: string): string {
    var parts := Split(bus, ':');
    if |parts| < 5 then "" else parts[4]
  }

  function DevicePath(d: BlockDevice): string {
    "/dev/" + d.name
  }

  function HasUnit(unit: string): BlockDevice -> bool {
    (d: BlockDevice) => ExtractUnitNumForScsi(d.busPath) == unit
  }

  function HasSize(size: nat): BlockDevice -> bool {
    (d: BlockDevice) => d.sizeBytes == size
  }

  /** Device i, and no other, satisfies p. */
  ghost predicate Only(devices: seq<BlockDevice>, p: BlockDevice -> bool, i: int) {
    0 <= i < |devices| && p(devices[i]) && forall j :: 0 <= j < |devices| && j != i ==> !p(devices[j])
  }

  function Matching(devices: seq<BlockDevice>, p: BlockDevice -> bool): (m: seq<BlockDevice>)
    ensures |m| <= |devices|
  {
    if devices == [] then []
    else
      var last := devices[|devices| - 1];
      Matching(devices[..|devices| - 1], p) + if p(last) then [last] else []
  }

  method Filter(devices: seq<BlockDevice>, p: BlockDevice -> bool) returns (matched: seq<BlockDevice>)
    ensures matched == Matching(devices, p)
  {
    matched := [];
    for i := 0 to |devices|
      invariant matched == Matching(devices[..i], p)
    {
      assert devices[..i + 1][..i] == devices[..i];
      if p(devices[i]) {
        matched := matched + [devices[i]];
      }
    }
    assert devices[..|devices|] == devices;
  }

  lemma {:induction false} NoMatch(devices: seq<BlockDevice>, p: BlockDevice -> bool)
    ensures Matching(devices, p) == [] <==> forall i :: 0 <= i < |devices| ==> !p(devices[i])
  {
    if devices != [] {
      NoMatch(devices[..|devices| - 1], p);
    }
  }

  lemma {:induction false} OnlyMatch(devices: seq<BlockDevice>, p: BlockDevice -> bool, i: int)
    requires Only(devices, p, i)
    ensures Matching(devices, p) == [devices[i]]
  {
    var front := devices[..|devices| - 1];
    if i == |front| {
      NoMatch(front, p);
    } else {
      OnlyMatch(front, p, i);
      assert !p(devices[|front|]);
    }
  }

  lemma {:induction false} OneMatch(devices: seq<BlockDevice>, p: BlockDevice -> bool) returns (i: int)
    requires |Matching(devices, p)| == 1
    ensures Only(devices, p, i)
  {
    var front := devices[..|devices| - 1];
    assert forall k :: 0 <= k < |front| ==> front[k] == devices[k];
    if p(devices[|front|]) {
      i := |front|;
      NoMatch(front, p);
    } else {
      i := OneMatch(front, p);
    }
  }

  /** The list has no match exactly when no device satisfies p, and one exactly when one device does. */
  lemma MatchingCount(devices: seq<BlockDevice>, p: BlockDevice -> bool)
    ensures Matching(devices, p) == [] <==> forall i :: 0 <= i < |devices| ==> !p(devices[i])
    ensures |Matching(devices, p)| == 1 <==> exists i :: Only(devices, p, i)
    ensures forall i :: Only(devices, p, i) ==> Matching(devices, p) == [devices[i]]
  {
    NoMatch(devices, p);
    forall i | Only(devices, p, i) { OnlyMatch(devices, p, i); }
    if |Matching(devices, p)| == 1 {
      var i := OneMatch(devices, p);
    }
  }

  function Both(p: BlockDevice -> bool, q: BlockDevice -> bool): BlockDevice -> bool {
    (d: BlockDevice) => p(d) && q(d)
  }

  lemma {:induction false} MatchingTwice(devices: seq<BlockDevice>, p: BlockDevice -> bool, q: BlockDevice -> bool)
    ensures Matching(Matching(devices, p), q) == Matching(devices, Both(p, q))
  {
    if devices != [] {
      var n := |devices| - 1;
      MatchingTwice(devices[..n], p, q);
      if p(devices[n]) {
        var m := Matching(devices[..n], p) + [devices[n]];
        assert m[..|m| - 1] == Matching(devices[..n], p);
        assert m[|m| - 1] == devices[n];
        assert Matching(devices, p) == m;
      } else {
        assert Matching(devices, p) == Matching(devices[..n], p);
      }
    }
  }

  // ---------- Look-up by unit ----------

  function FindByUnit(devices: seq<BlockDevice>, unit: string): Result<string, DeviceError> {
    var matched := Matching(devices, HasUnit(unit));
    if |matched| == 0 then Err(NoDisk)
    else if |matched| == 1 then Ok(DevicePath(matched[0]))
    else Err(Ambiguous(|matched|))
  }

  method GetDiskUnit(devices: seq<BlockDevice>, unit: string) returns (r: Result<string, DeviceError>)
    ensures r == FindByUnit(devices, unit)
    ensures r.Ok? <==> exists i :: Only(devices, HasUnit(unit), i)
    ensures forall i :: Only(devices, HasUnit(unit), i) ==> r == Ok("/dev/" + devices[i].name)
    ensures r == Err(NoDisk) <==> forall i :: 0 <= i < |devices| ==> !HasUnit(unit)(devices[i])
  {
    var matched: seq<BlockDevice> := [];
    for i := 0 to |devices|
      invariant matched == Matching(devices[..i], HasUnit(unit))
    {
      assert devices[..i + 1][..i] == devices[..i];
      var unitNum := ExtractUnitNumForScsi(devices[i].busPath);
      if unitNum == unit {
        matched := matched + [devices[i]];
      }
    }
    assert devices[..|devices|] == devices;
    MatchingCount(devices, HasUnit(unit));
    if |matched| == 0 {
      return Err(NoDisk);
    } else if |matched| == 1 {
      return Ok(DevicePath(matched[0]));
    }
    return Err(Ambiguous(|matched|));
  }

  // ---------- Look-up by size and unit ----------

  method GetDiskNameBySizeAndUnit(devices: seq<BlockDevice>, size: string, unit: string)
    returns (r: Result<string, DeviceError>)
    ensures r == FindBySizeAndUnit(devices, size, unit)
    ensures r == Err(BadSize) <==> ParseUint(size).None?
    ensures r.Ok? <==> ParseUint(size).Some? && exists i :: Only(devices, HasBoth(ParseUint(size).value, unit), i)
    ensures ParseUint(size).Some? ==>
              forall i :: Only(devices, HasBoth(ParseUint(size).value, unit), i) ==> r == Ok("/dev/" + devices[i].name)
    ensures r == Err(NoDisk) <==>
            ParseUint(size).Some? && forall i :: 0 <= i < |devices| ==> !HasSize(ParseUint(size).value)(devices[i])
    ensures r == Err(WrongUnit) <==>
            ParseUint(size).Some?
            && exists i :: Only(devices, HasSize(ParseUint(size).value), i) && !HasUnit(unit)(devices[i])
  {
    var parsed := ParseUint(size);
    if parsed.None? { return Err(BadSize); }
    TwoStagesAreOneFilter(devices, size, unit);
    MatchingCount(devices, HasSize(parsed.value));
    var bySize := Filter(devices, HasSize(parsed.value));
    if |bySize| == 0 {
      return Err(NoDisk);
    } else if |bySize| == 1 {
      var unitNum := ExtractUnitNumForScsi(bySize[0].busPath);
      if unitNum != unit {
        return Err(WrongUnit);
      }
      return Ok(DevicePath(bySize[0]));
    }
    var byUnit := Filter(bySize, HasUnit(unit));
    if |byUnit| == 1 {
      return Ok(DevicePath(byUnit[0]));
    }
    return Err(Ambiguous(|byUnit|));
  }

  function FindBySizeAndUnit(devices: seq<BlockDevice>, size: string, unit: string): Result<string, DeviceError> {
    match ParseUint(size)
    case None => Err(BadSize)
    case Some(bytes) =>
      var bySize := Matching(devices, HasSize(bytes));
      if |bySize| == 0 then Err(NoDisk)
      else if |bySize| == 1 then
        if ExtractUnitNumForScsi(bySize[0].busPath) != unit then Err(WrongUnit) else Ok(DevicePath(bySize[0]))
      else
        var byUnit := Matching(bySize, HasUnit(unit));
        if |byUnit| == 1 then Ok(DevicePath(byUnit[0])) else Err(Ambiguous(|byUnit|))
  }

  function HasBoth(size: nat, unit: string): BlockDevice -> bool {
    Both(HasSize(size), HasUnit(unit))
  }

  /** The search by size and then by unit, with its separate case for one match, is one filter: it succeeds exactly
      when one device has both, and returns that device. */
  lemma TwoStagesAreOneFilter(devices: seq<BlockDevice>, size: string, unit: string)
    requires ParseUint(size).Some?
    ensures FindBySizeAndUnit(devices, size, unit).Ok? <==>
            exists i :: Only(devices, HasBoth(ParseUint(size).value, unit), i)
    ensures forall i :: Only(devices, HasBoth(ParseUint(size).value, unit), i) ==>
                          FindBySizeAndUnit(devices, size, unit) == Ok(DevicePath(devices[i]))
  {
    var bytes := ParseUint(size).value;
    var bySize := Matching(devices, HasSize(bytes));
    MatchingTwice(devices, HasSize(bytes), HasUnit(unit));
    MatchingCount(devices, HasBoth(bytes, unit));
    if |bySize| == 1 {
      assert bySize[..0] == [];
      assert Matching(bySize, HasUnit(unit)) == if HasUnit(unit)(bySize[0]) then [bySize[0]] else [];
    }
  }

  /** Where the search by unit alone finds a device of the requested size, the two searches agree. */
  lemma SearchesAgree(devices: seq<BlockDevice>, size: string, unit: string, i: nat)
    requires Only(devices, HasUnit(unit), i) && ParseUint(size) == Some(devices[i].sizeBytes)
    ensures FindBySizeAndUnit(devices, size, unit) == FindByUnit(devices, unit)
  {
    MatchingCount(devices, HasUnit(unit));
    assert Only(devices, HasBoth(devices[i].sizeBytes, unit), i);
    TwoStagesAreOneFilter(devices, size, unit);
  }

  // ---------- The devices of a VM ----------

  /** The path of unit u of a paravirtual SCSI controller. */
  function ScsiPath(slot: string, unit: int): string {
    Join(["pci-0000", slot, "00.0-scsi-0", "0", Itoa(unit), "0"], ':')
  }

  /** Splitting the printed path gives the printed unit back. */
  lemma UnitOfPath(slot: string, unit: int)
    requires Free(slot, ':')
    ensures ExtractUnitNumForScsi(ScsiPath(slot, unit)) == Itoa(unit)
  {
    ItoaHasNoColon(unit);
    SplitJoin(["pci-0000", slot, "00.0-scsi-0", "0", Itoa(unit), "0"], ':');
  }

  /** A device whose path has the unit of no entry. */
  ghost predicate Foreign(d: BlockDevice, settings: seq<Setting>) {
    forall i :: 0 <= i < |settings| ==> !HasUnit(Itoa(settings[i].unit))(d)
  }

  ghost predicate OnPath(d: BlockDevice, unit: int) {
    exists slot :: Free(slot, ':') && d.busPath == ScsiPath(slot, unit)
  }

  /** The node shows each entry of the VM's settings as one device, at[i] for entry i, in any order and behind
      any controller; the unit of an entry is in the path of no other device. */
  ghost predicate Shows(devices: seq<BlockDevice>, settings: seq<Setting>, at: seq<nat>) {
    && |at| == |settings|
    && (forall i :: 0 <= i < |at| ==> at[i] < |devices| && OnPath(devices[at[i]], settings[i].unit))
    && (forall i, j :: 0 <= i < j < |at| ==> at[i] != at[j])
    && (forall k :: 0 <= k < |devices| && k !in at ==> Foreign(devices[k], settings))
  }

  lemma ShownUnit(devices: seq<BlockDevice>, settings: seq<Setting>, at: seq<nat>, i: nat, unit: int)
    requires Shows(devices, settings, at) && i < |settings|
    ensures HasUnit(Itoa(unit))(devices[at[i]]) <==> settings[i].unit == unit
  {
    var slot :| Free(slot, ':') && devices[at[i]].busPath == ScsiPath(slot, settings[i].unit);
    UnitOfPath(slot, settings[i].unit);
    if Itoa(settings[i].unit) == Itoa(unit) {
      ItoaInjective(settings[i].unit, unit);
    }
  }

  /** Whatever the settings, some devices show them. */
  lemma ShownSomehow(settings: seq<Setting>) returns (devices: seq<BlockDevice>, at: seq<nat>)
    ensures Shows(devices, settings, at)
  {
    at := seq(|settings|, i => i);
    devices := seq(|settings|, i requires 0 <= i < |settings| => BlockDevice("sda", ScsiPath("0b", settings[i].unit), 0));
    assert Free("0b", ':');
    forall i | 0 <= i < |at|
      ensures OnPath(devices[at[i]], settings[i].unit)
    {
      assert devices[at[i]].busPath == ScsiPath("0b", settings[i].unit);
    }
    assert forall k :: 0 <= k < |devices| ==> at[k] == k;
  }

  /** The printed unit of an entry leads to that entry's device exactly when no other entry of the
      VM, on whatever bus, has the same unit. */
  lemma Identified(devices: seq<BlockDevice>, settings: seq<Setting>, at: seq<nat>, i: nat)
    requires Shows(devices, settings, at) && i < |settings|
    ensures FindByUnit(devices, Itoa(settings[i].unit)) == Ok(DevicePath(devices[at[i]])) <==>
            forall j :: 0 <= j < |settings| && j != i ==> settings[j].unit != settings[i].unit
  {
    var unit := settings[i].unit;
    var p := HasUnit(Itoa(unit));
    MatchingCount(devices, p);
    ShownUnit(devices, settings, at, i, unit);
    if j :| 0 <= j < |settings| && j != i && settings[j].unit == unit {
      ShownUnit(devices, settings, at, j, unit);
      assert p(devices[at[i]]) && p(devices[at[j]]);
      assert at[i] != at[j];
      assert forall k :: !Only(devices, p, k);
    } else {
      forall k | 0 <= k < |devices| && k != at[i]
        ensures !p(devices[k])
      {
        if k in at {
          var j :| 0 <= j < |at| && at[j] == k;
          ShownUnit(devices, settings, at, j, unit);
        } else {
          assert Foreign(devices[k], settings);
        }
      }
      assert Only(devices, p, at[i]);
    }
  }
}
