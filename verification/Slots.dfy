/** The allocator of disk units: eight units of one bus of a VM are reserved for the driver's disks. */
module Slots {
  import opened Wrappers
  import opened CloudModel

  const FIRST_UNIT: int := 8
  const LAST_UNIT: int := 15
  const MAX_VOLUMES_PER_NODE: nat := 8

  predicate Reserved(unit: int) {
    FIRST_UNIT <= unit <= LAST_UNIT
  }

  function ReservedUnits(): set<int> {
    set u: int | FIRST_UNIT <= u <= LAST_UNIT && Reserved(u)
  }

  function FreeUnits(settings: seq<Setting>, bus: int): set<int> {
    set u: int | FIRST_UNIT <= u <= LAST_UNIT && !Taken(settings, bus, u)
  }

  predicate InReservedSlot(setting: Setting, bus: int) {
    setting.bus == bus && Reserved(setting.unit)
  }

  function ReservedSettings(settings: seq<Setting>, bus: int): set<nat> {
    set i: nat | i < |settings| && InReservedSlot(settings[i], bus)
  }

  ghost predicate SlotsDistinct(settings: seq<Setting>) {
    forall i, j | 0 <= i < |settings| && 0 <= j < |settings| ::
      settings[i].bus == settings[j].bus && settings[i].unit == settings[j].unit ==> i == j
  }

  method BuildDiskUnits() returns (units: map<int, bool>)
    ensures units.Keys == ReservedUnits()
    ensures forall u :: u in units ==> !units[u]
  {
    units := map[];
    for i := FIRST_UNIT to LAST_UNIT + 1
      invariant forall u :: u in units <==> FIRST_UNIT <= u < i
      invariant forall u :: u in units ==> !units[u]
    {
      units := units[i := false];
    }
  }

  method GetFreeUnitNum(vm: Vm, busNum: int) returns (unit: int, err: Option<Error>)
    ensures err.None? ==> unit in FreeUnits(vm.settings, busNum)
    ensures err.Some? ==> unit == 0 && err.value == NoFreeUnits && FreeUnits(vm.settings, busNum) == {}
  {
    var unitsInUse := BuildDiskUnits();
    for i := 0 to |vm.settings|
      invariant ReservedUnits() <= unitsInUse.Keys
      invariant forall u :: u in unitsInUse ==>
                              (unitsInUse[u] <==> Taken(vm.settings[..i], busNum, u))
      invariant forall u :: u in unitsInUse && !Reserved(u) ==> unitsInUse[u]
    {
      var setting := vm.settings[i];
      TakenOneMore(vm.settings, i, busNum);
      if setting.bus == busNum {
        unitsInUse := unitsInUse[setting.unit := true];
      }
    }
    assert vm.settings[..|vm.settings|] == vm.settings;
    var unused := PickUnused(unitsInUse);
    match unused
    case Some(k) => return k, None;
    case None => return 0, Some(NoFreeUnits);
  }

  /** The order in which the units are visited is not determined. */
  method PickUnused(unitsInUse: map<int, bool>) returns (unit: Option<int>)
    ensures unit.Some? ==> unit.value in unitsInUse && !unitsInUse[unit.value]
    ensures unit.None? ==> forall u :: u in unitsInUse ==> unitsInUse[u]
  {
    var rest := unitsInUse.Keys;
    while exists k :: k in rest
      invariant rest <= unitsInUse.Keys
      invariant forall u :: u in unitsInUse.Keys - rest ==> unitsInUse[u]
      decreases rest
    {
      var k :| k in rest;
      if !unitsInUse[k] {
        return Some(k);
      }
      rest := rest - {k};
    }
    return None;
  }

  lemma TakenOneMore(settings: seq<Setting>, i: nat, bus: int)
    requires i < |settings|
    ensures forall u :: Taken(settings[..i + 1], bus, u) <==>
                        Taken(settings[..i], bus, u) || (settings[i].bus == bus && settings[i].unit == u)
  {
    var before, after := settings[..i], settings[..i + 1];
    forall u
      ensures Taken(after, bus, u) <==> Taken(before, bus, u) || (settings[i].bus == bus && settings[i].unit == u)
    {
      if Taken(before, bus, u) {
        var k :| 0 <= k < |before| && before[k].bus == bus && before[k].unit == u;
        assert after[k] == before[k];
      }
      if settings[i].bus == bus && settings[i].unit == u {
        assert after[i] == settings[i];
      }
      if Taken(after, bus, u) && !(settings[i].bus == bus && settings[i].unit == u) {
        var k :| 0 <= k < |after| && after[k].bus == bus && after[k].unit == u;
        assert before[k] == after[k];
      }
    }
  }

  /** The pigeonhole: a settings list of any length leaves a reserved unit free unless eight of its entries sit in
      reserved units of the bus. With no slot used twice, entries in use and free units add up to eight exactly. */
  lemma FreeUnitCount(settings: seq<Setting>, bus: int)
    ensures |FreeUnits(settings, bus)| + |ReservedSettings(settings, bus)| >= MAX_VOLUMES_PER_NODE
    ensures SlotsDistinct(settings) ==>
              |FreeUnits(settings, bus)| + |ReservedSettings(settings, bus)| == MAX_VOLUMES_PER_NODE
  {
    var used := ReservedSettings(settings, bus);
    var free := FreeUnits(settings, bus);
    var busy := ReservedUnits() - free;
    var unitOf: nat -> int := (i: nat) => if i < |settings| then settings[i].unit else 0;
    forall u | u in busy
      ensures exists i :: i in used && unitOf(i) == u
    {
      var i :| 0 <= i < |settings| && settings[i].bus == bus && settings[i].unit == u;
      assert i in used && unitOf(i) == u;
    }
    ImageSize(unitOf, used, busy);
    EightReserved();
    assert free + busy == ReservedUnits();
  }

  lemma EightReserved()
    ensures |ReservedUnits()| == MAX_VOLUMES_PER_NODE
  {
    assert ReservedUnits() == {8, 9, 10, 11, 12, 13, 14, 15};
  }

  /** Fewer than eight volumes on a VM: the allocator's error branch is not taken. */
  lemma RoomMeansFreeUnit(settings: seq<Setting>, bus: int)
    requires |ReservedSettings(settings, bus)| < MAX_VOLUMES_PER_NODE
    ensures FreeUnits(settings, bus) != {}
  {
    FreeUnitCount(settings, bus);
  }
}
