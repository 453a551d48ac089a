/** What success means to the caller of a create or a delete, whatever failed on the way. */
module Outcomes {
  import opened Wrappers
  import opened Storage
  import opened CloudModel
  import opened Lifecycle
  import opened Invariant
  import opened Runs
  import opened Attachment

  /** No VDC of the driver has a disk of the name. */
  ghost predicate GoneEverywhere(cfg: Config, s: State, name: string) {
    forall h :: h in s.disks && s.disks[h].vdc in cfg.vdcs ==> s.disks[h].name != name
  }

  /** Every VDC that holds the name was looked up, and there is at most one. */
  ghost predicate OneSeen(cfg: Config, s: State, name: string, missed: set<string>) {
    && (forall c :: Holds(cfg, s, c, name) ==> c !in missed)
    && (forall b, c :: Holds(cfg, s, b, name) && Holds(cfg, s, c, name) ==> b == c)
  }

  lemma HoldsIs(cfg: Config, s: State, h: Href)
    requires Inv(cfg, s) && h in s.disks && s.disks[h].vdc in cfg.vdcs
    ensures Holds(cfg, s, s.disks[h].vdc, s.disks[h].name)
    ensures LoneDisk(s, s.disks[h].vdc, s.disks[h].name) == Ok(h)
  {
    LoneDiskIs(cfg, s, h);
  }

  /** A delete that reports success has left no disk of the name in any VDC exactly when no look-up in a VDC holding
      the name failed, and at most one VDC held it. A delete that reports an error deleted nothing. */
  lemma DeleteOutcome(cfg: Config, s: State, name: string, s': State, r: Result<(), Error>, missed: set<string>,
                      calm: bool)
    requires Inv(cfg, s) && DeleteRel(cfg, s, name, s', r, missed, calm)
    ensures r.Ok? ==> (GoneEverywhere(cfg, s', name) <==> OneSeen(cfg, s, name, missed))
    ensures r.Err? ==> s'.disks.Keys == s.disks.Keys
  {
    if calm {
      if c :| c !in missed && DeleteVia(cfg, s, c, name, s', r) {
        DeletedOne(cfg, s, name, s', r, missed, c);
      } else {
        DeletedNone(cfg, s, name, missed);
      }
    } else if s' != s {
      var c :| c !in missed && Dropped(cfg, s, c, name, s');
      var h := HeldDisk(cfg, s, c, name);
    }
  }

  lemma DeletedOne(cfg: Config, s: State, name: string, s': State, r: Result<(), Error>, missed: set<string>, c: string)
    requires Inv(cfg, s) && c !in missed && DeleteVia(cfg, s, c, name, s', r)
    ensures r == Ok(())
    ensures GoneEverywhere(cfg, s', name) <==> OneSeen(cfg, s, name, missed)
  {
    DeleteEffect(cfg, s, c, name);
    assert Holds(cfg, s, c, name);
    if b :| Holds(cfg, s, b, name) && b != c {
      var g := HeldDisk(cfg, s, b, name);
      assert g in DisksNamed(s, b, name) && g in s'.disks && s'.disks[g] == s.disks[g];
    } else {
      forall h | h in s'.disks && s'.disks[h].vdc in cfg.vdcs
        ensures s'.disks[h].name != name
      {
        assert s'.disks[h] == s.disks[h];
        if s.disks[h].name == name { HoldsIs(cfg, s, h); }
      }
    }
  }

  lemma DeletedNone(cfg: Config, s: State, name: string, missed: set<string>)
    requires Inv(cfg, s) && forall c :: c in cfg.vdcs - missed ==> LoneDisk(s, c, name).Err?
    ensures GoneEverywhere(cfg, s, name) <==> OneSeen(cfg, s, name, missed)
  {
    forall h | h in s.disks && s.disks[h].vdc in cfg.vdcs && s.disks[h].name == name
      ensures !OneSeen(cfg, s, name, missed)
    {
      HoldsIs(cfg, s, h);
    }
    forall c | Holds(cfg, s, c, name)
      ensures !GoneEverywhere(cfg, s, name)
    {
      var h := HeldDisk(cfg, s, c, name);
      assert h in DisksNamed(s, c, name);
    }
  }

  /** A create that reports success has left the volume in its VDC exactly when submitting it did not fail. A create
      that reports an error changed nothing. */
  lemma CreateOutcome(cfg: Config, s: State, vdc: string, name: string, size: StorageSize,
                      s': State, r: Result<(), Error>, lost: bool, calm: bool)
    requires Inv(cfg, s) && CreateRel(cfg, s, vdc, name, size, s', r, lost, calm)
    ensures r.Ok? ==> (LoneDisk(s', vdc, name).Ok? <==> !lost)
    ensures r.Err? ==> s' == s
  {
    if r.Ok? {
      NeverTwoDisks(cfg, s, vdc, name);
      if DisksNamed(s, vdc, name) == {} && !lost {
        var h: Href :| h !in s.issued && h !in s.disks && s' == TaskCreate(s, h, vdc, name, size.Mb());
        MbInRange(size);
        CreateKeepsInv(cfg, s, h, vdc, name, size.Mb());
        LoneDiskIs(cfg, s', h);
      }
    }
  }

  /** No disk of the name is attached in any VDC of the driver. */
  ghost predicate NowhereAttached(cfg: Config, s: State, name: string) {
    forall h :: h in s.disks && s.disks[h].vdc in cfg.vdcs && s.disks[h].name == name ==> s.disks[h].attached.None?
  }

  /** A VDC with an attached disk of the name is the only one with the name. */
  ghost predicate AttachedIsOnly(cfg: Config, s: State, name: string) {
    forall b, c :: HeldAttached(cfg, s, b, name) && Holds(cfg, s, c, name) ==> b == c
  }

  /** An undisturbed detach reports success. For every order of the VDCs it has left no disk of the name attached
      exactly when a VDC with an attached one is the only one with the name. */
  lemma DetachLeavesNone(cfg: Config, s: State, name: string)
    requires Inv(cfg, s)
    ensures forall s', r :: DetachRel(cfg, s, name, s', r, true) ==> r == Ok(())
    ensures (forall s', r :: DetachRel(cfg, s, name, s', r, true) ==> NowhereAttached(cfg, s', name)) <==>
            AttachedIsOnly(cfg, s, name)
  {
    forall s', r | DetachRel(cfg, s, name, s', r, true)
      ensures r == Ok(())
      ensures AttachedIsOnly(cfg, s, name) ==> NowhereAttached(cfg, s', name)
    {
      DetachOutcome(cfg, s, name, s', r);
      if AttachedIsOnly(cfg, s, name) {
        DetachedTheOne(cfg, s, name, s');
      }
    }
    forall b, c | HeldAttached(cfg, s, b, name) && Holds(cfg, s, c, name) && b != c
      ensures exists s', r :: DetachRel(cfg, s, name, s', r, true) && !NowhereAttached(cfg, s', name)
    {
      var g := HeldDisk(cfg, s, b, name);
      var h := HeldDisk(cfg, s, c, name);
      assert g in DisksNamed(s, b, name);
      KeepsAttached(cfg, s, g, h);
      assert DetachRel(cfg, s, name, Detached(s, h), Ok(()), true);
    }
  }

  lemma KeepsAttached(cfg: Config, s: State, g: Href, h: Href)
    requires Inv(cfg, s) && g in s.disks && h in s.disks && g != h
    requires s.disks[g].vdc in cfg.vdcs && s.disks[g].attached.Some?
    ensures !NowhereAttached(cfg, Detached(s, h), s.disks[g].name)
  {
    DetachKeepsInv(cfg, s, h);
    assert Detached(s, h).disks[g] == s.disks[g];
  }

  lemma DetachedTheOne(cfg: Config, s: State, name: string, s': State)
    requires Inv(cfg, s) && AttachedIsOnly(cfg, s, name)
    requires || (s' == s && forall c :: HeldAttached(cfg, s, c, name) ==> exists b :: Holds(cfg, s, b, name) && b != c)
             || exists c :: HeldAttached(cfg, s, c, name) && s' == DetachIn(s, c, name).0
    ensures NowhereAttached(cfg, s', name)
  {
    if c :| HeldAttached(cfg, s, c, name) && s' == DetachIn(s, c, name).0 {
      DetachedIn(cfg, s, c, name);
    } else {
      NoneAttached(cfg, s, name);
    }
  }

  lemma DetachedIn(cfg: Config, s: State, c: string, name: string)
    requires Inv(cfg, s) && AttachedIsOnly(cfg, s, name) && HeldAttached(cfg, s, c, name)
    ensures NowhereAttached(cfg, DetachIn(s, c, name).0, name)
  {
    var h := HeldDisk(cfg, s, c, name);
    DetachKeepsInv(cfg, s, h);
    var s' := Detached(s, h);
    forall g | g in s'.disks && s'.disks[g].vdc in cfg.vdcs && s'.disks[g].name == name
      ensures g == h
    {
      HoldsIs(cfg, s, g);
      assert Holds(cfg, s, s.disks[g].vdc, name);
    }
  }

  lemma NoneAttached(cfg: Config, s: State, name: string)
    requires Inv(cfg, s) && AttachedIsOnly(cfg, s, name)
    requires forall c :: HeldAttached(cfg, s, c, name) ==> exists b :: Holds(cfg, s, b, name) && b != c
    ensures NowhereAttached(cfg, s, name)
  {
    forall g | g in s.disks && s.disks[g].vdc in cfg.vdcs && s.disks[g].name == name
      ensures s.disks[g].attached.None?
    {
      HoldsIs(cfg, s, g);
      assert !HeldAttached(cfg, s, s.disks[g].vdc, name);
    }
  }

  // ---------- Over a run ----------

  /** The last operation of a run that names a volume is a delete that reported success: the volume is gone from then
      on exactly when that delete looked up the one VDC that held it. */
  lemma DeletedForGood(cfg: Config, states: seq<State>, labels: seq<Label>, k: nat, n: nat)
    requires Run(cfg, states, labels) && Inv(cfg, states[0]) && k < n <= |labels|
    requires labels[k].Delete? && labels[k].done.Ok?
    requires forall i :: k < i < n ==> labels[i].name != labels[k].name
    ensures GoneEverywhere(cfg, states[n], labels[k].name) <==>
            OneSeen(cfg, states[k], labels[k].name, labels[k].missed)
  {
    RunSafe(cfg, states, labels, k);
    assert Step(cfg, states[k], labels[k], states[k + 1]);
    DeleteOutcome(cfg, states[k], labels[k].name, states[k + 1], labels[k].done, labels[k].missed, labels[k].calm);
    GoneStays(cfg, states, labels, labels[k].name, k + 1, n);
  }

  lemma {:induction false} GoneStays(cfg: Config, states: seq<State>, labels: seq<Label>, name: string, from: nat, to: nat)
    requires Run(cfg, states, labels) && Inv(cfg, states[0]) && from <= to <= |labels|
    requires forall i :: from <= i < to ==> labels[i].name != name
    ensures GoneEverywhere(cfg, states[to], name) <==> GoneEverywhere(cfg, states[from], name)
  {
    if from < to {
      GoneStays(cfg, states, labels, name, from, to - 1);
      RunSafe(cfg, states, labels, to - 1);
      NamesStay(cfg, states[to - 1], labels[to - 1], states[to], name);
    }
  }

  lemma NamesStay(cfg: Config, s: State, l: Label, s': State, name: string)
    requires Inv(cfg, s) && Step(cfg, s, l, s') && l.name != name
    ensures GoneEverywhere(cfg, s', name) <==> GoneEverywhere(cfg, s, name)
  {
    StepSafe(cfg, s, l, s');
    var h :| About(cfg, s, l, s', h);
    OtherNames(cfg, s, l, s', h, name);
  }

  lemma OtherNames(cfg: Config, s: State, l: Label, s': State, h: Href, name: string)
    requires About(cfg, s, l, s', h) && l.name != name
    ensures GoneEverywhere(cfg, s', name) <==> GoneEverywhere(cfg, s, name)
  {
    forall g | g != h
      ensures g in s'.disks <==> g in s.disks
    {
      assert g in s'.disks.Keys - {h} <==> g in s.disks.Keys - {h};
    }
  }
}
