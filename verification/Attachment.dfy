/** Attaching again, attaching elsewhere, and the order in which the VDCs are visited. */
module Attachment {
  import opened Wrappers
  import opened Storage
  import opened Text
  import opened CloudModel
  import opened Slots
  import opened Lifecycle
  import opened Invariant
  import opened Runs

  /** At most one VDC of the driver has a VM of the name. */
  ghost predicate OneVdcHasVm(cfg: Config, s: State, vm: string) {
    forall b, c :: b in cfg.vdcs && c in cfg.vdcs && FindVm(s, b, vm).Some? && FindVm(s, c, vm).Some? ==> b == c
  }

  lemma {:induction false} SameVmFound(s: State, s': State, hrefs: seq<Href>, name: string)
    requires s'.vms.Keys == s.vms.Keys && forall v :: v in s.vms ==> s'.vms[v].name == s.vms[v].name
    ensures FindIn(s', hrefs, name) == FindIn(s, hrefs, name)
  {
    if hrefs != [] {
      SameVmFound(s, s', hrefs[1..], name);
    }
  }

  /** What a successful attach leaves: the disk on the VM, in the slot whose unit the caller is told. */
  lemma AttachPlaces(cfg: Config, s: State, vm: string, name: string, s': State, r: Result<DiskAttachParams, Error>, calm: bool)
    returns (c: string, v: Href, h: Href)
    requires Inv(cfg, s) && AttachRel(cfg, s, vm, name, s', r, calm) && r.Ok?
    ensures Inv(cfg, s') && OnlyMoved(s, s', h)
    ensures c in cfg.vdcs && v in Listed(s, c) && FindVm(s, c, vm) == Some(v) && v in s.vms && s.vms[v].name == vm
    ensures h in s.disks && s.disks[h].vdc == c && s.disks[h].name == name
    ensures h in s'.disks && s'.disks[h] == s.disks[h].(attached := Some(VmRef(v, vm)))
    ensures PlaceOf(s', h).Some? && PlaceOf(s', h).value.vm == v
    ensures r.value == ParamsFor(name, PlaceOf(s', h).value.unit, s.disks[h].sizeMb)
    ensures if AttachedHere(s, v, h) then s' == s
            else PlaceOf(s', h).value.bus == cfg.bus
                 && UnitChoice(s.vms[v].settings, cfg.bus, PlaceOf(s', h).value.unit)
  {
    var vdc, u :| AttachVia(cfg, s, vdc, u, vm, name, s', r);
    c := vdc;
    var w, d := AttachCases(cfg, s, c, u, vm, name, s', r);
    v, h := w, d.value;
    AttachEffect(cfg, s, c, v, h, u);
    assert DiskOk(cfg, s', h);
  }

  /** Attaching a second time to the same node answers as before and changes nothing. */
  lemma AttachIdempotent(cfg: Config, s: State, vm: string, name: string,
                         s1: State, r1: Result<DiskAttachParams, Error>,
                         s2: State, r2: Result<DiskAttachParams, Error>)
    requires Inv(cfg, s) && OneVdcHasVm(cfg, s, vm)
    requires AttachRel(cfg, s, vm, name, s1, r1, true) && r1.Ok?
    requires AttachRel(cfg, s1, vm, name, s2, r2, true)
    ensures s2 == s1 && r2 == r1
  {
    var c, v, h := AttachPlaces(cfg, s, vm, name, s1, r1, true);
    forall b
      ensures FindVm(s1, b, vm) == FindVm(s, b, vm)
    {
      SameVmFound(s, s1, Listed(s, b), vm);
    }
    AttachAgain(cfg, s1, c, v, h, name, s2, r2);
  }

  lemma AttachAgain(cfg: Config, s: State, c: string, v: Href, h: Href, name: string,
                    s': State, r: Result<DiskAttachParams, Error>)
    requires Inv(cfg, s) && v in s.vms && c in cfg.vdcs && FindVm(s, c, s.vms[v].name) == Some(v)
    requires OneVdcHasVm(cfg, s, s.vms[v].name)
    requires h in s.disks && s.disks[h].vdc == c && s.disks[h].name == name
    requires PlaceOf(s, h).Some? && PlaceOf(s, h).value.vm == v
    requires AttachRel(cfg, s, s.vms[v].name, name, s', r, true)
    ensures s' == s && r == Ok(ParamsFor(name, PlaceOf(s, h).value.unit, s.disks[h].sizeMb))
  {
    var b, u :| AttachVia(cfg, s, b, u, s.vms[v].name, name, s', r);
    assert b == c;
    LoneDiskIs(cfg, s, h);
  }

  /** Attaching a disk in VDC c to another VM, v, frees its slot on the first VM, takes one on v, and moves no other
      disk. */
  lemma AttachMigrates(cfg: Config, s: State, c: string, v: Href, h: Href, unit: int, from: Place)
    requires Inv(cfg, s) && c in cfg.vdcs && v in Listed(s, c) && v in s.vms
    requires h in s.disks && s.disks[h].vdc == c && PlaceOf(s, h) == Some(from) && from.vm != v
    requires UnitChoice(s.vms[v].settings, cfg.bus, unit)
    requires AttachIn(s, cfg.bus, c, v, s.disks[h].name, unit).1.Ok?
    ensures var s' := AttachIn(s, cfg.bus, c, v, s.disks[h].name, unit).0;
            && PlaceOf(s', h) == Some(Place(v, cfg.bus, unit))
            && from.vm in s'.vms && v in s'.vms
            && !Taken(s'.vms[from.vm].settings, from.bus, from.unit)
            && |s'.vms[from.vm].settings| == |s.vms[from.vm].settings| - 1
            && !Taken(s.vms[v].settings, cfg.bus, unit)
            && s'.vms[v].settings == s.vms[v].settings + [Setting(cfg.bus, unit, Some(h))]
            && (forall g :: g in s.disks && g != h ==> PlaceOf(s', g) == PlaceOf(s, g))
  {
    AttachEffect(cfg, s, c, v, h, unit);
    LoneDiskIs(cfg, s, h);
    DetachEffect(cfg, s, h);
    StaleSnapshotSafe(cfg, s, v, h);
    assert VmOk(s, from.vm);
    FreedSlot(s.vms[from.vm].settings, h);
  }

  lemma FreedSlot(settings: seq<Setting>, h: Href)
    requires SlotsDistinct(settings) && NamedOnce(settings) && SlotOf(settings, h).Some?
    ensures var i := SlotOf(settings, h).value;
            !Taken(settings[..i] + settings[i + 1..], settings[i].bus, settings[i].unit)
  {
    RemovedEntry(settings, h);
  }

  /** A successful attach adds one settings entry for a disk that was on no VM, and none on a repeat or a migration. */
  lemma AttachCounts(cfg: Config, s: State, vm: string, name: string, s': State, r: Result<DiskAttachParams, Error>, calm: bool)
    returns (h: Href)
    requires Inv(cfg, s) && AttachRel(cfg, s, vm, name, s', r, calm) && r.Ok?
    ensures h in s.disks && s.disks[h].name == name
    ensures |NamingEntries(s')| == |NamingEntries(s)| + if s.disks[h].attached.None? then 1 else 0
  {
    var c, v, d := AttachPlaces(cfg, s, vm, name, s', r, calm);
    h := d;
    ConservationStep(cfg, s, s', h);
  }

  // ---------- The order of the VDCs ----------

  /** s1 and s2 differ at most in the unit that v gives to h. */
  ghost predicate SameUpToUnit(s1: State, s2: State, v: Href, h: Href) {
    && s1.listing == s2.listing && s1.disks == s2.disks && s1.issued == s2.issued && s1.vms.Keys == s2.vms.Keys
    && (forall w :: w in s1.vms && w != v ==> s1.vms[w] == s2.vms[w])
    && v in s1.vms && s1.vms[v].name == s2.vms[v].name
    && SettingsUpToUnit(s1.vms[v].settings, s2.vms[v].settings, h)
  }

  /** v and h are a VM and a disk of the names asked for. */
  ghost predicate Asked(s: State, vm: string, name: string, v: Href, h: Href) {
    v in s.vms && s.vms[v].name == vm && h in s.disks && s.disks[h].name == name
  }

  ghost predicate SettingsUpToUnit(a: seq<Setting>, b: seq<Setting>, h: Href) {
    && |a| == |b|
    && forall i :: 0 <= i < |a| ==> a[i] == b[i] || (a[i].disk == b[i].disk == Some(h) && a[i].bus == b[i].bus)
  }

  ghost predicate SameAnswer(r1: Result<DiskAttachParams, Error>, r2: Result<DiskAttachParams, Error>) {
    match (r1, r2)
    case (Ok(p), Ok(q)) => p.name == q.name && p.size == q.size
    case (Err(e), Err(f)) => e == f
    case _ => false
  }

  /** The answer carries the unit that h has in s. */
  ghost predicate Reported(s: State, r: Result<DiskAttachParams, Error>, h: Href) {
    r.Ok? && PlaceOf(s, h).Some? && r.value.path == Itoa(PlaceOf(s, h).value.unit)
  }

  /** Both gave h a unit of v; the clouds and the answers differ in that unit alone. */
  ghost predicate OtherUnit(s1: State, r1: Result<DiskAttachParams, Error>,
                            s2: State, r2: Result<DiskAttachParams, Error>, v: Href, h: Href)
  {
    SameAnswer(r1, r2) && SameUpToUnit(s1, s2, v, h) && Reported(s1, r1, h) && Reported(s2, r2, h)
  }

  /** Two undisturbed attaches end the same way, but for the choice among the free units of the VM. */
  ghost predicate SameEnd(s: State, vm: string, name: string, s1: State, r1: Result<DiskAttachParams, Error>,
                          s2: State, r2: Result<DiskAttachParams, Error>)
  {
    || (s1 == s2 && r1 == r2)
    || (exists v, h :: Asked(s, vm, name, v, h) && OtherUnit(s1, r1, s2, r2, v, h))
  }

  ghost predicate AttachOrderFree(cfg: Config, s: State, vm: string, name: string) {
    forall s1, r1, s2, r2 :: AttachRel(cfg, s, vm, name, s1, r1, true) && AttachRel(cfg, s, vm, name, s2, r2, true) ==>
                               SameEnd(s, vm, name, s1, r1, s2, r2)
  }

  /** What an attach comes to in a VDC that has the VM: no disk, the disk is there already in some unit, a detached
      disk that finds no slot, or the disk is moved. */
  datatype Verdict = Missing | Here(unit: int, mb: int64) | Refused | Moves

  ghost function VerdictIn(cfg: Config, s: State, c: string, v: Href, name: string): Verdict
    requires v in s.vms
  {
    match LoneDisk(s, c, name)
    case Err(_) => Missing
    case Ok(h) =>
      if AttachedHere(s, v, h) then Here(s.vms[v].settings[SlotOf(s.vms[v].settings, h).value].unit, s.disks[h].sizeMb)
      else if s.disks[h].attached.None? && FreeUnits(s.vms[v].settings, cfg.bus) == {}
              && Taken(s.vms[v].settings, cfg.bus, 0) then Refused
      else Moves
  }

  ghost function VerdictOf(cfg: Config, s: State, c: string, vm: string, name: string): Option<Verdict> {
    match FindVm(s, c, vm)
    case None => None
    case Some(v) => Some(VerdictIn(cfg, s, c, v, name))
  }

  /** The outcome of an attach in VDC c is its verdict: only Moves changes the cloud, and only disks of c. */
  ghost predicate EndsAs(s: State, c: string, name: string, verdict: Verdict, s': State,
                       r: Result<DiskAttachParams, Error>)
  {
    match verdict
    case Missing => s' == s && r == Err(DiskNotExists)
    case Here(unit, mb) => s' == s && r == Ok(ParamsFor(name, unit, mb))
    case Refused => s' == s && r == Err(Rejected)
    case Moves => exists h :: MovedIn(s, c, s', h)
  }

  ghost predicate MovedIn(s: State, c: string, s': State, h: Href) {
    && h in s.disks && s.disks[h].vdc == c && OnlyMoved(s, s', h)
    && h in s'.disks && s'.disks[h] != s.disks[h]
  }

  lemma VerdictEnds(cfg: Config, s: State, c: string, u: int, vm: string, name: string,
                    s': State, r: Result<DiskAttachParams, Error>)
    requires Inv(cfg, s) && AttachVia(cfg, s, c, u, vm, name, s', r)
    ensures VerdictOf(cfg, s, c, vm, name).Some?
    ensures EndsAs(s, c, name, VerdictOf(cfg, s, c, vm, name).value, s', r)
  {
    var v, h := AttachCases(cfg, s, c, u, vm, name, s', r);
    if h.Some? {
      LoneDiskIs(cfg, s, h.value);
      AttachEffect(cfg, s, c, v, h.value, u);
      assert DiskOk(cfg, s, h.value);
      if VerdictIn(cfg, s, c, v, name).Moves? {
        DetachEffect(cfg, s, h.value);
        assert MovedIn(s, c, s', h.value);
      }
    } else {
      assert LoneDisk(s, c, name) == Err(EntityNotFound);
    }
  }

  lemma SomeOutcome(cfg: Config, s: State, c: string, vm: string, name: string)
    returns (s': State, r: Result<DiskAttachParams, Error>)
    requires Inv(cfg, s) && c in cfg.vdcs && VerdictOf(cfg, s, c, vm, name).Some?
    ensures AttachRel(cfg, s, vm, name, s', r, true)
    ensures EndsAs(s, c, name, VerdictOf(cfg, s, c, vm, name).value, s', r)
  {
    var after, u, answer := SomeVia(cfg, s, c, vm, name);
    s', r := after, answer;
    VerdictEnds(cfg, s, c, u, vm, name, s', r);
  }

  lemma SomeVia(cfg: Config, s: State, c: string, vm: string, name: string)
    returns (s': State, u: int, r: Result<DiskAttachParams, Error>)
    requires c in cfg.vdcs && FindVm(s, c, vm).Some?
    ensures AttachVia(cfg, s, c, u, vm, name, s', r)
  {
    var v := FindVm(s, c, vm).value;
    SomeUnit(s.vms[v].settings, cfg.bus);
    var unit :| UnitChoice(s.vms[v].settings, cfg.bus, unit);
    var (after, answer) := AttachIn(s, cfg.bus, c, v, name, unit);
    s', u, r := after, unit, answer;
  }

  /** The verdict of two VDCs that have the VM is the same and leaves the cloud alone. */
  ghost predicate SameVerdict(cfg: Config, s: State, b: string, c: string, vm: string, name: string) {
    VerdictOf(cfg, s, b, vm, name).Some? && VerdictOf(cfg, s, c, vm, name).Some? && b != c ==>
      VerdictOf(cfg, s, b, vm, name) == VerdictOf(cfg, s, c, vm, name) != Some(Moves)
  }

  /** The VDCs are visited in no fixed order. An undisturbed attach ends the same way for every order exactly when,
      should several VDCs have the VM, they all come to the same verdict without moving a disk. */
  lemma AttachOrder(cfg: Config, s: State, vm: string, name: string)
    requires Inv(cfg, s)
    ensures AttachOrderFree(cfg, s, vm, name) <==>
            forall b, c :: b in cfg.vdcs && c in cfg.vdcs ==> SameVerdict(cfg, s, b, c, vm, name)
  {
    forall b, c | b in cfg.vdcs && c in cfg.vdcs && !SameVerdict(cfg, s, b, c, vm, name)
      ensures !AttachOrderFree(cfg, s, vm, name)
    {
      var s1, r1 := SomeOutcome(cfg, s, b, vm, name);
      var s2, r2 := SomeOutcome(cfg, s, c, vm, name);
      HereInRange(cfg, s, b, vm, name);
      HereInRange(cfg, s, c, vm, name);
      OtherVerdicts(s, b, c, VerdictOf(cfg, s, b, vm, name).value, VerdictOf(cfg, s, c, vm, name).value, vm, name,
                    s1, r1, s2, r2);
    }
    forall s1, r1, s2, r2 | AttachRel(cfg, s, vm, name, s1, r1, true) && AttachRel(cfg, s, vm, name, s2, r2, true)
                            && (forall b, c :: b in cfg.vdcs && c in cfg.vdcs ==> SameVerdict(cfg, s, b, c, vm, name))
      ensures SameEnd(s, vm, name, s1, r1, s2, r2)
    {
      OneVerdict(cfg, s, vm, name, s1, r1, s2, r2);
    }
  }

  lemma OneVerdict(cfg: Config, s: State, vm: string, name: string,
                   s1: State, r1: Result<DiskAttachParams, Error>, s2: State, r2: Result<DiskAttachParams, Error>)
    requires Inv(cfg, s)
    requires AttachRel(cfg, s, vm, name, s1, r1, true) && AttachRel(cfg, s, vm, name, s2, r2, true)
    requires forall b, c :: b in cfg.vdcs && c in cfg.vdcs ==> SameVerdict(cfg, s, b, c, vm, name)
    ensures SameEnd(s, vm, name, s1, r1, s2, r2)
  {
    if exists c :: c in cfg.vdcs && FindVm(s, c, vm).Some? {
      var b, t :| AttachVia(cfg, s, b, t, vm, name, s1, r1);
      var c, u :| AttachVia(cfg, s, c, u, vm, name, s2, r2);
      assert SameVerdict(cfg, s, b, c, vm, name);
      TwoVdcs(cfg, s, b, t, c, u, vm, name, s1, r1, s2, r2);
    }
  }

  lemma TwoVdcs(cfg: Config, s: State, b: string, t: int, c: string, u: int, vm: string, name: string,
                s1: State, r1: Result<DiskAttachParams, Error>, s2: State, r2: Result<DiskAttachParams, Error>)
    requires Inv(cfg, s) && SameVerdict(cfg, s, b, c, vm, name)
    requires AttachVia(cfg, s, b, t, vm, name, s1, r1) && AttachVia(cfg, s, c, u, vm, name, s2, r2)
    ensures SameEnd(s, vm, name, s1, r1, s2, r2)
  {
    if b == c {
      AttachInVdc(cfg, s, b, t, u, vm, name, s1, r1, s2, r2);
    } else {
      VerdictEnds(cfg, s, b, t, vm, name, s1, r1);
      VerdictEnds(cfg, s, c, u, vm, name, s2, r2);
    }
  }

  predicate SizeInRange(verdict: Verdict) {
    verdict.Here? ==> -TWO_43 <= verdict.mb < TWO_43
  }

  lemma OtherVerdicts(s: State, b: string, c: string, x: Verdict, y: Verdict, vm: string, name: string,
                      s1: State, r1: Result<DiskAttachParams, Error>, s2: State, r2: Result<DiskAttachParams, Error>)
    requires b != c && (x != y || x.Moves?) && SizeInRange(x) && SizeInRange(y)
    requires EndsAs(s, b, name, x, s1, r1) && EndsAs(s, c, name, y, s2, r2)
    ensures !SameEnd(s, vm, name, s1, r1, s2, r2)
  {
    if x.Moves? {
      MoveShows(s, b, c, name, y, s1, r1, s2, r2);
    } else if y.Moves? {
      MoveShows(s, c, b, name, x, s2, r2, s1, r1);
    } else {
      AnswersDiffer(s, b, c, name, x, y, s1, r1, s2, r2);
    }
  }

  lemma MoveShows(s: State, b: string, c: string, name: string, y: Verdict,
                  s1: State, r1: Result<DiskAttachParams, Error>, s2: State, r2: Result<DiskAttachParams, Error>)
    requires EndsAs(s, b, name, Moves, s1, r1) && EndsAs(s, c, name, y, s2, r2) && b != c
    ensures s1.disks != s2.disks
  {
    var h :| MovedIn(s, b, s1, h);
    assert s2.disks[h] == s.disks[h];
  }

  lemma AnswersDiffer(s: State, b: string, c: string, name: string, x: Verdict, y: Verdict,
                      s1: State, r1: Result<DiskAttachParams, Error>, s2: State, r2: Result<DiskAttachParams, Error>)
    requires EndsAs(s, b, name, x, s1, r1) && EndsAs(s, c, name, y, s2, r2)
    requires x != y && !x.Moves? && !y.Moves? && SizeInRange(x) && SizeInRange(y)
    ensures s1 == s2 == s && r1 != r2
  {
    if x.Here? && y.Here? && r1 == r2 {
      FromMbExact(x.mb);
      FromMbExact(y.mb);
      ItoaInjective(x.unit, y.unit);
    }
  }

  lemma HereInRange(cfg: Config, s: State, c: string, vm: string, name: string)
    requires Inv(cfg, s) && VerdictOf(cfg, s, c, vm, name).Some?
    ensures SizeInRange(VerdictOf(cfg, s, c, vm, name).value)
  {
    if VerdictOf(cfg, s, c, vm, name).value.Here? {
      var h := LoneDisk(s, c, name).value;
      assert h in DisksNamed(s, c, name);
      assert SizeOk(s.disks[h]);
    }
  }

  lemma AttachInVdc(cfg: Config, s: State, c: string, t: int, u: int, vm: string, name: string,
                    s1: State, r1: Result<DiskAttachParams, Error>,
                    s2: State, r2: Result<DiskAttachParams, Error>)
    requires Inv(cfg, s)
    requires AttachVia(cfg, s, c, t, vm, name, s1, r1) && AttachVia(cfg, s, c, u, vm, name, s2, r2)
    ensures SameEnd(s, vm, name, s1, r1, s2, r2)
  {
    var v, h := AttachCases(cfg, s, c, t, vm, name, s1, r1);
    if h.Some? {
      AttachInOrder(cfg, s, c, v, h.value, t, u);
      assert Asked(s, vm, name, v, h.value);
    } else {
      assert LoneDisk(s, c, name) == Err(EntityNotFound);
    }
  }

  lemma AttachInOrder(cfg: Config, s: State, c: string, v: Href, h: Href, t: int, u: int)
    requires Inv(cfg, s) && c in cfg.vdcs && v in Listed(s, c) && v in s.vms
    requires h in s.disks && s.disks[h].vdc == c
    requires UnitChoice(s.vms[v].settings, cfg.bus, t) && UnitChoice(s.vms[v].settings, cfg.bus, u)
    ensures var (s1, r1) := AttachIn(s, cfg.bus, c, v, s.disks[h].name, t);
            var (s2, r2) := AttachIn(s, cfg.bus, c, v, s.disks[h].name, u);
            (s1 == s2 && r1 == r2) || OtherUnit(s1, r1, s2, r2, v, h)
  {
    AttachInUnits(cfg, s, c, v, h, t, u);
    AttachReports(cfg, s, c, v, h, t);
    AttachReports(cfg, s, c, v, h, u);
  }

  lemma AttachInUnits(cfg: Config, s: State, c: string, v: Href, h: Href, t: int, u: int)
    requires Inv(cfg, s) && c in cfg.vdcs && v in Listed(s, c) && v in s.vms
    requires h in s.disks && s.disks[h].vdc == c
    requires UnitChoice(s.vms[v].settings, cfg.bus, t) && UnitChoice(s.vms[v].settings, cfg.bus, u)
    ensures var (s1, r1) := AttachIn(s, cfg.bus, c, v, s.disks[h].name, t);
            var (s2, r2) := AttachIn(s, cfg.bus, c, v, s.disks[h].name, u);
            (s1 == s2 && r1 == r2) || (r1.Ok? && SameAnswer(r1, r2) && SameUpToUnit(s1, s2, v, h))
  {
    LoneDiskIs(cfg, s, h);
    if !AttachedHere(s, v, h) {
      DetachEffect(cfg, s, h);
      StaleSnapshotSafe(cfg, s, v, h);
    }
  }

  lemma AttachReports(cfg: Config, s: State, c: string, v: Href, h: Href, u: int)
    requires Inv(cfg, s) && c in cfg.vdcs && v in Listed(s, c) && v in s.vms
    requires h in s.disks && s.disks[h].vdc == c && UnitChoice(s.vms[v].settings, cfg.bus, u)
    ensures var (s', r) := AttachIn(s, cfg.bus, c, v, s.disks[h].name, u);
            r.Ok? ==> Reported(s', r, h)
  {
    AttachEffect(cfg, s, c, v, h, u);
  }

  /** The VDCs of the driver that hold a disk of the name. */
  ghost predicate Holds(cfg: Config, s: State, c: string, name: string) {
    c in cfg.vdcs && LoneDisk(s, c, name).Ok?
  }

  ghost predicate DeleteOrderFree(cfg: Config, s: State, name: string) {
    forall s1, r1, s2, r2 :: DeleteRel(cfg, s, name, s1, r1, {}, true) && DeleteRel(cfg, s, name, s2, r2, {}, true) ==>
                               s1 == s2 && r1 == r2
  }

  /** DeleteDisk does the same for every order of the VDCs exactly when at most one of them holds the name. */
  lemma DeleteOrder(cfg: Config, s: State, name: string)
    requires Inv(cfg, s)
    ensures DeleteOrderFree(cfg, s, name) <==>
            forall b, c :: Holds(cfg, s, b, name) && Holds(cfg, s, c, name) ==> b == c
  {
    forall b, c | Holds(cfg, s, b, name) && Holds(cfg, s, c, name) && b != c
      ensures !DeleteOrderFree(cfg, s, name)
    {
      DeleteEffect(cfg, s, b, name);
      DeleteEffect(cfg, s, c, name);
      var (s1, r1) := DeleteIn(s, b, name);
      var (s2, r2) := DeleteIn(s, c, name);
      assert DeleteVia(cfg, s, b, name, s1, r1) && DeleteVia(cfg, s, c, name, s2, r2);
      assert DeleteRel(cfg, s, name, s1, r1, {}, true) && DeleteRel(cfg, s, name, s2, r2, {}, true);
      assert LoneDisk(s, b, name).value !in s1.disks && LoneDisk(s, b, name).value in s2.disks;
    }
    forall s1, r1, s2, r2 | DeleteRel(cfg, s, name, s1, r1, {}, true) && DeleteRel(cfg, s, name, s2, r2, {}, true)
                            && (forall b, c :: Holds(cfg, s, b, name) && Holds(cfg, s, c, name) ==> b == c)
      ensures s1 == s2 && r1 == r2
    {
      if b :| DeleteVia(cfg, s, b, name, s1, r1) {
        assert Holds(cfg, s, b, name);
        var c :| DeleteVia(cfg, s, c, name, s2, r2);
        assert Holds(cfg, s, c, name);
      }
    }
  }

  ghost predicate DetachOrderFree(cfg: Config, s: State, name: string) {
    forall s1, r1, s2, r2 :: DetachRel(cfg, s, name, s1, r1, true) && DetachRel(cfg, s, name, s2, r2, true) ==>
                               s1 == s2 && r1 == r2
  }

  ghost predicate HeldAttached(cfg: Config, s: State, c: string, name: string) {
    Holds(cfg, s, c, name) && s.disks[LoneDisk(s, c, name).value].attached.Some?
  }

  /** DetachDisk stops at the first VDC that holds the name, whether or not its disk is attached; so it does the same
      for every order exactly when a VDC with an attached disk of the name is the only one with that name. */
  lemma DetachOrder(cfg: Config, s: State, name: string)
    requires Inv(cfg, s)
    ensures DetachOrderFree(cfg, s, name) <==>
            forall b, c :: HeldAttached(cfg, s, b, name) && Holds(cfg, s, c, name) ==> b == c
  {
    forall b, c | HeldAttached(cfg, s, b, name) && Holds(cfg, s, c, name) && b != c
      ensures !DetachOrderFree(cfg, s, name)
    {
      var g := HeldDisk(cfg, s, b, name);
      var h := HeldDisk(cfg, s, c, name);
      var s1, s2 := Detached(s, g), Detached(s, h);
      assert DetachRel(cfg, s, name, s1, Ok(()), true) && DetachRel(cfg, s, name, s2, Ok(()), true);
      assert s1.disks[g].attached.None? && s2.disks[g].attached.Some?;
    }
    forall s1, r1, s2, r2 | DetachRel(cfg, s, name, s1, r1, true) && DetachRel(cfg, s, name, s2, r2, true)
                            && (forall b, c :: HeldAttached(cfg, s, b, name) && Holds(cfg, s, c, name) ==> b == c)
      ensures s1 == s2 && r1 == r2
    {
      DetachOutcome(cfg, s, name, s1, r1);
      DetachOutcome(cfg, s, name, s2, r2);
    }
  }

  lemma HeldDisk(cfg: Config, s: State, c: string, name: string) returns (h: Href)
    requires Inv(cfg, s) && Holds(cfg, s, c, name)
    ensures h in s.disks && LoneDisk(s, c, name) == Ok(h) && s.disks[h].vdc == c
    ensures DetachIn(s, c, name) == (Detached(s, h), Ok(()))
    ensures forall g :: g in Detached(s, h).disks <==> g in s.disks
    ensures forall g :: g in s.disks ==> Detached(s, h).disks[g].attached == if g == h then None else s.disks[g].attached
    ensures s.disks[h].attached.None? ==> Detached(s, h) == s
  {
    h := LoneDisk(s, c, name).value;
    assert h in DisksNamed(s, c, name);
    DetachEffect(cfg, s, h);
    DetachKeepsInv(cfg, s, h);
  }

  lemma DetachOutcome(cfg: Config, s: State, name: string, s': State, r: Result<(), Error>)
    requires Inv(cfg, s) && DetachRel(cfg, s, name, s', r, true)
    ensures r == Ok(())
    ensures || (s' == s && forall c :: HeldAttached(cfg, s, c, name) ==> exists b :: Holds(cfg, s, b, name) && b != c)
            || exists c :: HeldAttached(cfg, s, c, name) && s' == DetachIn(s, c, name).0
  {
    if (forall c :: c in cfg.vdcs ==> LoneDisk(s, c, name) == Err(EntityNotFound)) && s' == s && r == Ok(()) {
    } else {
      var c :| c in cfg.vdcs && LoneDisk(s, c, name) != Err(EntityNotFound) && (s', r) == DetachIn(s, c, name);
      NeverTwoDisks(cfg, s, c, name);
      assert Holds(cfg, s, c, name);
      var h := HeldDisk(cfg, s, c, name);
      if s.disks[h].attached.Some? {
        assert HeldAttached(cfg, s, c, name);
      }
    }
  }

  // ---------- Attaching twice ----------

  /** VDC c, should it have the VM, has the disk on it in the slot that r reports. */
  ghost predicate AnswersThere(s: State, c: string, vm: string, name: string, r: Result<DiskAttachParams, Error>) {
    FindVm(s, c, vm).Some? ==>
      var v := FindVm(s, c, vm).value;
      && LoneDisk(s, c, name).Ok? && LoneDisk(s, c, name).value in s.disks
      && var h := LoneDisk(s, c, name).value;
         && AttachedHere(s, v, h)
         && r == Ok(ParamsFor(name, s.vms[v].settings[SlotOf(s.vms[v].settings, h).value].unit, s.disks[h].sizeMb))
  }

  /** An attach in VDC c succeeds without effect exactly when the disk is there already. */
  lemma ViaThere(cfg: Config, s: State, c: string, u: int, vm: string, name: string,
                 s': State, r: Result<DiskAttachParams, Error>)
    requires Inv(cfg, s) && AttachVia(cfg, s, c, u, vm, name, s', r)
    ensures s' == s && r.Ok? <==> VerdictOf(cfg, s, c, vm, name).value.Here?
    ensures s' == s && r.Ok? ==> AnswersThere(s, c, vm, name, r)
  {
    VerdictEnds(cfg, s, c, u, vm, name, s', r);
    if LoneDisk(s, c, name).Ok? {
      assert LoneDisk(s, c, name).value in DisksNamed(s, c, name);
    }
  }

  ghost predicate OnlyAnswer(cfg: Config, s: State, vm: string, name: string, r: Result<DiskAttachParams, Error>) {
    forall s', r' :: AttachRel(cfg, s, vm, name, s', r', true) ==> s' == s && r' == r
  }

  /** After a successful attach every further undisturbed one answers the same and changes nothing exactly when each
      VDC that has the VM has the disk on it, in a slot and with a size of the answer given. */
  lemma AttachRepeats(cfg: Config, s: State, vm: string, name: string, s1: State, r1: Result<DiskAttachParams, Error>)
    requires Inv(cfg, s) && AttachRel(cfg, s, vm, name, s1, r1, true) && r1.Ok?
    ensures OnlyAnswer(cfg, s1, vm, name, r1) <==>
            forall c :: c in cfg.vdcs ==> AnswersThere(s1, c, vm, name, r1)
  {
    var b, v, h := AttachPlaces(cfg, s, vm, name, s1, r1, true);
    SameVmFound(s, s1, Listed(s, b), vm);
    RepeatsIn(cfg, s1, b, vm, name, r1);
  }

  lemma RepeatsIn(cfg: Config, s: State, b: string, vm: string, name: string, r: Result<DiskAttachParams, Error>)
    requires Inv(cfg, s) && b in cfg.vdcs && FindVm(s, b, vm).Some? && r.Ok?
    ensures OnlyAnswer(cfg, s, vm, name, r) <==> forall c :: c in cfg.vdcs ==> AnswersThere(s, c, vm, name, r)
  {
    forall c | c in cfg.vdcs && OnlyAnswer(cfg, s, vm, name, r)
      ensures AnswersThere(s, c, vm, name, r)
    {
      if FindVm(s, c, vm).Some? {
        var s', u, r' := SomeVia(cfg, s, c, vm, name);
        assert AttachRel(cfg, s, vm, name, s', r', true);
        ViaThere(cfg, s, c, u, vm, name, s', r');
      }
    }
    forall s', r' | AttachRel(cfg, s, vm, name, s', r', true)
                    && (forall c :: c in cfg.vdcs ==> AnswersThere(s, c, vm, name, r))
      ensures s' == s && r' == r
    {
      var c, u :| AttachVia(cfg, s, c, u, vm, name, s', r');
      assert AnswersThere(s, c, vm, name, r);
    }
  }
}
