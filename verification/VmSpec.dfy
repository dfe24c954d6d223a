/**
 The volume and disk lists of a VirtualMachine spec and what hotplug.go does to them.

 Volumes and disks are both lists of named entries; `ref` stands for the claim a volume
 points at, and for the serial a disk carries.  Names ending in "-restore" are reserved
 for restores, every other entry is ordinary.
 */
module VmSpec {
  import opened Text

  datatype Entry = Entry(name: string, ref: string)
  datatype Vm = Vm(volumes: seq<Entry>, disks: seq<Entry>)

  predicate IsRestoreName(s: string) { HasSuffix(s, "-restore") }
  predicate IsOrdinaryName(s: string) { !IsRestoreName(s) }

  /** The name shared by the volume, the disk and the serial of a restore. */
  function VolumeName(crName: string): (name: string)
    requires crName != ""
    ensures IsRestoreName(name)
  {
    var name := crName + "-restore";
    assert name[|name| - |"-restore"|..] == "-restore";
    name
  }

  /** Two restores never share a volume name. */
  lemma VolumeNameInjective(a: string, b: string)
    requires a != "" && b != ""
    requires VolumeName(a) == VolumeName(b)
    ensures a == b
  {
  }

  // ---------------------------------------------------------------------------
  // Filtering by name
  // ---------------------------------------------------------------------------

  function Keep(xs: seq<Entry>, p: string -> bool): seq<Entry> {
    if xs == [] then [] else
      Keep(xs[..|xs| - 1], p) + (if p(xs[|xs| - 1].name) then [xs[|xs| - 1]] else [])
  }

  lemma {:induction false} KeepMembers(xs: seq<Entry>, p: string -> bool)
    ensures forall e :: e in Keep(xs, p) <==> e in xs && p(e.name)
  {
    if xs != [] {
      KeepMembers(xs[..|xs| - 1], p);
      assert xs == xs[..|xs| - 1] + [xs[|xs| - 1]];
    }
  }

  function OtherThan(name: string): string -> bool { s => s != name }

  predicate Has(xs: seq<Entry>, name: string) {
    exists e :: e in xs && e.name == name
  }

  function Without(xs: seq<Entry>, name: string): seq<Entry> { Keep(xs, OtherThan(name)) }
  function Restores(xs: seq<Entry>): seq<Entry> { Keep(xs, IsRestoreName) }
  function Ordinary(xs: seq<Entry>): seq<Entry> { Keep(xs, IsOrdinaryName) }

  lemma {:induction false} KeepAppend(xs: seq<Entry>, ys: seq<Entry>, p: string -> bool)
    ensures Keep(xs + ys, p) == Keep(xs, p) + Keep(ys, p)
  {
    if ys == [] {
      assert xs + ys == xs;
    } else {
      var init := ys[..|ys| - 1];
      KeepAppend(xs, init, p);
      assert (xs + ys)[..|xs + ys| - 1] == xs + init;
    }
  }

  lemma {:induction false} KeepAll(xs: seq<Entry>, p: string -> bool)
    requires forall e :: e in xs ==> p(e.name)
    ensures Keep(xs, p) == xs
  {
    if xs != [] {
      KeepAll(xs[..|xs| - 1], p);
      assert xs == xs[..|xs| - 1] + [xs[|xs| - 1]];
    }
  }

  lemma {:induction false} KeepNone(xs: seq<Entry>, p: string -> bool)
    requires forall e :: e in xs ==> !p(e.name)
    ensures Keep(xs, p) == []
  {
    if xs != [] {
      KeepNone(xs[..|xs| - 1], p);
    }
  }

  lemma {:induction false} KeepOne(e: Entry, p: string -> bool)
    ensures Keep([e], p) == if p(e.name) then [e] else []
  {
  }

  /** Filters commute. */
  lemma {:induction false} KeepSwap(xs: seq<Entry>, p: string -> bool, q: string -> bool)
    ensures Keep(Keep(xs, p), q) == Keep(Keep(xs, q), p)
  {
    if xs != [] {
      var init, last := xs[..|xs| - 1], xs[|xs| - 1];
      KeepSwap(init, p, q);
      KeepAppend(Keep(init, p), if p(last.name) then [last] else [], q);
      KeepAppend(Keep(init, q), if q(last.name) then [last] else [], p);
      KeepOne(last, p);
      KeepOne(last, q);
    }
  }

  // ---------------------------------------------------------------------------
  // Hotplug, unplug and the merge patch
  // ---------------------------------------------------------------------------

  /** What HotplugVolume finds when it scans the VM it read. */
  datatype Verdict = Busy | Present | Partial | Absent

  predicate HeldByOther(vm: Vm, name: string) {
    exists v :: v in vm.volumes && IsRestoreName(v.name) && v.name != name
  }

  function PlugVerdict(vm: Vm, name: string): Verdict {
    if HeldByOther(vm, name) then Busy
    else if Has(vm.volumes, name) && Has(vm.disks, name) then Present
    else if Has(vm.volumes, name) || Has(vm.disks, name) then Partial
    else Absent
  }

  function Plug(vm: Vm, name: string, claim: string): Vm {
    Vm(vm.volumes + [Entry(name, claim)], vm.disks + [Entry(name, name)])
  }

  function Unplug(vm: Vm, name: string): Vm {
    Vm(Without(vm.volumes, name), Without(vm.disks, name))
  }

  /**
   A JSON merge patch computed between `base` (the version that was read) and `edited`,
   applied to `current`.  A list that did not change is not in the patch; a list that did
   replaces the current one wholesale (section 2 of RFC 7396).
   */
  function MergePatch(current: Vm, base: Vm, edited: Vm): Vm {
    Vm(if base.volumes == edited.volumes then current.volumes else edited.volumes,
       if base.disks == edited.disks then current.disks else edited.disks)
  }

  predicate Holds(vm: Vm, name: string) { Has(vm.volumes, name) && Has(vm.disks, name) }
  predicate Mentions(vm: Vm, name: string) { Has(vm.volumes, name) || Has(vm.disks, name) }

  /** At most one restore, and its volume and disk come as a pair. */
  predicate Exclusive(vm: Vm) {
    && |Restores(vm.volumes)| <= 1
    && |Restores(vm.disks)| == |Restores(vm.volumes)|
    && (|Restores(vm.volumes)| == 1 ==> Restores(vm.volumes)[0].name == Restores(vm.disks)[0].name)
  }

  predicate NoRestores(vm: Vm) { Restores(vm.volumes) == [] && Restores(vm.disks) == [] }

  /** The scan loops of HotplugVolume. */
  method CheckHotplug(vm: Vm, name: string) returns (verdict: Verdict)
    ensures verdict == PlugVerdict(vm, name)
  {
    for i := 0 to |vm.volumes|
      invariant forall k :: 0 <= k < i ==> !IsRestoreName(vm.volumes[k].name) || vm.volumes[k].name == name
    {
      if IsRestoreName(vm.volumes[i].name) && vm.volumes[i].name != name {
        return Busy;
      }
    }
    var volumeExists := FindEntry(vm.volumes, name);
    var diskExists := FindEntry(vm.disks, name);
    if volumeExists && diskExists {
      return Present;
    }
    if volumeExists || diskExists {
      return Partial;
    }
    return Absent;
  }

  method FindEntry(xs: seq<Entry>, name: string) returns (found: bool)
    ensures found <==> Has(xs, name)
  {
    found := false;
    for i := 0 to |xs|
      invariant !found
      invariant forall k :: 0 <= k < i ==> xs[k].name != name
    {
      if xs[i].name == name {
        found := true;
        break;
      }
    }
  }

  /** The two filter loops of UnplugVolume. */
  method FilterOut(vm: Vm, name: string) returns (edited: Vm)
    ensures edited == Unplug(vm, name)
  {
    var volumes, disks: seq<Entry> := [], [];
    for i := 0 to |vm.volumes|
      invariant volumes == Without(vm.volumes[..i], name)
    {
      assert vm.volumes[..i + 1][..i] == vm.volumes[..i];
      if vm.volumes[i].name != name {
        volumes := volumes + [vm.volumes[i]];
      }
    }
    for i := 0 to |vm.disks|
      invariant disks == Without(vm.disks[..i], name)
    {
      assert vm.disks[..i + 1][..i] == vm.disks[..i];
      if vm.disks[i].name != name {
        disks := disks + [vm.disks[i]];
      }
    }
    assert vm.volumes[..|vm.volumes|] == vm.volumes && vm.disks[..|vm.disks|] == vm.disks;
    edited := Vm(volumes, disks);
  }

  // ---------------------------------------------------------------------------
  // Consequences for one VM
  // ---------------------------------------------------------------------------

  lemma ExclusiveNames(vm: Vm, name: string)
    requires Exclusive(vm) && IsRestoreName(name)
    ensures Has(vm.volumes, name) <==> Has(vm.disks, name)
    ensures Has(vm.volumes, name) ==> |Restores(vm.volumes)| == 1 && Restores(vm.volumes)[0].name == name && !HeldByOther(vm, name)
    ensures Has(vm.disks, name) ==> |Restores(vm.disks)| == 1 && Restores(vm.disks)[0].name == name
  {
    var rv, rd := Restores(vm.volumes), Restores(vm.disks);
    KeepMembers(vm.volumes, IsRestoreName);
    KeepMembers(vm.disks, IsRestoreName);
    if Has(vm.volumes, name) {
      var e :| e in vm.volumes && e.name == name;
      assert e in rv;
      assert rd[0] in rd && rd[0] in vm.disks;
    }
    if Has(vm.disks, name) {
      var e :| e in vm.disks && e.name == name;
      assert e in rd;
      assert rv[0] in rv && rv[0] in vm.volumes;
    }
    forall o | o in vm.volumes && IsRestoreName(o.name) && Has(vm.volumes, name)
      ensures o.name == name
    {
      assert o in rv;
    }
  }

  /** On an exclusive VM the "partial hotplug" branch cannot be taken. */
  lemma NeverPartial(vm: Vm, name: string)
    requires Exclusive(vm) && IsRestoreName(name)
    ensures PlugVerdict(vm, name) != Partial
  {
    ExclusiveNames(vm, name);
  }

  lemma PlugKeepsExclusive(vm: Vm, name: string, claim: string)
    requires Exclusive(vm) && IsRestoreName(name) && PlugVerdict(vm, name) == Absent
    ensures Exclusive(Plug(vm, name, claim))
    ensures Restores(vm.volumes) == []
    ensures Holds(Plug(vm, name, claim), name)
  {
    var v, d := Entry(name, claim), Entry(name, name);
    KeepNone(vm.volumes, IsRestoreName);
    KeepAppend(vm.volumes, [v], IsRestoreName);
    KeepAppend(vm.disks, [d], IsRestoreName);
    KeepOne(v, IsRestoreName);
    KeepOne(d, IsRestoreName);
    assert v in Plug(vm, name, claim).volumes && d in Plug(vm, name, claim).disks;
  }

  lemma WithoutRestores(xs: seq<Entry>, name: string)
    ensures Restores(Without(xs, name)) == Keep(Restores(xs), OtherThan(name))
  {
    KeepSwap(xs, OtherThan(name), IsRestoreName);
  }

  lemma WithoutIsId(xs: seq<Entry>, name: string)
    ensures xs == Without(xs, name) <==> !Has(xs, name)
    ensures !Has(Without(xs, name), name)
  {
    KeepMembers(xs, OtherThan(name));
    if !Has(xs, name) {
      KeepAll(xs, OtherThan(name));
    }
  }

  lemma UnplugKeepsExclusive(vm: Vm, name: string)
    requires Exclusive(vm) && IsRestoreName(name)
    ensures Exclusive(Unplug(vm, name))
  {
    WithoutRestores(vm.volumes, name);
    WithoutRestores(vm.disks, name);
    var rv, rd := Restores(vm.volumes), Restores(vm.disks);
    if rv != [] {
      assert rv == [rv[0]] && rd == [rd[0]];
      KeepOne(rv[0], OtherThan(name));
      KeepOne(rd[0], OtherThan(name));
    }
  }

  lemma UnplugChanges(vm: Vm, name: string)
    requires Exclusive(vm) && IsRestoreName(name)
    ensures !Mentions(Unplug(vm, name), name)
    ensures vm.volumes == Without(vm.volumes, name) <==> !Mentions(vm, name)
    ensures vm.disks == Without(vm.disks, name) <==> !Mentions(vm, name)
  {
    ExclusiveNames(vm, name);
    WithoutIsId(vm.volumes, name);
    WithoutIsId(vm.disks, name);
  }

  /** Whatever version the patch was computed from, an unplug patch keeps a VM exclusive. */
  lemma UnplugPatchKeepsExclusive(current: Vm, base: Vm, name: string)
    requires Exclusive(current) && Exclusive(base) && IsRestoreName(name)
    ensures Exclusive(MergePatch(current, base, Unplug(base, name)))
    ensures MergePatch(current, base, Unplug(base, name)) == if Mentions(base, name) then Unplug(base, name) else current
  {
    UnplugKeepsExclusive(base, name);
    UnplugChanges(base, name);
  }

  /** A hotplug patch always replaces both lists. */
  lemma PlugPatch(current: Vm, base: Vm, name: string, claim: string)
    ensures MergePatch(current, base, Plug(base, name, claim)) == Plug(base, name, claim)
  {
  }

  /**
   An unplug computed from version `base` takes the restore out of the current spec exactly
   when `base` already showed it, or it was not there anyway.
   */
  lemma UnplugEffective(current: Vm, base: Vm, name: string)
    requires Exclusive(current) && Exclusive(base) && IsRestoreName(name)
    ensures !Mentions(MergePatch(current, base, Unplug(base, name)), name) <==> Mentions(base, name) || !Mentions(current, name)
  {
    UnplugChanges(base, name);
    UnplugPatchKeepsExclusive(current, base, name);
  }

  /**
   A hotplug patch that was computed from an old version destroys another restore's volume
   exactly when that other restore has one: the patch carries the old list wholesale.
   */
  lemma HotplugPatchPreservesOthers(current: Vm, base: Vm, name: string, claim: string)
    requires Exclusive(current) && Exclusive(base) && IsRestoreName(name)
    requires PlugVerdict(base, name) == Absent
    ensures (forall other :: IsRestoreName(other) && other != name && Holds(current, other)
                ==> Holds(MergePatch(current, base, Plug(base, name, claim)), other))
            <==> !HeldByOther(current, name)
  {
    var patched := Plug(base, name, claim);
    PlugPatch(current, base, name, claim);
    PlugKeepsExclusive(base, name, claim);
    if HeldByOther(current, name) {
      var o :| o in current.volumes && IsRestoreName(o.name) && o.name != name;
      ExclusiveNames(current, o.name);
      ExclusiveNames(patched, o.name);
      ExclusiveNames(patched, name);
      assert Holds(current, o.name) && !Holds(patched, o.name);
    }
  }

  // ---------------------------------------------------------------------------
  // Nothing else is disturbed, and unplug undoes hotplug
  // ---------------------------------------------------------------------------

  /** The volumes and disks that are not a restore's, in order. */
  function OrdinaryVm(vm: Vm): Vm { Vm(Ordinary(vm.volumes), Ordinary(vm.disks)) }

  lemma EditsKeepOrdinary(vm: Vm, name: string, claim: string)
    requires IsRestoreName(name)
    ensures OrdinaryVm(Plug(vm, name, claim)) == OrdinaryVm(vm) && OrdinaryVm(Unplug(vm, name)) == OrdinaryVm(vm)
  {
    KeepAppend(vm.volumes, [Entry(name, claim)], IsOrdinaryName);
    KeepAppend(vm.disks, [Entry(name, name)], IsOrdinaryName);
    KeepOne(Entry(name, claim), IsOrdinaryName);
    KeepOne(Entry(name, name), IsOrdinaryName);
    KeepSwap(vm.volumes, OtherThan(name), IsOrdinaryName);
    KeepSwap(vm.disks, OtherThan(name), IsOrdinaryName);
    KeepMembers(vm.volumes, IsOrdinaryName);
    KeepMembers(vm.disks, IsOrdinaryName);
    KeepAll(Ordinary(vm.volumes), OtherThan(name));
    KeepAll(Ordinary(vm.disks), OtherThan(name));
  }

  /**
   A hotplug patch keeps every ordinary entry, in order, exactly when the version it was computed
   from had the same ones; so does an unplug patch, unless that version did not show the restore.
   */
  lemma PatchKeepsOrdinary(current: Vm, base: Vm, name: string, claim: string)
    requires Exclusive(current) && Exclusive(base) && IsRestoreName(name)
    ensures OrdinaryVm(MergePatch(current, base, Plug(base, name, claim))) == OrdinaryVm(current)
            <==> OrdinaryVm(base) == OrdinaryVm(current)
    ensures OrdinaryVm(MergePatch(current, base, Unplug(base, name))) == OrdinaryVm(current)
            <==> !Mentions(base, name) || OrdinaryVm(base) == OrdinaryVm(current)
  {
    hide Exclusive, MergePatch, Plug, Unplug, Mentions, OrdinaryVm;
    EditsKeepOrdinary(base, name, claim);
    PlugPatch(current, base, name, claim);
    UnplugPatchKeepsExclusive(current, base, name);
  }

  /** Unplug undoes hotplug exactly. */
  lemma UnplugUndoesPlug(vm: Vm, name: string, claim: string)
    requires PlugVerdict(vm, name) == Absent
    ensures Unplug(Plug(vm, name, claim), name) == vm
  {
    var v, d := Entry(name, claim), Entry(name, name);
    KeepAppend(vm.volumes, [v], OtherThan(name));
    KeepAppend(vm.disks, [d], OtherThan(name));
    KeepOne(v, OtherThan(name));
    KeepOne(d, OtherThan(name));
    KeepAll(vm.volumes, OtherThan(name));
    KeepAll(vm.disks, OtherThan(name));
  }

  lemma UnplugIdempotent(vm: Vm, name: string)
    ensures Unplug(Unplug(vm, name), name) == Unplug(vm, name)
  {
    KeepMembers(vm.volumes, OtherThan(name));
    KeepMembers(vm.disks, OtherThan(name));
    KeepAll(Without(vm.volumes, name), OtherThan(name));
    KeepAll(Without(vm.disks, name), OtherThan(name));
  }

  /** Rerunning Hotplugging after a crash behind the VM patch finds the pair and adds nothing. */
  lemma RehotplugIsNoop(vm: Vm, name: string, claim: string)
    requires Exclusive(vm) && IsRestoreName(name) && PlugVerdict(vm, name) == Absent
    ensures PlugVerdict(Plug(vm, name, claim), name) == Present
  {
  }

  /** Unplugging one restore leaves every other name where it was. */
  lemma UnplugKeepsOthers(vm: Vm, name: string, other: string)
    requires other != name
    ensures Has(Without(vm.volumes, name), other) <==> Has(vm.volumes, other)
    ensures Has(Without(vm.disks, name), other) <==> Has(vm.disks, other)
  {
    KeepMembers(vm.volumes, OtherThan(name));
    KeepMembers(vm.disks, OtherThan(name));
    if Has(vm.volumes, other) {
      var e :| e in vm.volumes && e.name == other;
      assert e in Without(vm.volumes, name);
    }
    if Has(vm.disks, other) {
      var e :| e in vm.disks && e.name == other;
      assert e in Without(vm.disks, name);
    }
  }
}
