/** Guest operating system detection and the paths derived from it (os.go). */
module GuestOs {
  import opened Text

  datatype Os = Linux | Windows

  datatype VolumeStatus = VolumeStatus(name: string, ready: bool, target: string, hotplug: bool)

  /** The part of a VirtualMachineInstance the operator looks at. */
  datatype Vmi = Vmi(osAnnotation: Option<string>, guestOsName: string, volumeStatus: seq<VolumeStatus>)

  /**
   strings.ToLower on the characters that matter here: the only character outside ASCII that
   folds to a letter of "windows" is U+0130.
   */
  function LowerChar(c: char): char {
    if 'A' <= c <= 'Z' then (c as int + 32) as char
    else if c as int == 0x130 then 'i'
    else c
  }

  function Lower(s: string): (r: string)
    ensures |r| == |s|
  {
    if s == "" then "" else [LowerChar(s[0])] + Lower(s[1..])
  }

  /** strings.Contains */
  predicate Contains(s: string, part: string) {
    HasPrefix(s, part) || (s != "" && Contains(s[1..], part))
  }

  /** part stands in s at position i. */
  predicate Occurs(s: string, part: string, i: nat) { i + |part| <= |s| && s[i..i + |part|] == part }

  lemma {:induction false} ContainsAt(s: string, part: string)
    ensures Contains(s, part) <==> exists i: nat :: Occurs(s, part, i)
    decreases |s|
  {
    if HasPrefix(s, part) {
      assert Occurs(s, part, 0);
    } else if s != "" {
      ContainsAt(s[1..], part);
      if i: nat :| Occurs(s, part, i) {
        assert i > 0;
        assert Occurs(s[1..], part, i - 1) by { Shifted(s, part, i - 1); }
      }
      if i: nat :| Occurs(s[1..], part, i) { Shifted(s, part, i); }
    }
  }

  lemma Shifted(s: string, part: string, i: nat)
    requires s != ""
    ensures Occurs(s[1..], part, i) <==> Occurs(s, part, i + 1)
  {
    if i + 1 + |part| <= |s| { assert s[1..][i..i + |part|] == s[i + 1..i + 1 + |part|]; }
  }

  /** Annotation first, guest agent second, Linux by default. */
  function DetectGuestOs(vmi: Vmi): Os {
    if vmi.osAnnotation.Some? && vmi.osAnnotation.value != "" then
      if HasPrefix(Lower(vmi.osAnnotation.value), "windows") then Windows else Linux
    else if vmi.guestOsName != "" && Contains(Lower(vmi.guestOsName), "windows") then Windows
    else Linux
  }

  /** The n characters of s from i on fold to `lower`. */
  predicate FoldsTo(s: string, i: nat, lower: string) {
    i + |lower| <= |s| && forall k :: 0 <= k < |lower| ==> LowerChar(s[i + k]) == lower[k]
  }

  /** A non-empty annotation decides by its first letters, otherwise the agent's name by any of its letters. */
  ghost predicate WindowsGuest(vmi: Vmi) {
    if vmi.osAnnotation.Some? && vmi.osAnnotation.value != "" then FoldsTo(vmi.osAnnotation.value, 0, "windows")
    else exists i: nat :: FoldsTo(vmi.guestOsName, i, "windows")
  }

  lemma {:induction false} LowerAt(s: string, i: nat)
    requires i < |s|
    ensures Lower(s)[i] == LowerChar(s[i])
  {
    if i > 0 { LowerAt(s[1..], i - 1); }
  }

  lemma OccursFolds(s: string, part: string, i: nat)
    ensures Occurs(Lower(s), part, i) <==> FoldsTo(s, i, part)
  {
    if i + |part| <= |s| {
      var here := Lower(s)[i..i + |part|];
      forall k | 0 <= k < |part| ensures here[k] == LowerChar(s[i + k]) { LowerAt(s, i + k); }
    }
  }

  /** The detected system is Windows exactly for the guests described, whatever the case of the letters. */
  lemma DetectMeans(vmi: Vmi)
    ensures DetectGuestOs(vmi).Windows? <==> WindowsGuest(vmi)
  {
    hide LowerChar, Contains;
    if vmi.osAnnotation.Some? && vmi.osAnnotation.value != "" {
      var a := vmi.osAnnotation.value;
      OccursFolds(a, "windows", 0);
      assert HasPrefix(Lower(a), "windows") <==> Occurs(Lower(a), "windows", 0) by {
        if |"windows"| <= |Lower(a)| { assert Lower(a)[0..|"windows"|] == Lower(a)[..|"windows"|]; }
      }
    } else {
      ContainsAt(Lower(vmi.guestOsName), "windows");
      forall i: nat ensures Occurs(Lower(vmi.guestOsName), "windows", i) <==> FoldsTo(vmi.guestOsName, i, "windows") {
        OccursFolds(vmi.guestOsName, "windows", i);
      }
      if Contains(Lower(vmi.guestOsName), "windows") {
        var i: nat :| Occurs(Lower(vmi.guestOsName), "windows", i);
        assert FoldsTo(vmi.guestOsName, i, "windows");
      }
      if i: nat :| FoldsTo(vmi.guestOsName, i, "windows") { assert Occurs(Lower(vmi.guestOsName), "windows", i); }
    }
  }

  function MountBase(os: Os): string {
    if os.Windows? then "C:\\backup" else "/backup"
  }

  function MountPath(os: Os, sourceName: string): string {
    MountBase(os) + "-" + sourceName
  }

  function HelperScript(os: Os): string {
    if os.Windows? then "\"C:\\Program Files\\filerestore\\filerestore.bat\"" else "/usr/local/bin/filerestore.sh"
  }

  /** On one guest, two restores share a mount path exactly when their sources share a name. */
  lemma MountPathsCollide(os: Os, a: string, b: string)
    ensures MountPath(os, a) == MountPath(os, b) <==> a == b
  {
    if MountPath(os, a) == MountPath(os, b) {
      PrependCancels(MountBase(os) + "-", a, b);
    }
  }
}
