/** Review Board's version tuple and the strings derived from it (reviewboard/__init__.py). */
module Version {
  import opened Text

  /** (Major, Minor, Micro, Patch, alpha/beta/rc/final, Release Number, Released). */
  datatype VersionInfo = VersionInfo(
    major: nat, minor: nat, micro: nat, patch: nat,
    tag: string, releaseNum: nat, released: bool)

  /** The version this release of Review Board declares. */
  const Current := VersionInfo(8, 0, 0, 0, "alpha", 0, false)

  const ManualBase := "https://www.reviewboard.org/docs/manual/"

  /** The dotted numeric part: micro appears when micro or patch is set, patch when patch is set. */
  function NumericPart(v: VersionInfo): string {
    var base := NatToString(v.major) + "." + NatToString(v.minor);
    var withMicro := if v.micro != 0 || v.patch != 0 then base + "." + NatToString(v.micro) else base;
    if v.patch != 0 then withMicro + "." + NatToString(v.patch) else withMicro
  }

  /** The human-readable version string. */
  function VersionString(v: VersionInfo): (r: string)
    ensures StartsWith(r, NumericPart(v))
  {
    var num := NumericPart(v);
    var tagged :=
      if v.tag == "final" then num
      else if v.tag == "rc" then num + " RC" + NatToString(v.releaseNum)
      else num + " " + v.tag + " " + NatToString(v.releaseNum);
    if !v.released then tagged + " (dev)" else tagged
  }

  /** The Python package version string (alpha and beta abbreviated, no spaces added). */
  function PackageVersion(v: VersionInfo): (r: string)
    ensures StartsWith(r, NumericPart(v))
  {
    var num := NumericPart(v);
    if v.tag == "final" then num
    else
      var short := if v.tag == "alpha" then "a" else if v.tag == "beta" then "b" else v.tag;
      num + short + NatToString(v.releaseNum)
  }

  function IsRelease(v: VersionInfo): bool {
    v.released
  }

  /** The user manual URL: the "dev" manual for unreleased x.y.0 versions. */
  function ManualUrl(v: VersionInfo): (r: string)
    ensures StartsWith(r, ManualBase) && EndsWith(r, "/")
  {
    var manualVer := if v.micro == 0 && v.tag != "final" then "dev" else NatToString(v.major) + "." + NatToString(v.minor);
    ManualBase + manualVer + "/"
  }

  function CountChar(s: string, c: char): nat {
    if |s| == 0 then 0 else CountChar(s[..|s| - 1], c) + (if s[|s| - 1] == c then 1 else 0)
  }

  lemma {:induction false} CountCharAppend(a: string, b: string, c: char)
    ensures CountChar(a + b, c) == CountChar(a, c) + CountChar(b, c)
    decreases |b|
  {
    if |b| == 0 {
      assert a + b == a;
    } else {
      assert (a + b)[..|a + b| - 1] == a + b[..|b| - 1];
      CountCharAppend(a, b[..|b| - 1], c);
    }
  }

  lemma {:induction false} DigitsHaveNoDot(n: nat)
    ensures CountChar(NatToString(n), '.') == 0
  {
    var s := NatToString(n);
    if n >= 10 {
      DigitsHaveNoDot(n / 10);
      CountCharAppend(NatToString(n / 10), [DigitChar(n % 10)], '.');
    }
  }

  /** The numeric part has one dot per component after the major number. */
  lemma NumericPartDots(v: VersionInfo)
    ensures CountChar(NumericPart(v), '.') ==
      1 + (if v.micro != 0 || v.patch != 0 then 1 else 0) + (if v.patch != 0 then 1 else 0)
  {
    DigitsHaveNoDot(v.major);
    DigitsHaveNoDot(v.minor);
    DigitsHaveNoDot(v.micro);
    DigitsHaveNoDot(v.patch);
    var base := NatToString(v.major) + "." + NatToString(v.minor);
    CountCharAppend(NatToString(v.major), ".", '.');
    CountCharAppend(NatToString(v.major) + ".", NatToString(v.minor), '.');
    var withMicro := if v.micro != 0 || v.patch != 0 then base + "." + NatToString(v.micro) else base;
    if v.micro != 0 || v.patch != 0 {
      CountCharAppend(base, ".", '.');
      CountCharAppend(base + ".", NatToString(v.micro), '.');
    }
    if v.patch != 0 {
      CountCharAppend(withMicro, ".", '.');
      CountCharAppend(withMicro + ".", NatToString(v.patch), '.');
    }
  }

  /** The " (dev)" marker appears exactly on unreleased versions. */
  lemma DevMarker(v: VersionInfo)
    ensures EndsWith(VersionString(v), " (dev)") <==> !v.released
  {
    var r := VersionString(v);
    if v.released {
      var last :=
        if v.tag == "final" then
          if v.patch != 0 then NatToString(v.patch)
          else if v.micro != 0 then NatToString(v.micro)
          else NatToString(v.minor)
        else NatToString(v.releaseNum);
      assert EndsWith(r, last);
      assert IsDigit(r[|r| - 1]) by {
        assert r[|r| - 1] == last[|last| - 1];
      }
    }
  }

  /** A released final version reads the same in both forms. */
  lemma FinalReleaseForms(v: VersionInfo)
    requires v.tag == "final" && v.released
    ensures VersionString(v) == PackageVersion(v) == NumericPart(v)
  {
  }

  /** Release-candidate tags are rendered " RC<n>" for humans and "rc<n>" for packaging. */
  lemma ReleaseCandidateForms(v: VersionInfo)
    requires v.tag == "rc"
    ensures VersionString(v) ==
      NumericPart(v) + " RC" + NatToString(v.releaseNum) + (if v.released then "" else " (dev)")
    ensures PackageVersion(v) == NumericPart(v) + "rc" + NatToString(v.releaseNum)
  {
  }

  /**
   * Alpha and beta tags are spelled out for people (" alpha <n>") and abbreviated to their
   * first letter for packaging ("a<n>").
   */
  lemma AlphaBetaForms(v: VersionInfo)
    requires v.tag == "alpha" || v.tag == "beta"
    ensures VersionString(v) ==
      NumericPart(v) + " " + v.tag + " " + NatToString(v.releaseNum) + (if v.released then "" else " (dev)")
    ensures PackageVersion(v) == NumericPart(v) + [v.tag[0]] + NatToString(v.releaseNum)
  {
  }

  /** Any other non-final tag is written out in full in both forms. */
  lemma OtherTagForms(v: VersionInfo)
    requires v.tag !in {"final", "rc", "alpha", "beta"}
    ensures VersionString(v) ==
      NumericPart(v) + " " + v.tag + " " + NatToString(v.releaseNum) + (if v.released then "" else " (dev)")
    ensures PackageVersion(v) == NumericPart(v) + v.tag + NatToString(v.releaseNum)
  {
  }

  /**
   * The manual is the "dev" one exactly for x.y.0 versions that are not final; every other
   * version links the manual of its major.minor series.
   */
  lemma ManualVersions(v: VersionInfo)
    ensures ManualUrl(v) == ManualBase + "dev/" <==> v.micro == 0 && v.tag != "final"
    ensures !(v.micro == 0 && v.tag != "final") ==>
      ManualUrl(v) == ManualBase + NatToString(v.major) + "." + NatToString(v.minor) + "/"
  {
    if !(v.micro == 0 && v.tag != "final") {
      var series := NatToString(v.major) + "." + NatToString(v.minor);
      assert ManualUrl(v) == ManualBase + series + "/";
      assert ManualUrl(v)[|ManualBase|] == NatToString(v.major)[0];
      assert (ManualBase + "dev/")[|ManualBase|] == 'd';
    }
  }

  /** The version shipped in the source tree. */
  lemma CurrentStrings()
    ensures VersionString(Current) == "8.0 alpha 0 (dev)"
    ensures PackageVersion(Current) == "8.0a0"
    ensures ManualUrl(Current) == "https://www.reviewboard.org/docs/manual/dev/"
    ensures !IsRelease(Current)
  {
    assert NatToString(8) == "8";
    assert NatToString(0) == "0";
  }
}
