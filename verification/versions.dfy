/**
 * Version strings compared part by part, as `compareVersions` in the extension
 * and the sort comparator in the schema manager both do it.
 */
module Versions {
  import opened Wrappers
  import opened Strings

  /** `Number(part) || 0`: a run of decimal digits is its value; anything else counts as 0. */
  function PartValue(part: string): nat {
    if AllDigits(part) then DecimalValue(part) else 0
  }

  /** `v.split('.').map(Number)`, with non-numeric parts already read as 0. */
  function Components(v: string): (r: seq<nat>)
    ensures |r| == |Split(v, '.')| >= 1
  {
    var parts := Split(v, '.');
    seq(|parts|, i requires 0 <= i < |parts| => PartValue(parts[i]))
  }

  /** `parts[i] || 0`: a missing component reads as 0. */
  function At(xs: seq<nat>, i: nat): nat {
    if i < |xs| then xs[i] else 0
  }

  function Max(a: nat, b: nat): nat {
    if a < b then b else a
  }

  /** The verdict of the comparison loop entered at index `i`. */
  function CompareFrom(xs: seq<nat>, ys: seq<nat>, i: nat): (r: int)
    ensures -1 <= r <= 1
    decreases Max(|xs|, |ys|) - i
  {
    if i >= Max(|xs|, |ys|) then 0
    else if At(xs, i) < At(ys, i) then -1
    else if At(xs, i) > At(ys, i) then 1
    else CompareFrom(xs, ys, i + 1)
  }

  /** -1, 0 or 1 as version `a` is below, equal to or above version `b`. */
  function Compare(a: string, b: string): (r: int)
    ensures -1 <= r <= 1
  {
    CompareFrom(Components(a), Components(b), 0)
  }

  /** `compareVersions(a, b)`: the loop over the longer list of components. */
  method CompareVersions(a: string, b: string) returns (r: int)
    ensures r == Compare(a, b)
  {
    var aParts := Components(a);
    var bParts := Components(b);
    var n := Max(|aParts|, |bParts|);
    var i := 0;
    while i < n
      invariant 0 <= i <= n
      invariant CompareFrom(aParts, bParts, i) == CompareFrom(aParts, bParts, 0)
    {
      var aVal := At(aParts, i);
      var bVal := At(bParts, i);
      if aVal < bVal {
        return -1;
      }
      if aVal > bVal {
        return 1;
      }
      i := i + 1;
    }
    return 0;
  }

  // ---------------------------------------------------------------------------
  // What the comparison means

  /** The verdict is decided by the first differing component: -1 if it is smaller, 1 if larger. */
  lemma {:induction false} FirstDifferenceDecides(xs: seq<nat>, ys: seq<nat>, i: nat, k: nat)
    requires i <= k && At(xs, k) != At(ys, k)
    requires forall j :: i <= j < k ==> At(xs, j) == At(ys, j)
    ensures CompareFrom(xs, ys, i) == if At(xs, k) < At(ys, k) then -1 else 1
    decreases k - i
  {
    if i < k {
      assert At(xs, i) == At(ys, i);
      FirstDifferenceDecides(xs, ys, i + 1, k);
    }
  }

  /** The verdict is 0 exactly when the two lists agree once padded with zeros. */
  lemma {:induction false} EqualIffPaddedEqual(xs: seq<nat>, ys: seq<nat>, i: nat)
    ensures CompareFrom(xs, ys, i) == 0 <==> forall k :: i <= k ==> At(xs, k) == At(ys, k)
    decreases Max(|xs|, |ys|) - i
  {
    if i < Max(|xs|, |ys|) {
      EqualIffPaddedEqual(xs, ys, i + 1);
      if CompareFrom(xs, ys, i) == 0 {
        forall k | i <= k ensures At(xs, k) == At(ys, k) {
          if k > i {
            assert i + 1 <= k;
          }
        }
      }
    }
  }

  /** Swapping the arguments negates the verdict. */
  lemma {:induction false} CompareFromAntisymmetric(xs: seq<nat>, ys: seq<nat>, i: nat)
    ensures CompareFrom(ys, xs, i) == -CompareFrom(xs, ys, i)
    decreases Max(|xs|, |ys|) - i
  {
    if i < Max(|xs|, |ys|) && At(xs, i) == At(ys, i) {
      CompareFromAntisymmetric(xs, ys, i + 1);
    }
  }

  /** "Not above" is transitive, so the comparison orders versions consistently. */
  lemma {:induction false} CompareFromTransitive(xs: seq<nat>, ys: seq<nat>, zs: seq<nat>, i: nat)
    requires CompareFrom(xs, ys, i) <= 0 && CompareFrom(ys, zs, i) <= 0
    ensures CompareFrom(xs, zs, i) <= 0
    decreases Max(Max(|xs|, |ys|), |zs|) - i
  {
    if i < Max(|xs|, |zs|) && At(xs, i) == At(ys, i) && At(ys, i) == At(zs, i) {
      if i >= Max(|xs|, |ys|) {
        EqualIffPaddedEqual(xs, ys, i);
        EqualIffPaddedEqual(xs, ys, i + 1);
      } else if i >= Max(|ys|, |zs|) {
        EqualIffPaddedEqual(ys, zs, i);
        EqualIffPaddedEqual(ys, zs, i + 1);
      }
      CompareFromTransitive(xs, ys, zs, i + 1);
    }
  }

  lemma CompareAntisymmetric(a: string, b: string)
    ensures Compare(b, a) == -Compare(a, b)
  {
    CompareFromAntisymmetric(Components(a), Components(b), 0);
  }

  lemma CompareTransitive(a: string, b: string, c: string)
    requires Compare(a, b) <= 0 && Compare(b, c) <= 0
    ensures Compare(a, c) <= 0
  {
    CompareFromTransitive(Components(a), Components(b), Components(c), 0);
  }

  /** Every version compares equal to itself. */
  lemma CompareReflexive(a: string)
    ensures Compare(a, a) == 0
  {
    EqualIffPaddedEqual(Components(a), Components(a), 0);
  }

  /** A trailing `.0` changes nothing: `0.102` and `0.102.0` compare equal. */
  lemma TrailingZeroIgnored(v: string)
    ensures Compare(v, v + ".0") == 0
  {
    var ps, qs := Split(v, '.'), Split(v + ".0", '.');
    assert qs == ps + ["0"] by {
      assert v + ".0" == v + ['.'] + "0";
      SplitSnoc(v, "0", '.');
    }
    var xs, ys := Components(v), Components(v + ".0");
    assert ys[|xs|] == 0 by {
      assert qs[|ps|] == "0";
      assert AllDigits("0");
    }
    forall k | 0 <= k ensures At(xs, k) == At(ys, k) {
      if k < |xs| {
        assert qs[k] == ps[k];
      }
    }
    EqualIffPaddedEqual(xs, ys, 0);
  }

  // ---------------------------------------------------------------------------
  // The compatibility banner

  const EarliestSupported := "0.102.0"

  datatype Notice = WarningNotice(message: string) | InfoNotice(message: string)

  /**
   * What `checkVersionCompatibility` shows for a schema version: nothing for the exact
   * text `0.102.0`, a warning for a version that compares below it, information otherwise.
   */
  function CompatibilityNotice(version: string): (r: Option<Notice>)
    ensures r.None? <==> version == EarliestSupported
    ensures r.Some? ==> (r.value.WarningNotice? <==> Compare(version, EarliestSupported) < 0)
  {
    if version == EarliestSupported then None
    else if Compare(version, EarliestSupported) < 0 then
      Some(WarningNotice("CrewAI version " + version + " is not supported. The earliest supported version is 0.102.0."))
    else
      Some(InfoNotice("Using CrewAI schema version " + version))
  }

  /**
   * The exact test is on the text: a spelling without the trailing `.0` (`0.102`) is
   * numerically the earliest version, yet it gets the information banner.
   */
  lemma ShortSpellingGetsInfo(v: string)
    requires v + ".0" == EarliestSupported
    ensures CompatibilityNotice(v) == Some(InfoNotice("Using CrewAI schema version " + v))
  {
    TrailingZeroIgnored(v);
    assert |v| < |EarliestSupported|;
  }
}
