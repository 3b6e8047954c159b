/**
 * Choosing the schema version from a workspace's manifests (src/versionDetection.ts):
 * the first of requirements.txt, pyproject.toml and poetry.lock that pins crewai
 * decides, truncated to `MAJOR.MINOR.0`; otherwise `latest`.
 */
module VersionDetection {
  import opened Wrappers
  import opened Strings

  // ---------------------------------------------------------------------------
  // normalizeVersion

  /** `normalizeVersion`: with at least two dotted parts, keep the first two and end in `.0`. */
  function NormalizeVersion(version: string): (r: string)
    ensures r == version || (|r| >= 2 && r[|r| - 2..] == ".0")
  {
    var parts := Split(version, '.');
    if |parts| >= 2 then parts[0] + "." + parts[1] + ".0" else version
  }

  /** The first two parts of a dotted version are kept and the rest replaced by `0`. */
  lemma NormalizeKeepsMajorMinor(version: string)
    requires |Split(version, '.')| >= 2
    ensures Split(NormalizeVersion(version), '.') == [Split(version, '.')[0], Split(version, '.')[1], "0"]
  {
    var parts := Split(version, '.');
    var kept := [parts[0], parts[1], "0"];
    JoinThree(parts[0], parts[1], "0", ".");
    assert parts[0] + "." + parts[1] + "." + "0" == parts[0] + "." + parts[1] + ".0";
    SplitJoin(kept, '.');
  }

  /** A version with no dot is returned unchanged. */
  lemma NormalizeUndotted(version: string)
    requires '.' !in version
    ensures NormalizeVersion(version) == version
  {
    SplitJoin([version], '.');
  }

  /** Normalizing twice is normalizing once. */
  lemma NormalizeIdempotent(version: string)
    ensures NormalizeVersion(NormalizeVersion(version)) == NormalizeVersion(version)
  {
    if |Split(version, '.')| >= 2 {
      NormalizeKeepsMajorMinor(version);
    }
  }

  /** `normalizeVersion("a.b.c")` is `a.b.0`, for dot-free parts. */
  lemma NormalizeTriple(major: string, minor: string, patch: string)
    requires '.' !in major && '.' !in minor && '.' !in patch
    ensures NormalizeVersion(major + "." + minor + "." + patch) == major + "." + minor + ".0"
  {
    JoinThree(major, minor, patch, ".");
    SplitJoin([major, minor, patch], '.');
  }

  /** Three parts joined. */
  lemma JoinThree(x: string, y: string, z: string, sep: string)
    ensures Join([x, y, z], sep) == x + sep + y + sep + z
  {
    assert [x, y, z][1..] == [y, z];
    JoinCons(y, [z], sep);
    JoinCons(x, [y, z], sep);
  }

  /** A pinned version as the patterns capture it: three non-empty digit runs. */
  predicate IsVersionText(v: string) {
    var parts := Split(v, '.');
    |parts| == 3 && forall k :: 0 <= k < 3 ==> parts[k] != "" && AllDigits(parts[k])
  }

  /** A schema directory name: two non-empty digit runs and `0`. */
  predicate IsSchemaVersion(v: string) {
    var parts := Split(v, '.');
    |parts| == 3 && parts[2] == "0" && forall k :: 0 <= k < 2 ==> parts[k] != "" && AllDigits(parts[k])
  }

  /** Every pinned version normalizes to a schema directory name, which normalizing keeps. */
  lemma NormalizePinned(v: string)
    requires IsVersionText(v)
    ensures IsSchemaVersion(NormalizeVersion(v))
    ensures NormalizeVersion(NormalizeVersion(v)) == NormalizeVersion(v)
  {
    var parts := Split(v, '.');
    assert parts[0] != "" && AllDigits(parts[0]) && parts[1] != "" && AllDigits(parts[1]);
    NormalizeKeepsMajorMinor(v);
    assert Split(NormalizeVersion(v), '.') == [parts[0], parts[1], "0"];
    NormalizeIdempotent(v);
  }

  // ---------------------------------------------------------------------------
  // The three patterns, as matchers at a position

  /** The length of the run of digits starting at `i`. */
  function DigitRun(s: string, i: nat): (n: nat)
    requires i <= |s|
    ensures i + n <= |s|
    ensures i + n < |s| ==> !IsDigit(s[i + n])
    decreases |s| - i
  {
    if i < |s| && IsDigit(s[i]) then 1 + DigitRun(s, i + 1) else 0
  }

  /** Every character of the run is a digit. */
  lemma {:induction false} DigitRunDigits(s: string, i: nat)
    requires i <= |s|
    ensures AllDigits(s[i..i + DigitRun(s, i)])
    decreases |s| - i
  {
    if i < |s| && IsDigit(s[i]) {
      DigitRunDigits(s, i + 1);
      var n := DigitRun(s, i);
      assert s[i..i + n] == [s[i]] + s[i + 1..i + n];
    }
  }

  /** `[0-9]+\.[0-9]+\.[0-9]+` at `i`: the three digit runs and the position after the third. */
  datatype Triple = Triple(major: string, minor: string, patch: string, end: nat)

  /** `[0-9]+\.` at `i`: the position after the dot. */
  function RunAndDot(s: string, i: nat): (r: Option<nat>)
    requires i <= |s|
    ensures r.Some? ==> i < r.value <= |s| && s[r.value - 1] == '.'
    ensures r.Some? ==> r.value - 1 - i == DigitRun(s, i) >= 1
  {
    var n := DigitRun(s, i);
    if n == 0 || i + n >= |s| || s[i + n] != '.' then None else Some(i + n + 1)
  }

  function TripleAt(s: string, i: nat): (r: Option<Triple>)
    requires i <= |s|
    ensures r.Some? ==> i < r.value.end <= |s|
  {
    var j := RunAndDot(s, i);
    if j.None? then None
    else
      var k := RunAndDot(s, j.value);
      if k.None? then None
      else
        var c := DigitRun(s, k.value);
        if c == 0 then None
        else Some(Triple(s[i..j.value - 1], s[j.value..k.value - 1], s[k.value..k.value + c], k.value + c))
  }

  /** The three parts the triple matcher reports are non-empty digit runs. */
  lemma TripleAtDigits(s: string, i: nat)
    requires i <= |s| && TripleAt(s, i).Some?
    ensures var t := TripleAt(s, i).value;
      && t.major != "" && AllDigits(t.major)
      && t.minor != "" && AllDigits(t.minor)
      && t.patch != "" && AllDigits(t.patch)
  {
    var j := RunAndDot(s, i).value;
    var k := RunAndDot(s, j).value;
    var c := DigitRun(s, k);
    DigitRunDigits(s, i);
    DigitRunDigits(s, j);
    DigitRunDigits(s, k);
    var t := TripleAt(s, i).value;
    assert t.major == s[i..j - 1] && t.minor == s[j..k - 1] && t.patch == s[k..k + c];
  }

  /** What the triple matcher reports: three non-empty digit runs spelling the matched text, then no digit. */
  lemma TripleAtShape(s: string, i: nat)
    requires i <= |s| && TripleAt(s, i).Some?
    ensures var t := TripleAt(s, i).value;
      && s[i..t.end] == t.major + "." + t.minor + "." + t.patch
      && t.major != "" && AllDigits(t.major)
      && t.minor != "" && AllDigits(t.minor)
      && t.patch != "" && AllDigits(t.patch)
      && (t.end < |s| ==> !IsDigit(s[t.end]))
  {
    TripleAtDigits(s, i);
    var j := RunAndDot(s, i).value;
    var k := RunAndDot(s, j).value;
    var t := TripleAt(s, i).value;
    assert t.major == s[i..j - 1] && t.minor == s[j..k - 1] && t.patch == s[k..t.end];
    SliceAround(s, k, t.end);
    SliceAround(s, j, t.end);
    assert s[j..t.end] == t.minor + "." + t.patch;
    assert s[i..t.end] == t.major + "." + (t.minor + "." + t.patch);
  }

  /** A slice that ends at `end` splits around the character before `j`. */
  lemma SliceAround(s: string, j: nat, end: nat)
    requires 0 < j <= end <= |s|
    ensures forall i :: 0 <= i < j ==> s[i..end] == s[i..j - 1] + [s[j - 1]] + s[j..end]
  {
  }

  /** Three non-empty digit runs joined by dots are a pinned version. */
  lemma VersionTextOfParts(x: string, y: string, z: string)
    requires x != "" && AllDigits(x) && y != "" && AllDigits(y) && z != "" && AllDigits(z)
    ensures IsVersionText(x + "." + y + "." + z)
  {
    JoinThree(x, y, z, ".");
    assert !IsDigit('.');
    SplitJoin([x, y, z], '.');
  }

  /** The text the triple matcher spans is a pinned version. */
  lemma CapturedVersion(s: string, i: nat)
    requires i <= |s| && TripleAt(s, i).Some?
    ensures IsVersionText(s[i..TripleAt(s, i).value.end])
  {
    TripleAtShape(s, i);
    var t := TripleAt(s, i).value;
    VersionTextOfParts(t.major, t.minor, t.patch);
  }

  /** `crewai` at `i`, in any letter case. */
  predicate CrewaiAt(s: string, i: nat) {
    && i + 6 <= |s|
    && ToLowerChar(s[i]) == 'c' && ToLowerChar(s[i + 1]) == 'r' && ToLowerChar(s[i + 2]) == 'e'
    && ToLowerChar(s[i + 3]) == 'w' && ToLowerChar(s[i + 4]) == 'a' && ToLowerChar(s[i + 5]) == 'i'
  }

  /** The letter-by-letter test is `toLowerCase` of the six characters at `i` being `crewai`. */
  lemma CrewaiAtIsLowerCase(s: string, i: nat)
    requires i + 6 <= |s|
    ensures CrewaiAt(s, i) <==> Lower(s[i..i + 6]) == "crewai"
  {
    var w := Lower(s[i..i + 6]);
    assert forall j :: 0 <= j < 6 ==> w[j] == ToLowerChar(s[i + j]);
    if CrewaiAt(s, i) {
      assert forall j :: 0 <= j < 6 ==> w[j] == "crewai"[j];
      assert w == "crewai";
    }
    if w == "crewai" {
      assert w[0] == 'c' && w[1] == 'r' && w[2] == 'e' && w[3] == 'w' && w[4] == 'a' && w[5] == 'i';
    }
  }

  predicate IsOperator(c: char) {
    c == '=' || c == '~' || c == '<' || c == '>'
  }

  /** The length of the run of `=`, `~`, `<`, `>` starting at `i`. */
  function OperatorRun(s: string, i: nat): (n: nat)
    requires i <= |s|
    ensures i + n <= |s|
    ensures forall j :: i <= j < i + n ==> IsOperator(s[j])
    ensures i + n < |s| ==> !IsOperator(s[i + n])
    decreases |s| - i
  {
    if i < |s| && IsOperator(s[i]) then 1 + OperatorRun(s, i + 1) else 0
  }

  /** The length of the run of whitespace starting at `i`. */
  function SpaceRun(s: string, i: nat): (n: nat)
    requires i <= |s|
    ensures i + n <= |s|
    ensures forall j :: i <= j < i + n ==> IsSpace(s[j])
    ensures i + n < |s| ==> !IsSpace(s[i + n])
    decreases |s| - i
  {
    if i < |s| && IsSpace(s[i]) then 1 + SpaceRun(s, i + 1) else 0
  }

  /**
   * requirements.txt: `/crewai[=~<>]+([0-9]+\.[0-9]+\.[0-9]+)/i` matching at `i`; the capture
   * is the triple read right after `crewai` and its operators.
   */
  function RequirementAt(s: string, i: nat): (r: Option<string>)
    ensures r.Some? ==> CrewaiAt(s, i) && OperatorRun(s, i + 6) >= 1
    ensures r.Some? ==> var k := i + 6 + OperatorRun(s, i + 6);
      TripleAt(s, k).Some? && r.value == s[k..TripleAt(s, k).value.end]
  {
    if !CrewaiAt(s, i) then None
    else
      var ops := OperatorRun(s, i + 6);
      if ops == 0 then None
      else
        var t := TripleAt(s, i + 6 + ops);
        if t.None? then None else Some(s[i + 6 + ops..t.value.end])
  }

  /** The position after `crewai\s*=\s*` at `i`, if that prefix matches there. */
  function AssignmentAt(s: string, i: nat): (r: Option<nat>)
    ensures r.Some? ==> r.value <= |s|
  {
    if !CrewaiAt(s, i) then None
    else
      var eq := i + 6 + SpaceRun(s, i + 6);
      if eq >= |s| || s[eq] != '=' then None
      else Some(eq + 1 + SpaceRun(s, eq + 1))
  }

  predicate IsQuote(c: char) {
    c == '"' || c == '\''
  }

  /**
   * pyproject.toml, first form: `/crewai\s*=\s*["']([0-9]+\.[0-9]+\.[0-9]+)["']/i` matching
   * at `i`; the capture is the triple read between two quotes right after the assignment.
   */
  function QuotedAt(s: string, i: nat): (r: Option<string>)
    ensures r.Some? ==> AssignmentAt(s, i).Some? && AssignmentAt(s, i).value < |s|
    ensures r.Some? ==> var q := AssignmentAt(s, i).value; var t := TripleAt(s, q + 1);
      && IsQuote(s[q]) && t.Some? && t.value.end < |s| && IsQuote(s[t.value.end])
      && r.value == s[q + 1..t.value.end]
  {
    var v := AssignmentAt(s, i);
    if v.None? || v.value >= |s| || !IsQuote(s[v.value]) then None
    else
      var t := TripleAt(s, v.value + 1);
      if t.None? || t.value.end >= |s| || !IsQuote(s[t.value.end]) then None
      else Some(s[v.value + 1..t.value.end])
  }

  /**
   * pyproject.toml, second form: `/crewai\s*=\s*([0-9]+\.[0-9]+\.[0-9]+)/i` matching at `i`;
   * the capture is the triple read right after the assignment.
   */
  function UnquotedAt(s: string, i: nat): (r: Option<string>)
    ensures r.Some? ==> AssignmentAt(s, i).Some?
    ensures r.Some? ==> var q := AssignmentAt(s, i).value;
      TripleAt(s, q).Some? && r.value == s[q..TripleAt(s, q).value.end]
  {
    var v := AssignmentAt(s, i);
    if v.None? then None
    else
      var t := TripleAt(s, v.value);
      if t.None? then None else Some(s[v.value..t.value.end])
  }

  const PackageHeader := "[[package]]\nname = \"crewai\""
  const VersionKey := "version = \""

  /** poetry.lock: `version = "X.Y.Z"` at `i` (case-sensitive); the capture is the triple read between `version = "` and a closing quote. */
  function VersionLineAt(s: string, i: nat): (r: Option<string>)
    ensures r.Some? ==> OccursAt(s, VersionKey, i)
    ensures r.Some? ==> var k := i + |VersionKey|; var t := TripleAt(s, k);
      && t.Some? && t.value.end < |s| && s[t.value.end] == '"'
      && r.value == s[k..t.value.end]
  {
    if !OccursAt(s, VersionKey, i) then None
    else
      var t := TripleAt(s, i + |VersionKey|);
      if t.None? || t.value.end >= |s| || s[t.value.end] != '"' then None
      else Some(s[i + |VersionKey|..t.value.end])
  }

  /** A regular expression's leftmost match: the first position at or after `i` where `at` matches. */
  function Search(s: string, i: nat, at: (string, nat) -> Option<string>): (r: Option<string>)
    ensures r.None? ==> forall j :: i <= j <= |s| ==> at(s, j).None?
    ensures r.Some? ==> exists j :: i <= j <= |s| && at(s, j) == r && forall l :: i <= l < j ==> at(s, l).None?
    decreases |s| + 1 - i
  {
    if i > |s| then None
    else if at(s, i).Some? then at(s, i)
    else
      var r := Search(s, i + 1, at);
      assert r.Some? ==> exists j :: i + 1 <= j <= |s| && at(s, j) == r && forall l :: i <= l < j ==> at(s, l).None?;
      r
  }

  /** When every match the matcher reports is a pinned version, so is the search's. */
  lemma SearchFindsVersion(s: string, i: nat, at: (string, nat) -> Option<string>)
    requires forall j :: i <= j <= |s| && at(s, j).Some? ==> IsVersionText(at(s, j).value)
    ensures Search(s, i, at).Some? ==> IsVersionText(Search(s, i, at).value)
  {
  }

  /** Every requirements match captures a pinned version. */
  lemma RequirementPinned(s: string, i: nat)
    requires RequirementAt(s, i).Some?
    ensures IsVersionText(RequirementAt(s, i).value)
  {
    CapturedVersion(s, i + 6 + OperatorRun(s, i + 6));
  }

  /** Every quoted pyproject match captures a pinned version. */
  lemma QuotedPinned(s: string, i: nat)
    requires QuotedAt(s, i).Some?
    ensures IsVersionText(QuotedAt(s, i).value)
  {
    CapturedVersion(s, AssignmentAt(s, i).value + 1);
  }

  /** Every unquoted pyproject match captures a pinned version. */
  lemma UnquotedPinned(s: string, i: nat)
    requires UnquotedAt(s, i).Some?
    ensures IsVersionText(UnquotedAt(s, i).value)
  {
    CapturedVersion(s, AssignmentAt(s, i).value);
  }

  /** Every poetry.lock version line captures a pinned version. */
  lemma VersionLinePinned(s: string, i: nat)
    requires VersionLineAt(s, i).Some?
    ensures IsVersionText(VersionLineAt(s, i).value)
  {
    CapturedVersion(s, i + |VersionKey|);
  }

  function RequirementsVersion(content: string): (r: Option<string>)
    ensures r.None? <==> forall j :: 0 <= j <= |content| ==> RequirementAt(content, j).None?
  {
    Search(content, 0, RequirementAt)
  }

  /** The quoted form first; only when it matches nowhere, the unquoted form. */
  function PyprojectVersion(content: string): (r: Option<string>)
    ensures r.None? <==> forall j :: 0 <= j <= |content| ==> QuotedAt(content, j).None? && UnquotedAt(content, j).None?
    ensures (exists j :: 0 <= j <= |content| && QuotedAt(content, j).Some?) ==> r == Search(content, 0, QuotedAt)
  {
    var quoted := Search(content, 0, QuotedAt);
    if quoted.Some? then quoted else Search(content, 0, UnquotedAt)
  }

  /**
   * `/\[\[package\]\]\nname = "crewai"[\s\S]*?version = "(X.Y.Z)"/`: the leftmost match
   * starts at the first package header, and the lazy gap ends at the first version line
   * after it.
   */
  function PoetryLockVersion(content: string): (r: Option<string>)
    ensures r.Some? ==> IndexOf(content, PackageHeader) >= 0
    ensures r.None? <==> (IndexOf(content, PackageHeader) < 0 ||
      forall j :: IndexOf(content, PackageHeader) + |PackageHeader| <= j <= |content| ==> VersionLineAt(content, j).None?)
  {
    var header := IndexOf(content, PackageHeader);
    if header < 0 then None else Search(content, header + |PackageHeader|, VersionLineAt)
  }

  // ---------------------------------------------------------------------------
  // detectCrewAIVersion

  /** What reading one manifest gives: no such file, a read that throws, or its text. */
  datatype Manifest = Absent | Unreadable | Text(content: string)

  const Latest := "latest"

  /**
   * `detectCrewAIVersion` with the three reads as inputs: the first manifest that matches
   * decides; an existing file without a match falls through; a failing read ends the whole
   * detection with `latest`, as does finding nothing.
   */
  function DetectVersion(requirements: Manifest, pyproject: Manifest, poetryLock: Manifest): (r: string)
    ensures requirements.Unreadable? ==> r == Latest
    ensures r == Latest
      || (requirements.Text? && RequirementsVersion(requirements.content).Some? && r == NormalizeVersion(RequirementsVersion(requirements.content).value))
      || (pyproject.Text? && PyprojectVersion(pyproject.content).Some? && r == NormalizeVersion(PyprojectVersion(pyproject.content).value))
      || (poetryLock.Text? && PoetryLockVersion(poetryLock.content).Some? && r == NormalizeVersion(PoetryLockVersion(poetryLock.content).value))
  {
    if requirements.Unreadable? then Latest
    else if requirements.Text? && RequirementsVersion(requirements.content).Some? then
      NormalizeVersion(RequirementsVersion(requirements.content).value)
    else if pyproject.Unreadable? then Latest
    else if pyproject.Text? && PyprojectVersion(pyproject.content).Some? then
      NormalizeVersion(PyprojectVersion(pyproject.content).value)
    else if poetryLock.Unreadable? then Latest
    else if poetryLock.Text? && PoetryLockVersion(poetryLock.content).Some? then
      NormalizeVersion(PoetryLockVersion(poetryLock.content).value)
    else Latest
  }

  /** Each manifest's pattern captures only pinned versions. */
  lemma ManifestPatternsCaptureVersions(content: string)
    ensures RequirementsVersion(content).Some? ==> IsVersionText(RequirementsVersion(content).value)
    ensures PyprojectVersion(content).Some? ==> IsVersionText(PyprojectVersion(content).value)
    ensures PoetryLockVersion(content).Some? ==> IsVersionText(PoetryLockVersion(content).value)
  {
    forall j | 0 <= j <= |content| && RequirementAt(content, j).Some? ensures IsVersionText(RequirementAt(content, j).value) {
      RequirementPinned(content, j);
    }
    forall j | 0 <= j <= |content| && QuotedAt(content, j).Some? ensures IsVersionText(QuotedAt(content, j).value) {
      QuotedPinned(content, j);
    }
    forall j | 0 <= j <= |content| && UnquotedAt(content, j).Some? ensures IsVersionText(UnquotedAt(content, j).value) {
      UnquotedPinned(content, j);
    }
    forall j | 0 <= j <= |content| && VersionLineAt(content, j).Some? ensures IsVersionText(VersionLineAt(content, j).value) {
      VersionLinePinned(content, j);
    }
    SearchFindsVersion(content, 0, RequirementAt);
    SearchFindsVersion(content, 0, QuotedAt);
    SearchFindsVersion(content, 0, UnquotedAt);
    var header := IndexOf(content, PackageHeader);
    if header >= 0 {
      SearchFindsVersion(content, header + |PackageHeader|, VersionLineAt);
    }
  }

  /** Detection gives `latest` or a schema directory name `MAJOR.MINOR.0`. */
  lemma DetectedVersionShape(requirements: Manifest, pyproject: Manifest, poetryLock: Manifest)
    ensures var r := DetectVersion(requirements, pyproject, poetryLock);
      r == Latest || (IsSchemaVersion(r) && NormalizeVersion(r) == r)
  {
    if requirements.Unreadable? {
    } else if requirements.Text? && RequirementsVersion(requirements.content).Some? {
      ManifestPatternsCaptureVersions(requirements.content);
      NormalizePinned(RequirementsVersion(requirements.content).value);
    } else if pyproject.Unreadable? {
    } else if pyproject.Text? && PyprojectVersion(pyproject.content).Some? {
      ManifestPatternsCaptureVersions(pyproject.content);
      NormalizePinned(PyprojectVersion(pyproject.content).value);
    } else if poetryLock.Unreadable? {
    } else if poetryLock.Text? && PoetryLockVersion(poetryLock.content).Some? {
      ManifestPatternsCaptureVersions(poetryLock.content);
      NormalizePinned(PoetryLockVersion(poetryLock.content).value);
    }
  }

  /** An earlier manifest that exists but pins nothing is as if it were absent. */
  lemma UnmatchedFallsThrough(requirements: Manifest, pyproject: Manifest, poetryLock: Manifest)
    ensures requirements.Text? && RequirementsVersion(requirements.content).None? ==>
      DetectVersion(requirements, pyproject, poetryLock) == DetectVersion(Absent, pyproject, poetryLock)
    ensures pyproject.Text? && PyprojectVersion(pyproject.content).None? ==>
      DetectVersion(requirements, pyproject, poetryLock) == DetectVersion(requirements, Absent, poetryLock)
  {
  }

  /** A match in requirements.txt decides, whatever the other manifests say. */
  lemma RequirementsWin(content: string, pyproject: Manifest, poetryLock: Manifest, pyproject': Manifest, poetryLock': Manifest)
    requires RequirementsVersion(content).Some?
    ensures DetectVersion(Text(content), pyproject, poetryLock) == DetectVersion(Text(content), pyproject', poetryLock')
    ensures DetectVersion(Text(content), pyproject, poetryLock) == NormalizeVersion(RequirementsVersion(content).value)
  {
  }

  /** The manifest exists, is readable and its pattern matches. */
  predicate RequirementsPins(m: Manifest) {
    m.Text? && RequirementsVersion(m.content).Some?
  }

  predicate PyprojectPins(m: Manifest) {
    m.Text? && PyprojectVersion(m.content).Some?
  }

  predicate PoetryLockPins(m: Manifest) {
    m.Text? && PoetryLockVersion(m.content).Some?
  }

  // ---------------------------------------------------------------------------
  // What the pyproject.toml and poetry.lock matchers accept and capture

  /** A run of blanks of length `n` from `i`, ended by a non-blank or the end, is what `\s*` consumes. */
  lemma {:induction false} SpaceRunIs(s: string, i: nat, n: nat)
    requires i + n <= |s|
    requires forall j :: i <= j < i + n ==> IsSpace(s[j])
    requires i + n < |s| ==> !IsSpace(s[i + n])
    ensures SpaceRun(s, i) == n
    decreases n
  {
    if n > 0 {
      SpaceRunIs(s, i + 1, n - 1);
    }
  }

  /** `crewai\s*=\s*` matches at `i` exactly when `crewai`, blanks, `=` at `e` and blanks lead up to a non-blank at `q`. */
  predicate AssignmentLaidOut(s: string, i: nat, e: nat, q: nat) {
    && CrewaiAt(s, i) && i + 6 <= e < q <= |s| && s[e] == '='
    && (forall j :: i + 6 <= j < e ==> IsSpace(s[j]))
    && (forall j :: e < j < q ==> IsSpace(s[j]))
    && (q < |s| ==> !IsSpace(s[q]))
  }

  /** The assignment prefix, laid out, is read up to `q`. */
  lemma AssignmentAtIs(s: string, i: nat, e: nat, q: nat)
    requires AssignmentLaidOut(s, i, e, q)
    ensures AssignmentAt(s, i) == Some(q)
  {
    assert !IsSpace('=');
    SpaceRunIs(s, i + 6, e - (i + 6));
    SpaceRunIs(s, e + 1, q - (e + 1));
  }

  /** Whatever the assignment prefix reads is laid out that way. */
  lemma AssignmentAtShape(s: string, i: nat)
    requires AssignmentAt(s, i).Some?
    ensures exists e :: AssignmentLaidOut(s, i, e, AssignmentAt(s, i).value)
  {
    var e := i + 6 + SpaceRun(s, i + 6);
    assert AssignmentLaidOut(s, i, e, AssignmentAt(s, i).value);
  }

  /** `a.b.c` laid out at `x` before a non-digit is read as that triple, spanning exactly its text. */
  lemma TripleReadsAs(s: string, x: nat, a: string, b: string, c: string, rest: string)
    requires a != "" && AllDigits(a) && b != "" && AllDigits(b) && c != "" && AllDigits(c)
    requires rest != [] ==> !IsDigit(rest[0])
    requires TripleLaidOut(s, x, a, b, c, rest)
    ensures TripleAt(s, x).Some? && TripleAt(s, x).value.end == x + |a| + |b| + |c| + 2
    ensures s[x..x + |a| + |b| + |c| + 2] == a + "." + b + "." + c
  {
    TripleAfterSlices(s, x, a, b, c, rest);
    TripleAtShape(s, x);
  }

  /**
   * After the assignment prefix `crewai = ` (read up to `q`, see `AssignmentAtIs`), a quoted
   * `"a.b.c"` with either quote matches the quoted form, capturing `a.b.c`.
   */
  lemma QuotedAtIs(s: string, i: nat, q: nat, a: string, b: string, c: string, rest: string)
    requires a != "" && AllDigits(a) && b != "" && AllDigits(b) && c != "" && AllDigits(c)
    requires AssignmentAt(s, i) == Some(q) && q < |s| && IsQuote(s[q])
    requires TripleLaidOut(s, q + 1, a, b, c, rest) && rest != [] && IsQuote(rest[0])
    ensures QuotedAt(s, i) == Some(a + "." + b + "." + c)
  {
    var end := q + 1 + |a| + |b| + |c| + 2;
    TripleReadsAs(s, q + 1, a, b, c, rest);
    assert IsQuote(s[end]) by { assert s[end] == rest[0]; }
    QuotedAtFrom(s, i, q, end);
  }

  /** The quoted form's reading, given where the assignment ends and where the triple after the quote ends. */
  lemma QuotedAtFrom(s: string, i: nat, q: nat, end: nat)
    requires AssignmentAt(s, i) == Some(q) && q < |s| && IsQuote(s[q])
    requires TripleAt(s, q + 1).Some? && TripleAt(s, q + 1).value.end == end && end < |s| && IsQuote(s[end])
    ensures QuotedAt(s, i) == Some(s[q + 1..end])
  {
  }

  /**
   * After the assignment prefix `crewai = ` (read up to `q`, see `AssignmentAtIs`), `a.b.c`
   * not followed by a digit matches the unquoted form, capturing `a.b.c`.
   */
  lemma UnquotedAtIs(s: string, i: nat, q: nat, a: string, b: string, c: string, rest: string)
    requires a != "" && AllDigits(a) && b != "" && AllDigits(b) && c != "" && AllDigits(c)
    requires AssignmentAt(s, i) == Some(q)
    requires TripleLaidOut(s, q, a, b, c, rest) && (rest != [] ==> !IsDigit(rest[0]))
    ensures UnquotedAt(s, i) == Some(a + "." + b + "." + c)
  {
    var end := q + |a| + |b| + |c| + 2;
    assert TripleAt(s, q).Some? && TripleAt(s, q).value.end == end
      && s[q..end] == a + "." + b + "." + c by { TripleReadsAs(s, q, a, b, c, rest); }
    UnquotedAtFrom(s, i, q);
  }

  /** The unquoted form's reading, given where the assignment ends. */
  lemma UnquotedAtFrom(s: string, i: nat, q: nat)
    requires AssignmentAt(s, i) == Some(q) && TripleAt(s, q).Some?
    ensures UnquotedAt(s, i) == Some(s[q..TripleAt(s, q).value.end])
  {
  }

  /** The triple matcher stops before a non-digit. */
  lemma TripleAtEnd(s: string, i: nat)
    requires i <= |s| && TripleAt(s, i).Some?
    ensures TripleAt(s, i).value.end < |s| ==> !IsDigit(s[TripleAt(s, i).value.end])
  {
    var k := RunAndDot(s, RunAndDot(s, i).value).value;
    assert TripleAt(s, i).value.end == k + DigitRun(s, k);
  }

  /** `version = "a.b.c"` matches the poetry.lock version line, capturing `a.b.c`. */
  lemma VersionLineAtIs(s: string, i: nat, a: string, b: string, c: string, rest: string)
    requires a != "" && AllDigits(a) && b != "" && AllDigits(b) && c != "" && AllDigits(c)
    requires OccursAt(s, VersionKey, i)
    requires TripleLaidOut(s, i + |VersionKey|, a, b, c, rest) && rest != [] && rest[0] == '"'
    ensures VersionLineAt(s, i) == Some(a + "." + b + "." + c)
  {
    var k := i + |VersionKey|;
    var end := k + |a| + |b| + |c| + 2;
    assert TripleAt(s, k).Some? && TripleAt(s, k).value.end == end
      && s[k..end] == a + "." + b + "." + c by { TripleReadsAs(s, k, a, b, c, rest); }
    assert s[end] == '"' by { assert s[end] == rest[0]; }
    VersionLineAtFrom(s, i, end);
  }

  /** The version line's reading, given where the triple after `version = "` ends. */
  lemma VersionLineAtFrom(s: string, i: nat, end: nat)
    requires OccursAt(s, VersionKey, i)
    requires TripleAt(s, i + |VersionKey|).Some? && TripleAt(s, i + |VersionKey|).value.end == end
    requires end < |s| && s[end] == '"'
    ensures VersionLineAt(s, i) == Some(s[i + |VersionKey|..end])
  {
  }

  /** The search returns the match at the first position where the matcher matches. */
  lemma SearchFirst(s: string, i: nat, at: (string, nat) -> Option<string>, j: nat)
    requires i <= j <= |s| && at(s, j).Some?
    requires forall l :: i <= l < j ==> at(s, l).None?
    ensures Search(s, i, at) == at(s, j)
  {
    var r := Search(s, i, at);
    if r.Some? {
      var j' :| i <= j' <= |s| && at(s, j') == r && forall l :: i <= l < j' ==> at(s, l).None?;
      assert !(j' < j) && !(j < j');
    }
  }

  /** pyproject.toml: the first quoted match decides, once requirements.txt is read without a match. */
  lemma QuotedPyprojectDetected(requirements: Manifest, s: string, i: nat, poetryLock: Manifest)
    requires !requirements.Unreadable? && !RequirementsPins(requirements)
    requires i <= |s| && QuotedAt(s, i).Some? && forall l :: 0 <= l < i ==> QuotedAt(s, l).None?
    ensures DetectVersion(requirements, Text(s), poetryLock) == NormalizeVersion(QuotedAt(s, i).value)
  {
    SearchFirst(s, 0, QuotedAt, i);
  }

  /** pyproject.toml without any quoted match: the first unquoted match decides. */
  lemma UnquotedPyprojectDetected(requirements: Manifest, s: string, i: nat, poetryLock: Manifest)
    requires !requirements.Unreadable? && !RequirementsPins(requirements)
    requires forall l :: 0 <= l <= |s| ==> QuotedAt(s, l).None?
    requires i <= |s| && UnquotedAt(s, i).Some? && forall l :: 0 <= l < i ==> UnquotedAt(s, l).None?
    ensures DetectVersion(requirements, Text(s), poetryLock) == NormalizeVersion(UnquotedAt(s, i).value)
  {
    SearchNone(s, 0, QuotedAt);
    SearchFirst(s, 0, UnquotedAt, i);
    assert PyprojectVersion(s) == UnquotedAt(s, i);
  }

  /** The search finds nothing when the matcher matches nowhere. */
  lemma SearchNone(s: string, i: nat, at: (string, nat) -> Option<string>)
    requires forall l :: i <= l <= |s| ==> at(s, l).None?
    ensures Search(s, i, at).None?
  {
  }

  /** poetry.lock: the first version line after the first `crewai` package header decides. */
  lemma PoetryLockDetected(requirements: Manifest, pyproject: Manifest, s: string, j: nat)
    requires !requirements.Unreadable? && !RequirementsPins(requirements)
    requires !pyproject.Unreadable? && !PyprojectPins(pyproject)
    requires IndexOf(s, PackageHeader) >= 0
    requires IndexOf(s, PackageHeader) + |PackageHeader| <= j <= |s| && VersionLineAt(s, j).Some?
    requires forall l :: IndexOf(s, PackageHeader) + |PackageHeader| <= l < j ==> VersionLineAt(s, l).None?
    ensures DetectVersion(requirements, pyproject, Text(s)) == NormalizeVersion(VersionLineAt(s, j).value)
  {
    PoetryLockFound(s, IndexOf(s, PackageHeader), j);
    PoetryLockDecidesLast(requirements, pyproject, s);
  }

  /** The poetry.lock pattern captures the first version line after the first `crewai` package header. */
  lemma PoetryLockFound(s: string, h: nat, j: nat)
    requires IndexOf(s, PackageHeader) == h
    requires h + |PackageHeader| <= j <= |s| && VersionLineAt(s, j).Some?
    requires forall l :: h + |PackageHeader| <= l < j ==> VersionLineAt(s, l).None?
    ensures PoetryLockVersion(s) == VersionLineAt(s, j)
  {
    SearchFirst(s, h + |PackageHeader|, VersionLineAt, j);
  }

  /** A read that fails before any match ends detection with `latest`. */
  lemma FailedReadGivesLatest(requirements: Manifest, pyproject: Manifest, poetryLock: Manifest)
    requires requirements.Unreadable?
      || (!RequirementsPins(requirements) && pyproject.Unreadable?)
      || (!RequirementsPins(requirements) && !PyprojectPins(pyproject) && poetryLock.Unreadable?)
    ensures DetectVersion(requirements, pyproject, poetryLock) == Latest
  {
  }

  /** When no manifest pins a version, detection gives `latest`. */
  lemma NothingFoundGivesLatest(requirements: Manifest, pyproject: Manifest, poetryLock: Manifest)
    requires !RequirementsPins(requirements) && !PyprojectPins(pyproject) && !PoetryLockPins(poetryLock)
    ensures DetectVersion(requirements, pyproject, poetryLock) == Latest
  {
  }

  /**
   * Detection gives something other than `latest` only through a manifest that pins a
   * version, and only when every earlier manifest was read without a match.
   */
  lemma DetectedOnlyFromPin(requirements: Manifest, pyproject: Manifest, poetryLock: Manifest)
    requires DetectVersion(requirements, pyproject, poetryLock) != Latest
    ensures RequirementsPins(requirements)
      || (!requirements.Unreadable? && !RequirementsPins(requirements) && PyprojectPins(pyproject))
      || (!requirements.Unreadable? && !RequirementsPins(requirements) && !pyproject.Unreadable?
          && !PyprojectPins(pyproject) && PoetryLockPins(poetryLock))
  {
  }

  /** Once requirements.txt is read without a match, a pyproject.toml match decides, whatever poetry.lock holds. */
  lemma PyprojectWins(requirements: Manifest, content: string, poetryLock: Manifest, poetryLock': Manifest)
    requires !requirements.Unreadable? && !RequirementsPins(requirements)
    requires PyprojectVersion(content).Some?
    ensures DetectVersion(requirements, Text(content), poetryLock) == DetectVersion(requirements, Text(content), poetryLock')
    ensures DetectVersion(requirements, Text(content), poetryLock) == NormalizeVersion(PyprojectVersion(content).value)
  {
  }

  /** With the first two manifests read without a match, a poetry.lock match decides. */
  lemma PoetryLockDecidesLast(requirements: Manifest, pyproject: Manifest, content: string)
    requires !requirements.Unreadable? && !RequirementsPins(requirements)
    requires !pyproject.Unreadable? && !PyprojectPins(pyproject)
    requires PoetryLockVersion(content).Some?
    ensures DetectVersion(requirements, pyproject, Text(content)) == NormalizeVersion(PoetryLockVersion(content).value)
  {
  }

  // ---------------------------------------------------------------------------
  // A pinned requirement line

  lemma {:induction false} OperatorRunIs(s: string, i: nat, n: nat)
    requires i + n <= |s|
    requires forall j :: i <= j < i + n ==> IsOperator(s[j])
    requires i + n < |s| ==> !IsOperator(s[i + n])
    ensures OperatorRun(s, i) == n
    decreases n
  {
    if n > 0 {
      OperatorRunIs(s, i + 1, n - 1);
    }
  }

  lemma {:induction false} DigitRunIs(s: string, i: nat, n: nat)
    requires i + n <= |s| && AllDigits(s[i..i + n])
    requires i + n < |s| ==> !IsDigit(s[i + n])
    ensures DigitRun(s, i) == n
    decreases n
  {
    if n > 0 {
      assert IsDigit(s[i..i + n][0]);
      assert s[i + 1..i + n] == s[i..i + n][1..];
      DigitRunIs(s, i + 1, n - 1);
    }
  }

  /** Three digit runs separated by dots and not followed by a digit are read as that triple. */
  lemma TripleAtIs(s: string, i: nat, j: nat, k: nat, end: nat)
    requires i + 1 < j && j + 1 < k && k < end <= |s|
    requires AllDigits(s[i..j - 1]) && s[j - 1] == '.'
    requires AllDigits(s[j..k - 1]) && s[k - 1] == '.'
    requires AllDigits(s[k..end]) && (end < |s| ==> !IsDigit(s[end]))
    ensures TripleAt(s, i) == Some(Triple(s[i..j - 1], s[j..k - 1], s[k..end], end))
  {
    RunAndDotIs(s, i, j);
    RunAndDotIs(s, j, k);
    DigitRunIs(s, k, end - k);
    TripleAtFromRuns(s, i, j, k, end);
  }

  /** The triple matcher's reading, given where its two dotted runs and its last run end. */
  lemma TripleAtFromRuns(s: string, i: nat, j: nat, k: nat, end: nat)
    requires i <= |s| && RunAndDot(s, i) == Some(j) && RunAndDot(s, j) == Some(k)
    requires k < end <= |s| && DigitRun(s, k) == end - k
    ensures TripleAt(s, i) == Some(Triple(s[i..j - 1], s[j..k - 1], s[k..end], end))
  {
    var t := TripleAt(s, i);
    assert t.Some? && t.value.end == end;
    assert t.value.major == s[i..j - 1] && t.value.minor == s[j..k - 1] && t.value.patch == s[k..end];
  }

  /** A non-empty digit run from `i` closed by a dot at `j - 1` is read up to `j`. */
  lemma RunAndDotIs(s: string, i: nat, j: nat)
    requires i + 1 < j <= |s| && AllDigits(s[i..j - 1]) && s[j - 1] == '.'
    ensures RunAndDot(s, i) == Some(j)
  {
    assert !IsDigit(s[j - 1]);
    DigitRunIs(s, i, j - 1 - i);
  }

  /** The pieces of `a.b.c` inside a larger text. */
  lemma TripleSlices(s: string, i: nat, a: string, b: string, c: string)
    requires i + |a| + |b| + |c| + 2 <= |s|
    requires s[i..i + |a| + |b| + |c| + 2] == a + "." + b + "." + c
    ensures s[i..i + |a|] == a && s[i + |a|] == '.'
    ensures s[i + |a| + 1..i + |a| + 1 + |b|] == b && s[i + |a| + 1 + |b|] == '.'
    ensures s[i + |a| + |b| + 2..i + |a| + |b| + |c| + 2] == c
  {
    var t := s[i..i + |a| + |b| + |c| + 2];
    assert t == a + ("." + (b + ("." + c)));
    assert t[..|a|] == a;
    assert t[|a|] == '.';
    var u := t[|a| + 1..];
    assert u == b + ("." + c);
    assert u[..|b|] == b;
    assert u[|b|] == '.';
    assert u[|b| + 1..] == c;
    assert s[i + |a| + 1..i + |a| + 1 + |b|] == u[..|b|];
    assert s[i + |a| + 1 + |b|] == u[|b|];
    assert s[i + |a| + |b| + 2..i + |a| + |b| + |c| + 2] == u[|b| + 1..];
  }

  /** `crewai`, a run of operators, then the triple: the requirements pattern matches at 0. */
  lemma RequirementAtStart(s: string, ops: string, a: string, b: string, c: string)
    requires ops != [] && forall j :: 0 <= j < |ops| ==> IsOperator(ops[j])
    requires a != "" && AllDigits(a) && b != "" && AllDigits(b) && c != "" && AllDigits(c)
    requires 6 + |ops| <= |s| && s[..6] == "crewai" && s[6..6 + |ops|] == ops
    requires TripleAt(s, 6 + |ops|) == Some(Triple(a, b, c, 6 + |ops| + |a| + |b| + |c| + 2))
    ensures RequirementsVersion(s) == Some(a + "." + b + "." + c)
  {
    assert CrewaiAt(s, 0) by {
      assert forall k :: 0 <= k < 6 ==> s[k] == s[..6][k];
    }
    assert !IsOperator(a[0]);
    assert s[6 + |ops|..6 + |ops| + |a|] == a ==> s[6 + |ops|] == a[0];
    forall j | 6 <= j < 6 + |ops|
      ensures IsOperator(s[j])
    {
      assert s[j] == s[6..6 + |ops|][j - 6];
    }
    OperatorRunIs(s, 6, |ops|);
    TripleAtShape(s, 6 + |ops|);
  }

  /** The three pieces of a concatenation, recovered by slicing. */
  lemma ConcatSlices(x: string, y: string, z: string)
    ensures (x + y + z)[..|x|] == x
    ensures (x + y + z)[|x|..|x| + |y|] == y
    ensures (x + y + z)[|x| + |y|..] == z
  {
  }

  /** `a.b.c` sits in `s` from position `i`, followed by exactly `rest`. */
  predicate TripleLaidOut(s: string, i: nat, a: string, b: string, c: string, rest: string) {
    && |s| == i + |a| + |b| + |c| + 2 + |rest|
    && s[i..i + |a|] == a && s[i + |a|] == '.'
    && s[i + |a| + 1..i + |a| + 1 + |b|] == b && s[i + |a| + 1 + |b|] == '.'
    && s[i + |a| + |b| + 2..i + |a| + |b| + |c| + 2] == c
    && s[i + |a| + |b| + |c| + 2..] == rest
  }

  /** Where the three parts and their dots sit in `head + a.b.c + rest`. */
  lemma TripleInTextSlices(head: string, a: string, b: string, c: string, rest: string)
    ensures TripleLaidOut(head + (a + "." + b + "." + c) + rest, |head|, a, b, c, rest)
  {
    var version := a + "." + b + "." + c;
    ConcatSlices(head, version, rest);
    TripleSlices(head + version + rest, |head|, a, b, c);
  }

  /** Three digit runs laid out with dots from position `i`, and no digit after them, are read as that triple. */
  lemma TripleOfParts(s: string, i: nat, a: string, b: string, c: string)
    requires a != "" && AllDigits(a) && b != "" && AllDigits(b) && c != "" && AllDigits(c)
    requires i + |a| + |b| + |c| + 2 <= |s|
    requires s[i..i + |a|] == a && s[i + |a|] == '.'
    requires s[i + |a| + 1..i + |a| + 1 + |b|] == b && s[i + |a| + 1 + |b|] == '.'
    requires s[i + |a| + |b| + 2..i + |a| + |b| + |c| + 2] == c
    requires i + |a| + |b| + |c| + 2 < |s| ==> !IsDigit(s[i + |a| + |b| + |c| + 2])
    ensures TripleAt(s, i) == Some(Triple(a, b, c, i + |a| + |b| + |c| + 2))
  {
    TripleAtIs(s, i, i + |a| + 1, i + |a| + |b| + 2, i + |a| + |b| + |c| + 2);
  }

  /** `a.b.c` laid out at `i` before a `rest` that does not start with a digit is read as that triple. */
  lemma TripleAfterSlices(s: string, i: nat, a: string, b: string, c: string, rest: string)
    requires a != "" && AllDigits(a) && b != "" && AllDigits(b) && c != "" && AllDigits(c)
    requires rest != [] ==> !IsDigit(rest[0])
    requires TripleLaidOut(s, i, a, b, c, rest)
    ensures TripleAt(s, i) == Some(Triple(a, b, c, i + |a| + |b| + |c| + 2))
  {
    var end := i + |a| + |b| + |c| + 2;
    if end < |s| {
      assert s[end] == s[end..][0];
    }
    TripleOfParts(s, i, a, b, c);
  }

  /** `crewai`, a run of operators, then `a.b.c` laid out before `rest`: the requirements pattern captures `a.b.c`. */
  lemma RequirementFromLayout(s: string, ops: string, a: string, b: string, c: string, rest: string)
    requires ops != [] && forall j :: 0 <= j < |ops| ==> IsOperator(ops[j])
    requires a != "" && AllDigits(a) && b != "" && AllDigits(b) && c != "" && AllDigits(c)
    requires rest != [] ==> !IsDigit(rest[0])
    requires 6 + |ops| <= |s| && s[..6] == "crewai" && s[6..6 + |ops|] == ops
    requires TripleLaidOut(s, 6 + |ops|, a, b, c, rest)
    ensures RequirementsVersion(s) == Some(a + "." + b + "." + c)
  {
    TripleAfterSlices(s, 6 + |ops|, a, b, c, rest);
    RequirementAtStart(s, ops, a, b, c);
  }

  /** `crewai`, a run of operators and `a.b.c` not followed by a digit: the requirements pattern captures `a.b.c`. */
  lemma PinnedRequirementMatched(ops: string, a: string, b: string, c: string, rest: string)
    requires ops != [] && forall j :: 0 <= j < |ops| ==> IsOperator(ops[j])
    requires a != "" && AllDigits(a) && b != "" && AllDigits(b) && c != "" && AllDigits(c)
    requires rest != [] ==> !IsDigit(rest[0])
    ensures RequirementsVersion("crewai" + ops + (a + "." + b + "." + c) + rest) == Some(a + "." + b + "." + c)
  {
    var head := "crewai" + ops;
    var s := head + (a + "." + b + "." + c) + rest;
    assert s[..6] == "crewai" && s[6..6 + |ops|] == ops by {
      HeadSlices("crewai", ops, (a + "." + b + "." + c) + rest);
      AppendAssoc(head, a + "." + b + "." + c, rest);
    }
    TripleInTextSlices(head, a, b, c, rest);
    RequirementFromLayout(s, ops, a, b, c, rest);
  }

  /** The first two pieces of a concatenation, recovered by slicing. */
  lemma HeadSlices(x: string, y: string, z: string)
    ensures (x + y + z)[..|x|] == x && (x + y + z)[|x|..|x| + |y|] == y
  {
    ConcatSlices(x, y, z);
  }

  /**
   * Such a line in requirements.txt decides detection with `a.b.0`, whatever the other
   * manifests hold: `crewai==0.102.5` gives `0.102.0`, `crewai~=0.9.2` gives `0.9.0`.
   */
  lemma PinnedRequirementDetected(ops: string, a: string, b: string, c: string, rest: string,
                                  pyproject: Manifest, poetryLock: Manifest)
    requires ops != [] && forall j :: 0 <= j < |ops| ==> IsOperator(ops[j])
    requires a != "" && AllDigits(a) && b != "" && AllDigits(b) && c != "" && AllDigits(c)
    requires rest != [] ==> !IsDigit(rest[0])
    ensures DetectVersion(Text("crewai" + ops + (a + "." + b + "." + c) + rest), pyproject, poetryLock) == a + "." + b + ".0"
  {
    PinnedRequirementMatched(ops, a, b, c, rest);
    assert !IsDigit('.');
    NormalizeTriple(a, b, c);
  }
}
