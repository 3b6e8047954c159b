/**
 * Placing a finding in the document (src/extension.ts): the line a dotted field
 * path points at, and the columns and editor severity of the diagnostic.
 * A document is its list of lines, `getText().split('\n')`.
 */
module Locator {
  import opened Wrappers
  import opened Strings
  import opened SchemaTypes

  // ---------------------------------------------------------------------------
  // Line search

  /** The root search's test: the trimmed line starts with `root:`. */
  predicate IsAnchorLine(line: string, root: string) {
    StartsWith(Trim(line), root + ":")
  }

  /** The first anchor line at or after `i`, or -1. */
  function AnchorFrom(lines: seq<string>, root: string, i: nat): (r: int)
    ensures r == -1 || (i <= r < |lines| && IsAnchorLine(lines[r], root))
    ensures r == -1 ==> forall j :: i <= j < |lines| ==> !IsAnchorLine(lines[j], root)
    ensures r >= 0 ==> forall j :: i <= j < r ==> !IsAnchorLine(lines[j], root)
    decreases |lines| - i
  {
    if i >= |lines| then -1
    else if IsAnchorLine(lines[i], root) then i
    else AnchorFrom(lines, root, i + 1)
  }

  /** A non-blank line with no indentation ends the root's section. */
  predicate EndsSection(line: string) {
    FirstNonSpace(line) == 0 && Trim(line) != ""
  }

  /** After position `q`, optional whitespace and then a colon. */
  predicate ColonAfterSpaces(line: string, q: nat) {
    q <= |line| && q + FirstNonSpace(line[q..]) < |line| && line[q + FirstNonSpace(line[q..])] == ':'
  }

  /** The pattern `\s+field\s*:` (case-insensitive) matches with the field name at `p`. */
  predicate FieldPatternAt(line: string, field: string, p: nat) {
    && 1 <= p && p + |field| <= |line|
    && IsSpace(line[p - 1])
    && EqualsIgnoreCase(line[p..p + |field|], field)
    && ColonAfterSpaces(line, p + |field|)
  }

  /** `new RegExp('\\s+' + field + '\\s*:', 'i').test(line)`. */
  predicate MatchesField(line: string, field: string) {
    exists p | 1 <= p <= |line| :: FieldPatternAt(line, field, p)
  }

  /** The field search from line `i` on, inside the section of the anchor line `anchor`. */
  function FieldLineFrom(lines: seq<string>, field: string, anchor: nat, i: nat): (r: nat)
    requires anchor < i && anchor < |lines|
    ensures r < |lines|
    ensures r != anchor ==>
      && i <= r && MatchesField(lines[r], field)
      && (forall j :: i <= j <= r ==> !EndsSection(lines[j]))
      && (forall j :: i <= j < r ==> !MatchesField(lines[j], field))
    ensures r == anchor ==>
      forall j :: i <= j < |lines| && !SectionEndsBefore(lines, i, j) ==> !MatchesField(lines[j], field)
    decreases |lines| - i
  {
    if i >= |lines| || EndsSection(lines[i]) then anchor
    else if MatchesField(lines[i], field) then i
    else FieldLineFrom(lines, field, anchor, i + 1)
  }

  /** Some line in `[i, j]` ends the section. */
  predicate SectionEndsBefore(lines: seq<string>, i: nat, j: nat) {
    exists l :: i <= l <= j && l < |lines| && EndsSection(lines[l])
  }

  /**
   * `getLineNumber(document, fieldPath)`: for a one-segment path the line of `root:`
   * (or 0); otherwise the first line in that root's section matching the last segment,
   * else the root's line; 0 when the root is not found.
   */
  function LineNumber(lines: seq<string>, fieldPath: string): (r: nat)
    requires |lines| >= 1
    ensures r < |lines|
  {
    var parts := Split(fieldPath, '.');
    var anchor := AnchorFrom(lines, parts[0], 0);
    if |parts| == 1 then (if anchor < 0 then 0 else anchor)
    else if anchor >= 0 then FieldLineFrom(lines, Last(parts), anchor, anchor + 1)
    else 0
  }

  method GetLineNumber(lines: seq<string>, fieldPath: string) returns (lineNumber: nat)
    requires |lines| >= 1
    ensures lineNumber == LineNumber(lines, fieldPath)
  {
    var parts := Split(fieldPath, '.');
    var rootKey := parts[0];
    var fieldName := parts[|parts| - 1];
    var anchor := -1;
    var i := 0;
    while i < |lines|
      invariant 0 <= i <= |lines|
      invariant AnchorFrom(lines, rootKey, 0) == AnchorFrom(lines, rootKey, i)
    {
      if IsAnchorLine(lines[i], rootKey) {
        anchor := i;
        break;
      }
      i := i + 1;
    }
    assert anchor == AnchorFrom(lines, rootKey, 0);
    if |parts| == 1 {
      return if anchor < 0 then 0 else anchor;
    }
    if anchor >= 0 {
      var j := anchor + 1;
      while j < |lines|
        invariant anchor < j <= |lines|
        invariant FieldLineFrom(lines, fieldName, anchor, j) == LineNumber(lines, fieldPath)
      {
        if EndsSection(lines[j]) {
          break;
        }
        if MatchesField(lines[j], fieldName) {
          return j;
        }
        j := j + 1;
      }
      return anchor;
    }
    return 0;
  }

  /** A one-segment path names the first line whose trimmed text starts with `root:`. */
  lemma RootLineFound(lines: seq<string>, root: string, k: nat)
    requires |lines| >= 1 && '.' !in root
    requires k < |lines| && IsAnchorLine(lines[k], root)
    requires forall j :: 0 <= j < k ==> !IsAnchorLine(lines[j], root)
    ensures LineNumber(lines, root) == k
  {
    SplitJoin([root], '.');
  }

  /** When no line anchors the path's first segment, the path is placed on line 0, however many segments it has. */
  lemma RootMissingGivesFirstLine(lines: seq<string>, fieldPath: string)
    requires |lines| >= 1
    requires forall j :: 0 <= j < |lines| ==> !IsAnchorLine(lines[j], Split(fieldPath, '.')[0])
    ensures LineNumber(lines, fieldPath) == 0
  {
  }

  /**
   * A dotted path whose first segment is anchored at line `k` is searched for its last
   * segment in the section below `k`, falling back to `k`.
   */
  lemma FieldSearchedBelowRoot(lines: seq<string>, fieldPath: string, k: nat)
    requires |Split(fieldPath, '.')| >= 2
    requires k < |lines| && IsAnchorLine(lines[k], Split(fieldPath, '.')[0])
    requires forall j :: 0 <= j < k ==> !IsAnchorLine(lines[j], Split(fieldPath, '.')[0])
    ensures LineNumber(lines, fieldPath) == FieldLineFrom(lines, Last(Split(fieldPath, '.')), k, k + 1)
  {
  }

  // ---------------------------------------------------------------------------
  // Diagnostics

  datatype DiagnosticSeverity = DiagnosticError | DiagnosticWarning

  datatype Range = Range(startLine: nat, startCharacter: nat, endLine: nat, endCharacter: nat)

  datatype Diagnostic = Diagnostic(range: Range, message: string, severity: DiagnosticSeverity)

  /** A diagnostic on one line, from `start` to `end`. */
  function OnLine(line: nat, start: nat, end: nat, message: string, severity: DiagnosticSeverity): Diagnostic {
    Diagnostic(Range(line, start, line, end), message, severity)
  }

  const MissingMarker := "Missing required field:"

  /** The name searched on the line: the last dotted segment, or the whole path when that segment is empty. */
  function HighlightName(field: string): (r: string)
    ensures '.' !in field ==> r == field
  {
    if '.' in field then
      var last := Last(Split(field, '.'));
      if last == "" then field else last
    else field
  }

  /**
   * One finding of `convertErrorsToDiagnostics`: on the line of its field; a missing field
   * spans from the first non-blank column to the end, anything else the first occurrence
   * of the field name, or the whole line when the name does not occur. Only `error` is an
   * editor error.
   */
  function ErrorDiagnostic(lines: seq<string>, e: ValidationError): (d: Diagnostic)
    requires |lines| >= 1
    ensures d.range.startLine == d.range.endLine == LineNumber(lines, e.field)
    ensures d.range.startCharacter <= d.range.endCharacter <= |lines[d.range.startLine]|
    ensures Contains(e.message, MissingMarker) ==>
      d.range.startCharacter == FirstNonSpace(lines[d.range.startLine])
      && d.range.endCharacter == |lines[d.range.startLine]|
    ensures !Contains(e.message, MissingMarker) ==>
      if Contains(lines[d.range.startLine], HighlightName(e.field))
      then lines[d.range.startLine][d.range.startCharacter..d.range.endCharacter] == HighlightName(e.field)
      else d.range.startCharacter == 0 && d.range.endCharacter == |lines[d.range.startLine]|
    ensures d.message == e.message
    ensures d.severity == DiagnosticError <==> e.severity == Error
  {
    var line := LineNumber(lines, e.field);
    var text := lines[line];
    var severity := if e.severity == Error then DiagnosticError else DiagnosticWarning;
    if Contains(e.message, MissingMarker) then
      OnLine(line, FirstNonSpace(text), |text|, e.message, severity)
    else
      var name := HighlightName(e.field);
      var at := IndexOf(text, name);
      if at != -1 then OnLine(line, at, at + |name|, e.message, severity)
      else OnLine(line, 0, |text|, e.message, severity)
  }

  /** A finding that is not a missing field is highlighted at the first occurrence of its name on the line. */
  lemma HighlightAtFirstOccurrence(lines: seq<string>, e: ValidationError)
    requires |lines| >= 1 && !Contains(e.message, MissingMarker)
    requires Contains(lines[LineNumber(lines, e.field)], HighlightName(e.field))
    ensures var d := ErrorDiagnostic(lines, e); var text := lines[LineNumber(lines, e.field)];
      && OccursAt(text, HighlightName(e.field), d.range.startCharacter)
      && d.range.endCharacter == d.range.startCharacter + |HighlightName(e.field)|
      && forall j: nat :: j < d.range.startCharacter ==> !OccursAt(text, HighlightName(e.field), j)
  {
  }

  /** `convertErrorsToDiagnostics`: one diagnostic per finding, in order. */
  function ConvertErrors(lines: seq<string>, errors: seq<ValidationError>): (r: seq<Diagnostic>)
    requires |lines| >= 1
    ensures |r| == |errors|
    ensures forall i :: 0 <= i < |errors| ==> r[i] == ErrorDiagnostic(lines, errors[i])
  {
    seq(|errors|, i requires 0 <= i < |errors| => ErrorDiagnostic(lines, errors[i]))
  }

  /** Findings with severity `info` are shown as editor warnings, not errors. */
  lemma InfoShownAsWarning(lines: seq<string>, e: ValidationError)
    requires |lines| >= 1 && e.severity == Info
    ensures ErrorDiagnostic(lines, e).severity == DiagnosticWarning
  {
  }
}
