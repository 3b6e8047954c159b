/**
 * Linting one document (src/extension.ts): the gate on the file name, the checks on
 * the parse outcome, the nested-or-flat reading of agents.yaml, per-record validation
 * with field paths prefixed by the record name, the cross-file check of a task's
 * agent against the cached agents.yaml of the same directory, and the compatibility
 * banner. The YAML parser's outcome and the document's text are inputs.
 */
module Linter {
  import opened Wrappers
  import opened Strings
  import opened JsValues
  import opened SchemaTypes
  import opened Versions
  import opened SchemaRegistry
  import opened Locator

  // ---------------------------------------------------------------------------
  // checkVersionCompatibility

  /** `checkVersionCompatibility`: nothing without a schema, else the banner for the current schema's version. */
  method CheckVersionCompatibility(manager: SchemaManager) returns (notice: Option<Notice>)
    ensures manager.CurrentSchema().None? ==> notice.None?
    ensures manager.CurrentSchema().Some? ==> notice == CompatibilityNotice(manager.CurrentSchema().value.version)
  {
    var schema := manager.CurrentSchema();
    if schema.None? {
      return None;
    }
    var schemaVersion := schema.value.version;
    if schemaVersion == EarliestSupported {
      return None;
    }
    var order := CompareVersions(schemaVersion, EarliestSupported);
    if order < 0 {
      notice := Some(WarningNotice("CrewAI version " + schemaVersion + " is not supported. The earliest supported version is 0.102.0."));
    } else {
      notice := Some(InfoNotice("Using CrewAI schema version " + schemaVersion));
    }
  }

  // ---------------------------------------------------------------------------
  // Documents and parse outcomes

  /** A document as the linter sees it: base name, directory, URI and text. */
  datatype Document = Document(fileName: string, dirName: string, uri: string, text: string)

  /** `getText().split('\n')`: never empty. */
  function Lines(doc: Document): (r: seq<string>)
    ensures |r| >= 1
  {
    Split(doc.text, '\n')
  }

  /** What `yaml.load` gives: the message of the exception it throws, or the loaded value. */
  datatype ParseOutcome = ParseError(message: string) | Parsed(data: Value)

  const InvalidYamlText := "Invalid YAML: "
  const NotAnObjectText := "File must contain a valid YAML object"

  /** Only these two base names are linted. */
  predicate Linted(fileName: string) {
    fileName == "agents.yaml" || fileName == "tasks.yaml"
  }

  // ---------------------------------------------------------------------------
  // Per-record validation

  datatype RecordKind = AgentRecords | TaskRecords

  function KindLabel(kind: RecordKind): string {
    if kind == AgentRecords then "Agent" else "Task"
  }

  /** The schema manager's validation for the record kind, against the current schema. */
  function RecordValidation(kind: RecordKind, current: Option<CrewAISchema>, config: Value): ValidationResult {
    if kind == AgentRecords then ValidateAgentWith(current, config) else ValidateTaskWith(current, config)
  }

  /** The record's findings with each field path prefixed by the record's name. */
  function PrefixFields(name: string, errors: seq<ValidationError>): (r: seq<ValidationError>)
    ensures |r| == |errors|
    ensures forall i :: 0 <= i < |r| ==>
      r[i].field == name + "." + errors[i].field && r[i].message == errors[i].message
      && r[i].severity == errors[i].severity
  {
    seq(|errors|, i requires 0 <= i < |errors| => errors[i].(field := name + "." + errors[i].field))
  }

  /**
   * A prefixed path starts with the record's name, so the locator anchors it on the
   * record's own line, and its last segment is the finding's own last segment.
   */
  lemma PrefixedPathAnchorsAtRecord(name: string, field: string)
    requires '.' !in name
    ensures Split(name + "." + field, '.')[0] == name
    ensures Last(Split(name + "." + field, '.')) == Last(Split(field, '.'))
  {
    var s := name + "." + field;
    assert s == name + ['.'] + field;
    assert FindChar(s, '.') == |name| by {
      assert s[|name|] == '.';
      assert s[..|name|] == name;
    }
    assert s[|name| + 1..] == field;
  }

  const ShapeText := "' must be an object with proper configuration"

  function ShapeMessage(kind: RecordKind, name: string): string {
    KindLabel(kind) + " '" + name + ShapeText
  }

  /** The finding for a record that is not an object: on the record's line, over its name. */
  function ShapeDiagnostic(lines: seq<string>, kind: RecordKind, name: string): Diagnostic
    requires |lines| >= 1
  {
    OnLine(LineNumber(lines, name), 0, |name|, ShapeMessage(kind, name), DiagnosticError)
  }

  // ---------------------------------------------------------------------------
  // validateAgentReferences

  const ReferencePrefix := "agent: "

  /** The first line at or after `i` that contains `pattern`, or -1. */
  function FirstLineWith(lines: seq<string>, pattern: string, i: nat): (r: int)
    requires i <= |lines|
    ensures -1 <= r < |lines|
    ensures r >= 0 ==> i <= r && Contains(lines[r], pattern)
    decreases |lines| - i
  {
    if i == |lines| then -1
    else if Contains(lines[i], pattern) then i
    else FirstLineWith(lines, pattern, i + 1)
  }

  /** `FirstLineWith` finds the first mention, and gives -1 exactly when no line from `i` on mentions the pattern. */
  lemma {:induction false} FirstLineWithIsFirst(lines: seq<string>, pattern: string, i: nat)
    requires i <= |lines|
    ensures FirstLineWith(lines, pattern, i) == -1 <==> forall k :: i <= k < |lines| ==> !Contains(lines[k], pattern)
    ensures forall k :: i <= k < FirstLineWith(lines, pattern, i) ==> !Contains(lines[k], pattern)
    decreases |lines| - i
  {
    if i < |lines| && !Contains(lines[i], pattern) {
      FirstLineWithIsFirst(lines, pattern, i + 1);
    }
  }

  const AgentKey := "agent"

  /** The agent a task names by string: its `agent` is truthy and of type string. */
  function ReferencedAgent(taskConfig: Value): (r: Option<string>)
    ensures r.Some? <==>
      (Get(taskConfig, AgentKey).Some? && Get(taskConfig, AgentKey).value.Str? && Get(taskConfig, AgentKey).value.s != "")
  {
    var agent := Get(taskConfig, AgentKey);
    if agent.Some? && Truthy(agent.value) && TypeOf(agent.value) == "string" then Some(agent.value.s) else None
  }

  const AgentQuote := "Agent '"
  const ReferencedText := "' referenced in task '"
  const MissingAgentText := "' does not exist in agents.yaml"

  function ReferenceMessage(agentName: string, taskName: string): string {
    AgentQuote + agentName + ReferencedText + taskName + MissingAgentText
  }

  /** A text that contains `p + t` contains `t`. */
  lemma ContainsTail(s: string, p: string, t: string)
    requires Contains(s, p + t)
    ensures Contains(s, t)
  {
    var k := IndexOf(s, p + t);
    assert s[k + |p|..k + |p| + |t|] == (p + t)[|p|..];
    assert OccursAt(s, t, k + |p|);
  }

  /** The cached agents document of a directory, if any. */
  function CachedAgents(cache: map<string, Value>, dirPath: string): Option<Value> {
    if dirPath in cache then Some(cache[dirPath]) else None
  }

  /** `validateAgentReferences`: at most one finding, for the first line mentioning `agent: <name>`. */
  function AgentReference(taskName: string, taskConfig: Value, lines: seq<string>, cached: Option<Value>): (r: seq<Diagnostic>)
    ensures |r| <= 1
  {
    var agent := ReferencedAgent(taskConfig);
    if agent.None? || cached.None? || !Truthy(cached.value) || HasOwn(cached.value, agent.value) then []
    else
      var name := agent.value;
      var lineNum := FirstLineWith(lines, ReferencePrefix + name, 0);
      if lineNum < 0 then []
      else
        ContainsTail(lines[lineNum], ReferencePrefix, name);
        var at := IndexOf(lines[lineNum], name);
        [OnLine(lineNum, at, at + |name|, ReferenceMessage(name, taskName), DiagnosticError)]
  }

  /** The task names an agent that the cached agents document of its directory lacks. */
  predicate ReferenceMissing(taskConfig: Value, cached: Option<Value>) {
    && ReferencedAgent(taskConfig).Some?
    && cached.Some? && Truthy(cached.value)
    && !HasOwn(cached.value, ReferencedAgent(taskConfig).value)
  }

  /**
   * A finding exactly when the task names a missing agent and some line of the task
   * file contains `agent: <name>`; it sits on the first such line, over the first
   * occurrence of the name there, and is an error.
   */
  lemma AgentReferenceFinding(taskName: string, taskConfig: Value, lines: seq<string>, cached: Option<Value>)
    ensures var r := AgentReference(taskName, taskConfig, lines, cached);
      |r| == 1 <==> (ReferenceMissing(taskConfig, cached)
        && exists k :: 0 <= k < |lines| && Contains(lines[k], ReferencePrefix + ReferencedAgent(taskConfig).value))
    ensures var r := AgentReference(taskName, taskConfig, lines, cached);
      |r| == 1 ==>
      var name := ReferencedAgent(taskConfig).value;
      var d := r[0];
      && d.range.startLine == d.range.endLine == FirstLineWith(lines, ReferencePrefix + name, 0)
      && d.range.startCharacter <= d.range.endCharacter <= |lines[d.range.startLine]|
      && lines[d.range.startLine][d.range.startCharacter..d.range.endCharacter] == name
      && d.message == ReferenceMessage(name, taskName)
      && d.severity == DiagnosticError
  {
    var r := AgentReference(taskName, taskConfig, lines, cached);
    if ReferenceMissing(taskConfig, cached) {
      var name := ReferencedAgent(taskConfig).value;
      var pattern := ReferencePrefix + name;
      var lineNum := FirstLineWith(lines, pattern, 0);
      if lineNum >= 0 {
        ContainsTail(lines[lineNum], ReferencePrefix, name);
        var at := IndexOf(lines[lineNum], name);
        assert OccursAt(lines[lineNum], name, at);
        assert |r| == 1;
        assert r[0] == OnLine(lineNum, at, at + |name|, ReferenceMessage(name, taskName), DiagnosticError);
        var d := r[0];
        assert d.range == Range(lineNum, at, lineNum, at + |name|);
        assert lines[lineNum][at..at + |name|] == name;
        assert lines[d.range.startLine][d.range.startCharacter..d.range.endCharacter] == name;
      } else {
        assert r == [];
        FirstLineWithIsFirst(lines, pattern, 0);
      }
    } else {
      assert r == [];
    }
  }

  // ---------------------------------------------------------------------------
  // The loop over a file's records

  /**
   * What the loop over the records has built: the list it reports, and the list of
   * shape findings that the source keeps in one array and appends whole each time.
   */
  datatype Pass = Pass(reported: seq<Diagnostic>, shapes: seq<Diagnostic>)

  /** The findings of a record that is an object: its located, prefixed validation findings, then (in tasks.yaml) its agent check. */
  function ObjectFindings(lines: seq<string>, kind: RecordKind, current: Option<CrewAISchema>,
                          cached: Option<Value>, name: string, config: Value): seq<Diagnostic>
    requires |lines| >= 1
  {
    var errors := PrefixFields(name, RecordValidation(kind, current, config).errors);
    var refs := if kind == TaskRecords then AgentReference(name, config, lines, cached) else [];
    ConvertErrors(lines, errors) + refs
  }

  /** One record: an object is validated (and, in tasks.yaml, its agent checked); anything else is a shape finding. */
  function RecordStep(p: Pass, lines: seq<string>, kind: RecordKind, current: Option<CrewAISchema>,
                      cached: Option<Value>, name: string, config: Value): Pass
    requires |lines| >= 1
  {
    if IsObjectLike(config) then Pass(p.reported + ObjectFindings(lines, kind, current, cached, name, config), p.shapes)
    else
      var shapes := p.shapes + [ShapeDiagnostic(lines, kind, name)];
      Pass(p.reported + shapes, shapes)
  }

  /** The shape findings of the records that are not objects, in order. */
  function ShapeFindings(lines: seq<string>, kind: RecordKind, entries: seq<(string, Value)>): seq<Diagnostic>
    requires |lines| >= 1
  {
    if entries == [] then []
    else
      var front := ShapeFindings(lines, kind, entries[..|entries| - 1]);
      if IsObjectLike(Last(entries).1) then front else front + [ShapeDiagnostic(lines, kind, Last(entries).0)]
  }

  /** The loop over `entries`, in order. */
  function RecordsPass(lines: seq<string>, kind: RecordKind, current: Option<CrewAISchema>,
                       cached: Option<Value>, entries: seq<(string, Value)>): (p: Pass)
    requires |lines| >= 1
    ensures |p.shapes| <= |entries|
    decreases |entries|
  {
    if entries == [] then Pass([], [])
    else
      var front := RecordsPass(lines, kind, current, cached, entries[..|entries| - 1]);
      RecordStep(front, lines, kind, current, cached, Last(entries).0, Last(entries).1)
  }

  /** The shape findings the loop keeps are those of the records that are not objects, in order. */
  lemma {:induction false} RecordsPassShapes(lines: seq<string>, kind: RecordKind, current: Option<CrewAISchema>,
                                             cached: Option<Value>, entries: seq<(string, Value)>)
    requires |lines| >= 1
    ensures RecordsPass(lines, kind, current, cached, entries).shapes == ShapeFindings(lines, kind, entries)
    decreases |entries|
  {
    if entries != [] {
      RecordsPassShapes(lines, kind, current, cached, entries[..|entries| - 1]);
    }
  }

  /** A record that is not an object adds one shape finding and reports every shape finding so far. */
  lemma NonObjectStep(p: Pass, lines: seq<string>, kind: RecordKind, current: Option<CrewAISchema>,
                      cached: Option<Value>, name: string, config: Value)
    requires |lines| >= 1 && !IsObjectLike(config)
    ensures |RecordStep(p, lines, kind, current, cached, name, config).shapes| == |p.shapes| + 1
    ensures |RecordStep(p, lines, kind, current, cached, name, config).reported| == |p.reported| + |p.shapes| + 1
  {
  }

  /** The `n`-th triangular number, `n * (n + 1) / 2`. */
  function Triangle(n: nat): (t: nat)
    ensures 2 * t == n * (n + 1)
  {
    if n == 0 then 0
    else
      var t := Triangle(n - 1) + n;
      assert (n - 1) * n + 2 * n == n * (n + 1);
      t
  }

  /**
   * The shared array makes shape findings repeat: with `n` records none of which is an
   * object, the report holds `n * (n + 1) / 2` findings, the `k`-th shape finding
   * `n - k` times.
   */
  lemma {:induction false} ShapeFindingsRepeat(lines: seq<string>, kind: RecordKind, current: Option<CrewAISchema>,
                                               cached: Option<Value>, entries: seq<(string, Value)>)
    requires |lines| >= 1
    requires forall i :: 0 <= i < |entries| ==> !IsObjectLike(entries[i].1)
    ensures |RecordsPass(lines, kind, current, cached, entries).shapes| == |entries|
    ensures |RecordsPass(lines, kind, current, cached, entries).reported| == Triangle(|entries|)
    decreases |entries|
  {
    if entries != [] {
      var front := entries[..|entries| - 1];
      assert forall i :: 0 <= i < |front| ==> front[i] == entries[i];
      ShapeFindingsRepeat(lines, kind, current, cached, front);
      var p := RecordsPass(lines, kind, current, cached, front);
      assert !IsObjectLike(Last(entries).1);
      NonObjectStep(p, lines, kind, current, cached, Last(entries).0, Last(entries).1);
    }
  }

  /** Records that are objects with no findings, and (in tasks.yaml) no missing agent, report nothing. */
  lemma {:induction false} CleanRecordsReportNothing(lines: seq<string>, kind: RecordKind, current: Option<CrewAISchema>,
                                                     cached: Option<Value>, entries: seq<(string, Value)>)
    requires |lines| >= 1
    requires forall i :: 0 <= i < |entries| ==>
      IsObjectLike(entries[i].1) && RecordValidation(kind, current, entries[i].1).errors == []
      && (kind == TaskRecords ==> AgentReference(entries[i].0, entries[i].1, lines, cached) == [])
    ensures RecordsPass(lines, kind, current, cached, entries) == Pass([], [])
    decreases |entries|
  {
    if entries != [] {
      var front := entries[..|entries| - 1];
      assert forall i :: 0 <= i < |front| ==> front[i] == entries[i];
      CleanRecordsReportNothing(lines, kind, current, cached, front);
      assert Last(entries) == entries[|entries| - 1];
    }
  }

  /** A finding that starts on a line of the document and does not run backwards. */
  predicate WellPlaced(lines: seq<string>, d: Diagnostic) {
    && d.range.startLine < |lines|
    && d.range.startLine <= d.range.endLine
    && (d.range.startLine == d.range.endLine ==> d.range.startCharacter <= d.range.endCharacter)
  }

  /** Every finding of the records loop is well placed. */
  lemma {:induction false} RecordsPassWellPlaced(lines: seq<string>, kind: RecordKind, current: Option<CrewAISchema>,
                                                 cached: Option<Value>, entries: seq<(string, Value)>)
    requires |lines| >= 1
    ensures forall d :: d in RecordsPass(lines, kind, current, cached, entries).reported ==> WellPlaced(lines, d)
    ensures forall d :: d in RecordsPass(lines, kind, current, cached, entries).shapes ==> WellPlaced(lines, d)
    decreases |entries|
  {
    if entries != [] {
      var front := entries[..|entries| - 1];
      RecordsPassWellPlaced(lines, kind, current, cached, front);
      var p := RecordsPass(lines, kind, current, cached, front);
      var (name, config) := Last(entries);
      if IsObjectLike(config) {
        var errors := PrefixFields(name, RecordValidation(kind, current, config).errors);
        ConvertedWellPlaced(lines, errors);
        var refs := if kind == TaskRecords then AgentReference(name, config, lines, cached) else [];
        if kind == TaskRecords {
          AgentReferenceFinding(name, config, lines, cached);
        }
        assert forall d :: d in refs ==> WellPlaced(lines, d);
        assert ObjectFindings(lines, kind, current, cached, name, config) == ConvertErrors(lines, errors) + refs;
      } else {
        var shapes := p.shapes + [ShapeDiagnostic(lines, kind, name)];
        assert RecordsPass(lines, kind, current, cached, entries) == Pass(p.reported + shapes, shapes);
      }
    }
  }

  /** The located findings of a validation are well placed. */
  lemma ConvertedWellPlaced(lines: seq<string>, errors: seq<ValidationError>)
    requires |lines| >= 1
    ensures forall d :: d in ConvertErrors(lines, errors) ==> WellPlaced(lines, d)
  {
    var converted := ConvertErrors(lines, errors);
    forall d | d in converted ensures WellPlaced(lines, d) {
      var i :| 0 <= i < |converted| && converted[i] == d;
      assert d == ErrorDiagnostic(lines, errors[i]);
    }
  }

  // ---------------------------------------------------------------------------
  // lintDocument

  /** A record that looks like an agent: an object with its own `role` or `goal`. */
  predicate IsAgentRecord(v: Value) {
    IsObjectLike(v) && (HasOwn(v, RoleKey) || HasOwn(v, GoalKey))
  }

  const RoleKey := "role"
  const GoalKey := "goal"

  /** Some entry's value looks like an agent. */
  predicate AnyAgentRecord(entries: seq<(string, Value)>) {
    exists i :: 0 <= i < |entries| && IsAgentRecord(entries[i].1)
  }

  /** agents.yaml holds several agents when some top-level value looks like an agent. */
  predicate NestedAgents(data: Value) {
    AnyAgentRecord(Entries(data))
  }

  /** agents.yaml: record by record when nested, else the whole document as one agent, unprefixed. */
  function AgentsDiagnostics(lines: seq<string>, data: Value, current: Option<CrewAISchema>): seq<Diagnostic>
    requires |lines| >= 1
  {
    if NestedAgents(data) then RecordsPass(lines, AgentRecords, current, None, Entries(data)).reported
    else ConvertErrors(lines, ValidateAgentWith(current, data).errors)
  }

  /**
   * The findings a linted document ends up with: the parse failure over the whole
   * document, a value that is not an object at the first character, or the findings
   * of the file's kind.
   */
  function DocumentDiagnostics(doc: Document, parse: ParseOutcome, current: Option<CrewAISchema>, cached: Option<Value>): (r: seq<Diagnostic>)
    ensures !(parse.Parsed? && IsObjectLike(parse.data)) ==> |r| == 1 && r[0].severity == DiagnosticError && r[0].range.startLine == 0 && r[0].range.startCharacter == 0
  {
    var lines := Lines(doc);
    match parse
    case ParseError(message) =>
      [Diagnostic(Range(0, 0, |lines|, 0), InvalidYamlText + message, DiagnosticError)]
    case Parsed(data) =>
      if !IsObjectLike(data) then
        [Diagnostic(Range(0, 0, 0, 1), NotAnObjectText, DiagnosticError)]
      else if doc.fileName == "agents.yaml" then AgentsDiagnostics(lines, data, current)
      else RecordsPass(lines, TaskRecords, current, cached, Entries(data)).reported
  }

  /** The agents cache after linting: a parsed agents.yaml object is stored under its directory. */
  function CacheAfter(doc: Document, parse: ParseOutcome, cache: map<string, Value>): (r: map<string, Value>)
    ensures r.Keys == cache.Keys || r.Keys == cache.Keys + {doc.dirName}
    ensures forall dir :: dir in cache && dir != doc.dirName ==> dir in r && r[dir] == cache[dir]
    ensures doc.fileName == "agents.yaml" && parse.Parsed? && IsObjectLike(parse.data) ==>
      doc.dirName in r && r[doc.dirName] == parse.data
    ensures !(doc.fileName == "agents.yaml" && parse.Parsed? && IsObjectLike(parse.data)) ==> r == cache
  {
    if doc.fileName == "agents.yaml" && parse.Parsed? && IsObjectLike(parse.data) then cache[doc.dirName := parse.data]
    else cache
  }

  /** Every finding of a linted document starts on one of its lines and does not run backwards. */
  lemma DocumentDiagnosticsWellPlaced(doc: Document, parse: ParseOutcome, current: Option<CrewAISchema>, cached: Option<Value>)
    ensures forall d :: d in DocumentDiagnostics(doc, parse, current, cached) ==> WellPlaced(Lines(doc), d)
  {
    var lines := Lines(doc);
    if parse.Parsed? && IsObjectLike(parse.data) {
      var data := parse.data;
      if doc.fileName == "agents.yaml" {
        if NestedAgents(data) {
          RecordsPassWellPlaced(lines, AgentRecords, current, None, Entries(data));
        } else {
          ConvertedWellPlaced(lines, ValidateAgentWith(current, data).errors);
        }
      } else {
        RecordsPassWellPlaced(lines, TaskRecords, current, cached, Entries(data));
      }
    }
  }

  /**
   * The cross-file check: once agents.yaml of a directory has been linted as an object
   * without key `a`, a task in that directory naming agent `a` on some `agent: a` line
   * gets the finding.
   */
  lemma MissingAgentReported(agentsDoc: Document, agents: Value, cache: map<string, Value>,
                             taskName: string, taskConfig: Value, taskLines: seq<string>, a: string)
    requires agentsDoc.fileName == "agents.yaml" && IsObjectLike(agents) && !HasOwn(agents, a)
    requires ReferencedAgent(taskConfig) == Some(a)
    requires exists k :: 0 <= k < |taskLines| && Contains(taskLines[k], ReferencePrefix + a)
    ensures var cached := CachedAgents(CacheAfter(agentsDoc, Parsed(agents), cache), agentsDoc.dirName);
      |AgentReference(taskName, taskConfig, taskLines, cached)| == 1
  {
    var cached := CachedAgents(CacheAfter(agentsDoc, Parsed(agents), cache), agentsDoc.dirName);
    assert cached == Some(agents);
    AgentReferenceFinding(taskName, taskConfig, taskLines, cached);
  }

  /** The linter's state: the parsed agents documents by directory, and the findings by document. */
  class LinterState {
    var agentsCache: map<string, Value>
    var collection: map<string, seq<Diagnostic>>

    constructor()
      ensures agentsCache == map[] && collection == map[]
    {
      agentsCache := map[];
      collection := map[];
    }

    /** `validateAgentReferences` against this state's cache. */
    method ValidateAgentReferences(taskName: string, taskConfig: Value, lines: seq<string>, dirPath: string)
      returns (diagnostics: seq<Diagnostic>)
      ensures diagnostics == AgentReference(taskName, taskConfig, lines, CachedAgents(agentsCache, dirPath))
    {
      diagnostics := [];
      var agent := ReferencedAgent(taskConfig);
      if agent.None? {
        return;
      }
      var agentName := agent.value;
      var agentsData := CachedAgents(agentsCache, dirPath);
      if agentsData.None? || !Truthy(agentsData.value) {
        return;
      }
      var agentExists := HasOwn(agentsData.value, agentName);
      if !agentExists {
        var pattern := ReferencePrefix + agentName;
        var lineNum := -1;
        var i := 0;
        while i < |lines|
          invariant 0 <= i <= |lines|
          invariant lineNum == -1
          invariant FirstLineWith(lines, pattern, 0) == FirstLineWith(lines, pattern, i)
        {
          if Contains(lines[i], pattern) {
            lineNum := i;
            break;
          }
          i := i + 1;
        }
        assert lineNum == FirstLineWith(lines, pattern, 0);
        if lineNum >= 0 {
          ContainsTail(lines[lineNum], ReferencePrefix, agentName);
          var agentIndex := IndexOf(lines[lineNum], agentName);
          var d := OnLine(lineNum, agentIndex, agentIndex + |agentName|, ReferenceMessage(agentName, taskName), DiagnosticError);
          diagnostics := diagnostics + [d];
          ghost var r := AgentReference(taskName, taskConfig, lines, CachedAgents(agentsCache, dirPath));
          assert |r| == 1;
          assert r[0] == d;
          assert diagnostics == [d];
        }
      }
    }

    /** One record that is an object: validated against the current schema, and a task's agent checked. */
    method LintRecord(lines: seq<string>, kind: RecordKind, name: string, config: Value,
                      manager: SchemaManager, dirPath: string) returns (found: seq<Diagnostic>)
      requires |lines| >= 1
      ensures found == ObjectFindings(lines, kind, manager.CurrentSchema(),
        if kind == TaskRecords then CachedAgents(agentsCache, dirPath) else None, name, config)
    {
      var validationResult := if kind == AgentRecords then manager.ValidateAgent(config) else manager.ValidateTask(config);
      var errors := PrefixFields(name, validationResult.errors);
      found := ConvertErrors(lines, errors);
      if kind == TaskRecords {
        var agentRefErrors := ValidateAgentReferences(name, config, lines, dirPath);
        found := found + agentRefErrors;
      }
    }

    /**
     * The loop over a file's records, with the shared array of shape findings; only
     * tasks consult the agents cache.
     */
    method RecordsLoop(lines: seq<string>, kind: RecordKind, entries: seq<(string, Value)>,
                       manager: SchemaManager, dirPath: string) returns (vsDiagnostics: seq<Diagnostic>)
      requires |lines| >= 1
      ensures vsDiagnostics == RecordsPass(lines, kind, manager.CurrentSchema(),
        if kind == TaskRecords then CachedAgents(agentsCache, dirPath) else None, entries).reported
    {
      ghost var current := manager.CurrentSchema();
      ghost var cached := if kind == TaskRecords then CachedAgents(agentsCache, dirPath) else None;
      var diagnostics: seq<Diagnostic> := [];
      vsDiagnostics := [];
      var i := 0;
      while i < |entries|
        invariant 0 <= i <= |entries|
        invariant Pass(vsDiagnostics, diagnostics) == RecordsPass(lines, kind, current, cached, entries[..i])
      {
        assert entries[..i + 1][..i] == entries[..i];
        ghost var before := Pass(vsDiagnostics, diagnostics);
        var (name, config) := entries[i];
        if IsObjectLike(config) {
          var found := LintRecord(lines, kind, name, config, manager, dirPath);
          vsDiagnostics := vsDiagnostics + found;
        } else {
          var lineNumber := GetLineNumber(lines, name);
          diagnostics := diagnostics + [OnLine(lineNumber, 0, |name|, ShapeMessage(kind, name), DiagnosticError)];
          vsDiagnostics := vsDiagnostics + diagnostics;
        }
        assert Pass(vsDiagnostics, diagnostics) == RecordStep(before, lines, kind, current, cached, name, config);
        i := i + 1;
      }
      assert entries[..i] == entries;
    }

    /** The findings of a document whose parse gave an object, read against this state's cache. */
    method ObjectDiagnostics(doc: Document, data: Value, manager: SchemaManager) returns (vsDiagnostics: seq<Diagnostic>)
      requires IsObjectLike(data)
      ensures vsDiagnostics == DocumentDiagnostics(doc, Parsed(data), manager.CurrentSchema(), CachedAgents(agentsCache, doc.dirName))
    {
      var lines := Lines(doc);
      if doc.fileName == "agents.yaml" {
        var isNestedStructure := IsNestedStructure(Entries(data));
        if isNestedStructure {
          vsDiagnostics := RecordsLoop(lines, AgentRecords, Entries(data), manager, doc.dirName);
        } else {
          var validationResult := manager.ValidateAgent(data);
          vsDiagnostics := ConvertErrors(lines, validationResult.errors);
        }
      } else {
        vsDiagnostics := RecordsLoop(lines, TaskRecords, Entries(data), manager, doc.dirName);
      }
    }

    /**
     * `lintDocument`: other files change nothing; a linted file replaces the whole
     * collection by its own findings, and a parsed agents.yaml object is cached under
     * its directory before its records are checked.
     */
    method LintDocument(doc: Document, parse: ParseOutcome, manager: SchemaManager)
      modifies this
      ensures !Linted(doc.fileName) ==> agentsCache == old(agentsCache) && collection == old(collection)
      ensures Linted(doc.fileName) ==> agentsCache == CacheAfter(doc, parse, old(agentsCache))
      ensures Linted(doc.fileName) ==> collection == map[doc.uri :=
        DocumentDiagnostics(doc, parse, manager.CurrentSchema(), CachedAgents(old(agentsCache), doc.dirName))]
    {
      if doc.fileName != "agents.yaml" && doc.fileName != "tasks.yaml" {
        return;
      }
      collection := map[];
      var lines := Lines(doc);
      if parse.ParseError? {
        collection := collection[doc.uri := [Diagnostic(Range(0, 0, |lines|, 0), InvalidYamlText + parse.message, DiagnosticError)]];
        return;
      }
      var data := parse.data;
      if !IsObjectLike(data) {
        collection := collection[doc.uri := [Diagnostic(Range(0, 0, 0, 1), NotAnObjectText, DiagnosticError)]];
        return;
      }
      if doc.fileName == "agents.yaml" {
        agentsCache := agentsCache[doc.dirName := data];
      }
      var vsDiagnostics := ObjectDiagnostics(doc, data, manager);
      collection := collection[doc.uri := vsDiagnostics];
    }
  }

  /** The nested-structure test over `Object.entries(data)`: the first value that looks like an agent decides. */
  method IsNestedStructure(entries: seq<(string, Value)>) returns (nested: bool)
    ensures nested <==> AnyAgentRecord(entries)
  {
    nested := false;
    var i := 0;
    while i < |entries|
      invariant 0 <= i <= |entries|
      invariant !nested
      invariant forall k :: 0 <= k < i ==> !IsAgentRecord(entries[k].1)
    {
      var value := entries[i].1;
      if IsObjectLike(value) && (HasOwn(value, RoleKey) || HasOwn(value, GoalKey)) {
        assert IsAgentRecord(entries[i].1);
        nested := true;
        break;
      }
      assert !IsAgentRecord(entries[i].1);
      i := i + 1;
    }
  }
}
