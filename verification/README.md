# crewai-lint core in Dafny

crewai-lint is an editor extension that lints the two CrewAI configuration files,
`agents.yaml` and `tasks.yaml`. This project models its core and proves properties of
the model:

- **Validator** (`validator.dfy`). `createValidator(schema)` checks one flat record
  against a schema, which is an ordered list of required names plus a table of optional
  fields with their types. It reports missing required fields, wrong-case and
  unrecognised keys, type mismatches and failing custom predicates, in a fixed order.
  `isValidType` is the type switch, and a union type accepts what any of its tags accepts.
- **Schema shapes** (`schema_types.dfy`) and **the 0.102.0 schema**
  (`schema_0_102_0.dfy`): the agent and task tables and the bundle that hands each table
  to the validator.
- **Schema manager** (`schema_registry.dfy`): a class over a version-to-schema map that
  keeps insertion order, plus the current version. It handles overwrite on register and
  the `latest` alias bound to the newest schema. `getCurrentSchema` falls back in three
  steps. Every message is prefixed with `CrewAI Lint: `, and a canned finding is
  returned when no schema exists.
- **Version comparison** (`versions.dfy`): part-by-part numeric comparison and the
  compatibility banner.
- **Locator** (`locator.dfy`): the line a dotted field path points at
  (`getLineNumber`), and the columns and severity of each editor diagnostic
  (`convertErrorsToDiagnostics`).
- **Linter** (`linter.dfy`):
  - `lintDocument`, as a class holding the agents cache and the diagnostic collection.
    It covers the file-name gate, the parse outcome checks, and the nested-or-flat
    reading of `agents.yaml`.
  - Per-record validation with field paths prefixed by the record name, and the
    repeated shape findings caused by the shared array.
  - `validateAgentReferences`, the cross-file check of a task's `agent`.
  - `checkVersionCompatibility`.
- **Hover helpers** (`hover.dfy`): `isYAMLKey`, `getYAMLPath`, `getFieldInfo`,
  `formatType`, `isFieldRequired`.
- **Version detection** (`version_detection.dfy`): `normalizeVersion`, and the
  manifest priority chain of `detectCrewAIVersion` as a pure function of the three
  manifest reads.

`js_values.dfy` gives the JavaScript value rules the code relies on: truthiness,
`typeof`, own-property reads and `Object.entries`. `strings.dfy` holds the string
helpers (`indexOf`, `split`, `trim`, `join`), and `wrappers.dfy` holds `Option`.

Code that mutates state is modelled as imperative Dafny proved against a specification
function:

- the validator closure's two loops (`Validator.ValidateRecord`);
- the schema manager's map and current version (`SchemaRegistry.SchemaManager`);
- the linter's cache and collection (`Linter.LinterState`);
- the search loops of `getLineNumber`, `getYAMLPath`, `compareVersions`,
  `validateAgentReferences` and the nested-structure test.

## Model

| member | source | states |
|---|---|---|
| JsValues.TypeOf | src/utils/index.ts:85-93 | `typeof` is `"object"` exactly for null, arrays and objects |
| JsValues.Entries | src/utils/index.ts:19 | an object's entries are its fields in order; an array has one entry per item; null, booleans and numbers have none |
| JsValues.Lookup | src/utils/index.ts:26 | a property read such as `optionalFields[key]` is absent iff no entry has exactly that key; otherwise it is an entry stored under that key |
| JsValues.LookupAt | src/utils/index.ts:26 | the read returns the value of the first entry whose key is `key` |
| Validator.SomeTagAccepts | src/utils/index.ts:79-81 | a list of tags accepts a value iff some tag in it does |
| Validator.IsValidType | src/utils/index.ts:78-97 | a declared type accepts a value iff one of its tags' switch cases accepts it |
| Validator.UnionAcceptsIffMember | src/utils/index.ts:79-81 | a union accepts a value iff some member tag, taken as a single type, accepts it |
| Validator.ObjectTagAcceptsOnlyObjects | src/utils/index.ts:92-93 | `object` accepts exactly plain objects, so it rejects null and arrays |
| Validator.ArrayTagAcceptsOnlyArrays | src/utils/index.ts:90-91 | `array` accepts exactly arrays |
| Validator.UnknownTagRejects | src/utils/index.ts:94-95 | a tag outside the five supported ones rejects every value |
| Validator.NumericStringIsNotNumber | src/utils/index.ts:84-87 | there is no coercion: `"10"` is a string and not a number |
| Validator.SupportedTagsDisjoint | src/utils/index.ts:83-96 | no value is accepted by two different supported tags |
| Validator.StringOrObjectUnion | src/utils/index.ts:79-93 | `["string","object"]` accepts exactly strings and plain objects |
| Validator.FindCaseMatch | src/utils/index.ts:30-32 | no result iff no optional name equals the key ignoring case; otherwise the result is the first optional name that does |
| Validator.EntryErrors | src/utils/index.ts:19-69 | one entry gets at most two findings, all against its own key, and none of them is a missing-field error |
| Validator.Validation | src/utils/index.ts:71-74 | `valid` holds iff the error list is empty |
| Validator.CheckEntry | src/utils/index.ts:20-68 | the second loop's body pushes exactly the entry's findings |
| Validator.ValidateRecord | src/utils/index.ts:3-76 | the closure's two loops return exactly `Validation(schema, data)` |
| Validator.ErrorsForRequired | src/utils/index.ts:8-16 | the first pass reports a required name once if its value is absent or falsy, and never otherwise |
| Validator.ErrorsForSkippedKey | src/utils/index.ts:21-23 | the second pass reports nothing against a required key, whatever its value |
| Validator.RequiredFieldReported | src/utils/index.ts:8-23 | against a required name the record gets exactly `Missing required field: name` (error) if its value is absent or falsy, and nothing otherwise |
| Validator.EntryReported | src/utils/index.ts:19-69 | against a non-required key the record gets exactly that entry's own findings |
| Validator.WrongCaseReported | src/utils/index.ts:26-40 | a key that is not an exact optional name but equals one ignoring case gets one error naming the first such name |
| Validator.UnknownFieldReported | src/utils/index.ts:41-49 | a key matching no optional name, even ignoring case, gets one `Unrecognized field` error and nothing else |
| Validator.TypeWarningAlone | src/utils/index.ts:53-59 | a recognised key without a custom predicate, holding a value of the wrong type, gets exactly the type warning |
| Validator.RecognisedFieldReported | src/utils/index.ts:52-68 | a recognised key gets the type warning iff its type check fails, and the custom warning iff its predicate fails; nothing else is reported, and the type warning comes first |
| Validator.RequiredErrorsAreAbsentNames | src/utils/index.ts:8-16 | the first pass yields one missing-field error per absent or falsy required name, in `requiredFields` order |
| Validator.MissingErrorsComeFirst | src/utils/index.ts:5-69 | the missing-field errors form a prefix of the list, and no later error is a missing-field error |
| Validator.RequiredErrorsEmpty | src/utils/index.ts:8-16 | the first pass reports nothing iff every required name has a truthy value |
| Validator.EntryErrorsEmpty | src/utils/index.ts:19-69 | an entry reports nothing iff it is a required key, or an exact optional key whose value has the declared type and passes any custom predicate |
| Validator.FieldErrorsEmpty | src/utils/index.ts:19-69 | the second pass reports nothing iff every entry is acceptable in that sense |
| Validator.ValidIffAcceptable | src/utils/index.ts:71-74 | a record is valid iff all required fields are truthy and every entry is acceptable, so a warning alone also makes it invalid |
| Schema0102.AgentRequiredFields | src/schemas/0.102.0/agent.ts:4-17 | the required names are exactly `role, goal, backstory`, in that order and distinct; each is also declared as an optional `string` |
| Schema0102.AgentFieldTypes | src/schemas/0.102.0/agent.ts:18-97 | `llm` is string-or-object; `tools` and `knowledge_sources` are arrays; the four limits are numbers; `verbose` and `allow_delegation` are booleans |
| Schema0102.AgentTablePlain | src/schemas/0.102.0/agent.ts:3-103 | no agent field has a custom predicate, and every tag is one of the five supported tags |
| Schema0102.TaskRequiredFields | src/schemas/0.102.0/task.ts:4-13 | the required names are exactly `description, expected_output`, distinct; both are also declared as optional strings |
| Schema0102.TaskFieldTypes | src/schemas/0.102.0/task.ts:14-57 | `agent` is string-or-object; `tools` and `context` are arrays; the two flags are booleans; `config`, `output_json`, `output_pydantic` and `callback` are objects |
| Schema0102.TaskTablePlain | src/schemas/0.102.0/task.ts:3-59 | no task field has a custom predicate, and every tag is supported |
| Schema0102.BundleDelegates | src/schemas/0.102.0/index.ts:6-15 | the version is `0.102.0`, and each validate operation is the validator over its own table |
| Schema0102.MissingAgentFieldReported | src/schemas/0.102.0/index.ts:10-12 | an agent whose required field is absent or falsy gets exactly the missing-field error against it and is invalid |
| Schema0102.MissingTaskFieldReported | src/schemas/0.102.0/index.ts:13-15 | the same for a task's required fields |
| Schema0102.ToolsMustBeList | src/schemas/0.102.0/agent.ts:22-25 | an agent's `tools` value that is not a list gets exactly the `array` type warning |
| Schema0102.AgentToolsReported | src/schemas/0.102.0/agent.ts:22-25 | in a whole agent record, a `tools` entry that is not a list is reported exactly once, with that type warning |
| Schema0102.TaskAgentStringOrObject | src/schemas/0.102.0/task.ts:18-21 | a task's `agent` that is neither a string nor an object (an array, say) gets exactly the union's type warning |
| Schema0102.TaskAgentReported | src/schemas/0.102.0/task.ts:18-21 | in a whole task record, such an `agent` entry is reported exactly once, with that warning |
| SchemaRegistry.MapGet | src/schemaManager.ts:90-91 | `Map.get` is absent iff no entry has the key; otherwise it returns an entry stored under the key |
| SchemaRegistry.MapSet | src/schemaManager.ts:76 | `Map.set` keeps keys distinct and makes `get(k)` return the new value; every other key reads as before; it appends only when the key was new, and existing keys keep their positions |
| SchemaRegistry.RegisterAll | src/schemaManager.ts:26-44 | the scan registers each found schema in order with `MapSet`, and keys stay distinct; what is then bound is stated by `SchemaManager.LoadSchemas`, `CurrentOf` and `RegisteredVersionIsCurrent` |
| SchemaRegistry.WithLatest | src/schemaManager.ts:46-66 | an empty map is left alone, otherwise `latest` is set to the value `LatestIndex` picks; keys stay distinct. `LatestIsNewest` states that the bound value is the newest |
| SchemaRegistry.LatestIndex | src/schemaManager.ts:47-65 | the schema a stable ascending sort leaves last: no schema compares above it, and every later one compares below it |
| SchemaRegistry.LatestIsNewest | src/schemaManager.ts:46-66 | after loading a non-empty map, `latest` is bound to one of its schemas, and no schema compares above it |
| SchemaRegistry.CurrentOf | src/schemaManager.ts:89-93 | the schema stored under the current version if there is one; otherwise the one under `latest`; otherwise the last loaded schema; absent iff nothing is loaded |
| SchemaRegistry.RegisteredVersionIsCurrent | src/schemaManager.ts:75-77 | after a schema is registered, selecting its version makes it current |
| SchemaRegistry.UnknownVersionFallsBackToLatest | src/schemaManager.ts:90-91 | a current version without an entry falls back to the `latest` entry |
| SchemaRegistry.PrefixMessage | src/schemaManager.ts:131 | the result starts with `CrewAI Lint: ` and ends with the original message; an already prefixed message is unchanged |
| SchemaRegistry.PrefixMessages | src/schemaManager.ts:126-134 | `valid`, the count, and each finding's field and severity are kept; every message gets the prefix and keeps its text as a suffix |
| SchemaRegistry.PrefixIdempotent | src/schemaManager.ts:126-134 | prefixing twice is the same as prefixing once |
| SchemaRegistry.PrefixKeepsVerdict | src/schemaManager.ts:126-134 | prefixing keeps `valid` tied to an empty error list |
| SchemaRegistry.ValidateAgentWith | src/schemaManager.ts:98-107 | with no schema, the canned result; otherwise the current schema's agent verdict with prefixed messages |
| SchemaRegistry.ValidateTaskWith | src/schemaManager.ts:112-121 | the same for tasks |
| SchemaRegistry.NoSchemaReported | src/schemaManager.ts:100-102 | with an empty map, validation fails with one `info` finding on field `""`, whose message carries the prefix |
| SchemaRegistry.AvailableOf | src/schemaManager.ts:139-142 | the available versions are exactly the map's keys other than `latest` |
| SchemaRegistry.SchemaManager.constructor | src/schemaManager.ts:7-8 | a new manager has no schemas and current version `latest` |
| SchemaRegistry.SchemaManager.RegisterSchema | src/schemaManager.ts:75-77 | the map becomes `MapSet(old map, version, schema)`; the current version is unchanged |
| SchemaRegistry.SchemaManager.LoadSchemas | src/schemaManager.ts:18-70 | the found schemas are registered in order, then `latest` is bound to the newest (`WithLatest`); the current version is unchanged |
| SchemaRegistry.SchemaManager.SetCurrentVersion | src/schemaManager.ts:147-149 | any text becomes the current version; the map is unchanged |
| SchemaRegistry.SchemaManager.CurrentSchema | src/schemaManager.ts:89-93 | the state's current schema is `CurrentOf(schemas, currentVersion)` |
| SchemaRegistry.SchemaManager.ValidateAgent | src/schemaManager.ts:98-107 | agent validation goes through the state's current schema |
| SchemaRegistry.SchemaManager.ValidateTask | src/schemaManager.ts:112-121 | task validation goes through the state's current schema |
| SchemaRegistry.SchemaManager.AvailableVersions | src/schemaManager.ts:139-142 | the state's keys without `latest` |
| Versions.Compare | src/extension.ts:183-200 | the verdict of the comparison, always -1, 0 or 1; its meaning is stated by `FirstDifferenceDecides`, `EqualIffPaddedEqual`, `CompareAntisymmetric`, `CompareTransitive` and `CompareReflexive` |
| Versions.CompareVersions | src/extension.ts:183-200 | the loop returns `Compare(a, b)`, which is always -1, 0 or 1 |
| Versions.FirstDifferenceDecides | src/extension.ts:187-197 | the first differing component decides: -1 if it is smaller, 1 if larger |
| Versions.EqualIffPaddedEqual | src/extension.ts:187-199 | the result is 0 iff the component lists agree once padded with zeros |
| Versions.CompareAntisymmetric | src/extension.ts:183-200 | swapping the arguments negates the result |
| Versions.CompareTransitive | src/schemaManager.ts:50-63 | "not above" is transitive, so the sort comparator is a consistent order |
| Versions.CompareReflexive | src/extension.ts:183-200 | every version compares equal to itself |
| Versions.TrailingZeroIgnored | src/extension.ts:184-189 | a trailing `.0` changes nothing: `0.102` equals `0.102.0` |
| Versions.CompatibilityNotice | src/extension.ts:162-176 | no banner iff the version text is exactly `0.102.0`; otherwise a warning iff it compares below `0.102.0`, and information otherwise |
| Versions.ShortSpellingGetsInfo | src/extension.ts:163-176 | `0.102` equals the earliest version numerically, yet gets the information banner |
| Locator.AnchorFrom | src/extension.ts:437-445 | the first line at or after `i` whose trimmed text starts with `root:`, or -1 when there is none |
| Locator.FieldLineFrom | src/extension.ts:457-474 | the first line after the anchor matching `\s+field\s*:` before the section ends; the anchor when there is none |
| Locator.LineNumber | src/extension.ts:428-479 | the located line is always a valid line index |
| Locator.GetLineNumber | src/extension.ts:428-479 | the two loops return `LineNumber(lines, fieldPath)` |
| Locator.RootLineFound | src/extension.ts:447-450 | a one-segment path names the first line that starts with `root:` |
| Locator.RootMissingGivesFirstLine | src/extension.ts:447-478 | when no line starts with the path's first segment and a colon, the path is placed on line 0, however many segments it has |
| Locator.FieldSearchedBelowRoot | src/extension.ts:453-474 | a dotted path whose first segment is anchored at line `k` names the first line below `k`, within the section, matching the last segment; the anchor line when there is none |
| Locator.HighlightName | src/extension.ts:404-406 | a path without a dot is highlighted as itself |
| Locator.ErrorDiagnostic | src/extension.ts:390-422 | the finding's line is `LineNumber` of its field, and its columns satisfy `start <= end <= line length`. A missing-field finding spans from the first non-blank column to the end of the line. Any other finding covers the name's first occurrence, or the whole line when the name does not occur. The message is kept, and only `error` becomes an editor error |
| Locator.HighlightAtFirstOccurrence | src/extension.ts:404-412 | a finding that is not a missing field spans the first occurrence of its name on the line, from its start to its end |
| Locator.ConvertErrors | src/extension.ts:386-423 | one diagnostic per finding, in order |
| Locator.InfoShownAsWarning | src/extension.ts:418-420 | `info` findings are shown as warnings |
| Linter.CheckVersionCompatibility | src/extension.ts:153-177 | nothing without a schema; otherwise the compatibility banner for the current schema's version |
| Linter.Lines | src/extension.ts:430 | the document always has at least one line |
| Linter.PrefixFields | src/extension.ts:261-265 | each finding's field becomes `name.field`; count, message and severity are kept |
| Linter.PrefixedPathAnchorsAtRecord | src/extension.ts:263 | for a name without a dot, the prefixed path's first segment is the record's name and its last segment is the finding's own last segment |
| Linter.FirstLineWith | src/extension.ts:358-366 | -1 or a line index; a found line contains the pattern |
| Linter.FirstLineWithIsFirst | src/extension.ts:358-366 | -1 iff no line contains the pattern; no earlier line contains it |
| Linter.ReferencedAgent | src/extension.ts:340-344 | a task names an agent iff its `agent` is a non-empty string |
| Linter.AgentReference | src/extension.ts:332-381 | at most one finding |
| Linter.AgentReferenceFinding | src/extension.ts:332-381 | there is a finding iff the task names an agent, the directory's cached agents lack it, and some line contains `agent: <name>`. The finding sits on the first such line, over an occurrence of the name, with the exact message and error severity |
| Linter.RecordsPass | src/extension.ts:256-313 | the loop keeps at most one shape finding per record |
| Linter.RecordsPassShapes | src/extension.ts:268-277 | the shared array holds the shape findings of the non-object records, in order |
| Linter.ShapeFindingsRepeat | src/extension.ts:303-312 | with `n` non-object records, `n` shape findings are kept and `n(n+1)/2` are reported, because the whole array is appended each time |
| Linter.CleanRecordsReportNothing | src/extension.ts:287-302 | object records with no validation findings, and no missing agent in tasks.yaml, report nothing |
| Linter.RecordsPassWellPlaced | src/extension.ts:256-313 | every finding of the records loop starts on a document line and does not run backwards |
| Linter.ConvertedWellPlaced | src/extension.ts:386-423 | every located validation finding is well placed |
| Linter.DocumentDiagnostics | src/extension.ts:215-325 | a parse failure or a value that is not an object gives exactly one error, starting at line 0, column 0; otherwise the file kind's findings, which `DocumentDiagnosticsWellPlaced` proves well placed |
| Linter.DocumentDiagnosticsWellPlaced | src/extension.ts:215-325 | every finding of a linted document is well placed |
| Linter.CacheAfter | src/extension.ts:234-237 | a parsed `agents.yaml` object is stored under the document's directory; every other directory keeps its entry; any other document leaves the cache unchanged |
| Linter.MissingAgentReported | src/extension.ts:346-356 | once a directory's agents.yaml is cached as an object without agent `a`, a task there that names `a` on an `agent: a` line gets the finding |
| Linter.IsNestedStructure | src/extension.ts:241-252 | the early-exit loop answers true iff some entry's value is an object with its own `role` or `goal` |
| Linter.LinterState.constructor | src/extension.ts:18 | the cache and the collection start empty |
| Linter.LinterState.ValidateAgentReferences | src/extension.ts:332-381 | the line-search loop returns exactly `AgentReference` over the state's cache |
| Linter.LinterState.LintRecord | src/extension.ts:288-302 | an object record gets its prefixed, located findings, plus its agent check in tasks.yaml |
| Linter.LinterState.RecordsLoop | src/extension.ts:287-313 | the loop with the shared array returns exactly `RecordsPass(...).reported` |
| Linter.LinterState.ObjectDiagnostics | src/extension.ts:234-314 | a parsed object's findings are `DocumentDiagnostics` for the state's cache |
| Linter.LinterState.LintDocument | src/extension.ts:205-326 | other file names change nothing. A linted file replaces the whole collection with a map that holds only its own findings (`DocumentDiagnostics`). A parsed `agents.yaml` object is cached under its directory (`CacheAfter`) |
| Hover.IsYAMLKey | src/extension.ts:484-492 | a position is on a key only if a colon follows it; `IsYAMLKeyIffColonFollows` proves the converse |
| Hover.IsYAMLKeyIffColonFollows | src/extension.ts:484-492 | the containment test always holds, so a position is on a key iff a colon follows it |
| Hover.KeyOf | src/extension.ts:500-506 | no key iff the line's first colon is missing or in column 0 |
| Hover.YAMLPath | src/extension.ts:497-534 | no path iff the line has no key; otherwise the path ends with the line's key |
| Hover.GetYAMLPath | src/extension.ts:497-534 | the upward loop returns exactly `YAMLPath(lines, line)` |
| Hover.HoveredKeyIsLastSegment | src/extension.ts:528-533 | a dot-free hovered key is the last segment of its path |
| Hover.DescriptionOf | src/extension.ts:555 | a key with an entry gets a description stored under it; a key with no entry gets the empty text |
| Hover.DescriptionOfAt | src/extension.ts:555 | a key's first entry supplies its description |
| Hover.GetFieldInfo | src/extension.ts:539-558 | no info iff the last segment is not an optional key; otherwise `required` iff the segment is a required name, with the declared type and its description |
| Hover.FormatType | src/extension.ts:563-569 | a single tag is shown as is |
| Hover.FormatTypeBounds | src/extension.ts:564-566 | a list of tags is shown from its first tag to its last |
| Hover.FormatTypeUnions | src/extension.ts:564-566 | two or three tags are shown joined by ` \| ` |
| Hover.IsFieldRequired | src/extension.ts:574-581 | for agents.yaml it is membership in the agent's required names, for tasks.yaml in the task's, and false for any other file |
| VersionDetection.NormalizeVersion | src/versionDetection.ts:69-77 | the version is returned unchanged or ends in `.0`; `NormalizeKeepsMajorMinor`, `NormalizeUndotted` and `NormalizeIdempotent` state the rest |
| VersionDetection.NormalizeKeepsMajorMinor | src/versionDetection.ts:69-74 | with two or more dotted parts, the result's parts are the first two and `0` |
| VersionDetection.NormalizeUndotted | src/versionDetection.ts:75-76 | a version without a dot is unchanged |
| VersionDetection.NormalizeIdempotent | src/versionDetection.ts:69-77 | normalizing twice is the same as normalizing once |
| VersionDetection.NormalizeTriple | src/versionDetection.ts:71-74 | `a.b.c` becomes `a.b.0` |
| VersionDetection.NormalizePinned | src/versionDetection.ts:69-77 | a pinned `X.Y.Z` normalizes to a schema directory name `X.Y.0` |
| VersionDetection.TripleAtShape | src/versionDetection.ts:19 | the triple matcher reports three non-empty digit runs that spell the matched text, followed by no digit |
| VersionDetection.RequirementAt | src/versionDetection.ts:19 | a requirements match starts with `crewai` (any case) and at least one operator; the capture is the text of the triple read right after them |
| VersionDetection.CrewaiAtIsLowerCase | src/versionDetection.ts:19 | the letter-by-letter test for `crewai` with the `i` flag is `toLowerCase` of the six characters being `crewai` |
| VersionDetection.QuotedAt | src/versionDetection.ts:32 | a quoted pyproject match follows the `crewai = ` prefix; the capture is the text of the triple read between a quote right after the prefix and a closing quote |
| VersionDetection.UnquotedAt | src/versionDetection.ts:36 | an unquoted pyproject match follows the `crewai = ` prefix; the capture is the text of the triple read right after it |
| VersionDetection.VersionLineAt | src/versionDetection.ts:50 | a poetry.lock version line starts with `version = "`; the capture is the text of the triple read after it, which a `"` closes |
| VersionDetection.RequirementPinned | src/versionDetection.ts:19 | every requirements match captures a pinned version, three non-empty digit runs joined by dots |
| VersionDetection.QuotedPinned | src/versionDetection.ts:32 | every quoted pyproject match captures a pinned version |
| VersionDetection.UnquotedPinned | src/versionDetection.ts:36 | every unquoted pyproject match captures a pinned version |
| VersionDetection.VersionLinePinned | src/versionDetection.ts:50 | every poetry.lock version line captures a pinned version |
| VersionDetection.CapturedVersion | src/versionDetection.ts:19-50 | the text the `[0-9]+\.[0-9]+\.[0-9]+` part spans is a pinned version |
| VersionDetection.AssignmentAtIs | src/versionDetection.ts:32-36 | `crewai`, blanks, `=` and blanks before a non-blank are read as the assignment prefix, up to that non-blank |
| VersionDetection.AssignmentAtShape | src/versionDetection.ts:32-36 | whatever the assignment prefix reads is laid out that way |
| VersionDetection.TripleReadsAs | src/versionDetection.ts:19-50 | `a.b.c` laid out before a non-digit is read as that triple, spanning exactly its text |
| VersionDetection.QuotedAtIs | src/versionDetection.ts:32 | after the `crewai = ` prefix, `"a.b.c"` with either quote matches the quoted form with capture `a.b.c` |
| VersionDetection.QuotedAtFrom | src/versionDetection.ts:32 | the quoted form captures the text from after the opening quote to the end of the triple, when a quote closes it |
| VersionDetection.UnquotedAtIs | src/versionDetection.ts:36 | after the `crewai = ` prefix, `a.b.c` not followed by a digit matches the unquoted form with capture `a.b.c` |
| VersionDetection.UnquotedAtFrom | src/versionDetection.ts:36 | the unquoted form captures the triple right after the assignment prefix |
| VersionDetection.TripleAtEnd | src/versionDetection.ts:19-50 | the triple matcher stops before a non-digit |
| VersionDetection.VersionLineAtIs | src/versionDetection.ts:50 | `version = "a.b.c"` matches the version line with capture `a.b.c` |
| VersionDetection.VersionLineAtFrom | src/versionDetection.ts:50 | the version line captures the triple after `version = "` when a quote closes it |
| VersionDetection.Search | src/versionDetection.ts:19 | the leftmost match: none iff no position matches; otherwise the match at the first matching position |
| VersionDetection.RequirementsVersion | src/versionDetection.ts:19 | nothing is found iff no position of the text matches the requirements pattern |
| VersionDetection.PyprojectVersion | src/versionDetection.ts:32-37 | nothing is found iff neither form matches anywhere; when the quoted form matches somewhere, its leftmost match is taken and the unquoted form is not consulted |
| VersionDetection.PoetryLockVersion | src/versionDetection.ts:50 | a match needs a `[[package]]` / `name = "crewai"` header; nothing is found iff there is no header or no version line after the first one |
| VersionDetection.SearchFirst | src/versionDetection.ts:19 | the search returns the match at the first position where the pattern matches |
| VersionDetection.SearchNone | src/versionDetection.ts:19 | the search finds nothing when the pattern matches nowhere |
| VersionDetection.SearchFindsVersion | src/versionDetection.ts:19-50 | when every match is a pinned version, so is the search's |
| VersionDetection.ManifestPatternsCaptureVersions | src/versionDetection.ts:19-50 | each manifest pattern captures only pinned versions |
| VersionDetection.DetectVersion | src/versionDetection.ts:11-62 | an unreadable requirements.txt gives `latest`; otherwise the result is `latest` or the normalized capture of a manifest that was read. The priority chain is stated by `RequirementsWin`, `PyprojectWins`, `PoetryLockDecidesLast`, `FailedReadGivesLatest`, `NothingFoundGivesLatest` and `DetectedOnlyFromPin` |
| VersionDetection.DetectedVersionShape | src/versionDetection.ts:11-62 | detection yields `latest` or a normalized schema directory name |
| VersionDetection.UnmatchedFallsThrough | src/versionDetection.ts:13-54 | a manifest that exists but pins nothing is treated as absent |
| VersionDetection.RequirementsWin | src/versionDetection.ts:13-23 | a requirements.txt match decides, whatever the other manifests hold |
| VersionDetection.FailedReadGivesLatest | src/versionDetection.ts:58-61 | a failing read of requirements.txt, of pyproject.toml after requirements.txt pins nothing, or of poetry.lock after neither earlier manifest pins anything, ends detection with `latest` |
| VersionDetection.NothingFoundGivesLatest | src/versionDetection.ts:56-57 | when no manifest pins a version, detection gives `latest` |
| VersionDetection.DetectedOnlyFromPin | src/versionDetection.ts:11-62 | a result other than `latest` comes from a manifest that pins a version, every earlier manifest having been read without a match |
| VersionDetection.PyprojectWins | src/versionDetection.ts:25-42 | once requirements.txt is read without a match, a pyproject.toml match decides, whatever poetry.lock holds |
| VersionDetection.PoetryLockDecidesLast | src/versionDetection.ts:44-54 | with the first two manifests read without a match, a poetry.lock match decides |
| VersionDetection.QuotedPyprojectDetected | src/versionDetection.ts:25-42 | the first quoted pyproject.toml match decides, once requirements.txt is read without a match |
| VersionDetection.UnquotedPyprojectDetected | src/versionDetection.ts:32-42 | without any quoted match, the first unquoted pyproject.toml match decides |
| VersionDetection.PoetryLockDetected | src/versionDetection.ts:44-54 | the first version line after the first `crewai` package header decides, once the earlier manifests pin nothing |
| VersionDetection.PoetryLockFound | src/versionDetection.ts:50 | the poetry.lock pattern captures the first version line after the first `crewai` package header |
| VersionDetection.PinnedRequirementMatched | src/versionDetection.ts:19 | `crewai` followed by operators and `a.b.c` is matched with version `a.b.c` |
| VersionDetection.PinnedRequirementDetected | src/versionDetection.ts:13-23 | such a requirements.txt makes detection return `a.b.0` |

## Left out

- I/O and the editor host are left out: registering commands, the hover provider and
  event listeners, Markdown hover text, popups, and `document.lineAt`. The diagnostic
  collection is the `collection` map field. `checkVersionCompatibility` returns the
  banner it would show.
- `yaml.load` is not modelled. Its outcome is an input: the message of the exception it
  throws, or the loaded tree. Dates, anchors and other YAML-only types do not occur in
  that tree.
- The directory scan and dynamic `import()` in `loadSchemas` are not modelled.
  `LoadSchemas` takes the list of found schemas, in scan order. The asynchronous
  `setVersionFromWorkspace` is a plain `SetCurrentVersion`.
- The file reads in `detectCrewAIVersion` are not modelled. Each manifest is an input:
  absent, unreadable, or its text. `path.basename` and `path.dirname` are given strings
  in `Document`.
- Numbers are integers. JavaScript floating point, `NaN` and `Number()` of
  non-decimal text (hex, exponents, signs, surrounding spaces) are not modelled.
  `Versions.PartValue` reads a part as a decimal digit run, or 0 otherwise, so a
  signed part such as `-1`, which `Number("-1") || 0` reads as -1, counts as 0.
- The sort in `loadSchemas` is not modelled as a sort. It is modelled by the element a
  stable ascending sort leaves last, the last maximum (`LatestIndex`).
- Keys are assumed not to be integer-like, and object fields keep insertion order.
  `Object.entries` would move integer-like keys first.
- Prototype keys are not modelled. `optionalFields[key]` and `data[field]` read own
  properties only, so keys such as `constructor` or `toString` are not found through
  the prototype.
- Case folding is ASCII only. `trim` and `\s` treat space, tab, CR, LF, form feed and
  vertical tab as blank. Unicode spaces and full Unicode case mapping are not modelled.
- The regular expression in `getLineNumber` is not modelled. It interpolates the field
  name unescaped. `Locator.MatchesField` matches the name literally, so metacharacters
  in record names, and a `RegExp` exception from an invalid pattern, are not captured.
- `Linter.LinterState.LintDocument` does not model an exception thrown after parsing.
  The source's `try` would turn it into an `Invalid YAML` finding, but only the
  parser's own exception is modelled.
- `Hover.GetFieldInfo` reads the description from a separate table. Field descriptions
  are kept apart from the type tables because only the hover reads them.
- `SchemaTypes.FieldDefinition` models a custom validator as an optional Dafny
  function. No 0.102.0 field has one.
- Top-level arrays differ between the code and its documentation. `typeof [] ===
  'object'`, so the code lints a top-level list record by record under index keys,
  rather than rejecting it as not an object. The model follows the code.
- The no-schema text also differs from the documentation. The code returns
  `CrewAI Lint: No schema found. If first install of extension, try
  closing/re-opening file.` with severity `info`, while the documentation and one test
  expect "No schema available". The model follows the code.
- `Linter.IsAgentRecord` models `hasOwnProperty`. On arrays and strings it also sees
  index keys and `length`, as `Object.prototype.hasOwnProperty` does.
- The line ending `\r\n` is not normalized. A document is split on `\n` only, as
  `getText().split('\n')` does.
