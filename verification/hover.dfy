/**
 * The hover helpers of the extension (src/extension.ts): is the cursor on a key,
 * the dotted path of that key, and what the schema says about its last segment.
 */
module Hover {
  import opened Wrappers
  import opened Strings
  import opened JsValues
  import opened SchemaTypes

  /** `isYAMLKey(lineText, position)`: a colon at or after the position, and the trimmed text before the position occurs in the trimmed text before that colon. */
  function IsYAMLKey(lineText: string, position: nat): (r: bool)
    ensures r ==> exists c :: position <= c < |lineText| && lineText[c] == ':'
  {
    var colonIndex := IndexOfFrom(lineText, ":", position);
    if colonIndex == -1 then false
    else
      assert lineText[colonIndex] == lineText[colonIndex..colonIndex + 1][0];
      Contains(Trim(lineText[..colonIndex]), Trim(lineText[..position]))
  }

  /** The containment test never fails: a position is on a key exactly when a colon follows it. */
  lemma IsYAMLKeyIffColonFollows(lineText: string, position: nat)
    ensures IsYAMLKey(lineText, position) <==> exists c :: position <= c < |lineText| && lineText[c] == ':'
  {
    var c := IndexOfFrom(lineText, ":", position);
    if c != -1 {
      assert OccursAt(lineText, ":", c);
      assert lineText[c] == ':';
      var before := lineText[..c];
      assert before[..position] == lineText[..position];
      TrimOfPrefix(before, position);
      PrefixIsContained(Trim(before), Trim(lineText[..position]));
    } else {
      forall k | position <= k < |lineText| ensures lineText[k] != ':' {
        assert !OccursAt(lineText, ":", k);
        assert lineText[k..k + 1] == [lineText[k]];
      }
    }
  }

  /** `line.match(/^(\s*)([^:]+):/)[2].trim()`: the trimmed text before the first colon, if that colon is not the first character. */
  function KeyOf(line: string): (r: Option<string>)
    ensures r.None? <==> FindChar(line, ':') <= 0
  {
    var c := FindChar(line, ':');
    if c <= 0 then None else Some(Trim(line[..c]))
  }

  /**
   * The keys `getYAMLPath` collects looking upward from line `i - 1`: every keyed line
   * indented less than `indent`, outermost first, stopping after an unindented one.
   */
  function ParentKeys(lines: seq<string>, i: nat, indent: nat): seq<string>
    requires i <= |lines|
  {
    if i == 0 then []
    else
      var line := lines[i - 1];
      var lineIndent := FirstNonSpace(line);
      if lineIndent < indent && KeyOf(line).Some? then
        (if lineIndent == 0 then [] else ParentKeys(lines, i - 1, indent)) + [KeyOf(line).value]
      else ParentKeys(lines, i - 1, indent)
  }

  /** `getYAMLPath`: the parents' keys and the line's own key joined with dots; `None` when the line has no key. */
  function YAMLPath(lines: seq<string>, line: nat): (r: Option<string>)
    requires line < |lines|
    ensures r.None? <==> KeyOf(lines[line]).None?
    ensures r.Some? ==> EndsWith(r.value, KeyOf(lines[line]).value)
  {
    var key := KeyOf(lines[line]);
    if key.None? then None
    else
      var parents := ParentKeys(lines, line, FirstNonSpace(lines[line]));
      if |parents| > 0 then Some(Join(parents, ".") + "." + key.value) else Some(key.value)
  }

  method GetYAMLPath(lines: seq<string>, position: nat) returns (r: Option<string>)
    requires position < |lines|
    ensures r == YAMLPath(lines, position)
  {
    var lineText := lines[position];
    var currentIndent := FirstNonSpace(lineText);
    var keyMatch := KeyOf(lineText);
    if keyMatch.None? {
      return None;
    }
    var currentKey := keyMatch.value;
    var parentKeys: seq<string> := [];
    var line := position - 1;
    while line >= 0
      invariant -1 <= line < position
      invariant ParentKeys(lines, position, currentIndent) == ParentKeys(lines, line + 1, currentIndent) + parentKeys
    {
      var parentLineText := lines[line];
      var parentIndent := FirstNonSpace(parentLineText);
      if parentIndent < currentIndent {
        var parentKeyMatch := KeyOf(parentLineText);
        if parentKeyMatch.Some? {
          ghost var later := parentKeys;
          parentKeys := [parentKeyMatch.value] + parentKeys;
          if parentIndent == 0 {
            assert ParentKeys(lines, line + 1, currentIndent) == [parentKeyMatch.value];
            line := -1;
            break;
          }
          assert ParentKeys(lines, line + 1, currentIndent) == ParentKeys(lines, line, currentIndent) + [parentKeyMatch.value];
          AppendAssoc(ParentKeys(lines, line, currentIndent), [parentKeyMatch.value], later);
        } else {
          assert ParentKeys(lines, line + 1, currentIndent) == ParentKeys(lines, line, currentIndent);
        }
      } else {
        assert ParentKeys(lines, line + 1, currentIndent) == ParentKeys(lines, line, currentIndent);
      }
      line := line - 1;
    }
    assert ParentKeys(lines, position, currentIndent) == parentKeys;
    if |parentKeys| > 0 {
      return Some(Join(parentKeys, ".") + "." + currentKey);
    }
    return Some(currentKey);
  }

  /** The last dotted segment of a path. */
  function LastSegment(fieldPath: string): string {
    Last(Split(fieldPath, '.'))
  }

  /** The hovered key, when it holds no dot, is the segment the field lookup uses. */
  lemma HoveredKeyIsLastSegment(lines: seq<string>, line: nat)
    requires line < |lines| && KeyOf(lines[line]).Some? && '.' !in KeyOf(lines[line]).value
    ensures LastSegment(YAMLPath(lines, line).value) == KeyOf(lines[line]).value
  {
    var key := KeyOf(lines[line]).value;
    var parents := ParentKeys(lines, line, FirstNonSpace(lines[line]));
    if |parents| > 0 {
      SplitSnoc(Join(parents, "."), key, '.');
      assert Join(parents, ".") + "." + key == Join(parents, ".") + ['.'] + key;
    } else {
      SplitJoin([key], '.');
    }
  }

  // ---------------------------------------------------------------------------
  // Field information

  datatype FieldInfo = FieldInfo(required: bool, description: string, fieldType: FieldType)

  /** The documentation text of `key`, or the empty (not shown) text. */
  function DescriptionOf(descriptions: Descriptions, key: string): (r: string)
    ensures r != "" ==> exists i :: 0 <= i < |descriptions| && descriptions[i] == (key, r)
    ensures (forall i :: 0 <= i < |descriptions| ==> descriptions[i].0 != key) ==> r == ""
    ensures (exists i :: 0 <= i < |descriptions| && descriptions[i].0 == key) ==>
      exists i :: 0 <= i < |descriptions| && descriptions[i] == (key, r)
  {
    var d := Lookup(descriptions, key);
    if d.Some? then d.value else ""
  }

  /** The description stored in the first entry under `key` is the one returned. */
  lemma DescriptionOfAt(descriptions: Descriptions, key: string, i: nat)
    requires i < |descriptions| && descriptions[i].0 == key
    requires forall j :: 0 <= j < i ==> descriptions[j].0 != key
    ensures DescriptionOf(descriptions, key) == descriptions[i].1
  {
    LookupAt(descriptions, key, i);
  }

  /**
   * `getFieldInfo(fieldPath, schema)`: nothing unless the last segment is an optional-field
   * key; then whether it is required, its description and its declared type.
   */
  function GetFieldInfo(fieldPath: string, schema: RecordSchema, descriptions: Descriptions): (r: Option<FieldInfo>)
    ensures r.None? <==> Lookup(schema.optionalFields, LastSegment(fieldPath)).None?
    ensures r.Some? ==>
      && (r.value.required <==> LastSegment(fieldPath) in schema.requiredFields)
      && r.value.fieldType == Lookup(schema.optionalFields, LastSegment(fieldPath)).value.fieldType
      && r.value.description == DescriptionOf(descriptions, LastSegment(fieldPath))
  {
    var lastPart := LastSegment(fieldPath);
    var fieldDef := Lookup(schema.optionalFields, lastPart);
    if fieldDef.None? then None
    else Some(FieldInfo(lastPart in schema.requiredFields, DescriptionOf(descriptions, lastPart), fieldDef.value.fieldType))
  }

  /** `formatType`: a tag as is, a list joined with ` | `. */
  function FormatType(t: FieldType): (r: string)
    ensures t.Tag? ==> r == t.tag
  {
    match t
    case Tag(tag) => tag
    case Union(tags) => Join(tags, " | ")
  }

  /** A list of tags is shown from its first tag to its last. */
  lemma FormatTypeBounds(t: FieldType)
    requires t.Union? && |t.tags| >= 1
    ensures StartsWith(FormatType(t), t.tags[0]) && EndsWith(FormatType(t), Last(t.tags))
  {
    JoinBounds(t.tags, " | ");
  }

  lemma {:induction false} JoinBounds(parts: seq<string>, sep: string)
    requires |parts| >= 1
    ensures StartsWith(Join(parts, sep), parts[0]) && EndsWith(Join(parts, sep), Last(parts))
    decreases |parts|
  {
    if |parts| > 1 {
      JoinBounds(parts[1..], sep);
      assert Last(parts[1..]) == Last(parts);
    }
  }

  /** Two or three tags are shown with ` | ` between them, in their order. */
  lemma FormatTypeUnions(a: string, b: string, c: string)
    ensures FormatType(Union([a, b])) == a + " | " + b
    ensures FormatType(Union([a, b, c])) == a + " | " + b + " | " + c
  {
    JoinCons(a, [b], " | ");
    assert [a, b, c][1..] == [b, c];
    JoinCons(b, [c], " | ");
    JoinCons(a, [b, c], " | ");
  }

  /** `isFieldRequired(field, fileType, schema)`: the required list of the file's record kind; false for other files. */
  function IsFieldRequired(field: string, fileType: string, schema: CrewAISchema): (r: bool)
    ensures r ==> fileType == "agents.yaml" || fileType == "tasks.yaml"
    ensures fileType == "agents.yaml" ==> (r <==> field in schema.agentSchema.requiredFields)
    ensures fileType == "tasks.yaml" ==> (r <==> field in schema.taskSchema.requiredFields)
  {
    if fileType == "agents.yaml" then field in schema.agentSchema.requiredFields
    else if fileType == "tasks.yaml" then field in schema.taskSchema.requiredFields
    else false
  }
}
