/**
 * The structural validator (src/utils/index.ts): `isValidType`, and the closure
 * returned by `createValidator`, which checks one flat record against a schema.
 *
 * `Validation` states what the closure returns; `ValidateRecord` is the closure's
 * own two loops, proved to return exactly that.
 */
module Validator {
  import opened Wrappers
  import opened Strings
  import opened JsValues
  import opened SchemaTypes

  /** The tags the type switch knows; any other tag rejects every value. */
  const SupportedTags: seq<string> := ["string", "number", "boolean", "array", "object"]

  /** One case of the type switch. There is no coercion: `"10"` is not a number. */
  predicate TagAccepts(v: Value, tag: string) {
    if tag == "string" then TypeOf(v) == "string"
    else if tag == "number" then TypeOf(v) == "number"
    else if tag == "boolean" then TypeOf(v) == "boolean"
    else if tag == "array" then v.Arr?
    else if tag == "object" then TypeOf(v) == "object" && !v.Null? && !v.Arr?
    else false
  }

  /** `tags.some(tag => isValidType(value, tag))`: a union accepts what any member accepts. */
  function SomeTagAccepts(v: Value, tags: seq<string>): (r: bool)
    ensures r <==> exists i :: 0 <= i < |tags| && TagAccepts(v, tags[i])
  {
    if tags == [] then false
    else
      assert forall i :: 1 <= i < |tags| ==> tags[i] == tags[1..][i - 1];
      TagAccepts(v, tags[0]) || SomeTagAccepts(v, tags[1..])
  }

  /** The tags a declared type lists. */
  function Tags(t: FieldType): seq<string> {
    match t
    case Tag(x) => [x]
    case Union(ts) => ts
  }

  /** `isValidType(value, expectedType)`. */
  function IsValidType(v: Value, t: FieldType): (r: bool)
    ensures r <==> exists i :: 0 <= i < |Tags(t)| && TagAccepts(v, Tags(t)[i])
  {
    match t
    case Tag(x) => assert Tags(t)[0] == x; TagAccepts(v, x)
    case Union(ts) => assert Tags(t) == ts; SomeTagAccepts(v, ts)
  }

  /** A type as a template literal prints it: a union comma-joined, as `Array.prototype.toString` does. */
  function TypeText(t: FieldType): string {
    match t
    case Tag(x) => x
    case Union(ts) => Join(ts, ",")
  }

  /** What every missing-field message, and no other message, starts with. */
  const MissingPrefix: string := "Missing required field: "

  function MissingMessage(name: string): string {
    MissingPrefix + name
  }

  function CaseMessage(key: string, canonical: string): (r: string)
    ensures !StartsWith(r, MissingPrefix)
  {
    var m := "Field '" + key + "' uses incorrect case. Use '" + canonical + "' instead.";
    assert m[0] == 'F' != MissingPrefix[0];
    m
  }

  function UnknownMessage(key: string): (r: string)
    ensures !StartsWith(r, MissingPrefix)
  {
    var m := "Unrecognized field: '" + key + "'. This field is not defined in the schema.";
    assert m[0] == 'U' != MissingPrefix[0];
    m
  }

  function TypeMessage(key: string, t: FieldType, v: Value): (r: string)
    ensures !StartsWith(r, MissingPrefix)
  {
    var m := "Field '" + key + "' has invalid type. Expected " + TypeText(t) + ", got " + TypeOf(v);
    assert m[0] == 'F' != MissingPrefix[0];
    m
  }

  function CustomMessage(key: string): (r: string)
    ensures !StartsWith(r, MissingPrefix)
  {
    var m := "Field '" + key + "' failed validation";
    assert m[0] == 'F' != MissingPrefix[0];
    m
  }

  function MissingError(name: string): ValidationError {
    ValidationError(MissingMessage(name), name, Error)
  }

  function TypeWarning(key: string, t: FieldType, v: Value): ValidationError {
    ValidationError(TypeMessage(key, t, v), key, Warning)
  }

  function CustomWarning(key: string): ValidationError {
    ValidationError(CustomMessage(key), key, Warning)
  }

  /** The custom predicate exists and rejects the value. */
  predicate FailsCustom(def: FieldDefinition, v: Value) {
    def.validator.Some? && !def.validator.value(v)
  }

  /** Index `i` holds the first optional name that equals `key` ignoring case. */
  predicate IsFirstCaseMatch(fields: seq<(string, FieldDefinition)>, key: string, i: int) {
    && 0 <= i < |fields|
    && EqualsIgnoreCase(fields[i].0, key)
    && forall j :: 0 <= j < i ==> !EqualsIgnoreCase(fields[j].0, key)
  }

  /** `Object.keys(optionalFields).find(f => f.toLowerCase() === key.toLowerCase())`. */
  function FindCaseMatch(fields: seq<(string, FieldDefinition)>, key: string): (r: Option<string>)
    ensures r.None? <==> forall i :: 0 <= i < |fields| ==> !EqualsIgnoreCase(fields[i].0, key)
    ensures r.Some? ==> exists i :: IsFirstCaseMatch(fields, key, i) && fields[i].0 == r.value
  {
    if fields == [] then None
    else if EqualsIgnoreCase(fields[0].0, key) then
      assert IsFirstCaseMatch(fields, key, 0);
      Some(fields[0].0)
    else
      var r := FindCaseMatch(fields[1..], key);
      assert forall i :: 1 <= i < |fields| ==> fields[i] == fields[1..][i - 1];
      if r.Some? then
        var i :| IsFirstCaseMatch(fields[1..], key, i) && fields[1..][i].0 == r.value;
        assert IsFirstCaseMatch(fields, key, i + 1);
        r
      else r
  }

  /** The errors the second pass reports for one entry `(key, value)` of the record. */
  function EntryErrors(schema: RecordSchema, key: string, value: Value): (r: seq<ValidationError>)
    ensures |r| <= 2
    ensures forall i :: 0 <= i < |r| ==> r[i].field == key && !StartsWith(r[i].message, MissingPrefix)
  {
    if key in schema.requiredFields then []
    else
      match Lookup(schema.optionalFields, key)
      case None =>
        (match FindCaseMatch(schema.optionalFields, key)
         case Some(canonical) => [ValidationError(CaseMessage(key, canonical), key, Error)]
         case None => [ValidationError(UnknownMessage(key), key, Error)])
      case Some(def) =>
        (if IsValidType(value, def.fieldType) then [] else [TypeWarning(key, def.fieldType, value)])
        + (if FailsCustom(def, value) then [CustomWarning(key)] else [])
  }

  /** The first pass: one error per required name whose value is absent or falsy, in order. */
  function RequiredErrors(required: seq<string>, data: Value): (r: seq<ValidationError>)
    ensures |r| <= |required|
  {
    if required == [] then []
    else
      var name := Last(required);
      RequiredErrors(required[..|required| - 1], data)
      + (if Present(Get(data, name)) then [] else [MissingError(name)])
  }

  /** The second pass over the record's entries, in their iteration order. */
  function FieldErrors(schema: RecordSchema, entries: seq<(string, Value)>): (r: seq<ValidationError>)
    ensures forall i :: 0 <= i < |r| ==> !StartsWith(r[i].message, MissingPrefix)
  {
    if entries == [] then []
    else
      var e := Last(entries);
      FieldErrors(schema, entries[..|entries| - 1]) + EntryErrors(schema, e.0, e.1)
  }

  lemma EntryErrorsUnmatched(schema: RecordSchema, key: string, value: Value)
    requires key !in schema.requiredFields && Lookup(schema.optionalFields, key).None?
    ensures EntryErrors(schema, key, value)
      == match FindCaseMatch(schema.optionalFields, key)
         case Some(canonical) => [ValidationError(CaseMessage(key, canonical), key, Error)]
         case None => [ValidationError(UnknownMessage(key), key, Error)]
  {
  }

  lemma EntryErrorsRecognised(schema: RecordSchema, key: string, value: Value, def: FieldDefinition)
    requires key !in schema.requiredFields && Lookup(schema.optionalFields, key) == Some(def)
    ensures EntryErrors(schema, key, value)
      == (if IsValidType(value, def.fieldType) then [] else [TypeWarning(key, def.fieldType, value)])
         + (if FailsCustom(def, value) then [CustomWarning(key)] else [])
  {
  }

  lemma RequiredErrorsStep(required: seq<string>, data: Value, i: nat)
    requires i < |required|
    ensures RequiredErrors(required[..i + 1], data)
         == RequiredErrors(required[..i], data)
            + (if Present(Get(data, required[i])) then [] else [MissingError(required[i])])
  {
    assert required[..i + 1][..i] == required[..i];
  }

  /** One iteration of the second pass appends that entry's errors. */
  lemma FieldErrorsStep(
    missing: seq<ValidationError>, schema: RecordSchema, entries: seq<(string, Value)>, j: nat,
    added: seq<ValidationError>)
    requires j < |entries|
    requires added == EntryErrors(schema, entries[j].0, entries[j].1)
    ensures missing + FieldErrors(schema, entries[..j]) + added == missing + FieldErrors(schema, entries[..j + 1])
  {
    assert entries[..j + 1][..j] == entries[..j];
    AppendAssoc(missing, FieldErrors(schema, entries[..j]), added);
  }

  /** What `createValidator(schema)(data)` returns. */
  function Validation(schema: RecordSchema, data: Value): (r: ValidationResult)
    ensures r.valid <==> r.errors == []
  {
    var errors := RequiredErrors(schema.requiredFields, data) + FieldErrors(schema, Entries(data));
    ValidationResult(|errors| == 0, errors)
  }

  /** The body of the closure's second loop for one entry: the errors it pushes. */
  method CheckEntry(schema: RecordSchema, key: string, value: Value) returns (added: seq<ValidationError>)
    ensures added == EntryErrors(schema, key, value)
  {
    added := [];
    if key in schema.requiredFields {
      return;
    }
    var fieldDef := Lookup(schema.optionalFields, key);
    if fieldDef.None? {
      EntryErrorsUnmatched(schema, key, value);
      var matching := FindCaseMatch(schema.optionalFields, key);
      if matching.Some? {
        added := [ValidationError(CaseMessage(key, matching.value), key, Error)];
      } else {
        added := [ValidationError(UnknownMessage(key), key, Error)];
      }
      return;
    }
    var def := fieldDef.value;
    EntryErrorsRecognised(schema, key, value, def);
    if !IsValidType(value, def.fieldType) {
      added := added + [TypeWarning(key, def.fieldType, value)];
    }
    if def.validator.Some? && !def.validator.value(value) {
      added := added + [CustomWarning(key)];
    }
  }

  /** The closure returned by `createValidator(schema)`, applied to `data`. */
  method ValidateRecord(schema: RecordSchema, data: Value) returns (result: ValidationResult)
    ensures result == Validation(schema, data)
  {
    var errors: seq<ValidationError> := [];
    var required := schema.requiredFields;
    for i := 0 to |required|
      invariant errors == RequiredErrors(required[..i], data)
    {
      var field := required[i];
      RequiredErrorsStep(required, data, i);
      if !Present(Get(data, field)) {
        errors := errors + [MissingError(field)];
      }
    }
    assert required[..|required|] == required;
    var entries := Entries(data);
    ghost var missing := errors;
    for j := 0 to |entries|
      invariant errors == missing + FieldErrors(schema, entries[..j])
    {
      var added := CheckEntry(schema, entries[j].0, entries[j].1);
      FieldErrorsStep(missing, schema, entries, j, added);
      errors := errors + added;
    }
    assert entries[..|entries|] == entries;
    result := ValidationResult(|errors| == 0, errors);
  }

  // ---------------------------------------------------------------------------
  // isValidType

  /** `object` accepts exactly the plain objects: neither `null` nor an array. */
  lemma ObjectTagAcceptsOnlyObjects(v: Value)
    ensures TagAccepts(v, "object") <==> v.Obj?
  {
  }

  /** `array` accepts exactly the arrays. */
  lemma ArrayTagAcceptsOnlyArrays(v: Value)
    ensures IsValidType(v, Tag("array")) <==> v.Arr?
  {
    assert Tags(Tag("array")) == ["array"];
  }

  /** A tag outside the switch rejects every value. */
  lemma UnknownTagRejects(v: Value, tag: string)
    requires tag !in SupportedTags
    ensures !IsValidType(v, Tag(tag))
  {
    assert Tags(Tag(tag)) == [tag];
  }

  /** No coercion: a numeric string is still a string. */
  lemma NumericStringIsNotNumber()
    ensures !IsValidType(Str("10"), Tag("number"))
    ensures IsValidType(Str("10"), Tag("string"))
  {
    assert Tags(Tag("number")) == ["number"];
    assert Tags(Tag("string")) == ["string"];
  }

  /** The five supported tags partition the values they accept: no value satisfies two of them. */
  lemma SupportedTagsDisjoint(v: Value, t1: string, t2: string)
    requires t1 in SupportedTags && t2 in SupportedTags && t1 != t2
    ensures !(TagAccepts(v, t1) && TagAccepts(v, t2))
  {
  }

  /** A union accepts a value iff one of its members does, whatever the member's position. */
  lemma UnionAcceptsIffMember(v: Value, ts: seq<string>)
    ensures IsValidType(v, Union(ts)) <==> exists t :: t in ts && IsValidType(v, Tag(t))
  {
    if IsValidType(v, Union(ts)) {
      var i :| 0 <= i < |ts| && TagAccepts(v, ts[i]);
      assert Tags(Tag(ts[i])) == [ts[i]];
      assert ts[i] in ts && IsValidType(v, Tag(ts[i]));
    }
    if exists t :: t in ts && IsValidType(v, Tag(t)) {
      var t :| t in ts && IsValidType(v, Tag(t));
      assert Tags(Tag(t)) == [t];
      var i :| 0 <= i < |ts| && ts[i] == t;
      assert TagAccepts(v, Tags(Union(ts))[i]);
    }
  }

  /** `["string", "object"]` (the type of `llm` and of a task's `agent`) accepts strings and plain objects only. */
  lemma StringOrObjectUnion(v: Value)
    ensures IsValidType(v, Union(["string", "object"])) <==> v.Str? || v.Obj?
  {
    var ts := ["string", "object"];
    assert Tags(Union(ts)) == ts;
    if v.Str? {
      assert TagAccepts(v, ts[0]);
    } else if v.Obj? {
      assert TagAccepts(v, ts[1]);
    } else {
      assert !TagAccepts(v, ts[0]) && !TagAccepts(v, ts[1]);
    }
  }

  // ---------------------------------------------------------------------------
  // Errors grouped by field

  /** The errors reported against field `f`, in their order. */
  function ErrorsFor(errs: seq<ValidationError>, f: string): (r: seq<ValidationError>)
    ensures |r| <= |errs|
    ensures forall i :: 0 <= i < |r| ==> r[i].field == f && r[i] in errs
    ensures (forall i :: 0 <= i < |errs| ==> errs[i].field == f) ==> r == errs
    ensures (forall i :: 0 <= i < |errs| ==> errs[i].field != f) ==> r == []
  {
    if errs == [] then []
    else
      var front := errs[..|errs| - 1];
      assert errs == front + [Last(errs)];
      ErrorsFor(front, f) + (if Last(errs).field == f then [Last(errs)] else [])
  }

  lemma {:induction false} ErrorsForAppend(a: seq<ValidationError>, b: seq<ValidationError>, f: string)
    ensures ErrorsFor(a + b, f) == ErrorsFor(a, f) + ErrorsFor(b, f)
    decreases |b|
  {
    if b == [] {
      assert a + b == a;
    } else {
      var front := b[..|b| - 1];
      assert (a + b)[..|a + b| - 1] == a + front;
      assert Last(a + b) == Last(b);
      ErrorsForAppend(a, front, f);
      var tail := if Last(b).field == f then [Last(b)] else [];
      AppendAssoc(ErrorsFor(a, f), ErrorsFor(front, f), tail);
    }
  }

  /** The first pass reports a required name at most once, and only if its value is absent or falsy. */
  lemma {:induction false} ErrorsForRequired(required: seq<string>, data: Value, name: string)
    requires NoDuplicates(required)
    ensures ErrorsFor(RequiredErrors(required, data), name)
         == if name in required && !Present(Get(data, name)) then [MissingError(name)] else []
    decreases |required|
  {
    if required != [] {
      var front := required[..|required| - 1];
      assert required == front + [Last(required)];
      assert NoDuplicates(front);
      ErrorsForRequired(front, data, name);
      var tail := if Present(Get(data, Last(required))) then [] else [MissingError(Last(required))];
      ErrorsForAppend(RequiredErrors(front, data), tail, name);
      if Last(required) == name {
        assert name !in front;
      }
    }
  }

  /** A required key is skipped by the second pass: nothing there is reported against it. */
  lemma {:induction false} ErrorsForSkippedKey(schema: RecordSchema, entries: seq<(string, Value)>, name: string)
    requires name in schema.requiredFields
    ensures ErrorsFor(FieldErrors(schema, entries), name) == []
    decreases |entries|
  {
    if entries != [] {
      var front := entries[..|entries| - 1];
      ErrorsForSkippedKey(schema, front, name);
      var e := Last(entries);
      ErrorsForAppend(FieldErrors(schema, front), EntryErrors(schema, e.0, e.1), name);
    }
  }

  /** Entries whose keys all differ from `key` report nothing against it. */
  lemma {:induction false} ErrorsForOtherKeys(schema: RecordSchema, entries: seq<(string, Value)>, key: string)
    requires forall i :: 0 <= i < |entries| ==> entries[i].0 != key
    ensures ErrorsFor(FieldErrors(schema, entries), key) == []
    decreases |entries|
  {
    if entries != [] {
      var front := entries[..|entries| - 1];
      ErrorsForOtherKeys(schema, front, key);
      var e := Last(entries);
      ErrorsForAppend(FieldErrors(schema, front), EntryErrors(schema, e.0, e.1), key);
    }
  }

  /** With distinct keys, what the second pass reports against an entry's key is that entry's errors. */
  lemma {:induction false} ErrorsForEntry(schema: RecordSchema, entries: seq<(string, Value)>, j: nat)
    requires DistinctKeys(entries) && j < |entries|
    ensures ErrorsFor(FieldErrors(schema, entries), entries[j].0) == EntryErrors(schema, entries[j].0, entries[j].1)
    decreases |entries|
  {
    var front := entries[..|entries| - 1];
    var e := Last(entries);
    var key := entries[j].0;
    ErrorsForAppend(FieldErrors(schema, front), EntryErrors(schema, e.0, e.1), key);
    if j == |entries| - 1 {
      ErrorsForOtherKeys(schema, front, key);
    } else {
      assert DistinctKeys(front);
      ErrorsForEntry(schema, front, j);
      assert e.0 != key;
    }
  }

  // ---------------------------------------------------------------------------
  // What one call of the validator reports

  /**
   * A required name gets exactly one error, `Missing required field: name` with severity
   * error, when its value is absent or falsy, and no error at all otherwise: the second
   * pass never reports a required key, whatever its value's type.
   */
  lemma RequiredFieldReported(schema: RecordSchema, data: Value, name: string)
    requires NoDuplicates(schema.requiredFields) && name in schema.requiredFields
    ensures ErrorsFor(Validation(schema, data).errors, name)
         == if Present(Get(data, name)) then [] else [ValidationError("Missing required field: " + name, name, Error)]
  {
    var missing, checked := RequiredErrors(schema.requiredFields, data), FieldErrors(schema, Entries(data));
    assert Validation(schema, data).errors == missing + checked;
    ErrorsForAppend(missing, checked, name);
    ErrorsForRequired(schema.requiredFields, data, name);
    ErrorsForSkippedKey(schema, Entries(data), name);
  }

  /** What is reported against a record key that is not required is exactly that entry's own verdict. */
  lemma EntryReported(schema: RecordSchema, data: Value, j: nat)
    requires NoDuplicates(schema.requiredFields) && DistinctKeys(Entries(data))
    requires j < |Entries(data)| && Entries(data)[j].0 !in schema.requiredFields
    ensures ErrorsFor(Validation(schema, data).errors, Entries(data)[j].0)
         == EntryErrors(schema, Entries(data)[j].0, Entries(data)[j].1)
  {
    var key := Entries(data)[j].0;
    var missing, checked := RequiredErrors(schema.requiredFields, data), FieldErrors(schema, Entries(data));
    assert Validation(schema, data).errors == missing + checked;
    ErrorsForAppend(missing, checked, key);
    ErrorsForRequired(schema.requiredFields, data, key);
    assert key !in schema.requiredFields;
    ErrorsForEntry(schema, Entries(data), j);
  }

  /** The first optional name equal to `key` ignoring case is the one the search returns. */
  lemma FirstCaseMatchFound(fields: seq<(string, FieldDefinition)>, key: string, i: int)
    requires IsFirstCaseMatch(fields, key, i)
    ensures FindCaseMatch(fields, key) == Some(fields[i].0)
  {
    var r := FindCaseMatch(fields, key);
    var k :| IsFirstCaseMatch(fields, key, k) && fields[k].0 == r.value;
    assert !(k < i) && !(i < k);
  }

  /**
   * Wrong case: a key that is not an exact optional name but equals one ignoring case gets
   * one error naming the first such optional name.
   */
  lemma WrongCaseReported(schema: RecordSchema, key: string, value: Value, i: int)
    requires key !in schema.requiredFields
    requires forall k :: 0 <= k < |schema.optionalFields| ==> schema.optionalFields[k].0 != key
    requires IsFirstCaseMatch(schema.optionalFields, key, i)
    ensures EntryErrors(schema, key, value)
         == [ValidationError("Field '" + key + "' uses incorrect case. Use '" + schema.optionalFields[i].0 + "' instead.", key, Error)]
  {
    FirstCaseMatchFound(schema.optionalFields, key, i);
  }

  /** Unknown key: no optional name equals it even ignoring case, so it gets one error and nothing else. */
  lemma UnknownFieldReported(schema: RecordSchema, key: string, value: Value)
    requires key !in schema.requiredFields
    requires forall k :: 0 <= k < |schema.optionalFields| ==> !EqualsIgnoreCase(schema.optionalFields[k].0, key)
    ensures EntryErrors(schema, key, value)
         == [ValidationError("Unrecognized field: '" + key + "'. This field is not defined in the schema.", key, Error)]
  {
    assert Lookup(schema.optionalFields, key).None?;
  }

  /** A recognised key without a custom predicate, holding a value of the wrong type, gets the type warning alone. */
  lemma TypeWarningAlone(schema: RecordSchema, key: string, value: Value, t: FieldType)
    requires key !in schema.requiredFields && Lookup(schema.optionalFields, key) == Some(FieldDefinition(t, None))
    requires !IsValidType(value, t)
    ensures EntryErrors(schema, key, value) == [TypeWarning(key, t, value)]
  {
  }

  /** The two warnings a recognised key can get are different errors. */
  lemma WarningsDiffer(key: string, t: FieldType, v: Value)
    ensures TypeWarning(key, t, v) != CustomWarning(key)
  {
    var k := |"Field '" + key + "' "|;
    assert TypeMessage(key, t, v)[k] == 'h';
    assert CustomMessage(key)[k] == 'f';
  }

  /**
   * Recognised key: a type mismatch gives the type warning and a failing custom predicate
   * gives the custom warning, independently, type warning first; nothing else is reported.
   */
  lemma RecognisedFieldReported(schema: RecordSchema, key: string, value: Value, def: FieldDefinition)
    requires key !in schema.requiredFields && Lookup(schema.optionalFields, key) == Some(def)
    ensures var r := EntryErrors(schema, key, value);
      && (TypeWarning(key, def.fieldType, value) in r <==> !IsValidType(value, def.fieldType))
      && (CustomWarning(key) in r <==> FailsCustom(def, value))
      && (forall e :: e in r ==> e == TypeWarning(key, def.fieldType, value) || e == CustomWarning(key))
      && (|r| == 2 ==> r[0] == TypeWarning(key, def.fieldType, value))
  {
    WarningsDiffer(key, def.fieldType, value);
  }

  /** The missing-field errors, for the given names in order. */
  function MissingErrors(names: seq<string>): (r: seq<ValidationError>)
    ensures |r| == |names|
    ensures forall i :: 0 <= i < |names| ==> r[i] == MissingError(names[i])
  {
    seq(|names|, i requires 0 <= i < |names| => MissingError(names[i]))
  }

  /** The required names whose value is absent or falsy, in `requiredFields` order. */
  function AbsentNames(required: seq<string>, data: Value): (r: seq<string>)
    ensures forall n :: n in r <==> n in required && !Present(Get(data, n))
  {
    if required == [] then []
    else
      var front := required[..|required| - 1];
      assert required == front + [Last(required)];
      AbsentNames(front, data) + (if Present(Get(data, Last(required))) then [] else [Last(required)])
  }

  lemma MissingErrorsSnoc(names: seq<string>, name: string)
    ensures MissingErrors(names + [name]) == MissingErrors(names) + [MissingError(name)]
  {
  }

  /** The first pass yields one missing-field error per absent name, in `requiredFields` order. */
  lemma {:induction false} RequiredErrorsAreAbsentNames(required: seq<string>, data: Value)
    ensures RequiredErrors(required, data) == MissingErrors(AbsentNames(required, data))
    decreases |required|
  {
    if required != [] {
      var front := required[..|required| - 1];
      var name := Last(required);
      RequiredErrorsAreAbsentNames(front, data);
      if !Present(Get(data, name)) {
        MissingErrorsSnoc(AbsentNames(front, data), name);
      }
    }
  }

  /**
   * Order: the missing-field errors come first, one per absent or falsy required name in
   * `requiredFields` order, and no later error is a missing-field error.
   */
  lemma MissingErrorsComeFirst(schema: RecordSchema, data: Value)
    ensures var errs := Validation(schema, data).errors;
      var k := |AbsentNames(schema.requiredFields, data)|;
      && k <= |errs|
      && errs[..k] == MissingErrors(AbsentNames(schema.requiredFields, data))
      && forall i :: k <= i < |errs| ==> !StartsWith(errs[i].message, MissingPrefix)
  {
    RequiredErrorsAreAbsentNames(schema.requiredFields, data);
    var m := MissingErrors(AbsentNames(schema.requiredFields, data));
    var fe := FieldErrors(schema, Entries(data));
    var errs := Validation(schema, data).errors;
    assert errs == m + fe;
    assert errs[..|m|] == m;
    forall i | |m| <= i < |errs|
      ensures !StartsWith(errs[i].message, MissingPrefix)
    {
      assert errs[i] == fe[i - |m|];
    }
  }

  // ---------------------------------------------------------------------------
  // When a record is valid

  /** An entry the second pass accepts: a skipped required key, or an exact optional key of the declared type whose custom predicate, if any, holds. */
  predicate EntryAcceptable(schema: RecordSchema, e: (string, Value)) {
    || e.0 in schema.requiredFields
    || (var def := Lookup(schema.optionalFields, e.0);
        def.Some? && IsValidType(e.1, def.value.fieldType) && !FailsCustom(def.value, e.1))
  }

  /** The records the validator accepts, stated without reference to its two passes. */
  predicate Acceptable(schema: RecordSchema, data: Value) {
    && (forall i :: 0 <= i < |schema.requiredFields| ==> Present(Get(data, schema.requiredFields[i])))
    && (forall j :: 0 <= j < |Entries(data)| ==> EntryAcceptable(schema, Entries(data)[j]))
  }

  lemma AllPresentSnoc(front: seq<string>, name: string, data: Value)
    ensures (forall i :: 0 <= i < |front + [name]| ==> Present(Get(data, (front + [name])[i])))
      <==> (forall i :: 0 <= i < |front| ==> Present(Get(data, front[i]))) && Present(Get(data, name))
  {
    var required := front + [name];
    assert forall i :: 0 <= i < |front| ==> front[i] == required[i];
    assert required[|front|] == name;
  }

  lemma {:induction false} RequiredErrorsEmpty(required: seq<string>, data: Value)
    ensures RequiredErrors(required, data) == [] <==> forall i :: 0 <= i < |required| ==> Present(Get(data, required[i]))
    decreases |required|
  {
    if required != [] {
      var front := required[..|required| - 1];
      var name := Last(required);
      RequiredErrorsEmpty(front, data);
      assert required == front + [name];
      AllPresentSnoc(front, name, data);
      var before := RequiredErrors(front, data);
      var tail := if Present(Get(data, name)) then [] else [MissingError(name)];
      assert RequiredErrors(required, data) == before + tail;
      assert |before + tail| == |before| + |tail|;
    }
  }

  lemma EntryErrorsEmpty(schema: RecordSchema, e: (string, Value))
    ensures EntryErrors(schema, e.0, e.1) == [] <==> EntryAcceptable(schema, e)
  {
  }

  /** Every entry is acceptable exactly when every entry but the last is, and the last is. */
  lemma AllAcceptableSnoc(schema: RecordSchema, front: seq<(string, Value)>, e: (string, Value))
    ensures (forall j :: 0 <= j < |front + [e]| ==> EntryAcceptable(schema, (front + [e])[j]))
      <==> (forall j :: 0 <= j < |front| ==> EntryAcceptable(schema, front[j])) && EntryAcceptable(schema, e)
  {
    var entries := front + [e];
    assert forall j :: 0 <= j < |front| ==> front[j] == entries[j];
    assert entries[|front|] == e;
  }

  lemma {:induction false} FieldErrorsEmpty(schema: RecordSchema, entries: seq<(string, Value)>)
    ensures FieldErrors(schema, entries) == [] <==> forall j :: 0 <= j < |entries| ==> EntryAcceptable(schema, entries[j])
    decreases |entries|
  {
    if entries != [] {
      var front := entries[..|entries| - 1];
      var e := Last(entries);
      FieldErrorsEmpty(schema, front);
      EntryErrorsEmpty(schema, e);
      assert entries == front + [e];
      AllAcceptableSnoc(schema, front, e);
      var before, last := FieldErrors(schema, front), EntryErrors(schema, e.0, e.1);
      assert FieldErrors(schema, entries) == before + last;
      assert |before + last| == |before| + |last|;
    }
  }

  /** `valid` holds exactly for the acceptable records, so a warning alone also makes a record invalid. */
  lemma ValidIffAcceptable(schema: RecordSchema, data: Value)
    ensures Validation(schema, data).valid <==> Acceptable(schema, data)
  {
    RequiredErrorsEmpty(schema.requiredFields, data);
    FieldErrorsEmpty(schema, Entries(data));
  }
}
