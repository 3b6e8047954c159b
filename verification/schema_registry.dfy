/**
 * The schema manager (src/schemaManager.ts): a version-to-schema map with a
 * `latest` alias, the current version, and validation through the current schema
 * with every message prefixed by `CrewAI Lint: `.
 */
module SchemaRegistry {
  import opened Wrappers
  import opened Strings
  import opened JsValues
  import opened SchemaTypes
  import opened Versions

  // ---------------------------------------------------------------------------
  // The map: a JavaScript `Map`, keys in insertion order

  type SchemaMap = seq<(string, CrewAISchema)>

  predicate DistinctNames(m: SchemaMap) {
    forall i, j :: 0 <= i < j < |m| ==> m[i].0 != m[j].0
  }

  /** Position of key `k`, or -1. */
  function IndexOfKey(m: SchemaMap, k: string): (r: int)
    ensures -1 <= r < |m|
    ensures r == -1 <==> forall i :: 0 <= i < |m| ==> m[i].0 != k
    ensures r >= 0 ==> m[r].0 == k && forall i :: 0 <= i < r ==> m[i].0 != k
  {
    if m == [] then -1
    else if Last(m).0 == k then
      var r := IndexOfKey(m[..|m| - 1], k);
      if r >= 0 then r else |m| - 1
    else
      IndexOfKey(m[..|m| - 1], k)
  }

  /**
   * `m.get(k)`. This is `JsValues.Lookup` specialised to the schema map, read through
   * `IndexOfKey` because `MapSet` and its proofs work with the entry's position; going
   * through `Lookup` instead makes the proof of `SchemaManager.LoadSchemas` too costly.
   */
  function MapGet(m: SchemaMap, k: string): (r: Option<CrewAISchema>)
    ensures r.None? <==> forall i :: 0 <= i < |m| ==> m[i].0 != k
    ensures r.Some? ==> exists i :: 0 <= i < |m| && m[i] == (k, r.value)
  {
    var i := IndexOfKey(m, k);
    if i < 0 then None else Some(m[i].1)
  }

  /** With distinct keys, the lookup finds the one entry stored under `k`. */
  lemma MapGetAt(m: SchemaMap, k: string, i: nat)
    requires DistinctNames(m) && i < |m| && m[i].0 == k
    ensures MapGet(m, k) == Some(m[i].1)
  {
    var r := IndexOfKey(m, k);
    assert !(i < r);
  }

  /** `m.set(k, v)`: an existing key keeps its position and takes the new value; a new key goes last. */
  function MapSet(m: SchemaMap, k: string, v: CrewAISchema): (r: SchemaMap)
    requires DistinctNames(m)
    ensures DistinctNames(r)
    ensures MapGet(r, k) == Some(v)
    ensures forall k' :: k' != k ==> MapGet(r, k') == MapGet(m, k')
    ensures |r| == if MapGet(m, k).Some? then |m| else |m| + 1
    ensures forall i :: 0 <= i < |m| ==> r[i].0 == m[i].0
  {
    var i := IndexOfKey(m, k);
    var r := if i < 0 then m + [(k, v)] else m[i := (k, v)];
    MapSetFacts(m, k, v, i, r);
    r
  }

  lemma MapSetFacts(m: SchemaMap, k: string, v: CrewAISchema, i: int, r: SchemaMap)
    requires DistinctNames(m) && i == IndexOfKey(m, k)
    requires r == if i < 0 then m + [(k, v)] else m[i := (k, v)]
    ensures DistinctNames(r)
    ensures MapGet(r, k) == Some(v)
    ensures forall k' :: k' != k ==> MapGet(r, k') == MapGet(m, k')
    ensures |r| == if MapGet(m, k).Some? then |m| else |m| + 1
    ensures forall j :: 0 <= j < |m| ==> r[j].0 == m[j].0
  {
    var at := if i < 0 then |m| else i;
    assert r[at] == (k, v);
    MapGetAt(r, k, at);
    forall k' | k' != k ensures MapGet(r, k') == MapGet(m, k') {
      MapSetOther(m, k, v, at, r, k');
    }
  }

  /** Storing `(k, v)` at position `at` leaves every other key's lookup as it was. */
  lemma MapSetOther(m: SchemaMap, k: string, v: CrewAISchema, at: nat, r: SchemaMap, k': string)
    requires DistinctNames(m) && DistinctNames(r) && k' != k
    requires at <= |m| && |r| == (if at == |m| then |m| + 1 else |m|) && r[at] == (k, v)
    requires at < |m| ==> m[at].0 == k
    requires forall j :: 0 <= j < |m| && j != at ==> r[j] == m[j]
    ensures MapGet(r, k') == MapGet(m, k')
  {
    if MapGet(m, k').Some? {
      var j := IndexOfKey(m, k');
      MapGetAt(m, k', j);
      assert r[j] == m[j];
      MapGetAt(r, k', j);
    } else {
      assert forall j :: 0 <= j < |r| ==> r[j].0 != k' by {
        forall j | 0 <= j < |r| ensures r[j].0 != k' {
          if j != at {
            assert r[j] == m[j];
          }
        }
      }
    }
  }

  /** `Array.from(m.values())`. */
  function MapValues(m: SchemaMap): (r: seq<CrewAISchema>)
    ensures |r| == |m| && forall i :: 0 <= i < |m| ==> r[i] == m[i].1
  {
    seq(|m|, i requires 0 <= i < |m| => m[i].1)
  }

  // ---------------------------------------------------------------------------
  // The `latest` alias

  /**
   * The schema a stable ascending sort by version leaves last: a maximum, and the last
   * maximum in insertion order.
   */
  function LatestIndex(schemas: seq<CrewAISchema>): (k: nat)
    requires |schemas| > 0
    ensures k < |schemas|
    ensures forall i :: 0 <= i < |schemas| ==> Compare(schemas[i].version, schemas[k].version) <= 0
    ensures forall i :: k < i < |schemas| ==> Compare(schemas[i].version, schemas[k].version) < 0
  {
    if |schemas| == 1 then
      CompareReflexive(schemas[0].version);
      0
    else
      var front := schemas[..|schemas| - 1];
      var k := LatestIndex(front);
      if Compare(Last(schemas).version, schemas[k].version) >= 0 then
        NewMaximum(schemas, front, k);
        |schemas| - 1
      else
        OldMaximum(schemas, front, k);
        k
  }

  /** A last version at least the latest of the others is itself the latest. */
  lemma NewMaximum(schemas: seq<CrewAISchema>, front: seq<CrewAISchema>, k: nat)
    requires |schemas| > 1 && front == schemas[..|schemas| - 1] && k < |front|
    requires forall i :: 0 <= i < |front| ==> Compare(front[i].version, front[k].version) <= 0
    requires Compare(Last(schemas).version, schemas[k].version) >= 0
    ensures forall i :: 0 <= i < |schemas| ==> Compare(schemas[i].version, Last(schemas).version) <= 0
  {
    var last := Last(schemas).version;
    CompareAntisymmetric(last, schemas[k].version);
    forall i | 0 <= i < |front|
      ensures Compare(schemas[i].version, last) <= 0
    {
      assert front[i] == schemas[i];
      CompareTransitive(schemas[i].version, schemas[k].version, last);
    }
    CompareReflexive(last);
  }

  /** A last version below the latest of the others leaves that one the latest. */
  lemma OldMaximum(schemas: seq<CrewAISchema>, front: seq<CrewAISchema>, k: nat)
    requires |schemas| > 1 && front == schemas[..|schemas| - 1] && k < |front|
    requires forall i :: 0 <= i < |front| ==> Compare(front[i].version, front[k].version) <= 0
    requires forall i :: k < i < |front| ==> Compare(front[i].version, front[k].version) < 0
    requires Compare(Last(schemas).version, schemas[k].version) < 0
    ensures forall i :: 0 <= i < |schemas| ==> Compare(schemas[i].version, schemas[k].version) <= 0
    ensures forall i :: k < i < |schemas| ==> Compare(schemas[i].version, schemas[k].version) < 0
  {
    assert forall i :: 0 <= i < |front| ==> front[i] == schemas[i];
  }

  /** `registerSchema` over a list, in order. */
  function RegisterAll(m: SchemaMap, found: seq<CrewAISchema>): (r: SchemaMap)
    requires DistinctNames(m)
    ensures DistinctNames(r)
  {
    if found == [] then m
    else MapSet(RegisterAll(m, found[..|found| - 1]), Last(found).version, Last(found))
  }

  /** After registration, `latest` names the value a stable sort leaves last (if there is any value). */
  function WithLatest(m: SchemaMap): (r: SchemaMap)
    requires DistinctNames(m)
    ensures DistinctNames(r)
  {
    var values := MapValues(m);
    if |values| == 0 then m else MapSet(m, "latest", values[LatestIndex(values)])
  }

  // ---------------------------------------------------------------------------
  // Reads of the manager's state

  /** `getCurrentSchema`: the current version's entry, else `latest`, else the last value. */
  function CurrentOf(m: SchemaMap, currentVersion: string): (r: Option<CrewAISchema>)
    ensures r.None? <==> m == []
    ensures r.Some? ==> r.value in MapValues(m)
    ensures MapGet(m, currentVersion).Some? ==> r == MapGet(m, currentVersion)
    ensures MapGet(m, currentVersion).None? ==> MapGet(m, "latest").Some? ==> r == MapGet(m, "latest")
    ensures MapGet(m, currentVersion).None? && MapGet(m, "latest").None? && m != [] ==> r == Some(Last(MapValues(m)))
  {
    var byVersion := MapGet(m, currentVersion);
    if byVersion.Some? then byVersion
    else
      var latest := MapGet(m, "latest");
      if latest.Some? then latest
      else if m == [] then None
      else Some(Last(MapValues(m)))
  }

  const LintPrefix := "CrewAI Lint: "

  function PrefixMessage(message: string): (r: string)
    ensures StartsWith(r, LintPrefix) && EndsWith(r, message)
    ensures StartsWith(message, LintPrefix) ==> r == message
  {
    if StartsWith(message, LintPrefix) then message else LintPrefix + message
  }

  /** `prefixValidationMessages`: only the messages change; each keeps its text as a suffix. */
  function PrefixMessages(result: ValidationResult): (r: ValidationResult)
    ensures r.valid == result.valid && |r.errors| == |result.errors|
    ensures forall i :: 0 <= i < |r.errors| ==>
      && r.errors[i].field == result.errors[i].field
      && r.errors[i].severity == result.errors[i].severity
      && StartsWith(r.errors[i].message, LintPrefix)
      && EndsWith(r.errors[i].message, result.errors[i].message)
  {
    var errs := result.errors;
    result.(errors := seq(|errs|, i requires 0 <= i < |errs| => errs[i].(message := PrefixMessage(errs[i].message))))
  }

  /** What validation returns when no schema is registered at all. */
  const NoSchemaResult := ValidationResult(false, [ValidationError(
    LintPrefix + "No schema found. If first install of extension, try closing/re-opening file.", "", Info)])

  function ValidateAgentWith(current: Option<CrewAISchema>, data: Value): (r: ValidationResult)
    ensures current.None? ==> r == NoSchemaResult
    ensures current.Some? ==> r == PrefixMessages(current.value.validateAgent(data))
  {
    if current.None? then NoSchemaResult else PrefixMessages(current.value.validateAgent(data))
  }

  function ValidateTaskWith(current: Option<CrewAISchema>, data: Value): (r: ValidationResult)
    ensures current.None? ==> r == NoSchemaResult
    ensures current.Some? ==> r == PrefixMessages(current.value.validateTask(data))
  {
    if current.None? then NoSchemaResult else PrefixMessages(current.value.validateTask(data))
  }

  /** `getAvailableVersions`: the keys in insertion order, without the `latest` alias. */
  function AvailableOf(m: SchemaMap): (r: seq<string>)
    ensures forall v :: v in r <==> v in Keys(m) && v != "latest"
    ensures |r| <= |m|
  {
    if m == [] then []
    else
      var front := m[..|m| - 1];
      assert Keys(m) == Keys(front) + [Last(m).0];
      AvailableOf(front) + (if Last(m).0 == "latest" then [] else [Last(m).0])
  }

  // ---------------------------------------------------------------------------
  // The manager object

  class SchemaManager {
    var schemas: SchemaMap
    var currentVersion: string

    ghost predicate Valid()
      reads this
    {
      DistinctNames(schemas)
    }

    /** The state before the schema directory is read: no schemas, version `latest`. */
    constructor()
      ensures Valid() && schemas == [] && currentVersion == "latest"
    {
      schemas := [];
      currentVersion := "latest";
    }

    /** `registerSchema`: store under the schema's own version, overwriting that entry only. */
    method RegisterSchema(schema: CrewAISchema)
      requires Valid()
      modifies this
      ensures Valid()
      ensures schemas == MapSet(old(schemas), schema.version, schema)
      ensures currentVersion == old(currentVersion)
    {
      schemas := MapSet(schemas, schema.version, schema);
    }

    /**
     * The effect of `loadSchemas` for the schemas the directory scan found, in scan
     * order: register each, then bind `latest` to the newest.
     */
    method LoadSchemas(found: seq<CrewAISchema>)
      requires Valid()
      modifies this
      ensures Valid()
      ensures schemas == WithLatest(RegisterAll(old(schemas), found))
      ensures currentVersion == old(currentVersion)
    {
      var i := 0;
      while i < |found|
        invariant 0 <= i <= |found|
        invariant Valid()
        invariant schemas == RegisterAll(old(schemas), found[..i])
        invariant currentVersion == old(currentVersion)
      {
        assert found[..i + 1][..i] == found[..i] && Last(found[..i + 1]) == found[i];
        assert RegisterAll(old(schemas), found[..i + 1])
            == MapSet(RegisterAll(old(schemas), found[..i]), found[i].version, found[i]);
        RegisterSchema(found[i]);
        i := i + 1;
      }
      assert found[..i] == found;
      var values := MapValues(schemas);
      if |values| > 0 {
        schemas := MapSet(schemas, "latest", values[LatestIndex(values)]);
      }
    }

    /** `setCurrentVersion`: any text is accepted as is. */
    method SetCurrentVersion(version: string)
      modifies this
      ensures currentVersion == version && schemas == old(schemas)
    {
      currentVersion := version;
    }

    function CurrentSchema(): (r: Option<CrewAISchema>)
      reads this
      ensures r == CurrentOf(schemas, currentVersion)
    {
      CurrentOf(schemas, currentVersion)
    }

    function ValidateAgent(data: Value): (r: ValidationResult)
      reads this
      ensures r == ValidateAgentWith(CurrentOf(schemas, currentVersion), data)
    {
      ValidateAgentWith(CurrentSchema(), data)
    }

    function ValidateTask(data: Value): (r: ValidationResult)
      reads this
      ensures r == ValidateTaskWith(CurrentOf(schemas, currentVersion), data)
    {
      ValidateTaskWith(CurrentSchema(), data)
    }

    function AvailableVersions(): (r: seq<string>)
      reads this
      ensures r == AvailableOf(schemas)
    {
      AvailableOf(schemas)
    }
  }

  // ---------------------------------------------------------------------------
  // Properties of the registry

  /** Registering a version and selecting it makes that schema current. */
  lemma RegisteredVersionIsCurrent(m: SchemaMap, schema: CrewAISchema)
    requires DistinctNames(m)
    ensures CurrentOf(MapSet(m, schema.version, schema), schema.version) == Some(schema)
  {
  }

  /** A current version with no entry falls back to `latest` when that alias exists. */
  lemma UnknownVersionFallsBackToLatest(m: SchemaMap, currentVersion: string)
    requires MapGet(m, currentVersion).None? && MapGet(m, "latest").Some?
    ensures CurrentOf(m, currentVersion) == MapGet(m, "latest")
  {
  }

  /** After loading at least one schema, `latest` is bound to a newest loaded-or-present schema. */
  lemma {:induction false} LatestIsNewest(m: SchemaMap)
    requires DistinctNames(m) && m != []
    ensures MapGet(WithLatest(m), "latest").Some?
    ensures var latest := MapGet(WithLatest(m), "latest").value;
      latest in MapValues(m) &&
      forall i :: 0 <= i < |m| ==> Compare(m[i].1.version, latest.version) <= 0
  {
    var values := MapValues(m);
    var k := LatestIndex(values);
    assert MapGet(WithLatest(m), "latest") == Some(values[k]);
  }

  /** Prefixing twice is prefixing once. */
  lemma PrefixIdempotent(result: ValidationResult)
    ensures PrefixMessages(PrefixMessages(result)) == PrefixMessages(result)
  {
    var once := PrefixMessages(result);
    var twice := PrefixMessages(once);
    assert |twice.errors| == |once.errors|;
    forall i | 0 <= i < |once.errors| ensures twice.errors[i] == once.errors[i] {
      assert twice.errors[i].message == PrefixMessage(once.errors[i].message);
    }
  }

  /** Prefixing keeps the verdict tied to the error list. */
  lemma PrefixKeepsVerdict(result: ValidationResult)
    requires result.valid <==> result.errors == []
    ensures PrefixMessages(result).valid <==> PrefixMessages(result).errors == []
  {
  }

  /** With no schema, validation fails with exactly one information finding and no field. */
  lemma NoSchemaReported(m: SchemaMap, currentVersion: string, data: Value)
    requires m == []
    ensures var r := ValidateAgentWith(CurrentOf(m, currentVersion), data);
      !r.valid && |r.errors| == 1 && r.errors[0].field == "" && r.errors[0].severity == Info
      && StartsWith(r.errors[0].message, LintPrefix)
  {
  }
}
