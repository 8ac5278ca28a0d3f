/**
 * The two task schemas, `create` and `update`, as declarative constants, the JSON Schema
 * keywords they use (type, minLength, maxLength, pattern, properties, additionalProperties,
 * required, anyOf), and for each schema a field-by-field predicate proved equivalent to it.
 */
module TaskSchemas {
  import opened Results
  import opened JsValues
  import opened Strings

  /** The `pattern` keyword, as the task schemas use it: literal alternatives `a|b|c`, not anchored. */
  datatype Pattern = Alternatives(literals: seq<string>)

  /** The sub-schema of one property. */
  datatype Rule =
    | StringRule(minLength: Option<nat>, maxLength: Option<nat>, pattern: Option<Pattern>)
    | NumberRule

  /**
   * An object schema with `type: 'object'` and `additionalProperties: false`;
   * `anyOf` holds the `required` list of each branch.
   */
  datatype ObjectSchema = ObjectSchema(properties: map<string, Rule>, anyOf: seq<set<string>>)

  const CreateSchema: ObjectSchema := ObjectSchema(
    map[
      "title" := StringRule(Some(1), Some(100), None),
      "description" := StringRule(Some(1), Some(500), None),
      "createdAt" := NumberRule,
      "lastModifiedAt" := NumberRule,
      "status" := StringRule(None, None, Some(Alternatives(["to_do"]))),
      "username" := StringRule(Some(3), Some(100), None)
    ],
    [
      {"title", "createdAt", "lastModifiedAt", "status", "username"},
      {"description", "createdAt", "lastModifiedAt", "status", "username"}
    ])

  const UpdateSchema: ObjectSchema := ObjectSchema(
    map[
      "title" := StringRule(Some(1), Some(100), None),
      "description" := StringRule(Some(1), Some(500), None),
      "status" := StringRule(None, None, Some(Alternatives(["to_do", "in_progress", "done"]))),
      "lastModifiedAt" := NumberRule
    ],
    [
      {"title", "lastModifiedAt"},
      {"description", "lastModifiedAt"},
      {"status", "lastModifiedAt"}
    ])

  /** The pattern as written in the schema: the alternatives joined by `|`. */
  function PatternSource(p: Pattern): string
  {
    Join(p.literals)
  }

  function Join(literals: seq<string>): string
  {
    if |literals| == 0 then ""
    else if |literals| == 1 then literals[0]
    else literals[0] + "|" + Join(literals[1..])
  }

  /** An unanchored alternation matches when any one alternative occurs somewhere in `s`. */
  predicate PatternMatches(p: Pattern, s: string)
  {
    exists j :: 0 <= j < |p.literals| && Contains(s, p.literals[j])
  }

  // ---------------------------------------------------------------------------------------
  // Errors a validator reports

  /** The keyword that failed, with what its default message mentions. */
  datatype Keyword =
    | TypeMismatch(expected: string)
    | TooShort(limit: nat)
    | TooLong(limit: nat)
    | NoMatch(pattern: string)
    | Additional(property: string)
    | Missing(property: string)
    | NoBranch

  /** One reported error: where in the data it is (`""` for the object itself, `/name` for a property). */
  datatype SchemaError = SchemaError(instancePath: string, keyword: Keyword)

  /** The validator's default English message for a failed keyword. */
  function KeywordMessage(k: Keyword): string
  {
    match k
    case TypeMismatch(t) => "must be " + t
    case TooShort(n) => "must NOT have fewer than " + NatToString(n) + " characters"
    case TooLong(n) => "must NOT have more than " + NatToString(n) + " characters"
    case NoMatch(p) => "must match pattern \"" + p + "\""
    case Additional(_) => "must NOT have additional properties"
    case Missing(p) => "must have required property '" + p + "'"
    case NoBranch => "must match a schema in anyOf"
  }

  /** The errors one property's value draws; a value of the wrong type draws only the type error. */
  function RuleViolations(path: string, rule: Rule, v: Value): set<SchemaError>
  {
    match rule
    case NumberRule =>
      if v.Num? then {} else {SchemaError(path, TypeMismatch("number"))}
    case StringRule(minLength, maxLength, pattern) =>
      if !v.Str? then {SchemaError(path, TypeMismatch("string"))}
      else
        (if minLength.Some? && |v.s| < minLength.value then {SchemaError(path, TooShort(minLength.value))} else {})
        + (if maxLength.Some? && |v.s| > maxLength.value then {SchemaError(path, TooLong(maxLength.value))} else {})
        + (if pattern.Some? && !PatternMatches(pattern.value, v.s)
           then {SchemaError(path, NoMatch(PatternSource(pattern.value)))} else {})
  }

  /** `properties`: every declared property that is present is checked against its sub-schema. */
  function PropertyViolations(schema: ObjectSchema, r: Record): set<SchemaError>
  {
    set k, e | k in schema.properties && Present(r, k) && e in RuleViolations("/" + k, schema.properties[k], r[k]) :: e
  }

  /** `additionalProperties: false`: one error per undeclared key. */
  function AdditionalViolations(schema: ObjectSchema, r: Record): set<SchemaError>
  {
    set k | k in r && k !in schema.properties :: SchemaError("", Additional(k))
  }

  /** Branch `i` of `anyOf` holds when every property it requires is present. */
  predicate BranchHolds(anyOf: seq<set<string>>, i: nat, r: Record)
    requires i < |anyOf|
  {
    forall p :: p in anyOf[i] ==> Present(r, p)
  }

  predicate AnyOfHolds(anyOf: seq<set<string>>, r: Record)
  {
    exists i: nat :: i < |anyOf| && BranchHolds(anyOf, i, r)
  }

  /** `anyOf`: when no branch holds, every branch's missing properties and the `anyOf` error itself. */
  function AnyOfViolations(schema: ObjectSchema, r: Record): set<SchemaError>
  {
    if AnyOfHolds(schema.anyOf, r) then {}
    else
      (set i, p | 0 <= i < |schema.anyOf| && p in schema.anyOf[i] && !Present(r, p) :: SchemaError("", Missing(p)))
      + {SchemaError("", NoBranch)}
  }

  /** Every error a validator run with `allErrors` reports for `v`; their order is not modelled. */
  function Violations(schema: ObjectSchema, v: Value): set<SchemaError>
  {
    if !v.Obj? then {SchemaError("", TypeMismatch("object"))}
    else PropertyViolations(schema, v.fields) + AdditionalViolations(schema, v.fields) + AnyOfViolations(schema, v.fields)
  }

  /** What the compiled schema function returns. */
  predicate Accepts(schema: ObjectSchema, v: Value)
  {
    Violations(schema, v) == {}
  }

  // ---------------------------------------------------------------------------------------
  // Keyword semantics

  /** A value satisfies a property's sub-schema. */
  predicate RuleHolds(rule: Rule, v: Value)
  {
    match rule
    case NumberRule => v.Num?
    case StringRule(minLength, maxLength, pattern) =>
      && v.Str?
      && (minLength.Some? ==> minLength.value <= |v.s|)
      && (maxLength.Some? ==> |v.s| <= maxLength.value)
      && (pattern.Some? ==> PatternMatches(pattern.value, v.s))
  }

  /** An object satisfies every keyword of the schema. */
  predicate Conforms(schema: ObjectSchema, r: Record)
  {
    && (forall k :: k in r ==> k in schema.properties)
    && (forall k :: k in schema.properties && Present(r, k) ==> RuleHolds(schema.properties[k], r[k]))
    && AnyOfHolds(schema.anyOf, r)
  }

  /** A property draws no error exactly when its value satisfies the sub-schema. */
  lemma RuleViolationsEmpty(path: string, rule: Rule, v: Value)
    ensures RuleViolations(path, rule, v) == {} <==> RuleHolds(rule, v)
  {
  }

  /** The validator reports nothing exactly when the data is an object satisfying every keyword. */
  lemma ViolationsEmpty(schema: ObjectSchema, v: Value)
    ensures Accepts(schema, v) <==> v.Obj? && Conforms(schema, v.fields)
  {
    if v.Obj? {
      var r := v.fields;
      if Conforms(schema, r) {
        forall k | k in schema.properties && Present(r, k)
          ensures RuleViolations("/" + k, schema.properties[k], r[k]) == {}
        {
          RuleViolationsEmpty("/" + k, schema.properties[k], r[k]);
        }
        assert PropertyViolations(schema, r) == {};
        assert AdditionalViolations(schema, r) == {};
      } else if k :| k in r && k !in schema.properties {
        assert SchemaError("", Additional(k)) in AdditionalViolations(schema, r);
      } else if k :| k in schema.properties && Present(r, k) && !RuleHolds(schema.properties[k], r[k]) {
        RuleViolationsEmpty("/" + k, schema.properties[k], r[k]);
        var e :| e in RuleViolations("/" + k, schema.properties[k], r[k]);
        assert e in PropertyViolations(schema, r);
      } else {
        assert SchemaError("", NoBranch) in AnyOfViolations(schema, r);
      }
    }
  }

  // ---------------------------------------------------------------------------------------
  // The two schemas, field by field

  const CreateFields: set<string> := {"title", "description", "createdAt", "lastModifiedAt", "status", "username"}
  const UpdateFields: set<string> := {"title", "description", "status", "lastModifiedAt"}

  predicate StringOfLength(v: Value, min: nat, max: nat)
  {
    v.Str? && min <= |v.s| <= max
  }

  /** A record the `create` schema admits. */
  predicate ValidCreate(r: Record)
  {
    && r.Keys <= CreateFields
    && Present(r, "createdAt") && r["createdAt"].Num?
    && Present(r, "lastModifiedAt") && r["lastModifiedAt"].Num?
    && Present(r, "status") && r["status"].Str? && Contains(r["status"].s, "to_do")
    && Present(r, "username") && StringOfLength(r["username"], 3, 100)
    && (Present(r, "title") || Present(r, "description"))
    && (Present(r, "title") ==> StringOfLength(r["title"], 1, 100))
    && (Present(r, "description") ==> StringOfLength(r["description"], 1, 500))
  }

  /** The statuses the `update` schema's pattern lets through: any string containing one of the three words. */
  predicate UpdateStatusMatches(s: string)
  {
    Contains(s, "to_do") || Contains(s, "in_progress") || Contains(s, "done")
  }

  /** A record the `update` schema admits. */
  predicate ValidUpdate(r: Record)
  {
    && r.Keys <= UpdateFields
    && Present(r, "lastModifiedAt") && r["lastModifiedAt"].Num?
    && (Present(r, "title") || Present(r, "description") || Present(r, "status"))
    && (Present(r, "title") ==> StringOfLength(r["title"], 1, 100))
    && (Present(r, "description") ==> StringOfLength(r["description"], 1, 500))
    && (Present(r, "status") ==> r["status"].Str? && UpdateStatusMatches(r["status"].s))
  }

  /** The `create` schema accepts exactly the objects that satisfy `ValidCreate`. */
  lemma CreateSchemaMeaning(v: Value)
    ensures Accepts(CreateSchema, v) <==> v.Obj? && ValidCreate(v.fields)
  {
    ViolationsEmpty(CreateSchema, v);
    if v.Obj? {
      if Conforms(CreateSchema, v.fields) {
        CreateConformsIsValid(v.fields);
      }
      if ValidCreate(v.fields) {
        CreateValidConforms(v.fields);
      }
    }
  }

  lemma CreateConformsIsValid(r: Record)
    requires Conforms(CreateSchema, r)
    ensures ValidCreate(r)
  {
    var props := CreateSchema.properties;
    assert props.Keys == CreateFields;
    var branches := CreateSchema.anyOf;
    var i: nat :| i < |branches| && BranchHolds(branches, i, r);
    assert "createdAt" in branches[i] && "lastModifiedAt" in branches[i];
    assert "status" in branches[i] && "username" in branches[i];
    assert Present(r, "title") || Present(r, "description") by {
      if i == 0 { assert "title" in branches[0]; } else { assert "description" in branches[1]; }
    }
    assert RuleHolds(props["status"], r["status"]);
    assert Contains(r["status"].s, "to_do") by {
      assert PatternMatches(Alternatives(["to_do"]), r["status"].s);
    }
    assert RuleHolds(props["username"], r["username"]);
    assert RuleHolds(props["createdAt"], r["createdAt"]);
    assert RuleHolds(props["lastModifiedAt"], r["lastModifiedAt"]);
    assert Present(r, "title") ==> RuleHolds(props["title"], r["title"]);
    assert Present(r, "description") ==> RuleHolds(props["description"], r["description"]);
  }

  lemma CreateValidConforms(r: Record)
    requires ValidCreate(r)
    ensures Conforms(CreateSchema, r)
  {
    var props := CreateSchema.properties;
    assert props.Keys == CreateFields;
    var branches := CreateSchema.anyOf;
    forall k | k in props && Present(r, k) ensures RuleHolds(props[k], r[k]) {
      if k == "status" {
        assert Contains(r[k].s, ["to_do"][0]);
      }
    }
    if Present(r, "title") {
      assert BranchHolds(branches, 0, r);
    } else {
      assert BranchHolds(branches, 1, r);
    }
  }

  /** The `update` schema accepts exactly the objects that satisfy `ValidUpdate`. */
  lemma UpdateSchemaMeaning(v: Value)
    ensures Accepts(UpdateSchema, v) <==> v.Obj? && ValidUpdate(v.fields)
  {
    ViolationsEmpty(UpdateSchema, v);
    if v.Obj? {
      if Conforms(UpdateSchema, v.fields) {
        UpdateConformsIsValid(v.fields);
      }
      if ValidUpdate(v.fields) {
        UpdateValidConforms(v.fields);
      }
    }
  }

  lemma UpdateConformsIsValid(r: Record)
    requires Conforms(UpdateSchema, r)
    ensures ValidUpdate(r)
  {
    var props := UpdateSchema.properties;
    assert props.Keys == UpdateFields;
    var branches := UpdateSchema.anyOf;
    var alternatives := ["to_do", "in_progress", "done"];
    var i: nat :| i < |branches| && BranchHolds(branches, i, r);
    assert "lastModifiedAt" in branches[i];
    assert Present(r, "title") || Present(r, "description") || Present(r, "status") by {
      if i == 0 { assert "title" in branches[0]; }
      else if i == 1 { assert "description" in branches[1]; }
      else { assert "status" in branches[2]; }
    }
    assert RuleHolds(props["lastModifiedAt"], r["lastModifiedAt"]);
    assert Present(r, "title") ==> RuleHolds(props["title"], r["title"]);
    assert Present(r, "description") ==> RuleHolds(props["description"], r["description"]);
    if Present(r, "status") {
      assert RuleHolds(props["status"], r["status"]);
      var j :| 0 <= j < |alternatives| && Contains(r["status"].s, alternatives[j]);
      assert j == 0 || j == 1 || j == 2;
    }
  }

  lemma UpdateValidConforms(r: Record)
    requires ValidUpdate(r)
    ensures Conforms(UpdateSchema, r)
  {
    var props := UpdateSchema.properties;
    assert props.Keys == UpdateFields;
    var branches := UpdateSchema.anyOf;
    var alternatives := ["to_do", "in_progress", "done"];
    forall k | k in props && Present(r, k) ensures RuleHolds(props[k], r[k]) {
      if k == "status" {
        var s := r[k].s;
        if Contains(s, "to_do") { assert Contains(s, alternatives[0]); }
        else if Contains(s, "in_progress") { assert Contains(s, alternatives[1]); }
        else { assert Contains(s, alternatives[2]); }
      }
    }
    if Present(r, "title") {
      assert BranchHolds(branches, 0, r);
    } else if Present(r, "description") {
      assert BranchHolds(branches, 1, r);
    } else {
      assert BranchHolds(branches, 2, r);
    }
  }

  // ---------------------------------------------------------------------------------------
  // What each schema promises

  /** `create` turns away any key outside its six properties. */
  lemma CreateRejectsUnknownKey(r: Record, k: string)
    requires k in r && k !in CreateFields
    ensures !Accepts(CreateSchema, Obj(r))
  {
    CreateSchemaMeaning(Obj(r));
  }

  /**
   * `create` needs both timestamps, the status and the owner, and a title or a description:
   * a record with neither text is rejected whatever else it holds.
   */
  lemma CreateRequiredFields(r: Record)
    ensures Accepts(CreateSchema, Obj(r)) ==>
      && Present(r, "createdAt") && Present(r, "lastModifiedAt")
      && Present(r, "status") && Present(r, "username")
      && (Present(r, "title") || Present(r, "description"))
    ensures !Present(r, "title") && !Present(r, "description") ==> !Accepts(CreateSchema, Obj(r))
  {
    CreateSchemaMeaning(Obj(r));
  }

  /** Under `create`: title 1..100, description 1..500, owner 3..100 characters, timestamps numbers. */
  lemma CreateFieldBounds(r: Record)
    requires Accepts(CreateSchema, Obj(r))
    ensures Present(r, "title") ==> r["title"].Str? && 1 <= |r["title"].s| <= 100
    ensures Present(r, "description") ==> r["description"].Str? && 1 <= |r["description"].s| <= 500
    ensures Present(r, "username") && r["username"].Str? && 3 <= |r["username"].s| <= 100
    ensures Present(r, "createdAt") && r["createdAt"].Num?
    ensures Present(r, "lastModifiedAt") && r["lastModifiedAt"].Num?
  {
    CreateSchemaMeaning(Obj(r));
  }

  /**
   * `create` accepts a status exactly when it is a string in which `to_do` occurs somewhere:
   * the pattern is not anchored, so `not to_do` passes as well.
   */
  lemma CreateStatusIff(r: Record, status: Value)
    ensures Accepts(CreateSchema, Obj(r["status" := status])) <==>
      && Accepts(CreateSchema, Obj(r["status" := Str("to_do")]))
      && status.Str? && exists i: nat :: OccursAt(status.s, "to_do", i)
  {
    var a, b := r["status" := status], r["status" := Str("to_do")];
    CreateSchemaMeaning(Obj(a));
    CreateSchemaMeaning(Obj(b));
    SameExceptStatus(a, b);
    assert Contains("to_do", "to_do");
    if status.Str? {
      ContainsIff(status.s, "to_do");
    }
  }

  /** Two records that differ at most in their status agree on every other field. */
  lemma SameExceptStatus(a: Record, b: Record)
    requires a.Keys == b.Keys && "status" in a
    requires forall k :: k in a && k != "status" ==> a[k] == b[k]
    ensures a.Keys <= CreateFields <==> b.Keys <= CreateFields
    ensures a.Keys <= UpdateFields <==> b.Keys <= UpdateFields
    ensures forall k :: k != "status" ==> (Present(a, k) <==> Present(b, k))
    ensures forall k :: k != "status" && Present(a, k) ==> a[k] == b[k]
  {
  }

  /**
   * `update` admits only title, description, status and lastModifiedAt; it needs a numeric
   * lastModifiedAt and at least one of title, description and status.
   */
  lemma UpdateShape(r: Record)
    requires Accepts(UpdateSchema, Obj(r))
    ensures r.Keys <= {"title", "description", "status", "lastModifiedAt"}
    ensures Present(r, "lastModifiedAt") && r["lastModifiedAt"].Num?
    ensures Present(r, "title") || Present(r, "description") || Present(r, "status")
    ensures Present(r, "title") ==> r["title"].Str? && 1 <= |r["title"].s| <= 100
    ensures Present(r, "description") ==> r["description"].Str? && 1 <= |r["description"].s| <= 500
  {
    UpdateSchemaMeaning(Obj(r));
  }

  /** An update that carries nothing but the timestamp is rejected. */
  lemma UpdateTimestampOnlyRejected(r: Record)
    requires !Present(r, "title") && !Present(r, "description") && !Present(r, "status")
    ensures !Accepts(UpdateSchema, Obj(r))
  {
    UpdateSchemaMeaning(Obj(r));
  }

  /**
   * `update` accepts a status exactly when it is a string in which `to_do`, `in_progress` or `done`
   * occurs. (A status of `undefined` counts as absent, so it is left out here.)
   */
  lemma UpdateStatusIff(r: Record, status: Value)
    requires status != Undefined
    ensures Accepts(UpdateSchema, Obj(r["status" := status])) <==>
      && Accepts(UpdateSchema, Obj(r["status" := Str("done")]))
      && status.Str?
      && ((exists i: nat :: OccursAt(status.s, "to_do", i))
          || (exists i: nat :: OccursAt(status.s, "in_progress", i))
          || (exists i: nat :: OccursAt(status.s, "done", i)))
  {
    var a, b := r["status" := status], r["status" := Str("done")];
    UpdateSchemaMeaning(Obj(a));
    UpdateSchemaMeaning(Obj(b));
    SameExceptStatus(a, b);
    assert UpdateStatusMatches("done") by {
      assert Contains("done", "done");
    }
    if status.Str? {
      ContainsIff(status.s, "to_do");
      ContainsIff(status.s, "in_progress");
      ContainsIff(status.s, "done");
    }
  }

  /** Because the pattern is not anchored, `update` lets through a status outside the three the task type lists. */
  lemma UpdateAcceptsUnlistedStatus(t: int)
    ensures var r := map["status" := Str("undone"), "lastModifiedAt" := Num(t)];
      Accepts(UpdateSchema, Obj(r)) && r["status"] !in {Str("to_do"), Str("in_progress"), Str("done")}
  {
    var r := map["status" := Str("undone"), "lastModifiedAt" := Num(t)];
    assert OccursAt("undone", "done", 2);
    ContainsIff("undone", "done");
    assert r.Keys == {"status", "lastModifiedAt"};
    UpdateSchemaMeaning(Obj(r));
  }
}
