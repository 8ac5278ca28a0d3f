/**
 * `validate(schema, data)`: looks the schema up by name, rejects falsy data, compiles each
 * schema at most once into a module-level cache, and on failure raises a ValidationError whose
 * message is built from the first reported error.
 */
module Validation {
  import opened Results
  import opened JsValues
  import opened Strings
  import opened TaskSchemas

  const InvalidSchemaMessage := "Invalid schema."
  const NullDataMessage := "Null data."

  /** The schema table by name (its task entries). */
  function SchemaTable(): map<string, ObjectSchema>
  {
    map["createTask" := CreateSchema, "updateTask" := UpdateSchema]
  }

  /** What compiling a schema yields: a validation function, represented by the schema it decides. */
  datatype Compiled = Compiled(schema: ObjectSchema)

  function Compile(schema: ObjectSchema): Compiled
  {
    Compiled(schema)
  }

  /** Running a compiled schema: the errors it reports (none when the data is valid). */
  function Run(c: Compiled, data: Value): set<SchemaError>
  {
    Violations(c.schema, data)
  }

  /** The message of the raised error: the instance path in quotes, its first `/` removed, then the error text. */
  function FormatError(e: SchemaError): string
  {
    "\"" + RemoveFirst(e.instancePath, '/') + "\" " + KeywordMessage(e.keyword)
  }

  /**
   * How `validate(name, data)` ends, given the choice `first` of the error the validator
   * lists first. The cache does not appear: the outcome is a function of the name and the data.
   */
  function ValidateResult(name: string, data: Value, first: set<SchemaError> -> SchemaError): Result<()>
  {
    if name !in SchemaTable() then Err(PlainError(InvalidSchemaMessage))
    else if !Truthy(data) then Err(ValidationError(NullDataMessage))
    else
      var errors := Violations(SchemaTable()[name], data);
      if errors == {} then Ok(()) else Err(ValidationError(FormatError(first(errors))))
  }

  /** The validation module's state: the cache of compiled schemas. */
  /** The validator lists first one of the errors it reported, never an error from elsewhere. */
  ghost predicate PicksReported(first: set<SchemaError> -> SchemaError)
  {
    forall errors: set<SchemaError> :: errors != {} ==> first(errors) in errors
  }

  class Validator {
    /** Compiled schemas by name, filled on first use. */
    var compiled: map<string, Compiled>
    /** The names compiled so far, in the order they were compiled. */
    ghost var compilations: seq<string>
    /** Which of a failed run's errors the validator lists first (its error order is not modelled). */
    const first: set<SchemaError> -> SchemaError

    /** Cached entries are the compilations of the table's schemas, and no name was compiled twice. */
    ghost predicate Valid()
      reads this
    {
      && (forall n :: n in compiled ==> n in SchemaTable() && compiled[n] == Compile(SchemaTable()[n]))
      && (forall n :: n in compiled <==> n in compilations)
      && (forall i, j :: 0 <= i < j < |compilations| ==> compilations[i] != compilations[j])
      && PicksReported(first)
    }

    constructor(first: set<SchemaError> -> SchemaError)
      requires PicksReported(first)
      ensures Valid()
      ensures compiled == map[] && compilations == [] && this.first == first
    {
      compiled := map[];
      compilations := [];
      this.first := first;
    }

    method Validate(name: string, data: Value) returns (r: Result<()>)
      requires Valid()
      modifies this
      ensures Valid()
      ensures r == ValidateResult(name, data, first)
      ensures name in SchemaTable() && Truthy(data) ==>
        && compiled == old(compiled)[name := Compile(SchemaTable()[name])]
        && compilations == (if name in old(compiled) then old(compilations) else old(compilations) + [name])
      ensures !(name in SchemaTable() && Truthy(data)) ==>
        compiled == old(compiled) && compilations == old(compilations)
      ensures forall n :: n in old(compiled) ==> n in compiled && compiled[n] == old(compiled)[n]
      ensures forall n :: n != name ==> (n in compiled <==> n in old(compiled))
    {
      if name !in SchemaTable() {
        return Err(PlainError(InvalidSchemaMessage));
      }
      if !Truthy(data) {
        return Err(ValidationError(NullDataMessage));
      }
      if name !in compiled {
        compiled := compiled[name := Compile(SchemaTable()[name])];
        compilations := compilations + [name];
      }
      var errors := Run(compiled[name], data);
      if errors != {} {
        r := Err(ValidationError(FormatError(first(errors))));
      } else {
        r := Ok(());
      }
    }
  }

  /** Validating the same data twice gives the same outcome, although the first call may fill the cache. */
  method ValidateTwice(v: Validator, name: string, data: Value) returns (once: Result<()>, twice: Result<()>)
    requires v.Valid()
    modifies v
    ensures v.Valid()
    ensures once == twice
    ensures |v.compilations| <= |old(v.compilations)| + 1
  {
    once := v.Validate(name, data);
    twice := v.Validate(name, data);
  }

  /** An unknown schema name raises the plain error, before the data is looked at. */
  lemma ValidateUnknownSchema(name: string, data: Value, first: set<SchemaError> -> SchemaError)
    requires name != "createTask" && name != "updateTask"
    ensures ValidateResult(name, data, first) == Err(PlainError("Invalid schema."))
  {
  }

  /** Falsy data (`undefined`, `null`, `false`, `0`, `""`) under a known name raises `Null data.`. */
  lemma ValidateNullData(name: string, data: Value, first: set<SchemaError> -> SchemaError)
    requires name == "createTask" || name == "updateTask"
    requires data in {Undefined, Null, Bool(false), Num(0), Str("")}
    ensures ValidateResult(name, data, first) == Err(ValidationError("Null data."))
  {
  }

  /** `validate('createTask', record)` returns normally exactly on the records the `create` schema admits. */
  lemma ValidateCreateIff(r: Record, first: set<SchemaError> -> SchemaError)
    ensures ValidateResult("createTask", Obj(r), first).Ok? <==> ValidCreate(r)
    ensures ValidateResult("createTask", Obj(r), first).Err? ==> ValidateResult("createTask", Obj(r), first).error.ValidationError?
  {
    assert SchemaTable()["createTask"] == CreateSchema;
    CreateSchemaMeaning(Obj(r));
  }

  /** `validate('updateTask', record)` returns normally exactly on the records the `update` schema admits. */
  lemma ValidateUpdateIff(r: Record, first: set<SchemaError> -> SchemaError)
    ensures ValidateResult("updateTask", Obj(r), first).Ok? <==> ValidUpdate(r)
    ensures ValidateResult("updateTask", Obj(r), first).Err? ==> ValidateResult("updateTask", Obj(r), first).error.ValidationError?
  {
    assert SchemaTable()["updateTask"] == UpdateSchema;
    UpdateSchemaMeaning(Obj(r));
  }

  /** When the validator lists one of the reported errors first, a rejection's message formats one of them. */
  lemma ValidateRejectionMessage(name: string, data: Value, first: set<SchemaError> -> SchemaError)
    requires PicksReported(first)
    requires name in SchemaTable() && Truthy(data)
    requires ValidateResult(name, data, first).Err?
    ensures exists e ::
      && e in Violations(SchemaTable()[name], data)
      && ValidateResult(name, data, first) == Err(ValidationError(FormatError(e)))
  {
    var errors := Violations(SchemaTable()[name], data);
    assert first(errors) in errors;
  }

  /**
   * The message of an error at property path `/p` quotes `p`: only the leading `/` is dropped,
   * so a `/` inside `p` stays. An error about the object itself quotes the empty path.
   */
  lemma FormatErrorPath(p: string, k: Keyword)
    ensures FormatError(SchemaError("/" + p, k)) == "\"" + p + "\" " + KeywordMessage(k)
    ensures FormatError(SchemaError("", k)) == "\"\" " + KeywordMessage(k)
  {
    RemoveFirstAt("/" + p, '/', 0);
    assert ("/" + p)[1..] == p;
  }
}
