/**
  * `SchemaValidator<Task>`: type checks of a field map against Task's
  * declared fields. Every entry is checked and every error kept; `null` is
  * accepted for any key; a non-null value under an undeclared name is an
  * unknown field.
  */
module SchemaValidation {
  import opened Wrappers
  import opened Text
  import opened TaskModel
  import opened ValidationErrors

  /**
    * `isTypeCompatible(value, targetType)`: an instance of the type, or a
    * string naming an enum constant once upper-cased. It holds exactly when
    * the patch conversion of that non-null value succeeds.
    */
  function IsTypeCompatible(v: Value, t: FieldType): (r: bool)
    ensures v.Null? ==> !r
    ensures !v.Null? ==> (r <==> ConvertValue(v, t).Ok?)
    ensures v.Str? && t == StatusType ==> (r <==> ParseStatus(v.s).Some?)
    ensures v.Str? && t == PriorityType ==> (r <==> ParsePriority(v.s).Some?)
    ensures t == StringType ==> (r <==> v.Str?)
  {
    IsInstance(v, t) || (t.IsEnum() && v.Str? && EnumValueOf(t, ToUpper(v.s)).Some?)
  }

  const UnknownFieldMessage := "Unknown field - not part of entity schema"

  function TypeMismatchMessage(t: FieldType, v: Value): string
    requires !v.Null?
  {
    "Type mismatch. Expected " + t.SimpleName() + " but got " + ClassName(v)
  }

  /** The error the validation loop records for one entry, if any. */
  function EntryError(name: string, v: Value): Option<string> {
    if v.Null? then None
    else match GetDeclaredField(name)
      case None => Some(UnknownFieldMessage)
      case Some(f) =>
        if IsTypeCompatible(v, f.TypeOf()) then None else Some(TypeMismatchMessage(f.TypeOf(), v))
  }

  /** The errors recorded for the entries under `keys`. */
  function ErrorsOn(patch: map<string, Value>, keys: set<string>): map<string, string> {
    map k | k in keys && k in patch && EntryError(k, patch[k]).Some? :: EntryError(k, patch[k]).value
  }

  /** The complete error map of `validate(patchData)`: one entry per offending key, and no other key. */
  function SchemaErrors(patch: map<string, Value>): (errors: map<string, string>)
    ensures errors.Keys <= patch.Keys
  {
    ErrorsOn(patch, patch.Keys)
  }

  /** `validate(patchData)`: visits every entry (in any order), accumulating all errors. */
  method ValidateMap(patch: map<string, Value>) returns (r: Outcome)
    ensures r == Check(SchemaErrors(patch))
  {
    var errors: map<string, string> := map[];
    var remaining := patch.Keys;
    while remaining != {}
      invariant remaining <= patch.Keys
      invariant errors == ErrorsOn(patch, patch.Keys - remaining)
      decreases remaining
    {
      var k :| k in remaining;
      var v := patch[k];
      remaining := remaining - {k};
      if v.Null? {
        continue;
      }
      var field := GetDeclaredField(k);
      if field.None? {
        errors := errors[k := UnknownFieldMessage];
      } else if !IsTypeCompatible(v, field.value.TypeOf()) {
        errors := errors[k := TypeMismatchMessage(field.value.TypeOf(), v)];
      }
    }
    r := Check(errors);
  }

  /** `entityToMap(entity)`: the declared fields whose value is not `null`, and nothing else. */
  function EntityToMap(fs: TaskFields): (m: map<string, Value>)
    ensures forall f: Field :: f.Name() in m <==> !fs.Read(f).Null?
    ensures forall f: Field :: f.Name() in m ==> m[f.Name()] == fs.Read(f)
    ensures forall k :: k in m ==> GetDeclaredField(k).Some?
  {
    map f | f in AllFields && !fs.Read(f).Null? :: f.Name() := fs.Read(f)
  }

  /** `validate(entity)`: the map check applied to the entity's non-null declared fields. */
  method ValidateEntity(task: Task) returns (r: Outcome)
    ensures r == Check(SchemaErrors(EntityToMap(task.Fields())))
  {
    r := ValidateMap(EntityToMap(task.Fields()));
  }

  /** A full entity never fails schema validation: every non-null field holds a value of its type. */
  lemma EntityPassesSchema(fs: TaskFields)
    ensures SchemaErrors(EntityToMap(fs)) == map[]
  {
    var m := EntityToMap(fs);
    forall k | k in m ensures EntryError(k, m[k]).None? {
      var f := GetDeclaredField(k).value;
      assert m[f.Name()] == fs.Read(f);
    }
  }

  /** A `null` value is accepted under any key, declared or not. */
  lemma NullAccepted(patch: map<string, Value>, k: string)
    requires k in patch && patch[k].Null?
    ensures k !in SchemaErrors(patch)
  {
  }

  /**
    * A non-null value under an undeclared name is reported as an unknown
    * field under that key, whatever else the map holds; the inherited
    * `id`, `createdAt` and `updatedAt` are such names.
    */
  lemma UnknownFieldReported(patch: map<string, Value>, k: string)
    requires k in patch && !patch[k].Null?
    requires GetDeclaredField(k).None? || k in {"id", "createdAt", "updatedAt"}
    ensures k in SchemaErrors(patch) && SchemaErrors(patch)[k] == UnknownFieldMessage
  {
    InheritedFieldsNotDeclared();
  }

  /** A non-null value under a declared name is an error exactly when it is not type-compatible. */
  lemma DeclaredFieldChecked(patch: map<string, Value>, f: Field)
    requires f.Name() in patch && !patch[f.Name()].Null?
    ensures f.Name() in SchemaErrors(patch) <==> !IsTypeCompatible(patch[f.Name()], f.TypeOf())
    ensures f.Name() in SchemaErrors(patch) ==>
      SchemaErrors(patch)[f.Name()] == TypeMismatchMessage(f.TypeOf(), patch[f.Name()])
  {
  }

  /** What passes schema validation also converts without an exception when patched in. */
  lemma SchemaPassMeansConvertible(patch: map<string, Value>)
    requires SchemaErrors(patch) == map[]
    ensures PatchConvertible(patch)
  {
    forall k | k in patch && Patches(k)
      ensures ConvertValue(patch[k], GetDeclaredField(k).value.TypeOf()).Ok?
    {
      assert k !in SchemaErrors(patch);
    }
  }

  /** `{status: "done", unknown: "x"}` fails with exactly one error, under `unknown`. */
  lemma UnknownOnlyScenario()
    ensures SchemaErrors(map["status" := Str("done"), "unknown" := Str("x")]) ==
      map["unknown" := UnknownFieldMessage]
  {
    var patch := map["status" := Str("done"), "unknown" := Str("x")];
    assert ToUpper("done") == "DONE";
    assert EntryError("status", Str("done")).None?;
    assert EntryError("unknown", Str("x")) == Some(UnknownFieldMessage);
  }
}
