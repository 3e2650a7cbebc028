/**
  * `TaskValidator`: schema validation first (a failure propagates before any
  * business rule runs), then Task's business rules. A full task must have a
  * title, a status and a priority (the first missing one fails alone); a
  * title longer than 200 characters that is not blank, and a description
  * longer than 1000 characters, are reported together. A patch gets the
  * length rules only, for the keys it holds.
  */
module TaskValidation {
  import opened Wrappers
  import opened Text
  import opened TaskModel
  import opened ValidationErrors
  import opened SchemaValidation

  const MaxTitleLength := 200
  const MaxDescriptionLength := 1000

  const TitleTooLong := "Title cannot exceed 200 characters"
  const DescriptionTooLong := "Description cannot exceed 1000 characters"
  const TitleRequired := "Title is required"
  const StatusRequired := "Status is required"
  const PriorityRequired := "Priority is required"

  /**
    * The rules read `title` and `description` values as text (`toString()`);
    * schema validation, which always runs first, lets only strings or `null`
    * through under those names.
    */
  predicate RuleReadable(name: string, v: Value) {
    (name == "title" || name == "description") ==> (v.Null? || v.Str?)
  }

  predicate AllRuleReadable(m: map<string, Value>) {
    forall k :: k in m ==> RuleReadable(k, m[k])
  }

  /** The message `validateField` records for one entry, if any; other names are ignored. */
  function RuleError(name: string, v: Value): Option<string>
    requires RuleReadable(name, v)
  {
    if name == "title" then
      if v.Str? && Trim(v.s) != [] && |v.s| > MaxTitleLength then Some(TitleTooLong) else None
    else if name == "description" then
      if v.Str? && |v.s| > MaxDescriptionLength then Some(DescriptionTooLong) else None
    else None
  }

  /** `validateField(name, value, errors)`: records the entry's error, if any, in `errors`. */
  function ValidateField(name: string, v: Value, errors: map<string, string>): (r: map<string, string>)
    requires RuleReadable(name, v)
    ensures RuleError(name, v).None? ==> r == errors
    ensures RuleError(name, v).Some? ==> r == errors[name := RuleError(name, v).value]
  {
    match RuleError(name, v)
    case Some(message) => errors[name := message]
    case None => errors
  }

  /** The rule errors of the entries under `keys`. */
  function RuleErrorsOn(m: map<string, Value>, keys: set<string>): map<string, string>
    requires AllRuleReadable(m)
  {
    map k | k in keys && k in m && RuleError(k, m[k]).Some? :: RuleError(k, m[k]).value
  }

  /** The rule errors of every entry. */
  function RuleErrors(m: map<string, Value>): (errors: map<string, string>)
    requires AllRuleReadable(m)
    ensures errors.Keys <= m.Keys * {"title", "description"}
  {
    RuleErrorsOn(m, m.Keys)
  }

  /** The `validateField` loop over all entries, in any order. */
  method ApplyFieldRules(m: map<string, Value>) returns (errors: map<string, string>)
    requires AllRuleReadable(m)
    ensures errors == RuleErrors(m)
  {
    errors := map[];
    var remaining := m.Keys;
    while remaining != {}
      invariant remaining <= m.Keys
      invariant errors == RuleErrorsOn(m, m.Keys - remaining)
      decreases remaining
    {
      var k :| k in remaining;
      errors := ValidateField(k, m[k], errors);
      remaining := remaining - {k};
    }
  }

  /** `taskToMap(task)`: all four declared fields, `null` ones included. */
  function TaskToMap(fs: TaskFields): (m: map<string, Value>)
    ensures forall f: Field :: f.Name() in m && m[f.Name()] == fs.Read(f)
    ensures forall k :: k in m ==> GetDeclaredField(k).Some?
  {
    map f | f in AllFields :: f.Name() := fs.Read(f)
  }

  /** A field map of a task can be read by the rules. */
  lemma TaskMapRuleReadable(fs: TaskFields)
    ensures AllRuleReadable(TaskToMap(fs))
  {
    var m := TaskToMap(fs);
    forall k | k in m ensures RuleReadable(k, m[k]) {
      var f := GetDeclaredField(k).value;
      assert m[f.Name()] == fs.Read(f);
    }
  }

  /** A map that passed schema validation can be read by the rules. */
  lemma SchemaPassRuleReadable(patch: map<string, Value>)
    requires SchemaErrors(patch) == map[]
    ensures AllRuleReadable(patch)
  {
    forall k | k in patch ensures RuleReadable(k, patch[k]) {
      assert k !in SchemaErrors(patch);
    }
  }

  /** The verdict of `validate(task)` on a task with these fields. */
  function TaskVerdict(fs: TaskFields): Outcome {
    var schema := Check(SchemaErrors(EntityToMap(fs)));
    if schema.Fail? then schema
    else
      var fieldMap := TaskToMap(fs);
      if fieldMap["title"].Null? then Fail(WithErrors(Some(map["title" := TitleRequired])))
      else if fieldMap["status"].Null? then Fail(WithErrors(Some(map["status" := StatusRequired])))
      else if fieldMap["priority"].Null? then Fail(WithErrors(Some(map["priority" := PriorityRequired])))
      else
        TaskMapRuleReadable(fs);
        Check(RuleErrors(fieldMap))
  }

  /** The verdict of `validate(patchData)`. */
  function PatchVerdict(patch: map<string, Value>): Outcome {
    var schema := Check(SchemaErrors(patch));
    if schema.Fail? then schema
    else
      SchemaPassRuleReadable(patch);
      Check(RuleErrors(patch))
  }

  /** `validate(task)`: schema check, required fields in order, then all field rules. */
  method ValidateTask(task: Task) returns (r: Outcome)
    ensures r == TaskVerdict(task.Fields())
  {
    r := ValidateEntity(task);
    if r.Fail? {
      return;
    }
    var fieldMap := TaskToMap(task.Fields());
    if fieldMap["title"].Null? {
      return Fail(WithErrors(Some(map["title" := TitleRequired])));
    }
    if fieldMap["status"].Null? {
      return Fail(WithErrors(Some(map["status" := StatusRequired])));
    }
    if fieldMap["priority"].Null? {
      return Fail(WithErrors(Some(map["priority" := PriorityRequired])));
    }
    TaskMapRuleReadable(task.Fields());
    var errors := ApplyFieldRules(fieldMap);
    r := Check(errors);
  }

  /** `validate(patchData)`: schema check, then the field rules for the keys present. */
  method ValidatePatch(patch: map<string, Value>) returns (r: Outcome)
    ensures r == PatchVerdict(patch)
  {
    r := ValidateMap(patch);
    if r.Fail? {
      return;
    }
    SchemaPassRuleReadable(patch);
    var errors := ApplyFieldRules(patch);
    r := Check(errors);
  }

  /** The title rule fires exactly for a non-blank title longer than 200 characters. */
  lemma TitleRuleIff(s: string)
    ensures RuleError("title", Str(s)).Some? <==> !IsBlank(s) && |s| > MaxTitleLength
    ensures RuleError("title", Null).None?
  {
    TrimEmptyIffBlank(s);
  }

  /** The description rule fires exactly for a description longer than 1000 characters. */
  lemma DescriptionRuleIff(s: string)
    ensures RuleError("description", Str(s)).Some? <==> |s| > MaxDescriptionLength
    ensures RuleError("description", Null).None?
  {
  }

  /**
    * Required fields are checked in the order title, status, priority, and
    * the first `null` one fails alone; a blank title is present.
    */
  lemma RequiredFieldsInOrder(fs: TaskFields)
    ensures fs.title.None? ==>
      TaskVerdict(fs) == Fail(WithErrors(Some(map["title" := TitleRequired])))
    ensures fs.title.Some? && fs.status.None? ==>
      TaskVerdict(fs) == Fail(WithErrors(Some(map["status" := StatusRequired])))
    ensures fs.title.Some? && fs.status.Some? && fs.priority.None? ==>
      TaskVerdict(fs) == Fail(WithErrors(Some(map["priority" := PriorityRequired])))
  {
    EntityPassesSchema(fs);
    var m := TaskToMap(fs);
    assert m[Title.Name()] == fs.Read(Title);
    assert m[StatusField.Name()] == fs.Read(StatusField);
    assert m[PriorityField.Name()] == fs.Read(PriorityField);
  }

  /** The rule errors of a task's field map, key by key: only a long non-blank title and a long description. */
  lemma TaskRuleErrors(fs: TaskFields)
    ensures AllRuleReadable(TaskToMap(fs))
    ensures RuleErrors(TaskToMap(fs)) == BusinessErrors(fs)
  {
    TaskMapRuleReadable(fs);
    var m := TaskToMap(fs);
    var r := RuleErrors(m);
    var e := BusinessErrors(fs);
    assert m[Title.Name()] == fs.Read(Title);
    assert m[Description.Name()] == fs.Read(Description);
    if fs.title.Some? {
      TitleRuleIff(fs.title.value);
    }
    forall k ensures k in r <==> k in e {
      if k in m && k != "title" && k != "description" {
        assert RuleError(k, m[k]).None?;
      }
    }
    assert r == e;
  }

  /** The business-rule errors of a task, stated independently of the rule table. */
  function BusinessErrors(fs: TaskFields): map<string, string> {
    (if fs.title.Some? && !IsBlank(fs.title.value) && |fs.title.value| > MaxTitleLength
     then map["title" := TitleTooLong] else map[]) +
    (if fs.description.Some? && |fs.description.value| > MaxDescriptionLength
     then map["description" := DescriptionTooLong] else map[])
  }

  /**
    * Once the required fields are present, the title and description rules
    * are reported together, in one failure holding exactly the violated ones.
    */
  lemma BusinessErrorsTogether(fs: TaskFields)
    requires fs.title.Some? && fs.status.Some? && fs.priority.Some?
    ensures TaskVerdict(fs) == Check(BusinessErrors(fs))
  {
    EntityPassesSchema(fs);
    TaskRuleErrors(fs);
    var m := TaskToMap(fs);
    assert m[Title.Name()] == fs.Read(Title);
    assert m[StatusField.Name()] == fs.Read(StatusField);
    assert m[PriorityField.Name()] == fs.Read(PriorityField);
  }

  /** A blank title passes: the required check tests only for `null`, the length rule skips blanks. */
  lemma BlankTitlePasses(blank: string, status: TaskStatus, priority: TaskPriority)
    requires IsBlank(blank)
    ensures TaskVerdict(TaskFields(Some(blank), None, Some(status), Some(priority))) == Pass
  {
    BusinessErrorsTogether(TaskFields(Some(blank), None, Some(status), Some(priority)));
  }

  /** A patch failing schema validation fails with exactly the schema errors; no rule runs. */
  lemma PatchSchemaFailureFirst(patch: map<string, Value>)
    requires SchemaErrors(patch) != map[]
    ensures PatchVerdict(patch) == Fail(WithErrors(Some(SchemaErrors(patch))))
  {
  }

  /**
    * After schema validation a patch is checked only for the length rules
    * of the keys it holds, with no required field: `{title: null}` passes.
    */
  lemma PatchRulesOnPresentKeys(patch: map<string, Value>)
    requires SchemaErrors(patch) == map[]
    ensures AllRuleReadable(patch)
    ensures PatchVerdict(patch).Pass? <==> forall k :: k in patch ==> RuleError(k, patch[k]).None?
    ensures PatchVerdict(map["title" := Null]) == Pass
  {
    SchemaPassRuleReadable(patch);
    if PatchVerdict(patch).Pass? {
      forall k | k in patch ensures RuleError(k, patch[k]).None? {
        assert k !in RuleErrors(patch);
      }
    }
    var nullTitle := map["title" := Null];
    assert SchemaErrors(nullTitle) == map[] by { NullAccepted(nullTitle, "title"); }
    SchemaPassRuleReadable(nullTitle);
    assert RuleErrors(nullTitle) == map[] by { TitleRuleIff(""); }
  }

  /** `{status: "done", unknown: "x"}` is rejected by schema validation, reporting `unknown` only. */
  lemma UnknownFieldPatchRejected()
    ensures PatchVerdict(map["status" := Str("done"), "unknown" := Str("x")]) ==
      Fail(WithErrors(Some(map["unknown" := UnknownFieldMessage])))
  {
    UnknownOnlyScenario();
  }
}
