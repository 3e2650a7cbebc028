/**
  * The record types: `Entity` (id and the two epoch-millisecond timestamps) and
  * `Task`, its only concrete entity. Dafny classes do not inherit fields, so
  * `Task` declares Entity's three fields itself; `Fields()` is the part that
  * `Task` declares on its own (the only part reflection sees on `Task.class`).
  *
  * Reflection is replaced by an explicit field table (`Field`,
  * `GetDeclaredField`, `TypeOf`) and patch payloads are a tagged `Value`.
  */
module TaskModel {
  import opened Wrappers
  import opened Text

  datatype TaskStatus = Todo | InProgress | Done
  datatype TaskPriority = Low | Medium | High

  /** The Java constant name of a status, `status.name()`. */
  function StatusName(s: TaskStatus): string {
    match s
    case Todo => "TODO"
    case InProgress => "IN_PROGRESS"
    case Done => "DONE"
  }

  /** The Java constant name of a priority, `priority.name()`. */
  function PriorityName(p: TaskPriority): string {
    match p
    case Low => "LOW"
    case Medium => "MEDIUM"
    case High => "HIGH"
  }

  /** `TaskStatus.valueOf(name)`: the constant named exactly `name`; `None` where Java throws. */
  function StatusValueOf(name: string): (r: Option<TaskStatus>)
    ensures r.Some? ==> StatusName(r.value) == name
    ensures forall s :: StatusName(s) == name ==> r == Some(s)
  {
    if name == "TODO" then Some(Todo)
    else if name == "IN_PROGRESS" then Some(InProgress)
    else if name == "DONE" then Some(Done)
    else None
  }

  /** `TaskPriority.valueOf(name)`: the constant named exactly `name`; `None` where Java throws. */
  function PriorityValueOf(name: string): (r: Option<TaskPriority>)
    ensures r.Some? ==> PriorityName(r.value) == name
    ensures forall p :: PriorityName(p) == name ==> r == Some(p)
  {
    if name == "LOW" then Some(Low)
    else if name == "MEDIUM" then Some(Medium)
    else if name == "HIGH" then Some(High)
    else None
  }

  /** `TaskStatus.valueOf(s.toUpperCase())`, the coercion used by conversion, schema checks and filters. */
  function ParseStatus(s: string): Option<TaskStatus> {
    StatusValueOf(ToUpper(s))
  }

  /** `TaskPriority.valueOf(s.toUpperCase())`. */
  function ParsePriority(s: string): Option<TaskPriority> {
    PriorityValueOf(ToUpper(s))
  }

  /** A string names a status exactly when its upper-cased form is that status's constant name. */
  lemma ParseStatusIff(s: string, st: TaskStatus)
    ensures ParseStatus(s) == Some(st) <==> ToUpper(s) == StatusName(st)
  {
  }

  /** A string names a priority exactly when its upper-cased form is that priority's constant name. */
  lemma ParsePriorityIff(s: string, p: TaskPriority)
    ensures ParsePriority(s) == Some(p) <==> ToUpper(s) == PriorityName(p)
  {
  }

  /** Coercion ignores case: a string parses as its lower-case form does, and every name parses back. */
  lemma {:induction false} ParseStatusIgnoresCase(s: string, st: TaskStatus)
    ensures ParseStatus(ToLower(s)) == ParseStatus(s)
    ensures ParseStatus(StatusName(st)) == Some(st)
    ensures ParseStatus(ToLower(StatusName(st))) == Some(st)
  {
    UpperOfLower(s);
    UpperOfLower(StatusName(st));
    assert ToUpper(StatusName(st)) == StatusName(st);
  }

  /** Coercion ignores case for priorities too. */
  lemma {:induction false} ParsePriorityIgnoresCase(s: string, p: TaskPriority)
    ensures ParsePriority(ToLower(s)) == ParsePriority(s)
    ensures ParsePriority(PriorityName(p)) == Some(p)
    ensures ParsePriority(ToLower(PriorityName(p))) == Some(p)
  {
    UpperOfLower(s);
    UpperOfLower(PriorityName(p));
    assert ToUpper(PriorityName(p)) == PriorityName(p);
  }

  /**
    * A value of a patch map or of a field map: JSON scalars as the request
    * binding delivers them, the two enum types as entity fields hold them, and
    * any other object by its class name.
    */
  datatype Value =
    | Null
    | Str(s: string)
    | Int(i: int)
    | Bool(b: bool)
    | Status(status: TaskStatus)
    | Priority(priority: TaskPriority)
    | Other(className: string)

  /** `value.getClass().getSimpleName()` (JSON integers are boxed by size). */
  function ClassName(v: Value): string
    requires !v.Null?
  {
    match v
    case Str(_) => "String"
    case Int(i) =>
      if -0x8000_0000 <= i < 0x8000_0000 then "Integer"
      else if -0x8000_0000_0000_0000 <= i < 0x8000_0000_0000_0000 then "Long"
      else "BigInteger"
    case Bool(_) => "Boolean"
    case Status(_) => "TaskStatus"
    case Priority(_) => "TaskPriority"
    case Other(name) => name
  }

  /** The declared types of Task's own fields. */
  datatype FieldType = StringType | StatusType | PriorityType {
    predicate IsEnum() { StatusType? || PriorityType? }

    /** `targetType.getSimpleName()`. */
    function SimpleName(): string {
      match this
      case StringType => "String"
      case StatusType => "TaskStatus"
      case PriorityType => "TaskPriority"
    }

    /** `targetType.getCanonicalName()`, as it appears in `Enum.valueOf`'s error. */
    function CanonicalName(): string {
      match this
      case StringType => "java.lang.String"
      case StatusType => "com.tasktracker.impl.models.TaskStatus"
      case PriorityType => "com.tasktracker.impl.models.TaskPriority"
    }
  }

  /** `targetType.isInstance(v)`; never true of `null`. */
  predicate IsInstance(v: Value, t: FieldType) {
    match t
    case StringType => v.Str?
    case StatusType => v.Status?
    case PriorityType => v.Priority?
  }

  /** What a field of type `t` can be set to by reflection: `null` or an instance of `t`. */
  predicate Assignable(v: Value, t: FieldType) {
    v.Null? || IsInstance(v, t)
  }

  /** `Enum.valueOf(t, name)` for an enum type `t`, boxed as a `Value`. */
  function EnumValueOf(t: FieldType, name: string): (r: Option<Value>)
    requires t.IsEnum()
    ensures r.Some? ==> IsInstance(r.value, t)
  {
    if t == StatusType then
      (match StatusValueOf(name) case Some(s) => Some(Status(s)) case None => None)
    else
      (match PriorityValueOf(name) case Some(p) => Some(Priority(p)) case None => None)
  }

  /**
    * `convertValue(value, targetType)`, identical in `Task` and in `TaskStore`:
    * `null` stays `null`, an instance passes through, a string for an enum field
    * becomes the constant named by its upper-cased form, anything else is an
    * `IllegalArgumentException` (here `Err` with its message).
    */
  function ConvertValue(v: Value, t: FieldType): (r: Result<Value>)
    ensures r.Ok? ==> Assignable(r.value, t) && (r.value.Null? <==> v.Null?)
    ensures Assignable(v, t) ==> r == Ok(v)
    ensures v.Str? && t == StatusType ==>
      (r.Ok? <==> ParseStatus(v.s).Some?) && (r.Ok? ==> r.value == Status(ParseStatus(v.s).value))
    ensures v.Str? && t == PriorityType ==>
      (r.Ok? <==> ParsePriority(v.s).Some?) && (r.Ok? ==> r.value == Priority(ParsePriority(v.s).value))
    ensures !Assignable(v, t) && !(v.Str? && t.IsEnum()) ==> r.Err?
  {
    if v.Null? then Ok(Null)
    else if IsInstance(v, t) then Ok(v)
    else if t.IsEnum() && v.Str? then
      match EnumValueOf(t, ToUpper(v.s))
      case Some(e) => Ok(e)
      case None => Err("No enum constant " + t.CanonicalName() + "." + ToUpper(v.s))
    else
      Err("Unexpected type mismatch: " + t.SimpleName() + " vs " + ClassName(v))
  }

  /** Task's own declared fields; `id`, `createdAt` and `updatedAt` belong to Entity. */
  datatype Field = Title | Description | StatusField | PriorityField {
    function Name(): string {
      match this
      case Title => "title"
      case Description => "description"
      case StatusField => "status"
      case PriorityField => "priority"
    }

    /** `field.getType()`. */
    function TypeOf(): FieldType {
      match this
      case Title => StringType
      case Description => StringType
      case StatusField => StatusType
      case PriorityField => PriorityType
    }
  }

  const AllFields: set<Field> := {Title, Description, StatusField, PriorityField}

  /** `Task.class.getDeclaredField(name)`: `None` where Java throws `NoSuchFieldException`. */
  function GetDeclaredField(name: string): (r: Option<Field>)
    ensures r.Some? ==> r.value.Name() == name
    ensures forall f: Field :: f.Name() == name ==> r == Some(f)
  {
    if name == "title" then Some(Title)
    else if name == "description" then Some(Description)
    else if name == "status" then Some(StatusField)
    else if name == "priority" then Some(PriorityField)
    else None
  }

  /** Inherited fields are not declared by `Task.class`, and neither is anything unknown. */
  lemma InheritedFieldsNotDeclared()
    ensures GetDeclaredField("id").None?
    ensures GetDeclaredField("createdAt").None?
    ensures GetDeclaredField("updatedAt").None?
    ensures GetDeclaredField("unknown").None?
  {
  }

  /** The values of Task's four declared fields, `None` standing for `null`. */
  datatype TaskFields = TaskFields(
    title: Option<string>,
    description: Option<string>,
    status: Option<TaskStatus>,
    priority: Option<TaskPriority>)
  {
    /** `field.get(task)`: the field's value, boxed. */
    function Read(f: Field): (v: Value)
      ensures Assignable(v, f.TypeOf())
    {
      match f
      case Title => if title.Some? then Str(title.value) else Null
      case Description => if description.Some? then Str(description.value) else Null
      case StatusField => if status.Some? then Status(status.value) else Null
      case PriorityField => if priority.Some? then Priority(priority.value) else Null
    }

    /** `field.set(task, v)`: field `f` now reads `v`; every other field reads as before. */
    function Write(f: Field, v: Value): (r: TaskFields)
      requires Assignable(v, f.TypeOf())
      ensures r.Read(f) == v
      ensures forall g: Field :: g != f ==> r.Read(g) == Read(g)
    {
      match f
      case Title => this.(title := if v.Str? then Some(v.s) else None)
      case Description => this.(description := if v.Str? then Some(v.s) else None)
      case StatusField => this.(status := if v.Status? then Some(v.status) else None)
      case PriorityField => this.(priority := if v.Priority? then Some(v.priority) else None)
    }
  }

  /** Two field snapshots that read alike are equal. */
  lemma FieldsExtensional(a: TaskFields, b: TaskFields)
    requires forall f: Field :: a.Read(f) == b.Read(f)
    ensures a == b
  {
    assert a.Read(Title) == b.Read(Title);
    assert a.Read(Description) == b.Read(Description);
    assert a.Read(StatusField) == b.Read(StatusField);
    assert a.Read(PriorityField) == b.Read(PriorityField);
  }

  /** The patch loop touches a key unless it is `id` or `createdAt` or not a declared field. */
  predicate Patches(name: string) {
    name != "id" && name != "createdAt" && GetDeclaredField(name).Some?
  }

  /** Every touched key among `keys` converts to its field's type without an exception. */
  predicate ConvertibleOn(patch: map<string, Value>, keys: set<string>) {
    forall k :: k in keys && k in patch && Patches(k) ==>
      ConvertValue(patch[k], GetDeclaredField(k).value.TypeOf()).Ok?
  }

  /** The whole patch can be applied without an exception. */
  predicate PatchConvertible(patch: map<string, Value>) {
    ConvertibleOn(patch, patch.Keys)
  }

  /** The value field `f` receives from the patch entry under its name. */
  function Converted(patch: map<string, Value>, f: Field): (v: Value)
    requires f.Name() in patch && ConvertValue(patch[f.Name()], f.TypeOf()).Ok?
    ensures Assignable(v, f.TypeOf())
  {
    ConvertValue(patch[f.Name()], f.TypeOf()).value
  }

  /** Field `f` of `fs` once the entries under `keys` have been applied. */
  function Slot(fs: TaskFields, patch: map<string, Value>, keys: set<string>, f: Field): (v: Value)
    requires ConvertibleOn(patch, keys)
    ensures Assignable(v, f.TypeOf())
  {
    if f.Name() in keys && f.Name() in patch then
      assert Patches(f.Name()) && GetDeclaredField(f.Name()) == Some(f);
      Converted(patch, f)
    else fs.Read(f)
  }

  /** The fields after the entries under `keys` (in any order) have been applied to `fs`. */
  function PatchedOn(fs: TaskFields, patch: map<string, Value>, keys: set<string>): (r: TaskFields)
    requires ConvertibleOn(patch, keys)
    ensures forall f: Field :: r.Read(f) == Slot(fs, patch, keys, f)
  {
    var title := Slot(fs, patch, keys, Title);
    var description := Slot(fs, patch, keys, Description);
    var status := Slot(fs, patch, keys, StatusField);
    var priority := Slot(fs, patch, keys, PriorityField);
    TaskFields(
      if title.Str? then Some(title.s) else None,
      if description.Str? then Some(description.s) else None,
      if status.Status? then Some(status.status) else None,
      if priority.Priority? then Some(priority.priority) else None)
  }

  /** Applying an entry the loop skips leaves a partly patched snapshot as it was. */
  lemma PatchedOnSkip(fs: TaskFields, patch: map<string, Value>, done: set<string>, k: string)
    requires ConvertibleOn(patch, done) && !Patches(k)
    ensures ConvertibleOn(patch, done + {k})
    ensures PatchedOn(fs, patch, done + {k}) == PatchedOn(fs, patch, done)
  {
    var before, after := PatchedOn(fs, patch, done), PatchedOn(fs, patch, done + {k});
    forall g: Field ensures after.Read(g) == before.Read(g) {
      assert Patches(g.Name());
    }
    FieldsExtensional(after, before);
  }

  /** Applying a converted entry to a partly patched snapshot writes exactly its field. */
  lemma PatchedOnWrite(fs: TaskFields, patch: map<string, Value>, done: set<string>, k: string, f: Field)
    requires ConvertibleOn(patch, done) && k in patch && Patches(k) && GetDeclaredField(k) == Some(f)
    requires ConvertValue(patch[k], f.TypeOf()).Ok?
    ensures ConvertibleOn(patch, done + {k})
    ensures PatchedOn(fs, patch, done + {k}) ==
      PatchedOn(fs, patch, done).Write(f, ConvertValue(patch[k], f.TypeOf()).value)
  {
    var written := PatchedOn(fs, patch, done).Write(f, ConvertValue(patch[k], f.TypeOf()).value);
    var after := PatchedOn(fs, patch, done + {k});
    forall g: Field ensures after.Read(g) == written.Read(g) {
      if g != f { assert g.Name() != k; }
    }
    FieldsExtensional(after, written);
  }

  /** The fields after the whole patch has been applied to `fs`. */
  function PatchedFields(fs: TaskFields, patch: map<string, Value>): TaskFields
    requires PatchConvertible(patch)
  {
    PatchedOn(fs, patch, patch.Keys)
  }

  /** A declared field named in the patch receives the converted value; a `null` value clears it. */
  lemma PatchAssignsNamedFields(fs: TaskFields, patch: map<string, Value>, f: Field)
    requires PatchConvertible(patch) && f.Name() in patch
    ensures PatchedFields(fs, patch).Read(f) == ConvertValue(patch[f.Name()], f.TypeOf()).value
    ensures patch[f.Name()].Null? ==> PatchedFields(fs, patch).Read(f).Null?
  {
  }

  /**
    * Fields not named in the patch keep their values, after the whole patch
    * and after any part of it applied before a failing entry.
    */
  lemma PatchKeepsUnnamedFields(fs: TaskFields, patch: map<string, Value>, done: set<string>, f: Field)
    requires ConvertibleOn(patch, done) && f.Name() !in patch
    ensures PatchedOn(fs, patch, done).Read(f) == fs.Read(f)
  {
  }

  /** An empty patch changes no declared field. */
  lemma EmptyPatchChangesNothing(fs: TaskFields)
    ensures PatchConvertible(map[])
    ensures PatchedFields(fs, map[]) == fs
  {
    FieldsExtensional(PatchedFields(fs, map[]), fs);
  }

  /** Keys that are not Task's own fields (`id`, `createdAt`, `updatedAt`, unknown names) are ignored. */
  lemma PatchIgnoresUndeclaredKeys(fs: TaskFields, patch: map<string, Value>, k: string, v: Value)
    requires GetDeclaredField(k).None?
    ensures PatchConvertible(patch[k := v]) <==> PatchConvertible(patch)
    ensures PatchConvertible(patch) ==> PatchedFields(fs, patch[k := v]) == PatchedFields(fs, patch)
  {
    var p := patch[k := v];
    if PatchConvertible(p) {
      forall j | j in patch && Patches(j)
        ensures ConvertValue(patch[j], GetDeclaredField(j).value.TypeOf()).Ok?
      {
        assert j != k && j in p;
      }
    }
    if PatchConvertible(patch) {
      forall f: Field ensures PatchedFields(fs, p).Read(f) == PatchedFields(fs, patch).Read(f) {
        assert f.Name() != k;
      }
      FieldsExtensional(PatchedFields(fs, p), PatchedFields(fs, patch));
    }
  }

  /** A task: Entity's id and timestamps, then Task's own fields; `None` is `null`. */
  class Task {
    var id: Option<string>
    var createdAt: Option<int>
    var updatedAt: Option<int>
    var title: Option<string>
    var description: Option<string>
    var status: Option<TaskStatus>
    var priority: Option<TaskPriority>

    /** The fields `Task` declares itself. */
    function Fields(): TaskFields
      reads this
    {
      TaskFields(title, description, status, priority)
    }

    /** `new Task()`, running `Entity()`: every field is `null`. */
    constructor Empty()
      ensures id.None? && createdAt.None? && updatedAt.None?
      ensures Fields() == TaskFields(None, None, None, None)
    {
      id, createdAt, updatedAt := None, None, None;
      title, description, status, priority := None, None, None, None;
    }

    /** The seven-argument constructor, running `Entity(id, createdAt, updatedAt)`: every argument is stored as given. */
    constructor (id: Option<string>, title: Option<string>, description: Option<string>,
                 status: Option<TaskStatus>, priority: Option<TaskPriority>,
                 createdAt: Option<int>, updatedAt: Option<int>)
      ensures this.id == id && this.createdAt == createdAt && this.updatedAt == updatedAt
      ensures Fields() == TaskFields(title, description, status, priority)
    {
      this.id, this.createdAt, this.updatedAt := id, createdAt, updatedAt;
      this.title, this.description, this.status, this.priority := title, description, status, priority;
    }

    /** `Entity.setId`: no validation, so an empty id is stored too; nothing else changes. */
    method SetId(id: Option<string>)
      modifies this`id
      ensures this.id == id
    {
      this.id := id;
    }

    /** `Entity.setCreatedAt`; nothing else changes. */
    method SetCreatedAt(createdAt: Option<int>)
      modifies this`createdAt
      ensures this.createdAt == createdAt
    {
      this.createdAt := createdAt;
    }

    /** `Entity.setUpdatedAt`; nothing else changes. */
    method SetUpdatedAt(updatedAt: Option<int>)
      modifies this`updatedAt
      ensures this.updatedAt == updatedAt
    {
      this.updatedAt := updatedAt;
    }

    method SetTitle(title: Option<string>)
      modifies this`title
      ensures Fields() == old(Fields()).(title := title)
    {
      this.title := title;
    }

    method SetDescription(description: Option<string>)
      modifies this`description
      ensures Fields() == old(Fields()).(description := description)
    {
      this.description := description;
    }

    method SetStatus(status: Option<TaskStatus>)
      modifies this`status
      ensures Fields() == old(Fields()).(status := status)
    {
      this.status := status;
    }

    method SetPriority(priority: Option<TaskPriority>)
      modifies this`priority
      ensures Fields() == old(Fields()).(priority := priority)
    {
      this.priority := priority;
    }

    /** `field.set(this, v)` on a declared field. */
    method SetField(f: Field, v: Value)
      requires Assignable(v, f.TypeOf())
      modifies this`title, this`description, this`status, this`priority
      ensures Fields() == old(Fields()).Write(f, v)
    {
      match f
      case Title => SetTitle(if v.Str? then Some(v.s) else None);
      case Description => SetDescription(if v.Str? then Some(v.s) else None);
      case StatusField => SetStatus(if v.Status? then Some(v.status) else None);
      case PriorityField => SetPriority(if v.Priority? then Some(v.priority) else None);
    }

    /**
      * The `patchData.forEach` loop shared by `Task.updateFromPatch` and
      * `TaskStore.patch`, in an unspecified key order. It fails exactly when
      * some touched entry does not convert; the fields written before that
      * entry stay written.
      */
    method ApplyPatch(patch: map<string, Value>) returns (error: Option<string>)
      modifies this`title, this`description, this`status, this`priority
      ensures error.None? <==> PatchConvertible(patch)
      ensures error.None? ==> Fields() == PatchedFields(old(Fields()), patch)
      ensures error.Some? ==> exists done ::
        done <= patch.Keys && ConvertibleOn(patch, done) && Fields() == PatchedOn(old(Fields()), patch, done)
    {
      var remaining := patch.Keys;
      ghost var done: set<string> := {};
      while remaining != {}
        invariant done == patch.Keys - remaining && remaining <= patch.Keys
        invariant ConvertibleOn(patch, done)
        invariant Fields() == PatchedOn(old(Fields()), patch, done)
        decreases remaining
      {
        var k :| k in remaining;
        if k != "id" && k != "createdAt" {
          var field := GetDeclaredField(k);
          if field.Some? {
            var converted := ConvertValue(patch[k], field.value.TypeOf());
            if converted.Err? {
              return Some(converted.message);
            }
            SetField(field.value, converted.value);
            PatchedOnWrite(old(Fields()), patch, done, k, field.value);
          } else {
            PatchedOnSkip(old(Fields()), patch, done, k);
          }
        } else {
          PatchedOnSkip(old(Fields()), patch, done, k);
        }
        remaining := remaining - {k};
        done := done + {k};
      }
      return None;
    }

    /** `Task.updateFromPatch`: the patch loop, then `updatedAt := now` (even for an empty patch). */
    method UpdateFromPatch(patch: map<string, Value>, now: int) returns (error: Option<string>)
      modifies this`title, this`description, this`status, this`priority, this`updatedAt
      ensures id == old(id) && createdAt == old(createdAt)
      ensures error.None? <==> PatchConvertible(patch)
      ensures error.None? ==> Fields() == PatchedFields(old(Fields()), patch) && updatedAt == Some(now)
      ensures error.Some? ==> updatedAt == old(updatedAt)
      ensures error.Some? ==> exists done ::
        done <= patch.Keys && ConvertibleOn(patch, done) && Fields() == PatchedOn(old(Fields()), patch, done)
    {
      error := ApplyPatch(patch);
      if error.None? {
        SetUpdatedAt(Some(now));
      }
    }
  }
}
