/**
 * Schema validation (src/schema/validator.ts): a walk over a value tree
 * against field and type descriptors that appends diagnostics to one shared
 * error list and keeps the set of custom types being expanded on the current
 * path, so that a type that refers to itself is reported instead of expanded.
 *
 * The specification functions below say which errors each step appends; the
 * `Validator` class performs the walk in place, appending to its `errors`
 * field and adding to and removing from its `visited` field, and each of its
 * methods is proved to append exactly what the matching function says.
 */
module SchemaValidation {
  import opened Wrappers
  import opened Values

  // ---------------------------------------------------------------------------
  // Schemas and diagnostics
  // ---------------------------------------------------------------------------

  datatype PrimitiveBase = Str | U32 | I32 | F64 | BoolBase | OtherBase(name: string)

  datatype SchemaType =
    | Primitive(base: PrimitiveBase)
    | ListType(elementType: Option<SchemaType>)
    | ObjType(fields: Option<seq<SchemaField>>)
    | OtherComplex(baseType: string)
    | Custom(typeName: string)

  datatype SchemaField = SchemaField(name: string, fieldType: SchemaType, constraints: seq<Constraint>)

  /** The constraints this model covers; `bound` is the constraint's numeric value. */
  datatype Constraint =
    | Required
    | Min(bound: real)
    | Max(bound: real)
    | Length(bound: real)
    | Unique
    | NonEmpty
    | Positive
    | Negative
    | IntegerOnly

  datatype CustomType = CustomType(fields: Option<seq<SchemaField>>)

  datatype Schema = Schema(rootFields: seq<SchemaField>, customTypes: map<string, CustomType>)

  /** What a size constraint measured: a string's length, a number, or an array's length. */
  datatype Measured = StringLength | NumberValue | ArrayLength

  /** The kind of a diagnostic, with the `expected` / `actual` details that identify it. */
  datatype Issue =
    | RootNotObject(actual: string)
    | RequiredMissing
    | WrongType(expected: string, actual: string)
    | NotAnInteger
    | OutOfRange(expected: string)
    | CircularReference(typeName: string)
    | BelowMinimum(measured: Measured)
    | AboveMaximum(measured: Measured)
    | LengthMismatch(measured: Measured)
    | DuplicateValues(count: nat)
    | EmptyArray
    | NotPositive
    | NotNegative
    | NotIntegerValue

  datatype ValidationError = ValidationError(field: string, issue: Issue)

  datatype ValidationResult = ValidationResult(valid: bool, errors: seq<ValidationError>)

  /** `Array.isArray(v) ? 'array' : typeof v` */
  function Describe(v: Value): (r: string)
    ensures r == "array" <==> v.List?
    ensures r == "object" <==> v.Null? || v.Obj?
  {
    if v.List? then "array" else TypeOf(v)
  }

  /** The decimal spelling of a natural number. */
  function NatToString(n: nat): string
    decreases n
  {
    var digit := "0123456789"[n % 10];
    if n < 10 then [digit] else NatToString(n / 10) + [digit]
  }

  /** `${path}[${idx}]` */
  function IndexPath(path: string, idx: nat): string {
    path + "[" + NatToString(idx) + "]"
  }

  /** `${path}.${name}` */
  function MemberPath(path: string, name: string): string {
    path + "." + name
  }

  const MaxU32: int := 0xFFFF_FFFF
  const MinI32: int := -0x8000_0000
  const MaxI32: int := 0x7FFF_FFFF

  // ---------------------------------------------------------------------------
  // validatePrimitiveType and validateConstraint
  // ---------------------------------------------------------------------------

  function OneError(path: string, issue: Issue): seq<ValidationError> {
    [ValidationError(path, issue)]
  }

  /** The errors validatePrimitiveType appends (src/schema/validator.ts:168-263). */
  function PrimitiveErrors(base: PrimitiveBase, value: Value, path: string): (r: seq<ValidationError>)
    ensures |r| <= 1
    ensures forall e | e in r :: e.field == path && e.issue != RequiredMissing
  {
    match base
    case Str => if !value.Str? then OneError(path, WrongType("string", TypeOf(value))) else []
    case U32 =>
      if !value.Num? then OneError(path, WrongType("number", TypeOf(value)))
      else if !value.n.Integer? then OneError(path, NotAnInteger)
      else if value.n.i < 0 || value.n.i > MaxU32 then OneError(path, OutOfRange("0-4294967295"))
      else []
    case I32 =>
      if !value.Num? then OneError(path, WrongType("number", TypeOf(value)))
      else if !value.n.Integer? then OneError(path, NotAnInteger)
      else if value.n.i < MinI32 || value.n.i > MaxI32 then OneError(path, OutOfRange("-2147483648 to 2147483647"))
      else []
    case F64 => if !value.Num? then OneError(path, WrongType("number", TypeOf(value))) else []
    case BoolBase => if !value.Bool? then OneError(path, WrongType("boolean", TypeOf(value))) else []
    case OtherBase(_) => []
  }

  /** The number of items equal to an earlier item (what the `duplicates` list collects). */
  function DuplicateCount(items: seq<Value>): nat {
    if items == [] then 0
    else
      var last := |items| - 1;
      DuplicateCount(items[..last]) + if items[last] in items[..last] then 1 else 0
  }

  /** Some item occurs twice. */
  predicate HasRepeat(items: seq<Value>) {
    exists i, j :: 0 <= i < j < |items| && items[i] == items[j]
  }

  /** The errors validateConstraint appends (src/schema/validator.ts:268-440). */
  function ConstraintErrors(c: Constraint, value: Value, path: string): (r: seq<ValidationError>)
    ensures |r| <= 1
    ensures forall e | e in r :: e.field == path && e.issue != RequiredMissing
    ensures c.Required? ==> r == []
  {
    match c
    case Required => []
    case Min(bound) =>
      if value.Str? && (|value.s| as real) < bound then OneError(path, BelowMinimum(StringLength))
      else if value.Num? && value.n.AsReal() < bound then OneError(path, BelowMinimum(NumberValue))
      else if value.List? && (|value.items| as real) < bound then OneError(path, BelowMinimum(ArrayLength))
      else []
    case Max(bound) =>
      if value.Str? && (|value.s| as real) > bound then OneError(path, AboveMaximum(StringLength))
      else if value.Num? && value.n.AsReal() > bound then OneError(path, AboveMaximum(NumberValue))
      else if value.List? && (|value.items| as real) > bound then OneError(path, AboveMaximum(ArrayLength))
      else []
    case Unique =>
      if value.List? && DuplicateCount(value.items) > 0 then OneError(path, DuplicateValues(DuplicateCount(value.items)))
      else []
    case NonEmpty => if value.List? && |value.items| == 0 then OneError(path, EmptyArray) else []
    case Positive => if value.Num? && value.n.AsReal() <= 0.0 then OneError(path, NotPositive) else []
    case Negative => if value.Num? && value.n.AsReal() >= 0.0 then OneError(path, NotNegative) else []
    case IntegerOnly => if value.Num? && !value.n.Integer? then OneError(path, NotIntegerValue) else []
    case Length(bound) =>
      if value.Str? && (|value.s| as real) != bound then OneError(path, LengthMismatch(StringLength))
      else if value.List? && (|value.items| as real) != bound then OneError(path, LengthMismatch(ArrayLength))
      else []
  }

  /** The errors of the first `n` constraints, checked in order. */
  function ConstraintsErrors(cs: seq<Constraint>, value: Value, path: string, n: nat): seq<ValidationError>
    requires n <= |cs|
  {
    if n == 0 then [] else ConstraintsErrors(cs, value, path, n - 1) + ConstraintErrors(cs[n - 1], value, path)
  }

  // ---------------------------------------------------------------------------
  // validateField and validateType
  // ---------------------------------------------------------------------------

  /** How many custom types could still be expanded on this path. */
  function Unvisited(schema: Schema, visited: set<string>): nat {
    |schema.customTypes.Keys - visited|
  }

  lemma VisitShrinks(schema: Schema, visited: set<string>, name: string)
    requires name in schema.customTypes && name !in visited
    ensures Unvisited(schema, visited + {name}) < Unvisited(schema, visited)
  {
    var keys := schema.customTypes.Keys;
    assert keys - visited == (keys - (visited + {name})) + {name};
  }

  /** The errors validateField appends (src/schema/validator.ts:57-87). */
  function FieldErrors(schema: Schema, field: SchemaField, value: Option<Value>, path: string, visited: set<string>)
    : seq<ValidationError>
    decreases OptSize(value), Unvisited(schema, visited), 2, 0
  {
    if Required in field.constraints && (value.None? || value.value.Null?) then OneError(path, RequiredMissing)
    else if value.None? || value.value.Null? then []
    else
      TypeErrors(schema, field.fieldType, value.value, path, visited) +
      ConstraintsErrors(field.constraints, value.value, path, |field.constraints|)
  }

  /** The errors validateType appends (src/schema/validator.ts:93-163). */
  function TypeErrors(schema: Schema, t: SchemaType, value: Value, path: string, visited: set<string>)
    : seq<ValidationError>
    decreases Size(value), Unvisited(schema, visited), 1, 0
  {
    match t
    case Primitive(base) => PrimitiveErrors(base, value, path)
    case ListType(elementType) =>
      if !value.List? then OneError(path, WrongType("array", TypeOf(value)))
      else if elementType.None? then []
      else ItemsErrors(schema, elementType.value, value.items, path, visited, |value.items|)
    case ObjType(fields) =>
      if !value.Obj? then OneError(path, WrongType("object", Describe(value)))
      else if fields.None? then []
      else FieldsErrors(schema, fields.value, value.entries, path, visited, |fields.value|)
    case OtherComplex(_) => []
    case Custom(name) =>
      if name in visited then OneError(path, CircularReference(name))
      else if name in schema.customTypes && schema.customTypes[name].fields.Some? then
        VisitShrinks(schema, visited, name);
        TypeErrors(schema, ObjType(schema.customTypes[name].fields), value, path, visited + {name})
      else []
  }

  /** The errors of the first `n` elements of a list, each at `path[idx]`. */
  function ItemsErrors(schema: Schema, elementType: SchemaType, items: seq<Value>, path: string,
                       visited: set<string>, n: nat): seq<ValidationError>
    requires n <= |items|
    decreases Size(List(items)), Unvisited(schema, visited), 0, n
  {
    if n == 0 then []
    else
      ItemSmaller(items, n - 1);
      ItemsErrors(schema, elementType, items, path, visited, n - 1) +
      TypeErrors(schema, elementType, items[n - 1], IndexPath(path, n - 1), visited)
  }

  /** The errors of the first `n` fields of an object type, each at `path.name`. */
  function FieldsErrors(schema: Schema, fields: seq<SchemaField>, entries: Entries, path: string,
                        visited: set<string>, n: nat): seq<ValidationError>
    requires n <= |fields|
    decreases Size(Obj(entries)), Unvisited(schema, visited), 0, n
  {
    if n == 0 then []
    else
      var field := fields[n - 1];
      LookupSmaller(entries, field.name);
      FieldsErrors(schema, fields, entries, path, visited, n - 1) +
      FieldErrors(schema, field, Lookup(entries, field.name), MemberPath(path, field.name), visited)
  }

  // ---------------------------------------------------------------------------
  // validateTONL
  // ---------------------------------------------------------------------------

  /** The errors of the first `n` root fields, each at its own name with a fresh visited set. */
  function RootErrors(schema: Schema, entries: Entries, n: nat): seq<ValidationError>
    requires n <= |schema.rootFields|
  {
    if n == 0 then []
    else
      var field := schema.rootFields[n - 1];
      RootErrors(schema, entries, n - 1) + FieldErrors(schema, field, Lookup(entries, field.name), field.name, {})
  }

  /** What validateTONL returns (src/schema/validator.ts:18-51). */
  function ValidateTONLSpec(data: Value, schema: Schema): (r: ValidationResult)
    ensures r.valid <==> r.errors == []
  {
    var errors :=
      if |schema.rootFields| > 0 && !data.Obj? then OneError("root", RootNotObject(Describe(data)))
      else if data.Obj? then RootErrors(schema, data.entries, |schema.rootFields|)
      else [];
    ValidationResult(|errors| == 0, errors)
  }

  // ---------------------------------------------------------------------------
  // Properties of the specification
  // ---------------------------------------------------------------------------

  /** A `u32` field accepts exactly the integers 0 .. 2^32-1. */
  lemma U32Range(v: Value, path: string)
    ensures PrimitiveErrors(U32, v, path) == [] <==> v.Num? && v.n.Integer? && 0 <= v.n.i < 0x1_0000_0000
  {
  }

  /** An `i32` field accepts exactly the integers -2^31 .. 2^31-1. */
  lemma I32Range(v: Value, path: string)
    ensures PrimitiveErrors(I32, v, path) == [] <==> v.Num? && v.n.Integer? && -0x8000_0000 <= v.n.i < 0x8000_0000
  {
  }

  /** A missing or null required field yields one error and nothing is checked further. */
  lemma RequiredMissingOnly(schema: Schema, field: SchemaField, value: Option<Value>, path: string, visited: set<string>)
    requires Required in field.constraints
    ensures (value.None? || value.value.Null?) <==>
            FieldErrors(schema, field, value, path, visited) == [ValidationError(path, RequiredMissing)]
  {
    FieldErrorsIssues(schema, field, value, path, visited);
  }

  /** A missing or null optional field is not checked at all. */
  lemma OptionalMissingSkipped(schema: Schema, field: SchemaField, value: Option<Value>, path: string, visited: set<string>)
    requires Required !in field.constraints
    requires value.None? || value.value.Null?
    ensures FieldErrors(schema, field, value, path, visited) == []
  {
  }

  /** `RequiredMissing` is only ever reported by the presence check of validateField. */
  lemma FieldErrorsIssues(schema: Schema, field: SchemaField, value: Option<Value>, path: string, visited: set<string>)
    ensures value.Some? && !value.value.Null? ==>
            forall e | e in FieldErrors(schema, field, value, path, visited) :: e.issue != RequiredMissing || e.field != path
    ensures value.Some? && !value.value.Null? ==>
            FieldErrors(schema, field, value, path, visited) != [ValidationError(path, RequiredMissing)]
  {
    if value.Some? && !value.value.Null? {
      var v := value.value;
      TypeErrorsUnder(schema, field.fieldType, v, path, visited);
      ConstraintsNoRequired(field.constraints, v, path, |field.constraints|);
    }
  }

  lemma {:induction false} ConstraintsNoRequired(cs: seq<Constraint>, value: Value, path: string, n: nat)
    requires n <= |cs|
    ensures forall e | e in ConstraintsErrors(cs, value, path, n) :: e.field == path && e.issue != RequiredMissing
  {
    if n > 0 {
      ConstraintsNoRequired(cs, value, path, n - 1);
    }
  }

  /** Each constraint contributes at most one error. */
  lemma {:induction false} ConstraintsAtMostOneEach(cs: seq<Constraint>, value: Value, path: string, n: nat)
    requires n <= |cs|
    ensures |ConstraintsErrors(cs, value, path, n)| <= n
  {
    if n > 0 {
      ConstraintsAtMostOneEach(cs, value, path, n - 1);
    }
  }

  /**
   * Every error lies under the path it was found at: `RequiredMissing` lies at a
   * field's own path and every other issue at the path itself or below it
   * (`path.name`, `path[idx]`). Circular references are reported where the
   * repeated type is met.
   */
  lemma {:induction false} FieldErrorsUnderPath(schema: Schema, field: SchemaField, value: Option<Value>, path: string,
                                                 visited: set<string>)
    ensures forall e | e in FieldErrors(schema, field, value, path, visited) :: path <= e.field
    decreases OptSize(value), Unvisited(schema, visited), 2, 0
  {
    if value.Some? && !value.value.Null? {
      TypeErrorsUnder(schema, field.fieldType, value.value, path, visited);
      ConstraintsNoRequired(field.constraints, value.value, path, |field.constraints|);
    }
  }

  /** Every error lies at `path` or below it, and a missing required field lies strictly below it. */
  predicate Under(errs: seq<ValidationError>, path: string) {
    forall e | e in errs :: path <= e.field && (e.issue == RequiredMissing ==> path < e.field)
  }

  /** Every error lies strictly below `path`. */
  predicate Below(errs: seq<ValidationError>, path: string) {
    forall e | e in errs :: path < e.field
  }

  lemma {:induction false} TypeErrorsUnder(schema: Schema, t: SchemaType, value: Value, path: string, visited: set<string>)
    ensures Under(TypeErrors(schema, t, value, path, visited), path)
    decreases Size(value), Unvisited(schema, visited), 1, 0
  {
    match t
    case Primitive(base) =>
    case ListType(elementType) =>
      if value.List? && elementType.Some? {
        ListTypeUnfold(schema, elementType.value, value.items, path, visited);
        ItemsErrorsUnder(schema, elementType.value, value.items, path, visited, |value.items|);
        BelowIsUnder(TypeErrors(schema, t, value, path, visited), path);
      }
    case ObjType(fields) =>
      if value.Obj? && fields.Some? {
        ObjTypeUnfold(schema, fields.value, value.entries, path, visited);
        FieldsErrorsUnder(schema, fields.value, value.entries, path, visited, |fields.value|);
        BelowIsUnder(TypeErrors(schema, t, value, path, visited), path);
      }
    case OtherComplex(_) =>
    case Custom(name) =>
      if name !in visited && name in schema.customTypes && schema.customTypes[name].fields.Some? {
        VisitShrinks(schema, visited, name);
        CustomExpands(schema, name, value, path, visited);
        TypeErrorsUnder(schema, ObjType(schema.customTypes[name].fields), value, path, visited + {name});
      }
  }

  lemma BelowIsUnder(errs: seq<ValidationError>, path: string)
    requires Below(errs, path)
    ensures Under(errs, path)
  {
  }

  lemma ListTypeUnfold(schema: Schema, elementType: SchemaType, items: seq<Value>, path: string, visited: set<string>)
    ensures TypeErrors(schema, ListType(Some(elementType)), List(items), path, visited) ==
            ItemsErrors(schema, elementType, items, path, visited, |items|)
  {
  }

  lemma ObjTypeUnfold(schema: Schema, fields: seq<SchemaField>, entries: Entries, path: string, visited: set<string>)
    ensures TypeErrors(schema, ObjType(Some(fields)), Obj(entries), path, visited) ==
            FieldsErrors(schema, fields, entries, path, visited, |fields|)
  {
  }

  lemma {:induction false} ItemsErrorsUnder(schema: Schema, elementType: SchemaType, items: seq<Value>, path: string,
                                            visited: set<string>, n: nat)
    requires n <= |items|
    ensures Below(ItemsErrors(schema, elementType, items, path, visited, n), path)
    decreases Size(List(items)), Unvisited(schema, visited), 0, n
  {
    if n > 0 {
      ItemsErrorsUnder(schema, elementType, items, path, visited, n - 1);
      ItemSmaller(items, n - 1);
      var sub := IndexPath(path, n - 1);
      TypeErrorsUnder(schema, elementType, items[n - 1], sub, visited);
      ExtendedPath(path, "[" + NatToString(n - 1) + "]");
      forall e | e in TypeErrors(schema, elementType, items[n - 1], sub, visited)
        ensures path < e.field
      {
        PrefixTrans(path, sub, e.field);
      }
    }
  }

  lemma {:induction false} FieldsErrorsUnder(schema: Schema, fields: seq<SchemaField>, entries: Entries, path: string,
                                             visited: set<string>, n: nat)
    requires n <= |fields|
    ensures Below(FieldsErrors(schema, fields, entries, path, visited, n), path)
    decreases Size(Obj(entries)), Unvisited(schema, visited), 0, n
  {
    if n > 0 {
      FieldsErrorsUnder(schema, fields, entries, path, visited, n - 1);
      var field := fields[n - 1];
      LookupSmaller(entries, field.name);
      var sub := MemberPath(path, field.name);
      FieldErrorsUnderPath(schema, field, Lookup(entries, field.name), sub, visited);
      ExtendedPath(path, "." + field.name);
      forall e | e in FieldErrors(schema, field, Lookup(entries, field.name), sub, visited)
        ensures path < e.field
      {
        PrefixTrans(path, sub, e.field);
      }
    }
  }

  lemma ItemsErrorsStep(schema: Schema, elementType: SchemaType, items: seq<Value>, path: string,
                        visited: set<string>, n: nat)
    requires n < |items|
    ensures ItemsErrors(schema, elementType, items, path, visited, n + 1) ==
            ItemsErrors(schema, elementType, items, path, visited, n) +
            TypeErrors(schema, elementType, items[n], IndexPath(path, n), visited)
  {
  }

  lemma FieldsErrorsStep(schema: Schema, fields: seq<SchemaField>, entries: Entries, path: string,
                         visited: set<string>, n: nat)
    requires n < |fields|
    ensures FieldsErrors(schema, fields, entries, path, visited, n + 1) ==
            FieldsErrors(schema, fields, entries, path, visited, n) +
            FieldErrors(schema, fields[n], Lookup(entries, fields[n].name), MemberPath(path, fields[n].name), visited)
  {
  }

  lemma FieldErrorsPresent(schema: Schema, field: SchemaField, value: Option<Value>, path: string, visited: set<string>)
    requires value.Some? && !value.value.Null?
    ensures FieldErrors(schema, field, value, path, visited) ==
            TypeErrors(schema, field.fieldType, value.value, path, visited) +
            ConstraintsErrors(field.constraints, value.value, path, |field.constraints|)
  {
  }

  lemma AppendAssoc<T>(a: seq<T>, b: seq<T>, c: seq<T>)
    ensures a + b + c == a + (b + c)
  {
  }

  lemma ExtendedPath(path: string, suffix: string)
    requires |suffix| > 0
    ensures path < path + suffix
  {
    assert (path + suffix)[..|path|] == path;
  }

  lemma PrefixTrans(a: string, b: string, c: string)
    requires a < b && b <= c
    ensures a < c
  {
    assert c[..|b|][..|a|] == c[..|a|];
  }

  /** A list or object type met by a value of another kind yields exactly one error, and nothing below it is checked. */
  lemma ShapeMismatchOneError(schema: Schema, t: SchemaType, value: Value, path: string, visited: set<string>)
    requires (t.ListType? && !value.List?) || (t.ObjType? && !value.Obj?)
    ensures |TypeErrors(schema, t, value, path, visited)| == 1
    ensures TypeErrors(schema, t, value, path, visited)[0] ==
            ValidationError(path, WrongType(if t.ListType? then "array" else "object", Describe(value)))
  {
  }

  /** A custom type already being expanded on this path is reported once, at the path where it recurs. */
  lemma CircularReported(schema: Schema, name: string, value: Value, path: string, visited: set<string>)
    requires name in visited
    ensures TypeErrors(schema, Custom(name), value, path, visited) == [ValidationError(path, CircularReference(name))]
  {
  }

  /** A custom type that is not declared, or declares no fields, accepts every value. */
  lemma UndeclaredCustomAccepts(schema: Schema, name: string, value: Value, path: string, visited: set<string>)
    requires name !in visited
    requires name !in schema.customTypes || schema.customTypes[name].fields.None?
    ensures TypeErrors(schema, Custom(name), value, path, visited) == []
  {
  }

  /** A declared custom type checks the value as an object with its fields, with itself marked as visited. */
  lemma CustomExpands(schema: Schema, name: string, value: Value, path: string, visited: set<string>)
    requires name !in visited && name in schema.customTypes && schema.customTypes[name].fields.Some?
    ensures TypeErrors(schema, Custom(name), value, path, visited) ==
            TypeErrors(schema, ObjType(schema.customTypes[name].fields), value, path, visited + {name})
  {
  }

  /**
   * A recursive type is reported as circular as soon as a value nests one
   * level deep, although the value itself is finite: a `Node` whose `next`
   * field is again a `Node`, checked against `{next: {}}`.
   */
  lemma RecursiveTypeNestedValue()
    ensures var node := SchemaField("next", Custom("Node"), []);
            var schema := Schema([], map["Node" := CustomType(Some([node]))]);
            TypeErrors(schema, Custom("Node"), Obj([("next", Obj([]))]), "n", {}) ==
              [ValidationError("n.next", CircularReference("Node"))]
  {
    var node := SchemaField("next", Custom("Node"), []);
    var schema := Schema([], map["Node" := CustomType(Some([node]))]);
    var inner := Obj([]);
    var outer := Obj([("next", inner)]);
    assert Lookup(outer.entries, "next") == Some(inner);
    assert MemberPath("n", "next") == "n.next";
    assert TypeErrors(schema, Custom("Node"), inner, "n.next", {"Node"}) ==
           [ValidationError("n.next", CircularReference("Node"))];
    assert FieldErrors(schema, node, Some(inner), "n.next", {"Node"}) ==
           [ValidationError("n.next", CircularReference("Node"))];
    assert FieldsErrors(schema, [node], outer.entries, "n", {"Node"}, 1) ==
           [ValidationError("n.next", CircularReference("Node"))];
    assert {} + {"Node"} == {"Node"};
  }

  /** There are duplicates exactly when some item occurs twice. */
  lemma {:induction false} DuplicateCountPositive(items: seq<Value>)
    ensures DuplicateCount(items) > 0 <==> HasRepeat(items)
  {
    if items != [] {
      var last := |items| - 1;
      var init := items[..last];
      DuplicateCountPositive(init);
      if HasRepeat(init) {
        var i, j :| 0 <= i < j < |init| && init[i] == init[j];
        assert items[i] == items[j];
      }
      if items[last] in init {
        var i :| 0 <= i < |init| && init[i] == items[last];
        assert items[i] == items[last];
      }
      if HasRepeat(items) {
        var i, j :| 0 <= i < j < |items| && items[i] == items[j];
        if j < last {
          assert init[i] == init[j];
        } else {
          assert init[i] == items[last];
        }
      }
    }
  }

  /** The `unique` constraint rejects a list exactly when some item occurs twice. */
  lemma UniqueRejectsRepeats(items: seq<Value>, path: string)
    ensures ConstraintErrors(Unique, List(items), path) != [] <==> HasRepeat(items)
  {
    DuplicateCountPositive(items);
  }

  /** What `min` and `max` compare: a string's length, a number, an array's length. */
  function Magnitude(v: Value): Option<real> {
    match v
    case Str(s) => Some(|s| as real)
    case Num(n) => Some(n.AsReal())
    case List(items) => Some(|items| as real)
    case _ => None
  }

  /** `min` and `max` reject exactly the values whose magnitude lies beyond the bound; other kinds pass. */
  lemma BoundsCompareMagnitude(bound: real, v: Value, path: string)
    ensures ConstraintErrors(Min(bound), v, path) != [] <==> Magnitude(v).Some? && Magnitude(v).value < bound
    ensures ConstraintErrors(Max(bound), v, path) != [] <==> Magnitude(v).Some? && Magnitude(v).value > bound
  {
  }

  /** `length` compares the length of strings and arrays only; a number never fails it. */
  lemma LengthIgnoresNumbers(bound: real, v: Value, path: string)
    ensures ConstraintErrors(Length(bound), v, path) != [] <==>
            (v.Str? || v.List?) && Magnitude(v).value != bound
  {
  }

  /** A schema with fields rejects a data root that is not an object with that one error alone. */
  lemma RootMismatchOnly(data: Value, schema: Schema)
    requires |schema.rootFields| > 0 && !data.Obj?
    ensures ValidateTONLSpec(data, schema) ==
            ValidationResult(false, [ValidationError("root", RootNotObject(Describe(data)))])
  {
  }

  /** A schema without root fields accepts every document. */
  lemma NoRootFieldsAcceptsAll(data: Value, schema: Schema)
    requires |schema.rootFields| == 0
    ensures ValidateTONLSpec(data, schema).valid
  {
  }

  /** Each root field is reported under its own name. */
  lemma {:induction false} RootErrorsUnderFields(schema: Schema, entries: Entries, n: nat)
    requires n <= |schema.rootFields|
    ensures forall e | e in RootErrors(schema, entries, n) ::
              exists k :: 0 <= k < n && schema.rootFields[k].name <= e.field
  {
    if n > 0 {
      RootErrorsUnderFields(schema, entries, n - 1);
      var field := schema.rootFields[n - 1];
      FieldErrorsUnderPath(schema, field, Lookup(entries, field.name), field.name, {});
    }
  }

  /** A schema with one root field `age: u32` carrying `min: 18`. */
  const AgeSchema := Schema([SchemaField("age", Primitive(U32), [Min(18.0)])], map[])

  /** Twelve is below the minimum. */
  lemma AgeTooSmall()
    ensures ValidateTONLSpec(Obj([("age", Num(Integer(12)))]), AgeSchema) ==
            ValidationResult(false, [ValidationError("age", BelowMinimum(NumberValue))])
  {
    assert Lookup([("age", Num(Integer(12)))], "age") == Some(Num(Integer(12)));
  }

  /** Thirty passes both checks. */
  lemma AgeAccepted()
    ensures ValidateTONLSpec(Obj([("age", Num(Integer(30)))]), AgeSchema).valid
  {
    assert Lookup([("age", Num(Integer(30)))], "age") == Some(Num(Integer(30)));
  }

  /** An absent optional field is not checked. */
  lemma AgeAbsent()
    ensures ValidateTONLSpec(Obj([]), AgeSchema).valid
  {
    assert Lookup([], "age") == None;
    assert RootErrors(AgeSchema, [], 1) == [];
  }

  /** Minus one fails the type's range and the minimum, reported in that order. */
  lemma AgeNegative()
    ensures ValidateTONLSpec(Obj([("age", Num(Integer(-1)))]), AgeSchema).errors ==
            [ValidationError("age", OutOfRange("0-4294967295")), ValidationError("age", BelowMinimum(NumberValue))]
  {
    assert Lookup([("age", Num(Integer(-1)))], "age") == Some(Num(Integer(-1)));
  }

  // ---------------------------------------------------------------------------
  // The walk, performed in place
  // ---------------------------------------------------------------------------

  /** The `unique` constraint's scan: a `seen` set and a count of repeats. */
  method CountDuplicates(items: seq<Value>) returns (count: nat)
    ensures count == DuplicateCount(items)
  {
    var seen: set<Value> := {};
    count := 0;
    var i := 0;
    while i < |items|
      invariant i <= |items|
      invariant seen == set k | 0 <= k < i :: items[k]
      invariant count == DuplicateCount(items[..i])
    {
      assert items[..i + 1][..i] == items[..i];
      assert items[i] in items[..i] <==> items[i] in seen by {
        if items[i] in items[..i] {
          var k :| 0 <= k < i && items[..i][k] == items[i];
          assert items[k] == items[i];
        }
      }
      if items[i] in seen {
        count := count + 1;
      }
      seen := seen + {items[i]};
      i := i + 1;
    }
    assert items[..i] == items;
  }

  /** The shared state of one validation: the error list and the custom types on the current path. */
  class Validator {
    const schema: Schema
    var errors: seq<ValidationError>
    var visited: set<string>

    constructor(schema: Schema)
      ensures this.schema == schema && errors == [] && visited == {}
    {
      this.schema := schema;
      errors := [];
      visited := {};
    }

    /** validatePrimitiveType (src/schema/validator.ts:168-263). */
    method ValidatePrimitiveType(base: PrimitiveBase, value: Value, path: string)
      modifies this
      ensures errors == old(errors) + PrimitiveErrors(base, value, path)
      ensures visited == old(visited)
    {
      match base
      case Str =>
        if !value.Str? {
          errors := errors + [ValidationError(path, WrongType("string", TypeOf(value)))];
        }
      case U32 =>
        if !value.Num? {
          errors := errors + [ValidationError(path, WrongType("number", TypeOf(value)))];
        } else if !value.n.Integer? {
          errors := errors + [ValidationError(path, NotAnInteger)];
        } else if value.n.i < 0 || value.n.i > MaxU32 {
          errors := errors + [ValidationError(path, OutOfRange("0-4294967295"))];
        }
      case I32 =>
        if !value.Num? {
          errors := errors + [ValidationError(path, WrongType("number", TypeOf(value)))];
        } else if !value.n.Integer? {
          errors := errors + [ValidationError(path, NotAnInteger)];
        } else if value.n.i < MinI32 || value.n.i > MaxI32 {
          errors := errors + [ValidationError(path, OutOfRange("-2147483648 to 2147483647"))];
        }
      case F64 =>
        if !value.Num? {
          errors := errors + [ValidationError(path, WrongType("number", TypeOf(value)))];
        }
      case BoolBase =>
        if !value.Bool? {
          errors := errors + [ValidationError(path, WrongType("boolean", TypeOf(value)))];
        }
      case OtherBase(_) =>
    }

    /** validateConstraint (src/schema/validator.ts:268-440). */
    method ValidateConstraint(c: Constraint, value: Value, path: string)
      modifies this
      ensures errors == old(errors) + ConstraintErrors(c, value, path)
      ensures visited == old(visited)
    {
      match c
      case Required =>
      case Min(bound) =>
        if value.Str? && (|value.s| as real) < bound {
          errors := errors + [ValidationError(path, BelowMinimum(StringLength))];
        } else if value.Num? && value.n.AsReal() < bound {
          errors := errors + [ValidationError(path, BelowMinimum(NumberValue))];
        } else if value.List? && (|value.items| as real) < bound {
          errors := errors + [ValidationError(path, BelowMinimum(ArrayLength))];
        }
      case Max(bound) =>
        if value.Str? && (|value.s| as real) > bound {
          errors := errors + [ValidationError(path, AboveMaximum(StringLength))];
        } else if value.Num? && value.n.AsReal() > bound {
          errors := errors + [ValidationError(path, AboveMaximum(NumberValue))];
        } else if value.List? && (|value.items| as real) > bound {
          errors := errors + [ValidationError(path, AboveMaximum(ArrayLength))];
        }
      case Unique =>
        if value.List? {
          var duplicates := CountDuplicates(value.items);
          if duplicates > 0 {
            errors := errors + [ValidationError(path, DuplicateValues(duplicates))];
          }
        }
      case NonEmpty =>
        if value.List? && |value.items| == 0 {
          errors := errors + [ValidationError(path, EmptyArray)];
        }
      case Positive =>
        if value.Num? && value.n.AsReal() <= 0.0 {
          errors := errors + [ValidationError(path, NotPositive)];
        }
      case Negative =>
        if value.Num? && value.n.AsReal() >= 0.0 {
          errors := errors + [ValidationError(path, NotNegative)];
        }
      case IntegerOnly =>
        if value.Num? && !value.n.Integer? {
          errors := errors + [ValidationError(path, NotIntegerValue)];
        }
      case Length(bound) =>
        if value.Str? && (|value.s| as real) != bound {
          errors := errors + [ValidationError(path, LengthMismatch(StringLength))];
        } else if value.List? && (|value.items| as real) != bound {
          errors := errors + [ValidationError(path, LengthMismatch(ArrayLength))];
        }
    }

    /** validateField (src/schema/validator.ts:57-87). */
    method ValidateField(field: SchemaField, value: Option<Value>, path: string)
      modifies this
      ensures errors == old(errors) + FieldErrors(schema, field, value, path, old(visited))
      ensures visited == old(visited)
      decreases OptSize(value), Unvisited(schema, visited), 2, 0
    {
      var isRequired := Required in field.constraints;
      if isRequired && (value.None? || value.value.Null?) {
        errors := errors + [ValidationError(path, RequiredMissing)];
        return;
      }
      if value.None? || value.value.Null? {
        return;
      }
      FieldErrorsPresent(schema, field, value, path, visited);
      ValidateType(field.fieldType, value.value, path);
      ghost var afterType := errors;
      var i := 0;
      while i < |field.constraints|
        invariant i <= |field.constraints|
        invariant errors == afterType + ConstraintsErrors(field.constraints, value.value, path, i)
        invariant visited == old(visited)
      {
        ghost var done := ConstraintsErrors(field.constraints, value.value, path, i);
        ghost var next := ConstraintErrors(field.constraints[i], value.value, path);
        ValidateConstraint(field.constraints[i], value.value, path);
        AppendAssoc(afterType, done, next);
        i := i + 1;
      }
      AppendAssoc(old(errors), TypeErrors(schema, field.fieldType, value.value, path, visited),
                  ConstraintsErrors(field.constraints, value.value, path, |field.constraints|));
    }

    /** validateType (src/schema/validator.ts:93-163). */
    method ValidateType(t: SchemaType, value: Value, path: string)
      modifies this
      ensures errors == old(errors) + TypeErrors(schema, t, value, path, old(visited))
      ensures visited == old(visited)
      decreases Size(value), Unvisited(schema, visited), 1, 0
    {
      match t
      case Primitive(base) =>
        ValidatePrimitiveType(base, value, path);
      case ListType(elementType) =>
        if !value.List? {
          errors := errors + [ValidationError(path, WrongType("array", TypeOf(value)))];
        } else if elementType.Some? {
          ValidateItems(elementType.value, value.items, path);
        }
      case ObjType(fields) =>
        if !value.Obj? {
          errors := errors + [ValidationError(path, WrongType("object", Describe(value)))];
        } else if fields.Some? {
          ValidateFields(fields.value, value.entries, path);
        }
      case OtherComplex(_) =>
      case Custom(name) =>
        if name in visited {
          errors := errors + [ValidationError(path, CircularReference(name))];
          return;
        }
        visited := visited + {name};
        if name in schema.customTypes && schema.customTypes[name].fields.Some? {
          VisitShrinks(schema, old(visited), name);
          ValidateType(ObjType(schema.customTypes[name].fields), value, path);
        }
        visited := visited - {name};
    }

    /** The `forEach` over a list's items in validateType (src/schema/validator.ts:113-115). */
    method ValidateItems(elementType: SchemaType, items: seq<Value>, path: string)
      modifies this
      ensures errors == old(errors) + ItemsErrors(schema, elementType, items, path, old(visited), |items|)
      ensures visited == old(visited)
      decreases Size(List(items)), Unvisited(schema, visited), 0, 0
    {
      var idx := 0;
      while idx < |items|
        invariant idx <= |items|
        invariant errors == old(errors) + ItemsErrors(schema, elementType, items, path, visited, idx)
        invariant visited == old(visited)
      {
        ItemSmaller(items, idx);
        ghost var done := ItemsErrors(schema, elementType, items, path, visited, idx);
        ghost var item := TypeErrors(schema, elementType, items[idx], IndexPath(path, idx), visited);
        ItemsErrorsStep(schema, elementType, items, path, visited, idx);
        ValidateType(elementType, items[idx], IndexPath(path, idx));
        AppendAssoc(old(errors), done, item);
        idx := idx + 1;
      }
    }

    /** The loop over an object type's fields in validateType (src/schema/validator.ts:127-130). */
    method ValidateFields(fields: seq<SchemaField>, entries: Entries, path: string)
      modifies this
      ensures errors == old(errors) + FieldsErrors(schema, fields, entries, path, old(visited), |fields|)
      ensures visited == old(visited)
      decreases Size(Obj(entries)), Unvisited(schema, visited), 0, 0
    {
      var i := 0;
      while i < |fields|
        invariant i <= |fields|
        invariant errors == old(errors) + FieldsErrors(schema, fields, entries, path, visited, i)
        invariant visited == old(visited)
      {
        var field := fields[i];
        LookupSmaller(entries, field.name);
        ghost var done := FieldsErrors(schema, fields, entries, path, visited, i);
        ghost var next := FieldErrors(schema, field, Lookup(entries, field.name), MemberPath(path, field.name), visited);
        FieldsErrorsStep(schema, fields, entries, path, visited, i);
        ValidateField(field, Lookup(entries, field.name), MemberPath(path, field.name));
        AppendAssoc(old(errors), done, next);
        i := i + 1;
      }
    }
  }

  /** validateTONL (src/schema/validator.ts:18-51). */
  method ValidateTONL(data: Value, schema: Schema) returns (r: ValidationResult)
    ensures r == ValidateTONLSpec(data, schema)
  {
    var v := new Validator(schema);
    if |schema.rootFields| > 0 && !data.Obj? {
      v.errors := v.errors + [ValidationError("root", RootNotObject(Describe(data)))];
      return ValidationResult(false, v.errors);
    }
    if data.Obj? {
      var i := 0;
      while i < |schema.rootFields|
        invariant i <= |schema.rootFields|
        invariant v.errors == RootErrors(schema, data.entries, i)
        invariant v.visited == {}
      {
        var field := schema.rootFields[i];
        v.ValidateField(field, Lookup(data.entries, field.name), field.name);
        i := i + 1;
      }
    }
    return ValidationResult(|v.errors| == 0, v.errors);
  }
}
