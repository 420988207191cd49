/** The automatic-UI fields a render content declares: typed, named value
    slots, looked up by internal name with an ordinal case-insensitive
    comparison, and the typed `TryGetUserInterfaceField` accessors with their
    documented fallback values. */
module ContentFields {
  import opened Wrappers
  import opened Uuids

  /** `RhinoMath.UnsetValue`, the component value of the `Unset` points and vectors. */
  const UnsetValue: real := -1.23432101234321e308

  /** A field's value; the constructor used is the field's .NET class (a
      `Point2d` or `Point3d` is only ever a requested type, never stored). */
  datatype FieldValue =
    | StringValue(text: string)
    | BoolValue(flag: bool)
    | IntValue(n: int)
    | DoubleValue(d: real)
    | ColorValue(red: real, green: real, blue: real, alpha: real)
    | Vector2dValue(x: real, y: real)
    | Vector3dValue(x: real, y: real, z: real)
    | Point2dValue(x: real, y: real)
    | Point3dValue(x: real, y: real, z: real)
    | Point4dValue(x: real, y: real, z: real, w: real)
    | GuidValue(id: Uuid)
    | TransformValue(m: seq<real>)
    | DateTimeValue(ticks: int)

  /** The field classes: `StringField`, `BoolField`, ... */
  datatype FieldClass =
    | StringField | BoolField | IntField | DoubleField | ColorField
    | Vector2dField | Vector3dField | Point4dField | GuidField | TransformField | DateTimeField

  /** The value type named by one `TryGetUserInterfaceField` overload. */
  datatype ValueType =
    | StringType | BoolType | IntType | DoubleType | ColorType
    | Vector2dType | Vector3dType | Point2dType | Point3dType | Point4dType
    | GuidType | TransformType | DateTimeType

  datatype Field = Field(internalName: string, friendlyName: string, value: FieldValue)

  function TypeOf(v: FieldValue): ValueType
  {
    match v
    case StringValue(_) => StringType
    case BoolValue(_) => BoolType
    case IntValue(_) => IntType
    case DoubleValue(_) => DoubleType
    case ColorValue(_, _, _, _) => ColorType
    case Vector2dValue(_, _) => Vector2dType
    case Vector3dValue(_, _, _) => Vector3dType
    case Point2dValue(_, _) => Point2dType
    case Point3dValue(_, _, _) => Point3dType
    case Point4dValue(_, _, _, _) => Point4dType
    case GuidValue(_) => GuidType
    case TransformValue(_) => TransformType
    case DateTimeValue(_) => DateTimeType
  }

  /** The field class each overload casts the found field to: points in two
      and three dimensions are kept in vector fields. */
  function FieldClassFor(t: ValueType): FieldClass
  {
    match t
    case StringType => StringField
    case BoolType => BoolField
    case IntType => IntField
    case DoubleType => DoubleField
    case ColorType => ColorField
    case Vector2dType => Vector2dField
    case Vector3dType => Vector3dField
    case Point2dType => Vector2dField
    case Point3dType => Vector3dField
    case Point4dType => Point4dField
    case GuidType => GuidField
    case TransformType => TransformField
    case DateTimeType => DateTimeField
  }

  function ClassOf(v: FieldValue): FieldClass
  {
    FieldClassFor(TypeOf(v))
  }

  /** The value `AddUserInterfaceField` stores for an initial value: a point
      in two or three dimensions goes into a vector field. */
  function Stored(v: FieldValue): (r: FieldValue)
    ensures ClassOf(r) == ClassOf(v)
    ensures r.Point2dValue? == false && r.Point3dValue? == false
  {
    match v
    case Point2dValue(x, y) => Vector2dValue(x, y)
    case Point3dValue(x, y, z) => Vector3dValue(x, y, z)
    case _ => v
  }

  /** What an overload hands back for a field of the right class: the point
      overloads rebuild a point from the stored vector. */
  function Converted(t: ValueType, v: FieldValue): FieldValue
  {
    match (t, v)
    case (Point2dType, Vector2dValue(x, y)) => Point2dValue(x, y)
    case (Point3dType, Vector3dValue(x, y, z)) => Point3dValue(x, y, z)
    case _ => v
  }

  /** `Transform.Identity`, row by row. */
  const Identity: seq<real> :=
    [1.0, 0.0, 0.0, 0.0,  0.0, 1.0, 0.0, 0.0,  0.0, 0.0, 1.0, 0.0,  0.0, 0.0, 0.0, 1.0]

  /** The documented fallback of each overload: empty string, false, zero,
      `Color4f.Empty`, the `Unset` points and vectors, `Guid.Empty`,
      `Transform.Identity`, and the current time (`now`). */
  function DefaultFor(t: ValueType, now: int): (v: FieldValue)
    ensures TypeOf(v) == t
  {
    match t
    case StringType => StringValue("")
    case BoolType => BoolValue(false)
    case IntType => IntValue(0)
    case DoubleType => DoubleValue(0.0)
    case ColorType => ColorValue(0.0, 0.0, 0.0, 0.0)
    case Vector2dType => Vector2dValue(UnsetValue, UnsetValue)
    case Vector3dType => Vector3dValue(UnsetValue, UnsetValue, UnsetValue)
    case Point2dType => Point2dValue(UnsetValue, UnsetValue)
    case Point3dType => Point3dValue(UnsetValue, UnsetValue, UnsetValue)
    case Point4dType => Point4dValue(UnsetValue, UnsetValue, UnsetValue, UnsetValue)
    case GuidType => GuidValue(NilUuid)
    case TransformType => TransformValue(Identity)
    case DateTimeType => DateTimeValue(now)
  }

  /** Upper-case mapping of one character (ASCII letters only). */
  function UpperAscii(c: char): (u: char)
    ensures 'a' <= c <= 'z' ==> 'A' <= u <= 'Z'
    ensures !('a' <= c <= 'z') ==> u == c
  {
    if 'a' <= c <= 'z' then (c as int - 32) as char else c
  }

  /** `string.Compare(a, b, StringComparison.OrdinalIgnoreCase) == 0`. */
  predicate EqualsIgnoreCase(a: string, b: string)
  {
    |a| == |b| && forall i | 0 <= i < |a| :: UpperAscii(a[i]) == UpperAscii(b[i])
  }

  /** The index of the first field whose internal name matches, if any. */
  function FirstMatch(fields: seq<Field>, name: string): (r: Option<nat>)
    ensures r.Some? ==> r.value < |fields| && EqualsIgnoreCase(name, fields[r.value].internalName)
    ensures r.Some? ==> forall j | 0 <= j < r.value :: !EqualsIgnoreCase(name, fields[j].internalName)
    ensures r.None? ==> forall j | 0 <= j < |fields| :: !EqualsIgnoreCase(name, fields[j].internalName)
  {
    if |fields| == 0 then None
    else if EqualsIgnoreCase(name, fields[0].internalName) then Some(0)
    else match FirstMatch(fields[1..], name)
      case None => None
      case Some(i) => Some(i + 1)
  }

  /** The field `FindField` returns, null when none matches. */
  function FoundField(fields: seq<Field>, name: string): Option<Field>
  {
    match FirstMatch(fields, name)
    case None => None
    case Some(i) => Some(fields[i])
  }

  /** The pair (return value, out value) of the overload for type `t`. */
  function TryGet(fields: seq<Field>, name: string, t: ValueType, now: int): (r: (bool, FieldValue))
    ensures !r.0 ==> r.1 == DefaultFor(t, now)
    ensures r.0 <==> FoundField(fields, name).Some? && ClassOf(FoundField(fields, name).value.value) == FieldClassFor(t)
  {
    match FoundField(fields, name)
    case Some(f) =>
      if ClassOf(f.value) == FieldClassFor(t) then (true, Converted(t, f.value)) else (false, DefaultFor(t, now))
    case None => (false, DefaultFor(t, now))
  }

  /** Every field holds a value of its own class, as `AddUserInterfaceField` stores them. */
  predicate AllStored(fields: seq<Field>)
  {
    forall i | 0 <= i < |fields| :: Stored(fields[i].value) == fields[i].value
  }

  /** Whatever an overload hands back, found or defaulted, has that overload's type. */
  lemma TryGetHasRequestedType(fields: seq<Field>, name: string, t: ValueType, now: int)
    requires AllStored(fields)
    ensures TypeOf(TryGet(fields, name, t, now).1) == t
  {
    if TryGet(fields, name, t, now).0 {
      var i := FirstMatch(fields, name).value;
      assert Stored(fields[i].value) == fields[i].value;
    }
  }

  /** Matching is reflexive, so a freshly added field is found by its own name. */
  lemma EqualsIgnoreCaseReflexive(a: string)
    ensures EqualsIgnoreCase(a, a)
  {
  }

  /** Appending a field leaves the lookup of any name an earlier field already
      matches unchanged, and makes an otherwise unmatched name find the new field. */
  lemma {:induction false} FirstMatchAppend(fields: seq<Field>, f: Field, name: string)
    ensures FirstMatch(fields, name).Some? ==> FirstMatch(fields + [f], name) == FirstMatch(fields, name)
    ensures FirstMatch(fields, name).None? && EqualsIgnoreCase(name, f.internalName) ==>
      FirstMatch(fields + [f], name) == Some(|fields|)
    ensures FirstMatch(fields, name).None? && !EqualsIgnoreCase(name, f.internalName) ==>
      FirstMatch(fields + [f], name).None?
  {
    if |fields| > 0 {
      assert (fields + [f])[1..] == fields[1..] + [f];
      FirstMatchAppend(fields[1..], f, name);
    }
  }

  /** Round trip: after `AddUserInterfaceField(name, friendly, v)` on a content
      with no field of that name, the overload for `v`'s type finds it and
      returns `v` itself. */
  lemma AddThenTryGet(fields: seq<Field>, name: string, friendly: string, v: FieldValue, now: int)
    requires FirstMatch(fields, name).None?
    ensures TryGet(fields + [Field(name, friendly, Stored(v))], name, TypeOf(v), now) == (true, v)
  {
    EqualsIgnoreCaseReflexive(name);
    FirstMatchAppend(fields, Field(name, friendly, Stored(v)), name);
  }
}
