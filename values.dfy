/**
 * Entity values as the library sees them through reflection: a closed set of
 * field kinds, the `database/sql` null wrappers, and entity records (pointers
 * to structs, whose fields the library reads and, after an insert, writes).
 */
module Values {
  import opened Wrappers

  type Byte = i: int | 0 <= i < 0x100
  type Int16 = i: int | -0x8000 <= i < 0x8000
  type Int32 = i: int | -0x8000_0000 <= i < 0x8000_0000
  type Int64 = i: int | -0x8000_0000_0000_0000 <= i < 0x8000_0000_0000_0000

  /** A `time.Time` as its distance from the zero time: `t.After(time.Time{})` iff it is positive. */
  type Time = int

  /** The shape shared by every `sql.NullX`: a payload and a `Valid` flag. */
  datatype Nullable<T> = Nullable(value: T, valid: bool)

  /** `sql.NullBool`, `sql.NullByte`, `sql.NullInt16/32/64`, `sql.NullFloat64`, `sql.NullString`. */
  datatype NullWrapper =
    | SqlNullBool(b: Nullable<bool>)
    | SqlNullByte(y: Nullable<Byte>)
    | SqlNullInt16(i16: Nullable<Int16>)
    | SqlNullInt32(i32: Nullable<Int32>)
    | SqlNullInt64(i64: Nullable<Int64>)
    | SqlNullFloat64(f: Nullable<real>)
    | SqlNullString(s: Nullable<string>)

  /** A struct field's value, by reflection kind. */
  datatype Value =
    | IntV(i: int)                    // int, int8 … int64
    | UintV(u: nat)                   // uint, uint8 … uint64
    | FloatV(f: real)                 // float32, float64
    | StrV(s: string)
    | BoolV(b: bool)
    | NullV(w: NullWrapper)           // one of the sql.NullX structs above
    | TimeV(t: Time)                  // time.Time
    | NullTimeV(nt: Nullable<Time>)   // sql.NullTime
    | PtrV(target: Option<Value>)     // a pointer; None is nil
    | ListV(items: seq<Value>)        // a slice
    | OtherV(id: nat)                 // any other kind or struct type

  datatype Field = Field(name: string, value: Value)

  /** The value of the first field called `name`, as `reflect.Value.FieldByName`. */
  function Lookup(fields: seq<Field>, name: string): (r: Option<Value>)
    ensures r.Some? <==> exists i :: 0 <= i < |fields| && fields[i].name == name
    ensures r.Some? ==> exists i :: 0 <= i < |fields| && fields[i].name == name && fields[i].value == r.value
  {
    if fields == [] then None
    else if fields[0].name == name then Some(fields[0].value)
    else Lookup(fields[1..], name)
  }

  /** Index of the first field called `name`. */
  function IndexOf(fields: seq<Field>, name: string): (i: int)
    ensures -1 <= i < |fields|
    ensures i >= 0 ==> fields[i].name == name && Lookup(fields, name) == Some(fields[i].value)
    ensures i < 0 <==> Lookup(fields, name).None?
    ensures i >= 0 ==> forall k :: 0 <= k < i ==> fields[k].name != name
  {
    if fields == [] then -1
    else if fields[0].name == name then 0
    else var j := IndexOf(fields[1..], name); if j < 0 then -1 else j + 1
  }

  /** The field names of an entity value, in declaration order. */
  function FieldNames(values: seq<Field>): (r: seq<string>)
    ensures |r| == |values|
    ensures forall k :: 0 <= k < |values| ==> r[k] == values[k].name
  {
    if values == [] then [] else FieldNames(values[..|values| - 1]) + [values[|values| - 1].name]
  }

  /**
   * `FieldByName(f).Interface()`: the value of the first field called `f`. Every name
   * asked for is a field of the entity's own type; any other name reads as `OtherV(0)`.
   */
  function ValueOf(values: seq<Field>, f: string): (v: Value)
    ensures Lookup(values, f).Some? ==> Lookup(values, f) == Some(v)
  {
    match Lookup(values, f)
    case Some(v) => v
    case None => OtherV(0)
  }

  /** The values of some fields of one entity, position by position. */
  function ValuesOf(values: seq<Field>, names: seq<string>): (r: seq<Value>)
    ensures |r| == |names|
    ensures forall k :: 0 <= k < |names| ==> r[k] == ValueOf(values, names[k])
  {
    if names == [] then []
    else ValuesOf(values, names[..|names| - 1]) + [ValueOf(values, names[|names| - 1])]
  }

  /** An entity: a non-nil pointer to a struct of the registered type. */
  class Record {
    const typeName: string
    var fields: seq<Field>

    constructor(typeName: string, fields: seq<Field>)
      ensures this.typeName == typeName && this.fields == fields
    {
      this.typeName := typeName;
      this.fields := fields;
    }
  }
}
