/**
 * Constructors of the `database/sql` null wrappers: each `NullXPtr(v)`
 * allocates a new wrapper holding `v` with `Valid` set, and each `NullX(v)`
 * is the value such a wrapper points to.
 */
module NullTypes {
  import opened Values

  /** A `*sql.NullX`: a heap cell holding a wrapper. */
  class NullBox<T> {
    var v: Nullable<T>

    constructor(v: Nullable<T>)
      ensures this.v == v
    {
      this.v := v;
    }
  }

  /** The valid wrapper carrying `x`. */
  function Valid<T>(x: T): (r: Nullable<T>)
    ensures r.valid && r.value == x
  {
    Nullable(x, true)
  }

  function NullString(s: string): (r: Nullable<string>)
    ensures r.valid && r.value == s
  {
    Valid(s)
  }

  function NullBool(b: bool): (r: Nullable<bool>)
    ensures r.valid && r.value == b
  {
    Valid(b)
  }

  function NullByte(b: Byte): (r: Nullable<Byte>)
    ensures r.valid && r.value == b
  {
    Valid(b)
  }

  function NullInt16(i: Int16): (r: Nullable<Int16>)
    ensures r.valid && r.value == i
  {
    Valid(i)
  }

  function NullInt32(i: Int32): (r: Nullable<Int32>)
    ensures r.valid && r.value == i
  {
    Valid(i)
  }

  function NullInt64(i: Int64): (r: Nullable<Int64>)
    ensures r.valid && r.value == i
  {
    Valid(i)
  }

  function NullFloat64(f: real): (r: Nullable<real>)
    ensures r.valid && r.value == f
  {
    Valid(f)
  }

  function NullTime(t: Time): (r: Nullable<Time>)
    ensures r.valid && r.value == t
  {
    Valid(t)
  }

  method NullStringPtr(s: string) returns (p: NullBox<string>)
    ensures fresh(p) && p.v == NullString(s)
  {
    p := new NullBox(Valid(s));
  }

  method NullBoolPtr(b: bool) returns (p: NullBox<bool>)
    ensures fresh(p) && p.v == NullBool(b)
  {
    p := new NullBox(Valid(b));
  }

  method NullBytePtr(b: Byte) returns (p: NullBox<Byte>)
    ensures fresh(p) && p.v == NullByte(b)
  {
    p := new NullBox(Valid(b));
  }

  method NullInt16Ptr(i: Int16) returns (p: NullBox<Int16>)
    ensures fresh(p) && p.v == NullInt16(i)
  {
    p := new NullBox(Valid(i));
  }

  method NullInt32Ptr(i: Int32) returns (p: NullBox<Int32>)
    ensures fresh(p) && p.v == NullInt32(i)
  {
    p := new NullBox(Valid(i));
  }

  method NullInt64Ptr(i: Int64) returns (p: NullBox<Int64>)
    ensures fresh(p) && p.v == NullInt64(i)
  {
    p := new NullBox(Valid(i));
  }

  method NullFloat64Ptr(f: real) returns (p: NullBox<real>)
    ensures fresh(p) && p.v == NullFloat64(f)
  {
    p := new NullBox(Valid(f));
  }

  method NullTimePtr(t: Time) returns (p: NullBox<Time>)
    ensures fresh(p) && p.v == NullTime(t)
  {
    p := new NullBox(Valid(t));
  }
}
