/** `src/jbl.rs`: the binary JSON value `JBL`, a handle owned by the
    engine plus a `writable` flag the crate keeps on its own.

    Every engine call is modelled by its reply (return code and out
    values) and, where the order or the arguments of the calls matter, by
    the call it records. */
module Jbl {
  import opened Types
  import opened Errors
  import opened Ffi
  import opened XStr
  import opened Printer
  import Utils

  /** `JBL`: the engine handle and whether the crate created it empty. */
  datatype Jbl = Jbl(handle: nat, writable: bool)

  /** The engine's reply to a call that creates a handle. */
  datatype Created = Created(rc: u64, handle: nat)

  /** `JBL::new_array`: a fresh, writable empty array. */
  function NewArray(reply: Created): (r: Result<Jbl>)
    ensures r.Ok? <==> reply.rc == 0
    ensures r.Ok? ==> r.value == Jbl(reply.handle, true)
    ensures r.Err? ==> r.error == Generic(reply.rc)
  {
    var _ :- Utils.CheckRc(reply.rc);
    Ok(Jbl(reply.handle, true))
  }

  /** `JBL::new_object`: a fresh, writable empty object. */
  function NewObject(reply: Created): (r: Result<Jbl>)
    ensures r.Ok? <==> reply.rc == 0
    ensures r.Ok? ==> r.value == Jbl(reply.handle, true)
    ensures r.Err? ==> r.error == Generic(reply.rc)
  {
    var _ :- Utils.CheckRc(reply.rc);
    Ok(Jbl(reply.handle, true))
  }

  /** `JBL::from_ptr`: wraps a handle the engine made; never writable. */
  function FromPtr(handle: nat): (j: Jbl)
    ensures j.handle == handle && !j.writable
  {
    Jbl(handle, false)
  }

  /** `JBL::from_c_str`: the engine parses the C string, which the crate
      passes on unchecked. */
  datatype Parse = Parse(input: CPtr, result: Result<Jbl>)

  function FromCStr(ptr: CPtr, reply: Created): (r: Parse)
    ensures r.input == ptr
    ensures r.result.Ok? <==> reply.rc == 0
    ensures r.result.Ok? ==> r.result.value == Jbl(reply.handle, false)
    ensures r.result.Err? ==> r.result.error == Generic(reply.rc)
  {
    Parse(ptr, Utils.CheckRc(reply.rc).AndOk(FromPtr(reply.handle)))
  }

  /** `JBL::from_json`: the text is handed over as a C string. */
  function FromJson(json: StringPtr, reply: Created): (r: Parse)
    ensures r.input.Ptr? && r.input == StringPtrAsPtr(json)
    ensures r.result == FromCStr(StringPtrAsPtr(json), reply).result
  {
    FromCStr(StringPtrAsPtr(json), reply)
  }

  /** `FromStr for JBL`: the engine receives the text followed by its
      terminator. */
  function FromStr(s: seq<byte>, reply: Created): (r: Parse)
    ensures r.input == Ptr(s + [0])
    ensures r.result == FromCStr(Ptr(s + [0]), reply).result
  {
    FromJson(StringPtrFromStr(s), reply)
  }

  /** `TryFrom<XString> for JBL`: the buffer's own C pointer. */
  function TryFromXString(x: XString, reply: Created): (r: Parse)
    ensures r.input == Ptr(x.bytes + [0])
    ensures r.result == FromCStr(Ptr(x.bytes + [0]), reply).result
    ensures r.result.Ok? <==> reply.rc == 0
    ensures r.result.Ok? ==> r.result.value == Jbl(reply.handle, false)
    ensures r.result.Err? ==> r.result.error == Generic(reply.rc)
  {
    FromCStr(Ptr(AsPtr(x)), reply)
  }

  /** How a `JBL` can come into being. */
  datatype Origin = EmptyArray | EmptyObject | ParsedFrom(ptr: CPtr) | FoundAt(path: StringPtr)

  /** The value an origin yields, given the engine's reply. */
  function Make(origin: Origin, reply: Created): Result<Jbl> {
    match origin
    case EmptyArray => NewArray(reply)
    case EmptyObject => NewObject(reply)
    case ParsedFrom(ptr) => FromCStr(ptr, reply).result
    case FoundAt(path) => Find(Jbl(0, false), path, reply).result
  }

  /** `writable`: true exactly for values created empty by the crate. */
  lemma WritableIffCreatedEmpty(origin: Origin, reply: Created)
    requires Make(origin, reply).Ok?
    ensures Make(origin, reply).value.writable <==> origin.EmptyArray? || origin.EmptyObject?
  {
  }

  // ---------------------------------------------------------------------
  // Setters

  /** `JBLValue`. A float is carried as its bit pattern and never
      interpreted. */
  datatype JblValue =
    | NullValue
    | EmptyArrayValue
    | EmptyObjectValue
    | Float(bits: u64)
    | Integer(v: i64)
    | String(s: StringPtr)
    | Boolean(b: bool)
    | Nested(child: Jbl)

  /** The Rust integer types with an `IntoJBLValue` impl. */
  datatype IntKind = I8 | I16 | I32 | I64 | U8 | U16 | U32 | U64 | Usize

  predicate Fits(k: IntKind, x: int) {
    match k
    case I8 => -0x80 <= x < 0x80
    case I16 => -0x8000 <= x < 0x8000
    case I32 => -0x8000_0000 <= x < 0x8000_0000
    case I64 => -0x8000_0000_0000_0000 <= x < 0x8000_0000_0000_0000
    case U8 => 0 <= x < 0x100
    case U16 => 0 <= x < 0x1_0000
    case U32 => 0 <= x < 0x1_0000_0000
    case U64 => 0 <= x < TWO_64
    case Usize => 0 <= x < TWO_64
  }

  /** `into_value` for integers: `x as i64`. Every value keeps its number
      except a `u64` or `usize` above `i64::MAX`, which wraps to a
      negative integer. */
  function FromInt(k: IntKind, x: int): (r: JblValue)
    requires Fits(k, x)
    ensures r.Integer?
    ensures x <= I64_MAX ==> r.v == x
    ensures x > I64_MAX ==> (k.U64? || k.Usize?) && r.v == x - TWO_64 && r.v < 0
  {
    if x <= I64_MAX then Integer(x) else Integer(AsI64(x))
  }

  /** The other `into_value` impls: a bool, a nested value, a string (any
      of the string types, through `StringPtr`). */
  function FromBool(b: bool): (r: JblValue)
    ensures r == Boolean(b)
  {
    Boolean(b)
  }

  function FromJbl(j: Jbl): (r: JblValue)
    ensures r == Nested(j)
  {
    Nested(j)
  }

  function FromString(s: StringPtr): (r: JblValue)
    ensures r == String(s)
  {
    String(s)
  }

  /** An engine call made on a `JBL` handle. */
  datatype JblCall =
    | SetNull(target: nat, key: CPtr)
    | SetEmptyArray(target: nat, key: CPtr)
    | SetEmptyObject(target: nat, key: CPtr)
    | SetBool(target: nat, key: CPtr, b: bool)
    | SetF64(target: nat, key: CPtr, bits: u64)
    | SetInt64(target: nat, key: CPtr, v: i64)
    | SetNested(target: nat, key: CPtr, child: nat)
    | SetString(target: nat, key: CPtr, s: CPtr)

  /** The engine setter a setter calls, the handle it releases afterwards
      (`jbl_destroy` when a nested value is dropped), and its result. */
  datatype Setting = Setting(call: JblCall, released: Option<nat>, result: Result<()>)

  /** The key pointer a setter passes: null for an array element, the
      name's C string for an object property. */
  function KeyPtr(key: Option<StringPtr>): (p: CPtr)
    ensures key.None? <==> p.Null?
  {
    match key
    case None => CPtr.Null
    case Some(k) => StringPtrAsPtr(k)
  }

  /** The shared dispatch of `append` and `set_prop`: one engine setter
      per value variant, with the same key; a nested value is released
      after it has been attached (it is passed by value and dropped).
      `writable` is not consulted. */
  function Set(j: Jbl, key: Option<StringPtr>, val: JblValue, rc: u64): (r: Setting)
    ensures r.call.target == j.handle && r.call.key == KeyPtr(key)
    ensures val.Nested? <==> r.call.SetNested?
    ensures val.Nested? ==> r.call.child == val.child.handle && r.released == Some(val.child.handle)
    ensures !val.Nested? ==> r.released.None?
    ensures val.NullValue? <==> r.call.SetNull?
    ensures val.EmptyArrayValue? <==> r.call.SetEmptyArray?
    ensures val.EmptyObjectValue? <==> r.call.SetEmptyObject?
    ensures val.Boolean? <==> r.call.SetBool?
    ensures val.Boolean? ==> r.call.b == val.b
    ensures val.Float? <==> r.call.SetF64?
    ensures val.Float? ==> r.call.bits == val.bits
    ensures val.Integer? <==> r.call.SetInt64?
    ensures val.Integer? ==> r.call.v == val.v
    ensures val.String? <==> r.call.SetString?
    ensures val.String? ==> r.call.s == StringPtrAsPtr(val.s)
    ensures r.result == Utils.CheckRc(rc)
  {
    var k := KeyPtr(key);
    var h := j.handle;
    match val
    case NullValue => Setting(SetNull(h, k), None, Utils.CheckRc(rc))
    case EmptyArrayValue => Setting(SetEmptyArray(h, k), None, Utils.CheckRc(rc))
    case EmptyObjectValue => Setting(SetEmptyObject(h, k), None, Utils.CheckRc(rc))
    case Boolean(b) => Setting(SetBool(h, k, b), None, Utils.CheckRc(rc))
    case Float(bits) => Setting(SetF64(h, k, bits), None, Utils.CheckRc(rc))
    case Integer(v) => Setting(SetInt64(h, k, v), None, Utils.CheckRc(rc))
    case Nested(child) => Setting(SetNested(h, k, child.handle), Some(child.handle), Utils.CheckRc(rc))
    case String(str) => Setting(SetString(h, k, StringPtrAsPtr(str)), None, Utils.CheckRc(rc))
  }

  /** `append`: the setter with a null key. */
  function Append(j: Jbl, val: JblValue, rc: u64): (r: Setting)
    ensures r.call.target == j.handle && r.call.key.Null?
    ensures r.result == Utils.CheckRc(rc)
  {
    Set(j, None, val, rc)
  }

  /** `set_prop`: the setter with the property name as key. */
  function SetProp(j: Jbl, key: StringPtr, val: JblValue, rc: u64): (r: Setting)
    ensures r.call.target == j.handle && r.call.key == StringPtrAsPtr(key) && r.call.key.Ptr?
    ensures r.result == Utils.CheckRc(rc)
  {
    Set(j, Some(key), val, rc)
  }

  /** `append` and `set_prop` make the same call, differing only in the
      key, and release the same handle. */
  lemma AppendIsSetPropWithoutKey(j: Jbl, key: StringPtr, val: JblValue, rc: u64)
    ensures Append(j, val, rc).call == SetProp(j, key, val, rc).call.(key := CPtr.Null)
    ensures Append(j, val, rc).released == SetProp(j, key, val, rc).released
    ensures Append(j, val, rc).result == SetProp(j, key, val, rc).result
  {
  }

  /** The setters behave the same on a read-only value: `writable` is a
      promise to the caller, not a check. */
  lemma SetIgnoresWritable(j: Jbl, key: Option<StringPtr>, val: JblValue, rc: u64, w: bool)
    ensures Set(j.(writable := w), key, val, rc) == Set(j, key, val, rc)
  {
  }

  /** `patch` and `merge`: one engine call with the JSON text. */
  datatype PatchKind = Patch | Merge

  function PatchWith(j: Jbl, kind: PatchKind, json: StringPtr, rc: u64): (r: (PatchKind, CPtr, Result<()>))
    ensures r.0 == kind && r.1 == StringPtrAsPtr(json)
    ensures r.2.Ok? <==> rc == 0
    ensures r.2.Err? ==> r.2.error == Generic(rc)
  {
    (kind, StringPtrAsPtr(json), Utils.CheckRc(rc))
  }

  // ---------------------------------------------------------------------
  // Getters

  /** `get_bool`, `get_i64`, `get_f64`: the out value is returned only when
      the engine succeeds. */
  function GetScalar<T>(rc: u64, out: T): (r: Result<T>)
    ensures r.Ok? <==> rc == 0
    ensures r.Ok? ==> r.value == out
    ensures r.Err? ==> r.error == Generic(rc)
  {
    Utils.CheckRc(rc).AndOk(out)
  }

  /** `get_str`: the property's C string is copied only when the engine
      succeeds (only then is the out pointer set). */
  function GetStr(rc: u64, out: seq<byte>): (r: Result<XString>)
    requires rc == 0 ==> Terminated(out)
    ensures r.Ok? <==> rc == 0
    ensures r.Ok? ==> r.value.bytes == out[..Strlen(out)] && 0 !in r.value.bytes
    ensures r.Err? ==> r.error == Generic(rc)
  {
    var _ :- Utils.CheckRc(rc);
    Ok(FromStrPtr(out))
  }

  /** `get_type`: never fails; whatever type code the engine answers. */
  function GetType(code: nat): (r: Result<nat>)
    ensures r == Ok(code)
  {
    Ok(code)
  }

  /** `find`: the value at an RFC 6901 path, as a read-only handle. */
  function Find(j: Jbl, path: StringPtr, reply: Created): (r: Parse)
    ensures r.input == StringPtrAsPtr(path)
    ensures r.result.Ok? <==> reply.rc == 0
    ensures r.result.Ok? ==> r.result.value == Jbl(reply.handle, false)
    ensures r.result.Err? ==> r.result.error == Generic(reply.rc)
  {
    var input := StringPtrAsPtr(path);
    Parse(input, Utils.CheckRc(reply.rc).AndOk(FromPtr(reply.handle)))
  }

  // ---------------------------------------------------------------------
  // Printing

  /** `JBL::print`: the raw serialiser with the default flag. */
  function Print<P>(j: Jbl, target: P, sink: Sink<P>, flag: Option<byte>, engine: Serialization): (r: DocPrinted<P>)
    requires AllReadable(engine.chunks)
    ensures r.serializer == JblAsJson
    ensures r.flags == FlagOrDefault(flag)
    ensures r.out.inner == Deliver(target, sink, Offers(engine.chunks))
    ensures r.out == PrintThrough(target, sink, engine.chunks, engine.rc)
  {
    JblPrintJson(target, sink, FlagOrDefault(flag), engine)
  }

  /** `AsJson<Vec<u8>>` and `AsJson<String>` for a `JBL`. */
  function AsJsonBytes(j: Jbl, flag: Option<byte>, engine: Serialization): (r: Result<seq<byte>>)
    requires AllReadable(engine.chunks)
    ensures r == Utils.CheckRc(engine.rc).AndOk(ExpandAll(Offers(engine.chunks)))
  {
    PrintToVec([], engine.chunks, engine.rc);
    var printed := Print(j, [], VecSink, flag, engine);
    assert [] + ExpandAll(Offers(engine.chunks)) == ExpandAll(Offers(engine.chunks));
    printed.out.res.AndOk(printed.out.inner)
  }

  /** `AsJson<XString>` for a `JBL`, as it should be: the buffer is
      pre-sized to twice the binary size and its handle is given to the
      engine's own printer, as `JsonDoc` does. The rest of the model uses
      this definition. */
  function AsJsonXStr(j: Jbl, flag: Option<byte>, size: usize, text: seq<byte>, rc: u64): (r: (byte, Materialized))
    ensures r.0 == FlagOrDefault(flag)
    ensures r.1.presize == (2 * size) % TWO_64
    ensures r.1.arg == XStrHandle
    ensures r.1.result.Ok? <==> rc == 0
    ensures r.1.result.Ok? ==> r.1.result.value.bytes == text
    ensures r.1.result.Err? ==> r.1.result.error == Generic(rc)
  {
    (FlagOrDefault(flag), AsJsonXString(size, text, rc))
  }

  /** `AsJson<XString>` for a `JBL` as written: the printer's `op` is
      `data.as_ptr()`, the character storage of the fresh buffer, not its
      handle. Only the call is modelled: what the engine's printer does
      with a pointer of the wrong kind is undefined. */
  function AsJsonXStrAsWritten(j: Jbl, flag: Option<byte>, size: usize): (r: (byte, usize, PrinterArg))
    ensures r.0 == FlagOrDefault(flag)
    ensures r.1 == (2 * size) % TWO_64
    ensures r.2.XStrStorage? && r.2.mem == AsPtr(NewWithSize(r.1))
  {
    var presize := (size * 2) % TWO_64;
    var data := NewWithSize(presize);
    (FlagOrDefault(flag), presize, XStrStorage(AsPtr(data)))
  }

  /** For every value, the as-written version hands the printer a lone NUL
      byte (the empty buffer's storage) where the corrected version, like
      `JsonDoc`, hands it the buffer handle it appends to. */
  lemma AsJsonXStrPassesStorage(j: Jbl, flag: Option<byte>, size: usize, text: seq<byte>, rc: u64)
    ensures AsJsonXStrAsWritten(j, flag, size).2 == XStrStorage([0])
    ensures AsJsonXStrAsWritten(j, flag, size).2 != AsJsonXStr(j, flag, size, text, rc).1.arg
  {
  }
}
