/** `src/jql.rs`: compiling a JQL query and binding its placeholders.

    The engine's parser is an input: the return code of `jql_create2`,
    the handle it produced and the error text it keeps for a failed
    parse. What the crate controls is which calls it makes, with which
    arguments, and in which order, so each operation records its engine
    calls. */
module Jql {
  import opened Types
  import opened Errors
  import opened Ffi
  import opened XStr
  import Jbl
  import Utils

  /** The `jql_create2` mode bits. */
  const JQL_KEEP_QUERY_ON_PARSE_ERROR: bv8 := 0x1
  const JQL_SILENT_ON_PARSE_ERROR: bv8 := 0x2

  /** The mode `create_jql` passes: both flags, so a failed parse keeps the
      query (its error text stays readable) and prints nothing. */
  function CreateMode(): (mode: bv8)
    ensures mode & JQL_KEEP_QUERY_ON_PARSE_ERROR != 0
    ensures mode & JQL_SILENT_ON_PARSE_ERROR != 0
    ensures mode == 0x3
  {
    JQL_KEEP_QUERY_ON_PARSE_ERROR | JQL_SILENT_ON_PARSE_ERROR
  }

  /** `JQL`: the engine handle. */
  datatype Query = Query(handle: nat)

  /** An engine call made while creating a query. */
  datatype JqlCall =
    | Create2(collection: CPtr, query: CPtr, mode: bv8)
    | ReadError(handle: nat)
    | Destroy(handle: nat)

  /** The parser's reply: return code, handle, and (for a failed parse)
      the error text `jql_error` points at. */
  datatype ParseReply = ParseReply(rc: u64, handle: nat, error: seq<byte>)

  datatype Created = Created(calls: seq<JqlCall>, result: Result<Query>)

  /** `JQL::create_jql`. A missing collection is a null pointer. On a
      parse failure the error text is copied BEFORE the handle is
      destroyed, and the result carries the return code and that text. */
  function CreateJql(query: StringPtr, coll: Option<StringPtr>, reply: ParseReply): (r: Created)
    requires reply.rc != 0 ==> Terminated(reply.error)
    ensures |r.calls| >= 1
    ensures r.calls[0] == Create2(if coll.None? then CPtr.Null else StringPtrAsPtr(coll.value), StringPtrAsPtr(query), CreateMode())
    ensures reply.rc == 0 ==> r.calls == r.calls[..1] && r.result == Ok(Query(reply.handle))
    ensures reply.rc != 0 ==> r.calls == r.calls[..1] + [ReadError(reply.handle), Destroy(reply.handle)]
    ensures reply.rc != 0 ==> r.result == Err(JqlParseError(reply.rc, reply.error[..Strlen(reply.error)]))
  {
    var collPtr := match coll
      case Some(c) => StringPtrAsPtr(c)
      case None => CPtr.Null;
    var create := Create2(collPtr, StringPtrAsPtr(query), CreateMode());
    if reply.rc != 0 then
      var message := FromStrPtr(reply.error);
      Created([create, ReadError(reply.handle), Destroy(reply.handle)], Err(JqlParseError(reply.rc, message.bytes)))
    else
      Created([create], Ok(Query(reply.handle)))
  }

  /** `JQL::create`: no collection. */
  function Create(query: StringPtr, reply: ParseReply): (r: Created)
    requires reply.rc != 0 ==> Terminated(reply.error)
    ensures |r.calls| >= 1 && r.calls[0].Create2? && r.calls[0].collection.Null?
    ensures r.result.Ok? <==> reply.rc == 0
    ensures reply.rc == 0 ==> r.result == Ok(Query(reply.handle))
    ensures reply.rc != 0 ==> r.result == Err(JqlParseError(reply.rc, reply.error[..Strlen(reply.error)]))
  {
    CreateJql(query, None, reply)
  }

  /** `JQL::create_with_collection`. */
  function CreateWithCollection(query: StringPtr, coll: StringPtr, reply: ParseReply): (r: Created)
    requires reply.rc != 0 ==> Terminated(reply.error)
    ensures |r.calls| >= 1 && r.calls[0].Create2? && r.calls[0].collection == StringPtrAsPtr(coll) && r.calls[0].collection.Ptr?
    ensures r.result.Ok? <==> reply.rc == 0
    ensures reply.rc == 0 ==> r.result == Ok(Query(reply.handle))
    ensures reply.rc != 0 ==> r.result == Err(JqlParseError(reply.rc, reply.error[..Strlen(reply.error)]))
  {
    CreateJql(query, Some(coll), reply)
  }

  /** A query handle is released during creation exactly when the parse
      failed; a created query is never destroyed there. */
  lemma CreateReleasesOnlyOnFailure(query: StringPtr, coll: Option<StringPtr>, reply: ParseReply)
    requires reply.rc != 0 ==> Terminated(reply.error)
    ensures Destroy(reply.handle) in CreateJql(query, coll, reply).calls <==> CreateJql(query, coll, reply).result.Err?
    ensures CreateJql(query, coll, reply).result.Err? ==> CreateJql(query, coll, reply).result.error.JqlParseError?
  {
  }

  /** `collection`: the collection name, copied from the engine's C
      string; it never fails. */
  function Collection(q: Query, name: seq<byte>): (r: Result<XString>)
    requires Terminated(name)
    ensures r.Ok? && r.value.bytes == name[..Strlen(name)]
  {
    Ok(FromStrPtr(name))
  }

  /** The crate's collection-name test: a query on collection `abc`
      reports the name `abc`. */
  lemma CollectionNameScenario(q: Query)
    ensures Terminated([97, 98, 99, 0]) && Collection(q, [97, 98, 99, 0]) == Ok(XString([97, 98, 99]))
  {
    assert [97, 98, 99, 0][3] == 0;
    assert Strlen([97, 98, 99, 0]) == 3 by {
      StrlenOfTerminated([97, 98, 99]);
      assert [97, 98, 99] + [0] == [97, 98, 99, 0];
    }
    assert [97, 98, 99, 0][..3] == [97, 98, 99];
  }

  /** `skip` and `limit`: the number the engine wrote, when it succeeded. */
  function SkipOrLimit(rc: u64, num: i64): (r: Result<i64>)
    ensures r.Ok? <==> rc == 0
    ensures r.Ok? ==> r.value == num
    ensures r.Err? ==> r.error == Generic(rc)
  {
    Utils.CheckRc(rc).AndOk(num)
  }

  // ---------------------------------------------------------------------
  // Placeholders

  /** `KeyParam`: a placeholder named by position or by name. */
  datatype KeyParam = KeyParam(index: i32, name: Option<StringPtr>)

  /** `From<u32>`: a positional key (`v as i32`). */
  function KeyFromIndex(v: u32): (k: KeyParam)
    ensures k.name.None?
    ensures k.index == AsI32(v)
    ensures v <= I32_MAX ==> k.index == v
    ensures v > I32_MAX ==> k.index == v - TWO_32 && k.index < 0
  {
    KeyParam(AsI32(v), None)
  }

  /** `From<XString>`, `From<&XString>`, `From<&str>`, `From<String>`,
      `From<&String>`: a named key, index 0. */
  function KeyFromName(p: StringPtr): (k: KeyParam)
    ensures k.name == Some(p) && k.index == 0
  {
    KeyParam(0, Some(p))
  }

  /** `as_index`: the stored position (0 for a named key). */
  function KeyAsIndex(k: KeyParam): (i: i32)
    ensures i == k.index
    ensures k.name.Some? && k == KeyFromName(k.name.value) ==> i == 0
  {
    k.index
  }

  /** `as_ptr`: the name's C string, or null for a positional key. */
  function KeyAsPtr(k: KeyParam): (p: CPtr)
    ensures p.Null? <==> k.name.None?
    ensures k.name.Some? ==> p == StringPtrAsPtr(k.name.value)
  {
    match k.name
    case Some(v) => StringPtrAsPtr(v)
    case None => CPtr.Null
  }

  /** The engine sees a positional key as a null name with the position,
      and a named key as its name with index 0; the two never coincide,
      positions up to `i32::MAX` arrive unchanged and larger ones wrap
      to the negative index `v - 2^32`. */
  lemma KeyEncodingIsFaithful(v: u32, p: StringPtr)
    ensures KeyAsPtr(KeyFromIndex(v)).Null? && KeyAsPtr(KeyFromName(p)).Ptr?
    ensures KeyAsIndex(KeyFromIndex(v)) == (if v <= I32_MAX then v else v - TWO_32)
    ensures KeyAsIndex(KeyFromName(p)) == 0
    ensures FromStrPtr(KeyAsPtr(KeyFromName(p)).mem) == ToOwned(p) || 0 in ToOwned(p).bytes
  {
    if 0 !in ToOwned(p).bytes {
      ToOwnedAgreesWithAsPtr(p);
    }
  }

  /** A placeholder value as passed to the engine. */
  datatype Placeholder =
    | I64Value(v: i64)
    | BoolValue(b: bool)
    | F64Value(bits: u64)
    | JsonValue(jbl: nat)
    | JsonNode(node: nat)
    | NullValue
    | Regexp(expr: CPtr)
    | Str(s: CPtr)

  /** One `jql_set_*` call. */
  datatype SetCall = SetCall(name: CPtr, index: i32, value: Placeholder)

  /** A binding: the call made (if any) and the result. */
  datatype Bound = Bound(call: Option<SetCall>, result: Result<()>)

  /** Every `set_*` passes the key as `(as_ptr, as_index)` and reports the
      engine's code through `check_rc`. */
  function Bind(key: KeyParam, value: Placeholder, rc: u64): (r: Bound)
    ensures r.call == Some(SetCall(KeyAsPtr(key), KeyAsIndex(key), value))
    ensures r.result.Ok? <==> rc == 0
    ensures r.result.Err? ==> r.result.error == Generic(rc)
  {
    Bound(Some(SetCall(KeyAsPtr(key), KeyAsIndex(key), value)), Utils.CheckRc(rc))
  }

  function SetI64(key: KeyParam, v: i64, rc: u64): (r: Bound)
    ensures r.call == Some(SetCall(KeyAsPtr(key), KeyAsIndex(key), I64Value(v)))
    ensures r.result == Utils.CheckRc(rc)
  {
    Bind(key, I64Value(v), rc)
  }

  function SetBool(key: KeyParam, b: bool, rc: u64): (r: Bound)
    ensures r.call == Some(SetCall(KeyAsPtr(key), KeyAsIndex(key), BoolValue(b)))
    ensures r.result == Utils.CheckRc(rc)
  {
    Bind(key, BoolValue(b), rc)
  }

  function SetF64(key: KeyParam, bits: u64, rc: u64): (r: Bound)
    ensures r.call == Some(SetCall(KeyAsPtr(key), KeyAsIndex(key), F64Value(bits)))
    ensures r.result == Utils.CheckRc(rc)
  {
    Bind(key, F64Value(bits), rc)
  }

  function SetNull(key: KeyParam, rc: u64): (r: Bound)
    ensures r.call == Some(SetCall(KeyAsPtr(key), KeyAsIndex(key), NullValue))
    ensures r.result == Utils.CheckRc(rc)
  {
    Bind(key, NullValue, rc)
  }

  /** `set_regex` and `set_str`: the text as a C string. */
  function SetRegex(key: KeyParam, expr: StringPtr, rc: u64): (r: Bound)
    ensures r.call == Some(SetCall(KeyAsPtr(key), KeyAsIndex(key), Regexp(StringPtrAsPtr(expr))))
    ensures r.result == Utils.CheckRc(rc)
  {
    Bind(key, Regexp(StringPtrAsPtr(expr)), rc)
  }

  function SetStr(key: KeyParam, val: StringPtr, rc: u64): (r: Bound)
    ensures r.call == Some(SetCall(KeyAsPtr(key), KeyAsIndex(key), Str(StringPtrAsPtr(val))))
    ensures r.result == Utils.CheckRc(rc)
  {
    Bind(key, Str(StringPtrAsPtr(val)), rc)
  }

  /** `set_json_jbl` and `set_json_jbn`: an existing value's handle. */
  function SetJsonJbl(key: KeyParam, val: Jbl.Jbl, rc: u64): (r: Bound)
    ensures r.call == Some(SetCall(KeyAsPtr(key), KeyAsIndex(key), JsonValue(val.handle)))
    ensures r.result == Utils.CheckRc(rc)
  {
    Bind(key, JsonValue(val.handle), rc)
  }

  function SetJsonNode(key: KeyParam, node: nat, rc: u64): (r: Bound)
    ensures r.call == Some(SetCall(KeyAsPtr(key), KeyAsIndex(key), JsonNode(node)))
    ensures r.result == Utils.CheckRc(rc)
  {
    Bind(key, JsonNode(node), rc)
  }

  /** `set_json`: the text is parsed first; a parse failure is returned
      and the engine setter is never called. */
  function SetJson(key: KeyParam, json: StringPtr, parse: Jbl.Created, rc: u64): (r: Bound)
    ensures parse.rc != 0 ==> r.call.None? && r.result == Err(Generic(parse.rc))
    ensures parse.rc == 0 ==> r.call == Some(SetCall(KeyAsPtr(key), KeyAsIndex(key), JsonValue(parse.handle))) && r.result == Utils.CheckRc(rc)
  {
    match Jbl.FromJson(json, parse).result
    case Err(e) => Bound(None, Err(e))
    case Ok(jbl) => SetJsonJbl(key, jbl, rc)
  }
}
