/** `src/xstr.rs`: `XString`, the owned growable byte buffer (`IWXSTR`)
    that carries text across the engine boundary, and `StringPtr`, the
    owned-or-borrowed string handed to the engine as a C string.

    The buffer is modelled by its contents. Its capacity is an allocation
    hint with no observable effect and is not represented. Whether the
    allocator can grow the buffer is an input (`catRc`, `rc`): the engine's
    `iwxstr_cat` / `iwxstr_unshift` return code. */
module XStr {
  import opened Types
  import opened Errors
  import opened Ffi
  import Utils

  datatype XString = XString(bytes: seq<byte>)

  /** A string without interior NUL bytes, as `CString`/`CStr` guarantee. */
  type CBytes = s: seq<byte> | 0 !in s

  /** `XString::size`. */
  function Size(x: XString): nat {
    |x.bytes|
  }

  /** `XString::new`. */
  function New(): (x: XString)
    ensures Size(x) == 0
  {
    XString([])
  }

  /** `XString::new_with_size`: the size is a capacity hint only; the new
      buffer is empty. */
  function NewWithSize(size: usize): (x: XString)
    ensures Size(x) == 0
  {
    XString([])
  }

  /** `XString::clear`. */
  function Clear(x: XString): (r: XString)
    ensures Size(r) == 0
  {
    XString([])
  }

  /** `XString::pop`: drops `n` bytes from the end; `iwxstr_pop` clamps a
      count larger than the size, emptying the buffer. */
  function Pop(x: XString, n: usize): (r: XString)
    ensures n <= Size(x) ==> Size(r) == Size(x) - n && x.bytes == r.bytes + x.bytes[Size(x) - n..]
    ensures n > Size(x) ==> Size(r) == 0
  {
    if n >= |x.bytes| then XString([]) else XString(x.bytes[..|x.bytes| - n])
  }

  /** `XString::shift`: drops `n` bytes from the front; `iwxstr_shift`
      clamps a count larger than the size, emptying the buffer. */
  function Shift(x: XString, n: usize): (r: XString)
    ensures n <= Size(x) ==> Size(r) == Size(x) - n && x.bytes == x.bytes[..n] + r.bytes
    ensures n > Size(x) ==> Size(r) == 0
  {
    if n >= |x.bytes| then XString([]) else XString(x.bytes[n..])
  }

  /** `XString::push_bytes`: appends `buf`; when the engine cannot grow
      the buffer the failure is reported as `AllocError`. */
  function PushBytes(x: XString, buf: seq<byte>, catRc: u64): (r: Result<XString>)
    ensures catRc == 0 ==> r.Ok? && r.value.bytes == x.bytes + buf
    ensures catRc != 0 ==> r == Err(AllocError)
  {
    if catRc != 0 then Err(AllocError) else Ok(XString(x.bytes + buf))
  }

  /** `XString::unshift_bytes`: prepends `buf`; unlike `push_bytes`, a
      failure is reported as the generic engine error with its code. */
  function UnshiftBytes(x: XString, buf: seq<byte>, rc: u64): (r: Result<XString>)
    ensures rc == 0 ==> r.Ok? && r.value.bytes == buf + x.bytes
    ensures rc != 0 ==> r == Err(Generic(rc))
  {
    match Utils.CheckRc(rc)
    case Err(e) => Err(e)
    case Ok(_) => Ok(XString(buf + x.bytes))
  }

  /** `XString::push`: `push_bytes(..).unwrap()` of the string's bytes.
      The allocator is taken to succeed (a failure panics). */
  function Push(x: XString, s: seq<byte>): (r: XString)
    ensures Size(r) == Size(x) + |s|
    ensures r.bytes[..Size(x)] == x.bytes && r.bytes[Size(x)..] == s
  {
    PushBytes(x, s, 0).value
  }

  /** `XString::unshift`: `unshift_bytes(..).unwrap()`, allocator taken to
      succeed. */
  function Unshift(x: XString, s: seq<byte>): (r: XString)
    ensures Size(r) == Size(x) + |s|
    ensures r.bytes[..|s|] == s && r.bytes[|s|..] == x.bytes
  {
    UnshiftBytes(x, s, 0).value
  }

  /** `pop` undoes `push`. */
  lemma PopUndoesPush(x: XString, s: seq<byte>)
    requires |s| < TWO_64
    ensures Pop(Push(x, s), |s|) == x
  {
    assert Push(x, s).bytes[..Size(x)] == x.bytes;
  }

  /** `shift` undoes `unshift`. */
  lemma ShiftUndoesUnshift(x: XString, s: seq<byte>)
    requires |s| < TWO_64
    ensures Shift(Unshift(x, s), |s|) == x
  {
    assert Unshift(x, s).bytes[|s|..] == x.bytes;
  }

  /** The size sequence of the buffer test: new, push "hello", push
      "world", pop 3, unshift "abcd", shift 5. */
  lemma SizeScenario()
    ensures var x0 := New();
            var x1 := Push(x0, [104, 101, 108, 108, 111]);
            var x2 := Push(x1, [119, 111, 114, 108, 100]);
            var x3 := Pop(x2, 3);
            var x4 := Unshift(x3, [97, 98, 99, 100]);
            var x5 := Shift(x4, 5);
            Size(x0) == 0 && Size(x1) == 5 && Size(x2) == 10 && Size(x3) == 7 && Size(x4) == 11 && Size(x5) == 6
  {
  }

  /** `impl Add for XString`: the left operand with the right one's
      contents pushed onto it. */
  function Add(a: XString, b: XString): (r: XString)
    ensures r.bytes == a.bytes + b.bytes
  {
    Push(a, b.bytes)
  }

  /** `impl Clone for XString`: a fresh buffer pre-sized to the source,
      with the source's bytes pushed into it. */
  function Clone(x: XString): (r: XString)
    ensures r == x
  {
    var dst := NewWithSize(if Size(x) < TWO_64 then Size(x) else 0);
    PushBytes(dst, x.bytes, 0).value
  }

  /** `impl PartialEq<[u8]> for XString`. */
  function EqBytes(x: XString, other: seq<byte>): (r: bool) {
    x.bytes == other
  }

  /** `impl PartialEq<T: AsRef<str>> for XString`: the sizes are compared
      first, then the bytes. */
  function EqStr(x: XString, other: seq<byte>): (r: bool) {
    Size(x) == |other| && x.bytes == other
  }

  /** Both equalities hold exactly when the contents are the same bytes;
      the size test in `EqStr` changes nothing. */
  lemma EqualityIsContentEquality(x: XString, other: seq<byte>)
    ensures EqStr(x, other) <==> x.bytes == other
    ensures EqBytes(x, other) <==> EqStr(x, other)
  {
  }

  /** `impl Read for XString`: copies the first `min(buf.len(), size)`
      bytes into `buf`, shifts them out of the buffer and returns the
      count. Nothing is lost: what was copied followed by what remains is
      the original content. */
  method Read(x: XString, buf: seq<byte>) returns (rest: XString, filled: seq<byte>, n: nat)
    requires |buf| < TWO_64
    ensures n == (if |buf| < Size(x) then |buf| else Size(x))
    ensures |filled| == |buf|
    ensures filled[..n] == x.bytes[..n]
    ensures filled[n..] == buf[n..]
    ensures rest.bytes == x.bytes[n..]
    ensures x.bytes == filled[..n] + rest.bytes
  {
    n := if |buf| < Size(x) then |buf| else Size(x);
    filled := buf;
    var i := 0;
    while i < n
      invariant 0 <= i <= n
      invariant |filled| == |buf|
      invariant filled[..i] == x.bytes[..i]
      invariant filled[i..] == buf[i..]
    {
      filled := filled[i := x.bytes[i]];
      i := i + 1;
    }
    rest := Shift(x, n);
  }

  /** `impl Write for XString`: `write` appends the whole slice and
      reports its length; an allocation failure becomes an I/O error of
      kind `Other` wrapping `AllocError`, and leaves the buffer as it was. */
  function Write(x: XString, buf: seq<byte>, catRc: u64): (r: (XString, Result<usize>))
    requires |buf| < TWO_64
    ensures catRc == 0 ==> r.0.bytes == x.bytes + buf && r.1 == Ok(|buf|)
    ensures catRc != 0 ==> r.0 == x && r.1 == Err(IoError(Wrapped(AllocError)))
  {
    match PushBytes(x, buf, catRc)
    case Err(e) => (x, Err(IoError(Wrapped(e))))
    case Ok(y) => (y, Ok(|buf|))
  }

  /** `Write::flush` never fails and changes nothing. */
  function Flush(x: XString): (r: (XString, Result<()>))
    ensures r.0 == x && r.1.Ok?
  {
    (x, Ok(()))
  }

  /** `impl fmt::Write for XString`: `write_str` pushes and reports `Ok`. */
  function WriteStr(x: XString, s: seq<byte>): (r: (XString, Result<()>))
    ensures r.0.bytes == x.bytes + s && r.1.Ok?
  {
    (Push(x, s), Ok(()))
  }

  /** `impl From<&[u8]> for XString`: a copy of the bytes. */
  function FromBytes(data: seq<byte>): (r: XString)
    ensures r.bytes == data
  {
    var empty := NewWithSize(if |data| < TWO_64 then |data| else 0);
    PushBytes(empty, data, 0).value
  }

  /** `impl From<&str> for XString`: a copy of the string's UTF-8 bytes. */
  function FromStr(s: seq<byte>): (r: XString)
    ensures r.bytes == s
  {
    var empty := NewWithSize(if |s| < TWO_64 then |s| else 0);
    Push(empty, s)
  }

  /** `XString::from_str_ptr`: copies the bytes of a C string up to its
      terminator. */
  function FromStrPtr(mem: seq<byte>): (r: XString)
    requires Terminated(mem)
    ensures 0 !in r.bytes
    ensures r.bytes == mem[..Strlen(mem)]
  {
    var n := Strlen(mem);
    FromBytes(mem[..n])
  }

  /** `XString::as_ptr`: the buffer's storage, which `iwxstr` always keeps
      NUL-terminated. */
  function AsPtr(x: XString): (mem: seq<byte>)
    ensures Terminated(mem)
  {
    CString(x.bytes)
  }

  /** Copying a buffer back out through its C pointer reproduces it, as
      long as it holds no NUL byte. */
  lemma FromStrPtrOfAsPtr(x: XString)
    requires 0 !in x.bytes
    ensures FromStrPtr(AsPtr(x)) == x
  {
  }

  /** `StringPtr`: an owned or borrowed `XString`, or an owned or borrowed
      C string. */
  datatype StringPtr =
    | OwnedX(x: XString)
    | BorrowedX(x: XString)
    | OwnedC(c: CBytes)
    | BorrowedC(c: CBytes)

  /** `impl From<&str> for StringPtr` (also `String` and `&String`): the
      text is copied into an owned `XString`. */
  function StringPtrFromStr(s: seq<byte>): (p: StringPtr)
    ensures p.OwnedX? && p.x.bytes == s
  {
    OwnedX(FromStr(s))
  }

  /** `StringPtr::as_ptr`: always a non-null C string. */
  function StringPtrAsPtr(p: StringPtr): (r: CPtr)
    ensures r.Ptr? && Terminated(r.mem)
  {
    match p
    case OwnedX(x) => Ptr(AsPtr(x))
    case BorrowedX(x) => Ptr(AsPtr(x))
    case OwnedC(c) => Ptr(CString(c))
    case BorrowedC(c) => Ptr(CString(c))
  }

  /** `StringPtr::to_owned`: an owned `XString` is handed over unchanged,
      a borrowed one is cloned, a C string is copied. */
  function ToOwned(p: StringPtr): (r: XString)
    ensures p.OwnedX? ==> r == p.x
    ensures p.BorrowedX? ==> r.bytes == p.x.bytes
    ensures p.OwnedC? || p.BorrowedC? ==> r.bytes == p.c
  {
    match p
    case OwnedX(x) => x
    case BorrowedX(x) => Clone(x)
    case OwnedC(c) => FromBytes(c)
    case BorrowedC(c) => FromBytes(c)
  }

  /** What the engine reads through `as_ptr` is what `to_owned` keeps, for
      every NUL-free string. */
  lemma ToOwnedAgreesWithAsPtr(p: StringPtr)
    requires 0 !in ToOwned(p).bytes
    ensures FromStrPtr(StringPtrAsPtr(p).mem) == ToOwned(p)
  {
    match p
    case OwnedX(x) =>
    case BorrowedX(x) =>
    case OwnedC(c) =>
    case BorrowedC(c) =>
  }
}
