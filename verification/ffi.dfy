/** C strings at the engine boundary. A non-null `*const c_char` is
    modelled by the bytes readable from that address on; `strlen` is the
    index of the first NUL among them. */
module Ffi {
  import opened Types

  /** A raw C string pointer: null, or the readable memory it points at. */
  datatype CPtr = Null | Ptr(mem: seq<byte>)

  /** The memory holds a terminator, so `strlen` stays in bounds. */
  predicate Terminated(mem: seq<byte>) {
    exists i :: 0 <= i < |mem| && mem[i] == 0
  }

  /** `libc::strlen`: the number of bytes before the first NUL. */
  function Strlen(mem: seq<byte>): (n: nat)
    requires Terminated(mem)
    ensures n < |mem| && mem[n] == 0
    ensures forall i :: 0 <= i < n ==> mem[i] != 0
  {
    if mem[0] == 0 then 0
    else
      assert Terminated(mem[1..]) by {
        var i :| 0 <= i < |mem| && mem[i] == 0;
        assert mem[1..][i - 1] == 0;
      }
      1 + Strlen(mem[1..])
  }

  /** The C string `s` followed by its terminator, as `iwxstr_ptr` and
      `CString::as_ptr` hand it to the engine. */
  function CString(s: seq<byte>): (mem: seq<byte>)
    ensures Terminated(mem)
    ensures 0 !in s ==> Strlen(mem) == |s| && mem[..Strlen(mem)] == s
  {
    var mem := s + [0];
    assert mem[|s|] == 0;
    if 0 !in s then
      StrlenOfTerminated(s);
      mem
    else
      mem
  }

  /** `strlen` of a NUL-free string followed by a NUL is its length. */
  lemma {:induction false} StrlenOfTerminated(s: seq<byte>)
    requires 0 !in s
    ensures Terminated(s + [0])
    ensures Strlen(s + [0]) == |s|
  {
    assert (s + [0])[|s|] == 0;
    if s != [] {
      assert (s + [0])[1..] == s[1..] + [0];
      assert s[0] != 0 && (s + [0])[0] == s[0];
      StrlenOfTerminated(s[1..]);
    }
  }
}
