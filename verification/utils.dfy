/** `src/utils.rs`: the one place where an engine return code becomes a
    crate result, and the `no_std` stand-in for `catch_unwind`. */
module Utils {
  import opened Types
  import opened Errors

  /** `check_rc`: zero is success; any other code is reported unchanged
      as a generic engine error, and no other error kind is produced. */
  function CheckRc(rc: u64): (r: Result<()>)
    ensures r.Ok? <==> rc == 0
    ensures r.Err? ==> r.error.Generic? && r.error.rc == rc
  {
    if rc != 0 then Err(Generic(rc)) else Ok(())
  }

  /** The `no_std` `catch_unwind`: without unwinding support it cannot
      observe a panic, so it always reports the closure's value. */
  function CatchUnwind<R>(f: () -> R): (r: Result<R>)
    ensures r.Ok? && r.value == f()
  {
    Ok(f())
  }

  /** Two engine calls agree on their crate result exactly when they agree
      on their return code: `check_rc` loses no information. */
  lemma CheckRcInjective(a: u64, b: u64)
    ensures CheckRc(a) == CheckRc(b) <==> a == b
  {
  }
}
