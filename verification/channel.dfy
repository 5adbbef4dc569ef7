/** `src/channel.rs`: a cell that pairs a borrowed value with a result
    slot, so that an error raised where only a plain value can be returned
    (inside an engine callback) is kept and surfaced after the engine call.

    A closure `FnOnce(&mut T) -> Result<R>` is modelled as a function from
    the borrowed value to the value it leaves behind and its result. */
module Channels {
  import opened Types
  import opened Errors

  datatype Channel<T, R> = Channel(inner: T, slot: Result<R>)

  /** What a closure over the borrowed value did: the value as it left
      it, and what it returned. */
  datatype Call<T, R> = Call(inner: T, res: Result<R>)

  /** A channel after one `unwrap`, with the plain value it returned. */
  datatype Unwrapped<T, R> = Unwrapped(chan: Channel<T, R>, value: R)

  /** `Channel::unwrap`: a success is returned and the slot is left as
      it was; a failure is stored in the slot and `default` is returned. */
  function Unwrap<T, R>(ch: Channel<T, R>, default: R, f: T -> Call<T, R>): (r: Unwrapped<T, R>)
    ensures r.chan.inner == f(ch.inner).inner
    ensures f(ch.inner).res.Ok? ==> r.value == f(ch.inner).res.value && r.chan.slot == ch.slot
    ensures f(ch.inner).res.Err? ==> r.value == default && r.chan.slot == f(ch.inner).res
  {
    var c := f(ch.inner);
    match c.res
    case Ok(v) => Unwrapped(ch.(inner := c.inner), v)
    case Err(e) => Unwrapped(Channel(c.inner, Err(e)), default)
  }

  /** `Channel::unwrap_or_default`, with `R::default()` supplied. */
  function UnwrapOrDefault<T, R>(ch: Channel<T, R>, rDefault: R, f: T -> Call<T, R>): (r: Unwrapped<T, R>)
    ensures r.chan.inner == f(ch.inner).inner
    ensures f(ch.inner).res.Ok? ==> r.value == f(ch.inner).res.value && r.chan.slot == ch.slot
    ensures f(ch.inner).res.Err? ==> r.value == rDefault && r.chan.slot == f(ch.inner).res
  {
    Unwrap(ch, rDefault, f)
  }

  /** `Channel::catch`: like `unwrap`, but wrapped in `Ok`; it never
      reports the failure itself. */
  function Catch<T, R>(ch: Channel<T, R>, default: R, f: T -> Call<T, R>): (r: (Channel<T, R>, Result<R>))
    ensures r.1.Ok?
    ensures f(ch.inner).res.Err? ==> r.1.value == default && r.0.slot == f(ch.inner).res
    ensures f(ch.inner).res.Ok? ==> r.1 == f(ch.inner).res && r.0.slot == ch.slot
  {
    var c := f(ch.inner);
    match c.res
    case Ok(v) => (ch.(inner := c.inner), Ok(v))
    case Err(e) => (Channel(c.inner, Err(e)), Ok(default))
  }

  /** `Channel::set`: overwrites the slot unconditionally. */
  function Set<T, R>(ch: Channel<T, R>, v: Result<R>): (r: Channel<T, R>)
    ensures r.slot == v && r.inner == ch.inner
  {
    ch.(slot := v)
  }

  /** `Channel::get`: the current slot. */
  function Get<T, R>(ch: Channel<T, R>): (r: Result<R>)
    ensures r == ch.slot
  {
    ch.slot
  }

  /** `catch` is `unwrap` with its answer wrapped in `Ok`. */
  lemma CatchIsUnwrapInOk<T, R>(ch: Channel<T, R>, default: R, f: T -> Call<T, R>)
    ensures Catch(ch, default, f).0 == Unwrap(ch, default, f).chan
    ensures Catch(ch, default, f).1 == Ok(Unwrap(ch, default, f).value)
  {
  }

  /** Runs a sequence of closures through `unwrap`, as an engine does by
      calling back once per item. */
  function UnwrapAll<T, R>(ch: Channel<T, R>, default: R, fs: seq<T -> Call<T, R>>): (r: Channel<T, R>)
    decreases |fs|
  {
    if fs == [] then ch
    else UnwrapAll(Unwrap(ch, default, fs[0]).chan, default, fs[1..])
  }

  /** The slot after a run of `unwrap` calls: the error of the LAST failing
      call when some call failed (each new error overwrites the previous
      one, and later successes do not clear it); otherwise the initial slot. */
  lemma {:induction false} UnwrapAllLastErrorWins<T, R>(ch: Channel<T, R>, default: R, fs: seq<T -> Call<T, R>>, k: nat)
    requires k < |fs|
    requires Unwrap(UnwrapAll(ch, default, fs[..k]), default, fs[k]).chan.slot.Err?
    requires forall j :: k < j < |fs| ==> fs[j](UnwrapAll(ch, default, fs[..j]).inner).res.Ok?
    ensures UnwrapAll(ch, default, fs).slot == Unwrap(UnwrapAll(ch, default, fs[..k]), default, fs[k]).chan.slot
    decreases |fs|
  {
    var n := |fs| - 1;
    UnwrapAllSnoc(ch, default, fs, n);
    assert fs[..n + 1] == fs;
    if n > k {
      var init := fs[..n];
      assert init[..k] == fs[..k] && init[k] == fs[k];
      assert forall j :: k < j < |init| ==> init[..j] == fs[..j] && init[j] == fs[j];
      UnwrapAllLastErrorWins(ch, default, init, k);
    }
  }

  /** Unfolding `UnwrapAll` from the end. */
  lemma {:induction false} UnwrapAllSnoc<T, R>(ch: Channel<T, R>, default: R, fs: seq<T -> Call<T, R>>, k: nat)
    requires k < |fs|
    ensures UnwrapAll(ch, default, fs[..k + 1]) == Unwrap(UnwrapAll(ch, default, fs[..k]), default, fs[k]).chan
    decreases k
  {
    if k == 0 {
      assert fs[..1][1..] == [];
      assert fs[..0] == [];
    } else {
      var ch1 := Unwrap(ch, default, fs[0]).chan;
      assert fs[..k + 1][1..] == fs[1..][..k];
      assert fs[..k][1..] == fs[1..][..k - 1];
      UnwrapAllSnoc(ch1, default, fs[1..], k - 1);
      assert fs[1..][k - 1] == fs[k];
    }
  }

  /** A channel created with `Ok(x)` whose closures all succeed still holds
      `Ok(x)`: `get` returns exactly what was never overwritten. */
  lemma {:induction false} UnwrapAllKeepsOk<T, R>(ch: Channel<T, R>, default: R, fs: seq<T -> Call<T, R>>)
    requires forall i :: 0 <= i < |fs| ==> (forall t: T :: fs[i](t).res.Ok?)
    ensures Get(UnwrapAll(ch, default, fs)) == ch.slot
    decreases |fs|
  {
    if fs != [] {
      assert forall i :: 0 <= i < |fs[1..]| ==> fs[1..][i] == fs[i + 1];
      UnwrapAllKeepsOk(Unwrap(ch, default, fs[0]).chan, default, fs[1..]);
    }
  }
}
