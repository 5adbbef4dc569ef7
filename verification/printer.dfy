/** `src/printer.rs`: the bridge between the engine's chunked JSON printer
    callback and a caller's sink (`JsonPrinter`).

    The engine serialises a value by calling `print_json` once per chunk.
    A chunk is either a literal buffer (`data` non-null, of `size` bytes or
    NUL-terminated when `size <= 0`) or one byte `ch` repeated `count`
    times (`data` null). The sink's errors cannot travel back through the
    C callback, so they are kept in a `Channel` and reported after the
    engine returns. The chunk list and the engine's final return code are
    inputs. */
module Printer {
  import opened Types
  import opened Errors
  import opened Ffi
  import opened Channels
  import opened XStr
  import Utils

  /** `JsonPrintFlags` bits. */
  const PRINT_PRETTY: byte := 0x1
  const PRINT_CODEPOINTS: byte := 0x2

  /** `flag.unwrap_or(JsonPrintFlags::PRINT_CODEPOINTS)`, shared by every
      `print` and `as_json` entry point. */
  function FlagOrDefault(flag: Option<byte>): (bits: byte)
    ensures flag.None? ==> bits == PRINT_CODEPOINTS
    ensures flag.Some? ==> bits == flag.value
  {
    flag.GetOr(PRINT_CODEPOINTS)
  }

  /** One call of the engine's printer callback. */
  datatype Chunk = Chunk(data: CPtr, size: i32, ch: i8, count: i32)

  /** The engine's side of the contract: the bytes the callback reads are
      there (`size` of them, or up to a terminator when `size <= 0`). */
  predicate Readable(c: Chunk) {
    c.data.Ptr? ==> (if c.size > 0 then c.size <= |c.data.mem| else Terminated(c.data.mem))
  }

  predicate AllReadable(chunks: seq<Chunk>) {
    forall i :: 0 <= i < |chunks| ==> Readable(chunks[i])
  }

  /** What `JsonPrinter::print(buf, count)` is asked to write. */
  datatype Piece = Piece(buf: seq<byte>, count: nat)

  /** The piece `print_json` offers the sink for a chunk, if any: a null
      buffer with a positive count is the byte `ch` repeated `count`
      times, a null buffer with a count of zero or less is nothing, and a
      literal buffer is written at least once, its length taken from
      `size` when positive and from `strlen` otherwise. */
  function Offer(c: Chunk): (o: Option<Piece>)
    requires Readable(c)
    ensures c.data.Null? ==> (o.Some? <==> c.count > 0)
    ensures c.data.Null? && o.Some? ==> o.value == Piece([AsU8(c.ch)], c.count)
    ensures c.data.Ptr? ==> o.Some? && o.value.count == (if c.count > 1 then c.count else 1)
    ensures c.data.Ptr? && c.size > 0 ==> o.value.buf == c.data.mem[..c.size]
    ensures c.data.Ptr? && c.size <= 0 ==> o.value.buf == c.data.mem[..Strlen(c.data.mem)] && 0 !in o.value.buf
  {
    match c.data
    case Null =>
      if c.count > 0 then Some(Piece([AsU8(c.ch)], c.count)) else None
    case Ptr(mem) =>
      var count := if 1 > c.count then 1 else c.count;
      var len := if c.size > 0 then c.size else Strlen(mem);
      Some(Piece(mem[..len], count))
  }

  /** `buf` written `n` times over. */
  function Repeat(buf: seq<byte>, n: nat): (r: seq<byte>)
    ensures |r| == n * |buf|
  {
    if n == 0 then [] else Repeat(buf, n - 1) + buf
  }

  /** The bytes a piece stands for. */
  function Expand(p: Piece): seq<byte> {
    Repeat(p.buf, p.count)
  }

  /** A padding chunk (null buffer, positive count) stands for exactly
      `count` copies of its byte. */
  lemma {:induction false} PaddingExpands(c: Chunk, i: nat)
    requires c.data.Null? && c.count > 0 && i < c.count
    ensures Offer(c).Some?
    ensures |Expand(Offer(c).value)| == c.count
    ensures Expand(Offer(c).value)[i] == AsU8(c.ch)
  {
    RepeatSingle(AsU8(c.ch), c.count, i);
  }

  lemma {:induction false} RepeatSingle(b: byte, n: nat, i: nat)
    requires i < n
    ensures Repeat([b], n)[i] == b
  {
    if i < n - 1 {
      RepeatSingle(b, n - 1, i);
    }
  }

  /** A sink: `JsonPrinter::print(&mut self, buf, count)`. */
  type Sink<!P> = (P, seq<byte>, nat) -> Call<P, ()>

  /** The callback's effect and its return value to the engine. */
  datatype Printed<P> = Printed(chan: Channel<P, ()>, rc: u64)

  /** `print_json`: offers the chunk's piece to the sink through
      `unwrap_or_default`, so a sink error is stored in the channel (and
      replaces any earlier one) and the callback still answers 0. */
  function PrintJson<P>(chan: Channel<P, ()>, sink: Sink<P>, c: Chunk): (r: Printed<P>)
    requires Readable(c)
    ensures r.rc == 0
    ensures Offer(c).None? ==> r.chan == chan
    ensures Offer(c).Some? ==>
      var call := sink(chan.inner, Offer(c).value.buf, Offer(c).value.count);
      r.chan.inner == call.inner && r.chan.slot == (if call.res.Err? then call.res else chan.slot)
  {
    match Offer(c)
    case None => Printed(chan, 0)
    case Some(p) =>
      var offer := (t: P) => sink(t, p.buf, p.count);
      Printed(UnwrapOrDefault(chan, (), offer).chan, 0)
  }

  /** The engine calling the printer back once per chunk. Every callback
      answers 0, so the engine never stops early. */
  function Feed<P>(chan: Channel<P, ()>, sink: Sink<P>, chunks: seq<Chunk>): (r: Channel<P, ()>)
    requires AllReadable(chunks)
    decreases |chunks|
  {
    if chunks == [] then chan
    else Feed(PrintJson(chan, sink, chunks[0]).chan, sink, chunks[1..])
  }

  /** Feeding one more chunk is one more callback on the channel as it was
      left: the last chunk's sink error, when there is one, is the slot's
      final content, whatever came before. */
  lemma {:induction false} FeedSnoc<P>(chan: Channel<P, ()>, sink: Sink<P>, chunks: seq<Chunk>, c: Chunk)
    requires AllReadable(chunks) && Readable(c)
    ensures AllReadable(chunks + [c])
    ensures Feed(chan, sink, chunks + [c]) == PrintJson(Feed(chan, sink, chunks), sink, c).chan
    decreases |chunks|
  {
    if chunks == [] {
      assert ([] + [c])[1..] == [];
    } else {
      assert (chunks + [c])[0] == chunks[0];
      assert (chunks + [c])[1..] == chunks[1..] + [c];
      FeedSnoc(PrintJson(chan, sink, chunks[0]).chan, sink, chunks[1..], c);
    }
  }

  /** The sink state after offering pieces in order, whatever each call
      answered. */
  function Deliver<P>(p: P, sink: Sink<P>, pieces: seq<Piece>): P
    decreases |pieces|
  {
    if pieces == [] then p else Deliver(sink(p, pieces[0].buf, pieces[0].count).inner, sink, pieces[1..])
  }

  /** The pieces the chunks stand for, in order. */
  function Offers(chunks: seq<Chunk>): (ps: seq<Piece>)
    requires AllReadable(chunks)
    decreases |chunks|
  {
    if chunks == [] then []
    else (match Offer(chunks[0]) case None => [] case Some(p) => [p]) + Offers(chunks[1..])
  }

  /** A sink error does not stop the stream: the sink receives every
      piece of every chunk, in order, exactly as if no call had failed. */
  lemma {:induction false} FeedOffersEveryChunk<P>(chan: Channel<P, ()>, sink: Sink<P>, chunks: seq<Chunk>)
    requires AllReadable(chunks)
    ensures Feed(chan, sink, chunks).inner == Deliver(chan.inner, sink, Offers(chunks))
    decreases |chunks|
  {
    if chunks != [] {
      var next := PrintJson(chan, sink, chunks[0]).chan;
      FeedOffersEveryChunk(next, sink, chunks[1..]);
      match Offer(chunks[0])
      case None =>
        assert Offers(chunks) == [] + Offers(chunks[1..]) == Offers(chunks[1..]);
      case Some(p) =>
        assert Offers(chunks) == [p] + Offers(chunks[1..]);
        assert ([p] + Offers(chunks[1..]))[1..] == Offers(chunks[1..]);
    }
  }

  /** `doc_print_json` / `jbl_print_json` once the engine entry point is
      chosen: the sink error kept in the channel is returned first, and the
      engine's return code is checked only when the sink never failed. */
  function PrintThrough<P>(target: P, sink: Sink<P>, chunks: seq<Chunk>, rc: u64): (r: Call<P, ()>)
    requires AllReadable(chunks)
    ensures r.inner == Deliver(target, sink, Offers(chunks))
    ensures Feed(Channel(target, Ok(())), sink, chunks).slot.Err? ==> r.res == Feed(Channel(target, Ok(())), sink, chunks).slot
    ensures Feed(Channel(target, Ok(())), sink, chunks).slot.Ok? ==> r.res == Utils.CheckRc(rc)
  {
    FeedOffersEveryChunk(Channel(target, Ok(())), sink, chunks);
    var chan := Feed(Channel(target, Ok(())), sink, chunks);
    match Get(chan)
    case Err(e) => Call(chan.inner, Err(e))
    case Ok(_) => Call(chan.inner, Utils.CheckRc(rc))
  }

  /** The two engine serialisers a document can be printed with. */
  datatype Serializer = JbnAsJson | JblAsJson

  /** A document as the engine hands it over: an optional parsed node
      beside the raw binary value. */
  datatype Doc = Doc(id: i64, hasNode: bool)

  /** The engine's reply to one serialisation: the chunks it calls back
      with, and its return code. */
  datatype Serialization = Serialization(chunks: seq<Chunk>, rc: u64)

  datatype DocPrinted<P> = DocPrinted(serializer: Serializer, flags: byte, out: Call<P, ()>)

  /** `doc_print_json`: the parsed node is serialised when present,
      otherwise the raw value; either way the channel protocol decides the
      result. `engine` is the reply of whichever serialiser is called. */
  function DocPrintJson<P>(doc: Doc, target: P, sink: Sink<P>, flags: byte, engine: Serialization): (r: DocPrinted<P>)
    requires AllReadable(engine.chunks)
    ensures r.serializer == (if doc.hasNode then JbnAsJson else JblAsJson)
    ensures r.flags == flags
    ensures r.out == PrintThrough(target, sink, engine.chunks, engine.rc)
  {
    var serializer := if doc.hasNode then JbnAsJson else JblAsJson;
    DocPrinted(serializer, flags, PrintThrough(target, sink, engine.chunks, engine.rc))
  }

  /** `jbl_print_json`: always the raw-value serialiser. */
  function JblPrintJson<P>(target: P, sink: Sink<P>, flags: byte, engine: Serialization): (r: DocPrinted<P>)
    requires AllReadable(engine.chunks)
    ensures r.serializer == JblAsJson
    ensures r.out == PrintThrough(target, sink, engine.chunks, engine.rc)
  {
    DocPrinted(JblAsJson, flags, PrintThrough(target, sink, engine.chunks, engine.rc))
  }

  // ---------------------------------------------------------------------
  // Sinks

  /** `impl<T: io::Write> JsonPrinter for T`: `write_all(buf)` `count`
      times, stopping at the first failure, then `flush`. It succeeds
      exactly when all `count` writes and the flush after them succeed.
      When a write fails, the result is that first failing write's call and
      `flush` is never applied; when all writes succeed, the result is the
      flush of the writer they leave. */
  function WritePrint<W>(w: W, writeAll: (W, seq<byte>) -> Call<W, ()>, flush: W -> Call<W, ()>, buf: seq<byte>, count: nat): (r: Call<W, ()>)
    ensures r.res.Ok? <==> WritesSucceed(w, writeAll, buf, count) && flush(Written(w, writeAll, buf, count)).res.Ok?
    ensures WritesSucceed(w, writeAll, buf, count) ==> r == flush(Written(w, writeAll, buf, count))
    ensures forall k :: 0 <= k < count && FirstFailure(w, writeAll, buf, k) ==> r == writeAll(Written(w, writeAll, buf, k), buf)
  {
    WriteTimesOutcome(w, writeAll, buf, count);
    var written := WriteTimes(w, writeAll, buf, count);
    if written.res.Err? then written else flush(written.inner)
  }

  function WriteTimes<W>(w: W, writeAll: (W, seq<byte>) -> Call<W, ()>, buf: seq<byte>, n: nat): Call<W, ()>
    decreases n
  {
    if n == 0 then Call(w, Ok(()))
    else
      var before := WriteTimes(w, writeAll, buf, n - 1);
      if before.res.Err? then before else writeAll(before.inner, buf)
  }

  /** The writer after `i` calls of `writeAll(_, buf)`, each applied to the
      previous call's writer; whether those calls succeeded is not looked at. */
  function Written<W>(w: W, writeAll: (W, seq<byte>) -> Call<W, ()>, buf: seq<byte>, i: nat): W
    decreases i
  {
    if i == 0 then w else writeAll(Written(w, writeAll, buf, i - 1), buf).inner
  }

  /** The first `n` writes of `buf` all succeed. */
  predicate WritesSucceed<W>(w: W, writeAll: (W, seq<byte>) -> Call<W, ()>, buf: seq<byte>, n: nat) {
    forall i :: 0 <= i < n ==> writeAll(Written(w, writeAll, buf, i), buf).res.Ok?
  }

  /** The `k`th write (counting from 0) is the first to fail. */
  predicate FirstFailure<W>(w: W, writeAll: (W, seq<byte>) -> Call<W, ()>, buf: seq<byte>, k: nat) {
    WritesSucceed(w, writeAll, buf, k) && writeAll(Written(w, writeAll, buf, k), buf).res.Err?
  }

  /** Writing `n` times succeeds exactly when every one of the `n` writes
      does, leaving the writer after all of them; otherwise the outcome is
      the first failing write's own call, and no later write happens. */
  lemma {:induction false} WriteTimesOutcome<W>(w: W, writeAll: (W, seq<byte>) -> Call<W, ()>, buf: seq<byte>, n: nat)
    ensures WriteTimes(w, writeAll, buf, n).res.Ok? <==> WritesSucceed(w, writeAll, buf, n)
    ensures WritesSucceed(w, writeAll, buf, n) ==> WriteTimes(w, writeAll, buf, n) == Call(Written(w, writeAll, buf, n), Ok(()))
    ensures forall k :: 0 <= k < n && FirstFailure(w, writeAll, buf, k) ==> WriteTimes(w, writeAll, buf, n) == writeAll(Written(w, writeAll, buf, k), buf)
  {
    if n > 0 {
      WriteTimesOutcome(w, writeAll, buf, n - 1);
      if WritesSucceed(w, writeAll, buf, n) {
        assert WritesSucceed(w, writeAll, buf, n - 1);
        var last := writeAll(Written(w, writeAll, buf, n - 1), buf);
        assert last.res.Ok? && last.res.value == ();
        assert last == Call(Written(w, writeAll, buf, n), Ok(()));
      }
      forall k | 0 <= k < n && FirstFailure(w, writeAll, buf, k)
        ensures WriteTimes(w, writeAll, buf, n) == writeAll(Written(w, writeAll, buf, k), buf)
      {
        if k < n - 1 {
          assert WriteTimes(w, writeAll, buf, n - 1).res.Err?;
        } else {
          assert WriteTimes(w, writeAll, buf, n - 1) == Call(Written(w, writeAll, buf, k), Ok(()));
        }
      }
    }
  }

  /** Some write fails exactly when there is a first one that does. */
  lemma {:induction false} FailureHasFirst<W>(w: W, writeAll: (W, seq<byte>) -> Call<W, ()>, buf: seq<byte>, n: nat)
    ensures !WritesSucceed(w, writeAll, buf, n) <==> exists k :: 0 <= k < n && FirstFailure(w, writeAll, buf, k)
  {
    if n > 0 {
      FailureHasFirst(w, writeAll, buf, n - 1);
      if !WritesSucceed(w, writeAll, buf, n) && WritesSucceed(w, writeAll, buf, n - 1) {
        assert FirstFailure(w, writeAll, buf, n - 1);
      }
    }
  }

  /** `Vec<u8>` as an `io::Write`: `write_all` appends and never fails. */
  function VecWriteAll(out: seq<byte>, buf: seq<byte>): Call<seq<byte>, ()> {
    Call(out + buf, Ok(()))
  }

  function VecFlush(out: seq<byte>): Call<seq<byte>, ()> {
    Call(out, Ok(()))
  }

  /** A vector sink receives `buf` concatenated `count` times. */
  lemma {:induction false} VecSinkRepeats(out: seq<byte>, buf: seq<byte>, count: nat)
    ensures WritePrint(out, VecWriteAll, VecFlush, buf, count) == Call(out + Repeat(buf, count), Ok(()))
  {
    VecWriteTimes(out, buf, count);
  }

  lemma {:induction false} VecWriteTimes(out: seq<byte>, buf: seq<byte>, n: nat)
    ensures WriteTimes(out, VecWriteAll, buf, n) == Call(out + Repeat(buf, n), Ok(()))
  {
    if n == 0 {
      assert out + Repeat(buf, 0) == out;
    } else {
      VecWriteTimes(out, buf, n - 1);
      var before := WriteTimes(out, VecWriteAll, buf, n - 1);
      assert before.res.Ok?;
      assert WriteTimes(out, VecWriteAll, buf, n) == VecWriteAll(before.inner, buf);
      assert Repeat(buf, n) == Repeat(buf, n - 1) + buf;
      assert out + Repeat(buf, n - 1) + buf == out + Repeat(buf, n);
    }
  }

  /** The vector sink as a `Sink`. */
  function VecSink(out: seq<byte>, buf: seq<byte>, count: nat): Call<seq<byte>, ()> {
    WritePrint(out, VecWriteAll, VecFlush, buf, count)
  }

  /** The bytes a list of pieces stands for. */
  function ExpandAll(ps: seq<Piece>): seq<byte>
    decreases |ps|
  {
    if ps == [] then [] else Expand(ps[0]) + ExpandAll(ps[1..])
  }

  /** `as_json::<Vec<u8>>`: printing into a vector yields the expansion of
      every chunk, in order, and fails only when the engine does. */
  lemma {:induction false} PrintToVec(out: seq<byte>, chunks: seq<Chunk>, rc: u64)
    requires AllReadable(chunks)
    ensures PrintThrough(out, VecSink, chunks, rc) == Call(out + ExpandAll(Offers(chunks)), Utils.CheckRc(rc))
  {
    FeedToVec(Channel(out, Ok(())), chunks);
  }

  lemma {:induction false} FeedToVec(chan: Channel<seq<byte>, ()>, chunks: seq<Chunk>)
    requires AllReadable(chunks)
    ensures Feed(chan, VecSink, chunks) == Channel(chan.inner + ExpandAll(Offers(chunks)), chan.slot)
    decreases |chunks|
  {
    if chunks == [] {
      assert chan.inner + ExpandAll([]) == chan.inner;
    } else {
      var next := PrintJson(chan, VecSink, chunks[0]).chan;
      match Offer(chunks[0])
      case None =>
        assert next == chan;
        FeedToVec(next, chunks[1..]);
        assert Offers(chunks) == [] + Offers(chunks[1..]) == Offers(chunks[1..]);
      case Some(p) =>
        VecSinkRepeats(chan.inner, p.buf, p.count);
        assert next == Channel(chan.inner + Expand(p), chan.slot);
        FeedToVec(next, chunks[1..]);
        assert Offers(chunks) == [p] + Offers(chunks[1..]);
        assert ([p] + Offers(chunks[1..]))[1..] == Offers(chunks[1..]);
        assert ExpandAll(Offers(chunks)) == Expand(p) + ExpandAll(Offers(chunks[1..]));
        assert chan.inner + Expand(p) + ExpandAll(Offers(chunks[1..])) == chan.inner + ExpandAll(Offers(chunks));
    }
  }

  /** The `no_std` `impl JsonPrinter for XString`: `push_bytes(buf)?`
      `count` times. `catRc(i)` is the allocator's answer to the i-th push.
      The pushes made before a failure stay in the buffer. */
  method XStringPrint(x: XString, buf: seq<byte>, count: nat, catRc: nat -> u64) returns (y: XString, r: Result<()>)
    ensures r.Ok? <==> (forall i :: 0 <= i < count ==> catRc(i) == 0)
    ensures r.Ok? ==> y.bytes == x.bytes + Repeat(buf, count)
    ensures r.Err? ==> r.error == AllocError
    ensures r.Err? ==> exists k :: 0 <= k < count && catRc(k) != 0 && (forall i :: 0 <= i < k ==> catRc(i) == 0) && y.bytes == x.bytes + Repeat(buf, k)
  {
    y := x;
    var i := 0;
    while i < count
      invariant 0 <= i <= count
      invariant forall j :: 0 <= j < i ==> catRc(j) == 0
      invariant y.bytes == x.bytes + Repeat(buf, i)
    {
      var pushed := PushBytes(y, buf, catRc(i));
      if pushed.Err? {
        return y, Err(pushed.error);
      }
      assert x.bytes + Repeat(buf, i) + buf == x.bytes + Repeat(buf, i + 1);
      y := pushed.value;
      i := i + 1;
    }
    r := Ok(());
  }

  /** The `op` pointer handed to the engine's own XString printer
      (`jbl_xstr_json_printer`): the buffer handle (`as_mut_ptr`), which is
      what that printer appends to, or the buffer's NUL-terminated character
      storage (`as_ptr`). */
  datatype PrinterArg = XStrHandle | XStrStorage(mem: seq<byte>)

  /** `as_json::<XString>` for a value whose binary size the engine reports
      as `size`: the buffer is pre-sized to `size * 2` (wrapping like a
      release-mode `usize` product), its handle is given to the engine's
      own printer, and the filled buffer is returned only when the engine
      succeeds. `text` is what that printer appended. */
  datatype Materialized = Materialized(presize: usize, arg: PrinterArg, result: Result<XString>)

  function AsJsonXString(size: usize, text: seq<byte>, rc: u64): (m: Materialized)
    ensures m.presize == (2 * size) % TWO_64
    ensures size < TWO_64 / 2 ==> m.presize == 2 * size
    ensures m.arg == XStrHandle
    ensures rc == 0 ==> m.result == Ok(XString(text))
    ensures rc != 0 ==> m.result == Err(Generic(rc))
  {
    var presize := (size * 2) % TWO_64;
    var data := NewWithSize(presize);
    Materialized(presize, XStrHandle, Utils.CheckRc(rc).AndOk(Push(data, text)))
  }
}
