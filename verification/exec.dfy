/** `src/exec.rs`: running a query and visiting its result documents.

    `exec_with` hands the engine a C callback (`visit_doc`) and a
    `Channel` holding the caller's visitor. For every matching document the
    engine calls back; the callback asks the visitor for a `VisitStep`,
    turns it into the engine's step code, and keeps any error (or caught
    panic) in the channel, where `exec_with` finds it after the engine
    returns. Every query algorithm (`count`, `first`, `fold`, `to_vec`,
    ...) is one visitor over this driver.

    The engine is an input: the documents it delivers, its return code and
    the query plan it writes for the log. A visitor is its state plus a
    step function; a user closure is a function of its arguments (and of
    its own state where the source gives it one). */
module Exec {
  import opened Types
  import opened Errors
  import opened Channels
  import opened XStr
  import opened Printer
  import Utils

  // ---------------------------------------------------------------------
  // Steps and the callback

  /** What a visitor tells the engine after a document. */
  datatype VisitStep = Stop | Prev | Next | Custom(v: i64)

  /** `From<VisitStep> for i64`: the engine's step code. Custom codes below
      -2 are clamped to 0, so the engine only ever sees 0 (stop), 1 (next),
      -1 (previous) or a custom code of at least -2. */
  function StepCode(step: VisitStep): (code: i64)
    ensures code >= -2
    ensures code == 0 <==> step.Stop? || (step.Custom? && (step.v == 0 || step.v < -2))
    ensures code == 1 <==> step.Next? || step == Custom(1)
    ensures code == -1 <==> step.Prev? || step == Custom(-1)
    ensures step.Custom? && step.v >= -2 ==> code == step.v
  {
    match step
    case Stop => 0
    case Prev => -1
    case Next => 1
    case Custom(v) => if v < -2 then 0 else v
  }

  /** A visitor's (or user closure's) behaviour on one call: it returns a
      result, or it panics; either way its state may have changed. */
  datatype Reply<S, R> = Returned(state: S, res: Result<R>) | Panicked(state: S, payload: string)

  /** `Visitor::on_next`. */
  type Visitor<!S> = (S, Doc) -> Reply<S, VisitStep>

  /** What `visit_doc` leaves behind: the channel, the step code written to
      `*step`, and the callback's return value. */
  datatype Callback<S> = Callback(chan: Channel<S, VisitStep>, step: i64, rc: u64)

  /** `visit_doc` with a non-null context: the visitor runs under
      `catch_unwind` and `chan.unwrap(VisitStep::Stop, ..)`. A returned
      step becomes the step code and leaves the slot alone; a returned
      error is stored and stops the engine; a panic is stored as
      `EjdbError::Panic` and stops the engine. The callback itself always
      answers 0. */
  function VisitDoc<S>(chan: Channel<S, VisitStep>, v: Visitor<S>, doc: Doc): (r: Callback<S>)
    ensures r.rc == 0
    ensures r.chan.inner == v(chan.inner, doc).state
    ensures v(chan.inner, doc).Returned? && v(chan.inner, doc).res.Ok? ==>
      r.chan.slot == chan.slot && r.step == StepCode(v(chan.inner, doc).res.value)
    ensures v(chan.inner, doc).Returned? && v(chan.inner, doc).res.Err? ==>
      r.chan.slot == v(chan.inner, doc).res && r.step == 0
    ensures v(chan.inner, doc).Panicked? ==>
      r.chan.slot == Err(Panic(v(chan.inner, doc).payload)) && r.step == 0
  {
    match v(chan.inner, doc)
    case Returned(s, res) =>
      var u := Unwrap(chan, Stop, (_: S) => Call(s, res));
      Callback(u.chan, StepCode(u.value), 0)
    case Panicked(s, p) =>
      Callback(Set(chan.(inner := s), Err(Panic(p))), 0, 0)
  }

  /** A caught panic has exactly the effect of the visitor returning
      `Err(EjdbError::Panic(payload))`. */
  lemma PanicActsAsError<S>(chan: Channel<S, VisitStep>, doc: Doc, s: S, p: string)
    ensures VisitDoc(chan, (_: S, _: Doc) => Panicked(s, p), doc)
         == VisitDoc(chan, (_: S, _: Doc) => Returned(s, Err(Panic(p))), doc)
  {
  }

  /** `visit_doc` as the engine calls it: with a null context the callback
      does nothing, leaving the engine's default step in place. */
  function OnDoc<S>(ctx: Option<Channel<S, VisitStep>>, v: Visitor<S>, doc: Doc, step: i64): (r: (Option<Channel<S, VisitStep>>, i64, u64))
    ensures r.2 == 0
    ensures ctx.None? ==> r.0.None? && r.1 == step
    ensures ctx.Some? ==> r.0 == Some(VisitDoc(ctx.value, v, doc).chan) && r.1 == VisitDoc(ctx.value, v, doc).step
  {
    match ctx
    case None => (None, step, 0)
    case Some(chan) =>
      var cb := VisitDoc(chan, v, doc);
      (Some(cb.chan), cb.step, cb.rc)
  }

  // ---------------------------------------------------------------------
  // The engine loop

  /** The engine delivering documents to the callback: it moves on to the
      next document only on step code 1. */
  datatype Run<S> = Run(chan: Channel<S, VisitStep>, visited: nat)

  function Drive<S>(chan: Channel<S, VisitStep>, v: Visitor<S>, docs: seq<Doc>): (r: Run<S>)
    ensures r.visited <= |docs|
    ensures docs != [] ==> r.visited >= 1
    decreases |docs|
  {
    if docs == [] then Run(chan, 0)
    else
      var cb := VisitDoc(chan, v, docs[0]);
      if cb.step == 1 then
        var rest := Drive(cb.chan, v, docs[1..]);
        Run(rest.chan, rest.visited + 1)
      else Run(cb.chan, 1)
  }

  /** The meaning of a visit without the channel: visit documents in order
      until the visitor fails, panics, or answers anything but a step whose
      code is 1. */
  datatype Outcome<S> = Outcome(state: S, failure: Option<EjdbError>, visited: nat)

  function Visit<S>(v: Visitor<S>, s: S, docs: seq<Doc>): Outcome<S>
    decreases |docs|
  {
    if docs == [] then Outcome(s, None, 0)
    else
      match v(s, docs[0])
      case Panicked(s1, p) => Outcome(s1, Some(Panic(p)), 1)
      case Returned(s1, Err(e)) => Outcome(s1, Some(e), 1)
      case Returned(s1, Ok(step)) =>
        if StepCode(step) == 1 then
          var o := Visit(v, s1, docs[1..]);
          o.(visited := o.visited + 1)
        else Outcome(s1, None, 1)
  }

  /** The channel protocol is sound: after the engine loop the channel
      holds the visitor's final state, its slot holds the failure that
      stopped the visit (or is untouched when there was none), and the
      documents visited are those the channel-free visit reaches. */
  lemma {:induction false} DriveIsVisit<S>(chan: Channel<S, VisitStep>, v: Visitor<S>, docs: seq<Doc>)
    ensures Drive(chan, v, docs).chan.inner == Visit(v, chan.inner, docs).state
    ensures Drive(chan, v, docs).visited == Visit(v, chan.inner, docs).visited
    ensures Drive(chan, v, docs).chan.slot
         == (if Visit(v, chan.inner, docs).failure.Some? then Err(Visit(v, chan.inner, docs).failure.value) else chan.slot)
    decreases |docs|
  {
    if docs != [] {
      var cb := VisitDoc(chan, v, docs[0]);
      if cb.step == 1 {
        DriveIsVisit(cb.chan, v, docs[1..]);
      }
    }
  }

  // ---------------------------------------------------------------------
  // Queries

  /** `Query`: the compiled JQL and database are the engine; the builder
      state is the optional skip and limit and whether a plan log is set. */
  datatype Query = Query(skip: Option<usize>, limit: Option<usize>, log: bool)

  /** `Query::new`: nothing set. */
  function NewQuery(): (q: Query)
    ensures q.skip.None? && q.limit.None? && !q.log
  {
    Query(None, None, false)
  }

  /** `skip`, `take` and `log` set one field each and keep the others. */
  function Skip(q: Query, n: usize): (r: Query)
    ensures r.skip == Some(n) && r.limit == q.limit && r.log == q.log
  {
    q.(skip := Some(n))
  }

  function Take(q: Query, n: usize): (r: Query)
    ensures r.limit == Some(n) && r.skip == q.skip && r.log == q.log
  {
    q.(limit := Some(n))
  }

  function Log(q: Query): (r: Query)
    ensures r.log && r.skip == q.skip && r.limit == q.limit
  {
    q.(log := true)
  }

  /** The `skip` and `limit` fields of the engine's execution context. */
  datatype ExecContext = ExecContext(skip: i64, limit: i64)

  /** Only the values that were set are written (as `usize as i64`); an
      unset one keeps the context's default of 0. */
  function ContextOf(q: Query): (ctx: ExecContext)
    ensures q.skip.None? ==> ctx.skip == 0
    ensures q.skip.Some? ==> ctx.skip == AsI64(q.skip.value)
    ensures q.limit.None? ==> ctx.limit == 0
    ensures q.limit.Some? ==> ctx.limit == AsI64(q.limit.value)
  {
    ExecContext(
      if q.skip.Some? then AsI64(q.skip.value) else 0,
      if q.limit.Some? then AsI64(q.limit.value) else 0)
  }

  /** What the engine reports for one execution: every matching document
      in order, its return code, and the query plan it writes to the log. */
  datatype Engine = Engine(matches: seq<Doc>, rc: u64, plan: seq<byte>)

  function Min(a: int, b: int): int {
    if a < b then a else b
  }

  /** The engine's reading of the context: skip the first `skip` matches,
      then deliver at most `limit`, where a value of 0 or less is unset. */
  function Window(docs: seq<Doc>, skip: i64, limit: i64): (w: seq<Doc>)
    ensures var from := if skip > 0 then Min(skip, |docs|) else 0;
      |w| == (if limit > 0 then Min(limit, |docs| - from) else |docs| - from)
      && forall i :: 0 <= i < |w| ==> w[i] == docs[from + i]
  {
    var rest := if skip > 0 then docs[Min(skip, |docs|)..] else docs;
    if limit > 0 then rest[..Min(limit, |rest|)] else rest
  }

  /** The documents the engine hands to the visitor for a query. */
  function Delivered(q: Query, e: Engine): seq<Doc> {
    Window(e.matches, ContextOf(q).skip, ContextOf(q).limit)
  }

  /** One execution: the context given to the engine, the visitor's final
      state, how many documents it saw, every plan passed to the log
      closure, and the result. */
  datatype Execution<S> = Execution(ctx: ExecContext, state: S, visited: nat, explained: seq<seq<byte>>, result: Result<()>)

  /** `exec_with`: the log closure is called exactly once, after the
      engine, when a log is set (also when the engine fails); a failure
      stored by the callback is returned before the engine's own return
      code is looked at. */
  function ExecWith<S>(q: Query, v: Visitor<S>, s: S, e: Engine): (r: Execution<S>)
    ensures r.ctx == ContextOf(q)
    ensures r.explained == (if q.log then [e.plan] else [])
    ensures r.state == Visit(v, s, Delivered(q, e)).state
    ensures r.visited == Visit(v, s, Delivered(q, e)).visited
    ensures Visit(v, s, Delivered(q, e)).failure.Some? ==> r.result == Err(Visit(v, s, Delivered(q, e)).failure.value)
    ensures Visit(v, s, Delivered(q, e)).failure.None? ==> r.result == Utils.CheckRc(e.rc)
  {
    var ctx := ContextOf(q);
    var chan := Channel(s, Ok(Stop));
    var run := Drive(chan, v, Window(e.matches, ctx.skip, ctx.limit));
    DriveIsVisit(chan, v, Window(e.matches, ctx.skip, ctx.limit));
    var explained := if q.log then [e.plan] else [];
    var result := match Get(run.chan)
      case Err(err) => Err(err)
      case Ok(_) => Utils.CheckRc(e.rc);
    Execution(ctx, run.chan.inner, run.visited, explained, result)
  }

  /** The answer of a query algorithm. */
  datatype Answer<R> = Answer(visited: nat, explained: seq<seq<byte>>, result: Result<R>)

  // ---------------------------------------------------------------------
  // for_each and fold

  /** A `for_each` closure: `FnMut(&JsonDoc) -> Result<()>` with its own
      state `C`. */
  type Action<!C> = (C, Doc) -> Reply<C, ()>

  /** `ForEachVisitor::on_next`: the closure's success means "next". */
  function ForEachStep<C>(f: Action<C>): Visitor<C> {
    (c: C, d: Doc) =>
      match f(c, d)
      case Returned(c1, Ok(_)) => Returned(c1, Ok(Next))
      case Returned(c1, Err(e)) => Returned(c1, Err(e))
      case Panicked(c1, p) => Panicked(c1, p)
  }

  /** Applying a closure to every document in order, stopping at the first
      failure (a panic counts as `EjdbError::Panic`). */
  function ForEachSpec<C>(f: Action<C>, c: C, docs: seq<Doc>): Call<C, ()>
    decreases |docs|
  {
    if docs == [] then Call(c, Ok(()))
    else
      match f(c, docs[0])
      case Returned(c1, Ok(_)) => ForEachSpec(f, c1, docs[1..])
      case Returned(c1, Err(e)) => Call(c1, Err(e))
      case Panicked(c1, p) => Call(c1, Err(Panic(p)))
  }

  lemma {:induction false} VisitForEach<C>(f: Action<C>, c: C, docs: seq<Doc>)
    ensures Visit(ForEachStep(f), c, docs).state == ForEachSpec(f, c, docs).inner
    ensures Visit(ForEachStep(f), c, docs).failure.None? <==> ForEachSpec(f, c, docs).res.Ok?
    ensures Visit(ForEachStep(f), c, docs).failure.Some? ==>
      ForEachSpec(f, c, docs).res == Err(Visit(ForEachStep(f), c, docs).failure.value)
    ensures ForEachSpec(f, c, docs).res.Ok? ==> Visit(ForEachStep(f), c, docs).visited == |docs|
    decreases |docs|
  {
    if docs != [] {
      match f(c, docs[0])
      case Returned(c1, Ok(_)) =>
        assert StepCode(Next) == 1;
        VisitForEach(f, c1, docs[1..]);
      case Returned(c1, Err(e)) =>
      case Panicked(c1, p) =>
    }
  }

  /** `for_each`: the closure sees every delivered document until it
      first fails; that failure is the result, otherwise the engine's. */
  function ForEach<C>(q: Query, f: Action<C>, c: C, e: Engine): (r: Execution<C>)
    ensures r.state == ForEachSpec(f, c, Delivered(q, e)).inner
    ensures ForEachSpec(f, c, Delivered(q, e)).res.Err? ==> r.result == ForEachSpec(f, c, Delivered(q, e)).res
    ensures ForEachSpec(f, c, Delivered(q, e)).res.Ok? ==>
      r.result == Utils.CheckRc(e.rc) && r.visited == |Delivered(q, e)|
    ensures r.explained == (if q.log then [e.plan] else [])
  {
    VisitForEach(f, c, Delivered(q, e));
    ExecWith(q, ForEachStep(f), c, e)
  }

  /** A `fold` closure `FnMut(T, &JsonDoc) -> Result<T>`. */
  type Folder<!T> = (T, Doc) -> Result<T>

  /** The left fold of a fallible step over the documents. */
  function FoldSpec<T>(f: Folder<T>, acc: T, docs: seq<Doc>): Result<T>
    decreases |docs|
  {
    if docs == [] then Ok(acc)
    else
      match f(acc, docs[0])
      case Err(e) => Err(e)
      case Ok(next) => FoldSpec(f, next, docs[1..])
  }

  const UNWRAP_NONE: string := "called `Option::unwrap()` on a `None` value"

  /** The `for_each` closure `fold` builds: it takes the accumulator out of
      its `Option` (which would panic on `None`), and puts the step's value
      back only on success. */
  function FoldAction<T>(f: Folder<T>): Action<Option<T>> {
    (acc: Option<T>, d: Doc) =>
      match acc
      case None => Panicked(None, UNWRAP_NONE)
      case Some(v) =>
        match f(v, d)
        case Ok(next) => Returned(Some(next), Ok(()))
        case Err(e) => Returned(None, Err(e))
  }

  /** The `Option` dance is sound: while the fold succeeds the accumulator
      is always present (so neither `unwrap` panics), and it is emptied
      exactly when a step fails. */
  lemma {:induction false} FoldActionIsFold<T>(f: Folder<T>, acc: T, docs: seq<Doc>)
    ensures FoldSpec(f, acc, docs).Ok? ==> ForEachSpec(FoldAction(f), Some(acc), docs) == Call(Some(FoldSpec(f, acc, docs).value), Ok(()))
    ensures FoldSpec(f, acc, docs).Err? ==> ForEachSpec(FoldAction(f), Some(acc), docs) == Call(None, FoldSpec(f, acc, docs).PropagateFailure())
    decreases |docs|
  {
    if docs != [] {
      match f(acc, docs[0])
      case Err(e) =>
      case Ok(next) =>
        FoldActionIsFold(f, next, docs[1..]);
    }
  }

  /** `fold`: the fold of the delivered documents when every step
      succeeds and the engine does; otherwise the first failure. */
  function Fold<T>(q: Query, init: T, f: Folder<T>, e: Engine): (r: Answer<T>)
    ensures FoldSpec(f, init, Delivered(q, e)).Err? ==> r.result == FoldSpec(f, init, Delivered(q, e)).PropagateFailure()
    ensures FoldSpec(f, init, Delivered(q, e)).Ok? ==>
      r.result == Utils.CheckRc(e.rc).AndOk(FoldSpec(f, init, Delivered(q, e)).value) && r.visited == |Delivered(q, e)|
    ensures r.explained == (if q.log then [e.plan] else [])
  {
    FoldActionIsFold(f, init, Delivered(q, e));
    var run := ForEach(q, FoldAction(f), Some(init), e);
    var result := match run.result
      case Err(err) => Err(err)
      case Ok(_) =>
        match run.state
        case Some(v) => Ok(v)
        case None => assert false; Err(Panic(UNWRAP_NONE));
    Answer(run.visited, run.explained, result)
  }

  // ---------------------------------------------------------------------
  // count, any, count_fast

  /** The `count` step `|acc, _| Ok(acc + 1)`. */
  function Increment(n: nat, d: Doc): Result<nat> {
    Ok(n + 1)
  }

  lemma {:induction false} FoldIncrementCounts(n: nat, docs: seq<Doc>)
    ensures FoldSpec(Increment, n, docs) == Ok(n + |docs|)
    decreases |docs|
  {
    if docs != [] {
      FoldIncrementCounts(n + 1, docs[1..]);
    }
  }

  /** `count`: the number of delivered documents, when the engine
      succeeds. */
  function Count(q: Query, e: Engine): (r: Answer<nat>)
    ensures r.result == Utils.CheckRc(e.rc).AndOk(|Delivered(q, e)|)
    ensures r.explained == (if q.log then [e.plan] else [])
  {
    FoldIncrementCounts(0, Delivered(q, e));
    Fold(q, 0, Increment, e)
  }

  /** The scenario of the crate's skip/limit test: eight matches, skip 2,
      take 3, count 3. */
  lemma SkipTakeCount(matches: seq<Doc>)
    requires |matches| == 8
    ensures Count(Take(Skip(NewQuery(), 2), 3), Engine(matches, 0, [])).result == Ok(3)
  {
    var q := Take(Skip(NewQuery(), 2), 3);
    assert ContextOf(q) == ExecContext(2, 3);
    assert |Delivered(q, Engine(matches, 0, []))| == 3;
  }

  /** `any`: whether anything was delivered. */
  function Any(q: Query, e: Engine): (r: Answer<bool>)
    ensures r.result == Utils.CheckRc(e.rc).AndOk(Delivered(q, e) != [])
  {
    var c := Count(q, e);
    Answer(c.visited, c.explained, c.result.Map((n: nat) => n > 0))
  }

  /** The engine's answer to `ejdb_count`. */
  datatype CountReply = CountReply(rc: u64, count: i64)

  /** `count_fast`: the engine counts on its own, with the limit (0 when
      unset) as its bound and no skip and no log; a negative count is
      reported as 0. */
  function CountFast(q: Query, e: CountReply): (r: (i64, Result<usize>))
    ensures r.0 == AsI64(q.limit.GetOr(0))
    ensures e.rc != 0 ==> r.1 == Err(Generic(e.rc))
    ensures e.rc == 0 ==> r.1.Ok? && r.1.value == (if e.count < 0 then 0 else e.count)
  {
    var limit := AsI64(q.limit.GetOr(0));
    (limit, Utils.CheckRc(e.rc).Map((_: ()) => if e.count < 0 then 0 else e.count as usize))
  }

  /** `count_fast` does not depend on the skip or on the log. */
  lemma CountFastIgnoresSkipAndLog(q: Query, skip: Option<usize>, log: bool, e: CountReply)
    ensures CountFast(q.(skip := skip, log := log), e) == CountFast(q, e)
  {
  }

  // ---------------------------------------------------------------------
  // to_vec and to_map

  /** Applying a fallible closure to every document: the first failure, or
      every value in order. */
  function MapAll<T>(f: Doc -> Result<T>, docs: seq<Doc>): (r: Result<seq<T>>)
    ensures r.Ok? ==> |r.value| == |docs| && forall i :: 0 <= i < |docs| ==> f(docs[i]) == Ok(r.value[i])
    ensures r.Err? ==> exists i :: 0 <= i < |docs| && f(docs[i]) == Err(r.error) && forall j :: 0 <= j < i ==> f(docs[j]).Ok?
    decreases |docs|
  {
    if docs == [] then Ok([])
    else
      match f(docs[0])
      case Err(e) => Err(e)
      case Ok(v) =>
        match MapAll(f, docs[1..])
        case Err(e) =>
          var i :| 0 <= i < |docs[1..]| && f(docs[1..][i]) == Err(e) && forall j :: 0 <= j < i ==> f(docs[1..][j]).Ok?;
          assert f(docs[i + 1]) == Err(e);
          Err(e)
        case Ok(vs) => Ok([v] + vs)
  }

  /** The `to_vec` fold step: push the closure's value. */
  function PushInto<T>(f: Doc -> Result<T>): Folder<seq<T>> {
    (acc: seq<T>, d: Doc) =>
      match f(d)
      case Ok(v) => Ok(acc + [v])
      case Err(e) => Err(e)
  }

  lemma {:induction false} FoldPushIsMapAll<T>(f: Doc -> Result<T>, acc: seq<T>, docs: seq<Doc>)
    ensures MapAll(f, docs).Ok? ==> FoldSpec(PushInto(f), acc, docs) == Ok(acc + MapAll(f, docs).value)
    ensures MapAll(f, docs).Err? ==> FoldSpec(PushInto(f), acc, docs) == Err(MapAll(f, docs).error)
    decreases |docs|
  {
    if docs == [] {
      assert acc + [] == acc;
    } else {
      match f(docs[0])
      case Err(e) =>
      case Ok(v) =>
        FoldPushIsMapAll(f, acc + [v], docs[1..]);
        if MapAll(f, docs[1..]).Ok? {
          assert acc + [v] + MapAll(f, docs[1..]).value == acc + ([v] + MapAll(f, docs[1..]).value);
        }
    }
  }

  /** `to_vec`: the closure's values for the delivered documents, in
      delivery order. */
  function ToVec<T>(q: Query, f: Doc -> Result<T>, e: Engine): (r: Answer<seq<T>>)
    ensures MapAll(f, Delivered(q, e)).Err? ==> r.result == MapAll(f, Delivered(q, e))
    ensures MapAll(f, Delivered(q, e)).Ok? ==> r.result == Utils.CheckRc(e.rc).AndOk(MapAll(f, Delivered(q, e)).value)
  {
    FoldPushIsMapAll(f, [], Delivered(q, e));
    assert MapAll(f, Delivered(q, e)).Ok? ==> [] + MapAll(f, Delivered(q, e)).value == MapAll(f, Delivered(q, e)).value;
    Fold(q, [], PushInto(f), e)
  }

  /** The `to_map` fold step: insert the closure's pair, replacing the
      value of a key already present. */
  function InsertInto<K, V>(f: Doc -> Result<(K, V)>): Folder<map<K, V>> {
    (m: map<K, V>, d: Doc) =>
      match f(d)
      case Ok(kv) => Ok(m[kv.0 := kv.1])
      case Err(e) => Err(e)
  }

  /** Inserting pairs in order. */
  function InsertAll<K, V>(m: map<K, V>, ps: seq<(K, V)>): map<K, V>
    decreases |ps|
  {
    if ps == [] then m else InsertAll(m[ps[0].0 := ps[0].1], ps[1..])
  }

  lemma {:induction false} FoldInsertIsInsertAll<K, V>(f: Doc -> Result<(K, V)>, m: map<K, V>, docs: seq<Doc>)
    ensures MapAll(f, docs).Ok? ==> FoldSpec(InsertInto(f), m, docs) == Ok(InsertAll(m, MapAll(f, docs).value))
    ensures MapAll(f, docs).Err? ==> FoldSpec(InsertInto(f), m, docs) == Err(MapAll(f, docs).error)
    decreases |docs|
  {
    if docs != [] {
      match f(docs[0])
      case Err(e) =>
      case Ok(kv) =>
        FoldInsertIsInsertAll(f, m[kv.0 := kv.1], docs[1..]);
        if MapAll(f, docs[1..]).Ok? {
          var ps := MapAll(f, docs).value;
          assert ps[0] == kv && ps[1..] == MapAll(f, docs[1..]).value;
        }
    }
  }

  /** After inserting pairs, a key is present exactly when it was
      before or some pair has it. */
  lemma {:induction false} InsertAllKeys<K, V>(m: map<K, V>, ps: seq<(K, V)>, k: K)
    ensures k in InsertAll(m, ps) <==> k in m || exists i :: 0 <= i < |ps| && ps[i].0 == k
    decreases |ps|
  {
    if ps != [] {
      InsertAllKeys(m[ps[0].0 := ps[0].1], ps[1..], k);
      if exists i :: 0 <= i < |ps| && ps[i].0 == k {
        var i :| 0 <= i < |ps| && ps[i].0 == k;
        if i > 0 {
          assert ps[1..][i - 1].0 == k;
        }
      }
      if exists i :: 0 <= i < |ps[1..]| && ps[1..][i].0 == k {
        var i :| 0 <= i < |ps[1..]| && ps[1..][i].0 == k;
        assert ps[i + 1].0 == k;
      }
    }
  }

  /** A key no pair has keeps its old value. */
  lemma {:induction false} InsertAllUntouched<K, V>(m: map<K, V>, ps: seq<(K, V)>, k: K)
    requires k in m
    requires forall i :: 0 <= i < |ps| ==> ps[i].0 != k
    ensures k in InsertAll(m, ps) && InsertAll(m, ps)[k] == m[k]
    decreases |ps|
  {
    if ps != [] {
      assert ps[0].0 != k;
      assert forall i :: 0 <= i < |ps[1..]| ==> ps[1..][i] == ps[i + 1];
      InsertAllUntouched(m[ps[0].0 := ps[0].1], ps[1..], k);
    }
  }

  /** The value of a key is the one of its last pair. */
  lemma {:induction false} InsertAllLastWins<K, V>(m: map<K, V>, ps: seq<(K, V)>, i: nat)
    requires i < |ps|
    requires forall j :: i < j < |ps| ==> ps[j].0 != ps[i].0
    ensures ps[i].0 in InsertAll(m, ps) && InsertAll(m, ps)[ps[i].0] == ps[i].1
    decreases |ps|
  {
    var m1 := m[ps[0].0 := ps[0].1];
    if i == 0 {
      assert forall j :: 0 <= j < |ps[1..]| ==> ps[1..][j] == ps[j + 1];
      InsertAllUntouched(m1, ps[1..], ps[0].0);
    } else {
      assert ps[1..][i - 1] == ps[i];
      assert forall j :: i - 1 < j < |ps[1..]| ==> ps[1..][j] == ps[j + 1];
      InsertAllLastWins(m1, ps[1..], i - 1);
    }
  }

  /** `to_map`: one entry per distinct key among the closure's pairs for
      the delivered documents, holding the value of the last pair with
      that key. */
  function ToMap<K, V>(q: Query, f: Doc -> Result<(K, V)>, e: Engine): (r: Answer<map<K, V>>)
    ensures MapAll(f, Delivered(q, e)).Err? ==> r.result == MapAll(f, Delivered(q, e)).PropagateFailure()
    ensures MapAll(f, Delivered(q, e)).Ok? ==> r.result == Utils.CheckRc(e.rc).AndOk(InsertAll(map[], MapAll(f, Delivered(q, e)).value))
  {
    FoldInsertIsInsertAll(f, map[], Delivered(q, e));
    Fold(q, map[], InsertInto(f), e)
  }

  /** The entries of a successful `to_map`, stated on the documents: a key
      is present exactly when some document produced it, and it maps to the
      value of the last document that did. */
  lemma ToMapLastWins<K, V>(q: Query, f: Doc -> Result<(K, V)>, e: Engine)
    requires ToMap(q, f, e).result.Ok?
    ensures forall i :: 0 <= i < |Delivered(q, e)| ==> f(Delivered(q, e)[i]).Ok?
    ensures forall k :: k in ToMap(q, f, e).result.value <==>
      exists i :: 0 <= i < |Delivered(q, e)| && f(Delivered(q, e)[i]).value.0 == k
    ensures forall i :: 0 <= i < |Delivered(q, e)| && IsLastKey(f, Delivered(q, e), i) ==>
      f(Delivered(q, e)[i]).value.0 in ToMap(q, f, e).result.value
      && ToMap(q, f, e).result.value[f(Delivered(q, e)[i]).value.0] == f(Delivered(q, e)[i]).value.1
  {
    var docs := Delivered(q, e);
    assert ToMap(q, f, e).result.value == InsertAll(map[], MapAll(f, docs).value);
    MapAllLastWins(f, docs);
  }

  lemma MapAllLastWins<K, V>(f: Doc -> Result<(K, V)>, docs: seq<Doc>)
    requires MapAll(f, docs).Ok?
    ensures forall i :: 0 <= i < |docs| ==> f(docs[i]).Ok?
    ensures forall k :: k in InsertAll(map[], MapAll(f, docs).value) <==>
      exists i :: 0 <= i < |docs| && f(docs[i]).value.0 == k
    ensures forall i :: 0 <= i < |docs| && IsLastKey(f, docs, i) ==>
      f(docs[i]).value.0 in InsertAll(map[], MapAll(f, docs).value)
      && InsertAll(map[], MapAll(f, docs).value)[f(docs[i]).value.0] == f(docs[i]).value.1
  {
    var ps := MapAll(f, docs).value;
    assert forall i :: 0 <= i < |docs| ==> f(docs[i]) == Ok(ps[i]);
    forall k
      ensures k in InsertAll(map[], ps) <==> exists i :: 0 <= i < |docs| && f(docs[i]).value.0 == k
    {
      InsertAllKeys(map[], ps, k);
      if exists i :: 0 <= i < |ps| && ps[i].0 == k {
        var i :| 0 <= i < |ps| && ps[i].0 == k;
        assert f(docs[i]).value.0 == k;
      }
    }
    forall i | 0 <= i < |docs| && IsLastKey(f, docs, i)
      ensures f(docs[i]).value.0 in InsertAll(map[], ps) && InsertAll(map[], ps)[f(docs[i]).value.0] == f(docs[i]).value.1
    {
      InsertAllLastWins(map[], ps, i);
    }
  }

  /** No later document produces the key of document `i`. */
  predicate IsLastKey<K(==), V>(f: Doc -> Result<(K, V)>, docs: seq<Doc>, i: nat)
    requires i < |docs| && forall j :: 0 <= j < |docs| ==> f(docs[j]).Ok?
  {
    forall j :: i < j < |docs| ==> f(docs[j]).value.0 != f(docs[i]).value.0
  }

  // ---------------------------------------------------------------------
  // first, first_or_default, scan, exec

  /** `FirstVisitor::on_next`: keep the closure's value and stop. */
  function FirstStep<T>(f: Doc -> Result<T>): Visitor<Option<T>> {
    (s: Option<T>, d: Doc) =>
      match f(d)
      case Err(e) => Returned(s, Err(e))
      case Ok(t) => Returned(Some(t), Ok(Stop))
  }

  /** `first`: the closure runs on the first delivered document only. */
  function First<T>(q: Query, f: Doc -> Result<T>, e: Engine): (r: Answer<Option<T>>)
    ensures Delivered(q, e) == [] ==> r.visited == 0 && r.result == Utils.CheckRc(e.rc).AndOk(None)
    ensures Delivered(q, e) != [] ==> r.visited == 1
    ensures Delivered(q, e) != [] && f(Delivered(q, e)[0]).Err? ==> r.result == f(Delivered(q, e)[0]).PropagateFailure()
    ensures Delivered(q, e) != [] && f(Delivered(q, e)[0]).Ok? ==>
      r.result == Utils.CheckRc(e.rc).AndOk(Some(f(Delivered(q, e)[0]).value))
  {
    var run := ExecWith(q, FirstStep(f), None, e);
    var result := match run.result
      case Err(err) => Err(err)
      case Ok(_) => Ok(run.state);
    Answer(run.visited, run.explained, result)
  }

  /** `first_or_default`: `first`, with no document meaning `default`. */
  function FirstOrDefault<T>(q: Query, f: Doc -> Result<T>, default: T, e: Engine): (r: Answer<T>)
    ensures Delivered(q, e) == [] ==> r.result == Utils.CheckRc(e.rc).AndOk(default)
    ensures Delivered(q, e) != [] && f(Delivered(q, e)[0]).Err? ==> r.result == f(Delivered(q, e)[0])
    ensures Delivered(q, e) != [] && f(Delivered(q, e)[0]).Ok? ==>
      r.result == Utils.CheckRc(e.rc).AndOk(f(Delivered(q, e)[0]).value)
  {
    var first := First(q, f, e);
    Answer(first.visited, first.explained, first.result.Map((o: Option<T>) => o.GetOr(default)))
  }

  /** A `scan` closure `FnMut(&mut T, &JsonDoc) -> Result<Option<T>>`: it
      may update the accumulator in place, and answers a replacement
      (continue) or `None` (stop). */
  type Scanner<!T> = (T, Doc) -> Call<T, Option<T>>

  /** `ScanVisitor::on_next`. */
  function ScanStep<T>(f: Scanner<T>): Visitor<T> {
    (acc: T, d: Doc) =>
      var c := f(acc, d);
      match c.res
      case Err(e) => Returned(c.inner, Err(e))
      case Ok(Some(next)) => Returned(next, Ok(Next))
      case Ok(None) => Returned(c.inner, Ok(Stop))
  }

  /** The scan: the accumulator threaded through the documents until the
      closure declines (`None`) or fails, and how many documents it saw. */
  datatype Scanned<T> = Scanned(acc: T, res: Result<()>, visited: nat)

  function ScanSpec<T>(f: Scanner<T>, acc: T, docs: seq<Doc>): (r: Scanned<T>)
    ensures r.visited <= |docs|
    decreases |docs|
  {
    if docs == [] then Scanned(acc, Ok(()), 0)
    else
      var c := f(acc, docs[0]);
      match c.res
      case Err(e) => Scanned(c.inner, Err(e), 1)
      case Ok(None) => Scanned(c.inner, Ok(()), 1)
      case Ok(Some(next)) =>
        var rest := ScanSpec(f, next, docs[1..]);
        rest.(visited := rest.visited + 1)
  }

  lemma {:induction false} VisitScan<T>(f: Scanner<T>, acc: T, docs: seq<Doc>)
    ensures Visit(ScanStep(f), acc, docs).state == ScanSpec(f, acc, docs).acc
    ensures Visit(ScanStep(f), acc, docs).visited == ScanSpec(f, acc, docs).visited
    ensures Visit(ScanStep(f), acc, docs).failure.None? <==> ScanSpec(f, acc, docs).res.Ok?
    ensures Visit(ScanStep(f), acc, docs).failure.Some? ==> ScanSpec(f, acc, docs).res == Err(Visit(ScanStep(f), acc, docs).failure.value)
    decreases |docs|
  {
    if docs != [] {
      var c := f(acc, docs[0]);
      match c.res
      case Err(e) =>
      case Ok(None) =>
        assert StepCode(Stop) == 0;
      case Ok(Some(next)) =>
        assert StepCode(Next) == 1;
        VisitScan(f, next, docs[1..]);
    }
  }

  /** `scan`: the final accumulator, unless the closure or the engine
      failed. */
  function Scan<T>(q: Query, init: T, f: Scanner<T>, e: Engine): (r: Answer<T>)
    ensures r.visited == ScanSpec(f, init, Delivered(q, e)).visited
    ensures ScanSpec(f, init, Delivered(q, e)).res.Err? ==> r.result == ScanSpec(f, init, Delivered(q, e)).res.PropagateFailure()
    ensures ScanSpec(f, init, Delivered(q, e)).res.Ok? ==> r.result == Utils.CheckRc(e.rc).AndOk(ScanSpec(f, init, Delivered(q, e)).acc)
  {
    VisitScan(f, init, Delivered(q, e));
    var run := ExecWith(q, ScanStep(f), init, e);
    var result := match run.result
      case Err(err) => Err(err)
      case Ok(_) => Ok(run.state);
    Answer(run.visited, run.explained, result)
  }

  /** A scan stops right after the first document whose closure answers
      `None`: when every earlier document continues, exactly `k + 1`
      documents are visited. */
  lemma {:induction false} ScanStopsAtNone<T>(f: Scanner<T>, acc: T, docs: seq<Doc>, k: nat)
    requires k < |docs|
    requires ScanAccs(f, acc, docs, k).Some?
    requires f(ScanAccs(f, acc, docs, k).value, docs[k]).res == Ok(None)
    ensures ScanSpec(f, acc, docs).visited == k + 1
    ensures ScanSpec(f, acc, docs).res.Ok?
    decreases k
  {
    if k > 0 {
      ScanStopsAtNone(f, f(acc, docs[0]).res.value.value, docs[1..], k - 1);
    }
  }

  /** The accumulator handed to document `k`, when documents `0..k` all
      continued. */
  function ScanAccs<T>(f: Scanner<T>, acc: T, docs: seq<Doc>, k: nat): Option<T>
    requires k <= |docs|
    decreases k
  {
    if k == 0 then Some(acc)
    else
      match f(acc, docs[0]).res
      case Ok(Some(next)) => ScanAccs(f, next, docs[1..], k - 1)
      case _ => None
  }

  /** `visitor_impl::Empty`: stops at once. */
  function EmptyStep(): Visitor<()> {
    (s: (), d: Doc) => Returned(s, Ok(Stop))
  }

  /** `exec`: at most one document is visited and only the engine's code
      decides the result. */
  function ExecQuery(q: Query, e: Engine): (r: Execution<()>)
    ensures r.visited == Min(1, |Delivered(q, e)|)
    ensures r.result == Utils.CheckRc(e.rc)
    ensures r.explained == (if q.log then [e.plan] else [])
  {
    ExecWith(q, EmptyStep(), (), e)
  }

  // ---------------------------------------------------------------------
  // JsonDoc

  /** `JsonDoc::print`: the default flag is `PRINT_CODEPOINTS`. */
  function PrintDoc<P>(doc: Doc, target: P, sink: Sink<P>, flag: Option<byte>, engine: Serialization): (r: DocPrinted<P>)
    requires AllReadable(engine.chunks)
    ensures r.flags == FlagOrDefault(flag)
    ensures r.serializer == (if doc.hasNode then JbnAsJson else JblAsJson)
    ensures r.out.inner == Deliver(target, sink, Offers(engine.chunks))
    ensures r.out == PrintThrough(target, sink, engine.chunks, engine.rc)
  {
    DocPrintJson(doc, target, sink, FlagOrDefault(flag), engine)
  }

  /** `AsJson<Vec<u8>>` (and `AsJson<String>`, the same bytes) for a
      document: the concatenated chunks, when the engine succeeds. */
  function DocAsJsonBytes(doc: Doc, flag: Option<byte>, engine: Serialization): (r: Result<seq<byte>>)
    requires AllReadable(engine.chunks)
    ensures r == Utils.CheckRc(engine.rc).AndOk(ExpandAll(Offers(engine.chunks)))
  {
    PrintToVec([], engine.chunks, engine.rc);
    var printed := PrintDoc(doc, [], VecSink, flag, engine);
    assert [] + ExpandAll(Offers(engine.chunks)) == ExpandAll(Offers(engine.chunks));
    printed.out.res.AndOk(printed.out.inner)
  }

  /** `AsJson<XString>` for a document: the engine's serialiser is picked
      as for `print`, and the buffer is pre-sized from the binary size. */
  datatype DocJson = DocJson(serializer: Serializer, flags: byte, out: Materialized)

  function DocAsJsonXString(doc: Doc, flag: Option<byte>, size: usize, text: seq<byte>, rc: u64): (r: DocJson)
    ensures r.serializer == (if doc.hasNode then JbnAsJson else JblAsJson)
    ensures r.flags == FlagOrDefault(flag)
    ensures r.out.presize == (2 * size) % TWO_64
    ensures r.out.arg == XStrHandle
    ensures r.out.result == Utils.CheckRc(rc).AndOk(XString(text))
  {
    DocJson(if doc.hasNode then JbnAsJson else JblAsJson, FlagOrDefault(flag), AsJsonXString(size, text, rc))
  }
}
