# ejdb2-rs core in Dafny

This project models the safe Rust layer that `ejdb2-rs` places over the
EJDB2 embedded JSON database engine. It then proves what that layer promises
its callers.

- **Strings at the boundary.** `XString` is the engine's growable byte buffer. `StringPtr` is an owned-or-borrowed C string.
- **Channels.** A `Channel` keeps errors raised inside C callbacks so the caller sees them after the engine returns.
- **Printing.** The JSON printer callback turns the engine's chunks into writes on a caller's sink.
- **Queries.** Query execution is one callback visitor driving `count`, `first`, `fold`, `for_each`, `scan`, `to_vec` and `to_map`.
- **Values.** The `JBL` binary JSON value has constructors, setters, getters and printing.
- **Compiled JQL.** This covers query creation, error capture and placeholder binding.
- **Build script.** `ejdb2-sys/build.rs` decides the link mode and build profile, finds the cargo profile folder and picks the MinGW gcc directory.

The engine is never modelled from the inside. Every engine call becomes an
input: its return code, its out values, the documents it delivers, the
chunks it prints. Where the order or the arguments of the calls matter, the
model also records the calls made.

Modules follow the source files:

| file | module | source |
|---|---|---|
| types.dfy | `Types` | Rust integer widths and casts, `Option` |
| errors.dfy | `Errors` | `EjdbError`, `Result` |
| ffi.dfy | `Ffi` | C string pointers and `strlen` |
| utils.dfy | `Utils` | `src/utils.rs` |
| channel.dfy | `Channels` | `src/channel.rs` |
| xstr.dfy | `XStr` | `src/xstr.rs` |
| printer.dfy | `Printer` | `src/printer.rs` |
| exec.dfy | `Exec` | `src/exec.rs` |
| jbl.dfy | `Jbl` | `src/jbl.rs` |
| jql.dfy | `Jql` | `src/jql.rs` |
| build.dfy | `BuildScript` | `ejdb2-sys/build.rs` |

The central results are these:

- **The channel protocol is sound.** `Exec.DriveIsVisit` proves that the callback-and-channel loop equals a channel-free visit. The proof covers the visitor's final state, the first failure and the number of documents seen. Each algorithm is then tied to a plain specification:
  - `Exec.VisitForEach` for `for_each`;
  - `Exec.FoldActionIsFold` for `fold`;
  - `Exec.FoldPushIsMapAll` for `to_vec`;
  - `Exec.FoldInsertIsInsertAll` and `Exec.ToMapLastWins` for `to_map`;
  - `Exec.VisitScan` for `scan`.
- **Sink errors do not stop the printer.** `Printer.FeedOffersEveryChunk` shows the sink still receives every chunk in order. `Printer.PrintToVec` shows that printing into a vector yields exactly the expansion of the chunks.
- **The build script round-trips versions.** `BuildScript.ParseShowVersion` proves that a version written out is parsed back unchanged. `BuildScript.FindGcc` picks the same gcc directory path as the source's stable sort followed by `last`.

## Model

| member | source | states |
|---|---|---|
| Types.AsI64 | src/exec.rs:200-205 | `usize as i64`: same value modulo 2^64, unchanged up to `i64::MAX`, negative above it |
| Types.AsI32 | src/jql.rs:223-231 | `u32 as i32`: same value modulo 2^32, unchanged up to `i32::MAX`, negative above it |
| Types.AsU8 | src/printer.rs:84-88 | the padding byte `ch: i8` reinterpreted as `u8`: same value modulo 256, unchanged when non-negative |
| Types.AsI64RoundTrip | src/exec.rs:200-205 | the `usize as i64` written into the execution context loses no bits: casting back gives the original |
| Utils.CheckRc | src/utils.rs:4-10 | success exactly when the code is 0; otherwise `Generic` carrying that very code, never another error kind |
| Utils.CheckRcInjective | src/utils.rs:4-10 | two codes give the same result exactly when they are equal: no information is lost |
| Utils.CatchUnwind | src/utils.rs:15-20 | the `no_std` stand-in always returns `Ok` of the closure's value |
| Ffi.Strlen | src/xstr.rs:43-47 | the length is the index of the first NUL: in bounds, a NUL there, none before |
| Ffi.CString | src/xstr.rs:373-382 | a C string handed to the engine is terminated, and `strlen` of it recovers a NUL-free text exactly |
| Ffi.StrlenOfTerminated | src/xstr.rs:43-47 | `strlen` of a NUL-free text followed by NUL is the text's length |
| Channels.Unwrap | src/channel.rs:19-28 | a success is returned and leaves the slot alone; a failure is stored in the slot and the default is returned |
| Channels.UnwrapOrDefault | src/channel.rs:11-13 | the same as `unwrap`, with `R::default()` as the fallback |
| Channels.Catch | src/channel.rs:32-41 | always answers `Ok`; a failure is stored and replaced by the default |
| Channels.CatchIsUnwrapInOk | src/channel.rs:19-41 | `catch` is `unwrap` with its answer wrapped in `Ok`, and leaves the same channel |
| Channels.Set | src/channel.rs:45-47 | the slot is overwritten, the borrowed value kept |
| Channels.Get | src/channel.rs:51-53 | the current slot |
| Channels.UnwrapAllLastErrorWins | src/channel.rs:19-28 | over a run of callbacks the slot ends with the error of the last failing call; later successes do not clear it |
| Channels.UnwrapAllSnoc | src/channel.rs:19-28 | a run of callbacks extended by one is one more `unwrap` on the channel as it was left |
| Channels.UnwrapAllKeepsOk | src/channel.rs:19-28 | when every callback succeeds, `get` returns the slot the channel was created with |
| XStr.New | src/xstr.rs:25-28 | a new buffer is empty |
| XStr.NewWithSize | src/xstr.rs:31-34 | the size is only a capacity hint: the buffer is empty |
| XStr.Clear | src/xstr.rs:61-66 | a cleared buffer is empty |
| XStr.Pop | src/xstr.rs:68-73 | drops `n` bytes from the end, leaving a prefix whose concatenation with the dropped bytes is the original; an `n` beyond the size empties the buffer |
| XStr.Shift | src/xstr.rs:75-80 | drops `n` bytes from the front, leaving a suffix; an `n` beyond the size empties the buffer |
| XStr.PushBytes | src/xstr.rs:95-104 | appends on success; an allocator failure is `AllocError` |
| XStr.UnshiftBytes | src/xstr.rs:106-112 | prepends on success; a failure is `Generic` with the engine's code, unlike `push_bytes` |
| XStr.Push | src/xstr.rs:83-86 | the old contents followed by the new bytes, sizes adding up |
| XStr.Unshift | src/xstr.rs:89-92 | the new bytes followed by the old contents |
| XStr.PopUndoesPush | src/xstr.rs:68-86 | `pop(len)` after `push` gives back the original buffer |
| XStr.ShiftUndoesUnshift | src/xstr.rs:75-92 | `shift(len)` after `unshift` gives back the original buffer |
| XStr.SizeScenario | src/xstr.rs:458-475 | the sizes of the crate's buffer test: 0, 5, 10, 7, 11, 6 |
| XStr.Add | src/xstr.rs:275-283 | `a + b` holds `a`'s bytes followed by `b`'s |
| XStr.Clone | src/xstr.rs:332-340 | a clone has the same contents |
| XStr.EqualityIsContentEquality | src/xstr.rs:342-356 | `EqBytes` (`XString == [u8]`) and `EqStr` (`XString == str`): both equalities hold exactly when the contents are equal; the size test in the `str` comparison adds nothing |
| XStr.Read | src/xstr.rs:211-222 | copies `min(buf.len(), size)` bytes, leaves the rest of `buf` alone, shifts them out, and copied plus remaining equals the original |
| XStr.Write | src/xstr.rs:198-204 | `write` appends everything and reports the length; an allocation failure becomes an `Other` I/O error and leaves the buffer unchanged |
| XStr.Flush | src/xstr.rs:205-208 | `flush` never fails and changes nothing |
| XStr.WriteStr | src/xstr.rs:189-195 | `write_str` appends and reports success |
| XStr.FromBytes | src/xstr.rs:296-303 | the buffer holds exactly the given bytes |
| XStr.FromStr | src/xstr.rs:314-322 | the buffer holds exactly the string's bytes |
| XStr.FromStrPtr | src/xstr.rs:43-47 | the bytes of the C string up to its terminator, with no NUL among them |
| XStr.AsPtr | src/xstr.rs:116-120 | the storage handed out is always terminated |
| XStr.FromStrPtrOfAsPtr | src/xstr.rs:43-47 | copying a NUL-free buffer back through its own pointer reproduces it |
| XStr.StringPtrFromStr | src/xstr.rs:426-431 | text becomes an owned `XString` with the same bytes |
| XStr.StringPtrAsPtr | src/xstr.rs:371-382 | every variant hands the engine a non-null, terminated C string |
| XStr.ToOwned | src/xstr.rs:384-394 | an owned buffer is handed over unchanged; borrowed buffers and C strings are copied byte for byte |
| XStr.ToOwnedAgreesWithAsPtr | src/xstr.rs:371-394 | for NUL-free text, what the engine reads through `as_ptr` is what `to_owned` keeps |
| Printer.FlagOrDefault | src/exec.rs:386-393 | no flag means `PRINT_CODEPOINTS`; a given flag is passed through |
| Printer.Offer | src/printer.rs:84-100 | a null buffer with positive count is `ch` repeated `count` times, with count ≤ 0 nothing; a literal buffer is written at least once, its length from `size` when positive and from `strlen` otherwise |
| Printer.Repeat | src/printer.rs:29-39 | writing a buffer `n` times yields `n` times its length |
| Printer.PaddingExpands | src/printer.rs:84-89 | a padding chunk stands for exactly `count` copies of its byte |
| Printer.RepeatSingle | src/printer.rs:84-89 | every position of a repeated single byte holds that byte |
| Printer.PrintJson | src/printer.rs:76-102 | the callback always answers 0; a sink error replaces the slot, a success leaves it; a chunk with nothing to offer changes nothing |
| Printer.FeedSnoc | src/printer.rs:76-102 | one more chunk is one more callback on the channel as it was left |
| Printer.FeedOffersEveryChunk | src/printer.rs:76-102 | even after a sink error the sink receives every piece of every chunk, in order |
| Printer.PrintThrough | src/printer.rs:41-74 | a stored sink error is returned before the engine's code is checked; the sink saw every chunk |
| Printer.DocPrintJson | src/printer.rs:41-60 | a document with a parsed node is serialised by `jbn_as_json`, otherwise by `jbl_as_json`, with the channel deciding the result |
| Printer.JblPrintJson | src/printer.rs:62-74 | always the raw-value serialiser, with the same result rule |
| Printer.WritePrint | src/printer.rs:29-39 | for any writer, `print` succeeds exactly when all `count` writes and the flush succeed; when a write fails the result is the first failing write's call and `flush` is never applied; otherwise it is the flush of the writer the writes leave |
| Printer.WriteTimesOutcome | src/printer.rs:32-34 | `WriteTimes`, the `write_all` loop, succeeds exactly when every write does, leaving the writer after all of them; otherwise its outcome is the first failing write's call |
| Printer.FailureHasFirst | src/printer.rs:32-34 | some write fails exactly when there is a first failing write, so the failure clause of `WritePrint` covers every failure |
| Printer.VecSinkRepeats | src/printer.rs:29-39 | a vector sink receives `buf` concatenated `count` times and never fails |
| Printer.VecWriteTimes | src/printer.rs:29-39 | `count` successful `write_all` calls append `buf` `count` times |
| Printer.PrintToVec | src/printer.rs:29-74 | printing into a vector yields the concatenated expansions of all chunks, and fails only when the engine does |
| Printer.FeedToVec | src/printer.rs:29-102 | feeding chunks into a vector sink appends their expansions and never touches the slot |
| Printer.XStringPrint | src/printer.rs:17-27 | succeeds iff every push succeeds, appending `buf` `count` times; otherwise `AllocError` after the first failing push, keeping the pushes before it |
| Printer.AsJsonXString | src/exec.rs:398-422 | the buffer is pre-sized to `2 * size` (wrapping), its handle goes to the engine's printer, and it is returned only when the engine succeeds |
| Exec.StepCode | src/exec.rs:354-369 | codes are at least -2; 0 iff stop or a custom code of 0 or below -2; 1 iff next or custom 1; -1 iff prev or custom -1; other custom codes kept |
| Exec.VisitDoc | src/exec.rs:312-341 | a returned step becomes the step code and leaves the slot alone; an error or a caught panic is stored and the step is 0; the callback answers 0 |
| Exec.PanicActsAsError | src/exec.rs:321-337 | a caught panic has exactly the effect of returning `Err(Panic(payload))` |
| Exec.OnDoc | src/exec.rs:312-341 | with a null context the engine's default step is left in place and nothing else happens |
| Exec.Drive | src/exec.rs:194-221 | the engine loop visits at most the delivered documents, and at least one when there is any |
| Exec.DriveIsVisit | src/exec.rs:194-221 | after the loop the channel holds the visitor's final state, the slot holds the failure that stopped it (or is untouched), and the count of visited documents is that of the channel-free visit |
| Exec.NewQuery | src/exec.rs:31-39 | no skip, no limit, no log |
| Exec.Skip | src/exec.rs:49-52 | sets the skip and keeps the other settings |
| Exec.Take | src/exec.rs:54-57 | sets the limit and keeps the other settings |
| Exec.Log | src/exec.rs:61-64 | sets the log and keeps the other settings |
| Exec.ContextOf | src/exec.rs:200-205 | only values that were set reach the context, as `usize as i64`; unset ones stay 0 |
| Exec.Window | src/exec.rs:194-205 | the documents delivered are the matches after the first `skip`, at most `limit` of them, in order |
| Exec.ExecWith | src/exec.rs:194-221 | the log closure is called once with the plan iff a log is set; the visitor's failure is returned before the engine's code; state and count are those of the plain visit |
| Exec.VisitForEach | src/exec.rs:245-267 | `ForEachStep`, the for-each visitor, is the closure applied in order up to its first failure, and visits every document when none fails |
| Exec.ForEach | src/exec.rs:162-173 | the closure sees every delivered document until it fails; that failure, otherwise the engine's code, is the result |
| Exec.FoldActionIsFold | src/exec.rs:149-159 | `FoldAction`, the fold visitor's step: while the fold succeeds the accumulator is always present (no `unwrap` panics) and ends as the fold's value; it is emptied exactly when a step fails |
| Exec.Fold | src/exec.rs:149-159 | the left fold over the delivered documents when every step and the engine succeed; otherwise the first failure |
| Exec.FoldIncrementCounts | src/exec.rs:67-69 | folding `acc + 1` over the documents counts them |
| Exec.Count | src/exec.rs:67-69 | the number of delivered documents, when the engine succeeds |
| Exec.SkipTakeCount | src/exec.rs:497-506 | eight matches, skip 2, take 3: the count is 3 |
| Exec.Any | src/exec.rs:86-88 | whether any document was delivered, when the engine succeeds |
| Exec.CountFast | src/exec.rs:74-82 | the engine is given the limit (0 when unset) as `i64`; a negative count is reported as 0; the engine's failure is `Generic` |
| Exec.CountFastIgnoresSkipAndLog | src/exec.rs:72-82 | the skip and the log setting make no difference to `count_fast` |
| Exec.MapAll | src/exec.rs:115-125 | either one value per document in order, or the error of the first document whose closure failed |
| Exec.FoldPushIsMapAll | src/exec.rs:115-125 | the pushing fold built on `PushInto` equals mapping the closure over the documents |
| Exec.ToVec | src/exec.rs:115-125 | the closure's values for the delivered documents in order, or the first failure |
| Exec.FoldInsertIsInsertAll | src/exec.rs:130-145 | the inserting fold built on `InsertInto` equals inserting the closure's pairs in order |
| Exec.InsertAllKeys | src/exec.rs:130-145 | after the inserts a key is present iff it was before or some pair has it |
| Exec.InsertAllUntouched | src/exec.rs:130-145 | a key no pair has keeps its value |
| Exec.InsertAllLastWins | src/exec.rs:130-145 | a key maps to the value of its last pair |
| Exec.ToMap | src/exec.rs:130-145 | the closure's pairs inserted in delivery order, or the first failure |
| Exec.ToMapLastWins | src/exec.rs:130-145 | a key is in the map iff some document produced it, and maps to the value of the last document that did |
| Exec.MapAllLastWins | src/exec.rs:130-145 | the same, stated on the closure's results for a list of documents |
| Exec.First | src/exec.rs:92-103 | through the visitor step `FirstStep`: no document visited when none is delivered (result `None`); otherwise exactly one, whose closure failure or value is the result |
| Exec.FirstOrDefault | src/exec.rs:105-111 | `first`, with no document meaning the default |
| Exec.VisitScan | src/exec.rs:284-298 | `ScanStep`, the scan visitor, threads the accumulator until the closure answers `None` or fails, with the same count of documents |
| Exec.Scan | src/exec.rs:176-188 | the final accumulator unless the closure or the engine failed |
| Exec.ScanStopsAtNone | src/exec.rs:289-298 | when the first `k` documents continue and document `k` answers `None`, exactly `k + 1` documents are visited |
| Exec.ExecQuery | src/exec.rs:190-192 | through the visitor step `EmptyStep`: at most one document is visited, and only the engine's code decides the result |
| Exec.PrintDoc | src/exec.rs:386-393 | the default flag is `PRINT_CODEPOINTS`; the node serialiser is used when the document has one; the sink sees every chunk; a stored sink error is returned before the engine's code is checked |
| Exec.DocAsJsonBytes | src/exec.rs:428-432 | the bytes are the concatenated chunk expansions, when the engine succeeds |
| Exec.DocAsJsonXString | src/exec.rs:398-422 | the serialiser is chosen as for `print`, the buffer is pre-sized to `2 * size`, its handle goes to the printer, and it is returned when the engine succeeds |
| Jbl.NewArray | src/jbl.rs:23-31 | a writable value iff the engine succeeds, otherwise `Generic` with its code |
| Jbl.NewObject | src/jbl.rs:34-42 | a writable value iff the engine succeeds, otherwise `Generic` with its code |
| Jbl.FromPtr | src/jbl.rs:44-49 | an engine-made handle is never writable |
| Jbl.FromCStr | src/jbl.rs:59-67 | the C string reaches the parser unchanged; a read-only value iff the engine succeeds |
| Jbl.FromJson | src/jbl.rs:53-56 | the parser receives the string's own C pointer |
| Jbl.FromStr | src/jbl.rs:348-353 | any text, interior NULs included, reaches the parser followed by a terminator, with the result of `from_c_str` |
| Jbl.TryFromXString | src/jbl.rs:356-362 | the parser receives the buffer's terminated storage; a read-only value iff the engine succeeds, otherwise `Generic` with its code |
| Jbl.WritableIffCreatedEmpty | src/jbl.rs:69-73 | a value is writable exactly when it was created as an empty array or object |
| Jbl.FromInt | src/jbl.rs:440-477 | integers convert with `as i64`: unchanged up to `i64::MAX`, and only a `u64`/`usize` above it wraps to a negative value |
| Jbl.FromBool | src/jbl.rs:479-489 | a bool becomes a boolean value |
| Jbl.FromJbl | src/jbl.rs:491-495 | a `JBL` becomes a nested value |
| Jbl.FromString | src/jbl.rs:503-532 | every string type becomes a string value through `StringPtr` |
| Jbl.KeyPtr | src/jbl.rs:132-141 | a missing key is a null pointer, a key its C string |
| Jbl.Set | src/jbl.rs:94-231 | each value variant calls its own engine setter on this handle with this key and payload; a nested value's handle is released afterwards and no other is; the result is `check_rc` of the setter |
| Jbl.Append | src/jbl.rs:94-107 | the setter is called with a null key |
| Jbl.SetProp | src/jbl.rs:111-128 | the setter is called with the name's C string as key |
| Jbl.AppendIsSetPropWithoutKey | src/jbl.rs:94-128 | `append` and `set_prop` make the same call apart from the key, release the same handle, and give the same result |
| Jbl.SetIgnoresWritable | src/jbl.rs:92-128 | the setters do not consult `writable` |
| Jbl.PatchWith | src/jbl.rs:234-245 | one engine call of the chosen kind with the JSON text; success iff its code is 0, otherwise `Generic` with that code |
| Jbl.GetScalar | src/jbl.rs:249-279 | the out value is returned iff the engine succeeds |
| Jbl.GetStr | src/jbl.rs:282-288 | the property's C string is copied up to its terminator iff the engine succeeds |
| Jbl.GetType | src/jbl.rs:291-295 | never fails |
| Jbl.Find | src/jbl.rs:299-305 | the path's C string reaches the engine; a read-only value iff the engine succeeds, otherwise `Generic` with its code |
| Jbl.Print | src/jbl.rs:338-345 | the raw serialiser with the default flag; the sink sees every chunk; a stored sink error is returned before the engine's code is checked |
| Jbl.AsJsonBytes | src/jbl.rs:384-390 | the concatenated chunk expansions, when the engine succeeds |
| Jbl.AsJsonXStr | src/jbl.rs:365-381 | corrected: the buffer is pre-sized to `2 * size`, its handle goes to the printer, and its text is returned iff the engine succeeds, otherwise `Generic` with its code |
| Jbl.AsJsonXStrAsWritten | src/jbl.rs:368-380 | as written: the printer is given the fresh buffer's character storage instead of its handle |
| Jbl.AsJsonXStrPassesStorage | src/jbl.rs:368-380 | the as-written `op` is a lone NUL byte and differs from the handle the corrected version passes |
| Jql.CreateMode | src/jql.rs:6-7 | the mode is both flags together, `0x3`: keep the query on a parse error and print nothing |
| Jql.CreateJql | src/jql.rs:37-56 | `jql_create2` first, with a null collection when none is given; on failure the error text is read before the handle is destroyed, and the result is `JqlParseError` with the code and text |
| Jql.Create | src/jql.rs:22-25 | no collection; the query handle iff the parser succeeds, otherwise `JqlParseError` with the code and the engine's error text |
| Jql.CreateWithCollection | src/jql.rs:28-35 | the collection's C string reaches the parser; the query handle iff the parser succeeds, otherwise `JqlParseError` with the code and the engine's error text |
| Jql.CreateReleasesOnlyOnFailure | src/jql.rs:37-56 | the handle is destroyed during creation exactly when the parse failed, and a failure is always a parse error |
| Jql.Collection | src/jql.rs:65-69 | never fails; the name copied up to its terminator |
| Jql.CollectionNameScenario | src/jql.rs:295-299 | the crate's test: collection `abc` is reported as `abc` |
| Jql.SkipOrLimit | src/jql.rs:72-89 | the number the engine wrote, iff it succeeded |
| Jql.KeyFromIndex | src/jql.rs:223-231 | a positional key has no name and index `v as i32`: unchanged up to `i32::MAX`, `v - 2^32` (negative) above it |
| Jql.KeyFromName | src/jql.rs:233-282 | a named key has index 0 |
| Jql.KeyAsIndex | src/jql.rs:209-211 | the stored index, unchanged; 0 for a named key |
| Jql.KeyAsPtr | src/jql.rs:215-220 | null exactly for a positional key, otherwise the name's C string |
| Jql.KeyEncodingIsFaithful | src/jql.rs:201-282 | positional and named keys never look alike to the engine; every position arrives as `v as i32` (negative above `i32::MAX`); names arrive as their text |
| Jql.Bind | src/jql.rs:92-183 | every setter passes `(as_ptr, as_index)` and the value, and reports `check_rc` |
| Jql.SetI64 | src/jql.rs:92-96 | binds the integer to the key, passed as `(as_ptr, as_index)`; the result is `check_rc` of the setter |
| Jql.SetBool | src/jql.rs:99-103 | binds the bool to the key, passed as `(as_ptr, as_index)`; the result is `check_rc` of the setter |
| Jql.SetF64 | src/jql.rs:106-110 | binds the float to the key, passed as `(as_ptr, as_index)`; the result is `check_rc` of the setter |
| Jql.SetNull | src/jql.rs:151-155 | binds null to the key, passed as `(as_ptr, as_index)`; the result is `check_rc` of the setter |
| Jql.SetRegex | src/jql.rs:158-169 | binds the expression's C string to the key, passed as `(as_ptr, as_index)`; the result is `check_rc` of the setter |
| Jql.SetStr | src/jql.rs:172-183 | binds the string's C string to the key, passed as `(as_ptr, as_index)`; the result is `check_rc` of the setter |
| Jql.SetJsonJbl | src/jql.rs:138-148 | binds the value's handle to the key, passed as `(as_ptr, as_index)`; the result is `check_rc` of the setter |
| Jql.SetJsonNode | src/jql.rs:127-135 | binds the node to the key, passed as `(as_ptr, as_index)`; the result is `check_rc` of the setter |
| Jql.SetJson | src/jql.rs:113-124 | a parse failure is returned and no setter is called; otherwise the parsed handle is bound |
| BuildScript.LowerChar | ejdb2-sys/build.rs:259-263 | ASCII upper-case letters are lowered, everything else kept |
| BuildScript.ToLower | ejdb2-sys/build.rs:259-263 | lowercasing character by character, length kept |
| BuildScript.LowerIsTrueIff | ejdb2-sys/build.rs:259-263 | a value lowercases to `true` exactly when it is `true` in any mix of cases |
| BuildScript.GetEnvBool | ejdb2-sys/build.rs:259-263 | `None` iff the variable is unset or not Unicode; otherwise true exactly for `1` or any-case `true` |
| BuildScript.CheckStatic | ejdb2-sys/build.rs:247-257 | `EJDB2_STATIC` decides when set; else the negation of `EJDB2_DYNAMIC`; else the `crt-static` feature |
| BuildScript.StaticVariableWins | ejdb2-sys/build.rs:247-257 | with `EJDB2_STATIC` set, neither `EJDB2_DYNAMIC` nor the target feature matters |
| BuildScript.LinkStatically | ejdb2-sys/build.rs:15-28 | with the development flag off, the link mode is what `check_static` says |
| BuildScript.CmakeProfile | ejdb2-sys/build.rs:155-165 | `RelWithDebInfo` exactly when `DEBUG` reads true, otherwise `Release` |
| BuildScript.SharedLibs | ejdb2-sys/build.rs:166 | `BUILD_SHARED_LIBS` is `OFF` exactly for a static build |
| BuildScript.PlanInstall | ejdb2-sys/build.rs:49-56 | a prebuilt install iff `EJDB2_INSTALL_PATH` is readable; otherwise a source build of `EJDB2_SOURCE`, or the panic when that is missing |
| BuildScript.Parent | ejdb2-sys/build.rs:123-134 | the path without its last component; none for the root or the empty path |
| BuildScript.GetProfileFolder | ejdb2-sys/build.rs:123-134 | three levels up iff the path has at least three components; otherwise the profile-folder error |
| BuildScript.ParseUsize | ejdb2-sys/build.rs:367-373 | a number exactly for an optional `+` followed by a non-empty run of decimal digits (leading zeros allowed) whose value is below 2^64, and then that value; never for empty text or a lone `+` |
| BuildScript.Split | ejdb2-sys/build.rs:367-373 | at least one piece, none containing a dot |
| BuildScript.JoinSplit | ejdb2-sys/build.rs:367-373 | the pieces joined with dots give back the text |
| BuildScript.SplitDotFree | ejdb2-sys/build.rs:367-373 | a dot-free piece followed by a dot splits off as the first piece |
| BuildScript.SplitNoDot | ejdb2-sys/build.rs:367-373 | dot-free text is a single piece |
| BuildScript.ParseVersion | ejdb2-sys/build.rs:367-375 | a version iff there are at least three pieces and each of the first three parses; further pieces are ignored |
| BuildScript.DigitChar | ejdb2-sys/build.rs:367-373 | the digit character for a value below 10 |
| BuildScript.DigitVal | ejdb2-sys/build.rs:367-373 | the value of one ASCII digit, below 10 |
| BuildScript.ShowNat | ejdb2-sys/build.rs:367-373 | decimal text is non-empty and all digits |
| BuildScript.ShowNatValue | ejdb2-sys/build.rs:367-373 | decimal text denotes the number it was written from |
| BuildScript.ParseShowNat | ejdb2-sys/build.rs:367-373 | every number below 2^64 written in decimal parses back to itself |
| BuildScript.ParseShowVersion | ejdb2-sys/build.rs:367-375 | every representable version written as `a.b.c` parses back to itself |
| BuildScript.PlusAndLeadingZeros | ejdb2-sys/build.rs:367-373 | `+7` and `007` parse as 7; `+` and `7a` do not parse |
| BuildScript.SplitFourPieces | ejdb2-sys/build.rs:367-373 | `10.2.0.1` splits into four pieces |
| BuildScript.ParseSmallNumbers | ejdb2-sys/build.rs:367-373 | `10`, `2` and `0` parse as their values |
| BuildScript.FourPieceVersion | ejdb2-sys/build.rs:367-373 | `10.2.0.1` parses as 10.2.0 |
| BuildScript.TwoPieceName | ejdb2-sys/build.rs:367-373 | `10.2` is not a version |
| BuildScript.Ranks | ejdb2-sys/build.rs:340-356 | one entry per directory item: its version when it is a readable directory with a UTF-8 version name, else none |
| BuildScript.PickLast | ejdb2-sys/build.rs:357-361 | none iff no item has a version; otherwise an item no other outranks, with every later item strictly lower (the last maximum after a stable sort) |
| BuildScript.GccRoot | ejdb2-sys/build.rs:339 | the listed directory is the MinGW root followed by `lib`, `gcc` and the architecture |
| BuildScript.FindGcc | ejdb2-sys/build.rs:337-365 | a failed listing is passed on; a path is found iff some item is a candidate, and it is `lib/gcc/<arch>` under the MinGW root joined with the name of the last among the highest versions; otherwise the not-found error |

## Left out

- Engine internals: parsing, matching, indexing, serialising and memory management are inputs or recorded calls, never modelled from the inside.
- The engine's skip/limit handling is modelled by `Exec.Window`, an assumption about EJDB2 rather than crate code: values of 0 or less mean unset.
- Step codes other than 1 end the visit in the model (`Exec.Drive`); the engine's handling of `Prev` and custom codes (moving backwards, skipping ahead) is not modelled.
- Floating-point values are carried as opaque bit patterns; `f32` to `f64` widening and `as_f64` are not modelled.
- Dropping values: `Drop` for `XString`, `JBL`, `JQL` and `Database` is not modelled, except the handle releases the crate makes inside an operation (a nested `JBL` in `Jbl.Set`, the failed query in `Jql.CreateJql`).
- Jql.SetJson: the parsed `JBL` is dropped, and so released, after the setter call; the model records the call but not that release.
- `JQL::reset`, `JBL::as_i64`, `as_i32`, `as_f64`, `as_str`, `size`, `count` and `raw_ptr` are direct engine passthroughs with nothing to state beyond the engine's answer.
- `XString::to_bytes`, `as_str`, `into_bytes`, `Deref` and `AsRef` are views of the same contents; the model's buffer is its contents.
- XStr.Push and XStr.Unshift: the allocator is taken to succeed, because the source `unwrap`s and a failure panics; the failure path is modelled in `XStr.PushBytes` and `XStr.UnshiftBytes`.
- XStr.Clone, XStr.FromBytes and XStr.FromStr: the allocator is taken to succeed, because the source `unwrap`s the push and a failure panics.
- XStr.AsPtr: the storage `iwxstr_ptr` exposes is taken to be the contents followed by one NUL; this is engine behaviour, not crate code, and `Jbl.AsJsonXStrPassesStorage` relies on it for the lone NUL of an empty buffer.
- XStr.Pop and XStr.Shift: removing more bytes than the buffer holds empties it; this clamp is the engine's `iwxstr_pop`/`iwxstr_shift` behaviour, not crate code.
- Printer.AsJsonXString, Exec.DocAsJsonXString and Jbl.AsJsonXStr: the presize `size * 2` wraps modulo 2^64 as in release builds; a debug build would panic on that overflow instead.
- Capacity hints (`new_with_size`) have no observable effect and are not represented.
- Exec.Count: the `usize` counter cannot overflow in the model; a count beyond 2^64 documents is not considered.
- Closures are pure functions of their arguments, except where the source threads state through them (`for_each` closures and the `scan` accumulator).
- Panics are caught only where the source catches them (`visit_doc`); a panic elsewhere is outside the model. Under `no_std`, `catch_unwind` cannot catch anything (`Utils.CatchUnwind`).
- The `Explain` log closure is modelled by the plans it receives; what it does with them is the caller's business.
- BuildScript.ToLower: ASCII only; `str::to_lowercase` on other characters cannot produce the letters of `true`, so `BuildScript.GetEnvBool` is exact.
- Build-script I/O is not modelled: running CMake, bindgen and pkg-config, printing `cargo:` lines, patching headers and the AddIOWOW file, copying DLLs, and probing MSYS (`probe_mingw64`, `test_make`, `check_msys`).
- BuildScript.Parent: Windows path prefixes (`C:\`) are not modelled; a path is a root flag and a list of components.
- `Database`, `Collection`, the builder, `ffi.rs`, `error.rs` formatting and the test helpers are not part of this model.

## Findings

| source | as written | input that shows it | evidently intended | confidence | as-written member | corrected member |
|---|---|---|---|---|---|---|
| src/jbl.rs:376 | `AsJson<XString> for JBL` passes `data.as_ptr()` (the buffer's character storage, from `iwxstr_ptr`) as the `op` of `jbl_xstr_json_printer` | any `JBL`: the fresh buffer's storage is a lone NUL byte, which the printer would treat as an `IWXSTR` descriptor | pass the buffer handle `data.as_mut_ptr()`, as `AsJson<XString> for JsonDoc` does (src/exec.rs:401-402) | high; not executed | Jbl.AsJsonXStrAsWritten | Jbl.AsJsonXStr |
