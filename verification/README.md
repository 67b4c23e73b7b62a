# nz_rust: a verified model

`nz_rust` is a Netezza wire-protocol driver with a synchronous and a native async client. This project models the
parts of it whose correctness spans many functions or many interleavings, and proves what they are for.

- `Bytes`, `ReadBuffers`: wire bytes, and the growable read buffer over a reader that may split the stream anywhere,
  be interrupted, time out or fail.
- `TupleDesc`, `Rows`, `RawRows`: the binary row descriptor and the three readers of one row layout: eager, structural
  and lazy. The conversion of a field is any partial function of its type, size and bytes.
- `Framing`, `Responses`, `SinkAgreement`, `Phantoms`, `Connections`: where messages begin and end, what a response
  means as a function of its bytes, the two sinks, and the connection itself: the response loop with its fast path for
  buffered rows, resynchronisation after a timeout, and whole runs of commands. Payload parsers that belong to other
  files, and the sink, are any functions at all.
- `Statements`, `SplitterAgreement`, `Transactions`, `SyncPools`: the statements of an SQL text, the client-side
  transaction flag against a server that may execute any prefix of a batch, and the synchronous pool.
- `EventStreams`, `RowBatches`: the producer and the consumer of an event stream, with byte budget, batch slot and
  bounded channel, as a step system.
- `SessionLeases`, `AsyncPools`: transaction isolation and pool accounting under every interleaving.
- `SqlTemplates`, `SqlLiterals`, `SqlRelexing`, `SqlStructure`, `TemplateCaches`, `Identifiers`: client-side
  parameters, the template cache, and the identifier printer with its two readers.

Sockets, clocks and the scheduler are nondeterministic: a script of read events, deadlines that may expire at any
point, a schedule that is any sequence of steps.

The code does less than it seems to promise in nine places. Each is kept as it is; a lemma gives the inputs on which it
fails, and another one says exactly when it does not.

- `drain_orphaned` counts the header of a binary row twice (src/connection.rs:2737-2760), reads no length for an
  empty-query message and reads one for an external-table cancel, which has none (src/connection.rs:2767-2797 against
  2149-2208): `Framing.OrphanStarves`, `Framing.OrphanStopsInsideMessage`, `Framing.OrphanStopsInsideEmptyQuery`,
  `Framing.OrphanRefusesCancel`; it keeps message boundaries exactly on the responses of `Framing.OrphanSafeIsExact`.
- A checkout that is dropped during the idle probe leaves the pool's total one too high (src/async_pool.rs:199):
  `AsyncPools.TotalPassesMax`; the total is exact if and only if there was none (`AsyncPools.RunsAreBounded`).
- `normalize_object_name` undoubles quotes twice (src/metadata/extended.rs:514-518 and 562): it reads a printed name
  back if and only if the name has no two quotes side by side (`Identifiers.ObjectReadsBack`).
- The lazy row validator skips a storage check of the eager one (src/tuple_desc.rs:447-494):
  `RawRows.LazyAcceptsMore`, and exactly `RawRows.LazyIsEagerIffStorageOk`.
- A stream reports a result set that the buffered result leaves out when a binary description alone, or a text
  description without columns, opened it and no row followed: `Phantoms.BareResponseDiffers`,
  `Phantoms.DescriptionAfterCommandDiffers`, and exactly `Phantoms.SameSetsIffNoPhantom`.
- A literal joins its neighbour when a quote meets a quote or a minus a minus (src/params.rs:300-324):
  `SqlStructure.NeighboursJoin`, `SqlStructure.MinusOpensComment`, and exactly `SqlStructure.RenderingKeepsStructure`.
- Without bindings `substitute_bound_parameters` refuses the cast `::type` (src/params.rs:545-556), which
  `substitute_parameters` lets through: `SqlStructure.CastIsRefused`, and exactly `SqlLiterals.QuestionsDecide`.
- `split_statements` ends a block comment at its first `*/` and takes digits in a dollar tag (src/messages.rs:266-309),
  while the lexer of src/params.rs nests comments and takes none: `SplitterAgreement.NestedCommentSplits`,
  `SplitterAgreement.DigitTagHidesSemicolon`, and exactly `SplitterAgreement.RegionsAgree`.
- A flush that times out behind a packet written whole keeps the session and puts the transaction flag back, although
  the server may execute the packet (src/connection.rs:1783-1795 and 1911-1917): `SyncPools.FlushHidesTransaction`, and
  exactly `Transactions.PutBackIsSound`.

## Model

| member | source | states |
|---|---|---|
| `ReadBuffers.Socket.Read` | src/buffer.rs:120-141 | One read delivers the next bytes of the stream, takes them as far as they fit, touches nothing before its slice, and returns 0 exactly at the end of the stream, because it is never given an empty slice; signals and timeouts deliver nothing |
| `ReadBuffers.ReadBuffer.Take` | src/buffer.rs:38-47 | The buffer moves out with all unread bytes, and an empty one stays behind |
| `ReadBuffers.ReadBuffer.DiscardLeadingNulls` | src/buffer.rs:73-80 | Consumes exactly the zero padding in front |
| `ReadBuffers.ReadBuffer.EnsureCapacity` | src/buffer.rs:82-100 | Growth and compaction keep the unread bytes and make the room that was asked for |
| `ReadBuffers.ReadBuffer.PullAvailable` | src/buffer.rs:102-118 | Received bytes only move from the stream into the buffer: unread bytes and stream together stay the same, also when the pull fails |
| `ReadBuffers.ReadBuffer.EnsureData` | src/buffer.rs:120-141 | Succeeds only with the bytes there; fails with `Closed` only when the stream ends first, and loses nothing when it fails |
| `ReadBuffers.ReadBuffer.Skip` | src/buffer.rs:144-149 | Takes exactly n bytes of what is left, or nothing |
| `ReadBuffers.ReadBuffer.ReadByte` | src/buffer.rs:151-156 | Takes and returns the next byte, or takes nothing |
| `ReadBuffers.ReadBuffer.ReadI32` | src/buffer.rs:158-164 | Takes four bytes and returns them as a signed big-endian number, or takes nothing |
| `ReadBuffers.ReadBuffer.ReadBytes` | src/buffer.rs:166-192 | Takes and returns exactly the next n bytes, or takes nothing |
| `ReadBuffers.ReadBuffer.PeekBytes` | src/buffer.rs:194-198 | Returns the next n bytes and consumes none |
| `ReadBuffers.ReadBuffer.Advance` | src/buffer.rs:213-220 | Consumes received bytes only |
| `ReadBuffers.ReadBuffer.ShrinkIfLarge` | src/buffer.rs:222-237 | Gives capacity back without losing an unread byte |
| `TupleDesc.Parse` | src/tuple_desc.rs:221-322 | Accepts exactly the payloads that encode a descriptor, and returns that descriptor |
| `TupleDesc.EncodesUnique` | src/tuple_desc.rs:221-322 | A payload encodes at most one descriptor |
| `TupleDesc.EncodedIsWellFormed` | src/tuple_desc.rs:221-322 | Every encoded descriptor has as many entries in each column list as it has fields |
| `Rows.TilingIsDisjoint` | src/tuple_desc.rs:642-700 | Varying spans are non-empty, increasing and disjoint, lie in the row, and start at even distances from the fixed area |
| `Rows.TilingFloor` | src/tuple_desc.rs:642-700 | No varying span starts before the fixed area or is shorter than its length word |
| `Rows.VaryingUnique` | src/tuple_desc.rs:642-700 | A row has at most one sequence of varying spans |
| `Rows.ScanVarying` | src/tuple_desc.rs:642-690 | Finds the varying spans of a row, and fails only when there are none |
| `Rows.ParseRowClassified` | src/tuple_desc.rs:642-724 | Fails with `field_stage` false if and only if the row has no valid layout, with `field_stage` true if and only if it has one and some non-null field does not convert, and otherwise returns the row's values |
| `Rows.EagerRowVia` | src/tuple_desc.rs:642-724 | What the eager reader makes of a row is what its cells are, through any valid layout |
| `RawRows.ValidateRowLayout` | src/tuple_desc.rs:512-600 | Accepts exactly the rows in which every non-null field has a place, and returns their packed spans |
| `RawRows.UnpackPack` | src/connection.rs:243-258 | A packed span unpacks to itself |
| `RawRows.LazyRefinesEager` | src/tuple_desc.rs:512-724 | A row the eager reader accepts is accepted lazily, and every cell of it holds the eager value |
| `RawRows.LazyIsEagerIffStorageOk` | src/tuple_desc.rs:447-494 | A row accepted lazily has an eager layout if and only if every non-null field passes the storage check that the lazy validator skips |
| `RawRows.LazyAcceptsMore` | src/tuple_desc.rs:447-494 | A row that only the lazy validator accepts exists |
| `RawRows.FieldStageTruncation` | src/tuple_desc.rs:726-906 | At the field stage a read is truncated exactly for scalars kept outside the fixed area and for opaque values in rows without varying fields |
| `RawRows.RawRow.EnsureDbosSpans` | src/connection.rs:416-461 | The cursor unpacks spans in order up to the one that is asked for, and keeps the ones it has |
| `RawRows.RawRow.DecodeValue` | src/connection.rs:464-489 | Decoding one cell gives the row's one answer for it, whatever was read before |
| `RawRows.RawRow.Value` | src/connection.rs:267-290 | Reading a cell, memoised or not, gives the same answer every time |
| `RawRows.RawRow.DecodeAll` | src/connection.rs:491-571 | Decoding the whole row succeeds if and only if every cell does, with the cells' values |
| `RawRows.RawRow.TryValues` | src/connection.rs:821-834 | The same, memoised |
| `RawRows.ReadInAnyOrder` | src/connection.rs:267-571 | Any sequence of cell and whole-row reads of a row the eager reader accepts returns the eager values |
| `Framing.ReachesKeepsResponse` | src/connection.rs:2009-2413 | Reading on from any message boundary of a response ends at the same ReadyForQuery |
| `Framing.OrphanStepExact` | src/connection.rs:2703-2804 | From a message boundary `drain_orphaned` comes to the response loop's next boundary if and only if the message is safe: a binary row with eight bytes of padding behind it and a length that leaves room for eight more under the payload cap, an external-table cancel with four bytes of padding behind it, an empty-query message without payload, or any other kind of message |
| `Framing.OrphanSafeIsExact` | src/connection.rs:2703-2804 | `drain_orphaned` passes through all message boundaries of a response if and only if all its messages are safe |
| `Framing.OrphanAgrees` | src/connection.rs:2661-2804 | On such a response it stops at the ReadyForQuery where the response loop would have stopped |
| `Framing.OrphanStarves` | src/connection.rs:2737-2760 | Counterexample family: after a response whose last message before ReadyForQuery is a binary row it finds no end, although the response is complete |
| `Framing.OrphanStopsInsideMessage` | src/connection.rs:2737-2760 | Counterexample family: behind a binary row it can stop inside the next message, taking a length byte for ReadyForQuery |
| `Framing.OrphanStopsInsideEmptyQuery` | src/connection.rs:2767-2772 | Counterexample family: the same for an empty-query message with a payload |
| `Framing.SafeIsRecoverable` | src/connection.rs:2661-2804 | A complete safe response can be abandoned at any message boundary |
| `Framing.RecoverableAlong` | src/connection.rs:2661-2804 | Wherever a recoverable response is abandoned, `drain_orphaned` leaves only padding if it reports success |
| `Framing.UnrecoverableIsUnsafe` | src/connection.rs:2661-2804 | A complete response that is not recoverable has a message that is not safe |
| `Framing.OrphanRefusesCancel` | src/connection.rs:2773-2797 | Counterexample family: behind an external-table cancel the next message is read as a length and refused, although the response is complete |
| `Responses.ResponseEndsAtReady` | src/connection.rs:2009-2413 | What the messages mean does not influence where a response ends: it ends at the first ReadyForQuery of its framing |
| `SinkAgreement.SinksAgree` | src/connection.rs:1944-2486 | With a sink that never fails, the streaming and the buffered drain end alike with the same counts, notices and errors, and the buffered sets are the streamed ones without the phantoms |
| `Phantoms.SameSetsIffNoPhantom` | src/connection.rs:3172-3292 | The two give the same sets if and only if no message closes a set that a binary description alone, or a text description without columns, opened and that has no decoded row yet; a condition on the messages |
| `Phantoms.TextFirstAgrees` | src/connection.rs:3172-3292 | In particular they do when every text description has columns and every binary one comes inside the set of a text one |
| `Phantoms.BareDescriptionDiffers` | src/connection.rs:2357-2412 | Counterexample family: a binary description and ReadyForQuery give the stream one set and the buffered result none |
| `Phantoms.BareResponseDiffers` | src/connection.rs:2357-2412 | The same on given bytes, a description of one column, whatever the parsers and the sink are |
| `Phantoms.DescriptionAfterCommandDiffers` | src/connection.rs:3172-3292 | Counterexample family: a non-empty text description of an earlier set does not help |
| `SinkAgreement.FailedSinkIsLeftAlone` | src/connection.rs:3269-3279 | Once a sink call has failed there is no other call, and a cancel that went out is not taken back (`NzConnection.ResponseLoop` sends at most one) |
| `SinkAgreement.SinkCannotDerail` | src/connection.rs:1972-1980 | Whatever the sink answers, the drain ends in the same way with the same bytes left and the same summary |
| `Connections.NzConnection.ReadTypeByte` | src/connection.rs:2509-2520 | Finds the first byte that is not padding; a failure consumes padding only |
| `Connections.NzConnection.ReadBody` | src/connection.rs:2530-2549 | Reads exactly the payload of the frame, and reports a refused length or an early end for what it is |
| `Connections.NzConnection.ReadDbosTuple` | src/connection.rs:2551-2599 | A binary row is consumed whole unless its layout is invalid, and is read as the eager reader reads its payload |
| `Connections.NzConnection.TryReadAvailableDbosRow` | src/connection.rs:2601-2651 | Without touching the stream: takes exactly the whole row frame at the front of the buffer, or nothing |
| `Connections.NzConnection.BufferedRows` | src/connection.rs:2060-2145 | The rows that are already buffered are taken as the one-frame path would take them: the meaning of the rest of the response does not change |
| `Connections.NzConnection.RowBranch` | src/connection.rs:2009-2145 | A binary row, with the buffered ones behind it, advances the response by whole messages |
| `Connections.NzConnection.MessageBranch` | src/connection.rs:2149-2412 | Any other message does too; ReadyForQuery ends it |
| `Connections.NzConnection.ResponseLoop` | src/connection.rs:1982-2413 | The loop reports what the bytes mean as a function of the bytes alone, however they arrive, leaves exactly what follows ReadyForQuery, and after a timeout outside a message stands at a message boundary |
| `Connections.NzConnection.MarkFaultedAfter` | src/connection.rs:1739-1752 | Which errors retire the session, and which poison it |
| `Connections.NzConnection.OnLoopError` | src/connection.rs:2426-2448 | A timeout cancels once; inside a message it retires the session, between messages it asks for resynchronisation |
| `Connections.NzConnection.Settle` | src/connection.rs:2449-2484 | Sink error before server error before decode error, and only the last marks the session as still aligned |
| `Connections.NzConnection.DrainResponse` | src/connection.rs:1944-2486 | The outcome follows from the bytes of the response; only a timeout or a transport failure can make a difference; a response read to its end leaves exactly what follows it |
| `Connections.NzConnection.DrainTwoWays` | src/connection.rs:1944-2486 | Chunking independence: the same bytes split differently give the same outcome, and on success the same unread rest |
| `Connections.NzConnection.WaitBuffered` | src/connection.rs:2807-2857 | Reports success only with the bytes buffered, and never loses one |
| `Connections.NzConnection.DrainOrphaned` | src/connection.rs:2703-2804 | Success means that what `AfterOrphan` calls the end of the abandoned response was reached, and nothing behind it but padding was consumed |
| `Connections.NzConnection.EnsureProtocolSynced` | src/connection.rs:2661-2701 | Success clears the flag and leaves the stream behind the abandoned response; without one only padding goes; an aligned idle session always succeeds |
| `Connections.NzConnection.Send` | src/connection.rs:1895-1920 | A packet leaves only from a synchronised stream, so what follows on the stream is the command's own response; a write that times out, a flush that times out behind it and other failures are told apart |
| `Connections.NzConnection.RestoreTxOnError` | src/connection.rs:1886-1893 | Leaves the flag that the failed batch and the earlier flag allow |
| `Connections.NzConnection.OnSendError` | src/connection.rs:1783-1795 | A failed send puts the flag back; a write timeout asks for resynchronisation; other errors retire the session |
| `Connections.NzConnection.RunBatch` | src/connection.rs:1762-1884 | From an aligned session a command gets its own answer, exactly that when nothing fails on the way, and leaves an aligned or a retired session unless it timed out in an unrecoverable response; the transaction flag is exact on success and never hides an open transaction, unless the flush of a batch that opens one timed out behind a flag that was down |
| `Connections.NzConnection.RunCommands` | src/connection.rs:1762-1884 | Whole runs: over any mixture of successes, errors, aborted sinks and timeouts no command gets the answer of another and the session stays aligned, when each response that timed out was recoverable; in particular when all its messages were safe; and the flag stays sound unless the flush of a batch that opens a transaction timed out |
| `Statements.SplitStatements` | src/messages.rs:196-291 | Gives the statements of the text: its code and strings, each comment and body a space, cut at the semicolons |
| `Statements.Turn` | src/messages.rs:203-284 | One turn takes the string, procedure body, dollar-quoted body, comment, semicolon or character that the rules give |
| `Statements.FindWord` | src/messages.rs:311-331 | Finds the first `end_proc` that is a word of its own, in any case |
| `Statements.StatementsAreTheText` | src/messages.rs:193-291 | The splitter loses nothing, and the statements joined by semicolons are the text with comments and bodies blanked out: only semicolons outside strings, comments and bodies separate |
| `Statements.LiteralPasses` | src/params.rs:64-139 | What a parameter value is written as passes the splitter as it is, wherever it stands but in front of a quote: no part of it is blanked and none separates |
| `Statements.LiteralKeepsStatements` | src/messages.rs:193-291 | So wherever the splitter stands between two spans the number of statements around a literal does not depend on the value, but for the last character of its literal |
| `SplitterAgreement.CommentsAgree` | src/messages.rs:269-277 | The splitter ends a block comment where the lexer of parameters does if and only if no other comment opens in it before its first close mark, or the text ends there |
| `SplitterAgreement.NestedCommentSplits` | src/messages.rs:269-277 | Counterexample family: a semicolon in a nested comment separates for the splitter, while the lexer of parameters is inside the comment |
| `SplitterAgreement.DigitTagHidesSemicolon` | src/messages.rs:293-309 | Counterexample family: a semicolon behind a digit between dollar signs is code for the lexer of parameters, and part of a dollar-quoted body for the splitter |
| `SplitterAgreement.RegionsAgree` | src/messages.rs:196-291 | The splitter takes the regions of the lexer of parameters all along a text if and only if no procedure body, no dollar tag with a digit and no nested comment begins in code |
| `SplitterAgreement.StatementsAreSeparated` | src/messages.rs:193-291 | Then a text has exactly one statement more than it has semicolons in code, as the lexer of parameters reads it |
| `Statements.ParseTransactionState` | src/messages.rs:151-194 | Finds the last transaction boundary of an SQL text, and whether a statement of it opens a transaction, by the first words of its statements |
| `Transactions.ExecuteIsLastBoundary` | src/messages.rs:151-171 | The last boundary tells the server's state after the batch |
| `Transactions.RestoredIsSound` | src/connection.rs:1886-1893 | After a failed batch the flag is raised whenever some executed prefix left a transaction open |
| `Transactions.RestoredIsTight` | src/connection.rs:1886-1893 | And it is raised only when some prefix, from some state the earlier flag allows, does |
| `Transactions.PutBackIsSound` | src/connection.rs:1783-1795 | A failed send puts the flag back; if the server may have got the packet all the same, the flag can hide an open transaction if and only if it was down and the batch opens one |
| `EventStreams.ExpandIsOrderly` | src/native_async.rs:2043-2055 | No message sends an event over the rows of a partial batch |
| `EventStreams.EventsTellTheResponse` | src/native_async.rs:1765-2157 | The events of a response carry exactly its decoded rows, in order, inside consecutively numbered result sets, whatever message ends it, and a whole response leaves no set open |
| `EventStreams.BuffersCoverSlots` | src/native_async.rs:244-275 | Free buffers never fall below available slots, so the pop behind a slot permit cannot fail |
| `EventStreams.AwaitConserves` | src/native_async.rs:353-425 | Every step of the producer at an await conserves byte permits, slots and buffers |
| `EventStreams.ConsumerConserves` | src/native_async.rs:584-609 | So does every step of the consumer |
| `EventStreams.CloseConserves` | src/native_async.rs:312-317 | So do a cancel and a dropped handle, which give back everything queued and pending |
| `EventStreams.NeverStuck` | src/native_async.rs:353-425 | Where the producer waits for the budget, the slot or the channel, the consumer has something to take |
| `EventStreams.RunsNeverStick` | src/native_async.rs:227-425 | The same in every state of every run, with cancels, closes and dropped handles anywhere |
| `EventStreams.RunsDeliverInOrder` | src/native_async.rs:584-609 | In every run what is delivered is a prefix of the response's events in wire order, and every queued batch has at most 256 rows and at most 1 MiB unless it is a single row |
| `EventStreams.SettledRunsAreDone` | src/native_async.rs:353-425 | A run in which nobody can move is over, with every permit, slot and buffer back, and with the whole response delivered unless it was stopped, closed or cut |
| `EventStreams.ProducerProgress` | src/native_async.rs:372-425 | Every step of the producer brings the response closer to its end |
| `EventStreams.ConsumerProgress` | src/native_async.rs:584-609 | Every step of the consumer leaves it less to do |
| `EventStreams.Run` | src/native_async.rs:2669-2738 | Every stream ends under every scheduler, with a cancel and a dropped handle at any point: all resources are back, a prefix of the response's events is delivered, and all of them if nobody stopped or closed |
| `RowBatches.BatchWriter.Push` | src/native_async.rs:2669-2685 | A row joins the batch behind all earlier rows; full batches go out |
| `RowBatches.BatchWriter.Write` | src/native_async.rs:2669-2712 | All rows arrive, in order, in batches of at most 256 rows and at most 1 MiB unless a single row |
| `SessionLeases.StartIsAllowed` | src/native_async.rs:1390-1445 | A statement that starts belongs to the transaction that holds the guard, once its BEGIN was started |
| `SessionLeases.PushKeeps` | src/native_async.rs:1211-1235 | Only the holder of the session mutex queues a request, also while the driver leaves its loop, and this keeps the queue free of others behind it |
| `SessionLeases.ReleaseKeeps` | src/native_async.rs:1258-1291 | A guard comes free only behind a successful COMMIT or ROLLBACK of its transaction, or behind a stop |
| `SessionLeases.AnsweredIsGone` | src/native_async.rs:1390-1500 | When the last request of a transaction is answered none of its requests is queued any more |
| `SessionLeases.RunsAreIsolated` | src/native_async.rs:831-865 | In every interleaving of clones, transactions, dropped futures and dropped guards transactions are isolated, and at most one statement starts after the driver was told to stop |
| `SessionLeases.StatementsAreOwn` | src/native_async.rs:1390-1500 | The same for any two places of a run: between the BEGIN of a transaction and the release of its guard only its own statements start |
| `TemplateCaches.SqlTemplateCache.Get` | src/native_async.rs:717-722 | Returns the parse of the text if there is an entry, and records the use |
| `TemplateCaches.SqlTemplateCache.Oldest` | src/native_async.rs:738-742 | Finds an entry with the smallest stamp |
| `TemplateCaches.SmallestIsOldest` | src/native_async.rs:738-748 | Until the clock wraps the smallest stamp is the entry used longest ago |
| `TemplateCaches.SqlTemplateCache.Evict` | src/native_async.rs:738-748 | Removes one entry, the least recently used one until the clock wraps, and its bytes |
| `TemplateCaches.SqlTemplateCache.MakeRoom` | src/native_async.rs:735-749 | Terminates with room for the new entry under both caps, and changes no entry it keeps |
| `TemplateCaches.SqlTemplateCache.Insert` | src/native_async.rs:724-760 | An entry of acceptable size is in the cache afterwards, any other insert changes nothing, both caps hold and the retained bytes are the sum over the entries |
| `TemplateCaches.SqlTemplateCache.RenderSql` | src/native_async.rs:809-829 | Rendering through the cache gives what parsing afresh gives |
| `TemplateCaches.NoticeHistory.Push` | src/native_async.rs:187-202 | The history is the end of the messages that fit, within both caps; the newest is kept, no more goes than has to, and every other message is counted as dropped |
| `SqlTemplates.PiecesCover` | src/params.rs:221-286 | The lexer's pieces put together are the text |
| `SqlTemplates.BlockCommentEnd` | src/params.rs:175-197 | Finds the end of a nested block comment |
| `SqlTemplates.DollarTag` | src/params.rs:565-581 | Finds a dollar tag; digits are no tag |
| `SqlTemplates.TemplateTurn` | src/params.rs:238-279 | One turn of the template lexer takes the piece the lexical rules give |
| `SqlTemplates.BoundTurn` | src/params.rs:371-465 | One turn of the separately written one-pass lexer takes the same piece |
| `SqlTemplates.Parse` | src/params.rs:221-286 | Finds exactly the placeholders in code, with their places and numbers |
| `SqlTemplates.Render` | src/params.rs:300-324 | Writes the text between the placeholders and the literals, and fails exactly when a literal is missing or a parameter unused |
| `SqlTemplates.RenderedIsFilled` | src/params.rs:300-324 | Rendering by ranges is writing out the pieces one by one |
| `SqlTemplates.SubstituteParameters` | src/params.rs:202-206 | Two passes give the text with every placeholder written out, or nothing when a literal is missing, a parameter unused or NUL present |
| `SqlTemplates.SubstituteBoundParameters` | src/params.rs:331-485 | One pass over positional bindings gives the text with numbered placeholders and question marks written out, under the same conditions; without bindings it gives the text back unless something in code looks like a placeholder |
| `SqlTemplates.FirstPlaceholder` | src/params.rs:495-563 | The third lexer finds something if and only if a piece in code is a number, a question mark, or a colon or an at sign in front of a letter |
| `SqlTemplates.OnePassIsTwoPass` | src/params.rs:202-485 | With bindings and without a question mark in code the two succeed on the same inputs with the same text |
| `SqlTemplates.QuestionsDiffer` | src/params.rs:202-485 | Where two passes succeed, one pass gives the same if and only if no question mark stands in code; without bindings, if and only if nothing in code looks like a placeholder |
| `SqlLiterals.QuestionsDecide` | src/params.rs:202-485 | The same for every list of parameter values: no value is written with a question mark in front |
| `SqlStructure.CastIsRefused` | src/params.rs:545-556 | Counterexample family: without bindings one pass refuses a cast, because the second colon and the type look like a named placeholder; two passes let it through |
| `SqlLiterals.ValidNumericLiteral` | src/params.rs:141-173 | Accepts exactly signed decimal numbers with an optional fraction and exponent |
| `SqlLiterals.AppendQuotedText` | src/params.rs:130-139 | Appends the value in quotes, with its quotes doubled |
| `SqlLiterals.WriteTextLiteral` | src/params.rs:110-128 | Writes text without backslashes as one quoted string, other text as parts joined by chr(92), and refuses NUL |
| `SqlLiterals.TextReadsBack` | src/params.rs:110-139 | Every text value without NUL reads back as itself, with or without backslashes |
| `SqlRelexing.NextStable` | src/params.rs:221-286 | What the lexer reads up to the first placeholder does not depend on what is put in its place |
| `SqlRelexing.LiteralsLexAlone` | src/params.rs:64-139 | Every literal is lexed as code and quoted strings, the same wherever it stands |
| `SqlStructure.RenderingKeepsStructure` | src/params.rs:202-324 | Lexing rendered SQL finds the comments, quoted strings and dollar-quoted bodies of the template and exactly the literals of the values if and only if no quote meets a quote and no minus a minus around a placeholder; and then no placeholder is left |
| `SqlStructure.PiecesAreCalm` | src/params.rs:221-286 | In every lexed text, outside dollar quotes, no piece ends in a quote before a quote or in a minus before a minus |
| `SqlStructure.NeighboursJoin` | src/params.rs:110-139 | Counterexample family: rendering $1$2 with two text values gives one string with another value |
| `SqlStructure.MinusOpensComment` | src/params.rs:74-92 | Counterexample family: rendering -$1 with a negative number opens a comment |
| `Identifiers.SplitIdentifierPath` | src/metadata/extended.rs:1398-1456 | Splits at dots outside quotes, and refuses open quotes, stray quotes and empty parts but an omitted schema |
| `Identifiers.SplitReadsBack` | src/metadata/extended.rs:563-584 | One to three non-empty names printed by `quote_identifier` and joined by dots read back as themselves |
| `Identifiers.NormalizeObjectName` | src/metadata/extended.rs:505-544 | Splits outside quotes and parentheses, and normalises one or two parts |
| `Identifiers.CollapseIsExact` | src/metadata/extended.rs:562 | Undoubling a second time changes exactly the names with two quotes side by side |
| `Identifiers.ObjectReadsBack` | src/metadata/extended.rs:505-584 | A printed object name reads back if and only if it has no two quotes side by side |
| `Identifiers.QualifiedReadsBack` | src/metadata/extended.rs:505-584 | The same for a schema and an object |
| `AsyncPools.CheckoutIsLocal` | src/async_pool.rs:165-236 | Every step of a checkout keeps its permit, its share of the bound and its share of the total; a connection is made only behind an empty idle list |
| `AsyncPools.RunsAreBounded` | src/async_pool.rs:165-335 | In every interleaving live connections never exceed the maximum, and the total is exact if and only if no checkout was dropped during the probe |
| `AsyncPools.FinishedRunsReturnEverything` | src/async_pool.rs:85-116 | When all checkouts are over every permit is back and the total is the idle connections plus the dropped probes |
| `AsyncPools.RunsAreExclusive` | src/async_pool.rs:165-335 | No connection is ever in two places, idle or in use |
| `AsyncPools.TotalPassesMax` | src/async_pool.rs:197-203 | Counterexample: after one dropped probe the total passes the maximum |
| `SyncPools.BatchKeepsTracked` | src/connection.rs:1773-1813 | A batch keeps the flag sound, unless its flush failed behind a flag that was down and it opens a transaction; and exact, when it succeeds or is not sent |
| `SyncPools.GetKeeps` | src/pool.rs:149-214 | A checkout counts what it takes, drops or begins to connect |
| `SyncPools.ReleasingKeeps` | src/pool.rs:296-346 | A release rolls back a leaked transaction or destroys the connection |
| `SyncPools.RunsAreSafe` | src/pool.rs:104-378 | In every run the total is the number of idle, leased and connecting connections and within the maximum; and with `rollback_on_release`, where no failed flush hides a transaction, no idle connection has a transaction open on its server |
| `SyncPools.FlushHidesTransaction` | src/connection.rs:1911-1917 | Counterexample family: for every batch that opens a transaction some run, in which its flush fails, leaves an idle connection with that transaction open although the pool rolls back on release |

## Left out

- External-table messages (`u`, `U`, `l`, `e`) and file policies: a response with one is `Foreign`, and nothing is
  claimed about what follows it.
- Sockets, TLS, real clocks and the tokio runtime: read events, expiring deadlines and steps stand for them.
- Handshake, authentication, connection strings, error texts and the value conversions of `src/types`: any functions.
- The lazy reader of text rows: its spans come from a validator that is not part of this model.
- How the server itself separates statements: it is taken to execute a prefix of those that `split_statements` finds, so
  the soundness of the transaction flag is relative to that.
- SqlTemplates.SubstituteBoundParameters: positional bindings only; named ones are not modelled.
- Catalog queries and the assembly of DDL other than identifiers.
- The reader, blocking and export wrappers around these parts.
- SqlLiterals.ValidNumericLiteral: integers, floats and decimals are given by their decimal text; how they are
  formatted is not modelled.
- Connections.NzConnection.RunCommands: what a server sends because of a command is placed on the stream when the
  command is sent; when it arrives is up to the read events. A packet that could not be written whole may have an
  answer too, or none, but the server executes nothing of it.
- EventStreams.CloseConserves: stands for a cancelled or dropped handle; a receiver that is closed and then polled
  further is not modelled.
- EventStreams.RunsDeliverInOrder: the sizes charged for rows and columns are arbitrary numbers, not computed from
  their contents.
- SyncPools.RunsAreSafe: the condition variable is left out, so nothing is said about who is woken; a connection that
  `ensure_min` is making counts only once it is idle, as in the source.
- AsyncPools.RunsAreBounded: which idle connection is still usable is any answer, so idle and lifetime limits are not
  computed.
- SessionLeases.RunsAreIsolated: statements other than BEGIN, COMMIT and ROLLBACK are not distinguished; cancellation
  on the server is not modelled.
- Identifiers.QualifiedReadsBack: the reserved words are any set, and `to_uppercase` any function that leaves
  upper-case ASCII names alone.
