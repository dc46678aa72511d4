# BlackSiren: a verified model of its protocols and codecs

BlackSiren carries audio and requests between threads and processes, finds wake words
and voice sessions in the audio, and reads its configuration with a vendored json-c.
This project models the parts of it that are protocols, state machines and codecs, and
proves what they are for.

- **The futex queue** (`FutexQueue`, `FutexProgress`, `FutexTickets`, `FutexFifo`, `LFQueue`). A step relation
  over the program counters of any number of threads, one atomic instruction a step, with
  an expired wait as an optional step; what a thread gets done by its own instructions;
  what becomes of every push ticket; the conditions under which the queue is a FIFO; and
  the queue as a class under one thread.
- **json-c** (`JsonValue`, `JsonGrammar`, `JsonMachine`, `JsonUnits`, `JsonReads`, `JsonAccepts`,
  `JsonRfc`, `JsonErrors`, `JsonRoundTrip`, `JsonUtf8`, `JsonCuts`, `JsonChunks`, `JsonTokener`,
  `PrintBuf`, `JsonPrinter`, `ArrayList`, `LinkHash`, `LinkHashRuns`, `JsonObjects`, `JsonOwnership`,
  `JsonClients`). The texts that are accepted, as a grammar with a meaning; the tokener as a
  machine of one character at a time, proved to accept exactly these, and as a class with
  the stack, the scratch fields and the tight loops of the source, proved to do what the
  machine does; the printer; the hash table with its tombstones and its list; and who owns
  the nodes.
- **The voice session** (`SirenCodec`, `SirenVad`, `SirenSession`, `SirenStarts`, `SirenProcessor`).
  `process`, the pausable codec buffer and the begin/end states of the VAD, around
  engines that may answer anything.
- **Codecs** (`VtMessage`, `VtChannel`, `AecReframe`, `AudioRing`). Wake-word lists on
  the socket, the 256-to-160 re-framer, the audio ring.

The main results are `FutexQueue.HandoffEquation`, `FutexQueue.NeverLost`,
`FutexProgress.OldestIsPopped`, `FutexTickets.DroppedExactly` and `FutexFifo.RefinesBoundedFifo`
for the queue; `JsonAccepts.ParsesExactly`, `JsonRfc.JsonIsRead`, `JsonErrors.ErrorsTell`,
`JsonRoundTrip.RoundTrip`, `JsonTokener.Tokener.ParseEx`, `JsonCuts.CutExact`,
`JsonChunks.PiecesEqualWhole`, `JsonUtf8.PairEscape`, `JsonOwnership.ParsePieces` and
`LinkHashRuns.RunOps` for json-c;
`SirenSession.SessionGrammar`, `SirenSession.EndDeliversAudio`, `SirenStarts.StartsWhen`,
`SirenStarts.WakeWordThenSpeech`, `SirenVad.AnswersDecide` and `SirenProcessorImpl.SirenProcessor.Serve` for the session;
`VtMessage.RoundTripExact`, `VtChannel.SendWords`, `AecReframe.ProcessAll` and
`AudioRing.ZAudBuff.GetLastAudio` for the codecs.

Where the source does less than one would expect, the exact condition is proved: a push
is dropped exactly when more increments than decrements of its slot came before its own
(`FutexTickets.DroppedExactly`; for one thread, when the queue is full,
`LFQueueSequential.LFQueue.Push`); a text may be cut exactly where the cut is not inside an
escaped surrogate pair (`JsonCuts.OneCut`, `JsonCuts.SplitsInside`); and so for
`JsonUtf8.PairEscape`, for the depth in `JsonRoundTrip.RoundTrip`, for NULs in
`VtMessage.RoundTripExact`, for long blocks in `AudioRing.ZAudBuff.PutAudio` and for lengths
in `LFQueueSequential.RoundingEnds`. `FutexFifo.OverflowDrops` and
`JsonChunks.CutPairDiffers` show the failures.

Code that works in place is a class or a method on arrays; its contracts tie it to
functions, and the lemmas are about these. A character is a byte; samples are reals.

## Model

| member | source | states |
|---|---|---|
| FutexQueue.InvStep | src/lfqueue.cpp:59-189 | every atomic instruction of every thread, timeouts included, keeps the whole invariant of the queue |
| FutexQueue.HandoffEquation | src/lfqueue.cpp:130-160 | in every interleaving of any threads: pending stores plus a full cell minus pending takes is 1 when the slot counter is at least 1, else 0; accepted pushes and successful pops strictly alternate, overflow and expired waits included |
| FutexQueue.ReturnedAtMostOnce | src/lfqueue.cpp:146-160 | no accepted pointer is returned by two pops, and a successful pop returns the pointer of an accepted push on its own slot |
| FutexQueue.NeverLost | src/lfqueue.cpp:130-160 | an accepted pointer stays with its pusher, in its slot, or has been returned by some pop, whatever happens later |
| FutexQueue.TakerEmpties | src/lfqueue.cpp:154-156 | a popper at a full cell empties it within three of its own instructions, whatever it loaded before |
| FutexQueue.HandoffCompletes | src/lfqueue.cpp:140-156 | from every reachable state a thread spinning in the hand-off can be finished by at most four instructions: no deadlock |
| FutexQueue.ItemBalance | src/lfqueue.cpp:59-160 | what one instruction changes in the debts of the threads, the cell and the sign of the counter cancels out |
| FutexQueue.ItemAlternates | src/lfqueue.cpp:59-113 | an accepted push is a step of the counter from 0 to 1 and a successful pop one from 1 to 0 |
| FutexFifo.RefinesBoundedFifo | src/lfqueue.cpp:162-189 | with many producers, one consumer, no expired wait and no push ticket more than n - 1 ahead of the completed pops, every instruction is an enqueue, a dequeue of the oldest pointer, or invisible |
| FutexFifo.PopsInPushOrder | src/lfqueue.cpp:162-189 | in every such run the pop that is complete with ticket q has succeeded and returned exactly the pointer pushed with ticket q; that pops do complete is FutexProgress.OldestIsPopped |
| FutexFifo.NoPushDropped | src/lfqueue.cpp:162-178 | in every such run no push is dropped: every push finds as many increments as decrements |
| FutexFifo.OverflowDrops | src/lfqueue.cpp:162-178 | without the window condition a push returns although its pointer is nowhere in the queue: a concrete run |
| FutexProgress.PopDecrements | src/lfqueue.cpp:59-64 | from any state: a pop that has a ticket and whose slot counter is positive makes its decrement, and only one, within three of its own instructions, without a timeout |
| FutexProgress.PopReturns | src/lfqueue.cpp:95-160 | if the counter is 1 and the cell is full, it returns what is in the cell after five of its own instructions, or any larger number |
| FutexProgress.PopWaits | src/lfqueue.cpp:95-113 | at a counter that is not positive it changes nothing, however long it runs |
| FutexProgress.PopTimesOut | src/lfqueue.cpp:101-105 | until its wait expires: then the counter goes down all the same and the pop ends with nothing |
| FutexProgress.PushStores | src/lfqueue.cpp:66-94 | a push that finds counter and cell at 0 has stored its pointer after four of its own instructions |
| FutexProgress.PushGivesUp | src/lfqueue.cpp:76-78 | a push at a positive counter returns within three instructions and its pointer is nowhere |
| FutexProgress.PushWaits | src/lfqueue.cpp:79-91 | a push that blocks changes nothing at a positive counter, however long it runs |
| FutexProgress.PushEnds | src/lfqueue.cpp:162-178 | the retries of a push that does not block come to an end, within 4 * (1 + the sum of what the negative counters lack to 0) of its own instructions: it is accepted or gives up |
| FutexProgress.ProducerStores | src/lfqueue.cpp:162-178 | in every legal run a push that has begun stores its pointer in at most five instructions of its own |
| FutexProgress.OldestIsPopped | src/lfqueue.cpp:162-189 | in every legal run, whenever an accepted push is not popped yet: its store, if pending, and six instructions of the consumer return exactly the oldest pointer; nobody else is needed and no wait expires |
| FutexTickets.StoredExactly | src/lfqueue.cpp:130-178 | for any run of any producers and poppers, no window assumed: the pointer of a push ticket is stored exactly when, at its own counter increment, as many increments as decrements have been made on its slot |
| FutexTickets.DroppedExactly | src/lfqueue.cpp:162-178 | a push is dropped exactly when more increments than decrements have been made there |
| FutexTickets.RetriedExactly | src/lfqueue.cpp:170-175 | a push goes on with a fresh ticket exactly when fewer have been made |
| FutexTickets.EveryTicketSettles | src/lfqueue.cpp:130-178 | every push ticket is decided at most once, and is still looked for until then |
| FutexTickets.CounterIsSurplus | src/lfqueue.cpp:59-113 | after every run the counter of a slot is its increments minus its decrements |
| LFQueueSequential.RoundUp | include/lfqueue.h:54-65 | for every length with which the loop ends: the least power of two that is not below it |
| LFQueueSequential.RoundingEnds | include/lfqueue.h:54-65 | the constructor ends exactly for powers of two and lengths below 2^31: for any other the shifted int stays negative for ever |
| LFQueueSequential.LFQueue.constructor | include/lfqueue.h:54-76 | an empty queue whose number of slots is that power of two |
| LFQueueSequential.SumIsRemain | src/lfqueue.cpp:191-193 | when every slot counter is the number of outstanding tickets of the slot, the counters add up to push_ - pop_ |
| LFQueueSequential.LFQueue.ItemPush | src/lfqueue.cpp:130-144 | 0 and stored at counter 0, -1 below, -2 above; the counter grows in each case |
| LFQueueSequential.LFQueue.Push | src/lfqueue.cpp:162-178 | run by one thread, overflow allowed: the pointer is stored exactly when fewer pushes are outstanding than there are slots, else dropped, and the counters stay the outstanding tickets |
| LFQueueSequential.LFQueue.Pop | src/lfqueue.cpp:180-189 | with a ticket outstanding it returns without waiting, and says whether the slot held a pointer |
| LFQueueSequential.LFQueue.PopReady | src/lfqueue.cpp:95-100 | the next pop finds a positive counter exactly when a ticket is outstanding |
| LFQueueSequential.LFQueue.Remain | src/lfqueue.cpp:191-193 | the 32-bit difference is the sum of the counters |
| LFQueueSequential.LFQueue.Reset | src/lfqueue.cpp:195-200 | never waits, ends, and leaves the queue empty |
| LFQueueSequential.LFQueue.QueuedBounded | src/lfqueue.cpp:167-168 | queued_item_ is the number of positive slots, at most the number of slots |
| JsonRoundTrip.RoundTrip | thirdparty/libjsonc/src/json_tokener.c:257-846 | for every tree of null, booleans, int64s, byte strings, arrays and objects with NUL-free distinct keys, in any print style: parsing the print gives the tree back, key order kept, exactly when it is no deeper than the tokener allows; else the depth error |
| JsonRoundTrip.DefaultRoundTrip | thirdparty/libjsonc/src/json_tokener.c:123-126 | the same for json_tokener_new: 32 levels, so depth 31 |
| JsonRoundTrip.PrintInjective | thirdparty/libjsonc/src/json_object.c:299-343 | two different trees never print alike |
| JsonRoundTrip.PrintIsJson | thirdparty/libjsonc/src/json_object.c:299-343 | every print, in every style, is spelled by a syntax tree of RFC 8259 that means the value |
| JsonRoundTrip.PrintLayout | thirdparty/libjsonc/src/json_object.c:299-343 | the white space of every print, style by style: where the newlines and the blanks stand, and how many |
| JsonRoundTrip.ShortestEscape | thirdparty/libjsonc/src/json_object.c:96-137 | no spelling of a byte in a JSON string is shorter than the printed one; only the slash could stand bare |
| JsonRoundTrip.StringPrinted | thirdparty/libjsonc/src/json_object.c:96-137 | the escaped form of any byte string is a sequence of characters of RFC 8259 that means it |
| JsonRoundTrip.DecimalPrinted | thirdparty/libjsonc/src/json_object.c:476-484 | the printed form of every int64 is a number of RFC 8259 that means it |
| JsonAccepts.ParsesExactly | thirdparty/libjsonc/src/json_tokener.c:257-846 | a C string is parsed to v up to an offset if and only if it reads, up to there, as a text of the grammar that means v and is not too deep; the grammar is a syntax tree with literal characters that knows nothing of the machine |
| JsonAccepts.TextsAreAccepted | thirdparty/libjsonc/src/json_tokener.c:257-846 | every text of the grammar is parsed to what it means, or gives the depth error exactly when it is too deep |
| JsonAccepts.AcceptsOnlyTexts | thirdparty/libjsonc/src/json_tokener.c:257-846 | whatever is accepted is such a text, and its meaning is what is returned |
| JsonRfc.JsonIsRead | thirdparty/libjsonc/src/json_tokener.c:257-846 | every RFC 8259 text without fractions and exponents, with any blanks, tabs, LF and CR between its tokens, any spelling of its characters, any int64 and repeated keys, is parsed to the end as what it means, or gives the depth error |
| JsonRfc.StringsMean | thirdparty/libjsonc/src/json_tokener.c:476-630 | such a string means its characters: raw bytes, short escapes, codes and surrogate pairs in UTF-8 |
| JsonRfc.NumbersMean | thirdparty/libjsonc/src/json_tokener.c:691-700 | the digits of every int64 mean that number |
| JsonReads.Reads | thirdparty/libjsonc/src/json_tokener.c:257-846 | at the first character of a value, at any depth, the machine reads the text of any syntax tree as its meaning |
| JsonUnits.Feeds | thirdparty/libjsonc/src/json_tokener.c:476-630 | at every character inside a string, complete units carry what has been read, a begun unit is carried on, and the first character that fits none is the error |
| JsonErrors.ErrorsTell | thirdparty/libjsonc/src/json_tokener.c:257-846 | of every C string that is refused: up to some offset it is the beginning of a text, and the error says what is missing there |
| JsonValue.AddFreshField | thirdparty/libjsonc/src/json_object.c:388-392 | a new key goes to the end |
| JsonUtf8.Utf8Correct | thirdparty/libjsonc/src/json_tokener.c:536-630 | the bytes written for a Unicode scalar value decode to it (section 3 of RFC 3629) and to nothing else |
| JsonUtf8.BmpEscape | thirdparty/libjsonc/src/json_tokener.c:532-630 | an escaped code outside D800-DFFF appends exactly its UTF-8 bytes |
| JsonUtf8.LoneLow | thirdparty/libjsonc/src/json_tokener.c:532-630 | a lone low surrogate appends EF BF BD |
| JsonUtf8.LoneHigh | thirdparty/libjsonc/src/json_tokener.c:532-630 | a high surrogate before an ordinary character appends EF BF BD and the character |
| JsonUtf8.PairEscape | thirdparty/libjsonc/src/json_tokener.c:545-600 | an escaped pair appends its code point exactly when the low 16 bits of that code point are outside D800-DFFF; otherwise the decoder goes wrong |
| JsonChunks.RunSplit | thirdparty/libjsonc/src/json_tokener.c:191-225 | after a piece that asks for more and spoils no pair, the next piece goes on as if there had been no cut |
| JsonChunks.PiecesEqualWhole | thirdparty/libjsonc/src/json_tokener.c:191-225 | pieces give the value, the error or the state of the whole text if no piece ends inside an escaped pair; the condition is on the text and the offsets alone |
| JsonChunks.AnyCutWithoutHighEscapes | thirdparty/libjsonc/src/json_tokener.c:191-225 | in particular every text without D800-DBFF escapes, however it is cut |
| JsonChunks.CutPairDiffers | thirdparty/libjsonc/src/json_tokener.c:560-600 | cutting an escaped pair between its halves changes the value: two replacement characters instead of one code point |
| JsonChunks.PairCuts | thirdparty/libjsonc/src/json_tokener.c:545-630 | of every escaped pair, each of the six offsets from the end of the first half to the last digit of the second is such a cut |
| JsonCuts.CutExact | thirdparty/libjsonc/src/json_tokener.c:545-630 | from any state and for any two pieces: the tokener that was cut meets the one that was not, at the latest when the second half is read, exactly if the cut spoils no pair |
| JsonCuts.OneCut | thirdparty/libjsonc/src/json_tokener.c:545-630 | the same for a new tokener and any offset of any text: they meet exactly if the offset is not inside a pair |
| JsonCuts.SplitsInside | thirdparty/libjsonc/src/json_tokener.c:560-600 | such a cut lies behind a pending first half and in front of the last digit of a spelled DC00-DFFF escape (behind its backslash-u: in front of any digit) |
| JsonCuts.HalfMeans | thirdparty/libjsonc/src/json_tokener.c:545-560 | which texts leave a first half pending: those that end with a spelled D800-DBFF escape, or with a second half whose code point reads as a first half again |
| JsonTokener.Tokener.constructor | thirdparty/libjsonc/src/json_tokener.c:106-121 | an empty stack at level 0 |
| JsonTokener.Tokener.ParseEx | thirdparty/libjsonc/src/json_tokener.c:231-881 | the goto machine with its stack, scratch fields and tight loops does, on every piece and from every state, what the machine of one character at a time does; what that machine accepts is JsonAccepts.ParsesExactly |
| JsonTokener.Tokener.ScanText | thirdparty/libjsonc/src/json_tokener.c:476-499 | the tight string loop stops where the one-character machine leaves the plain text, with the same buffer |
| JsonTokener.Tokener.ScanNumber | thirdparty/libjsonc/src/json_tokener.c:665-689 | the tight number loop gathers the longest run of number characters and notes a double |
| JsonTokener.Tokener.DoUnicode | thirdparty/libjsonc/src/json_tokener.c:532-630 | four digits, the look-ahead for a second half, and the end of a piece inside an escape |
| JsonTokener.Tokener.Reset | thirdparty/libjsonc/src/json_tokener.c:146-156 | the tokener is as new |
| JsonTokener.Parse | thirdparty/libjsonc/src/json_tokener.c:166-184 | json_tokener_parse_verbose on any C string is the machine run on it |
| JsonTokener.NullCase | thirdparty/libjsonc/src/json_tokener.c:385-421 | null and NaN, case-insensitive, letter by letter |
| PrintBuf.Printbuf.Extend | thirdparty/libjsonc/src/printbuf.c:58-77 | room for the size asked for, old bytes kept |
| PrintBuf.Printbuf.MemAppend | thirdparty/libjsonc/src/printbuf.c:79-89 | contents grow by the bytes and stay NUL-terminated, never out of bounds |
| PrintBuf.Printbuf.MemSet | thirdparty/libjsonc/src/printbuf.c:91-109 | exactly the bytes from the offset on change; nothing is terminated |
| JsonPrinter.EscapeStr | thirdparty/libjsonc/src/json_object.c:96-137 | the loop with start_offset appends the escaped text |
| JsonPrinter.Write | thirdparty/libjsonc/src/json_object.c:299-343 | every serializer appends the print of its value, in every style and at every level |
| JsonPrinter.WriteObject | thirdparty/libjsonc/src/json_object.c:299-343 | the loop over the fields, in insertion order |
| JsonPrinter.WriteArray | thirdparty/libjsonc/src/json_object.c:755-795 | the loop over the elements |
| JsonPrinter.ToJsonString | thirdparty/libjsonc/src/json_object.c:266-280 | the buffer holds exactly the print, as a C string |
| ArrayList.PtrList.Expand | thirdparty/libjsonc/src/arraylist.c:60-72 | room, contents kept, the rest NULL |
| ArrayList.PtrList.PutIdx | thirdparty/libjsonc/src/arraylist.c:74-82 | the element is replaced and the old one handed to free_fn, or the list grows with NULL in the gap |
| ArrayList.PtrList.Add | thirdparty/libjsonc/src/arraylist.c:84-88 | appends and frees nothing |
| JsonObjects.Objects.Get | thirdparty/libjsonc/src/json_object.c:142-148 | one reference more |
| JsonObjects.Objects.Put | thirdparty/libjsonc/src/json_object.c:150-164 | the last reference frees exactly the nodes of the tree, each once and only live ones; otherwise one reference less |
| JsonObjects.Objects.ArrayAdd | thirdparty/libjsonc/src/json_object.c:839-842 | the array takes over the reference: a tree of once-owned nodes again |
| JsonObjects.Objects.ObjectAdd | thirdparty/libjsonc/src/json_object.c:380-397 | a new key is appended; the old value of a known key is freed and nothing else |
| JsonObjects.TreeKept | thirdparty/libjsonc/src/json_object.c:142-178 | a tree does not depend on nodes that are not its own |
| JsonObjects.ObjectReplaced | thirdparty/libjsonc/src/json_object.c:393-396 | replacing a field leaves a tree without the nodes of the old value |
| JsonOwnership.OwnedTokener.Consume | thirdparty/libjsonc/src/json_tokener.c:257-846 | at every character each level of the stack owns exactly the nodes of the value the machine has there, each with one reference, and other nodes are untouched |
| JsonOwnership.OwnedTokener.FinishElement | thirdparty/libjsonc/src/json_tokener.c:346-351 | json_object_get, reset_level and array_add move an element without a leak |
| JsonOwnership.OwnedTokener.FinishField | thirdparty/libjsonc/src/json_tokener.c:822-828 | the same for a field; a replaced value is freed |
| JsonOwnership.OwnedTokener.Return | thirdparty/libjsonc/src/json_tokener.c:867-876 | the caller gets the value with one reference; all else is freed |
| JsonOwnership.OwnedTokener.Reset | thirdparty/libjsonc/src/json_tokener.c:136-156 | nothing that the tokener allocated is left |
| JsonOwnership.ParseVerbose | thirdparty/libjsonc/src/json_tokener.c:166-184 | on every text: after success the new nodes are exactly those of the value, each with reference count 1; after an error there are none; every other node was freed once |
| JsonOwnership.OwnedTokener.ParseEx | thirdparty/libjsonc/src/json_tokener.c:231-881 | one call on a piece, from any state: on success the caller has the tree with one reference and the tokener holds nothing; otherwise everything stays with the tokener |
| JsonOwnership.ParsePieces | thirdparty/libjsonc/src/json_tokener.c:128-144 | any number of pieces and then json_tokener_free, whatever the outcome: after success the new nodes are exactly those of the value; after an error, or if the text is still incomplete, there are none |
| JsonClients.WriteThenParse | thirdparty/libjsonc/src/json_object.c:266-280 | through the buffer and the tokener as they are: every tree no deeper than 31 comes back in every style, a deeper one gives the depth error |
| JsonClients.ParsePieces | thirdparty/libjsonc/src/json_tokener.c:231-881 | one call per piece until it asks for no more: unless a piece ends inside an escaped pair, the verdict is that of the whole text |
| LinkHash.LhTable.constructor | thirdparty/libjsonc/src/linkhash.c:426-446 | an empty table |
| LinkHash.LhTable.Lookup | thirdparty/libjsonc/src/linkhash.c:527-542 | ends even when only tombstones are left, and finds the key exactly when it is there |
| LinkHash.LhTable.FindFree | thirdparty/libjsonc/src/linkhash.c:503-507 | the unbounded probe loop always meets a free slot |
| LinkHash.LhTable.Insert | thirdparty/libjsonc/src/linkhash.c:493-524 | appends the entry; resizes at most once and never inside a resize |
| LinkHash.LhTable.Resize | thirdparty/libjsonc/src/linkhash.c:460-478 | keeps the entries and their order |
| LinkHash.LhTable.DeleteEntry | thirdparty/libjsonc/src/linkhash.c:563-589 | -2, -1, or exactly this entry leaves the list, is handed to free_fn, and its slot becomes a tombstone |
| LinkHash.LhTable.Delete | thirdparty/libjsonc/src/linkhash.c:592-597 | drops the key if it is there, and hands its entry, and nothing else, to free_fn |
| LinkHash.LhTable.LookupEx | thirdparty/libjsonc/src/linkhash.c:552-561 | the value, or NULL |
| LinkHash.LhTable.ObjectAdd | thirdparty/libjsonc/src/json_object.c:380-397 | a client that looks up first: a known key keeps its place |
| LinkHash.ProbeMiss | thirdparty/libjsonc/src/linkhash.c:534-540 | a probe that met neither the key nor an empty slot before some point has passed no live slot of the key |
| LinkHash.SomeProbeFree | thirdparty/libjsonc/src/linkhash.c:503-507 | below the load limit some probe is free |
| LinkHash.ProbeCovers | thirdparty/libjsonc/src/linkhash.c:534-540 | as many probes as slots visit every slot |
| LinkHash.PlacedProbes | thirdparty/libjsonc/src/linkhash.c:509-511 | filling a slot keeps every live key reachable without an empty slot in between |
| LinkHash.UnlinkedOk | thirdparty/libjsonc/src/linkhash.c:571-587 | the pointer surgery keeps the list, its inverse, the probe paths and the other entries |
| LinkHashRuns.RunIsMap | thirdparty/libjsonc/src/linkhash.c:493-597 | after any run of additions and deletions, a lookup gives what a map gives |
| LinkHashRuns.OrderKept | thirdparty/libjsonc/src/linkhash.c:513-521 | of two keys the earlier one stays earlier as long as neither is deleted |
| LinkHashRuns.RunOps | thirdparty/libjsonc/src/linkhash.c:493-597 | the table under any run of its client |
| SirenCodec.EncodedOk | src/legacy/r2mem_cod.cpp:119-159 | the output is the encoded prefix of the input and leaves the trailing 1 to 320 samples |
| SirenCodec.WholeFrames | src/legacy/r2mem_cod.cpp:123-155 | encoding goes by whole frames |
| SirenCodec.R2memCod.DoProcess | src/legacy/r2mem_cod.cpp:101-117 | appends the scaled samples |
| SirenCodec.R2memCod.ProcessData | src/legacy/r2mem_cod.cpp:119-159 | encodes every frame that is due |
| SirenCodec.R2memCod.GetData2 | src/legacy/r2mem_cod.cpp:178-188 | hands out everything encoded and not handed out, once |
| SirenVad.BeginEndConsistent | src/legacy/r2mem_vad2.cpp:84-179 | begin is reported exactly when voice starts and end exactly when it stops, for any engine |
| SirenVad.VoiceOnce | src/legacy/r2mem_vad2.cpp:107-143 | while the voice of the engine grows, the calls together hand out exactly the frames counted, each once and in order |
| SirenVad.AnswersDecide | src/legacy/r2mem_vad2.cpp:84-179 | from the answers of the engine alone: begin exactly if some frame reports a start and there was no voice, frame 0 and start 0 included; end exactly if a frame behind the start reports a stop; which frame ends the call; how many samples stay |
| SirenVad.AllCounted | src/legacy/r2mem_vad2.cpp:107-143 | every frame of voice is counted, up to the largest number the engine has said |
| SirenVad.R2memVad2.DoProcess | src/legacy/r2mem_vad2.cpp:84-179 | the frame loop; its results are those of the function that SirenVad.AnswersDecide pins to the answers |
| SirenSession.SessionGrammar | src/siren_processor.cpp:753-782 | with alg_vt_enable, for all blocks, flags and engine answers: the messages of every run match (start data* (end or cancel))*, and the last session is open exactly when data is output |
| SirenSession.NoAsrFlagError | src/siren_processor.cpp:753-782 | so no "asrflag error" branch of dumpMsg is ever taken |
| SirenSession.ProcessKeeps | src/siren_processor.cpp:369-679 | one call of process keeps the invariant: vadStart implies that the codec is paused exactly when the session is cancelled, so the asserts of processdata and resume never fire |
| SirenSession.DataIsAudio | src/siren_processor.cpp:648-656 | what the consumer has received in the open session is a prefix of the audio since the last audio begin, over pauses and restarts |
| SirenSession.EndDeliversAudio | src/siren_processor.cpp:653-664 | at every session end only the trailing 1 to 320 samples are missing, and the end is the last message of the call |
| SirenSession.TooLongCancels | src/siren_processor.cpp:615-620 | too much audio cancels the session in the call that takes it |
| SirenSession.NeverResumed | src/siren_processor.cpp:637-646 | a session cancelled as too long is never resumed, and no session message comes, before the next audio begin |
| SirenSession.DataIsWanted | src/siren_processor.cpp:598-656 | a call with a data message leaves the session open, with the asr flag set or a wake word behind it |
| SirenSession.ListenKeeps | src/siren_processor.cpp:378-534 | a begin or a wake word closes whatever was open |
| SirenSession.RestartKeeps | src/siren_processor.cpp:637-646 | a cancelled session that starts after all starts from the first sample; when it does is SirenStarts.HeldRestarts |
| SirenSession.BeforeAudio | src/siren_processor.cpp:516-523 | the codec buffer holds exactly the voice since the last audio begin |
| SirenStarts.StartsWhen | src/siren_processor.cpp:516-664 | voice is on and nothing has been output since the audio begin: vad_start comes exactly if a command word was found, or no wake word was, the asr flag is set and no wake word is behind the audio; what has started is cancelled in the same call exactly if there are more than 96000 samples, or neither wake word nor flag; a wake word alone holds the session back |
| SirenStarts.OpenGoesOn | src/siren_processor.cpp:613-658 | an open session is cancelled exactly for those two reasons, ends exactly with the voice, and else stays open |
| SirenStarts.HeldRestarts | src/siren_processor.cpp:637-646 | a cancelled session restarts exactly if a wake word is behind it, more than 8000 samples have come since the pause, and fewer than 96000 in all |
| SirenStarts.SpeechStarts | src/siren_processor.cpp:516-664 | after any run, an audio begin with the asr flag and no detection starts a session in that call, and it lasts as long as it is asked for, the voice goes on and no more than 96000 samples come |
| SirenStarts.SpeechGoesOn | src/siren_processor.cpp:613-658 | an open session stays open over any run that asks for it, with no start, cancel or end, up to 96000 samples |
| SirenStarts.RestartsExactly | src/siren_processor.cpp:637-646 | from the audio alone: of a session held back, a block gives vad_start exactly if it brings the samples since the pause above 8000 and leaves the whole below 96000 |
| SirenStarts.WakeWordThenSpeech | src/siren_processor.cpp:516-646 | after any run: a wake word without a command at the audio begin, then speech; nothing of a session is said up to 8000 samples, and the block that passes them starts it |
| SirenStarts.WordsAnnounced | src/siren_processor.cpp:518-573 | which words are announced by which messages, and when |
| SirenStarts.SleepForgets | src/siren_processor.cpp:683-686 | setState(sleep) forgets the wake word: a session held back is not restarted |
| SirenStarts.WakingKeeps | src/siren_processor.cpp:683-686 | setState(awake) changes nothing of a session |
| SirenStarts.NothingWithoutVoice | src/siren_processor.cpp:516-664 | without voice nothing of a session is said |
| SirenStarts.DataKeepsUp | src/siren_processor.cpp:648-656 | after every call that leaves a session open, the consumer lacks at most 345 samples of the audio |
| SirenProcessorImpl.SirenProcessor.DoProcess | src/siren_processor.cpp:369-679 | the fields after process, and the messages, are what the functions of the session say; SirenStarts says when these start, hold, restart, cancel and end |
| SirenProcessorImpl.SirenProcessor.Serve | src/siren_processor.cpp:369-822 | in every run of process, setState and getMsgs on the object, the messages are those of the run and dumpMsg never reports an error |
| SirenProcessorImpl.SirenProcessor.ResetASR | src/siren_processor.cpp:833-849 | cancels an open session and resets |
| SirenProcessorImpl.SirenProcessor.DoOutput | src/siren_processor.cpp:575-658 | open, cancel, restart and data in this order |
| SirenProcessorImpl.SirenProcessor.GetMsgs | src/siren_processor.cpp:710-716 | dumps every message of the call against the flag |
| VtMessage.RoundTrip | src/siren_channel.cpp:62-270 | for every word list: unpacking what was packed gives every word with its strings cut at the first NUL and use_default_config false; the empty list gives -2 |
| VtMessage.RoundTripExact | src/siren_channel.cpp:62-270 | the list comes back exactly when it is not empty and no string has a NUL |
| VtMessage.RecordAligned | src/siren_channel.cpp:99-103 | every record is 8-aligned and strictly longer than its contents |
| VtMessage.UnpackRecord | src/siren_channel.cpp:210-266 | one record is unpacked to its word, and leads to the next |
| VtMessage.DamageFound | src/siren_channel.cpp:232-258 | a packed list with the NUL behind one of its strings overwritten: the words in front arrive, then the error is -4, -7 or -5 for word, phone or nnet path |
| VtMessage.ShortOrForeign | src/siren_channel.cpp:186-205 | a list cut so short that its records cannot be there gives -6, a message with another number -3 |
| VtMessage.Le32RoundTrip | src/siren_channel.cpp:125-125 | a 32-bit integer is stored and read back, negative ones included |
| VtChannel.AllocateMessage | src/siren_channel.cpp:39-60 | a header and a zero payload |
| VtChannel.AllocateMessageFromVTWord | src/siren_channel.cpp:62-178 | the cursor loops write exactly the packed list and never leave the buffer |
| VtChannel.WriteRecord | src/siren_channel.cpp:131-174 | one record, the rest of its space zero |
| VtChannel.GetVTWordFromMessage | src/siren_channel.cpp:180-270 | the cursor loops read what the unpacking function gives, errors -2 to -7 included |
| VtChannel.CopyMessage | src/siren_channel.cpp:272-283 | the same bytes at another address |
| VtChannel.CopyIsMessage | src/siren_channel.cpp:272-283 | a copy is the same message |
| VtChannel.HeaderRead | src/siren_channel.cpp:360-371 | a header tells the number and the length of its message, and where the next begins |
| VtChannel.Socket.PollMessage | src/siren_channel.cpp:337-403 | the magic error, or the next message of the stream |
| VtChannel.Socket.ReadPayload | src/siren_channel.cpp:372-397 | the read loop fills the payload from pieces of any sizes |
| VtChannel.Socket.WriteMessage | src/siren_channel.cpp:415-438 | the bytes of the message go behind the stream |
| VtChannel.SendWords | src/siren_channel.cpp:62-438 | packed, sent, read in any pieces, copied and unpacked: the list as it is seen |
| AecReframe.R2memAec.constructor | src/legacy/r2mem_aec.cpp:4-35 | nothing held |
| AecReframe.R2memAec.Process | src/legacy/r2mem_aec.cpp:59-113 | the samples a call returns are the engine output from what had been returned to the last multiple of 160; the engine was fed with exactly the frames of the input; no write passes a buffer |
| AecReframe.R2memAec.ProcessFrm | src/legacy/r2mem_aec.cpp:115-160 | feeds the next frame, scaled, and stores the scaled answer |
| AecReframe.R2memAec.Grow | src/legacy/r2mem_aec.cpp:78-86 | room for all output of the call |
| AecReframe.R2memAec.Reset | src/legacy/r2mem_aec.cpp:51-57 | held samples are dropped; the engine goes on |
| AecReframe.AnySplitting | src/legacy/r2mem_aec.cpp:59-113 | for any splitting into calls, what has been returned is the first 160 * floor(256 * floor(T / 256) / 160) samples of the engine output |
| AecReframe.OutputCausal | src/legacy/r2mem_aec.cpp:115-157 | more input never changes output that is due |
| AecReframe.R2memAec.Conservation | src/legacy/r2mem_aec.cpp:66-110 | in every state of the object: what came in is what was returned, plus the output it holds, plus the input it holds |
| AecReframe.ProcessAll | src/legacy/r2mem_aec.cpp:59-113 | a recording in blocks of any sizes on the object: every microphone gets the beginning of the engine output for the whole of it, and every sample is returned or held |
| AudioRing.ZAudBuff.PutAudio | src/legacy/r2mem_buff.cpp:90-115 | the ring holds the last samples of the zero-prefixed history exactly when the block is shorter than the ring or suits the offset that the copy uses |
| AudioRing.LongBlocksSuit | src/legacy/r2mem_buff.cpp:92-96 | blocks that fill the ring all suit exactly when there are as many microphones as places in the ring: the copy starts at the number of microphones before the end |
| AudioRing.ZAudBuff.GetLastAudio | src/legacy/r2mem_buff.cpp:117-143 | exactly the window asked for, in all three wrap cases |
| AudioRing.ZAudBuff.Reset | src/legacy/r2mem_buff.cpp:145-152 | silence |

## Left out

- Memory ordering and the wake-up of waiters: the queue is sequentially consistent and a
  wait is a spin. `waiters` and, in the concurrent model, `queued_item_` are not state.
- `futex_wait` returns a positive errno that is compared with a negative one
  (src/lfqueue.cpp:51-57, 82, 102), so an expired wait never takes effect as written; the model
  lets it take effect or not.
- LFQueueSequential.LFQueue.constructor: the length 0, and the lengths for which it never
  returns (LFQueueSequential.RoundingEnds).
- JsonChunks.PiecesEqualWhole: a condition that suffices for several cuts; it is exact for each
  cut by itself (JsonCuts.CutExact), and an earlier cut that has given up a first half can make
  a later one harmless.
- JsonRfc.JsonIsRead: strings with a lone surrogate, or with a pair whose code point has low 16
  bits in D800-DFFF, and keys with U+0000, which the source cuts there, are not read as
  the standard has them; what they are read as is in JsonGrammar, and
  JsonAccepts.ParsesExactly covers them.
- JSON doubles, `Infinity`, `NaN` and comments end in the outcome `Outside`; `-Infinity` is
  not safe against cutting in the source. JSON_TOKENER_STRICT, which the repository
  never sets, is not modelled.
- A NUL inside a text ends it: json_tokener_parse_ex with a length is modelled on texts
  up to their first NUL.
- The parser answers JSON null with a NULL pointer, although its documentation says that
  success is not NULL; the model follows the code.
- JsonTokener.Tokener.ParseEx: holds values in its stack; reference counts are in
  JsonOwnership, which runs next to the same machine. Any number that begins with a minus
  and is followed by an i ends in `Outside`, where the source takes its -Infinity branch only
  when one character of the number came in the same call
  (thirdparty/libjsonc/src/json_tokener.c:683): there `-5i` is -5 before an i.
- JsonTokener.Tokener.DoUnicode: a NUL in place of a hexadecimal digit is the end of the text.
  The source's `strchr` (thirdparty/libjsonc/src/json_tokener.c:538) finds the terminator too and
  computes with it before it ends with the same error, and may look at the two bytes behind it.
- JsonTokener.Parse: the same for C strings that end inside a unicode escape.
- JsonOwnership.OwnedTokener.Consume: reads the control state (state, scratch fields) from
  the machine instead of repeating the goto machine.
- printbuf, array_list and message sizes are unbounded integers; overflow of `int` and
  failing allocation are not modelled.
- LinkHash.LhTable.Insert: the load test is exact (66 percent) where the source multiplies by
  a double; statistics counters but `resizes`, and the hash function itself (any function), are left out.
- LinkHash.LhTable.DeleteEntry: the negative index stands for an entry in front of the table.
- JSON: json_object_from_file, custom serializers, sorting of arrays, `json_object_get_*` conversions.
- The session with alg_vt_enable false, and `SirenProcessorImpl::reset`, which nothing
  calls.
- SirenSession.ProcessKeeps: assumes the asserts of the source about its engines: CANCEL comes
  with PRE, and a forced start succeeds.
- SirenVad.R2memVad2.DoProcess: samples in the input buffer are counted, not kept; conservation
  of samples after an end does not hold in the source and is not claimed.
- Messages carry their kind and the samples, not the direction string; the growth of the
  message array, the recordings, and the Opus mode of the codec buffer are left out.
- VtChannel.AllocateMessage: the header has 32 bytes, as with 64-bit pointers; with 32-bit
  pointers it has 24.
- VtMessage.RoundTrip: lists whose packed length does not fit an `int`.
- VtChannel.GetVTWordFromMessage: payloads whose sizes lead the cursors out of the buffer, where
  the source reads foreign memory; the null message (-1).
- VtChannel.Socket.PollMessage: a header that arrives in parts, epoll, and the end of the stream,
  on which the source loops for ever.
- AudioRing.ZAudBuff.PutAudio: blocks that fill the ring when there are fewer microphones than
  places, or fewer samples than microphones: the copy from `iLen - m_iMicNum` on then leaves the
  block (src/legacy/r2mem_buff.cpp:92-96).
- `r2mem_buff::put` loses its read position when it grows with unread data
  (src/legacy/r2mem_buff.cpp:39-45) and is not modelled.
- Beamforming, noise, echo and wake-word engines are functions that may answer anything.
- Thread start-up and shut-down, sockets, signals, JNI, logging, configuration fields.
