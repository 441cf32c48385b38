# BarePDF: verified models

Dafny models of the parts of BarePDF that carry state, concurrency or arithmetic, and proofs of
what they promise. `dafny verify dfyconfig.toml` checks the whole project.

## The render pipeline

`RenderPipeline.dfy` is a state machine: callers on any number of threads, one render worker, three
bounded command queues, the mutex around the pending requests, the generation counter and two
bounded event channels. Each operation another thread can fall between is a step of its own
(`Next`); a run (`IsRun`) is any sequence of steps from `Initial`. Acquiring the lock, checking for a
duplicate, the try-send, the insertion and the release are five steps
(crates/barepdf-render/src/scheduler.rs:146-202); a bump of the generation is four
(scheduler.rs:128-136); one pass of `receive_command` is up to six
(crates/barepdf-render/src/queue.rs:6-74); taking up a job, reading the colour flag, the look-up, the
render, the look at the shutdown signal, each delivery attempt and the removal of the key are steps of
the worker (crates/barepdf-render/src/worker.rs:20-51, 158-349, 360-606); polling for an event is two
(scheduler.rs:211-225). PDFium is an abstract function of document, page, size and rotation. The
queues, the channels and the worker also remember what was ever sent, received, produced and emitted,
so that order and loss can be stated. `Scheduler.dfy` and `CommandReceiver.dfy` hold the same operations
in their own form, as methods that update fields in place, proved to do what their steps do when no
other step falls between.

Four files prove what holds of every run. Each projects the state onto the part it speaks of, shows
that every step is one of a few moves of that part, and proves its invariants on the moves.
`PendingRequests.dfy`: no key is leaked while the worker lives, and one job for each current request.
`QueueOrder.dfy`: order, priority, no starvation, why the worker stops, and that a shutdown is never
swallowed. `EventDelivery.dfy`: what becomes of each event. `EmittedBitmaps.dfy`: what each emitted
bitmap is. `Reopening.dfy` states exactly when an identifier may be opened again without a close, and
`OpenDocuments.dfy` that an open document stays open in use and that current requests are answered.
`Cache.dfy` is the LRU cache of the worker as a class with a byte budget, and `Bitmap.dfy` the inversion
of colours eight bytes at a time. `Common.dfy` holds what several parts share.

## Printing

`Checksums.dfy`, `Png.dfy`, `PngDecoder.dfy` and `PngRoundTrip.dfy` model the print encoder byte for
byte, a decoder written from the standards (sections 3.1, 3.2, 3.4, 4.1.1 and 6.1 of RFC 2083, sections
2.2 and 8.2 of RFC 1950, section 3.2.4 of RFC 1951) and the round trip through both. `PrintJob.dfy` is
the job that renders pages and hands them to a print sink, which records what is asked of it.

## Text, outline, ranges, layout and ink

`TextSearch.dfy` is the search over UTF-8 bytes with its table from bytes to glyphs (section 3 of
RFC 3629). `Outline.dfy` is the bounded walk over a bookmark graph that may be cyclic.
`PageRange.dfy` parses page ranges and computes what a deletion leaves. `Layout.dfy` places pages and
finds those in view. `InkClip.dfy` and `InkErase.dfy` erase ink along a drag of the eraser; the square
root is a function given with its defining property. `InkTrace.dfy` and `InkSweep.dfy` prove where the
points of the ink are afterwards, for one place of the eraser and for a whole drag.

## Jobs and documents

`ToolWorker.dfy` is the state machine of the PDF tools: a claim flag, a one-slot command queue, one
worker, and a job that may wait for a password; `ToolDialogue.dfy` proves what the worker is told and
what it tells. `Documents.dfy` is the set of tabs and the controller
of the document in each, as a class whose methods are proved against functions on its value.

## Where the code and its intent part

- The clip of a segment drops an end point that lies exactly on the ellipse when the segment goes
  inside from there, although such a point is not inside. `InkClip.KeptIffOutside` states the exact
  condition and `InkClip.GrazingEndHappens` a segment on which it happens.
- An identifier opened again without a close keeps the cached bitmaps of the document before. The promise
  about emitted bitmaps holds of every run in which each open finds only cached bitmaps that would be
  right for its document, in particular if the identifier was closed or names the same document.
  `Reopening.OpenIsSafeIff` states that this is exact, and `Reopening.BlackIsShownForWhite` is a run of two
  opens that ends in a wrong bitmap.
- A job may be sent one generation ahead, not further: two or more ahead it can be live and current
  without being pending. `PendingRequests.FutureJobBreaksIt` comes to such a state from any run whose lock is
  free and whose scheduler and worker live.
- A key that is pending when the worker stops stays pending although no job for it can be received any
  more, until the generation is bumped. `PendingRequests.StoppedWorkerLeaks` states it.
- A cancel that comes after the last look at the token of a tool job, but before its event, does not keep
  the job from reporting completion. `ToolWorker.LastLookDecides` is the exact statement and
  `ToolWorker.LateCancelStillCompletes` the run.

## Model

| member | source | states |
|---|---|---|
| PendingRequests.NoLeakedKey | crates/barepdf-render/src/scheduler.rs:146-202 | in every state of every run before the worker has stopped, whatever the callers do, each pending key belongs to a job that waits in a queue or is with the worker |
| PendingRequests.PendingMeansOneJob | crates/barepdf-render/src/worker.rs:241-249 | if no caller sends a job more than one generation ahead, then while the worker lives and whenever the lock is free, a key of the current or the next generation is pending exactly when one job for it is queued or in flight, and otherwise there is none: never two |
| PendingRequests.FutureJobBreaksIt | crates/barepdf-render/src/scheduler.rs:128-202 | the other half: any run whose lock is free and whose scheduler and worker live goes on, for any job at least two generations ahead that is not live and has room in its queue, to a state in which this job is live and current but not pending |
| PendingRequests.StoppedWorkerLeaks | crates/barepdf-render/src/worker.rs:138-156 | after the worker has stopped nothing is received or queued, a pending key stays pending as long as its generation is current, and nothing becomes pending that was not about to be |
| Scheduler.RenderScheduler.SendCommand | crates/barepdf-render/src/scheduler.rs:146-202 | the call in place succeeds exactly for a request that is not pending, a queue with room and a live worker, and then the key is pending; its effect is that of its steps |
| Scheduler.RenderScheduler.BumpGeneration | crates/barepdf-render/src/scheduler.rs:128-136 | the counter grows by one and exactly the requests of the new generation stay pending |
| Scheduler.RenderScheduler.TryRecvEvent | crates/barepdf-render/src/scheduler.rs:211-225 | critical events come first, and the end of the worker is reported only when both channels are empty and it has stopped |
| Scheduler.SendIsASequenceOfSteps | crates/barepdf-render/src/scheduler.rs:146-202 | sending a request is acquiring the lock, looking for a duplicate, trying the queue, registering and letting go, as steps of the pipeline |
| RenderTypes.KeyIdentifies | crates/barepdf-render/src/protocol.rs:64-87 | two requests have the same key exactly if they differ in identifier and priority at most |
| Scheduler.BumpIsASequenceOfSteps | crates/barepdf-render/src/scheduler.rs:128-136 | a bump is acquiring the lock, counting, retaining and letting go, as steps of the pipeline |
| PendingRequests.StepMoves | crates/barepdf-render/src/scheduler.rs:128-202 | every step of the pipeline is a move of the small protocol of lock, pending set, generation and live jobs on which the invariants are proved |
| PendingRequests.WaitsIsQueued | crates/barepdf-render/src/scheduler.rs:174-180 | the keys counted as queued are those of the render requests in the queue |
| QueueOrder.QueuesAreOrdered | crates/barepdf-render/src/queue.rs:6-74 | in every state of every run what was sent to a queue is what was received from it followed by what it holds, and no queue exceeds its capacity |
| QueueOrder.ControlGoesFirst | crates/barepdf-render/src/queue.rs:19-23 | when a call hands out visible or low work, every control command sent before its pass began has been received |
| QueueOrder.ControlOvertakes | crates/barepdf-render/src/queue.rs:19-23 | an open, a close or a shutdown that was queued waits behind no render and no query: a pass that begins later hands these out only after it |
| QueueOrder.EachQueueHoldsItsKind | crates/barepdf-render/src/scheduler.rs:146-202 | in every run opens, closes and shutdowns take the control queue, pages of visible priority the visible one, all else the low one |
| QueueOrder.LowWaitsForEight | crates/barepdf-render/src/queue.rs:26-57 | low work that waits when a call starts lets at most eight visible commands be received before the next low command, however large the burst counter had grown |
| QueueOrder.WorkerStopsForCause | crates/barepdf-render/src/queue.rs:14-61 | the worker stops only after a shutdown signal or a shutdown command; when it stops because all queues are closed, every command sent was received |
| QueueOrder.ShutdownIsNotSwallowed | crates/barepdf-render/src/worker.rs:585-587 | in every run, once a shutdown was signalled the signal is still to be seen, or the worker has stopped, or it only has a key to remove before it stops: none of the five places that consume the signal loses it |
| CommandReceiver.Channels.ReceiveOnce | crates/barepdf-render/src/queue.rs:6-74 | one pass over the channels with its counter updated in place returns the command, the end or the wait, and leaves the channels, that the stages of the state machine do |
| CommandReceiver.PassInStages | crates/barepdf-render/src/queue.rs:13-59 | a pass nobody interferes with heeds the shutdown first, then control, then low work if the burst is used up, then visible, then low work |
| QueueOrder.StepMoves | crates/barepdf-render/src/worker.rs:138-194 | every step pushes one command within capacity, is one stage of receiving, works on a command, or leaves queues and worker alone |
| EventDelivery.DeliveredOnce | crates/barepdf-render/src/worker.rs:320-349 | before a shutdown every event produced and no longer in hand was received or waits in a channel exactly once, unless it is a thumbnail or text that was dropped once |
| EventDelivery.NeverTwice | crates/barepdf-render/src/worker.rs:39-51 | in every run, shut down or not, no event arrives twice and only produced events arrive |
| EventDelivery.PagesAreNotDropped | crates/barepdf-render/src/worker.rs:330-340 | a page bitmap is never dropped, even when the event channel is full |
| EventDelivery.OnlyThumbnailsAndTextAreDropped | crates/barepdf-render/src/worker.rs:39-51 | over every run what is dropped is a thumbnail, or the text or the text geometry of a page |
| EventDelivery.StoppedIsReportedLast | crates/barepdf-render/src/scheduler.rs:211-225 | when the end of the worker is reported, it has stopped and every event put into either channel was received, in the order of production |
| EventDelivery.StepMoves | crates/barepdf-render/src/worker.rs:20-51 | every step makes, keeps, delivers, drops or gives up one event, polls, or leaves the events alone; dropping needs a lossy event and a full channel |
| EmittedBitmaps.EveryBitmapIsRight | crates/barepdf-render/src/worker.rs:251-318 | if every open finds only cached bitmaps that would be right for its document, every emitted bitmap is a direct render of the document its identifier named at the step that emitted it, of its page and rotation, at the requested size or at a cached size with at least one side large enough, inverted per pixel as its flag says |
| EmittedBitmaps.EveryBitmapFollowsTheFlag | crates/barepdf-render/src/worker.rs:256-256 | the flag by which an emitted bitmap is inverted is the one read when the worker took up that job |
| EmittedBitmaps.EveryBitmapWasCurrent | crates/barepdf-render/src/worker.rs:252-255 | every emitted bitmap is for a job that was taken up while its generation was the current one |
| EmittedBitmaps.EmissionsAreTheBitmapEvents | crates/barepdf-render/src/worker.rs:320-349 | the bitmap events produced are the emissions, one for one and in order |
| EmittedBitmaps.ClosedStaysDark | crates/barepdf-render/src/worker.rs:579-583 | from the step that handles a close on, no bitmap of that document is emitted until an open of it is handled |
| EmittedBitmaps.ClosingFirstIsCareful | crates/barepdf-render/src/worker.rs:201-230 | a run in which identifiers are opened only when closed, or again for the same document, meets the condition of the promise |
| EmittedBitmaps.LookUpKeeps | crates/barepdf-render/src/worker.rs:256-300 | a look-up in a sound worker emits a right bitmap for its job, or starts a render of the document the job names, or drops the job; cache and documents stay sound; that a job for an open document is not dropped is OpenDocuments.CurrentJobIsAnswered |
| OpenDocuments.UsedStaysOpen | crates/barepdf-render/src/worker.rs:78-80 | over every run the document used last is still open later if it was not closed or opened anew since and fewer than sixteen others were opened or used |
| OpenDocuments.UseComesFirst | crates/barepdf-render/src/worker.rs:217-300 | a successful open, a query and a look-up that misses the cache make a document the one used last |
| OpenDocuments.CurrentJobIsAnswered | crates/barepdf-render/src/worker.rs:251-318 | over every run a job taken up while its generation is current, for an open document and with no shutdown seen, ends in an emission for it, or, only if its page does not render, in an error event |
| OpenDocuments.OpenedDocumentIsRendered | crates/barepdf-render/src/worker.rs:196-318 | both together: an opened document of which fewer than sixteen others were used since is rendered for a current job |
| OpenDocuments.OpenIsAnswered | crates/barepdf-render/src/worker.rs:201-230 | an open that succeeds puts the document in front and is reported; one that fails is reported and changes no document |
| OpenDocuments.QueryIsAnswered | crates/barepdf-render/src/worker.rs:360-577 | a query for an open document is answered by its result or its error |
| OpenDocuments.CachedIsShownAgain | crates/barepdf-render/src/worker.rs:265-268 | a bitmap cached under the very key of a job is emitted without a render and becomes the most recently used |
| OpenDocuments.RenderedIsCached | crates/barepdf-render/src/worker.rs:301-311 | a rendered bitmap that is not oversized is cached in front of all others under the key of its job |
| Reopening.OpenIsSafeIff | crates/barepdf-render/src/worker.rs:201-230 | after any careful run that comes to an open in a calm pipeline, all bitmaps emitted in any continuation without further opens are right exactly when every bitmap cached under the identifier would be right for the new document |
| Reopening.WrongBitmapIsShown | crates/barepdf-render/src/worker.rs:256-300 | from a calm open on top of a cached bitmap that is wrong for the new document, steps of callers and worker lead to an emission of it for that document |
| Reopening.OpenedTwiceShowsWrongBitmap | crates/barepdf-render/src/worker.rs:201-230 | for any two documents of which the second does not render like the first, a run from the start with two opens of one identifier and no other open that ends in an emission that is not right |
| Reopening.BlackIsShownForWhite | crates/barepdf-render/src/worker.rs:201-230 | two such documents of one pixel, and the run |
| Cache.FittingIsLongest | crates/barepdf-render/src/cache.rs:56-72 | eviction keeps the longest most-recently-used run that leaves the required room: with one entry more it would not fit |
| Cache.InsertedIsConsistent | crates/barepdf-render/src/cache.rs:38-54 | an insertion keeps bytes within the budget, entries within capacity and keys distinct, holds the bitmap exactly when it is not oversized, and adds nothing else |
| Cache.InsertedComesFirst | crates/barepdf-render/src/cache.rs:38-72 | the new bitmap comes first, before the longest run of the entries for other keys, in order of use, that leaves room for it below the capacity; an oversized one changes nothing |
| Cache.TouchedIsConsistent | crates/barepdf-render/src/cache.rs:34-36 | a look-up changes the order of use only: same entries, same bytes |
| Cache.TouchedComesFirst | crates/barepdf-render/src/cache.rs:34-36 | a look-up puts its entry first and leaves the order of the others |
| Cache.WithoutDocumentIsConsistent | crates/barepdf-render/src/cache.rs:84-95 | evicting a document removes exactly its entries |
| Cache.WithoutDocumentConcat | crates/barepdf-render/src/cache.rs:84-95 | the entries that stay keep their order of use |
| Cache.LargerCompatible | crates/barepdf-render/src/cache.rs:107-126 | a bitmap is found exactly when some entry has the page, rotation and colours and at least one side as large as required |
| Cache.BitmapCache.Insert | crates/barepdf-render/src/cache.rs:38-64 | the byte counter stays the sum of the stored bitmaps within budget, and the entries are those of the specification of insertion, an oversized bitmap leaving even an older entry for its key |
| Cache.BitmapCache.EvictFor | crates/barepdf-render/src/cache.rs:56-72 | the eviction loop leaves the longest fitting run and the counter its sum |
| Cache.BitmapCache.SetBudget | crates/barepdf-render/src/cache.rs:74-77 | a new budget evicts the shortest least-recently-used run that makes the rest fit |
| Cache.BitmapCache.EvictDocument | crates/barepdf-render/src/cache.rs:84-95 | collecting and popping the keys of a document leaves the other entries in unchanged order and the counter their sum |
| Cache.BitmapCache.Get | crates/barepdf-render/src/cache.rs:34-36 | a hit exactly for a stored key, which becomes the most recently used |
| Bitmap.MaskInvertsTwoPixels | crates/barepdf-core/src/bitmap.rs:67-81 | in either byte order the exclusive or of eight bytes with the mask inverts red, green and blue of two pixels and keeps both alphas |
| Bitmap.InvertRgb | crates/barepdf-core/src/bitmap.rs:67-81 | in place, in either byte order and for any length, red, green and blue of every whole pixel are complemented, alphas and the bytes of an incomplete last pixel stay, and the result is that of the per-byte form |
| Bitmap.InvertedTwice | crates/barepdf-core/src/bitmap.rs:67-81 | inverting twice gives the bitmap back |
| Crc.RegisterIsPolynomialRemainder | crates/barepdf-platform-linux/src/printing.rs:126-139 | the register is the bit-reflected remainder of the message, with the first register complemented, modulo the CRC-32 polynomial in its plain form |
| Crc.ChecksumLeavesResidue | crates/barepdf-platform-linux/src/printing.rs:126-139 | the bits of any message followed by those of its checksum, in the order of the register, leave the polynomial remainder 0xC704DD7B |
| Crc.ChecksumOfIend | crates/barepdf-platform-linux/src/printing.rs:126-139 | the checksum of the bytes of `IEND` is 0xAE426082 |
| Crc.IntactIff | crates/barepdf-platform-linux/src/printing.rs:141-152 | the check of a receiver, which looks at the remainder of message and field alone, accepts a field of four bytes exactly if it holds the checksum, most significant byte first |
| Crc.BurstIsDetected | crates/barepdf-platform-linux/src/printing.rs:126-139 | different inputs of equal length whose bits differ only inside one window of 32 consecutive bits, wherever it begins, never have the same checksum |
| Crc.ByteStepIsInjective | crates/barepdf-platform-linux/src/printing.rs:126-139 | for a fixed byte the register step is a bijection: different registers stay different |
| Crc.BitStepsAreLinear | crates/barepdf-platform-linux/src/printing.rs:130-136 | the shifting of the register is linear over exclusive or |
| Crc.Crc32 | crates/barepdf-platform-linux/src/printing.rs:126-139 | the nested loops and the final complement compute the checksum the residue law and the check value are about |
| Adler.Adler32 | crates/barepdf-platform-linux/src/printing.rs:116-124 | reducing both sums at every byte gives the Adler-32 of the unreduced sums |
| Adler.SingleByteChangeIsDetected | crates/barepdf-platform-linux/src/printing.rs:116-124 | changing one byte changes the checksum |
| Pixels.RgbaToBgra | apps/barepdf/src/infrastructure/print_worker.rs:485-489 | red and blue of every whole pixel are exchanged in place and a remainder is kept |
| Pixels.SwappedTwice | apps/barepdf/src/infrastructure/print_worker.rs:485-489 | swapping twice gives the pixels back |
| PngEncoder.NewPage | crates/barepdf-platform/src/printing.rs:185-202 | a page is accepted exactly when neither side is zero and there are four bytes for each pixel |
| PngEncoder.FilterRow | crates/barepdf-platform-linux/src/printing.rs:175-186 | a row is written with filter byte zero and its pixels in RGBA order |
| PngEncoder.AppendBlock | crates/barepdf-platform-linux/src/printing.rs:194-212 | each turn writes one stored block and makes progress, and what is written and what is left always add up to the same stream |
| PngEncoder.EncodePrintPage | crates/barepdf-platform-linux/src/printing.rs:159-233 | the encoder succeeds exactly when the filtered size fits the machine word, and then yields the file the round trip is about |
| PngRoundTrip.RoundTrip | crates/barepdf-platform-linux/src/printing.rs:159-233 | for every page the standards' decoder reads back its size and its pixels in RGBA order if the lengths fit the four-byte fields, and refuses the file if they do not |
| PngRoundTrip.OnePixelFile | crates/barepdf-platform-linux/src/printing.rs:159-233 | the file of one pixel byte for byte, with the checksums of its first two chunks as computed: signature, lengths, types, header, filter byte, zlib header, block header, RGBA order, Adler-32 and end chunk |
| PngRoundTrip.EndChunk | crates/barepdf-platform-linux/src/printing.rs:229-233 | the twelve bytes of the chunk that ends every file |
| PngRoundTrip.PrintLimitFits | apps/barepdf/src/infrastructure/print_worker.rs:473-481 | every page within the 256 MiB print limit fits the format, so no chunk length is saturated |
| PngRoundTrip.PrintedPageIsReadBack | apps/barepdf/src/infrastructure/print_worker.rs:414-417 | a bitmap within the print limit, swapped and encoded, is read back with its size and pixels |
| PngRoundTrip.EncodeRgba | apps/barepdf/src/infrastructure/print_worker.rs:414-417 | swapping in place, checking and encoding together: the file decodes to the RGBA pixels that came in |
| PngRoundTrip.DamagedChunkIsRefused | crates/barepdf-platform-linux/src/printing.rs:141-152 | a chunk whose data is damaged within 32 consecutive bits is refused by the decoder |
| PngDecoder.TakeWrittenChunk | crates/barepdf-platform-linux/src/printing.rs:141-152 | a written chunk passes the remainder check of the decoder and is read back with its type and data and nothing of what follows |
| PngDecoder.InflateStoredBlocks | crates/barepdf-platform-linux/src/printing.rs:194-212 | inflating the stored blocks gives the raw bytes back |
| PngDecoder.UncompressZlibStream | crates/barepdf-platform-linux/src/printing.rs:188-214 | the zlib stream with its header and Adler-32 uncompresses to the raw bytes |
| PrintJob.ExecuteJob | apps/barepdf/src/infrastructure/print_worker.rs:356-448 | a job that may not begin asks nothing of the sink; else the sink is begun once, handed the first pages of the range repeated for each copy, and finished exactly if all of them went; the job ends at the first page that does not go, for the reason of this page, or done, or with the refusal to begin or finish; progress counts the pages one by one; success exactly when everything asked for goes well; a cancelled job never finishes the sink |
| PrintJob.PrintOne | apps/barepdf/src/infrastructure/print_worker.rs:404-428 | one page: its size, render, swap and check, and exactly one write if they succeed |
| PrintJob.Prepare | apps/barepdf/src/infrastructure/print_worker.rs:362-396 | the job may begin exactly when it is not cancelled, opens, has a range within the document, a page count that fits 32 bits, a sink and a resolution from 1 to 600; the first of these that fails is the error |
| PrintJob.PrintNext | apps/barepdf/src/infrastructure/print_worker.rs:402-446 | one turn of the page loop keeps the written pages a prefix of the plan, looks at the cancel flag before and after, and says why it ends the job |
| PrintJob.PrintPages | apps/barepdf/src/infrastructure/print_worker.rs:400-447 | the loops over copies and pages hand over the whole plan, or end at the first page that does not go |
| PrintJob.RasterCoversPage | apps/barepdf/src/infrastructure/print_worker.rs:458-483 | the raster covers the page with less than a pixel to spare on each side and stays within 256 MiB |
| PrintJob.RasterDimensionsIff | apps/barepdf/src/infrastructure/print_worker.rs:458-483 | the raster is fixed: it exists exactly if both sides are positive and the least whole pixels that hold them fit 32 bits and together 256 MiB |
| PrintJob.PrintedPageIsRaster | apps/barepdf/src/infrastructure/print_worker.rs:404-428 | a page is printed exactly if it renders at these sides to a raster with four bytes for each pixel, and the file for it decodes to this raster, its sides in their order |
| PrintJob.RepeatedPrefix | apps/barepdf/src/infrastructure/print_worker.rs:401-402 | the pages of the first copies and of a part of the next are a prefix of the whole plan |
| Utf8.PrefixFree | crates/barepdf-core/src/search.rs:65-71 | no encoding of a character is a prefix of that of another |
| Utf8.EncodedExamples | crates/barepdf-core/src/search.rs:43-45 | the encodings of one character of each width, byte for byte |
| Utf8.LeadByteIsBoundary | crates/barepdf-core/src/search.rs:65-71 | a byte of encoded text that does not continue a character begins one |
| Utf8.BytesMatchOnlyText | crates/barepdf-core/src/search.rs:65-71 | a match of encoded text in encoded text begins and ends at character boundaries and is a match of the characters |
| TextSearch.BuildHaystack | crates/barepdf-core/src/search.rs:35-52 | the loops yield the encoding of the folded glyphs and, for every byte and the end, the glyph it comes from; what folding means is stated by GlyphSearch |
| TextSearch.BuildNeedle | crates/barepdf-core/src/search.rs:54-63 | the needle is the encoding of the query folded as the glyphs are; what folding means is stated by GlyphSearch |
| TextSearch.PushLowerChar | crates/barepdf-core/src/search.rs:111-121 | appends the encoding of the lower-case form, with the two Turkish letters fixed |
| TextSearch.TableAtBoundary | crates/barepdf-core/src/search.rs:39-52 | at every character boundary, the end included, the table holds the glyph of that character |
| TextSearch.FoundPosition | crates/barepdf-core/src/search.rs:65-97 | the next byte match is the next character match, both its ends are inside the table, and the step past its first character goes to the next boundary |
| TextSearch.FindInGeometry | crates/barepdf-core/src/search.rs:28-100 | the byte-level search returns the list of the glyph ranges of all hits, overlapping ones included; if letters lower to single characters these are exactly the ranges whose glyphs are the letters of the text and which stand alone if a whole word is asked for |
| TextSearch.IsWholeWord | crates/barepdf-core/src/search.rs:73-90 | the whole-word test looks at the glyph before and the glyph after |
| TextSearch.RangesAreTheHits | crates/barepdf-core/src/search.rs:65-97 | the list holds a range exactly when it is the range of some hit |
| TextSearch.GlyphSearch | crates/barepdf-core/src/search.rs:28-121 | a range is listed exactly if it is as long as the text, each glyph equals its letter, or without regard to case has the same lower-case form with I as dotless i and dotted I as i, and for a whole word neither neighbouring glyph is a letter or digit; every letter but those two lowers to one character |
| TextSearch.RangesAscend | crates/barepdf-core/src/search.rs:65-97 | the ranges come in strictly ascending order |
| Outline.OutlineIsTheUnfolding | crates/barepdf-pdf/src/pdfium_adapter.rs:795-860 | the outline is a given forest exactly when that forest is the recursive unfolding of the bookmark graph within depth 128 and 4096 items, and it fails exactly when there is no such forest |
| Outline.GetOutline | crates/barepdf-pdf/src/pdfium_adapter.rs:404-413 | the loop over the siblings of the root yields the outline or fails with it |
| Outline.BoundedOutline | crates/barepdf-pdf/src/pdfium_adapter.rs:795-821 | the walk with an explicit stack ends on any graph, agrees with the recursive walk, and never counts more than 4096 nodes |
| Outline.NewFrame | crates/barepdf-pdf/src/pdfium_adapter.rs:830-860 | a frame is made exactly within the limits of depth and items and counts one visit |
| Outline.WalkIsSound | crates/barepdf-pdf/src/pdfium_adapter.rs:795-821 | what a walk returns is the unfolding, within the depth, and the counter grew by the number of its nodes |
| Outline.WalkIsComplete | crates/barepdf-pdf/src/pdfium_adapter.rs:795-821 | an unfolding within the limits is found |
| Outline.CyclicOutlineFails | crates/barepdf-pdf/src/pdfium_adapter.rs:852-860 | on a graph with a cycle through the root the walk ends in failure |
| Outline.UnfoldingIsUnique | crates/barepdf-pdf/src/pdfium_adapter.rs:795-821 | a graph unfolds in at most one way |
| PageRange.ParsesExactlyPageRanges | crates/barepdf-core/src/page_range.rs:35-108 | an input is accepted exactly when it consists of numbers and ascending pairs within the document, between commas, with any white space around each number, and is read as what it denotes |
| PageRange.SegmentIff | crates/barepdf-core/src/page_range.rs:44-74 | a segment is accepted exactly when it denotes pages of the document |
| PageRange.NumberSegment | crates/barepdf-core/src/page_range.rs:70-108 | a segment that is one number is refused as page zero, or as out of range with the number asked for, capped at 32 bits, or denotes this page |
| PageRange.PairSegment | crates/barepdf-core/src/page_range.rs:52-69 | a segment of two numbers is refused for its first, for its second, or because they descend, in this order |
| PageRange.FirstBadSegment | crates/barepdf-core/src/page_range.rs:44-74 | the error of a list of segments is that of the first bad one |
| PageRange.Parse | crates/barepdf-core/src/page_range.rs:35-81 | the strictly ascending list of exactly the covered pages, or the error of the first bad segment |
| PageRange.AscendingIsUnique | crates/barepdf-core/src/page_range.rs:78-79 | an ascending list is determined by its members |
| PageRange.RetainedPages | crates/barepdf-core/src/page_range.rs:143-179 | the ascending list of the pages not removed; it fails for the first index outside the document, or when every page is removed and only then |
| PageRange.ExtractAndDelete | apps/barepdf/src/infrastructure/tool_worker.rs:712-786 | with the same input extraction and deletion accept the same texts, their pages partition the document, and deletion fails exactly when the range covers every page |
| Text.TrimOf | crates/barepdf-core/src/page_range.rs:36-36 | trimming finds the only core without white space at its ends |
| Text.SplitOfJoin | crates/barepdf-core/src/page_range.rs:44-44 | splitting undoes the joining of pieces without the separator |
| Layout.Compute | crates/barepdf-core/src/layout.rs:161-209 | every page lies below the pages before it with their gaps, the height ends with a gap, and the width is that of a widest page |
| Layout.LayoutIsOrdered | crates/barepdf-core/src/layout.rs:161-209 | tops and bottoms of a computed layout ascend for every gap of at least minus one |
| Layout.GapsAreExact | crates/barepdf-core/src/layout.rs:175-207 | neighbouring pages are apart by exactly the gap, and so are the last page and the end |
| Layout.TargetSize | crates/barepdf-core/src/layout.rs:87-131 | both sides of a page on the screen are between one pixel and the greatest layout dimension |
| Layout.ShapeIsKept | crates/barepdf-core/src/layout.rs:87-131 | both sides are those of the page times one factor, rounded; the factor is the scale unless the greatest dimension forces a smaller one |
| Layout.GivenScaleIsExact | crates/barepdf-core/src/layout.rs:96-112 | at actual size or a custom zoom both sides are those of the page times the resolution, or times the zoom and the resolution, rounded, if they are from one pixel to the greatest dimension |
| Layout.FitPageFits | crates/barepdf-core/src/layout.rs:103-111 | a page that fits the view is larger than it on no side and as large on one |
| Layout.FitWidthFillsWidth | crates/barepdf-core/src/layout.rs:96-102 | a page that fits the width is exactly as wide as the view unless it becomes too long |
| Layout.VisiblePages | crates/barepdf-core/src/layout.rs:213-223 | the binary search with its run of pages returns what a look at every page returns, in order, and so exactly the numbers of the pages in view |
| Layout.InViewIff | crates/barepdf-core/src/layout.rs:213-223 | a page is in a view exactly if one of its lines is |
| Layout.FirstBelow | crates/barepdf-core/src/layout.rs:215-217 | the partition point: all pages before it end at or above the top of the view, all from it on below |
| Layout.PrimaryPage | crates/barepdf-core/src/layout.rs:227-248 | the first of the pages in view whose centre is nearest to that of the view; page zero if none is in view |
| Layout.ComputeAnchor | crates/barepdf-core/src/layout.rs:252-267 | the anchor is the primary page and the share of it above the view |
| Layout.RestoreOfAnchor | crates/barepdf-core/src/layout.rs:252-281 | restoring a computed anchor gives the scroll position clamped to the anchored page, and the position itself if it lay on the page |
| Layout.AnchorSurvivesRelayout | crates/barepdf-core/src/layout.rs:271-281 | in another layout of the same pages the restored position has the same share of the anchored page above it |
| InkClip.ModifiedIffInside | crates/barepdf-core/src/types.rs:922-974 | for a segment that is not degenerate the modified flag is true exactly when some point of the segment is strictly inside the ellipse |
| InkClip.LevelIsEllipse | crates/barepdf-core/src/types.rs:930-937 | inside, on and outside are those of the ellipse equation with these half axes and centre, written without division |
| InkClip.KeptIffOutside | crates/barepdf-core/src/types.rs:922-974 | a point of such a segment is kept exactly when it is not strictly inside and is not a grazing end: a start on the ellipse from which the segment goes inward (negative linear coefficient), or an end on the ellipse which it reaches from inside |
| InkClip.GrazingIffCut | crates/barepdf-core/src/types.rs:955-973 | the grazing ends, described by the sign of the derivative, are exactly the end points on the ellipse of segments that are reported as cut |
| InkClip.KeptParameters | crates/barepdf-core/src/types.rs:951-973 | the surviving parts of a cut segment hold exactly the parameters up to the entry and from the exit on |
| InkClip.InsideIsBetween | crates/barepdf-core/src/types.rs:930-953 | a point of the line is strictly inside exactly between the two roots of the quadratic |
| InkClip.EnteringEndIsDropped | crates/barepdf-core/src/types.rs:955-973 | an end point on the ellipse of a segment that enters it is not kept |
| InkClip.GrazingEndHappens | crates/barepdf-core/src/types.rs:955-973 | a radius of the unit circle loses its outer end |
| InkErase.ClipStrokeAtPoint | crates/barepdf-core/src/types.rs:976-1039 | the loop over the segments joins and splits the pieces as the specification feeds them one by one |
| InkErase.UncutStroke | crates/barepdf-core/src/types.rs:976-1039 | a stroke reported as not modified comes back as one piece, point for point |
| InkErase.ErasedStrokeIsOutside | crates/barepdf-core/src/types.rs:976-1039 | no vertex of a surviving piece is strictly inside the eraser |
| InkTrace.ErasedLineIsOutside | crates/barepdf-core/src/types.rs:976-1039 | every point of every line of a surviving piece is within 0.00001 of a point the clip kept, and is that point where the join is exact; the kept point is not strictly inside the eraser, or, on a segment the clip takes for a point, within a millionth of the larger radius of one that is not |
| InkErase.OutsidePointsAreKept | crates/barepdf-core/src/types.rs:976-1039 | no vertex of the stroke strictly outside the eraser is lost by the clip at one place, before short pieces are dropped |
| InkTrace.OutsidePointIsDrawn | crates/barepdf-core/src/types.rs:976-1039 | every point of the stroke that is not strictly inside the eraser and not a grazing end is within 0.00001 of a point of some piece |
| InkTrace.ErasedStrokeIsNear | crates/barepdf-core/src/types.rs:1077-1116 | every point of what is left of a stroke, after the filter on length, is within 0.00001 of a point of the stroke that is outside the eraser up to the width of a degenerate segment |
| InkTrace.ClearPointIsKept | crates/barepdf-core/src/types.rs:1077-1116 | every point of a stroke clear of the eraser is within 0.00001 of a point of what is left, or of a piece shorter than 0.0001 that was dropped |
| InkSweep.SweptInkIsOutside | crates/barepdf-core/src/types.rs:1070-1118 | after a drag, all ink of the page is outside every place the eraser was held at, up to 0.00001 for each step made since and the width of a degenerate segment |
| InkSweep.SweptInkWasInk | crates/barepdf-core/src/types.rs:1070-1118 | all ink left is within 0.00001 for each step of ink that was there before the drag |
| InkSweep.ClearInkSurvives | crates/barepdf-core/src/types.rs:1070-1118 | all ink with that much room from every place of the drag is, within 0.00001 for each step, still there afterwards or on a piece too short to be kept at one of the steps |
| InkErase.InkLayer.EraseAlongSegment | crates/barepdf-core/src/types.rs:1044-1121 | the drained and rebuilt vector is that of the swept specification; the answer is true exactly if, at some place of the drag, the eraser touches one of the strokes there were before; with false every stroke is left point for point |
| InkErase.ChangedIffTouched | crates/barepdf-core/src/types.rs:1077-1116 | a stroke is reported as changed exactly if it is on the page and has no points, or is one point that is not outside, or has a segment with a point strictly inside the eraser or a degenerate one that is not outside, or is shorter than the least length |
| InkErase.ReportedIffTouched | crates/barepdf-core/src/types.rs:1070-1120 | any number of steps reports a change exactly if at one of them the eraser touches a stroke that was there before the drag |
| InkErase.LengthAddsUp | crates/barepdf-core/src/types.rs:911-918 | the length of a line of two points is their distance, and the lengths of the two parts at a vertex add up |
| InkErase.PiecesComeInOrder | crates/barepdf-core/src/types.rs:976-1039 | the pieces finished by the first segments come first |
| InkErase.LongPiecesConcat | crates/barepdf-core/src/types.rs:1104-1115 | the pieces that are kept stay in their order |
| InkErase.FalseMeansUnchanged | crates/barepdf-core/src/types.rs:1044-1121 | a sweep of any number of steps that reports no change kept every stroke point for point |
| InkErase.SweepIsPerStroke | crates/barepdf-core/src/types.rs:1070-1118 | a sweep treats every stroke by itself and in order |
| InkErase.SweepKeepsInk | crates/barepdf-core/src/types.rs:1100-1115 | every surviving piece has the page, colour and width of its stroke |
| InkErase.OtherPagesSurvive | crates/barepdf-core/src/types.rs:1077-1081 | the strokes of other pages survive unchanged and in order |
| InkErase.SweepIsDense | crates/barepdf-core/src/types.rs:1056-1074 | two places of the eraser that follow each other are never further apart than half the smaller radius, or the least step |
| InkErase.StepVector | crates/barepdf-core/src/types.rs:1070-1074 | every step moves the eraser by the same share of the drag and keeps its radii |
| InkErase.SweepReachesEnds | crates/barepdf-core/src/types.rs:1070-1074 | a sweep begins and ends where the drag does |
| ToolWorker.ActiveMeansOneJob | apps/barepdf/src/infrastructure/tool_worker.rs:302-330 | before a shutdown `active` is set exactly while one job is being submitted, queued, running, ending or waiting for a password, and there is never a second |
| ToolWorker.AcceptedJobsEndOnce | apps/barepdf/src/infrastructure/tool_worker.rs:562-632 | before a shutdown every accepted job is still open or has made exactly one terminal event, never both; none gets lost, also when the executor panics |
| ToolWorker.AtMostOneTerminalEvent | apps/barepdf/src/infrastructure/tool_worker.rs:484-632 | in every run, shut down or not, a job makes at most one terminal event and none while it is open |
| ToolWorker.PasswordsAreTheJobsOwn | apps/barepdf/src/infrastructure/tool_worker.rs:507-539 | whenever a job runs, each of its passwords was offered for its key and for a file the worker had asked for on behalf of this job; that an awaited password reaches the job is ToolDialogue.OfferedPasswordReachesJob |
| ToolDialogue.ClaimIsExclusive | apps/barepdf/src/infrastructure/tool_worker.rs:302-330 | a claim succeeds exactly if no job is active, and begins the submission of a new job without passwords |
| ToolDialogue.CommandTakesTheSlot | apps/barepdf/src/infrastructure/tool_worker.rs:302-366 | a start, an offer or a cancel takes the command slot exactly if it is free and the worker is there |
| ToolDialogue.OfferIsHeeded | apps/barepdf/src/infrastructure/tool_worker.rs:507-539 | a password for the key and the file of the waiting job goes to this job, which runs again with it and with all its others; any other offer leaves it waiting as it was and is answered by asking again |
| ToolDialogue.OfferedPasswordReachesJob | apps/barepdf/src/infrastructure/tool_worker.rs:529-539 | over every run the job holds the awaited password, and its others, from the step that takes the offer up until it has reported |
| ToolDialogue.CancelIsHeeded | apps/barepdf/src/infrastructure/tool_worker.rs:541-552 | a cancel ends the job that waits under its key with one event and leaves any other waiting job alone |
| ToolDialogue.ResultIsTold | apps/barepdf/src/infrastructure/tool_worker.rs:595-628 | each result becomes one event of this job and this kind; a job that needs a password waits without the wrong one and with all its others, every other job is over |
| ToolDialogue.EventsAreKept | apps/barepdf/src/infrastructure/tool_worker.rs:448-482 | over every run before a shutdown, each event made is in the hand of the worker, in the channel, polled or given up, as often as it was made |
| ToolDialogue.GivenUpOnlyWhenFull | apps/barepdf/src/infrastructure/tool_worker.rs:460-478 | before a shutdown an event is given up only when the channel is full at a later attempt |
| ToolDialogue.CancelKeepsFromCompleting | apps/barepdf/src/infrastructure/tool_worker.rs:645-655 | a cancel by the holder of a token, or of the current one at a shutdown, before the last look keeps the job from completing |
| ToolDialogue.ShutdownEndsTheLoop | apps/barepdf/src/infrastructure/tool_worker.rs:493-560 | once the shutdown flag is seen the worker takes up no command, forgets the waiting job and the current token, and nothing follows its stop |
| ToolWorker.WrongPasswordsAreForgotten | apps/barepdf/src/infrastructure/tool_worker.rs:602-614 | a job that waits because a password was wrong no longer holds one for that file |
| ToolWorker.CancelledNeverCompletes | apps/barepdf/src/infrastructure/tool_worker.rs:645-665 | a job whose token is cancelled before the last look at it never reports completion, whatever else happens in the run |
| ToolWorker.CompletedLookedClear | apps/barepdf/src/infrastructure/tool_worker.rs:645-665 | in every run a job has reported completion, or is about to, only if its token was not cancelled at the last look |
| ToolWorker.LastLookDecides | apps/barepdf/src/infrastructure/tool_worker.rs:649-655 | once the worker has made the event after a last look, the job has completed exactly when its token was not cancelled at that look, whatever was cancelled since |
| ToolWorker.LateCancelStillCompletes | apps/barepdf/src/infrastructure/tool_worker.rs:596-600 | every run at a last look that finds the token clear goes on with a cancel of the token and a completion after it |
| ToolWorker.FirstJobSucceeds | apps/barepdf/src/infrastructure/tool_worker.rs:562-586 | there is such a run |
| ToolWorker.ShutdownReachesTheJob | apps/barepdf/src/infrastructure/tool_worker.rs:571-575 | before a shutdown the token a shutdown would cancel is that of the job that runs or waits |
| ToolPasswords.ReplacedIsFound | apps/barepdf/src/infrastructure/tool_worker.rs:118-131 | a replaced password is found under its file and every other file keeps its own |
| ToolPasswords.ReplacedKeeps | apps/barepdf/src/infrastructure/tool_worker.rs:124-131 | there stays one password for each file |
| ToolPasswords.ClearedForgets | apps/barepdf/src/infrastructure/tool_worker.rs:133-140 | clearing forgets exactly the passwords of the file |
| ToolPasswords.Request.ReplacePassword | apps/barepdf/src/infrastructure/tool_worker.rs:124-131 | the search and update in place agree with the function the protocol uses |
| ToolPasswords.Request.ClearPasswordFor | apps/barepdf/src/infrastructure/tool_worker.rs:133-140 | retaining the other files agrees with the function the protocol uses |
| Documents.RunIsSound | apps/barepdf/src/application/tabs.rs:136-230 | after any run of operations there are at most sixteen tabs with distinct numbers and distinct paths, one of them is active exactly when there is any, and a tab without a path has nothing to show |
| Documents.LastReadyIsKept | apps/barepdf/src/application/document_controller.rs:16-145 | an operation leaves the document a tab shows or falls back on, except that a valid completion of its open replaces it and a vanished file drops it |
| Documents.LastReadySurvives | apps/barepdf/src/application/document_controller.rs:16-139 | through any run of opens, prompts, failures, invalid page counts and cancels a tab keeps its last ready document until an open completes in it |
| Documents.StaleEventsChangeNothing | apps/barepdf/src/application/document_controller.rs:175-188 | an event for an identifier nobody waits for changes nothing |
| Documents.CancelUndoesOpen | apps/barepdf/src/application/document_controller.rs:126-139 | cancelling an open brings back the document the tab showed before, or none |
| Documents.AskedStillWaits | apps/barepdf/src/application/document_controller.rs:83-110 | a tab asked for a password waits for the same document, path and start, with the same document to fall back on, and no other tab changes |
| Documents.OpenedTells | apps/barepdf/src/application/document_controller.rs:42-80 | a completed open is stale exactly if no tab waits for it, invalid exactly if its page count is zero or beyond the limit, and else tells the document that is now ready |
| Documents.FailedFallsBack | apps/barepdf/src/application/document_controller.rs:112-124 | a failed open is over, and its tab falls back on the document before; no other tab changes |
| Documents.VanishedLeavesNothing | apps/barepdf/src/application/document_controller.rs:141-146 | a vanished file leaves the active tab with nothing to fall back on, and no other tab changes |
| Documents.ClosedStaysClosed | apps/barepdf/src/application/tabs.rs:197-230 | after an open tab is closed, no run of operations gives its number to an open tab again |
| Documents.ClosedShows | apps/barepdf/src/application/tabs.rs:197-211 | closing a tab changes no other tab |
| Documents.OpenFindsOrAdds | apps/barepdf/src/application/tabs.rs:136-169 | opening a path fails exactly when no tab has it, the active tab is taken and none can be added; otherwise the active tab has the path, and a tab was added only if there was none for it |
| Documents.CloseActivatesNeighbour | apps/barepdf/src/application/tabs.rs:197-211 | closing the active tab activates its right neighbour, for the last tab its left one; closing another leaves the active one |
| Documents.ActivatedIsActive | apps/barepdf/src/application/tabs.rs:188-195 | an open tab that is activated is the active one and nothing else changes; an unknown one changes nothing |
| Documents.NewTabIsActive | apps/barepdf/src/application/tabs.rs:171-186 | a new empty tab comes last, is active and has an unused number, unless there are sixteen |
| Documents.BegunOpenWaits | apps/barepdf/src/application/document_controller.rs:16-39 | a begun open waits in the active tab, which has its path unless the tab set had no place for it |
| Documents.TabSet.Open | apps/barepdf/src/application/tabs.rs:136-169 | a known path activates its tab, an empty active tab is reused, otherwise a tab is added unless there are sixteen or numbers run out |
| Documents.TabSet.Close | apps/barepdf/src/application/tabs.rs:197-211 | closing the active tab activates its right neighbour or else its left one |
| Documents.DocumentController.BeginOpen | apps/barepdf/src/application/document_controller.rs:16-39 | the active tab after the path was looked up waits for the document with its former one to fall back on, also when the tab set is full |
| Documents.DocumentController.OpenSucceeded | apps/barepdf/src/application/document_controller.rs:42-80 | a valid page count makes the pending document ready, an invalid one makes it failed, an unknown identifier is stale |
| Documents.DocumentController.CancelOpen | apps/barepdf/src/application/document_controller.rs:126-139 | the pending tab falls back on its former document |

## Left out

- PDFium, every foreign function, the Windows and CUPS back ends and the file system: rendering, text
  extraction and page counts are functions, sinks are recorded calls.
- Slint, the clipboard, dialogs, translations, diagnostics, the website and the thumbnail provider.
- Annotation undo, bookmarks, preferences, page pairings, zoom steps, update checks and memory tiers:
  tables and plumbing with no hard property.
- Waiting times: a timed-out event delivery is a step that may give the event up; the wait of
  `receive_command` for a ready channel is left out, so a pass may be repeated at any time.
- Panics, poisoned locks and the memory order of atomics: steps are sequentially consistent. A panic of
  the tool executor is modelled, because the code catches it.
- Floating-point rounding: layout and ink are over exact numbers, and the narrowing of layout offsets to
  single precision is not modelled.
- The Unicode tables for lower case and letters: parameters, with the two Turkish cases fixed.
- The worker side of the render pipeline and the tool worker are state machines over values, because their
  operations interleave; only the calls of the scheduler, the receiving of commands, the cache and the
  passwords of a request are also modelled as methods on objects.
- The observability counters and the contents of query results; a query is only answered, failed,
  stale or interrupted.
- Cache.BitmapCache.Insert: the saturating byte arithmetic is unbounded here, so a sum beyond the machine
  word is not modelled.
- TextSearch.FindInGeometry: glyph numbers are unbounded; their saturation at 32 bits, far above the cap
  on the glyphs of a page, is not modelled.
- TextSearch.GlyphSearch: speaks of tables that lower every letter but U+0130 to one character, as those of
  Unicode do; for others TextSearch.RangesAreTheHits describes the result.
- InkErase.ErasedStrokeIsOutside: speaks of the vertices of the pieces and of strokes without degenerate
  segments; InkTrace and InkSweep speak of all points and all strokes.
- InkErase.OutsidePointsAreKept: speaks of the vertices of the stroke at one place of the eraser, as above.
- Reopening.OpenIsSafeIff: speaks of opens at which no command is queued, no lock is held, no shutdown was
  seen and a critical event has room; a queued close could come before any wrong bitmap.
- PageRange.Parse: documents have at most 10000 pages, the limit that page indices assert.
- Layout.VisiblePages: speaks of ordered layouts, which are those computed with a gap of at least minus one.
- ToolWorker.AcceptedJobsEndOnce: counts the events made; a terminal event can still be given up when nobody
  reads the event channel for half a second.
- Documents.LastReadySurvives: does not claim that the path of a tab is that of its document, because an open
  with sixteen tabs waits in the tab at hand.
