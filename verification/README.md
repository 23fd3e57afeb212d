# Verified models of the Dingoo A320 Linux port

A Dafny model of the parts of this repository that carry the most state and the most arithmetic, with
proofs about them:

- the LZW decoder of the boot loader (`hwinit/lzw.c`), which unpacks the start-up logo;
- the bsg driver (`linux-2.6.24.3/block/bsg.c`): command queue, requests, readers, writers, tear-down and
  device table;
- the hierarchical item list of the menu (`gp2xmb/src/itemlist.c`);
- block tracing (`linux-2.6.24.3/block/blktrace.c`);
- the in-place scanners of the init program (`mininit/init.c`);
- the interpreter of LCD initialisation tables (`hwinit/jz4740_slcd.c`).

Code that works in place is modelled in place: the decoder on arrays of parents and symbols, the scanners
on byte arrays, the list on linked heap objects, the drivers as classes whose methods are the sections
under a lock. Each is proved against a description on values, and the promises are proved of that
description, for every input, every run or every interleaving.

`dafny verify dfyconfig.toml` checks the whole project.

## How the parts fit

| files | content |
|---|---|
| `Bits` | 32-bit words, shifts and masks as operations on bit sequences |
| `LzwMeaning`, `LzwStream`, `LzwEncoder` | what codes mean, how they are packed, and every encoder of a text |
| `LzwDecoder`, `LzwRoundTrip` | the decoder in place, and encoding, packing and decoding put together |
| `BsgQueue`, `BsgRequests`, `BsgReaders` | the device and its sections, the write path, the read path and the drain |
| `BsgMachine`, `BsgInvariant`, `BsgTheorems` | all threads of a device as a step machine, what every step keeps, and whole runs |
| `BsgTable`, `BsgRace` | devices by minor number with reference counts, and when two get the same number |
| `ItemStack`, `ItemList` | the list as a stack of levels, and the linked heap that refines it |
| `BlkTrace`, `BlkTracer` | traces as a value, and the tracer itself |
| `BlkTraceDirs` | setups and teardowns of all queues interleaved step by step |
| `BlkTraceLog`, `BlkTraceNames` | the log over whole runs, and which trace can name its processes |
| `CStrings`, `Params`, `Mininit` | zero-terminated strings, the parameter scanner, mounts and directories |
| `Slcd` | register tables and the display bus |
| `Seqs` | sequences used as lists |

## Assumptions

- `unsigned long` has 32 bits, as on the MIPS target. A shift by 32 never happens in the reader, because a
  code has at most 30 bits; that is the bound `count <= 2^30`.
- The decoder is given enough nodes and enough output space, its output is not its node table, and one word
  can be read beyond a last code that ends on a word boundary: the reader fetches that word. A stream
  without end marker and without a bad code makes the original read on past its input.
- A bsg release happens only while that file has no read, write or ioctl in progress. A thread that decides
  to sleep is on the wait queue before the device lock is dropped, so a later wake-up reaches it.
- Recording one event is one step. For the log, each trace ioctl is one step; for the directory accounts
  the steps of setups and teardowns of all queues interleave.
- Memory allocation, user-space copies, the block layer, debugfs, relay buffers, mount and mkdir succeed or
  fail as parameters say.

## Properties that the code does not have

Each comes with the inputs that break it and the condition under which it holds.

- *One bsg device per minor number.* Two first opens may both search before either device is listed
  (`BsgRace.TwoFirstOpens`). Over every run, minor numbers stay unique exactly when no open allocates while
  a device of that number exists that was unlisted when it searched or was allocated since
  (`BsgRace.UniqueIff`). For callers: it suffices that no open of a number starts while another is between
  its search and the listing of its device (`BsgRace.SerialOpens`), and any such overlap can end in two
  devices (`BsgRace.OverlapBreaks`).
- *Entering and leaving a list level is undone.* With two or more levels and none pending: exactly when no
  level is entered inside while one is pending. With one level: exactly when nothing is added to that level
  and the moves made on it bring the cursor back. In an empty list: exactly when nothing is added. With a
  level pending: never (`ItemStack.EnterLeaveIff`). Two failing sequences are `ItemStack.EnterTwice` and
  `ItemStack.MisplacedItem`.
- *A process is named in a trace before its events there.* Two starts are enough to break this: with two traces
  running, the note goes to the trace the process acts on first, and the other never names it
  (`BlkTraceNames.TwoTraces`). An event is named in its own trace exactly when it is the process's first action
  since the last start of any trace, with its mark out of date, or such a first action on this trace came
  after an earlier start since this trace was started (`BlkTraceNames.EventNamedIff`). It holds as long as
  two traces never run at once and the counter has not wrapped (`BlkTraceNames.OneTraceNamed`), and two
  running traces can always break it (`BlkTraceNames.TwoRunning`).
- *A process is named in some trace before its events.* Exactly when the starts since its last note are not a
  positive multiple of 2^32, or, for a process never named, when the starts plus one are not a multiple of
  2^32 (`BlkTraceLog.EventAnnouncedIff`); so the first miss comes with start number 2^32 - 1
  (`BlkTraceLog.WrapMisses`).
- *Teardown of a trace releases it.* Exactly when the trace is not running (`BlkTrace.RemoveReleasesIff`). For
  shutdown, which stops first: exactly when no start of the queue slips in between
  (`BlkTraceDirs.ShutdownReleasesIff`).
- *Destroying the item list frees it.* Only the items of the root level are freed, so exactly when there is
  at most one level (`ItemList.List.Destroy`).
- A write to a full bsg queue fails with `EINVAL`, while a comment in `bsg_io_schedule` speaks of `ENOSPC`;
  the model follows the code.

## Model

| member | source | states |
|---|---|---|
| `LzwMeaning.DictionaryLaw` | hwinit/lzw.c:57-78 | node 257+m is the phrase of code m and the first byte of the phrase of code m+1, also when code m+1 names that very node |
| `LzwMeaning.LawDeterminesPhrases` | hwinit/lzw.c:57-78 | any table obeying that law is the phrase table, so the law is a complete description |
| `LzwMeaning.LawFixesHead` | hwinit/lzw.c:64-65 | any table obeying that law has the first byte of every phrase that following the links to the root gives |
| `LzwMeaning.PhraseStartsWithHead` | hwinit/lzw.c:64-65 | the symbol given to the waiting node is the first byte of the phrase just read |
| `LzwMeaning.PhraseStable` | hwinit/lzw.c:75-78 | codes read later never change the phrase of a complete node |
| `LzwMeaning.OutputStable` | hwinit/lzw.c:67-73 | nor what has been written |
| `LzwMeaning.TextPrefix` | hwinit/lzw.c:67-73 | the output of a prefix of the codes is a prefix of the output |
| `LzwMeaning.PhraseLength` | hwinit/lzw.c:75-78 | the phrase of node n has between 1 and n-255 bytes |
| `LzwMeaning.OutputLength` | hwinit/lzw.c:67-79 | after t codes the output has between t and t(t+1)/2 bytes |
| `LzwStream.WidthLeast` | hwinit/lzw.c:35-79 | at every read 2^(bits-1) < count <= 2^bits: every legal code fits and no smaller width would do |
| `LzwStream.WidthStep` | hwinit/lzw.c:78 | adding a node widens the codes exactly when the old width is full |
| `LzwStream.ParsePacked` | hwinit/lzw.c:44-55 | any stream that begins with packed codes gives those codes back and stops at the marker or bad code |
| `LzwStream.ParsedIsPacked` | hwinit/lzw.c:44-55 | conversely, a stream that is read to an end begins with the packing of what was read |
| `LzwStream.FinishedIff` | hwinit/lzw.c:54-55 | reading ends at the marker exactly when legal codes and then the marker are packed there |
| `LzwStream.CorruptIff` | hwinit/lzw.c:54-55 | reading fails exactly when legal codes are followed by a code not below the count |
| `LzwStream.PackedWordsParse` | hwinit/lzw.c:44-55 | codes packed into 32-bit words are read back whatever words follow |
| `LzwEncoder.PhraseIsPiece` | hwinit/lzw.c:42-79 | the decoder's phrase of a code is the piece of text the encoder used the code for |
| `LzwEncoder.EncodingDecodes` | hwinit/lzw.c:42-79 | every encoding of a split text decodes to the text |
| `LzwEncoder.LegalIsEncoding` | hwinit/lzw.c:42-79 | every code sequence the decoder accepts is the encoding of some split of its output |
| `LzwEncoder.LongestIsLongest` | hwinit/lzw.c:42-79 | the greedy encoder takes the longest match of the dictionary |
| `LzwEncoder.GreedyDecodes` | hwinit/lzw.c:42-79 | the greedy codes of any text are legal, no more than its bytes, and decode to it |
| `LzwDecoder.WalkBack` | hwinit/lzw.c:57-62 | turns round exactly the links of the code's chain and stops at its root |
| `LzwDecoder.WalkForward` | hwinit/lzw.c:67-73 | writes the chain's symbols root first, nothing else, and leaves every parent entry as it was before both walks |
| `LzwDecoder.RootIsHead` | hwinit/lzw.c:57-65 | the root of a chain is the first byte of the node |
| `LzwDecoder.SpelledIsPhrase` | hwinit/lzw.c:67-73 | a chain spells its phrase once the waiting node has been fixed, so no unset symbol is written |
| `LzwDecoder.CodeInOneWord` | hwinit/lzw.c:44-51 | a code inside one word is that slice of the bit stream |
| `LzwDecoder.CodeAcrossWords` | hwinit/lzw.c:46-51 | so is a code that straddles two words or ends on a boundary |
| `LzwDecoder.ReadCode` | hwinit/lzw.c:44-51 | reads the next slice of the LSB-first stream; word index and bit position advance by the width |
| `LzwDecoder.InitNodes` | hwinit/lzw.c:37-40 | the first 257 nodes form the table of the empty code sequence |
| `LzwDecoder.FixNode` | hwinit/lzw.c:64-65 | only the waiting node, if any, gets the first byte of the code read |
| `LzwDecoder.Emit` | hwinit/lzw.c:57-73 | one round writes the phrase of the code, completes the waiting node and restores all links |
| `LzwDecoder.Decode` | hwinit/lzw.c:29-80 | the output is the text of the codes; the result is its length, or -1 exactly when a code not below the count comes before the marker |
| `LzwRoundTrip.PackedFits` | hwinit/lzw.c:29-80 | the packed words of any encoding of a text, with anything after them, are read as that encoding and mean the text |
| `LzwRoundTrip.DecodePacked` | hwinit/lzw.c:29-80 | the decoder run on memory that begins with those words writes the text, at the start of its output only, and returns its length |
| `LzwRoundTrip.GreedyFits` | hwinit/lzw.c:29-80 | the same of the packed greedy encoding of any text |
| `LzwRoundTrip.DecodeGreedy` | hwinit/lzw.c:29-80 | the decoder run on memory that begins with the greedy encoding of a text writes that text and returns its length |
| `BsgQueue.BsgDevice.AllocCommand` | linux-2.6.24.3/block/bsg.c:105-132 | a slot is reserved below the limit, given back when memory fails, and each failure has its error |
| `BsgQueue.BsgDevice.FreeCommand` | linux-2.6.24.3/block/bsg.c:91-103 | gives one slot back and changes nothing else |
| `BsgQueue.BsgDevice.AddCommand` | linux-2.6.24.3/block/bsg.c:354-356 | the command goes to the end of the busy list |
| `BsgQueue.BsgDevice.RqEndIo` | linux-2.6.24.3/block/bsg.c:328-331 | the command moves from the busy list to the end of the done list and is counted |
| `BsgQueue.BsgDevice.NextDoneCmd` | linux-2.6.24.3/block/bsg.c:364-377 | the oldest finished command is taken, exactly when there is one |
| `BsgQueue.BsgDevice.SetMaxQueue` | linux-2.6.24.3/block/bsg.c:847-859 | limits below 1 are refused |
| `BsgQueue.BsgDevice.IoSchedule` | linux-2.6.24.3/block/bsg.c:139-161 | the assertion fires exactly with more done than queued; no data, would block and sleep are told apart by the counters and the flag |
| `BsgRequests.RequestPool.Get` | linux-2.6.24.3/block/bsg.c:262-264 | a request taken is live and new |
| `BsgRequests.RequestPool.PutBack` | linux-2.6.24.3/block/bsg.c:304-309 | only a live request can be put back, and only once |
| `BsgRequests.RequestPool.MapHeader` | linux-2.6.24.3/block/bsg.c:208-311 | succeeds exactly when guard, lengths, protocol and every step of the mapping are in order; on any error exactly the requests taken, at most two, have been put back in order; on success one or two stay live |
| `BsgRequests.ValidIff` | linux-2.6.24.3/block/bsg.c:208-237 | a header passes exactly with the guard byte, a command of at most 16 bytes, both lengths within the limit of the queue and SCSI commands or transport; exactly a length over the limit gives -5, any other fault -22 |
| `BsgRequests.MappedIff` | linux-2.6.24.3/block/bsg.c:242-311 | mapping succeeds exactly when the header passes, the first request is there and filled, and each direction with data maps, the second request only for both directions on a queue that allows it |
| `BsgRequests.MapErrorIs` | linux-2.6.24.3/block/bsg.c:242-311 | which error is returned under which condition |
| `BsgRequests.RequestPool.PutMapped` | linux-2.6.24.3/block/bsg.c:434-449 | completion puts back each request of the command once |
| `BsgRequests.WriteOne` | linux-2.6.24.3/block/bsg.c:609-645 | a failed write step leaves counters, lists and live requests as before the step |
| `BsgRequests.Write` | linux-2.6.24.3/block/bsg.c:595-646 | commands are accepted in order up to the first that fails, with its error; bytes and queue account for exactly those |
| `BsgRequests.AcceptedIff` | linux-2.6.24.3/block/bsg.c:595-646 | a command is accepted exactly when the queue has room, memory is there and its header is copied and mapped; else the first that fails decides the error |
| `BsgReaders.Arrive` | linux-2.6.24.3/block/bsg.c:317-334 | a batch of completions moves its commands to the done list in order |
| `BsgReaders.GetDoneCmd` | linux-2.6.24.3/block/bsg.c:382-407 | the oldest command finished by the time of the look; else an error if it may not block; else it waits on, and a signal ends the wait; any number of commands complete before each look |
| `BsgReaders.Finish` | linux-2.6.24.3/block/bsg.c:526-535 | a command handed out puts back its requests and gives its slot back |
| `BsgReaders.TakeOne` | linux-2.6.24.3/block/bsg.c:516-535 | an error means that everything that has completed has been handed out |
| `BsgReaders.Read` | linux-2.6.24.3/block/bsg.c:505-546 | commands come out once, in order of completion, until enough, a copy error, a signal or nothing left; queue, bytes and requests account for exactly those |
| `BsgReaders.WaitForAll` | linux-2.6.24.3/block/bsg.c:139-173 | waiting ends with nothing busy, whatever the order of completions and however many come during each sleep |
| `BsgReaders.CompleteAll` | linux-2.6.24.3/block/bsg.c:454-503 | the drain ends with both lists empty and both counters zero, every command discarded once and its requests put back; the result is 0 exactly when every completion gave 0, else the first that was not |
| `BsgInvariant.CompleteKeeps` | linux-2.6.24.3/block/bsg.c:317-334 | a completion keeps counters, lists, order and requests in agreement |
| `BsgInvariant.TakeKeeps` | linux-2.6.24.3/block/bsg.c:364-377 | so does handing a command out |
| `BsgInvariant.MapKeeps` | linux-2.6.24.3/block/bsg.c:609-641 | so do taking the requests of a command, and failing after some of them have been taken |
| `BsgInvariant.PutKeeps` | linux-2.6.24.3/block/bsg.c:434-449 | so does putting back the requests of a completed command, or those of a failed mapping |
| `BsgInvariant.SgKeeps` | linux-2.6.24.3/block/bsg.c:876-892 | so does SG_IO taking its requests, all or, before a mapping step fails, some |
| `BsgInvariant.SgPutKeeps` | linux-2.6.24.3/block/bsg.c:884-892 | so does SG_IO putting them back |
| `BsgInvariant.CoreTear` | linux-2.6.24.3/block/bsg.c:475-500 | so does every step of the draining thread |
| `BsgInvariant.QueueWhenClosed` | linux-2.6.24.3/block/bsg.c:454-503 | with every file closed, the queue count is busy plus done plus what the drain holds |
| `BsgInvariant.OnlyDrainSteps` | linux-2.6.24.3/block/bsg.c:695-724 | after the last release only completions, wake-ups and the drain go on |
| `BsgInvariant.DrainStep` | linux-2.6.24.3/block/bsg.c:139-173 | every step keeps: a sleeping drain has a busy command or a wake-up coming, and discarding starts with nothing busy |
| `BsgInvariant.StepKeepsInv` | linux-2.6.24.3/block/bsg.c:91-546 | every step of every thread keeps the whole invariant |
| `BsgTheorems.RunKeepsInv` | linux-2.6.24.3/block/bsg.c:91-546 | every interleaving keeps it |
| `BsgTheorems.RunHistory` | linux-2.6.24.3/block/bsg.c:317-334 | the recorded completions and largest limit are those of the run's steps |
| `BsgTheorems.LargestIsLargest` | linux-2.6.24.3/block/bsg.c:847-859 | the largest limit of a run is at least every limit set in it and is one of them or the first |
| `BsgTheorems.OpenFiles` | linux-2.6.24.3/block/bsg.c:695-859 | in every interleaving the open files are those opened and not released, limit and blocking are as last set, every request asked for is on the books, and tear-down has begun exactly when no file is open |
| `BsgTheorems.Carried` | linux-2.6.24.3/block/bsg.c:91-334 | a command can be carried along its way whatever state everything else is in |
| `BsgTheorems.WriteGoesThrough` | linux-2.6.24.3/block/bsg.c:595-646 | with a file open and room in the queue, a command can always be written and complete |
| `BsgTheorems.FailedWriteUndone` | linux-2.6.24.3/block/bsg.c:609-645 | one whose mapping fails after any number of requests can always be undone, and the queue is then as before |
| `BsgTheorems.ReadGoesThrough` | linux-2.6.24.3/block/bsg.c:508-546 | the command that finished first can always be read by any open file, and the queue then has exactly that one less |
| `BsgTheorems.IoctlGoesThrough` | linux-2.6.24.3/block/bsg.c:876-895 | an SG_IO call can always be made on an open file; every request it takes is put back once, whether its mapping succeeds or not, and the queue is untouched |
| `BsgTheorems.OpenCloseUndone` | linux-2.6.24.3/block/bsg.c:695-797 | while the device is open another file can be opened, and closing it at once leaves the device as it was |
| `BsgTheorems.WaitUndone` | linux-2.6.24.3/block/bsg.c:382-407 | a reader of a blocking device can queue up, and a signal leaves the device as it was |
| `BsgTheorems.Conservation` | linux-2.6.24.3/block/bsg.c:91-146 | in every interleaving `queued_cmds` counts the commands reserved and not uncounted, `done_cmds` is the length of the done list, the assertion never fires, and the queue never exceeds the largest limit set |
| `BsgTheorems.ExactlyOnceInOrder` | linux-2.6.24.3/block/bsg.c:328-376 | handed-out commands followed by the done list are exactly the completions, in order and without repeat; busy commands are in neither |
| `BsgTheorems.RequestsPutOnce` | linux-2.6.24.3/block/bsg.c:242-311 | in every interleaving, failed mappings included, a request has been put back once if its command no longer holds it, and not at all otherwise |
| `BsgTheorems.NoLostWakeup` | linux-2.6.24.3/block/bsg.c:317-397 | in every interleaving, a reader that sleeps although a command has finished has a wake-up coming, and that wakes it |
| `BsgTheorems.ReaderGetsAway` | linux-2.6.24.3/block/bsg.c:382-407 | while a command is done, a waiting reader leaves the wait queue in at most three steps of its own and of wake-ups, and a signal always gets it away |
| `BsgTheorems.SleepsUntilWoken` | linux-2.6.24.3/block/bsg.c:382-407 | with nothing done, a reader that queues up, or wakes and looks again, falls asleep and stays so until the next wake-up |
| `BsgTheorems.WorkDrops` | linux-2.6.24.3/block/bsg.c:454-503 | every step of a closed device lowers a measure |
| `BsgTheorems.DrainNeverStuck` | linux-2.6.24.3/block/bsg.c:139-173 | a drain can always go on, or sleeps with a wake-up or a completion to come |
| `BsgTheorems.DrainBounded` | linux-2.6.24.3/block/bsg.c:454-503 | a drain takes no more steps than the measure says |
| `BsgTheorems.DrainWaits` | linux-2.6.24.3/block/bsg.c:454-503 | the drain sleeps only with a busy command or wake-up pending, discards only with nothing busy, and its second loop never waits |
| `BsgTheorems.TornIsEmpty` | linux-2.6.24.3/block/bsg.c:695-724 | after tear-down both lists are empty, both counters zero, each command freed once and each request put back once |
| `BsgTheorems.DrainCompletes` | linux-2.6.24.3/block/bsg.c:695-724 | a run that cannot go on after the last release has torn the device down |
| `BsgTable.GotKeeps` | linux-2.6.24.3/block/bsg.c:763-771 | a reference gained at an open keeps buckets and counts in agreement |
| `BsgTable.SearchKeeps` | linux-2.6.24.3/block/bsg.c:763-796 | so do a search that finds nothing and an open that then fails |
| `BsgTable.AllocatedKeeps` | linux-2.6.24.3/block/bsg.c:735-744 | so does a new device before it is listed |
| `BsgTable.InsertedKeeps` | linux-2.6.24.3/block/bsg.c:745-746 | so does listing it, at the head of its bucket |
| `BsgTable.PutKeeps` | linux-2.6.24.3/block/bsg.c:695-724 | so does a release; the device leaves the table exactly with its last open |
| `BsgTable.TableAgrees` | linux-2.6.24.3/block/bsg.c:695-775 | after any interleaving of opens and releases a listed device is in the bucket of its minor and no other, and its reference count is its number of opens, at least one |
| `BsgTable.SameBucketIff` | linux-2.6.24.3/block/bsg.c:134-137 | two numbers share a bucket exactly when their three low bits agree |
| `BsgTable.FindReleaseUndone` | linux-2.6.24.3/block/bsg.c:695-775 | an open that finds a device and its release right after leave the table as it was |
| `BsgRace.Effect` | linux-2.6.24.3/block/bsg.c:695-797 | what each step does to the devices and to the opens that have found nothing |
| `BsgRace.RivalsAre` | linux-2.6.24.3/block/bsg.c:756-797 | the devices of the number an open looked for are exactly those unlisted when it searched or allocated since, because its search would have found the others |
| `BsgRace.UniqueIff` | linux-2.6.24.3/block/bsg.c:777-797 | over every run: minor numbers stay unique exactly when no open allocates while it has such a rival |
| `BsgRace.SerialOpens` | linux-2.6.24.3/block/bsg.c:777-797 | so they do if opens of one number do not overlap between search and listing |
| `BsgRace.OverlapBreaks` | linux-2.6.24.3/block/bsg.c:777-797 | and every overlap can be continued to two devices of one number |
| `BsgRace.TwoFirstOpens` | linux-2.6.24.3/block/bsg.c:782-796 | the run in which two first opens of any number both search before either lists: two devices are listed |
| `BsgTable.DeviceTable.Search` | linux-2.6.24.3/block/bsg.c:763-771 | the bucket search finds a device exactly when some listed device has the minor, and then the first such of the bucket |
| `BsgTable.DeviceTable.GetDevice` | linux-2.6.24.3/block/bsg.c:756-775 | a device found gains the open, else the open is known to have missed |
| `BsgTable.DeviceTable.AllocDevice` | linux-2.6.24.3/block/bsg.c:735-744 | the new device has one reference and is not yet listed; without memory the open is over |
| `BsgTable.DeviceTable.InsertDevice` | linux-2.6.24.3/block/bsg.c:745-746 | the device becomes listed, table in agreement |
| `BsgTable.DeviceTable.PutDevice` | linux-2.6.24.3/block/bsg.c:695-724 | one reference less, and the last one removes the device, table in agreement |
| `ItemStack.RunInRange` | gp2xmb/src/itemlist.c:497-563 | after every sequence of operations no level is empty and every cursor is on an item |
| `ItemStack.EnterLeave` | gp2xmb/src/itemlist.c:497-539 | entering a level, adding, moving and visiting further levels inside to any depth, then leaving, restores levels and cursor |
| `ItemStack.BaseTracked` | gp2xmb/src/itemlist.c:60-563 | a run changes the lowest level only by the additions and moves made while nothing is above it and no level is pending |
| `ItemStack.NeverHigher` | gp2xmb/src/itemlist.c:497-539 | balanced steps never end with more levels than before, and with fewer if a level is entered while one is pending |
| `ItemStack.EnterLeaveIff` | gp2xmb/src/itemlist.c:60-539 | when exactly entering and leaving restores the list, for every list and every nesting of visits inside |
| `ItemStack.MisplacedItem` | gp2xmb/src/itemlist.c:77-102 | after a second entry left at once, an item meant for the new level lands in the old one |
| `ItemStack.EnterTwice` | gp2xmb/src/itemlist.c:497-511 | entering twice and leaving twice drops a level, harmless exactly with fewer than two levels |
| `ItemStack.ResultsTell` | gp2xmb/src/itemlist.c:502-563 | out, up and down report success exactly when they change the list |
| `ItemList.Clip` | gp2xmb/src/itemlist.c:109-132 | a text field keeps a prefix: the whole text if it has at most 63 characters, else the first 63 |
| `ItemList.ClipIsLongest` | gp2xmb/src/itemlist.c:109-132 | of all prefixes that fit the field with its terminator, it is the longest |
| `ItemList.List.GetSelected` | gp2xmb/src/itemlist.c:565-574 | the item under the cursor of the current level, or null for the empty list |
| `ItemList.List.GetSelNum` | gp2xmb/src/itemlist.c:592-601 | the cursor |
| `ItemList.List.GetElement` | gp2xmb/src/itemlist.c:576-590 | the item at a position of the current level, null for any position outside it |
| `ItemList.List.Up` | gp2xmb/src/itemlist.c:541-551 | moves the cursor up exactly when it can, linked levels kept |
| `ItemList.List.Down` | gp2xmb/src/itemlist.c:553-563 | moves the cursor down exactly when it can, linked levels kept |
| `ItemList.List.In` | gp2xmb/src/itemlist.c:497-500 | only marks that a new level is due |
| `ItemList.List.AddFirst` | gp2xmb/src/itemlist.c:66-76 | the first item of all, which leaves a pending level pending |
| `ItemList.List.AddLevel` | gp2xmb/src/itemlist.c:77-92 | a new level hanging from the selected item, with its cursor at the start |
| `ItemList.List.Append` | gp2xmb/src/itemlist.c:93-102 | one more item at the end of the current level, linked both ways, with the level's parent |
| `ItemList.List.Add` | gp2xmb/src/itemlist.c:60-136 | the heap is the stack with the item added; a failed allocation changes nothing |
| `ItemList.List.EmptyLevel` | gp2xmb/src/itemlist.c:166-184 | frees exactly the items of one level, in order, each once |
| `ItemList.List.ParentLevel` | gp2xmb/src/itemlist.c:522-531 | walking back from the parent finds the first item of the level below and its cursor |
| `ItemList.List.Out` | gp2xmb/src/itemlist.c:502-539 | pops a level, or only withdraws a pending one; frees exactly the level left; returns 1 when there is nothing to leave |
| `ItemList.List.Visit` | gp2xmb/src/itemlist.c:60-539 | entering a level of the linked list, adding, moving and visiting further levels inside to any depth, then leaving: the same items, links and cursor as before, and exactly the added items freed, each once |
| `ItemList.List.Destroy` | gp2xmb/src/itemlist.c:152-162 | the list is empty and the items of the root level are freed, those of other levels are not: everything is freed exactly with at most one level |
| `ItemList.List.Perform` | gp2xmb/src/itemlist.c:60-563 | after any sequence of operations the heap is the stack those operations give, titles clipped; no item is freed twice and no freed item is in the list |
| `BlkTrace.TreeMadeAgrees` | linux-2.6.24.3/block/blktrace.c:201-227 | making a directory keeps the user count and the root in agreement with the directories |
| `BlkTrace.TreeRemovedAgrees` | linux-2.6.24.3/block/blktrace.c:184-199 | so does removing one |
| `BlkTrace.QueueOwns` | linux-2.6.24.3/block/blktrace.c:319-387 | the trace of a queue owns all five things a trace owns |
| `BlkTrace.AttachedKeeps` | linux-2.6.24.3/block/blktrace.c:319-387 | a successful setup keeps directory, resources and queues in agreement |
| `BlkTrace.CleanedKeeps` | linux-2.6.24.3/block/blktrace.c:229-236 | so does cleaning up a detached trace |
| `BlkTrace.StartStopKeeps` | linux-2.6.24.3/block/blktrace.c:422-454 | so do start and stop |
| `BlkTrace.RemoveKeeps` | linux-2.6.24.3/block/blktrace.c:238-251 | so does teardown, in any state |
| `BlkTrace.RecordKeeps` | linux-2.6.24.3/block/blktrace.c:118-176 | so does recording |
| `BlkTrace.ShutdownReleases` | linux-2.6.24.3/block/blktrace.c:500-506 | shutdown releases everything the queue's trace owns, whatever its state, and nothing else |
| `BlkTrace.RemoveReleasesIff` | linux-2.6.24.3/block/blktrace.c:238-251 | teardown releases the trace exactly when it is not running |
| `BlkTrace.ClassIff` | linux-2.6.24.3/block/blktrace.c:78-89 | a trace takes an action class exactly if some bit of its mask is also among the upper sixteen bits of the action word |
| `BlkTrace.TakesIff` | linux-2.6.24.3/block/blktrace.c:78-89 | an action is taken exactly if the trace is running, with such a bit, a sector within the range and the process asked for, if one is |
| `BlkTrace.RecordedIff` | linux-2.6.24.3/block/blktrace.c:118-176 | an event enters the log exactly when it is taken and has room; before it at most a note, and otherwise nothing but a note of an action taken |
| `BlkTrace.StateAfter` | linux-2.6.24.3/block/blktrace.c:422-454 | start and stop change the state of that trace alone: started is running, stopped is stopped, and a trace that is not running stays as it is at a stop |
| `BlkTraceLog.EventNumbered` | linux-2.6.24.3/block/blktrace.c:154-160 | an event takes the next number of its processor and disturbs no other numbering |
| `BlkTraceLog.FreshIff` | linux-2.6.24.3/block/blktrace.c:151-152 | a mark equals the counter exactly if the process was noted since the last start or a multiple of 2^32 starts have passed |
| `BlkTraceLog.NotedIff` | linux-2.6.24.3/block/blktrace.c:151-152 | some trace has a note since the last start exactly if no multiple of 2^32 starts has passed since the last one |
| `BlkTraceLog.FirstNoted` | linux-2.6.24.3/block/blktrace.c:57-61 | notes are written exactly at the first action after a start, to the trace of that action, unless the mark is mistaken |
| `BlkTraceLog.NoWrapNoMistake` | linux-2.6.24.3/block/blktrace.c:151-152 | before the counter wraps no mark is mistaken |
| `BlkTraceLog.StepInv` | linux-2.6.24.3/block/blktrace.c:118-506 | every operation keeps accounts, numbering, marks, first actions and time stamps in agreement |
| `BlkTraceDirs.StepKeeps` | linux-2.6.24.3/block/blktrace.c:184-400 | every step of every setup and teardown under way keeps root, owners and queues in agreement |
| `BlkTraceDirs.DirectoryAccounts` | linux-2.6.24.3/block/blktrace.c:184-251 | after every interleaving of setups, successful, failed or under way, and teardowns, the user count is the number of trace directories not removed, and the root exists exactly while it is positive |
| `BlkTraceDirs.QueuesAreComplete` | linux-2.6.24.3/block/blktrace.c:319-387 | after every interleaving the trace of a queue owns all that a trace owns |
| `BlkTraceDirs.AtRest` | linux-2.6.24.3/block/blktrace.c:184-400 | with nothing under way, the directories are those of the queues and of traces detached while running |
| `BlkTraceDirs.QueueChanges` | linux-2.6.24.3/block/blktrace.c:380-399 | a queue gets a trace only when it has none, and loses it only by being detached; a failing setup leaves it alone |
| `BlkTraceDirs.FailureReleases` | linux-2.6.24.3/block/blktrace.c:388-399 | a step of a setup that fails, or a queue that already has a trace, starts the release of all the setup has |
| `BlkTraceDirs.BuiltInOrder` | linux-2.6.24.3/block/blktrace.c:340-400 | after every interleaving a setup under way holds the parts of its trace in the order it asks for them, as its failure path relies on |
| `BlkTraceDirs.SetupGoesThrough` | linux-2.6.24.3/block/blktrace.c:319-387 | after every run a setup can go through: it attaches a complete trace to a queue that has none, and otherwise starts its release |
| `BlkTraceDirs.DetachReleasesIff` | linux-2.6.24.3/block/blktrace.c:238-251 | detaching starts the release exactly when the trace is not running |
| `BlkTraceDirs.ShutdownReleasesIff` | linux-2.6.24.3/block/blktrace.c:500-506 | over every run: stopping and later detaching, with any steps of any calls between, starts the release exactly if no start of that queue came last between |
| `BlkTraceDirs.ReleaseGoesOn` | linux-2.6.24.3/block/blktrace.c:229-236 | a release under way always has a next step |
| `BlkTraceDirs.ReleaseBounded` | linux-2.6.24.3/block/blktrace.c:229-236 | whatever the others do, a release takes no more steps than it has things to give back |
| `BlkTraceDirs.ReleaseCompletes` | linux-2.6.24.3/block/blktrace.c:388-399 | a run that offers no further step of a release under way has nothing of that trace left |
| `BlkTraceDirs.ReleaseShrinks` | linux-2.6.24.3/block/blktrace.c:388-399 | whatever the others do, what is left to release never grows and each step takes something away |
| `BlkTraceLog.GaplessNumbers` | linux-2.6.24.3/block/blktrace.c:154-160 | after every run the first number per trace and processor is 1 and each next one is the one before plus 1, modulo 2^32 |
| `BlkTraceLog.NotesOnceAndFirst` | linux-2.6.24.3/block/blktrace.c:57-61 | after every run a process has at most one note per start, and until the counter wraps one to some trace comes before its first event since that start |
| `BlkTraceLog.StartIsStamped` | linux-2.6.24.3/block/blktrace.c:435-443 | the start number kept for a running trace is that of the last time stamp in its channel |
| `BlkTraceLog.EventAnnouncedIff` | linux-2.6.24.3/block/blktrace.c:149-173 | after every run an event follows a note to some trace since the same start exactly when no multiple of 2^32 starts has passed |
| `BlkTraceNames.NotedInTraceIff` | linux-2.6.24.3/block/blktrace.c:57-61 | a trace names a process exactly when, after some start, the process acted on that trace first |
| `BlkTraceNames.EventNamedIff` | linux-2.6.24.3/block/blktrace.c:149-173 | exactly when an event is named in its own trace since that trace was started, after every run |
| `BlkTraceNames.OneTraceNamed` | linux-2.6.24.3/block/blktrace.c:149-173 | if two traces never run at once, every event is named in its own trace until the counter wraps |
| `BlkTraceNames.TwoRunning` | linux-2.6.24.3/block/blktrace.c:149-173 | in any reachable state with two running traces, a process that acts on one and then on the other leaves the second event unnamed, unless it had chosen that trace before |
| `BlkTraceNames.TwoTraces` | linux-2.6.24.3/block/blktrace.c:57-61 | the run with two traces and two starts in which one trace never names the process of its event |
| `BlkTraceLog.CyclesCount` | linux-2.6.24.3/block/blktrace.c:435-451 | setting up a trace and starting and stopping it k times is a run that counts k starts and names nobody |
| `BlkTraceLog.WrapMisses` | linux-2.6.24.3/block/blktrace.c:151-152 | the run in which a start brings the counter to 0 and the next event follows no note at all |
| `BlkTracer.Tracer.CreateTree` | linux-2.6.24.3/block/blktrace.c:201-227 | a root made for a directory that then fails is removed again |
| `BlkTracer.Tracer.RemoveTree` | linux-2.6.24.3/block/blktrace.c:184-199 | the last user removes the root |
| `BlkTracer.Tracer.Cleanup` | linux-2.6.24.3/block/blktrace.c:229-236 | everything the trace owns is released |
| `BlkTracer.Tracer.Acquire` | linux-2.6.24.3/block/blktrace.c:340-366 | the first failure decides the error; what was acquired before it is known to the rollback |
| `BlkTracer.Tracer.Rollback` | linux-2.6.24.3/block/blktrace.c:388-399 | from any failure point the state before setup comes back |
| `BlkTracer.Tracer.Setup` | linux-2.6.24.3/block/blktrace.c:319-400 | a setup that fails, at any point, changes nothing, the queue's trace included; one that succeeds attaches a new trace |
| `BlkTracer.NewTraceSelects` | linux-2.6.24.3/block/blktrace.c:368-378 | a new trace takes the classes asked for, or all if none; sectors from the start asked for to the end, or to the last if none; and the process asked for, or all |
| `BlkTracer.SetupErrorIs` | linux-2.6.24.3/block/blktrace.c:319-400 | which error a setup returns under which condition |
| `BlkTracer.Tracer.Start` | linux-2.6.24.3/block/blktrace.c:438-442 | bumps the counter, sets the state and stamps the time |
| `BlkTracer.Tracer.StartStop` | linux-2.6.24.3/block/blktrace.c:422-454 | succeeds exactly when the running state changes |
| `BlkTracer.Tracer.Remove` | linux-2.6.24.3/block/blktrace.c:238-251 | the queue is detached, accounts kept |
| `BlkTracer.Tracer.Shutdown` | linux-2.6.24.3/block/blktrace.c:500-506 | stop and teardown, accounts kept, the queue without a trace |
| `BlkTracer.Tracer.NoteTask` | linux-2.6.24.3/block/blktrace.c:151-152 | the note is attempted, and the process marked, exactly when the mark is not the counter |
| `BlkTracer.Tracer.LogEvent` | linux-2.6.24.3/block/blktrace.c:154-173 | an event without room uses up no number |
| `BlkTracer.Tracer.AddTrace` | linux-2.6.24.3/block/blktrace.c:118-176 | an event enters the log only while running and selected, and always then if there is room; the note first |
| `Params.SplitLine` | mininit/init.c:218-232 | fewer words than the limit, separated by any white space: splitting gives back exactly those words |
| `Params.SplitLineAtLimit` | mininit/init.c:227 | with at least as many words as the limit, the last slot holds the rest of the line from its word on |
| `CStrings.SpacesAre` | mininit/init.c:224-229 | white space is space, tab, newline, vertical tab, form feed and carriage return |
| `Params.SkipSpaces` | mininit/init.c:224 | skips exactly the white space |
| `Params.SkipWord` | mininit/init.c:229 | skips exactly the word |
| `Params.NextParam` | mininit/init.c:222-231 | one round stores one address and cuts off one word |
| `Params.MkParam` | mininit/init.c:218-232 | the stored addresses are, in order, those of strings equal to the words of the original line; no other slot of the vector changes |
| `Mininit.Arguments` | mininit/init.c:279-395 | program, words and null pointer always fit the 64 slots |
| `Mininit.PartsOfJoined` | mininit/init.c:251-253 | splitting at commas undoes joining |
| `Mininit.JoinedParts` | mininit/init.c:251-253 | and joining undoes splitting |
| `Mininit.TryPart` | mininit/init.c:251-258 | exactly the part up to the next comma is tried, and the byte is put back |
| `Mininit.MultiMount` | mininit/init.c:238-265 | the candidates are tried in order, round after round, up to the first success; the string is as before on every return |
| `Mininit.SlashesAre` | mininit/init.c:79-80 | the cuts are at exactly the slashes after the first byte |
| `Mininit.SlashesInOrder` | mininit/init.c:79-80 | from left to right |
| `Mininit.MkPath` | mininit/init.c:76-88 | every directory above the path is asked for, outermost first, up to the first real failure; one that exists is no failure |
| `Mininit.MakeDirectory` | mininit/init.c:94-103 | the same for the path itself, which comes last |
| `Slcd.ReadsBack` | hwinit/jz4740_slcd.c:233-248 | one step written into a table is read back, data words with the top bit set included |
| `Slcd.WrittenAs` | hwinit/jz4740_slcd.c:233-248 | what is read as a step is how that step is written |
| `Slcd.TableParses` | hwinit/jz4740_slcd.c:233-248 | a table written for any steps is read back to those steps and ends at its marker, whatever follows |
| `Slcd.ParsedIsTable` | hwinit/jz4740_slcd.c:233-248 | conversely, a table that can be read to its end is the one written for its steps |
| `Slcd.SignalsMore` | hwinit/jz4740_slcd.c:233-248 | the signals of a longer initialisation extend those of the shorter |
| `Slcd.Display.CommandWrite` | hwinit/jz4740_slcd.c:211-219 | RS is low for the command and high again after it |
| `Slcd.Display.DataWrite` | hwinit/jz4740_slcd.c:224-227 | RS stays as it is |
| `Slcd.Display.SendData` | hwinit/jz4740_slcd.c:244 | the data words go out in order with RS high |
| `Slcd.Display.Interpret` | hwinit/jz4740_slcd.c:236-246 | one item of the table gives its signals and the place of the next |
| `Slcd.Display.InitRegs` | hwinit/jz4740_slcd.c:233-248 | a table gives the signals of its steps, and reading stops right behind its end marker |
| `Slcd.Replay` | hwinit/jz4740_slcd.c:233-248 | writing a table for any steps and interpreting it replays exactly those steps and stops at the end of the table, whatever follows |
| `Slcd.HeardIsMeant` | hwinit/jz4740_slcd.c:211-248 | the signals give the steps back: a listener on the bus hears the commands, each with its data, and the pauses, in order |
| `Slcd.PanelTable` | hwinit/jz4740_slcd.c:233-248 | a concrete table with commands with and without data and a delay, word by word |

## Left out

- LzwDecoder.Decode: does not model the `son` field, which is never used, nor a result beyond the range of `int`.
- BsgReaders.Read: does not model other readers and writers on the same device at the same time; `BsgTheorems` covers those in steps.
- BsgRequests.Write: does not model other readers and writers on the same device at the same time; `BsgTheorems` covers those in steps.
- ItemList.List.Add: does not model a failed allocation when appending to a level, which the code does not check and then dereferences.
- BlkTracer.Tracer.Setup: does not model the moment in which a queue that already has a trace shows the new one before the old one is put back.
- bsg: the return value of `read` and `write` made from error and byte count, `bsg_poll`, SCSI ioctls, class and minor registration, the sense data and residual counts copied into the header, the memory of a device after a completion has dropped its lock.
- Block tracing: the bits that build the action word, time stamps and payload of entries, replacing slashes in names, the dropped counter.
- Item list: icons and the user's extra data, the `root` field of items, drawing and animation.
- Init program: reading the command line file, loop devices, mounting itself, fatal exits, the length of the program name.
- LCD: waiting for the busy flag, pin and clock set-up, the frame buffer.
- The rest of the repository: menu drawing, fonts, sound and players, register definitions, serial and delay code, the NAND fixer, file system detection, image manager and pop-ups add only easy members; configuration files hold no logic.
