# The Excalibur MIL-STD-1553 stack, modelled and proved in Dafny

The repository is a C library (`lib/`) and a Linux driver (`driver/`) for boards that send, receive and
monitor messages on a MIL-STD-1553 bus. A board shares a dual-port RAM with the host. Its firmware keeps
writing while the host reads, and nothing is locked. This project models the parts whose correctness rests
on an argument and not on one line of code.

| file | what it models |
|---|---|
| `Common.dfy` | bytes, options and the splicing of sequences |
| `RingArithmetic.dfy` | remainders and positions in a ring, shared by the ring readers |
| `StackBoard.dfy` | the firmware's side of the RT message stack: appends of whole entries, at any moment |
| `RtBlockRead.dfy` | the bulk read of that ring while the board goes on writing, and runs of such reads |
| `MonitorCache.dfy` | the monitor's one-message reader with and without its multi-message cache |
| `MonitorBlock.dfy` | the corruption filter of bulk monitor reads, and 32-bit numbers from 16-bit counters |
| `SplitDma.dfy` | unaligned transfers split into head, body and tail |
| `DmaQueue.dfy` | the driver's DMA queue, as a state machine and as code |
| `Interrupts.dfy` | interrupt counters and the shadow interrupt register |
| `MessageLayout.dfy` | how long each kind of Bus Controller message is, and the control word's fields |
| `MessageAllocator.dfy` | where messages are placed |
| `FrameStack.dfy` | frames on the instruction stack |
| `CardState.dfy`, `CardMessages.dfy`, `CardFrames.dfy`, `CardJumps.dfy`, `CardRuns.dfy` | the Bus Controller calls as functions of the card's state, what each keeps, and what every run of calls keeps |
| `CardOutcomes.dfy` | what each of those calls answers, and what exactly is different in the card's memory afterwards |
| `BusController.dfy` | the same calls as the library carries them out, each tied to its function |
| `StackScan.dfy` | which entry of the instruction stack is looked at for a message |
| `SetJump.dfy` | turning a message into a jump while the board runs |
| `TimeCodes.dfy` | gap times, frame times, BCD clock words |
| `IrigText.dfy` | printing a clock time and comparing printed times |

Where the source changes fields, memory or buffers step by step, the model has classes and methods with
loops. Concurrency is modelled in two ways: as a state machine whose schedules are arbitrary sequences of
events (`DmaQueue`, `Interrupts`, `SetJump`), or as methods that let the other side act between any two memory
accesses (`RtBlockRead`, `MonitorCache`, and `SetJump.Card`).

## What is assumed of the hardware

- One message entry or block, and the counter or end-of-message bit that announces it, are written in one step.
- The monitor is not lapped: the board writes no block that has not been read. Between two messages the clock advances
  by no more than the reader's check lets pass.
- The board does not fetch a message whose HALT bit is set, and it fetches a message in one step.
- A DMA transfer copies bytes. In runs of ring reads, the two DMA requests of one call are both carried out or both
  refused; `RtBlockRead.ReadOnce` has the other two cases.
- A statement of the driver is one step, as are enqueue-and-test and remove-and-test in the DMA queue.

## Where the code falls short of what it is for

Each of these is a lemma with the exact condition, or follows from the contract named.

- `RtBlockRead.RtReader.ReadBlock`: when more entries arrive during the copy than the ring holds, the number of
  messages handed back is negative (the ring's size less the arrivals).
- `RtBlockRead.ReadOnce`: if only the second of two DMA requests is refused, the messages after the wrap are missing, and
  of those before it, ones lapped meanwhile may be torn. If only the first is, as many entries as lie after the wrap are
  handed back from the buffer's start, which the refused transfer left as it was. No flag tells of either.
- `RtBlockRead.FlagNamesSlotWhen`, `RtBlockRead.FlagMisnamesSlot`: after a skip without a lap before it, the overwritten
  flag is -2 plus the number skipped. The caller (lib/rtset.c:1704) takes it for the slot of the first entry, which it is
  exactly if two or more were skipped and the last read ended two slots before the ring's end.
- `MonitorCache.Monitor.ClearEoms`, `MonitorCache.RefusedReadLosesMessage`: a refused multi-block read still scans the old
  blocks in the cache and clears end-of-message bits. The waiting message is lost exactly if the first old block has its
  bit on. No call finds it or anything after it, and this can come about from any state.
- `MonitorBlock.FilterCorrupt`: a break in the counters also costs the last good block before it.
- `MonitorBlock.KeptIsExpectedWhen`, `MonitorBlock.LappedBlockPasses`: the filter holds a 16-bit counter against a 32-bit
  bound. A bulk read keeps lapped blocks, as younger messages in the place of the expected ones, exactly if one of them is
  whole and has a number past 65535. If the very first one is, the flag does not tell.
- `MonitorBlock.RebuildIsRightWhen`, `MonitorBlock.FullWrapGoesUnseen`: message numbers are right exactly if a
  wrap of the counter can be seen, and at 65536 messages between refills it cannot.
- `SplitDma.WriteIsPlainWhen`, `SplitDma.ShortTailSpoils`: a write with a tail of one to four bytes writes as many
  bytes again into the next double word. With fewer than eight bytes after the head, the outcome hangs on a
  variable that nothing has set. A request shorter than the head fails, but only after the whole head has been moved,
  past the end of the request.
- `DmaQueue.ExtraEndIoHandsBack`: an end-of-transfer call without a transfer, which the driver offers as an ioctl, hands
  back the request at the head. A read gets wrong bytes exactly if its transfer has not been made and the buffer does not
  happen to hold them; a write is reported complete before memory has its bytes exactly if its transfer has not been
  made. `DmaQueue.ExtraEndIoIsSafeWhen`: unless nobody waits, one piece of work too many is left in flight.
- `Interrupts.InterruptsAreNeverLostExactlyWhen`, `Interrupts.SecondInterruptLost`: over a run, an interrupt is lost exactly
  when a reader resets a bit of its copy whose module has interrupted since the last report of that bit took its copy.
- `CardMessages.FailedCreateChangesNothing`, `CardRuns.FailedCreateStrands`: on an AMD board with the expanded-block bit
  set, a create that finds no room moves on to a block that is not there. From then on re-creating the last message is
  refused too.
- `MessageLayout.ReCreatedRoomIsRightWhen`, `CardMessages.ReCreatedIsCoveredWhen`: re-creating a message with bus or
  retry bits in the command type works out the wrong size, except for RT to BC and BC to RT messages and mode commands
  with a word count of one. For RT to RT messages it is too small.
- `MessageAllocator.ReCreateSpillsWhen`, `MessageAllocator.ReCreateSpills`: a re-created last message of a block may run
  over the block's end.
- `CardMessages.AlterCommandSpoilsNext`: altering the command word of a minor frame message alters the next message's
  control word, as such a message has no second word.
- `CardFrames.FrameHasPlaceWhen`: the limit on frames is looked at for every line, so an empty frame when there are
  twenty is written past the table.
- `SetJump.JumpIsSafeWhen`, `SetJump.UnseenEntryBreaksJump`, `SetJump.EntryBelowStartedFrame`: the check before patching
  looks at one entry only, the message's first from the started frame on. The board may be sending the message from
  another: a second entry, or one below the started frame, reached by a jump or as the asynchronous frame. It then writes
  into the jump. All interleavings go well exactly if the message is a jump already, or has no entry on the stack or a
  single one that does not lie below the started frame.
- `CardJumps.CheckedWord`: when the check finds no entry it takes the word at 0x1a03, past the stack, for a status and
  clears it. That is bytes 6 and 7 of the RT Active table.
- `TimeCodes.QuartersGrowUnless`: at 250 ns, gaps of 30000 and a little more come out shorter than smaller gaps.
- `IrigText.SplitDay`: day 366 in a year whose February has 28 days runs off the table of month names.
- `IrigText.PrintedOrder`, `IrigText.JunkDigitMatters`: the comparison reads one byte that it never set, and a digit there
  counts as one more digit of the microseconds. Within one second the answer is then wrong exactly if both bytes are
  digits, the times are equal and the second byte is the larger, or if one is a digit and its time, so lengthened,
  reaches or passes the other. At 9 and 1 microseconds, `0` after the second one makes 9 come before 10.

## Model

| member | source | states |
|---|---|---|
| RtBlockRead.RtReader.ReadBlock | lib/blockRead.c:15-157 | With the board appending between any two accesses: the entries handed back are exactly the messages before the count read first, in order, none torn; how many there are; what the flag is in every case and when it names the first entry; and that nothing is handed back when nothing is new |
| RtBlockRead.ReadOnce | lib/blockRead.c:15-157 | The same for a single read that may start at any count, also if only one of its two DMA requests is refused: what is handed back then, how much of it is right, and what still is as it was |
| RtBlockRead.ChunkedRead | lib/blockRead.c:84-113 | Reading in packets of whole words gives the same bytes as one read, each right unless lapped meanwhile |
| RtBlockRead.MyMemCopy | lib/blockRead.c:161-206 | By double words, words or bytes, whatever the alignment, all bytes are copied, each right unless lapped meanwhile |
| RtBlockRead.Stretches | lib/blockRead.c:50-80 | The one or two stretches planned hold the wanted entries, oldest first, and split at the wrap |
| RtBlockRead.EntriesTillEnd | lib/blockRead.c:50-63 | The address arithmetic with its added one yields the whole entries before the wrap, for entries of two bytes or more |
| RtBlockRead.SkipLapped | lib/blockRead.c:138-156 | After the second count, exactly as many entries are skipped as the board may have written over; the rest are as written; and what the flag becomes |
| RtBlockRead.CleanAfterSkip | lib/blockRead.c:138-156 | A copy that is right except where lapped becomes exact once the lapped entries are skipped |
| RtBlockRead.FlagAfterSkip | lib/blockRead.c:155-155 | The flag after a skip is never the one for "not overwritten"; after a lap before the call it is the slot of the first entry kept |
| RtBlockRead.FlagNamesSlotWhen | lib/blockRead.c:150-155 | Without a lap before it, the flag after a skip is the slot of the first entry kept if and only if two or more are skipped and the last read ended two slots before the ring's end |
| RtBlockRead.FlagMisnamesSlot | lib/blockRead.c:150-155 | Inputs at which the flag is another entry's slot, or no slot at all |
| RtBlockRead.DeliveryIncreases | lib/blockRead.c:27-41 | Over any run of reads the numbers of the messages handed back strictly increase, so none is handed back twice |
| RtBlockRead.SkippedIsFlagged | lib/blockRead.c:138-156 | Any message a run leaves out belongs to a call whose flag says that something was overwritten |
| StackBoard.AppendMirrors | lib/blockRead.c:15-157 | Message m goes to slot m modulo the ring's size, and the ring then holds the last lap of the longer stream |
| MonitorCache.WindowIsWholeBlocks | lib/gget.c:1399-1623 | Every cache window is a whole number of 80-byte blocks, at most the maximum, and does not cross the end of its bank |
| MonitorCache.Monitor.HitIsRight | lib/gget.c:1399-1623 | A block found in the window lies wholly inside the buffer at the place computed for it |
| MonitorCache.Monitor.Refill | lib/gget.c:1399-1623 | A multi-block read fills the window from the wanted block on and marks exactly the messages it took as read; a refused one fills nothing and loses what the scan of the old blocks clears |
| MonitorCache.Monitor.ClearEoms | lib/gget.c:1580-1592 | The scan marks the messages that were copied; after a refused read it clears the bits of messages that were not, of the waiting one if and only if the first old block has its bit on |
| MonitorCache.Monitor.GetDmaMonBlockCopy | lib/gget.c:1399-1623 | What the cache offers as the wanted block is that message, and never misses one that was there at the call and not lost; when a message is lost |
| MonitorCache.Monitor.ReadDirectly | lib/gget.c:1033-1261 | The uncached read hands out the wanted message with its block number, or says that there is none, which is so if it was not there or its bit is lost |
| MonitorCache.Monitor.GetNextMonMessage | lib/gget.c:1033-1261 | With or without the cache, whatever reads are refused: the next message written, once, in order, and none missed unless lost; messages are lost only by a refused read that scans an old bit, and the waiting one then is |
| MonitorCache.ReadMany | lib/gget.c:1033-1261 | Any number of calls, with any reads refused, hands out a contiguous stretch of what the board wrote, as long as there was something, up to the first message lost |
| MonitorCache.WriteUnread | lib/gget.c:1033-1261 | A whole message written to its block keeps the record of what is unread |
| MonitorCache.ClearUnread | lib/gget.c:1033-1261 | Clearing one end-of-message bit takes exactly that message out of the unread ones |
| MonitorCache.TagsStayInOrder | lib/gget.c:1033-1261 | A message whose tag passes the check leaves the whole record one that passes it |
| MonitorCache.LaterTagPassesWhen | lib/gget.c:1182-1192 | Of two messages less than a turn of the 32-bit clock apart, the later passes the check if and only if the clock did not wrap between them or they are at most 2^32 - 2^28 apart |
| MonitorCache.RefusedReadLosesMessage | lib/gget.c:1399-1623 | From any state in which nothing is lost, a message can be, by one refused read; that call and all after it hand out nothing |
| MonitorBlock.FilterCorrupt | lib/monseq.c:1472-1512 | For any contents: the window kept is contiguous, its counters rise by one modulo 65536, no entry has status 0, what precedes it is implausible, and where it stops early and why |
| MonitorBlock.PlausibleWhen | lib/monseq.c:1484-1489 | Of whole blocks, one of the expected lap passes the first loop, and a lapped one if and only if its number is past 65535 |
| MonitorBlock.KeptIsExpectedWhen | lib/monseq.c:1474-1495 | What the first loop lets through begins with an expected message if and only if no whole lapped block has a number past 65535; otherwise, and if the first block is one, the window begins there and the flag stays |
| MonitorBlock.LappedBlockPasses | lib/monseq.c:1484-1489 | After 70000 messages, a lapped block that passes for an older message |
| MonitorBlock.UnbrokenIsSuccessive | lib/monseq.c:1472-1512 | Counters that rise by one belong to successive messages of one lap, for laps fewer than 2048 apart |
| MonitorBlock.SequenceReader.Refill | lib/monseq.c:412-430 | After a refill the record is the last message's true number plus one |
| MonitorBlock.SequenceReader.GetNextMessage | lib/monseq.c:396-451 | Over any number of wraps the block number returned is the true message number modulo the number of blocks |
| MonitorBlock.RebuildIsRightWhen | lib/monseq.c:424-429 | The rebuilt number is right if and only if the counter is seen to wrap or the high half did not change |
| MonitorBlock.FullWrapGoesUnseen | lib/monseq.c:424-429 | At exactly 65536 messages between refills the rebuilt number is wrong |
| MonitorBlock.RecordCarriesHigh | lib/monseq.c:442-445 | At the first message past a wrap the record already carries its high half |
| SplitDma.PerformDMARead | lib/deviceio.c:651-871 | For every offset and length a completed read leaves in the buffer the bytes of memory; exactly when it completes; and what a request shorter than the head does |
| SplitDma.ReadHead | lib/deviceio.c:713-748 | The bytes up to the next 8-byte boundary are read by one or two double words |
| SplitDma.ReadTail | lib/deviceio.c:847-868 | The last bytes are read out of two double words |
| SplitDma.PerformDMAWrite | lib/deviceio.c:872-1098 | What memory holds after any write, for every offset, length and tail; exactly when the write completes; and what a request shorter than the head does |
| SplitDma.WriteTail | lib/deviceio.c:1068-1096 | A tail of five to seven bytes is stored plainly; a shorter one is followed by as many bytes again in the next double word |
| SplitDma.WriteIsPlainWhen | lib/deviceio.c:1068-1096 | A write changes just its range if and only if there is no short tail or the bytes that follow happen to agree |
| SplitDma.ShortTailSpoils | lib/deviceio.c:1077-1095 | For every short tail there are data that spoil memory outside the range |
| SplitDma.WrittenHoldsData | lib/deviceio.c:872-1098 | After any completed write the requested range holds the data |
| SplitDma.WriteThenRead | lib/deviceio.c:651-1098 | Writing and reading back the same range is the identity, for every tail |
| DmaQueue.EveryRunIsSerial | driver/excalbr.c:2415-2694 | For every interleaving: the size is the queue's length, only the head is in the hardware, requests start once and end once in order, each gets what serving them one at a time would have given, nothing due is out of bounds, and a waiting request always has work due |
| DmaQueue.RunKeepsInv | driver/excalbr.c:2415-2694 | The invariant behind it holds after every schedule |
| DmaQueue.TransferGivesHead | driver/excalbr.c:2415-2600 | A transfer leaves in the buffer and in memory what its own request asks for |
| DmaQueue.ExtraEndIoIsSafeWhen | driver/excalbr.c:1814-1821 | An end-of-transfer call that no transfer asked for does nothing if nobody waits, and otherwise leaves one piece of work too many |
| DmaQueue.ExtraEndIoHandsBack | driver/excalbr.c:1814-1821 | The waiting caller gets what its request is due if and only if it is a write, its transfer has been made, or the buffer happens to hold the bytes; and gets it before its bytes were moved if and only if the transfer has not been made |
| DmaQueue.ExcDevice.QueueRequest | driver/excalbr.c:2330-2633 | A request is let through just if the board has DMA and it is of 1 to 4096 bytes inside memory; it then is the last in the queue, and the caller starts the transfer exactly if the queue was empty |
| DmaQueue.ExcDevice.StartIo | driver/excalbr.c:2415-2577 | A write's bytes are in the buffer and the request is in the hardware |
| DmaQueue.ExcDevice.EndIoCopies | driver/excalbr.c:2655-2680 | A read's packet takes the buffer's bytes |
| DmaQueue.ExcDevice.EndIoRemoves | driver/excalbr.c:2682-2694 | That packet leaves the queue and the next head is started |
| DmaQueue.FillBuffer | driver/excalbr.c:2432-2436 | The loop puts a write's bytes at the start of the buffer and leaves the rest |
| DmaQueue.TakeBuffer | driver/excalbr.c:2673-2681 | The loop gives a read's packet the buffer's first bytes |
| DmaQueue.Board807.StartIo | driver/excalbr.c:2581-2600 | On 807 boards the mutual recursion ends, drains the queue in order, and serves each request as if alone unless a wait ran out |
| DmaQueue.Board807.EndIo | driver/excalbr.c:2655-2694 | The other half of that recursion |
| Interrupts.ExcDevice.Isr | driver/excalbr.c:1965-2269 | Module m is counted once, modulo 2 to the 32, woken and, below 8, shadowed just if the board has it and bit m of the status is on; up to two DMA interrupts are counted, of either register; what is handled and what is spurious; and the counters still balance |
| Interrupts.ExcDevice.CountModules | driver/excalbr.c:2159-2174 | The loop over the interrupt bits counts, shadows and wakes module m just if the board has it and bit m is on, and leaves the others as they were |
| Interrupts.SignalledModule | driver/excalbr.c:2159-2172 | The masks single out bit m for module m, of four modules on a 1394, five or nine on a 4000 |
| Interrupts.ShadowedModule | driver/excalbr.c:2168-2168 | Bit m of the shadow register, one byte wide, comes on just if it was on or module m is signalled |
| Interrupts.CountsModulo | driver/excalbr.c:2169-2170 | Counting k times adds k modulo 2 to the 32 |
| Interrupts.ExcDevice.NothingUncounted | driver/excalbr.c:1423-1460 | Since the last first open the total is the modules' counts plus the DMA interrupts, modulo 2 to the 32 |
| Interrupts.ExcDevice.Open | driver/excalbr.c:1423-1460 | A first open starts all counts but the DMA count and empties the shadow register; a later one does not |
| Interrupts.StepKeeps | driver/excalbr.c:1751-1777 | Any one statement of the interrupt routine or of any reader keeps every bit either in the register or reported |
| Interrupts.BitsAreNeverForgotten | driver/excalbr.c:1751-1777 | For every interleaving, every bit ever set is still in the register or has been reported |
| Interrupts.StepLosesExactlyWhen | driver/excalbr.c:1764-1774 | A step loses an interrupt if and only if it resets a bit that is owed again, which takes an interrupt between copy and reset |
| Interrupts.InterruptsAreNeverLostExactlyWhen | driver/excalbr.c:1751-1777 | Over every interleaving no interrupt is ever lost if and only if no reset takes a bit whose latest interrupt no report tells of |
| Interrupts.InterruptsAreNeverLostUnlessLate | driver/excalbr.c:1751-1777 | In particular, none is lost if no reader resets a bit set since its copy |
| Interrupts.SecondInterruptLost | driver/excalbr.c:1764-1774 | A schedule in which a second interrupt of a module is lost |
| MessageLayout.CreatedSize | lib/bcrtmsg.c:466-487 | The size worked out for a new message is what sections 4.3.3.5.1.5 and 4.3.3.6 of MIL-STD-1553B ask for, one word more for broadcast mode commands |
| MessageLayout.ReadCount | lib/bcrtmsg.c:335-357 | The number of words read is commands, status words and data words of the message format |
| MessageLayout.AlteredSpan | lib/bcrtmsg.c:180-202 | Alterations begin after the command words and end where the new message's room ends |
| MessageLayout.ReCreatedSize | lib/bcrtmsg.c:1045-1068 | The size worked out for a re-created message, for every command type |
| MessageLayout.ReCreatedRoomIsRightWhen | lib/bcrtmsg.c:1023-1068 | That size is right if and only if no control bits come along or the kind is one of those laid out plainly |
| MessageLayout.ReCreatedTooShort | lib/bcrtmsg.c:1023-1068 | An RT to RT message re-created with the bus bit comes out two words short |
| MessageLayout.AlteredCommandFields | lib/bcrtmsg.c:243-278 | A new address and subaddress are put in place; direction and word count stay |
| MessageLayout.FieldsPartition | lib/flags_px.h:124-168 | The six fields of the control word take up its sixteen bits, each bit once |
| MessageLayout.SetterIsUpdate | lib/bcset.c:399-430 | Each setter replaces its own field of the control word and preserves the other five |
| MessageLayout.SettersCommute | lib/bcset.c:399-430 | Setters of different fields may be called in either order |
| MessageLayout.FieldsAreIndependent | lib/bcset.c:399-919 | After any calls each field is what its own setters alone would have made of it |
| MessageLayout.ErrorsPreserveWhen | lib/bcset.c:78-91 | Error flags outside the error bits leave the other fields alone if and only if those bits were set already |
| MessageLayout.RestoreUndoesSkip | lib/bcset.c:1127-1226 | Skipping and restoring a control word gives it back |
| MessageAllocator.FindRoom | lib/bcrtmsg.c:505-548 | The walk through the blocks finds the first one, from the current one on, with room; it fails exactly if there is none |
| MessageAllocator.SlotsDisjoint | lib/bcrtmsg.c:428-582 | Messages never share a word, and later ids lie higher |
| MessageAllocator.CreateKeepsAlloc | lib/bcrtmsg.c:505-582 | A new message lies in one block above all others |
| MessageAllocator.FailsOnlyAtTheEnd | lib/bcrtmsg.c:505-548 | A create fails only in the last block, and changes the allocator exactly on AMD boards that walk past it |
| MessageAllocator.FreshBlockHolds | lib/gset.c:271-328 | Any block that is there has room for the longest message, of 37 words |
| MessageAllocator.ReCreateKeepsAlloc | lib/bcrtmsg.c:1070-1079 | Re-creating within the room up to the next message keeps all messages apart |
| MessageAllocator.ReCreateSpillsWhen | lib/bcrtmsg.c:1070-1079 | The message leaves its block if and only if it runs over the block's end |
| MessageAllocator.ReCreateSpills | lib/bcrtmsg.c:1070-1079 | A sound state in which the last message of block 2, re-created, runs over the block's end |
| MessageAllocator.CreateStrands | lib/bcrtmsg.c:505-548 | A sound state of a full AMD board that a create without room moves past the last block |
| MessageAllocator.MessagesNeverOverlap | lib/bcrtmsg.c:428-582 | Over any run of creates, re-creates and clears: messages are apart, in order, and in one block each unless re-created across an end |
| CardMessages.ReadAfterCreate | lib/bcrtmsg.c:309-368 | Reading a new message gives the words it was created with, the first two for a broadcast mode command |
| CardMessages.ReadAfterAlter | lib/bcrtmsg.c:133-214 | Reading an altered message gives its command words and then the new data |
| CardMessages.AlterKeeps | lib/bcrtmsg.c:133-214 | Altering a message changes no word of any other, nor its own kind or command |
| CardMessages.AlterCommandKeeps | lib/bcrtmsg.c:243-278 | A new command word has the same word count, so the message takes the same room; no other word changes |
| CardMessages.AlterCommandSpoilsNext | lib/bcrtmsg.c:243-278 | For a minor frame message it is the next message's control word that is altered |
| CardMessages.CreateLeavesOthers | lib/bcrtmsg.c:428-582 | A new message lies in one block, and every other message keeps its words, place and type |
| CardMessages.FailedCreateChangesNothing | lib/bcrtmsg.c:505-548 | A failed create leaves the card as it was, if and only if it is not an AMD board walking into the missing block |
| CardMessages.ReCreatedIsCoveredWhen | lib/bcrtmsg.c:998-1115 | A re-created message has the room its reading takes if and only if it was re-created plainly or has one command word |
| CardMessages.SetControlKeeps | lib/bcset.c:399-919 | A setter changes one field of one message's control word and nothing else on the card |
| CardMessages.RestoreUndoesSkipping | lib/bcset.c:1127-1226 | Skipping a message and restoring it gives back its control word and touches nothing else |
| CardMessages.InjectedBitsAreLegal | lib/bcset.c:78-91 | The error bits set stay within the error field |
| CardState.OwnWrite | lib/bcrtmsg.c:133-214 | Words written between a message's address and the next message leave every other message alone |
| CardState.CreateKeeps | lib/bcrtmsg.c:428-582 | Whatever comes of a create, the card stays sound |
| CardState.ReCreateKeeps | lib/bcrtmsg.c:998-1115 | Whatever comes of a re-create, the card stays sound |
| FrameStack.FramesApart | lib/bcframe.c:151-171 | Frames lie one after the other on the stack, below its next free entry |
| FrameStack.StatusIsOwn | lib/bcget.c:254-266 | The status word looked at is byte 8k + 6 of the frame, and belongs to no other entry of any frame |
| CardFrames.FrameHoldsLines | lib/bcframe.c:70-171 | A frame created lies on top of the others, and each entry points at its line's message with its gap time and no status |
| CardFrames.FailedFrameChangesNothing | lib/bcframe.c:70-77 | A frame that fails, at its first faulty line, leaves frames and entries as they were |
| CardFrames.CreateFrameKeeps | lib/bcframe.c:42-172 | Whatever comes of it, frames tile the stack and every entry points at a live message |
| CardFrames.FrameHasPlaceWhen | lib/bcframe.c:70-79 | A frame that passes the checks has a place in the table if and only if it is not an empty one when the table is full |
| CardFrames.EntryStatusKeeps | lib/bcget.c:234-292 | Reading a status touches that one word: cleared, unless the message is being sent |
| CardFrames.EntryPointsAt | lib/bcrtmsg.c:644-660 | The first word of an entry is the byte address of the message it stands for |
| CardFrames.AddressesDiffer | lib/bcrtmsg.c:655-667 | No two live messages have the same address, so the search by address finds the right one |
| CardFrames.EntryAfterStatus | lib/bcrtmsg.c:625-702 | Clearing a status changes neither what its entry points at nor what is read there |
| StackScan.InSightIsLooked | lib/bcget.c:120-133 | Every entry of a message is the one looked at if and only if it has none, or a single one that does not lie below the started frame |
| CardJumps.StartKeeps | lib/bcframe.c:206-266 | Starting a frame sets where checks begin to the frame's first entry, a whole entry of the stack, writes the two registers, and keeps the card sound |
| CardJumps.CheckedWord | lib/bcget.c:120-140 | The check reads and clears the status of the message's first entry from the started frame on; without one, a word past the stack |
| CardJumps.EntriesOfMessage | lib/bcget.c:128-133 | Of the entries in use, the ones with the message's address are those created for it |
| CardJumps.JumpKeeps | lib/bcset.c:731-799 | Whatever comes of turning a message into a jump, the card stays sound |
| CardJumps.JumpHolds | lib/bcset.c:731-799 | A jump holds its frame's address and the count, keeps the other fields of its control word, is recorded as a jump, and leaves every other message alone; below the messages only the status word that the check looked at is cleared |
| CardRuns.EveryRunIsSound | lib/bcrtmsg.c:428-1115 | After any run of the calls: messages apart, in order and in their blocks, each control word says SKIP or the recorded type, and the frames tile the stack with entries that point at live messages |
| CardRuns.CallKeepsSound | lib/bcset.c:1047-1102 | Every single call keeps that |
| CardRuns.FailedCreateStrands | lib/bcrtmsg.c:505-548 | A sound card that a failed create of an RT to RT transfer changes |
| CardOutcomes.CreateAnswers | lib/bcrtmsg.c:444-548 | A create succeeds just if the kind is known, bit 10 of its command words says the right direction, an id is left and some block from the current one on has room; the first of these that fails names the error |
| CardOutcomes.CreateHolds | lib/bcrtmsg.c:505-582 | The new message holds its type on bus A and the words given, in the first block with room, the next one will go right behind it, and no other word of memory changes |
| CardOutcomes.ReCreateAnswers | lib/bcrtmsg.c:1016-1079 | Re-creating succeeds just if the message exists, kind and direction are right, and it fits before the next message; the first of these that fails names the error |
| CardOutcomes.ReCreateHolds | lib/bcrtmsg.c:1081-1113 | The message holds the whole type asked for, further bits included, and the new words; no other word of memory changes |
| CardOutcomes.ReCreateLeavesOthers | lib/bcrtmsg.c:1070-1113 | Every other message keeps its words, place and type |
| CardOutcomes.ReadAfterReCreate | lib/bcrtmsg.c:309-368 | Reading a re-created message with enough room gives the words it was re-created with |
| CardOutcomes.AlterOutcome | lib/bcrtmsg.c:133-214 | Which calls are refused and why; else the words behind the command words are the new ones, and no other word of memory changes |
| CardOutcomes.AlterCommandOutcome | lib/bcrtmsg.c:243-278 | Likewise for the address fields of the command word, of any message |
| CardOutcomes.ReadOutcome | lib/bcrtmsg.c:309-368 | Which calls are refused and why; else the words are those behind the control word, or of a skipped jump the first two |
| CardOutcomes.RestoreOutcome | lib/bcset.c:1191-1226 | A restore succeeds just if the message is skipped and the type is the recorded one; its command code then is that type, and nothing else changes |
| CardOutcomes.FrameAnswers | lib/bcframe.c:70-79 | A frame is accepted just if every line names a live message, its entry fits on the stack and the table has a place; else the first bad line names the error |
| CardOutcomes.EntryHolds | lib/bcframe.c:80-158 | The four words of an entry: the message's byte address, a gap time and multiplier that stand for the time asked for, and no status |
| CardOutcomes.StatusOutcome | lib/bcget.c:234-292 | The error, or the status at byte 8k + 6 of the frame, cleared unless it says that the message is being sent |
| CardOutcomes.StartOutcome | lib/bcframe.c:206-266 | Which starts are refused and why; else the two registers hold the frame and, its bytes exchanged, the number of messages, all of the frame's for 0, and no other word changes |
| CardOutcomes.JumpAnswers | lib/bcset.c:731-799 | Which calls of Set_Jump succeed, and the error of those that do not, which change nothing |
| CardOutcomes.NewOutcome | lib/gset.c:271-280 | In a new Bus Controller mode there are no messages and no frames, and block 1 is current |
| CardOutcomes.ClearOutcome | lib/bcset.c:1047-1102 | Clearing the card forgets messages and frames, clearing the frames these only; memory stays |
| CardOutcomes.ClearedTakesAny | lib/bcset.c:1047-1066 | A cleared card takes any message with the right direction, as its first and at the start of block 1 |
| BusController.Instance.Create | lib/bcrtmsg.c:428-582 | The library's steps, error by error, amount to the create whose properties are proved |
| BusController.Instance.ReCreate | lib/bcrtmsg.c:998-1115 | Likewise for re-creating |
| BusController.Instance.Alter | lib/bcrtmsg.c:133-214 | Likewise for altering data |
| BusController.Instance.AlterCmd | lib/bcrtmsg.c:243-278 | Likewise for altering the command word |
| BusController.Instance.Read | lib/bcrtmsg.c:309-368 | Likewise for reading a message |
| BusController.Instance.GetBcMsgentry | lib/bcrtmsg.c:625-702 | The status is the word at byte 8k + 6 of the frame, the words are those of the message whose address the entry holds, with zeros after them up to 36; a minor frame message, or an entry that is not there, gives its error |
| BusController.Instance.FindMessage | lib/bcrtmsg.c:655-667 | The search by address ends at the message that lies there |
| BusController.Instance.SetBus | lib/bcset.c:399-430 | Succeeds just if the mode is right, the message exists and the channel is A or B; then the bus field is the channel and every other field and word is as it was; a refusal changes nothing and says why |
| BusController.Instance.SetRetry | lib/bcset.c:832-868 | Likewise: up to three retries, on the same or alternating buses, are what the retry field then says |
| BusController.Instance.SetHalt | lib/bcset.c:582-609 | Likewise: bit 13 is on |
| BusController.Instance.SetContinue | lib/bcset.c:462-490 | Likewise: bit 13 is off |
| BusController.Instance.SetStopOnError | lib/bcset.c:895-919 | Likewise: bit 15 is on |
| BusController.Instance.SetSkip | lib/bcset.c:1127-1153 | Likewise: the command code is that of SKIP |
| BusController.Instance.SetRestore | lib/bcset.c:1191-1226 | The library's steps, error by error, amount to the restore whose outcome is stated above |
| BusController.Instance.InsertMsgErr | lib/bcset.c:43-93 | Refused, with the reason, just in the wrong mode, for unknown ids and for jumps; else the flags replace the errors there were, with the data-error bit unless all words are the controller's own, and every other field, if the flags are error flags, and every other word is as it was |
| BusController.Instance.StartFrame | lib/bcframe.c:206-266 | The library's steps, error by error, amount to the start above |
| BusController.Instance.CheckAlterMsg | lib/bcget.c:95-140 | The scan from the started frame's first entry on amounts to the check above |
| BusController.Instance.SetJump | lib/bcset.c:731-799 | The library's steps, the check with its clearing included, amount error by error to the jump above; a message being sent is left as it was |
| BusController.Instance.MakeFrame | lib/bcframe.c:42-172 | The loop writes the entries and stops at the first faulty line, as the function above says |
| BusController.Instance.GetMsgentryStatus | lib/bcget.c:234-292 | Range errors, the status, and its clearing |
| BusController.Instance.Clear | lib/bcset.c:1047-1066 | Messages and frames are forgotten and the first block is current again |
| BusController.Instance.ClearFrames | lib/bcset.c:1094-1102 | Frames are forgotten, messages are kept |
| SetJump.BoardSeesOldOrJump | lib/bcset.c:731-799 | For a jump already, or a message with at most one entry and that not below the started frame, and every interleaving: each fetch sees the old message, its second word the one found or one the board wrote, or the finished jump; a refusal leaves the message; success leaves the jump with HALT and the other fields as they were |
| SetJump.FetchedIsWhole | lib/bcset.c:757-798 | At any moment, what the board can fetch is the message as it last was, or the finished jump |
| SetJump.JumpIsSafeWhen | lib/bcset.c:731-799 | That holds of all interleavings that the stack and the started frame allow, if and only if the message is a jump already, or has at most one entry and that not below the started frame |
| SetJump.StepKeepsInv | lib/bcset.c:757-798 | Each step of host or board keeps what is in memory at each point of the protocol |
| SetJump.FinalJumpFields | lib/bcset.c:757-798 | The jump's control word differs from the old one in its command code only |
| SetJump.UnseenEntryBreaksJump | lib/bcget.c:120-133 | For every other message being sent from an entry that is not looked at, every target and count, a schedule that leaves a jump whose count is any word the board wrote last |
| SetJump.EntryBelowStartedFrame | lib/bcget.c:120-133 | Such a case: one entry, in frame 0, with frame 1 started |
| SetJump.Card.SetJump | lib/bcset.c:731-799 | The statements themselves, with the board running in between: which of the three ends they come to and what is then in memory |
| TimeCodes.GapIsClose | lib/bcframe.c:136-150 | At 155 ns the gap stored is at most the gap asked for, and short by less than m microseconds and m + 1 units |
| TimeCodes.UnitsFit | lib/bcframe.c:136-150 | Units always fit sixteen bits, and the multiplier fits thirteen up to the longest gap |
| TimeCodes.GapWordsHold | lib/bcframe.c:450-505 | The two words of an entry lose nothing up to the longest gap, at either resolution |
| TimeCodes.GapStandsFor | lib/bcframe.c:103-150 | Up to the longest gap the two words stand for the time asked for: at 250 ns exactly, less 4000 from 30000 on, at 155 ns as close below as the split allows |
| TimeCodes.FunctionBitsSurvive | lib/bcframe.c:450-505 | The three function bits above the multiplier survive a new gap time |
| TimeCodes.QuartersGrowUnless | lib/bcframe.c:103-120 | At 250 ns a longer gap is stored as longer, unless it straddles the cut at 30000 too closely |
| TimeCodes.SetFrameTime | lib/bcset.c:525-561 | The frame time stored is as close, for frames up to eleven minutes |
| TimeCodes.SetMinorFrameTime | lib/bcset.c:1306-1327 | The resolution is the finest at which the whole time can be counted, and the count fits sixteen bits |
| TimeCodes.MinorFrameRoundTrip | lib/bcget.c:179-194 | What is read back is the time set less its remainder by the resolution, and equal exactly if that is 0 |
| TimeCodes.BuildBCD | lib/gget.c:2075-2089 | The loop of shifts and ORs builds the lowest digits, one to a nibble, shifted to their field |
| TimeCodes.OrIsPlus | lib/gget.c:2086-2088 | Fields put together bit by bit with OR and shift are added, as they do not overlap |
| TimeCodes.BCDtoBinary | lib/gget.c:2187-2200 | The loop reads eight nibbles as decimal digits |
| TimeCodes.BinaryOfBcd | lib/gget.c:2187-2200 | Decoding an encoded value gives its last n digits |
| TimeCodes.BcdOfBinary | lib/gget.c:2075-2089 | Encoding a decoded word gives it back if all its nibbles are digits |
| TimeCodes.ConvertIrigTimetag | lib/gget.c:2026-2069 | The digit-by-digit decoder gives what the loop gives on every four words, and then the next second |
| TimeCodes.PresetIrigTimeTag | lib/gget.c:2114-2183 | The registers loaded decode to the time preset, brought into range, and the status says what was out of range |
| TimeCodes.PresetThenRead | lib/gget.c:2026-2183 | A preset time reads as the next second with full carry; the day after 365 or 366 is day 0 |
| TimeCodes.NextSecondIsNext | lib/gget.c:2048-2066 | The one-second correction adds one second, or rolls the year over |
| IrigText.SplitDay | lib/gget.c:2316-2321 | The loop finds the one month and day that make up the day of the year, and leaves the table exactly past the year's end |
| IrigText.DatesKeepOrder | lib/gget.c:2316-2321 | The split is one to one and keeps the order |
| IrigText.PrintIrigTime | lib/gget.c:2286-2325 | The text is day, month name and clock fields, padded as the format says |
| IrigText.PrintedExample | lib/gget.c:2323-2323 | One time and its text |
| IrigText.MonthNumbers | lib/cmdFunctions.h:124-197 | The month numbers read from the names are those of the table |
| IrigText.PaddedReadsBack | lib/cmdFunctions.h:200-429 | A padded number has its width, is all digits, and reads back |
| IrigText.PrintedReadsBack | lib/cmdFunctions.h:240-380 | Every printed time of a year is parsed back into its own fields, for any unset byte, which if a digit counts as one more digit of the microseconds |
| IrigText.Parse | lib/cmdFunctions.h:240-380 | Stepping through any long enough text, the parser cuts out the fields at their places |
| IrigText.IsBigger | lib/cmdFunctions.h:200-429 | The answer is 0 exactly if the first text's fields come before the second's |
| IrigText.PrintedOrder | lib/cmdFunctions.h:200-429 | Printed times compare as the times do if and only if the unset bytes do not turn around the microseconds within a second; when they do |
| IrigText.ComparePrinted | lib/cmdFunctions.h:200-429 | For any two times of a year and any unset bytes, comparing the printed texts says 1 just if the first is not before the second, if and only if the bytes do not mislead |
| IrigText.JunkDigitMatters | lib/cmdFunctions.h:200-429 | Two times, and one time taken twice, that a digit in the byte never set puts in the wrong order |

## Left out

- SplitDma.PerformDMARead: how 8-byte alignment of a module's start is obtained; offsets are taken from such a start. The caller's buffer must hold the whole head even if the request is shorter.
- RtBlockRead.RtReader.ReadBlock: runs of reads in which one of two DMA requests is refused; `RtBlockRead.ReadOnce` has what one such read hands back.
- RtBlockRead.ChunkedRead: a counter past 2^31, a ring at offset 0 and one-byte entries, which do not arise.
- RtBlockRead.PerformDMARead: `PerformLongDMARead`, which cuts a transfer into several of this kind.
- MonitorCache.Monitor.GetNextMonMessage: triggers, the ignore-overrun flag, the high word of the message counter, and the expanded packet reads of networked boards, whose internals are not part of this model. Changes of mode between calls, which do not empty the cache.
- MonitorBlock.SequenceReader.GetNextMessage: how the bulk read finds out how much is new; it arrives as a parameter.
- DmaQueue.EveryRunIsSerial: repeat codes, address translation registers, the sleep and wakeup of callers, the early return for AFDX cards and failures of copies from and to the caller.
- DmaQueue.Board807.StartIo: other callers during a wait, and what a transfer does that finishes late.
- Interrupts.ExcDevice.Isr: the boards other than 4000 and 1394, and an interrupt between the statements of a first open.
- Interrupts.ExcDevice.Open: the device's other fields.
- BusController.Instance.Create: the tables of ids are sequences that the methods reassign, not arrays; aliasing of the caller's arrays with them is not captured.
- BusController.Instance.AlterCmd: that the card stays sound if the message's room does not cover its reading, as for minor frame messages; what the call writes is stated for them too.
- BusController.Instance.Alter: likewise, for messages re-created too short and jumps. Alterations and readings that would run past the end of the dual-port RAM.
- BusController.Instance.MakeFrame: an empty frame when there are twenty already, which is written past the table; `CardFrames.FrameHasPlaceWhen` says that it is the only one. What it would overwrite is up to the compiler's layout.
- BusController.Instance.InsertMsgErr: boards with a single function, which refuse the call. That the card stays sound if flags lie outside the error bits; `MessageLayout.ErrorsPreserveWhen` says when they do no harm.
- BusController.Instance.SetJump: the board's steps in between, which `SetJump` has. Messages of fewer than three words, where the jump runs into the next message.
- IrigText.Parse: what the number conversion would read behind the byte that is never set, should that be a digit.
- SetJump.Card.SetJump: a status that is an error, which the source takes for permission; it means that no frame was ever started.
- TimeCodes.EncodeGap: the Intel path at 250 ns, and `Alter_IMG_Px`'s address of the entry, which is right for a frame at offset 0 only.
- Selecting and sending an asynchronous frame: they write registers of the board. That the board may serve a message from such a frame is modelled.
- Frequency mode, MMSI builds, PCI discovery, `/proc` output, ioctls other than those above, error texts, loopback tests and console helpers.
