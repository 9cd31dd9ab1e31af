# Verified mechanisms of the Xinu kernel

This project models six parts of the Xinu tree in Dafny and proves what they are for. Where the C code updates
fields, arrays or lists in place, the model is a class or an array method with the same loops and assignments; its
contract ties the new state to a pure function of the old one, and what runs of calls promise is proved about that
function.

* **Local file system** (`LfsDisk`, `LfsSpec`, `LfsState`, `LfsSteps`, `LfsTruncate`, `LfsCount`, `LfsViews`, `LfsFile`,
  `LfsCreate`). The disk is an array of 512-byte sectors; index blocks are read and written as bytes, seven to a sector.
  `LfsFile.LocalFiles` has the in-memory directory, the table of open files with their cached index and data blocks, dirty
  flags and byte pointer, and the operations `lflputc`, `lflgetc`, `lflseek`, `lftruncate`, `lflread`, `lflwrite`,
  `lflclose` and what they call. The specification is `LfsSpec.Store`: each file is a sequence of bytes and each open
  one has a cursor. A ghost layout says which blocks each file has; every index block and every data sector has exactly
  one place in it.
* **Ports** (`PortProtocol`, `PortSafety`, `PortRuns`, `PortDelivery`, `PortEffects`, `PortWraps`, `PortTables`,
  `PortSems`). A port call is split where it can lose the processor: up to `wait`, after `wait`, and around the releases
  of a reset or deletion. `PortProtocol` is that event machine,
  `PortTables.PortTable` the linked nodes in memory that carry it out, and `PortSems` ties its semaphores to
  those of the kernel.
* **Scheduler, semaphores and sleep queue** (`KernelState`, `KernelSafety`, `KernelRuns`, `KernelSleep`, `KernelSlices`,
  `KernelRobin`, `KernelEffects`, `KernelLifecycle`, `QueueTables`, `KernelCalls`). `KernelState` gives each kernel call as one step up to the context switch.
  `QueueTables.QueueTable` is `queuetab`, and `KernelCalls.Machine` the process, semaphore and queue tables that the
  calls change. A process that loses the processor inside the clock interrupt goes on there when it runs again; the
  field `midtick` remembers which ones will.
* **Heap** (`FreeLists`, `HeapBoot`, `HeapLinks`, `HeapTracking`). The list that `meminit` makes of the memory map,
  first fit, last fit and coalescing release over one list of linked blocks, and on top of it the compiled `getmem` and
  `freemem` that record the blocks a process has in use.
* **qsort** (`QuickSort`), for an arbitrary comparison function that is a total preorder.
* **Arithmetic** (`Checksum`, `Calendar`): the header checksum of section 3.1 of RFC 791 against the one that
  `net/ip.c` computes, and the conversion of seconds to a date.

`Sequences` holds small functions that several of these share. Integers are unbounded in Dafny. Where the 32-bit width decides the result it is written out: `roundmb` wraps, link and
index words are encoded in two's complement, the accession number of a port is compared modulo 2^32, `ptmaxcnt` is cut to
16 bits.

Some promises of the code do not hold without a condition. The following are stated as equivalences, with the code as it
is:

* A process that waits at a port through a multiple of 2^32 resets passes the test of the accession number
  (`PortRuns.StaleTouchesNothingIff`, `PortRuns.ClearedNeverTouches`). The invariant of the ports holds all along a run
  exactly if that never happens (`PortSafety.RunKeepsIff`), such runs exist (`PortWraps.LeftBehind`), and in them a
  receiver follows a null pointer and a sender overfills the port or panics (`PortWraps.ReceiverCrashesIff`,
  `PortWraps.SenderOverfills`). The order of messages and the conservation of nodes do not depend on it.
* A port of more than 65535 messages has a size field that is too small (`PortRuns.CreateSizeIff`) and can exceed it
  (`PortRuns.ExceedsIff`).
* The scheduler breaks when the null process blocks, or anyone blocks under an outstanding deferral of rescheduling: a
  kernel call keeps the invariant exactly if it does not do that, and so does a run (`KernelSafety.StepKeepsIff`,
  `KernelSafety.RunKeepsIff`).
* `recvtime(0)` makes a clock tick get lost for the sleepers behind it; a sleeper wakes on time exactly if no tick is lost
  (`KernelSleep.WokenOnTime`, `KernelSleep.ZeroWaitLosesTick`, `KernelSleep.TickCountsIff`).
* `getmem` of a size that `roundmb` wraps returns a block that was not taken off the list
  (`FreeLists.GetMemTakesIffSane`).
* `freemem` rejects a release exactly if it overlaps free memory (`FreeLists.FreeMemAcceptsIff`). The version that tracks
  blocks follows a null pointer exactly if the block is not on the list of the process, and otherwise keeps its books
  exactly if the size is the one the block was asked for (`HeapTracking.Tracker.FreeMem`,
  `HeapTracking.ReleaseKeepsIff`).
* The tracking `getmem` writes through SYSERR, as if it were the address of a list node, exactly if there is room for the
  block and not for its node (`HeapTracking.Tracker.GetMem`).
* Releasing everything restores the free list exactly if no two of the blocks at the start are adjacent
  (`FreeLists.RestoredIffCanonical`), which for the list that `meminit` makes means that no two usable regions touch
  (`HeapBoot.BootRestoredIff`); and `meminit` gives no part of the kernel image away exactly if no usable region ends
  where the image does (`HeapBoot.BootBehindImageIff`).
* `lflputc` and `lflwrite` panic exactly if the blocks of the disk do not suffice for the sizes that the files would have,
  and a run of file operations exactly if they do not suffice at some point (`LfsFile.LocalFiles.Lflputc`,
  `LfsFile.LocalFiles.Lflwrite`, `LfsFile.LocalFiles.DoAll`).
* A file that is created and closed without a write is on disk exactly if the directory was marked as changed for another
  reason (`LfsFile.LocalFiles.ClosedIsOnDiskIff`, `LfsFile.LocalFiles.Lflclose`, `LfsFile.LocalFiles.CreateAndClose`).
* `lfscreate` makes a file system exactly if there is an index block, and writes behind the disk exactly if no sector is
  left for data (`LfsCreate.Lfscreate`).
* The IP checksum differs from that of RFC 791 exactly for zeros and when the carry carries again
  (`Checksum.EqualsRfcIff`, `Checksum.StandardReceiver`).
* Dates are wrong from 29 February 2100 (`Calendar.GregorianIff`), in the last hour of some days with forced daylight
  saving (`Calendar.AheadIff`), and the weekday in the last hour before midnight (`Calendar.WeekdayIff`).

The tracking layer of the heap never gives its list nodes back (`HeapTracking.NodesLeak`).

## Model

| member | source | states |
|---|---|---|
| LfsDisk.DecodeEncodeIb | xinu-spring2020/include/lfilesys.h:71-76 | an index block laid out in 72 bytes, negative numbers in two's complement, is read back unchanged |
| LfsDisk.PutIbEffect | xinu-spring2020/include/lfilesys.h:86-91 | replacing the 72 bytes of index block `i` in its sector changes that index block, no other one, and no data sector |
| LfsDisk.ApartInSector | xinu-spring2020/include/lfilesys.h:86-91 | two index blocks of one sector do not overlap |
| LfsDisk.Disk.Lfibget | xinu-spring2020/device/lfs/lfibget.c:10-31 | the byte copy out of the sector yields exactly the index block asked for |
| LfsDisk.Disk.Lfibput | xinu-spring2020/device/lfs/lfibput.c:10-43 | the read, byte copy and write back set that index block and leave the other six and all data alone |
| LfsState.TakePart | xinu-spring2020/device/lfs/lfiballoc.c:17-32 | moving the top of a free list to the end of a file's list keeps every block in exactly one place |
| LfsState.GivePart | xinu-spring2020/device/lfs/lftruncate.c:54-101 | putting the whole list of a file on a free list, in order or reversed, keeps every block in exactly one place |
| LfsState.OthersGood | xinu-spring2020/device/lfs/lfsetup.c:34-119 | a step on one file leaves every other file, its cached blocks and its handle well laid out |
| LfsSteps.FlushData | xinu-spring2020/device/lfs/lfflush.c:29-32 | writing back the dirty data block keeps disk and cache in agreement with the bytes of the file |
| LfsSteps.FlushIndex | xinu-spring2020/device/lfs/lfflush.c:36-39 | the same for the dirty index block, which overrode its disk copy until then |
| LfsSteps.LoadIndex | xinu-spring2020/device/lfs/lfsetup.c:66-71 | an index block read from disk is the one the chain of the file says |
| LfsSteps.LoadData | xinu-spring2020/device/lfs/lfsetup.c:110-114 | a data block read from disk holds the bytes of the file at the position |
| LfsSteps.FirstIndex | xinu-spring2020/device/lfs/lfsetup.c:50-58 | an empty file gets its first index block off the free list, and its directory entry points there |
| LfsSteps.MoreIndex | xinu-spring2020/device/lfs/lfsetup.c:80-93 | a full chain is extended by one index block, linked from the previous last one on disk |
| LfsSteps.NewBlock | xinu-spring2020/device/lfs/lfsetup.c:105-114 | a new data block, filled with plus signs, is entered in the cached index block only |
| LfsSteps.GetStep | xinu-spring2020/device/lfs/lflgetc.c:48-49 | the byte that lfbyte points to is the byte of the file at the cursor |
| LfsSteps.PutStep | xinu-spring2020/device/lfs/lflputc.c:51-60 | storing a byte in the cached block makes the file the old bytes with that one replaced or appended |
| LfsTruncate.FreeMore | xinu-spring2020/device/lfs/lfdbfree.c:18-22 | linking one more block of the file on top of the free list changes no other sector |
| LfsTruncate.TruncGood | xinu-spring2020/device/lfs/lftruncate.c:39-101 | once the walk is done the file is empty, all its data blocks and its whole index chain are on the free lists, and everything else is as it was |
| LfsTruncate.ChainNotTop | xinu-spring2020/device/lfs/lftruncate.c:50-54 | no index block of the file is the old top of the free list, so the walk ends after the last block and not before |
| LfsCount.BlocksConserved | xinu-spring2020/device/lfs/lfscreate.c:44-46 | free data blocks and the blocks that the file sizes need add up to the data area, free index blocks and needed ones to the index area |
| LfsViews.PutFitsIff | xinu-spring2020/device/lfs/lfsetup.c:50-114 | the blocks of the disk suffice for the files with one byte more exactly if those of its position are there or free |
| LfsCount.EachBlockOnce | xinu-spring2020/device/lfs/lfsetup.c:45-112 | every index block and every data sector is either on its free list or in the list of exactly one file, and nowhere twice |
| LfsCount.ClosedOnDisk | xinu-spring2020/device/lfs/lfflush.c:19-41 | for a file that is closed, following the links on disk from its directory entry yields exactly its bytes |
| LfsFile.LocalFiles.constructor | xinu-spring2020/device/lfs/lflinit.c:20-44 | with all control blocks free, a disk with free lists and a valid directory is a well-formed file system |
| LfsFile.LocalFiles.Lfibclear | xinu-spring2020/device/lfs/lfibclear.c:9-22 | the loop yields an index block with null pointers and the given offset |
| LfsFile.LocalFiles.Lfiballoc | xinu-spring2020/device/lfs/lfiballoc.c:10-33 | the first free index block is returned, the directory moves on to the next, and is written; panic exactly if there is none |
| LfsFile.LocalFiles.Lfdballoc | xinu-spring2020/device/lfs/lfdballoc.c:12-40 | the same for data blocks; the buffer is filled with plus signs; panic exactly if there is none |
| LfsFile.LocalFiles.Lfdbfree | xinu-spring2020/device/lfs/lfdbfree.c:10-25 | the block links to the old first free block, whatever the rest of the buffer held, and no other sector changes |
| LfsFile.LocalFiles.Lfflush | xinu-spring2020/device/lfs/lfflush.c:10-42 | nothing stays dirty, the directory is written if it had changed, and all files keep their bytes; an unused control block is an error |
| LfsFile.LocalFiles.SetupFirstIndex | xinu-spring2020/device/lfs/lfsetup.c:45-72 | afterwards an index block that does not lie behind the position is in memory; an empty file gained one block |
| LfsFile.LocalFiles.SetupNextIndex | xinu-spring2020/device/lfs/lfsetup.c:79-93 | one step along the chain moves the cached index block on by 8192 bytes and extends the chain exactly at its end |
| LfsFile.LocalFiles.SetupIndex | xinu-spring2020/device/lfs/lfsetup.c:74-94 | the loop ends with the index block that covers the position, having extended the chain by at most one block |
| LfsFile.LocalFiles.SetupData | xinu-spring2020/device/lfs/lfsetup.c:96-114 | the data block of the position is in memory, new exactly if the file had none there |
| LfsFile.LocalFiles.Lfsetup | xinu-spring2020/device/lfs/lfsetup.c:10-122 | for any cached blocks and dirty flags, lfbyte afterwards points to the byte of the position, no byte of any file has changed, and blocks are allocated exactly as the position needs; panic exactly if one of them is not there and none is free |
| LfsFile.LocalFiles.PutByte | xinu-spring2020/device/lfs/lflputc.c:48-60 | size, cursor and bytes change as for a byte sequence, and an append marks the directory as changed |
| LfsFile.LocalFiles.Lflputc | xinu-spring2020/device/lfs/lflputc.c:9-64 | result and all files and cursors are those of `LfsSpec.Put` on the byte sequences; an append marks the directory as changed; the system panics exactly if the blocks of the disk do not suffice for the sizes the files would have |
| LfsFile.LocalFiles.Lflgetc | xinu-spring2020/device/lfs/lflgetc.c:9-52 | the same for `LfsSpec.Get`: the byte at the cursor, or EOF at the end |
| LfsFile.LocalFiles.Lflseek | xinu-spring2020/device/lfs/lflseek.c:9-41 | the same for `LfsSpec.Seek`: any position up to the end, an error beyond |
| LfsFile.LocalFiles.FreeBlocks | xinu-spring2020/device/lfs/lftruncate.c:62-74 | exactly the data blocks of this index block go on the free list, and its pointers are cleared |
| LfsFile.LocalFiles.FreeChain | xinu-spring2020/device/lfs/lftruncate.c:54-90 | the walk terminates with every index block cleared, every data block freed, and the last index block linked to the old free list |
| LfsFile.LocalFiles.Lftruncate | xinu-spring2020/device/lfs/lftruncate.c:10-104 | the file is empty with its cursor at 0, its directory entry has size 0 and no index block, all its data blocks and its whole index chain are on the free lists, and every other text and handle is as before |
| LfsFile.LocalFiles.LflcontrolTrunc | xinu-spring2020/device/lfs/lflcontrol.c:22-40 | truncation through the device, with an error for a file that is not open |
| LfsFile.LocalFiles.Lflclose | xinu-spring2020/device/lfs/lflclose.c:9-38 | the handle is closed, the directory on disk is the one in memory if that was marked as changed, and otherwise what it was; the file can be read back from the disk exactly if the directory was marked as changed or had an entry for it on disk, and only an empty file can lack one |
| LfsFile.LocalFiles.ClosedIsOnDiskIff | xinu-spring2020/device/lfs/lfflush.c:19-25 | while the directory is not marked as changed, a closed file can be read back from the disk exactly if the directory there has an entry for it |
| LfsFile.LocalFiles.Lfsopen | xinu-spring2020/device/lfs/lfsopen.c:153-184 | a new handle at position 0, with nothing in memory |
| LfsFile.LocalFiles.NewEntry | xinu-spring2020/device/lfs/lfsopen.c:135-144 | a new empty file; the directory is not marked as changed |
| LfsFile.LocalFiles.CreateAndClose | xinu-spring2020/device/lfs/lfsopen.c:135-184 | a file that is created and closed without a write can be read back from the disk exactly if something else had marked the directory as changed |
| LfsFile.LocalFiles.Lflwrite | xinu-spring2020/device/lfs/lflwrite.c:9-29 | all bytes are written: the file is its old bytes overwritten from the cursor on; the system panics exactly if the blocks of the disk do not suffice for that |
| LfsFile.LocalFiles.Lflread | xinu-spring2020/device/lfs/lflread.c:9-39 | the buffer gets the bytes from the cursor on, as many as there are up to the count, and EOF stands for none |
| LfsSpec.WriteSeekRead | xinu-spring2020/device/lfs/lflseek.c:25-37 | what is written at a position and read there again is the same, with nothing before or behind it changed |
| LfsSpec.TruncateWriteRead | xinu-spring2020/device/lfs/lftruncate.c:34-48 | truncation empties the file of the handle, puts its cursor at 0, so that the next read replies EOF, and changes no other text or handle; what is written then is the whole file |
| LfsSpec.TruncatedReadsEof | xinu-spring2020/device/lfs/lftruncate.c:45-48 | after a truncation a read replies EOF, whatever was done through other handles in between |
| LfsSpec.TruncatePutsGets | xinu-spring2020/device/lfs/lflputc.c:48-60 | a run that truncates, puts bytes, seeks to 0 and gets them replies with exactly these bytes, and then with EOF |
| LfsSpec.PutsAppend | xinu-spring2020/device/lfs/lflputc.c:51-60 | putting bytes one by one at the end of a file appends them |
| LfsSpec.GetsRead | xinu-spring2020/device/lfs/lflgetc.c:38-49 | getting bytes one by one replies with those at the cursor, in order |
| LfsSpec.ClosedRefuses | xinu-spring2020/device/lfs/lflgetc.c:20-26 | every operation through a closed handle is an error without an effect |
| LfsSpec.StaysClosed | xinu-spring2020/device/lfs/lflclose.c:20-36 | over any run of operations a closed handle stays closed |
| LfsSpec.DoKeeps | xinu-spring2020/device/lfs/lflputc.c:48-60 | every operation keeps all cursors within their files |
| LfsSpec.OthersUntouched | xinu-spring2020/device/lfs/lfsopen.c:46-75 | over any run of operations through other handles a file keeps its bytes and its handle its cursor |
| LfsFile.LocalFiles.DoAll | xinu-spring2020/device/lfs/lflputc.c:9-60 | any run of puts, gets, seeks, truncations and closings does to the files what the specification says, and returns what it says; it panics exactly if the blocks of the disk do not suffice at some point |
| LfsCreate.EmptyGood | xinu-spring2020/device/lfs/lfscreate.c:52-71 | the two lists that lfscreate writes make a file system without files in which every block is free |
| LfsCreate.CreateIndex | xinu-spring2020/device/lfs/lfscreate.c:52-60 | the loop links all index blocks into one list |
| LfsCreate.CreateData | xinu-spring2020/device/lfs/lfscreate.c:62-71 | the loop links all data sectors into one list and leaves the index blocks alone |
| LfsCreate.Lfscreate | xinu-spring2020/device/lfs/lfscreate.c:10-74 | it fails exactly if the index blocks would take more than half the sectors, and otherwise writes behind the disk exactly if no data block is left; in the remaining cases the disk holds a well-formed file system exactly if there is an index block, and then the empty one, whatever it held before |
| PortSafety.StaleFoundIff | xinu-spring2020/system/ptsend.c:29-35 | comparing accession numbers of 32 bits misses a clearing exactly when their number is a multiple of 2^32 |
| PortSafety.SignalKeeps | xinu-spring2020/system/ptsend.c:56 | a signal adds one to the semaphore count or to its released processes |
| PortSafety.ReleasedHolds | xinu-spring2020/system/ptrecv.c:29-38 | a released process that finds the port unchanged has a message, or a place, waiting for it |
| PortSafety.StaleLeaves | xinu-spring2020/system/ptrecv.c:29-33 | a released process from before a clearing leaves no trace in the balance of the port |
| PortSafety.ClearSendersKeeps | xinu-spring2020/system/ptclear.c:30-45 | freeing the messages and resetting or deleting the sender semaphore keeps the invariant with the port in limbo |
| PortSafety.ClearReceiversKeeps | xinu-spring2020/system/ptclear.c:43-46 | the same for the receiver semaphore |
| PortSafety.ClearEndKeeps | xinu-spring2020/system/ptclear.c:48-49 | a cleared port starts again balanced: no messages, all places free |
| PortSafety.StepKeeps | xinu-spring2020/system/ptsend.c:20-59 | every event of the protocol, except the resumption of a process whose accession number has come round, keeps: messages balance receivers and places balance senders at the current accession number; it follows no null pointer, and panics only for want of a node |
| PortSafety.StepKeepsIff | xinu-spring2020/system/ptrecv.c:26-45 | ... and that exception never keeps it |
| PortSafety.RunKeepsIff | xinu-spring2020/system/ptrecv.c:26-45 | the invariant holds all along a run exactly if no accession number comes round in it |
| PortSafety.RunOrderly | xinu-spring2020/system/ptclear.c:19-49 | in every run, also if one comes round: ports not in use are idle and empty, the stages of clearing match the states, and the messages of a port are those sent and not yet gone |
| PortSafety.PortBounds | xinu-spring2020/system/ptrecv.c:26-45 | in every state reached without an accession number coming round, the number of messages of a port is the receiver count plus the released receivers, the remaining places are the sender count plus the released senders, and no port holds more than it admits |
| PortRuns.NodesPartitioned | xinu-spring2020/system/ptinit.c:35-43 | in every reachable state each message node is in exactly one place, the free list or the list of one port |
| PortRuns.NodesSuffice | xinu-spring2020/system/ptsend.c:36-38 | if the sizes of the ports in use add up to at most the number of nodes and no accession number comes round, ptsend never panics |
| PortRuns.Fifo | xinu-spring2020/system/ptsend.c:40-55 | in every reachable state the messages of a port are those sent and not yet gone, in the order they were sent |
| PortRuns.DeliversOldest | xinu-spring2020/system/ptrecv.c:37-47 | the message a receiver gets is the oldest one sent to the port and not yet gone |
| PortDelivery.SendOutcome | xinu-spring2020/system/ptsend.c:20-56 | ptsend puts its own message at the end of the port exactly if it returns OK; if it blocks the message is kept for later, and nothing else is put in; it panics only for want of a node |
| PortDelivery.ResumeOutcome | xinu-spring2020/system/ptsend.c:30-56 | a blocked sender that goes on puts in the message it came with, or fails and changes no port |
| PortDelivery.StepDelivers | xinu-spring2020/system/ptrecv.c:37-47 | an event adds to the messages ever sent to a port the argument of the ptsend that completes in it, and to those gone the message that a ptrecv returns or a clearing disposes of, and nothing otherwise |
| PortDelivery.Delivered | xinu-spring2020/system/ptsend.c:36-56 | in every run the arguments of the ptsend calls of a port that returned OK, in the order of their completion, are the messages that its ptrecv calls returned or its clearings disposed of, in order, followed by those in the port |
| PortEffects.CreateGives | xinu-spring2020/system/ptcreate.c:18-45 | ptcreate succeeds exactly if the size is not negative and some port is free; it takes the first free one going round, empty and with as many places as asked for, leaves the others alone, and starts the next scan behind it |
| PortEffects.ClearLeaves | xinu-spring2020/system/ptclear.c:19-49 | a reset or deletion with nothing in between frees all messages, releases everyone who waited, and leaves the port in use again with all its places, or free and the next to be given out |
| PortRuns.StaleTouchesNothingIff | xinu-spring2020/system/ptsend.c:30-35 | a process that entered before a clearing returns SYSERR and changes no port, node or other process, exactly unless the port is in use and was cleared a multiple of 2^32 times since |
| PortRuns.ClearedNeverTouches | xinu-spring2020/system/ptclear.c:19-48 | the same for every process waiting when a reset or deletion began, whatever happens before it runs again |
| PortRuns.CreateSizeIff | xinu-spring2020/system/ptcreate.c:35-39 | the size field of a new port is its size exactly if the size is below 65536 |
| PortRuns.NeverAboveMax | xinu-spring2020/system/ptcreate.c:39 | if all ports are created with sizes that fit and no accession number comes round, no port ever holds more than ptmaxcnt messages |
| PortRuns.ExceedsIff | xinu-spring2020/system/ptcreate.c:39 | some run with ports of a given size has more than ptmaxcnt messages in a port exactly if the size is 65536 or more |
| PortWraps.LeftBehind | xinu-spring2020/system/ptreset.c:18-24 | a process blocked at a port can be left behind by any number of resets, and its accession number has come round exactly if the number is a multiple of 2^32 |
| PortWraps.ReceiverCrashesIff | xinu-spring2020/system/ptrecv.c:29-38 | a receiver left behind by that many resets follows the null head of the empty message list exactly then |
| PortWraps.SenderOverfills | xinu-spring2020/system/ptsend.c:29-38 | a sender left behind by a multiple of 2^32 resets puts a second message into a port of size one, or panics with as many nodes as the sizes add up to |
| PortSems.WaitIsSemWait | xinu-spring2020/system/wait.c:29-34 | what the kernel call does to a semaphore is what the port protocol says, and the caller blocks exactly if the count goes below zero |
| PortSems.SignalIsSemSignal | xinu-spring2020/system/signal.c:26-28 | the same for signal, with the process it wakes |
| PortSems.DeleteIsSemDelete | xinu-spring2020/system/semdelete.c:27-33 | the same for semdelete, which wakes everyone waiting |
| PortSems.ResetIsNew | xinu-spring2020/system/semreset.c:26-32 | the same for semreset |
| PortSems.KillIsSemKill | xinu-spring2020/system/kill.c:72-78 | the same for the death of a waiting process |
| PortTables.PortTable.constructor | xinu-spring2020/system/ptinit.c:13-45 | all ports are free and all nodes are linked into the free list |
| PortTables.PortTable.SendTail | xinu-spring2020/system/ptsend.c:36-56 | the node leaves the free list for the end of the port's list, as the protocol says; panic exactly when there is none |
| PortTables.PortTable.RecvTail | xinu-spring2020/system/ptrecv.c:35-47 | the first node goes back to the free list and its message is returned |
| PortTables.PortTable.PtSend | xinu-spring2020/system/ptsend.c:20-56 | the tables do what the send event of the protocol does: on OK the message of the caller is the last one of the port, behind those that were there, and a caller that blocks keeps its message |
| PortTables.PortTable.PtRecv | xinu-spring2020/system/ptrecv.c:19-33 | the same for receiving |
| PortTables.PortTable.AfterWait | xinu-spring2020/system/ptsend.c:30-58 | a process that runs again tests state and accession number and finishes or fails as the protocol says |
| PortTables.PortTable.Dispose | xinu-spring2020/system/ptclear.c:26-32 | the walk hands every message of the port to the disposal function, in order |
| PortTables.PortTable.ClearStart | xinu-spring2020/system/ptreset.c:18-24 | the port goes into limbo with a new accession number; an error for a port not in use |
| PortTables.PortTable.ClearSenders | xinu-spring2020/system/ptclear.c:34-45 | the whole message list is spliced onto the free list and the sender semaphore reset or deleted |
| PortTables.PortTable.ClearReceivers | xinu-spring2020/system/ptclear.c:43-46 | the receiver semaphore is reset or deleted |
| PortTables.PortTable.ClearEnd | xinu-spring2020/system/ptdelete.c:23-24 | the port is in use again or free, and a deletion makes it the next to try |
| PortTables.PortTable.NextFree | xinu-spring2020/system/ptcreate.c:24-43 | the loop finds the first free entry from ptnextid on |
| PortTables.PortTable.PtCreate | xinu-spring2020/system/ptcreate.c:18-45 | a new port as in the protocol, or an error for a negative size or a full table |
| KernelSafety.DispatchKeeps | xinu-spring2020/system/resched.c:40-43 | after a dispatch the current process is one of the most urgent and every process is where its state says |
| KernelSafety.ReschedKeeps | xinu-spring2020/system/resched.c:11-49 | rescheduling establishes that no ready process is more urgent than the current one |
| KernelSafety.WaitKeeps | xinu-spring2020/system/wait.c:17-38 | wait keeps states, queues, counts and priority order |
| KernelSafety.SignalNKeeps | xinu-spring2020/system/signaln.c:17-36 | so does signaln, under deferral |
| KernelSafety.SemDeleteKeeps | xinu-spring2020/system/semdelete.c:16-35 | so does semdelete, which leaves the entry free and its queue empty |
| KernelSafety.SemResetKeeps | xinu-spring2020/system/semreset.c:19-34 | so does semreset, which leaves the queue empty and the count as given |
| KernelSafety.TickKeeps | xinu-spring2020/system/clkhandler.c:26-44 | so does the clock interrupt, with all wakeups and the end of a time slice |
| KernelSafety.KillKeeps | xinu-spring2020/system/kill.c:62-83 | so does kill, in every state of the process |
| KernelSafety.StepKeeps | xinu-spring2020/system/resched.c:11-80 | every kernel call in which the null process does not block and nobody blocks under an outstanding deferral keeps: each process on exactly the queue its state says, counts that match their queues, the ready list in priority order, nothing more urgent than the current process unless a rescheduling is put off |
| KernelSafety.StepKeepsIff | xinu-spring2020/system/resched.c:18-44 | a call keeps that exactly if the null process does not block in it and nobody blocks in it under an outstanding deferral |
| KernelSafety.RunKeeps | xinu-spring2020/system/resched.c:11-80 | every run of such calls does |
| KernelSafety.RunKeepsIff | xinu-spring2020/system/resched.c:18-44 | it holds all along a run exactly if each call of the run is such a call where it is made |
| KernelSafety.BootInv | xinu-spring2020/system/initialize.c:189-234 | the state after sysinit satisfies it |
| KernelRuns.MostUrgentRuns | xinu-spring2020/system/resched.c:27-43 | in every reachable state without an outstanding deferral, however often rescheduling was deferred before, no ready process has a higher priority than the current one, and the null process runs only if nothing else is ready |
| KernelRuns.StateTellsQueue | xinu-spring2020/system/ready.c:23-25 | in every reachable state a process is ready iff on the ready list, waiting iff on the queue of its semaphore, asleep or in timed receive iff on the sleep queue, and on each at most once |
| KernelRuns.CountTellsWaiters | xinu-spring2020/system/wait.c:29-33 | in every reachable state a semaphore in use has max(0, -count) processes queued |
| KernelRuns.SignalNWakesFirst | xinu-spring2020/system/signaln.c:28-34 | signaln adds the count and wakes exactly the first min(count, waiters) processes of the queue |
| KernelRuns.SemResetWakesAll | xinu-spring2020/system/semreset.c:26-32 | semreset wakes exactly the waiting processes |
| KernelRuns.SemDeleteWakesAll | xinu-spring2020/system/semdelete.c:27-33 | so does semdelete |
| KernelEffects.KillFrees | xinu-spring2020/system/kill.c:62-83 | whatever state a process is in, kill leaves it free and on no queue, even if it kills itself under an outstanding deferral; every other process keeps its priority, and its state up to being ready or running |
| KernelEffects.SuspendStops | xinu-spring2020/system/suspend.c:30-37 | a ready or running process is suspended and on no queue; the others keep their states, up to being ready or running |
| KernelEffects.ResumeStarts | xinu-spring2020/system/resume.c:22-28 | a suspended process becomes ready or running, and no other process, semaphore or sleeper changes |
| KernelEffects.DeliverStarts | xinu-spring2020/system/send.c.orig:33-38 | a process that waits for a message, with a time limit or not, becomes ready or running when one arrives |
| KernelEffects.CreateSuspended | xinu-spring2020/system/create.c:42-49 | a free entry becomes a suspended process of the given priority, on no queue, and nothing else changes |
| KernelEffects.ReceiveBlocks | xinu-spring2020/system/receive.c:17-20 | without a message the caller waits for one, on no queue, and another process runs |
| KernelEffects.SleepBlocks | xinu-spring2020/system/recvtime.c:25-31 | the caller is on the sleep queue with its whole delay, the other sleepers keep theirs, and another process runs |
| KernelEffects.WaitBlocks | xinu-spring2020/system/wait.c:29-35 | without a count left the caller goes behind all who wait, and another process runs |
| KernelEffects.WaitTakes | xinu-spring2020/system/wait.c:29-38 | with a count left wait takes one and the caller goes on |
| KernelEffects.SemCreateGives | xinu-spring2020/system/semcreate.c:20-49 | semcreate succeeds exactly if the count is not negative and some entry is free; the first free one going round becomes a semaphore with that count and nobody waiting, and nothing else changes but where the next search starts |
| KernelEffects.StepElsewhere | xinu-spring2020/system/signaln.c:28-34 | a call changes count and queue of no semaphore but the one that it is about |
| KernelLifecycle.StepFollows | xinu-spring2020/include/process.h:11-18 | the state diagram of a process: in every call every process keeps its priority and stays in its state, up to being ready or running, or goes along one of the arrows, each of which belongs to certain calls about that process |
| KernelSleep.InsertDDue | xinu-spring2020/system/insertd.c:22-39 | insertion gives the new sleeper its delay and changes no other sleeper's total delay |
| KernelSleep.RemoveDDue | xinu-spring2020/system/unsleep.c:37-44 | removal changes no other sleeper's total delay |
| KernelSleep.TickDue | xinu-spring2020/system/clkhandler.c:28-36 | a tick takes one off every sleeper's total delay if the first key is not zero, and wakes exactly those with nothing left |
| KernelSleep.TickCountsIff | xinu-spring2020/system/clkhandler.c:33-35 | the tick counts for a sleeper with some delay left if and only if the first key is not zero |
| KernelSleep.StepDue | xinu-spring2020/system/clkhandler.c:26-36 | a sleeper with `n` ticks left has `n - 1` after a tick, if the first key is not zero, and `n` after any other call, and wakes exactly when a tick leaves none |
| KernelSleep.WokenOnTime | xinu-spring2020/system/wakeup.c:13-18 | over any run of calls a sleeper sleeps through fewer than its `n` ticks that count, and is ready or running at the `n`-th tick exactly if no tick of the run met a zero first key |
| KernelSleep.ZeroWaitLosesTick | xinu-spring2020/system/recvtime.c:25-31 | recvtime(0) makes the next tick one that does not count for anyone asleep before |
| KernelSleep.LostAtMost | xinu-spring2020/system/clkhandler.c:28-36 | each recvtime(0) costs at most one tick |
| KernelSleep.SleepIsExact | xinu-spring2020/system/sleep.c:32-50 | sleepms(n) sleeps through fewer than `n` ticks, and is ready or running at the `n`-th exactly if no tick in between met a zero first key |
| KernelSleep.EverySleepIsExact | xinu-spring2020/system/sleep.c:32-50 | in every state that the kernel reaches without recvtime(0), and without it meanwhile, a sleep of `n` ticks takes exactly `n` |
| KernelRobin.JoinBehind | xinu-spring2020/system/insert.c:22-34 | a process that enters the ready list with a priority not above another's goes behind it |
| KernelRobin.ReschedServes | xinu-spring2020/system/resched.c:27-43 | rescheduling moves each of the most urgent ready processes up by one place, or runs it |
| KernelRobin.StepServes | xinu-spring2020/system/resched.c:27-43 | so does every kernel call that makes the processor change hands, and no call moves such a process back |
| KernelRobin.GivesUpChanges | xinu-spring2020/system/clkhandler.c:41-44 | yield, blocking calls and the end of a time slice do make the processor change hands |
| KernelRobin.RoundRobin | xinu-spring2020/system/insert.c:22-34 | a ready process with `n` processes ahead of it runs by the time the processor is given up `n + 1` times, if nothing of higher priority becomes active |
| KernelSlices.SliceAfter | xinu-spring2020/system/clkhandler.c:38-44 | a tick takes one from the time slice of a process that stays current and starts a new slice after the last; no other call takes anything, a process that becomes current has a whole slice, less the tick that cut it short; and while rescheduling is deferred only the end of the deferral changes the current process |
| KernelSlices.CutShort | xinu-spring2020/system/clkhandler.c:33-44 | a process that loses the processor in a tick that its slice would have outlasted has that tick to count when it runs again, and nobody else has |
| KernelSlices.DeferNothing | xinu-spring2020/system/resched.c:61-75 | a deferral in which nothing happens changes nothing: attempts before it are forgotten, and it makes up for none |
| KernelSlices.DeferralHolds | xinu-spring2020/system/resched.c:18-21 | under an outstanding deferral the current process stays, over any run of calls without the end of one |
| KernelRobin.SliceBounds | xinu-spring2020/system/resched.c:40-43 | in every state of a run that starts with at most a whole slice, as the first one does, the current process has at least one tick and at most a whole slice left |
| KernelRobin.SliceEnds | xinu-spring2020/system/clkhandler.c:41-44 | if some process that nothing active is above is ready, the current one loses the processor by the time its remaining ticks have come |
| KernelRobin.RoundRobinTicks | xinu-spring2020/system/clkhandler.c:41-44 | a ready process with `n` processes ahead of it runs by the time the rest of the current slice and `n` whole slices have passed, if nothing of higher priority becomes active |
| QueueTables.LinkInOK | xinu-spring2020/system/insert.c:29-34 | the link assignments insert a process at a given place of a doubly linked queue |
| QueueTables.LinkPastOK | xinu-spring2020/system/getitem.c:53-56 | the two assignments of getitem remove a process from the middle of its queue |
| QueueTables.TableInsert | xinu-spring2020/system/insert.c:29-34 | an insertion leaves all other queues of the table as they are |
| QueueTables.TableDrop | xinu-spring2020/system/getitem.c:53-56 | so does a removal, after which the process is on no queue |
| QueueTables.QueueTable.NewQueue | xinu-spring2020/system/newqueue.c:9-30 | a new empty queue, or an error when the table is full |
| QueueTables.QueueTable.Enqueue | xinu-spring2020/system/queue.c:11-30 | the process goes to the end of the queue |
| QueueTables.QueueTable.Dequeue | xinu-spring2020/system/queue.c:36-52 | the first process is taken off, or EMPTY |
| QueueTables.QueueTable.Getfirst | xinu-spring2020/system/getitem.c:9-22 | the first process is taken off, or EMPTY |
| QueueTables.QueueTable.Getlast | xinu-spring2020/system/getitem.c:28-41 | the last process is taken off, or EMPTY |
| QueueTables.QueueTable.Getitem | xinu-spring2020/system/getitem.c:47-58 | the process is taken out of its queue, from any place |
| QueueTables.QueueTable.Insert | xinu-spring2020/system/insert.c:9-36 | the process goes behind all entries of at least its key, and no other key changes |
| QueueTables.QueueTable.InsertD | xinu-spring2020/system/insertd.c:9-42 | the queue of delays becomes the one that the recursive specification of a delta list says |
| KernelCalls.Machine.constructor | xinu-spring2020/system/initialize.c:189-234 | the tables after sysinit hold the first kernel state |
| KernelCalls.Machine.Resched | xinu-spring2020/system/resched.c:11-49 | the tables take the step of the specification: deferred, kept or switched |
| KernelCalls.Machine.DeferStart | xinu-spring2020/system/resched.c:61-66 | a deferral is counted, and the first one forgets earlier attempts |
| KernelCalls.Machine.DeferStop | xinu-spring2020/system/resched.c:68-75 | the last deferral to end reschedules if one was attempted; an error without one |
| KernelCalls.Machine.Ready | xinu-spring2020/system/ready.c:11-29 | the tables take the step of the specification |
| KernelCalls.Machine.Wait | xinu-spring2020/system/wait.c:9-39 | the same for wait, with an error for a bad or free semaphore, also where the call breaks the invariant |
| KernelCalls.Machine.Signal | xinu-spring2020/system/signal.c:9-31 | the same for signal |
| KernelCalls.Machine.SignalN | xinu-spring2020/system/signaln.c:9-37 | the same for signaln and its loop |
| KernelCalls.Machine.SearchSem | xinu-spring2020/system/semcreate.c:40-49 | the loop of newsem finds the first free entry from nextsem on, going round the table once |
| KernelCalls.Machine.SemCreate | xinu-spring2020/system/semcreate.c:11-28 | the tables take the step of the specification |
| KernelCalls.Machine.SemDelete | xinu-spring2020/system/semdelete.c:9-36 | the same for semdelete and its loop |
| KernelCalls.Machine.SemReset | xinu-spring2020/system/semreset.c:9-35 | the same for semreset and its loop |
| KernelCalls.Machine.SleepMs | xinu-spring2020/system/sleep.c:26-53 | the same for sleepms, also where the call breaks the invariant |
| KernelCalls.Machine.RecvTime | xinu-spring2020/system/recvtime.c:17-32 | the same for recvtime when no message is waiting, also where the call breaks the invariant |
| KernelCalls.Machine.Receive | xinu-spring2020/system/receive.c:15-20 | the same for receive when no message is waiting, also where the call breaks the invariant |
| KernelCalls.Machine.Wakeup | xinu-spring2020/system/wakeup.c:9-20 | the loop makes exactly the sleepers with no delay left ready, under deferral |
| KernelCalls.Machine.Clkhandler | xinu-spring2020/system/clkhandler.c:26-44 | the tables take the step of a tick: a process that stays current has one tick less, or a new slice after the last |
| KernelCalls.Machine.Unsleep | xinu-spring2020/system/unsleep.c:11-47 | the next sleeper takes over the delay and the process leaves the queue; an error for a process that does not sleep |
| KernelCalls.Machine.Suspend | xinu-spring2020/system/suspend.c:9-41 | the same for suspend, which returns the priority, also where the call breaks the invariant |
| KernelCalls.Machine.Resume | xinu-spring2020/system/resume.c:9-31 | the same for resume, which returns the priority |
| KernelCalls.Machine.Kill | xinu-spring2020/system/kill.c:62-83 | the tables take the kill step in every state of the process, which is free and on no queue afterwards, also where the call breaks the invariant |
| KernelCalls.Machine.Yield | xinu-spring2020/system/yield.c:9-17 | the same for yield |
| FreeLists.CanonicalUnique | xinu-spring2020/system/freemem.c.save:51-67 | an ascending list of aligned blocks, no two of them adjacent, is determined by the addresses it covers |
| FreeLists.GetMemGood | xinu-spring2020/system/getmem.c.save:22-49 | getmem succeeds exactly if some free block is large enough, takes the lowest address of the first such block, and removes exactly the addresses of the block it returns |
| FreeLists.GetStkGood | xinu-spring2020/system/getstk.c:23-51 | getstk succeeds exactly if some free block is large enough and takes the top of the last one |
| FreeLists.GetMemTakesIffSane | xinu-spring2020/include/memory.h:9 | a granted block has room for the request, and its first address has left the free list, exactly if rounding the size up does not wrap to zero |
| FreeLists.FreeMemGood | xinu-spring2020/system/freemem.c.save:25-69 | releasing a block none of which is free always succeeds, adds exactly its addresses and keeps the list canonical |
| FreeLists.FreeMemAcceptsIff | xinu-spring2020/system/freemem.c.save:43-47 | a release is accepted exactly if it overlaps no free block, so that a block cannot be released twice |
| FreeLists.FreeMemUndoesGetMem | xinu-spring2020/system/freemem.c.save:53-67 | freemem exactly undoes getmem |
| FreeLists.FreeStkUndoesGetStk | xinu-spring2020/include/memory.h:16-19 | freestk, given the pointer that getstk returned, exactly undoes getstk |
| FreeLists.StepSound | xinu-spring2020/system/freemem.c.save:43-67 | every call keeps outstanding blocks disjoint from each other and from the free list, and free plus outstanding bytes constant |
| FreeLists.RunSound | xinu-spring2020/system/getmem.c.save:26-49 | so does every run |
| FreeLists.ReleaseSucceeds | xinu-spring2020/system/freemem.c.save:43-47 | releasing an outstanding block never fails |
| FreeLists.AllFreedRestores | xinu-spring2020/system/freemem.c.save:51-67 | once everything is released, in whatever order, the free list is exactly the one at the start |
| FreeLists.RestoredIffCanonical | xinu-spring2020/system/freemem.c.save:51-67 | every run that releases all it was given restores the list at the start, exactly if no two blocks of that list are adjacent |
| HeapBoot.BootCovers | xinu-spring2020/system/meminit.c:92-140 | the list that meminit makes covers exactly the usable memory from the rounded end of the image on, and all of a region that ends at the image |
| HeapBoot.BootBehindImageIff | xinu-spring2020/system/meminit.c:105-109 | no part of the image is on it exactly if no usable region ends where the image does |
| HeapBoot.BootOrderedIff | xinu-spring2020/system/meminit.c:113-136 | it is a list of nonempty blocks in order behind the image exactly if no usable region ends there or less than 8 bytes behind |
| HeapBoot.BootCanonicalIff | xinu-spring2020/system/meminit.c:113-136 | and then no two of its blocks are adjacent exactly if no two usable regions touch |
| HeapBoot.BootRestoredIff | xinu-spring2020/system/meminit.c:92-145 | every run on the heap of meminit restores its list once all is released, exactly if no two usable regions touch |
| HeapBoot.MaxHeapBounds | xinu-spring2020/system/meminit.c:101-103 | maxheap is the start of the heap or the end of some usable region, and no usable region ends behind it |
| HeapLinks.Allocator.constructor | xinu-spring2020/system/meminit.c:67-145 | the loop links the blocks of the usable regions one after the other, counts their bytes and finds the top of the heap |
| HeapLinks.Allocator.GetMem | xinu-spring2020/system/getmem.c.save:16-49 | the linked list in memory goes through exactly the change of the specification, and memlist.mlength stays the number of free bytes |
| HeapLinks.Allocator.GetStk | xinu-spring2020/system/getstk.c:17-51 | the same for getstk, with the address of the highest word returned |
| HeapLinks.Allocator.FreeMem | xinu-spring2020/system/freemem.c.save:18-69 | the same for freemem, with its errors |
| HeapLinks.Allocator.FindFirst | xinu-spring2020/system/getmem.c.save:24-47 | the search stops at the first block that fits |
| HeapLinks.Allocator.ScanAll | xinu-spring2020/system/getstk.c:25-37 | the scan remembers the last block that fits |
| HeapLinks.Allocator.PutBack | xinu-spring2020/system/freemem.c.save:49-67 | the two coalescing steps merge the block with both neighbours where adjacent |
| HeapTracking.AllocKeeps | xinu-spring2020/system/meminsert.c:24-46 | a tracked allocation keeps: outstanding blocks are exactly the listed ones and the nodes |
| HeapTracking.DisposeKeeps | xinu-spring2020/system/memextract.c:22-33 | so does a release of a listed block, which always succeeds |
| HeapTracking.ReleaseKeepsIff | xinu-spring2020/system/freemem.c:30-70 | a release of a listed block keeps that exactly if its size rounds to that of the block |
| HeapTracking.ListsExact | xinu-spring2020/system/getmem.c:30-71 | after any run a block is on a list exactly if it is outstanding and not a node; blocks and nodes are disjoint and not free; each allocation made one node |
| HeapTracking.ListsOwned | xinu-spring2020/system/getmem.c:43-44 | after any run the list of each process holds exactly the blocks that this process was given and has not given back, the latest first |
| HeapTracking.NodesLeak | xinu-spring2020/system/memextract.c:33 | once all blocks are freed, 16 bytes for each allocation ever made are still missing |
| HeapTracking.Tracker.GetMem | xinu-spring2020/system/getmem.c:20-79 | the recursion through meminsert is at most two calls deep, the flag is clear afterwards, and the list of the process that asks is a new entry, with the address returned and the rounded length, in front of what it was, and no other list has changed; with room for the block and not for its node, and only then, the code writes through SYSERR |
| HeapTracking.Tracker.MemInsert | xinu-spring2020/system/meminsert.c:24-46 | a node for the block is linked in behind the header node |
| HeapTracking.Tracker.MemExtract | xinu-spring2020/system/memextract.c:22-33 | the loop finds the first node of the block and unlinks it, or follows the null link at the end exactly if there is none |
| HeapTracking.Tracker.FreeMem | xinu-spring2020/system/freemem.c:21-78 | for any block and size: an error outside the heap, a null pointer followed exactly if the block is not on the list of the process, and otherwise the entry is gone and the heap is what freemem makes of that size; the books are in order exactly if the size rounds to that of the block |
| HeapTracking.Tracker.GetAndFree | xinu-spring2020/system/freemem.c:21-78 | what a process was given it can give back: the release neither fails nor crashes, and the lists are those before |
| QuickSort.Exchange | xinu-spring2020/lib/qsort.c:116-134 | two elements change places and nothing else |
| QuickSort.ThreeWayExchange | xinu-spring2020/lib/qsort.c:140-162 | three elements change places in a cycle and nothing else |
| QuickSort.SameSide | xinu-spring2020/lib/qsort.c:55-75 | comparing with any element of the equal region is as good as comparing with the pivot |
| QuickSort.GrowEqualDown | xinu-spring2020/lib/qsort.c:55-59 | the branch keeps the regions less, unknown, equal, unknown, greater |
| QuickSort.GrowEqualUp | xinu-spring2020/lib/qsort.c:70-74 | so does this one |
| QuickSort.ExchangeSides | xinu-spring2020/lib/qsort.c:83-86 | so does this one |
| QuickSort.ShiftEqualUp | xinu-spring2020/lib/qsort.c:77-82 | so does the three-way exchange upwards |
| QuickSort.ShiftEqualDown | xinu-spring2020/lib/qsort.c:107-108 | so does the three-way exchange downwards |
| QuickSort.Partition | xinu-spring2020/lib/qsort.c:47-108 | one pass ends with smaller elements, equal ones and greater ones in this order, a rearrangement of what was there |
| QuickSort.TurnDone | xinu-spring2020/lib/qsort.c:92-105 | after one side is sorted only the other is left to do, within the same range |
| QuickSort.Qs1 | xinu-spring2020/lib/qsort.c:29-110 | the range is sorted and rearranged, everything outside it unchanged, and calls nest at most log2 of its length deep |
| QuickSort.Sort | xinu-spring2020/lib/qsort.c:13-23 | the array is sorted, a permutation of what it was |
| Checksum.Ipcksum | xinu-spring2020/net/ip.c:295-315 | the loop and the single fold, over words loaded little-endian and swapped |
| Checksum.StampHeader | xinu-spring2020/net/ip.c:259-263 | the field is cleared, the checksum computed and stored in network order; over the result ipcksum is 0, and all bytes but 10 and 11 are those of before |
| Checksum.Loopback | xinu-spring2020/net/ip.c:21 | ip_in accepts what ip_out sends |
| Checksum.StoredIsAccepted | xinu-spring2020/net/ip.c:21 | over every header with the stored checksum the fold of the sum is 0, also when the carry carries once more |
| Checksum.AcceptedIff | xinu-spring2020/net/ip.c:21 | ip_in accepts exactly the headers whose words add up to 0 modulo 65535 or whose carry carries again to 65536 |
| Checksum.OnesSumRest | xinu-spring2020/net/ip.c:304-314 | the end-around-carry sum of RFC 791 is the plain sum modulo 65535, and 0 only for zeros |
| Checksum.EqualsRfcIff | xinu-spring2020/net/ip.c:304-314 | the value is the checksum of RFC 791 exactly if the words are not all zero and the fold does not carry again |
| Checksum.StandardReceiver | xinu-spring2020/net/ip.c:259-263 | a standard receiver accepts the stamped header exactly in that case |
| Checksum.SecondCarryExists | xinu-spring2020/net/ip.c:304-309 | a header for which the fold carries again and the value differs |
| Calendar.Fields | xinu-spring2020/system/ascdate.c:43-113 | the fields are in range and convert back to the time; the weekdays of the day and of 1 January are right |
| Calendar.YearLoop | xinu-spring2020/system/ascdate.c:45-51 | the loop stops in the year of the time |
| Calendar.MonthLoop | xinu-spring2020/system/ascdate.c:60-68 | the loop stops in the month of the time |
| Calendar.SecondsInjective | xinu-spring2020/system/ascdate.c:43-86 | no other valid fields stand for the same time |
| Calendar.LeapYears | xinu-spring2020/system/ascdate.c:94-101 | the closed form for leap years counts the extra days of all earlier years |
| Calendar.Sundays | xinu-spring2020/system/ascdate.c:131-158 | marss is the second Sunday of March and novfs the first Sunday of November |
| Calendar.Daylight | xinu-spring2020/system/ascdate.c:122-195 | automatic daylight saving is on exactly from two o'clock on the one Sunday to one o'clock standard time on the other |
| Calendar.MoveAhead | xinu-spring2020/system/ascdate.c:197-219 | the branches of the shift by one hour |
| Calendar.AheadIff | xinu-spring2020/system/ascdate.c:205-217 | the shifted fields are the moment one hour later except in the last hour of 28 February of a leap year and of 31 December |
| Calendar.AutomaticIsRight | xinu-spring2020/system/ascdate.c:160-219 | with automatic daylight saving they always are |
| Calendar.WeekdayIff | xinu-spring2020/system/ascdate.c:107-113 | the weekday shown is that of the shifted date exactly before the last hour of the day |
| Calendar.Ascdate | xinu-spring2020/system/ascdate.c:16-219 | the three parts together, for every 32-bit time |
| Calendar.GregorianIff | xinu-spring2020/include/date.h:42 | the fields are the Gregorian date exactly before 29 February 2100 |

## Left out

- LfsFile.LocalFiles.Lflputc: requires that an append does not take the size to 2^32.
- LfsFile.LocalFiles.Lflwrite: requires the same of all its bytes.
- LfsFile.LocalFiles.DoAll: requires the same of all its operations.
- LfsFile.LocalFiles.NewEntry: the name of the file and the limit of LF_NUM_DIR_ENT entries are not modelled.
- LfsFile.LocalFiles.Lfsopen: name and mode matching, and the table search for a free control block, are not modelled; the file and the control block are arguments.
- LfsFile.LocalFiles.constructor: takes a disk that already has free lists and a directory; lfscreate does not write the identification fields that lfscheck tests, so no claim is made about opening a file on a disk fresh from lfscreate.
- LfsCreate.Lfscreate: what writes behind the disk do is not modelled, nor is a failing write of the directory.
- HeapLinks.Allocator.FreeMem: requires that neither the rounded size nor the end of the released range wraps past 2^32.
- HeapLinks.Allocator.constructor: the memory map lists its usable regions in ascending order, aligned to 8 bytes and below 4 GB, and none ends where the image does or less than 8 bytes behind; BootBehindImageIff says what the code does otherwise. The panics for a missing map are not modelled.
- HeapBoot.BootCovers: the same memory maps, with a region ending at the image allowed.
- Heap: block headers, list nodes and allocated memory are separate maps, so a write of a process into memory that it does not own is outside the model.
- HeapTracking.Tracker.GetMem: requires a size that rounding does not wrap, and a header node of its own for each process, which create does not allocate; what follows a write through SYSERR is not modelled.
- HeapTracking.Tracker.FreeMem: requires that neither the rounded size nor the end of the range wraps past 2^32; what follows a null pointer is not modelled.
- PortSafety.StepKeeps: not for the resumption of a process whose accession number has come round (`Unwrapped`), of which StepKeepsIff shows that it breaks the invariant.
- PortSafety.PortBounds: requires that no accession number comes round in the run (`NoWrap`); SenderOverfills shows that it fails otherwise.
- PortRuns.NodesSuffice: requires `NoWrap` for the run and `Unwrapped` for its last event; SenderOverfills shows the panic otherwise.
- PortRuns.NeverAboveMax: requires `NoWrap`; SenderOverfills shows two messages in a port of size one otherwise.
- PortTables.PortTable.AfterWait: states the memory exactly for every state, but that the invariant of the ports is kept only where no accession number has come round.
- PortTables.PortTable.Dispose: the disposal function does not change the list it is called for.
- PortTables.PortTable.PtCreate: semaphores are to be had; a failing semcreate is not modelled.
- KernelRobin.RoundRobin: no deferral is outstanding during the run, and nobody suspends or kills the process.
- KernelRobin.RoundRobinTicks: the same.
- KernelRobin.SliceEnds: the same.
- KernelSleep.EverySleepIsExact: no process calls recvtime(0); SleepIsExact and ZeroWaitLosesTick say what that does.
- KernelSafety.WaitKeeps: the null process does not block, and nobody blocks under an outstanding deferral (`Allowed`); StepKeepsIff shows that the invariant breaks otherwise.
- KernelSafety.KillKeeps: a process does not kill itself under an outstanding deferral (`Allowed`); StepKeepsIff shows that the invariant breaks otherwise.
- KernelLifecycle.StepFollows: the same two conditions as for KernelSafety.WaitKeeps.
- KernelEffects.SuspendStops: the same.
- KernelEffects.ReceiveBlocks: the same.
- KernelEffects.SleepBlocks: the same.
- KernelEffects.WaitBlocks: the same.
- KernelSafety.StepKeeps: the same two conditions, with the same reason.
- KernelSafety.RunKeeps: the same for each call of the run (`Path`); RunKeepsIff shows that it breaks otherwise.
- KernelCalls.Machine.Wait: when the null process blocks, somebody else is ready (`Relieved`); the code would go on with the process number that `dequeue` returns for an empty queue.
- KernelCalls.Machine.SleepMs: the same.
- KernelCalls.Machine.RecvTime: the same.
- KernelCalls.Machine.Receive: the same.
- QuickSort.Exchange: an element is one unit, so the byte loop of qsexc is one assignment.
- QuickSort.ThreeWayExchange: the same for qstexc.
- QuickSort.Qs1: an element is one unit, so the byte loops of qsexc and qstexc are single exchanges.
- Calendar.Ascdate: it computes the fields; the formatting of the string and the time zone names are not modelled.
- Concurrency of file operations: they are taken as sequential. The code has mutexes, but changes sizes and the mark of the directory without holding the one of the directory.
- Ports and kernel: no process is killed between its release by a semaphore and its resumption.
- chprio changes a priority without moving the process in its queue, so it is not a call of the model.
- kill: messages to the parent, closing of devices, freeing of the stack and the end of the system with the last process.
- send, mysend and their callbacks: the arrival of a message appears only as what system/send.c.orig does to the state of the receiver.
- receive and recvtime with a message waiting, which do not involve the scheduler.
- The count of seconds in clkhandler, context switching, interrupts and devices.
- Disk errors and the other file systems, network protocols, terminals, shell commands, buffer pools and generated code.
