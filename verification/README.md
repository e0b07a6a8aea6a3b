# Models and proofs for the sage040 system

This project models the parts of the system whose correctness is hardest to see
from the code, and proves what the code and its comments promise of them. Every
file is one module.

- **Journal.** `JournalFormat` has the bytes of an ext3 (JBD) journal block,
  `JournalLog` the circular log as a sequence of records and what a replay of it
  means. `BootRom` is the reader in the boot ROM, which builds a map of newer block
  copies instead of replaying; `KernelReplay` is the kernel's recovery, which
  rewrites the disk it reads; the two are proved to agree with the replay and with
  each other. `JournalCommit` is the kernel's commit: every list of writes it
  issues, cut off anywhere, recovers to all of a transaction or none of it, over
  whole runs of transactions. `RecoveryCut` cuts recovery itself off, and
  `JournalLife` puts runs, power cuts and cut-off recoveries one after another.
  `RevokedTail` is a disk on which an uncommitted revocation counts.
- **Event descriptors.** `Epoll` has sets of watched files nested in one another,
  with runs of every call that changes them and the scan that reports what is
  ready. `Inotify` is the byte queue of an inotify instance against a bounded queue
  of events. `TimerFd` is a timer that counts only when looked at, against one
  stepped at every tick.
- **Sessions.** `Sessions` is the transition system of tasks and controlling
  terminals, over every run of the calls that make and break the pairing.
- **Line editor.** `LineEditor` interprets every byte the editor writes on a model
  of a terminal.
- **Hashing.** `Blake2s` is the streaming hash against its one-shot definition, with
  the tables and byte orders that definition rests on; `Blake2sVector` works out the
  published digest of "abc" from it.
- **Files.** `CoreDump` writes a core file byte by byte and reads it as a debugger
  would. `PwDb` rewrites the account file and looks accounts up in the result.
- **Programs.** `Sandpile` proves that the order of topplings does not matter and
  that they end, `WaTor` that turns are fair and the counters true, `Sorts` that the
  seven sorts sort, and `Mandel` that refining a picture gives the picture.

`Basics` and `BigEndian` have what several of them use.

A class stands for state the source changes in place; each of its methods is
proved against a function or relation on values, and the lemmas are about those:
what a record is byte by byte, what a call answers by number, and what holds over
every run of calls.
Arguments that are themselves functions (a poll answer, a page of memory, the sum of
two words, a random stream) stand for what the code calls out to: the results hold
for all of them.

Where the code and its own words differ, the model follows the code. Four such
places are results here, each with its exact condition: a revocation in the
uncommitted tail of a log suppresses committed copies (`TailRevocationsOf`,
`OldBlockRead`); an inotify queue can lose an event with no overflow marker to show
it (`LossShows`, `SilentLoss`); a line of 128 characters or more does not survive a
trip through the history (`BrowsingAndBack`, `BrowsingLoses`); and a new account
added to a file without a newline at its end is not found afterwards
(`SetHashExactly`), and the account or comment on its last line may change
(`OthersExactly`, `LastAccount`, `CommentsExactly`, `BobIsHarmed`).

## Model

| member | source | states |
|---|---|---|
| Sandpile.ToppleCommutes | apps/sandpile.c:60-75 | two full squares may topple in either order: both orders are legal and leave the same pile |
| Sandpile.LeastAction | apps/sandpile.c:12-14 | no legal order topples a square more often than an order that ends stable does |
| Sandpile.OrderDoesNotMatter | apps/sandpile.c:12-14 | the abelian property: for every grid and pile, any two legal orders that end stable leave the same pile and topple every square equally often |
| Sandpile.ScatterIsTopple | apps/sandpile.c:66-73 | taking four grains and adding one to each side, those off the edge being lost, is the toppling of the definition |
| Sandpile.ToppleLowersPotential | apps/sandpile.c:60-75 | every toppling lowers the sum of count times (x+1)(gw-x) by two or more |
| Sandpile.RunsAreBounded | apps/sandpile.c:60-75 | so every legal order of topplings is no longer than half the potential of the pile it starts from: settling always ends |
| Sandpile.AnyOrderSettles | apps/sandpile.c:12-14 | any legal order that ends stable leaves the settled pile, after as many topplings as the settling order has |
| Sandpile.ExtraGrain | apps/sandpile.c:178-182 | a grain more keeps every legal order legal and adds just itself to the result |
| Sandpile.SettleThenDrop | apps/sandpile.c:178-182 | dropping a grain on a settled pile and settling again comes to settling the unsettled pile with the grain on it, topplings included |
| Sandpile.StackFits | apps/sandpile.c:132-134 | distinct squares of the grid never overflow a stack of gw times gh entries |
| Sandpile.Toppler.constructor | apps/sandpile.c:129-143 | an empty grid with a stack of its size, nothing dropped |
| Sandpile.Toppler.Reset | apps/sandpile.c:77-82 | an empty grid, an empty stack and no counts |
| Sandpile.Toppler.Add | apps/sandpile.c:47-58 | a grain lands or is lost over the edge; the stack still holds exactly the full squares, each once, apart from the one being toppled, and fits |
| Sandpile.Toppler.Settle | apps/sandpile.c:60-75 | ends, with an empty stack, the one stable pile every other order reaches, every square toppled as often as in every other order, and no grain unaccounted for |
| Sandpile.Toppler.Pop | apps/sandpile.c:62-63 | the square taken off the stack is full, and the rest of the stack is every other full square |
| Sandpile.Toppler.ToppleWhileFull | apps/sandpile.c:64-73 | the inner loop: a legal run of topplings of one square until it is no longer full |
| Sandpile.Toppler.ToppleOnce | apps/sandpile.c:67-72 | one toppling of the definition, counted once, grains kept or lost |
| Sandpile.Toppler.Drop | apps/sandpile.c:178-182 | one grain in the middle, settled; grains dropped stay equal to grains on the grid plus grains lost |
| Sandpile.Toppler.DropMany | apps/sandpile.c:178-182 | n grains dropped one at a time leave the pile, and take the topplings, of n dropped at once |
| JournalFormat.TagsRoundTrip | kernel/fs/ext2.c:2857-2888 | the tags written into a descriptor block read back as the tags of the transaction |
| JournalFormat.FlagsRoundTrip | kernel/fs/ext2.c:2864-2881 | the three flags of a tag are each read back from the flag word |
| JournalFormat.RevokeRoundTrip | bootrom/bootrom.c:474-488 | the block numbers of a revoke block read back, however many fit |
| JournalFormat.HeaderBytes | bootrom/bootrom.c:429-432 | a block header, byte by byte: the magic, three zeros and the kind, then the sequence number |
| JournalFormat.TagBytes | bootrom/bootrom.c:443-448 | a tag, byte by byte: the block number in four, the flags in bits 0, 1 and 3 of the eighth |
| JournalFormat.RevokedBytes | bootrom/bootrom.c:476-487 | the block numbers of a revoke block are the words from byte 16 up to the count it gives or its end, whichever is less |
| JournalLog.BeforeInWindow | bootrom/bootrom.c:400-410 | comparing sequence numbers by signed 32-bit difference orders them rightly within half the number circle |
| JournalLog.ScanIsShort | bootrom/bootrom.c:420-495 | on any disk contents at all a pass ends: it looks at no more than one record more than the log has blocks, and at fewer than half the sequence numbers |
| JournalLog.ScanNumbered | bootrom/bootrom.c:429-431 | every record a pass accepts carries the sequence number counted from the commits before it |
| JournalLog.UntilIsCommitted | bootrom/bootrom.c:420-495 | stopping at the end sequence visits exactly the records up to the last commit |
| JournalLog.ReplayReads | bootrom/bootrom.c:329-352 | after replaying copies in order a block holds its newest copy, or what it held if it has none |
| JournalLog.TailRevocations | bootrom/bootrom.c:474-488 | the table as built gives the same surviving copies as committed revocations alone if and only if no revocation of the uncommitted tail hits a copy that would survive |
| JournalLog.TailRevocationsOf | bootrom/bootrom.c:474-488 | block by block: the copy found is the one committed revocations alone leave if and only if there is none or no revoke record after the last commit names the block |
| JournalLog.ReadsBack | bootrom/bootrom.c:420-495 | log parsing undoes log writing: descriptors, revoke records and commits laid out from any position on, each at the sum of the blocks before it and round the end of the log, and followed by a block that does not match, are read back record for record |
| JournalLog.CommitsAreEndings | bootrom/bootrom.c:470-473 | the commits counted are the commit blocks laid out |
| JournalLog.DecodeBytes | bootrom/bootrom.c:429-474 | a log block is a record exactly when its first bytes, kind 1, 2 or 5 and number say so |
| JournalLog.AfterIsRound | bootrom/bootrom.c:395-398 | positions go round: n blocks on from one of the log is its first block plus the remainder by its length |
| JournalLog.RevokedIs | bootrom/bootrom.c:400-410 | a revocation counts for a copy of the same block if and only if the copy is of its own transaction or an earlier one |
| BootRom.OverlayHoldsNewest | bootrom/bootrom.c:449-462 | looking a block up in the map gives its newest unrevoked copy |
| BootRom.FinishIs | bootrom/bootrom.c:420-495 | both passes, from any position, visit the accepted records in order and return the start sequence plus their commits, or give up when a table is full |
| BootRom.OverlayEqualsReplay | bootrom/bootrom.c:522-554 | overlay equals replay: a block read through the map is what the disk would hold had every committed, unrevoked copy been written home in log order with escaped magic restored, if the copy of that block can be read |
| BootRom.PassesFind | bootrom/bootrom.c:540-549 | the two passes put together: pass 0 ends at the number after the last commit with every revocation of the log, pass 1 maps the committed copies, and either gives up exactly when its table is too small |
| BootRom.OverlaidReads | bootrom/bootrom.c:522-554 | what a read is to give, by cases: home when there is no usable journal, an empty one, or too much in it; else what replay leaves |
| BootRom.CommittedOnlyReads | bootrom/bootrom.c:474-488 | a block reads as if committed revocations alone counted, unless it has a committed copy and the uncommitted tail revokes it |
| BootRom.Rom.IsRevoked | bootrom/bootrom.c:400-410 | true exactly when the table revokes the block at that sequence number or later |
| BootRom.Rom.Find | bootrom/bootrom.c:334-335 | the slot of a block in the map, or none |
| BootRom.Rom.Note | bootrom/bootrom.c:450-462 | a newer copy takes the place of an older one; a full map is reported |
| BootRom.Rom.ReadTags | bootrom/bootrom.c:434-467 | the tags of a descriptor block, each mapped to the log block after the last, stopping at the last tag |
| BootRom.Rom.GatherRevokes | bootrom/bootrom.c:474-488 | every block number of a revoke block, stamped; a full table is reported |
| BootRom.Rom.Visit | bootrom/bootrom.c:425-493 | one record: what it is, where the next one is and what the tables become |
| BootRom.Rom.JPass | bootrom/bootrom.c:420-495 | a pass is the scan of the specification and ends on any disk contents |
| BootRom.Rom.ReadSuper | bootrom/bootrom.c:500-517 | the journal superblock accepted exactly when magic, type, block size, features and layout are |
| BootRom.Rom.JournalOverlay | bootrom/bootrom.c:522-554 | the map left is the overlay of the specification, or empty |
| BootRom.Rom.BootRead | bootrom/bootrom.c:329-352 | filling the map and then reading any block gives what the case distinction of OverlaidReads says |
| BootRom.Rom.ReadBlock | bootrom/bootrom.c:329-352 | reads through the map with the escaped magic restored, else the home block |
| BootRom.PassesReadItems | bootrom/bootrom.c:420-495 | of any descriptors, revoke records and commits laid out at positions counted from where they stand, pass 0 ends after the last commit with all they revoke and pass 1 maps their committed copies |
| BootRom.SuperBytes | bootrom/bootrom.c:500-517 | byte by byte, which superblocks are accepted |
| RevokedTail.OldBlockRead | bootrom/bootrom.c:474-488 | a disk, superblock and all, on which the ROM reads the old block though the committed transactions alone leave the new one |
| KernelReplay.SameRevoked | kernel/fs/ext2.c:2934-2978 | a table that keeps only the latest revocation of each block revokes exactly what the full list does, within the sequence window |
| KernelReplay.ScanPass | kernel/fs/ext2.c:2999-3076 | the first pass returns the sequence after the last commit and gathers every revocation |
| KernelReplay.ReplayPass | kernel/fs/ext2.c:2999-3076 | the second pass writes home the unrevoked copies of the committed transactions, in order, although it rewrites the disk it is reading |
| KernelReplay.PassesReplay | kernel/fs/ext2.c:3079-3106 | recovery leaves the disk of the replay specification |
| KernelReplay.RomMatchesKernel | bootrom/bootrom.c:522-554 | every block of the volume outside the journal reads through the boot ROM overlay as the kernel replay will leave it |
| KernelReplay.Volume.RevokeAdd | kernel/fs/ext2.c:2934-2963 | the latest revocation of a block is kept, none is added past the table |
| KernelReplay.Volume.IsRevoked | kernel/fs/ext2.c:2966-2978 | true exactly when the table revokes the block at that sequence number or later |
| KernelReplay.Volume.ReplayCopy | kernel/fs/ext2.c:3033-3047 | an unrevoked copy on the volume is read from the log and written home, escaped magic restored; an unreadable one fails |
| KernelReplay.Volume.ReadTags | kernel/fs/ext2.c:3018-3052 | the tags of a descriptor block, copied home when replaying |
| KernelReplay.Volume.GatherRevokes | kernel/fs/ext2.c:3060-3067 | every block number of a revoke block goes into the table |
| KernelReplay.Volume.Visit | kernel/fs/ext2.c:3005-3074 | one record of a pass |
| KernelReplay.Volume.JournalPass | kernel/fs/ext2.c:2999-3076 | a pass over the log, ending on any disk contents |
| KernelReplay.Volume.JournalRecover | kernel/fs/ext2.c:3079-3106 | both passes and the mark that the log is empty |
| KernelReplay.Volume.SetSuper | kernel/fs/ext2.c:2712-2722 | start and sequence are written into the journal superblock and nothing else changes |
| KernelReplay.MarkedReads | kernel/fs/ext2.c:2712-2722 | a mark is the word at 24 and the word at 28 of the superblock, and nothing else of it changes |
| JournalCommit.EscapeRoundTrip | kernel/fs/ext2.c:2748-2756 | a block that begins with the journal magic is logged without it and restored on replay; any other is logged as it is |
| JournalCommit.ReadsDescriptor | kernel/fs/ext2.c:2857-2889 | the descriptor written is read as this transaction, its copies in the blocks after it |
| JournalCommit.ReplayIsFlush | kernel/fs/ext2.c:2855-2911 | replaying a logged transaction does to the volume what writing its blocks home does |
| JournalCommit.Recovers | kernel/fs/ext2.c:2855-2911 | recovery after the commit block was written yields the volume with the transaction |
| JournalCommit.CutWhileFilling | kernel/fs/ext2.c:2857-2889 | the power may fail while the log is being filled: recovery changes nothing |
| JournalCommit.CutBeforeCommit | kernel/fs/ext2.c:2890-2897 | or after the log is marked and before the commit block: recovery changes nothing |
| JournalCommit.CutAfterCommit | kernel/fs/ext2.c:2897-2911 | or at any write home: recovery completes the transaction |
| JournalCommit.CommitCompletes | kernel/fs/ext2.c:2904-2915 | a commit that runs to its end leaves the transaction on the volume and the journal as it was |
| JournalCommit.PowerCut | kernel/fs/ext2.c:2822-2920 | atomicity: cut after any number of the writes of a commit, recovery succeeds and leaves all of the transaction or none of it, all exactly when its commit block was written |
| JournalCommit.RunIsCrashSafe | kernel/fs/ext2.c:2822-2920 | over whole runs of commits cut after any write, recovery leaves exactly the transactions whose commit block was written, and the journal ready for the next |
| JournalCommit.BlankLogIsIdle | kernel/fs/ext2.c:2855-2859 | an empty log is one a run can start from |
| JournalCommit.Journal.LogBlock | kernel/fs/ext2.c:2748-2756 | the copy put in the log and the flag that says whether it was escaped |
| JournalCommit.Journal.SetSuper | kernel/fs/ext2.c:2712-2722 | one write, of the superblock with start and sequence changed |
| JournalCommit.Journal.LogCopies | kernel/fs/ext2.c:2857-2888 | the copies go to the log blocks in order and the descriptor holds their tags |
| JournalCommit.Journal.Checkpoint | kernel/fs/ext2.c:2904-2911 | the blocks of the transaction are written home in order |
| JournalCommit.Journal.LogTransaction | kernel/fs/ext2.c:2855-2901 | copies, descriptor, mark and commit block, in that order |
| JournalCommit.Journal.JournalCommit | kernel/fs/ext2.c:2855-2920 | the writes issued are, in order, those the crash theorem is about |
| JournalCommit.LoggedBytes | kernel/fs/ext2.c:2748-2756 | byte by byte: a block beginning with the magic is logged with four zeros there and marked, no other is, and a marked one gets the magic back |
| RecoveryCut.RecoveryResumes | kernel/fs/ext2.c:3079-3106 | recovery cut off after any of its own writes and run again ends as undisturbed recovery does |
| RecoveryCut.RecoveryRetries | kernel/fs/ext2.c:3079-3106 | and so however often it is cut off |
| JournalLife.SessionIsSafe | kernel/fs/ext2.c:2822-2920 | a run of commits cut anywhere, then recoveries cut anywhere until one gets through: the volume after the committed transactions, and an idle journal |
| JournalLife.LifeIsCrashSafe | kernel/fs/ext2.c:2822-2920 | any number of such runs one after another: the volume is in the end what the transactions with a commit block make of it, in order, and nothing else |
| Epoll.NotFoundNotConnected | kernel/events.c:832-851 | the search for a loop, cut off at a fixed depth, never says no when there is a path |
| Epoll.FoundExactly | kernel/events.c:832-851 | it says yes exactly when the target is within its depth or something is nested deeper than it looks |
| Epoll.AcyclicWithLink | kernel/events.c:897-908 | a link from a to b closes no loop when b does not lead to a |
| Epoll.ControlKeepsValid | kernel/events.c:853-933 | add, modify and delete keep the nesting free of loops, every watched file open and no descriptor watched twice |
| Epoll.ClosedKeepsValid | kernel/events.c:784-790 | so does the last close of a file, epoll or not |
| Epoll.CreatedKeepsValid | kernel/events.c:810-829 | so does creating a set |
| Epoll.PassKeepsValid | kernel/events.c:944-976 | so does a wait |
| Epoll.NestingNeverLoops | kernel/events.c:832-933 | in every state of every run of create, add, modify, delete, wait, open and close no set leads back to itself and no set watches a closed file |
| Epoll.ScanPicks | kernel/events.c:944-976 | a wait reports the ready items in cyclic order from the rotor, as many as there is room for |
| Epoll.ScanLooks | kernel/events.c:944-976 | it uses up the edges of exactly the items it looked at, those with fewer ready ones before them than there is room for |
| Epoll.ScanReports | kernel/events.c:963-967 | each report has its own item's bits and data |
| Epoll.PassedOverComesNearer | kernel/events.c:970-973 | a ready item a wait passed over is nearer the rotor after it |
| Epoll.NoStarvation | kernel/events.c:944-976 | in every run, whatever else happens in between, an item that every wait on its open set finds ready is reported by one of the first, within as many waits as it is places from the rotor and so within the size of the table |
| Epoll.LevelStaysReady | kernel/events.c:742-764 | a level-triggered item stays ready, and as it was, for as long as its file has what it asked for |
| Epoll.OnlyAWaitMovesTheRotor | kernel/events.c:970-973 | nothing but a wait on a set, or its close, moves its rotor |
| Epoll.Events.EpReaches | kernel/events.c:832-851 | the recursive search is the bounded search of the specification |
| Epoll.Events.EpollCreate | kernel/events.c:810-829 | refuses flags it does not know; else the first free set, cleared and with its file open, or an error with nothing changed |
| Epoll.Events.EpollCtl | kernel/events.c:853-933 | every error and every change of epoll_ctl, in its order |
| Epoll.Events.EpWaitPass | kernel/events.c:944-976 | one pass of a wait, looking at the items by EpCheck: reports, rotor and items |
| Epoll.Events.FileGone | kernel/events.c:1482-1496 | no set in use watches the file any more and nothing else changes |
| Epoll.Events.FilePut | kernel/vfs.c:921-946 | the last reference to a file goes: nothing watches it and its set is cleared |
| Epoll.GotIs | kernel/events.c:744-749 | which bits an item has, one by one: asked for, or an error or hang-up; normal data and room follow the plain ones |
| Epoll.CheckIs | kernel/events.c:742-764 | an item tells all it has or nothing: nothing exactly when it is disabled, has nothing, or is edge-triggered with no bit it had not before |
| Epoll.OneShotRests | kernel/events.c:958-970 | a one-shot item that was reported has nothing for any later look |
| Epoll.EdgeTells | kernel/events.c:757-762 | an edge-triggered item looked at twice tells something the second time if and only if it has a bit it had not the first |
| Epoll.SlotStep | kernel/events.c:784-976 | whatever call is made, a slot of a set stays as it is, is given up, is looked at by a wait on the set, or is armed by adding or modifying |
| Epoll.OneShotOnce | kernel/events.c:958-970 | in every run, between two waits that report a one-shot slot an epoll_ctl arms it again |
| Epoll.EdgeOnlyWhenNew | kernel/events.c:757-762 | in every run, an edge-triggered item not armed since a wait looked at it is reported by the next look only if it has a bit it had not then |
| Epoll.ControlIsMap | kernel/events.c:890-933 | a set is a map from what it watches: add and modify set one entry, enabled and with nothing seen, delete drops it, no other changes, and a refused call changes nothing |
| Epoll.ControlAnswers | kernel/events.c:853-933 | which error, or none, epoll_ctl answers, by what is open, watched, free and nested |
| Epoll.Events.EpCheck | kernel/events.c:742-764 | the code that looks at an item returns what the item has to tell and, when it consumes, leaves it as looked at |
| Epoll.CreatedIs | kernel/events.c:810-829 | a new set is the first one free, empty, and its file leads to it; without a descriptor nothing is in use that was not |
| Epoll.CreatedFull | kernel/events.c:818-820 | with all sixteen sets in use the answer is ENFILE and nothing changes |
| Epoll.ClosedIsMap | kernel/events.c:1482-1496 | the last close of a file takes it out of every set in use and leaves what else they watch; its own set is free |
| Inotify.RecordRoundTrip | kernel/events.c:1103-1109 | a record reads back as the event it was written from, wherever in the queue it stands |
| Inotify.RecordsAreSound | kernel/events.c:1103-1109 | so for all events |
| Inotify.RoundedIs | kernel/events.c:1073-1073 | the room a name takes is its length with the terminator, rounded up to 16 |
| Inotify.ParseUndoesJoined | kernel/events.c:1296-1304 | records back to back take apart into the very events they were made from |
| Inotify.FittingIsLongest | kernel/events.c:1296-1304 | a read takes the longest run of whole records that fits |
| Inotify.QueuedKeeps | kernel/events.c:1070-1112 | queueing keeps the queue within its page, with at most one overflow marker and no event twice running |
| Inotify.TakeKeeps | kernel/events.c:1286-1317 | so does reading |
| Inotify.FirstInFirstOut | kernel/events.c:1070-1112 | over every run of events and reads, what was added is what was read and what is still unread, in order |
| Inotify.LossShows | kernel/events.c:1086-1099 | after any run, a lost event leaves no marker to be read if and only if a marker was read since the queue was last empty |
| Inotify.OverflowedMeans | kernel/events.c:1086-1099 | after any run the flag is set exactly when a marker was queued since the queue was last empty, and that marker was read exactly when it is set with none unread |
| Inotify.SilentLoss | kernel/events.c:1312-1315 | with names no longer than a directory entry, a run to a queue that loses an event without any marker |
| Inotify.Instance.constructor | kernel/events.c:1046-1054 | an empty queue |
| Inotify.Instance.IsNewest | kernel/events.c:1078-1084 | true exactly when the event equals the newest unread one |
| Inotify.Instance.IqPut | kernel/events.c:1070-1112 | the bytes are those of the bounded queue after the event was merged, added or lost |
| Inotify.Instance.InRead | kernel/events.c:1286-1317 | returns bytes, no more than asked for, that take apart into the longest prefix of events that fits, and leaves the rest; refuses a buffer too small for one |
| Inotify.RecordBytes | kernel/events.c:1103-1109 | a record, byte by byte: four words, the name, and zeros up to a multiple of 16 |
| Inotify.QueuedIs | kernel/events.c:1077-1111 | an event is dropped as the same again only when it equals the newest unread one in every part; else it is added if it fits, and if it does not a marker is, unless there was one |
| Inotify.BothThere | kernel/events.c:1077-1111 | two events that differ in anything, a name alone, are both queued when there is room |
| Inotify.QueuedAreAdmitted | kernel/events.c:1070-1112 | over every run, what is queued is, markers aside, exactly the events that were not the newest unread one again and found room, in order |
| Inotify.ReadAreAdmitted | kernel/events.c:1070-1317 | so exactly these are read, or still to be read, in that order |
| TimerFd.CaughtIsTicked | kernel/events.c:242-263 | counting the expirations at once counts what a counter stepped at every tick would |
| TimerFd.CaughtIsAhead | kernel/events.c:255-259 | afterwards an armed timer is due later than now, and by no more than its interval |
| TimerFd.LookCatchesUp | kernel/events.c:242-263 | on the 32-bit clock a look that is not half the clock late is right, whatever the clock has wrapped to |
| TimerFd.LookIsRightExactlyWhen | kernel/events.c:250-253 | a look is right if and only if it comes in time: a periodic timer left for half the clock loses expirations |
| TimerFd.LazyIsEager | kernel/events.c:242-284 | over any sequence of looks and reads, each in time, a timer shows what the ticked counter does at every one and ends as it does |
| TimerFd.LookedAtIsAhead | kernel/events.c:242-263 | after a look the next expiry is in the future, on the 32-bit clock too |
| TimerFd.Descriptor.CatchUp | kernel/events.c:242-263 | the timer stands for the counter with everything due by now counted |
| TimerFd.Descriptor.Read | kernel/events.c:264-284 | refuses a short buffer and else looks whenever it wakes until something has fired: what it returns is what the last look saw, every look before it seeing nothing |
| LineEditor.PlayText | kernel/edit.c:154-161 | text overwrites the row from the cursor on and moves the cursor past it |
| LineEditor.Repaints | kernel/edit.c:208-215 | text, then blanks over what the line lost, then backspaces leave a row that shows the new line and blanks |
| LineEditor.DrawsInsert | kernel/edit.c:217-238 | what an insertion writes takes every terminal that shows the line to one that shows it with the character in it |
| LineEditor.DrawsCutBack | kernel/edit.c:241-264 | so a deletion before the cursor |
| LineEditor.DrawsCutAhead | kernel/edit.c:267-281 | so a deletion after it |
| LineEditor.DrawsReplaced | kernel/edit.c:316-335 | so a line put in place of another, longer or shorter |
| LineEditor.DrawsAhead | kernel/edit.c:182-198 | moving right writes what is there and changes nothing but the cursor |
| LineEditor.DrawsAfresh | kernel/edit.c:750-768 | clearing the screen puts the line back |
| LineEditor.WordsAreUnique | kernel/edit.c:286-313 | where a word starts and ends is determined by the line |
| LineEditor.BrowsingAndBack | kernel/edit.c:787-805 | up n times and down n times leaves what of the typed line the history has room for, with the cursor at its end: the line itself if and only if it is shorter than 128 |
| LineEditor.BrowsingLoses | kernel/edit.c:787-805 | up and down once over a line of 128 characters leaves 127 |
| LineEditor.EditedOnce | kernel/edit.c:704-785 | what a key may do to a line is one thing |
| LineEditor.Output.Flush | kernel/edit.c:122-128 | everything put so far is sent, in order |
| LineEditor.Output.PutC | kernel/edit.c:130-136 | a byte is added behind all others; a full buffer is sent first |
| LineEditor.Output.Repeated | kernel/edit.c:145-150 | n times a byte, in order |
| LineEditor.Output.Write | kernel/edit.c:154-161 | the bytes, in order, however many buffers they take |
| LineEditor.Editor.constructor | kernel/edit.c:647-657 | an empty line, and the prompt put |
| LineEditor.Editor.MoveTo | kernel/edit.c:182-198 | the cursor clamped to the line, and bytes that move it there on every terminal |
| LineEditor.Editor.Insert | kernel/edit.c:217-238 | the character at the cursor if there is room, and bytes that show it |
| LineEditor.Editor.DeleteBack | kernel/edit.c:241-264 | the characters before the cursor gone, as many as there are, and bytes that show it |
| LineEditor.Editor.DeleteFwd | kernel/edit.c:267-281 | the characters after the cursor gone, as many as there are, and bytes that show it |
| LineEditor.Editor.WordStart | kernel/edit.c:286-297 | the start of the word before the cursor |
| LineEditor.Editor.WordEnd | kernel/edit.c:302-313 | the end of the word after it |
| LineEditor.Editor.SetLine | kernel/edit.c:316-335 | as much of the new line as there is room for, cursor at its end, and bytes that show it |
| LineEditor.Editor.Redraw | kernel/edit.c:750-768 | the line unchanged, and bytes that show it on a cleared screen |
| LineEditor.Reader.EditKey | kernel/edit.c:704-848 | what each editing key does to the line |
| LineEditor.Reader.HistoryKey | kernel/edit.c:787-805 | back and forward through the history as the function of one key says, drawn |
| LineEditor.Reader.Keys | kernel/edit.c:681-850 | after any keys the line, the place in the history and the way it ended are what the keys come to one by one, and the terminal shows the prompt, the line and blanks, with the cursor in its place |
| LineEditor.ReadLine | kernel/edit.c:639-857 | from a prompt on a blank row, the keys give the line they come to; the bytes sent show the prompt and that line, and after enter a newline follows them |
| LineEditor.WholeSides | kernel/edit.c:704-736 | with the cursor between two texts: ctrl-A and Home, ctrl-E and End move it to either end, ctrl-U and ctrl-K drop one text |
| LineEditor.OneOver | kernel/edit.c:714-723 | left and right carry one character over the cursor and undo each other |
| LineEditor.OneDropped | kernel/edit.c:770-785 | backspace and DEL drop the character before the cursor, ctrl-D and Delete the one after |
| LineEditor.AtTheEnds | kernel/edit.c:714-785 | at either end of the line these keys do nothing |
| LineEditor.OneTyped | kernel/edit.c:832-848 | a printing character goes before the cursor if it and the terminator fit, and a backspace takes it out again |
| LineEditor.WordBack | kernel/edit.c:734-741 | ctrl-W drops, and Meta-b passes, the spaces before the cursor and the word before them |
| LineEditor.WordAhead | kernel/edit.c:742-749 | Meta-d drops, and Meta-f passes, the spaces after the cursor and the word after them |
| LineEditor.NoOtherKey | kernel/edit.c:831-848 | any other key that is not for the history leaves the line |
| LineEditor.TypingText | kernel/edit.c:681-850 | any text that fits, typed at the end of a line, and enter: that line with the text behind it |
| Sessions.SoundIsPaired | kernel/ctty.c:7-11 | a session has at most one controlling terminal, and a task with a terminal is in the session it controls |
| Sessions.DetachedKeeps | kernel/ctty.c:58-74 | after a detachment nobody has the terminal, it has no session, and every other pairing stands |
| Sessions.AttachedKeeps | kernel/ctty.c:76-81 | a leader without a terminal may take one nobody has |
| Sessions.AskedKeeps | kernel/ctty.c:100-118 | TIOCSCTTY keeps the pairing, root stealing a terminal included |
| Sessions.ExitedKeeps | kernel/ctty.c:177-185 | so does exit |
| Sessions.SessionStartedKeeps | kernel/syslinux.c:804-822 | so does setsid: its number is that of no session there is |
| Sessions.StepKeeps | kernel/ctty.c:58-192 | so does every call |
| Sessions.SessionsAndTerminalsPair | kernel/ctty.c:58-192 | over every run of open, TIOCSCTTY, TIOCNOTTY, hangup, exit, setsid, setpgid, fork and reaping the pairing holds |
| Sessions.ExitReleases | kernel/ctty.c:31-33 | when a leader exits nobody is left with its terminal |
| Sessions.Kernel.DetachSession | kernel/ctty.c:58-74 | every task of the session loses the terminal and the terminal its session |
| Sessions.Kernel.Attach | kernel/ctty.c:76-81 | the terminal gets the session and group of the task, the task the terminal |
| Sessions.Kernel.CttyOpened | kernel/ctty.c:83-93 | a user leader without a terminal gets a free one unless it says O_NOCTTY |
| Sessions.Kernel.SetControlling | kernel/ctty.c:100-118 | TIOCSCTTY with its refusals |
| Sessions.Kernel.GiveUp | kernel/ctty.c:120-129 | TIOCNOTTY, for the session or for the one task |
| Sessions.Kernel.MaySetPgrp | kernel/ctty.c:143-160 | allowed exactly to kernel tasks, on a terminal without a session, or for a live group of the session by a task that has the terminal |
| Sessions.Kernel.CttyHangup | kernel/ctty.c:162-175 | the session loses the terminal |
| Sessions.Kernel.TaskExit | kernel/ctty.c:177-185 | a leader releases its terminal, any task its own |
| Sessions.Kernel.SetSid | kernel/syslinux.c:804-822 | refused to group leaders and to pids in use as a group; else a session without a terminal |
| Sessions.Kernel.SetPgid | kernel/syscall.c:1796-1835 | the group changed, or the error the rules give |
| Sessions.Kernel.Fork | kernel/task.c:480-485 | the child inherits session, group and terminal |
| Sessions.Kernel.CttyDevice | kernel/ctty.c:194-199 | the test that the terminal still controls the session never fails |
| Sessions.TerminalStep | kernel/ctty.c:58-192 | a terminal gets a session only by a leader without a terminal that opens or asks for it, free or, as root with argument 1, held; it loses it to that, to the leader giving it up or exiting, or to a hang-up; no other call changes it |
| Sessions.TaskStep | kernel/ctty.c:58-192 | a task gets a terminal only so, loses it only when its terminal is taken or freed, or by its own TIOCNOTTY, exit or setsid, and changes session by setsid only |
| Sessions.ForkStep | kernel/task.c:480-485 | a child has its parent's session, group and terminal and a number nobody has; a kernel task leads a session of its own |
| Sessions.ReapStep | kernel/task.c:1169-1185 | reaping drops the one task and no other |
| Sessions.LosesItsSession | kernel/ctty.c:58-192 | in every run, a terminal whose session ends was given up by the leader, hung up, left by the leader's exit, or taken by a root leader with argument 1 |
| Sessions.HeldSince | kernel/ctty.c:58-192 | in every run, the session of a terminal is the number of the task that took it last, and it has not been lost since |
| Sessions.TerminalAnswers | kernel/ctty.c:100-129 | TIOCSCTTY answers 0 to a task that has the terminal or takes it and else EPERM, TIOCNOTTY 0 to one that has it and else ENOTTY |
| Sessions.GroupAnswers | kernel/syscall.c:1796-1835 | what setsid and setpgid answer, and that setpgid changes one group or nothing |
| Sessions.NoSuchTask | kernel/syscall.c:1796-1835 | setpgid of a number no task has is refused with ESRCH |
| WaTor.FairTurn | apps/wator.c:269-281 | a creature whose turn comes has had none in this chronon |
| WaTor.FairMove | apps/wator.c:193-215 | a mover and its newborn are marked, so neither has another turn; one moved onto is counted as eaten |
| WaTor.FairInTheEnd | apps/wator.c:261-282 | when every cell was visited each creature of the start had exactly one turn or was eaten before it, and nobody else had any |
| WaTor.CountMoved | apps/wator.c:193-215 | what a move does to each population |
| WaTor.NeighboursMutual | apps/wator.c:160-170 | the ocean is a torus: neighbours are mutual round every edge, on one-cell-wide oceans too |
| WaTor.StockCounts | apps/wator.c:126-156 | kinds dealt out along a shuffled order come to the numbers asked for |
| WaTor.Ocean.Stock | apps/wator.c:126-156 | exactly the asked-for share of each, counted |
| WaTor.Ocean.Pick | apps/wator.c:173-185 | a neighbour holding what was asked for, or none exactly when there is none |
| WaTor.Ocean.MoveTo | apps/wator.c:193-215 | the cells after a move, and counters still equal to the populations |
| WaTor.Ocean.FishTurn | apps/wator.c:217-228 | a fish moves to an empty neighbour if there is one, leaving a newborn when old enough |
| WaTor.Ocean.SharkTurn | apps/wator.c:230-252 | a shark eats a neighbouring fish if there is one, else starves when it is time, else moves like a fish |
| WaTor.Ocean.Shuffle | apps/wator.c:266-269 | the order stays every cell exactly once |
| WaTor.Ocean.Step | apps/wator.c:261-282 | one chronon: fair turns, counters equal to the populations, who has moved too young to breed, who has not a chronon older and hungrier, and no shark at its limit |
| WaTor.WanderSettles | apps/wator.c:193-228 | a turn of one that wanders leaves it a chronon older where it was, or moved and too young to breed |
| WaTor.HuntSettles | apps/wator.c:230-252 | and of a shark, never hungry enough to starve |
| WaTor.HuntCounts | apps/wator.c:230-252 | a shark's turn takes a fish if and only if one is beside it, and the shark if and only if none is and its hunger, one more, reaches the limit |
| WaTor.MoveKeeps | apps/wator.c:193-215 | a mover is the same where it goes but for the age of one that breeds, and leaves water or, when old enough, a newborn of its kind |
| WaTor.NeighboursAre | apps/wator.c:160-170 | north and south are a row away and east and west a column, modulo the size of the ocean |
| Blake2s.RotatedRotates | kernel/crypto.c:13-16 | the two shifts are a rotation, by the amounts used |
| Blake2s.CounterCarries | kernel/crypto.c:123-127 | adding to the low word and carrying when it wraps counts modulo 2 to the 64 |
| Blake2s.ChainPrefix | kernel/crypto.c:114-146 | the chaining value after whole blocks does not depend on what follows them |
| Blake2s.CompressesFull | kernel/crypto.c:121-130 | a full block is compressed with the count of the bytes up to its end |
| Blake2s.LastBlock | kernel/crypto.c:148-160 | the block held back is the last block of the definition |
| Blake2s.G | kernel/crypto.c:56-66 | the eight assignments, in place and in order, are the mixing function of section 3.1 of RFC 7693 on four words |
| Blake2s.Round | kernel/crypto.c:85-96 | the columns, then the diagonals, by the schedule |
| Blake2s.Compress | kernel/crypto.c:68-100 | in place on a work vector, the compression function of section 3.2 of RFC 7693 |
| Blake2s.State.constructor | kernel/crypto.c:102-112 | the initial state: parameter block for an unkeyed 32-byte digest |
| Blake2s.State.Update | kernel/crypto.c:114-146 | the state is that of the message so far with the piece behind it; a full buffer is compressed only once more follows |
| Blake2s.State.Finish | kernel/crypto.c:148-164 | the digest of everything fed |
| Blake2s.HashPieces | kernel/crypto.c:102-164 | however a message is cut into pieces the digest is that of the whole, whatever sum and turn of words compression is made of |
| Blake2s.Blake2s256 | kernel/crypto.c:102-164 | with the sum and the rotation of 32-bit words it is the hash of section 3.3 of RFC 7693 |
| Blake2s.WordIs | kernel/crypto.c:23-26 | the bytes of a message word, lowest first, are the four of the message |
| Blake2s.WordOfBytes | kernel/crypto.c:23-34 | a word written out is read back |
| Blake2s.BytesOfWord | kernel/crypto.c:23-34 | and four bytes read are written back |
| Blake2s.OutputReads | kernel/crypto.c:160-163 | the words of a digest are those written out |
| Blake2s.IvIsRoot | kernel/crypto.c:38-41 | word i of the initial value is the first 32 bits of the fraction of the square root of the ith prime, by squaring |
| Blake2s.SigmaPermutes | kernel/crypto.c:43-54 | each round takes every word of the message once: a second table says where, and undoes the first both ways |
| Blake2s.StartIs | kernel/crypto.c:76-84 | the work vector: chaining value, then initial value, with the counter and the mark of the last block put in |
| Blake2s.ColumnsAre | kernel/crypto.c:88-91 | the four columns are mixed each on its own |
| Blake2s.DiagonalsAre | kernel/crypto.c:92-95 | and then the four diagonals |
| Blake2s.BlocksInOrder | kernel/crypto.c:114-164 | below four gigabytes, blocks are compressed in order, each with the count of the bytes up to its end, the last filled up with zeros and marked |
| Blake2sVector.HashOfAbc | kernel/cryptotest.c:41-46 | the hash of "abc" is the digest in appendix B of RFC 7693 |
| Sorts.SortUnique | apps/sorts.c:131-288 | a sequence has one sorted form: any two results that meet the contract of the sorts are equal, so all seven agree |
| Sorts.PlacedKept | apps/sorts.c:131-252 | rearranging a range whose elements lie rightly against everything outside it keeps them so |
| Sorts.SwapShuffles | apps/sorts.c:119-125 | swapping two elements of a range rearranges that range and nothing else |
| Sorts.Swap | apps/sorts.c:119-125 | two writes exchange two elements |
| Sorts.Bubble | apps/sorts.c:131-144 | a sorted permutation, even when a pass without a move ends it early |
| Sorts.Bubbled | apps/sorts.c:136-142 | one pass puts the largest last and reports no move only if everything was in order |
| Sorts.Insertion | apps/sorts.c:146-158 | a sorted permutation |
| Sorts.InsertNext | apps/sorts.c:151-156 | an element shifted into place; the hole never loses or doubles one |
| Sorts.Selection | apps/sorts.c:160-174 | a sorted permutation |
| Sorts.Smallest | apps/sorts.c:165-169 | the index of a smallest element of the rest |
| Sorts.Shell | apps/sorts.c:176-192 | a sorted permutation, for every length: the gaps are 1, 4, 13, ... and going down by thirds always ends at 1 |
| Sorts.GapPass | apps/sorts.c:183-190 | a pass at any gap leaves every element no smaller than the one a gap before it |
| Sorts.Insert | apps/sorts.c:184-189 | one element shifted into place among those a gap apart |
| Sorts.MoveHole | apps/sorts.c:186-188 | a shift by one gap keeps everything but the hole in order, and the elements with the held one in the hole the same |
| Sorts.Partition | apps/sorts.c:197-206 | the pivot is between those no larger and those no smaller, in a permutation of the range |
| Sorts.Quick | apps/sorts.c:194-217 | the range is a sorted permutation, nothing else changes, and two to the depth of the recursion is at most one more than its length, whatever the pivots |
| Sorts.Quicksort | apps/sorts.c:219-222 | a sorted permutation, in recursion at most logarithmic in n |
| Sorts.LeftDone | apps/sorts.c:209-211 | with the left side sorted only the right side is left to place |
| Sorts.RightDone | apps/sorts.c:212-215 | and the other way round |
| Sorts.Top | apps/sorts.c:243-253 | nothing in a heap is larger than its root |
| Sorts.Sunk | apps/sorts.c:238-239 | swapping with the larger child moves the one place where the heap may fail to that child |
| Sorts.Sift | apps/sorts.c:224-241 | restores a heap in which only the root may be too small |
| Sorts.MakeHeap | apps/sorts.c:247-249 | a heap of everything, from the last parent up |
| Sorts.TakeTop | apps/sorts.c:250-253 | the largest goes behind the heap, which is a heap again |
| Sorts.Heapsort | apps/sorts.c:243-254 | a sorted permutation |
| Sorts.MergedSorted | apps/sorts.c:258-271 | merging sorted sequences gives a sorted one |
| Sorts.MergedSame | apps/sorts.c:258-271 | with the elements of both |
| Sorts.MergeOut | apps/sorts.c:260-271 | the three loops write the merge of the two halves to the buffer |
| Sorts.Merge | apps/sorts.c:258-275 | the two halves are replaced by their merge, everything else stays |
| Sorts.TwoRuns | apps/sorts.c:280-286 | merging two runs of a width makes one of twice the width |
| Sorts.LastRun | apps/sorts.c:281-286 | a run left alone at the end, or cut short, is one of twice the width already |
| Sorts.MergePass | apps/sorts.c:281-286 | sorted runs of a width become sorted runs of twice the width, for any length and width |
| Sorts.Mergesort | apps/sorts.c:277-288 | a sorted permutation |
| CoreDump.SegmentReads | kernel/coredump.c:259-280 | a program header reads back field by field wherever it is in a file |
| CoreDump.CoreDescribes | kernel/coredump.c:243-311 | in every core of under four gigabytes the note header names exactly the notes, and the header of every writable region names, at a page boundary, exactly that memory; other regions have no bytes |
| CoreDump.ElfHeaderReads | kernel/coredump.c:243-256 | the ELF header reads back as a 32-bit big-endian 68k core, with where its program headers are and how many |
| CoreDump.NoteLength | kernel/coredump.c:97-107 | a note is as long as its writer counts it to be |
| CoreDump.NotesRead | kernel/coredump.c:97-107 | any list of notes, of any sizes, reads back by the sizes in their headers |
| CoreDump.CoreTells | kernel/coredump.c:243-311 | what a debugger reads from a whole core, starting at its ELF header: every note, every region and every writable page |
| CoreDump.Out.constructor | kernel/coredump.c:191-193 | an empty file with its limit |
| CoreDump.Out.Write | kernel/coredump.c:124-146 | what has reached the file is always all that was to be written, cut at the limit |
| CoreDump.WriteHeaders | kernel/coredump.c:256-284 | the headers, with offsets counted up as they go, are those of the whole file |
| CoreDump.WritePadding | kernel/coredump.c:295-297 | padding counted from the end of the file brings memory to the page the headers say, or makes no difference when the file was cut already |
| CoreDump.WritePages | kernel/coredump.c:304-309 | a page that cannot be read is zeros; stopping early leaves what the limit would have left anyway |
| CoreDump.WriteCore | kernel/coredump.c:256-311 | the file is the whole core cut at the limit: for any limit a prefix of the core without one |
| CoreDump.DumpCore | kernel/coredump.c:195-311 | the same for the headers and notes of this machine, so a core no limit cuts is one CoreTells is about |
| CoreDump.SegmentBytes | kernel/coredump.c:259-280 | where in the 32 bytes of a program header each field is |
| CoreDump.NoteIs | kernel/coredump.c:97-107 | a note, byte by byte: three words, the name CORE in eight bytes, the descriptor and zeros up to a multiple of four |
| PwDb.LinesOfJoined | auth/pwdb.c:176-190 | lines written one after another are read back as those lines |
| PwDb.LinesProper | auth/pwdb.c:84-90 | reading lines loses nothing, and only the last may lack its newline |
| PwDb.EntryReads | auth/pwdb.c:241-242 | a line made for an account reads as the entry of that account with that hash |
| PwDb.ReplacedLookup | auth/pwdb.c:176-190 | after a replacement the name has what the new line says and every other name what it had |
| PwDb.ReplacedComments | auth/pwdb.c:177-180 | comments and blank lines keep their text and order |
| PwDb.SetHashWorks | auth/pwdb.c:209-244 | if the account was there or the file ends in a newline: the new hash is found, every other account is as before, comments and blanks keep their order and the ageing fields survive |
| PwDb.SetHashLost | auth/pwdb.c:191-194 | otherwise the new entry runs on from the last line and is not found for its own account |
| PwDb.OthersExactly | auth/pwdb.c:191-194 | another account looks up as before if and only if the new entry did not run on from an unfinished last line, or an earlier line has the account, or that line is a comment, has a third field, or is neither before nor after about the account |
| PwDb.LastAccount | auth/pwdb.c:191-194 | the account of an unfinished last line keeps its hash if and only if it has an earlier entry or that line a third field |
| PwDb.CommentsExactly | auth/pwdb.c:191-194 | comments and blank lines keep text and order if and only if an unfinished last line is not one of them |
| PwDb.UnfinishedEntry | auth/pwdb.c:191-194 | in a file that is one entry of two fields without its newline the other account gets the new name behind its hash |
| PwDb.BobIsHarmed | auth/pwdb.c:191-194 | setting alice in a file that is bob and xx gives bob the hash xxalice |
| PwDb.SetHashExactly | auth/pwdb.c:209-244 | so the hash set is the hash found if and only if the account is there already or the file is newline-terminated |
| PwDb.ShHash | auth/pwdb.c:119-142 | the hash of the first entry of a name |
| PwDb.Rewrite | auth/pwdb.c:150-207 | the file with the entries of a name replaced or dropped, or one added, and whether anything changed |
| PwDb.ShSetHash | auth/pwdb.c:209-244 | the file with one hash set, its trailing fields kept or those of a new account |
| PwDb.NewAccount | auth/pwdb.c:191-244 | setting the hash of an account that is not there adds, behind everything there was, its line of nine fields with the ageing of a new account |
| PwDb.SkippedIs | auth/pwdb.c:66-72 | a line is no entry exactly when nothing, a newline or a # comes after its spaces and tabs |
| Mandel.MultipleIs | apps/mandel.c:184-184 | the test by remainder is the one for lying on the coarser lattice |
| Mandel.OneMultiple | apps/mandel.c:180-193 | the block of a lattice point holds no other |
| Mandel.Picture.Fill | apps/mandel.c:188-192 | a block, clipped to the picture, takes a colour and nothing else changes |
| Mandel.Picture.Visit | apps/mandel.c:181-192 | one more point evaluated unless a coarser pass has it; every point evaluated so far still has its own colour |
| Mandel.Picture.Pass | apps/mandel.c:174-194 | after a pass exactly the points of its lattice have been evaluated |
| Mandel.Picture.Render | apps/mandel.c:163-196 | for every width and height, every pixel ends with its own colour and is evaluated exactly once |

## Left out

- Sandpile.Toppler.Add: counts are natural numbers, not bytes; wrapping past 255 is not modelled.
- BootRom.Rom.ReadBlock: a block is read whole; sectors, ATA errors in the middle of a block and the serial messages are not modelled.
- BootRom.Rom.ReadSuper: the journal inode and its indirect blocks are taken as a table from log position to disk block.
- KernelReplay.Volume.RevokeAdd: a failed page allocation for the table is not modelled; the table has its full size.
- KernelReplay.Volume.ReplayCopy: a failing write is not modelled, only failing reads.
- RecoveryCut.RecoveryResumes: the writes of recovery are taken to be the copies home in the order of the log and then the mark, as PassesReplay and SetSuper have them.
- JournalCommit.RunIsCrashSafe: writes of a block are atomic and reach the disk in order; a torn block or a reordering disk is not modelled.
- JournalCommit.Journal.JournalCommit: device errors, the file data written first, the stop hooks and the choice of dirty buffers are not modelled; the transaction is a list of blocks, of which the superblock may be the last.
- Epoll.Events.EpollCreate: the descriptor a new set gets, or the error for which it gets none, is given.
- Epoll.Events.EpWaitPass: waiting, time-outs, signals and a failing copy to the user are not modelled; one pass over the items is.
- Epoll nesting has no depth limit in the code when sets are added from the top down, so none is claimed.
- Inotify.Instance.InRead: a read of an empty queue answers that it would block; sleeping is not modelled.
- Inotify.Instance.IqPut: takes any name without a NUL in it; that names end at 255 bytes is what SilentLoss keeps to.
- Inotify watches, their masks and the hooks that deliver events are not part of this model.
- TimerFd.Descriptor.Read: the times a sleeping read wakes at are given; the count is a natural number, not 64 bits.
- LineEditor.Reader.EditKey: reverse search is not modelled, nor is reading a key from an escape sequence.
- LineEditor.Reader.HistoryKey: the history is a list of lines, not the ring it is kept in.
- LineEditor.ReadLine: an interrupt and a failing read, which end the editing too, are not modelled; the row is of unbounded width and a character takes one cell.
- Sessions.Kernel.DetachSession: the signals sent with a hang-up are not modelled.
- Sessions.TerminalStep: setting a terminal's foreground group is not among the calls of a run; MaySetPgrp has when it is allowed.
- Sessions.Kernel.Fork: what else a child inherits, and threads' shared parts, are not modelled; pids are never reused, as in the code.
- WaTor.Ocean.Step: the chronon count is a natural number, not 32 bits; drawing and the graph are not modelled.
- Blake2s.Blake2s256: the counter and buffer length are natural numbers kept modulo 2 to the 32 where the code wraps; the chaining value is a sequence the state reassigns.
- Sorts.Swap: elements are integers of any size; counting comparisons and writes, drawing and pacing are not modelled.
- CoreDump.CoreTells: what is in the register, floating-point and process notes, and which regions and signals are dumped at all, are not modelled; the notes are any list.
- CoreDump.Out.Write: only the limit cuts a file short; a failing write, and the checks before the file is opened, are not modelled.
- PwDb.ShSetHash: lines and fields are taken to fit their buffers; the temporary file, its modes and the rename are not modelled.
- Mandel.Picture.Render: a key that cuts a picture short, the palette and the arithmetic of a point are not modelled; the picture is indexed by row and column.
- ChaCha20 and everything else in the kernel's crypto.c, the ext2 driver outside its journal, the network, memory management and the scheduler are not part of this model.
