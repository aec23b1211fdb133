# captains-log: a verification model

This project models the stateful core of captains-log and proves what it keeps over all
runs: the log rotation with its archive index, rename cascade and cleanup; the buffered
file sink with its queue, its worker and its background cleanup thread; the global logger
with its spin lock and its reconfiguration; the syslog worker with its failing connection.

`dafny verify dfyconfig.toml` checks everything.

| file | what it holds |
|---|---|
| `Common.dfy` | options, bytes, concatenation |
| `Archive.dfy` | the archive as a list of generations, newest first: what a rotation and a cleanup do to it, and what whole runs of them amount to |
| `Files.dfy` | the file system the sink touches, and when an index and a disk agree |
| `Rotation.dfy` | the backend object: the index and the files through the recursive cascade and the cleanup loops, proved equal to the list |
| `Sink.dfy` | the worker message by message, conservation, the whole set of files after any run |
| `Lines.dfy` | whole lines, batches, sizes of generations |
| `BufFile.dfy` | the worker object (`BufFileInner`, `LogRotate`) changed in place, proved equal to `Sink` |
| `Protocol.dfy` | producers, worker and cleanup thread interleaved step by step, proved equal to the sequential run |
| `Threads.dfy` | the same interleavings on the files themselves: cleanup file by file, each compression in two steps, beside the worker |
| `Options.dfy` | what the rotation options promise: how much of the log is kept, how much room it takes |
| `Config.dfy`, `Setup.dfy` | level, sinks, fingerprint; setup call by call; the level gate |
| `Publication.dfy` | any number of setup and lookup threads, interleaved access by access |
| `Syslog.dfy` | the syslog worker under every pattern of failures, as functions and as the object that is changed in place |

## How the parts join

`Rotation.Backend` holds the index and works on the disk; its methods are proved to do to
index and files together what `Archive.Push` and `Archive.Cleaned` do to a list.
`BufFile.BufFileInner` holds the buffer and calls the backend; its methods are proved to do
what the functions of `Sink` do. `Protocol` splits those functions into steps, adds the
producers and the cleanup thread, and shows that every interleaving is bound for the
sequential result. So the theorems about lists (`Archive.RunsRefineTheList`), about runs of
messages (`Sink.WholeRun`, `Lines`, `Options`) and about interleavings (`Protocol.EndToEnd`)
speak about the same files; `BufFile.BufFileInner.NumberedFiles` spells them out path by path.
`Threads` runs worker and cleanup thread on the files and the index themselves and ties every
state to one of `Protocol`, so `Threads.EndToEndOnDisk` and `Threads.PathsAtTheEnd` say the
same of paths under every interleaving.

## Assumptions

The suffix schemes come from the crate `file-rotate`, which is not part of this model. They
are assumed to behave as follows.

- A suffix is an integer and a smaller one is newer. The index compares suffixes and
  ignores the compressed flag.
- Numbered form: the first suffix is 1, the one after `k` is `k + 1`, and an archive of rank
  `i` (the newest has rank 0) is too old exactly when `i` is at least the limit.
- Timestamp form: a fresh suffix is strictly newer than every indexed one. Under an age
  limit an archive is too old when it lies beyond a horizon that each cleanup reads anew.
- The scan at the start finds the files there are, and no number in both plain and `.gz` form.
  No archive is numbered 0; the program makes none (`Archive.FrontExactly`).

Arithmetic on 32 bits wraps, as it does without overflow checks. With them the subtraction at
src/rotation.rs:477 panics the cleanup thread where it would wrap: for an option of 2^31, for
one of 2^31 + 1 once there is an archive, and so on.

The rest of the program assumes, and so does the model, that nobody else moves or deletes
its files. Compression keeps the content and sets the `.gz` flag. The age check may answer
anything at any time. A write may fail or be short at any time; statements about whole lines,
batches and sizes are for runs in which no write fails, those about batches and sizes also for
a file that is open (`Lines.LateOpenIsBounded` has a file that opens late).

## Where the code and its documentation part

- `flush_millis`: documented to flush whenever the queue runs empty when it is 0
  (src/buf_file_impl.rs:98-102); the constructor turns 0 into 1000 (165-168).
  `BufFile.NormalFlushMillis` follows the code.
- `compress_exclude(n)` leaves `n` archives plain only for `n` that survive the cast to 32
  bits (src/rotation.rs:477). `Archive.CastCounterexample` has an `n` that compresses
  everything, `Archive.CastExactness` says exactly which `n` work.
- A completed flush of the file sink does not always mean that the lines before it are in a
  file. A file that cannot be opened leaves them in the buffer, and a write that fails drops
  what it did not write (src/buf_file_impl.rs:289, 298-301): `Protocol.AckCounterexample` and
  `Protocol.WriteErrorCounterexample` are such runs. `Protocol.AckExactly` has the condition.
- The syslog worker is not always flushed when it is idle: a token met while draining the
  queue clears `need_flush` for the lines after it (src/syslog.rs:399-412).
  `Syslog.IdleCounterexample` is such a drain, `Syslog.IdleIsFlushedExactly` the condition.
- `setup_log` that fails has, in one case, changed the logger all the same: a first init
  installs sinks and checksum before it finds another logger registered
  (src/log_impl.rs:177-182). `Setup.FailureIsCleanExactly` says that it is the only case.
- `Upkeep::Age` without a time format is documented to be ignored (src/rotation.rs:76);
  the code passes a limit of 0 to the numbered scheme (236). `Options.Build` follows the code.

## Model

| member | source | states |
|---|---|---|
| Archive.RunIsMaximal | src/rotation.rs:525-537 | The run the cascade goes through is k, k + 1, ... without a gap, and the suffix after it is free |
| Archive.CascadeIsShift | src/rotation.rs:503-549 | A cascade from k is the rank-by-rank shift: the run starting at k moves up by one with flags and contents, everything before it and beyond the first gap stays, the new file is at k |
| Archive.PushInsertsBody | src/rotation.rs:503-549 | No file is lost, overwritten or reordered by a cascade: the bodies are the old ones with one inserted |
| Archive.PushKeepsSorted | src/rotation.rs:446-450 | The index stays strictly ordered by suffix |
| Archive.StampedNeverCascades | src/rotation.rs:509-537 | A stamped suffix is the clock's where that is newer than all others, and newer than them in any case; the cascade is never entered: exactly one newest entry is added |
| Archive.Kept | src/rotation.rs:458-473 | The cut is the longest tail that is too old: everything behind it is, the entry before it is not |
| Archive.AsI32 | src/rotation.rs:477 | The cast is congruent to its argument modulo 2^32, lands among the 32-bit values and is the identity on them |
| Archive.CompressCount | src/rotation.rs:477-483 | The two casts and the wrapped subtraction come to one cast of the true difference, cut to between 0 and the number of entries |
| Archive.CastExactness | src/rotation.rs:477 | The cast gives the asked number for every archive size if and only if the option fits in 31 bits or lies within one of 2^31 modulo 2^32 |
| Archive.CastCounterexample | src/rotation.rs:477 | Asking to leave 2^32 - 1 archives plain compresses the only one there is |
| Archive.KeptUnderCount | src/rotation.rs:454-473 | Under a count m the newest min(m, len) survive; without a limit all do |
| Archive.KeptUnderAge | src/rotation.rs:458-473 | Under an age limit exactly the entries within the horizon survive |
| Archive.CleanedIsTidy | src/rotation.rs:453-496 | Under every limit a cleanup keeps the first so many bodies and compresses those of rank n and more, and changes nothing else |
| Archive.FrontExactly | src/rotation.rs:446-450 | The live file becomes the newest archive if and only if no archive has a number below 1 |
| Archive.RoundPutsInFront | src/rotation.rs:446-496 | Under every limit one rotation with its cleanup is: put the live file in front, drop a tail, compress from rank n on; under a count m it keeps m |
| Archive.TidyAbsorbs | src/rotation.rs:453-496 | What an earlier cleanup dropped or compressed, a later one would: cleaning up every time comes to the same as once at the end |
| Archive.RoundIsTail | src/rotation.rs:446-496 | A rotation with its cleanup, under any limit and any option, leaves the newest part of the contents: it tears no hole |
| Archive.RunsRefineTheList | src/rotation.rs:446-496 | Whole runs of any length, in both naming schemes, under every limit, from any archive (without a number below 1): the archive is in order, its contents are the newest part of all generations ever, how many there are under a count, and newest first each in the form its rank asks for |
| Archive.AgeKeepsExactly | src/rotation.rs:446-496 | Whole runs under an age limit: a generation is in the archive exactly when its suffix lies within the horizon of every cleanup since it was archived |
| Archive.LastHorizonDecides | src/rotation.rs:458-473 | With horizons that do not go back: exactly when it lies within the last one |
| Archive.RoundsKeepSorted | src/rotation.rs:446-496 | Every run of rotations and cleanups keeps the index ordered, under every kind of limit |
| Archive.RoundsKeepContiguous | src/rotation.rs:446-496 | In numbered form the numbers stay 1, 2, 3, ... without a gap |
| Archive.NumberedRuns | src/rotation.rs:446-549 | From an empty archive, after any number k of rotations, base.i is the i-th most recent generation for i up to min(k, m), in .gz form exactly when i > n, and nothing else exists |
| Archive.RoundKeepsMonotone | src/rotation.rs:475-494 | Once an archive is compressed every older one is; each rotation with its cleanup keeps this, under every kind of limit |
| Files.IndexAndDiskAgree | src/rotation.rs:388-389 | What the backend keeps between operations means: per suffix at most one of the two forms exists, exactly as the index lists it, with its content |
| Files.AgreementIsEnough | src/rotation.rs:440-443 | Any ordered index that agrees with the disk is such a state, gaps and mixed forms included |
| Files.Disk.Rename | src/rotation.rs:546 | The file changes its name, replacing what had the new one; an open descriptor follows |
| Files.Disk.Remove | src/rotation.rs:463 | The name goes; an open descriptor keeps the nameless file |
| Files.Disk.Compress | src/rotation.rs:393-412 | The content moves from the plain to the .gz name |
| Files.Disk.OpenLog | src/file_impl.rs:98-100 | The log exists afterwards, its old content is kept, and the descriptor is on it |
| Files.Disk.Write | src/buf_file_impl.rs:295-302 | A write appends a prefix or fails; with bytes to write and room for one it makes progress |
| Rotation.PutReplaces | src/rotation.rs:532 | Replacing the entry with the same suffix changes that entry and no other |
| Rotation.SplitOffCuts | src/rotation.rs:469-472 | What split_off leaves are exactly the entries newer than the given one |
| Rotation.IndexDown | src/rotation.rs:532 | On the way down one entry changes its flag and no entry its number |
| Rotation.ConflictIsHead | src/rotation.rs:525 | During the cascade an entry blocks the new suffix exactly when the part ahead begins with it |
| Rotation.RenamableAfter | src/rotation.rs:543-546 | After the recursion neither assertion can fail, the rename overwrites nothing, and it completes the shift of the files |
| Rotation.Backend.constructor | src/rotation.rs:415-443 | Any scanned index that agrees with the disk starts a valid backend |
| Rotation.Backend.MoveFile | src/rotation.rs:503-549 | The recursion, for any index that agrees with the disk ahead: it ends and returns the first gap, a number the index does not have; the set of indexed numbers is the same all along; index and files are both the shifted list once the returned suffix is inserted; both assertions hold at every level; what lies before is untouched |
| Rotation.Backend.RenameFiles | src/rotation.rs:446-450 | Index and disk agree again, on the old list with the live log pushed at the fresh suffix; the live log is gone; an open descriptor now is on the new archive |
| Rotation.Backend.HandleOldFiles | src/rotation.rs:453-496 | Index and disk agree on the cleaned list; the live log is untouched |
| Rotation.Backend.DeleteOld | src/rotation.rs:457-473 | The reverse loop and split_off leave exactly the entries before the too-old tail, in the index and on disk |
| Rotation.Backend.CompressOld | src/rotation.rs:476-494 | Exactly the entries of the given rank and more are compressed, in the index and on disk; others are unchanged |
| Sink.Started | src/buf_file_impl.rs:318-319 | The worker's start leads to a valid state with nothing buffered and nothing lost |
| Sink.StartsExactly | src/buf_file_impl.rs:318-319 | The start opens the file as it is and checks for rotation once; a file that cannot be opened is left alone |
| Sink.CheckRotateExactly | src/rotation.rs:266-290 | With the file open, exactly an age check that answers yes or a size above the limit closes the live file as one generation, with its cleanup, and opens an empty file; otherwise nothing changes |
| Sink.FlushExactly | src/buf_file_impl.rs:288-315 | A flush of an open file writes the whole buffer (but what a failing write leaves out) and then checks for rotation at the new size; asked to wait it leaves no cleanup unjoined; without a file it does nothing |
| Sink.DueAgeCloses | src/rotation.rs:268-272 | Every flush of an open file under a due age closes exactly one generation, which ends with the flushed bytes |
| Sink.WriteExactly | src/buf_file_impl.rs:268-277 | With the file open: a line that leaves the buffer below the flush size only joins it; at the flush size exactly one batch is written; above it the buffer goes first, and then the line, at once if it is long enough by itself |
| Sink.WriteUnopened | src/buf_file_impl.rs:268-277 | Without a file a line only joins the buffer |
| Sink.MessagesFlush | src/buf_file_impl.rs:330-351 | A token, a timeout and the end of the channel each write the buffer out; after a token and at the end no cleanup is left unjoined |
| Sink.ReopenExactly | src/buf_file_impl.rs:251-266 | A reopen that works opens the file with what it holds and takes its size; one that fails changes nothing |
| Sink.YoungRunsCloseNothing | src/rotation.rs:266-280 | Without a size limit no generation is closed unless an age check answers yes |
| Sink.Process | src/buf_file_impl.rs:321-336 | Every message keeps the invariant, and an open file stays open |
| Sink.Conservation | src/buf_file_impl.rs:251-372 | For every mix of messages, from any state: generations, live file and buffer are what they were and then the lines, or exactly the counted bytes are missing |
| Sink.ConservedIffNothingLost | src/buf_file_impl.rs:289-307 | They are equal if and only if no write left bytes out |
| Sink.CheckRotateCarries | src/buf_file_impl.rs:280-286 | Rotating and reopening moves bytes from the live file to a generation and loses none |
| Sink.FlushCarries | src/buf_file_impl.rs:288-315 | Flushing moves bytes from the buffer to the live file, and loses only what a failing write leaves out |
| Sink.WholeRun | src/buf_file_impl.rs:317-372 | Rotation and worker in one statement, for every configuration: what the archive holds after any run from any archive (as Archive.RunsRefineTheList and Archive.AgeKeepsExactly have it), and the bytes that come in |
| Sink.WholeRunNumbered | src/buf_file_impl.rs:317-372 | The same in numbered form from an empty archive, file by file |
| Sink.WholeArchive | src/rotation.rs:281-288 | The archive is what strictly alternating rotations and cleanups make of the generations so far |
| Sink.NotOpenUntouched | src/buf_file_impl.rs:289 | As long as the file is not open nothing is written, rotated or lost |
| Sink.CleanRunsLoseNothing | src/buf_file_impl.rs:298-301 | Bytes are lost only by a write that reports an error |
| Sink.TrackedSize | src/buf_file_impl.rs:251-260 | After every message the tracked size is the length of the live file, or exceeds it by no more than failing writes left out |
| Lines.LinesStayWhole | src/buf_file_impl.rs:268-277 | As long as no write fails, generations, live file, buffer and batches are concatenations of whole lines in order of arrival; no line is split |
| Lines.BatchesAreWhole | src/buf_file_impl.rs:268-308 | With the file open and no write failing, the buffer is shorter than the flush size after every message, and a batch above the flush size is one oversized line |
| Lines.StartLedger | src/buf_file_impl.rs:318-319 | The worker starts with such an account of lines, what the file held counting as one |
| Lines.WholeLinesFromStart | src/buf_file_impl.rs:268-308 | Both from the start of the worker, whatever it finds, as long as no write fails; that on batches if the file opens at the start |
| Lines.BatchesAreFilled | src/buf_file_impl.rs:268-277 | Nothing is flushed too early: over a run of lines with the file open and no write failing, every batch reached the flush size or had no room for the first line after it |
| Lines.GenerationsAreBounded | src/buf_file_impl.rs:268-315 | With a size limit only, the file open and no write failing: every closed generation is above the limit by at most max(flush size, longest line), none is empty, the live file is within the limit and its tracked size exact |
| Lines.LiveStaysWithin | src/buf_file_impl.rs:280-315 | With a size limit, alone or beside an age limit, and no write failing, the live file is within it after every message |
| Lines.StartsTight | src/buf_file_impl.rs:318-319 | The worker is within these bounds from its start on, whatever the file held |
| Lines.BufferIsShortAgain | src/buf_file_impl.rs:268-277 | From any open state, whatever had piled up, every message but a reopen leaves the buffer shorter than the flush size |
| Lines.LateOpenIsBounded | src/buf_file_impl.rs:251-315 | From any open state, as after a file that opened late: the first generation is bounded by what the file held and what had piled up, later ones as ever, and from the first write on the live file is within the limit |
| BufFile.NormalFlushSize | src/buf_file_impl.rs:173-176 | 0 becomes 4096, anything else stays |
| BufFile.NormalFlushMillis | src/buf_file_impl.rs:165-168 | 0 and anything above 1000 become 1000, the rest stays |
| BufFile.LogRotate.Wait | src/rotation.rs:293-297 | Afterwards no cleanup is left to join |
| BufFile.LogRotate.Rotate | src/rotation.rs:266-290 | Rotates exactly when the age or the size asks for it; then the archive is the cleaned list with the live file pushed |
| BufFile.BufFileInner.constructor | src/buf_file_impl.rs:177-186 | Nothing is open or buffered; the flush size is normalised |
| BufFile.BufFileInner.Reopen | src/buf_file_impl.rs:251-266 | The size is read from the file; a failure changes nothing |
| BufFile.BufFileInner.CheckRotate | src/buf_file_impl.rs:280-286 | The object goes where Sink.CheckRotate says |
| BufFile.BufFileInner.WriteAll | src/buf_file_impl.rs:292-306 | The short-write loop ends with exactly the buffer appended, or the part that fitted before an error; no other file changes |
| BufFile.BufFileInner.Flush | src/buf_file_impl.rs:288-315 | The object goes where Sink.Flush says |
| BufFile.BufFileInner.Write | src/buf_file_impl.rs:268-277 | The object goes where Sink.Write says |
| BufFile.BufFileInner.Handle | src/buf_file_impl.rs:321-336 | Each outcome of a receive has the effect Sink.Process gives it |
| BufFile.BufFileInner.LogWriter | src/buf_file_impl.rs:317-372 | The loop is the run of Sink on its receives, so all that is proved of runs holds of the object and its files |
| BufFile.LiveExactly | src/buf_file_impl.rs:251-266 | The live file is there after any run exactly if it was at the start or a reopen succeeded |
| BufFile.BufFileInner.NumberedFiles | src/buf_file_impl.rs:317-372 | What LogWriter leaves on disk, path by path, in numbered form from an empty archive: base.i for i up to min(k, m) with the i-th most recent generation, as .gz exactly when i > n, the log, and nothing else; and the bytes they hold |
| Protocol.JobCleans | src/rotation.rs:453-496 | The cleanup, one file at a time, ends in exactly the cleaned list |
| Protocol.StepsAddUp | src/buf_file_impl.rs:268-315 | The small steps of a message add up to its sequential effect |
| Protocol.WorkKeepsDestination | src/rotation.rs:281-288 | A worker step, with the cleanup thread anywhere in its work, does not change what the run is bound for |
| Protocol.JobKeepsDestination | src/rotation.rs:285-287 | Nor does a step of the cleanup thread |
| Protocol.RunsAreSequential | src/rotation.rs:281-297 | Every interleaving is bound for the state of the sequential run on the messages received |
| Protocol.HandshakeIsSafe | src/rotation.rs:350-378 | In every reachable state: at most one cleanup lives and it is unjoined; none lives during a rename; the live file exists when the rename needs it; the buffer is only ever written to the live file |
| Protocol.AtRest | src/rotation.rs:281-297 | At rest the state is that of the strictly alternating run, and the queue delivered every message once and in order |
| Protocol.AckMeansOnDisk | src/buf_file_impl.rs:330-333 | When a flush token is completed with the file open: the buffer is empty, no cleanup is outstanding, the messages up to the token are exactly those dealt with, and their lines are on disk unless a write failed |
| Protocol.AckExactly | src/buf_file_impl.rs:289-333 | When a token is completed, generations and live file hold the initial content and every line before the token if and only if no write failed and the file is open, or no write failed and nothing was logged |
| Protocol.AckEmptiesBuffer | src/buf_file_impl.rs:289-333 | A completed token means an empty buffer if and only if the file is open or no byte had been logged |
| Protocol.AckCounterexample | src/buf_file_impl.rs:289-333 | A file that cannot be opened, one line and a flush: a legal run to a completed token with the line in no file |
| Protocol.WriteErrorCounterexample | src/buf_file_impl.rs:298-308 | An open file, one line and a flush whose write fails: a legal run to a completed token with the line cut off in the file |
| Protocol.LinesAreSent | src/buf_file_impl.rs:203-210 | The lines processed are the lines of the messages sent, in the order of the queue |
| Protocol.NeverStuck | src/rotation.rs:281-297 | No deadlock: in every reachable state that is not at rest a named step of worker or cleanup is possible; the join waits only for a cleanup that can go on |
| Protocol.SendersWaitExactly | src/buf_file_impl.rs:163 | A sender waits exactly while 1024 messages are queued; the queue never holds more |
| Protocol.ReceivesExactly | src/buf_file_impl.rs:338-354 | With nothing in hand the worker receives the first message of the queue; on an empty queue a timeout while there are senders, and then the end of the channel, once |
| Protocol.EveryStepAdvances | src/buf_file_impl.rs:337-354 | Every step of worker and cleanup brings a measure down, in whatever order they run |
| Protocol.EveryTokenCompletes | src/buf_file_impl.rs:213-218 | Every flush returns: in every endless schedule of senders, worker and cleanup, however unfair to the worker, every message sent is received and dealt with to the end |
| Protocol.EveryStepIsNearer | src/buf_file_impl.rs:337-354 | Until a message is dealt with, every step of every thread, sending into the bounded queue included, brings that nearer |
| Protocol.CanAlwaysDrain | src/buf_file_impl.rs:337-354 | From every reachable state the threads can deal with everything that was sent |
| Protocol.EndToEnd | src/buf_file_impl.rs:251-372 | Every configuration, any archive, any interleaving, at rest with an empty queue: what the archive holds, and that all generations, live file and buffer are the initial content and every line sent, if and only if no write lost bytes |
| Protocol.EndToEndNumbered | src/buf_file_impl.rs:251-372 | In numbered form from an empty archive: which files there are, with which generation and in which form |
| Threads.StaysTied | src/rotation.rs:453-496 | Every step of worker and cleanup on files and index, file by file and with each compression in two steps, is a step on the list or leaves it as it is |
| Threads.AlwaysOnDisk | src/rotation.rs:393-412 | At every moment of every interleaving, in the middle of a cleanup or of a compression, each generation not deleted is a complete file in its form, and the log is what the worker wrote |
| Threads.EndToEndOnDisk | src/rotation.rs:281-297 | Every configuration, any directory the scan can read, any interleaving, at rest: index and files agree, the archived files are the explained archive, and all generations, log and buffer are what was there and every line sent, if and only if no write lost bytes |
| Threads.PathsAtTheEnd | src/rotation.rs:446-549 | Path by path, in numbered form from a directory without archives, under any interleaving: base.1 up to base.min(k, m) and no other, as .gz exactly when the number is above n, with the i-th most recent generation in base.i |
| Options.Build | src/rotation.rs:184-255 | Refused exactly when neither an age nor a size is given; limits and exclusion as given; timestamps exactly with a time format; no limit exactly for All, a count for Count, an age limit exactly for Age with a time format, and 0 files for Age without one |
| Options.TheNewestPartRemains | src/rotation.rs:94-165 | Rotation tears no hole, for every form, limit, option and archive to start from: archives, live file and buffer are the most recent part of the log; how many archives there are; and all of the log as long as none had to go |
| Options.AllDeletesNothing | src/rotation.rs:56-64 | Upkeep::All, in either form, by size or by age, compressing or not: all generations there were and all made since are in the archive, and with live file and buffer they are the whole log |
| Options.AgeOptionKeepsItsWord | src/rotation.rs:113-165 | by_age and by_age_and_size with a time, over whole runs: the newest part remains, exactly the generations within every horizon since, and with horizons that do not go back exactly those within the last |
| Options.SizeOptionKeepsItsWord | src/rotation.rs:94-111 | by_size(L, m), on whatever is there at the start, as long as the file opens then and no write fails: the archives closed since and the live file hold at most m (L + max(flush size, longest line)) + L bytes; once m were closed nothing else is left and they hold more than m L bytes; what remains is the newest part of the log |
| Options.SizeAloneDeletesNothing | src/rotation.rs:94-111 | by_size(L) without a number of files, as long as the file opens at the start and no write fails: nothing is deleted, every generation closed since is above L by at most one flush or line, the live file is within L |
| Options.AgeAndSizeStaysWithin | src/rotation.rs:154-170 | by_age_and_size(L), as long as no write fails: the live file is within L after every message, whatever the age checks answer |
| Options.AgeAloneWaits | src/rotation.rs:126-139 | by_age: no generation is closed unless an age check answers yes |
| Options.WhenTheyRotate | src/rotation.rs:94-171 | Flush by flush: by_age closes a generation exactly when the age check answers yes, by_size exactly when the file outgrows the limit, by_age_and_size when either does |
| Config.MaxLevel | src/config.rs:109-118 | The result bounds every sink's level and is the level of one, or Error |
| Config.GetMaxLevel | src/config.rs:109-118 | The loop computes it |
| Config.BuildSinks | src/config.rs:135-146 | All sinks in order if every one opens; otherwise an error at the first that does not, with no later one tried |
| Setup.SetupIsAtomic | src/log_impl.rs:113-164 | A failed setup changes nothing; a successful one leaves its own sinks and checksum; the kind chosen first never changes, and a once-logger never changes at all |
| Setup.OutcomesExactly | src/log_impl.rs:113-164 | When each outcome comes about: a first configuration when its sinks open; the one in force when its installed sinks open again; another one when both are dynamic and its sinks open; nothing else succeeds |
| Setup.LastSuccessStands | src/log_impl.rs:113-164 | In every run of successful and failing setups the installed sinks and the checksum are those of the last call that succeeded |
| Setup.KindNeverChanges | src/log_impl.rs:248-259 | Over any continuation of a run the once or dynamic kind stays, and what a once-logger installed is never replaced |
| Setup.FailureIsCleanExactly | src/log_impl.rs:175-204 | A failed setup_log leaves everything as it was, if and only if it was not a first init that installed its sinks and then found another logger registered |
| Setup.SetupExactly | src/log_impl.rs:175-204 | What setup_log answers, and the level and the registration that come with it |
| Setup.LevelAlwaysFits | src/log_impl.rs:124-140 | After any sequence of setups the global level is the maximum over the installed sinks, if no other logger came first |
| Setup.Deliver | src/log_impl.rs:406-423 | A record reaches exactly the sinks whose level admits it |
| Setup.EachSinkAlone | src/log_impl.rs:406-423 | What a sink gets does not depend on the others; deliveries are in the order of the sinks, one each |
| Setup.GateIsLossless | src/log_impl.rs:175-204 | Gating by the global level and then asking the sinks delivers the same, in the same order, as asking each sink alone |
| Setup.GlobalLogger.Open | src/log_impl.rs:273-290 | Succeeds exactly when every installed sink opens |
| Setup.GlobalLogger.CheckTheSame | src/log_impl.rs:316-321 | Init, skip or reinit by whether sinks are installed and the checksum is the same |
| Setup.GlobalLogger.Reinit | src/log_impl.rs:324-333 | Installs sinks and checksum together, or changes neither |
| Setup.GlobalLogger.Init | src/log_impl.rs:335-341 | Likewise for the first configuration; the assertion holds |
| Setup.GlobalLogger.TrySetup | src/log_impl.rs:113-164 | The three ways do what Setup.TryOnce says, and the lock is free again on every return |
| Setup.GlobalLogger.SetupLog | src/log_impl.rs:175-204 | Registers once, on the first init, and sets the level |
| Setup.GlobalLogger.Log | src/log_impl.rs:406-423 | The loop over the sinks delivers exactly Setup.Deliver |
| Publication.PublicationIsSafe | src/log_impl.rs:86-164 | Over all interleavings: one thread at most in the locked section; one setup at most gets Ok(true) and set_logger is called at most once; whoever holds the logger sees initialised sinks and no exclusive init is under way |
| Publication.LookupFinds | src/log_impl.rs:86-93 | Over all interleavings: a lookup that starts when some thread has the logger, or when the lock is free after a first init, never misses it, and its next step ends it |
| Publication.AnswersFit | src/log_impl.rs:175-204 | Over all interleavings: what a thread was told is what its call, at its place in the serial order, came to; an error otherwise only after a first init that found another logger registered |
| Publication.SomeoneGetsOn | src/log_impl.rs:95-110 | No deadlock: while any thread is not done one of them gets nearer to its end, the holder of the lock if it is held |
| Publication.AloneIsSetupOnce | src/log_impl.rs:113-204 | Access by access a setup on its own ends, with the sinks, checksum, level, registration and answer of Setup.SetupOnce |
| Publication.SetupsAreSerial | src/log_impl.rs:95-164 | With the lock free the shared state is that of the finished setups run one at a time in some order, each came to what it comes to at its place in that order, and checksum and sinks belong together |
| Publication.KeepsSerial | src/log_impl.rs:113-164 | Every access of every thread keeps this |
| Syslog.Timeout | src/syslog.rs:222-225 | 0 becomes five seconds, anything else stays |
| Syslog.WorkerIsFine | src/syslog.rs:339-425 | For every pattern of failures: accepted messages are in queue order and none twice, each on one connection; every other message was skipped, after its timeout; a connection that reported an error is not used again |
| Syslog.RetryKeepsInv | src/syslog.rs:373-391 | The retry loop ends with the message accepted, or given up after the timeout and never accepted |
| Syslog.WriteBound | src/syslog.rs:363-391 | A message costs at most floor(timeout / 500 ms) + 1 attempts to reconnect |
| Syslog.WriteExactly | src/syslog.rs:363-391 | A message is accepted if and only if the present connection takes it, or some try connects and accepts with the half seconds and delays before it at most the timeout; which tries are made and what the network sees of them; a skip records all the time gone |
| Syslog.RetryExactly | src/syslog.rs:372-391 | The same for the loop from any try on |
| Syslog.TurnInOrder | src/syslog.rs:394-425 | A turn of the loop handles its messages in the order of the queue, with one flush more at its end if it held no token |
| Syslog.RunInOrder | src/syslog.rs:394-425 | A whole run handles all messages one by one in the order of the queue |
| Syslog.BeginsExactly | src/syslog.rs:226-227 | The worker begins with one attempt to connect, and has a connection exactly if it worked |
| Syslog.TokenMeansFlushed | src/syslog.rs:403-416 | When a token is completed the live connection has accepted nothing that is not flushed |
| Syslog.IdleIsFlushedExactly | src/syslog.rs:396-412 | After a drain everything accepted is flushed if the drain held no token or ended with one; on a connection that works, only then |
| Syslog.IdleCounterexample | src/syslog.rs:399-412 | A line, a token and a line in one drain leave the last line unflushed |
| SyslogWorker.Backend.constructor | src/syslog.rs:222-227 | One attempt to connect, whose failure is ignored |
| SyslogWorker.Backend.Reinit | src/syslog.rs:339-350 | A new connection on success, nothing on failure |
| SyslogWorker.Backend.Flush | src/syslog.rs:353-360 | A connection that fails to flush is dropped |
| SyslogWorker.Backend.Write | src/syslog.rs:363-391 | The retry loop terminates and does what Syslog.Write says |
| SyslogWorker.Backend.Drain | src/syslog.rs:397-412 | The draining loop with need_flush does what Syslog.TurnOnce says |
| SyslogWorker.Backend.Run | src/syslog.rs:394-425 | The loop is the run of Syslog on its receives, ended by a flush |

## Left out

- Disk failures inside a rotation: a rename, a removal or a compression that fails, and a failed spawn; the code gives up agreement there.
- Sink.CheckRotate: the reopen after a rename is taken to succeed; when it fails the code goes on writing to the archived file.
- Sink.Started: with an age limit the file must open at the start, because the age check unwraps the creation time.
- BufFile.LogRotate.Rotate: performs the cleanup at the moment it is spawned; Protocol has every other moment.
- Protocol.RunsAreSequential: works on the list of generations; Threads has the index and the files beside it.
- Threads.StaysTied: takes the cascade of renames as one step, as Rotation.Backend.RenameFiles has it; no other thread is at the archive then.
- Archive.NumberedRuns: asks for an option that the 32-bit cast does no harm (Archive.CastExactness says which those are) and, without a count of files below 2^31, for fewer than 2^31 rotations.
- Options.Build: nothing is claimed about Upkeep::Age in the numbered form, which depends on how an external crate reads a limit of 0.
- Options.SizeOptionKeepsItsWord: counts bytes of log; how many of them compression saves is not modelled.
- Setup.LevelAlwaysFits: setups one after the other; concurrent ones may leave the level of another configuration, because the first setup sets it outside the lock.
- Syslog.WorkerIsFine: accepted means taken by write_all on a connection; what a broken connection still held unflushed is not accounted as delivered.
- The fingerprint of a configuration is taken as injective; hash collisions are not modelled.
- How often an age limit rotates: the creation time is set only once, so no claim is made.
- The branch of the worker for flush_millis of 0, which the constructor makes unreachable.
- Senders that block on a full queue: sending is a step that is possible when there is room.
- Real files, sockets, signals, threads, clocks and gzip bytes; directory creation and file names.
- The tracing bridge, the console, raw file and ring file sinks, filters, formatting, environment, recipes, the regex parser, the macros and `logfn`.
- Panic hooks, signal listeners and the reopening they trigger, apart from its message to the file sink.
