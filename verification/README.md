# Qianfan SDK model

A Dafny model of the parts of the Qianfan SDK that keep state or compute something that can go wrong,
and proofs about them. Every file is one module; `dafny verify dfyconfig.toml` checks all of them.

## What is modelled

- **Grouped and packed tables** (`Grouping`, `MapperReader`, `Tables`, `PackLaws`, `UnpackLaws`,
  `PackedCells`, `RoundTrip`, `AppendLaws`, `AppendCases`, `TableObject`). A table is a sequence of rows with the same columns.
  `TableObject.Table` is the object whose methods reassign its table; `Tables` says what each of them
  computes; the laws say what that means: pack is the stable group-by, pack and unpack undo each other,
  append commutes with pack. The worker pool that carries slices from the closures to the new table is a
  transition system of its own, with its queue, its semaphore and its barrier. A schedule decides how many
  of the matching chunks are handed on, and whether the reader ends up waiting for a permit that nobody
  will release; these two are the parameter `schedule` of pack and unpack.
- **The tokens-per-minute limiter** (`TokenLimiter`, `LimiterAmounts`, `LimiterRuns`, `LimiterObject`). Time is in
  microseconds and never runs backwards. Threads test some fields before they take the lock, and these
  parts interleave freely; the quota of a calendar minute is a theorem about all such runs.
- **The server-sent-event stream** (`SseStream`, `SseItems`, `SseObjects`, `Tee`). Bytes to lines to messages to
  items, chunk by chunk, against the meaning of the whole body; and the two queues of `tee`.
- **The training action** (`TrainProtocol`, `TrainResults`, `TrainSnapshots`, `TrainObject`). Every remote call may fail,
  at any point; an operation that is killed is one whose polls run out. The pipeline saves the action
  every ten seconds while a call runs, field by field, so any state it passes through may be the one loaded
  after a crash, and its fields may be of different moments.
- **Token cache and retries** (`AccessTokens`, `Retries`). All interleavings of callers of the cache, and
  the retry loops with their one free retry.
- **Token estimate and history truncation** (`Tokens`, `Truncation`).
- **The canonical request** (`Percent`, `Lines`, `CanonicalRequest`, `QueryTwins`, `SignedText`,
  `SignedHeaders`). Strings are sequences of UTF-16 code units; percent-encoding has a decoder as its partner. The verb and the
  canonical URI are any strings.
- **Work partitioning** (`Partition`). Evaluation sectors and inference windows.

`Options`, `Numbers`, `Rows` and `Sequences` hold what these share.

## How to read it

A class has the fields of the object it models and a ghost function for its abstract state. The contract
of each method equates the new state and the result with a function of the old state, in every case; the
lemmas are about these functions and about runs made of them. Ghost logs record what was granted, created,
polled or refreshed. Outcomes of remote calls, the clock, thread schedules, the service behind batch
inference, evaluators, the text decoder, the JSON parser, character classes, lower-casing and trimming are
parameters, over which everything is quantified.

## Where the code does less than its documentation

Each of these is stated by the lemma or contract that is named, with the exact condition.

- The reader of the worker pool compares the row offset of a slice with a counter that grows by one per
  slice. With slices of more than one row, all slices after the first are lost
  (`MapperReader.LaterSlicesLost`). So pack is the group-by if and only if all rows fit in one slice and it
  arrives (`PackLaws.PackIsGroupBy`), and unpack is complete if and only if it ends and no element is in a
  slice that is not read (`UnpackLaws.UnpackIsComplete`).
- A worker gives a permit only for a slice whose row offset is not ahead of the counter. A reader that has
  put such a slice back can wait for ever although all workers are done: with several slices of more than
  one row, the first of them not empty, and in no other case (`MapperReader.BlockedIff`). Then pack and
  unpack do not return (`PackLaws.PackWaitsIff`, `UnpackLaws.UnpackReadsCells`).
- The reader does not look at the queue again once it finds that the workers are done, so slices put
  between its last look and the barrier are lost, even the only one (`MapperReader.AllHandedOnIff`,
  `SingleSliceCanBeLost`, `MismatchLosesSlices`).
- A cell that is no list of dicts ends its worker before the barrier, and unpack waits for ever
  (`UnpackLaws.UnpackWaitsIff`, `MapperReader.WithoutOneWorker`).
- Groups that one slice carries over to the next are never merged, because their id is compared with that
  of the group that has just started; so a reader that loses nothing would not help
  (`PackLaws.SlicesTogether`).
- Negative group ids are renumbered before they could be refused (`PackLaws.SquashContiguous`), and a user
  column `_index` is dropped by pack (`RoundTrip.PackDropsIndex`). A largest group id of -1, or an insert
  under the group id 0, is taken for "no group": the new rows get a null id, and pack then refuses the
  table (`AppendLaws.AppendKeepsGroups`, `InsertKeepsGroups`).
- A decline whose amount passed the tests before the lock can still fail, if and only if a reset lowered the
  limit below it in between and the current amount does not cover it (`LimiterRuns.DeclineRefused`,
  `RefusedOnlyAfterReset`, `TokenLimiter.DeclineGrantedIff`).
- Data lines of an event are joined with the empty string (`SseStream.DecodePrint`), lines end at LF only
  (`SplitCorrect`), and an event with an empty name and no data is not dispatched (`DecodePrinted`). This
  differs from section 9.2.6 of the WHATWG HTML Living Standard.
- A state that is loaded after a crash may lack the job or the task the action had already; the resumed
  action then creates another one, and so it does when an accepted job id is empty, or when exec is called
  on an action that has a task, and in no other case (`TrainSnapshots.CreatedAgainIff`,
  `RestoreCreatesAgain`, `ExecTwice`, `TrainProtocol.EmptyJobIdCreatesAgain`).
- A training that was resumed while waiting has a result without the input
  (`TrainProtocol.ResumedResultLacksInput`); a resume before the first exec fixes an empty input for good
  (`ResumeBeforeExec`); extra parameters and the checkpoint step are not written down (`LoadAfterPersist`).
- A negative retry count reports success without a request (`Retries.NegativeCountReportsSuccess`); when
  the token refresh fails, the error reported is the one that caused the refresh (`ReportedDiffersIff`);
  the constructor of a stream does not look at the answer to the last request it may send (`IgnoredIff`).
- Keys of query parameters are not encoded: every request with two parameters or more has another one with
  the same canonical query string, and a single parameter does if and only if its line splits into two in
  order with different keys (`QueryTwins.TwinIff`). The text that is hashed tells the verb, the URI, the
  query string and the headers apart, unless the verb, the URI or a key holds a line break
  (`SignedText.SignedTextIff`, `OtherRequestIff`).
- Inference in slices raises on a dataset without rows, inference without slices need not
  (`Partition.BatchOnServiceInSliceMode`).

## Model

| member | source | states |
|---|---|---|
| `Grouping.StableSortCorrect` | python/qianfan/dataset/table.py:796 | sorting by group id is ascending, loses and doubles nothing, and keeps the order inside every group |
| `Grouping.StableSortUnique` | python/qianfan/dataset/table.py:796 | the stable sort is the only ascending sequence with the same rows in every group |
| `Grouping.StableSortIdempotent` | python/qianfan/dataset/table.py:865-867 | the second sort, of rows that are already in order, changes nothing |
| `Grouping.IdsCorrect` | python/qianfan/dataset/table.py:801-812 | the distinct ids are listed once each, ascending |
| `Grouping.RunsAreGroups` | python/qianfan/dataset/table.py:886-927 | on ascending rows, cutting at every change of id gives exactly the group-by |
| `Grouping.GroupByOfSorted` | python/qianfan/dataset/table.py:865-927 | the runs of the sorted rows are the groups of the original rows |
| `Grouping.GroupsJoined` | python/qianfan/dataset/table.py:841-851 | the groups read in order are the sorted rows: no row lost, doubled or in an empty group |
| `PackLaws.RankIsPosition` | python/qianfan/dataset/table.py:801-811 | a squashed number is the position of the old id among the distinct ids |
| `PackLaws.SquashKeepsOrder` | python/qianfan/dataset/table.py:791-816 | squashing keeps which of two rows has the smaller id, and which have the same |
| `PackLaws.SquashContiguous` | python/qianfan/dataset/table.py:801-811 | the squashed ids are 0, 1, 2, ... without a gap |
| `PackedCells.SquashedColumns` | python/qianfan/dataset/table.py:791-816 | every other column is as it was, in the order of the old ids |
| `TableObject.Table.SquashGroupNumber` | python/qianfan/dataset/table.py:791-816 | the object ends with exactly the sorted, renumbered table |
| `TableObject.Table.CountGroups` | python/qianfan/dataset/table.py:801-811 | the counting loop yields the squashed number of every row |
| `MapperReader.TaskAt` | python/qianfan/dataset/data_source/utils.py:87-91 | slice k starts at k batches, is not empty, and all but the last are full |
| `MapperReader.TasksAdjoin` | python/qianfan/dataset/data_source/utils.py:87-91 | the slices follow one another without gap or overlap up to the last row |
| `MapperReader.DeliveredInOrder` | python/qianfan/dataset/data_source/chunk_reader.py:226-287 | under every interleaving of workers and reader the reader hands on the first so many, in order, of the chunks whose row offset equals its counter |
| `MapperReader.AllHandedOnIff` | python/qianfan/dataset/data_source/chunk_reader.py:262-287 | a reader that has stopped has handed on all of these if and only if all had been put when it last looked at the queue |
| `MapperReader.EveryNumberHappens` | python/qianfan/dataset/data_source/chunk_reader.py:245-287 | every number of them, from none to all, is handed on by some schedule |
| `MapperReader.MismatchLosesSlices` | python/qianfan/dataset/data_source/chunk_reader.py:271-283 | a schedule with two chunks: the second comes first, is put back, and the reader stops without having handed on any |
| `MapperReader.BlockedIff` | python/qianfan/dataset/data_source/chunk_reader.py:226-287 | a run can end with all workers done and the reader waiting for ever for a permit if and only if there are several slices of more than one row and the first chunk is not empty |
| `MapperReader.BlockedOnlyIf` | python/qianfan/dataset/data_source/chunk_reader.py:262-283 | such a reader has put a slice back and has handed on the first one, and nothing else |
| `MapperReader.BlockedForEver` | python/qianfan/dataset/data_source/chunk_reader.py:245-283 | in that state no step of any worker or of the reader is possible |
| `MapperReader.CanBeBlocked` | python/qianfan/dataset/data_source/chunk_reader.py:226-283 | the run that comes to it, for all such chunks |
| `MapperReader.GoesOn` | python/qianfan/dataset/data_source/chunk_reader.py:245-283 | in every other state something can still happen, until the reader has stopped and the workers are done |
| `MapperReader.RunsEnd` | python/qianfan/dataset/data_source/chunk_reader.py:226-287 | every run is over after at most 7 steps for each slice and 12 more |
| `MapperReader.WithoutOneWorker` | python/qianfan/dataset/data_source/chunk_reader.py:245-283 | when a worker raises, the reader stops at an empty chunk before that slice or never; if it stops, it has handed on all that match; with such a chunk it does not end up waiting |
| `MapperReader.LaterSlicesLost` | python/qianfan/dataset/data_source/chunk_reader.py:262-287 | with slices of more than one row no slice after the first is ever handed on, under any schedule |
| `MapperReader.SingleSliceArrives` | python/qianfan/dataset/data_source/chunk_reader.py:262-287 | a single slice arrives if and only if it had been put when the reader last looked at the queue |
| `MapperReader.SingleSliceCanBeLost` | python/qianfan/dataset/data_source/chunk_reader.py:262-287 | a concrete schedule in which the only slice is never read |
| `TableObject.Table.PopMarks` | python/qianfan/dataset/table.py:896-900 | a row loses `_index` and `_group`, and a plain string response becomes `[[s]]` |
| `TableObject.Table.TakeCarried` | python/qianfan/dataset/table.py:904-910 | the carried rows are dropped from the dictionary, and with ascending ids never merged |
| `TableObject.Table.PackSlice` | python/qianfan/dataset/table.py:873-927 | the closure of one slice yields its groups, keeps back an unfinished last one, and raises only on a negative id |
| `TableObject.Table.PackAll` | python/qianfan/dataset/table.py:869-937 | what a slice yields does not depend on what other slices have carried over |
| `TableObject.Table.MapPack` | python/qianfan/dataset/table.py:931-937 | the table read back from the slices of the ordered rows, or that the reader waits for ever, for every schedule |
| `TableObject.Table.ReadBack` | python/qianfan/dataset/table.py:931-937 | the reading of slices into a new table; it waits for ever when the reader is blocked |
| `TableObject.Table.Pack` | python/qianfan/dataset/table.py:838-938 | pack as a whole, under every schedule: its result and the table it leaves, including refusals and errors, or that the call waits for ever |
| `PackLaws.OrderedRows` | python/qianfan/dataset/table.py:861-867 | the marked rows are in order and pack like the original sorted rows |
| `PackLaws.PackFits` | python/qianfan/dataset/table.py:838-938 | with all rows in one slice, pack replaces the table by its stable group-by when the slice is handed on, and raises when it is not |
| `PackedCells.PackedElements` | python/qianfan/dataset/table.py:894-927 | cell by cell: the k-th packed row holds the rows with the k-th smallest id in their order, each with all columns but `_group` and `_index`, a string response s as `[[s]]`, everything else as it was |
| `PackedCells.PackRefuses` | python/qianfan/dataset/table.py:844-861 | pack returns False, table untouched, if and only if there is a single column or a null group id; it raises without a group column, without rows, or for a batch size that is not positive |
| `PackLaws.PackOverflows` | python/qianfan/dataset/table.py:902-937 | with more rows pack waits for ever, raises or yields fewer rows than there are groups, under every schedule |
| `PackLaws.PackIsGroupBy` | python/qianfan/dataset/table.py:838-938 | pack yields the stable group-by if and only if the rows fit in one slice and the schedule hands that slice on |
| `PackLaws.PackWaitsIff` | python/qianfan/dataset/table.py:838-938 | pack waits for ever if and only if the schedule blocks the reader, slices hold several but not all rows, and the first one has rows of two groups |
| `PackLaws.SlicesTogether` | python/qianfan/dataset/table.py:902-927 | even if every slice arrived in its place, the slices together are the group-by if and only if there is one slice |
| `TableObject.Table.ConstructRows` | python/qianfan/dataset/table_utils.py:30-36 | one packed cell becomes rows of its group; a cell that is no list of dicts raises |
| `TableObject.Table.UnpackSlice` | python/qianfan/dataset/table.py:977-991 | the closure of one slice numbers its cells by their position in the table |
| `TableObject.Table.UnpackAll` | python/qianfan/dataset/table.py:977-991 | the slices in turn, up to the first with a cell that is no list of dicts, where its worker ends |
| `TableObject.Table.ReadUnpacked` | python/qianfan/dataset/table.py:977-1000 | the slices read back as one table, or a reader that waits for ever; after a worker has ended the reading ends at an empty chunk or not at all |
| `TableObject.Table.Unpack` | python/qianfan/dataset/table.py:940-1000 | unpack as a whole, under every schedule: its result and the table it leaves, or that the call waits for ever |
| `UnpackLaws.UnpackIgnoresSlicing` | python/qianfan/dataset/table.py:983-986 | for every batch size the slices together are the elements of all cells: the slicing leaves no trace |
| `UnpackLaws.UnpackReadsCells` | python/qianfan/dataset/table.py:940-1000 | under every schedule: unpack waits for ever if the reader is blocked, which takes several slices of more than one cell; it raises if nothing is handed on; otherwise what comes back is the elements of the first cells, as many as are read |
| `UnpackLaws.UnpackFits` | python/qianfan/dataset/table.py:940-1000 | with all cells in one slice every element comes back under the number of its cell when the slice is handed on |
| `PackedCells.UnpackedElements` | python/qianfan/dataset/table_utils.py:30-36 | row by row: the elements of the first cell, then of the second, and so on, each with its own columns and the number of its cell as `_group` |
| `PackedCells.UnpackRefuses` | python/qianfan/dataset/table.py:940-976 | unpack returns False, table untouched, if and only if the table is not packed, has a null, or its first cell does not begin with a dict |
| `UnpackLaws.UnpackIsComplete` | python/qianfan/dataset/table.py:940-1000 | under every schedule and batch size unpack yields every element if and only if the reader is not blocked and no cell with elements is behind those read |
| `UnpackLaws.UnpackWaitsIff` | python/qianfan/dataset/table.py:977-1000 | with a cell that is no list of dicts unpack waits for ever, unless slices hold one cell and an empty cell comes before it |
| `RoundTrip.UnpackAfterPack` | python/qianfan/dataset/table.py:838-1000 | unpack after pack: all rows, stably sorted, ids renumbered from zero, responses in wrapped form |
| `RoundTrip.PackDropsIndex` | python/qianfan/dataset/table.py:864-897 | the elements of a packed table have all columns but `_group` and `_index`, so a column `_index` of the caller's own is lost |
| `RoundTrip.PackAfterUnpack` | python/qianfan/dataset/schema.py:32-45 | pack after unpack: the packed rows again, empty ones left out, which is what validating a packed table relies on |
| `RoundTrip.UnpackRuns` | python/qianfan/dataset/table.py:940-991 | unpacking the packed runs of any rows gives the rows back in order |
| `TableObject.Table.MarkElements` | python/qianfan/dataset/table.py:92-111 | which new elements get which group id, and when marking raises |
| `TableObject.Table.CreateNewTable` | python/qianfan/dataset/table.py:51-129 | the table of new rows for lists, dicts and strings, and every refusal |
| `TableObject.Table.CreateNewObj` | python/qianfan/dataset/table.py:818-836 | either this object changed, or a fresh one and this one left as it was |
| `TableObject.Table.Append` | python/qianfan/dataset/table.py:1120-1158 | append as a whole, on this object or on a new one |
| `TableObject.Table.Insert` | python/qianfan/dataset/table.py:193-240 | insert as a whole, at the end, at the start and in between |
| `AppendLaws.MaxIsLastId` | python/qianfan/dataset/table.py:1107-1109 | the largest id bounds all ids and occurs |
| `AppendLaws.LastSortedId` | python/qianfan/dataset/table.py:1107-1109 | and is the id of the last sorted row |
| `AppendLaws.AppendThenPack` | python/qianfan/dataset/table.py:1093-1158 | after an append, packing gives the old packed rows with the last one grown, one row added, or one row per element |
| `AppendLaws.AppendCommutesWithPack` | python/qianfan/dataset/table.py:1093-1158 | appending new groups and packing is packing and appending |
| `AppendLaws.AppendKeepsGroups` | python/qianfan/dataset/table.py:92-111 | new rows get an id if and only if the largest id is not -1; otherwise pack refuses the table |
| `AppendLaws.InsertKeepsGroups` | python/qianfan/dataset/table.py:1097-1104 | an insert puts the rows in place under the given id if and only if that id is not 0 |
| `AppendCases.ListAppended` | python/qianfan/dataset/table.py:92-111 | a list of dicts goes behind the rows, each under the largest id, the one after it, or counted up from there |
| `AppendCases.DictAppended` | python/qianfan/dataset/table.py:117-121 | a single dict goes behind the rows under the largest id, or in a new group under the one after it |
| `AppendCases.DictUnmarked` | python/qianfan/dataset/table.py:120-121 | with the largest id -1 it gets none |
| `AppendCases.PlainAppended` | python/qianfan/dataset/table.py:51-129 | a table without groups gets the rows as they are, missing cells null, with the columns of both |
| `AppendCases.PackedAppended` | python/qianfan/dataset/table.py:71-82 | which cells a packed table gains for every kind of element, and what it refuses |
| `AppendCases.AppendRaises` | python/qianfan/dataset/table.py:51-129 | in the other tables append raises for all but a dict and a list of dicts that is not empty |
| `AppendCases.NullIdRaises` | python/qianfan/dataset/table.py:96-121 | with null ids alone append raises for a dict and for new groups |
| `AppendCases.InsertedLikeAppended` | python/qianfan/dataset/table.py:193-240 | an insert without a group id is an append whose new rows stand before the given position |
| `AppendCases.InsertIgnoresId` | python/qianfan/dataset/table.py:1093-1118 | the id given goes for grouped tables only |
| `AppendCases.InsertOutside` | python/qianfan/dataset/table.py:218-222 | a position outside of the table is refused |
| `TokenLimiter.RefillIffMinuteChanged` | python/qianfan/resources/token_limiter.py:129-136 | the code's test holds if and only if the calendar minute, counted from the epoch, changed |
| `TokenLimiter.SleepReachesNextMinute` | python/qianfan/resources/token_limiter.py:182-183 | after the sleep the clock is in a later minute |
| `TokenLimiter.DeclineGrantedIff` | python/qianfan/resources/token_limiter.py:175-187 | a decline is granted if and only if the amount is within what the first check finds or within the limit, and one sleep decides it |
| `TokenLimiter.LoopAfterFailures` | python/qianfan/resources/token_limiter.py:176-183 | after failed rounds the loop goes on as from a fresh start in the state they left |
| `LimiterAmounts.LimitIsBuffered` | python/qianfan/resources/token_limiter.py:108-110 | the limit is n less its buffer, cut off toward zero |
| `LimiterAmounts.BufferLowersLimit` | python/qianfan/resources/token_limiter.py:108-110 | for n > 0 and a ratio from 0 to 1 the limit is at most n * (1 - ratio) and above that less one |
| `LimiterAmounts.NineHundred` | python/qianfan/resources/token_limiter.py:108-110 | for example 900 for a limit of 1000 and a tenth kept back |
| `LimiterAmounts.NewLimit` | python/qianfan/resources/token_limiter.py:95-115 | of a new limiter, n being the limit of the caller or else the configured one; all of it is at hand |
| `LimiterAmounts.ResetSets` | python/qianfan/resources/token_limiter.py:210-236 | of a reset, n being the smaller of the own and the reported limit; what was used stays used as far as the new limit goes |
| `LimiterAmounts.ResetChangesNothing` | python/qianfan/resources/token_limiter.py:210-221 | a reset to the own limit, and every later one, changes no amount |
| `LimiterAmounts.DeclineTakes` | python/qianfan/resources/token_limiter.py:175-187 | a decline takes exactly its amount from what is at hand at its last look, or nothing; the log tells of it |
| `LimiterAmounts.ClearedAtHand` | python/qianfan/resources/token_limiter.py:189-196 | after a clear nothing is at hand up to the end of the minute, then all of the limit |
| `LimiterAmounts.CompensatedAtHand` | python/qianfan/resources/token_limiter.py:198-208 | a compensation adds its amount up to the end of the minute |
| `LimiterAmounts.CompensationUndoes` | python/qianfan/resources/token_limiter.py:167-208 | compensating what was granted undoes the decline |
| `LimiterAmounts.SleepEndsInNextMinute` | python/qianfan/resources/token_limiter.py:182-183 | the sleep ends in the very next minute |
| `LimiterRuns.CheckKeepsBudget` | python/qianfan/resources/token_limiter.py:129-136 | the refill keeps the limiter within the budget its log accounts for |
| `LimiterRuns.DeclineKeepsBudget` | python/qianfan/resources/token_limiter.py:167-187 | so does a decline with all its rounds, which touches only the current amount and the time stamp |
| `LimiterRuns.CreditKeepsBudget` | python/qianfan/resources/token_limiter.py:198-208 | so does a compensation, which the log records |
| `LimiterRuns.ResetKeepsInv` | python/qianfan/resources/token_limiter.py:210-236 | so does the reset, also when it opens a closed limiter |
| `LimiterRuns.NextKeepsInv` | python/qianfan/resources/token_limiter.py:167-236 | so does every step of every thread, both tests before the lock included |
| `LimiterRuns.MinuteQuota` | python/qianfan/resources/token_limiter.py:129-208 | over every run, the tokens granted in one calendar minute are within the limit at the refill of that minute plus the compensation since |
| `LimiterRuns.LedgerIsExact` | python/qianfan/resources/token_limiter.py:129-208 | over every run without clear, reset and negative compensation, what is at hand is the limit plus what was credited less what was granted |
| `LimiterRuns.ResetNeverRaises` | python/qianfan/resources/token_limiter.py:222-231 | the reset never raises the limit of an open limiter |
| `LimiterRuns.ResetKeepsUsage` | python/qianfan/resources/token_limiter.py:227-232 | the reset keeps the amount used unless clamped at zero, and never leaves a negative amount |
| `LimiterRuns.LimitStep` | python/qianfan/resources/token_limiter.py:210-236 | the limit moves only in the step that sets the flag, and downwards unless closed |
| `LimiterRuns.ResetAtMostOnce` | python/qianfan/resources/token_limiter.py:210-236 | over every interleaving the limit changes at most once |
| `LimiterRuns.RefusedOnlyAfterReset` | python/qianfan/resources/token_limiter.py:167-236 | over every run, a decline that passed both tests before the lock is refused under the lock only if a reset took the limit below its amount after the second of them |
| `LimiterRuns.DeclineRefused` | python/qianfan/resources/token_limiter.py:167-236 | a run in which that happens |
| `LimiterObject.SyncTokenLimiter.constructor` | python/qianfan/resources/token_limiter.py:95-115 | a new limiter with its buffered limit, or with the configured one when none is given |
| `LimiterObject.SyncTokenLimiter.RefreshTimeAndToken` | python/qianfan/resources/token_limiter.py:129-136 | the refill and the new time stamp |
| `LimiterObject.SyncTokenLimiter.Decline` | python/qianfan/resources/token_limiter.py:167-187 | decline as a whole: disabled, too large, granted or given up, and the state it leaves |
| `LimiterObject.SyncTokenLimiter.DeclineLocked` | python/qianfan/resources/token_limiter.py:175-187 | three rounds of checking and sleeping, against the recursive specification |
| `LimiterObject.SyncTokenLimiter.Clear` | python/qianfan/resources/token_limiter.py:189-196 | clear sets the amount to zero unless the limiter is closed |
| `LimiterObject.SyncTokenLimiter.Compensate` | python/qianfan/resources/token_limiter.py:198-208 | compensation is credited if the lock is free in time |
| `LimiterObject.SyncTokenLimiter.ResetOnceTo` | python/qianfan/resources/token_limiter.py:210-236 | the one-time reset, all its branches |
| `SseStream.SplitCorrect` | javascript/src/streaming/index.ts:385-398 | lines and leftover are a cut of the bytes at their line feeds; the leftover is what follows the last one |
| `SseStream.CutUnique` | javascript/src/streaming/index.ts:385-398 | there is no other such cut |
| `SseStream.SplitConcat` | javascript/src/streaming/index.ts:140-153 | cutting the stream anywhere and keeping the leftover for the next chunk changes nothing |
| `SseStream.SplitTerminated` | javascript/src/streaming/index.ts:385-398 | terminated lines split into themselves |
| `SseStream.PartitionAt` | javascript/src/streaming/index.ts:320-327 | partition cuts at the first delimiter |
| `SseStream.DecodeConcat` | javascript/src/streaming/index.ts:37-74 | decoding lines in two portions is decoding them in one |
| `SseStream.MessagesConcat` | javascript/src/streaming/index.ts:133-155 | what a chunk adds depends only on the leftover and the decoder state before it |
| `SseStream.MessagesOnlyGrow` | javascript/src/streaming/index.ts:133-155 | emitted messages stay; more bytes only add behind them |
| `SseStream.NothingAfterDone` | javascript/src/streaming/index.ts:164-171 | nothing behind the first done message matters |
| `SseItems.ItemsUpTo` | javascript/src/streaming/index.ts:164-189 | the items are those of all messages before the first done message or failure, in order: no name or one of the three names gives the parsed item, other names give nothing; that message says how it ends |
| `SseItems.Stops` | javascript/src/streaming/index.ts:164-189 | there is exactly one such place |
| `SseItems.FieldWithoutSpace` | javascript/src/streaming/index.ts:54-64 | a field line without the space behind the colon |
| `SseItems.FieldWithoutColon` | javascript/src/streaming/index.ts:54-64 | and without a colon |
| `SseItems.SkippedLine` | javascript/src/streaming/index.ts:50-66 | a comment or another field changes nothing but the raw lines |
| `SseItems.BlankLine` | javascript/src/streaming/index.ts:37-48 | a blank line ends an event, or does nothing at all |
| `SseItems.SkippedLinesGiveNothing` | javascript/src/streaming/index.ts:37-66 | without comments and unknown fields the same items come out |
| `SseStream.FieldLine` | javascript/src/streaming/index.ts:60-64 | a printed field line gives back name and value, leading spaces of the value included |
| `SseStream.DecodePrinted` | javascript/src/streaming/index.ts:37-74 | one printed event is decoded to itself, and to nothing exactly when it has neither a name nor data |
| `SseStream.DecodePrint` | javascript/src/streaming/index.ts:37-74 | printing events and decoding the lines gives the events back, the data lines joined without separator |
| `SseStream.PrintedBytes` | javascript/src/streaming/index.ts:133-155 | the same through bytes |
| `SseItems.PrintedEvents` | javascript/src/streaming/index.ts:129-189 | printed events with any names: those that are heard give their items, in order |
| `SseItems.NamelessEvents` | javascript/src/streaming/index.ts:129-189 | an ordinary stream of events without names, however it is cut, gives the item of every event, in order |
| `SseObjects.SSEDecoder.Decode` | javascript/src/streaming/index.ts:37-74 | one line through the decoder object |
| `SseObjects.SplitUint8Array` | javascript/src/streaming/index.ts:385-398 | the one-pass loop computes the cut |
| `SseObjects.SseReader.Feed` | javascript/src/streaming/index.ts:140-153 | one chunk yields exactly the messages the whole stream gains by it |
| `SseObjects.SseReader.IterMessages` | javascript/src/streaming/index.ts:133-155 | for every way of cutting the body, messages and leftover are those of the whole body; a second reading is refused |
| `SseObjects.Iterate` | javascript/src/streaming/index.ts:157-205 | the items up to the first done message or error, and whether the request is aborted |
| `SseObjects.ReadStream` | javascript/src/streaming/index.ts:129-205 | items and ending depend on the bytes, not on the chunks |
| `Tee.BranchesSeeTheSource` | javascript/src/streaming/index.ts:266-288 | under every interleaving both branches see prefixes of one sequence, the source is pulled as often as the busier one asked, and one queue is empty |
| `Tee.TeeIterator.NextOn` | javascript/src/streaming/index.ts:271-282 | one call of next() on a branch |
| `TrainSnapshots.CreatedAgainIff` | python/qianfan/trainer/pipeline.py:97-118 | over calls in any order and with any saved state loaded at any point, its fields read at different moments too: a second job or task is created if and only if a loaded state lacks the one the live action had, or a job id was empty, and a creation is accepted later; or a call creates the task the action has |
| `TrainSnapshots.Balance` | python/qianfan/trainer/actions.py:621-931 | over every such run: created plus regained is lost plus created with an empty id plus created though there plus what the action has |
| `TrainSnapshots.CreationsBounded` | python/qianfan/trainer/actions.py:621-931 | never more than one creation more than losses, empty ids and creations of what was there |
| `TrainSnapshots.OnlyExecRepeats` | python/qianfan/trainer/actions.py:621-738 | only exec creates what the action has already, and only a task |
| `TrainSnapshots.OneExecRepeatsNothing` | python/qianfan/trainer/actions.py:621-738 | with one exec no call does |
| `TrainSnapshots.ExecTwice` | python/qianfan/trainer/actions.py:621-738 | for every input and all replies: exec called twice creates one job and two tasks |
| `TrainSnapshots.RestoreCreatesAgain` | python/qianfan/trainer/actions.py:914-931 | for every input and all replies: killed while waiting and loaded from before the creations, the action creates a second job and a second task |
| `TrainSnapshots.TornSaveCreatesAgain` | python/qianfan/trainer/actions.py:881-931 | the job read before it was created and the task after: the action that is loaded has the task without its job, and creates both again |
| `TrainSnapshots.CreatedAtMostOnceIff` | python/qianfan/trainer/actions.py:621-841 | with states saved and loaded at once: at most one task, which every poll is about, and a second job if and only if an accepted id was empty and another is accepted; never if no reply is an empty id |
| `TrainSnapshots.PollsAreOfCreatedTasks` | python/qianfan/trainer/actions.py:740-811 | whatever is loaded, every poll is about a task that was created |
| `TrainSnapshots.CallCreates` | python/qianfan/trainer/actions.py:650-738 | a call creates exactly what it asks for and gets a usable reply to, and keeps the rest of the state |
| `TrainSnapshots.TrailEnds` | python/qianfan/trainer/actions.py:621-841 | the states a call passes through end with the one it leaves |
| `TrainSnapshots.TrailOfExec` | python/qianfan/trainer/actions.py:640-738 | an exec first fixes the input, then sets the job, then the task |
| `TrainSnapshots.TrailOfPoll` | python/qianfan/trainer/actions.py:755-790 | a poll first sets the status, then the progress |
| `TrainSnapshots.NewestIsLive` | python/qianfan/trainer/pipeline.py:97-118 | the newest state saved is that of the live action |
| `TrainProtocol.EmptyJobIdCreatesAgain` | python/qianfan/trainer/actions.py:659-673 | a job id that is the empty string is taken for none and the job is created again |
| `TrainProtocol.ResultStays` | python/qianfan/trainer/actions.py:823-825 | once there is a result, every later resume returns it and calls nobody |
| `TrainProtocol.LoadAfterPersist` | python/qianfan/trainer/actions.py:878-931 | saving and loading keeps the protocol state; the next request is the same if and only if there were no extras and no checkpoint step |
| `TrainProtocol.WaitContinues` | python/qianfan/trainer/actions.py:740-811 | polling that is broken off and taken up again is polling without a break |
| `TrainProtocol.ResumedResultLacksInput` | python/qianfan/trainer/actions.py:731-736 | a resumed training makes the same calls, but its result lacks the input |
| `TrainProtocol.ResumeBeforeExec` | python/qianfan/trainer/actions.py:838-841 | a resume before the first exec fixes an empty input: every exec after it raises |
| `TrainProtocol.ApplyKeepsInv` | python/qianfan/trainer/actions.py:621-841 | what each operation keeps of the protocol state |
| `TrainResults.ExecResult` | python/qianfan/trainer/actions.py:726-738 | an exec whose task finishes brings the metrics and checkpoints of that poll, the ids of task and job, and every other key of the input |
| `TrainResults.ResumeResult` | python/qianfan/trainer/actions.py:826-837 | a resume of a task that is there brings the same four and nothing else |
| `TrainResults.ResumeIsExec` | python/qianfan/trainer/actions.py:838-841 | without a task a resume is an exec with the input the action has |
| `TrainResults.ExecCalls` | python/qianfan/trainer/actions.py:659-722 | an exec creates a job unless it has one, then asks for a task with these datasets, extras, previous task and step, and polls that task alone |
| `TrainResults.ExecRaises` | python/qianfan/trainer/actions.py:650-722 | what is left when datasets are missing, or no job or no task is created |
| `TrainResults.Waited` | python/qianfan/trainer/actions.py:740-811 | status and progress while the task waits |
| `TrainResults.WaitEnds` | python/qianfan/trainer/actions.py:740-811 | how the polling ends, by the last poll |
| `TrainObject.TrainAction.constructor` | python/qianfan/trainer/actions.py:459-536 | a new action; an incremental one takes over the job of the task it continues |
| `TrainObject.TrainAction.FromMeta` | python/qianfan/trainer/actions.py:914-931 | the object made from what was written down |
| `TrainObject.TrainAction.ToMeta` | python/qianfan/trainer/actions.py:881-912 | what is written down brings back the whole state but the checkpoint step and the extras |
| `TrainObject.TrainAction.WaitModelTrained` | python/qianfan/trainer/actions.py:740-811 | the polling loop, its status and progress, and how it ends |
| `TrainObject.TrainAction.ExecInner` | python/qianfan/trainer/actions.py:650-738 | creating job and task and waiting, with the state after a failure at any call |
| `TrainObject.TrainAction.Exec` | python/qianfan/trainer/actions.py:621-648 | exec with the first input it ever saw |
| `TrainObject.TrainAction.Resume` | python/qianfan/trainer/actions.py:814-841 | resume: the result, the polling, or the whole again |
| `AccessTokens.RefreshesAreSpaced` | go/qianfan/auth.go:108-151 | in every run, two successful refreshes of one credential are at least the minimum interval apart |
| `AccessTokens.WithinInterval` | go/qianfan/auth.go:108-122 | a refresh within the interval returns the last token and calls nobody; other credentials are never touched |
| `AccessTokens.LookupGivesLast` | go/qianfan/auth.go:94-106 | a lookup hits exactly when the credential was refreshed, and gives the last token |
| `AccessTokens.RefreshKeepsInv` | go/qianfan/auth.go:108-151 | the cache always holds what the last refresh of each credential brought |
| `AccessTokens.IntervalFromAnswer` | go/qianfan/auth.go:108-151 | a token is stored with the time after the request, where the interval begins; no other credential is touched |
| `AccessTokens.SkippedChangesNothing` | go/qianfan/auth.go:112-122 | a refresh within the interval gives the token that is there |
| `AccessTokens.RefusedChangesNothing` | go/qianfan/auth.go:135-142 | one that is refused changes nothing |
| `AccessTokens.WaitsIff` | go/qianfan/auth.go:94-106 | a caller goes on to a refresh exactly if the credential has never been refreshed |
| `AccessTokens.AuthManager.GetAccessToken` | go/qianfan/auth.go:94-106 | a hit leaves everything as it is, a miss is a refresh |
| `AccessTokens.AuthManager.GetAccessTokenWithRefresh` | go/qianfan/auth.go:108-151 | the refresh under the lock |
| `Retries.RetryBound` | go/qianfan/base_model.go:241-315 | with a count of N >= 1: at most N + 1 attempts, one refresh, and an end at the first success, the first final error, or after all counted attempts |
| `Retries.LoopConcludes` | go/qianfan/base_model.go:241-270 | the measure (free retry, attempts left) falls with every attempt |
| `Retries.AnswerDecides` | go/qianfan/base_model.go:241-309 | what every code leads to: success, a free attempt after the first 110 or 111, a counted one, or the end |
| `Retries.FailureDecides` | go/qianfan/base_model.go:241-309 | what a broken request and a failed refresh lead to |
| `Retries.NilMeansSuccess` | go/qianfan/base_model.go:272-315 | no error is reported if and only if the last attempt succeeded |
| `Retries.ReportedDiffersIff` | go/qianfan/base_model.go:284-315 | the error reported is not the one the loop ended with if and only if the last attempt met the first token code and the refresh failed with another error |
| `Retries.RefreshErrorIsHidden` | go/qianfan/base_model.go:292-315 | an example: the refresh does not get through and the expired token is reported |
| `Retries.NegativeCountReportsSuccess` | go/qianfan/base_model.go:241-244 | a negative count reports success without a single attempt |
| `Retries.BoundIsTight` | go/qianfan/base_model.go:241-270 | N + 1 attempts happen, for every N |
| `Retries.UnboundedMayNotEnd` | go/qianfan/base_model.go:243-244 | with the count 0 the loop need not end |
| `Retries.StreamRetryBound` | go/qianfan/base_model.go:137-192 | the loop of the stream constructor: at most N + 1 requests, and only a stream is opened |
| `Retries.DocumentDecides` | go/qianfan/base_model.go:137-192 | what every code of an error document leads to |
| `Retries.ReplyDecides` | go/qianfan/base_model.go:137-192 | a stream is opened, a broken body ends the loop, a negative count is an internal error |
| `Retries.OpensIff` | go/qianfan/base_model.go:137-192 | the stream that answers request k is opened if and only if every answer before it led to another request and k is below the count, plus one if a token was refreshed; the count 0 included |
| `Retries.IgnoredIff` | go/qianfan/base_model.go:137-192 | it is at hand and not opened if and only if it answers the last request that may be sent |
| `Retries.CheckResponseError` | go/qianfan/base_model.go:137-192 | the loop with its counters and flag, against the recursive specification |
| `Retries.LastStreamIsIgnored` | go/qianfan/base_model.go:137-192 | a stream that answers the very last request is reported as an error |
| `Retries.RequestLoop.RequestFunc` | go/qianfan/base_model.go:284-309 | one attempt, the shared error and the flag |
| `Retries.RequestLoop.RequestResource` | go/qianfan/base_model.go:272-315 | the loop with its captured variables, against the recursive specification |
| `Tokens.DefaultWeights` | go/qianfan/tokenizer.go:54-80 | with the default weights the estimate is five eighths per Han character, rounded down, plus the words |
| `Tokens.HanArePositions` | go/qianfan/tokenizer.go:65-68 | the number of positions with a Han character is counted |
| `Tokens.WordsAreRuns` | go/qianfan/tokenizer.go:68-79 | blanking out and splitting counts the maximal runs of word characters |
| `Tokens.EstimateConcat` | python/qianfan/resources/token_limiter.py:31-58 | the estimate of two texts together: exactly when it is one more or one less than the sum, and never further off |
| `Tokens.WordsConcat` | go/qianfan/tokenizer.go:68-79 | words of a concatenation: one less than the sum if and only if a word runs across the joint |
| `Tokens.Scan` | go/qianfan/tokenizer.go:65-77 | the loop over the characters |
| `Tokens.CountNonEmpty` | python/qianfan/resources/token_limiter.py:57 | the pieces that are not empty |
| `Tokens.LocalCountTokens` | go/qianfan/tokenizer.go:53-81 | the whole estimate with weights of the caller's choice |
| `Truncation.ProcessWithInputLimit` | go/qianfan/chat_completion.go:430-472 | a suffix is kept: all messages behind its first one fit, and nothing was cut off or with the first one it does not fit |
| `Truncation.LimitInForce` | go/qianfan/chat_completion.go:436-443 | the limits of the endpoint go before those of the model, those before the ones of the unspecified model |
| `Truncation.CharsOfAll` | go/qianfan/chat_completion.go:459 | all characters of all messages are counted |
| `Truncation.TokensOfAll` | go/qianfan/chat_completion.go:457-460 | messages are estimated one by one |
| `Truncation.KeptWholeIff` | go/qianfan/chat_completion.go:451-469 | nothing is cut off if and only if all messages but the oldest stay within the limits or meet them |
| `Truncation.GenerousKeepsMore` | go/qianfan/chat_completion.go:451-469 | more generous limits never keep less; the cut is unique |
| `Truncation.CutAgain` | go/qianfan/chat_completion.go:395-428 | a request that is cut again on its second sending keeps what the tighter cut leaves of the original history |
| `Truncation.CutTwice` | go/qianfan/chat_completion.go:451-471 | cutting twice to the same limits is cutting once |
| `Percent.TwoPasses` | javascript/src/HttpClient/strings.ts:24-33 | encodeURIComponent and the five extra escapes together encode exactly the characters that are not unreserved |
| `Percent.NormalSafe` | javascript/src/HttpClient/strings.ts:24-33 | only unreserved characters and percent signs come out |
| `SignedHeaders.NormalOfAscii` | javascript/src/HttpClient/strings.ts:24-33 | which ASCII characters stay, and the triplet every other one becomes |
| `Percent.DecodeNormal` | javascript/src/HttpClient/auth.ts:58-82 | decoding the encoding gives the string back |
| `Percent.Utf8Inverse` | javascript/src/HttpClient/strings.ts:24 | UTF-8 and back |
| `Percent.Utf16Inverse` | javascript/src/HttpClient/strings.ts:24 | surrogate pairs and back |
| `Lines.SortCorrect` | javascript/src/HttpClient/auth.ts:148 | the sort orders the lines and keeps them |
| `Lines.SortForgetsOrder` | javascript/src/HttpClient/auth.ts:148 | two lists sort to the same if and only if they have the same lines equally often |
| `SignedHeaders.OrderIsLexicographic` | javascript/src/HttpClient/auth.ts:148 | the order is that of the code units |
| `Lines.JoinedInjective` | javascript/src/HttpClient/auth.ts:155 | lines that hold no separator can be told from their join |
| `CanonicalRequest.HeaderLineReads` | javascript/src/HttpClient/auth.ts:144 | name and value are read off a header line |
| `SignedHeaders.LinesWritten` | javascript/src/HttpClient/auth.ts:117-144 | a header is written as name:value, a parameter as key=value |
| `CanonicalRequest.HeadersIgnoreOrder` | javascript/src/HttpClient/auth.ts:125-156 | the canonical headers depend only on the multiset of signed pairs, also in when they throw |
| `CanonicalRequest.HeadersInjective` | javascript/src/HttpClient/auth.ts:125-156 | their text is the same if and only if the multisets of signed pairs are |
| `CanonicalRequest.SignedNamesRecovered` | javascript/src/HttpClient/auth.ts:150-153 | decoding the list of signed names gives back the names of the signed pairs |
| `CanonicalRequest.NamesTextInjective` | javascript/src/HttpClient/auth.ts:52-56 | the signed names joined with semicolons are the same if and only if the multisets of names are, except that a single empty name looks like none |
| `SignedHeaders.SignedIff` | javascript/src/HttpClient/auth.ts:125-146 | a pair is signed if and only if some header has that lower-cased name and that value, trimmed and neither missing nor an empty string, and the name begins with `x-bce-` or is asked for; without any asked for it is host, content-md5, content-length or content-type |
| `SignedHeaders.SignedAsOften` | javascript/src/HttpClient/auth.ts:125-146 | and as often as there are such headers |
| `SignedHeaders.DateIsSigned` | javascript/src/HttpClient/auth.ts:143 | for example `x-bce-date`, whatever is asked for |
| `SignedHeaders.NamesWritten` | javascript/src/HttpClient/auth.ts:53 | several names are joined with semicolons |
| `CanonicalRequest.HeadersCanonicalization` | javascript/src/HttpClient/auth.ts:125-156 | the loops and the sort against that specification, default names, `x-bce-` prefix, empty values and lone surrogates included |
| `CanonicalRequest.QueryIgnoresOrder` | javascript/src/HttpClient/auth.ts:108-123 | the canonical query string does not depend on the order of parameters |
| `SignedHeaders.SentAsOften` | javascript/src/HttpClient/auth.ts:108-118 | every parameter but `authorization` in any case goes into the query string, missing values as empty ones |
| `QueryTwins.AdmissibleIff` | javascript/src/HttpClient/auth.ts:108-114 | the pairs a request can give are those with different keys, none of them `authorization` in any case |
| `QueryTwins.TwinIff` | javascript/src/HttpClient/auth.ts:108-123 | for every request: another request with the same canonical query string exists if and only if there are two parameters or more, or the line of the single one can be taken for two lines in order, with different keys that are not skipped |
| `QueryTwins.PlainTwinIff` | javascript/src/HttpClient/auth.ts:108-123 | without ampersands in the keys: if and only if there are two parameters or more, and every such other request has an ampersand in a key |
| `QueryTwins.OneKeyForAll` | javascript/src/HttpClient/auth.ts:117 | any number of parameters have the same canonical string as a request with one whose key holds all lines but the last value |
| `QueryTwins.FirstKeyDiffers` | javascript/src/HttpClient/auth.ts:117-120 | of lines in order, the first key is never that of the other lines taken for one |
| `CanonicalRequest.OneKeyForTwo` | javascript/src/HttpClient/auth.ts:117 | any two parameters have the same canonical string as one whose key holds the first of them |
| `CanonicalRequest.QueryCollides` | javascript/src/HttpClient/auth.ts:117 | a concrete pair of different requests with the same canonical query string |
| `CanonicalRequest.QueryStringCanonicalization` | javascript/src/HttpClient/auth.ts:108-123 | the loop against that specification, `authorization` in any case and absent values included |
| `SignedText.SignedTextIff` | javascript/src/HttpClient/auth.ts:48 | for requests without line breaks in verb and URI, the text that is hashed is the same if and only if verb, URI, canonical query string and the multiset of signed headers are; line breaks in keys included |
| `SignedHeaders.TextInOrder` | javascript/src/HttpClient/auth.ts:48 | verb, URI, query string and headers stand on lines of their own, in this order |
| `SignedText.OtherRequestIff` | javascript/src/HttpClient/auth.ts:48 | for every request: a different one with the same text exists if and only if the verb or the URI breaks the line, or the query string does and goes on with a key that is not skipped |
| `SignedText.NoOtherRequest` | javascript/src/HttpClient/auth.ts:48 | so there is none without line breaks in the verb, the URI and the keys |
| `SignedText.QueryBreaks` | javascript/src/HttpClient/auth.ts:117 | a canonical query string breaks the line if and only if a key does |
| `SignedText.CutAtQuery` | javascript/src/HttpClient/auth.ts:48 | a query string that is not empty ends at the first line break behind its last `=` |
| `Partition.EvaluateSample` | python/qianfan/evaluation/evaluation_manager.py:170-183 | the pre-processors and evaluators of one sample, first to last, with any of them raising |
| `Partition.OutputAfter` | python/qianfan/evaluation/evaluation_manager.py:170-173 | a chain of outputs, each made by a pre-processor of the one before it, ends in the processed output |
| `Partition.MetricsOfSample` | python/qianfan/evaluation/evaluation_manager.py:170-183 | the evaluators see the output of the last pre-processor; of several that report a metric of the same name the last one has it |
| `Partition.EvaluationRaises` | python/qianfan/evaluation/evaluation_manager.py:170-183 | an evaluation raises if and only if a pre-processor or an evaluator raises, or there is no evaluator |
| `Partition.EvalWorker` | python/qianfan/evaluation/evaluation_manager.py:156-185 | one worker evaluates the rows of its range in order, or nothing when the range is empty |
| `Partition.OneSectorEach` | python/qianfan/evaluation/evaluation_manager.py:196-209 | every row belongs to exactly one sector, and that sector has a worker |
| `Partition.SectorIsShortest` | python/qianfan/evaluation/evaluation_manager.py:196 | no shorter sectors hold all rows |
| `Partition.WorkerRange` | python/qianfan/evaluation/evaluation_manager.py:203-204 | the range a worker is given holds exactly the rows of its sector |
| `Partition.GetEvalTaskFuture` | python/qianfan/evaluation/evaluation_manager.py:187-211 | one future per worker with the evaluation of its sector |
| `Partition.RunEvaluatorLocally` | python/qianfan/evaluation/evaluation_manager.py:213-231 | for every number of rows and workers the collected results are those of the sequential evaluation, errors included |
| `Partition.SequentialConcat` | python/qianfan/evaluation/evaluation_manager.py:219-223 | evaluating two stretches and putting the results together is evaluating both |
| `Partition.WindowsCover` | python/qianfan/dataset/dataset.py:1607-1610 | the inclusive windows put together are the dataset, and only the last one can be short |
| `Partition.InvisibleIff` | python/qianfan/dataset/dataset.py:1599-1614 | inference by windows is inference on the whole, for every dataset and size, if and only if the service handles every row by itself |
| `Partition.BatchOnServiceInSliceMode` | python/qianfan/dataset/dataset.py:1599-1614 | each window is sent once, in order; no slicing for a size that is not positive; an empty dataset raises |

## Left out

- UnpackAfterPack: needs each table to fit in one slice and the slice to be handed on; PackIsGroupBy, PackWaitsIff and UnpackReadsCells say exactly what happens otherwise. The same goes for PackAfterUnpack and AppendCommutesWithPack.
- TakeSlice: a start behind the end of the requested window is an error here; no caller in the model asks for one.
- HTTP, sockets, JSON, configuration files and logging: remote calls are parameters with arbitrary outcomes.
- pyarrow storage: memory-mapped cache files, chunking, column types, duplicate column names, group columns that are not integers.
- Aliasing: append writes the group id into the caller's own dicts, so a dict that occurs twice is marked twice; here elements are values.
- The wrapped tables keep no other attributes: what a new object copies from the old one beside the table is not modelled.
- Reading without keeping the order of slices, and the time-out of the queue, which is never empty when the reader takes from it.
- The asynchronous limiter, a copy of the synchronous one with another lock.
- Floating point: weights, buffer ratio and backoff are exact reals; ceil(n / c) is taken of the exact quotient.
- Backoff sleeping between retries, which changes no state, and the bearer token manager.
- Response bodies that are missing, aborted requests, the conversions of a stream to and from a readable stream, and byte-order marks and invalid bytes in the text decoder.
- Validation of training configurations, the stop request, events, log links, and the look-up of the previous task when an incremental action is loaded.
- HMAC, SHA-256, time stamps and the assembly of the authorization header; how the canonical URI comes from the address; values of parameters that are not strings.
- The tables of model limits and the prefix that is cut off an endpoint's URL.
- Unicode tables: the three character classes are a parameter, of which the theorems use that a space is blank; so is lower-casing, of which they use that it changes the letters from A to Z in ASCII strings, and that no key with an ampersand becomes `authorization`.
- Column operations, sampling, shuffling, deletion and mapping of tables, prompt and model management, the browser and the command line: nothing there is hard to prove.
