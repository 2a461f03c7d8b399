# Usenet and debrid downloads: a verified model

This project models the parts of the repository that carry state across many steps or depend on
exact index and byte bookkeeping, and proves what they guarantee. Each module follows one part of
the code.

- **Connections** (`ConnectionPool`, `PoolMachine`, `Race`, `Retry`, `Failover`, `FailoverLaws`,
  `FailoverOutcomes`): one provider's stack of idle connections with its reaper; every interleaving of
  the goroutines that use it, one step per channel operation or locked region; the race for the first
  free slot; the retry loop; and the failover around it, whose environment is a script, so that a
  statement about all scripts is one about all behaviours of the network.
- **Availability** (`Nntp`, `IndexRound`, `BatchStat`, `StatCodes`, `RepairBank`, `CheckFile`,
  `FileCodes`): the batched STAT across providers against a reference that handles one message alone,
  and its verdicts in terms of the codes that servers send; the token bank; chunks, workers and the
  decision about a file, with the sample it rests on.
- **Codecs** (`Yenc`, `YencRoundTrip`, `Cbc`, `CbcReader`, `DeriveKeys`): the line decoder and its
  reader against the encoding rules; the decrypting reader with its buffers; the key derivation.
- **Download** (`Download`): parallel fetching, ordered writing, error paths.
- **Index, reconciliation, queue** (`Fingerprint`, `EntryIndex`, `IndexLaws`, `IndexMachine`,
  `UnnoticedChanges`, `Placements`, `Reconcile`, `JobQueue`): the name index and the health records,
  first operation by operation and then interleaved call by call; the comparison with a provider's
  torrents; and the job queue with its condition variable.

`Octets`, `Powers`, `Counting`, `Runs` and `Wrappers` hold what several modules share.

Code that updates state in place is a class whose methods are proved against functions of the old
state; the laws are proved about those functions. Goroutines are agents of a machine, and the laws
hold for every run of it.

Where the code does not do what its surroundings suggest, the code is modelled as it is, and the
exact condition or a concrete run is proved:

- a connection race that is abandoned after a winner was received keeps that winner's slot
  (`Race.AbandonedLeaksExactlyTheWinner`);
- a not-found reply of a fallback provider is charged to the original provider's backbone
  (`FailoverLaws.StrayAttemptBlamesWrongBackbone`, with the exact condition in
  `FailoverLaws.RoundEarnsBackbone` and `FailoverLaws.EarnedExactly`);
- when all providers share a backbone, a not-found reply is reported as a lack of eligible providers
  (`FailoverOutcomes.SharedBackboneHidesNotFound`);
- overlapping `put` calls can leave the idle stack out of time order, and the reaper then misses
  expired connections (`PoolMachine.OverlappingPutsMissExpired`, `ConnectionPool.ReapExact`);
- a login refused with code 430 reads as a missing article (`BatchStat.LoginFailureLooksMissing`);
- draining the decoder leaves the terminator unread after a `=yend` line, though the comment on
  `GetHeaderPrefix` calls the connection reusable (`YencRoundTrip.ConnectionAfterDrain`);
- an incomplete last cipher block is reported or not depending on the sizes of the reads
  (`CbcReader.ReadBySize`, `CbcReader.TruncationGoesUnreported`);
- bodies that are too short make a download succeed with fewer bytes (`Download.ExpectedSize`);
- a change of an item goes unnoticed when the process ends before its mark, when a record loaded
  before the mark is saved after it, or when it comes between the enumeration of the item and the end
  of its probe (`UnnoticedChanges`); `IndexMachine.StepKeeps` has the exact condition, and
  `IndexMachine.TurnsStayCovered` what would avoid it.

## Model

| member | source | states |
|---|---|---|
| `ConnectionPool.ReapExact` | internal/nntp/client.go:748-780 | The sweep leaves exactly the entries that have not expired, in order, if and only if no live entry lies below an expired one |
| `ConnectionPool.ReapMissesBuried` | internal/nntp/client.go:753-764 | An expired entry above a live one survives the sweep, which stops at the first live entry |
| `ConnectionPool.SortedReap` | internal/nntp/client.go:748-780 | On a stack in time order the prefix scan leaves exactly the entries used in the last 20 seconds, which are its upper part, and the stack stays in time order |
| `ConnectionPool.TakeUsableMostRecent` | internal/nntp/client.go:602-640 | From a stack in time order a caller gets the most recently used usable connection, which is healthy and was used in the last 20 seconds unless it bears no time, and none exactly when there is none |
| `ConnectionPool.TakeUsableSplits` | internal/nntp/client.go:602-640 | What is popped before the result is unusable, what lies below it stays |
| `ConnectionPool.ProviderPool.Push` | internal/nntp/client.go:219-228 | The locked part of put: pushes unless the stack is at capacity |
| `ConnectionPool.ProviderPool.Pop` | internal/nntp/client.go:603-631 | Pops the top entry and clears its cell |
| `ConnectionPool.ProviderPool.TakeIdle` | internal/nntp/client.go:602-640 | The pop loop computes the function about which the laws above are proved |
| `ConnectionPool.ProviderPool.Reap` | internal/nntp/client.go:748-779 | The scan and the in-place shift compute the sweep of the laws above, and no freed cell keeps a pointer |
| `ConnectionPool.ProviderPool.DropBottom` | internal/nntp/client.go:767-776 | The in-place shift keeps exactly the upper entries in order and clears the freed cells |
| `PoolMachine.ConnectionBound` | internal/nntp/client.go:187-242 | In every run, idle, checked-out and dialling connections together never exceed the maximum, though idle ones hold no slot |
| `PoolMachine.PutNeverFindsStackFull` | internal/nntp/client.go:219-226 | The branch of put for a full stack cannot be reached |
| `PoolMachine.FreeingNeverBlocks` | internal/nntp/client.go:187-242 | Giving back a slot never blocks: the slot channel then holds one |
| `PoolMachine.CheckedOutOnce` | internal/nntp/client.go:602-640 | No connection is in two hands, or in a hand and on the stack |
| `PoolMachine.HandsOutNewOrRecent` | internal/nntp/client.go:602-641 | In every run an agent comes to use a connection only by dialling a new one, when the stack was empty at its look, or by popping one that had lain there for at most 20 seconds |
| `PoolMachine.OnlySlotsAreWaitedFor` | internal/nntp/client.go:407-424 | In every run a slot can be taken exactly when fewer than the limit are, and an agent that has one always has a step that moves it on |
| `PoolMachine.CloseEmptiesForGood` | internal/nntp/client.go:1190-1222 | Once the client is closed nothing is stacked any more, but for puts under way at that time |
| `PoolMachine.AtomicPutsSweepExactly` | internal/nntp/client.go:213-228 | When no put takes its stamp while another is between stamp and push, however long each takes, every sweep of every run removes exactly the expired entries, and a pop gives the most recently used one |
| `PoolMachine.InstantPutsSweepExactly` | internal/nntp/client.go:213-228 | The same for puts that may overlap as long as the clock stands still between stamp and push |
| `PoolMachine.OverlappingPutsMissExpired` | internal/nntp/client.go:213-228 | A concrete run in which two puts overlap (the stamp is taken before the lock) and a sweep misses an expired entry |
| `PoolMachine.RunKeepsInv` | internal/nntp/client.go:187-242 | What every step of a run keeps: slots counted, connections exclusive, the bound |
| `Race.ReturnsWithOneSlotOrNone` | internal/nntp/client.go:487-598 | In every run: when the race returns a connection all goroutines have exited and exactly the winner's slot is held, on an error none |
| `Race.AbandonedLeaksExactlyTheWinner` | internal/nntp/client.go:584-595 | When the caller's context ends first, a slot stays held for good if and only if a winner had been received |
| `Race.LeakingRun` | internal/nntp/client.go:584-595 | A concrete run of that leak with one provider |
| `Race.RunsAreShort` | internal/nntp/client.go:487-598 | Every goroutine finishes: no schedule of n goroutines has more than 6n + 3 steps |
| `Race.NeverStuck` | internal/nntp/client.go:487-598 | A race that is not over can take a step of its own, neither a slot coming free nor the caller's doing, if and only if there is more to do than wait for a busy pool; so it can when cancelled, and when every dial has failed |
| `Nntp.NotFoundExcludesExactly` | internal/nntp/client.go:887-933 | A not-found reply rules out exactly the providers of the same backbone, or of the same host when no backbone is named, besides those ruled out before |
| `Nntp.HostExcludesExactly` | internal/nntp/client.go:889-921 | Excluding a host rules out exactly the providers on it, besides those ruled out before, and at first nobody is ruled out |
| `Nntp.CaseDoesNotMatter` | internal/nntp/client.go:919-921 | Case does not matter in the name of a backbone |
| `Nntp.SpacesDoNotMatter` | internal/nntp/client.go:919-921 | Nor do spaces before or behind it |
| `Nntp.NormalStays` | internal/nntp/client.go:919-921 | A name without capitals and outer spaces stays as it is |
| `Nntp.CodesMean` | internal/nntp/errors.go:140-163 | Which reply codes are taken for which kind of error: not-found exactly for 430 and 423, busy exactly for 400 and 503, and so on |
| `Retry.Do` | internal/retry/retry.go:121-196 | Runs at most the limit; every run but the last failed recoverably with an error that the filter lets pass, in a context that had not ended, and the wait after it, of the listed delay, was not cut; it ends for exactly one of the listed reasons, and hands the last error on as it is or wrapped |
| `Retry.BackOffDoublesUpToCap` | internal/retry/retry.go:172-184 | With back-off the k-th wait is the delay times 2^(k-1), capped; the first wait is not capped |
| `Retry.FixedDelay` | internal/retry/retry.go:172-184 | Without back-off all waits after the first are the delay or a positive cap, whichever is less |
| `Retry.UncappedBackOff` | internal/retry/retry.go:172-184 | With back-off and no cap they double without end; a delay that is not positive stays |
| `Retry.AttemptsForRetries` | internal/nntp/client.go:350-356 | A negative retry count gives one attempt, and so does the largest one, by wrap-around |
| `Failover.Pools.ExecuteWithFailover` | internal/nntp/client.go:274-393 | On every path the call ends holding the slots it began with; every slot it took was freed exactly once and to its own pool, but for those of abandoned races, whose pools are listed exactly; result and executions are those about which the laws on whole calls are proved |
| `Failover.Pools.RunRound` | internal/nntp/client.go:283-366 | One round takes a connection, runs the retry closure and gives back what is left; it keeps no slot but those of abandoned races |
| `Failover.Pools.TryRound` | internal/nntp/client.go:292-356 | One round of the retry closure: exactly one slot goes in, and the one of the returned connection, if any, comes out |
| `Failover.Pools.Renew` | internal/nntp/client.go:304-329 | After a transient error: the dead connection is released, a fresh one taken, and swapped for one of the original provider when that works |
| `Failover.Pools.GetAny` | internal/nntp/client.go:443-477 | First eligible provider with a free slot whose dial works, else the winner of the race; a failed dial gives its slot back, and a race abandoned after its winner was received keeps that winner's slot |
| `Failover.Pools.GetFrom` | internal/nntp/client.go:407-424 | Takes one slot of that provider and keeps it with a connection; a failed dial gives it back |
| `Failover.Pools.ReturnOrRelease` | internal/nntp/client.go:395-404 | Either way the one slot of the connection goes back to its own pool |
| `Failover.Pools.Release` | internal/nntp/client.go:234-242 | Closes the connection and frees a slot of the pool it names itself |
| `Failover.Pools.Put` | internal/nntp/client.go:187-231 | Frees a slot of the pool the caller names, which must be the one it came from |
| `FailoverLaws.SuccessIsLastExecution` | internal/nntp/client.go:274-393 | Over all scripts: success means that the last execution succeeded, all others failed, and the number of executions is bounded by providers times attempts |
| `FailoverLaws.KeepsAtMostOne` | internal/nntp/client.go:584-595 | Over all scripts in which the caller's context stays ended: a call keeps at most one slot for good, and none when no race is abandoned |
| `FailoverLaws.MadeMeans` | internal/nntp/client.go:292-356 | The number of attempts of a round, read off the script: the last is the first that is not transient, finds no fresh connection, has its wait cut or reaches the limit, or the one before the context has ended |
| `FailoverLaws.RoundStaysHome` | internal/nntp/client.go:311-329 | All executions of a round run on its own provider if and only if each fresh connection is one of it or is swapped for one |
| `FailoverLaws.RoundEarnsBackbone` | internal/nntp/client.go:292-386 | Some execution of a round was told not-found on the backbone that the round is charged to, if and only if its last attempt was; a stray last attempt or a login refused as not-found charges a backbone that said nothing |
| `FailoverLaws.RoundEarnsHost` | internal/nntp/client.go:292-393 | Whatever error a round ends with, other than the end of the context, its own provider has failed in it, so an excluded host always deserves it |
| `FailoverLaws.EarnedExactly` | internal/nntp/client.go:274-393 | Over all scripts: every excluded backbone said not-found in the round that excludes it, if and only if in each of these rounds the last attempt was told so on that backbone |
| `FailoverLaws.PassedOverJustified` | internal/nntp/client.go:364-386 | Under exactly that condition every provider that is passed over had failed itself or shares a backbone with one that said not-found |
| `FailoverLaws.HomeIsOnTarget` | internal/nntp/client.go:311-386 | A round whose fresh connections are all of its own provider meets the condition, unless a login was refused as not-found |
| `FailoverLaws.StrayAttemptBlamesWrongBackbone` | internal/nntp/client.go:364-386 | A concrete run in which a not-found of a fallback provider excludes the backbone of the original one, so that a provider that might have the article is never asked |
| `FailoverOutcomes.MovesOn` | internal/nntp/client.go:274-393 | Over all scripts: whatever transient failures, panics and not-found replies come from the other providers, the call succeeds when some provider, alone on its host and backbone, is always free, always dials and always serves, and the context lasts |
| `FailoverOutcomes.ReportsLast` | internal/nntp/client.go:366-392 | With every provider ready, none sharing a host or backbone, and only such failures, the call reports what came of its last execution |
| `FailoverOutcomes.GivesUp` | internal/nntp/client.go:374-385 | Over all scripts: an execution that fails otherwise than transiently, with not-found or in a panic is the last one of the call, and the call reports its failure |
| `FailoverOutcomes.SharedBackboneHidesNotFound` | internal/nntp/client.go:364-392 | When all providers are on one backbone, a not-found reply ends the asking, but the call reports it if and only if there is a single provider; otherwise it reports that none is eligible |
| `FailoverOutcomes.BusyRoundsArePassed` | internal/nntp/client.go:283-287 | Rounds in which no connection is to be had are passed over, and the call succeeds on the connection that a later round gets |
| `FailoverOutcomes.NoConnectionAtAll` | internal/nntp/client.go:283-392 | When no round gets a connection nothing is run, and the error is that of the last round |
| `FailoverOutcomes.RunsAgain` | internal/nntp/client.go:301-329 | After a transient failure the operation runs again in the same round, on a connection of the original provider if one is to be had and else on that of the first one ready |
| `FailoverOutcomes.RunsNoMore` | internal/nntp/client.go:301-314 | A transient failure of the last attempt is reported; one after which no fresh connection is to be had gives the reason for that |
| `FailoverOutcomes.RunsOnce` | internal/nntp/client.go:331-348 | Every other failure ends the round with itself |
| `FailoverOutcomes.EndsWithContext` | internal/nntp/client.go:278-281 | The end of the context ends the round, the wait for another attempt and the call |
| `FailoverOutcomes.FirstIsTaken` | internal/nntp/client.go:443-473 | A connection is taken of the first provider that is not ruled out, free and within reach |
| `FailoverOutcomes.WinnerIsTaken` | internal/nntp/client.go:475-477 | With none free the winner of the race is taken, unless the race was abandoned; then its slot stays taken |
| `BatchStat.PipelinedStat` | internal/nntp/conns.go:569-610 | Results are aligned with the ids; the result of an id is read off the code of its own response, and after a lost connection every later entry carries the error |
| `BatchStat.StatOnProvider` | internal/nntp/client.go:1173-1187 | A provider out of reach replies with no results and its error; otherwise the reply is that of the connection |
| `BatchStat.BatchStatAcrossProviders` | internal/nntp/client.go:1069-1171 | The method with its index lists returns, for each message, the verdict about which the laws on reply codes are proved, or an error exactly when its context ended |
| `BatchStat.EachAsIfAlone` | internal/nntp/client.go:1069-1171 | Each message ends in the state that it reaches alone, folding the providers in order with its own exclusions, on the answers in its own slots |
| `BatchStat.SlotIsOwn` | internal/nntp/client.go:1108-1149 | A hit is a reply to the message's own id: the two positions into list and reply never drift apart |
| `BatchStat.BatchingChangesNothing` | internal/nntp/client.go:1069-1171 | With servers that look at each id by itself, asking in one batch gives what asking alone gives |
| `BatchStat.AloneMeaning` | internal/nntp/client.go:1134-1151 | What the flags of a message say about the providers it asked |
| `BatchStat.MissingExactly` | internal/nntp/client.go:1134-1168 | Missing is reported exactly when every provider asked said not-found, if and only if some provider had the message or the last error of a provider in trouble does not read as not-found |
| `BatchStat.AvailableExactly` | internal/nntp/client.go:1127-1168 | Available is reported exactly when some asked provider had it |
| `BatchStat.LastErrorIsReported` | internal/nntp/client.go:1134-1168 | A message that was not found and met with an error is reported with the last error that a provider that was asked gave, and one that nobody was asked for as a connection error |
| `BatchStat.LoginFailureLooksMissing` | internal/nntp/errors.go:142-163 | A provider whose login fails with code 430 makes the message look missing: not-found is told from the code alone |
| `BatchStat.EveryMessageAnswered` | internal/nntp/client.go:1153-1170 | Every message is either available or carries an error |
| `BatchStat.AfterTracks` | internal/nntp/client.go:1072-1151 | The unresolved list always names exactly the messages not found so far, in order |
| `BatchStat.AskProvider` | internal/nntp/client.go:1086-1150 | One turn of the provider loop |
| `BatchStat.BuildQuery` | internal/nntp/client.go:1086-1097 | The two lists that go into the query |
| `BatchStat.MarkFailed` | internal/nntp/client.go:1099-1106 | A failed batch marks exactly the messages in it |
| `BatchStat.ReadReply` | internal/nntp/client.go:1108-1149 | The loop over the unresolved messages beside the reply |
| `BatchStat.ReadSlot` | internal/nntp/client.go:1116-1147 | The branches for one answer |
| `BatchStat.Conclude` | internal/nntp/client.go:1153-1168 | The verdicts of the messages that were not found |
| `StatCodes.AnswerOfCode` | internal/nntp/conns.go:581-609 | A message counts as found exactly when the response in its slot had code 223, as missing exactly at 430 and 423, and as undecided, never as missing, at every other code, after a loss and without a connection |
| `StatCodes.AvailableFromCode` | internal/nntp/client.go:1125-1132 | A message is reported available only if some provider that was asked for it answered 223 |
| `StatCodes.MissingFromCode` | internal/nntp/client.go:1134-1158 | A message is reported not-found only if some provider that was asked for it answered 430 or 423, or one was out of reach with an error that reads as not-found |
| `StatCodes.HadIsAvailable` | internal/nntp/client.go:1069-1132 | A message that one provider, apart from the others, always answers with 223 is reported available |
| `StatCodes.NowhereIsMissing` | internal/nntp/client.go:1069-1158 | A message that all providers always answer with 430 or 423 is reported not-found |
| `StatCodes.UndecidedIsNotMissing` | internal/nntp/client.go:1140-1164 | A provider, apart from the others, that never gives a definite answer keeps a message from being reported not-found |
| `StatCodes.LostIsReported` | internal/nntp/conns.go:589-600 | When the connection to the only provider is lost before the first response, every message is reported with that error |
| `StatCodes.NotAskedAgain` | internal/nntp/client.go:1089-1092 | Once a provider has said not-found, no other one on its backbone is asked for the message |
| `StatCodes.NotInBatchAgain` | internal/nntp/client.go:1089-1097 | The message is then in none of their batches |
| `IndexRound.RoundAt` | internal/nntp/client.go:1086-1150 | One round: the k-th item that asks takes the step for slot k, all others stay as they are |
| `IndexRound.RoundTracks` | internal/nntp/client.go:1086-1150 | After a round the list again names exactly the items that are not done |
| `RepairBank.CapacityIsCeiling` | internal/nntp/repair_bank.go:22-38 | The capacity is the percentage of all connections rounded up, lies between one and all, and no clamp changes it |
| `RepairBank.NewRepairBank` | internal/nntp/repair_bank.go:18-58 | The bank starts full with that capacity, 20 percent by default and at most all, and there is none exactly when there are no connections |
| `RepairBank.Bank.Acquire` | internal/nntp/repair_bank.go:71-84 | Returns with a token that was free, or without one because the context has ended |
| `RepairBank.Bank.Release` | internal/nntp/repair_bank.go:71-84 | Gives one token back |
| `RepairBank.ConnectionsWithinBudget` | internal/nntp/client.go:984-1013 | In every run of any number of concurrent calls, the connections that batchStatOnProvider has taken and not given back never exceed the capacity, and free tokens and token holders add up to it |
| `RepairBank.EveryChunkDeliveredOnce` | internal/nntp/client.go:976-1018 | When the workers of a call have exited, each of its chunks has been delivered exactly once |
| `RepairBank.NoDeadlock` | internal/nntp/client.go:984-1013 | As long as a worker has not exited some worker can go on without any context having to end |
| `RepairBank.WorkIsBounded` | internal/nntp/client.go:984-1013 | Apart from asking providers, the workers of all calls together take at most two steps for every chunk and two for every worker |
| `CheckFile.SampleSpreads` | pkg/usenet/usenet.go:461-515 | For 1 to 99 percent of more than three segments: max(2, n * p / 100) samples at strictly increasing positions from first to last |
| `CheckFile.SampleSegments` | pkg/usenet/usenet.go:461-515 | The whole file at 100 percent or more and up to three segments; first and last segment always; in all branches exactly the positions of the spread |
| `CheckFile.SampledWhole` | pkg/usenet/usenet.go:468-492 | At 100 percent or more, and for up to three segments, the sample is the whole file |
| `CheckFile.SampledSize` | pkg/usenet/usenet.go:477-483 | Otherwise it has the given share of the segments, rounded down, and at least two |
| `CheckFile.SampledSpread` | pkg/usenet/usenet.go:496-510 | Sample k between the ends is segment 1 + (n - 2) k / (m + 1) of n, for m samples in between |
| `CheckFile.RunGivesOrder` | internal/nntp/client.go:976-1018 | In every run with other calls, whatever acquires fail: once a call's workers have exited, what they delivered lists each chunk of the call once, which is the order that Collect starts from |
| `CheckFile.SampleMiddle` | pkg/usenet/usenet.go:496-510 | The samples between the ends |
| `CheckFile.MiddlePick` | pkg/usenet/usenet.go:501-508 | The index clamp never changes the index |
| `CheckFile.Collect` | internal/nntp/client.go:1020-1066 | For every order in which chunks finish, result i is that of message i in its own chunk, and the counters are right |
| `CheckFile.Place` | internal/nntp/client.go:1025-1044 | A chunk changes exactly its own messages |
| `CheckFile.Tally` | internal/nntp/client.go:1050-1065 | The counting loop |
| `CheckFile.TotalsAddUp` | internal/nntp/client.go:1046-1066 | Found, not found and errors make up the total |
| `CheckFile.Decide` | pkg/usenet/usenet.go:425-456 | Missing exactly when some result is not-found |
| `CheckFile.ResultIsVerdict` | internal/nntp/client.go:942-1067 | The collected result of message i is the verdict on message i |
| `CheckFile.CheckSample` | internal/nntp/client.go:942-1067 | For every fate of the chunks and every order of completion: results, totals and decision agree with the verdicts on the single messages |
| `CheckFile.CheckFileAvailability` | pkg/usenet/usenet.go:405-457 | A missing segment is reported exactly when the verdict on some sampled segment is not-found, at 100 percent on some segment of the file, and never when the whole batch fails |
| `FileCodes.FullCheck` | pkg/usenet/usenet.go:405-457 | A full check reports a file missing when some segment is lacked by all providers, which always answer 430 or 423, and not missing when every segment is had by one, apart from the others, that always answers 223 |
| `FileCodes.MissingWasTold` | internal/nntp/client.go:942-1067 | A segment's verdict is not-found only if some provider answered 430 or 423 when asked for it in its chunk, or one was out of reach with an error that reads as not-found |
| `FileCodes.NowhereIsToldMissing` | internal/nntp/client.go:942-1067 | A segment that all providers always answer with 430 or 423 has that verdict if its chunk is checked |
| `FileCodes.HadIsToldAvailable` | internal/nntp/client.go:942-1067 | A segment that one provider, apart from the others, always answers with 223 is available if its chunk is checked |
| `YencRoundTrip.RoundTrip` | internal/nntp/yenc/decoder.go:149-199 | For every legal encoding, with or without a =ypart line, every line division and dot-stuffing (section 3.1.1 of RFC 3977), decoding gives the original bytes if and only if no data line looks like a control line |
| `YencRoundTrip.DraftRoundTrip` | internal/nntp/yenc/decoder.go:149-199 | Under the escaping rule of yEnc draft 1.3 it always does |
| `YencRoundTrip.DraftLineIsNotControl` | internal/nntp/yenc/decoder.go:166-176 | Under that rule no encoded line looks like a control line |
| `YencRoundTrip.UnescapeInverts` | internal/nntp/yenc/decoder.go:182-196 | Unescaping undoes the encoding of a line |
| `YencRoundTrip.ProcessEncoded` | internal/nntp/yenc/decoder.go:149-199 | A stuffed data line is never taken for the terminator, and for a control line exactly when its text starts like one |
| `YencRoundTrip.UnstuffedLine` | internal/nntp/yenc/decoder.go:155-164 | Without the stuffing of the transport a data line survives exactly when it is no control line, no lone dot and starts with no two dots |
| `YencRoundTrip.CleanLinesDecode` | internal/nntp/yenc/decoder.go:149-199 | Data lines decode to their bytes and decoding goes on behind them |
| `YencRoundTrip.ControlLinesLose` | internal/nntp/yenc/decoder.go:166-176 | A data line that looks like a control line loses bytes |
| `YencRoundTrip.ConnectionAfterDrain` | internal/nntp/conns.go:270-308 | Draining leaves the connection at the next response if and only if the article has no =yend line; otherwise the terminator is left unread, against what the comment there says |
| `YencRoundTrip.NeedlessEscapeCutsOff` | internal/nntp/yenc/decoder.go:173-176 | A data line that reads as =yend, made by escaping a byte without need |
| `Yenc.Decoder.ProcessLine` | internal/nntp/yenc/decoder.go:149-199 | The branches for one line, in their order |
| `Yenc.Decoder.DecodeData` | internal/nntp/yenc/decoder.go:182-196 | The unescaping loop |
| `Yenc.Decoder.Turn` | internal/nntp/yenc/decoder.go:124-146 | One turn of the loop in fill |
| `Yenc.Decoder.Fill` | internal/nntp/yenc/decoder.go:120-147 | Reads lines until one yields bytes, and terminates on every finite input |
| `Yenc.Decoder.Read` | internal/nntp/yenc/decoder.go:76-118 | Every byte of the decoding is delivered once and in order; a short read means the end; a failure means that the connection has failed |
| `Yenc.Decoder.DeliversPrefix` | internal/nntp/yenc/decoder.go:76-118 | What has been delivered is a prefix of the decoding of all lines at once, and all of it once the decoder is done |
| `Yenc.ReadAll` | internal/nntp/yenc/decoder.go:76-118 | Reads of any sizes give a prefix of the decoding: as many bytes as asked for, or all there are, unless the connection fails |
| `Yenc.ReadSteady` | internal/nntp/yenc/decoder.go:76-118 | From a connection that does not fail, reads of any sizes give exactly the first bytes of the decoding, as many as asked for or all |
| `Yenc.BytesDecode` | internal/nntp/yenc/decoder.go:182-196 | A byte decodes to itself less 42, and one behind an escape to itself less 106, modulo 256 |
| `Yenc.WordsSpelled` | internal/nntp/yenc/decoder.go:166-176 | The control words as the code spells them |
| `Yenc.NothingBeforeBegin` | internal/nntp/yenc/decoder.go:166-181 | No line before =ybegin is data |
| `Cbc.DecryptBlocks` | internal/crypto/crypto.go:119-133 | Block j of the plaintext is the deciphered block combined with the ciphertext block before it (section 6.2 of NIST SP 800-38A) |
| `Cbc.DecryptBytes` | internal/crypto/crypto.go:119-133 | Byte by byte: every byte of the plaintext is that of the deciphered block, combined with the byte sixteen places before it in the ciphertext, and in the first block with that of the vector |
| `Octets.XorBits` | internal/crypto/crypto.go:74-76 | Bit by bit what combining two bytes does |
| `Cbc.RoundTrip` | internal/crypto/crypto.go:119-133 | Decryption undoes encryption |
| `Cbc.DecryptSplit` | internal/crypto/crypto.go:119-133 | Decrypting in two chained parts is decrypting in one |
| `CbcReader.Source.ReadAtLeast` | internal/crypto/crypto.go:189-219 | Reads up to the minimum across short reads, and tells an end before the first byte from one after it |
| `CbcReader.DecryptReader.Read` | internal/crypto/crypto.go:177-234 | For every length asked for and all short reads below: the next bytes of the plaintext are delivered, all of them by the end of the stream, the buffers keep their invariant, an incomplete last block is reported exactly when its bytes had not been read before, and a failure means that the stream below has failed |
| `CbcReader.DecryptReader.SmallRead` | internal/crypto/crypto.go:185-202 | Reads below one block |
| `CbcReader.DecryptReader.LargeRead` | internal/crypto/crypto.go:204-233 | Reads of whole blocks into the caller's buffer, keeping the incomplete one |
| `CbcReader.DecryptReader.FillBlock` | internal/crypto/crypto.go:186-196 | The buffered bytes and the ones read complete one block |
| `CbcReader.DecryptReader.FillBlocks` | internal/crypto/crypto.go:204-220 | Buffered and read bytes form one stretch of the ciphertext |
| `CbcReader.DecryptReader.KeepRemainder` | internal/crypto/crypto.go:220-227 | What is kept and what is decrypted make up what was read |
| `CbcReader.DecryptReader.DeliversPrefix` | internal/crypto/crypto.go:177-234 | Delivered bytes are a prefix of the decryption of all whole blocks |
| `CbcReader.ReadAll` | internal/crypto/crypto.go:162-234 | Any sequence of read sizes gives the decryption of all whole blocks unless the stream below fails; with reads below one block an incomplete last block never goes unreported |
| `CbcReader.ReadBySize` | internal/crypto/crypto.go:177-233 | Reads of one size of at least a block, from a stream that gives all it can: all whole blocks are delivered, and an incomplete last block is reported if and only if it stands alone in the last stretch taken |
| `CbcReader.TruncationGoesUnreported` | internal/crypto/crypto.go:204-233 | 24 bytes of ciphertext end without an error when read with a buffer of 32 bytes and with one when read with 16, for the same 16 bytes of plaintext |
| `CbcReader.ReadBack` | internal/crypto/crypto.go:162-234 | What was encrypted comes back, in full when the stream below does not fail |
| `DeriveKeys.DeriveKeys` | internal/crypto/crypto.go:45-102 | The one shared pass gives what three runs of PBKDF2 (section 5.2 of RFC 8018) with c, c + 16 and c + 32 iterations give, where c is two to the count for counts from 0 to 63 and else one, and the salt is cut to 64 bytes; the check value is the fold of the last with four checksum bytes |
| `DeriveKeys.Pbkdf2Means` | internal/crypto/crypto.go:54-81 | Every byte of PBKDF2 is that byte of a chain of keyed hashes, all combined, each hash of the one before it and the first of the salt and a one |
| `DeriveKeys.ThreeKeys` | internal/crypto/crypto.go:54-81 | Each loop starts in the state the one before has left |
| `DeriveKeys.Extend` | internal/crypto/crypto.go:69-81 | The loop for one key takes the state from c iterations to c plus its own turns |
| `DeriveKeys.Iterate` | internal/crypto/crypto.go:70-78 | One turn: u is hashed and combined into t byte by byte |
| `DeriveKeys.CountOfIterations` | internal/crypto/crypto.go:50-66 | Shifting and decrementing a 64-bit integer gives 2^k for k from 0 to 63 and one iteration for all other counts |
| `DeriveKeys.Fold` | internal/crypto/crypto.go:83-91 | Byte j of the in-place fold is the combination of bytes j, j + 8, j + 16 and j + 24 |
| `DeriveKeys.FoldIsFour` | internal/crypto/crypto.go:87-90 | The loop over 24 bytes brings in exactly those four |
| `DeriveKeys.VerifyPassword` | internal/crypto/crypto.go:106-116 | True exactly for equal values |
| `Download.Download` | pkg/usenet/download.go:28-184 | For every order of steps the download ends; what is written is laid out as the wanted parts of the bodies in order, up to a bad segment or a failed write, inside which it then ends; no error means that there are segments, all fetched and none with its start behind its data, and that all is written; every error is the one it says, and without a failed write or a cancelled context there is a bad segment behind it |
| `Download.AccountMeans` | pkg/usenet/download.go:73-159 | Byte by byte: what lies at the place of a segment is the stretch of its body from its start and of at most its size |
| `Download.NothingFrom` | pkg/usenet/download.go:140-153 | Nothing is written of a segment that could not be fetched or whose start lies behind its data, nor of any later one |
| `Download.Schedule` | pkg/usenet/download.go:44-169 | Workers and writer interleaved in any way within the bounds on running workers and on the channel, some step always possible, until nothing is left |
| `Download.Writer.Receive` | pkg/usenet/download.go:60-109 | The writer's invariant under a result in any order: output is exactly the segments before the first missing one |
| `Download.Writer.Flush` | pkg/usenet/download.go:73-108 | Writes all consecutive segments and stops at the first gap or failed write |
| `Download.Writer.WriteNext` | pkg/usenet/download.go:75-96 | One write: counters and position move only when it succeeds |
| `Download.Writer.NothingBeyond` | pkg/usenet/download.go:60-109 | Nothing of a segment that has not arrived, nor of any later one, is written |
| `Download.Writer.AllWritten` | pkg/usenet/download.go:60-109 | Once all have arrived without a failed write, everything is written |
| `Download.CutIsSlice` | pkg/usenet/download.go:140-159 | A segment contributes the stretch of its body from its start and of at most its size, and fails exactly when the start lies behind the data |
| `Download.ExpectedSize` | pkg/usenet/download.go:145-157 | A body that is too short goes unnoticed: the result has the expected size exactly when none was |
| `Download.Workers.Start` | pkg/usenet/download.go:119-131 | A worker gives up when it sees an error of the writer or a cancelled context |
| `Download.Workers.Send` | pkg/usenet/download.go:133-160 | Each started worker sends one result for its own segment |
| `Fingerprint.PrintTellsApart` | pkg/storage/repair.go:407-441 | With an injective hash and names without NUL: equal fingerprints if and only if equal names, hashes, sizes, deletion marks and byte ranges |
| `Fingerprint.TextInjective` | pkg/storage/repair.go:418-440 | The hashed text determines the files |
| `Fingerprint.RecordInjective` | pkg/storage/repair.go:422-439 | A record can be read off the front of a text |
| `Fingerprint.DecimalInjective` | pkg/storage/repair.go:428-436 | Numbers are told apart by their decimal form |
| `Fingerprint.SortedIsUnique` | pkg/storage/repair.go:412-416 | The sorted names do not depend on the order in which the map is walked |
| `Fingerprint.RepairFingerprint` | pkg/storage/repair.go:407-441 | Collecting, sorting and writing gives that fingerprint in every order of the map |
| `EntryIndex.SkippedWhenSettled` | pkg/storage/repair.go:257-277 | The sweep skips an entry at some time exactly when its record is not dirty and says that it was checked and is healthy or unsupported |
| `EntryIndex.DueWhenAged` | pkg/storage/repair.go:257-277 | Such a record becomes due exactly when it has reached the age of a positive interval, and never without one |
| `EntryIndex.ChangedFilesLeaveDirty` | pkg/storage/entry.go:196-287 | Every index operation that is carried through and changes what the fingerprint covers leaves the record dirty and due at any time, or removes item and record together |
| `EntryIndex.UpdatedTwice` | pkg/storage/entry.go:211-249 | Adding the same entry again changes nothing in the index |
| `EntryIndex.AddedAgain` | pkg/storage/entry.go:211-249 | An entry whose files are merged already changes nothing when it is added, and so asks for no probe |
| `IndexLaws.LaterFileStays` | pkg/storage/entry.go:228-238 | Of two files under one name the later added one stays, of two added at one time the one that is there unless the sizes differ; all others stay, and other names are untouched |
| `IndexLaws.AddedInAnyOrder` | pkg/storage/entry.go:228-238 | Two entries may be added in any order when they have no two different files of one name and time |
| `IndexLaws.OrderDecides` | pkg/storage/entry.go:228-238 | Otherwise the order decides which of the two stays, unless a later one is there |
| `IndexLaws.OwnFilesGo` | pkg/storage/entry.go:252-287 | Removing an entry takes exactly the files of its names that come from it; the item goes with its last file, and its record with it; other names are untouched |
| `IndexLaws.AddedAndRemoved` | pkg/storage/entry.go:211-287 | Adding an entry and removing it again gives the former files back if and only if none of them came from the entry and none had to give way |
| `IndexLaws.MarkAsks` | pkg/storage/repair.go:370-385 | A mark makes the entry due and says why; what is known of its files stays |
| `IndexLaws.ProbeSettles` | pkg/manager/repair_sweep.go:204-232 | A probe that ends healthy or unsupported settles the record about the files it picked until it has aged; with any other outcome the entry stays due |
| `IndexLaws.ProbeCutShort` | pkg/manager/repair_sweep.go:184-197 | While a probe goes on the entry is due, and when a restart cuts it short the record is as before, but for its protocol |
| `IndexLaws.ClearedIsDue` | pkg/manager/repair_sweep.go:804-820 | A record whose broken files are cleared is due at any time |
| `EntryIndex.Storage.UpdateEntryItem` | pkg/storage/entry.go:211-249 | Merges, stores, and marks dirty when the fingerprint has changed |
| `EntryIndex.Storage.Merge` | pkg/storage/entry.go:230-238 | The merge is the same for every order of the files |
| `EntryIndex.Storage.RemoveFromEntryItem` | pkg/storage/entry.go:252-287 | Removes the files of that entry only, and the whole item with its record when none is left |
| `EntryIndex.Storage.Drop` | pkg/storage/entry.go:270-274 | The deletions are the same for every order of the files |
| `EntryIndex.Storage.AddOrUpdate` | pkg/storage/entry.go:13-38 | Index and entry are updated together |
| `EntryIndex.Storage.Delete` | pkg/storage/entry.go:196-203 | The entry leaves index and store |
| `EntryIndex.Storage.UpdateItem` | pkg/storage/items.go:24-42 | Stores an item and marks it dirty when the fingerprint has changed |
| `EntryIndex.Storage.BeginProbe` | pkg/manager/repair_sweep.go:184-197 | The record is loaded when the probe starts and shown as repairing, with its status kept aside; the probe goes on with the files enumerated before |
| `EntryIndex.Storage.EndProbe` | pkg/manager/repair_sweep.go:204-232 | The record loaded at the start is saved clean, with the fingerprint of the files enumerated before |
| `EntryIndex.Storage.ClearBroken` | pkg/manager/repair_sweep.go:804-820 | The record goes when its item is gone, and is saved as never checked clean otherwise |
| `EntryIndex.Storage.ReconcileOrphans` | pkg/manager/repair.go:323-341 | After a restart every record that a probe left as repairing gets its former status back, in any order of the map |
| `IndexMachine.StepKeeps` | pkg/storage/entry.go:196-287 | With every call of a store a step of its own and any number of operations interleaved: a step keeps every settled record, or one that a restart would settle, about the present files of its name, except while a mark for it is on its way, if and only if it does not save a settled record of other files, does not put back an item without a mark over one, and does not end the process with a mark on its way that matters |
| `IndexMachine.RunsStayCovered` | pkg/manager/repair_sweep.go:76-232 | In every run of index operations, sweeps, repairs, clearings, reconciliations and crashes without such a step, that holds throughout |
| `IndexMachine.SaveKeeps` | pkg/storage/repair.go:279-290 | Saving a record, however long ago it was loaded, keeps it if and only if the record is not at rest, is about the present files, or another operation will still mark it; this covers the start and the end of a probe, reconcileOrphans, the update after a repair and the clearing |
| `IndexMachine.StoreKeeps` | pkg/storage/entry.go:240-248 | Putting an item keeps it when a mark follows, and otherwise if and only if the record at rest is about the files that are put or another operation will still mark it |
| `IndexMachine.MarkKeeps` | pkg/storage/repair.go:370-385 | Loading and saving the record in order to mark it keeps it, whatever comes in between |
| `IndexMachine.CrashKeeps` | pkg/manager/repair.go:292-345 | The end of the process keeps it if and only if every name with a mark on its way is covered already |
| `IndexMachine.ChangeWhole` | pkg/storage/entry.go:196-287 | The steps of an index operation, when nothing comes between them, do what the operation as a whole does |
| `IndexMachine.TurnsStayCovered` | pkg/storage/entry.go:196-287 | When operations on one name never overlap and the process does not end with a mark on its way, no step ever loses a change |
| `IndexMachine.ChangedIsDue` | pkg/storage/repair.go:257-277 | While a name is covered, an entry whose files differ from those last probed is due |
| `UnnoticedChanges.CrashHidesChange` | pkg/storage/entry.go:240-248 | When the process ends between the put of an item and its mark, the change goes unnoticed exactly when it alters what the settled record is about; adding the same entry again after the restart does not bring it out |
| `UnnoticedChanges.StaleSaveHides` | pkg/manager/repair_sweep.go:552-587 | A record that was loaded settled and is saved later, whatever else has happened, hides what has changed exactly when its fingerprint is no longer that of the files, even if the change was marked |
| `UnnoticedChanges.MarkIsOverwritten` | pkg/manager/repair.go:323-337 | A whole change between the load and the save of a record by reconcileOrphans, or by the update after a repair, loses its mark and goes unnoticed exactly when it alters what the record is about |
| `UnnoticedChanges.InterruptedProbeHidesChange` | pkg/manager/repair_sweep.go:184-197 | The same for a whole change between the load and the save at the start of a probe that a restart cuts short |
| `UnnoticedChanges.UnmarkedStoreHides` | pkg/storage/entry.go:218-248 | An item that is put back without a mark hides a difference exactly when its record was settled on other files in the meantime |
| `UnnoticedChanges.RemovalIsHidden` | pkg/storage/entry.go:252-287 | Concrete runs of these kinds in which the only entry of a name is removed and its record goes on saying healthy |
| `UnnoticedChanges.PickStays` | pkg/manager/repair_sweep.go:608-623 | Whatever happens in the meantime, a probe goes on with the item as it was enumerated |
| `UnnoticedChanges.OvertakenProbeHidesChange` | pkg/manager/repair_sweep.go:76-232 | Whatever happens between the enumeration of an item and the end of its probe: a file that is there in the end and was not enumerated is missed when the probe finds the others healthy; the record is clean, about the old files, and the entry not due |
| `UnnoticedChanges.AddedFileIsMissed` | pkg/manager/repair_sweep.go:184-232 | In particular the file of an entry added while the item waits for its turn, or during its probe |
| `Placements.Entry.RemoveProvider` | pkg/storage/types.go:344-376 | Removes the placements that name the provider; with placements under their own names, when it was active a remaining downloaded one takes over exactly when there is one |
| `Placements.Entry.SwitchToNextProvider` | pkg/storage/types.go:388-398 | With placements under their own names, a downloaded placement becomes active whenever there is one |
| `Placements.Entry.ActivatePlacement` | pkg/storage/types.go:315-341 | Not-found exactly when no placement names the provider; otherwise success makes it active and needs a downloaded placement of it (with placements under their own names, exactly that) |
| `Placements.Entry.AddTorrentProvider` | pkg/storage/types.go:290-312 | Adds a placement under its own name and keeps all placements so keyed |
| `Placements.RemovesByValue` | pkg/storage/types.go:353-366 | Placements are removed by what they say and not by their key: when that empties the map, when it misses the key |
| `Reconcile.ByHash` | pkg/manager/torrent.go:80-90 | Every hash stands for its newest torrent, and of equally new ones for the first |
| `Reconcile.DetectChanges` | pkg/manager/torrent.go:127-189 | The lists name no hash twice, within or across; new exactly when on the remote and absent, unplaced or stale; updates and deletions exactly those judged so |
| `Reconcile.DeletedWhenGone` | pkg/manager/torrent.go:155-163 | With placements under their own names: deleted exactly when gone from the remote and placed nowhere else |
| `Reconcile.DeletedExactly` | pkg/manager/torrent.go:155-163 | Whatever keys the placements stand under: deleted exactly when gone from the remote and every placement names that provider; on own keys, which is how the torrent entries are written, this is the condition above |
| `Reconcile.JudgedMeans` | pkg/manager/torrent.go:141-174 | New exactly when on the remote and not placed on the provider, or placed there with another id or status or without files; updated exactly when placed there, gone from the remote and some placement names another provider |
| `Reconcile.ProcessEntry` | pkg/manager/torrent.go:141-174 | The branches for one cached entry |
| `Reconcile.Stream` | pkg/manager/torrent.go:140-176 | The pass over the cache in batches, as one list |
| `Reconcile.AddUnknown` | pkg/manager/torrent.go:182-187 | The second pass adds exactly the torrents that no cached torrent entry has |
| `Reconcile.Refresh` | pkg/manager/torrent.go:68-124 | What becomes of every stored entry; an empty remote changes nothing |
| `Reconcile.NothingLeftToRemove` | pkg/manager/torrent.go:68-124 | After a refresh no well-keyed torrent entry is placed without being on the remote, other placements are untouched, and a second refresh removes nothing |
| `JobQueue.EveryJobAccounted` | pkg/manager/jobqueue.go:91-181 | In every run accepted = popped + pending + deleted, jobs are popped in the order of submission, and a worker leaves only when the queue is closed and empty |
| `JobQueue.NothingAfterClose` | pkg/manager/jobqueue.go:95-97 | Nothing is accepted after Close |
| `JobQueue.NoLostWakeUp` | pkg/manager/jobqueue.go:99-164 | While a worker sleeps there are at least as many woken workers as pending jobs, and a pending job always has a worker that can step |
| `JobQueue.DrainIsBounded` | pkg/manager/jobqueue.go:117-125 | After Close has woken all, the workers take boundedly many steps |
| `JobQueue.DrainedMeansGone` | pkg/manager/jobqueue.go:117-125 | When none can step, all have left and every accepted job was popped or deleted: Close returns |
| `JobQueue.StepKeeps` | pkg/manager/jobqueue.go:91-181 | What every step keeps |
| `JobQueue.CallersGoAhead` | pkg/manager/jobqueue.go:91-125 | In every state a job can be submitted, and an open queue takes it in last and wakes a sleeper if there is one; jobs can be deleted; and closing wakes everybody |
| `JobQueue.DeletedMeans` | pkg/manager/jobqueue.go:170-181 | The first pending job with the id is gone and all others are pending in the same order; without one nothing changes |
| `JobQueue.JobQueue.Submit` | pkg/manager/jobqueue.go:91-107 | Accepts exactly when not closed, and then puts the job last |
| `JobQueue.JobQueue.Pop` | pkg/manager/jobqueue.go:151-166 | Sleeps, leaves or takes the first job, under exactly these conditions, and leaves the others |
| `JobQueue.JobQueue.DeleteJob` | pkg/manager/jobqueue.go:170-181 | Removes the first pending job with the id and no other, and says whether there was one |
| `JobQueue.JobQueue.FindJob` | pkg/manager/jobqueue.go:184-194 | The first pending job with the id, and none exactly when there is none |
| `JobQueue.JobQueue.PendingCount` | pkg/manager/jobqueue.go:197-212 | The number of pending jobs of a kind |
| `JobQueue.JobQueue.Close` | pkg/manager/jobqueue.go:117-120 | Sets the flag and nothing else |

## Left out

- Sockets, TLS, dialling, authentication and pings are choices of the environment: a dial or a
  health check succeeds or fails.
- Liveness of the pool: the swap back to the original provider waits for a slot while another one is
  held, so slot safety is proved and not progress.
- `Client.Close` between the two halves of `put`, and the connections of `SpeedTest`, which hold no
  slot.
- The connection bound takes the providers to have distinct hosts: pools are looked up by host.
- Nntp.NotFoundExcludesExactly: backbone names are trimmed and lower-cased for ASCII only.
- The rapidyenc decoder, SHA-256, HMAC and AES are foreign: functions that are given.
- `parseYBeginLine`, `parseYPartLine` and `parseYEndLine` only fill metadata fields, which no
  decoding step reads.
- CheckFile.SampleSegments: exact rationals stand for float64 here and in `CheckFile.SampleMiddle`,
  `CheckFile.SampleSpreads` and `CheckFile.MiddlePick`, so that rounding of the step is not modelled.
- CbcReader.Source.ReadAtLeast: readers that return no bytes and no error are not modelled.
- A segment size is taken to be at least zero, since the download slices by it.
- Retry.Do: the callback before a wait and the error for a missing function.
- Progress callbacks, speeds, logging, statistics and notifications.
- Fingerprint.PrintTellsApart: takes SHA-256 to be injective and no file entry to be nil.
- The hybrid store is a map whose calls are atomic, succeed and outlast the process (not a failure of
  the machine); protobuf and JSON conversions are the identity.
- `EntryItem.Size` and the fields of a health record that decide nothing here; of `ActiveRunID` only
  whether it is set; the records of the runs themselves; the choice of due entries between
  enumeration and probe, which only leaves probes out.
- `processNewTorrents` and the fetching of full torrent data behind the new list.
- Reconcile.Refresh: the deletions and updates succeed; the code logs failures and goes on.
- The processing of jobs itself; a job that is popped is taken to be finished at some time.
- Time is an integer clock, and the idle timeout is the default of 20 seconds; the clock of the pool is
  read once per `TakeIdle`.
- The HTTP server, the user interface, configuration, the Arr and debrid clients, the NZB parser and
  the file system layer would add little beyond field copying.
