# Verified model of the BitTorrent telemetry client

A Dafny model of the state that `btclient` keeps while it observes peers, and of what it does with
the artifacts of a session afterwards, with proofs of the laws that this state obeys over every
history, every log of alerts, and every sequence of program runs.

Check it with `dafny verify dfyconfig.toml`.

## What is modelled

- **One connection** (`PeerModel`, `PeerStats`). `PeerStats` is a class whose handlers update it in
  place, one handler for each kind of event, as in the source. `PeerModel` specifies the same record the
  other way round: measurement by measurement, saying how each one responds to an event (`Apply`). Every
  handler is proved to take the record to `Apply` of its old value. The laws are then proved about
  `Record`, the record left behind by a whole history: `PeerTimes` (clocks, counters, gaps, interactions,
  activity, choke edges), `PeerBursts` (burst segmentation) and `PeerRequests` (outstanding requests and
  upload queues). The class groups the source's flat fields by measurement.
- **The registry** (`Keys`, `SessionModel`, `SessionStats`). `SessionStats` is a class that owns its
  records as objects; `Handle` and `DrainAlerts` dispatch alerts to it. `SessionModel` gives the value
  it maintains after a log of alerts (`Run`), and, independently, what a log says by itself: how
  often an endpoint was disconnected, whether it is live, which connection an alert belongs to, and the
  history of each connection. `Registry` and `Accounting` prove that the two agree. `AlertLaws` says what each
  record holds in terms of the alerts alone.
- **Order statistics** (`Sorting`, `Sums`, `Statistics`). `summarize_samples` over exact reals.
  `std::sort` is represented by its result, which is unique for a total order.
- **Session totals** (`SummaryCounts`): the folds over all records, visiting them in any order.
- **Artifacts** (`Artifacts`, `ArtifactStore`, `Retry`, `Lifecycle`). The file system is a map from
  session directories to their contents, changed in place by the class `ArtifactStore`. `Retry` is
  the retry pass over pending sessions. `Lifecycle` is a state machine of all runs of the program over
  one file system: a step per externally visible action, a crash possible between any two steps,
  and a torn write possible at any write of a manifest.
- **The run loop** (`RunLoop`): when snapshots are taken, how long the loop sleeps, when it ends.

Assumptions, each stated as a precondition where it is used: clock readings are positive and never
go back (`steady_clock`); the snapshot interval is positive (the command line enforces it); session ids are a
single path component; one process at a time works on an artifacts directory. Clock readings, upload
outcomes, error texts and the order in which directories and records are visited are inputs or
arbitrary choices.

Some behaviour of the code that its names and documentation do not suggest, all of it modelled as it is:

- The block index of a received request is its start divided by its own length. For a request that begins with a
  block this is the block's index exactly when the request is long enough for its position
  (`PeerRequests.AlignedBlockIndexWhen`). A short last block can be queued under another index, where its upload
  never finds it (`PeerRequests.ShortLastBlockIsMissed`), and a short request further ahead may be taken for another
  block's (`PeerRequests.OtherBlockIsMatched`). The queues are queues of blocks if and only if every request is
  queued under its own block (`PeerRequests.QueuesAreByBlockWhen`).
- A loss of alerts samples a depth of zero for closed records too (`PeerRequests.DepthsCountUnanswered`).
- Finalizing a session closes its records but leaves the live keys and the disconnect counter alone. The books
  still balance and the summary still counts the same (`Accounting.ClosedBooksBalance`,
  `SummaryCounts.SummaryIsConsistent`); that live keys lead to live records then holds if and only if no endpoint was
  live (`Accounting.ClosedRegistryAgrees`).
- The retry pass writes a failure to the file named in the manifest. The failure therefore reaches the
  session's own ledger exactly when that is the session's own file (`Retry.ChargedExactlyWhenOwn`). Every
  reachable file system of `Lifecycle` keeps to that (`Lifecycle.SafeKeepsOwnState`); a session found after the
  artifacts directory has been moved does not (`Retry.MovedRootLosesFailure`).
- A ready session whose name is archived already ends every pass that comes to it, after its upload
  (`Retry.PassStopsAtFirstFailure`). No run of the program brings this about (`Lifecycle.PassOverReachableStore`).
- readme.md promises that a finished session left in `pending/` is uploaded and archived by a later run. This
  holds if and only if the session's manifest has not been destroyed
  (`Lifecycle.FoundReadyUnlessDestroyed`, `Lifecycle.ArchivedNextUnlessDestroyed`), which torn writes do and nothing
  else does (`Lifecycle.DestroyedExactlyByTornWrites`); a session whose manifest was
  destroyed is never sent again (`Lifecycle.DestroyedIsNeverSent`), and a rejected upload followed by a torn write
  leads there (`Lifecycle.DestroyedSessionExists`).

## Model

| member | source | states |
|---|---|---|
| Statistics.SummarizeSamples | src/util.cpp:93-121 | the sort and the two accumulation loops give count, ends, mean, variance and the two percentiles of the samples as captured |
| Statistics.MedianWithinOneDeviation | src/util.cpp:93-121 | for every non-empty vector, (mean - p50)^2 is at most the variance |
| Statistics.MedianMinimisesDistance | src/util.cpp:19-32 | the interpolated p50 minimises the total absolute deviation over all centres |
| Statistics.PercentileBetweenRanks | src/util.cpp:25-31 | between two ranks the percentile lies on the line from one sorted sample to the next, at the fraction's own place |
| Statistics.MedianIsMiddle | src/util.cpp:114-119 | p50 is the middle one of the sorted samples, or half the sum of the two in the middle |
| Statistics.NinetyFifthIsInterpolated | src/util.cpp:114-119 | p95 lies 95 hundredths of the way along the sorted samples, between the two nearest |
| Statistics.SummaryMoments | src/util.cpp:103-112 | mean times count is the total, variance times count the total of squared deviations; no samples give no summary |
| Statistics.SquareOfTotalDistance | src/util.cpp:106-112 | Cauchy-Schwarz on the accumulated deviations from any centre |
| Statistics.VarianceBound | src/util.cpp:106-119 | the variance is nonnegative and at most (max - mean)(mean - min) |
| Statistics.SummaryIsOrdered | src/util.cpp:114-119 | min <= p50 <= p95 <= max, min <= mean <= max, and min and max are samples that bound all samples |
| Statistics.SummaryIgnoresOrder | src/util.cpp:99-121 | any permutation of the samples has the same summary |
| Statistics.IndicesInRange | src/util.cpp:25-27 | both interpolation indices are inside the vector for every fraction from 0 to 1 |
| Statistics.PercentileMonotone | src/util.cpp:19-32 | a larger fraction never gives a smaller percentile |
| Statistics.PercentileRank | src/util.cpp:19-32 | at least floor(f(n-1))+1 samples are at most the f-percentile and at least n-ceil(f(n-1)) are at least it |
| Sorting.SortedIsUnique | src/util.cpp:100-101 | sorting is determined by the contents, so the model's sort stands for any sort |
| PeerTimes.CountersCountEvents | src/peer_stats.cpp:187-317 | after any history every event counter is the number of events of its kind |
| PeerTimes.ClocksAfter | src/peer_stats.cpp:116-175 | first sight and connection time never change; the record is live exactly until a disconnection or the final close; disconnection times lie within the history |
| PeerTimes.ClosedAtLastClose | src/peer_stats.cpp:164-175 | the disconnection time is that of the latest disconnection, or of the final close of an open record |
| PeerTimes.FlagsFollowHistory | src/peer_stats.cpp:303-317 | the connect flag says whether a connect alert was ever heard, the snub flag what was last said of it |
| PeerTimes.TotalsFollowSnapshots | src/peer_stats.cpp:354-355 | byte totals are those of the latest snapshot |
| PeerTimes.GapsFollowTimes | src/peer_stats.cpp:187-283 | for sends, received requests and uploads: each gap sample is the time between two consecutive events, and the first delay is the time since connection |
| PeerTimes.EachPaceFollowsTimes | src/peer_stats.cpp:187-283 | sends, received requests and uploads each have their own gaps |
| PeerModel.MillisecondsAddUp | src/util.cpp:88-91 | samples are in milliseconds: a million nanoseconds are one, and times add up |
| PeerTimes.GapsTelescope | src/peer_stats.cpp:187-283 | n events leave n-1 nonnegative gaps, and first delay plus all gaps is the last event time minus the connection time |
| PeerTimes.InteractionGapsTelescope | src/peer_stats.cpp:565-572 | interaction gaps are strictly positive, one for each rise of the clock, and sum to last minus first interaction |
| PeerTimes.InteractionGapsFollowTimes | src/peer_stats.cpp:565-572 | each interaction gap is the time from one exchange, or active snapshot after a quiet interval, to the next later one |
| PeerTimes.SnapshotDecidesActivity | src/peer_stats.cpp:396-416 | after a snapshot the window is active exactly when it shows a speed, a queue, or activity within two intervals; an interaction is noted exactly when it is active and none was for an interval |
| PeerTimes.WindowMeasuresMarks | src/peer_stats.cpp:622-639 | after any history the window has measured exactly the intervals between first sight, snapshots and closes, each as active or idle as its beginning was |
| PeerTimes.WindowAccountsForTime | src/peer_stats.cpp:622-639 | after any history active time is the total of the intervals that began active and idle time that of the others; together they are the time covered by the window, and active time is within the time connected |
| PeerTimes.TimeIsConserved | src/peer_stats.cpp:418-429 | after the final close active plus idle time is session end minus first sight, and active time is at most the reported connected duration |
| PeerTimes.ReportedDuration | src/peer_stats.cpp:32-38 | the connected duration reported of a closed record runs from its connection to its last close |
| PeerTimes.ChokeCountersCountEdges | src/peer_stats.cpp:376-394 | on both sides, set plus cleared counts the changes of the flag over the snapshots, and set minus cleared is the flag now minus the flag first seen |
| PeerBursts.SplitIsPartition | src/peer_stats.cpp:574-599 | the offline split loses no request, keeps gaps of at most 100 ms inside groups and longer ones between them |
| PeerBursts.BurstsAreSplit | src/peer_stats.cpp:574-615 | after any history the closed bursts and the open one are the offline split of all request times, in sizes, durations and idle gaps; once the record is closed nothing stays open |
| PeerBursts.BurstsConserveRequests | src/peer_stats.cpp:601-615 | once closed, burst sizes sum to the requests received, idle gaps are one fewer than bursts, and durations plus idle gaps span the first request to the last |
| PeerRequests.OutstandingIsUnanswered | src/peer_stats.cpp:187-243 | a key is outstanding exactly when a send of it has not since been repeated, answered, timed out, dropped, or cleared by disconnection or alert loss, with that send's time |
| PeerRequests.DepthsCountUnanswered | src/peer_stats.cpp:187-243 | each depth sample of an exchange, a loss or a close is the number of requests unanswered at that point, zero after a loss or a close; a snapshot samples the larger of that number and the peer's own |
| PeerRequests.SnapshotDepth | src/peer_stats.cpp:371-374 | the depth sampled at a snapshot is the larger of the number of unanswered requests and the peer's own queue |
| PeerRequests.LatenciesPairAnswers | src/peer_stats.cpp:210-225 | the block latencies are exactly those of all answered sends, one per answer, in order |
| PeerRequests.LatenciesWithinConnection | src/peer_stats.cpp:216-222 | every block latency belongs to such a pair, is nonnegative, and is at most the age of the connection at the answer |
| PeerRequests.QueuesAreFifo | src/peer_stats.cpp:245-301 | each queue is the nondecreasing list of the latest received request times that still wait, and a key without waiting requests has no queue |
| PeerRequests.UploadsTakeOldest | src/peer_stats.cpp:285-300 | each matched upload is measured from the oldest waiting request, and the guard on the clock drops no sample |
| PeerRequests.BlockIndexWithout | src/peer_stats.cpp:67-71 | requests without a length share index 0, and negative starts are truncated toward zero |
| PeerRequests.BlockIndexWhen | src/peer_stats.cpp:67-71 | a request is queued under the index of the block it begins in if and only if its start, counted in its own length, falls into that many lengths |
| PeerRequests.AlignedBlockIndexWhen | src/peer_stats.cpp:67-71 | for a request that begins with block k and is no longer than a block: it is queued as block k if and only if k times the block size is below k + 1 times its length |
| PeerRequests.ShareQueueWhen | src/peer_stats.cpp:67-71 | exactly when two requests of different lengths for the same first byte share a queue |
| PeerRequests.UploadFindsRequestWhen | src/peer_stats.cpp:263-301 | an upload is measured from the request it serves if and only if that was queued under the block uploaded; otherwise there is no sample and the request waits on |
| PeerRequests.ShortLastBlockIsMissed | src/peer_stats.cpp:263-301 | a short fourth block is queued as the tenth and missed by its own upload |
| PeerRequests.OtherBlockIsMatched | src/peer_stats.cpp:263-301 | a short request for the second block is matched by the upload of the third |
| PeerRequests.QueuesAreByBlockWhen | src/peer_stats.cpp:263-264 | at every point of a history requests are queued by block if and only if each of them has its block's index |
| PeerRequests.QueuesHoldBlocks | src/peer_stats.cpp:245-301 | then each queue is the latest received request times of its block, oldest first |
| PeerRequests.RequestsAreConserved | src/peer_stats.cpp:245-301 | requests received equal upload latencies plus waiting requests plus those discarded by clears |
| PeerStatistics.PeerStats.constructor | src/peer_stats.cpp:81-103 | a new record is the empty-history record |
| PeerStatistics.PeerStats.NoteConnect | src/peer_stats.cpp:128-162 | in-place handler refines the specified response to a connection |
| PeerStatistics.PeerStats.NoteDisconnect | src/peer_stats.cpp:164-175 | in-place handler refines the specified response to a disconnection |
| PeerStatistics.PeerStats.NoteRequestSent | src/peer_stats.cpp:187-208 | in-place handler refines the specified response to a send |
| PeerStatistics.PeerStats.NoteBlockResponse | src/peer_stats.cpp:210-225 | in-place handler refines the specified response to an answer |
| PeerStatistics.PeerStats.NoteTimeout | src/peer_stats.cpp:227-234 | in-place handler refines the specified response to a timeout |
| PeerStatistics.PeerStats.NoteDrop | src/peer_stats.cpp:236-243 | in-place handler refines the specified response to a dropped request |
| PeerStatistics.PeerStats.NoteIncomingRequest | src/peer_stats.cpp:245-265 | in-place handler refines the specified response to a received request |
| PeerStatistics.PeerStats.NoteBlockUploaded | src/peer_stats.cpp:267-301 | in-place handler refines the specified response to an upload |
| PeerStatistics.PeerStats.NoteIncomingRequestBurst | src/peer_stats.cpp:574-599 | the three branches of the online segmenter give the specified next segmenter state |
| PeerStatistics.PeerStats.AdvanceActivityWindow | src/peer_stats.cpp:622-639 | the window moves to now and the time since its last advance is added to exactly one of active and idle |
| PeerStatistics.PeerStats.UpdateFromSnapshot | src/peer_stats.cpp:319-416 | in-place handler refines the specified response to a snapshot |
| PeerStatistics.PeerStats.Finalize | src/peer_stats.cpp:418-429 | in-place handler refines the specified final close |
| PeerStatistics.PeerStats.ResetOutstandingRequests | src/peer_stats.cpp:431-436 | in-place handler refines the specified response to alert loss |
| Keys.KeyInjective | src/peer_stats.cpp:667-668 | endpoint, number sign and decimal sequence number determine both parts, whatever the endpoint contains |
| Keys.DecimalRoundTrip | src/peer_stats.cpp:668 | a decimal numeral reads back as its number and contains no number sign |
| Keys.KeyReadsBack | src/peer_stats.cpp:667-668 | a key is the endpoint, a number sign, and the number in decimal, and reads back |
| Registry.RegistryFollowsLog | src/peer_stats.cpp:652-770 | for every log, endpoint and piece: endpoints seen, sequence numbers, live keys, records and the piece table are exactly what the log says, and each record is the one its own part of the log makes |
| Registry.DeliverableFromRegistry | src/peer_stats.cpp:661-680 | a new connection always finds its key free, so emplace inserts; an old one finds its own record |
| Accounting.HistoryIsWellFormed | src/main.cpp:238-461 | the history of every connection is chronological, and open exactly when it is its live endpoint's latest |
| Accounting.RecordOfKey | src/peer_stats.cpp:667-683 | every key in the registry is that of a numbered connection, and holds that connection's record |
| Accounting.RecordIsExplained | src/peer_stats.cpp:652-750 | every record of every session is the record of a well-formed history, so the laws of single connections hold of it |
| Accounting.RegistryAgrees | src/peer_stats.cpp:652-726 | live endpoints lead to their own live records, live records are their endpoints' live ones, and an endpoint's records are exactly those numbered one to its sequence number |
| Accounting.ClosedStaysClosed | src/peer_stats.cpp:652-726 | no alert makes a closed record live again |
| Accounting.BooksBalance | src/peer_stats.cpp:686-726 | records equal disconnections plus live endpoints and the sum of sequence numbers; endpoints seen are those numbered; successful connects equal records that saw a connect alert |
| Accounting.PiecesAreAttributed | src/peer_stats.cpp:752-770 | network plus verification completions are the piece events, and the pieces credited to records are exactly the network completions with an answering connection since the last alert loss |
| Accounting.PieceTableNamesRecords | src/main.cpp:389-393 | every key in the piece table names an existing record |
| Accounting.ClosedBooksBalance | src/peer_stats.cpp:819-829 | all balance equations and the piece attribution hold of the closed session too |
| Accounting.ClosedRegistryAgrees | src/peer_stats.cpp:819-829 | the closed registry agrees with itself if and only if no endpoint was live at the close |
| Accounting.SessionConservesTime | src/peer_stats.cpp:819-829 | after the session ends no record is live, each one's active and idle time add up to the time since first sight, and its bursts account for all its requests |
| AlertLaws.CountersCountAlerts | src/main.cpp:312-435 | each counter of every record is the number of alerts about that connection that report what it counts |
| AlertLaws.RecordsFollowAlerts | src/main.cpp:312-461 | for every log, connection and key: the request waiting for an answer and the requests waiting for upload, with their times, are those of the alerts; so are the time last seen, the connect and snub flags and the byte totals |
| AlertLaws.SnapshotsAreFollowed | src/peer_stats.cpp:728-750 | a snapshot sets the window and the choke flags of its endpoint's record by what it shows |
| AlertLaws.LossReachesEveryRecord | src/peer_stats.cpp:788-800 | a loss of alerts clears every record, closed ones included, and samples a depth of zero |
| AlertLaws.PiecesAreCreditedTo | src/peer_stats.cpp:752-770 | each record is credited with exactly the network pieces it was the last to answer for since alerts were lost |
| AlertLaws.SessionCountsAlerts | src/peer_stats.cpp:752-800 | losses are counted and their types added up; a piece counts as a network completion exactly while downloading, finished or seeding |
| SessionStatistics.SessionStats.EnsurePeerForEndpoint | src/peer_stats.cpp:652-684 | finds or begins the live record in place, as specified |
| SessionStatistics.SessionStats.NotePeerConnect | src/peer_stats.cpp:686-701 | in-place registry update for a connect alert, repeated ones included |
| SessionStatistics.SessionStats.NotePeerEvent | src/peer_stats.cpp:703-714 | in-place registry update for an event about a peer |
| SessionStatistics.SessionStats.NotePeerDisconnect | src/peer_stats.cpp:716-726 | in-place registry update for a disconnection, of an endpoint without a live record too |
| SessionStatistics.SessionStats.NotePeerSnapshot | src/peer_stats.cpp:728-750 | in-place registry update for one peer of a snapshot |
| SessionStatistics.SessionStats.NotePieceFinished | src/peer_stats.cpp:752-770 | in-place piece attribution |
| SessionStatistics.SessionStats.NoteAlertLoss | src/peer_stats.cpp:788-800 | the loop over all records clears each one's waiting requests exactly once |
| SessionStatistics.SessionStats.Finalize | src/peer_stats.cpp:819-829 | the loop over all records closes each one exactly once |
| SessionStatistics.SessionStats.HandlePeerAlert | src/main.cpp:368-451 | event handling followed by the handler for the alert's kind, with the piece table updated after an answer |
| SessionStatistics.SessionStats.DrainAlerts | src/main.cpp:238-461 | draining a batch takes the registry of the log so far to the registry of the extended log |
| SummaryCounts.PeerNetworkByteTotals | src/summary_writer.cpp:57-67 | the totals are the sums over all records, whatever the order of the loop |
| SummaryCounts.CountPeerObservations | src/summary_writer.cpp:69-100 | the loop counts the records observed, active and fingerprintable, whatever its order |
| SummaryCounts.SummaryFollowsHistory | src/summary_writer.cpp:57-100 | a record adds the totals of its latest snapshot, is active exactly when requests or blocks were exchanged or bytes seen, and fingerprintable exactly with a hundred requests |
| SummaryCounts.CloseKeepsCounts | src/main.cpp:876-893 | closing the session changes neither the counts nor the byte totals that the summary is written from |
| SummaryCounts.SummaryIsConsistent | src/summary_writer.cpp:69-100 | for the closed registry that is summarised, and equally before the close: fingerprintable <= active <= observed; a record is fingerprintable exactly when it has 100 samples, which always make it active; unique endpoints never exceed observed, and equal them exactly when no endpoint has a second connection |
| Artifacts.ScanIsInNameOrder | src/artifact_lifecycle.cpp:328-335 | the scan lists exactly the pending directories of its root; an earlier name is a proper beginning of a later one or smaller in the first character that differs |
| Artifacts.ScanOrderFacts | src/artifact_lifecycle.cpp:328-335 | the scan lists each pending directory exactly once, in name order |
| ArtifactStorage.ArtifactStore.PrepareOutputPaths | src/logging.cpp:20-68 | refuses an archived name and a pending directory that is not empty, and otherwise only creates the directory |
| ArtifactStorage.ArtifactStore.BaseStateJson | src/artifact_lifecycle.cpp:77-170 | the rebuilt manifest carries over creation time and failure fields of a readable predecessor |
| ArtifactStorage.ArtifactStore.WriteArtifactState | src/artifact_lifecycle.cpp:218-229 | changes the state file named in the paths and nothing else |
| ArtifactStorage.ArtifactStore.RecordArtifactUploadFailure | src/artifact_lifecycle.cpp:231-266 | appends one failure to the ledger of the state file named in the paths |
| ArtifactStorage.ArtifactStore.ArchiveArtifactSession | src/artifact_lifecycle.cpp:338-358 | moves the directory and rewrites its manifest, or changes nothing when the archive name is taken |
| ArtifactStorage.ArtifactStore.FindPendingArtifactSessions | src/artifact_lifecycle.cpp:268-336 | the sessions found do not depend on the order of the directory iterator, and come in the order of their names |
| ArtifactStorage.ArtifactStore.RetryPendingArtifactUploads | src/main.cpp:135-210 | the loop with its flags and early exits performs exactly the specified pass |
| Retry.PassStopsAtFirstFailure | src/main.cpp:135-210 | over any store: the pass stops at the first ready session, in name order, that is rejected or archived already; exactly the ready sessions before it are archived; a rejection then changes one state file, a name archived already nothing; if there is no such session every ready one is archived |
| Retry.OwnManifestIsCharged | src/main.cpp:135-210 | a rejected session that keeps its own manifest is itself charged with the failure, whatever was archived before it, and no directory is created |
| Retry.PassWithoutDestination | src/main.cpp:151-154 | without a destination a pass changes nothing |
| Retry.RejectionCharges | src/artifact_lifecycle.cpp:231-266 | what a rejection writes is a ready manifest under the session's own ids, or their stand-ins when empty, whose ledger is that of the file it replaces and exactly the new failure more |
| Retry.ArchivingKeeps | src/artifact_lifecycle.cpp:118-170 | archiving keeps the ledger and every id that is recorded, and fills in empty ones |
| Retry.ChargedExactlyWhenOwn | src/artifact_lifecycle.cpp:300-314 | a failure reaches the session's own ledger if and only if its manifest names no other state file |
| Retry.MovedRootLosesFailure | src/artifact_lifecycle.cpp:300-314 | after the artifacts directory was moved, a rejected pass leaves the session's ledger as it was and begins another directory, with the failure, below the old root |
| Lifecycle.SafetyOfEveryRun | src/main.cpp:667-957 | over all runs and crashes: no name is both pending and archived, the archive collision is never met, everything archived was accepted, everything accepted had a completed capture, and every readable ledger agrees with its count and last entry |
| Lifecycle.OnlyReadySessionsAreSent | src/main.cpp:143-149 | what is sent always has a readable manifest that says ready and a completed capture |
| Lifecycle.DestroyedExactlyByTornWrites | src/artifact_lifecycle.cpp:60-75 | after any runs exactly those manifests are unreadable of which some write was cut short |
| Lifecycle.EveryRunKeeps | src/artifact_lifecycle.cpp:118-358 | between any two points of any runs: no session is lost, and for every manifest of which no write was cut short creation time, run id and session id never change, no session falls back to an earlier state, and the failure ledger only grows by appending |
| Lifecycle.RunWithoutTornWritesKeeps | src/artifact_lifecycle.cpp:118-358 | from any point on without torn writes, every manifest not destroyed before keeps identity and ledger, whatever crashes come |
| Lifecycle.CompletedIsKept | src/main.cpp:896-957 | after any runs every session whose capture was completed is archived, or pending: ready if no write of its manifest was cut short, destroyed if one was |
| Lifecycle.CompletedWithoutTornWrites | src/main.cpp:896-957 | without torn writes every completed session is archived or found ready by a scan |
| Lifecycle.AcceptedUploadIsArchived | src/main.cpp:908-938 | in every run a session whose upload is accepted, the run's own or a scanned one, leaves pending and is archived with its identity, ledger and files, and nothing else changes |
| Lifecycle.RejectedUploadIsCharged | src/main.cpp:908-924 | in every run a session whose upload is rejected stays pending and ready with exactly this failure more, and nothing else changes |
| Lifecycle.NewSessionsWaitForOld | src/main.cpp:135-210 | in every run with a destination a new session begins only when no pending session of the same artifacts directory is ready |
| Lifecycle.OtherStepsDoNothing | src/main.cpp:667-957 | in each phase only the steps that the program takes there have an effect; a ready session at the head of the scan can only be sent |
| Lifecycle.AcceptedIsArchived | src/main.cpp:169-186 | over all runs an accepted session is archived, unless the run is just about to move it or a crash came between acceptance and move |
| Lifecycle.SessionBeginsWhen | src/logging.cpp:20-68 | after the scan a session begins exactly if its name is not archived and nothing is pending under it |
| Lifecycle.NewSessionIsArchived | src/main.cpp:667-957 | a new session captured, sent and accepted ends in the archive with its files, ids, times and an empty ledger, and nowhere else |
| Lifecycle.NextRunScans | src/main.cpp:135-143 | after a crash the next run scans what is there |
| Lifecycle.TornWriteDamages | src/artifact_lifecycle.cpp:60-75 | each of the four writes of a manifest can be cut short |
| Lifecycle.FoundReadyUnlessDestroyed | src/artifact_lifecycle.cpp:268-336 | in every reachable file system a completed session that is not archived is seen by the scan, and found ready if and only if its manifest was not destroyed |
| Lifecycle.ArchivedNextUnlessDestroyed | src/main.cpp:135-210 | a pass whose uploads are all accepted archives a completed session if and only if its manifest was not destroyed |
| Lifecycle.DestroyedIsNeverSent | src/main.cpp:135-210 | once destroyed, a manifest stays so and its session where it is, and no later step of any run sends it |
| Lifecycle.DestroyedSessionExists | src/artifact_lifecycle.cpp:60-75 | a completed session with a destroyed manifest is reached by one rejected upload whose recording is cut short |
| Lifecycle.SafeKeepsOwnState | src/artifact_lifecycle.cpp:338-358 | in every safe world a pending session keeps its own manifest, and its name is not archived |
| Lifecycle.PassOverReachableStore | src/main.cpp:135-210 | over every reachable file system a pass meets no archived name: it archives the ready sessions before the first rejected one, charges that one, and creates and loses no directory |
| Lifecycle.PassIsARun | src/main.cpp:135-210 | in a reachable world the retry pass is a run of the state machine and never fails to archive |
| RunLoop.RunTurns | src/main.cpp:820-863 | the loop takes the specified snapshots, requests the specified sleeps, and ends properly |
| RunLoop.SnapshotsArePaced | src/main.cpp:833-843 | k snapshots span at least k-1 intervals, the first is taken in the first turn, and at every turn the last one is less than an interval old |
| RunLoop.SnapshotsAreSpaced | src/main.cpp:833-843 | consecutive snapshots are at least one interval apart |
| RunLoop.SleepsAreShort | src/main.cpp:850-862 | a sleep is at most 100 ms and at most a snapshot interval, reaches past neither the next snapshot nor the deadline, and is not a whole millisecond shorter than that |
| RunLoop.RuntimeIsKept | src/main.cpp:820-848 | a run ends for its runtime exactly in the first turn that reads the clock that many seconds after the start, and never without a runtime |
| RunLoop.BoundedRunEnds | src/main.cpp:845-848 | a bounded run ends at the first reading at or past its deadline unless a stop comes first |

## Left out

- libcurl uploads and libtorrent itself: only the accepted or rejected outcome and the abstract alerts remain.
- JSON, NDJSON and console output, `PeerStats::to_json` and its quality scores: formatting.
- Wall-clock strings of records, client name, peer ids, direction, transport, observed flags and sources: descriptive fields that no law here depends on.
- Rate samples and peak rates of peers and sessions, tracker, listen and error counters, session byte totals: plain accumulators.
- Integer widths: counters and nanoseconds are unbounded, so overflow is not modelled.
- Floating point: samples and statistics are exact reals, and `std::sqrt` is not applied, so bounds are on the variance.
- Event log and summary files: only whether a session directory holds anything besides its manifest, and overridden paths for them not at all.
- Entries of `pending/` and `archive/` that are not directories, and session ids of several path components.
- Two processes working on the same artifacts directory at once.
- PeerStatistics.PeerStats.NoteConnect: does not model its mode for connections without a connect alert, which nothing calls, nor the direction and transport text.
- PeerStatistics.PeerStats.UpdateFromSnapshot: does not model rate samples, peak rates, the interest and seed flags and the descriptive text it copies.
- SessionStatistics.SessionStats.DrainAlerts: does not model the counters that tracker, incoming-connection and peer-error alerts raise; what a peer error does to its record is modelled, as an event with nothing more.
- ArtifactStorage.ArtifactStore.PrepareOutputPaths: does not model the refusal of a path that is not a directory, nor overridden paths.
