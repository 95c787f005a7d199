# Safety scooter AI: violation detection, aggregation and task lifecycle

This project models the decision core of a service that looks at videos of
e-scooter riders and records traffic violations. It has three parts.

- **The per-frame rule engine** (`ViolationDetector`, `violation_detector.dfy`).
  - It takes one frame of tracked detections, each with a box, a class index
    and a track id.
  - It sorts them into per-class buckets.
  - For every scooter (Yandex, then Urent, then Whoosh) it looks for the first
    deck that fits.
  - It then counts the heads, feet and zebra crossings in the scooter's
    geometry, and decides at most one violation: several people on the
    scooter, or riding over a zebra crossing.
  - `Violation` values compare and hash by kind only. A set of them is a
    `set<Violation>` kept kind-unique; the set union keeps the element already
    present when both sides have the kind.
  - `DetectViolation` is the imperative rule engine: the bucket loop, the deck
    search that stops at the first hit, and the counting loops. Each loop is
    proved equal to the functional definition `Detect`.
- **The cross-frame aggregation** (`VideoProcessing`, `video_processor.dfy`).
  - `VideoProcessor.ProcessVideoFile` is the loop over the frames of a video.
  - It merges every frame's per-scooter sets into a map keyed by track id,
    inserting a new key or taking the union with the set already stored.
  - It counts the frames it consumed, and it stops at the first frame whose
    detections raise.
  - The guards `ProcessVideoFromS3` and `ProcessVideoFromLocal` refuse to run
    without a loaded model.
- **The task lifecycle** (`Worker`, `ai_worker.dfy`).
  - `AiWorker` works on a `Database` of application rows and verdict rows.
  - It claims the oldest pending, undeleted application and marks it
    `processing`.
  - It runs the video of that application.
  - On success it records `completed` or `no_violations`, and one verdict per
    (track id, violation) pair.
  - On failure it records `failed`.

`scenarios.dfy` works one example through all three layers. A Yandex scooter,
track 7, has a deck that fits and two heads inside its span. It appears in the
fifth frame of an otherwise empty video. The video gives the map
`{7: {several people}}`, and saving that map writes exactly one verdict of type
`multiple_people_on_scooter` for object 7.

Some rules of the code are easy to misread; the model states them as the
code has them.

- A deck fits a scooter when the deck's centre y is *greater* than the
  scooter's, that is, lower in the image (`src/violation_detector.py:143`).
- A foot counts when its centre y is *less* than the deck's, that is, higher
  in the image (`src/violation_detector.py:160`).
- The status is `completed` as soon as the aggregate map has a key, even when
  every set in it is empty (`src/ai_worker.py:81`).
  - `CompletedWithoutVerdicts` shows a run that is `completed` and writes no
    verdict.
- The fallback violation type is the enum's value, the display text, and not
  its identifier (`src/ai_worker.py:90-93`). The fallback can never be used,
  because both kinds are in the table.
- The remote run as written raises before any download (see "## Findings").
  The worker's methods use the intended run, which downloads and processes
  the video.

Inputs that are I/O in the source are parameters here.

- The storage bucket is a map from object key to a video. A missing key is a
  failed download.
- A video is whether the decoder opened it, plus its finite list of frames of
  tracker output.
- Clock readings are integer parameters.
- The database is two sequences, the application rows and the verdict rows.

## Model

| member | source | states |
|---|---|---|
| ViolationDetector.ModelObjectsFromStringInverse | src/violation_detector.py:81-89 | the class-name table maps a string to a class exactly when the string is that class's value |
| ViolationDetector.EveryClassListed | src/violation_detector.py:113-115 | every class is a value of the table, so every bucket is created |
| ViolationDetector.EqualIffSameKind | src/violation_detector.py:46-50 | two violations are equal iff their kinds are equal, iff their hashes are equal |
| ViolationDetector.UnionKinds | src/violation_detector.py:46-50 | the union contains the left set, and has a kind iff one of its operands has it |
| ViolationDetector.UnionKindUnique | src/violation_detector.py:46-50 | the union of two kind-unique sets is kind-unique, so a set never holds two violations of one kind |
| ViolationDetector.CenterOfOrderedBox | src/violation_detector.py:72-76 | for a box with ordered corners, width and height are the corner differences and the centre is the midpoint inside the box |
| ViolationDetector.CenterOfSwappedBox | src/violation_detector.py:72-76 | with swapped x corners the computed centre lies right of both corners |
| ViolationDetector.FirstDeckIsFirst | src/violation_detector.py:140-146 | no deck is found iff no deck fits; a found deck fits and no earlier deck fits |
| ViolationDetector.FindDeck | src/violation_detector.py:140-149 | the deck-search loop with its early exit returns the first fitting deck |
| ViolationDetector.CountIsCardinality | src/violation_detector.py:152-167 | a count is the number of positions whose detection passes the rule |
| ViolationDetector.CountPassing | src/violation_detector.py:152-167 | the counting loop returns that count |
| ViolationDetector.Decide | src/violation_detector.py:169-180 | at most one violation, branded with the scooter's class and with no time or coordinates; several people iff feet > 1 or heads > 1; zebra crossing iff not that and zebras > 0 and feet > 0 |
| ViolationDetector.CheckScooter | src/violation_detector.py:137-180 | one scooter's deck search, counts and decision give its set, or none when no deck fits |
| ViolationDetector.ObjectsErrorPersists | src/violation_detector.py:127-133 | once a detection's class index has no name, the whole frame raises that error |
| ViolationDetector.BucketMembers | src/violation_detector.py:127-133 | a bucket holds exactly the frame's detections of that class |
| ViolationDetector.SortDetections | src/violation_detector.py:110-133 | the sorting loop raises the lookup error of the frame, or fills every class's bucket in detection order |
| ViolationDetector.CheckBrand | src/violation_detector.py:136-180 | the loop over one brand's scooters gives that brand's entries in order |
| ViolationDetector.CheckScooters | src/violation_detector.py:136-182 | the loop over the three brands gives the frame's entries |
| ViolationDetector.DetectViolation | src/violation_detector.py:103-182 | the imperative rule engine returns what the functional one does |
| ViolationDetector.DetectSkipsUntracked | src/violation_detector.py:117-119 | a frame gives no result iff it has no boxes or no tracking |
| ViolationDetector.BrandEntriesSound | src/violation_detector.py:136-180 | every entry of a brand is one of its scooters, with a fitting deck and the decided set |
| ViolationDetector.BrandEntriesComplete | src/violation_detector.py:136-180 | every scooter of a brand with a fitting deck has an entry |
| ViolationDetector.EntriesUpToSound | src/violation_detector.py:136-180 | every entry of the first brands is a detection of one of them, with a fitting deck and the decided set |
| ViolationDetector.EntriesUpToComplete | src/violation_detector.py:136-180 | every scooter of the first brands with a fitting deck has an entry |
| ViolationDetector.FrameEntriesSound | src/violation_detector.py:136-180 | each entry of a frame is a scooter with a fitting deck whose set is decided from its counts: at most one violation, branded by the scooter's class, without time or coordinates |
| ViolationDetector.FrameKeyIffDeck | src/violation_detector.py:136-170 | a detection is a key of the frame's result iff it is a scooter and some deck fits it; decks, heads, feet and zebras never are |
| VideoProcessing.VideoProcessor.constructor | src/managers/video_processor.py:16-37 | a constructed processor has its model loaded |
| VideoProcessing.VideoProcessor.ProcessVideoFromS3 | src/managers/video_processor.py:40-58 | the intended remote run: model check, then download, then processing of the downloaded file |
| VideoProcessing.VideoProcessor.ProcessVideoFromLocal | src/managers/video_processor.py:62-66 | without a model the run raises; otherwise it processes the file |
| VideoProcessing.VideoProcessor.ProcessVideoFile | src/managers/video_processor.py:69-105 | the frame loop returns the aggregate of the frames and counts every frame on success; on an error it stopped at the first frame that raised |
| VideoProcessing.MergeFrame | src/managers/video_processor.py:96-101 | merging one frame's entries in order into the running map, inserting new ids and taking unions for known ones |
| VideoProcessing.CollectErrorPersists | src/managers/video_processor.py:91-94 | once a frame raises, later frames do not change the outcome |
| VideoProcessing.CollectOk | src/managers/video_processor.py:91-94 | the frame results collect without error iff none of them is an error |
| VideoProcessing.CollectMembers | src/managers/video_processor.py:91-94 | the collected entries are exactly the entries of the individual frame results |
| VideoProcessing.CollectEntriesOk | src/managers/video_processor.py:91-94 | a video aggregates without error iff no frame's detections raise |
| VideoProcessing.CollectEntriesMembers | src/managers/video_processor.py:91-97 | the entries of a video are exactly those of its frames |
| VideoProcessing.SkippedFrameLeavesAggregate | src/managers/video_processor.py:94-96 | a frame whose result is none or empty leaves the aggregate unchanged |
| VideoProcessing.VideoWithoutEntriesIsEmpty | src/managers/video_processor.py:94-96 | a video whose every frame has no result or an empty one gives no entries and the empty map |
| VideoProcessing.MergeAllKeys | src/managers/video_processor.py:97-99 | the map's keys are exactly the track ids of the merged entries |
| VideoProcessing.MergeAllKinds | src/managers/video_processor.py:97-101 | a track's set has a kind iff some entry of that track has it |
| VideoProcessing.MergeAllOrigin | src/managers/video_processor.py:97-101 | each violation stored for a track comes from that track's first entry with that kind |
| VideoProcessing.MergeAllFirstWins | src/managers/video_processor.py:97-101 | the violation of a track's first entry with a kind is the one stored, so the brand of the earliest frame wins |
| VideoProcessing.MergeAllKindUnique | src/managers/video_processor.py:97-101 | merging kind-unique sets keeps every stored set kind-unique |
| VideoProcessing.FrameTrackIff | src/managers/video_processor.py:94-99 | a frame contributes a track id iff a scooter on that track has a fitting deck in that frame |
| VideoProcessing.AggregateKeys | src/managers/video_processor.py:97-99 | the video's keys are exactly the ids of scooters that had a fitting deck in some frame, even when all their sets are empty |
| VideoProcessing.AggregateKinds | src/managers/video_processor.py:97-101 | a track's aggregated kinds are the kinds it got in some frame |
| VideoProcessing.AggregateKindUnique | src/managers/video_processor.py:97-101 | every aggregated set holds at most one violation of each kind |
| VideoProcessing.ProcessFromS3Cases | src/managers/video_processor.py:40-58 | for the intended run: no model gives the model error, a missing object the download error, otherwise the file's result; every set of a successful result is kind-unique |
| VideoProcessing.ProcessFromS3AsWrittenFails | src/managers/video_processor.py:40-49 | as written the run never succeeds: without a model it raises the model error, with one it raises `TypeError`, also for every video the intended run processes |
| VideoProcessing.EndpointArgumentCounterexample | src/managers/video_processor.py:44-51 | a stored, openable video without frames: the intended run gives the empty map, the run as written raises `TypeError` |
| Worker.TrackVerdicts | src/ai_worker.py:89-108 | the inner loop makes one verdict per violation of a track, each pair once, so as many verdicts as the set has violations |
| Worker.BuildVerdicts | src/ai_worker.py:88-108 | the nested loop makes one verdict per (track id, violation) pair of the map, each pair once, so as many verdicts as there are pairs |
| Worker.Database.constructor | src/ai_worker.py:32 | the database holds the given application and verdict rows |
| Worker.AiWorker.constructor | src/ai_worker.py:23-37 | the worker holds its database and its video processor |
| Worker.AiWorker.GetPendingTask | src/ai_worker.py:42-59 | returns the oldest eligible application, marks it processing with the claim time, and changes nothing else |
| Worker.AiWorker.ProcessTask | src/ai_worker.py:62-77 | the application's video is processed; a result is saved, and any error marks the application failed |
| Worker.AiWorker.SaveResults | src/ai_worker.py:80-110 | status completed iff the map has a key, the finish time, and exactly the verdicts of the map appended |
| Worker.AiWorker.MarkAsFailed | src/ai_worker.py:113-117 | status failed with the finish time, verdicts unchanged |
| Worker.AiWorker.ProcessOneTask | src/ai_worker.py:120-128 | true iff an application was eligible; false changes nothing; true claims it and then records the outcome of its run |
| Worker.ViolationTypes | src/ai_worker.py:17-20 | the two kinds map to `multiple_people_on_scooter` and `riding_on_zebra_crossing`, and distinct kinds to distinct types |
| Worker.OldestPendingIsOldest | src/ai_worker.py:42-50 | none iff no row is pending and undeleted; the chosen row is eligible and no eligible row is older |
| Worker.RecordsAggregateCount | src/ai_worker.py:88-108 | the number of verdicts equals the number of (track id, violation) pairs |
| Worker.PairsSplit | src/ai_worker.py:88-89 | the pairs of a map are those of one track plus those of the rest, so the count is the sum of the set sizes |
| Worker.RecordsAggregateVerdicts | src/ai_worker.py:88-108 | a verdict is written iff it is the verdict of some pair of the map |
| Worker.VerdictFields | src/ai_worker.py:95-107 | a verdict carries the application id, the table's type for its own kind, the brand's value, the track id, the violation's time, its coordinates as text when present and not empty (none otherwise), and the finish time |
| Worker.StatusOfVideo | src/ai_worker.py:81-84 | a video's status is completed iff some frame had a scooter with a fitting deck |
| Worker.NoDetectionsNoVerdicts | src/ai_worker.py:81-88 | a video whose every frame has no result or an empty one gives the empty map, status no_violations and no verdicts |
| Worker.CompletedWithoutVerdicts | src/ai_worker.py:81-89 | a map whose only track has an empty set gives completed with no verdict |
| Worker.AsWrittenRoundFails | src/ai_worker.py:62-77 | with the remote run as written, every round that claims an application leaves it failed at the finish time and writes no verdict |
| Worker.OutcomeIsFinal | src/ai_worker.py:62-117 | after a run only the application changes, to a final status with the finish time; failed iff the run raised; old verdicts kept and new ones belong to the application |
| Scenarios.RidersFrameObjects | src/violation_detector.py:121-133 | the example frame's boxes become the scooter, the deck and the two heads |
| Scenarios.RidersFrameGeometry | src/violation_detector.py:140-156 | the deck fits the scooter and both heads are inside its span |
| Scenarios.RidersFrameDetected | src/violation_detector.py:103-182 | the example frame gives the scooter with the one violation of several people |
| Scenarios.RidersVideoAggregate | src/managers/video_processor.py:88-101 | four empty frames followed by the example frame give the map with track 7 and that violation |
| Scenarios.RidersVideoVerdict | src/ai_worker.py:80-108 | saving that map writes exactly one verdict, of type `multiple_people_on_scooter`, for the Yandex scooter 7 |

## Left out

- Object detection and tracking (the YOLO model) are not modelled; each
  frame's boxes, class indices and track ids are inputs.
- Video decoding is reduced to whether the file opened and its list of frames;
  the frame count and frame rate that are only logged are not modelled.
- The S3 client, its credentials, the temporary file and its deletion are
  I/O. In the intended run a download is a lookup in a storage map, and a
  missing object is the one download failure.
- VideoProcessing.VideoProcessor.ProcessVideoFromS3 models the intended run.
  As written, building the client raises `TypeError` first; that run is
  `ProcessFromS3AsWritten` (see "## Findings").
- VideoProcessing.VideoProcessor.constructor cannot fail and takes no model
  path. Loading the model from a path, and the load failure that raises out
  of the constructor, are not modelled.
- The database session is not modelled: no SQL, no commit or rollback
  failures, and no `skip_locked` row locking between workers. Claiming is one
  sequential selection.
- Auto-increment verdict ids are not modelled.
- `datetime.utcnow()` is replaced by integer clock parameters. All verdicts of
  one save share one time, where the source reads the clock once per verdict.
- The `run_forever` polling loop with its sleep, and all logging, are left
  out.
- The aggregate is an unordered map, so the model does not capture the order
  of the verdict rows. In the source the tracks come in order of first
  appearance, because a dict keeps insertion order. Only the order within a
  track's set is unspecified there. The verdicts are specified up to an order
  of the (track id, violation) pairs.
- Worker.AiWorker.GetPendingTask: ties on `created_at` go to the earliest
  row, where the database may return any of them.
- A violation's coordinates are `Any` in the source. The model uses an
  optional string whose empty value counts as absent. The rule engine never
  sets coordinates.
- `__repr__`/`__str__` and the unused `OBJECT_ID` table are not modelled.
- Coordinates are exact reals, not floating point.
- An exception escaping `_mark_as_failed` itself is not modelled.

## Findings

| source | as written | input that shows it | evidently intended | confidence | as-written member | corrected member |
|---|---|---|---|---|---|---|
| src/managers/video_processor.py:44-49 | `S3Client(...)` is called with an `s3_endpoint_url` keyword, but `S3Client.__init__` (src/managers/s3client.py:12) has no such parameter and no `**kwargs`, so the call raises `TypeError`. `process_task` catches it and marks the task failed. | model loaded, any key, for example an openable video without frames under `v.mp4` | build the client, download the video and process it | high, not executed | VideoProcessing.ProcessFromS3AsWritten, VideoProcessing.EndpointArgumentCounterexample, Worker.AsWrittenRoundFails | VideoProcessing.ProcessFromS3 |
