/**
 * The worker: it claims the oldest pending application, runs the video
 * pipeline on its video, and records the outcome, as a status and one
 * verdict row per violation found, in the database.
 */
module Worker {
  import opened Wrappers
  import opened Errors
  import opened ViolationDetector
  import opened VideoProcessing

  /** The status column of an application. */
  datatype Status = Pending | Processing | Completed | NoViolations | Failed

  /** The string stored in the status column. */
  function StatusValue(s: Status): string {
    match s
    case Pending => "pending"
    case Processing => "processing"
    case Completed => "completed"
    case NoViolations => "no_violations"
    case Failed => "failed"
  }

  /** A row of the applications table; date-time columns are clock readings. */
  datatype Application = Application(
    id: int, userId: int, key: string, status: Status, gpsLongitude: string, gpsWidth: string,
    recordTime: int, isDelete: bool, createdAt: int, lastChange: int)

  /** A row of the verdicts table, without its generated primary key. */
  datatype Verdict = Verdict(
    applicationId: int, violationType: string, scooterType: string, objectId: int,
    timestamp: Option<real>, coordinates: Option<string>, createdAt: int)

  /** The verdict type stored for each kind of violation. */
  const ViolationTypeMap: map<ViolationName, string> :=
    map[MoreThanOnePeople := "multiple_people_on_scooter", ZebraCrossing := "riding_on_zebra_crossing"]

  /** The type of a violation: its entry in the table, or else the violation's own text. */
  function ViolationType(n: ViolationName): string {
    if n in ViolationTypeMap then ViolationTypeMap[n] else ViolationNameValue(n)
  }

  /** The coordinates column: nothing when the coordinates are absent or empty (falsy), else their text. */
  function CoordinatesString(c: Option<string>): Option<string> {
    if c.Some? && c.value != "" then Some(c.value) else None
  }

  /** A track id and one violation of its set. */
  type Pair = (int, Violation)

  /** The verdict written for one pair. */
  function MakeVerdict(applicationId: int, p: Pair, now: int): Verdict {
    Verdict(applicationId, ViolationType(p.1.violationName), ModelObjectValue(p.1.scooterName), p.0,
            p.1.time, CoordinatesString(p.1.globalCoordinates), now)
  }

  /** The pair belongs to the map. */
  predicate PairOf(agg: Aggregate, p: Pair) {
    p.0 in agg && p.1 in agg[p.0]
  }

  /** All pairs of the map. */
  function Pairs(agg: Aggregate): set<Pair> {
    set id, v | id in agg && v in agg[id] :: (id, v)
  }

  /** The status recorded after a successful run. */
  function ResultStatus(agg: Aggregate): Status {
    if |agg| > 0 then Completed else NoViolations
  }

  /** An application the worker may claim. */
  predicate Eligible(a: Application) {
    a.status == Pending && !a.isDelete
  }

  /** The eligible application with the smallest creation time, the earliest row among equals. */
  function OldestPending(apps: seq<Application>): (r: Option<nat>)
    ensures r.Some? ==> r.value < |apps|
  {
    if apps == [] then None
    else
      var n := |apps| - 1;
      var p := OldestPending(apps[..n]);
      if Eligible(apps[n]) && (p.None? || apps[n].createdAt < apps[p.value].createdAt) then Some(n) else p
  }

  /** The application at `i` with a new status and last-change time, the others as they were. */
  function Touch(apps: seq<Application>, i: nat, status: Status, now: int): seq<Application>
    requires i < |apps|
  {
    apps[i := apps[i].(status := status, lastChange := now)]
  }

  predicate Distinct<T(==)>(s: seq<T>) {
    forall i, j :: 0 <= i < j < |s| ==> s[i] != s[j]
  }

  /** `vs` are the verdicts of the pairs `order`, one for one. */
  predicate VerdictsOf(vs: seq<Verdict>, order: seq<Pair>, applicationId: int, now: int) {
    |vs| == |order| && forall i :: 0 <= i < |vs| ==> vs[i] == MakeVerdict(applicationId, order[i], now)
  }

  /** `vs` holds one verdict for each pair of the map, in the order `order`. */
  ghost predicate ListsPairs(vs: seq<Verdict>, order: seq<Pair>, applicationId: int, agg: Aggregate, now: int) {
    VerdictsOf(vs, order, applicationId, now) && Distinct(order) && forall p :: p in order <==> PairOf(agg, p)
  }

  /** `vs` holds one verdict for each pair of the map, in some order. */
  ghost predicate RecordsAggregate(vs: seq<Verdict>, applicationId: int, agg: Aggregate, now: int) {
    exists order :: ListsPairs(vs, order, applicationId, agg, now)
  }

  /** The database after the results of the run for application `idx` were saved. */
  ghost predicate SavedResults(apps0: seq<Application>, verdicts0: seq<Verdict>, apps: seq<Application>,
                               verdicts: seq<Verdict>, idx: nat, agg: Aggregate, now: int)
    requires idx < |apps0|
  {
    apps == Touch(apps0, idx, ResultStatus(agg), now) &&
    |verdicts0| <= |verdicts| && verdicts[..|verdicts0|] == verdicts0 &&
    RecordsAggregate(verdicts[|verdicts0|..], apps0[idx].id, agg, now)
  }

  /** The database after the run for application `idx` ended with result `r`. */
  ghost predicate TaskOutcome(apps0: seq<Application>, verdicts0: seq<Verdict>, apps: seq<Application>,
                              verdicts: seq<Verdict>, idx: nat, r: Result<Aggregate, Error>, now: int)
    requires idx < |apps0|
  {
    match r
    case Err(_) => apps == Touch(apps0, idx, Failed, now) && verdicts == verdicts0
    case Ok(agg) => SavedResults(apps0, verdicts0, apps, verdicts, idx, agg, now)
  }

  /** The verdicts of one track: one per violation of its set, in the order the set is iterated. */
  method TrackVerdicts(applicationId: int, objId: int, viols: ViolationSet, now: int)
    returns (vs: seq<Verdict>, ghost order: seq<Pair>)
    ensures VerdictsOf(vs, order, applicationId, now) && Distinct(order)
    ensures forall p :: p in order <==> p.0 == objId && p.1 in viols
    ensures |vs| == |viols|
  {
    vs, order := [], [];
    var pending := viols;
    while pending != {}
      invariant pending <= viols
      invariant VerdictsOf(vs, order, applicationId, now) && Distinct(order)
      invariant forall p :: p in order <==> p.0 == objId && p.1 in viols - pending
      decreases |pending|
    {
      ghost var member := HasMember(pending);
      var violation :| violation in pending;
      var violationType := ViolationType(violation.violationName);
      var coordinates := CoordinatesString(violation.globalCoordinates);
      var verdict := Verdict(applicationId, violationType, ModelObjectValue(violation.scooterName), objId,
                             violation.time, coordinates, now);
      VerdictsOfConcat(vs, order, [verdict], [(objId, violation)], applicationId, now);
      DistinctConcat(order, [(objId, violation)]);
      vs := vs + [verdict];
      order := order + [(objId, violation)];
      pending := pending - {violation};
    }
    DistinctCard(order);
    TaggedCard(objId, viols);
    assert (set x | x in order) == set v | v in viols :: (objId, v);
  }

  /** The verdicts of all tracks of the map, track after track. */
  method BuildVerdicts(applicationId: int, violations: Aggregate, now: int)
    returns (added: seq<Verdict>, ghost order: seq<Pair>)
    ensures ListsPairs(added, order, applicationId, violations, now)
    ensures RecordsAggregate(added, applicationId, violations, now)
    ensures |added| == |Pairs(violations)|
  {
    added, order := [], [];
    var remaining := violations.Keys;
    while remaining != {}
      invariant remaining <= violations.Keys
      invariant VerdictsOf(added, order, applicationId, now) && Distinct(order)
      invariant forall p :: p in order <==> p.0 in violations && p.0 !in remaining && p.1 in violations[p.0]
      decreases |remaining|
    {
      ghost var member := HasMember(remaining);
      var objId :| objId in remaining;
      var vs, trackOrder := TrackVerdicts(applicationId, objId, violations[objId], now);
      VerdictsOfConcat(added, order, vs, trackOrder, applicationId, now);
      DistinctConcat(order, trackOrder);
      added, order := added + vs, order + trackOrder;
      remaining := remaining - {objId};
    }
    assert ListsPairs(added, order, applicationId, violations, now);
    RecordsAggregateCount(added, applicationId, violations, now);
  }

  /** A set that is not empty has a member to pick. */
  lemma HasMember<T>(s: set<T>) returns (x: T)
    requires s != {}
    ensures x in s
  {
    if forall y :: y !in s {
      assert false;
    }
    x :| x in s;
  }

  lemma VerdictsOfConcat(a: seq<Verdict>, oa: seq<Pair>, b: seq<Verdict>, ob: seq<Pair>, applicationId: int, now: int)
    requires VerdictsOf(a, oa, applicationId, now) && VerdictsOf(b, ob, applicationId, now)
    ensures VerdictsOf(a + b, oa + ob, applicationId, now)
  {
    forall i | 0 <= i < |a + b|
      ensures (a + b)[i] == MakeVerdict(applicationId, (oa + ob)[i], now)
    {
      if i >= |a| {
        assert (a + b)[i] == b[i - |a|] && (oa + ob)[i] == ob[i - |a|];
      }
    }
  }

  lemma DistinctConcat<T>(a: seq<T>, b: seq<T>)
    requires Distinct(a) && Distinct(b) && forall x :: x in a ==> x !in b
    ensures Distinct(a + b)
  {
    forall i, j | 0 <= i < j < |a + b|
      ensures (a + b)[i] != (a + b)[j]
    {
      if i < |a| && |a| <= j {
        assert (a + b)[i] in a && (a + b)[j] in b;
      }
    }
  }

  /** The tables the worker reads and writes. */
  class Database {
    var applications: seq<Application>
    var verdicts: seq<Verdict>

    constructor (applications: seq<Application>, verdicts: seq<Verdict>)
      ensures this.applications == applications && this.verdicts == verdicts
    {
      this.applications := applications;
      this.verdicts := verdicts;
    }
  }

  /** The worker, with its database and its video processor. */
  class AiWorker {
    const db: Database
    const processor: VideoProcessor

    constructor (db: Database, processor: VideoProcessor)
      ensures this.db == db && this.processor == processor
    {
      this.db := db;
      this.processor := processor;
    }

    /** Claim the oldest eligible application: it becomes `processing`, and nothing else changes. */
    method GetPendingTask(now: int) returns (task: Option<nat>)
      modifies db
      ensures task == OldestPending(old(db.applications))
      ensures task.Some? ==> task.value < |old(db.applications)| &&
                             db.applications == Touch(old(db.applications), task.value, Processing, now)
      ensures task.None? ==> db.applications == old(db.applications)
      ensures db.verdicts == old(db.verdicts)
    {
      task := OldestPending(db.applications);
      if task.Some? {
        OldestPendingIsOldest(db.applications);
        db.applications := Touch(db.applications, task.value, Processing, now);
      }
    }

    /** Run the pipeline on the application's video and save the results, or mark it failed on any error. */
    method ProcessTask(idx: nat, storage: map<string, Video>, now: int)
      requires idx < |db.applications|
      modifies db
      ensures TaskOutcome(old(db.applications), old(db.verdicts), db.applications, db.verdicts, idx,
                          ProcessFromS3(processor.modelLoaded, storage, old(db.applications)[idx].key), now)
    {
      var violations := processor.ProcessVideoFromS3(storage, db.applications[idx].key);
      if violations.Err? {
        MarkAsFailed(idx, now);
      } else {
        SaveResults(idx, violations.value, now);
      }
    }

    /** Record a successful run: the status, and one verdict per violation of every track, committed together. */
    method SaveResults(idx: nat, violations: Aggregate, now: int)
      requires idx < |db.applications|
      modifies db
      ensures SavedResults(old(db.applications), old(db.verdicts), db.applications, db.verdicts, idx, violations, now)
    {
      var task := db.applications[idx];
      var status := if |violations| > 0 then Completed else NoViolations;
      var added, order := BuildVerdicts(task.id, violations, now);
      db.applications := Touch(db.applications, idx, status, now);
      db.verdicts := db.verdicts + added;
      assert db.verdicts[|old(db.verdicts)|..] == added;
      assert ListsPairs(added, order, task.id, violations, now);
    }

    /** Record a failed run. */
    method MarkAsFailed(idx: nat, now: int)
      requires idx < |db.applications|
      modifies db
      ensures db.applications == Touch(old(db.applications), idx, Failed, now)
      ensures db.verdicts == old(db.verdicts)
    {
      db.applications := Touch(db.applications, idx, Failed, now);
    }

    /**
     * One round of the worker: claim a task at `claimTime` and process it,
     * recording the outcome at `finishTime`; the result tells whether there
     * was a task to claim.
     */
    method ProcessOneTask(storage: map<string, Video>, claimTime: int, finishTime: int) returns (processed: bool)
      modifies db
      ensures processed <==> OldestPending(old(db.applications)).Some?
      ensures !processed ==> db.applications == old(db.applications) && db.verdicts == old(db.verdicts)
      ensures processed ==>
                var idx := OldestPending(old(db.applications)).value;
                idx < |old(db.applications)| &&
                TaskOutcome(Touch(old(db.applications), idx, Processing, claimTime), old(db.verdicts),
                            db.applications, db.verdicts, idx,
                            ProcessFromS3(processor.modelLoaded, storage, old(db.applications)[idx].key), finishTime)
    {
      var task := GetPendingTask(claimTime);
      if task.None? {
        return false;
      }
      ProcessTask(task.value, storage, finishTime);
      return true;
    }
  }

  // ---------------------------------------------------------------------
  // Properties
  // ---------------------------------------------------------------------

  /** Both kinds have their own type, and distinct kinds get distinct types. */
  lemma ViolationTypes(a: ViolationName, b: ViolationName)
    ensures ViolationType(MoreThanOnePeople) == "multiple_people_on_scooter"
    ensures ViolationType(ZebraCrossing) == "riding_on_zebra_crossing"
    ensures ViolationType(a) == ViolationType(b) <==> a == b
  {
  }

  /** Claiming picks an eligible application with the smallest creation time, and finds none only when none is eligible. */
  lemma {:induction false} OldestPendingIsOldest(apps: seq<Application>)
    ensures OldestPending(apps).None? <==> forall i :: 0 <= i < |apps| ==> !Eligible(apps[i])
    ensures OldestPending(apps).Some? ==>
              var i := OldestPending(apps).value;
              i < |apps| && Eligible(apps[i]) &&
              forall j :: 0 <= j < |apps| && Eligible(apps[j]) ==> apps[i].createdAt <= apps[j].createdAt
  {
    if apps != [] {
      var n := |apps| - 1;
      OldestPendingIsOldest(apps[..n]);
      assert forall j :: 0 <= j < n ==> apps[..n][j] == apps[j];
    }
  }

  /** The verdicts match the pairs of the map one for one: their number is the number of pairs. */
  lemma RecordsAggregateCount(vs: seq<Verdict>, applicationId: int, agg: Aggregate, now: int)
    requires RecordsAggregate(vs, applicationId, agg, now)
    ensures |vs| == |Pairs(agg)|
  {
    var order :| ListsPairs(vs, order, applicationId, agg, now);
    DistinctCard(order);
    assert (set x | x in order) == Pairs(agg);
  }

  lemma {:induction false} DistinctCard<T>(s: seq<T>)
    requires Distinct(s)
    ensures |set x | x in s| == |s|
  {
    if s != [] {
      var n := |s| - 1;
      DistinctCard(s[..n]);
      assert (set x | x in s) == (set x | x in s[..n]) + {s[n]};
    }
  }

  /** The number of pairs adds up over the tracks: removing a track removes as many pairs as its set has violations. */
  lemma PairsSplit(agg: Aggregate, k: int)
    requires k in agg
    ensures |Pairs(agg)| == |Pairs(agg - {k})| + |agg[k]|
  {
    var tagged := set v | v in agg[k] :: (k, v);
    assert Pairs(agg) == Pairs(agg - {k}) + tagged;
    assert Pairs(agg - {k}) !! tagged;
    TaggedCard(k, agg[k]);
  }

  lemma {:induction false} TaggedCard(k: int, s: ViolationSet)
    ensures |set v | v in s :: (k, v)| == |s|
  {
    if s != {} {
      var v :| v in s;
      TaggedCard(k, s - {v});
      assert (set w | w in s :: (k, w)) == (set w | w in s - {v} :: (k, w)) + {(k, v)};
    }
  }

  /** The verdicts are exactly those of the pairs of the map. */
  lemma RecordsAggregateVerdicts(vs: seq<Verdict>, applicationId: int, agg: Aggregate, now: int, v: Verdict)
    requires RecordsAggregate(vs, applicationId, agg, now)
    ensures v in vs <==> exists p :: PairOf(agg, p) && v == MakeVerdict(applicationId, p, now)
  {
    var order :| ListsPairs(vs, order, applicationId, agg, now);
    if v in vs {
      var i :| 0 <= i < |vs| && vs[i] == v;
      assert PairOf(agg, order[i]);
    }
    if exists p :: PairOf(agg, p) && v == MakeVerdict(applicationId, p, now) {
      var p :| PairOf(agg, p) && v == MakeVerdict(applicationId, p, now);
      var i :| 0 <= i < |order| && order[i] == p;
      assert vs[i] == v;
    }
  }

  /** A verdict carries the application, the track id, the type and brand of its violation, and the save time. */
  lemma VerdictFields(applicationId: int, p: Pair, now: int)
    ensures var v := MakeVerdict(applicationId, p, now);
            v.applicationId == applicationId && v.objectId == p.0 && v.createdAt == now &&
            p.1.violationName in ViolationTypeMap && v.violationType == ViolationTypeMap[p.1.violationName] &&
            v.scooterType == ModelObjectValue(p.1.scooterName) && v.timestamp == p.1.time &&
            (v.coordinates.None? <==> p.1.globalCoordinates.None? || p.1.globalCoordinates.value == "") &&
            (p.1.globalCoordinates.Some? && p.1.globalCoordinates.value != "" ==>
               v.coordinates == Some(p.1.globalCoordinates.value))
  {
    assert ViolationTypeMap[p.1.violationName] == ViolationType(p.1.violationName);
  }

  /**
   * A successful run is `completed` iff some frame had a scooter with a
   * fitting deck, even when no violation was found for it.
   */
  lemma StatusOfVideo(frames: seq<Frame>)
    requires AggregateFrames(frames).Ok?
    ensures ResultStatus(AggregateFrames(frames).value) == Completed <==>
              exists i, id :: 0 <= i < |frames| && TrackMatched(frames[i], id)
  {
    var agg := AggregateFrames(frames).value;
    if |agg| > 0 {
      var member := HasMember(agg.Keys);
      var id :| id in agg;
      AggregateKeys(frames, id);
    }
    if exists i, id :: 0 <= i < |frames| && TrackMatched(frames[i], id) {
      var i, id :| 0 <= i < |frames| && TrackMatched(frames[i], id);
      AggregateKeys(frames, id);
    }
  }

  /** A video none of whose frames has a scooter with a fitting deck gives `no_violations` and no verdict. */
  lemma NoDetectionsNoVerdicts(frames: seq<Frame>, vs: seq<Verdict>, applicationId: int, now: int)
    requires forall i :: 0 <= i < |frames| ==> Detect(frames[i]) == Ok(None) || Detect(frames[i]) == Ok(Some([]))
    ensures AggregateFrames(frames) == Ok(map[]) && ResultStatus(map[]) == NoViolations
    ensures RecordsAggregate(vs, applicationId, map[], now) ==> vs == []
  {
    VideoWithoutEntriesIsEmpty(frames);
    if RecordsAggregate(vs, applicationId, map[], now) {
      RecordsAggregateCount(vs, applicationId, map[], now);
      assert Pairs(map[]) == {};
    }
  }

  /** A map whose only track has no violation gives `completed` with no verdict. */
  lemma CompletedWithoutVerdicts(vs: seq<Verdict>, applicationId: int, now: int)
    requires RecordsAggregate(vs, applicationId, map[7 := {}], now)
    ensures ResultStatus(map[7 := {}]) == Completed && vs == []
  {
    RecordsAggregateCount(vs, applicationId, map[7 := {}], now);
    assert Pairs(map[7 := {}]) == {};
  }

  /**
   * With the remote run as written, every round that claims an application
   * marks it `failed` at the finish time and writes no verdict.
   */
  lemma AsWrittenRoundFails(apps: seq<Application>, verdicts: seq<Verdict>, appsAfter: seq<Application>,
                            verdictsAfter: seq<Verdict>, modelLoaded: bool, storage: map<string, Video>,
                            claimTime: int, finishTime: int)
    requires OldestPending(apps).Some?
    requires TaskOutcome(Touch(apps, OldestPending(apps).value, Processing, claimTime), verdicts,
                         appsAfter, verdictsAfter, OldestPending(apps).value,
                         ProcessFromS3AsWritten(modelLoaded, storage, apps[OldestPending(apps).value].key), finishTime)
    ensures appsAfter == Touch(apps, OldestPending(apps).value, Failed, finishTime)
    ensures appsAfter[OldestPending(apps).value].status == Failed && verdictsAfter == verdicts
  {
    var idx := OldestPending(apps).value;
    ProcessFromS3AsWrittenFails(modelLoaded, storage, apps[idx].key);
    assert Touch(Touch(apps, idx, Processing, claimTime), idx, Failed, finishTime) == Touch(apps, idx, Failed, finishTime);
  }

  /**
   * After a round the claimed application is never left `processing`:
   * it is `completed`, `no_violations` or `failed`, every new verdict is
   * about it, and no other application changed.
   */
  lemma OutcomeIsFinal(apps0: seq<Application>, verdicts0: seq<Verdict>, apps: seq<Application>,
                       verdicts: seq<Verdict>, idx: nat, r: Result<Aggregate, Error>, now: int)
    requires idx < |apps0| && TaskOutcome(apps0, verdicts0, apps, verdicts, idx, r, now)
    ensures |apps| == |apps0| && forall j :: 0 <= j < |apps| && j != idx ==> apps[j] == apps0[j]
    ensures apps[idx].status in {Completed, NoViolations, Failed} && apps[idx].lastChange == now
    ensures apps[idx].status == Failed <==> r.Err?
    ensures |verdicts0| <= |verdicts| && verdicts[..|verdicts0|] == verdicts0
    ensures forall v :: v in verdicts[|verdicts0|..] ==> v.applicationId == apps0[idx].id && v.createdAt == now
  {
    if r.Ok? {
      var added := verdicts[|verdicts0|..];
      forall v | v in added
        ensures v.applicationId == apps0[idx].id && v.createdAt == now
      {
        RecordsAggregateVerdicts(added, apps0[idx].id, r.value, now, v);
      }
    } else {
      assert verdicts[|verdicts0|..] == [];
    }
  }
}
