/**
 * The video pipeline: the frames of a video are passed one by one to the
 * rule engine, and the entries of every frame are merged, by track id and
 * set union, into one map from track id to the violations of that track.
 */
module VideoProcessing {
  import opened Wrappers
  import opened Errors
  import opened ViolationDetector

  /** Violations per track id, accumulated over the frames of one video. */
  type Aggregate = map<int, ViolationSet>

  /** One entry merged into the running map: a new track id is bound to the entry's set, a known one to the union. */
  function MergeEntry(agg: Aggregate, e: Entry): Aggregate {
    var id := e.0.id;
    if id !in agg then agg[id := e.1] else agg[id := Union(agg[id], e.1)]
  }

  /** The entries merged in order into an empty map. */
  function MergeAll(es: seq<Entry>): Aggregate {
    if es == [] then map[] else MergeEntry(MergeAll(es[..|es| - 1]), es[|es| - 1])
  }

  /** What the rule engine returns for one frame. */
  type FrameResult = Result<Option<seq<Entry>>, Error>

  /** The entries a frame's result adds to the map: none when it is `None` or an error. */
  function ResultEntries(r: FrameResult): seq<Entry> {
    if r.Ok? && r.value.Some? then r.value.value else []
  }

  /** The entries of the results in order, or the error of the first result that is one. */
  function Collect(rs: seq<FrameResult>): Result<seq<Entry>, Error> {
    if rs == [] then Ok([])
    else
      match Collect(rs[..|rs| - 1])
      case Err(e) => Err(e)
      case Ok(es) =>
        var last := rs[|rs| - 1];
        if last.Err? then Err(last.error) else Ok(es + ResultEntries(last))
  }

  /** The rule engine applied to every frame. */
  function DetectAll(frames: seq<Frame>): (rs: seq<FrameResult>)
    ensures |rs| == |frames|
  {
    if frames == [] then [] else DetectAll(frames[..|frames| - 1]) + [Detect(frames[|frames| - 1])]
  }

  lemma {:induction false} DetectAllAt(frames: seq<Frame>, i: nat)
    requires i < |frames|
    ensures DetectAll(frames)[i] == Detect(frames[i])
  {
    var n := |frames| - 1;
    if i < n {
      DetectAllAt(frames[..n], i);
    }
  }

  lemma DetectAllEach(frames: seq<Frame>)
    ensures forall i :: 0 <= i < |frames| ==> DetectAll(frames)[i] == Detect(frames[i])
  {
    forall i | 0 <= i < |frames| {
      DetectAllAt(frames, i);
    }
  }

  /** The entries of all frames in order, or the error of the first frame that raises. */
  function CollectEntries(frames: seq<Frame>): Result<seq<Entry>, Error> {
    Collect(DetectAll(frames))
  }

  /** The map built from the frames of a video. */
  function AggregateFrames(frames: seq<Frame>): Result<Aggregate, Error> {
    match CollectEntries(frames)
    case Err(e) => Err(e)
    case Ok(es) => Ok(MergeAll(es))
  }

  /** A video as delivered by the decoder: whether it could be opened, and its finite stream of frames. */
  datatype Video = Video(isOpened: bool, frames: seq<Frame>)

  /** Processing one video file; a file that does not open raises. */
  function ProcessFile(video: Video): Result<Aggregate, Error> {
    if !video.isOpened then Err(VideoNotOpened) else AggregateFrames(video.frames)
  }

  /** The object storage: the video stored under a key, and a failed download when there is none. */
  function Download(storage: map<string, Video>, key: string): Result<Video, Error> {
    if key in storage then Ok(storage[key]) else Err(DownloadFailed)
  }

  /** The intended remote run on the video stored under `key`: the model must be loaded, then the download must succeed. */
  function ProcessFromS3(modelLoaded: bool, storage: map<string, Video>, key: string): Result<Aggregate, Error> {
    if !modelLoaded then Err(ModelNotLoaded)
    else
      match Download(storage, key)
      case Err(e) => Err(e)
      case Ok(video) => ProcessFile(video)
  }

  /**
   * The remote run as `process_video_from_s3` is written: after the model
   * check it builds the storage client with an `s3_endpoint_url` keyword that
   * the client's constructor does not take, so the call raises before any
   * download.
   */
  function ProcessFromS3AsWritten(modelLoaded: bool, storage: map<string, Video>, key: string): Result<Aggregate, Error> {
    if !modelLoaded then Err(ModelNotLoaded) else Err(TypeError)
  }

  /**
   * As written, a remote run never succeeds: it agrees with the intended run
   * when the model is missing, and otherwise raises the argument error, also
   * for every video the intended run processes.
   */
  lemma ProcessFromS3AsWrittenFails(modelLoaded: bool, storage: map<string, Video>, key: string)
    ensures ProcessFromS3AsWritten(modelLoaded, storage, key).Err?
    ensures !modelLoaded ==> ProcessFromS3AsWritten(modelLoaded, storage, key) == ProcessFromS3(modelLoaded, storage, key)
    ensures modelLoaded ==> ProcessFromS3AsWritten(modelLoaded, storage, key) == Err(TypeError)
    ensures ProcessFromS3(modelLoaded, storage, key).Ok? ==>
              ProcessFromS3AsWritten(modelLoaded, storage, key) == Err(TypeError)
  {
  }

  /** A stored video that opens and has no frames: the intended run gives the empty map, the code as written raises. */
  lemma EndpointArgumentCounterexample()
    ensures ProcessFromS3(true, map["v.mp4" := Video(true, [])], "v.mp4") == Ok(map[])
    ensures ProcessFromS3AsWritten(true, map["v.mp4" := Video(true, [])], "v.mp4") == Err(TypeError)
  {
    assert DetectAll([]) == [];
  }

  /** The video processor; its model is loaded when it is constructed, or the construction fails. */
  class VideoProcessor {
    var modelLoaded: bool

    constructor ()
      ensures modelLoaded
    {
      modelLoaded := true;
    }

    /** The intended remote run: download the video stored under `key` and process it; the temporary file is not modelled. */
    method ProcessVideoFromS3(storage: map<string, Video>, key: string) returns (r: Result<Aggregate, Error>)
      ensures r == ProcessFromS3(modelLoaded, storage, key)
    {
      if !modelLoaded {
        return Err(ModelNotLoaded);
      }
      var download := Download(storage, key);
      if download.Err? {
        return Err(download.error);
      }
      var frameCount;
      r, frameCount := ProcessVideoFile(download.value);
    }

    /** Process a video already at hand. */
    method ProcessVideoFromLocal(video: Video) returns (r: Result<Aggregate, Error>)
      ensures !modelLoaded ==> r == Err(ModelNotLoaded)
      ensures modelLoaded ==> r == ProcessFile(video)
    {
      if !modelLoaded {
        return Err(ModelNotLoaded);
      }
      var frameCount;
      r, frameCount := ProcessVideoFile(video);
    }

    /**
     * The frame loop: count the frame, run the rule engine on it, and merge
     * each of its entries into the map. `frameCount` is the number of frames
     * consumed: all of them, or up to and including the one that raised.
     */
    method ProcessVideoFile(video: Video) returns (r: Result<Aggregate, Error>, frameCount: nat)
      ensures r == ProcessFile(video)
      ensures r.Ok? ==> frameCount == |video.frames|
      ensures r.Err? && video.isOpened ==> 0 < frameCount && StopsAt(DetectAll(video.frames), frameCount - 1)
    {
      if !video.isOpened {
        return Err(VideoNotOpened), 0;
      }
      var results := video.frames;
      var violations: Aggregate := map[];
      frameCount := 0;
      ghost var rs := DetectAll(results);
      ghost var es: seq<Entry> := [];
      while frameCount < |results|
        invariant frameCount <= |results|
        invariant Collect(rs[..frameCount]) == Ok(es)
        invariant violations == MergeAll(es)
      {
        var result := results[frameCount];
        frameCount := frameCount + 1;
        var frameViolations := DetectViolation(result);
        DetectAllAt(results, frameCount - 1);
        CollectStep(rs, frameCount - 1);
        if frameViolations.Err? {
          CollectStopsAt(rs, frameCount - 1);
          return Err(frameViolations.error), frameCount;
        }
        violations := MergeFrame(violations, frameViolations.value, es);
        es := es + ResultEntries(frameViolations);
      }
      assert rs[..|results|] == rs;
      return Ok(violations), frameCount;
    }
  }

  /** The body of the frame loop: each entry of a non-empty frame result merged into the map in turn. */
  method MergeFrame(violations: Aggregate, frameViolations: Option<seq<Entry>>, ghost es: seq<Entry>)
    returns (merged: Aggregate)
    requires violations == MergeAll(es)
    ensures merged == MergeAll(es + ResultEntries(Ok(frameViolations)))
  {
    merged := violations;
    if frameViolations.Some? && |frameViolations.value| > 0 {
      var items := frameViolations.value;
      assert es + items[..0] == es;
      for j := 0 to |items|
        invariant merged == MergeAll(es + items[..j])
      {
        MergeStep(es, items, j);
        var (obj, viols) := items[j];
        if obj.id !in merged {
          merged := merged[obj.id := viols];
        } else {
          merged := merged[obj.id := Union(merged[obj.id], viols)];
        }
      }
      assert items[..|items|] == items;
    } else {
      assert es + ResultEntries(Ok(frameViolations)) == es;
    }
  }

  /** Merging one more entry of a frame. */
  lemma MergeStep(es: seq<Entry>, items: seq<Entry>, j: nat)
    requires j < |items|
    ensures MergeAll(es + items[..j + 1]) == MergeEntry(MergeAll(es + items[..j]), items[j])
  {
    assert (es + items[..j + 1])[..|es| + j] == es + items[..j];
  }

  /** Collecting one more result appends its entries, or stops at its error. */
  lemma CollectStep(rs: seq<FrameResult>, k: nat)
    requires k < |rs| && Collect(rs[..k]).Ok?
    ensures Collect(rs[..k + 1]) ==
              if rs[k].Err? then Err(rs[k].error) else Ok(Collect(rs[..k]).value + ResultEntries(rs[k]))
  {
    assert rs[..k + 1][..k] == rs[..k];
  }

  /** Result `k` is the first error. */
  ghost predicate StopsAt(rs: seq<FrameResult>, k: nat) {
    k < |rs| && rs[k].Err? && forall i :: 0 <= i < k ==> rs[i].Ok?
  }

  /** When the results before `k` are no errors and result `k` is one, collecting all results gives that error. */
  lemma CollectStopsAt(rs: seq<FrameResult>, k: nat)
    requires k < |rs| && Collect(rs[..k]).Ok? && rs[k].Err?
    ensures Collect(rs) == Err(rs[k].error) && StopsAt(rs, k)
  {
    CollectStep(rs, k);
    CollectErrorPersists(rs, k + 1);
    CollectOk(rs[..k]);
    assert forall i :: 0 <= i < k ==> rs[..k][i] == rs[i];
  }

  /** Once a result is an error, every longer prefix of the results gives the same error. */
  lemma {:induction false} CollectErrorPersists(rs: seq<FrameResult>, i: nat)
    requires 0 < i <= |rs|
    requires Collect(rs[..i]).Err?
    ensures Collect(rs) == Collect(rs[..i])
  {
    if i < |rs| {
      var n := |rs| - 1;
      assert rs[..n][..i] == rs[..i];
      CollectErrorPersists(rs[..n], i);
    } else {
      assert rs[..i] == rs;
    }
  }

  /** The results are collected without error iff none of them is an error. */
  lemma {:induction false} CollectOk(rs: seq<FrameResult>)
    ensures Collect(rs).Ok? <==> forall i :: 0 <= i < |rs| ==> rs[i].Ok?
  {
    if rs != [] {
      var n := |rs| - 1;
      CollectOk(rs[..n]);
      assert forall i :: 0 <= i < n ==> rs[..n][i] == rs[i];
    }
  }

  /** The entries collected are exactly those of the results. */
  lemma {:induction false} CollectMembers(rs: seq<FrameResult>, e: Entry)
    requires Collect(rs).Ok?
    ensures e in Collect(rs).value <==> exists i :: 0 <= i < |rs| && e in ResultEntries(rs[i])
  {
    if rs != [] {
      var n := |rs| - 1;
      var prefix := rs[..n];
      CollectMembers(prefix, e);
      var es := Collect(prefix).value;
      assert Collect(rs).value == es + ResultEntries(rs[n]);
      if e in es {
        var i :| 0 <= i < n && e in ResultEntries(prefix[i]);
        assert prefix[i] == rs[i];
        assert 0 <= i < |rs| && e in ResultEntries(rs[i]);
      } else if e in ResultEntries(rs[n]) {
        assert 0 <= n < |rs| && e in ResultEntries(rs[n]);
      } else {
        forall i | 0 <= i < |rs|
          ensures e !in ResultEntries(rs[i])
        {
          if i < n {
            assert prefix[i] == rs[i];
          }
        }
      }
    }
  }

  // ---------------------------------------------------------------------
  // Properties of the merge
  // ---------------------------------------------------------------------

  /** A frame without tracking, or whose result is empty, leaves the map as it was. */
  lemma SkippedFrameLeavesAggregate(frames: seq<Frame>, f: Frame)
    requires Detect(f) == Ok(None) || Detect(f) == Ok(Some([]))
    ensures AggregateFrames(frames + [f]) == AggregateFrames(frames)
  {
    assert (frames + [f])[..|frames|] == frames;
    if CollectEntries(frames).Ok? {
      assert CollectEntries(frames).value + ResultEntries(Detect(f)) == CollectEntries(frames).value;
    }
  }

  /** A video none of whose frames has a result with an entry gives no entry, and so the empty map. */
  lemma {:induction false} VideoWithoutEntriesIsEmpty(frames: seq<Frame>)
    requires forall i :: 0 <= i < |frames| ==> Detect(frames[i]) == Ok(None) || Detect(frames[i]) == Ok(Some([]))
    ensures CollectEntries(frames) == Ok([]) && AggregateFrames(frames) == Ok(map[])
  {
    if frames != [] {
      var n := |frames| - 1;
      assert frames[..n] + [frames[n]] == frames;
      VideoWithoutEntriesIsEmpty(frames[..n]);
      var rs := DetectAll(frames);
      assert rs[..n] == DetectAll(frames[..n]);
      assert Collect(rs[..n]) == Ok([]);
      assert rs[n].Ok? && ResultEntries(rs[n]) == [];
      var none: seq<Entry> := [];
      assert none + ResultEntries(rs[n]) == none;
      assert Collect(rs) == Ok(none);
    } else {
      assert DetectAll(frames) == [];
    }
  }

  /** The keys of the map are exactly the track ids of the entries. */
  lemma {:induction false} MergeAllKeys(es: seq<Entry>, id: int)
    ensures id in MergeAll(es) <==> exists e :: e in es && e.0.id == id
  {
    if es != [] {
      var n := |es| - 1;
      assert es == es[..n] + [es[n]];
      MergeAllKeys(es[..n], id);
    }
  }

  /** The set of a track holds a kind iff some entry of that track does: the kinds are the union of the entries' kinds. */
  lemma {:induction false} MergeAllKinds(es: seq<Entry>, id: int, k: ViolationName)
    requires id in MergeAll(es)
    ensures HasKind(MergeAll(es)[id], k) <==> exists e :: e in es && e.0.id == id && HasKind(e.1, k)
  {
    var n := |es| - 1;
    var prev := MergeAll(es[..n]);
    assert es == es[..n] + [es[n]];
    if es[n].0.id == id {
      if id in prev {
        MergeAllKinds(es[..n], id, k);
        UnionKinds(prev[id], es[n].1, k);
      } else {
        MergeAllKeys(es[..n], id);
      }
    } else {
      MergeAllKinds(es[..n], id, k);
    }
  }

  /** Entry `j` is the first entry of track `id` with the kind of `v`, and holds `v`. */
  ghost predicate FirstOfKind(es: seq<Entry>, j: int, id: int, v: Violation) {
    0 <= j < |es| && es[j].0.id == id && v in es[j].1 &&
    forall i :: 0 <= i < j && es[i].0.id == id ==> !HasKind(es[i].1, v.violationName)
  }

  /** Every violation kept for a track comes from the first entry of that track with its kind. */
  lemma {:induction false} MergeAllOrigin(es: seq<Entry>, id: int, v: Violation)
    requires id in MergeAll(es) && v in MergeAll(es)[id]
    ensures exists j :: FirstOfKind(es, j, id, v)
  {
    var n := |es| - 1;
    var prev := MergeAll(es[..n]);
    assert es == es[..n] + [es[n]];
    if es[n].0.id == id && (id !in prev || v !in prev[id]) {
      if id in prev {
        MergeAllKinds(es[..n], id, v.violationName);
      } else {
        MergeAllKeys(es[..n], id);
      }
      forall i | 0 <= i < n && es[i].0.id == id
        ensures !HasKind(es[i].1, v.violationName)
      {
        assert es[i] in es[..n];
      }
      assert FirstOfKind(es, n, id, v);
    } else {
      MergeAllOrigin(es[..n], id, v);
      var j :| FirstOfKind(es[..n], j, id, v);
      assert FirstOfKind(es, j, id, v);
    }
  }

  /** The violation of the first entry of a track with a kind is the one kept: first occurrence wins. */
  lemma {:induction false} MergeAllFirstWins(es: seq<Entry>, id: int, j: int, v: Violation)
    requires FirstOfKind(es, j, id, v)
    ensures id in MergeAll(es) && v in MergeAll(es)[id]
  {
    var n := |es| - 1;
    var prev := MergeAll(es[..n]);
    assert es == es[..n] + [es[n]];
    if j == n {
      if id in prev {
        MergeAllKinds(es[..n], id, v.violationName);
        forall e | e in es[..n] && e.0.id == id
          ensures !HasKind(e.1, v.violationName)
        {
          var i :| 0 <= i < n && es[..n][i] == e;
          assert es[i] == e;
        }
      }
    } else {
      assert FirstOfKind(es[..n], j, id, v);
      MergeAllFirstWins(es[..n], id, j, v);
      if es[n].0.id == id {
        UnionKinds(prev[id], es[n].1, v.violationName);
      }
    }
  }

  /** Merging sets that hold at most one violation per kind gives such sets. */
  lemma {:induction false} MergeAllKindUnique(es: seq<Entry>)
    requires forall e :: e in es ==> KindUnique(e.1)
    ensures forall id :: id in MergeAll(es) ==> KindUnique(MergeAll(es)[id])
  {
    if es != [] {
      var n := |es| - 1;
      assert es == es[..n] + [es[n]];
      MergeAllKindUnique(es[..n]);
      var prev := MergeAll(es[..n]);
      if es[n].0.id in prev {
        UnionKindUnique(prev[es[n].0.id], es[n].1);
      }
    }
  }

  // ---------------------------------------------------------------------
  // Properties of a whole video
  // ---------------------------------------------------------------------

  /** The entries a frame adds to the map. */
  function FrameContribution(f: Frame): seq<Entry> {
    ResultEntries(Detect(f))
  }

  /** The frames are processed without error iff none of them raises. */
  lemma CollectEntriesOk(frames: seq<Frame>)
    ensures CollectEntries(frames).Ok? <==> forall i :: 0 <= i < |frames| ==> Detect(frames[i]).Ok?
  {
    CollectOk(DetectAll(frames));
    DetectAllEach(frames);
  }

  /** The entries collected are exactly those of the frames. */
  lemma CollectEntriesMembers(frames: seq<Frame>, e: Entry)
    requires CollectEntries(frames).Ok?
    ensures e in CollectEntries(frames).value <==> exists i :: 0 <= i < |frames| && e in FrameContribution(frames[i])
  {
    var rs := DetectAll(frames);
    CollectMembers(rs, e);
    DetectAllEach(frames);
    if exists i :: 0 <= i < |frames| && e in FrameContribution(frames[i]) {
      var i :| 0 <= i < |frames| && e in FrameContribution(frames[i]);
      assert e in ResultEntries(rs[i]);
    }
  }

  /** A scooter of the frame with track id `id` has a deck that fits it. */
  ghost predicate TrackMatched(f: Frame, id: int) {
    f.boxes.Some? && f.boxes.value.isTrack &&
    var objs := Objects(f.boxes.value, f.names, |f.boxes.value.xyxy|);
    objs.Ok? &&
    exists s :: s in objs.value && s.id == id && IsScooter(s.name) &&
                exists d :: d in objs.value && d.name == Deck && DeckFits(s, d)
  }

  lemma FrameTrackIff(f: Frame, id: int)
    requires Detect(f).Ok?
    ensures (exists e :: e in FrameContribution(f) && e.0.id == id) <==> TrackMatched(f, id)
  {
    if f.boxes.Some? && f.boxes.value.isTrack {
      var objs := Objects(f.boxes.value, f.names, |f.boxes.value.xyxy|).value;
      if exists e :: e in FrameContribution(f) && e.0.id == id {
        var e :| e in FrameContribution(f) && e.0.id == id;
        FrameKeyIffDeck(objs, e.0);
      }
      if TrackMatched(f, id) {
        var s :| s in objs && s.id == id && IsScooter(s.name) &&
                 exists d :: d in objs && d.name == Deck && DeckFits(s, d);
        FrameKeyIffDeck(objs, s);
      }
    }
  }

  /**
   * A track id is a key of the map iff in some frame a scooter with that id
   * has a fitting deck, whether or not a violation was found for it.
   */
  lemma AggregateKeys(frames: seq<Frame>, id: int)
    requires AggregateFrames(frames).Ok?
    ensures id in AggregateFrames(frames).value <==> exists i :: 0 <= i < |frames| && TrackMatched(frames[i], id)
  {
    var es := CollectEntries(frames).value;
    MergeAllKeys(es, id);
    if id in AggregateFrames(frames).value {
      var e :| e in es && e.0.id == id;
      CollectEntriesMembers(frames, e);
      var i :| 0 <= i < |frames| && e in FrameContribution(frames[i]);
      FrameTrackIff(frames[i], id);
    }
    if exists i :: 0 <= i < |frames| && TrackMatched(frames[i], id) {
      var i :| 0 <= i < |frames| && TrackMatched(frames[i], id);
      FrameTrackIff(frames[i], id);
      var e :| e in FrameContribution(frames[i]) && e.0.id == id;
      CollectEntriesMembers(frames, e);
    }
  }

  /** In frame `f`, an entry of track `id` holds kind `k`. */
  ghost predicate KindSeen(f: Frame, id: int, k: ViolationName) {
    exists e :: e in FrameContribution(f) && e.0.id == id && HasKind(e.1, k)
  }

  /** The kinds of a track's set are the union of the kinds found for it frame by frame. */
  lemma AggregateKinds(frames: seq<Frame>, id: int, k: ViolationName)
    requires AggregateFrames(frames).Ok? && id in AggregateFrames(frames).value
    ensures HasKind(AggregateFrames(frames).value[id], k) <==> exists i :: 0 <= i < |frames| && KindSeen(frames[i], id, k)
  {
    var es := CollectEntries(frames).value;
    MergeAllKinds(es, id, k);
    if HasKind(AggregateFrames(frames).value[id], k) {
      var e :| e in es && e.0.id == id && HasKind(e.1, k);
      CollectEntriesMembers(frames, e);
      var i :| 0 <= i < |frames| && e in FrameContribution(frames[i]);
      assert KindSeen(frames[i], id, k);
    }
    if exists i :: 0 <= i < |frames| && KindSeen(frames[i], id, k) {
      var i :| 0 <= i < |frames| && KindSeen(frames[i], id, k);
      var e :| e in FrameContribution(frames[i]) && e.0.id == id && HasKind(e.1, k);
      CollectEntriesMembers(frames, e);
    }
  }

  /** Every set of the map holds at most one violation per kind. */
  lemma AggregateKindUnique(frames: seq<Frame>)
    requires AggregateFrames(frames).Ok?
    ensures forall id :: id in AggregateFrames(frames).value ==> KindUnique(AggregateFrames(frames).value[id])
  {
    var es := CollectEntries(frames).value;
    forall e | e in es
      ensures KindUnique(e.1)
    {
      CollectEntriesMembers(frames, e);
      var i :| 0 <= i < |frames| && e in FrameContribution(frames[i]);
      var f := frames[i];
      var objs := Objects(f.boxes.value, f.names, |f.boxes.value.xyxy|).value;
      FrameEntriesSound(objs, e);
    }
    MergeAllKindUnique(es);
  }

  /** Processing from storage fails when the model is not loaded or the key is missing; its sets hold one violation per kind. */
  lemma ProcessFromS3Cases(modelLoaded: bool, storage: map<string, Video>, key: string)
    ensures !modelLoaded ==> ProcessFromS3(modelLoaded, storage, key) == Err(ModelNotLoaded)
    ensures modelLoaded && key !in storage ==> ProcessFromS3(modelLoaded, storage, key) == Err(DownloadFailed)
    ensures modelLoaded && key in storage ==> ProcessFromS3(modelLoaded, storage, key) == ProcessFile(storage[key])
    ensures ProcessFromS3(modelLoaded, storage, key).Ok? ==>
              forall id :: id in ProcessFromS3(modelLoaded, storage, key).value ==>
                KindUnique(ProcessFromS3(modelLoaded, storage, key).value[id])
  {
    if ProcessFromS3(modelLoaded, storage, key).Ok? {
      AggregateKindUnique(storage[key].frames);
    }
  }
}
