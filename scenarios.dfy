/**
 * A worked example: a scooter on track 7 whose deck is
 * found and two heads in its span, in the fifth frame of a video, gives one
 * verdict of several riders for object 7.
 */
module Scenarios {
  import opened Wrappers
  import opened ViolationDetector
  import opened VideoProcessing
  import opened Worker

  /** The class names as the detection model reports them. */
  const Names: map<int, string> :=
    map[0 := "Yandex", 1 := "Whoosh", 2 := "Urent", 3 := "Deck", 4 := "Foot", 5 := "Head", 6 := "Zebra"]

  const Scooter := DetectedObject(7, Yandex, Box(0.0, 0.0, 10.0, 20.0))
  const ScooterDeck := DetectedObject(1, Deck, Box(2.0, 15.0, 8.0, 18.0))
  const Rider := DetectedObject(2, Head, Box(3.0, 0.0, 4.0, 1.0))
  const Passenger := DetectedObject(3, Head, Box(6.0, 0.0, 7.0, 1.0))

  const Riders := Violation(MoreThanOnePeople, Yandex, None, None)

  /** The tracked frame holding the scooter, its deck and the two heads. */
  function RidersFrame(): Frame {
    Frame(Some(Boxes(true, [Scooter.cords, ScooterDeck.cords, Rider.cords, Passenger.cords],
                     [0.0, 3.0, 5.0, 5.0], [7.0, 1.0, 2.0, 3.0])), Names)
  }

  /** A decoded frame in which the tracker found nothing. */
  function EmptyFrame(): Frame {
    Frame(None, Names)
  }

  lemma RidersFrameObjects()
    ensures Objects(RidersFrame().boxes.value, Names, 4) == Ok([Scooter, ScooterDeck, Rider, Passenger])
  {
    var b := RidersFrame().boxes.value;
    assert (7.0).Floor == 7 && (0.0).Floor == 0;
    assert ToObject(b, Names, 0) == Ok(Scooter);
    assert Objects(b, Names, 0) == Ok([]);
    assert [] + [Scooter] == [Scooter];
    assert Objects(b, Names, 1) == Ok([Scooter]);
    assert ToObject(b, Names, 1) == Ok(ScooterDeck);
    assert [Scooter] + [ScooterDeck] == [Scooter, ScooterDeck];
    assert Objects(b, Names, 2) == Ok([Scooter, ScooterDeck]);
    assert ToObject(b, Names, 2) == Ok(Rider);
    assert [Scooter, ScooterDeck] + [Rider] == [Scooter, ScooterDeck, Rider];
    assert Objects(b, Names, 3) == Ok([Scooter, ScooterDeck, Rider]);
    assert ToObject(b, Names, 3) == Ok(Passenger);
    assert [Scooter, ScooterDeck, Rider] + [Passenger] == [Scooter, ScooterDeck, Rider, Passenger];
  }

  /** The frame's detections sorted into their classes. */
  lemma RidersFrameBuckets(k: ModelObject)
    ensures Bucket([Scooter, ScooterDeck, Rider, Passenger], k) ==
              if k == Yandex then [Scooter] else if k == Deck then [ScooterDeck]
              else if k == Head then [Rider, Passenger] else []
  {
    var o1 := [Scooter];
    var o2 := [Scooter, ScooterDeck];
    var o3 := [Scooter, ScooterDeck, Rider];
    var objs := [Scooter, ScooterDeck, Rider, Passenger];
    assert objs[..3] == o3 && o3[..2] == o2 && o2[..1] == o1 && o1[..0] == [];
    var none: seq<DetectedObject> := [];
    assert Bucket(none, k) == [];
    if k == Yandex {
      assert Bucket(o1, k) == [Scooter];
      assert Bucket(o2, k) == [Scooter] + [];
      assert Bucket(o3, k) == [Scooter] + [] + [];
    } else if k == Deck {
      assert Bucket(o1, k) == [];
      assert Bucket(o2, k) == [] + [ScooterDeck];
      assert Bucket(o3, k) == [ScooterDeck] + [];
    } else if k == Head {
      assert Bucket(o1, k) == [];
      assert Bucket(o2, k) == [] + [];
      assert Bucket(o3, k) == [] + [Rider];
      assert Bucket(objs, k) == [Rider] + [Passenger];
    } else {
      assert Bucket(o1, k) == [];
      assert Bucket(o2, k) == [] + [];
      assert Bucket(o3, k) == [] + [];
      assert Bucket(objs, k) == [] + [];
    }
  }

  /** The deck fits the scooter, and both heads lie in its span. */
  lemma RidersFrameGeometry()
    ensures DeckFits(Scooter, ScooterDeck)
    ensures Count([Rider, Passenger], HeadTest(Scooter)) == 2
  {
    assert Scooter.W() == 10.0 && Scooter.H() == 20.0 && Scooter.CenterY() == 10.0;
    assert ScooterDeck.W() == 6.0 && ScooterDeck.H() == 3.0;
    assert ScooterDeck.CenterX() == 5.0 && ScooterDeck.CenterY() == 16.5;
    var heads := [Rider, Passenger];
    var none: seq<DetectedObject> := [];
    assert heads[..1] == [Rider] && [Rider][..0] == none;
    assert HeadTest(Scooter)(Rider) && HeadTest(Scooter)(Passenger);
    assert Count(none, HeadTest(Scooter)) == 0;
    assert Count([Rider], HeadTest(Scooter)) == 1;
  }

  /** The Yandex scooter gets the one entry with several riders. */
  lemma RidersFrameScooterEntry()
    ensures ScooterEntry(Yandex, Scooter, [Scooter, ScooterDeck, Rider, Passenger]) == [(Scooter, {Riders})]
  {
    RidersFrameGeometry();
    RidersFrameBuckets(Deck);
    RidersFrameBuckets(Head);
    RidersFrameBuckets(Foot);
    RidersFrameBuckets(Zebra);
    assert FirstDeck(Scooter, [ScooterDeck]) == Some(ScooterDeck);
    var none: seq<DetectedObject> := [];
    assert Count(none, FootTest(ScooterDeck)) == 0 && Count(none, ZebraTest(Scooter)) == 0;
    assert Decide(Yandex, 2, 0, 0) == {Riders};
  }

  /** The Yandex brand, whose one scooter gives the one entry. */
  lemma RidersFrameYandexEntries()
    ensures BrandEntries(Yandex, Bucket([Scooter, ScooterDeck, Rider, Passenger], Yandex),
                         [Scooter, ScooterDeck, Rider, Passenger]) == [(Scooter, {Riders})]
  {
    RidersFrameScooterEntry();
    RidersFrameBuckets(Yandex);
    var none: seq<DetectedObject> := [];
    var noEntries: seq<Entry> := [];
    assert [Scooter][..0] == none;
    assert BrandEntries(Yandex, none, [Scooter, ScooterDeck, Rider, Passenger]) == noEntries;
    assert noEntries + [(Scooter, {Riders})] == [(Scooter, {Riders})];
  }

  /** The Urent and Whoosh brands have no scooter in the frame. */
  lemma RidersFrameOtherEntries()
    ensures BrandEntries(Urent, Bucket([Scooter, ScooterDeck, Rider, Passenger], Urent),
                         [Scooter, ScooterDeck, Rider, Passenger]) == []
    ensures BrandEntries(Whoosh, Bucket([Scooter, ScooterDeck, Rider, Passenger], Whoosh),
                         [Scooter, ScooterDeck, Rider, Passenger]) == []
  {
    RidersFrameBuckets(Urent);
    RidersFrameBuckets(Whoosh);
  }

  /** Only the Yandex brand has a scooter in the frame, and it gives the one entry. */
  lemma RidersFrameEntries()
    ensures FrameEntries([Scooter, ScooterDeck, Rider, Passenger]) == [(Scooter, {Riders})]
  {
    var objs := [Scooter, ScooterDeck, Rider, Passenger];
    RidersFrameYandexEntries();
    RidersFrameOtherEntries();
    var noEntries: seq<Entry> := [];
    assert EntriesUpTo(objs, 1) == noEntries + [(Scooter, {Riders})];
    assert EntriesUpTo(objs, 2) == [(Scooter, {Riders})] + noEntries;
    assert EntriesUpTo(objs, 3) == [(Scooter, {Riders})] + noEntries;
  }

  /** The rule engine finds the deck, counts two heads in the scooter's span and reports several riders. */
  lemma RidersFrameDetected()
    ensures Detect(RidersFrame()) == Ok(Some([(Scooter, {Riders})]))
  {
    RidersFrameObjects();
    RidersFrameEntries();
  }

  /** The video of the example: four frames without detections, then the riders. */
  function RidersVideo(): seq<Frame> {
    [EmptyFrame(), EmptyFrame(), EmptyFrame(), EmptyFrame(), RidersFrame()]
  }

  /** The map of the video has the one track 7 with the one violation. */
  lemma RidersVideoAggregate()
    ensures AggregateFrames(RidersVideo()) == Ok(map[7 := {Riders}])
  {
    var prefix := [EmptyFrame(), EmptyFrame(), EmptyFrame(), EmptyFrame()];
    var frames := RidersVideo();
    var entries := [(Scooter, {Riders})];
    VideoWithoutEntriesIsEmpty(prefix);
    RidersFrameDetected();
    assert frames[..4] == prefix;
    var rs := DetectAll(frames);
    assert rs == DetectAll(prefix) + [Detect(RidersFrame())];
    assert rs[..4] == DetectAll(prefix);
    assert Collect(rs[..4]) == Ok([]);
    assert rs[4] == Ok(Some(entries));
    var noEntries: seq<Entry> := [];
    assert noEntries + entries == entries;
    assert CollectEntries(frames) == Ok(entries);
    assert entries[..0] == noEntries;
    assert MergeAll(entries) == map[7 := {Riders}];
  }

  /** The saved results of that map are exactly one verdict of several riders on the Yandex scooter 7. */
  lemma RidersVideoVerdict(vs: seq<Verdict>, applicationId: int, now: int)
    requires RecordsAggregate(vs, applicationId, map[7 := {Riders}], now)
    ensures |vs| == 1 && vs[0].violationType == "multiple_people_on_scooter" && vs[0].objectId == 7
    ensures vs[0].scooterType == "Yandex" && vs[0].applicationId == applicationId && vs[0].createdAt == now
  {
    var agg := map[7 := {Riders}];
    assert Pairs(agg) == {(7, Riders)};
    RecordsAggregateCount(vs, applicationId, agg, now);
    RecordsAggregateVerdicts(vs, applicationId, agg, now, vs[0]);
    var p :| PairOf(agg, p) && vs[0] == MakeVerdict(applicationId, p, now);
    assert p == (7, Riders);
  }
}
