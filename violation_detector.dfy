/**
 * The per-frame rule engine. The tracked detections of one video frame are
 * sorted into buckets by class; every scooter for which a deck is found gets
 * the set of violations that the geometric rules find for it in this frame.
 *
 * Coordinates are pixel positions; the rules only take absolute values, halve
 * and compare them, so they are modelled exactly as `real`.
 */
module ViolationDetector {
  import opened Wrappers
  import opened Errors

  // ---------------------------------------------------------------------
  // Classes of the detection model
  // ---------------------------------------------------------------------

  /** The classes the detection model distinguishes (`ModelObject`). */
  datatype ModelObject = Yandex | Whoosh | Urent | Deck | Foot | Head | Zebra

  /** The string value of a class, as the detection model names it. */
  function ModelObjectValue(m: ModelObject): string {
    match m
    case Yandex => "Yandex"
    case Whoosh => "Whoosh"
    case Urent => "Urent"
    case Deck => "Deck"
    case Foot => "Foot"
    case Head => "Head"
    case Zebra => "Zebra"
  }

  /** The table from a class name reported by the detection model to its class. */
  const ModelObjectsFromString: map<string, ModelObject> :=
    map["Yandex" := Yandex, "Whoosh" := Whoosh, "Urent" := Urent, "Deck" := Deck,
        "Foot" := Foot, "Head" := Head, "Zebra" := Zebra]

  /** The lookup table is exactly the inverse of the string values. */
  lemma ModelObjectsFromStringInverse(s: string, m: ModelObject)
    ensures (s in ModelObjectsFromString && ModelObjectsFromString[s] == m) <==> s == ModelObjectValue(m)
  {
  }

  /** Every class has an entry in the lookup table. */
  lemma EveryClassListed(m: ModelObject)
    ensures m in ModelObjectsFromString.Values
  {
    assert ModelObjectsFromString[ModelObjectValue(m)] == m;
  }

  /** The scooter brands, in the order the rule engine visits their buckets. */
  const Scooters: seq<ModelObject> := [Yandex, Urent, Whoosh]

  predicate IsScooter(m: ModelObject) {
    m in Scooters
  }

  // ---------------------------------------------------------------------
  // Violations and their kind-only equality
  // ---------------------------------------------------------------------

  /** The kinds of violation (`ViolationNames`). */
  datatype ViolationName = MoreThanOnePeople | ZebraCrossing

  /** The name of a kind's enum member. */
  function ViolationNameIdent(n: ViolationName): string {
    match n
    case MoreThanOnePeople => "more_than_one_people"
    case ZebraCrossing => "zebra_crossing"
  }

  /** The value of a kind's enum member: a description in Russian. */
  function ViolationNameValue(n: ViolationName): string {
    match n
    case MoreThanOnePeople => "Нарушение: Два или более человека на самокате"
    case ZebraCrossing => "Нарушение: Езда по пешеходному переходу не спешиваясь с СИМ"
  }

  /**
   * One violation. The coordinates stand for whatever object the caller may
   * pass, by its string form; the rule engine never sets them, nor the time.
   */
  datatype Violation = Violation(
    violationName: ViolationName,
    scooterName: ModelObject,
    globalCoordinates: Option<string>,
    time: Option<real>)

  /** Equality of violations: the names of their kinds are the same. */
  predicate Equal(a: Violation, b: Violation) {
    ViolationNameIdent(a.violationName) == ViolationNameIdent(b.violationName)
  }

  /** The hash of a violation is taken of its kind's name; the model keeps the string hashed. */
  function Hash(v: Violation): string {
    ViolationNameIdent(v.violationName)
  }

  /** Two violations are equal iff their kinds are, and equal violations hash alike. */
  lemma EqualIffSameKind(a: Violation, b: Violation)
    ensures Equal(a, b) <==> a.violationName == b.violationName
    ensures Equal(a, b) <==> Hash(a) == Hash(b)
  {
  }

  /**
   * A set of violations. Since equality is by kind alone, a set in the
   * program never holds two violations of one kind; `KindUnique` is that
   * invariant on the model's sets, which compare all fields.
   */
  type ViolationSet = set<Violation>

  ghost predicate KindUnique(s: ViolationSet) {
    forall a, b :: a in s && b in s && Equal(a, b) ==> a == b
  }

  /** Whether `s` holds an element equal to a violation of kind `k`. */
  predicate HasKind(s: ViolationSet, k: ViolationName) {
    exists v :: v in s && v.violationName == k
  }

  /**
   * `a.union(b)`: the elements of `a`, and those of `b` that no element of
   * `a` equals. For a kind present in both, the element of `a` is kept.
   */
  function Union(a: ViolationSet, b: ViolationSet): ViolationSet {
    a + set w | w in b && !HasKind(a, w.violationName)
  }

  /** The union keeps every element of its first operand and holds a kind iff an operand does. */
  lemma UnionKinds(a: ViolationSet, b: ViolationSet, k: ViolationName)
    ensures a <= Union(a, b)
    ensures HasKind(Union(a, b), k) <==> HasKind(a, k) || HasKind(b, k)
  {
    if HasKind(b, k) && !HasKind(a, k) {
      var w :| w in b && w.violationName == k;
      assert w in Union(a, b);
    }
  }

  /** The union of two sets of the program is again one: at most one element per kind. */
  lemma UnionKindUnique(a: ViolationSet, b: ViolationSet)
    requires KindUnique(a) && KindUnique(b)
    ensures KindUnique(Union(a, b))
  {
    forall x, y | x in Union(a, b) && y in Union(a, b) && Equal(x, y)
      ensures x == y
    {
      EqualIffSameKind(x, y);
    }
  }

  // ---------------------------------------------------------------------
  // Detected objects and their derived geometry
  // ---------------------------------------------------------------------

  function Abs(x: real): real {
    if x < 0.0 then -x else x
  }

  /** A bounding box by its corners: top-left (x1, y1) and bottom-right (x2, y2). */
  datatype Box = Box(x1: real, y1: real, x2: real, y2: real)

  /** One tracked detection of a frame, with the geometry derived from its box. */
  datatype DetectedObject = DetectedObject(id: int, name: ModelObject, cords: Box) {

    function W(): real {
      Abs(cords.x1 - cords.x2)
    }

    function H(): real {
      Abs(cords.y1 - cords.y2)
    }

    /** The centre is taken from the top-left corner by half the width and height. */
    function CenterX(): real {
      cords.x1 + W() / 2.0
    }

    function CenterY(): real {
      cords.y1 + H() / 2.0
    }
  }

  /** For a box whose corners are in order, the centre is the midpoint of the box. */
  lemma CenterOfOrderedBox(o: DetectedObject)
    requires o.cords.x1 <= o.cords.x2 && o.cords.y1 <= o.cords.y2
    ensures o.W() == o.cords.x2 - o.cords.x1 && o.H() == o.cords.y2 - o.cords.y1
    ensures o.CenterX() == (o.cords.x1 + o.cords.x2) / 2.0 && o.CenterY() == (o.cords.y1 + o.cords.y2) / 2.0
    ensures o.cords.x1 <= o.CenterX() <= o.cords.x2 && o.cords.y1 <= o.CenterY() <= o.cords.y2
  {
  }

  /** For a box whose x corners are swapped, the centre lies to the right of the whole box. */
  lemma CenterOfSwappedBox(o: DetectedObject)
    requires o.cords.x1 > o.cords.x2
    ensures o.CenterX() > o.cords.x1 > o.cords.x2
  {
  }

  // ---------------------------------------------------------------------
  // The geometric rules
  // ---------------------------------------------------------------------

  /** A deck belongs to a scooter: its centre x strictly inside the scooter's x span, its centre y greater than the scooter's, and lower than the scooter. */
  predicate DeckFits(s: DetectedObject, d: DetectedObject) {
    s.cords.x1 < d.CenterX() < s.cords.x2 && s.CenterY() < d.CenterY() && s.H() > d.H()
  }

  /** A head counts for a scooter when its top-left x is strictly inside the scooter's x span. */
  predicate HeadInside(s: DetectedObject, h: DetectedObject) {
    s.cords.x1 < h.cords.x1 < s.cords.x2
  }

  /** A foot counts for a deck when its centre x is strictly inside the deck's x span and its centre y is less than the deck's. */
  predicate FootOnDeck(d: DetectedObject, f: DetectedObject) {
    d.cords.x1 < f.CenterX() < d.cords.x2 && d.CenterY() > f.CenterY()
  }

  /** A zebra counts for a scooter when it is left of and below the scooter's centre and wider or taller than the scooter. */
  predicate ZebraUnder(s: DetectedObject, z: DetectedObject) {
    s.CenterX() > z.CenterX() && s.CenterY() < z.CenterY() && (z.W() > s.W() || z.H() > s.H())
  }

  function HeadTest(s: DetectedObject): DetectedObject -> bool {
    h => HeadInside(s, h)
  }

  function FootTest(d: DetectedObject): DetectedObject -> bool {
    f => FootOnDeck(d, f)
  }

  function ZebraTest(s: DetectedObject): DetectedObject -> bool {
    z => ZebraUnder(s, z)
  }

  /** The first deck, in the given order, that fits the scooter. */
  function FirstDeck(s: DetectedObject, decks: seq<DetectedObject>): Option<DetectedObject> {
    if decks == [] then None
    else if DeckFits(s, decks[0]) then Some(decks[0])
    else FirstDeck(s, decks[1..])
  }

  /** The deck found is one that fits, and no deck before it fits; none is found iff no deck fits. */
  lemma {:induction false} FirstDeckIsFirst(s: DetectedObject, decks: seq<DetectedObject>)
    ensures FirstDeck(s, decks).None? <==> forall i :: 0 <= i < |decks| ==> !DeckFits(s, decks[i])
    ensures FirstDeck(s, decks).Some? ==>
              exists i :: 0 <= i < |decks| && decks[i] == FirstDeck(s, decks).value && DeckFits(s, decks[i]) &&
                          forall j :: 0 <= j < i ==> !DeckFits(s, decks[j])
  {
    if decks != [] && !DeckFits(s, decks[0]) {
      FirstDeckIsFirst(s, decks[1..]);
      assert forall i :: 1 <= i < |decks| ==> decks[i] == decks[1..][i - 1];
      if FirstDeck(s, decks).Some? {
        var i :| 0 <= i < |decks[1..]| && decks[1..][i] == FirstDeck(s, decks).value && DeckFits(s, decks[1..][i]) &&
                 forall j :: 0 <= j < i ==> !DeckFits(s, decks[1..][j]);
        assert decks[i + 1] == decks[1..][i];
      }
    }
  }

  /** The number of elements of `xs` that pass the test `p`. */
  function Count<T>(xs: seq<T>, p: T -> bool): nat {
    if xs == [] then 0
    else Count(xs[..|xs| - 1], p) + (if p(xs[|xs| - 1]) then 1 else 0)
  }

  /** The count is the number of positions whose element passes the test. */
  lemma {:induction false} CountIsCardinality<T>(xs: seq<T>, p: T -> bool)
    ensures Count(xs, p) == |set i | 0 <= i < |xs| && p(xs[i])|
  {
    if xs != [] {
      var n := |xs| - 1;
      CountIsCardinality(xs[..n], p);
      var before := set i | 0 <= i < n && p(xs[..n][i]);
      var all := set i | 0 <= i < |xs| && p(xs[i]);
      assert before == set i | 0 <= i < n && p(xs[i]);
      if p(xs[n]) {
        assert all == before + {n};
      } else {
        assert all == before;
      }
    }
  }

  /**
   * The decision for one scooter with a deck, from its three counts: at most
   * one violation, carrying the scooter's class as brand and no coordinates
   * or time; several riders take priority over the zebra crossing.
   */
  function Decide(brand: ModelObject, headCount: nat, footCount: nat, zebraCount: nat): (r: ViolationSet)
    ensures |r| <= 1 && KindUnique(r)
    ensures forall v :: v in r ==> v.scooterName == brand && v.globalCoordinates == None && v.time == None
    ensures HasKind(r, MoreThanOnePeople) <==> footCount > 1 || headCount > 1
    ensures HasKind(r, ZebraCrossing) <==> !(footCount > 1 || headCount > 1) && zebraCount > 0 && footCount > 0
  {
    if footCount > 1 || headCount > 1 then
      {Violation(MoreThanOnePeople, brand, None, None)}
    else if zebraCount > 0 && footCount > 0 then
      {Violation(ZebraCrossing, brand, None, None)}
    else
      {}
  }

  /** The violations of one scooter in this frame, or `None` when no deck fits it. */
  function ScooterViolations(brand: ModelObject, s: DetectedObject, decks: seq<DetectedObject>,
                             heads: seq<DetectedObject>, feet: seq<DetectedObject>,
                             zebras: seq<DetectedObject>): Option<ViolationSet>
  {
    match FirstDeck(s, decks)
    case None => None
    case Some(d) => Some(Decide(brand, Count(heads, HeadTest(s)), Count(feet, FootTest(d)), Count(zebras, ZebraTest(s))))
  }

  /** The deck search: the decks are tried in order and the search stops at the first that fits. */
  method FindDeck(scooter: DetectedObject, decks: seq<DetectedObject>) returns (deck: Option<DetectedObject>)
    ensures deck == FirstDeck(scooter, decks)
  {
    deck := None;
    var i := 0;
    while i < |decks|
      invariant i <= |decks|
      invariant deck == None
      invariant FirstDeck(scooter, decks) == FirstDeck(scooter, decks[i..])
    {
      if DeckFits(scooter, decks[i]) {
        deck := Some(decks[i]);
        break;
      }
      assert decks[i..][1..] == decks[i + 1..];
      i := i + 1;
    }
  }

  /** A counting loop: one increment per element that passes the test. */
  method CountPassing<T>(xs: seq<T>, p: T -> bool) returns (n: nat)
    ensures n == Count(xs, p)
  {
    n := 0;
    for k := 0 to |xs|
      invariant n == Count(xs[..k], p)
    {
      assert xs[..k + 1][..k] == xs[..k];
      if p(xs[k]) {
        n := n + 1;
      }
    }
    assert xs[..|xs|] == xs;
  }

  /**
   * The rules for one scooter: find its deck, or give up on it; count the
   * heads, feet and zebras; add at most one violation, in priority order.
   */
  method CheckScooter(brand: ModelObject, scooter: DetectedObject, decks: seq<DetectedObject>,
                      heads: seq<DetectedObject>, feet: seq<DetectedObject>,
                      zebras: seq<DetectedObject>) returns (r: Option<ViolationSet>)
    ensures r == ScooterViolations(brand, scooter, decks, heads, feet, zebras)
  {
    var deck := FindDeck(scooter, decks);
    if deck == None {
      return None;
    }
    var headCount := CountPassing(heads, HeadTest(scooter));
    var footCount := CountPassing(feet, FootTest(deck.value));
    var zebraCount := CountPassing(zebras, ZebraTest(scooter));

    r := Some(Decide(brand, headCount, footCount, zebraCount));
  }

  // ---------------------------------------------------------------------
  // One frame of the detection model's output
  // ---------------------------------------------------------------------

  /**
   * The boxes of one frame: whether tracking ids are available, and per box
   * its corners, its class index and its track id, as the floats the model
   * reports.
   */
  datatype Boxes = Boxes(isTrack: bool, xyxy: seq<Box>, cls: seq<real>, id: seq<real>)

  /** One frame: its boxes, if any, and the model's table from class index to class name. */
  datatype Frame = Frame(boxes: Option<Boxes>, names: map<int, string>)

  /** Conversion of a float to an integer, truncating toward zero. */
  function Trunc(r: real): int {
    if r >= 0.0 then r.Floor else -((-r).Floor)
  }

  /** The detection for box `i`. Indexing a shorter list raises, and so does a missing table entry. */
  function ToObject(b: Boxes, names: map<int, string>, i: nat): Result<DetectedObject, Error>
    requires i < |b.xyxy|
  {
    if i >= |b.id| || i >= |b.cls| then Err(IndexError)
    else if b.cls[i] != b.cls[i].Floor as real || b.cls[i].Floor !in names then Err(KeyError)
    else if names[b.cls[i].Floor] !in ModelObjectsFromString then Err(KeyError)
    else Ok(DetectedObject(Trunc(b.id[i]), ModelObjectsFromString[names[b.cls[i].Floor]], b.xyxy[i]))
  }

  /** The detections of the first `n` boxes, or the error of the first box that raises. */
  function Objects(b: Boxes, names: map<int, string>, n: nat): Result<seq<DetectedObject>, Error>
    requires n <= |b.xyxy|
  {
    if n == 0 then Ok([])
    else
      match Objects(b, names, n - 1)
      case Err(e) => Err(e)
      case Ok(objs) =>
        match ToObject(b, names, n - 1)
        case Err(e) => Err(e)
        case Ok(o) => Ok(objs + [o])
  }

  /** Once a box raises, the detections of every longer prefix raise the same error. */
  lemma {:induction false} ObjectsErrorPersists(b: Boxes, names: map<int, string>, i: nat, n: nat)
    requires i <= n <= |b.xyxy|
    requires Objects(b, names, i).Err?
    ensures Objects(b, names, n) == Objects(b, names, i)
    decreases n - i
  {
    if i < n {
      ObjectsErrorPersists(b, names, i + 1, n);
    }
  }

  /** The detections of one class, in detection order. */
  function Bucket(objs: seq<DetectedObject>, kind: ModelObject): seq<DetectedObject> {
    if objs == [] then []
    else
      var n := |objs| - 1;
      Bucket(objs[..n], kind) + (if objs[n].name == kind then [objs[n]] else [])
  }

  /** A bucket holds exactly the detections of its class. */
  lemma {:induction false} BucketMembers(objs: seq<DetectedObject>, kind: ModelObject, x: DetectedObject)
    ensures x in Bucket(objs, kind) <==> x in objs && x.name == kind
  {
    if objs != [] {
      var n := |objs| - 1;
      assert objs == objs[..n] + [objs[n]];
      BucketMembers(objs[..n], kind, x);
    }
  }

  /** A scooter that a deck fits, with its violations in this frame. */
  type Entry = (DetectedObject, ViolationSet)

  /** The entries for the scooters of one brand, in their order. */
  function BrandEntries(brand: ModelObject, scooters: seq<DetectedObject>, objs: seq<DetectedObject>): seq<Entry> {
    if scooters == [] then []
    else
      var n := |scooters| - 1;
      BrandEntries(brand, scooters[..n], objs) + ScooterEntry(brand, scooters[n], objs)
  }

  /** The entry of one scooter, if a deck fits it. */
  function ScooterEntry(brand: ModelObject, s: DetectedObject, objs: seq<DetectedObject>): seq<Entry> {
    match ScooterViolations(brand, s, Bucket(objs, Deck), Bucket(objs, Head), Bucket(objs, Foot), Bucket(objs, Zebra))
    case None => []
    case Some(vs) => [(s, vs)]
  }

  /** The entries for the first `t` brands of `Scooters`. */
  function EntriesUpTo(objs: seq<DetectedObject>, t: nat): seq<Entry>
    requires t <= |Scooters|
  {
    if t == 0 then []
    else EntriesUpTo(objs, t - 1) + BrandEntries(Scooters[t - 1], Bucket(objs, Scooters[t - 1]), objs)
  }

  /** The result of the rule engine on the detections of one frame. */
  function FrameEntries(objs: seq<DetectedObject>): seq<Entry> {
    EntriesUpTo(objs, |Scooters|)
  }

  /** The rule engine on one frame: `None` when there are no boxes or no tracking. */
  function Detect(image: Frame): Result<Option<seq<Entry>>, Error> {
    if image.boxes.None? || !image.boxes.value.isTrack then Ok(None)
    else
      match Objects(image.boxes.value, image.names, |image.boxes.value.xyxy|)
      case Err(e) => Err(e)
      case Ok(objs) => Ok(Some(FrameEntries(objs)))
  }

  /** The buckets of a frame's detections, keyed by every class. */
  ghost predicate SortedInto(objectsDict: map<ModelObject, seq<DetectedObject>>, objs: seq<DetectedObject>) {
    forall k :: k in objectsDict && objectsDict[k] == Bucket(objs, k)
  }

  /**
   * The first loop of the rule engine: an empty bucket per class, then each
   * box's detection appended to its class's bucket; a box that raises ends it.
   */
  method SortDetections(boxes: Boxes, names: map<int, string>) returns (r: Result<map<ModelObject, seq<DetectedObject>>, Error>)
    ensures Objects(boxes, names, |boxes.xyxy|).Err? ==> r == Err(Objects(boxes, names, |boxes.xyxy|).error)
    ensures Objects(boxes, names, |boxes.xyxy|).Ok? ==> r.Ok? && SortedInto(r.value, Objects(boxes, names, |boxes.xyxy|).value)
  {
    var objectsDict: map<ModelObject, seq<DetectedObject>> := map k | k in ModelObjectsFromString.Values :: [];
    forall k: ModelObject ensures k in objectsDict {
      EveryClassListed(k);
    }
    ghost var objs: seq<DetectedObject> := [];

    for i := 0 to |boxes.xyxy|
      invariant Objects(boxes, names, i) == Ok(objs)
      invariant SortedInto(objectsDict, objs)
    {
      var obj := ToObject(boxes, names, i);
      if obj.Err? {
        ObjectsErrorPersists(boxes, names, i + 1, |boxes.xyxy|);
        return Err(obj.error);
      }
      var o := obj.value;
      assert (objs + [o])[..|objs|] == objs;
      objectsDict := objectsDict[o.name := objectsDict[o.name] + [o]];
      objs := objs + [o];
    }
    return Ok(objectsDict);
  }

  /** The scooters of one brand, in order: each that a deck fits gets an entry. */
  method CheckBrand(brand: ModelObject, bucket: seq<DetectedObject>, decks: seq<DetectedObject>,
                    heads: seq<DetectedObject>, feet: seq<DetectedObject>, zebras: seq<DetectedObject>,
                    ghost objs: seq<DetectedObject>) returns (entries: seq<Entry>)
    requires decks == Bucket(objs, Deck) && heads == Bucket(objs, Head)
    requires feet == Bucket(objs, Foot) && zebras == Bucket(objs, Zebra)
    ensures entries == BrandEntries(brand, bucket, objs)
  {
    entries := [];
    for j := 0 to |bucket|
      invariant entries == BrandEntries(brand, bucket[..j], objs)
    {
      assert bucket[..j + 1][..j] == bucket[..j];
      var vs := CheckScooter(brand, bucket[j], decks, heads, feet, zebras);
      if vs.Some? {
        entries := entries + [(bucket[j], vs.value)];
      }
    }
    assert bucket[..|bucket|] == bucket;
  }

  /**
   * The second loop of the rule engine: the buckets of the brands are
   * visited in order, and every scooter that a deck fits gets an entry.
   */
  method CheckScooters(objectsDict: map<ModelObject, seq<DetectedObject>>, ghost objs: seq<DetectedObject>) returns (violations: seq<Entry>)
    requires SortedInto(objectsDict, objs)
    ensures violations == FrameEntries(objs)
  {
    var decks, heads, feet, zebras := objectsDict[Deck], objectsDict[Head], objectsDict[Foot], objectsDict[Zebra];
    violations := [];
    for t := 0 to |Scooters|
      invariant violations == EntriesUpTo(objs, t)
    {
      var brand := Scooters[t];
      var entries := CheckBrand(brand, objectsDict[brand], decks, heads, feet, zebras, objs);
      violations := violations + entries;
    }
  }

  /** The rule engine on one frame, as the program runs it. */
  method DetectViolation(image: Frame) returns (r: Result<Option<seq<Entry>>, Error>)
    ensures r == Detect(image)
  {
    if image.boxes.None? || !image.boxes.value.isTrack {
      return Ok(None);
    }
    var boxes := image.boxes.value;
    var objectsDict := SortDetections(boxes, image.names);
    if objectsDict.Err? {
      return Err(objectsDict.error);
    }
    ghost var objs := Objects(boxes, image.names, |boxes.xyxy|).value;
    var violations := CheckScooters(objectsDict.value, objs);
    return Ok(Some(violations));
  }

  // ---------------------------------------------------------------------
  // Properties of the rule engine
  // ---------------------------------------------------------------------

  /** A frame contributes nothing exactly when it has no boxes or no tracking ids. */
  lemma DetectSkipsUntracked(image: Frame)
    ensures Detect(image) == Ok(None) <==> image.boxes.None? || !image.boxes.value.isTrack
  {
  }

  /** The rule engine's decision for scooter `e.0` of brand `brand` is the set `e.1`. */
  ghost predicate Recorded(brand: ModelObject, e: Entry, objs: seq<DetectedObject>) {
    ScooterViolations(brand, e.0, Bucket(objs, Deck), Bucket(objs, Head), Bucket(objs, Foot), Bucket(objs, Zebra)) == Some(e.1)
  }

  lemma {:induction false} BrandEntriesSound(brand: ModelObject, scooters: seq<DetectedObject>, objs: seq<DetectedObject>, e: Entry)
    requires e in BrandEntries(brand, scooters, objs)
    ensures e.0 in scooters && Recorded(brand, e, objs)
  {
    var n := |scooters| - 1;
    if e in BrandEntries(brand, scooters[..n], objs) {
      BrandEntriesSound(brand, scooters[..n], objs, e);
      assert scooters[..n] <= scooters;
    } else {
      assert e in ScooterEntry(brand, scooters[n], objs);
    }
  }

  lemma {:induction false} BrandEntriesComplete(brand: ModelObject, scooters: seq<DetectedObject>, objs: seq<DetectedObject>, s: DetectedObject)
    requires s in scooters
    requires FirstDeck(s, Bucket(objs, Deck)).Some?
    ensures exists e :: e in BrandEntries(brand, scooters, objs) && e.0 == s
  {
    var n := |scooters| - 1;
    var prefix := BrandEntries(brand, scooters[..n], objs);
    var last := ScooterEntry(brand, scooters[n], objs);
    assert BrandEntries(brand, scooters, objs) == prefix + last;
    if s == scooters[n] {
      assert last[0] in prefix + last;
    } else {
      assert scooters == scooters[..n] + [scooters[n]];
      BrandEntriesComplete(brand, scooters[..n], objs, s);
      var e :| e in prefix && e.0 == s;
      assert e in prefix + last;
    }
  }

  lemma {:induction false} EntriesUpToSound(objs: seq<DetectedObject>, t: nat, e: Entry)
    requires t <= |Scooters|
    requires e in EntriesUpTo(objs, t)
    ensures e.0 in objs && e.0.name in Scooters[..t] && Recorded(e.0.name, e, objs)
  {
    if e in EntriesUpTo(objs, t - 1) {
      EntriesUpToSound(objs, t - 1, e);
      assert Scooters[..t - 1] <= Scooters[..t];
    } else {
      var brand := Scooters[t - 1];
      BrandEntriesSound(brand, Bucket(objs, brand), objs, e);
      BucketMembers(objs, brand, e.0);
      assert Scooters[..t][t - 1] == brand;
    }
  }

  lemma {:induction false} EntriesUpToComplete(objs: seq<DetectedObject>, t: nat, s: DetectedObject)
    requires t <= |Scooters|
    requires s in objs && s.name in Scooters[..t]
    requires FirstDeck(s, Bucket(objs, Deck)).Some?
    ensures exists e :: e in EntriesUpTo(objs, t) && e.0 == s
  {
    var prefix := EntriesUpTo(objs, t - 1);
    var last := BrandEntries(Scooters[t - 1], Bucket(objs, Scooters[t - 1]), objs);
    if s.name == Scooters[t - 1] {
      BucketMembers(objs, s.name, s);
      BrandEntriesComplete(s.name, Bucket(objs, s.name), objs, s);
      var e :| e in last && e.0 == s;
      assert e in prefix + last;
    } else {
      assert Scooters[..t] == Scooters[..t - 1] + [Scooters[t - 1]];
      EntriesUpToComplete(objs, t - 1, s);
      var e :| e in prefix && e.0 == s;
      assert e in prefix + last;
    }
  }

  /**
   * Every entry of a frame is a scooter detection of that frame with a
   * fitting deck; its set is the decision of the rules on the first fitting
   * deck and the three counts: at most one violation, with the scooter's
   * class as brand and neither coordinates nor time.
   */
  lemma FrameEntriesSound(objs: seq<DetectedObject>, e: Entry)
    requires e in FrameEntries(objs)
    ensures e.0 in objs && IsScooter(e.0.name)
    ensures FirstDeck(e.0, Bucket(objs, Deck)).Some?
    ensures e.1 == Decide(e.0.name, Count(Bucket(objs, Head), HeadTest(e.0)),
                          Count(Bucket(objs, Foot), FootTest(FirstDeck(e.0, Bucket(objs, Deck)).value)),
                          Count(Bucket(objs, Zebra), ZebraTest(e.0)))
    ensures |e.1| <= 1
    ensures forall v :: v in e.1 ==> v.scooterName == e.0.name && v.globalCoordinates == None && v.time == None
  {
    EntriesUpToSound(objs, |Scooters|, e);
    assert Scooters[..|Scooters|] == Scooters;
  }

  /**
   * A detection is a key of the frame's result iff it is a scooter and some
   * deck of the frame fits it; decks, feet, heads and zebras never are.
   */
  lemma FrameKeyIffDeck(objs: seq<DetectedObject>, s: DetectedObject)
    ensures (exists e :: e in FrameEntries(objs) && e.0 == s) <==>
            s in objs && IsScooter(s.name) && exists d :: d in objs && d.name == Deck && DeckFits(s, d)
  {
    var decks := Bucket(objs, Deck);
    FirstDeckIsFirst(s, decks);
    if exists e :: e in FrameEntries(objs) && e.0 == s {
      var e :| e in FrameEntries(objs) && e.0 == s;
      FrameEntriesSound(objs, e);
      var i :| 0 <= i < |decks| && DeckFits(s, decks[i]);
      BucketMembers(objs, Deck, decks[i]);
    }
    if s in objs && IsScooter(s.name) && exists d :: d in objs && d.name == Deck && DeckFits(s, d) {
      var d :| d in objs && d.name == Deck && DeckFits(s, d);
      BucketMembers(objs, Deck, d);
      var i :| 0 <= i < |decks| && decks[i] == d;
      assert Scooters[..|Scooters|] == Scooters;
      EntriesUpToComplete(objs, |Scooters|, s);
    }
  }
}
