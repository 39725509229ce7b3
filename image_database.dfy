/** `SimilaritySearchService`: the in-memory database of images, each with its detections and
    the features extracted per detected object, and the search for objects similar to a query
    object. The database dictionary is modelled as the order of its keys plus their records;
    reading and writing the JSON file and the timestamps in its metadata are not modelled. */
module ImageDatabase {
  import opened Wrappers
  import opened Text
  import opened Sorting
  import opened Selection
  import opened Counting
  import opened Similarity

  /** One stored detection; each key of the detection dictionary may be absent. */
  datatype Detection = Detection(cls: Option<string>, confidence: Option<real>, bbox: Option<seq<real>>)

  /** `{'detections': [...], 'features': [...]}`: a feature slot is `None` until it is saved. */
  datatype ImageRecord = ImageRecord(detections: seq<Detection>, features: seq<Option<FeatureSet>>)

  /** The record created for an image the database does not know yet. */
  const EmptyRecord := ImageRecord([], [])

  /** The message of the `IndexError` a list raises. */
  const IndexError := "list index out of range"

  /** The dictionary as the order of its keys plus their records. */
  predicate Keyed(ids: seq<string>, images: map<string, ImageRecord>)
  {
    Distinct(ids) && images.Keys == set id | id in ids
  }

  /** The record of `imageId`, or the one that would be created for it. */
  function RecordOf(images: map<string, ImageRecord>, imageId: string): ImageRecord
  {
    if imageId in images then images[imageId] else EmptyRecord
  }

  /** The key order after a write to `imageId`: a new key goes last. */
  function Enrolled(ids: seq<string>, imageId: string): seq<string>
  {
    if imageId in ids then ids else ids + [imageId]
  }

  // ---------------------------------------------------------------------------------------
  // Feature slots

  /** The position Python's index `i` denotes in a list of length `n`. */
  function Position(n: nat, i: int): int
  {
    if i < 0 then n + i else i
  }

  /** The feature list after the padding loop: `None` appended while its length is at most
      `object_id`. */
  function Padded(fs: seq<Option<FeatureSet>>, objectId: int): (r: seq<Option<FeatureSet>>)
    ensures |r| == if objectId < |fs| then |fs| else objectId + 1
    ensures r[..|fs|] == fs
    ensures forall j :: |fs| <= j < |r| ==> r[j] == None
  {
    if objectId < |fs| then fs else fs + seq(objectId + 1 - |fs|, _ => None)
  }

  /** The feature list after `save_features`, or `None` when the assignment raises
      `IndexError` (a negative `object_id` beyond the start of the list). */
  function Store(fs: seq<Option<FeatureSet>>, objectId: int, f: FeatureSet): Option<seq<Option<FeatureSet>>>
  {
    var p := Padded(fs, objectId);
    if -|p| <= objectId then Some(p[Position(|p|, objectId) := Some(f)]) else None
  }

  /** `save_features` fails exactly for an index before the start of the list. Otherwise the
      list grows to `max(len, object_id + 1)`, the slot holds the features, the old slots keep
      their values and the new ones are `None`. */
  lemma StoreShape(fs: seq<Option<FeatureSet>>, objectId: int, f: FeatureSet)
    ensures Store(fs, objectId, f).Some? <==> objectId >= -|fs|
    ensures Store(fs, objectId, f).Some? ==>
      var r := Store(fs, objectId, f).value;
      && |r| == (if objectId < |fs| then |fs| else objectId + 1)
      && 0 <= Position(|r|, objectId) < |r|
      && r[Position(|r|, objectId)] == Some(f)
      && (forall j :: 0 <= j < |r| && j != Position(|r|, objectId) ==> r[j] == (if j < |fs| then fs[j] else None))
  {
  }

  /** `get_features` on a known image: `None` from `object_id` on, Python indexing below
      it, which raises for an index before the start of the list. */
  function Fetch(fs: seq<Option<FeatureSet>>, objectId: int): Result<Option<FeatureSet>, string>
  {
    if objectId < |fs| then
      if -|fs| <= objectId then Success(fs[Position(|fs|, objectId)]) else Failure(IndexError)
    else Success(None)
  }

  /** Reading back what `save_features` stored gives the features, and every other
      non-negative index reads as before: old slots are untouched and the padding reads as
      `None`, like an index past the end. */
  lemma FetchAfterStore(fs: seq<Option<FeatureSet>>, objectId: int, f: FeatureSet, j: int)
    requires Store(fs, objectId, f).Some?
    ensures var r := Store(fs, objectId, f).value;
      && Fetch(r, objectId) == Success(Some(f))
      && (0 <= j && j != Position(|r|, objectId) ==> Fetch(r, j) == Fetch(fs, j))
  {
    StoreShape(fs, objectId, f);
  }

  /** `get_features`: `None` for an unknown image. */
  function FeaturesOf(images: map<string, ImageRecord>, imageId: string, objectId: int): (r: Result<Option<FeatureSet>, string>)
    ensures imageId !in images ==> r == Success(None)
    ensures imageId in images && objectId >= |images[imageId].features| ==> r == Success(None)
    ensures r.Failure? <==> imageId in images && objectId < -|images[imageId].features|
  {
    if imageId in images then Fetch(images[imageId].features, objectId) else Success(None)
  }

  /** `get_detections`: `None` for an unknown image. */
  function DetectionsOf(images: map<string, ImageRecord>, imageId: string): (r: Option<seq<Detection>>)
    ensures r.None? <==> imageId !in images
  {
    if imageId in images then Some(images[imageId].detections) else None
  }

  // ---------------------------------------------------------------------------------------
  // find_similar

  /** The weights `find_similar` uses when the caller gives none. */
  const SearchDefaults: map<string, real> := map[
    "color" := 0.25, "texture_tamura" := 0.15, "texture_gabor" := 0.15, "texture_lbp" := 0.10,
    "shape_hu" := 0.10, "shape_hog" := 0.15, "shape_contour" := 0.10]

  function WeightsOrDefault(weights: Option<map<string, real>>): map<string, real>
  {
    if weights.Some? then weights.value else SearchDefaults
  }

  /** The query: its features and class, the weights, the class handling and the opaque
      comparisons. */
  datatype Query = Query(features: FeatureSet, cls: string, weights: map<string, real>,
                         sameClassOnly: bool, classWeight: real, other: Compare)

  /** One result entry. */
  datatype SimilarObject = SimilarObject(imageId: string, objectId: nat, similarity: real, visualSimilarity: real,
                                         cls: string, confidence: real, bbox: seq<real>)

  /** `detections[obj_idx] if obj_idx < len(detections) else {}`. */
  function DetectionAt(ds: seq<Detection>, k: nat): Option<Detection>
  {
    if k < |ds| then Some(ds[k]) else None
  }

  /** `detection.get('class', 'unknown')`. */
  function ClassName(d: Detection): string
  {
    if d.cls.Some? then d.cls.value else "unknown"
  }

  function ClassOf(d: Option<Detection>): string
  {
    if d.Some? then ClassName(d.value) else "unknown"
  }

  function ConfidenceOf(d: Option<Detection>): real
  {
    if d.Some? && d.value.confidence.Some? then d.value.confidence.value else 0.0
  }

  function BboxOf(d: Option<Detection>): seq<real>
  {
    if d.Some? && d.value.bbox.Some? then d.value.bbox.value else []
  }

  /** Class names compared after `lower()`. */
  predicate SameClass(a: string, b: string)
  {
    Lower(a) == Lower(b)
  }

  /** The class bonus applied when classes are not filtered. */
  function Adjusted(visual: real, sameClass: bool, sameClassOnly: bool, classWeight: real): real
  {
    if sameClassOnly then visual
    else if sameClass then visual * (1.0 - classWeight) + classWeight
    else visual * (1.0 - classWeight)
  }

  /** Without class filtering, a same-class object scores exactly `class_weight` above a
      different-class object with the same visual similarity. */
  lemma ClassBonus(visual: real, classWeight: real)
    ensures Adjusted(visual, true, false, classWeight) == Adjusted(visual, false, false, classWeight) + classWeight
  {
  }

  /** `max(0.0, min(1.0, x))`. */
  function Clamp(x: real): (r: real)
    ensures 0.0 <= r <= 1.0
    ensures 0.0 <= x <= 1.0 ==> r == x
    ensures x < 0.0 ==> r == 0.0
    ensures x > 1.0 ==> r == 1.0
  {
    if x > 1.0 then 1.0 else if x < 0.0 then 0.0 else x
  }

  /** What slot `k` of an image contributes: nothing for an empty or `None` slot or for a
      class the filter rejects, otherwise one entry. */
  function Consider(q: Query, imageId: string, rec: ImageRecord, k: nat): Option<SimilarObject>
    requires k < |rec.features|
  {
    var slot := rec.features[k];
    if slot.None? || slot.value == map[] then None
    else
      var det := DetectionAt(rec.detections, k);
      var cls := ClassOf(det);
      if q.sameClassOnly && !SameClass(cls, q.cls) then None
      else
        var visual := ComputeSimilarity(q.features, slot.value, q.weights, q.other);
        var final := Clamp(Adjusted(visual, SameClass(cls, q.cls), q.sameClassOnly, q.classWeight));
        Some(SimilarObject(imageId, k, final, visual, cls, ConfidenceOf(det), BboxOf(det)))
  }

  function AsSeq<T>(o: Option<T>): seq<T>
  {
    if o.Some? then [o.value] else []
  }

  /** The entries of the first `n` slots of one image, in slot order. */
  function ImageCandidates(q: Query, imageId: string, rec: ImageRecord, n: nat): seq<SimilarObject>
    requires n <= |rec.features|
  {
    if n == 0 then [] else ImageCandidates(q, imageId, rec, n - 1) + AsSeq(Consider(q, imageId, rec, n - 1))
  }

  predicate Listed(ids: seq<string>, images: map<string, ImageRecord>)
  {
    forall i :: 0 <= i < |ids| ==> ids[i] in images
  }

  /** The entries of one image, or none for the excluded image. */
  function EntriesOf(q: Query, imageId: string, rec: ImageRecord, exclude: Option<string>): seq<SimilarObject>
  {
    if exclude == Some(imageId) then [] else ImageCandidates(q, imageId, rec, |rec.features|)
  }

  /** The unsorted `similarities` list: the images in database order. */
  function Candidates(q: Query, ids: seq<string>, images: map<string, ImageRecord>, exclude: Option<string>): seq<SimilarObject>
    requires Listed(ids, images)
  {
    if ids == [] then []
    else
      var last := ids[|ids| - 1];
      Candidates(q, ids[..|ids| - 1], images, exclude) + EntriesOf(q, last, images[last], exclude)
  }

  /** One more image of the list adds its entries at the end. */
  lemma CandidatesStep(q: Query, ids: seq<string>, images: map<string, ImageRecord>, exclude: Option<string>, i: nat)
    requires Listed(ids, images) && i < |ids|
    ensures Listed(ids[..i], images) && Listed(ids[..i + 1], images)
    ensures Candidates(q, ids[..i + 1], images, exclude)
      == Candidates(q, ids[..i], images, exclude) + EntriesOf(q, ids[i], images[ids[i]], exclude)
  {
    assert ids[..i + 1][..i] == ids[..i];
  }

  function BySimilarity(c: SimilarObject): real
  {
    c.similarity
  }

  /** `find_similar`: the entries sorted by descending similarity, then `[:top_k]`. */
  function FindSimilarResult(q: Query, ids: seq<string>, images: map<string, ImageRecord>, topK: int,
                             exclude: Option<string>): seq<SimilarObject>
    requires Listed(ids, images)
  {
    TakePy(SortBy(Candidates(q, ids, images, exclude), BySimilarity, true), topK)
  }

  /** `c` reports a non-empty feature slot of a stored, non-excluded image with that slot's
      class, the class filter passed, and its score computed and clamped from that slot. */
  predicate Admissible(q: Query, images: map<string, ImageRecord>, exclude: Option<string>, c: SimilarObject)
  {
    && c.imageId in images
    && exclude != Some(c.imageId)
    && AdmissibleSlot(q, images[c.imageId], c)
  }

  predicate AdmissibleSlot(q: Query, rec: ImageRecord, c: SimilarObject)
  {
    && c.objectId < |rec.features|
    && rec.features[c.objectId].Some?
    && rec.features[c.objectId].value != map[]
    && c.cls == ClassOf(DetectionAt(rec.detections, c.objectId))
    && (q.sameClassOnly ==> SameClass(c.cls, q.cls))
    && c.visualSimilarity == ComputeSimilarity(q.features, rec.features[c.objectId].value, q.weights, q.other)
    && c.similarity == Clamp(Adjusted(c.visualSimilarity, SameClass(c.cls, q.cls), q.sameClassOnly, q.classWeight))
    && 0.0 <= c.similarity <= 1.0
  }

  lemma {:induction false} ImageCandidatesAdmissible(q: Query, imageId: string, rec: ImageRecord, n: nat)
    requires n <= |rec.features|
    ensures forall c :: c in ImageCandidates(q, imageId, rec, n) ==>
      c.imageId == imageId && c.objectId < n && AdmissibleSlot(q, rec, c)
  {
    if n > 0 {
      ImageCandidatesAdmissible(q, imageId, rec, n - 1);
      ConsiderAdmissible(q, imageId, rec, n - 1);
    }
  }

  /** The entry a slot contributes, if any, reports that slot admissibly. */
  lemma ConsiderAdmissible(q: Query, imageId: string, rec: ImageRecord, k: nat)
    requires k < |rec.features|
    ensures forall c :: c in AsSeq(Consider(q, imageId, rec, k)) ==>
      c.imageId == imageId && c.objectId == k && AdmissibleSlot(q, rec, c)
  {
    var r := Consider(q, imageId, rec, k);
    if r.Some? {
      var slot := rec.features[k].value;
      var visual := ComputeSimilarity(q.features, slot, q.weights, q.other);
      assert r.value.visualSimilarity == visual;
    }
  }

  lemma {:induction false} CandidatesAdmissible(q: Query, ids: seq<string>, images: map<string, ImageRecord>, exclude: Option<string>)
    requires Listed(ids, images)
    ensures forall c :: c in Candidates(q, ids, images, exclude) ==> c.imageId in ids && Admissible(q, images, exclude, c)
  {
    if ids != [] {
      var last := ids[|ids| - 1];
      CandidatesAdmissible(q, ids[..|ids| - 1], images, exclude);
      ImageCandidatesAdmissible(q, last, images[last], |images[last].features|);
    }
  }

  /** The slot passes every filter of `find_similar`. */
  predicate Eligible(q: Query, rec: ImageRecord, k: nat)
  {
    && k < |rec.features|
    && rec.features[k].Some?
    && rec.features[k].value != map[]
    && (q.sameClassOnly ==> SameClass(ClassOf(DetectionAt(rec.detections, k)), q.cls))
  }

  lemma {:induction false} ImageCandidatesComplete(q: Query, imageId: string, rec: ImageRecord, n: nat, k: nat)
    requires n <= |rec.features| && k < n && Eligible(q, rec, k)
    ensures exists c :: c in ImageCandidates(q, imageId, rec, n) && c.imageId == imageId && c.objectId == k
  {
    if k == n - 1 {
      var c := Consider(q, imageId, rec, k).value;
      assert c in ImageCandidates(q, imageId, rec, n);
    } else {
      ImageCandidatesComplete(q, imageId, rec, n - 1, k);
      var c :| c in ImageCandidates(q, imageId, rec, n - 1) && c.imageId == imageId && c.objectId == k;
      assert c in ImageCandidates(q, imageId, rec, n);
    }
  }

  lemma {:induction false} CandidatesComplete(q: Query, ids: seq<string>, images: map<string, ImageRecord>,
                                              exclude: Option<string>, i: nat, k: nat)
    requires Listed(ids, images) && i < |ids| && exclude != Some(ids[i]) && Eligible(q, images[ids[i]], k)
    ensures exists c :: c in Candidates(q, ids, images, exclude) && c.imageId == ids[i] && c.objectId == k
  {
    var front := ids[..|ids| - 1];
    if i == |ids| - 1 {
      var rec := images[ids[i]];
      ImageCandidatesComplete(q, ids[i], rec, |rec.features|, k);
      var c :| c in ImageCandidates(q, ids[i], rec, |rec.features|) && c.imageId == ids[i] && c.objectId == k;
      assert c in Candidates(q, ids, images, exclude);
    } else {
      assert front[i] == ids[i];
      CandidatesComplete(q, front, images, exclude, i, k);
      var c :| c in Candidates(q, front, images, exclude) && c.imageId == ids[i] && c.objectId == k;
      assert c in Candidates(q, ids, images, exclude);
    }
  }

  /** The results are sorted by non-increasing similarity, hold at most `top_k` entries,
      and each is admissible: never from the excluded image or an empty slot, of the query's
      class when classes are filtered, and with a similarity in [0, 1]. */
  lemma FindSimilarRanked(q: Query, ids: seq<string>, images: map<string, ImageRecord>, topK: int, exclude: Option<string>)
    requires Listed(ids, images)
    ensures var r := FindSimilarResult(q, ids, images, topK, exclude);
      && SortedBy(r, BySimilarity, true)
      && (topK >= 0 ==> |r| <= topK)
      && (forall c :: c in r ==> Admissible(q, images, exclude, c))
  {
    var all := Candidates(q, ids, images, exclude);
    var sorted := SortBy(all, BySimilarity, true);
    TakeSorted(sorted, topK, BySimilarity, true);
    CandidatesAdmissible(q, ids, images, exclude);
    var r := FindSimilarResult(q, ids, images, topK, exclude);
    forall c | c in r
      ensures Admissible(q, images, exclude, c)
    {
      assert c in multiset(r);
      assert c in multiset(all);
    }
  }

  /** Conversely, with `top_k` at least the number of entries, every eligible slot of every
      non-excluded image is reported. */
  lemma FindSimilarComplete(q: Query, ids: seq<string>, images: map<string, ImageRecord>, topK: int,
                            exclude: Option<string>, i: nat, k: nat)
    requires Listed(ids, images) && i < |ids| && exclude != Some(ids[i]) && Eligible(q, images[ids[i]], k)
    requires topK >= |Candidates(q, ids, images, exclude)|
    ensures exists c :: c in FindSimilarResult(q, ids, images, topK, exclude) && c.imageId == ids[i] && c.objectId == k
  {
    CandidatesComplete(q, ids, images, exclude, i, k);
    var all := Candidates(q, ids, images, exclude);
    var c :| c in all && c.imageId == ids[i] && c.objectId == k;
    var r := FindSimilarResult(q, ids, images, topK, exclude);
    assert r == SortBy(all, BySimilarity, true);
    assert c in multiset(all);
    assert c in r;
  }

  // ---------------------------------------------------------------------------------------
  // get_statistics

  datatype Statistics = Statistics(totalImages: nat, totalObjects: nat, totalFeaturesExtracted: nat,
                                   classDistribution: map<string, nat>)

  /** The number of slots that are not `None`. */
  function Filled(fs: seq<Option<FeatureSet>>): nat
  {
    if fs == [] then 0 else Filled(fs[..|fs| - 1]) + (if fs[|fs| - 1].Some? then 1 else 0)
  }

  function ClassNames(ds: seq<Detection>): (r: seq<string>)
    ensures |r| == |ds|
  {
    seq(|ds|, i requires 0 <= i < |ds| => ClassName(ds[i]))
  }

  /** The class names of every detection, image by image. */
  function AllClasses(ids: seq<string>, images: map<string, ImageRecord>): seq<string>
    requires Listed(ids, images)
  {
    if ids == [] then []
    else AllClasses(ids[..|ids| - 1], images) + ClassNames(images[ids[|ids| - 1]].detections)
  }

  function ObjectCount(ids: seq<string>, images: map<string, ImageRecord>): nat
    requires Listed(ids, images)
  {
    if ids == [] then 0
    else ObjectCount(ids[..|ids| - 1], images) + |images[ids[|ids| - 1]].detections|
  }

  function FeatureCount(ids: seq<string>, images: map<string, ImageRecord>): nat
    requires Listed(ids, images)
  {
    if ids == [] then 0
    else FeatureCount(ids[..|ids| - 1], images) + Filled(images[ids[|ids| - 1]].features)
  }

  function SlotCount(ids: seq<string>, images: map<string, ImageRecord>): nat
    requires Listed(ids, images)
  {
    if ids == [] then 0
    else SlotCount(ids[..|ids| - 1], images) + |images[ids[|ids| - 1]].features|
  }

  /** `get_statistics`. */
  function StatisticsOf(ids: seq<string>, images: map<string, ImageRecord>): Statistics
    requires Listed(ids, images)
  {
    Statistics(|images|, ObjectCount(ids, images), FeatureCount(ids, images), Tally(AllClasses(ids, images)))
  }

  /** `Filled` counts exactly the slots that are not `None`. */
  lemma {:induction false} FilledCountsSome(fs: seq<Option<FeatureSet>>)
    ensures Filled(fs) + Occurrences(fs, None) == |fs|
  {
    if fs != [] {
      FilledCountsSome(fs[..|fs| - 1]);
    }
  }

  lemma {:induction false} CountsAgree(ids: seq<string>, images: map<string, ImageRecord>)
    requires Listed(ids, images)
    ensures |AllClasses(ids, images)| == ObjectCount(ids, images)
    ensures FeatureCount(ids, images) <= SlotCount(ids, images)
  {
    if ids != [] {
      CountsAgree(ids[..|ids| - 1], images);
      FilledCountsSome(images[ids[|ids| - 1]].features);
    }
  }

  /** The class distribution counts every detection once: each class's count is the number
      of detections of that class, and the counts add up to `total_objects`. At most every
      slot holds extracted features. */
  lemma StatisticsConsistent(ids: seq<string>, images: map<string, ImageRecord>)
    requires Listed(ids, images)
    ensures var s := StatisticsOf(ids, images);
      && Total(s.classDistribution) == s.totalObjects
      && (forall c :: Get(s.classDistribution, c) == Occurrences(AllClasses(ids, images), c))
      && s.totalFeaturesExtracted <= SlotCount(ids, images)
  {
    CountsAgree(ids, images);
    TallyTotal(AllClasses(ids, images));
    TallyCounts(AllClasses(ids, images));
  }

  // ---------------------------------------------------------------------------------------
  // The service

  class SimilaritySearchService {
    var ids: seq<string>
    var images: map<string, ImageRecord>

    ghost predicate Valid()
      reads this
    {
      Keyed(ids, images)
    }

    /** An empty database (the JSON file is not modelled). */
    constructor ()
      ensures Valid() && ids == [] && images == map[]
    {
      ids := [];
      images := map[];
    }

    function GetDetections(imageId: string): Option<seq<Detection>>
      reads this
    {
      DetectionsOf(images, imageId)
    }

    function GetFeatures(imageId: string, objectId: int): Result<Option<FeatureSet>, string>
      reads this
    {
      FeaturesOf(images, imageId, objectId)
    }

    /** `save_detections`: creates the empty record for an unknown image, then replaces its
        detections and nothing else. */
    method SaveDetections(imageId: string, detections: seq<Detection>)
      requires Valid()
      modifies this
      ensures Valid()
      ensures ids == Enrolled(old(ids), imageId)
      ensures images == old(images)[imageId := RecordOf(old(images), imageId).(detections := detections)]
      ensures GetDetections(imageId) == Some(detections)
      ensures forall k :: (imageId in old(images) || k >= 0) ==> GetFeatures(imageId, k) == old(GetFeatures(imageId, k))
    {
      var rec := RecordOf(images, imageId);
      if imageId !in images {
        ids := ids + [imageId];
      }
      images := images[imageId := rec.(detections := detections)];
    }

    /** `save_features`: creates the empty record for an unknown image, pads its feature
        list with `None` until `object_id` is a valid index, and stores the features there.
        `ok` is false where the assignment raises `IndexError`; the new record stays. */
    method SaveFeatures(imageId: string, objectId: int, features: FeatureSet) returns (ok: bool)
      requires Valid()
      modifies this
      ensures Valid()
      ensures ids == Enrolled(old(ids), imageId)
      ensures ok <==> objectId >= -|RecordOf(old(images), imageId).features|
      ensures images == old(images)[imageId := RecordOf(old(images), imageId).(features :=
        if ok then Store(RecordOf(old(images), imageId).features, objectId, features).value
        else RecordOf(old(images), imageId).features)]
      ensures ok ==> GetFeatures(imageId, objectId) == Success(Some(features))
      ensures ok ==> forall j :: 0 <= j && j != Position(|images[imageId].features|, objectId) ==>
        GetFeatures(imageId, j) == old(GetFeatures(imageId, j))
    {
      var rec := RecordOf(images, imageId);
      if imageId !in images {
        ids := ids + [imageId];
        images := images[imageId := rec];
      }
      var fs := rec.features;
      while |fs| <= objectId
        invariant |fs| >= |rec.features|
        invariant |fs| == |rec.features| || |fs| <= objectId + 1
        invariant fs == rec.features + seq(|fs| - |rec.features|, _ => None)
        decreases objectId - |fs|
      {
        fs := fs + [None];
      }
      if objectId < |rec.features| {
        assert |fs| == |rec.features|;
        assert fs == rec.features + [];
      } else {
        assert |fs| == objectId + 1;
      }
      assert fs == Padded(rec.features, objectId);
      if -|fs| <= objectId {
        fs := fs[Position(|fs|, objectId) := Some(features)];
        images := images[imageId := rec.(features := fs)];
        ok := true;
        forall j | 0 <= j
          ensures Fetch(fs, objectId) == Success(Some(features))
          ensures j != Position(|fs|, objectId) ==> Fetch(fs, j) == Fetch(rec.features, j)
        {
          FetchAfterStore(rec.features, objectId, features, j);
        }
      } else {
        ok := false;
      }
    }

    /** Scans the slots of one image in order. */
    method ScanImage(q: Query, imageId: string, rec: ImageRecord) returns (r: seq<SimilarObject>)
      ensures r == ImageCandidates(q, imageId, rec, |rec.features|)
    {
      r := [];
      var k := 0;
      while k < |rec.features|
        invariant 0 <= k <= |rec.features|
        invariant r == ImageCandidates(q, imageId, rec, k)
      {
        var slot := rec.features[k];
        if slot.Some? && slot.value != map[] {
          var det := DetectionAt(rec.detections, k);
          var cls := ClassOf(det);
          if !(q.sameClassOnly && !SameClass(cls, q.cls)) {
            var visual := ComputeSimilarity(q.features, slot.value, q.weights, q.other);
            var final := Clamp(Adjusted(visual, SameClass(cls, q.cls), q.sameClassOnly, q.classWeight));
            r := r + [SimilarObject(imageId, k, final, visual, cls, ConfidenceOf(det), BboxOf(det))];
          }
        }
        k := k + 1;
      }
    }

    /** `find_similar`. */
    method FindSimilar(queryFeatures: FeatureSet, queryClass: string, topK: int, weights: Option<map<string, real>>,
                       exclude: Option<string>, sameClassOnly: bool, classWeight: real, other: Compare)
      returns (r: seq<SimilarObject>)
      requires Valid()
      ensures r == FindSimilarResult(Query(queryFeatures, queryClass, WeightsOrDefault(weights), sameClassOnly, classWeight, other),
                                     ids, images, topK, exclude)
    {
      var q := Query(queryFeatures, queryClass, WeightsOrDefault(weights), sameClassOnly, classWeight, other);
      var similarities: seq<SimilarObject> := [];
      var i := 0;
      while i < |ids|
        invariant 0 <= i <= |ids|
        invariant similarities == Candidates(q, ids[..i], images, exclude)
      {
        CandidatesStep(q, ids, images, exclude, i);
        if exclude != Some(ids[i]) {
          var entries := ScanImage(q, ids[i], images[ids[i]]);
          similarities := similarities + entries;
        }
        i := i + 1;
      }
      assert ids[..i] == ids;
      similarities := SortBy(similarities, BySimilarity, true);
      r := TakePy(similarities, topK);
    }

    /** Counts one image's detections into the class distribution. */
    method CountClasses(counts: map<string, nat>, ds: seq<Detection>, ghost before: seq<string>)
      returns (r: map<string, nat>)
      requires counts == Tally(before)
      ensures r == Tally(before + ClassNames(ds))
    {
      r := counts;
      var j := 0;
      assert before + ClassNames(ds)[..0] == before;
      while j < |ds|
        invariant 0 <= j <= |ds|
        invariant r == Tally(before + ClassNames(ds)[..j])
      {
        var name := ClassName(ds[j]);
        TallyStep(before, ClassNames(ds), j);
        r := r[name := Get(r, name) + 1];
        j := j + 1;
      }
      assert ClassNames(ds)[..|ds|] == ClassNames(ds);
    }

    /** The slots of one list that hold features. */
    method CountFilled(fs: seq<Option<FeatureSet>>) returns (n: nat)
      ensures n == Filled(fs)
    {
      n := 0;
      var j := 0;
      while j < |fs|
        invariant 0 <= j <= |fs|
        invariant n == Filled(fs[..j])
      {
        assert fs[..j + 1][..j] == fs[..j];
        if fs[j].Some? {
          n := n + 1;
        }
        j := j + 1;
      }
      assert fs[..|fs|] == fs;
    }

    /** `get_statistics`. */
    method GetStatistics() returns (r: Statistics)
      requires Valid()
      ensures r == StatisticsOf(ids, images)
    {
      var objects, filled := 0, 0;
      var counts: map<string, nat> := map[];
      var i := 0;
      while i < |ids|
        invariant 0 <= i <= |ids|
        invariant objects == ObjectCount(ids[..i], images)
        invariant filled == FeatureCount(ids[..i], images)
        invariant counts == Tally(AllClasses(ids[..i], images))
      {
        assert ids[..i + 1][..i] == ids[..i];
        var rec := images[ids[i]];
        objects := objects + |rec.detections|;
        var n := CountFilled(rec.features);
        filled := filled + n;
        counts := CountClasses(counts, rec.detections, AllClasses(ids[..i], images));
        i := i + 1;
      }
      assert ids[..i] == ids;
      r := Statistics(|images|, objects, filled, counts);
    }
  }
}
