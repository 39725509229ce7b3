/** The upload-detect-search workflow of the main page (`App`): its state, the handlers
    that change it, and the conversions between the page and the back end. Each handler is
    modelled with the results of its requests as parameters; a request that fails is a
    `Failure` carrying the error's message. React applies the state updates of one handler
    in order; the 100 ms timer that moves to step 2 is taken as having fired. */
module AppWorkflow {
  import opened Wrappers
  import opened Text
  import opened Selection
  import opened DetectedObjects
  import Similarity

  datatype ToastKind = Info | Success | Warning | Error
  datatype Toast = Toast(message: string, kind: ToastKind)

  /** A detection as the detection endpoint returns it. */
  datatype RawDetection = RawDetection(cls: string, confidence: real, bbox: seq<real>)

  /** The advanced-mode sliders, in percent. */
  datatype Weights = Weights(color: real, texture: real, shape: real)

  /** One entry of `similar_objects` in the search response. */
  datatype SimilarObjectJson = SimilarObjectJson(imageId: string, objectId: nat, filename: string, similarity: real,
                                                 cls: string, confidence: real, bbox: seq<real>)

  /** One result card. */
  datatype ResultCard = ResultCard(id: string, imageId: string, objectId: nat, filename: string, similarity: int,
                                   className: string, confidence: int, bbox: seq<real>)

  /** What `handleSearch` asks the back end for. */
  datatype SearchRequest = SearchRequest(imageId: Option<string>, objectId: int, topK: nat, weights: Option<map<string, real>>)

  /** The number of results `handleSearch` asks for. */
  const SearchTopK: nat := 20

  // ---------------------------------------------------------------------------------------
  // Conversions

  /** The detections as the page keeps them: the id is the position and the label the class. */
  function Format(dets: seq<RawDetection>): (r: seq<DetectedObject>)
    ensures |r| == |dets|
    ensures forall i :: 0 <= i < |r| ==> r[i].id == i && r[i].labelText == r[i].cls == dets[i].cls
    ensures forall i :: 0 <= i < |r| ==> r[i].confidence == dets[i].confidence && r[i].bbox == dets[i].bbox
  {
    seq(|dets|, i requires 0 <= i < |dets| => DetectedObject(i, dets[i].cls, dets[i].cls, dets[i].confidence, dets[i].bbox))
  }

  /** The first object is selected when there is one. */
  function InitialSelection(objects: seq<DetectedObject>): (r: seq<int>)
    ensures Distinct(r)
    ensures |r| > 0 <==> |objects| > 0
  {
    if |objects| > 0 then [0] else []
  }

  /** The initial selection names a formatted detection, and only when there is one. */
  lemma InitialSelectionValid(dets: seq<RawDetection>)
    ensures var objects := Format(dets);
      && (|dets| > 0 ==> InitialSelection(objects) == [objects[0].id])
      && (|dets| == 0 ==> InitialSelection(objects) == [])
  {
  }

  /** `Math.round`: halves round up. */
  function JsRound(x: real): int
  {
    (x + 0.5).Floor
  }

  /** The displayed similarity, `Math.round(Math.min(similarity * 100, 100))`. */
  function DisplayedSimilarity(similarity: real): int
  {
    JsRound(if similarity * 100.0 <= 100.0 then similarity * 100.0 else 100.0)
  }

  /** The displayed similarity never exceeds 100, is 100 from a similarity of 1 on, is not
      negative for a non-negative similarity, and keeps the order of the similarities. */
  lemma DisplayedSimilarityBounds(a: real, b: real)
    ensures DisplayedSimilarity(a) <= 100
    ensures a >= 1.0 ==> DisplayedSimilarity(a) == 100
    ensures a >= 0.0 ==> DisplayedSimilarity(a) >= 0
    ensures a <= b ==> DisplayedSimilarity(a) <= DisplayedSimilarity(b)
  {
  }

  function Card(o: SimilarObjectJson): ResultCard
  {
    ResultCard(o.imageId + "-" + NatToString(o.objectId), o.imageId, o.objectId, o.filename,
               DisplayedSimilarity(o.similarity), o.cls, JsRound(o.confidence * 100.0), o.bbox)
  }

  function Cards(objs: seq<SimilarObjectJson>): (r: seq<ResultCard>)
    ensures |r| == |objs|
  {
    seq(|objs|, i requires 0 <= i < |objs| => Card(objs[i]))
  }

  /** A card's id is the image id, a dash and the object id, and the object id reads back
      from what follows the dash. */
  lemma CardId(o: SimilarObjectJson)
    ensures var id := Card(o).id;
      && id[..|o.imageId|] == o.imageId && id[|o.imageId|] == '-'
      && JsParseInt(id[|o.imageId| + 1..]) == Some(o.objectId)
  {
    var id := Card(o).id;
    assert id[|o.imageId| + 1..] == NatToString(o.objectId);
    JsParseIntOfNatToString(o.objectId);
  }

  /** The weights sent with a search: `null` stays `null`; otherwise colour is scaled from
      percent and texture and shape are each split evenly over their three features. */
  function ApiWeights(w: Option<Weights>): Option<map<string, real>>
  {
    if w.None? then None
    else Some(map[
      "color" := w.value.color / 100.0,
      "texture_tamura" := w.value.texture / 300.0,
      "texture_gabor" := w.value.texture / 300.0,
      "texture_lbp" := w.value.texture / 300.0,
      "shape_hu" := w.value.shape / 300.0,
      "shape_hog" := w.value.shape / 300.0,
      "shape_contour" := w.value.shape / 300.0])
  }

  /** The sent weights name exactly the feature groups the back end compares, and they add
      up to the slider total over 100 (1 for the initial 40/30/30). */
  lemma ApiWeightsShape(w: Weights)
    ensures var m := ApiWeights(Some(w)).value;
      && m.Keys == (set i | 0 <= i < |Similarity.Kinds| :: Similarity.Kinds[i].0)
      && m["texture_tamura"] == m["texture_gabor"] == m["texture_lbp"]
      && m["shape_hu"] == m["shape_hog"] == m["shape_contour"]
      && m["color"] + m["texture_tamura"] + m["texture_gabor"] + m["texture_lbp"]
         + m["shape_hu"] + m["shape_hog"] + m["shape_contour"] == (w.color + w.texture + w.shape) / 100.0
  {
    var m := ApiWeights(Some(w)).value;
    var kinds := set i | 0 <= i < |Similarity.Kinds| :: Similarity.Kinds[i].0;
    assert Similarity.Kinds[0].0 == "color" && Similarity.Kinds[1].0 == "texture_tamura";
    assert Similarity.Kinds[2].0 == "texture_gabor" && Similarity.Kinds[3].0 == "shape_hu";
    assert Similarity.Kinds[4].0 == "shape_hog" && Similarity.Kinds[5].0 == "texture_lbp";
    assert Similarity.Kinds[6].0 == "shape_contour";
    assert kinds <= m.Keys;
  }

  // ---------------------------------------------------------------------------------------
  // Completed steps

  /** `completeStep` on the current list of completed steps: the step is added once. */
  function CompleteStep(completed: seq<int>, step: int): (r: seq<int>)
  {
    if step in completed then completed else completed + [step]
  }

  /** The step is recorded, nothing else is added or lost, no step is listed twice and a
      second call changes nothing. */
  lemma CompleteStepProperties(completed: seq<int>, step: int)
    ensures var r := CompleteStep(completed, step);
      && step in r
      && (forall s :: s in r <==> s in completed || s == step)
      && (Distinct(completed) ==> Distinct(r))
      && CompleteStep(r, step) == r
  {
  }

  /** `completeStep` as written: it tests and extends the list as it was when the handler
      was created, not the list the handler has just reset. */
  function CompleteStepAsWritten(snapshot: seq<int>, current: seq<int>, step: int): seq<int>
  {
    if step in snapshot then current else snapshot + [step]
  }

  lemma CompleteStepAsWrittenDistinct(snapshot: seq<int>, current: seq<int>, step: int)
    requires Distinct(snapshot) && Distinct(current)
    ensures Distinct(CompleteStepAsWritten(snapshot, current, step))
  {
  }

  /** When nothing has changed the list since the handler was created, as in `handleSearch`,
      the handler as written and the corrected update agree. */
  lemma CompleteStepUnchangedList(completed: seq<int>, step: int)
    ensures CompleteStepAsWritten(completed, completed, step) == CompleteStep(completed, step)
  {
  }

  /** Uploading a second image: the handler resets the list, and `completeStep(1)` sees the
      old list, which already holds step 1, so step 1 ends up not completed. */
  lemma StaleCompleteStep()
    ensures var snapshot := [1];
      && 1 !in CompleteStepAsWritten(snapshot, [], 1)
      && 1 in CompleteStep([], 1)
  {
  }

  // ---------------------------------------------------------------------------------------
  // The page

  class App {
    var currentStep: int
    var completedSteps: seq<int>
    var detectedObjects: seq<DetectedObject>
    var selectedObjects: seq<int>
    var searchResults: seq<ResultCard>
    var imageId: Option<string>
    var uploadedImage: Option<string>
    var imagePreview: Option<string>
    var isProcessing: bool
    var isSearching: bool
    var toast: Option<Toast>

    /** Steps run from 1 to 4 and neither list repeats an entry. */
    ghost predicate Valid()
      reads this
    {
      1 <= currentStep <= 4 && Distinct(completedSteps) && Distinct(selectedObjects)
    }

    constructor ()
      ensures Valid()
      ensures currentStep == 1 && completedSteps == [] && detectedObjects == [] && selectedObjects == []
      ensures searchResults == [] && imageId == None && uploadedImage == None && imagePreview == None
      ensures !isProcessing && !isSearching && toast == None
    {
      currentStep := 1;
      completedSteps := [];
      detectedObjects := [];
      selectedObjects := [];
      searchResults := [];
      imageId := None;
      uploadedImage := None;
      imagePreview := None;
      isProcessing := false;
      isSearching := false;
      toast := None;
    }

    /** `uploadAndDetect`, given the upload's image id and the detections. Its
        `completeStep(1)` is the handler as written: it tests and extends the list of
        completed steps as it was when the handler was created, not the list the handler
        has just reset. */
    method UploadAndDetect(upload: Result<string, string>, detect: Result<seq<RawDetection>, string>)
      requires Valid()
      modifies this
      ensures Valid()
      ensures searchResults == [] && !isProcessing
      ensures upload.Success? ==> imageId == Some(upload.value)
      ensures upload.Failure? ==> imageId == old(imageId)
      ensures var found := upload.Success? && detect.Success?;
        && (found ==> detectedObjects == Format(detect.value) && selectedObjects == InitialSelection(Format(detect.value)))
        && (!found ==> detectedObjects == old(detectedObjects) && selectedObjects == old(selectedObjects))
        && (found && |detect.value| > 0 ==>
              completedSteps == CompleteStepAsWritten(old(completedSteps), [], 1) && currentStep == 2)
        && (!(found && |detect.value| > 0) ==> completedSteps == [] && currentStep == old(currentStep))
      ensures upload.Failure? ==> toast == Some(Toast("Failed to process image: " + upload.error, Error))
      ensures upload.Success? && detect.Failure? ==> toast == Some(Toast("Failed to process image: " + detect.error, Error))
      ensures upload.Success? && detect.Success? && |detect.value| > 0 ==>
        toast == Some(Toast("Detected " + NatToString(|detect.value|) + " object(s)", ToastKind.Success))
      ensures upload.Success? && detect.Success? && |detect.value| == 0 ==> toast == old(toast)
      ensures uploadedImage == old(uploadedImage) && imagePreview == old(imagePreview) && isSearching == old(isSearching)
    {
      var rendered := completedSteps;
      isProcessing := true;
      searchResults := [];
      completedSteps := [];
      if upload.Failure? {
        toast := Some(Toast("Failed to process image: " + upload.error, Error));
      } else {
        imageId := Some(upload.value);
        if detect.Failure? {
          toast := Some(Toast("Failed to process image: " + detect.error, Error));
        } else {
          ShowDetections(detect.value, rendered);
        }
      }
      isProcessing := false;
    }

    /** The detection request of `uploadAndDetect` succeeded: the formatted detections are
        shown with the first one selected, and a non-empty list completes step 1 through
        `completeStep` as written, on the list `rendered` the handler was created with. */
    method ShowDetections(dets: seq<RawDetection>, rendered: seq<int>)
      requires Valid() && completedSteps == [] && Distinct(rendered)
      modifies this
      ensures Valid()
      ensures detectedObjects == Format(dets) && selectedObjects == InitialSelection(Format(dets))
      ensures |dets| > 0 ==> completedSteps == CompleteStepAsWritten(rendered, [], 1) && currentStep == 2
      ensures |dets| > 0 ==> toast == Some(Toast("Detected " + NatToString(|dets|) + " object(s)", ToastKind.Success))
      ensures |dets| == 0 ==> completedSteps == [] && currentStep == old(currentStep) && toast == old(toast)
      ensures searchResults == old(searchResults) && imageId == old(imageId) && isProcessing == old(isProcessing)
      ensures uploadedImage == old(uploadedImage) && imagePreview == old(imagePreview) && isSearching == old(isSearching)
    {
      var formatted := Format(dets);
      detectedObjects := formatted;
      selectedObjects := InitialSelection(formatted);
      if |formatted| > 0 {
        toast := Some(Toast("Detected " + NatToString(|formatted|) + " object(s)", ToastKind.Success));
        CompleteStepAsWrittenDistinct(rendered, completedSteps, 1);
        completedSteps := CompleteStepAsWritten(rendered, completedSteps, 1);
        currentStep := 2;
      }
    }

    /** `handleClearImage`: back to an empty step 1. */
    method HandleClearImage()
      requires Valid()
      modifies this
      ensures Valid()
      ensures uploadedImage == None && imagePreview == None && imageId == None
      ensures detectedObjects == [] && selectedObjects == [] && searchResults == []
      ensures currentStep == 1 && completedSteps == []
      ensures isProcessing == old(isProcessing) && isSearching == old(isSearching) && toast == old(toast)
    {
      uploadedImage := None;
      imagePreview := None;
      detectedObjects := [];
      selectedObjects := [];
      searchResults := [];
      imageId := None;
      currentStep := 1;
      completedSteps := [];
    }

    /** `toggleObjectSelection`. */
    method ToggleObjectSelection(id: int)
      requires Valid()
      modifies this
      ensures Valid()
      ensures selectedObjects == Toggle(old(selectedObjects), id)
      ensures id in selectedObjects <==> id !in old(selectedObjects)
      ensures forall other :: other != id ==> (other in selectedObjects <==> other in old(selectedObjects))
      ensures currentStep == old(currentStep) && completedSteps == old(completedSteps)
      ensures detectedObjects == old(detectedObjects) && searchResults == old(searchResults)
      ensures imageId == old(imageId) && toast == old(toast)
    {
      ToggleDistinct(selectedObjects, id);
      ToggleMembership(selectedObjects, id);
      selectedObjects := Toggle(selectedObjects, id);
    }

    /** `handleSearch`, given the weights and the outcomes of the feature-extraction request
        and of the search. With nothing selected it only warns and sends nothing; otherwise it
        asks for the first selected object's features, and only when that succeeds searches
        for the object and moves to the results when there are any. */
    method HandleSearch(weights: Option<Weights>, extract: Result<(), string>,
                        response: Result<seq<SimilarObjectJson>, string>)
      returns (request: Option<SearchRequest>)
      requires Valid()
      modifies this
      ensures Valid()
      ensures old(selectedObjects) == [] ==>
        (request == None
         && toast == Some(Toast("Please select at least one detected object to search", Warning))
         && searchResults == old(searchResults) && completedSteps == old(completedSteps) && currentStep == old(currentStep))
      ensures old(selectedObjects) != [] && extract.Failure? ==>
        request == None && toast == Some(Toast("Search failed: " + extract.error, Error))
        && searchResults == old(searchResults) && completedSteps == old(completedSteps) && currentStep == old(currentStep)
      ensures old(selectedObjects) != [] && extract.Success? ==>
        request == Some(SearchRequest(old(imageId), old(selectedObjects)[0], SearchTopK, ApiWeights(weights)))
      ensures old(selectedObjects) != [] && extract.Success? && response.Failure? ==>
        toast == Some(Toast("Search failed: " + response.error, Error))
        && searchResults == old(searchResults) && completedSteps == old(completedSteps) && currentStep == old(currentStep)
      ensures old(selectedObjects) != [] && extract.Success? && response.Success? ==> searchResults == Cards(response.value)
      ensures old(selectedObjects) != [] && extract.Success? && response.Success? && |response.value| > 0 ==>
        completedSteps == CompleteStep(old(completedSteps), 3) && currentStep == 4
        && toast == Some(Toast("Found " + NatToString(|response.value|) + " similar images", ToastKind.Success))
      ensures old(selectedObjects) != [] && extract.Success? && response.Success? && |response.value| == 0 ==>
        completedSteps == old(completedSteps) && currentStep == old(currentStep)
        && toast == Some(Toast("No similar images found", Info))
      ensures selectedObjects == old(selectedObjects) && detectedObjects == old(detectedObjects)
      ensures imageId == old(imageId)
      ensures isSearching == (if old(selectedObjects) == [] then old(isSearching) else false)
    {
      if |selectedObjects| == 0 {
        toast := Some(Toast("Please select at least one detected object to search", Warning));
        return None;
      }
      isSearching := true;
      var objectId := selectedObjects[0];
      if extract.Failure? {
        toast := Some(Toast("Search failed: " + extract.error, Error));
        isSearching := false;
        return None;
      }
      request := Some(SearchRequest(imageId, objectId, SearchTopK, ApiWeights(weights)));
      ShowResults(response);
      isSearching := false;
    }

    /** The search of `handleSearch` has answered: its objects become result cards, and a
        non-empty list completes step 3 and moves to step 4. */
    method ShowResults(response: Result<seq<SimilarObjectJson>, string>)
      requires Valid()
      modifies this
      ensures Valid()
      ensures response.Failure? ==>
        toast == Some(Toast("Search failed: " + response.error, Error))
        && searchResults == old(searchResults) && completedSteps == old(completedSteps) && currentStep == old(currentStep)
      ensures response.Success? ==> searchResults == Cards(response.value)
      ensures response.Success? && |response.value| > 0 ==>
        completedSteps == CompleteStep(old(completedSteps), 3) && currentStep == 4
        && toast == Some(Toast("Found " + NatToString(|response.value|) + " similar images", ToastKind.Success))
      ensures response.Success? && |response.value| == 0 ==>
        completedSteps == old(completedSteps) && currentStep == old(currentStep)
        && toast == Some(Toast("No similar images found", Info))
      ensures selectedObjects == old(selectedObjects) && detectedObjects == old(detectedObjects)
      ensures imageId == old(imageId) && isSearching == old(isSearching)
    {
      if response.Failure? {
        toast := Some(Toast("Search failed: " + response.error, Error));
      } else {
        var formatted := Cards(response.value);
        searchResults := formatted;
        if |formatted| > 0 {
          toast := Some(Toast("Found " + NatToString(|formatted|) + " similar images", ToastKind.Success));
          CompleteStepProperties(completedSteps, 3);
          completedSteps := CompleteStep(completedSteps, 3);
          currentStep := 4;
        } else {
          toast := Some(Toast("No similar images found", Info));
        }
      }
    }
  }
}
