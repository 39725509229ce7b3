/** The REST handlers of the backend that decide what is accepted: the file-name filter
    applied to uploads, the upload loop that keeps only the accepted files, and the
    validation of a similarity-search request before the search itself. Saving a file is
    done by the image manager, which is not modelled: the upload reply lists the files handed
    to it, in order. */
module Api {
  import opened Wrappers
  import opened Text
  import opened Sorting
  import opened ImageDatabase
  import opened Similarity

  // ---------------------------------------------------------------------------------------
  // allowed_file

  /** The extensions an upload may have (lower case). */
  const AllowedExtensions: set<string> := {"png", "jpg", "jpeg", "gif", "bmp"}

  /** `s[i]` is a dot and no dot follows it. */
  predicate IsLastDot(s: string, i: int)
  {
    0 <= i < |s| && s[i] == '.' && '.' !in s[i + 1..]
  }

  /** The position of the last `.` of `s`, if any. */
  function LastDot(s: string): (r: Option<nat>)
    ensures r.None? <==> '.' !in s
    ensures r.Some? ==> IsLastDot(s, r.value)
  {
    if |s| == 0 then None
    else if s[|s| - 1] == '.' then Some(|s| - 1)
    else
      var r := LastDot(s[..|s| - 1]);
      assert r.None? ==> s == s[..|s| - 1] + [s[|s| - 1]];
      assert r.Some? ==> s[r.value + 1..] == s[..|s| - 1][r.value + 1..] + [s[|s| - 1]];
      r
  }

  /** A dot with no dot after it is the last dot. */
  lemma LastDotUnique(s: string, i: nat)
    requires IsLastDot(s, i)
    ensures LastDot(s) == Some(i)
  {
  }

  /** `allowed_file`: the name has a dot, and the text after its last dot, lower-cased, is
      one of the allowed extensions. */
  function AllowedFile(filename: string): (r: bool)
    ensures '.' !in filename ==> !r
  {
    var ext := Extension(filename);
    ext.Some? && ext.value in AllowedExtensions
  }

  /** `filename.rsplit('.', 1)[1].lower()`, for a name that has a dot. */
  function Extension(filename: string): (r: Option<string>)
    ensures r.None? <==> '.' !in filename
  {
    match LastDot(filename)
    case None => None
    case Some(d) => Some(Lower(filename[d + 1..]))
  }

  /** The filter, stated without `LastDot`: some dot with no dot after it is followed by an
      allowed extension in any case. */
  lemma AllowedFileSpec(filename: string)
    ensures AllowedFile(filename) <==>
      exists i :: IsLastDot(filename, i) && Lower(filename[i + 1..]) in AllowedExtensions
  {
    if exists i :: IsLastDot(filename, i) && Lower(filename[i + 1..]) in AllowedExtensions {
      var i :| IsLastDot(filename, i) && Lower(filename[i + 1..]) in AllowedExtensions;
      LastDotUnique(filename, i);
    }
  }

  /** Only the text after the last dot decides: a name ending in a dot is refused, and
      `stem.ext` is accepted exactly when `ext` is an allowed extension in any case, whatever
      dots `stem` holds. */
  lemma LastDotDecides(stem: string, ext: string)
    requires '.' !in ext
    ensures AllowedFile(stem + "." + ext) <==> Lower(ext) in AllowedExtensions
    ensures !AllowedFile(stem + ".")
  {
    var name := stem + "." + ext;
    assert name[|stem|] == '.' && name[|stem| + 1..] == ext;
    LastDotUnique(name, |stem|);
    var bare := stem + ".";
    assert bare[|stem| + 1..] == [];
    LastDotUnique(bare, |stem|);
  }

  /** Lower-casing keeps the dots where they are. */
  lemma LowerKeepsDots(s: string)
    ensures LastDot(Lower(s)) == LastDot(s)
  {
    var l := Lower(s);
    assert forall i :: 0 <= i < |s| ==> (l[i] == '.' <==> s[i] == '.');
    if LastDot(s).Some? {
      var d := LastDot(s).value;
      LowerSuffix(s, d + 1);
      LastDotUnique(l, d);
    }
  }

  /** The filter ignores case: a name and its lower-cased form are accepted alike. */
  lemma AllowedFileIgnoresCase(filename: string)
    ensures AllowedFile(Lower(filename)) == AllowedFile(filename)
  {
    ExtensionIgnoresCase(filename);
  }

  lemma ExtensionIgnoresCase(filename: string)
    ensures Extension(Lower(filename)) == Extension(filename)
  {
    LowerKeepsDots(filename);
    if LastDot(filename).Some? {
      ExtensionLowerAt(filename, LastDot(filename).value);
    }
  }

  lemma ExtensionLowerAt(filename: string, d: nat)
    requires LastDot(filename) == Some(d) && LastDot(Lower(filename)) == Some(d)
    ensures Extension(Lower(filename)) == Extension(filename)
  {
    LowerSuffix(filename, d + 1);
    LowerIdempotent(filename[d + 1..]);
  }

  /** Upper-case extensions are accepted: `A.JPG` passes. */
  lemma UpperCaseAccepted()
    ensures AllowedFile("A.JPG")
  {
    LastDotDecides("A", "JPG");
    assert "A" + "." + "JPG" == "A.JPG";
    assert Lower("JPG") == "jpg";
  }

  /** Only the last dot counts: `x.tar.png` passes. */
  lemma InnerDotsIgnored()
    ensures AllowedFile("x.tar.png")
  {
    LastDotDecides("x.tar", "png");
    assert "x.tar" + "." + "png" == "x.tar.png";
    assert Lower("png") == "png";
  }

  /** An allowed extension before the last dot does not help: `x.png.exe` is refused. */
  lemma InnerExtensionIgnored()
    ensures !AllowedFile("x.png.exe")
  {
    LastDotDecides("x.png", "exe");
    assert "x.png" + "." + "exe" == "x.png.exe";
    assert Lower("exe") == "exe";
  }

  // ---------------------------------------------------------------------------------------
  // ImageUpload.post

  /** An uploaded file, by its name; a file object is false when its name is empty. */
  datatype FileUpload = FileUpload(filename: string)

  predicate Accepted(f: FileUpload)
  {
    f.filename != "" && AllowedFile(f.filename)
  }

  /** The accepted files, in their order. */
  function Kept(files: seq<FileUpload>): (r: seq<FileUpload>)
    ensures |r| <= |files|
  {
    if files == [] then []
    else
      var last := files[|files| - 1];
      Kept(files[..|files| - 1]) + (if Accepted(last) then [last] else [])
  }

  /** The reply of the upload endpoint: 400 with a message, or 201 with the files saved. */
  datatype UploadReply = UploadRejected(status: int, message: string) | Uploaded(status: int, saved: seq<FileUpload>)

  /** The endpoint's reply; `None` is a request without an `images` field. */
  function UploadOutcome(files: Option<seq<FileUpload>>): UploadReply
  {
    if files.None? then UploadRejected(400, "No images provided") else Uploaded(201, Kept(files.value))
  }

  /** `ImageUpload.post`: the loop over the submitted files. */
  method Upload(files: Option<seq<FileUpload>>) returns (r: UploadReply)
    ensures r == UploadOutcome(files)
  {
    if files.None? {
      return UploadRejected(400, "No images provided");
    }
    var fs := files.value;
    var results: seq<FileUpload> := [];
    var i := 0;
    while i < |fs|
      invariant 0 <= i <= |fs|
      invariant results == Kept(fs[..i])
    {
      assert fs[..i + 1][..i] == fs[..i];
      var file := fs[i];
      if file.filename != "" && AllowedFile(file.filename) {
        results := results + [file];
      }
      i := i + 1;
    }
    assert fs[..i] == fs;
    r := Uploaded(201, results);
  }

  /** A file is saved exactly when it was submitted and passes the filter. */
  lemma {:induction false} KeptMembers(files: seq<FileUpload>, f: FileUpload)
    ensures f in Kept(files) <==> f in files && Accepted(f)
  {
    if files != [] {
      var init := files[..|files| - 1];
      KeptMembers(init, f);
      assert files == init + [files[|files| - 1]];
    }
  }

  /** The filter keeps the order: it distributes over concatenation, so the files saved from
      a batch are those saved from its first part followed by those saved from the rest. */
  lemma {:induction false} KeptConcat(a: seq<FileUpload>, b: seq<FileUpload>)
    ensures Kept(a + b) == Kept(a) + Kept(b)
  {
    if b == [] {
      assert a + b == a;
    } else {
      var init := b[..|b| - 1];
      KeptConcat(a, init);
      assert (a + b)[..|a + b| - 1] == a + init;
    }
  }

  /** A batch of accepted files is saved whole, and a batch of refused ones not at all. */
  lemma {:induction false} KeptAllOrNothing(files: seq<FileUpload>)
    ensures (forall i :: 0 <= i < |files| ==> Accepted(files[i])) ==> Kept(files) == files
    ensures (forall i :: 0 <= i < |files| ==> !Accepted(files[i])) ==> Kept(files) == []
  {
    if files != [] {
      KeptAllOrNothing(files[..|files| - 1]);
      assert files == files[..|files| - 1] + [files[|files| - 1]];
    }
  }

  /** The upload endpoint answers 400 exactly when the `images` field is missing; otherwise
      it answers 201 and saves the accepted files, in order. */
  lemma UploadReplies(files: Option<seq<FileUpload>>)
    ensures UploadOutcome(files).UploadRejected? <==> files.None?
    ensures UploadOutcome(files).status == (if files.None? then 400 else 201)
    ensures files.Some? ==> forall f :: f in UploadOutcome(files).saved <==> f in files.value && Accepted(f)
  {
    if files.Some? {
      forall f
        ensures f in UploadOutcome(files).saved <==> f in files.value && Accepted(f)
      {
        KeptMembers(files.value, f);
      }
    }
  }

  // ---------------------------------------------------------------------------------------
  // SimilaritySearch.post

  /** The JSON body of a search request; an absent key is `None`. */
  datatype SearchBody = SearchBody(queryImageId: Option<string>, queryObjectId: Option<int>, topK: Option<int>,
                                   weights: Option<map<string, real>>)

  /** The reply of the search endpoint: an error status with its message, an exception
      raised by the handler (which the framework turns into a server error), or the results. */
  datatype SearchReply =
    | SearchRejected(status: int, message: string)
    | SearchRaised(exception: string)
    | SearchFound(queryImageId: string, queryObjectId: int, queryClass: string, similarObjects: seq<SimilarObject>)

  /** The number of results when the request gives none. */
  const DefaultTopK := 10

  /** The class bonus `find_similar` applies when it is not given one. */
  const DefaultClassWeight := 0.8

  /** The `KeyError` raised when a stored detection has no class. */
  const MissingClass := "KeyError: 'class'"

  /** `not query_image_id or query_object_id is None`: an empty id is missing too. */
  predicate Incomplete(body: SearchBody)
  {
    body.queryImageId.None? || body.queryImageId.value == "" || body.queryObjectId.None?
  }

  /** `not query_features`: no slot, an unset slot or an empty feature dictionary. */
  predicate NoFeatures(f: Option<FeatureSet>)
  {
    f.None? || f.value == map[]
  }

  /** The handler's reply for a database with key order `ids` and records `images`, the
      feature comparisons being `other`. */
  function SearchOutcome(ids: seq<string>, images: map<string, ImageRecord>, body: SearchBody, other: Compare): SearchReply
    requires Listed(ids, images)
  {
    if Incomplete(body) then SearchRejected(400, "query_image_id and query_object_id required")
    else
      var imageId := body.queryImageId.value;
      var objectId := body.queryObjectId.value;
      var features := FeaturesOf(images, imageId, objectId);
      if features.Failure? then SearchRaised(features.error)
      else if NoFeatures(features.value) then SearchRejected(404, "Features not found. Extract features first.")
      else
        var detections := DetectionsOf(images, imageId);
        if detections.None? || detections.value == [] || objectId >= |detections.value| then
          SearchRejected(404, "Detection not found")
        else if objectId < -|detections.value| then SearchRaised(IndexError)
        else
          var d := detections.value[Position(|detections.value|, objectId)];
          if d.cls.None? then SearchRaised(MissingClass)
          else
            var topK := if body.topK.Some? then body.topK.value else DefaultTopK;
            var q := Query(features.value.value, d.cls.value, WeightsOrDefault(body.weights), true, DefaultClassWeight, other);
            SearchFound(imageId, objectId, d.cls.value, FindSimilarResult(q, ids, images, topK, Some(imageId)))
  }

  /** `SimilaritySearch.post`, reading the service and running its search. */
  method Search(service: SimilaritySearchService, body: SearchBody, other: Compare) returns (r: SearchReply)
    requires service.Valid()
    ensures r == SearchOutcome(service.ids, service.images, body, other)
  {
    if body.queryImageId.None? || body.queryImageId.value == "" || body.queryObjectId.None? {
      return SearchRejected(400, "query_image_id and query_object_id required");
    }
    var imageId := body.queryImageId.value;
    var objectId := body.queryObjectId.value;
    var features := service.GetFeatures(imageId, objectId);
    if features.Failure? {
      return SearchRaised(features.error);
    }
    if features.value.None? || features.value.value == map[] {
      return SearchRejected(404, "Features not found. Extract features first.");
    }
    var detections := service.GetDetections(imageId);
    if detections.None? || detections.value == [] || objectId >= |detections.value| {
      return SearchRejected(404, "Detection not found");
    }
    if objectId < -|detections.value| {
      return SearchRaised(IndexError);
    }
    var d := detections.value[Position(|detections.value|, objectId)];
    if d.cls.None? {
      return SearchRaised(MissingClass);
    }
    var topK := if body.topK.Some? then body.topK.value else DefaultTopK;
    var similar := service.FindSimilar(features.value.value, d.cls.value, topK, body.weights, Some(imageId), true,
                                       DefaultClassWeight, other);
    r := SearchFound(imageId, objectId, d.cls.value, similar);
  }

  /** The 400 reply is given exactly when the image id or the object id is missing. */
  lemma SearchBadRequest(ids: seq<string>, images: map<string, ImageRecord>, body: SearchBody, other: Compare)
    requires Listed(ids, images)
    ensures var r := SearchOutcome(ids, images, body, other);
      r.SearchRejected? && r.status == 400 <==> Incomplete(body)
  {
  }

  /** A complete request for an object whose features are stored is answered 404 when the
      object index reaches the number of detections of its image, or the image has none. */
  lemma SearchDetectionNotFound(ids: seq<string>, images: map<string, ImageRecord>, body: SearchBody, other: Compare)
    requires Listed(ids, images) && !Incomplete(body)
    requires var f := FeaturesOf(images, body.queryImageId.value, body.queryObjectId.value);
      f.Success? && !NoFeatures(f.value)
    ensures var ds := images[body.queryImageId.value].detections;
      body.queryObjectId.value >= |ds| ==> SearchOutcome(ids, images, body, other) == SearchRejected(404, "Detection not found")
  {
  }

  /** A successful search answers for the requested object: its features are stored, its
      detection exists and gives the query class, and every result is ranked by descending
      score, at most `top_k` of them, each an object of another image with that class. */
  lemma SearchFoundShape(ids: seq<string>, images: map<string, ImageRecord>, body: SearchBody, other: Compare)
    requires Listed(ids, images)
    ensures var r := SearchOutcome(ids, images, body, other);
      r.SearchFound? ==>
        && Some(r.queryImageId) == body.queryImageId && Some(r.queryObjectId) == body.queryObjectId
        && r.queryImageId in images
        && var rec := images[r.queryImageId];
           && -|rec.detections| <= r.queryObjectId < |rec.detections|
           && rec.detections[Position(|rec.detections|, r.queryObjectId)].cls == Some(r.queryClass)
           && !NoFeatures(FeaturesOf(images, r.queryImageId, r.queryObjectId).value)
           && SortedBy(r.similarObjects, BySimilarity, true)
           && (body.topK.None? ==> |r.similarObjects| <= DefaultTopK)
           && (body.topK.Some? && body.topK.value >= 0 ==> |r.similarObjects| <= body.topK.value)
           && forall c :: c in r.similarObjects ==>
                c.imageId != r.queryImageId && c.imageId in images && SameClass(c.cls, r.queryClass)
  {
    var r := SearchOutcome(ids, images, body, other);
    if r.SearchFound? {
      var imageId := body.queryImageId.value;
      var ds := images[imageId].detections;
      var d := ds[Position(|ds|, body.queryObjectId.value)];
      var topK := if body.topK.Some? then body.topK.value else DefaultTopK;
      var q := Query(FeaturesOf(images, imageId, body.queryObjectId.value).value.value, d.cls.value,
                     WeightsOrDefault(body.weights), true, DefaultClassWeight, other);
      FindSimilarRanked(q, ids, images, topK, Some(imageId));
    }
  }
}
