# CBIR-System core in Dafny

This project models the core of a content-based image retrieval system and proves
properties of that model. The system stores uploaded images and the objects a detector finds
in them. For each object it keeps the features extracted from it, and it ranks the stored
objects by their similarity to a query object. A second search ranks 3D models (Wavefront
`.obj` meshes) by seven global shape features.

The model covers these parts of the system:

- **The image database** (`ImageDatabase`, `Similarity`):
  - `SimilaritySearchService` keeps, per image, its detections and a list of feature slots;
  - it saves and reads these back, including Python's negative list indices and the padding
    of the slot list;
  - it scores two feature sets by a weighted mean of per-group similarities, using histogram
    intersection for the histogram groups;
  - it ranks the stored objects against a query, with a class filter, a class bonus,
    clamping, descending order and `top_k`;
  - it counts objects, features and classes for the statistics.
- **The backend handlers** (`Api`):
  - the upload file-name filter and the upload loop;
  - the checks a similarity-search request goes through before the search.
- **The 3D shape search** (`ObjLoader`, `Shape3D`, `Shape3DSearch`):
  - the `.obj` loader used by the backend, with its errors;
  - the signed-volume formula, compactness and the bounding box with its aspect ratios;
  - the 7-value feature vector and z-score normalisation;
  - the weighted Euclidean distance and the ranked search.
- **The frontend** (`ObjViewer`, `DetectedObjects`, `AppWorkflow`, `Gallery`):
  - the browser-side `.obj` parser with its fan triangulation, and the vertex and index
    buffers built from it;
  - the detected-objects panel, with per-class instance numbering and an 8-colour palette;
  - the four-step workflow state of the main page: upload and detect, select, search,
    results;
  - the gallery page's multiple selection and its actions.

Helper modules:

- `Wrappers`: Option and Result.
- `Text`:
  - white space as JavaScript's `trim`/`split(/\s+/)` and Python's `strip`/`split` see it;
  - splitting on a character;
  - JavaScript `parseInt` and Python `int()` on decimal text;
  - ASCII lower-casing and number printing.
- `Geometry`: 3-vectors and the scalar triple product.
- `Sorting`: a stable sort by a real key and Python's `s[:k]`.
- `Selection`: toggling an element in an ordered selection.
- `Counting`: occurrence counts and the counting dictionary.

Some things are not modelled here and become parameters:

- Floating-point parsing (`parseFloat`, `float()`): a function parameter.
- Square roots: a function parameter.
- The feature comparisons outside the histogram groups (cosine and Hu-moment similarities):
  a function parameter.
- Network replies: given as the outcome of the request.
- User confirmation dialogs: a boolean.

Numbers are mathematical reals and integers.

`parseOBJ` in `ModelViewer3D.jsx` drops only face indices below 0. It does not compare an
index with the number of vertices, so `ObjViewer` keeps indices past the end of the vertex
list, as the code does.

## Model

| member | source | states |
|---|---|---|
| ObjViewer.ClassifyLine | frontend/src/components/ModelViewer3D.jsx:30-42 | a line is recognised as a face only with at least four fields, so every face line carries at least three vertex tokens |
| ObjViewer.SkippedLinesIgnored | frontend/src/components/ModelViewer3D.jsx:30-31 | an empty or comment line leaves the parsed vertices and faces unchanged |
| ObjViewer.VertexLineRoundTrip | frontend/src/components/ModelViewer3D.jsx:33-41 | the line `v x y z` is classified as a vertex line carrying exactly the three coordinate texts |
| ObjViewer.CollectFaceVertices | frontend/src/components/ModelViewer3D.jsx:44-54 | the index-collecting loop yields exactly the surviving indices of the face tokens |
| ObjViewer.SurvivingFromTokens | frontend/src/components/ModelViewer3D.jsx:46-54 | every kept index comes from some token of the face line |
| ObjViewer.PresentFrom | frontend/src/components/ModelViewer3D.jsx:51-53 | the kept indices are present entries of the token results, in order |
| ObjViewer.PresentAll | frontend/src/components/ModelViewer3D.jsx:51-53 | when no token is dropped the indices come out unchanged |
| ObjViewer.FaceIndexOfToken | frontend/src/components/ModelViewer3D.jsx:48-49 | the token `k+1` gives the zero-based index `k` |
| ObjViewer.FaceIndexOfSlashedToken | frontend/src/components/ModelViewer3D.jsx:48-49 | in `v/vt/vn` forms only the part before the first `/` is read |
| ObjViewer.FaceIndexDropsNonPositive | frontend/src/components/ModelViewer3D.jsx:49-53 | tokens `0` and `-n` give a negative index and are dropped |
| ObjViewer.SurvivingOneBased | frontend/src/components/ModelViewer3D.jsx:46-54 | printing zero-based indices one-based and parsing them back returns the same indices |
| ObjViewer.FaceLineRoundTrip | frontend/src/components/ModelViewer3D.jsx:42-68 | parsing the printed face line `f k1+1 ... kn+1` appends exactly the triangulation of `k1 ... kn` |
| ObjViewer.Fan | frontend/src/components/ModelViewer3D.jsx:63-67 | the fan of `m` triangles has `3m` indices, triangle `t` being `(fv[0], fv[t+1], fv[t+2])` |
| ObjViewer.TriangulateIsFan | frontend/src/components/ModelViewer3D.jsx:57-68 | triangles and quads are the first one or two fan triangles; polygons of `n` corners give `n-2` triangles; fewer than 3 corners give none |
| ObjViewer.TriangulateCorners | frontend/src/components/ModelViewer3D.jsx:57-68 | the triangulation is whole triangles, and each of its indices is a corner of the face |
| ObjViewer.Triangulate | frontend/src/components/ModelViewer3D.jsx:57-68 | a triangle is pushed as is, a quad as `(0,1,2),(0,2,3)`, a larger polygon as its fan from corner 0, fewer than 3 corners as nothing (one fan rule by `TriangulateIsFan`) |
| ObjViewer.FaceIndex | frontend/src/components/ModelViewer3D.jsx:48-53 | a token gives `parseInt` of its text before the first `/`, minus 1, and nothing when that text does not parse or the index is negative |
| ObjViewer.PushTriangles | frontend/src/components/ModelViewer3D.jsx:57-68 | the pushing loop appends exactly the triangulation to the face buffer |
| ObjViewer.ParseLine | frontend/src/components/ModelViewer3D.jsx:30-69 | one turn of the line loop pushes the vertex of a vertex line or the triangles of a face line, and leaves both buffers alone for any other line |
| ObjViewer.ParseLinesClassified | frontend/src/components/ModelViewer3D.jsx:27-70 | parsing lines equals classifying each line, then folding the classified lines |
| ObjViewer.ParseLinesAppend | frontend/src/components/ModelViewer3D.jsx:29-70 | the parse of two blocks of lines is the concatenation of their parses |
| ObjViewer.FacesAreTriangles | frontend/src/components/ModelViewer3D.jsx:57-68 | whatever the classified lines, the face buffer holds whole triangles |
| ObjViewer.ParseObjText | frontend/src/components/ModelViewer3D.jsx:24-74 | the text is split at newlines and the lines folded; its properties are stated by `TextFacesAreTriangles` and `ParseObj` |
| ObjViewer.TextFacesAreTriangles | frontend/src/components/ModelViewer3D.jsx:24-74 | the face buffer of any text has a length divisible by 3 |
| ObjViewer.ParseObj | frontend/src/components/ModelViewer3D.jsx:24-74 | the line loop returns the vertices and faces of the specification fold, and whole triangles |
| ObjViewer.BuildPositions | frontend/src/components/ModelViewer3D.jsx:117-128 | no vertices is an error with the viewer's message; otherwise a fresh buffer of `3n` numbers holding each vertex's x, y, z at `3i`, `3i+1`, `3i+2` |
| ObjViewer.IndexBuffer | frontend/src/components/ModelViewer3D.jsx:132-134 | the index buffer exists exactly when there are faces; it has one entry per index, each reduced modulo 2^32 and equal to the index when it fits |
| ObjLoader.VertexOf | backend/services/shape3d_features.py:43-45 | a `v` line with three parsable coordinates gives that vertex; a line of fewer than four fields is an error; otherwise the first coordinate, left to right, that does not convert is the error, `BadFloat` of that token |
| ObjLoader.CollectAllSpec | backend/services/shape3d_features.py:50-53 | the indices are collected iff every token converts, with the values in order; otherwise the error is the first failing token's |
| ObjLoader.FaceIndexOfToken | backend/services/shape3d_features.py:52 | the token `n` gives index `n-1` |
| ObjLoader.FaceIndexOfSlashedToken | backend/services/shape3d_features.py:52 | only the text before the first `/` is read |
| ObjLoader.FaceIndexOfNegativeToken | backend/services/shape3d_features.py:52 | negative tokens are kept and give `-n-1` (no bounds check) |
| ObjLoader.BadFaceTokenFails | backend/services/shape3d_features.py:50-53 | a face token that does not convert makes the line, and so the load, fail |
| ObjLoader.Triangles | backend/services/shape3d_features.py:56-61 | a triangle is kept as is, a quad is split along its 0-2 diagonal, and every other corner count is dropped |
| ObjLoader.TrianglesAreTriangles | backend/services/shape3d_features.py:56-61 | every stored face has three corners, each taken from the face line |
| ObjLoader.AgreesWithViewer | backend/services/shape3d_features.py:56-61 | for triangles and quads the loader's faces flatten to the viewer's triangulation |
| ObjLoader.PolygonsDropped | backend/services/shape3d_features.py:56-61 | a face of 5 or more corners is dropped by the loader but fanned by the viewer |
| ObjLoader.OtherLinesSkipped | backend/services/shape3d_features.py:39-47 | blank lines and lines of other kinds leave the mesh unchanged |
| ObjLoader.ShortVertexLineFails | backend/services/shape3d_features.py:44 | a `v` line with fewer than three coordinates fails |
| ObjLoader.BadCoordinateFails | backend/services/shape3d_features.py:44-45 | a `v` line whose first, second or third coordinate does not convert fails the load with a float-conversion error |
| ObjLoader.LoadParts | backend/services/shape3d_features.py:39-61 | one line adds at most one vertex; its cases are stated by `OtherLinesSkipped`, `VertexLineLoads` and `FaceLineLoads` |
| ObjLoader.FirstErrorWins | backend/services/shape3d_features.py:36-69 | once a line fails, later lines do not change the result |
| ObjLoader.LoadAllAppend | backend/services/shape3d_features.py:38-61 | loading two blocks of lines concatenates their vertices and faces |
| ObjLoader.LoadObj | backend/services/shape3d_features.py:22-69 | errors carry the wrapping message prefix; a success has at least one vertex and only triangles |
| ObjLoader.ReadFaceIndices | backend/services/shape3d_features.py:49-53 | the per-token loop equals the specification of the face indices |
| ObjLoader.AddTriangles | backend/services/shape3d_features.py:56-61 | the appending step adds exactly the face's triangles |
| ObjLoader.LoadObjLines | backend/services/shape3d_features.py:33-69 | the line loop returns what the load specification gives |
| ObjLoader.LoadAll | backend/services/shape3d_features.py:36-61 | the lines' fields folded in order from an empty mesh, stopping at the first failing line; a success has at most one vertex per line |
| ObjLoader.FaceIndex | backend/services/shape3d_features.py:52 | a token gives `int()` of its text before the first `/`, minus 1, or the error naming that text when `int()` raises |
| ObjLoader.LoadLine | backend/services/shape3d_features.py:39-61 | one line's fields: blank and unknown lines change nothing, a vertex line appends its vertex, a face line its triangles, and a bad vertex or face line fails |
| Geometry.TripleAntisymmetric | backend/services/shape3d_features.py:137-139 | swapping two corners negates the scalar triple product |
| Shape3D.Volume | backend/services/shape3d_features.py:127-141 | the volume is non-negative, and is defined exactly when the signed sum is |
| Shape3D.VolumeDefined | backend/services/shape3d_features.py:129-135 | the volume is defined iff every face of at least 3 corners indexes the vertex list, Python's negative indices included |
| Shape3D.ShortFaceIgnored | backend/services/shape3d_features.py:130-131 | faces of fewer than 3 corners do not change the volume |
| Shape3D.SignedSumAppend | backend/services/shape3d_features.py:129-139 | the signed sum is additive over face lists |
| Shape3D.FlipKeepsVolume | backend/services/shape3d_features.py:139-141 | reversing every face's orientation leaves the volume unchanged |
| Shape3D.FirstBadFace | backend/services/shape3d_features.py:133-135 | one face with an out-of-range index makes the volume undefined |
| Shape3D.ComputeVolume | backend/services/shape3d_features.py:127-141 | the accumulating loop returns the specified volume |
| Shape3D.Compactness | backend/services/shape3d_features.py:191-193 | compactness is 0 for non-positive volume; otherwise it is non-negative and `C * 36 pi V^2 = A^3` |
| Shape3D.SphereIsOne | backend/services/shape3d_features.py:179-181 | a sphere of any radius has compactness exactly 1 |
| Shape3D.CompactnessScaleFree | backend/services/shape3d_features.py:191-192 | scaling a shape by `k` leaves its compactness unchanged |
| Shape3D.ExtremesAttained | backend/services/shape3d_features.py:205-206 | the per-axis minimum and maximum are attained by some vertex |
| Shape3D.Lowest | backend/services/shape3d_features.py:205 | the per-axis minimum is at most every vertex's coordinate (attained by `ExtremesAttained`) |
| Shape3D.Highest | backend/services/shape3d_features.py:206 | the per-axis maximum is at least every vertex's coordinate (attained by `ExtremesAttained`) |
| Shape3D.Aspect | backend/services/shape3d_features.py:213-214 | the aspect ratio is 1 for an extent up to 1e-6, otherwise `ratio * extent = width` |
| Shape3D.Box | backend/services/shape3d_features.py:195-222 | no box for no vertices; the extents are non-negative; flat extents give aspect 1 |
| Shape3D.BoxTranslationFree | backend/services/shape3d_features.py:205-214 | translating all vertices does not change the box |
| Shape3D.FeatureVectorRoundTrip | backend/services/shape3d_features.py:306-324 | the 7-vector and the named features convert into each other without loss |
| Shape3D.Divisor | backend/services/shape3d_features.py:447-448 | a standard deviation below 1e-6 is replaced by 1 |
| Shape3D.Mean | backend/services/shape3d_features.py:444 | the column sum over the number of models (`np.mean` along axis 0) |
| Shape3D.Std | backend/services/shape3d_features.py:445 | the square root of the mean squared deviation from the column mean, the population `np.std` |
| Shape3D.Normalize | backend/services/shape3d_features.py:432-453 | fewer than two models leave the vector as is; otherwise each entry times its divisor is its deviation from the mean |
| Shape3D.MeanNormalisesToZero | backend/services/shape3d_features.py:444-451 | the mean vector normalises to zero |
| Shape3D.UnitWeights | backend/services/shape3d_features.py:404-407 | all-one weights give the unweighted norm |
| Shape3D.SelfDistance | backend/services/shape3d_features.py:404-407 | a vector's distance to itself is `sqrt(0)`, weighted or not |
| Shape3D.Distance | backend/services/shape3d_features.py:404-407 | `sqrt` of the weighted sum of squared differences when weights are given, else of the plain sum (`np.linalg.norm`) |
| Shape3DSearch.SearchRanked | backend/services/shape3d_features.py:397-420 | the search results ascend by distance, number at most `top_k` and at most the models, and each reports a stored model with its record |
| Shape3DSearch.SearchOnePerModel | backend/services/shape3d_features.py:398-415 | no model appears twice in the results |
| Shape3DSearch.SearchAll | backend/services/shape3d_features.py:418-420 | with `top_k` at least the model count, every model is reported once |
| Shape3DSearch.Matches | backend/services/shape3d_features.py:398-415 | one match per stored model, in key order, with its distance to the query |
| Shape3DSearch.Search | backend/services/shape3d_features.py:397-420 | the matches sorted by ascending distance, then `[:top_k]` (properties in `SearchRanked`, `SearchOnePerModel`, `SearchAll`) |
| Shape3DSearch.Shape3DSimilaritySearch.constructor | backend/services/shape3d_features.py:330-340 | the search starts with no models |
| Shape3DSearch.Shape3DSimilaritySearch.AddModel | backend/services/shape3d_features.py:354-375 | the record is stored under its id, with empty metadata for none; a new id goes last in key order; the features are returned |
| Shape3DSearch.Shape3DSimilaritySearch.SearchSimilar | backend/services/shape3d_features.py:377-420 | the search loop returns the specified ranking |
| Similarity.Intersection | backend/services/similarity_search.py:202-212 | an empty histogram gives 0 |
| Similarity.IntersectionSymmetric | backend/services/similarity_search.py:202-212 | histogram intersection is symmetric |
| Similarity.IntersectionBounds | backend/services/similarity_search.py:202-212 | for non-negative histograms of one length, the intersection lies between 0 and each histogram's total, and a histogram meets itself in its total |
| Similarity.ComputeSimilaritySymmetric | backend/services/similarity_search.py:151-200 | the weighted score is symmetric when the other comparisons are |
| Similarity.ComputeSimilarityBounded | backend/services/similarity_search.py:151-200 | with shared-group similarities in [0,1] and non-negative weights the score is in [0,1] |
| Similarity.ComputeSimilarityOfAlike | backend/services/similarity_search.py:151-200 | when every shared group scores 1 and some weight counts, the score is exactly 1 |
| Similarity.NothingSharedScoresZero | backend/services/similarity_search.py:196-200 | two feature sets with no group in common score 0 |
| Similarity.ComputeSimilarity | backend/services/similarity_search.py:151-200 | the weighted sum of per-group similarities over the groups both sets hold, divided by the weight of those groups, and 0 when that weight is not positive (properties in the `ComputeSimilarity...` lemmas) |
| ImageDatabase.StoreShape | backend/services/similarity_search.py:43-53 | storing succeeds iff the index is at least `-len`; the list is padded with `None` up to the index; the slot holds the features and every other slot is unchanged |
| ImageDatabase.FetchAfterStore | backend/services/similarity_search.py:43-61 | reading back a stored slot gives the features; every other non-negative index reads as before |
| ImageDatabase.FeaturesOf | backend/services/similarity_search.py:55-61 | unknown images and indices past the end give `None`; the read fails exactly for indices below `-len` |
| ImageDatabase.DetectionsOf | backend/services/similarity_search.py:37-41 | `None` exactly for an unknown image |
| ImageDatabase.Adjusted | backend/services/similarity_search.py:121-131 | with the class filter the visual score is kept; without it the score is scaled by `1 - class_weight` and a class match adds `class_weight` (difference stated by `ClassBonus`) |
| ImageDatabase.ClassBonus | backend/services/similarity_search.py:122-131 | without the class filter, a class match adds exactly the class weight |
| ImageDatabase.Clamp | backend/services/similarity_search.py:134 | the score is clamped into [0,1] and kept when already inside |
| ImageDatabase.CandidatesAdmissible | backend/services/similarity_search.py:96-144 | every candidate is a non-empty slot of a stored, non-excluded image, with that slot's class, the class filter passed, and its score computed and clamped |
| ImageDatabase.CandidatesComplete | backend/services/similarity_search.py:96-144 | every eligible slot of every non-excluded image yields a candidate |
| ImageDatabase.FindSimilarRanked | backend/services/similarity_search.py:63-149 | results descend by similarity, number at most `top_k`, and are each admissible |
| ImageDatabase.FindSimilarComplete | backend/services/similarity_search.py:146-149 | with `top_k` at least the candidate count, every eligible slot is reported |
| ImageDatabase.StatisticsOf | backend/services/similarity_search.py:304-328 | the image count, object count, feature count and class distribution of the database; their agreement stated by `StatisticsConsistent` |
| ImageDatabase.StatisticsConsistent | backend/services/similarity_search.py:304-328 | the class distribution counts every object once, each class by its occurrences, and extracted features never exceed slots |
| ImageDatabase.FilledCountsSome | backend/services/similarity_search.py:322-324 | filled slots plus empty slots is the slot count |
| ImageDatabase.Store | backend/services/similarity_search.py:43-53 | the slots padded with `None` up to the index, then the slot written, or the `IndexError` for an index below `-len` (properties in `StoreShape`) |
| ImageDatabase.Fetch | backend/services/similarity_search.py:55-61 | `None` for an index past the end, the slot for an index in `[-len, len)`, the `IndexError` below `-len` |
| ImageDatabase.Consider | backend/services/similarity_search.py:102-144 | an empty slot or a class the filter rejects gives nothing; otherwise one entry with the visual score, the class bonus, the clamped score and the detection's class, confidence and box |
| ImageDatabase.Candidates | backend/services/similarity_search.py:93-144 | the entries of every non-excluded image in key order, each image's in slot order (properties in `CandidatesAdmissible`, `CandidatesComplete`) |
| ImageDatabase.FindSimilarResult | backend/services/similarity_search.py:146-149 | the candidates sorted by descending similarity, then `[:top_k]` (properties in `FindSimilarRanked`, `FindSimilarComplete`) |
| ImageDatabase.SimilaritySearchService.constructor | backend/services/similarity_search.py:12-21 | the database starts empty |
| ImageDatabase.SimilaritySearchService.SaveDetections | backend/services/similarity_search.py:29-35 | an unknown image gets an empty record appended in key order; its detections are replaced and read back; its feature slots are untouched |
| ImageDatabase.Padded | backend/services/similarity_search.py:49-50 | the list grows to `object_id + 1` slots when shorter, keeps its old slots as a prefix, and every new slot is `None` |
| ImageDatabase.SimilaritySearchService.SaveFeatures | backend/services/similarity_search.py:43-53 | the padding loop stores exactly what the specification stores, fails iff the index is below `-len`, reads back the features and leaves every other slot's reading unchanged |
| ImageDatabase.SimilaritySearchService.ScanImage | backend/services/similarity_search.py:101-144 | the per-object loop yields the image's candidates |
| ImageDatabase.SimilaritySearchService.FindSimilar | backend/services/similarity_search.py:63-149 | the search, with the default weights when none are given, returns the specified ranking |
| ImageDatabase.SimilaritySearchService.CountClasses | backend/services/similarity_search.py:317-321 | the counting loop extends the class tally by the image's detections |
| ImageDatabase.SimilaritySearchService.CountFilled | backend/services/similarity_search.py:322-324 | the loop counts the filled feature slots |
| ImageDatabase.SimilaritySearchService.GetStatistics | backend/services/similarity_search.py:304-328 | the statistics loop returns the specified statistics |
| Api.AllowedFile | backend/app.py:37-38 | a name without a dot is refused |
| Api.LastDot | backend/app.py:38 | there is no position iff the name has no dot; otherwise it is a dot with no dot after it, where `rsplit('.', 1)` splits |
| Api.Extension | backend/app.py:38 | a name has an extension exactly when it contains a dot |
| Api.AllowedFileSpec | backend/app.py:23-38 | a name is accepted iff it has a last dot whose following text, lower-cased, is png, jpg, jpeg, gif or bmp |
| Api.LastDotDecides | backend/app.py:38 | only the text after the last dot decides, whatever dots come before; a trailing dot is refused |
| Api.AllowedFileIgnoresCase | backend/app.py:38 | a name and its lower-cased form are accepted alike |
| Api.UpperCaseAccepted | backend/app.py:38 | `A.JPG` is accepted |
| Api.InnerDotsIgnored | backend/app.py:38 | `x.tar.png` is accepted |
| Api.InnerExtensionIgnored | backend/app.py:38 | `x.png.exe` is refused |
| Api.Upload | backend/app.py:44-56 | the upload loop answers as the specified reply |
| Api.UploadOutcome | backend/app.py:44-56 | 400 with its message when the `images` field is missing, otherwise 201 with the accepted files in order (properties in `UploadReplies`) |
| Api.UploadReplies | backend/app.py:44-56 | 400 exactly when the `images` field is missing, else 201; a file is saved iff it was sent and passes the filter |
| Api.Kept | backend/app.py:51-54 | the saved files are at most the uploaded ones; order and all-or-nothing by `KeptConcat` and `KeptAllOrNothing` |
| Api.KeptConcat | backend/app.py:51-54 | the saved files keep their order: filtering distributes over concatenation |
| Api.KeptAllOrNothing | backend/app.py:51-54 | a batch of accepted files is saved whole, a batch of refused ones not at all |
| Api.Search | backend/app.py:212-252 | the handler, reading the service and running its search, answers as the specified reply |
| Api.SearchOutcome | backend/app.py:212-252 | the handler's checks in source order: 400 for missing ids, a raised error when the feature lookup raises, 404 for missing features, 404 for a missing detection, a raised error for an index below `-len` or a detection without a class, else 200 with the search (properties in the `Search...` lemmas) |
| Api.SearchBadRequest | backend/app.py:219-220 | 400 exactly when the image id is missing or empty or the object id is missing |
| Api.SearchDetectionNotFound | backend/app.py:226-228 | with features found, an object index at or past the detection count gives 404 |
| Api.SearchFoundShape | backend/app.py:222-252 | a found reply echoes the request; the object has features and a detection giving the query class; the results are ranked, at most `top_k` (10 by default), none from the query image, all of the query class |
| DetectedObjects.Render | frontend/src/components/DetectedObjects.jsx:4-137 | the render loop with its counter dictionary gives nothing for no objects, otherwise the specified rows |
| DetectedObjects.Panel | frontend/src/components/DetectedObjects.jsx:4-60 | nothing for no objects, otherwise one row per object in order |
| DetectedObjects.RowOf | frontend/src/components/DetectedObjects.jsx:42-60 | a row: the object's id, its label numbered within its class when the class occurs more than once, palette colour `i mod 8`, the selection mark and the rounded percentage |
| DetectedObjects.InstanceNumber | frontend/src/components/DetectedObjects.jsx:48-54 | the counter of the object's class after the bump: its objects up to and including this one (properties in `InstanceNumbering`, `InstanceNumbersUsed`) |
| DetectedObjects.RenderRow | frontend/src/components/DetectedObjects.jsx:42-60 | bumping the class counter for object `i` gives the tally of the first `i+1` classes, and the row built is that object's specified row |
| DetectedObjects.ClassCountsExact | frontend/src/components/DetectedObjects.jsx:19-22 | a class's count is its number of objects, and only occurring classes have an entry |
| DetectedObjects.InstanceNumbering | frontend/src/components/DetectedObjects.jsx:48-53 | instance numbers start at 1, increase along the list within a class and stay at most the class count |
| DetectedObjects.InstanceNumbersUsed | frontend/src/components/DetectedObjects.jsx:48-53 | every number from 1 to the class count is some object's instance number |
| DetectedObjects.DisplayLabelShape | frontend/src/components/DetectedObjects.jsx:56-58 | a single object shows its bare label; otherwise the label is followed by ` #` and text reading back as the instance number |
| DetectedObjects.ColorsCycle | frontend/src/components/DetectedObjects.jsx:7-16 | object `i` gets palette colour `i mod 8`, so eight consecutive objects have eight different colours |
| DetectedObjects.Percent | frontend/src/components/DetectedObjects.jsx:45 | a confidence in [0,1] shows as a percentage in [0,100] |
| DetectedObjects.SelectedRows | frontend/src/components/DetectedObjects.jsx:43 | a row is marked selected iff its object's id is selected |
| AppWorkflow.Format | frontend/src/App.jsx:107-113 | one object per detection, its id its position, its label and class the detection's class, confidence and box copied |
| AppWorkflow.InitialSelectionValid | frontend/src/App.jsx:116 | the first object is selected when there is one, else nothing |
| AppWorkflow.DisplayedSimilarityBounds | frontend/src/App.jsx:210 | the shown percentage is at most 100, exactly 100 from similarity 1, non-negative for non-negative input and monotone |
| AppWorkflow.CardId | frontend/src/App.jsx:206 | a card's id is the image id, a dash, and text reading back as the object id |
| AppWorkflow.ApiWeightsShape | frontend/src/App.jsx:182-194 | the request weights name exactly the scorer's seven groups, split texture and shape evenly in three, and sum to the slider total over 100 |
| AppWorkflow.CompleteStepProperties | frontend/src/App.jsx:50-54 | completing a step records it, adds nothing else, keeps the list duplicate-free and is idempotent |
| AppWorkflow.StaleCompleteStep | frontend/src/App.jsx:50-54 | the handler as written, reading the render-time list, fails to record step 1 after a reset; the corrected update records it |
| AppWorkflow.CompleteStepUnchangedList | frontend/src/App.jsx:50-54 | when the list has not changed since the handler was created, as in `handleSearch`, the update as written equals the corrected one |
| AppWorkflow.CompleteStep | frontend/src/App.jsx:50-54 | the corrected update: a step already listed leaves the list as is, otherwise it is appended (properties in `CompleteStepProperties`) |
| AppWorkflow.CompleteStepAsWritten | frontend/src/App.jsx:50-54 | the update as written: it tests the render-time list and, when the step is missing, writes that list plus the step, whatever the current list is |
| AppWorkflow.ApiWeights | frontend/src/App.jsx:182-194 | no weights stay `null`; otherwise colour over 100 and texture and shape each over 300 for their three features (properties in `ApiWeightsShape`) |
| AppWorkflow.Card | frontend/src/App.jsx:205-214 | a result card: id `image_id-object_id`, the ids, file name, class and box copied, similarity and confidence as rounded percentages (id read back by `CardId`) |
| AppWorkflow.DisplayedSimilarity | frontend/src/App.jsx:210 | `Math.round(Math.min(similarity * 100, 100))` with halves rounding up (bounds in `DisplayedSimilarityBounds`) |
| AppWorkflow.App.constructor | frontend/src/App.jsx:25-43 | the initial state: step 1, nothing completed, detected, selected or found, no image, no toast |
| AppWorkflow.App.UploadAndDetect | frontend/src/App.jsx:92-141 | on success the objects are formatted, the first is selected and, when any were found, step 2 is current, the count toast shows and the completed steps are what `completeStep(1)` as written gives from the list the handler was created with after the reset; each failure gives its error toast and keeps the detections |
| AppWorkflow.App.ShowDetections | frontend/src/App.jsx:107-127 | the formatted detections are shown with the first selected; a non-empty list moves to step 2, shows the count toast and applies `completeStep(1)` as written to the handler's render-time list; an empty one changes neither |
| AppWorkflow.App.HandleClearImage | frontend/src/App.jsx:143-152 | the image, detections, selection and results are cleared and the workflow returns to step 1 |
| AppWorkflow.App.ToggleObjectSelection | frontend/src/App.jsx:154-160 | the object leaves or joins the selection and nothing else changes |
| AppWorkflow.App.HandleSearch | frontend/src/App.jsx:166-232 | no selection only warns; a failed feature extraction sends no search and shows its error; otherwise the request is for the first selected object with 20 results and the converted weights; the results become cards; a non-empty result completes step 3 and moves to step 4; failures and empty results give their toasts |
| AppWorkflow.App.ShowResults | frontend/src/App.jsx:200-224 | the search reply's objects become the result cards; a non-empty list completes step 3, moves to step 4 and shows the count toast; an empty one shows the no-results toast; a failure shows its error and changes nothing else |
| Gallery.FindImage | frontend/src/pages/Gallery.jsx:63-72 | the lookup gives the first image with the id, or none iff no image has it |
| Gallery.ButtonsOf | frontend/src/pages/Gallery.jsx:88-108 | the delete button shows for a non-empty selection and the query button for exactly one image, neither while loading |
| Gallery.GalleryPage.constructor | frontend/src/pages/Gallery.jsx:8-11 | the page starts loading with no images and no selection |
| Gallery.GalleryPage.HandleSelectImage | frontend/src/pages/Gallery.jsx:39-45 | the image leaves or joins the selection, the others keep their membership, and the selection stays duplicate-free |
| Gallery.GalleryPage.HandleDeleteSelected | frontend/src/pages/Gallery.jsx:47-61 | a request is sent iff something is selected and the user confirms; it carries the selection, which is cleared only when the delete succeeds |
| Gallery.GalleryPage.HandleUseAsQuery | frontend/src/pages/Gallery.jsx:63-72 | the callback gets the id and file name of the single selected image iff exactly one is selected, it is in the list and a callback is given |
| Selection.ToggleTwice | frontend/src/App.jsx:154-160 | toggling an object twice leaves every element's membership as it was, and restores exactly a selection that did not hold the object |
| Selection.Toggle | frontend/src/App.jsx:154-160 | a listed element is removed, any other is appended (membership by `ToggleMembership`, distinctness by `ToggleDistinct`) |
| Sorting.SortBy | backend/services/similarity_search.py:147 | the sort returns a permutation of its input, ordered by the key |
| Sorting.TakePy | backend/services/similarity_search.py:149 | `[:k]` is a prefix of the list of length `min(k, n)`, and for negative `k` all but the last `-k` elements |
| Sorting.TakeSorted | backend/services/similarity_search.py:149 | `[:top_k]` of a sorted list is sorted and a sub-multiset of the list |
| Counting.TallyCounts | frontend/src/components/DetectedObjects.jsx:19-22 | the counting dictionary maps each element to its number of occurrences and holds only elements that occur |
| Counting.TallyTotal | backend/services/similarity_search.py:317-321 | the counts of a tally add up to the length of the list |
| Counting.OccurrencesGrow | frontend/src/components/DetectedObjects.jsx:19-22 | of two positions holding `x`, the later has a strictly larger count of `x` up to and including it, and the earlier at least 1 |
| Text.JsParseIntOfNatToString | frontend/src/components/ModelViewer3D.jsx:49 | `parseInt` reads back a printed natural number, and its negation with a leading `-` |
| Text.PyIntOfNatToString | backend/services/shape3d_features.py:52 | Python's `int()` reads back a printed natural number |
| Text.TrimSpec | frontend/src/components/ModelViewer3D.jsx:30 | the trimmed line is a slice of the line with only white space cut off at each end, and it neither starts nor ends with white space |
| Text.FieldsOfJoined | frontend/src/components/ModelViewer3D.jsx:33 | splitting on white space recovers words joined by single spaces |
| Text.JoinSplitOn | backend/services/shape3d_features.py:52 | splitting on `/` and joining back returns the token |
| Text.JsParseInt | frontend/src/components/ModelViewer3D.jsx:49 | `parseInt` without a radix: leading white space skipped, an optional sign, base 16 after `0x`, then the longest run of digits; no digit gives nothing (`NaN`) |
| Text.PyInt | backend/services/shape3d_features.py:52 | `int()` on text: after stripping white space, an optional sign and one decimal literal with single underscores between digits, and nothing (`ValueError`) otherwise |
| Text.Lower | backend/app.py:38 | lower-casing keeps the length and maps each character by itself, ASCII capitals to small letters and everything else unchanged |
| Text.Trim | frontend/src/components/ModelViewer3D.jsx:30 | white space removed from both ends (properties in `TrimSpec`) |
| Text.Fields | frontend/src/components/ModelViewer3D.jsx:33 | the white-space-separated words, each non-empty and free of white space |
| Text.SplitOn | backend/services/shape3d_features.py:52 | `split` on one character gives at least one piece |
| Text.SplitOnPieces | backend/services/shape3d_features.py:52 | no piece of `split` on a character holds that character |

## Left out

- Floating point is not modelled:
  - coordinates, weights and scores are mathematical reals;
  - rounding, overflow, NaN and infinities are not modelled;
  - `parseFloat`, `float()`, `sqrt` and the non-histogram comparisons are parameters.
- `Similarity.Intersection`: two histograms of different lengths are compared over their
  common prefix. numpy would raise or broadcast there.
- Lower-casing and white space cover ASCII letters and the listed space characters. Unicode
  case mapping is not modelled.
- Text.PyInt: only ASCII digits are read. Python's `int()` also accepts other Unicode
  decimal digits, so a face token such as `١` loads in the source but fails in the model.
- DetectedObjects.Panel: an object with an empty label makes the render throw, because the
  badge letter reads `obj.label[0]`. The model shows the row, since the badge markup is not
  modelled.
- Api.SearchOutcome: the request's ids and `top_k` are typed integers. A string or float
  `query_object_id` or `top_k` raises a `TypeError` in `get_features` or in the slice of
  `find_similar`; that 500 reply is not modelled.
- `DetectedObjects.ClassCountsExact` treats the counting object as a dictionary. JavaScript
  object keys such as `__proto__` or `constructor` are not modelled.
- JSON persistence is not modelled: reading and writing the feature databases, and the
  timestamps in their metadata.
- File storage and image records: `image_manager` is not part of this model.
- Uploads: the upload reply lists the files handed to the image manager, not its records.
- Search replies: the file name the search handler attaches to each result is not modelled.
- Request bodies:
  - a JSON `null` for `top_k` or `weights` is treated like an absent key;
  - a missing request body is not modelled.
- Network requests, timers (the 100 ms step advance, the toast timeout), `console.log` and the
  Three.js scene, camera, lighting, centring and scaling are not modelled. Request outcomes
  are parameters.
- Feature extraction is not part of this model:
  - `normalize_mesh`, `compute_surface_area` and `compute_moments_of_inertia` enter the 3D
    search as given feature values;
  - the 2D feature extractors and the object detector are also outside the model.
- `get_database_stats` of the 3D search is not modelled: the means and standard deviations
  it reports are the ones `Shape3D.Normalize` uses.
- Not modelled in the interface:
  - `handleUseImageAsQuery` in `App.jsx`, which calls the same step-completion handler and
    shares the stale-state issue below;
  - the gallery reload after a delete.
- `Sorting.SortBy`: the sort is stable, as Python's is, but tie order is not stated in a
  contract.
- `Shape3D.Volume` and `ObjLoader.LoadObj`: numpy's conversion of the vertex list and the
  exception text wrapped by `load_obj` are represented by a fixed message prefix and a
  defined/undefined result.

## Findings

| source | as written | input that shows it | evidently intended | confidence | as-written member | corrected member |
|---|---|---|---|---|---|---|
| frontend/src/App.jsx:50-54 | `completeStep` appends to the `completedSteps` of the render in which the handler was created. `uploadAndDetect` first resets the list (line 95), then calls `completeStep(1)` (line 122) with that stale list. | A second upload while `completedSteps` is `[1]`: the reset gives `[]`, and `completeStep(1)` sees `1` in the stale `[1]` and writes nothing, so step 1 is not recorded | the step is added to the current list (a functional state update) | not executed | AppWorkflow.CompleteStepAsWritten (used by AppWorkflow.App.UploadAndDetect, shown by AppWorkflow.StaleCompleteStep) | AppWorkflow.CompleteStep (proved by AppWorkflow.CompleteStepProperties) |
