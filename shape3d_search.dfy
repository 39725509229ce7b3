/** `Shape3DSimilaritySearch`: the database of 3D models, keyed by model id in insertion
    order, and the ranked search over it. Feature extraction from a file is given as its
    result; reading and writing the JSON file is not modelled. */
module Shape3DSearch {
  import opened Wrappers
  import opened Shape3D
  import opened Sorting
  import opened Selection

  datatype ModelRecord = ModelRecord(features: Features, objPath: string, metadata: map<string, string>)

  /** One entry of the result list. */
  datatype Match = Match(modelId: string, distance: real, features: Features, objPath: string, metadata: map<string, string>)

  /** The dictionary as the order of its keys plus their records. */
  predicate Keyed(ids: seq<string>, records: map<string, ModelRecord>)
  {
    Distinct(ids) && records.Keys == set id | id in ids
  }

  /** The feature vectors of every stored model, in order. */
  function Rows(ids: seq<string>, records: map<string, ModelRecord>): (rows: seq<seq<real>>)
    requires Keyed(ids, records)
    ensures |rows| == |ids| && Table(rows)
  {
    seq(|ids|, i requires 0 <= i < |ids| => FeatureVector(records[ids[i]].features))
  }

  /** `_normalize_features(get_feature_vector(f))` against the current database. */
  function Normalized(ids: seq<string>, records: map<string, ModelRecord>, f: Features, sqrt: real -> real): (v: seq<real>)
    requires Keyed(ids, records)
    ensures |v| == FeatureCount
  {
    Normalize(Rows(ids, records), FeatureVector(f), sqrt)
  }

  predicate WeightsFit(weights: Option<seq<real>>)
  {
    weights.Some? ==> |weights.value| == FeatureCount
  }

  /** The unsorted result list: one entry per model, in database order. */
  function Matches(ids: seq<string>, records: map<string, ModelRecord>, query: Features,
                   weights: Option<seq<real>>, sqrt: real -> real): (r: seq<Match>)
    requires Keyed(ids, records) && WeightsFit(weights)
    ensures |r| == |ids|
  {
    var q := Normalized(ids, records, query, sqrt);
    seq(|ids|, i requires 0 <= i < |ids| =>
      var rec := records[ids[i]];
      Match(ids[i], Distance(q, Normalized(ids, records, rec.features, sqrt), weights, sqrt),
            rec.features, rec.objPath, rec.metadata))
  }

  function ByDistance(m: Match): real
  {
    m.distance
  }

  /** `results.sort(key=lambda x: x['distance'])` and `results[:top_k]`. */
  function Search(ids: seq<string>, records: map<string, ModelRecord>, query: Features, topK: int,
                  weights: Option<seq<real>>, sqrt: real -> real): seq<Match>
    requires Keyed(ids, records) && WeightsFit(weights)
  {
    TakePy(SortBy(Matches(ids, records, query, weights, sqrt), ByDistance, false), topK)
  }

  // ---------------------------------------------------------------------------------------
  // What a search returns

  /** `m` reports a stored model together with that model's own record. */
  predicate Stored(m: Match, records: map<string, ModelRecord>)
  {
    m.modelId in records && m.features == records[m.modelId].features
    && m.objPath == records[m.modelId].objPath && m.metadata == records[m.modelId].metadata
  }

  /** The results are ranked nearest first, there are at most `top_k` of them, and each is
      a stored model with its stored record. */
  lemma SearchRanked(ids: seq<string>, records: map<string, ModelRecord>, query: Features, topK: int,
                     weights: Option<seq<real>>, sqrt: real -> real)
    requires Keyed(ids, records) && WeightsFit(weights)
    ensures var r := Search(ids, records, query, topK, weights, sqrt);
      && SortedBy(r, ByDistance, false)
      && |r| <= |ids|
      && (topK >= 0 ==> |r| <= topK)
      && (forall m :: m in r ==> Stored(m, records))
  {
    var all := Matches(ids, records, query, weights, sqrt);
    var sorted := SortBy(all, ByDistance, false);
    TakeSorted(sorted, topK, ByDistance, false);
    var r := Search(ids, records, query, topK, weights, sqrt);
    forall m | m in r
      ensures Stored(m, records)
    {
      assert m in multiset(r);
      assert m in multiset(all);
      var i :| 0 <= i < |all| && all[i] == m;
    }
  }

  /** Two positions holding the same value count twice in the multiset. */
  lemma TwiceCounted<T>(s: seq<T>, i: nat, j: nat)
    requires i < j < |s|
    ensures s[i] == s[j] ==> multiset(s)[s[i]] >= 2
  {
    assert s == s[..j] + [s[j]] + s[j + 1..];
    assert s[i] in s[..j];
  }

  /** A value whose model id occurs once is counted at most once. */
  lemma {:induction false} OnceCounted(s: seq<Match>, m: Match)
    requires forall a, b :: 0 <= a < b < |s| ==> s[a].modelId != s[b].modelId
    ensures multiset(s)[m] <= 1
  {
    if s != [] {
      var front := s[..|s| - 1];
      assert s == front + [s[|s| - 1]];
      OnceCounted(front, m);
      if s[|s| - 1] == m {
        forall a | 0 <= a < |front|
          ensures front[a] != m
        {
          assert s[a].modelId != s[|s| - 1].modelId;
        }
        assert m !in front;
      }
    }
  }

  /** A sub-multiset of a list without repeated model ids has none either. */
  lemma SubDistinct(r: seq<Match>, all: seq<Match>)
    requires multiset(r) <= multiset(all)
    requires forall a, b :: 0 <= a < b < |all| ==> all[a].modelId != all[b].modelId
    ensures forall i, j :: 0 <= i < j < |r| ==> r[i].modelId != r[j].modelId
  {
    forall i, j | 0 <= i < j < |r|
      ensures r[i].modelId != r[j].modelId
    {
      assert r[i] in multiset(all) && r[j] in multiset(all);
      var a :| 0 <= a < |all| && all[a] == r[i];
      var b :| 0 <= b < |all| && all[b] == r[j];
      TwiceCounted(r, i, j);
      OnceCounted(all, r[i]);
      assert multiset(r)[r[i]] <= multiset(all)[r[i]];
      assert a != b;
      if a < b {
        assert all[a].modelId != all[b].modelId;
      } else {
        assert all[b].modelId != all[a].modelId;
      }
    }
  }

  /** No model is listed twice. */
  lemma SearchOnePerModel(ids: seq<string>, records: map<string, ModelRecord>, query: Features, topK: int,
                          weights: Option<seq<real>>, sqrt: real -> real)
    requires Keyed(ids, records) && WeightsFit(weights)
    ensures var r := Search(ids, records, query, topK, weights, sqrt);
      forall i, j :: 0 <= i < j < |r| ==> r[i].modelId != r[j].modelId
  {
    var all := Matches(ids, records, query, weights, sqrt);
    var sorted := SortBy(all, ByDistance, false);
    TakeSorted(sorted, topK, ByDistance, false);
    assert forall a :: 0 <= a < |all| ==> all[a].modelId == ids[a];
    SubDistinct(Search(ids, records, query, topK, weights, sqrt), all);
  }

  /** With `top_k` at least the size of the database, every model is listed once. */
  lemma SearchAll(ids: seq<string>, records: map<string, ModelRecord>, query: Features, topK: int,
                  weights: Option<seq<real>>, sqrt: real -> real)
    requires Keyed(ids, records) && WeightsFit(weights) && topK >= |ids|
    ensures var r := Search(ids, records, query, topK, weights, sqrt);
      multiset(r) == multiset(Matches(ids, records, query, weights, sqrt)) && |r| == |ids|
  {
  }

  // ---------------------------------------------------------------------------------------
  // The database

  class Shape3DSimilaritySearch {
    var ids: seq<string>
    var records: map<string, ModelRecord>

    ghost predicate Valid()
      reads this
    {
      Keyed(ids, records)
    }

    /** An empty database (the JSON file is not modelled). */
    constructor ()
      ensures Valid() && ids == [] && records == map[]
    {
      ids := [];
      records := map[];
    }

    /** `add_model`: stores the record under `model_id`, replacing an earlier one in place
        or appending a new key; `metadata or {}` stores an empty map for `None`. */
    method AddModel(modelId: string, features: Features, objPath: string, metadata: Option<map<string, string>>)
      returns (r: Features)
      requires Valid()
      modifies this
      ensures Valid()
      ensures records == old(records)[modelId := ModelRecord(features, objPath, if metadata.Some? then metadata.value else map[])]
      ensures ids == if modelId in old(ids) then old(ids) else old(ids) + [modelId]
      ensures r == features
    {
      var meta := if metadata.Some? then metadata.value else map[];
      if modelId !in ids {
        ids := ids + [modelId];
      }
      records := records[modelId := ModelRecord(features, objPath, meta)];
      r := features;
    }

    /** `search_similar`: the query's features against every stored model's, both normalised
        by the database's statistics, ranked by distance. */
    method SearchSimilar(query: Features, topK: int, weights: Option<seq<real>>, sqrt: real -> real)
      returns (r: seq<Match>)
      requires Valid() && WeightsFit(weights)
      ensures r == Search(ids, records, query, topK, weights, sqrt)
    {
      var q := Normalized(ids, records, query, sqrt);
      ghost var all := Matches(ids, records, query, weights, sqrt);
      var results: seq<Match> := [];
      var i := 0;
      while i < |ids|
        invariant 0 <= i <= |ids|
        invariant results == all[..i]
      {
        var rec := records[ids[i]];
        var d := Normalized(ids, records, rec.features, sqrt);
        var distance := Distance(q, d, weights, sqrt);
        results := results + [Match(ids[i], distance, rec.features, rec.objPath, rec.metadata)];
        i := i + 1;
      }
      assert results == all;
      results := SortBy(results, ByDistance, false);
      r := TakePy(results, topK);
    }
  }
}
