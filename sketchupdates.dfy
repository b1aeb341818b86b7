/** The steps of collection.py that assemble and update the list of sketch objects:
    flattening the scraped episodes, reading the ids, merging the statistics rows,
    choosing the sketches whose sentiment is still to be computed, and clearing it. */
module SketchUpdates {
  import opened Wrappers
  import opened Seqs
  import opened Schema
  import opened YouTube

  // ---------------------------------------------------------------- scene flattening

  /** The non-null scenes of one episode, in order. */
  function PresentScenes(episode: seq<Option<Scene>>): (r: seq<Scene>)
    ensures forall s :: s in r <==> Some(s) in episode
  {
    if episode == [] then []
    else
      assert forall x :: x in episode <==> x == episode[0] || x in episode[1..];
      (if episode[0].Some? then [episode[0].value] else []) + PresentScenes(episode[1..])
  }

  /** Within an episode the scenes keep their order and multiplicity: the selection
      distributes over concatenation, a null scene adds nothing and a present one adds
      itself. */
  lemma {:induction false} PresentScenesAppend(a: seq<Option<Scene>>, b: seq<Option<Scene>>)
    ensures PresentScenes(a + b) == PresentScenes(a) + PresentScenes(b)
    ensures PresentScenes([None]) == []
    ensures forall s :: PresentScenes([Some(s)]) == [s]
  {
    if a != [] {
      assert (a + b)[1..] == a[1..] + b;
      PresentScenesAppend(a[1..], b);
    } else {
      assert a + b == b;
    }
    forall s ensures PresentScenes([Some(s)]) == [s] {
      assert [Some(s)][1..] == [];
    }
    var nullScene: seq<Option<Scene>> := [None];
    assert nullScene[1..] == [];
  }

  /** The comprehension at collection.py:83-89: the non-null scenes of the non-null
      episodes, episode by episode. */
  function FlattenScenes(episodes: seq<Option<seq<Option<Scene>>>>): (r: seq<Scene>)
    ensures forall s :: s in r <==> exists e :: 0 <= e < |episodes| && episodes[e].Some? && Some(s) in episodes[e].value
  {
    if episodes == [] then []
    else
      assert forall e :: 1 <= e < |episodes| ==> episodes[e] == episodes[1..][e - 1];
      (if episodes[0].Some? then PresentScenes(episodes[0].value) else []) + FlattenScenes(episodes[1..])
  }

  /** Flattening works episode by episode: it distributes over concatenation, a null
      episode adds nothing and a present one adds its non-null scenes in order. */
  lemma {:induction false} FlattenScenesAppend(a: seq<Option<seq<Option<Scene>>>>, b: seq<Option<seq<Option<Scene>>>>)
    ensures FlattenScenes(a + b) == FlattenScenes(a) + FlattenScenes(b)
    ensures FlattenScenes([None]) == []
    ensures forall ep :: FlattenScenes([Some(ep)]) == PresentScenes(ep)
  {
    if a != [] {
      assert (a + b)[1..] == a[1..] + b;
      FlattenScenesAppend(a[1..], b);
    } else {
      assert a + b == b;
    }
    forall ep ensures FlattenScenes([Some(ep)]) == PresentScenes(ep) {
      assert [Some(ep)][1..] == [];
    }
    var nullEpisode: seq<Option<seq<Option<Scene>>>> := [None];
    assert nullEpisode[1..] == [];
  }

  // ---------------------------------------------------------------- ids

  /** `_get_ids`: the ids of the objects' current values. */
  function Ids(sketchData: seq<Sketch>): seq<string>
    reads set s | s in sketchData
  {
    RecordIds(Values(sketchData))
  }

  /** `_fetch_youtube_stats`: the statistics of every sketch's video, by id. */
  method FetchYoutubeStats(sketchData: seq<Sketch>, fetch: seq<string> --> seq<VideoItem>)
    returns (r: Option<seq<VideoStats>>)
    requires forall b: seq<string> :: |b| <= MaxBatch ==> fetch.requires(b)
    ensures r == ExtractAll(FetchedFor(RecordIds(Values(sketchData)), fetch))
  {
    var idList := Ids(sketchData);
    ghost var sent;
    r, sent := FetchVideoStatistics(idList, fetch);
  }

  // ---------------------------------------------------------------- statistics merge

  /** The position of the first id equal to `id`. */
  function FirstIndexOf(ids: seq<string>, id: string): (r: Option<nat>)
    ensures r.None? <==> id !in ids
    ensures r.Some? ==> r.value < |ids| && ids[r.value] == id && forall m :: 0 <= m < r.value ==> ids[m] != id
  {
    if ids == [] then None
    else if ids[0] == id then Some(0)
    else
      var r := FirstIndexOf(ids[1..], id);
      if r.None? then None else Some(r.value + 1)
  }

  /** One pass of the inner loop over a list of records: the first record with the
      row's id takes the row's statistics; every other record, and every other field,
      stays as it was. */
  function MergeRow(recs: seq<SketchRecord>, row: VideoStats): (r: seq<SketchRecord>)
    ensures |r| == |recs|
    ensures forall k :: 0 <= k < |recs| ==>
              r[k] == if recs[k].id == row.videoId && forall m :: 0 <= m < k ==> recs[m].id != row.videoId
                      then WithStats(recs[k], row) else recs[k]
    ensures row.videoId !in RecordIds(recs) ==> r == recs
  {
    match FirstIndexOf(RecordIds(recs), row.videoId)
    case None => recs
    case Some(j) => recs[j := WithStats(recs[j], row)]
  }

  /** The outer loop over a list of records: the rows are merged in order. */
  function MergeRows(recs: seq<SketchRecord>, rows: seq<VideoStats>): (r: seq<SketchRecord>)
    ensures |r| == |recs|
  {
    if rows == [] then recs else MergeRow(MergeRows(recs, rows[..|rows| - 1]), rows[|rows| - 1])
  }

  /** Merging never changes an id, so later rows find the same positions. */
  lemma {:induction false} MergeRowsKeepsIds(recs: seq<SketchRecord>, rows: seq<VideoStats>)
    ensures RecordIds(MergeRows(recs, rows)) == RecordIds(recs)
  {
    if rows != [] {
      MergeRowsKeepsIds(recs, rows[..|rows| - 1]);
    }
  }

  /** The `k`-th object of `fullData` is the one `row` writes to: the object at the first
      position whose id is the row's. With one object listed twice, both positions see
      the write. */
  predicate Targets(ids: seq<string>, fullData: seq<Sketch>, row: VideoStats, k: nat)
    requires |ids| == |fullData| && k < |fullData|
  {
    var j := FirstIndexOf(ids, row.videoId);
    j.Some? && fullData[j.value] == fullData[k]
  }

  /** The value the `k`-th object has after the rows, starting from `rec`. */
  function MergedAt(rec: SketchRecord, ids: seq<string>, fullData: seq<Sketch>, rows: seq<VideoStats>, k: nat): SketchRecord
    requires |ids| == |fullData| && k < |fullData|
  {
    if rows == [] then rec
    else
      var before := MergedAt(rec, ids, fullData, rows[..|rows| - 1], k);
      if Targets(ids, fullData, rows[|rows| - 1], k) then WithStats(before, rows[|rows| - 1]) else before
  }

  /** When the list holds distinct objects, the object-level merge is the record-level
      one. */
  lemma {:induction false} MergedAtIsMergeRows(recs: seq<SketchRecord>, fullData: seq<Sketch>, rows: seq<VideoStats>, k: nat)
    requires |recs| == |fullData| && k < |fullData|
    requires NoDuplicates(fullData)
    ensures MergedAt(recs[k], RecordIds(recs), fullData, rows, k) == MergeRows(recs, rows)[k]
  {
    if rows != [] {
      var init := rows[..|rows| - 1];
      var row := rows[|rows| - 1];
      MergedAtIsMergeRows(recs, fullData, init, k);
      MergeRowsKeepsIds(recs, init);
      var mid := MergeRows(recs, init);
      var ids := RecordIds(recs);
      assert RecordIds(mid) == ids;
      var j := FirstIndexOf(ids, row.videoId);
      if j.Some? {
        assert fullData[j.value] == fullData[k] <==> j.value == k;
      }
      assert forall m :: 0 <= m < |mid| ==> mid[m].id == ids[m];
    }
  }

  /** Every object holds the value the first `rows` give it, starting from `start`. */
  ghost predicate MergedSoFar(fullData: seq<Sketch>, start: seq<SketchRecord>, ids: seq<string>, rows: seq<VideoStats>)
    requires |start| == |ids| == |fullData|
    reads set s | s in fullData
  {
    forall k :: 0 <= k < |fullData| ==> fullData[k].Value() == MergedAt(start[k], ids, fullData, rows, k)
  }

  /** One more row changes exactly the objects it targets. */
  lemma MergeStep(start: seq<SketchRecord>, ids: seq<string>, fullData: seq<Sketch>, rows: seq<VideoStats>, i: nat)
    requires |start| == |ids| == |fullData| && i < |rows|
    ensures forall k :: 0 <= k < |fullData| ==>
              MergedAt(start[k], ids, fullData, rows[..i + 1], k)
              == if Targets(ids, fullData, rows[i], k) then WithStats(MergedAt(start[k], ids, fullData, rows[..i], k), rows[i])
                 else MergedAt(start[k], ids, fullData, rows[..i], k)
  {
    assert rows[..i + 1][..i] == rows[..i];
  }

  /** The inner loop of the statistics merge (collection.py:132-139): the first sketch
      whose id is the row's takes its five fields, then the loop breaks. */
  method AssignFirstMatch(fullData: seq<Sketch>, video: VideoStats)
    modifies set s | s in fullData
    ensures forall k :: 0 <= k < |fullData| ==>
              fullData[k].Value() == if Targets(old(Ids(fullData)), fullData, video, k)
                                     then WithStats(old(fullData[k].Value()), video) else old(fullData[k].Value())
  {
    ghost var ids := Ids(fullData);
    assert |ids| == |fullData| && forall k :: 0 <= k < |fullData| ==> ids[k] == fullData[k].id;
    var j := 0;
    while j < |fullData|
      invariant 0 <= j <= |fullData|
      invariant forall m :: 0 <= m < j ==> ids[m] != video.videoId
      invariant forall k :: 0 <= k < |fullData| ==> fullData[k].Value() == old(fullData[k].Value())
    {
      if video.videoId == fullData[j].id {
        assert FirstIndexOf(ids, video.videoId) == Some(j);
        fullData[j].AssignStats(video);
        return;
      }
      j := j + 1;
    }
    assert FirstIndexOf(ids, video.videoId).None?;
  }

  /** One turn of the outer loop: row `i` is merged into objects that already hold the
      first `i` rows. */
  method MergeNextRow(fullData: seq<Sketch>, videoStats: seq<VideoStats>, i: nat,
                      ghost start: seq<SketchRecord>, ghost ids: seq<string>)
    requires i < |videoStats| && |start| == |ids| == |fullData|
    requires forall k :: 0 <= k < |fullData| ==> fullData[k].id == ids[k]
    requires MergedSoFar(fullData, start, ids, videoStats[..i])
    modifies set s | s in fullData
    ensures forall k :: 0 <= k < |fullData| ==> fullData[k].id == ids[k]
    ensures MergedSoFar(fullData, start, ids, videoStats[..i + 1])
  {
    ghost var before := Values(fullData);
    assert Ids(fullData) == ids;
    AssignFirstMatch(fullData, videoStats[i]);
    MergeStep(start, ids, fullData, videoStats, i);
    forall k | 0 <= k < |fullData|
      ensures fullData[k].Value() == MergedAt(start[k], ids, fullData, videoStats[..i + 1], k)
      ensures fullData[k].id == ids[k]
    {
      assert before[k] == MergedAt(start[k], ids, fullData, videoStats[..i], k);
    }
  }

  /** The statistics merge at collection.py:131-139: the rows are taken in order. */
  method MergeStats(fullData: seq<Sketch>, videoStats: seq<VideoStats>)
    modifies set s | s in fullData
    ensures forall k :: 0 <= k < |fullData| ==>
              fullData[k].Value() == MergedAt(old(fullData[k].Value()), old(Ids(fullData)), fullData, videoStats, k)
    ensures NoDuplicates(fullData) ==> Values(fullData) == MergeRows(old(Values(fullData)), videoStats)
  {
    ghost var ids := Ids(fullData);
    ghost var start := Values(fullData);
    var i := 0;
    while i < |videoStats|
      invariant 0 <= i <= |videoStats|
      invariant forall k :: 0 <= k < |fullData| ==> fullData[k].id == ids[k]
      invariant MergedSoFar(fullData, start, ids, videoStats[..i])
    {
      MergeNextRow(fullData, videoStats, i, start, ids);
      i := i + 1;
    }
    assert videoStats[..i] == videoStats;
    if NoDuplicates(fullData) {
      forall k | 0 <= k < |fullData|
        ensures fullData[k].Value() == MergeRows(start, videoStats)[k]
      {
        MergedAtIsMergeRows(start, fullData, videoStats, k);
      }
    }
  }

  // ---------------------------------------------------------------- sentiment

  /** A sketch whose sentiment is still to be computed. */
  predicate Unscored(r: SketchRecord) {
    r.meanSentiment.None? || r.stdSentiment.None?
  }

  /** The comprehension at collection.py:158-162. It keeps the objects themselves, so the
      sentiment later written through the selection lands in the full list. */
  function SelectUnscored(sketches: seq<Sketch>): seq<Sketch>
    reads set s | s in sketches
  {
    if sketches == [] then []
    else (if Unscored(sketches[0].Value()) then [sketches[0]] else []) + SelectUnscored(sketches[1..])
  }

  /** The selection is, in order and as the same objects, exactly the sketches lacking
      either sentiment field. */
  lemma SelectUnscoredSpec(sketches: seq<Sketch>)
    ensures IsSubsequence(SelectUnscored(sketches), sketches)
    ensures forall s | s in SelectUnscored(sketches) :: s in sketches && Unscored(s.Value())
    ensures forall s | s in sketches :: s in SelectUnscored(sketches) <==> Unscored(s.Value())
    ensures forall s | s in sketches ::
              multiset(SelectUnscored(sketches))[s] == if Unscored(s.Value()) then multiset(sketches)[s] else 0
  {
    var values := map s | s in sketches :: s.Value();
    var p := (s: Sketch) => s in values && Unscored(values[s]);
    SelectUnscoredIsFilter(sketches, p);
    FilterSpec(p, sketches);
  }

  /** On the current state the selection is a filter of the list by a predicate that
      agrees with Unscored on its objects. */
  lemma {:induction false} SelectUnscoredIsFilter(sketches: seq<Sketch>, p: Sketch -> bool)
    requires forall s | s in sketches :: p(s) == Unscored(s.Value())
    ensures SelectUnscored(sketches) == Filter(p, sketches)
  {
    if sketches != [] {
      assert sketches[0] in sketches;
      assert forall s | s in sketches[1..] :: s in sketches;
      SelectUnscoredIsFilter(sketches[1..], p);
    }
  }

  /** When every sketch is unscored, all of them are selected. */
  lemma {:induction false} SelectAllUnscored(sketches: seq<Sketch>)
    requires forall s | s in sketches :: Unscored(s.Value())
    ensures SelectUnscored(sketches) == sketches
  {
    if sketches != [] {
      assert sketches[0] in sketches;
      assert forall s | s in sketches[1..] :: s in sketches;
      SelectAllUnscored(sketches[1..]);
    }
  }

  /** `clear_sentiment`'s loop at collection.py:317-319: both sentiment fields of every
      sketch become null; nothing else changes. */
  method ClearSentiment(fullData: seq<Sketch>)
    modifies set s | s in fullData
    ensures forall k :: 0 <= k < |fullData| ==> fullData[k].Value() == Cleared(old(fullData[k].Value()))
    ensures forall s | s in fullData :: Unscored(s.Value())
    ensures SelectUnscored(fullData) == fullData
  {
    var i := 0;
    while i < |fullData|
      invariant 0 <= i <= |fullData|
      invariant forall k :: 0 <= k < |fullData| ==>
                  fullData[k].Value() == if fullData[k] in fullData[..i] then Cleared(old(fullData[k].Value())) else old(fullData[k].Value())
    {
      assert fullData[..i + 1] == fullData[..i] + [fullData[i]];
      fullData[i].ResetSentiment();
      i := i + 1;
    }
    assert fullData[..i] == fullData;
    SelectAllUnscored(fullData);
  }
}
