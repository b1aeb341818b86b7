/** The records that flow through the collection pipeline. Scenes and videos are the
    JSON dictionaries produced by the archive scraper and the video API; a sketch is the
    joined entity, a mutable object whose statistics and sentiment fields are filled in
    after the join. `None` stands for JSON `null`. */
module Schema {
  import opened Wrappers

  /** A scene scraped from the episode archive; monologues have no title. */
  datatype Scene = Scene(title: Option<string>, sceneType: Option<string>, cast: seq<Option<string>>)

  /** `{"id": ..., "title": ...}` for one channel upload. */
  datatype Video = Video(id: string, title: Option<string>)

  /** One row of `fetch_video_statistics`'s result. */
  datatype VideoStats = VideoStats(
    videoId: string, title: string, duration: string,
    viewCount: int, likeCount: int, commentCount: int, uploadDate: string)

  /** The value of every field of a sketch at one moment. */
  datatype SketchRecord = SketchRecord(
    id: string, title: Option<string>, sceneType: Option<string>, cast: seq<Option<string>>,
    uploadDate: Option<string>, duration: Option<string>,
    viewCount: Option<int>, likeCount: Option<int>, commentCount: Option<int>,
    meanSentiment: Option<real>, stdSentiment: Option<real>)

  /** The record `Sketch(**{"id": videoId, **scene})` builds: identity from the video,
      every scene field from the archive, nothing collected yet. */
  function NewSketchRecord(videoId: string, scene: Scene): SketchRecord {
    SketchRecord(videoId, scene.title, scene.sceneType, scene.cast, None, None, None, None, None, None, None)
  }

  /** The record with the five fields the statistics merge assigns taken from `row`. */
  function WithStats(r: SketchRecord, row: VideoStats): SketchRecord {
    r.(viewCount := Some(row.viewCount), likeCount := Some(row.likeCount),
       commentCount := Some(row.commentCount), duration := Some(row.duration),
       uploadDate := Some(row.uploadDate))
  }

  /** The record with both sentiment fields reset to null. */
  function Cleared(r: SketchRecord): SketchRecord {
    r.(meanSentiment := None, stdSentiment := None)
  }

  /** A sketch object; the loops of the pipeline assign its fields in place. */
  class Sketch {
    var id: string
    var title: Option<string>
    var sceneType: Option<string>
    var cast: seq<Option<string>>
    var uploadDate: Option<string>
    var duration: Option<string>
    var viewCount: Option<int>
    var likeCount: Option<int>
    var commentCount: Option<int>
    var meanSentiment: Option<real>
    var stdSentiment: Option<real>

    constructor (r: SketchRecord)
      ensures Value() == r
    {
      id, title, sceneType, cast := r.id, r.title, r.sceneType, r.cast;
      uploadDate, duration := r.uploadDate, r.duration;
      viewCount, likeCount, commentCount := r.viewCount, r.likeCount, r.commentCount;
      meanSentiment, stdSentiment := r.meanSentiment, r.stdSentiment;
    }

    /** The five assignments of the statistics merge. */
    method AssignStats(row: VideoStats)
      modifies this
      ensures Value() == WithStats(old(Value()), row)
    {
      viewCount := Some(row.viewCount);
      likeCount := Some(row.likeCount);
      commentCount := Some(row.commentCount);
      duration := Some(row.duration);
      uploadDate := Some(row.uploadDate);
    }

    /** The two assignments of `clear_sentiment`. */
    method ResetSentiment()
      modifies this
      ensures Value() == Cleared(old(Value()))
    {
      meanSentiment := None;
      stdSentiment := None;
    }

    /** The current values of all fields. */
    function Value(): SketchRecord
      reads this
    {
      SketchRecord(id, title, sceneType, cast, uploadDate, duration,
                   viewCount, likeCount, commentCount, meanSentiment, stdSentiment)
    }
  }

  /** The objects' current values, in list order. */
  function Values(sketches: seq<Sketch>): (r: seq<SketchRecord>)
    reads set s | s in sketches
    ensures |r| == |sketches|
    ensures forall k :: 0 <= k < |sketches| ==> r[k] == sketches[k].Value()
  {
    if sketches == [] then [] else [sketches[0].Value()] + Values(sketches[1..])
  }

  /** The ids of videos and of records, in list order. */
  function VideoIds(vs: seq<Video>): (r: seq<string>)
    ensures |r| == |vs| && forall k :: 0 <= k < |vs| ==> r[k] == vs[k].id
  {
    if vs == [] then [] else [vs[0].id] + VideoIds(vs[1..])
  }

  function RecordIds(rs: seq<SketchRecord>): (r: seq<string>)
    ensures |r| == |rs| && forall k :: 0 <= k < |rs| ==> r[k] == rs[k].id
  {
    if rs == [] then [] else [rs[0].id] + RecordIds(rs[1..])
  }

  lemma VideoIdsAppend(a: seq<Video>, b: seq<Video>)
    ensures VideoIds(a + b) == VideoIds(a) + VideoIds(b)
  {
  }

  lemma RecordIdsAppend(a: seq<SketchRecord>, b: seq<SketchRecord>)
    ensures RecordIds(a + b) == RecordIds(a) + RecordIds(b)
  {
  }
}
