/** The statistics side of the video API client (data_collection/youtube.py): ids are
    sent in batches the endpoint accepts, and the returned items are projected onto
    flat records. The HTTP request itself is a parameter. */
module YouTube {
  import opened Wrappers
  import opened Seqs
  import opened PyStrings
  import opened Schema

  /** The parts of a `playlistItems` item that are read. */
  datatype ResourceId = ResourceId(videoId: string)
  datatype PlaylistSnippet = PlaylistSnippet(title: string, resourceId: ResourceId)
  datatype PlaylistItem = PlaylistItem(snippet: PlaylistSnippet)

  /** The parts of a `videos` item that are read. A count the API leaves out (likes or
      comments switched off) is `None`. */
  datatype VideoSnippet = VideoSnippet(title: string, publishedAt: string)
  datatype ContentDetails = ContentDetails(duration: string)
  datatype Statistics = Statistics(viewCount: Option<string>, likeCount: Option<string>, commentCount: Option<string>)
  datatype VideoItem = VideoItem(id: string, snippet: VideoSnippet, contentDetails: ContentDetails, statistics: Statistics)

  /** `_extract_video_info`: one `{id, title}` per playlist item, in order. */
  function ExtractVideoInfo(items: seq<PlaylistItem>): (r: seq<Video>)
    ensures |r| == |items|
    ensures forall k :: 0 <= k < |items| ==>
              r[k].id == items[k].snippet.resourceId.videoId && r[k].title == Some(items[k].snippet.title)
  {
    if items == [] then []
    else [Video(items[0].snippet.resourceId.videoId, Some(items[0].snippet.title))] + ExtractVideoInfo(items[1..])
  }

  /** `int(data["statistics"][key])`: a missing key or a string `int` rejects fails. */
  function CountOf(field: Option<string>): Option<int> {
    if field.None? then None else ParseInt(field.value)
  }

  /** `_extract_video_statistics`. It fails (Python raises) when a count is missing or
      is not an integer literal. */
  function ExtractVideoStatistics(item: VideoItem): (r: Option<VideoStats>)
    ensures r.Some? <==> CountOf(item.statistics.viewCount).Some? && CountOf(item.statistics.likeCount).Some?
                         && CountOf(item.statistics.commentCount).Some?
    ensures r.Some? ==>
              && r.value.videoId == item.id
              && r.value.title == item.snippet.title
              && r.value.duration == item.contentDetails.duration
              && r.value.uploadDate == item.snippet.publishedAt
              && Some(r.value.viewCount) == CountOf(item.statistics.viewCount)
              && Some(r.value.likeCount) == CountOf(item.statistics.likeCount)
              && Some(r.value.commentCount) == CountOf(item.statistics.commentCount)
  {
    var views := CountOf(item.statistics.viewCount);
    var likes := CountOf(item.statistics.likeCount);
    var comments := CountOf(item.statistics.commentCount);
    if views.Some? && likes.Some? && comments.Some? then
      Some(VideoStats(item.id, item.snippet.title, item.contentDetails.duration,
                      views.value, likes.value, comments.value, item.snippet.publishedAt))
    else None
  }

  /** Counts the API writes as decimal strings come back as the integers they denote. */
  lemma ExtractDecimalCounts(item: VideoItem, views: int, likes: int, comments: int)
    requires item.statistics == Statistics(Some(DecimalString(views)), Some(DecimalString(likes)), Some(DecimalString(comments)))
    ensures ExtractVideoStatistics(item)
            == Some(VideoStats(item.id, item.snippet.title, item.contentDetails.duration,
                               views, likes, comments, item.snippet.publishedAt))
  {
    ParseDecimalString(views);
    ParseDecimalString(likes);
    ParseDecimalString(comments);
  }

  /** The list comprehension over all fetched items; one failure fails the whole list. */
  function ExtractAll(items: seq<VideoItem>): (r: Option<seq<VideoStats>>)
    ensures r.Some? <==> forall k :: 0 <= k < |items| ==> ExtractVideoStatistics(items[k]).Some?
    ensures r.Some? ==> |r.value| == |items|
                        && forall k :: 0 <= k < |items| ==> Some(r.value[k]) == ExtractVideoStatistics(items[k])
  {
    if items == [] then Some([])
    else
      var head := ExtractVideoStatistics(items[0]);
      var tail := ExtractAll(items[1..]);
      assert forall k :: 1 <= k < |items| ==> items[k] == items[1..][k - 1];
      if head.Some? && tail.Some? then Some([head.value] + tail.value) else None
  }

  /** The largest number of ids one `videos` request accepts. */
  const MaxBatch: nat := 50

  /** `ids[:n]` and `ids[n:]`, which clip at the end of the list. */
  function Take<T>(s: seq<T>, n: nat): seq<T> {
    if |s| <= n then s else s[..n]
  }

  function Drop<T>(s: seq<T>, n: nat): seq<T> {
    if |s| <= n then [] else s[n..]
  }

  /** The batches the `while` loop of `fetch_video_statistics` sends, in order. */
  function Batches(ids: seq<string>): seq<seq<string>>
    decreases |ids|
  {
    if |ids| == 0 then [] else [Take(ids, MaxBatch)] + Batches(Drop(ids, MaxBatch))
  }

  /** Every batch is non-empty and at most `MaxBatch` long, which is what the request
      function asserts; the batches put back together are the ids, with nothing lost,
      repeated or reordered; and there are ceil(n / 50) of them. */
  lemma {:induction false} BatchesSpec(ids: seq<string>)
    ensures forall b | b in Batches(ids) :: 0 < |b| <= MaxBatch
    ensures Concat(Batches(ids)) == ids
    ensures |Batches(ids)| == (|ids| + MaxBatch - 1) / MaxBatch
    decreases |ids|
  {
    if |ids| > 0 {
      var rest := Drop(ids, MaxBatch);
      BatchesSpec(rest);
      assert Take(ids, MaxBatch) + rest == ids;
      assert Batches(ids)[1..] == Batches(rest);
      if |ids| <= MaxBatch {
        assert |rest| == 0;
      } else {
        assert |rest| == |ids| - MaxBatch;
      }
    }
  }

  /** The items the API returns for each batch, joined in request order. */
  function FetchedItems(fetch: seq<string> --> seq<VideoItem>, batches: seq<seq<string>>): seq<VideoItem>
    requires forall b | b in batches :: fetch.requires(b)
  {
    if batches == [] then [] else fetch(batches[0]) + FetchedItems(fetch, batches[1..])
  }

  /** All items fetched for `videoIds`. */
  function FetchedFor(videoIds: seq<string>, fetch: seq<string> --> seq<VideoItem>): seq<VideoItem>
    requires forall b: seq<string> :: |b| <= MaxBatch ==> fetch.requires(b)
  {
    BatchesSpec(videoIds);
    FetchedItems(fetch, Batches(videoIds))
  }

  /** One turn of the loop: the first batch is fetched, the rest are left. */
  lemma FetchStep(ids: seq<string>, fetch: seq<string> --> seq<VideoItem>)
    requires ids != []
    requires forall b | b in Batches(ids) :: fetch.requires(b)
    ensures Batches(ids) == [Take(ids, MaxBatch)] + Batches(Drop(ids, MaxBatch))
    ensures fetch.requires(Take(ids, MaxBatch))
    ensures FetchedItems(fetch, Batches(ids)) == fetch(Take(ids, MaxBatch)) + FetchedItems(fetch, Batches(Drop(ids, MaxBatch)))
  {
    assert Batches(ids)[0] == Take(ids, MaxBatch);
    assert Batches(ids)[1..] == Batches(Drop(ids, MaxBatch));
  }

  /** `fetch_video_statistics`: request the ids 50 at a time, join the items, and extract
      one record per item. `fetch` stands for `_fetch_videos`, which only accepts batches
      of at most 50 ids; `sent` records the batches in the order they were sent. */
  method FetchVideoStatistics(videoIds: seq<string>, fetch: seq<string> --> seq<VideoItem>)
    returns (r: Option<seq<VideoStats>>, ghost sent: seq<seq<string>>)
    requires forall b: seq<string> :: |b| <= MaxBatch ==> fetch.requires(b)
    ensures sent == Batches(videoIds)
    ensures r == ExtractAll(FetchedFor(videoIds, fetch))
  {
    var videoData: seq<VideoItem> := [];
    var ids := videoIds;
    sent := [];
    BatchesSpec(ids);
    assert [] + Batches(ids) == Batches(ids);
    while |ids| > 0
      invariant sent + Batches(ids) == Batches(videoIds)
      invariant forall b | b in Batches(ids) :: |b| <= MaxBatch
      invariant videoData + FetchedItems(fetch, Batches(ids)) == FetchedFor(videoIds, fetch)
      decreases |ids|
    {
      var batch := Take(ids, MaxBatch);
      var items := fetch(batch);
      ghost var rest := Batches(Drop(ids, MaxBatch));
      FetchStep(ids, fetch);
      AppendAssoc(videoData, items, FetchedItems(fetch, rest));
      AppendAssoc(sent, [batch], rest);
      videoData := videoData + items;
      sent := sent + [batch];
      ids := Drop(ids, MaxBatch);
    }
    assert Batches(ids) == [];
    assert videoData + [] == videoData;
    r := ExtractAll(videoData);
  }

  /** An empty id list sends nothing and yields no records; otherwise the records come
      back one per fetched item, in order. */
  lemma FetchedRecordsInOrder(videoIds: seq<string>, fetch: seq<string> --> seq<VideoItem>)
    requires forall b: seq<string> :: |b| <= MaxBatch ==> fetch.requires(b)
    ensures videoIds == [] ==> Batches(videoIds) == [] && ExtractAll(FetchedFor(videoIds, fetch)) == Some([])
    ensures var items := FetchedFor(videoIds, fetch);
            var r := ExtractAll(items);
            r.Some? ==> |r.value| == |items| && forall k :: 0 <= k < |items| ==> r.value[k].videoId == items[k].id
  {
  }
}
