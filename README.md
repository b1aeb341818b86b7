# SNL-Stats record assembly, in Dafny

SNL-Stats assembles a dataset of Saturday Night Live sketches and then analyses it. First it
scrapes an episode archive into scenes, each with a title, a scene type and a cast. Next it
lists the uploads of the show's video channel. It keeps the uploads whose titles mark them
as sketches and joins each one with the archive scene whose title the fuzzy matcher picks.
It then fills in the view, like and comment counts of every joined sketch from the video
API. Finally it groups the view counts by scene type for a boxplot.

This project models that record-assembly layer and proves properties of it:

- `VideoFilter` covers `_filter_videos`. A title is kept when it is non-null, carries a
  required marker (case-sensitive) and holds no blocked phrase once lower-cased. The markers
  are then cut out and the title stripped, in a nested loop over the kept videos.
- `ArchiveLink` covers `_get_scene_by_title`, `_get_combined_data_from_video_info` and
  `_combine_archive_with_filtered_videos`.
  - The candidate titles are the non-null archive titles, and the matcher picks one of them
    or nothing.
  - A match is resolved to the first scene with exactly that title.
  - The joined record takes its id from the video and every other field from the scene.
  - The worker pool returns results in completion order, so the batch result is promised
    only as a multiset.
- `SketchUpdates` covers the steps of `collection.py` that change the list of sketch
  objects:
  - the flattening of scraped episodes into scenes;
  - reading the ids;
  - the statistics merge (for each row, the first sketch with that id takes five fields,
    then the inner loop breaks);
  - the selection of sketches still lacking sentiment;
  - `clear_sentiment`'s reset loop.
- `YouTube` covers `fetch_video_statistics`, which sends the ids to the API in batches of
  at most 50, and the projections `_extract_video_info` and `_extract_video_statistics`.
- `Graph` covers the set of scene types and the per-type view-count groups of
  `draw_boxplot_for_scene_type`.
- `Schema` holds the records: scenes, videos, statistics rows, and the `Sketch` class.
  A `Sketch` is an object whose fields these loops assign in place. `Value()` reads all of
  its fields at once.
- `PyStrings` and `Seqs` model the Python built-ins used (`strip`, `lower`, `in`,
  `replace(x, "")` and `int`) and generic sequence facts.

Outside inputs become parameters:

- The fuzzy matcher is a `Matcher` function.
- The HTTP request for one batch of video ids is a partial function `fetch`. Its
  precondition is the batch-size assertion that `_fetch_videos` makes.
- The iteration order of Python's set of scene types is a parameter `order`, which lists
  that set.

Points where the program's own files disagree, and how the model resolves them:

- `duration` is kept as a string. The pydantic `Video` model declares `duration: int`
  (schema.py:6), but `_extract_video_statistics` copies the API's text, an ISO 8601
  duration (data_collection/youtube.py:163), and the merge assigns that text as it is
  (collection.py:137).
- The boxplot grouping keeps every group, however few values it has
  (analysis/graph.py:21-24). Sketches with a null scene type are skipped, not rejected
  (analysis/graph.py:18).
- `get_matching_string` takes two arguments (data_collection/fuzzy_search.py:4) but is
  called with three (collection.py:279). It also returns the matching library's
  `(string, score)` pair rather than a string (data_collection/fuzzy_search.py:5). The
  model takes the behaviour the caller expects: a candidate title that passes the 0.9
  threshold, or nothing.

## Model

| member | source | states |
|---|---|---|
| Seqs.FilterSpec | collection.py:230-237 | a list comprehension with a condition keeps its input's order and keeps exactly the members satisfying the condition, each as often as in the input |
| PyStrings.Strip | collection.py:242 | `strip()` returns a slice of its input without whitespace at either end, and everything it cuts off is whitespace |
| PyStrings.StripStripped | collection.py:242 | stripping a string that has no whitespace at its ends returns it unchanged |
| PyStrings.RemoveAll | collection.py:242 | `replace(marker, "")` never lengthens a title and leaves a title without the marker unchanged |
| PyStrings.RemoveAllPrefix | collection.py:242 | deleting occurrences leaves untouched a prefix that holds no occurrence |
| PyStrings.ContainsAt | collection.py:234-235 | the substring test `sub in s` holds exactly when `sub` occurs at some position of `s` |
| PyStrings.NotContains | collection.py:235 | a string in which no occurrence of the first character of `sub` starts a copy of `sub` does not contain `sub` |
| PyStrings.LowerPrefix | collection.py:235 | `lower()` works character by character, so a prefix whose characters lower to `p` lowers to `p` |
| PyStrings.ParseDecimalString | data_collection/youtube.py:164-166 | `int()` applied to the decimal text of any integer gives back that integer |
| VideoFilter.FilteredVideosSpec | collection.py:227-244 | a video is kept exactly when its title is non-null, has a required marker and has no blocked phrase in lower case; kept videos stay in input order; the k-th output has the k-th kept video's id and its cleaned, stripped title |
| VideoFilter.FilterVideos | collection.py:227-244 | the comprehension followed by the nested rewrite loop returns the filtered, cleaned list, and every output title is non-null and stripped |
| VideoFilter.KeptHaveTitles | collection.py:233 | no video with a null title survives the filter |
| VideoFilter.CleanTitleIsStripped | collection.py:240-242 | a cleaned title has no whitespace at either end, because stripping is the last step |
| VideoFilter.MarkerRemoved | collection.py:242 | removing "- SNL" from "Angry Birds - SNL" leaves "Angry Birds " |
| VideoFilter.TrailingSpaceStripped | collection.py:242 | stripping "Angry Birds " gives "Angry Birds" |
| VideoFilter.MarkerFound | collection.py:234 | "Angry Birds - SNL" carries the required marker "- SNL" |
| VideoFilter.LoweredTitleUnblocked | collection.py:235 | "angry birds - snl" contains none of the blocked phrases |
| VideoFilter.NothingBlocked | collection.py:235 | the lower-cased "Angry Birds - SNL" contains no blocked phrase |
| VideoFilter.MarkedTitleCleaned | collection.py:240-242 | cleaning "Angry Birds - SNL" gives "Angry Birds" |
| VideoFilter.BlockedTitleDropped | collection.py:235 | "Behind the Scenes of Angry Birds - SNL" contains the blocked phrase "behind the scenes" once lower-cased |
| VideoFilter.FilterScenario | collection.py:227-244 | of a sketch upload and its behind-the-scenes upload, only the sketch survives, with its title cleaned to the archive's title |
| ArchiveLink.SceneTitles | collection.py:249-251 | the candidate titles are exactly the non-null archive titles, and there are no more of them than scenes |
| ArchiveLink.FirstSceneWithTitleSpec | collection.py:288-291 | the search finds nothing exactly when no scene has the title; otherwise it finds a scene with the title and no earlier scene has it |
| ArchiveLink.GetSceneByTitle | collection.py:288-291 | the loop with early return finds the first scene with the title, and nothing exactly when no scene has it |
| ArchiveLink.CombinedDataSpec | collection.py:276-285 | a video is dropped exactly when the matcher finds nothing; a matched title with no scene is reported as missing; otherwise the record has the video's id and all the fields of the first scene with the matched title |
| ArchiveLink.LinkedKeepsId | collection.py:284 | a joined record carries its video's id |
| ArchiveLink.CandidateResolves | collection.py:279-283 | when the matcher only returns candidates, the matched title always names a scene, since the candidates are the archive's own non-null titles |
| ArchiveLink.LinkArgsHaveTitles | collection.py:253-257 | the work items are exactly the filtered videos with a non-null title, in order |
| ArchiveLink.LinkedRecordIds | collection.py:253-267 | there is at most one record per work item, and the record ids are a subsequence of the work items' ids |
| ArchiveLink.DistinctIdsStayDistinct | collection.py:253-267 | distinct input video ids give distinct record ids |
| ArchiveLink.AllResolveMeans | collection.py:260-267 | the loop's running condition means that no work item so far was matched to a missing scene |
| ArchiveLink.NeverMissing | collection.py:279-285 | with a matcher that only returns candidates, no video of the batch fails |
| ArchiveLink.CombineArchiveWithFilteredVideos | collection.py:247-269 | the batch fails exactly when some titled video is matched to a title no scene carries; otherwise the result equals, as a multiset, the non-null per-video results, and has no more records than titled videos |
| ArchiveLink.LinkScenario | collection.py:276-285 | a video titled like an archive scene is joined with that scene under the video's id |
| ArchiveLink.UnmatchedDropped | collection.py:279-285 | a video the matcher cannot place yields no record |
| YouTube.ExtractVideoInfo | data_collection/youtube.py:171-179 | one record per playlist item, in order, with the item's video id and title |
| YouTube.ExtractVideoStatistics | data_collection/youtube.py:149-169 | extraction succeeds exactly when all three counts parse; it copies id, title, duration and publish date, and the counts are the parsed values |
| YouTube.ExtractDecimalCounts | data_collection/youtube.py:160-168 | counts sent as decimal text come back as the integers they denote |
| YouTube.ExtractAll | data_collection/youtube.py:26 | the final comprehension succeeds exactly when every item extracts, and then gives one record per item, in order |
| YouTube.BatchesSpec | data_collection/youtube.py:19-22 | every batch sent is non-empty and at most 50 long, which discharges the assertion of `_fetch_videos`; the batches joined are the id list; there are ceil(n / 50) of them |
| YouTube.FetchStep | data_collection/youtube.py:19-22 | one turn of the loop sends the first 50 ids and leaves the rest |
| YouTube.FetchVideoStatistics | data_collection/youtube.py:15-27 | the loop sends exactly the batches above, in order, and returns the extraction of all items fetched for them |
| YouTube.FetchedRecordsInOrder | data_collection/youtube.py:19-26 | an empty id list sends nothing and yields no records; otherwise the result has one record per fetched item, each with that item's id |
| SketchUpdates.PresentScenes | collection.py:87-88 | a scene is in the result exactly when it occurs, non-null, in the episode |
| SketchUpdates.PresentScenesAppend | collection.py:87-88 | within an episode the non-null scenes keep their order and multiplicity: the selection distributes over concatenation, a null scene adds nothing and a present scene adds itself |
| SketchUpdates.FlattenScenes | collection.py:83-89 | a scene is in the result exactly when it occurs, non-null, in some non-null episode |
| SketchUpdates.FlattenScenesAppend | collection.py:83-89 | flattening goes episode by episode, in order: it distributes over concatenation, a null episode adds nothing, and a present episode adds its non-null scenes |
| Schema.RecordIds | collection.py:300-302 | one id per sketch record, in order; `_get_ids` is this projection of the objects' current values |
| SketchUpdates.FetchYoutubeStats | collection.py:294-297 | the statistics fetched are those for the sketches' ids, in list order |
| SketchUpdates.FirstIndexOf | collection.py:132-133 | the position found is the first one holding the id, and nothing is found exactly when the id is absent |
| SketchUpdates.MergeRow | collection.py:132-139 | a row overwrites the five fields of only the first record with its id; every other record and field is unchanged, and a row with no matching id changes nothing |
| SketchUpdates.MergeRowsKeepsIds | collection.py:131-139 | merging never changes an id |
| SketchUpdates.MergedAtIsMergeRows | collection.py:131-139 | when the list holds distinct objects, the object-level merge is the record-level merge of the rows in order |
| SketchUpdates.MergeStep | collection.py:131-139 | one more row changes exactly the objects it targets |
| SketchUpdates.AssignFirstMatch | collection.py:132-139 | the inner loop assigns the row's five fields to the object at the first position with the row's id, and changes no other object |
| SketchUpdates.MergeNextRow | collection.py:131-139 | one turn of the outer loop keeps every object at the value the rows so far give it |
| SketchUpdates.MergeStats | collection.py:131-139 | after the loops every object holds the value the rows give it, in order; when the list holds distinct objects, that is the record-level merge |
| SketchUpdates.SelectUnscoredSpec | collection.py:158-162 | the selection keeps, in order and as the same objects, exactly the sketches lacking either sentiment field, each object as often as the list holds it |
| SketchUpdates.SelectUnscoredIsFilter | collection.py:158-162 | on the current state, the selection is the filtering comprehension with the condition "mean or standard deviation is null" |
| SketchUpdates.SelectAllUnscored | collection.py:158-162 | when every sketch lacks sentiment, all of them are selected |
| SketchUpdates.ClearSentiment | collection.py:317-319 | both sentiment fields of every sketch become null, nothing else changes, and every sketch is then selected for re-analysis |
| Schema.Sketch.constructor | collection.py:122 | `Sketch(**sketch)` holds exactly the record's fields |
| Schema.Sketch.AssignStats | collection.py:134-138 | the five statistics fields take the row's values and the others stay |
| Schema.Sketch.ResetSentiment | collection.py:318-319 | both sentiment fields become null and the others stay |
| Graph.SceneTypesSpec | analysis/graph.py:18 | a scene type is in the set exactly when some sketch has it, and there are no more types than sketches |
| Graph.ViewCountsAppend | analysis/graph.py:22 | a group is built sketch by sketch in data order; a sketch adds its view count to its own type's group and to no other |
| Graph.ViewCountsMembers | analysis/graph.py:22 | a view count is in the group of a type exactly when a sketch of that type has that non-null count |
| Graph.SketchGroups | analysis/graph.py:18-22 | a sketch with a null scene type or null view count is in no group; any other sketch is in its own type's group only |
| Graph.SketchCountedOnce | analysis/graph.py:21-23 | over distinct types, one sketch is counted once if it is plotted and its type is listed, and never otherwise |
| Graph.GroupsPartition | analysis/graph.py:21-23 | over distinct types covering all scene types, the group sizes add up to the number of sketches with both fields non-null |
| Graph.BoxplotDataSpec | analysis/graph.py:21-24 | there is one group per distinct scene type; the k-th group holds exactly the view counts of the k-th type's sketches; together the groups hold every plotted sketch exactly once |

## Left out

- Network and asynchronous code is not modelled: aiohttp, asyncio, semaphores, `fetch_video_comments`, the channel and playlist requests and their pagination.
- The body of `_fetch_videos` is not modelled. This includes its broken pagination loop (data_collection/youtube.py:140-145). The model keeps its batch-size assertion as the precondition of `fetch`.
- Fuzzy scoring is left out. The matcher is a parameter, and the 0.9 threshold lives inside it.
- The worker pool runs the per-video joins in parallel. The model runs them sequentially, and because the pool's completion order is not fixed, the batch result is stated up to order, as a multiset.
- Sentiment scoring is not modelled: `update_video_sentiment_stats`'s fetch and analysis, the VADER scores, and the numpy mean and standard deviation written through the selection. Only the selection itself is modelled.
- File and command-line plumbing is not modelled: JSON loading and saving, timestamps, argparse, progress bars, logging and the file cache of `analysis/load_data.py`. This includes `clear_sentiment`'s load and save around its loop.
- `draw_boxplot_for_scene_type` ignores its `data` argument and reloads the data from file (analysis/graph.py:13). The model's `data` parameter stands for the reloaded list.
- Plotting and the statistical tests are not modelled: matplotlib in analysis/graph.py:25-31 and the scipy calls of `analysis/test.py`.
- HTML scraping of the archive (`snl_archive_scraper.py`) is not modelled. The scraped episodes are an input to `FlattenScenes`.
- The `Sketch` pydantic model is not part of this model. Its fields are taken from their uses in collection.py and analysis/graph.py, and its validation is not modelled.
- The duplicated definitions of `_fetch_youtube_stats` and `_get_ids` (collection.py:294-313) are modelled once.
- VideoFilter.FilterVideos: the video dictionaries it rewrites are modelled as values, so the write-through to the caller's `channel_videos` list is not captured. The caller does not read that list again.
- SketchUpdates.AssignFirstMatch: it leaves the inner loop with `return` where the source uses `break`. Nothing follows the loop, so the behaviour is the same.
- YouTube.FetchVideoStatistics: the list of batches sent is a ghost out-parameter, so it is a proof artefact rather than an observable result.
- PyStrings.Lower: it lower-cases ASCII letters only, not the full Unicode case mapping of `str.lower()`.
- PyStrings.ParseInt: it accepts only surrounding whitespace, an optional sign and ASCII digits. It rejects the underscores and non-ASCII digits that `int()` also accepts.
- YouTube.ExtractVideoStatistics: of the fields a response may lack, only the three counts are modelled as optional, since likes and comments can be switched off. The others are always present.
