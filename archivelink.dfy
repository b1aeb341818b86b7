/** Joining the scraped archive with the filtered channel videos
    (`_combine_archive_with_filtered_videos`, `_get_combined_data_from_video_info`,
    `_get_scene_by_title` in collection.py). */
module ArchiveLink {
  import opened Wrappers
  import opened Seqs
  import opened Schema

  /** The fuzzy title matcher: given a video title and the candidate scene titles it
      returns one candidate, or nothing when no candidate scores above its threshold.
      Its scoring is not modelled. */
  type Matcher = (string, seq<string>) -> Option<string>

  /** What the matcher is meant to be: whatever it returns is one of the candidates. */
  ghost predicate ReturnsCandidate(matcher: Matcher) {
    forall title, candidates :: matcher(title, candidates).Some? ==> matcher(title, candidates).value in candidates
  }

  /** The non-null archive titles, in archive order. */
  function SceneTitles(scenes: seq<Scene>): (r: seq<string>)
    ensures |r| <= |scenes|
    ensures forall t :: t in r <==> exists i :: 0 <= i < |scenes| && scenes[i].title == Some(t)
  {
    if scenes == [] then []
    else
      assert forall i :: 1 <= i < |scenes| ==> scenes[i] == scenes[1..][i - 1];
      (if scenes[0].title.Some? then [scenes[0].title.value] else []) + SceneTitles(scenes[1..])
  }

  /** The first scene whose title is `title`, if any. */
  function FirstSceneWithTitle(title: string, scenes: seq<Scene>): Option<Scene> {
    if scenes == [] then None
    else if scenes[0].title == Some(title) then Some(scenes[0])
    else FirstSceneWithTitle(title, scenes[1..])
  }

  /** Nothing is found exactly when no scene has the title; what is found is the
      earliest scene that has it. */
  lemma {:induction false} FirstSceneWithTitleSpec(title: string, scenes: seq<Scene>)
    ensures var r := FirstSceneWithTitle(title, scenes);
            && (r.None? <==> forall i :: 0 <= i < |scenes| ==> scenes[i].title != Some(title))
            && (r.Some? ==> exists i :: 0 <= i < |scenes| && scenes[i] == r.value && scenes[i].title == Some(title)
                                       && forall j :: 0 <= j < i ==> scenes[j].title != Some(title))
  {
    if scenes != [] && scenes[0].title != Some(title) {
      FirstSceneWithTitleSpec(title, scenes[1..]);
      assert forall i :: 1 <= i < |scenes| ==> scenes[i] == scenes[1..][i - 1];
      var r := FirstSceneWithTitle(title, scenes);
      if r.Some? {
        var i :| 0 <= i < |scenes[1..]| && scenes[1..][i] == r.value && scenes[1..][i].title == Some(title)
                 && forall j :: 0 <= j < i ==> scenes[1..][j].title != Some(title);
        assert scenes[i + 1] == r.value;
        assert forall j :: 0 <= j < i + 1 ==> scenes[j].title != Some(title);
      }
    }
  }

  /** `_get_scene_by_title`: a linear search that returns at the first equal title. */
  method GetSceneByTitle(title: string, scenes: seq<Scene>) returns (r: Option<Scene>)
    ensures r == FirstSceneWithTitle(title, scenes)
    ensures r.None? <==> forall i :: 0 <= i < |scenes| ==> scenes[i].title != Some(title)
    ensures r.Some? ==> r.value.title == Some(title)
  {
    var i := 0;
    assert scenes[0..] == scenes;
    while i < |scenes|
      invariant 0 <= i <= |scenes|
      invariant forall j :: 0 <= j < i ==> scenes[j].title != Some(title)
      invariant FirstSceneWithTitle(title, scenes) == FirstSceneWithTitle(title, scenes[i..])
    {
      if scenes[i].title == Some(title) {
        return Some(scenes[i]);
      }
      assert scenes[i..][1..] == scenes[i + 1..];
      i := i + 1;
    }
    return None;
  }

  /** The outcome of linking one video: a joined record, no match (the video is dropped),
      or a matched title that no scene carries (Python raises `TypeError` on `**None`). */
  datatype Link = Linked(sketch: SketchRecord) | NoMatch | SceneMissing(title: string)

  /** `_get_combined_data_from_video_info`. */
  function CombinedData(video: Video, sceneTitles: seq<string>, sceneData: seq<Scene>, matcher: Matcher): Link
    requires video.title.Some?
  {
    match matcher(video.title.value, sceneTitles)
    case None => NoMatch
    case Some(t) =>
      match FirstSceneWithTitle(t, sceneData)
      case None => SceneMissing(t)
      case Some(scene) => Linked(NewSketchRecord(video.id, scene))
  }

  /** A video is dropped exactly when the matcher finds nothing; a matched title that no
      scene carries is reported; otherwise the record joins the video's id with the
      first scene of the matched title. */
  lemma CombinedDataSpec(video: Video, sceneTitles: seq<string>, sceneData: seq<Scene>, matcher: Matcher)
    requires video.title.Some?
    ensures var r := CombinedData(video, sceneTitles, sceneData, matcher);
            var m := matcher(video.title.value, sceneTitles);
            && (r.NoMatch? <==> m.None?)
            && (r.SceneMissing? <==> m.Some? && forall i :: 0 <= i < |sceneData| ==> sceneData[i].title != m)
            && (r.SceneMissing? ==> m == Some(r.title))
            && (r.Linked? ==> exists i :: 0 <= i < |sceneData| && sceneData[i].title == m
                                         && (forall j :: 0 <= j < i ==> sceneData[j].title != m)
                                         && r.sketch == NewSketchRecord(video.id, sceneData[i]))
  {
    var m := matcher(video.title.value, sceneTitles);
    if m.Some? {
      FirstSceneWithTitleSpec(m.value, sceneData);
    }
  }

  /** A joined record carries the id of its video. */
  lemma LinkedKeepsId(video: Video, sceneTitles: seq<string>, sceneData: seq<Scene>, matcher: Matcher)
    requires video.title.Some?
    ensures CombinedData(video, sceneTitles, sceneData, matcher).Linked? ==>
              CombinedData(video, sceneTitles, sceneData, matcher).sketch.id == video.id
  {
  }

  /** A candidate the matcher returns always resolves to a scene, since the candidates
      are exactly the titles the archive carries. */
  lemma CandidateResolves(video: Video, sceneData: seq<Scene>, matcher: Matcher)
    requires video.title.Some?
    requires ReturnsCandidate(matcher)
    ensures !CombinedData(video, SceneTitles(sceneData), sceneData, matcher).SceneMissing?
  {
    var titles := SceneTitles(sceneData);
    var m := matcher(video.title.value, titles);
    CombinedDataSpec(video, titles, sceneData, matcher);
    if m.Some? {
      assert m.value in titles;
    }
  }

  /** The work items: every filtered video that has a title. */
  function LinkArgs(filteredVideos: seq<Video>): seq<Video> {
    Filter((v: Video) => v.title.Some?, filteredVideos)
  }

  lemma LinkArgsHaveTitles(filteredVideos: seq<Video>)
    ensures forall v | v in LinkArgs(filteredVideos) :: v in filteredVideos && v.title.Some?
    ensures forall v | v in filteredVideos :: v in LinkArgs(filteredVideos) <==> v.title.Some?
    ensures IsSubsequence(LinkArgs(filteredVideos), filteredVideos)
  {
    FilterSpec((v: Video) => v.title.Some?, filteredVideos);
  }

  /** The joined records of the work items, in work-item order. */
  function LinkedRecords(args: seq<Video>, sceneTitles: seq<string>, sceneData: seq<Scene>, matcher: Matcher): seq<SketchRecord>
    requires forall v | v in args :: v.title.Some?
  {
    if args == [] then []
    else
      var last := args[|args| - 1];
      var init := LinkedRecords(args[..|args| - 1], sceneTitles, sceneData, matcher);
      match CombinedData(last, sceneTitles, sceneData, matcher)
      case Linked(s) => init + [s]
      case _ => init
  }

  /** At most one record per work item, each with the id of its own video, in
      work-item order: the record ids are a subsequence of the work items' ids. */
  lemma {:induction false} LinkedRecordIds(args: seq<Video>, sceneTitles: seq<string>, sceneData: seq<Scene>, matcher: Matcher)
    requires forall v | v in args :: v.title.Some?
    ensures |LinkedRecords(args, sceneTitles, sceneData, matcher)| <= |args|
    ensures IsSubsequence(RecordIds(LinkedRecords(args, sceneTitles, sceneData, matcher)), VideoIds(args))
  {
    if args != [] {
      var n := |args| - 1;
      LinkedRecordIds(args[..n], sceneTitles, sceneData, matcher);
      LinkedRecordsStep(args, n, sceneTitles, sceneData, matcher);
      assert args[..n + 1] == args;
      assert args[..n] + [args[n]] == args;
      var link := CombinedData(args[n], sceneTitles, sceneData, matcher);
      LinkedKeepsId(args[n], sceneTitles, sceneData, matcher);
      IdsStep(LinkedRecords(args[..n], sceneTitles, sceneData, matcher), if link.Linked? then [link.sketch] else [],
              args[..n], args[n]);
    }
  }

  /** Appending one video, and at most one record carrying its id, keeps the record ids
      a subsequence of the video ids. */
  lemma {:induction false} IdsStep(recs: seq<SketchRecord>, tail: seq<SketchRecord>, init: seq<Video>, last: Video)
    requires IsSubsequence(RecordIds(recs), VideoIds(init))
    requires tail == [] || (|tail| == 1 && tail[0].id == last.id)
    ensures |recs| <= |init| ==> |recs + tail| <= |init + [last]|
    ensures IsSubsequence(RecordIds(recs + tail), VideoIds(init + [last]))
  {
    assert IsSubsequence(RecordIds(tail), [last.id]) by {
      assert RecordIds(tail) == [] || RecordIds(tail) == [last.id];
    }
    RecordIdsAppend(recs, tail);
    VideoIdsAppend(init, [last]);
    assert VideoIds([last]) == [last.id];
    SubsequenceAppend(RecordIds(recs), VideoIds(init), RecordIds(tail), [last.id]);
  }

  /** Linking is injective on ids: distinct video ids give distinct record ids. */
  lemma DistinctIdsStayDistinct(args: seq<Video>, sceneTitles: seq<string>, sceneData: seq<Scene>, matcher: Matcher)
    requires forall v | v in args :: v.title.Some?
    requires NoDuplicates(VideoIds(args))
    ensures NoDuplicates(RecordIds(LinkedRecords(args, sceneTitles, sceneData, matcher)))
  {
    LinkedRecordIds(args, sceneTitles, sceneData, matcher);
    SubsequenceOfDistinct(RecordIds(LinkedRecords(args, sceneTitles, sceneData, matcher)), VideoIds(args));
  }

  /** The joined records of the whole batch, in input order. */
  function CombinedRecords(sceneData: seq<Scene>, filteredVideos: seq<Video>, matcher: Matcher): seq<SketchRecord> {
    LinkArgsHaveTitles(filteredVideos);
    LinkedRecords(LinkArgs(filteredVideos), SceneTitles(sceneData), sceneData, matcher)
  }

  /** Some titled video of the batch is matched to a title no scene carries. */
  ghost predicate SomeSceneMissing(sceneData: seq<Scene>, filteredVideos: seq<Video>, matcher: Matcher) {
    exists v :: v in filteredVideos && v.title.Some? && CombinedData(v, SceneTitles(sceneData), sceneData, matcher).SceneMissing?
  }

  /** A matcher that only returns candidates never makes a batch fail. */
  lemma NeverMissing(sceneData: seq<Scene>, filteredVideos: seq<Video>, matcher: Matcher)
    requires ReturnsCandidate(matcher)
    ensures !SomeSceneMissing(sceneData, filteredVideos, matcher)
  {
    forall v | v in filteredVideos && v.title.Some?
      ensures !CombinedData(v, SceneTitles(sceneData), sceneData, matcher).SceneMissing?
    {
      CandidateResolves(v, sceneData, matcher);
    }
  }

  /** Every work item's matched title, if any, names a scene. */
  predicate AllResolve(args: seq<Video>, sceneTitles: seq<string>, sceneData: seq<Scene>, matcher: Matcher)
    requires forall v | v in args :: v.title.Some?
  {
    args == [] ||
    (AllResolve(args[..|args| - 1], sceneTitles, sceneData, matcher)
     && !CombinedData(args[|args| - 1], sceneTitles, sceneData, matcher).SceneMissing?)
  }

  lemma {:induction false} AllResolveMeans(args: seq<Video>, sceneTitles: seq<string>, sceneData: seq<Scene>, matcher: Matcher)
    requires forall v | v in args :: v.title.Some?
    ensures AllResolve(args, sceneTitles, sceneData, matcher) <==>
              forall v | v in args :: !CombinedData(v, sceneTitles, sceneData, matcher).SceneMissing?
  {
    if args != [] {
      var init := args[..|args| - 1];
      assert args == init + [args[|args| - 1]];
      AllResolveMeans(init, sceneTitles, sceneData, matcher);
    }
  }

  /** `_combine_archive_with_filtered_videos`: every work item is linked and the joined
      records are collected; the worker pool delivers them in completion order, so only
      the multiset of the result is promised. A missing scene aborts the whole batch. */
  method CombineArchiveWithFilteredVideos(sceneData: seq<Scene>, filteredVideos: seq<Video>, matcher: Matcher)
    returns (r: Result<seq<SketchRecord>, string>)
    ensures r.Failure? <==> SomeSceneMissing(sceneData, filteredVideos, matcher)
    ensures r.Success? ==> multiset(r.value) == multiset(CombinedRecords(sceneData, filteredVideos, matcher))
    ensures r.Success? ==> |r.value| <= |LinkArgs(filteredVideos)|
  {
    var sceneTitles := SceneTitles(sceneData);
    var args := LinkArgs(filteredVideos);
    LinkArgsHaveTitles(filteredVideos);
    var compositeData: seq<SketchRecord> := [];
    var i := 0;
    while i < |args|
      invariant 0 <= i <= |args|
      invariant compositeData == LinkedRecords(args[..i], sceneTitles, sceneData, matcher)
      invariant AllResolve(args[..i], sceneTitles, sceneData, matcher)
    {
      LinkedRecordsStep(args, i, sceneTitles, sceneData, matcher);
      var result := CombinedData(args[i], sceneTitles, sceneData, matcher);
      if result.SceneMissing? {
        MissingFails(filteredVideos, args[i], sceneData, matcher);
        return Failure(result.title);
      }
      if result.Linked? {
        compositeData := compositeData + [result.sketch];
      }
      i := i + 1;
    }
    assert args[..i] == args;
    LinkedRecordIds(args, sceneTitles, sceneData, matcher);
    NoneMissing(filteredVideos, sceneData, matcher);
    r := Success(compositeData);
  }

  /** One more work item adds its joined record, if any, at the end. */
  lemma LinkedRecordsStep(args: seq<Video>, i: nat, sceneTitles: seq<string>, sceneData: seq<Scene>, matcher: Matcher)
    requires i < |args|
    requires forall v | v in args :: v.title.Some?
    ensures args[i].title.Some?
    ensures var link := CombinedData(args[i], sceneTitles, sceneData, matcher);
            && LinkedRecords(args[..i + 1], sceneTitles, sceneData, matcher)
               == LinkedRecords(args[..i], sceneTitles, sceneData, matcher) + (if link.Linked? then [link.sketch] else [])
            && (AllResolve(args[..i + 1], sceneTitles, sceneData, matcher)
                <==> AllResolve(args[..i], sceneTitles, sceneData, matcher) && !link.SceneMissing?)
    ensures args[i] in args
  {
    assert args[i] in args;
    assert args[..i + 1][..i] == args[..i];
  }

  lemma MissingFails(filteredVideos: seq<Video>, v: Video, sceneData: seq<Scene>, matcher: Matcher)
    requires v in LinkArgs(filteredVideos)
    requires v.title.Some? && CombinedData(v, SceneTitles(sceneData), sceneData, matcher).SceneMissing?
    ensures SomeSceneMissing(sceneData, filteredVideos, matcher)
  {
    LinkArgsHaveTitles(filteredVideos);
  }

  lemma NoneMissing(filteredVideos: seq<Video>, sceneData: seq<Scene>, matcher: Matcher)
    requires forall v | v in LinkArgs(filteredVideos) :: v.title.Some?
    requires AllResolve(LinkArgs(filteredVideos), SceneTitles(sceneData), sceneData, matcher)
    ensures !SomeSceneMissing(sceneData, filteredVideos, matcher)
  {
    var args := LinkArgs(filteredVideos);
    LinkArgsHaveTitles(filteredVideos);
    AllResolveMeans(args, SceneTitles(sceneData), sceneData, matcher);
    forall v | v in filteredVideos && v.title.Some?
      ensures !CombinedData(v, SceneTitles(sceneData), sceneData, matcher).SceneMissing?
    {
      assert v in args;
    }
  }

  // The cleaned upload is joined with the archive scene of the same title.

  lemma LinkScenario(scene: Scene, matcher: Matcher)
    requires scene == Scene(Some("Angry Birds"), Some("Game Show"), [Some("X")])
    requires matcher("Angry Birds", ["Angry Birds"]) == Some("Angry Birds")
    ensures CombinedRecords([scene], [Video("v1", Some("Angry Birds"))], matcher) == [NewSketchRecord("v1", scene)]
  {
    var vs := [Video("v1", Some("Angry Birds"))];
    assert vs[1..] == [];
    assert LinkArgs(vs) == vs;
    assert [scene][1..] == [];
    assert SceneTitles([scene]) == ["Angry Birds"];
    assert FirstSceneWithTitle("Angry Birds", [scene]) == Some(scene);
    assert CombinedData(vs[0], ["Angry Birds"], [scene], matcher) == Linked(NewSketchRecord("v1", scene));
    assert vs[..|vs| - 1] == [];
    assert LinkedRecords(vs, ["Angry Birds"], [scene], matcher) == [NewSketchRecord("v1", scene)];
  }

  /** A video the matcher cannot place is silently dropped. */
  lemma UnmatchedDropped(scene: Scene, matcher: Matcher)
    requires scene == Scene(Some("Angry Birds"), Some("Game Show"), [Some("X")])
    requires matcher("Cold Open", ["Angry Birds"]) == None
    ensures CombinedRecords([scene], [Video("v9", Some("Cold Open"))], matcher) == []
  {
    var vs := [Video("v9", Some("Cold Open"))];
    assert vs[1..] == [];
    assert LinkArgs(vs) == vs;
    assert [scene][1..] == [];
    assert SceneTitles([scene]) == ["Angry Birds"];
    assert CombinedData(vs[0], ["Angry Birds"], [scene], matcher) == NoMatch;
    assert vs[..|vs| - 1] == [];
    assert LinkedRecords(vs, ["Angry Birds"], [scene], matcher) == [];
  }
}
