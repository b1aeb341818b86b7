/** Title filtering and cleaning of channel videos (`_filter_videos` in collection.py). */
module VideoFilter {
  import opened Wrappers
  import opened Seqs
  import opened PyStrings
  import opened Schema

  /** Lower-case substrings that disqualify a title. */
  const BlockedStrings: seq<string> := ["behind the sketch", "behind the scenes", "bloopers", "(live)"]

  /** Case-sensitive markers of which a title must contain one; they are cut out afterwards. */
  const RequiredStrings: seq<string> := ["- SNL", "- Saturday Night Live"]

  predicate HasRequiredMarker(title: string) {
    exists r :: r in RequiredStrings && Contains(title, r)
  }

  predicate HasBlockedString(title: string) {
    exists b :: b in BlockedStrings && Contains(Lower(title), b)
  }

  /** The condition of the filtering comprehension. */
  predicate Kept(v: Video) {
    v.title.Some? && HasRequiredMarker(v.title.value) && !HasBlockedString(v.title.value)
  }

  /** The title after the first `n` markers were replaced by "" and the result stripped,
      marker by marker in the order of RequiredStrings. */
  function CleanPrefix(title: string, n: nat): string
    requires n <= |RequiredStrings|
  {
    if n == 0 then title
    else Strip(RemoveAll(CleanPrefix(title, n - 1), RequiredStrings[n - 1]))
  }

  function CleanTitle(title: string): string {
    CleanPrefix(title, |RequiredStrings|)
  }

  /** Every kept video has a title. */
  lemma KeptHaveTitles(channelVideos: seq<Video>)
    ensures forall v | v in Filter(Kept, channelVideos) :: v.title.Some?
  {
    FilterSpec(Kept, channelVideos);
  }

  /** Every cleaned title is stripped, because stripping is its last step. */
  lemma CleanTitleIsStripped(title: string)
    ensures IsStripped(CleanTitle(title))
  {
  }

  function CleanVideo(v: Video): Video
    requires v.title.Some?
  {
    v.(title := Some(CleanTitle(v.title.value)))
  }

  function CleanAll(vs: seq<Video>): (r: seq<Video>)
    requires forall v | v in vs :: v.title.Some?
    ensures |r| == |vs|
    ensures forall k :: 0 <= k < |vs| ==> r[k] == CleanVideo(vs[k])
  {
    if vs == [] then [] else [CleanVideo(vs[0])] + CleanAll(vs[1..])
  }

  /** What `_filter_videos` returns for `channelVideos`. */
  function FilteredVideos(channelVideos: seq<Video>): seq<Video> {
    KeptHaveTitles(channelVideos);
    CleanAll(Filter(Kept, channelVideos))
  }

  /** An input video is kept exactly when it satisfies Kept, and the kept videos keep
      their input order; the k-th output video is the k-th kept input video, with the same
      id and a stripped, cleaned title. */
  lemma {:induction false} FilteredVideosSpec(channelVideos: seq<Video>)
    ensures var kept := Filter(Kept, channelVideos);
            && IsSubsequence(kept, channelVideos)
            && (forall v | v in channelVideos :: v in kept <==> Kept(v))
            && |FilteredVideos(channelVideos)| == |kept|
            && forall k :: 0 <= k < |kept| ==>
                 && kept[k].title.Some?
                 && FilteredVideos(channelVideos)[k].id == kept[k].id
                 && FilteredVideos(channelVideos)[k].title == Some(CleanTitle(kept[k].title.value))
                 && IsStripped(CleanTitle(kept[k].title.value))
  {
    var kept := Filter(Kept, channelVideos);
    FilterSpec(Kept, channelVideos);
    KeptHaveTitles(channelVideos);
    forall k | 0 <= k < |kept| ensures kept[k].title.Some? && IsStripped(CleanTitle(kept[k].title.value)) {
      assert kept[k] in kept;
      CleanTitleIsStripped(kept[k].title.value);
    }
  }

  /** `_filter_videos`: the comprehension, then the nested loop that rewrites each kept
      title once per required marker. */
  method FilterVideos(channelVideos: seq<Video>) returns (filtered: seq<Video>)
    ensures filtered == FilteredVideos(channelVideos)
    ensures forall v | v in filtered :: v.title.Some? && IsStripped(v.title.value)
  {
    filtered := Filter(Kept, channelVideos);
    ghost var kept := filtered;
    KeptHaveTitles(channelVideos);
    forall k | 0 <= k < |kept| ensures kept[k].title.Some? {
      assert kept[k] in kept;
    }
    var i := 0;
    while i < |filtered|
      invariant 0 <= i <= |filtered| == |kept|
      invariant forall k :: 0 <= k < |kept| ==> kept[k].title.Some?
      invariant forall k :: 0 <= k < i ==> filtered[k] == CleanVideo(kept[k])
      invariant forall k :: i <= k < |filtered| ==> filtered[k] == kept[k]
    {
      var video := filtered[i];
      var j := 0;
      while j < |RequiredStrings|
        invariant 0 <= j <= |RequiredStrings|
        invariant video == kept[i].(title := Some(CleanPrefix(kept[i].title.value, j)))
      {
        video := video.(title := Some(Strip(RemoveAll(video.title.value, RequiredStrings[j]))));
        j := j + 1;
      }
      filtered := filtered[i := video];
      i := i + 1;
    }
    forall v | v in filtered ensures v.title.Some? && IsStripped(v.title.value) {
      var k :| 0 <= k < |filtered| && filtered[k] == v;
      CleanTitleIsStripped(kept[k].title.value);
    }
  }

  // A worked pair of uploads: an ordinary sketch upload and a behind-the-scenes one.

  lemma MarkerRemoved()
    ensures RemoveAll("Angry Birds - SNL", "- SNL") == "Angry Birds "
  {
    var t := "Angry Birds - SNL";
    assert forall i :: 0 <= i < |t| && t[i] == '-' ==> i == 12;
    assert t == "Angry Birds " + "- SNL";
    forall i | 0 <= i < 12 ensures !("- SNL" <= t[i..]) {
      assert t[i] != '-';
    }
    RemoveAllPrefix("Angry Birds ", "- SNL", "- SNL");
    assert RemoveAll("- SNL", "- SNL") == "";
  }

  lemma TrailingSpaceStripped()
    ensures Strip("Angry Birds ") == "Angry Birds"
  {
    assert TrailingSpacesStart("Angry Birds ") == 11;
  }

  lemma MarkerFound(t: string)
    requires t == "Angry Birds - SNL"
    ensures HasRequiredMarker(t)
  {
    ContainsAt(t, "- SNL");
    assert "- SNL" <= t[12..];
    assert RequiredStrings[0] == "- SNL";
  }

  /** The lower-cased title holds none of the blocked strings: its only 'b' starts "birds"
      and it has no '('. */
  lemma LoweredTitleUnblocked(l: string)
    requires l == "angry birds - snl"
    ensures forall b | b in BlockedStrings :: !Contains(l, b)
  {
    assert forall i :: 0 <= i < |l| && l[i] == 'b' ==> i == 6;
    assert forall i :: 0 <= i < |l| ==> l[i] != '(';
    assert l[7] == 'i';
    forall b | b in BlockedStrings ensures !Contains(l, b) {
      NotContains(l, b);
    }
  }

  lemma NothingBlocked(t: string)
    requires t == "Angry Birds - SNL"
    ensures !HasBlockedString(t)
  {
    var l := "angry birds - snl";
    LowerPrefix(t, l);
    assert Lower(t) == l;
    LoweredTitleUnblocked(l);
  }

  lemma MarkedTitleCleaned(t: string)
    requires t == "Angry Birds - SNL"
    ensures CleanTitle(t) == "Angry Birds"
  {
    MarkerRemoved();
    TrailingSpaceStripped();
    var u := "Angry Birds";
    assert CleanPrefix(t, 1) == u;
    assert RemoveAll(u, "- Saturday Night Live") == u;
    StripStripped(u);
  }

  /** A "Behind the Scenes" upload is dropped although it carries the marker. */
  lemma BlockedTitleDropped(t: string)
    requires t == "Behind the Scenes of Angry Birds - SNL"
    ensures HasBlockedString(t)
  {
    var p := "behind the scenes";
    assert t[..17] == "Behind the Scenes";
    LowerPrefix(t, p);
    assert Contains(Lower(t), p);
    assert BlockedStrings[1] == p;
  }

  /** Of the two uploads only the ordinary one survives, cleaned to the archive's title. */
  lemma FilterScenario(t1: string, t2: string)
    requires t1 == "Angry Birds - SNL" && t2 == "Behind the Scenes of Angry Birds - SNL"
    ensures FilteredVideos([Video("v1", Some(t1)), Video("v2", Some(t2))]) == [Video("v1", Some("Angry Birds"))]
  {
    MarkerFound(t1);
    NothingBlocked(t1);
    MarkedTitleCleaned(t1);
    BlockedTitleDropped(t2);
    var vs := [Video("v1", Some(t1)), Video("v2", Some(t2))];
    assert Kept(vs[0]) && !Kept(vs[1]);
    assert vs[1..] == [vs[1]] && vs[1..][1..] == [];
    assert Filter(Kept, vs[1..]) == [];
    assert Filter(Kept, vs) == [vs[0]];
  }
}
