/** The grouping behind the view-count boxplot (analysis/graph.py): the set of scene
    types, and for each type the view counts of its sketches. */
module Graph {
  import opened Wrappers
  import opened Seqs
  import opened Schema

  /** `set(sketch.scene_type for sketch in data if sketch.scene_type is not None)`. */
  function SceneTypes(data: seq<SketchRecord>): set<string> {
    set i | 0 <= i < |data| && data[i].sceneType.Some? :: data[i].sceneType.value
  }

  /** A sketch shows up in the boxplot: it has both a scene type and a view count. */
  predicate Plotted(s: SketchRecord) {
    s.sceneType.Some? && s.viewCount.Some?
  }

  /** The inner comprehension for one scene type: the non-null view counts of the sketches
      of that type, in data order. */
  function ViewCounts(data: seq<SketchRecord>, sceneType: string): seq<int> {
    if data == [] then []
    else
      (if data[0].sceneType == Some(sceneType) && data[0].viewCount.Some? then [data[0].viewCount.value] else [])
      + ViewCounts(data[1..], sceneType)
  }

  /** A scene type is in the set exactly when some sketch has it, and there are no more
      types than sketches. */
  lemma {:induction false} SceneTypesSpec(data: seq<SketchRecord>)
    ensures forall t :: t in SceneTypes(data) <==> exists s :: s in data && s.sceneType == Some(t)
    ensures |SceneTypes(data)| <= |data|
  {
    forall t | t in SceneTypes(data) ensures exists s :: s in data && s.sceneType == Some(t) {
      var i :| 0 <= i < |data| && data[i].sceneType.Some? && data[i].sceneType.value == t;
      assert data[i] in data;
    }
    forall t | exists s :: s in data && s.sceneType == Some(t) ensures t in SceneTypes(data) {
      var s :| s in data && s.sceneType == Some(t);
      var i :| 0 <= i < |data| && data[i] == s;
    }
    SceneTypesBound(data);
  }

  lemma {:induction false} SceneTypesBound(data: seq<SketchRecord>)
    ensures |SceneTypes(data)| <= |data|
  {
    if data != [] {
      var rest := data[1..];
      SceneTypesBound(rest);
      var head := if data[0].sceneType.Some? then {data[0].sceneType.value} else {};
      forall t | t in SceneTypes(data) ensures t in head + SceneTypes(rest) {
        var i :| 0 <= i < |data| && data[i].sceneType.Some? && data[i].sceneType.value == t;
        if i > 0 {
          assert rest[i - 1] == data[i];
        }
      }
      assert SceneTypes(data) <= head + SceneTypes(rest);
      SubsetCardinality(SceneTypes(data), head + SceneTypes(rest));
    }
  }

  lemma SubsetCardinality(a: set<string>, b: set<string>)
    requires a <= b
    ensures |a| <= |b|
  {
    assert b == a + (b - a);
  }

  /** The groups are built sketch by sketch: the group of a concatenation is the groups
      concatenated, and one sketch adds its view count to its own type's group and to no
      other. Together these say each group keeps the data order. */
  lemma {:induction false} ViewCountsAppend(a: seq<SketchRecord>, b: seq<SketchRecord>, sceneType: string)
    ensures ViewCounts(a + b, sceneType) == ViewCounts(a, sceneType) + ViewCounts(b, sceneType)
    ensures forall s: SketchRecord :: ViewCounts([s], sceneType)
              == if s.sceneType == Some(sceneType) && s.viewCount.Some? then [s.viewCount.value] else []
  {
    if a == [] {
      assert a + b == b;
    } else {
      assert (a + b)[1..] == a[1..] + b;
      ViewCountsAppend(a[1..], b, sceneType);
    }
    forall s: SketchRecord ensures ViewCounts([s], sceneType)
      == if s.sceneType == Some(sceneType) && s.viewCount.Some? then [s.viewCount.value] else []
    {
      assert [s][1..] == [];
    }
  }

  /** A view count is in the group of a type exactly when some sketch of that type has
      that count. */
  lemma {:induction false} ViewCountsMembers(data: seq<SketchRecord>, sceneType: string)
    ensures forall v :: v in ViewCounts(data, sceneType) <==>
              exists s :: s in data && s.sceneType == Some(sceneType) && s.viewCount == Some(v)
  {
    if data != [] {
      ViewCountsMembers(data[1..], sceneType);
      assert forall s :: s in data <==> s == data[0] || s in data[1..];
    }
  }

  /** A sketch lacking a scene type or a view count is in no group; a plotted sketch is
      in the group of its own type only. */
  lemma SketchGroups(s: SketchRecord)
    ensures !Plotted(s) ==> forall t :: ViewCounts([s], t) == []
    ensures Plotted(s) ==> ViewCounts([s], s.sceneType.value) == [s.viewCount.value]
    ensures forall t :: Plotted(s) && t != s.sceneType.value ==> ViewCounts([s], t) == []
  {
    assert [s][1..] == [];
  }

  /** The total size of the groups of the types in `order`. */
  function GroupSizes(data: seq<SketchRecord>, order: seq<string>): nat {
    if order == [] then 0 else |ViewCounts(data, order[0])| + GroupSizes(data, order[1..])
  }

  lemma {:induction false} GroupSizesAppend(a: seq<SketchRecord>, b: seq<SketchRecord>, order: seq<string>)
    ensures GroupSizes(a + b, order) == GroupSizes(a, order) + GroupSizes(b, order)
  {
    if order != [] {
      ViewCountsAppend(a, b, order[0]);
      GroupSizesAppend(a, b, order[1..]);
    }
  }

  /** Over distinct types, one sketch is counted once if it is plotted and its type is
      listed, and never otherwise. */
  lemma {:induction false} SketchCountedOnce(s: SketchRecord, order: seq<string>)
    requires NoDuplicates(order)
    ensures GroupSizes([s], order) == if Plotted(s) && s.sceneType.value in order then 1 else 0
  {
    if order != [] {
      SketchGroups(s);
      SketchCountedOnce(s, order[1..]);
      assert forall t :: t in order <==> t == order[0] || t in order[1..];
      if Plotted(s) && order[0] == s.sceneType.value {
        assert s.sceneType.value !in order[1..] by {
          forall j | 1 <= j < |order| ensures order[j] != order[0] { }
        }
      }
    }
  }

  /** The number of plotted sketches. */
  function PlottedCount(data: seq<SketchRecord>): nat {
    if data == [] then 0 else (if Plotted(data[0]) then 1 else 0) + PlottedCount(data[1..])
  }

  /** The groups partition the plotted sketches: over distinct types covering all scene
      types, the group sizes add up to the number of sketches having both fields, so each
      such sketch lands in exactly one group. */
  lemma {:induction false} GroupsPartition(data: seq<SketchRecord>, order: seq<string>)
    requires NoDuplicates(order)
    requires forall t | t in SceneTypes(data) :: t in order
    ensures GroupSizes(data, order) == PlottedCount(data)
  {
    if data == [] {
      EmptyGroups(order);
    } else {
      assert data == [data[0]] + data[1..];
      GroupSizesAppend([data[0]], data[1..], order);
      SketchCountedOnce(data[0], order);
      if data[0].sceneType.Some? {
        assert data[0].sceneType.value in SceneTypes(data);
      }
      forall t | t in SceneTypes(data[1..]) ensures t in order {
        var i :| 0 <= i < |data[1..]| && data[1..][i].sceneType.Some? && data[1..][i].sceneType.value == t;
        assert data[i + 1] == data[1..][i];
      }
      GroupsPartition(data[1..], order);
    }
  }

  lemma {:induction false} EmptyGroups(order: seq<string>)
    ensures GroupSizes([], order) == 0
  {
    if order != [] {
      EmptyGroups(order[1..]);
    }
  }

  /** The groups of the boxplot, one per scene type, in `order`: the iteration order of
      the set `scene_types`, which Python does not fix. */
  function BoxplotData(data: seq<SketchRecord>, order: seq<string>): (r: seq<seq<int>>)
    requires NoDuplicates(order)
    requires forall t :: t in order <==> t in SceneTypes(data)
  {
    seq(|order|, k requires 0 <= k < |order| => ViewCounts(data, order[k]))
  }

  /** There are as many groups as distinct scene types, the k-th group belongs to the
      k-th listed type, and together the groups hold every plotted sketch exactly once. */
  lemma BoxplotDataSpec(data: seq<SketchRecord>, order: seq<string>)
    requires NoDuplicates(order)
    requires forall t :: t in order <==> t in SceneTypes(data)
    ensures |BoxplotData(data, order)| == |SceneTypes(data)|
    ensures forall k :: 0 <= k < |order| ==>
              (&& order[k] in SceneTypes(data)
               && forall v :: v in BoxplotData(data, order)[k] <==>
                    exists s :: s in data && s.sceneType == Some(order[k]) && s.viewCount == Some(v))
    ensures GroupSizes(data, order) == PlottedCount(data)
  {
    DistinctCardinality(order);
    assert (set x | x in order) == SceneTypes(data);
    forall k | 0 <= k < |order| ensures forall v :: v in BoxplotData(data, order)[k] <==>
                   exists s :: s in data && s.sceneType == Some(order[k]) && s.viewCount == Some(v)
    {
      ViewCountsMembers(data, order[k]);
    }
    GroupsPartition(data, order);
  }
}
