/** The batch story summary, second half (internal/store/postgres.go): the scenes leave the map in
    no particular order, are finished, sorted and grouped into stories. */
module BatchSummary {
  import opened StoryOrder
  import opened StorySummary
  import opened TaskOutcome
  import opened Sorting

  // ---------------------------------------------------------------- finishing a scene

  predicate HasStatus(tasks: seq<TaskSummary>, status: TaskStatus)
  {
    exists i :: 0 <= i < |tasks| && tasks[i].status == status
  }

  predicate HasFailed(tasks: seq<TaskSummary>)
  {
    HasStatus(tasks, TaskOutcome.Failed) || HasStatus(tasks, EnqueueFailed)
  }

  /** The status of a scene: the first of these that applies. */
  function StatusOf(tasks: seq<TaskSummary>, assets: seq<AssetSummary>): SceneStatus
  {
    if tasks == [] then SceneEmpty
    else if exists i :: 0 <= i < |tasks| && tasks[i].retrying then SceneRetrying
    else if HasStatus(tasks, Running) then SceneRunning
    else if HasStatus(tasks, Queued) then SceneQueued
    else if HasStatus(tasks, PartiallyCompleted) || (HasStatus(tasks, Completed) && HasFailed(tasks)) then ScenePartial
    else if HasFailed(tasks) then SceneFailed
    else if assets != [] then SceneCompleted
    else SceneEmpty
  }

  /** deriveBatchStorySceneStatus. */
  method DeriveStatus(scene: Scene) returns (status: SceneStatus)
    ensures status == StatusOf(scene.tasks, scene.assets)
  {
    if scene.tasks == [] {
      return SceneEmpty;
    }
    var anyRetrying, anyRunning, anyQueued, anyPartial := false, false, false, false;
    var allFailed, allCompleted, hasCompleted, hasFailed := true, true, false, false;
    for n := 0 to |scene.tasks|
      invariant anyRetrying <==> exists i :: 0 <= i < n && scene.tasks[i].retrying
      invariant anyRunning <==> HasStatus(scene.tasks[..n], Running)
      invariant anyQueued <==> HasStatus(scene.tasks[..n], Queued)
      invariant anyPartial <==> HasStatus(scene.tasks[..n], PartiallyCompleted)
      invariant hasCompleted <==> HasStatus(scene.tasks[..n], Completed)
      invariant hasFailed <==> HasFailed(scene.tasks[..n])
      invariant allFailed <==> !anyRunning && !anyQueued && !anyPartial && !hasCompleted
      invariant allCompleted <==> !anyRunning && !anyQueued && !anyPartial && !hasFailed
    {
      var task := scene.tasks[n];
      StatusNext(scene.tasks, n);
      if task.retrying {
        anyRetrying := true;
      }
      match task.status {
        case Running => anyRunning, allFailed, allCompleted := true, false, false;
        case Queued => anyQueued, allFailed, allCompleted := true, false, false;
        case PartiallyCompleted => anyPartial, allFailed, allCompleted := true, false, false;
        case Failed => hasFailed, allCompleted := true, false;
        case EnqueueFailed => hasFailed, allCompleted := true, false;
        case Completed => hasCompleted, allFailed := true, false;
      }
    }
    assert scene.tasks[..|scene.tasks|] == scene.tasks;
    SomeStatus(scene.tasks);
    status :=
      if anyRetrying then SceneRetrying
      else if anyRunning then SceneRunning
      else if anyQueued then SceneQueued
      else if anyPartial || (hasCompleted && hasFailed) then ScenePartial
      else if allFailed then SceneFailed
      else if allCompleted && scene.assets != [] then SceneCompleted
      else SceneEmpty;
  }

  lemma StatusNext(tasks: seq<TaskSummary>, n: nat)
    requires n < |tasks|
    ensures forall s :: HasStatus(tasks[..n + 1], s) <==> HasStatus(tasks[..n], s) || tasks[n].status == s
  {
    forall s
      ensures HasStatus(tasks[..n + 1], s) <==> HasStatus(tasks[..n], s) || tasks[n].status == s
    {
      assert tasks[..n + 1][n] == tasks[n];
      assert forall i :: 0 <= i < n ==> tasks[..n + 1][i] == tasks[..n][i];
    }
  }

  lemma SomeStatus(tasks: seq<TaskSummary>)
    requires tasks != []
    ensures exists s :: HasStatus(tasks, s)
  {
    assert HasStatus(tasks, tasks[0].status);
  }

  /** What addBatchStorySummarySceneCounts adds for a task. */
  function OutcomeCount(t: TaskSummary): Counts
  {
    If(t.status == Completed, Succeeded) + If(t.status == TaskOutcome.Failed || t.status == EnqueueFailed, FailedTasks)
  }

  /** What it adds to a scene's counters. */
  function OutcomeCounts(tasks: seq<TaskSummary>): Counts
  {
    if tasks == [] then multiset{} else OutcomeCounts(tasks[..|tasks| - 1]) + OutcomeCount(tasks[|tasks| - 1])
  }

  /** A scene of the response, as the rows determine it. */
  ghost predicate Final(rows: seq<Row>, scene: Scene)
  {
    && scene.tasks == TasksOf(rows, scene.place.story, scene.place.scene)
    && scene.assets == AssetsOf(rows, scene.place.story, scene.place.scene)
    && OrderOf(rows, scene.place)
    && IsLatest(TaskStamps(scene.tasks), scene.latestTask)
    && IsLatest(SelectedStamps(scene.assets), scene.primaryAsset)
    && scene.counts == CountsOf(scene.tasks, scene.assets) + OutcomeCounts(scene.tasks)
    && scene.status == StatusOf(scene.tasks, scene.assets)
  }

  ghost predicate AllFinal(rows: seq<Row>, scenes: seq<Scene>)
  {
    forall i {:trigger Final(rows, scenes[i])} :: 0 <= i < |scenes| ==> Final(rows, scenes[i])
  }

  /** The rows leave no choice. */
  lemma FinalIsUnique(rows: seq<Row>, a: Scene, b: Scene)
    requires Final(rows, a) && Final(rows, b)
    requires a.place.story == b.place.story && a.place.scene == b.place.scene
    ensures a == b
  {
    var i :| FirstRow(rows, a.place.story, a.place.scene, i) && rows[i].place == a.place;
    var j :| FirstRow(rows, b.place.story, b.place.scene, j) && rows[j].place == b.place;
    assert i == j;
    LatestIsUnique(TaskStamps(a.tasks), a.latestTask, b.latestTask);
    LatestIsUnique(SelectedStamps(a.assets), a.primaryAsset, b.primaryAsset);
  }

  method FinishScene(ghost rows: seq<Row>, scene: Scene) returns (r: Scene)
    requires Describes(rows, scene)
    ensures Final(rows, r) && r.place == scene.place
  {
    var status := DeriveStatus(scene);
    r := scene.(status := status, counts := scene.counts + OutcomeCounts(scene.tasks));
  }

  // ---------------------------------------------------------------- the sorted list

  predicate SamePlace(a: Place, b: Place)
  {
    a.story == b.story && a.scene == b.scene
  }

  predicate HasPlace(places: seq<Place>, p: Place)
  {
    exists j :: 0 <= j < |places| && SamePlace(places[j], p)
  }

  predicate Covers(rows: seq<Row>, places: seq<Place>)
  {
    forall i {:trigger HasPlace(places, rows[i].place)} :: 0 <= i < |rows| && Eligible(rows[i]) ==> HasPlace(places, rows[i].place)
  }

  predicate NoRepeats(places: seq<Place>)
  {
    forall i, j :: 0 <= i < j < |places| ==> !SamePlace(places[i], places[j])
  }

  function Places(scenes: seq<Scene>): seq<Place>
  {
    seq(|scenes|, i requires 0 <= i < |scenes| => scenes[i].place)
  }

  const SceneLess := (a: Scene, b: Scene) => Precedes(a.place, b.place)

  /** The scenes of the response: one final scene per place that comes up, in order. */
  ghost predicate SceneList(rows: seq<Row>, scenes: seq<Scene>)
  {
    && Ascending(SceneLess, scenes)
    && Covers(rows, Places(scenes))
    && AllFinal(rows, scenes)
  }

  lemma SceneLessIsStrict()
    ensures Asymmetric(SceneLess) && Transitive(SceneLess)
  {
    forall a, b | SceneLess(a, b)
      ensures !SceneLess(b, a)
    {
      PrecedesIsStrict(a.place, b.place);
    }
    forall a, b, c | SceneLess(a, b) && SceneLess(b, c)
      ensures SceneLess(a, c)
    {
      PrecedesIsTransitive(a.place, b.place, c.place);
    }
  }

  lemma SceneListCovers(rows: seq<Row>, a: seq<Scene>, b: seq<Scene>, x: Scene)
    requires SceneList(rows, a) && SceneList(rows, b) && x in a
    ensures x in b
  {
    var n :| 0 <= n < |a| && a[n] == x;
    assert Final(rows, a[n]);
    var i :| FirstRow(rows, x.place.story, x.place.scene, i) && rows[i].place == x.place;
    assert Eligible(rows[i]) && HasPlace(Places(b), rows[i].place);
    var j :| 0 <= j < |Places(b)| && SamePlace(Places(b)[j], rows[i].place);
    assert Final(rows, b[j]);
    FinalIsUnique(rows, x, b[j]);
  }

  /** Whatever order the map is iterated in, the scene list comes out the same. */
  lemma SceneListIsUnique(rows: seq<Row>, a: seq<Scene>, b: seq<Scene>)
    requires SceneList(rows, a) && SceneList(rows, b)
    ensures a == b
  {
    forall x
      ensures x in a <==> x in b
    {
      if x in a {
        SceneListCovers(rows, a, b, x);
      }
      if x in b {
        SceneListCovers(rows, b, a, x);
      }
    }
    SceneLessIsStrict();
    AscendingIsUnique(SceneLess, a, b);
  }

  /** The places taken out of the map so far, in whatever order the map yields them. */
  ghost predicate Collected(sceneByKey: map<string, Scene>, remaining: set<string>, places: seq<Place>)
  {
    && (forall i :: 0 <= i < |places| ==> Key(places[i].story, places[i].scene) !in remaining)
    && NoRepeats(places)
    && (forall k :: k in sceneByKey && k !in remaining ==> HasPlace(places, sceneByKey[k].place))
  }

  lemma HasPlaceNext(places: seq<Place>, last: Place, p: Place)
    ensures HasPlace(places + [last], p) <==> HasPlace(places, p) || SamePlace(last, p)
  {
    var more := places + [last];
    assert more[|places|] == last && forall i :: 0 <= i < |places| ==> more[i] == places[i];
    if HasPlace(places, p) {
      var j :| 0 <= j < |places| && SamePlace(places[j], p);
      assert SamePlace(more[j], p);
    }
  }

  lemma CollectedNext(sceneByKey: map<string, Scene>, remaining: set<string>, places: seq<Place>, key: string, p: Place)
    requires Collected(sceneByKey, remaining, places)
    requires key in remaining && key in sceneByKey && p == sceneByKey[key].place && key == Key(p.story, p.scene)
    ensures Collected(sceneByKey, remaining - {key}, places + [p])
  {
    forall i | 0 <= i < |places|
      ensures !SamePlace(places[i], p)
    {
      assert Key(places[i].story, places[i].scene) != key;
    }
    forall k | k in sceneByKey && k !in remaining - {key}
      ensures HasPlace(places + [p], sceneByKey[k].place)
    {
      HasPlaceNext(places, p, sceneByKey[k].place);
    }
  }

  method CollectScenes(ghost rows: seq<Row>, sceneByKey: map<string, Scene>) returns (list: seq<Scene>)
    requires Indexes(rows, sceneByKey)
    ensures AllFinal(rows, list)
    ensures Collected(sceneByKey, {}, Places(list))
  {
    list := [];
    var remaining := sceneByKey.Keys;
    while remaining != {}
      invariant remaining <= sceneByKey.Keys
      invariant AllFinal(rows, list)
      invariant Collected(sceneByKey, remaining, Places(list))
    {
      var key :| key in remaining;
      EntryDescribes(rows, sceneByKey, key);
      var scene := FinishScene(rows, sceneByKey[key]);
      CollectedNext(sceneByKey, remaining, Places(list), key, scene.place);
      AllFinalNext(rows, list, scene);
      list := list + [scene];
      remaining := remaining - {key};
    }
  }

  lemma EntryDescribes(rows: seq<Row>, sceneByKey: map<string, Scene>, key: string)
    requires Indexes(rows, sceneByKey) && key in sceneByKey
    ensures Describes(rows, sceneByKey[key])
    ensures key == Key(sceneByKey[key].place.story, sceneByKey[key].place.scene)
  {
    assert Entry(rows, key, sceneByKey[key]);
  }

  lemma AllFinalNext(rows: seq<Row>, list: seq<Scene>, scene: Scene)
    requires AllFinal(rows, list) && Final(rows, scene)
    ensures AllFinal(rows, list + [scene]) && Places(list + [scene]) == Places(list) + [scene.place]
  {
    var more := list + [scene];
    forall i | 0 <= i < |more|
      ensures Final(rows, more[i])
    {
      assert i < |list| ==> more[i] == list[i] && Final(rows, list[i]);
    }
  }

  lemma CollectedCovers(rows: seq<Row>, sceneByKey: map<string, Scene>, places: seq<Place>)
    requires Indexes(rows, sceneByKey) && Collected(sceneByKey, {}, places)
    requires forall i :: 0 <= i < |rows| ==> RowWellFormed(rows[i])
    ensures Covers(rows, places)
  {
    forall i | 0 <= i < |rows| && Eligible(rows[i])
      ensures HasPlace(places, rows[i].place)
    {
      assert HasScene(sceneByKey, rows[i]);
      var p, k := rows[i].place, Key(rows[i].place.story, rows[i].place.scene);
      assert Entry(rows, k, sceneByKey[k]) && RowWellFormed(rows[i]);
      KeyIsInjective(p.story, p.scene, sceneByKey[k].place.story, sceneByKey[k].place.scene);
    }
  }

  // ---------------------------------------------------------------- stories

  datatype Story = Story(id: string, sceneCount: nat, selectedSceneCount: nat, scenes: seq<string>)

  /** A story holds the scenes with its id, in their order. */
  function StoryOf(scenes: seq<Scene>, id: string): Story
  {
    if scenes == [] then Story(id, 0, 0, [])
    else
      var story, last := StoryOf(scenes[..|scenes| - 1], id), scenes[|scenes| - 1];
      if last.place.story == id then AddScene(story, last) else story
  }

  function AddScene(story: Story, scene: Scene): Story
  {
    story.(
      sceneCount := story.sceneCount + 1,
      selectedSceneCount := story.selectedSceneCount + if scene.primaryAsset != "" then 1 else 0,
      scenes := story.scenes + [scene.place.scene])
  }

  predicate HasStory(scenes: seq<Scene>, id: string)
  {
    exists i :: 0 <= i < |scenes| && scenes[i].place.story == id
  }

  const StringLess := (a: string, b: string) => Before(a, b)

  function Ids(stories: seq<Story>): seq<string>
  {
    seq(|stories|, i requires 0 <= i < |stories| => stories[i].id)
  }

  /** One story per story id of the scenes, sorted by id. */
  ghost predicate StoryList(scenes: seq<Scene>, stories: seq<Story>)
  {
    && Ascending(StringLess, Ids(stories))
    && (forall id :: id in Ids(stories) <==> HasStory(scenes, id))
    && (forall i :: 0 <= i < |stories| ==> stories[i] == StoryOf(scenes, stories[i].id))
  }

  lemma StringLessIsStrict()
    ensures Asymmetric(StringLess) && Transitive(StringLess)
  {
    forall a, b | StringLess(a, b)
      ensures !StringLess(b, a)
    {
      BeforeIsStrict(a, b);
    }
    forall a, b, c | StringLess(a, b) && StringLess(b, c)
      ensures StringLess(a, c)
    {
      BeforeIsTransitive(a, b, c);
    }
  }

  lemma StoryListIsUnique(scenes: seq<Scene>, a: seq<Story>, b: seq<Story>)
    requires StoryList(scenes, a) && StoryList(scenes, b)
    ensures a == b
  {
    StringLessIsStrict();
    AscendingIsUnique(StringLess, Ids(a), Ids(b));
    assert |a| == |Ids(a)| == |Ids(b)| == |b|;
    forall i | 0 <= i < |a|
      ensures a[i] == b[i]
    {
      assert a[i].id == Ids(a)[i] == Ids(b)[i] == b[i].id;
    }
  }

  /** Between the loops of buildBatchStorySummaryStories: one entry per id seen, each once. */
  ghost predicate Grouped(scenes: seq<Scene>, storyMap: map<string, Story>, order: seq<string>)
  {
    && (forall id :: id in storyMap <==> HasStory(scenes, id))
    && (forall id :: id in storyMap ==> storyMap[id] == StoryOf(scenes, id))
    && (forall id :: id in order <==> id in storyMap)
    && (forall i, j :: 0 <= i < j < |order| ==> order[i] != order[j])
  }

  lemma HasStoryNext(scenes: seq<Scene>, scene: Scene, id: string)
    ensures HasStory(scenes + [scene], id) <==> HasStory(scenes, id) || scene.place.story == id
    ensures !HasStory(scenes, id) ==> StoryOf(scenes, id) == Story(id, 0, 0, [])
    ensures StoryOf(scenes + [scene], id) ==
            if scene.place.story == id then AddScene(StoryOf(scenes, id), scene) else StoryOf(scenes, id)
  {
    var more := scenes + [scene];
    assert more[..|scenes|] == scenes && more[|scenes|] == scene;
    assert forall i :: 0 <= i < |scenes| ==> more[i] == scenes[i];
    if HasStory(scenes, id) {
      var i :| 0 <= i < |scenes| && scenes[i].place.story == id;
      assert more[i].place.story == id;
    } else {
      NoStory(scenes, id);
    }
  }

  lemma {:induction false} NoStory(scenes: seq<Scene>, id: string)
    requires !HasStory(scenes, id)
    ensures StoryOf(scenes, id) == Story(id, 0, 0, [])
  {
    if scenes != [] {
      var before := scenes[..|scenes| - 1];
      assert forall i :: 0 <= i < |before| ==> before[i] == scenes[i];
      NoStory(before, id);
    }
  }

  lemma GroupedNext(scenes: seq<Scene>, scene: Scene, storyMap: map<string, Story>, order: seq<string>)
    requires Grouped(scenes, storyMap, order)
    ensures var id := scene.place.story;
            var story := if id in storyMap then storyMap[id] else Story(id, 0, 0, []);
            Grouped(scenes + [scene], storyMap[id := AddScene(story, scene)], if id in storyMap then order else order + [id])
  {
    forall id {
      HasStoryNext(scenes, scene, id);
    }
  }

  /** A list with the story of each id of a sorted list of all ids is the list of stories. */
  lemma StoriesOfAll(scenes: seq<Scene>, ids: seq<string>, stories: seq<Story>)
    requires Ascending(StringLess, ids) && forall id :: id in ids <==> HasStory(scenes, id)
    requires |stories| == |ids| && forall i :: 0 <= i < |ids| ==> stories[i] == StoryOf(scenes, ids[i])
    ensures StoryList(scenes, stories)
  {
    forall i | 0 <= i < |ids|
      ensures stories[i].id == ids[i]
    {
      StoryIdOf(scenes, ids[i]);
    }
    assert Ids(stories) == ids;
  }

  /** buildBatchStorySummaryStories. */
  method BuildStories(scenes: seq<Scene>) returns (stories: seq<Story>)
    ensures StoryList(scenes, stories)
  {
    var storyMap, seen := GroupScenes(scenes);
    SortIds(seen);
    var order := Sort(StringLess, seen);
    stories := ListStories(scenes, storyMap, order);
    StoriesOfAll(scenes, order, stories);
  }

  method ListStories(ghost scenes: seq<Scene>, storyMap: map<string, Story>, order: seq<string>) returns (stories: seq<Story>)
    requires forall id :: id in order ==> id in storyMap && storyMap[id] == StoryOf(scenes, id)
    ensures |stories| == |order| && forall i :: 0 <= i < |order| ==> stories[i] == StoryOf(scenes, order[i])
  {
    stories := [];
    for n := 0 to |order|
      invariant |stories| == n && forall i :: 0 <= i < n ==> stories[i] == StoryOf(scenes, order[i])
    {
      assert order[n] in order;
      stories := stories + [storyMap[order[n]]];
    }
  }

  method GroupScenes(scenes: seq<Scene>) returns (storyMap: map<string, Story>, order: seq<string>)
    ensures Grouped(scenes, storyMap, order)
  {
    storyMap, order := map[], [];
    for n := 0 to |scenes|
      invariant Grouped(scenes[..n], storyMap, order)
    {
      var id := scenes[n].place.story;
      assert scenes[..n + 1] == scenes[..n] + [scenes[n]];
      GroupedNext(scenes[..n], scenes[n], storyMap, order);
      var story := if id in storyMap then storyMap[id] else Story(id, 0, 0, []);
      if id !in storyMap {
        order := order + [id];
      }
      storyMap := storyMap[id := AddScene(story, scenes[n])];
    }
    assert scenes[..|scenes|] == scenes;
  }

  lemma {:induction false} StoryIdOf(scenes: seq<Scene>, id: string)
    ensures StoryOf(scenes, id).id == id
  {
    if scenes != [] {
      StoryIdOf(scenes[..|scenes| - 1], id);
    }
  }

  lemma SortIds(order: seq<string>)
    requires forall i, j :: 0 <= i < j < |order| ==> order[i] != order[j]
    ensures Ascending(StringLess, Sort(StringLess, order))
    ensures forall id :: id in Sort(StringLess, order) <==> id in order
  {
    forall i, j | 0 <= i < j < |order|
      ensures StringLess(order[i], order[j]) || StringLess(order[j], order[i])
    {
      BeforeIsTotal(order[i], order[j]);
    }
    StringLessIsStrict();
    SortAscends(StringLess, order);
    SameElements(Sort(StringLess, order), order);
  }

  // ---------------------------------------------------------------- the response

  datatype Response = Response(scenes: seq<Scene>, stories: seq<Story>, counts: Counts, sceneCount: nat,
                               sceneWithSelectedCount: nat, sceneMissingSelectedCount: nat, storyCount: nat)

  /** How many scenes have a selected asset. */
  function SelectedCount(scenes: seq<Scene>): nat
  {
    if scenes == [] then 0
    else SelectedCount(scenes[..|scenes| - 1]) + if scenes[|scenes| - 1].primaryAsset != "" then 1 else 0
  }

  /** What the response says about the rows. */
  ghost predicate Summary(rows: seq<Row>, r: Response)
  {
    && SceneList(rows, r.scenes)
    && StoryList(r.scenes, r.stories)
    && r.counts == TotalsOf(rows)
    && r.sceneCount == |r.scenes| && r.storyCount == |r.stories|
    && r.sceneWithSelectedCount == SelectedCount(r.scenes)
    && r.sceneWithSelectedCount + r.sceneMissingSelectedCount == r.sceneCount
  }

  /** The response is a function of the rows: it does not depend on the order in which Go
      iterates over its maps. */
  lemma SummaryIsUnique(rows: seq<Row>, a: Response, b: Response)
    requires Summary(rows, a) && Summary(rows, b)
    ensures a == b
  {
    SceneListIsUnique(rows, a.scenes, b.scenes);
    StoryListIsUnique(a.scenes, a.stories, b.stories);
  }

  lemma SortedSceneList(rows: seq<Row>, list: seq<Scene>)
    requires AllFinal(rows, list) && NoRepeats(Places(list)) && Covers(rows, Places(list))
    ensures SceneList(rows, Sort(SceneLess, list))
  {
    var sorted := Sort(SceneLess, list);
    SameElements(sorted, list);
    ScenesAscend(list);
    SortedCovers(rows, list, sorted);
    forall i | 0 <= i < |sorted|
      ensures Final(rows, sorted[i])
    {
      assert sorted[i] in list;
      FinalOf(rows, list, sorted[i]);
    }
  }

  lemma FinalOf(rows: seq<Row>, list: seq<Scene>, x: Scene)
    requires x in list && AllFinal(rows, list)
    ensures Final(rows, x)
  {
    var i :| 0 <= i < |list| && list[i] == x;
    assert Final(rows, list[i]);
  }

  lemma SortedCovers(rows: seq<Row>, list: seq<Scene>, sorted: seq<Scene>)
    requires (forall x :: x in sorted <==> x in list) && Covers(rows, Places(list))
    ensures Covers(rows, Places(sorted))
  {
    forall i | 0 <= i < |rows| && Eligible(rows[i])
      ensures HasPlace(Places(sorted), rows[i].place)
    {
      assert HasPlace(Places(list), rows[i].place);
      SortedHasPlace(list, sorted, rows[i].place);
    }
  }

  lemma SortedHasPlace(list: seq<Scene>, sorted: seq<Scene>, p: Place)
    requires (forall x :: x in sorted <==> x in list) && HasPlace(Places(list), p)
    ensures HasPlace(Places(sorted), p)
  {
    var j :| 0 <= j < |Places(list)| && SamePlace(Places(list)[j], p);
    assert list[j] in sorted;
    var k :| 0 <= k < |sorted| && sorted[k] == list[j];
    assert SamePlace(Places(sorted)[k], p);
  }

  lemma ScenesAscend(list: seq<Scene>)
    requires NoRepeats(Places(list))
    ensures Ascending(SceneLess, Sort(SceneLess, list))
  {
    forall i, j | 0 <= i < j < |list|
      ensures SceneLess(list[i], list[j]) || SceneLess(list[j], list[i])
    {
      assert !SamePlace(Places(list)[i], Places(list)[j]);
      PrecedesIsTotal(list[i].place, list[j].place);
    }
    SceneLessIsStrict();
    SortAscends(SceneLess, list);
  }

  /** GetBatchStorySummary after the query. */
  method Summarize(rows: seq<Row>) returns (response: Response)
    requires WellFormed(rows)
    ensures Summary(rows, response)
  {
    var sceneByKey, counts := FoldRows(rows);
    var list := CollectScenes(rows, sceneByKey);
    CollectedCovers(rows, sceneByKey, Places(list));
    SortedSceneList(rows, list);
    var scenes := Sort(SceneLess, list);
    var selected, missing := CountSelected(scenes);
    var stories := BuildStories(scenes);
    response := Response(scenes, stories, counts, |scenes|, selected, missing, |stories|);
  }

  /** The selected and missing counters of addBatchStorySummarySceneCounts. */
  method CountSelected(scenes: seq<Scene>) returns (selected: nat, missing: nat)
    ensures selected == SelectedCount(scenes) && selected + missing == |scenes|
  {
    selected, missing := 0, 0;
    for n := 0 to |scenes|
      invariant selected == SelectedCount(scenes[..n]) && selected + missing == n
    {
      assert scenes[..n + 1][..n] == scenes[..n];
      if scenes[n].primaryAsset != "" {
        selected := selected + 1;
      } else {
        missing := missing + 1;
      }
    }
    assert scenes[..|scenes|] == scenes;
  }

  // ---------------------------------------------------------------- the totals are sums

  /** What the tasks and assets of one scene add up to. */
  ghost function SceneTotals(rows: seq<Row>, p: Place): Counts
  {
    TaskTotals(TasksOf(rows, p.story, p.scene)) + AssetTotals(AssetsOf(rows, p.story, p.scene))
  }

  ghost function Sum(f: Place -> Counts, places: seq<Place>): Counts
  {
    if places == [] then multiset{} else Sum(f, places[..|places| - 1]) + f(places[|places| - 1])
  }

  ghost function SumOver(rows: seq<Row>, places: seq<Place>): Counts
  {
    Sum(p => SceneTotals(rows, p), places)
  }

  /** If `f` grows at one place, so does its sum, once. */
  lemma {:induction false} SumGrows(f: Place -> Counts, g: Place -> Counts, places: seq<Place>, q: Place, delta: Counts)
    requires NoRepeats(places) && forall p :: g(p) == if SamePlace(p, q) then f(p) + delta else f(p)
    ensures Sum(g, places) == Sum(f, places) + if HasPlace(places, q) then delta else multiset{}
    decreases |places|
  {
    if places != [] {
      var before, last := places[..|places| - 1], places[|places| - 1];
      SumGrows(f, g, before, q, delta);
      assert before + [last] == places;
      HasPlaceNext(before, last, q);
      if SamePlace(last, q) {
        assert forall i :: 0 <= i < |before| ==> !SamePlace(places[i], last);
        assert !HasPlace(before, q);
      }
    }
  }

  lemma TaskTotalsNext(rows: seq<Row>, row: Row, p: Place)
    ensures TaskTotals(TasksOf(rows + [row], p.story, p.scene)) ==
            TaskTotals(TasksOf(rows, p.story, p.scene))
            + if Of(row, p.story, p.scene) && !Seen(rows, row.task.id) then TaskCount(row.task) else multiset{}
  {
    var tasks := TasksOf(rows, p.story, p.scene);
    assert (rows + [row])[..|rows|] == rows;
    assert (tasks + [row.task])[..|tasks|] == tasks && tasks + [] == tasks;
  }

  lemma AssetTotalsNext(rows: seq<Row>, row: Row, p: Place)
    ensures AssetTotals(AssetsOf(rows + [row], p.story, p.scene)) ==
            AssetTotals(AssetsOf(rows, p.story, p.scene))
            + if Of(row, p.story, p.scene) && row.asset.Some? then AssetCount(AssetOf(row)) else multiset{}
  {
    var assets := AssetsOf(rows, p.story, p.scene);
    assert (rows + [row])[..|rows|] == rows;
    assert assets + [] == assets;
    if row.asset.Some? {
      assert (assets + [AssetOf(row)])[..|assets|] == assets;
    }
  }

  lemma SceneTotalsNext(rows: seq<Row>, row: Row, p: Place)
    ensures SceneTotals(rows + [row], p) ==
            if Of(row, p.story, p.scene) then SceneTotals(rows, p) + RowCounts(rows, row) else SceneTotals(rows, p)
  {
    TaskTotalsNext(rows, row, p);
    AssetTotalsNext(rows, row, p);
    AddPairs(TaskTotals(TasksOf(rows, p.story, p.scene)), if Seen(rows, row.task.id) then multiset{} else TaskCount(row.task),
             AssetTotals(AssetsOf(rows, p.story, p.scene)), if row.asset.Some? then AssetCount(AssetOf(row)) else multiset{});
  }

  lemma AddPairs(a: Counts, b: Counts, c: Counts, d: Counts)
    ensures (a + b) + (c + d) == (a + c) + (b + d)
  {
  }

  lemma SumOverNext(rows: seq<Row>, row: Row, places: seq<Place>)
    requires NoRepeats(places) && (Eligible(row) ==> HasPlace(places, row.place))
    ensures SumOver(rows + [row], places) == SumOver(rows, places) + RowCounts(rows, row)
  {
    var f, g := p => SceneTotals(rows, p), p => SceneTotals(rows + [row], p);
    var delta := if Eligible(row) then RowCounts(rows, row) else multiset{};
    forall p
      ensures g(p) == if SamePlace(p, row.place) then f(p) + delta else f(p)
    {
      SceneTotalsNext(rows, row, p);
    }
    SumGrows(f, g, places, row.place, delta);
  }

  lemma {:induction false} SumOfNothing(f: Place -> Counts, places: seq<Place>)
    requires forall p :: f(p) == multiset{}
    ensures Sum(f, places) == multiset{}
  {
    if places != [] {
      SumOfNothing(f, places[..|places| - 1]);
    }
  }

  /** The response counters are the sums over its scenes: every task and every asset is counted
      in exactly one scene. */
  lemma {:induction false} TotalsAreSums(rows: seq<Row>, places: seq<Place>)
    requires NoRepeats(places) && Covers(rows, places)
    ensures TotalsOf(rows) == SumOver(rows, places)
    decreases |rows|
  {
    if rows == [] {
      SumOfNothing(p => SceneTotals([], p), places);
    } else {
      var before, row := rows[..|rows| - 1], rows[|rows| - 1];
      assert before + [row] == rows && forall i :: 0 <= i < |before| ==> before[i] == rows[i];
      forall i | 0 <= i < |before| && Eligible(before[i])
        ensures HasPlace(places, before[i].place)
      {
        assert HasPlace(places, rows[i].place);
      }
      TotalsAreSums(before, places);
      assert Eligible(row) ==> HasPlace(places, rows[|before|].place);
      SumOverNext(before, row, places);
    }
  }

  // ---------------------------------------------------------------- the stories add up

  function StorySceneSum(scenes: seq<Scene>, ids: seq<string>): nat
  {
    if ids == [] then 0 else StorySceneSum(scenes, ids[..|ids| - 1]) + StoryOf(scenes, ids[|ids| - 1]).sceneCount
  }

  function StorySelectedSum(scenes: seq<Scene>, ids: seq<string>): nat
  {
    if ids == [] then 0 else StorySelectedSum(scenes, ids[..|ids| - 1]) + StoryOf(scenes, ids[|ids| - 1]).selectedSceneCount
  }

  lemma {:induction false} StorySumsNext(scenes: seq<Scene>, scene: Scene, ids: seq<string>)
    requires forall i, j :: 0 <= i < j < |ids| ==> ids[i] != ids[j]
    ensures var n := if scene.place.story in ids then 1 else 0;
            && StorySceneSum(scenes + [scene], ids) == StorySceneSum(scenes, ids) + n
            && StorySelectedSum(scenes + [scene], ids) == StorySelectedSum(scenes, ids) + if scene.primaryAsset != "" then n else 0
    decreases |ids|
  {
    if ids != [] {
      StorySumsNext(scenes, scene, ids[..|ids| - 1]);
      HasStoryNext(scenes, scene, ids[|ids| - 1]);
      assert ids == ids[..|ids| - 1] + [ids[|ids| - 1]];
    }
  }

  lemma {:induction false} StorySumsOfNothing(ids: seq<string>)
    ensures StorySceneSum([], ids) == 0 && StorySelectedSum([], ids) == 0
  {
    if ids != [] {
      StorySumsOfNothing(ids[..|ids| - 1]);
    }
  }

  /** Every scene is counted in exactly one story. */
  lemma {:induction false} StoriesAddUp(scenes: seq<Scene>, ids: seq<string>)
    requires forall i, j :: 0 <= i < j < |ids| ==> ids[i] != ids[j]
    requires forall i :: 0 <= i < |scenes| ==> scenes[i].place.story in ids
    ensures StorySceneSum(scenes, ids) == |scenes| && StorySelectedSum(scenes, ids) == SelectedCount(scenes)
    decreases |scenes|
  {
    if scenes == [] {
      StorySumsOfNothing(ids);
    } else {
      var before := scenes[..|scenes| - 1];
      StoriesAddUp(before, ids);
      StorySumsNext(before, scenes[|scenes| - 1], ids);
      assert before + [scenes[|scenes| - 1]] == scenes;
    }
  }

  lemma StoryIdsAreDistinct(scenes: seq<Scene>, stories: seq<Story>)
    requires StoryList(scenes, stories)
    ensures forall i, j :: 0 <= i < j < |Ids(stories)| ==> Ids(stories)[i] != Ids(stories)[j]
    ensures forall i :: 0 <= i < |scenes| ==> scenes[i].place.story in Ids(stories)
  {
    forall i, j | 0 <= i < j < |Ids(stories)|
      ensures Ids(stories)[i] != Ids(stories)[j]
    {
      assert StringLess(Ids(stories)[i], Ids(stories)[j]);
      BeforeIsStrict(Ids(stories)[i], Ids(stories)[j]);
    }
    forall i | 0 <= i < |scenes|
      ensures scenes[i].place.story in Ids(stories)
    {
      assert HasStory(scenes, scenes[i].place.story);
    }
  }

  lemma ScenesDiffer(rows: seq<Row>, scenes: seq<Scene>)
    requires SceneList(rows, scenes)
    ensures NoRepeats(Places(scenes))
  {
    forall i, j | 0 <= i < j < |scenes|
      ensures !SamePlace(Places(scenes)[i], Places(scenes)[j])
    {
      assert SceneLess(scenes[i], scenes[j]);
      assert Final(rows, scenes[i]) && Final(rows, scenes[j]);
      if SamePlace(scenes[i].place, scenes[j].place) {
        FinalIsUnique(rows, scenes[i], scenes[j]);
        PrecedesIsStrict(scenes[i].place, scenes[j].place);
      }
    }
  }

  // ---------------------------------------------------------------- the scenes add up

  /** The counters that a scene of the response has, too. */
  predicate OfScenes(c: Counter)
  {
    c != Retries && c != QueuedTasks && c != RunningTasks && c != Partial
  }

  /** What the other counters count. */
  predicate InState(t: TaskSummary, c: Counter)
  {
    match c
    case Retries => t.retrying
    case QueuedTasks => t.status == Queued
    case RunningTasks => t.status == Running
    case Partial => t.status == PartiallyCompleted
    case _ => false
  }

  function TasksInState(tasks: seq<TaskSummary>, c: Counter): nat
  {
    if tasks == [] then 0
    else TasksInState(tasks[..|tasks| - 1], c) + if InState(tasks[|tasks| - 1], c) then 1 else 0
  }

  /** What a scene of the response says about a counter. */
  function Share(scene: Scene, c: Counter): nat
  {
    if OfScenes(c) then scene.counts[c] else TasksInState(scene.tasks, c)
  }

  function ShareSum(scenes: seq<Scene>, c: Counter): nat
  {
    if scenes == [] then 0 else ShareSum(scenes[..|scenes| - 1], c) + Share(scenes[|scenes| - 1], c)
  }

  lemma PlusAt(a: Counts, b: Counts, c: Counter)
    ensures (a + b)[c] == a[c] + b[c]
  {
  }

  lemma IfAt(b: bool, d: Counter, c: Counter)
    ensures If(b, d)[c] == if b && c == d then 1 else 0
  {
  }

  lemma OutcomeCountAt(t: TaskSummary, c: Counter)
    ensures OutcomeCount(t)[c] == if c == Succeeded && t.status == Completed then 1
                                  else if c == FailedTasks && (t.status == TaskOutcome.Failed || t.status == EnqueueFailed) then 1
                                  else 0
  {
    IfAt(t.status == Completed, Succeeded, c);
    IfAt(t.status == TaskOutcome.Failed || t.status == EnqueueFailed, FailedTasks, c);
  }

  /** The two sides agree on tasks and attempts; what else the response counts is the outcome, or
      one of the four states. */
  lemma TaskCountSplit(t: TaskSummary, c: Counter)
    ensures TaskCount(t)[c] == if OfScenes(c) then SceneTaskCount(t)[c] + OutcomeCount(t)[c]
                               else if InState(t, c) then 1 else 0
  {
    OutcomeCountAt(t, c);
    PlusAt(SceneTaskCount(t), If(t.retrying, Retries), c);
    IfAt(t.retrying, Retries, c);
    TaskStatusAt(t, c);
    NoStateInScene(t, c);
  }

  lemma NoStateInScene(t: TaskSummary, c: Counter)
    ensures c != Tasks && c != Attempts ==> SceneTaskCount(t)[c] == 0
  {
  }

  lemma TaskStatusAt(t: TaskSummary, c: Counter)
    ensures TaskCount(t)[c] == (SceneTaskCount(t) + If(t.retrying, Retries))[c]
                               + (match t.status
                                  case Queued => if c == QueuedTasks then 1 else 0
                                  case Running => if c == RunningTasks then 1 else 0
                                  case Completed => if c == Succeeded then 1 else 0
                                  case PartiallyCompleted => if c == Partial then 1 else 0
                                  case Failed => if c == FailedTasks then 1 else 0
                                  case EnqueueFailed => if c == FailedTasks then 1 else 0)
  {
  }

  lemma {:induction false} TaskTotalsSplit(tasks: seq<TaskSummary>, c: Counter)
    ensures TaskTotals(tasks)[c] == if OfScenes(c) then SceneTaskTotals(tasks)[c] + OutcomeCounts(tasks)[c] else TasksInState(tasks, c)
  {
    if tasks != [] {
      var before, t := tasks[..|tasks| - 1], tasks[|tasks| - 1];
      TaskTotalsSplit(before, c);
      TaskCountSplit(t, c);
      PlusAt(TaskTotals(before), TaskCount(t), c);
      PlusAt(SceneTaskTotals(before), SceneTaskCount(t), c);
      PlusAt(OutcomeCounts(before), OutcomeCount(t), c);
    }
  }

  lemma AssetHasNoState(a: AssetSummary, c: Counter)
    requires !OfScenes(c)
    ensures AssetCount(a)[c] == 0
  {
  }

  lemma {:induction false} AssetsHaveNoState(assets: seq<AssetSummary>, c: Counter)
    requires !OfScenes(c)
    ensures AssetTotals(assets)[c] == 0
  {
    if assets != [] {
      AssetsHaveNoState(assets[..|assets| - 1], c);
      AssetHasNoState(assets[|assets| - 1], c);
      PlusAt(AssetTotals(assets[..|assets| - 1]), AssetCount(assets[|assets| - 1]), c);
    }
  }

  lemma ShareOf(rows: seq<Row>, scene: Scene, c: Counter)
    requires Final(rows, scene)
    ensures SceneTotals(rows, scene.place)[c] == Share(scene, c)
  {
    TaskTotalsSplit(scene.tasks, c);
    PlusAt(TaskTotals(scene.tasks), AssetTotals(scene.assets), c);
    PlusAt(SceneTaskTotals(scene.tasks), AssetTotals(scene.assets), c);
    PlusAt(CountsOf(scene.tasks, scene.assets), OutcomeCounts(scene.tasks), c);
    if !OfScenes(c) {
      AssetsHaveNoState(scene.assets, c);
    }
  }

  lemma SumOfMore(f: Place -> Counts, places: seq<Place>, p: Place, c: Counter)
    ensures Sum(f, places + [p])[c] == Sum(f, places)[c] + f(p)[c]
  {
    assert (places + [p])[..|places|] == places;
    PlusAt(Sum(f, places), f(p), c);
  }

  lemma {:induction false} SharesAddUp(f: Place -> Counts, scenes: seq<Scene>, c: Counter)
    requires forall i :: 0 <= i < |scenes| ==> f(scenes[i].place)[c] == Share(scenes[i], c)
    ensures Sum(f, Places(scenes))[c] == ShareSum(scenes, c)
    decreases |scenes|
  {
    if scenes != [] {
      var before, last := scenes[..|scenes| - 1], scenes[|scenes| - 1];
      SharesAddUp(f, before, c);
      assert Places(scenes) == Places(before) + [last.place];
      SumOfMore(f, Places(before), last.place, c);
    }
  }

  /** Every counter of the response is the sum over its scenes: of their own counters, or of the
      tasks they list in that state for the four counters that scenes do not have. The stories'
      counters add up to those of the response, too. */
  lemma SummaryAddsUp(rows: seq<Row>, r: Response, c: Counter)
    requires Summary(rows, r)
    ensures r.counts[c] == ShareSum(r.scenes, c)
    ensures StorySceneSum(r.scenes, Ids(r.stories)) == r.sceneCount
    ensures StorySelectedSum(r.scenes, Ids(r.stories)) == r.sceneWithSelectedCount
  {
    ScenesDiffer(rows, r.scenes);
    TotalsAreSums(rows, Places(r.scenes));
    forall i | 0 <= i < |r.scenes|
      ensures SceneTotals(rows, r.scenes[i].place)[c] == Share(r.scenes[i], c)
    {
      assert Final(rows, r.scenes[i]);
      ShareOf(rows, r.scenes[i], c);
    }
    SharesAddUp(p => SceneTotals(rows, p), r.scenes, c);
    StoryIdsAreDistinct(r.scenes, r.stories);
    StoriesAddUp(r.scenes, Ids(r.stories));
  }
}
