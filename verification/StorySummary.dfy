/** The batch story summary (internal/store/postgres.go, GetBatchStorySummary): one pass over the
    joined rows fills a map of scenes, with running maxima and counters, before the scenes are
    sorted and grouped into stories. */
module StorySummary {
  import opened Options
  import opened Database
  import opened TaskOutcome
  import opened StoryOrder
  import opened Text

  datatype PublicStatus = Generated | Selected | Archived | RejectedAsset | PublishedAsset

  /** publicAssetStatus. */
  function Public(status: AssetStatus): PublicStatus
  {
    match status
    case Draft => Generated
    case Approved => Selected
    case Deprecated => Archived
    case Rejected => RejectedAsset
    case Published => PublishedAsset
  }

  datatype TaskSummary = TaskSummary(id: string, status: TaskStatus, attempts: nat, retrying: bool, updatedAt: nat)

  datatype AssetSummary = AssetSummary(id: string, task: string, status: PublicStatus, createdAt: nat)

  datatype RowAsset = RowAsset(id: string, status: AssetStatus, createdAt: nat)

  /** A row of the query: a task joined with one of its assets, if it has any. Times count from
      Go's zero time; `place` holds the ids and the derived scene order of the task. */
  datatype Row = Row(task: TaskSummary, place: Place, asset: Option<RowAsset>)

  datatype SceneStatus = SceneEmpty | SceneRetrying | SceneRunning | SceneQueued | ScenePartial | SceneFailed | SceneCompleted

  datatype Counter = Tasks | Attempts | Retries | QueuedTasks | RunningTasks | Succeeded | Partial | FailedTasks
                   | Assets | GeneratedAssets | SelectedAssets | RejectedAssets

  /** A record of counters, as the multiset that holds each counter as often as it was bumped. */
  type Counts = multiset<Counter>

  datatype Scene = Scene(place: Place, status: SceneStatus, latestTask: string, primaryAsset: string,
                         counts: Counts, tasks: seq<TaskSummary>, assets: seq<AssetSummary>)

  function Times(c: Counter, n: nat): Counts
  {
    multiset{}[c := n]
  }

  function If(b: bool, c: Counter): Counts
  {
    if b then multiset{c} else multiset{}
  }

  /** What addBatchStorySummaryTaskCounts adds to the response. */
  function TaskCount(t: TaskSummary): Counts
  {
    multiset{Tasks} + Times(Attempts, t.attempts) + If(t.retrying, Retries)
    + match t.status
      case Queued => multiset{QueuedTasks}
      case Running => multiset{RunningTasks}
      case Completed => multiset{Succeeded}
      case PartiallyCompleted => multiset{Partial}
      case Failed => multiset{FailedTasks}
      case EnqueueFailed => multiset{FailedTasks}
  }

  /** What a task adds to its scene. */
  function SceneTaskCount(t: TaskSummary): Counts
  {
    multiset{Tasks} + Times(Attempts, t.attempts)
  }

  /** What addBatchStorySummaryAssetCounts adds, to the response and to the scene. */
  function AssetCount(a: AssetSummary): Counts
  {
    multiset{Assets} + If(a.status == Generated, GeneratedAssets) + If(a.status == Selected, SelectedAssets)
    + If(a.status == RejectedAsset, RejectedAssets)
  }

  function TaskTotals(tasks: seq<TaskSummary>): Counts
  {
    if tasks == [] then multiset{} else TaskTotals(tasks[..|tasks| - 1]) + TaskCount(tasks[|tasks| - 1])
  }

  function SceneTaskTotals(tasks: seq<TaskSummary>): Counts
  {
    if tasks == [] then multiset{} else SceneTaskTotals(tasks[..|tasks| - 1]) + SceneTaskCount(tasks[|tasks| - 1])
  }

  function AssetTotals(assets: seq<AssetSummary>): Counts
  {
    if assets == [] then multiset{} else AssetTotals(assets[..|assets| - 1]) + AssetCount(assets[|assets| - 1])
  }

  // ---------------------------------------------------------------- rows

  /** Rows without a scene are left out. */
  predicate Eligible(row: Row)
  {
    Trim(row.place.scene) != ""
  }

  predicate Of(row: Row, story: string, scene: string)
  {
    Eligible(row) && row.place.story == story && row.place.scene == scene
  }

  function AssetOf(row: Row): AssetSummary
    requires row.asset.Some?
  {
    AssetSummary(row.asset.value.id, row.task.id, Public(row.asset.value.status), row.asset.value.createdAt)
  }

  /** What the query guarantees: a task's rows agree on the task and its place, every asset comes
      once, ids are not empty, and no text holds the character that separates key parts. */
  ghost predicate WellFormed(rows: seq<Row>)
  {
    && (forall i :: 0 <= i < |rows| ==> RowWellFormed(rows[i]))
    && (forall i, j :: 0 <= i < j < |rows| ==> SameTaskAgrees(rows[i], rows[j]) && DistinctAssets(rows[i], rows[j]))
  }

  predicate RowWellFormed(row: Row)
  {
    && row.task.id != "" && SEPARATOR !in row.place.story && SEPARATOR !in row.place.scene
    && (row.asset.Some? ==> row.asset.value.id != "")
  }

  predicate SameTaskAgrees(a: Row, b: Row)
  {
    a.task.id == b.task.id ==> a.task == b.task && a.place == b.place
  }

  predicate DistinctAssets(a: Row, b: Row)
  {
    a.asset.Some? && b.asset.Some? ==> a.asset.value.id != b.asset.value.id
  }

  const SEPARATOR := '\0'

  function Key(story: string, scene: string): string
  {
    story + [SEPARATOR] + scene
  }

  /** The map key tells scenes apart. */
  lemma {:induction false} KeyIsInjective(story: string, scene: string, story': string, scene': string)
    requires SEPARATOR !in story && SEPARATOR !in story' && Key(story, scene) == Key(story', scene')
    ensures story == story' && scene == scene'
  {
    var k, k' := Key(story, scene), Key(story', scene');
    assert k[|story|] == SEPARATOR && k'[|story'|] == SEPARATOR;
    assert forall i :: 0 <= i < |story| ==> k[i] == story[i];
    assert forall i :: 0 <= i < |story'| ==> k'[i] == story'[i];
    assert |story| == |story'|;
    assert k[..|story|] == story && k'[..|story'|] == story';
    assert k[|story| + 1..] == scene && k'[|story'| + 1..] == scene';
  }

  // ---------------------------------------------------------------- what a scene should say

  ghost predicate Seen(rows: seq<Row>, task: string)
  {
    exists i :: 0 <= i < |rows| && Eligible(rows[i]) && rows[i].task.id == task
  }

  /** The tasks of a scene, each once, in the order in which they first come up. */
  ghost function TasksOf(rows: seq<Row>, story: string, scene: string): seq<TaskSummary>
  {
    if rows == [] then []
    else
      var before, row := rows[..|rows| - 1], rows[|rows| - 1];
      TasksOf(before, story, scene) + if Of(row, story, scene) && !Seen(before, row.task.id) then [row.task] else []
  }

  ghost function AssetsOf(rows: seq<Row>, story: string, scene: string): seq<AssetSummary>
  {
    if rows == [] then []
    else
      var before, row := rows[..|rows| - 1], rows[|rows| - 1];
      AssetsOf(before, story, scene) + if Of(row, story, scene) && row.asset.Some? then [AssetOf(row)] else []
  }

  /** The scene order of the scene's first row. */
  ghost predicate OrderOf(rows: seq<Row>, place: Place)
  {
    exists i :: FirstRow(rows, place.story, place.scene, i) && rows[i].place == place
  }

  ghost predicate FirstRow(rows: seq<Row>, story: string, scene: string, i: int)
  {
    0 <= i < |rows| && Of(rows[i], story, scene) && forall j :: 0 <= j < i ==> !Of(rows[j], story, scene)
  }

  function TaskStamps(tasks: seq<TaskSummary>): seq<Stamp>
  {
    seq(|tasks|, i requires 0 <= i < |tasks| => Stamp(tasks[i].updatedAt, tasks[i].id))
  }

  /** The selected assets only. */
  function SelectedStamps(assets: seq<AssetSummary>): seq<Stamp>
  {
    if assets == [] then []
    else
      var a := assets[|assets| - 1];
      SelectedStamps(assets[..|assets| - 1]) + if a.status == Selected then [Stamp(a.createdAt, a.id)] else []
  }

  /** The counters of a scene while rows are read; succeeded and failed are filled in later. */
  function CountsOf(tasks: seq<TaskSummary>, assets: seq<AssetSummary>): Counts
  {
    SceneTaskTotals(tasks) + AssetTotals(assets)
  }

  ghost predicate Describes(rows: seq<Row>, scene: Scene)
  {
    && scene.tasks == TasksOf(rows, scene.place.story, scene.place.scene)
    && scene.assets == AssetsOf(rows, scene.place.story, scene.place.scene)
    && OrderOf(rows, scene.place)
    && Fits(scene)
  }

  ghost predicate Fits(scene: Scene)
  {
    && IsLatest(TaskStamps(scene.tasks), scene.latestTask)
    && IsLatest(SelectedStamps(scene.assets), scene.primaryAsset)
    && scene.counts == CountsOf(scene.tasks, scene.assets)
    && scene.status == SceneEmpty
  }

  // ---------------------------------------------------------------- one task, one asset

  /** latestTaskUpdatedAt. */
  function LatestUpdatedAt(tasks: seq<TaskSummary>): nat
  {
    if tasks == [] then 0
    else
      var latest, last := LatestUpdatedAt(tasks[..|tasks| - 1]), tasks[|tasks| - 1].updatedAt;
      if last > latest then last else latest
  }

  /** primarySelectedAssetTime. */
  function AssetTime(assets: seq<AssetSummary>, id: string): nat
  {
    if assets == [] then 0
    else if assets[0].id == id then assets[0].createdAt
    else AssetTime(assets[1..], id)
  }

  function WithTask(scene: Scene, task: TaskSummary): Scene
  {
    var previous := LatestUpdatedAt(scene.tasks);
    scene.(
      tasks := scene.tasks + [task],
      counts := scene.counts + SceneTaskCount(task),
      latestTask :=
        if scene.latestTask == "" || task.updatedAt > previous
           || (task.updatedAt == previous && Before(scene.latestTask, task.id)) then task.id
        else scene.latestTask)
  }

  function WithAsset(scene: Scene, asset: AssetSummary): Scene
  {
    var assets := scene.assets + [asset];
    var primary := AssetTime(assets, scene.primaryAsset);
    scene.(
      assets := assets,
      counts := scene.counts + AssetCount(asset),
      primaryAsset :=
        if asset.status == Selected
           && (scene.primaryAsset == "" || asset.createdAt > primary
               || (asset.createdAt == primary && Before(scene.primaryAsset, asset.id))) then asset.id
        else scene.primaryAsset)
  }

  lemma {:induction false} LatestUpdatedAtIsMax(tasks: seq<TaskSummary>)
    ensures forall i :: 0 <= i < |tasks| ==> tasks[i].updatedAt <= LatestUpdatedAt(tasks)
    ensures tasks != [] ==> exists i :: 0 <= i < |tasks| && tasks[i].updatedAt == LatestUpdatedAt(tasks)
  {
    if tasks != [] {
      var before := tasks[..|tasks| - 1];
      LatestUpdatedAtIsMax(before);
      if before != [] {
        var i :| 0 <= i < |before| && before[i].updatedAt == LatestUpdatedAt(before);
        assert tasks[i] == before[i];
      }
      assert forall i :: 0 <= i < |before| ==> tasks[i] == before[i];
      var last := tasks[|tasks| - 1].updatedAt;
      assert before == [] || last > LatestUpdatedAt(before) ==> last == LatestUpdatedAt(tasks);
    }
  }

  lemma WithTaskFits(scene: Scene, task: TaskSummary)
    requires Fits(scene) && DistinctIds(TaskStamps(scene.tasks + [task]))
    ensures Fits(WithTask(scene, task))
  {
    LatestTaskOfMore(scene, task);
    assert (scene.tasks + [task])[..|scene.tasks|] == scene.tasks;
  }

  lemma LatestTaskOfMore(scene: Scene, task: TaskSummary)
    requires IsLatest(TaskStamps(scene.tasks), scene.latestTask) && DistinctIds(TaskStamps(scene.tasks + [task]))
    ensures IsLatest(TaskStamps(scene.tasks + [task]), WithTask(scene, task).latestTask)
  {
    var stamps, s := TaskStamps(scene.tasks), Stamp(task.updatedAt, task.id);
    var all := TaskStamps(scene.tasks + [task]);
    assert all == stamps + [s];
    var time := LatestUpdatedAt(scene.tasks);
    if stamps != [] {
      var i :| LatestAt(stamps, i) && stamps[i].id == scene.latestTask;
      assert all[i] == stamps[i];
      LatestHasLatestTime(scene.tasks, i);
    }
    LatestOfMore(stamps, scene.latestTask, time, s, WithTask(scene, task).latestTask);
  }

  lemma LatestHasLatestTime(tasks: seq<TaskSummary>, i: int)
    requires LatestAt(TaskStamps(tasks), i)
    ensures TaskStamps(tasks)[i].time == LatestUpdatedAt(tasks)
  {
    var stamps := TaskStamps(tasks);
    LatestUpdatedAtIsMax(tasks);
    var j :| 0 <= j < |tasks| && tasks[j].updatedAt == LatestUpdatedAt(tasks);
    assert j != i ==> Later(stamps[i], stamps[j]);
  }

  predicate DistinctAssetIds(assets: seq<AssetSummary>)
  {
    && (forall i :: 0 <= i < |assets| ==> assets[i].id != "")
    && (forall i, j :: 0 <= i < j < |assets| ==> assets[i].id != assets[j].id)
  }

  lemma {:induction false} AssetTimeOf(assets: seq<AssetSummary>, i: nat)
    requires DistinctAssetIds(assets) && i < |assets|
    ensures AssetTime(assets, assets[i].id) == assets[i].createdAt
  {
    if i > 0 {
      AssetTimeOf(assets[1..], i - 1);
    }
  }

  lemma {:induction false} SelectedStampsAreAssets(assets: seq<AssetSummary>, k: nat)
    requires k < |SelectedStamps(assets)|
    ensures exists i :: 0 <= i < |assets| && SelectedStamps(assets)[k] == Stamp(assets[i].createdAt, assets[i].id)
  {
    var before := assets[..|assets| - 1];
    if k < |SelectedStamps(before)| {
      SelectedStampsAreAssets(before, k);
      var i :| 0 <= i < |before| && SelectedStamps(before)[k] == Stamp(before[i].createdAt, before[i].id);
      assert assets[i] == before[i];
    } else {
      assert assets[|assets| - 1] in assets;
    }
  }

  lemma {:induction false} SelectedStampsAreDistinct(assets: seq<AssetSummary>)
    requires DistinctAssetIds(assets)
    ensures DistinctIds(SelectedStamps(assets))
  {
    if assets != [] {
      var before, last := assets[..|assets| - 1], assets[|assets| - 1];
      SelectedStampsAreDistinct(before);
      forall k | 0 <= k < |SelectedStamps(before)|
        ensures SelectedStamps(before)[k].id != last.id
      {
        SelectedStampsAreAssets(before, k);
        var i :| 0 <= i < |before| && SelectedStamps(before)[k] == Stamp(before[i].createdAt, before[i].id);
        assert assets[i] == before[i];
      }
    }
  }

  lemma SelectedStampsAppend(assets: seq<AssetSummary>, a: AssetSummary)
    ensures SelectedStamps(assets + [a]) ==
            if a.status == Selected then SelectedStamps(assets) + [Stamp(a.createdAt, a.id)] else SelectedStamps(assets)
  {
    assert (assets + [a])[..|assets|] == assets;
  }

  lemma WithAssetFits(scene: Scene, asset: AssetSummary)
    requires Fits(scene) && DistinctAssetIds(scene.assets + [asset])
    ensures Fits(WithAsset(scene, asset))
  {
    assert (scene.assets + [asset])[..|scene.assets|] == scene.assets;
    SelectedStampsAppend(scene.assets, asset);
    if asset.status == Selected {
      PrimaryOfMore(scene, asset);
    }
  }

  lemma PrimaryOfMore(scene: Scene, asset: AssetSummary)
    requires IsLatest(SelectedStamps(scene.assets), scene.primaryAsset) && DistinctAssetIds(scene.assets + [asset])
    requires asset.status == Selected
    ensures IsLatest(SelectedStamps(scene.assets) + [Stamp(asset.createdAt, asset.id)], WithAsset(scene, asset).primaryAsset)
  {
    var assets := scene.assets + [asset];
    var stamps, s := SelectedStamps(scene.assets), Stamp(asset.createdAt, asset.id);
    SelectedStampsAppend(scene.assets, asset);
    SelectedStampsAreDistinct(assets);
    var time := AssetTime(assets, scene.primaryAsset);
    if stamps != [] {
      var k :| LatestAt(stamps, k) && stamps[k].id == scene.primaryAsset;
      SelectedStampsAreAssets(scene.assets, k);
      var i :| 0 <= i < |scene.assets| && stamps[k] == Stamp(scene.assets[i].createdAt, scene.assets[i].id);
      assert assets[i] == scene.assets[i];
      AssetTimeOf(assets, i);
      assert (stamps + [s])[k] == stamps[k];
    }
    LatestOfMore(stamps, scene.primaryAsset, time, s, WithAsset(scene, asset).primaryAsset);
  }

  // ---------------------------------------------------------------- one more row

  /** What a row adds to the response counters. */
  ghost function RowCounts(before: seq<Row>, row: Row): Counts
  {
    if !Eligible(row) then multiset{}
    else (if Seen(before, row.task.id) then multiset{} else TaskCount(row.task))
         + (if row.asset.Some? then AssetCount(AssetOf(row)) else multiset{})
  }

  ghost function TotalsOf(rows: seq<Row>): Counts
  {
    if rows == [] then multiset{}
    else TotalsOf(rows[..|rows| - 1]) + RowCounts(rows[..|rows| - 1], rows[|rows| - 1])
  }

  lemma {:induction false} TasksAreSeen(rows: seq<Row>, story: string, scene: string, k: nat)
    requires k < |TasksOf(rows, story, scene)|
    ensures Seen(rows, TasksOf(rows, story, scene)[k].id)
    ensures exists i :: 0 <= i < |rows| && TasksOf(rows, story, scene)[k] == rows[i].task
  {
    var before := rows[..|rows| - 1];
    if k < |TasksOf(before, story, scene)| {
      TasksAreSeen(before, story, scene, k);
      var i :| 0 <= i < |before| && TasksOf(before, story, scene)[k] == before[i].task;
      assert rows[i] == before[i];
      var j :| 0 <= j < |before| && Eligible(before[j]) && before[j].task.id == before[i].task.id;
      assert rows[j] == before[j];
    } else {
      assert rows[|rows| - 1] in rows;
    }
  }

  lemma {:induction false} TasksAreDistinct(rows: seq<Row>, story: string, scene: string)
    requires forall i :: 0 <= i < |rows| ==> RowWellFormed(rows[i])
    ensures DistinctIds(TaskStamps(TasksOf(rows, story, scene)))
  {
    if rows != [] {
      var before, row := rows[..|rows| - 1], rows[|rows| - 1];
      TasksAreDistinct(before, story, scene);
      var tasks := TasksOf(before, story, scene);
      var stamps := TaskStamps(tasks);
      if Of(row, story, scene) && !Seen(before, row.task.id) {
        forall k | 0 <= k < |tasks|
          ensures tasks[k].id != row.task.id
        {
          TasksAreSeen(before, story, scene, k);
        }
        assert TaskStamps(TasksOf(rows, story, scene)) == stamps + [Stamp(row.task.updatedAt, row.task.id)];
        assert forall k :: 0 <= k < |stamps| ==> stamps[k].id == tasks[k].id;
      } else {
        assert TasksOf(rows, story, scene) == tasks;
      }
    }
  }

  lemma {:induction false} AssetsAreOfRows(rows: seq<Row>, story: string, scene: string, k: nat)
    requires k < |AssetsOf(rows, story, scene)|
    ensures exists i :: 0 <= i < |rows| && rows[i].asset.Some? && AssetsOf(rows, story, scene)[k] == AssetOf(rows[i])
  {
    var before := rows[..|rows| - 1];
    if k < |AssetsOf(before, story, scene)| {
      AssetsAreOfRows(before, story, scene, k);
      var i :| 0 <= i < |before| && before[i].asset.Some? && AssetsOf(before, story, scene)[k] == AssetOf(before[i]);
      assert rows[i] == before[i];
    } else {
      assert rows[|rows| - 1] in rows;
    }
  }

  lemma {:induction false} AssetsAreDistinct(rows: seq<Row>, story: string, scene: string)
    requires WellFormed(rows)
    ensures DistinctAssetIds(AssetsOf(rows, story, scene))
  {
    if rows != [] {
      var before, row := rows[..|rows| - 1], rows[|rows| - 1];
      PrefixWellFormed(rows, |rows| - 1);
      AssetsAreDistinct(before, story, scene);
      var assets := AssetsOf(before, story, scene);
      if Of(row, story, scene) && row.asset.Some? {
        forall k | 0 <= k < |assets|
          ensures assets[k].id != row.asset.value.id
        {
          AssetsAreOfRows(before, story, scene, k);
          var i :| 0 <= i < |before| && before[i].asset.Some? && assets[k] == AssetOf(before[i]);
          assert DistinctAssets(rows[i], row);
        }
        assert AssetsOf(rows, story, scene) == assets + [AssetOf(row)];
      } else {
        assert AssetsOf(rows, story, scene) == assets;
      }
    }
  }

  lemma PrefixWellFormed(rows: seq<Row>, k: nat)
    requires WellFormed(rows) && k <= |rows|
    ensures WellFormed(rows[..k])
  {
    var before := rows[..k];
    assert forall i :: 0 <= i < k ==> before[i] == rows[i];
  }

  lemma FirstRowStays(rows: seq<Row>, row: Row, place: Place)
    requires OrderOf(rows, place)
    ensures OrderOf(rows + [row], place)
  {
    var i :| FirstRow(rows, place.story, place.scene, i) && rows[i].place == place;
    var more := rows + [row];
    assert forall j :: 0 <= j < |rows| ==> more[j] == rows[j];
    assert FirstRow(more, place.story, place.scene, i);
  }

  /** A row of another scene, or without a scene, changes nothing. */
  lemma OtherRow(rows: seq<Row>, row: Row, scene: Scene)
    requires Describes(rows, scene) && !Of(row, scene.place.story, scene.place.scene)
    ensures Describes(rows + [row], scene)
  {
    assert (rows + [row])[..|rows|] == rows;
    FirstRowStays(rows, row, scene.place);
    assert scene.tasks + [] == scene.tasks && scene.assets + [] == scene.assets;
  }

  /** The scene after a row of its own. */
  function WithRow(scene: Scene, row: Row, seen: bool): Scene
  {
    var s := if seen then scene else WithTask(scene, row.task);
    if row.asset.Some? then WithAsset(s, AssetOf(row)) else s
  }

  function FreshScene(place: Place): Scene
  {
    Scene(place, SceneEmpty, "", "", multiset{}, [], [])
  }

  lemma OwnRow(rows: seq<Row>, row: Row, scene: Scene, seen: bool)
    requires WellFormed(rows + [row]) && Of(row, scene.place.story, scene.place.scene)
    requires Fits(scene) && OrderOf(rows + [row], scene.place) && seen == Seen(rows, row.task.id)
    requires scene.tasks == TasksOf(rows, scene.place.story, scene.place.scene)
    requires scene.assets == AssetsOf(rows, scene.place.story, scene.place.scene)
    ensures Describes(rows + [row], WithRow(scene, row, seen))
  {
    var more, story, id := rows + [row], scene.place.story, scene.place.scene;
    assert more[..|rows|] == rows;
    TasksAreDistinct(more, story, id);
    AssetsAreDistinct(more, story, id);
    var s := if seen then scene else WithTask(scene, row.task);
    if seen {
      assert TasksOf(more, story, id) == scene.tasks + [] == scene.tasks;
    } else {
      assert TasksOf(more, story, id) == scene.tasks + [row.task];
      WithTaskFits(scene, row.task);
    }
    if row.asset.Some? {
      assert AssetsOf(more, story, id) == s.assets + [AssetOf(row)];
      WithAssetFits(s, AssetOf(row));
    } else {
      assert AssetsOf(more, story, id) == scene.assets + [] == scene.assets;
    }
  }

  lemma NoRowsYet(rows: seq<Row>, row: Row)
    requires Eligible(row) && forall i :: 0 <= i < |rows| ==> !Of(rows[i], row.place.story, row.place.scene)
    ensures OrderOf(rows + [row], row.place)
    ensures TasksOf(rows, row.place.story, row.place.scene) == [] && AssetsOf(rows, row.place.story, row.place.scene) == []
    ensures Fits(FreshScene(row.place))
  {
    var more := rows + [row];
    assert forall j :: 0 <= j < |rows| ==> more[j] == rows[j];
    assert FirstRow(more, row.place.story, row.place.scene, |rows|);
    NothingOf(rows, row.place.story, row.place.scene);
  }

  lemma {:induction false} NothingOf(rows: seq<Row>, story: string, scene: string)
    requires forall i :: 0 <= i < |rows| ==> !Of(rows[i], story, scene)
    ensures TasksOf(rows, story, scene) == [] && AssetsOf(rows, story, scene) == []
  {
    if rows != [] {
      NothingOf(rows[..|rows| - 1], story, scene);
    }
  }

  // ---------------------------------------------------------------- the pass over the rows

  /** The scene that a row belongs to, as it is before the row. */
  function SceneFor(sceneByKey: map<string, Scene>, place: Place): Scene
  {
    var key := Key(place.story, place.scene);
    if key in sceneByKey then sceneByKey[key] else FreshScene(place)
  }

  predicate HasScene(sceneByKey: map<string, Scene>, row: Row)
  {
    Eligible(row) ==> Key(row.place.story, row.place.scene) in sceneByKey
  }

  ghost predicate Entry(rows: seq<Row>, k: string, scene: Scene)
  {
    && k == Key(scene.place.story, scene.place.scene) && SEPARATOR !in scene.place.story
    && Describes(rows, scene)
  }

  /** The map holds one scene for every place that comes up, and nothing else. */
  ghost predicate Indexes(rows: seq<Row>, sceneByKey: map<string, Scene>)
  {
    && (forall i {:trigger HasScene(sceneByKey, rows[i])} :: 0 <= i < |rows| ==> HasScene(sceneByKey, rows[i]))
    && (forall k {:trigger Entry(rows, k, sceneByKey[k])} :: k in sceneByKey ==> Entry(rows, k, sceneByKey[k]))
  }

  lemma IndexesNext(rows: seq<Row>, row: Row, sceneByKey: map<string, Scene>, scene: Scene, seen: bool)
    requires WellFormed(rows + [row]) && Indexes(rows, sceneByKey) && Eligible(row)
    requires scene == SceneFor(sceneByKey, row.place) && seen == Seen(rows, row.task.id)
    ensures Indexes(rows + [row], sceneByKey[Key(row.place.story, row.place.scene) := WithRow(scene, row, seen)])
  {
    assert RowWellFormed((rows + [row])[|rows|]);
    OwnScene(rows, row, sceneByKey, scene);
    IndexesInsert(rows, row, sceneByKey, WithRow(scene, row, seen));
  }

  lemma IndexesInsert(rows: seq<Row>, row: Row, sceneByKey: map<string, Scene>, scene: Scene)
    requires Indexes(rows, sceneByKey) && Describes(rows + [row], scene) && SEPARATOR !in scene.place.story
    requires scene.place.story == row.place.story && scene.place.scene == row.place.scene
    ensures Indexes(rows + [row], sceneByKey[Key(row.place.story, row.place.scene) := scene])
  {
    var k, more := Key(row.place.story, row.place.scene), rows + [row];
    var next := sceneByKey[k := scene];
    forall d | d in next
      ensures Entry(more, d, next[d])
    {
      if d != k {
        assert Entry(rows, d, sceneByKey[d]);
        OtherRow(rows, row, sceneByKey[d]);
      }
    }
    forall i | 0 <= i < |more|
      ensures HasScene(next, more[i])
    {
      assert i < |rows| ==> more[i] == rows[i] && HasScene(sceneByKey, rows[i]);
    }
  }

  lemma OwnScene(rows: seq<Row>, row: Row, sceneByKey: map<string, Scene>, scene: Scene)
    requires WellFormed(rows + [row]) && Indexes(rows, sceneByKey) && Eligible(row)
    requires scene == SceneFor(sceneByKey, row.place)
    ensures Describes(rows + [row], WithRow(scene, row, Seen(rows, row.task.id)))
    ensures scene.place.story == row.place.story && scene.place.scene == row.place.scene
  {
    var k, more := Key(row.place.story, row.place.scene), rows + [row];
    assert RowWellFormed(more[|rows|]);
    if k in sceneByKey {
      assert Entry(rows, k, sceneByKey[k]);
      KeyIsInjective(row.place.story, row.place.scene, scene.place.story, scene.place.scene);
      FirstRowStays(rows, row, scene.place);
    } else {
      forall i | 0 <= i < |rows|
        ensures !Of(rows[i], row.place.story, row.place.scene)
      {
        assert HasScene(sceneByKey, rows[i]);
      }
      NoRowsYet(rows, row);
    }
    OwnRow(rows, row, scene, Seen(rows, row.task.id));
  }

  lemma IndexesSkip(rows: seq<Row>, row: Row, sceneByKey: map<string, Scene>)
    requires Indexes(rows, sceneByKey) && !Eligible(row)
    ensures Indexes(rows + [row], sceneByKey)
  {
    var more := rows + [row];
    forall k | k in sceneByKey
      ensures Entry(more, k, sceneByKey[k])
    {
      assert Entry(rows, k, sceneByKey[k]);
      OtherRow(rows, row, sceneByKey[k]);
    }
    forall i | 0 <= i < |more|
      ensures HasScene(sceneByKey, more[i])
    {
      assert i < |rows| ==> more[i] == rows[i] && HasScene(sceneByKey, rows[i]);
    }
  }

  lemma SeenNext(rows: seq<Row>, row: Row, task: string)
    ensures Seen(rows + [row], task) <==> Seen(rows, task) || (Eligible(row) && row.task.id == task)
  {
    var more := rows + [row];
    assert forall i :: 0 <= i < |rows| ==> more[i] == rows[i];
    assert more[|rows|] == row;
    if Seen(rows, task) {
      var i :| 0 <= i < |rows| && Eligible(rows[i]) && rows[i].task.id == task;
      assert more[i] == rows[i];
    }
  }

  lemma TotalsNext(rows: seq<Row>, row: Row)
    ensures TotalsOf(rows + [row]) == TotalsOf(rows) + RowCounts(rows, row)
  {
    assert (rows + [row])[..|rows|] == rows;
  }

  /** The state of the loop after some rows. */
  ghost predicate Folded(rows: seq<Row>, sceneByKey: map<string, Scene>, taskSeen: set<string>, counts: Counts)
  {
    && Indexes(rows, sceneByKey)
    && (forall t :: t in taskSeen <==> Seen(rows, t))
    && counts == TotalsOf(rows)
  }

  lemma SeenAfter(rows: seq<Row>, row: Row, taskSeen: set<string>)
    requires forall t :: t in taskSeen <==> Seen(rows, t)
    ensures forall t :: t in taskSeen || (Eligible(row) && t == row.task.id) <==> Seen(rows + [row], t)
  {
    forall t {
      SeenNext(rows, row, t);
    }
  }

  lemma CountsAfter(rows: seq<Row>, row: Row, seen: bool)
    requires Eligible(row) && seen == Seen(rows, row.task.id)
    ensures TotalsOf(rows + [row]) == TotalsOf(rows) + (if seen then multiset{} else TaskCount(row.task))
                                     + (if row.asset.Some? then AssetCount(AssetOf(row)) else multiset{})
  {
    TotalsNext(rows, row);
  }

  lemma FoldedSkip(rows: seq<Row>, row: Row, sceneByKey: map<string, Scene>, taskSeen: set<string>, counts: Counts)
    requires Folded(rows, sceneByKey, taskSeen, counts) && !Eligible(row)
    ensures Folded(rows + [row], sceneByKey, taskSeen, counts)
  {
    IndexesSkip(rows, row, sceneByKey);
    TotalsNext(rows, row);
    SeenAfter(rows, row, taskSeen);
  }

  lemma FoldedNext(rows: seq<Row>, row: Row, sceneByKey: map<string, Scene>, taskSeen: set<string>, counts: Counts,
                   seen: bool)
    requires WellFormed(rows + [row]) && Folded(rows, sceneByKey, taskSeen, counts) && Eligible(row)
    requires seen <==> row.task.id in taskSeen
    ensures Folded(rows + [row],
                   sceneByKey[Key(row.place.story, row.place.scene) := WithRow(SceneFor(sceneByKey, row.place), row, seen)],
                   taskSeen + {row.task.id},
                   counts + (if seen then multiset{} else TaskCount(row.task))
                   + (if row.asset.Some? then AssetCount(AssetOf(row)) else multiset{}))
  {
    IndexesNext(rows, row, sceneByKey, SceneFor(sceneByKey, row.place), seen);
    CountsAfter(rows, row, seen);
    SeenAfter(rows, row, taskSeen);
  }

  lemma AddNothing(counts: Counts)
    ensures counts + multiset{} == counts
  {
  }

  lemma SeenAgain(taskSeen: set<string>, task: string, counts: Counts, added: Counts, nextSeen: set<string>, nextCounts: Counts)
    requires nextSeen == if task in taskSeen then taskSeen else taskSeen + {task}
    requires nextCounts == if task in taskSeen then counts else counts + added
    ensures nextSeen == taskSeen + {task}
    ensures nextCounts == counts + if task in taskSeen then multiset{} else added
  {
    AddNothing(counts);
  }

  /** One turn of the loop, for a row that has a scene. */
  method AddRow(row: Row, sceneByKey: map<string, Scene>, taskSeen: set<string>, counts: Counts)
      returns (next: map<string, Scene>, nextSeen: set<string>, nextCounts: Counts)
    ensures next == sceneByKey[Key(row.place.story, row.place.scene) :=
                                 WithRow(SceneFor(sceneByKey, row.place), row, row.task.id in taskSeen)]
    ensures nextSeen == taskSeen + {row.task.id}
    ensures nextCounts == counts + (if row.task.id in taskSeen then multiset{} else TaskCount(row.task))
                          + (if row.asset.Some? then AssetCount(AssetOf(row)) else multiset{})
  {
    var scene := SceneFor(sceneByKey, row.place);
    nextSeen, nextCounts := taskSeen, counts;
    if row.task.id !in taskSeen {
      nextSeen := taskSeen + {row.task.id};
      scene := WithTask(scene, row.task);
      nextCounts := nextCounts + TaskCount(row.task);
    }
    SeenAgain(taskSeen, row.task.id, counts, TaskCount(row.task), nextSeen, nextCounts);
    ghost var before := nextCounts;
    if row.asset.Some? {
      scene := WithAsset(scene, AssetOf(row));
      nextCounts := nextCounts + AssetCount(AssetOf(row));
    } else {
      AddNothing(before);
    }
    next := sceneByKey[Key(row.place.story, row.place.scene) := scene];
  }

  /** One turn of the loop, for any row. */
  method ReadRow(ghost rows: seq<Row>, row: Row, sceneByKey: map<string, Scene>, taskSeen: set<string>, counts: Counts)
      returns (next: map<string, Scene>, nextSeen: set<string>, nextCounts: Counts)
    requires WellFormed(rows + [row]) && Folded(rows, sceneByKey, taskSeen, counts)
    ensures Folded(rows + [row], next, nextSeen, nextCounts)
  {
    next, nextSeen, nextCounts := sceneByKey, taskSeen, counts;
    if Eligible(row) {
      FoldedNext(rows, row, sceneByKey, taskSeen, counts, row.task.id in taskSeen);
      next, nextSeen, nextCounts := AddRow(row, sceneByKey, taskSeen, counts);
    } else {
      FoldedSkip(rows, row, sceneByKey, taskSeen, counts);
    }
  }

  /** The loop over the query's rows. */
  method FoldRows(rows: seq<Row>) returns (sceneByKey: map<string, Scene>, counts: Counts)
    requires WellFormed(rows)
    ensures Indexes(rows, sceneByKey)
    ensures counts == TotalsOf(rows)
  {
    sceneByKey, counts := map[], multiset{};
    var taskSeen: set<string> := {};
    for n := 0 to |rows|
      invariant Folded(rows[..n], sceneByKey, taskSeen, counts)
    {
      PrefixWellFormed(rows, n + 1);
      assert rows[..n + 1] == rows[..n] + [rows[n]];
      sceneByKey, taskSeen, counts := ReadRow(rows[..n], rows[n], sceneByKey, taskSeen, counts);
    }
    assert rows[..|rows|] == rows;
  }
}
