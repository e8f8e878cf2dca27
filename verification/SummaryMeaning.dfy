/** What the batch story summary says, in terms of the rows of its query alone. The statements here
    do not use the functions that the summary is computed with. */
module SummaryMeaning {
  import opened Options
  import opened Database
  import opened TaskOutcome
  import opened StoryOrder
  import opened Text
  import S = StorySummary
  import B = BatchSummary
  import opened Sorting

  /** All rows that have a scene, or those of one scene. */
  datatype Where = Everywhere | At(story: string, scene: string)

  predicate Within(row: S.Row, at: Where)
  {
    Trim(row.place.scene) != "" && (at.At? ==> row.place.story == at.story && row.place.scene == at.scene)
  }

  // ---------------------------------------------------------------- counters

  /** The tasks that a counter counts; attempts are added up instead. */
  predicate CountsTask(c: S.Counter, t: S.TaskSummary)
  {
    match c
    case Tasks => true
    case Retries => t.retrying
    case QueuedTasks => t.status == Queued
    case RunningTasks => t.status == Running
    case Succeeded => t.status == Completed
    case Partial => t.status == PartiallyCompleted
    case FailedTasks => t.status == TaskOutcome.Failed || t.status == EnqueueFailed
    case _ => false
  }

  predicate CountsAsset(c: S.Counter, status: AssetStatus)
  {
    match c
    case Assets => true
    case GeneratedAssets => status == Draft
    case SelectedAssets => status == Approved
    case RejectedAssets => status == Rejected
    case _ => false
  }

  /** The ids of the tasks that `c` counts, each once however many rows it has. */
  function TaskIds(rows: seq<S.Row>, at: Where, c: S.Counter): set<string>
  {
    set i | 0 <= i < |rows| && Within(rows[i], at) && CountsTask(c, rows[i].task) :: rows[i].task.id
  }

  /** The rows whose asset `c` counts. */
  function AssetRows(rows: seq<S.Row>, at: Where, c: S.Counter): set<nat>
  {
    set i: nat | i < |rows| && AssetCounts(rows[i], at, c)
  }

  predicate AssetCounts(row: S.Row, at: Where, c: S.Counter)
  {
    Within(row, at) && row.asset.Some? && CountsAsset(c, row.asset.value.status)
  }

  /** What the rows add up to, in one scene or in all. */
  ghost function TotalsAt(rows: seq<S.Row>, at: Where): S.Counts
  {
    if at.Everywhere? then S.TotalsOf(rows) else B.SceneTotals(rows, Place(at.story, 0, at.scene))
  }

  lemma {:induction false} TotalsAtNext(rows: seq<S.Row>, row: S.Row, at: Where)
    ensures TotalsAt(rows + [row], at) ==
            if Within(row, at) then TotalsAt(rows, at) + S.RowCounts(rows, row) else TotalsAt(rows, at)
  {
    if at.Everywhere? {
      S.TotalsNext(rows, row);
    } else {
      B.SceneTotalsNext(rows, row, Place(at.story, 0, at.scene));
    }
  }

  lemma {:induction false} TaskCountAt(t: S.TaskSummary, c: S.Counter)
    requires c != S.Attempts
    ensures S.TaskCount(t)[c] == if CountsTask(c, t) then 1 else 0
  {
    B.TaskStatusAt(t, c);
    B.PlusAt(S.SceneTaskCount(t), S.If(t.retrying, S.Retries), c);
    B.IfAt(t.retrying, S.Retries, c);
  }

  lemma {:induction false} AssetCountAt(row: S.Row, c: S.Counter)
    requires row.asset.Some?
    ensures S.AssetCount(S.AssetOf(row))[c] == if CountsAsset(c, row.asset.value.status) then 1 else 0
  {
  }

  lemma {:induction false} RowCountsAt(rows: seq<S.Row>, row: S.Row, c: S.Counter)
    requires S.Eligible(row) && c != S.Attempts
    ensures S.RowCounts(rows, row)[c] ==
            (if CountsTask(c, row.task) && !S.Seen(rows, row.task.id) then 1 else 0)
            + (if row.asset.Some? && CountsAsset(c, row.asset.value.status) then 1 else 0)
  {
    TaskCountAt(row.task, c);
    if row.asset.Some? {
      AssetCountAt(row, c);
    }
    B.PlusAt(if S.Seen(rows, row.task.id) then multiset{} else S.TaskCount(row.task),
             if row.asset.Some? then S.AssetCount(S.AssetOf(row)) else multiset{}, c);
  }

  predicate TaskRow(rows: seq<S.Row>, at: Where, c: S.Counter, i: int, id: string)
  {
    0 <= i < |rows| && Within(rows[i], at) && CountsTask(c, rows[i].task) && rows[i].task.id == id
  }

  lemma {:induction false} TaskIdsHold(rows: seq<S.Row>, at: Where, c: S.Counter, id: string)
    ensures id in TaskIds(rows, at, c) <==> exists i :: TaskRow(rows, at, c, i, id)
  {
    if id in TaskIds(rows, at, c) {
      var i :| 0 <= i < |rows| && Within(rows[i], at) && CountsTask(c, rows[i].task) && rows[i].task.id == id;
      assert TaskRow(rows, at, c, i, id);
    }
    if i :| TaskRow(rows, at, c, i, id) {
      assert rows[i].task.id in TaskIds(rows, at, c);
    }
  }

  lemma {:induction false} TaskRowNext(rows: seq<S.Row>, row: S.Row, at: Where, c: S.Counter, id: string)
    ensures id in TaskIds(rows + [row], at, c) <==>
            id in TaskIds(rows, at, c) || (Within(row, at) && CountsTask(c, row.task) && row.task.id == id)
  {
    var more := rows + [row];
    TaskIdsHold(rows, at, c, id);
    TaskIdsHold(more, at, c, id);
    assert forall i :: 0 <= i < |rows| ==> more[i] == rows[i];
    if i :| TaskRow(rows, at, c, i, id) {
      assert TaskRow(more, at, c, i, id);
    }
    if i :| TaskRow(more, at, c, i, id) {
      assert i < |rows| ==> TaskRow(rows, at, c, i, id);
    }
    assert TaskRow(more, at, c, |rows|, id) <==> Within(row, at) && CountsTask(c, row.task) && row.task.id == id;
  }

  lemma {:induction false} SeenIsCounted(rows: seq<S.Row>, row: S.Row, at: Where, c: S.Counter)
    requires S.WellFormed(rows + [row]) && Within(row, at) && CountsTask(c, row.task)
    ensures row.task.id in TaskIds(rows, at, c) <==> S.Seen(rows, row.task.id)
  {
    var more := rows + [row];
    TaskIdsHold(rows, at, c, row.task.id);
    if S.Seen(rows, row.task.id) {
      var i :| 0 <= i < |rows| && S.Eligible(rows[i]) && rows[i].task.id == row.task.id;
      assert more[i] == rows[i] && S.SameTaskAgrees(more[i], more[|rows|]);
      assert TaskRow(rows, at, c, i, row.task.id);
    }
  }

  lemma {:induction false} TaskCountNext(rows: seq<S.Row>, row: S.Row, at: Where, c: S.Counter)
    requires S.WellFormed(rows + [row])
    ensures |TaskIds(rows + [row], at, c)| ==
            |TaskIds(rows, at, c)| + if Within(row, at) && CountsTask(c, row.task) && !S.Seen(rows, row.task.id) then 1 else 0
  {
    var counted := Within(row, at) && CountsTask(c, row.task);
    forall id {
      TaskRowNext(rows, row, at, c, id);
    }
    assert TaskIds(rows + [row], at, c) == if counted then TaskIds(rows, at, c) + {row.task.id} else TaskIds(rows, at, c);
    if counted {
      SeenIsCounted(rows, row, at, c);
    }
  }

  lemma {:induction false} AssetRowsNext(rows: seq<S.Row>, row: S.Row, at: Where, c: S.Counter, i: nat)
    ensures i in AssetRows(rows + [row], at, c) <==> i in AssetRows(rows, at, c) || (i == |rows| && AssetCounts(row, at, c))
  {
    assert i < |rows| ==> (rows + [row])[i] == rows[i];
  }

  lemma {:induction false} AssetCountNext(rows: seq<S.Row>, row: S.Row, at: Where, c: S.Counter)
    ensures |AssetRows(rows + [row], at, c)| == |AssetRows(rows, at, c)| + if AssetCounts(row, at, c) then 1 else 0
  {
    var more, counted := AssetRows(rows + [row], at, c), AssetRows(rows, at, c);
    forall i: nat {
      AssetRowsNext(rows, row, at, c, i);
    }
    assert |rows| !in counted;
    if AssetCounts(row, at, c) {
      assert more == counted + {|rows|};
    } else {
      assert more == counted;
    }
  }

  lemma {:induction false} TotalsAtGrow(rows: seq<S.Row>, row: S.Row, at: Where, c: S.Counter)
    requires c != S.Attempts
    ensures TotalsAt(rows + [row], at)[c] == TotalsAt(rows, at)[c]
            + (if Within(row, at) && CountsTask(c, row.task) && !S.Seen(rows, row.task.id) then 1 else 0)
            + (if AssetCounts(row, at, c) then 1 else 0)
  {
    TotalsAtNext(rows, row, at);
    if Within(row, at) {
      RowCountsAt(rows, row, c);
      B.PlusAt(TotalsAt(rows, at), S.RowCounts(rows, row), c);
    }
  }

  /** A counter is the number of the tasks or of the assets that it counts. */
  lemma {:induction false} CountersCount(rows: seq<S.Row>, at: Where, c: S.Counter)
    requires S.WellFormed(rows) && c != S.Attempts
    ensures TotalsAt(rows, at)[c] == |TaskIds(rows, at, c)| + |AssetRows(rows, at, c)|
  {
    if rows == [] {
      NothingCounts(rows, at, c);
    } else {
      var before, row := rows[..|rows| - 1], rows[|rows| - 1];
      assert rows == before + [row];
      S.PrefixWellFormed(rows, |rows| - 1);
      CountersCount(before, at, c);
      TotalsAtGrow(before, row, at, c);
      TaskCountNext(before, row, at, c);
      AssetCountNext(before, row, at, c);
    }
  }

  lemma {:induction false} NothingCounts(rows: seq<S.Row>, at: Where, c: S.Counter)
    requires rows == []
    ensures TotalsAt(rows, at)[c] == 0 && TaskIds(rows, at, c) == {} && AssetRows(rows, at, c) == {}
  {
  }

  function AttemptSum(tasks: seq<S.TaskSummary>): nat
  {
    if tasks == [] then 0 else AttemptSum(tasks[..|tasks| - 1]) + tasks[|tasks| - 1].attempts
  }

  lemma {:induction false} AttemptsAddUp(tasks: seq<S.TaskSummary>)
    ensures S.SceneTaskTotals(tasks)[S.Attempts] == AttemptSum(tasks)
  {
    if tasks != [] {
      var before, t := tasks[..|tasks| - 1], tasks[|tasks| - 1];
      AttemptsAddUp(before);
      B.PlusAt(S.SceneTaskTotals(before), S.SceneTaskCount(t), S.Attempts);
      B.PlusAt(multiset{S.Tasks}, S.Times(S.Attempts, t.attempts), S.Attempts);
    }
  }

  // ---------------------------------------------------------------- the lists of a scene

  predicate Increasing(positions: seq<nat>)
  {
    forall k, l :: 0 <= k < l < |positions| ==> positions[k] < positions[l]
  }

  /** The first row of a task. */
  predicate FirstOfTask(rows: seq<S.Row>, at: Where, n: nat)
  {
    && n < |rows| && Within(rows[n], at)
    && forall j :: 0 <= j < n && Within(rows[j], at) ==> rows[j].task.id != rows[n].task.id
  }

  /** Each task once, at its first row. */
  ghost predicate TasksAt(rows: seq<S.Row>, at: Where, tasks: seq<S.TaskSummary>, positions: seq<nat>)
  {
    && |positions| == |tasks| && Increasing(positions)
    && (forall n: nat :: n in positions <==> FirstOfTask(rows, at, n))
    && forall k :: 0 <= k < |tasks| ==> positions[k] < |rows| && tasks[k] == rows[positions[k]].task
  }

  ghost predicate TasksListed(rows: seq<S.Row>, at: Where, tasks: seq<S.TaskSummary>)
  {
    exists positions :: TasksAt(rows, at, tasks, positions)
  }

  /** The asset of the row, with its status by its public name. */
  predicate Shows(a: S.AssetSummary, row: S.Row)
  {
    && row.asset.Some? && a.id == row.asset.value.id && a.createdAt == row.asset.value.createdAt && a.task == row.task.id
    && match a.status
       case Generated => row.asset.value.status == Draft
       case Selected => row.asset.value.status == Approved
       case Archived => row.asset.value.status == Deprecated
       case RejectedAsset => row.asset.value.status == Rejected
       case PublishedAsset => row.asset.value.status == Published
  }

  ghost predicate AssetsAt(rows: seq<S.Row>, at: Where, assets: seq<S.AssetSummary>, positions: seq<nat>)
  {
    && |positions| == |assets| && Increasing(positions)
    && (forall n: nat :: n in positions <==> n in AssetRows(rows, at, S.Assets))
    && forall k :: 0 <= k < |assets| ==> positions[k] < |rows| && Shows(assets[k], rows[positions[k]])
  }

  ghost predicate AssetsListed(rows: seq<S.Row>, at: Where, assets: seq<S.AssetSummary>)
  {
    exists positions :: AssetsAt(rows, at, assets, positions)
  }

  lemma {:induction false} InNext(positions: seq<nat>, n: nat, m: nat)
    ensures m in positions + [n] <==> m in positions || m == n
  {
  }

  lemma {:induction false} FirstOfTaskNext(rows: seq<S.Row>, row: S.Row, at: Where, n: nat)
    requires S.WellFormed(rows + [row])
    ensures FirstOfTask(rows + [row], at, n) <==>
            FirstOfTask(rows, at, n) || (n == |rows| && Within(row, at) && !S.Seen(rows, row.task.id))
  {
    var more := rows + [row];
    assert forall i :: 0 <= i < |rows| ==> more[i] == rows[i];
    if n == |rows| && Within(row, at) && S.Seen(rows, row.task.id) {
      var i :| 0 <= i < |rows| && S.Eligible(rows[i]) && rows[i].task.id == row.task.id;
      assert S.SameTaskAgrees(more[i], more[|rows|]);
      assert Within(more[i], at);
    }
  }

  lemma {:induction false} TasksAtNext(rows: seq<S.Row>, row: S.Row, at: Where, tasks: seq<S.TaskSummary>, positions: seq<nat>)
    requires S.WellFormed(rows + [row]) && TasksAt(rows, at, tasks, positions)
    ensures TasksListed(rows + [row], at, tasks + if Within(row, at) && !S.Seen(rows, row.task.id) then [row.task] else [])
  {
    var more := rows + [row];
    var first := Within(row, at) && !S.Seen(rows, row.task.id);
    forall n: nat
      ensures FirstOfTask(more, at, n) <==> n in positions || (n == |rows| && first)
    {
      FirstOfTaskNext(rows, row, at, n);
    }
    assert forall k :: 0 <= k < |tasks| ==> positions[k] in positions;
    if first {
      forall n: nat
        ensures n in positions + [|rows|] <==> n in positions || n == |rows|
      {
        InNext(positions, |rows|, n);
      }
      assert TasksAt(more, at, tasks + [row.task], positions + [|rows|]);
    } else {
      assert tasks + [] == tasks;
      assert TasksAt(more, at, tasks, positions);
    }
  }

  lemma {:induction false} TasksAreListed(rows: seq<S.Row>, story: string, scene: string)
    requires S.WellFormed(rows)
    ensures TasksListed(rows, At(story, scene), S.TasksOf(rows, story, scene))
  {
    if rows == [] {
      assert TasksAt(rows, At(story, scene), [], []);
    } else {
      var before, row := rows[..|rows| - 1], rows[|rows| - 1];
      assert rows == before + [row];
      S.PrefixWellFormed(rows, |rows| - 1);
      TasksAreListed(before, story, scene);
      var positions :| TasksAt(before, At(story, scene), S.TasksOf(before, story, scene), positions);
      TasksAtNext(before, row, At(story, scene), S.TasksOf(before, story, scene), positions);
    }
  }

  lemma {:induction false} AssetsAtNext(rows: seq<S.Row>, row: S.Row, at: Where, assets: seq<S.AssetSummary>, positions: seq<nat>)
    requires AssetsAt(rows, at, assets, positions)
    ensures AssetsListed(rows + [row], at, assets + if Within(row, at) && row.asset.Some? then [S.AssetOf(row)] else [])
  {
    var more := rows + [row];
    forall n: nat
      ensures n in AssetRows(more, at, S.Assets) <==> n in positions || (n == |rows| && AssetCounts(row, at, S.Assets))
    {
      AssetRowsNext(rows, row, at, S.Assets, n);
    }
    if Within(row, at) && row.asset.Some? {
      forall n: nat
        ensures n in positions + [|rows|] <==> n in positions || n == |rows|
      {
        InNext(positions, |rows|, n);
      }
      assert AssetsAt(more, at, assets + [S.AssetOf(row)], positions + [|rows|]);
    } else {
      assert assets + [] == assets;
      assert AssetsAt(more, at, assets, positions);
    }
  }

  lemma {:induction false} AssetsAreListed(rows: seq<S.Row>, story: string, scene: string)
    ensures AssetsListed(rows, At(story, scene), S.AssetsOf(rows, story, scene))
  {
    if rows == [] {
      assert AssetsAt(rows, At(story, scene), [], []);
    } else {
      var before, row := rows[..|rows| - 1], rows[|rows| - 1];
      assert rows == before + [row];
      AssetsAreListed(before, story, scene);
      var positions :| AssetsAt(before, At(story, scene), S.AssetsOf(before, story, scene), positions);
      AssetsAtNext(before, row, At(story, scene), S.AssetsOf(before, story, scene), positions);
    }
  }

  // ---------------------------------------------------------------- the latest task and the primary asset

  /** Not later in time, nor at the same time with the greater id. */
  predicate NotAfter(a: Stamp, b: Stamp)
  {
    a.time < b.time || (a.time == b.time && !Before(b.id, a.id))
  }

  lemma {:induction false} LatestIsNotAfter(stamps: seq<Stamp>, id: string)
    requires IsLatest(stamps, id) && stamps != []
    ensures exists i :: 0 <= i < |stamps| && stamps[i].id == id && forall s :: s in stamps ==> NotAfter(s, stamps[i])
  {
    var i :| LatestAt(stamps, i) && stamps[i].id == id;
    forall s | s in stamps
      ensures NotAfter(s, stamps[i])
    {
      var j :| 0 <= j < |stamps| && stamps[j] == s;
      if j != i {
        assert Later(stamps[i], stamps[j]);
      }
      if Before(stamps[i].id, s.id) && s.time == stamps[i].time {
        BeforeIsStrict(stamps[i].id, s.id);
      }
    }
  }

  function TaskStamp(row: S.Row): Stamp
  {
    Stamp(row.task.updatedAt, row.task.id)
  }

  function AssetStamp(row: S.Row): Stamp
  {
    if row.asset.Some? then Stamp(row.asset.value.createdAt, row.asset.value.id) else Stamp(0, "")
  }

  ghost predicate LatestTaskAt(rows: seq<S.Row>, at: Where, id: string, i: int)
  {
    && 0 <= i < |rows| && Within(rows[i], at) && rows[i].task.id == id
    && forall j :: 0 <= j < |rows| && Within(rows[j], at) ==> NotAfter(TaskStamp(rows[j]), TaskStamp(rows[i]))
  }

  /** `id` is the task that was updated last, the greatest id among several. */
  ghost predicate LatestTaskIs(rows: seq<S.Row>, at: Where, id: string)
  {
    exists i :: LatestTaskAt(rows, at, id, i)
  }

  ghost predicate PrimaryAt(rows: seq<S.Row>, at: Where, id: string, i: nat)
  {
    && i in AssetRows(rows, at, S.SelectedAssets) && rows[i].asset.value.id == id
    && forall j :: j in AssetRows(rows, at, S.SelectedAssets) ==> NotAfter(AssetStamp(rows[j]), AssetStamp(rows[i]))
  }

  /** `id` is the approved asset that was created last, the greatest id among several; it is empty
      if and only if no asset is approved. */
  ghost predicate PrimaryIs(rows: seq<S.Row>, at: Where, id: string)
  {
    if AssetRows(rows, at, S.SelectedAssets) == {} then id == ""
    else id != "" && exists i: nat :: PrimaryAt(rows, at, id, i)
  }

  /** The task of every row is listed. */
  lemma {:induction false} EveryTaskIsListed(rows: seq<S.Row>, at: Where, tasks: seq<S.TaskSummary>, i: nat)
    requires S.WellFormed(rows) && TasksListed(rows, at, tasks) && i < |rows| && Within(rows[i], at)
    ensures rows[i].task in tasks
    decreases i
  {
    var positions :| TasksAt(rows, at, tasks, positions);
    if FirstOfTask(rows, at, i) {
      assert i in positions;
      var k :| 0 <= k < |positions| && positions[k] == i;
      assert tasks[k] == rows[i].task;
    } else {
      var j :| 0 <= j < i && Within(rows[j], at) && rows[j].task.id == rows[i].task.id;
      assert S.SameTaskAgrees(rows[j], rows[i]);
      EveryTaskIsListed(rows, at, tasks, j);
    }
  }

  lemma {:induction false} LatestTaskOfRows(rows: seq<S.Row>, at: Where, tasks: seq<S.TaskSummary>, id: string)
    requires S.WellFormed(rows) && TasksListed(rows, at, tasks) && tasks != [] && IsLatest(S.TaskStamps(tasks), id)
    ensures LatestTaskIs(rows, at, id)
  {
    var stamps := S.TaskStamps(tasks);
    LatestIsNotAfter(stamps, id);
    var k :| 0 <= k < |stamps| && stamps[k].id == id && forall s :: s in stamps ==> NotAfter(s, stamps[k]);
    var positions :| TasksAt(rows, at, tasks, positions);
    var i := positions[k];
    assert i in positions;
    forall j: nat | j < |rows| && Within(rows[j], at)
      ensures NotAfter(TaskStamp(rows[j]), TaskStamp(rows[i]))
    {
      EveryTaskIsListed(rows, at, tasks, j);
      var m :| 0 <= m < |tasks| && tasks[m] == rows[j].task;
      assert stamps[m] in stamps;
    }
    assert LatestTaskAt(rows, at, id, i);
  }

  lemma {:induction false} SelectedStampsHold(assets: seq<S.AssetSummary>, k: nat)
    requires k < |assets| && assets[k].status == S.Selected
    ensures Stamp(assets[k].createdAt, assets[k].id) in S.SelectedStamps(assets)
  {
    if k < |assets| - 1 {
      SelectedStampsHold(assets[..|assets| - 1], k);
    }
  }

  lemma {:induction false} SelectedStampsOnly(assets: seq<S.AssetSummary>, s: Stamp)
    requires s in S.SelectedStamps(assets)
    ensures exists k :: 0 <= k < |assets| && assets[k].status == S.Selected && s == Stamp(assets[k].createdAt, assets[k].id)
  {
    var before, last := assets[..|assets| - 1], assets[|assets| - 1];
    if s in S.SelectedStamps(before) {
      SelectedStampsOnly(before, s);
      var k :| 0 <= k < |before| && before[k].status == S.Selected && s == Stamp(before[k].createdAt, before[k].id);
      assert assets[k] == before[k];
    } else {
      assert assets[|assets| - 1].status == S.Selected;
    }
  }

  /** The rows of the selected assets. */
  lemma {:induction false} SelectedRows(rows: seq<S.Row>, at: Where, assets: seq<S.AssetSummary>, i: nat)
    requires AssetsListed(rows, at, assets) && i in AssetRows(rows, at, S.SelectedAssets)
    ensures AssetStamp(rows[i]) in S.SelectedStamps(assets)
  {
    var positions :| AssetsAt(rows, at, assets, positions);
    assert i in AssetRows(rows, at, S.Assets) && i in positions;
    var k :| 0 <= k < |positions| && positions[k] == i;
    assert Shows(assets[k], rows[i]);
    SelectedStampsHold(assets, k);
  }

  lemma {:induction false} StampHasRow(rows: seq<S.Row>, at: Where, assets: seq<S.AssetSummary>, s: Stamp)
    requires AssetsListed(rows, at, assets) && s in S.SelectedStamps(assets)
    ensures exists i :: i in AssetRows(rows, at, S.SelectedAssets) && AssetStamp(rows[i]) == s
  {
    var positions :| AssetsAt(rows, at, assets, positions);
    SelectedStampsOnly(assets, s);
    var k :| 0 <= k < |assets| && assets[k].status == S.Selected && s == Stamp(assets[k].createdAt, assets[k].id);
    assert positions[k] in positions && Shows(assets[k], rows[positions[k]]);
    assert positions[k] in AssetRows(rows, at, S.Assets);
    assert positions[k] in AssetRows(rows, at, S.SelectedAssets);
  }

  lemma {:induction false} PrimaryOfRows(rows: seq<S.Row>, at: Where, assets: seq<S.AssetSummary>, id: string)
    requires S.WellFormed(rows) && AssetsListed(rows, at, assets) && IsLatest(S.SelectedStamps(assets), id)
    ensures PrimaryIs(rows, at, id)
  {
    var stamps, chosen := S.SelectedStamps(assets), AssetRows(rows, at, S.SelectedAssets);
    if chosen == {} {
      if stamps != [] {
        StampHasRow(rows, at, assets, stamps[0]);
      }
    } else {
      var j :| j in chosen;
      SelectedRows(rows, at, assets, j);
      LatestIsNotAfter(stamps, id);
      var k :| 0 <= k < |stamps| && stamps[k].id == id && forall s :: s in stamps ==> NotAfter(s, stamps[k]);
      StampHasRow(rows, at, assets, stamps[k]);
      var i :| i in chosen && AssetStamp(rows[i]) == stamps[k];
      forall j | j in chosen
        ensures NotAfter(AssetStamp(rows[j]), AssetStamp(rows[i]))
      {
        SelectedRows(rows, at, assets, j);
      }
      assert S.RowWellFormed(rows[i]);
      assert PrimaryAt(rows, at, id, i);
    }
  }

  // ---------------------------------------------------------------- the status of a scene

  function Statuses(tasks: seq<S.TaskSummary>): set<TaskStatus>
  {
    set k | 0 <= k < |tasks| :: tasks[k].status
  }

  /** What each scene status says; the cases exclude each other and leave nothing out. */
  predicate StatusSays(tasks: seq<S.TaskSummary>, assets: seq<S.AssetSummary>, status: S.SceneStatus)
  {
    var all, retrying := Statuses(tasks), exists k :: 0 <= k < |tasks| && tasks[k].retrying;
    match status
    case SceneRetrying => retrying
    case SceneRunning => !retrying && Running in all
    case SceneQueued => !retrying && Running !in all && Queued in all
    case ScenePartial =>
      && !retrying && Running !in all && Queued !in all
      && (PartiallyCompleted in all || (Completed in all && (TaskOutcome.Failed in all || EnqueueFailed in all)))
    case SceneFailed => !retrying && all != {} && all <= {TaskOutcome.Failed, EnqueueFailed}
    case SceneCompleted => !retrying && all == {Completed} && assets != []
    case SceneEmpty => !retrying && all <= {Completed} && (all == {} || assets == [])
  }

  lemma {:induction false} StatusMeans(tasks: seq<S.TaskSummary>, assets: seq<S.AssetSummary>)
    ensures StatusSays(tasks, assets, B.StatusOf(tasks, assets))
  {
    var all := Statuses(tasks);
    forall s
      ensures s in all <==> B.HasStatus(tasks, s)
    {
      if B.HasStatus(tasks, s) {
        var k :| 0 <= k < |tasks| && tasks[k].status == s;
        assert tasks[k].status in all;
      }
    }
    if tasks != [] {
      assert tasks[0].status in all;
    }
  }

  // ---------------------------------------------------------------- one scene

  /** The place of a scene is that of its first row. */
  ghost predicate PlaceIs(rows: seq<S.Row>, place: Place)
  {
    exists i :: PlaceAt(rows, place, i)
  }

  ghost predicate PlaceAt(rows: seq<S.Row>, place: Place, i: int)
  {
    && 0 <= i < |rows| && Within(rows[i], At(place.story, place.scene)) && rows[i].place == place
    && forall j :: 0 <= j < i ==> !Within(rows[j], At(place.story, place.scene))
  }

  /** What a scene of the response says. */
  ghost predicate SceneSays(rows: seq<S.Row>, scene: S.Scene)
  {
    var at := At(scene.place.story, scene.place.scene);
    && PlaceIs(rows, scene.place) && TasksListed(rows, at, scene.tasks) && AssetsListed(rows, at, scene.assets)
    && LatestTaskIs(rows, at, scene.latestTask) && PrimaryIs(rows, at, scene.primaryAsset)
    && StatusSays(scene.tasks, scene.assets, scene.status)
    && SceneNumbers(rows, at, scene)
  }

  /** Retrying, queued, running and partially completed tasks are not counted by scene. */
  ghost predicate SceneNumbers(rows: seq<S.Row>, at: Where, scene: S.Scene)
  {
    && scene.counts[S.Attempts] == AttemptSum(scene.tasks)
    && forall c :: c !in {S.Attempts, S.Retries, S.QueuedTasks, S.RunningTasks, S.Partial} ==>
         scene.counts[c] == |TaskIds(rows, at, c)| + |AssetRows(rows, at, c)|
  }

  lemma {:induction false} NoOutcomeAttempts(tasks: seq<S.TaskSummary>)
    ensures B.OutcomeCounts(tasks)[S.Attempts] == 0
  {
    if tasks != [] {
      var before, t := tasks[..|tasks| - 1], tasks[|tasks| - 1];
      NoOutcomeAttempts(before);
      B.OutcomeCountAt(t, S.Attempts);
      B.PlusAt(B.OutcomeCounts(before), B.OutcomeCount(t), S.Attempts);
    }
  }

  lemma {:induction false} NoAttempts(a: S.AssetSummary)
    ensures S.AssetCount(a)[S.Attempts] == 0
  {
  }

  lemma {:induction false} NoAssetAttempts(assets: seq<S.AssetSummary>)
    ensures S.AssetTotals(assets)[S.Attempts] == 0
  {
    if assets != [] {
      var before, a := assets[..|assets| - 1], assets[|assets| - 1];
      NoAssetAttempts(before);
      NoAttempts(a);
      B.PlusAt(S.AssetTotals(before), S.AssetCount(a), S.Attempts);
    }
  }

  lemma {:induction false} SceneAttempts(rows: seq<S.Row>, scene: S.Scene)
    requires B.Final(rows, scene)
    ensures scene.counts[S.Attempts] == AttemptSum(scene.tasks)
  {
    AttemptsAddUp(scene.tasks);
    NoOutcomeAttempts(scene.tasks);
    NoAssetAttempts(scene.assets);
    B.PlusAt(S.SceneTaskTotals(scene.tasks), S.AssetTotals(scene.assets), S.Attempts);
    B.PlusAt(S.CountsOf(scene.tasks, scene.assets), B.OutcomeCounts(scene.tasks), S.Attempts);
  }

  lemma {:induction false} SceneHasNumber(rows: seq<S.Row>, scene: S.Scene, at: Where, c: S.Counter)
    requires S.WellFormed(rows) && B.Final(rows, scene) && at == At(scene.place.story, scene.place.scene)
    requires B.OfScenes(c) && c != S.Attempts
    ensures scene.counts[c] == |TaskIds(rows, at, c)| + |AssetRows(rows, at, c)|
  {
    CountersCount(rows, at, c);
    B.ShareOf(rows, scene, c);
  }

  lemma {:induction false} SceneHasNumbers(rows: seq<S.Row>, scene: S.Scene, at: Where)
    requires S.WellFormed(rows) && B.Final(rows, scene) && at == At(scene.place.story, scene.place.scene)
    ensures SceneNumbers(rows, at, scene)
  {
    SceneAttempts(rows, scene);
    forall c | c !in {S.Attempts, S.Retries, S.QueuedTasks, S.RunningTasks, S.Partial}
      ensures scene.counts[c] == |TaskIds(rows, at, c)| + |AssetRows(rows, at, c)|
    {
      SceneHasNumber(rows, scene, at, c);
    }
  }

  lemma {:induction false} SceneHasTasks(rows: seq<S.Row>, at: Where, tasks: seq<S.TaskSummary>, place: Place)
    requires S.WellFormed(rows) && PlaceIs(rows, place) && at == At(place.story, place.scene) && TasksListed(rows, at, tasks)
    ensures tasks != []
  {
    var i :| PlaceAt(rows, place, i);
    EveryTaskIsListed(rows, at, tasks, i);
  }

  /** Every scene of the response says this of the rows. */
  lemma {:induction false} SceneMeans(rows: seq<S.Row>, scene: S.Scene)
    requires S.WellFormed(rows) && B.Final(rows, scene)
    ensures SceneSays(rows, scene)
  {
    var at := At(scene.place.story, scene.place.scene);
    var i :| S.FirstRow(rows, scene.place.story, scene.place.scene, i) && rows[i].place == scene.place;
    assert PlaceAt(rows, scene.place, i);
    TasksAreListed(rows, scene.place.story, scene.place.scene);
    AssetsAreListed(rows, scene.place.story, scene.place.scene);
    SceneHasTasks(rows, at, scene.tasks, scene.place);
    LatestTaskOfRows(rows, at, scene.tasks, scene.latestTask);
    PrimaryOfRows(rows, at, scene.assets, scene.primaryAsset);
    StatusMeans(scene.tasks, scene.assets);
    SceneHasNumbers(rows, scene, at);
  }

  // ---------------------------------------------------------------- the order of the scenes

  /** By story, then by scene order with unknown orders last, then by scene. */
  predicate Ahead(a: Place, b: Place)
  {
    || Before(a.story, b.story)
    || (a.story == b.story && 0 < a.order && (b.order == 0 || a.order < b.order))
    || (a.story == b.story && a.order == b.order && Before(a.scene, b.scene))
  }

  lemma {:induction false} PrecedesMeans(a: Place, b: Place)
    ensures Precedes(a, b) <==> Ahead(a, b)
  {
    if Before(a.story, b.story) {
      BeforeIsStrict(a.story, b.story);
    }
  }

  // ---------------------------------------------------------------- stories

  /** The scenes with a primary asset, of one story or of all. */
  function WithPrimary(scenes: seq<S.Scene>, story: Option<string>): set<nat>
  {
    set n: nat | n < |scenes| && scenes[n].primaryAsset != "" && (story.Some? ==> scenes[n].place.story == story.value)
  }

  ghost predicate ScenesAt(scenes: seq<S.Scene>, story: string, ids: seq<string>, positions: seq<nat>)
  {
    && |positions| == |ids| && Increasing(positions)
    && (forall n: nat :: n in positions <==> n < |scenes| && scenes[n].place.story == story)
    && forall k :: 0 <= k < |ids| ==> positions[k] < |scenes| && ids[k] == scenes[positions[k]].place.scene
  }

  ghost predicate ScenesListed(scenes: seq<S.Scene>, story: string, ids: seq<string>)
  {
    exists positions :: ScenesAt(scenes, story, ids, positions)
  }

  /** A story lists the ids of its scenes, in their order, and counts them. */
  ghost predicate StorySays(scenes: seq<S.Scene>, story: B.Story)
  {
    && ScenesListed(scenes, story.id, story.scenes)
    && story.sceneCount == |story.scenes|
    && story.selectedSceneCount == |WithPrimary(scenes, Some(story.id))|
  }

  lemma {:induction false} WithPrimaryNext(scenes: seq<S.Scene>, scene: S.Scene, story: Option<string>)
    ensures |WithPrimary(scenes + [scene], story)| ==
            |WithPrimary(scenes, story)|
            + if scene.primaryAsset != "" && (story.Some? ==> scene.place.story == story.value) then 1 else 0
  {
    var more, chosen := scenes + [scene], WithPrimary(scenes, story);
    forall n: nat
      ensures n in WithPrimary(more, story) <==>
              n in chosen
              || (n == |scenes| && scene.primaryAsset != "" && (story.Some? ==> scene.place.story == story.value))
    {
      assert n < |scenes| ==> more[n] == scenes[n];
    }
    if scene.primaryAsset != "" && (story.Some? ==> scene.place.story == story.value) {
      assert WithPrimary(more, story) == chosen + {|scenes|};
    } else {
      assert WithPrimary(more, story) == chosen;
    }
  }

  lemma {:induction false} ScenesAtNext(scenes: seq<S.Scene>, scene: S.Scene, story: string, ids: seq<string>, positions: seq<nat>)
    requires ScenesAt(scenes, story, ids, positions)
    ensures ScenesListed(scenes + [scene], story, ids + if scene.place.story == story then [scene.place.scene] else [])
  {
    var all := scenes + [scene];
    assert forall n :: 0 <= n < |scenes| ==> all[n] == scenes[n];
    if scene.place.story == story {
      forall n: nat
        ensures n in positions + [|scenes|] <==> n in positions || n == |scenes|
      {
        InNext(positions, |scenes|, n);
      }
      assert ScenesAt(all, story, ids + [scene.place.scene], positions + [|scenes|]);
    } else {
      assert ids + [] == ids;
      assert ScenesAt(all, story, ids, positions);
    }
  }

  lemma {:induction false} StoryMeans(scenes: seq<S.Scene>, id: string)
    ensures StorySays(scenes, B.StoryOf(scenes, id)) && B.StoryOf(scenes, id).id == id
  {
    if scenes == [] {
      assert ScenesAt(scenes, id, [], []);
      assert WithPrimary(scenes, Some(id)) == {};
    } else {
      var before, last := scenes[..|scenes| - 1], scenes[|scenes| - 1];
      assert scenes == before + [last];
      StoryMeans(before, id);
      var story := B.StoryOf(before, id);
      var positions :| ScenesAt(before, id, story.scenes, positions);
      ScenesAtNext(before, last, id, story.scenes, positions);
      WithPrimaryNext(before, last, Some(id));
      assert story.scenes + [] == story.scenes;
    }
  }

  lemma {:induction false} SelectedMeans(scenes: seq<S.Scene>)
    ensures B.SelectedCount(scenes) == |WithPrimary(scenes, None)|
  {
    if scenes == [] {
      assert WithPrimary(scenes, None) == {};
    } else {
      var before, last := scenes[..|scenes| - 1], scenes[|scenes| - 1];
      assert scenes == before + [last];
      SelectedMeans(before);
      WithPrimaryNext(before, last, None);
    }
  }

  // ---------------------------------------------------------------- the response

  /** One scene for each story and scene id that comes up, in order. */
  ghost predicate ScenesSay(rows: seq<S.Row>, scenes: seq<S.Scene>)
  {
    && (forall k {:trigger scenes[k]} :: 0 <= k < |scenes| ==> SceneSays(rows, scenes[k]))
    && (forall k, l :: 0 <= k < l < |scenes| ==> Ahead(scenes[k].place, scenes[l].place))
    && (forall i {:trigger rows[i]} :: 0 <= i < |rows| && Within(rows[i], Everywhere) ==>
          exists k :: 0 <= k < |scenes| && Within(rows[i], At(scenes[k].place.story, scenes[k].place.scene)))
  }

  predicate HasId(stories: seq<B.Story>, id: string)
  {
    exists k :: 0 <= k < |stories| && stories[k].id == id
  }

  /** One story for each story id of the scenes, by id. */
  ghost predicate StoriesSay(scenes: seq<S.Scene>, stories: seq<B.Story>)
  {
    && (forall k :: 0 <= k < |stories| ==> StorySays(scenes, stories[k]))
    && (forall k, l :: 0 <= k < l < |stories| ==> Before(stories[k].id, stories[l].id))
    && (forall n :: 0 <= n < |scenes| ==> HasId(stories, scenes[n].place.story))
    && (forall k :: 0 <= k < |stories| ==> stories[k].scenes != [])
  }

  /** What the response says of the rows. */
  ghost predicate Says(rows: seq<S.Row>, r: B.Response)
  {
    && ScenesSay(rows, r.scenes) && StoriesSay(r.scenes, r.stories)
    && (forall c :: c != S.Attempts ==> r.counts[c] == |TaskIds(rows, Everywhere, c)| + |AssetRows(rows, Everywhere, c)|)
    && r.sceneCount == |r.scenes| && r.storyCount == |r.stories|
    && r.sceneWithSelectedCount == |WithPrimary(r.scenes, None)|
    && r.sceneMissingSelectedCount == |r.scenes| - |WithPrimary(r.scenes, None)|
  }

  lemma {:induction false} ScenesMean(rows: seq<S.Row>, scenes: seq<S.Scene>)
    requires S.WellFormed(rows) && B.SceneList(rows, scenes)
    ensures ScenesSay(rows, scenes)
  {
    forall k | 0 <= k < |scenes|
      ensures SceneSays(rows, scenes[k])
    {
      assert B.Final(rows, scenes[k]);
      SceneMeans(rows, scenes[k]);
    }
    forall k, l | 0 <= k < l < |scenes|
      ensures Ahead(scenes[k].place, scenes[l].place)
    {
      assert B.SceneLess(scenes[k], scenes[l]);
      PrecedesMeans(scenes[k].place, scenes[l].place);
    }
    forall i | 0 <= i < |rows| && Within(rows[i], Everywhere)
      ensures exists k :: 0 <= k < |scenes| && Within(rows[i], At(scenes[k].place.story, scenes[k].place.scene))
    {
      assert B.HasPlace(B.Places(scenes), rows[i].place);
      var k :| 0 <= k < |B.Places(scenes)| && B.SamePlace(B.Places(scenes)[k], rows[i].place);
      assert Within(rows[i], At(scenes[k].place.story, scenes[k].place.scene));
    }
  }

  lemma {:induction false} StoriesMean(scenes: seq<S.Scene>, stories: seq<B.Story>)
    requires B.StoryList(scenes, stories)
    ensures StoriesSay(scenes, stories)
  {
    forall k | 0 <= k < |stories|
      ensures StorySays(scenes, stories[k]) && stories[k].scenes != []
    {
      StoryMeans(scenes, stories[k].id);
      assert B.Ids(stories)[k] in B.Ids(stories);
      var n :| 0 <= n < |scenes| && scenes[n].place.story == stories[k].id;
      var positions :| ScenesAt(scenes, stories[k].id, stories[k].scenes, positions);
      assert n in positions;
    }
    forall k, l | 0 <= k < l < |stories|
      ensures Before(stories[k].id, stories[l].id)
    {
      assert B.StringLess(B.Ids(stories)[k], B.Ids(stories)[l]);
    }
    forall n | 0 <= n < |scenes|
      ensures HasId(stories, scenes[n].place.story)
    {
      assert B.HasStory(scenes, scenes[n].place.story);
      var k :| 0 <= k < |B.Ids(stories)| && B.Ids(stories)[k] == scenes[n].place.story;
      assert stories[k].id == scenes[n].place.story;
    }
  }

  /** The summary of every query: its scenes, stories and counters in terms of the rows. */
  lemma {:induction false} SummaryMeans(rows: seq<S.Row>, r: B.Response)
    requires S.WellFormed(rows) && B.Summary(rows, r)
    ensures Says(rows, r)
  {
    ScenesMean(rows, r.scenes);
    StoriesMean(r.scenes, r.stories);
    SelectedMeans(r.scenes);
    forall c | c != S.Attempts
      ensures r.counts[c] == |TaskIds(rows, Everywhere, c)| + |AssetRows(rows, Everywhere, c)|
    {
      CountersCount(rows, Everywhere, c);
    }
  }
}
