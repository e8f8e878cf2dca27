/** What each store operation does to the tables (internal/store/postgres.go). An operation that
    fails rolls its transaction back, so its result carries no database. */
module StoreOps {
  import opened Database
  import opened Text

  // ---------------------------------------------------------------- review and archive transitions

  function NextStatus(action: Action): Result<AssetStatus>
  {
    match action
    case Approve => Ok(Approved)
    case Reject => Ok(Rejected)
    case Archive => Ok(Deprecated)
    case Restore => Ok(Draft)
    case Unknown(_) => Err(UnknownAction)
  }

  predicate CanTransition(current: AssetStatus, action: Action)
  {
    match action
    case Approve => current == Draft || current == Rejected
    case Reject => current == Draft || current == Approved
    case Archive => current == Draft || current == Rejected
    case Restore => current == Deprecated
    case Unknown(_) => false
  }

  /** GetAssetWithVersion: the asset joined with its current version and its task. */
  predicate Found(db: Db, a: Id)
  {
    a in db.assets && db.assets[a].currentVersion in db.versions && db.assets[a].task in db.tasks
  }

  /** reviewAssetTx and lifecycleAssetTx: nothing to do when the asset is there already,
      otherwise a legal transition writes the status and one event. */
  function Transition(db: Db, a: Id, action: Action): Result<Db>
    requires a in db.assets
  {
    var row := db.assets[a];
    var next := NextStatus(action);
    if next.Err? then Err(next.error)
    else if row.status == next.value then Ok(db)
    else if !CanTransition(row.status, action) then Err(IllegalTransition)
    else Ok(db.(assets := db.assets[a := row.(status := next.value)],
                reviews := db.reviews + [EventRow(a, row.currentVersion, action)]))
  }

  /** ReviewAsset and LifecycleAsset. */
  function Review(db: Db, a: Id, action: Action): Result<Db>
  {
    if Found(db, a) then Transition(db, a, action) else Err(NotFound)
  }

  // ---------------------------------------------------------------- best-of selection

  /** Reject the candidates one by one, in one transaction. */
  function RejectAll(db: Db, candidates: seq<Id>, task: Id, seen: set<Id>): Result<Db>
    decreases |candidates|
  {
    if candidates == [] then Ok(db)
    else
      var a := Trim(candidates[0]);
      if a == "" || a in seen then RejectAll(db, candidates[1..], task, seen)
      else if !Found(db, a) then Err(NotFound)
      else if db.assets[a].task != task then Err(WrongTask)
      else
        var r := Transition(db, a, Reject);
        if r.Err? then r else RejectAll(r.value, candidates[1..], task, seen + {a})
  }

  function ApplyBestOf(db: Db, selected: Id, candidates: seq<Id>): Result<Db>
  {
    if !Found(db, selected) then Err(NotFound)
    else
      var r := Transition(db, selected, Approve);
      if r.Err? then r else RejectAll(r.value, candidates, db.assets[selected].task, {selected})
  }

  // ---------------------------------------------------------------- inserts

  function CreateWorkspace(db: Db, w: Id): Result<Db>
  {
    if w in db.workspaces then Err(UniqueViolation) else Ok(db.(workspaces := db.workspaces + {w}))
  }

  /** INSERT ... SELECT FROM workspace: no such workspace, no row. */
  function CreateProject(db: Db, w: Id, p: Id): Result<Db>
  {
    if w !in db.workspaces then Err(NotFound)
    else if p in db.projects then Err(UniqueViolation)
    else Ok(db.(projects := db.projects[p := w]))
  }

  function CreateCampaign(db: Db, w: Id, p: Id, c: Id): Result<Db>
  {
    if p !in db.projects || db.projects[p] != w then Err(NotFound)
    else if c in db.campaigns then Err(UniqueViolation)
    else Ok(db.(campaigns := db.campaigns[c := CampaignRow(w, p)]))
  }

  predicate ScopeValid(db: Db, s: Scope)
  {
    s.workspace in db.workspaces && s.project in db.projects && s.campaign in db.campaigns
    && db.campaigns[s.campaign] == CampaignRow(s.workspace, s.project)
  }

  /** The tasks a retried creation would find. */
  ghost predicate Known(db: Db, row: TaskRow, t: Id)
  {
    row.idempotencyKey != "" && t in db.tasks && SameKey(db.tasks[t], row)
  }

  /** CreateTask: check the scope, answer a repeated key with the task it created, else insert.
      The checks and the insert count as one step. */
  ghost function CreateTask(db: Db, t: Id, row: TaskRow): Result<Db>
  {
    if !ScopeValid(db, row.scope) then Err(InvalidScope)
    else if exists u :: Known(db, row, u) then
      var u :| Known(db, row, u);
      if db.tasks[u].inputHash != row.inputHash then Err(IdempotencyConflict) else Ok(db)
    else if t in db.tasks then Err(UniqueViolation)
    else Ok(db.(tasks := db.tasks[t := row]))
  }

  function CreateAttempt(db: Db, attempt: Id, t: Id): Result<Db>
  {
    if attempt in db.attempts then Err(UniqueViolation)
    else if t !in db.tasks then Err(ForeignKeyViolation)
    else Ok(db.(attempts := db.attempts[attempt := t]))
  }

  /** InsertAssetWithVersion: the asset, its first version and the reference to it, in one
      transaction. `scope` comes from the task row the worker read when it started. */
  function InsertAsset(db: Db, a: Id, v: Id, t: Id, scope: Scope): Result<Db>
  {
    if a in db.assets || v in db.versions then Err(UniqueViolation)
    else if !ScopeRefs(db, scope) || t !in db.tasks then Err(ForeignKeyViolation)
    else Ok(db.(assets := db.assets[a := AssetRow(scope, t, v, Draft)], versions := db.versions[v := a]))
  }

  // ---------------------------------------------------------------- deletes

  /** Every row of one asset gone, every other row kept as it was. */
  function WithoutAsset(db: Db, a: Id): Db
  {
    db.(
      assets := db.assets - {a},
      versions := map v | v in db.versions && db.versions[v] != a :: db.versions[v],
      reviews := KeepReviews(db.reviews, {a}),
      deliveries := map d | d in db.deliveries && db.deliveries[d].asset != a :: db.deliveries[d])
  }

  /** DeleteCleanupAssetCandidate: the status is read again under a row lock. */
  function CleanupAsset(db: Db, scope: Scope, a: Id, allowed: set<AssetStatus>): Result<Db>
  {
    if !Found(db, a) || db.assets[a].scope != scope then Err(NotFound)
    else if db.assets[a].status !in allowed then Err(Protected(db.assets[a].status))
    else Ok(WithoutAsset(db, a))
  }

  /** DeleteWorkspace, DeleteProject, DeleteCampaign. */
  function DeleteScope(db: Db, target: Target): Result<Db>
  {
    if Exists(db, target) then Ok(Without(db, target)) else Err(NotFound)
  }

  // ---------------------------------------------------------------- one operation, a run

  datatype Op =
    | OpWorkspace(w: Id)
    | OpProject(w: Id, p: Id)
    | OpCampaign(w: Id, p: Id, c: Id)
    | OpTask(t: Id, row: TaskRow)
    | OpAttempt(attempt: Id, t: Id)
    | OpAsset(a: Id, v: Id, t: Id, scope: Scope)
    | OpReview(a: Id, action: Action)
    | OpBestOf(selected: Id, candidates: seq<Id>)
    | OpCleanup(scope: Scope, a: Id, allowed: set<AssetStatus>)
    | OpDelete(target: Target)

  /** A worker registers assets under the scope it read from the task's row. */
  predicate Genuine(db: Db, op: Op)
  {
    op.OpAsset? && op.t in db.tasks ==> op.scope == db.tasks[op.t].scope
  }

  ghost function Perform(db: Db, op: Op): Result<Db>
  {
    match op
    case OpWorkspace(w) => CreateWorkspace(db, w)
    case OpProject(w, p) => CreateProject(db, w, p)
    case OpCampaign(w, p, c) => CreateCampaign(db, w, p, c)
    case OpTask(t, row) => CreateTask(db, t, row)
    case OpAttempt(attempt, t) => CreateAttempt(db, attempt, t)
    case OpAsset(a, v, t, scope) => InsertAsset(db, a, v, t, scope)
    case OpReview(a, action) => Review(db, a, action)
    case OpBestOf(selected, candidates) => ApplyBestOf(db, selected, candidates)
    case OpCleanup(scope, a, allowed) => CleanupAsset(db, scope, a, allowed)
    case OpDelete(target) => DeleteScope(db, target)
  }

  /** A failed operation leaves the tables as they were. */
  ghost function After(db: Db, op: Op): Db
  {
    var r := Perform(db, op);
    if r.Ok? then r.value else db
  }

  ghost predicate Legal(db: Db, ops: seq<Op>)
    decreases |ops|
  {
    ops != [] ==> Genuine(db, ops[0]) && Legal(After(db, ops[0]), ops[1..])
  }

  ghost function AfterAll(db: Db, ops: seq<Op>): Db
    decreases |ops|
  {
    if ops == [] then db else AfterAll(After(db, ops[0]), ops[1..])
  }
}
