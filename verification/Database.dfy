/** The relational store: the tables, their foreign keys and the agreement of scope columns that
    no foreign key enforces (internal/db/migrations.go, internal/store/postgres.go). */
module Database {

  type Id = string

  datatype Scope = Scope(workspace: Id, project: Id, campaign: Id)

  datatype AssetStatus = Draft | Approved | Rejected | Published | Deprecated

  datatype Action = Approve | Reject | Archive | Restore | Unknown(name: string)

  datatype CampaignRow = CampaignRow(workspace: Id, project: Id)

  datatype TaskRow = TaskRow(scope: Scope, idempotencyKey: string, inputHash: string)

  datatype AssetRow = AssetRow(scope: Scope, task: Id, currentVersion: Id, status: AssetStatus)

  datatype EventRow = EventRow(asset: Id, version: Id, action: Action)

  /** `projects` maps a project to its workspace, `attempts` an attempt to its task, `versions` a
      version to its asset. Review events are kept in insertion order. */
  datatype Db = Db(
    workspaces: set<Id>,
    projects: map<Id, Id>,
    campaigns: map<Id, CampaignRow>,
    tasks: map<Id, TaskRow>,
    attempts: map<Id, Id>,
    assets: map<Id, AssetRow>,
    versions: map<Id, Id>,
    reviews: seq<EventRow>,
    deliveries: map<Id, EventRow>)

  datatype Error = NotFound | ForeignKeyViolation | UniqueViolation | InvalidScope | IdempotencyConflict
                 | Protected(status: AssetStatus) | IllegalTransition | UnknownAction | WrongTask

  datatype Result<T> = Ok(value: T) | Err(error: Error)

  function Empty(): Db
  {
    Db({}, map[], map[], map[], map[], map[], map[], [], map[])
  }

  // ---------------------------------------------------------------- foreign keys

  predicate ScopeRefs(db: Db, s: Scope)
  {
    s.workspace in db.workspaces && s.project in db.projects && s.campaign in db.campaigns
  }

  predicate EventRefs(db: Db, e: EventRow)
  {
    e.asset in db.assets && e.version in db.versions
  }

  predicate ProjectRefs(db: Db)
  {
    forall p :: p in db.projects ==> db.projects[p] in db.workspaces
  }

  predicate CampaignRefs(db: Db)
  {
    forall c :: c in db.campaigns ==> db.campaigns[c].workspace in db.workspaces && db.campaigns[c].project in db.projects
  }

  predicate TaskRefs(db: Db)
  {
    forall t :: t in db.tasks ==> ScopeRefs(db, db.tasks[t].scope)
  }

  predicate AttemptRefs(db: Db)
  {
    forall a :: a in db.attempts ==> db.attempts[a] in db.tasks
  }

  predicate AssetRefs(db: Db)
  {
    forall a :: a in db.assets ==> ScopeRefs(db, db.assets[a].scope) && db.assets[a].task in db.tasks
  }

  predicate VersionRefs(db: Db)
  {
    forall v :: v in db.versions ==> db.versions[v] in db.assets
  }

  predicate ReviewRefs(db: Db)
  {
    forall i :: 0 <= i < |db.reviews| ==> EventRefs(db, db.reviews[i])
  }

  predicate DeliveryRefs(db: Db)
  {
    forall d :: d in db.deliveries ==> EventRefs(db, db.deliveries[d])
  }

  /** Every REFERENCES clause of the schema. */
  predicate ForeignKeys(db: Db)
  {
    && ProjectRefs(db) && CampaignRefs(db) && TaskRefs(db) && AttemptRefs(db)
    && AssetRefs(db) && VersionRefs(db) && ReviewRefs(db) && DeliveryRefs(db)
  }

  // ---------------------------------------------------------------- scope agreement

  predicate EventAgrees(db: Db, e: EventRow)
  {
    e.version in db.versions && db.versions[e.version] == e.asset
  }

  ghost predicate CampaignsAgree(db: Db)
  {
    forall c :: c in db.campaigns && db.campaigns[c].project in db.projects ==>
      db.campaigns[c].workspace == db.projects[db.campaigns[c].project]
  }

  ghost predicate TasksAgree(db: Db)
  {
    forall t :: t in db.tasks && db.tasks[t].scope.campaign in db.campaigns ==>
      db.campaigns[db.tasks[t].scope.campaign] == CampaignRow(db.tasks[t].scope.workspace, db.tasks[t].scope.project)
  }

  ghost predicate AssetsAgree(db: Db)
  {
    && (forall a :: a in db.assets && db.assets[a].task in db.tasks ==> db.assets[a].scope == db.tasks[db.assets[a].task].scope)
    && (forall a :: a in db.assets ==>
          db.assets[a].currentVersion in db.versions && db.versions[db.assets[a].currentVersion] == a)
  }

  ghost predicate EventsAgree(db: Db)
  {
    && (forall i :: 0 <= i < |db.reviews| ==> EventAgrees(db, db.reviews[i]))
    && (forall d :: d in db.deliveries ==> EventAgrees(db, db.deliveries[d]))
  }

  /** The scope columns of a row repeat those of its parents, an asset's current version is its
      own, and an event names a version of its asset. Nothing in the schema enforces this. */
  ghost predicate ScopesAgree(db: Db)
  {
    CampaignsAgree(db) && TasksAgree(db) && AssetsAgree(db) && EventsAgree(db)
  }

  /** generation_task_idempotency_idx: one task per non-empty key within a project. */
  ghost predicate KeysUnique(db: Db)
  {
    forall t, u :: t in db.tasks && u in db.tasks && t != u && db.tasks[t].idempotencyKey != "" ==>
      !SameKey(db.tasks[t], db.tasks[u])
  }

  predicate SameKey(a: TaskRow, b: TaskRow)
  {
    && a.scope.workspace == b.scope.workspace && a.scope.project == b.scope.project
    && a.idempotencyKey == b.idempotencyKey
  }

  ghost predicate Consistent(db: Db)
  {
    ForeignKeys(db) && ScopesAgree(db) && KeysUnique(db)
  }

  // ---------------------------------------------------------------- scoped deletes

  /** The scope of a cascade: a workspace, a project of it, or a campaign of that. */
  datatype Target = OfWorkspace(workspace: Id) | OfProject(workspace: Id, project: Id)
                  | OfCampaign(workspace: Id, project: Id, campaign: Id)

  predicate Matches(target: Target, s: Scope)
  {
    && s.workspace == target.workspace
    && (target.OfWorkspace? || s.project == target.project)
    && (target.OfCampaign? ==> s.campaign == target.campaign)
  }

  predicate MatchesAsset(db: Db, target: Target, a: Id)
  {
    a in db.assets && Matches(target, db.assets[a].scope)
  }

  predicate MatchesTask(db: Db, target: Target, t: Id)
  {
    t in db.tasks && Matches(target, db.tasks[t].scope)
  }

  predicate MatchesCampaign(db: Db, target: Target, c: Id)
  {
    c in db.campaigns && Matches(target, Scope(db.campaigns[c].workspace, db.campaigns[c].project, c))
  }

  predicate MatchesProject(db: Db, target: Target, p: Id)
  {
    p in db.projects && !target.OfCampaign? && db.projects[p] == target.workspace && (target.OfProject? ==> p == target.project)
  }

  predicate MatchesWorkspace(target: Target, w: Id)
  {
    target.OfWorkspace? && w == target.workspace
  }

  datatype Statement =
    | DeleteDeliveryEvents
    | DeleteReviewEvents
    | DeleteVersions
    | DeleteAssets
    | DeleteAttempts
    | DeleteTasks
    | DeleteCampaigns
    | DeleteProjects
    | DeleteWorkspaces

  /** Review events whose asset is not among `assets`, in their order. */
  function KeepReviews(reviews: seq<EventRow>, assets: set<Id>): seq<EventRow>
  {
    if reviews == [] then []
    else
      var last := reviews[|reviews| - 1];
      KeepReviews(reviews[..|reviews| - 1], assets) + if last.asset in assets then [] else [last]
  }

  /** The effect of one DELETE. Events and versions are selected through their asset row,
      attempts through their task row, so rows whose parent is gone already are not selected. */
  function Delete(db: Db, target: Target, statement: Statement): Db
  {
    match statement
    case DeleteDeliveryEvents =>
      db.(deliveries := map d | d in db.deliveries && !MatchesAsset(db, target, db.deliveries[d].asset) :: db.deliveries[d])
    case DeleteReviewEvents =>
      db.(reviews := KeepReviews(db.reviews, set a | a in db.assets && MatchesAsset(db, target, a)))
    case DeleteVersions =>
      db.(versions := map v | v in db.versions && !MatchesAsset(db, target, db.versions[v]) :: db.versions[v])
    case DeleteAssets =>
      db.(assets := map a | a in db.assets && !MatchesAsset(db, target, a) :: db.assets[a])
    case DeleteAttempts =>
      db.(attempts := map a | a in db.attempts && !MatchesTask(db, target, db.attempts[a]) :: db.attempts[a])
    case DeleteTasks =>
      db.(tasks := map t | t in db.tasks && !MatchesTask(db, target, t) :: db.tasks[t])
    case DeleteCampaigns =>
      db.(campaigns := map c | c in db.campaigns && !MatchesCampaign(db, target, c) :: db.campaigns[c])
    case DeleteProjects =>
      db.(projects := map p | p in db.projects && !MatchesProject(db, target, p) :: db.projects[p])
    case DeleteWorkspaces =>
      db.(workspaces := set w | w in db.workspaces && !MatchesWorkspace(target, w))
  }

  /** The database checks foreign keys at the end of every statement. */
  function Execute(db: Db, target: Target, statement: Statement): Result<Db>
  {
    if ForeignKeys(Delete(db, target, statement)) then Ok(Delete(db, target, statement)) else Err(ForeignKeyViolation)
  }

  function ExecuteAll(db: Db, target: Target, statements: seq<Statement>): Result<Db>
    decreases |statements|
  {
    if statements == [] then Ok(db)
    else
      var r := Execute(db, target, statements[0]);
      if r.Ok? then ExecuteAll(r.value, target, statements[1..]) else r
  }

  const ASSET_CASCADE := [DeleteDeliveryEvents, DeleteReviewEvents, DeleteVersions, DeleteAssets, DeleteAttempts, DeleteTasks]

  /** The statements of DeleteWorkspace, DeleteProject and DeleteCampaign, in their order. */
  function CascadeStatements(target: Target): seq<Statement>
  {
    match target
    case OfWorkspace(_) => ASSET_CASCADE + [DeleteCampaigns, DeleteProjects, DeleteWorkspaces]
    case OfProject(_, _) => ASSET_CASCADE + [DeleteCampaigns, DeleteProjects]
    case OfCampaign(_, _, _) => ASSET_CASCADE + [DeleteCampaigns]
  }

  /** Every row of the scope gone, every other row kept as it was. */
  function Without(db: Db, target: Target): Db
  {
    Db(
      set w | w in db.workspaces && !MatchesWorkspace(target, w),
      map p | p in db.projects && !MatchesProject(db, target, p) :: db.projects[p],
      map c | c in db.campaigns && !MatchesCampaign(db, target, c) :: db.campaigns[c],
      map t | t in db.tasks && !MatchesTask(db, target, t) :: db.tasks[t],
      map a | a in db.attempts && !MatchesTask(db, target, db.attempts[a]) :: db.attempts[a],
      map a | a in db.assets && !MatchesAsset(db, target, a) :: db.assets[a],
      map v | v in db.versions && !MatchesAsset(db, target, db.versions[v]) :: db.versions[v],
      KeepReviews(db.reviews, set a | a in db.assets && MatchesAsset(db, target, a)),
      map d | d in db.deliveries && !MatchesAsset(db, target, db.deliveries[d].asset) :: db.deliveries[d])
  }

  /** The row the cascade is called for exists. */
  predicate Exists(db: Db, target: Target)
  {
    match target
    case OfWorkspace(w) => w in db.workspaces
    case OfProject(w, p) => p in db.projects && db.projects[p] == w
    case OfCampaign(w, p, c) => c in db.campaigns && db.campaigns[c] == CampaignRow(w, p)
  }
}
