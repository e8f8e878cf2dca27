/** What every sequence of store operations keeps: the foreign keys, the agreement of scopes, and
    an event log that explains every asset's status. */
module StoreInvariants {
  import opened Database
  import opened StoreOps
  import opened Cascade
  import opened Text

  // ---------------------------------------------------------------- consistency

  /** Nothing refers to the rows a larger table gains, so adding rows strands none. */
  lemma MoreParents(db: Db, d: Db)
    requires ReviewRefs(db) && DeliveryRefs(db) && EventsAgree(db)
    requires d.reviews == db.reviews && d.deliveries == db.deliveries
    requires db.assets.Keys <= d.assets.Keys && db.versions.Keys <= d.versions.Keys
    requires forall v :: v in db.versions ==> d.versions[v] == db.versions[v]
    ensures ReviewRefs(d) && DeliveryRefs(d) && EventsAgree(d)
  {
    forall i | 0 <= i < |d.reviews|
      ensures EventRefs(d, d.reviews[i]) && EventAgrees(d, d.reviews[i])
    {
      assert EventRefs(db, db.reviews[i]) && EventAgrees(db, db.reviews[i]);
    }
    forall x | x in d.deliveries
      ensures EventRefs(d, d.deliveries[x]) && EventAgrees(d, d.deliveries[x])
    {
      assert EventRefs(db, db.deliveries[x]) && EventAgrees(db, db.deliveries[x]);
    }
  }

  /** What concerns the tables above assets does not depend on assets. */
  lemma UpperTablesStay(db: Db, d: Db)
    requires ProjectRefs(db) && CampaignRefs(db) && TaskRefs(db) && AttemptRefs(db)
    requires CampaignsAgree(db) && TasksAgree(db) && KeysUnique(db)
    requires d.workspaces == db.workspaces && d.projects == db.projects && d.campaigns == db.campaigns
    requires d.tasks == db.tasks && d.attempts == db.attempts
    ensures ProjectRefs(d) && CampaignRefs(d) && TaskRefs(d) && AttemptRefs(d)
    ensures CampaignsAgree(d) && TasksAgree(d) && KeysUnique(d)
  {
  }

  lemma CreateWorkspaceKeepsConsistency(db: Db, w: Id)
    requires Consistent(db) && CreateWorkspace(db, w).Ok?
    ensures Consistent(CreateWorkspace(db, w).value)
  {
    MoreParents(db, CreateWorkspace(db, w).value);
  }

  lemma CreateProjectKeepsConsistency(db: Db, w: Id, p: Id)
    requires Consistent(db) && CreateProject(db, w, p).Ok?
    ensures Consistent(CreateProject(db, w, p).value)
  {
    MoreParents(db, CreateProject(db, w, p).value);
  }

  lemma CreateCampaignKeepsConsistency(db: Db, w: Id, p: Id, c: Id)
    requires Consistent(db) && CreateCampaign(db, w, p, c).Ok?
    ensures Consistent(CreateCampaign(db, w, p, c).value)
  {
    MoreParents(db, CreateCampaign(db, w, p, c).value);
  }

  lemma NewKeyIsUnique(db: Db, t: Id, row: TaskRow)
    requires KeysUnique(db) && t !in db.tasks && !exists u :: Known(db, row, u)
    ensures KeysUnique(db.(tasks := db.tasks[t := row]))
  {
    forall u | u in db.tasks && (row.idempotencyKey != "" || db.tasks[u].idempotencyKey != "")
      ensures !SameKey(db.tasks[u], row) && !SameKey(row, db.tasks[u])
    {
      assert !Known(db, row, u);
    }
  }

  lemma NewTaskAgrees(db: Db, t: Id, row: TaskRow, d: Db)
    requires TaskRefs(db) && AttemptRefs(db) && AssetRefs(db) && TasksAgree(db) && AssetsAgree(db)
    requires t !in db.tasks && ScopeValid(db, row.scope) && d == db.(tasks := db.tasks[t := row])
    ensures TaskRefs(d) && AttemptRefs(d) && AssetRefs(d) && TasksAgree(d) && AssetsAgree(d)
  {
  }

  lemma CreateTaskKeepsConsistency(db: Db, t: Id, row: TaskRow)
    requires Consistent(db) && CreateTask(db, t, row).Ok?
    ensures Consistent(CreateTask(db, t, row).value)
  {
    var d := db.(tasks := db.tasks[t := row]);
    if CreateTask(db, t, row).value != db {
      assert CreateTask(db, t, row).value == d;
      NewKeyIsUnique(db, t, row);
      NewTaskAgrees(db, t, row, d);
      MoreParents(db, d);
    }
  }

  lemma CreateAttemptKeepsConsistency(db: Db, attempt: Id, t: Id)
    requires Consistent(db) && CreateAttempt(db, attempt, t).Ok?
    ensures Consistent(CreateAttempt(db, attempt, t).value)
  {
    var d := db.(attempts := db.attempts[attempt := t]);
    MoreParents(db, d);
    UpperTablesStay(db, d.(attempts := db.attempts));
    assert AttemptRefs(d) && AssetRefs(d) && VersionRefs(d) && AssetsAgree(d);
  }

  lemma InsertAssetKeepsConsistency(db: Db, a: Id, v: Id, t: Id, scope: Scope)
    requires Consistent(db) && InsertAsset(db, a, v, t, scope).Ok? && scope == db.tasks[t].scope
    ensures Consistent(InsertAsset(db, a, v, t, scope).value)
  {
    var d := db.(assets := db.assets[a := AssetRow(scope, t, v, Draft)], versions := db.versions[v := a]);
    MoreParents(db, d);
    UpperTablesStay(db, d);
    NewAssetAgrees(db, a, v, t, scope, d);
  }

  lemma NewAssetAgrees(db: Db, a: Id, v: Id, t: Id, scope: Scope, d: Db)
    requires AssetRefs(db) && VersionRefs(db) && AssetsAgree(db)
    requires a !in db.assets && v !in db.versions && t in db.tasks && scope == db.tasks[t].scope && ScopeRefs(db, scope)
    requires d == db.(assets := db.assets[a := AssetRow(scope, t, v, Draft)], versions := db.versions[v := a])
    ensures AssetRefs(d) && VersionRefs(d) && AssetsAgree(d)
  {
  }

  lemma StatusChangeKeepsConsistency(db: Db, a: Id, status: AssetStatus, d: Db)
    requires Consistent(db) && a in db.assets
    requires d == db.(assets := db.assets[a := db.assets[a].(status := status)])
    ensures Consistent(d)
  {
    MoreParents(db, d);
    StatusChangeAgrees(db, a, status, d);
    UpperTablesStay(db, d);
  }

  lemma StatusChangeAgrees(db: Db, a: Id, status: AssetStatus, d: Db)
    requires AssetRefs(db) && VersionRefs(db) && AssetsAgree(db) && a in db.assets
    requires d == db.(assets := db.assets[a := db.assets[a].(status := status)])
    ensures AssetRefs(d) && VersionRefs(d) && AssetsAgree(d)
  {
  }

  lemma EventKeepsConsistency(db: Db, e: EventRow, d: Db)
    requires Consistent(db) && EventRefs(db, e) && EventAgrees(db, e)
    requires d == db.(reviews := db.reviews + [e])
    ensures Consistent(d)
  {
    EventIsSound(db, e, d);
    UpperTablesStay(db, d);
    assert AssetRefs(d) && VersionRefs(d) && AssetsAgree(d);
  }

  lemma EventIsSound(db: Db, e: EventRow, d: Db)
    requires ReviewRefs(db) && DeliveryRefs(db) && EventsAgree(db) && EventRefs(db, e) && EventAgrees(db, e)
    requires d == db.(reviews := db.reviews + [e])
    ensures ReviewRefs(d) && DeliveryRefs(d) && EventsAgree(d)
  {
    forall i | 0 <= i < |d.reviews|
      ensures EventRefs(d, d.reviews[i]) && EventAgrees(d, d.reviews[i])
    {
      var x := d.reviews[i];
      assert EventRefs(db, x) && EventAgrees(db, x);
    }
    forall x | x in d.deliveries
      ensures EventRefs(d, d.deliveries[x]) && EventAgrees(d, d.deliveries[x])
    {
      assert EventRefs(db, db.deliveries[x]) && EventAgrees(db, db.deliveries[x]);
    }
  }

  lemma CurrentVersionIsSound(db: Db, a: Id)
    requires Consistent(db) && a in db.assets
    ensures forall action :: EventRefs(db, EventRow(a, db.assets[a].currentVersion, action))
                             && EventAgrees(db, EventRow(a, db.assets[a].currentVersion, action))
  {
  }

  lemma TransitionKeepsConsistency(db: Db, a: Id, action: Action)
    requires Consistent(db) && a in db.assets && Transition(db, a, action).Ok?
    ensures Consistent(Transition(db, a, action).value)
  {
    var d := Transition(db, a, action).value;
    if d != db {
      LoggedChangeKeepsConsistency(db, a, NextStatus(action).value, action, d);
    }
  }

  lemma LoggedChangeKeepsConsistency(db: Db, a: Id, status: AssetStatus, action: Action, d: Db)
    requires Consistent(db) && a in db.assets
    requires d == db.(assets := db.assets[a := db.assets[a].(status := status)],
                      reviews := db.reviews + [EventRow(a, db.assets[a].currentVersion, action)])
    ensures Consistent(d)
  {
    var row := db.assets[a];
    var m := db.(assets := db.assets[a := row.(status := status)]);
    StatusChangeKeepsConsistency(db, a, status, m);
    CurrentVersionIsSound(m, a);
    EventKeepsConsistency(m, EventRow(a, row.currentVersion, action), d);
  }

  lemma {:induction false} RejectAllKeepsConsistency(db: Db, candidates: seq<Id>, task: Id, seen: set<Id>)
    requires Consistent(db) && RejectAll(db, candidates, task, seen).Ok?
    ensures Consistent(RejectAll(db, candidates, task, seen).value)
    decreases |candidates|
  {
    if candidates != [] {
      var a := Trim(candidates[0]);
      if a == "" || a in seen {
        RejectAllKeepsConsistency(db, candidates[1..], task, seen);
      } else {
        TransitionKeepsConsistency(db, a, Reject);
        RejectAllKeepsConsistency(Transition(db, a, Reject).value, candidates[1..], task, seen + {a});
      }
    }
  }

  lemma WithoutAssetKeepsEvents(db: Db, a: Id)
    requires EventsSound(db)
    ensures var w := WithoutAsset(db, a);
            ReviewRefs(w) && DeliveryRefs(w) && EventsAgree(w)
  {
    var w := WithoutAsset(db, a);
    KeepReviewsKeeps(db.reviews, {a});
    forall i | 0 <= i < |w.reviews|
      ensures EventRefs(w, w.reviews[i]) && EventAgrees(w, w.reviews[i])
    {
      var e := w.reviews[i];
      assert EventRefs(db, e) && EventAgrees(db, e);
    }
    forall x | x in w.deliveries
      ensures EventRefs(w, w.deliveries[x]) && EventAgrees(w, w.deliveries[x])
    {
      assert EventRefs(db, db.deliveries[x]) && EventAgrees(db, db.deliveries[x]);
    }
  }

  lemma WithoutAssetKeepsConsistency(db: Db, a: Id)
    requires Consistent(db)
    ensures Consistent(WithoutAsset(db, a))
  {
    ConsistentEvents(db);
    WithoutAssetKeepsEvents(db, a);
    UpperTablesStay(db, WithoutAsset(db, a));
  }

  lemma InsertionKeepsConsistency(db: Db, op: Op)
    requires Consistent(db) && Genuine(db, op) && Perform(db, op).Ok?
    requires !op.OpReview? && !op.OpBestOf? && !op.OpCleanup? && !op.OpDelete?
    ensures Consistent(Perform(db, op).value)
  {
    match op
    case OpWorkspace(w) => CreateWorkspaceKeepsConsistency(db, w);
    case OpProject(w, p) => CreateProjectKeepsConsistency(db, w, p);
    case OpCampaign(w, p, c) => CreateCampaignKeepsConsistency(db, w, p, c);
    case OpTask(t, row) => CreateTaskKeepsConsistency(db, t, row);
    case OpAttempt(attempt, t) => CreateAttemptKeepsConsistency(db, attempt, t);
    case OpAsset(a, v, t, scope) => InsertAssetKeepsConsistency(db, a, v, t, scope);
  }

  lemma SelectionKeepsConsistency(db: Db, selected: Id, candidates: seq<Id>)
    requires Consistent(db) && ApplyBestOf(db, selected, candidates).Ok?
    ensures Consistent(ApplyBestOf(db, selected, candidates).value)
  {
    TransitionKeepsConsistency(db, selected, Approve);
    RejectAllKeepsConsistency(Transition(db, selected, Approve).value, candidates, db.assets[selected].task, {selected});
  }

  /** Referential integrity of one operation: it keeps every foreign key and every agreement of
      scope columns, or fails and changes nothing. */
  lemma OperationKeepsConsistency(db: Db, op: Op)
    requires Consistent(db) && Genuine(db, op)
    ensures Consistent(After(db, op))
  {
    if Perform(db, op).Ok? {
      match op {
        case OpReview(a, action) => TransitionKeepsConsistency(db, a, action);
        case OpBestOf(selected, candidates) => SelectionKeepsConsistency(db, selected, candidates);
        case OpCleanup(scope, a, allowed) => WithoutAssetKeepsConsistency(db, a);
        case OpDelete(target) => WithoutIsConsistent(db, target);
        case _ => InsertionKeepsConsistency(db, op);
      }
    }
  }

  // ---------------------------------------------------------------- the event log

  function EventsOf(reviews: seq<EventRow>, a: Id): seq<Action>
  {
    if reviews == [] then []
    else
      var last := reviews[|reviews| - 1];
      EventsOf(reviews[..|reviews| - 1], a) + if last.asset == a then [last.action] else []
  }

  datatype Replayed = Status(status: AssetStatus) | Illegal

  /** One logged event: a transition the tables allow, that changes the status. */
  function ReplayStep(r: Replayed, action: Action): Replayed
  {
    if r.Status? && CanTransition(r.status, action) && NextStatus(action).Ok? && NextStatus(action).value != r.status
    then Status(NextStatus(action).value) else Illegal
  }

  function Replay(actions: seq<Action>): Replayed
  {
    if actions == [] then Status(Draft) else ReplayStep(Replay(actions[..|actions| - 1]), actions[|actions| - 1])
  }

  /** Replaying an asset's log from draft is legal at every event and ends in its stored status. */
  ghost predicate LogExplainsStatus(db: Db)
  {
    forall a :: a in db.assets ==> Replay(EventsOf(db.reviews, a)) == Status(db.assets[a].status)
  }

  lemma EventsOfAppended(reviews: seq<EventRow>, e: EventRow, a: Id)
    ensures EventsOf(reviews + [e], a) == EventsOf(reviews, a) + if e.asset == a then [e.action] else []
  {
    assert (reviews + [e])[..|reviews|] == reviews;
  }

  lemma {:induction false} EventsOfKept(reviews: seq<EventRow>, gone: set<Id>, a: Id)
    requires a !in gone
    ensures EventsOf(KeepReviews(reviews, gone), a) == EventsOf(reviews, a)
  {
    if reviews != [] {
      var init, last := reviews[..|reviews| - 1], reviews[|reviews| - 1];
      EventsOfKept(init, gone, a);
      if last.asset in gone {
        assert KeepReviews(reviews, gone) == KeepReviews(init, gone);
        assert EventsOf(reviews, a) == EventsOf(init, a);
      } else {
        EventsOfAppended(KeepReviews(init, gone), last, a);
      }
    }
  }

  lemma {:induction false} NoEventsOf(reviews: seq<EventRow>, a: Id)
    requires forall i :: 0 <= i < |reviews| ==> reviews[i].asset != a
    ensures EventsOf(reviews, a) == []
  {
    if reviews != [] {
      NoEventsOf(reviews[..|reviews| - 1], a);
    }
  }

  lemma ReplayAppended(actions: seq<Action>, action: Action)
    ensures Replay(actions + [action]) == ReplayStep(Replay(actions), action)
  {
    assert (actions + [action])[..|actions|] == actions;
  }

  lemma EventIsReplayed(reviews: seq<EventRow>, e: EventRow, u: Id)
    ensures Replay(EventsOf(reviews + [e], u))
            == if e.asset == u then ReplayStep(Replay(EventsOf(reviews, u)), e.action) else Replay(EventsOf(reviews, u))
  {
    EventsOfAppended(reviews, e, u);
    ReplayAppended(EventsOf(reviews, u), e.action);
    assert EventsOf(reviews, u) + [] == EventsOf(reviews, u);
  }

  lemma TransitionIsLogged(db: Db, a: Id, action: Action)
    requires LogExplainsStatus(db) && a in db.assets && Transition(db, a, action).Ok?
    ensures LogExplainsStatus(Transition(db, a, action).value)
  {
    var d := Transition(db, a, action).value;
    if d != db {
      forall u | u in d.assets
        ensures Replay(EventsOf(d.reviews, u)) == Status(d.assets[u].status)
      {
        var e := EventRow(a, db.assets[a].currentVersion, action);
        EventIsReplayed(db.reviews, e, u);
        TransitionStatus(db, a, action, d, u);
      }
    }
  }

  lemma TransitionStatus(db: Db, a: Id, action: Action, d: Db, u: Id)
    requires a in db.assets && Transition(db, a, action) == Ok(d) && d != db && u in d.assets
    ensures d.reviews == db.reviews + [EventRow(a, db.assets[a].currentVersion, action)]
    ensures u in db.assets
    ensures Status(d.assets[u].status) ==
            if a == u then ReplayStep(Status(db.assets[u].status), action) else Status(db.assets[u].status)
  {
  }

  lemma {:induction false} RejectAllIsLogged(db: Db, candidates: seq<Id>, task: Id, seen: set<Id>)
    requires LogExplainsStatus(db) && RejectAll(db, candidates, task, seen).Ok?
    ensures LogExplainsStatus(RejectAll(db, candidates, task, seen).value)
    decreases |candidates|
  {
    if candidates != [] {
      var a := Trim(candidates[0]);
      if a == "" || a in seen {
        RejectAllIsLogged(db, candidates[1..], task, seen);
      } else {
        TransitionIsLogged(db, a, Reject);
        RejectAllIsLogged(Transition(db, a, Reject).value, candidates[1..], task, seen + {a});
      }
    }
  }

  lemma DeleteKeepsLog(db: Db, d: Db, gone: set<Id>)
    requires LogExplainsStatus(db) && d.reviews == KeepReviews(db.reviews, gone)
    requires forall a :: a in d.assets ==> a in db.assets && a !in gone && d.assets[a] == db.assets[a]
    ensures LogExplainsStatus(d)
  {
    forall a | a in d.assets
      ensures Replay(EventsOf(d.reviews, a)) == Status(d.assets[a].status)
    {
      EventsOfKept(db.reviews, gone, a);
    }
  }

  lemma InsertAssetStartsLog(db: Db, a: Id, v: Id, t: Id, scope: Scope)
    requires Consistent(db) && LogExplainsStatus(db) && InsertAsset(db, a, v, t, scope).Ok?
    ensures LogExplainsStatus(InsertAsset(db, a, v, t, scope).value)
  {
    NewAssetHasNoEvents(db, a);
    var d := InsertAsset(db, a, v, t, scope).value;
    assert d.reviews == db.reviews && d.assets == db.assets[a := AssetRow(scope, t, v, Draft)];
  }

  lemma NewAssetHasNoEvents(db: Db, a: Id)
    requires ReviewRefs(db) && a !in db.assets
    ensures EventsOf(db.reviews, a) == []
  {
    assert forall i :: 0 <= i < |db.reviews| ==> EventRefs(db, db.reviews[i]);
    NoEventsOf(db.reviews, a);
  }

  lemma BestOfIsLogged(db: Db, selected: Id, candidates: seq<Id>)
    requires LogExplainsStatus(db) && ApplyBestOf(db, selected, candidates).Ok?
    ensures LogExplainsStatus(ApplyBestOf(db, selected, candidates).value)
  {
    TransitionIsLogged(db, selected, Approve);
    RejectAllIsLogged(Transition(db, selected, Approve).value, candidates, db.assets[selected].task, {selected});
  }

  lemma DeletesKeepLog(db: Db, a: Id, target: Target)
    requires LogExplainsStatus(db)
    ensures LogExplainsStatus(WithoutAsset(db, a)) && LogExplainsStatus(Without(db, target))
  {
    DeleteKeepsLog(db, WithoutAsset(db, a), {a});
    DeleteKeepsLog(db, Without(db, target), set x | x in db.assets && MatchesAsset(db, target, x));
  }

  lemma CreatesTouchNoAsset(db: Db, op: Op)
    requires op.OpWorkspace? || op.OpProject? || op.OpCampaign? || op.OpTask? || op.OpAttempt?
    ensures After(db, op).assets == db.assets && After(db, op).reviews == db.reviews
  {
  }

  lemma SameLog(db: Db, d: Db)
    requires LogExplainsStatus(db) && d.assets == db.assets && d.reviews == db.reviews
    ensures LogExplainsStatus(d)
  {
  }

  lemma ReviewIsLogged(db: Db, op: Op)
    requires LogExplainsStatus(db) && (op.OpReview? || op.OpBestOf?)
    ensures LogExplainsStatus(After(db, op))
  {
    if Perform(db, op).Ok? {
      if op.OpReview? {
        TransitionIsLogged(db, op.a, op.action);
      } else {
        BestOfIsLogged(db, op.selected, op.candidates);
      }
    }
  }

  lemma DeletionIsLogged(db: Db, op: Op)
    requires LogExplainsStatus(db) && (op.OpCleanup? || op.OpDelete?)
    ensures LogExplainsStatus(After(db, op))
  {
    if op.OpCleanup? {
      DeletesKeepLog(db, op.a, OfWorkspace(""));
    } else {
      DeletesKeepLog(db, "", op.target);
    }
  }

  /** The event log of one operation: an event is written exactly when a status changes. */
  lemma OperationKeepsLog(db: Db, op: Op)
    requires Consistent(db) && LogExplainsStatus(db) && Genuine(db, op)
    ensures LogExplainsStatus(After(db, op))
  {
    if op.OpAsset? {
      if Perform(db, op).Ok? {
        InsertAssetStartsLog(db, op.a, op.v, op.t, op.scope);
      }
    } else if op.OpReview? || op.OpBestOf? {
      ReviewIsLogged(db, op);
    } else if op.OpCleanup? || op.OpDelete? {
      DeletionIsLogged(db, op);
    } else {
      CreatesTouchNoAsset(db, op);
      SameLog(db, After(db, op));
    }
  }

  // ---------------------------------------------------------------- one version per asset

  /** Every version row is the current version of its asset, which holds UNIQUE(asset_id, version):
      no two rows ever share an asset. */
  ghost predicate OneVersion(db: Db)
  {
    forall v :: v in db.versions ==> IsCurrent(db, v)
  }

  predicate IsCurrent(db: Db, v: Id)
    requires v in db.versions
  {
    db.versions[v] in db.assets && db.assets[db.versions[v]].currentVersion == v
  }

  /** Same versions, and every asset keeps its current one. */
  ghost predicate SameVersions(db: Db, d: Db)
  {
    && d.versions == db.versions && d.assets.Keys == db.assets.Keys
    && forall a :: a in db.assets ==> d.assets[a].currentVersion == db.assets[a].currentVersion
  }

  lemma {:induction false} RejectAllKeepsVersions(db: Db, candidates: seq<Id>, task: Id, seen: set<Id>)
    requires RejectAll(db, candidates, task, seen).Ok?
    ensures SameVersions(db, RejectAll(db, candidates, task, seen).value)
    decreases |candidates|
  {
    if candidates != [] {
      var a := Trim(candidates[0]);
      if a == "" || a in seen {
        RejectAllKeepsVersions(db, candidates[1..], task, seen);
      } else {
        RejectAllKeepsVersions(Transition(db, a, Reject).value, candidates[1..], task, seen + {a});
      }
    }
  }

  lemma VersionsStay(db: Db, d: Db)
    requires OneVersion(db) && SameVersions(db, d)
    ensures OneVersion(d)
  {
    assert forall v :: v in db.versions ==> IsCurrent(db, v);
  }

  lemma ReviewKeepsVersions(db: Db, op: Op)
    requires op.OpReview? || op.OpBestOf?
    ensures SameVersions(db, After(db, op))
  {
    if op.OpBestOf? && Perform(db, op).Ok? {
      RejectAllKeepsVersions(Transition(db, op.selected, Approve).value, op.candidates, db.assets[op.selected].task, {op.selected});
    }
  }

  lemma DeletionKeepsVersions(db: Db, op: Op)
    requires OneVersion(db) && (op.OpCleanup? || op.OpDelete?)
    ensures OneVersion(After(db, op))
  {
    var d := After(db, op);
    forall v | v in d.versions
      ensures IsCurrent(d, v)
    {
      assert v in db.versions && IsCurrent(db, v);
    }
  }

  lemma InsertKeepsVersions(db: Db, a: Id, v: Id, t: Id, scope: Scope)
    requires OneVersion(db) && InsertAsset(db, a, v, t, scope).Ok?
    ensures OneVersion(InsertAsset(db, a, v, t, scope).value)
  {
    assert forall x :: x in db.versions ==> IsCurrent(db, x);
  }

  lemma OperationKeepsVersions(db: Db, op: Op)
    requires OneVersion(db)
    ensures OneVersion(After(db, op))
  {
    if op.OpAsset? {
      if Perform(db, op).Ok? {
        InsertKeepsVersions(db, op.a, op.v, op.t, op.scope);
      }
    } else if op.OpCleanup? || op.OpDelete? {
      DeletionKeepsVersions(db, op);
    } else {
      if op.OpReview? || op.OpBestOf? {
        ReviewKeepsVersions(db, op);
      }
      VersionsStay(db, After(db, op));
    }
  }

  /** In every state reached by any sequence of operations, failing ones included, all foreign
      keys hold, all scopes agree, no asset has two versions, and every asset's log replays
      legally from draft to its status. */
  lemma {:induction false} EveryRunKeepsIntegrity(db: Db, ops: seq<Op>)
    requires Consistent(db) && OneVersion(db) && LogExplainsStatus(db) && Legal(db, ops)
    ensures Consistent(AfterAll(db, ops)) && OneVersion(AfterAll(db, ops)) && LogExplainsStatus(AfterAll(db, ops))
    decreases |ops|
  {
    if ops != [] {
      OperationKeepsConsistency(db, ops[0]);
      OperationKeepsVersions(db, ops[0]);
      OperationKeepsLog(db, ops[0]);
      EveryRunKeepsIntegrity(After(db, ops[0]), ops[1..]);
    }
  }

  lemma EmptyIsConsistent()
    ensures Consistent(Empty()) && OneVersion(Empty()) && LogExplainsStatus(Empty())
  {
  }

  // ---------------------------------------------------------------- what a log looks like

  /** Which action may come after which, `first` meaning that it opens the log. */
  predicate MayFollow(first: bool, previous: Action, action: Action)
  {
    match action
    case Approve => first || previous == Reject || previous == Restore
    case Reject => first || previous == Approve || previous == Restore
    case Archive => first || previous == Reject || previous == Restore
    case Restore => !first && previous == Archive
    case Unknown(_) => false
  }

  predicate WellOrdered(actions: seq<Action>)
  {
    forall i :: 0 <= i < |actions| ==> MayFollow(i == 0, actions[if i == 0 then 0 else i - 1], actions[i])
  }

  /** The status that an action leaves; a log that has none leaves draft. */
  function StatusOfLast(none: bool, last: Action): AssetStatus
  {
    if none || last == Restore then Draft
    else if last == Approve then Approved
    else if last == Reject then Rejected
    else Deprecated
  }

  function StatusAfter(actions: seq<Action>): AssetStatus
  {
    if actions == [] then Draft else StatusOfLast(false, actions[|actions| - 1])
  }

  lemma ReplayStepShape(first: bool, last: Action, action: Action)
    requires first || !last.Unknown?
    ensures ReplayStep(Status(StatusOfLast(first, last)), action) ==
            if MayFollow(first, last, action) then Status(StatusOfLast(false, action)) else Illegal
  {
  }

  /** A log is legal exactly if each action may follow the one before: an approved asset is
      rejected before it can be archived, only an archived one is restored, nothing is approved
      or rejected twice in a row; and its last action alone determines the status. */
  lemma {:induction false} LegalLogs(actions: seq<Action>)
    ensures Replay(actions).Status? <==> WellOrdered(actions)
    ensures Replay(actions).Status? ==> Replay(actions) == Status(StatusAfter(actions))
    decreases |actions|
  {
    if actions != [] {
      var before, action := actions[..|actions| - 1], actions[|actions| - 1];
      LegalLogs(before);
      WellOrderedNext(before, action, actions);
      var last := if before == [] then action else before[|before| - 1];
      if WellOrdered(before) {
        assert before != [] ==> MayFollow(|before| == 1, before[if |before| == 1 then 0 else |before| - 2], last);
        ReplayStepShape(before == [], last, action);
      }
    }
  }

  lemma WellOrderedNext(before: seq<Action>, action: Action, actions: seq<Action>)
    requires actions == before + [action]
    ensures WellOrdered(actions) <==>
            WellOrdered(before) && MayFollow(before == [], if before == [] then action else before[|before| - 1], action)
  {
    assert forall i :: 0 <= i < |before| ==> before[i] == actions[i];
    assert actions[|before|] == action;
  }

  /** In every run from an empty store every asset's log has that shape and ends in its status;
      no operation ever publishes an asset. */
  lemma LogsOfRuns(ops: seq<Op>, a: Id)
    requires Legal(Empty(), ops) && a in AfterAll(Empty(), ops).assets
    ensures var d := AfterAll(Empty(), ops);
            && WellOrdered(EventsOf(d.reviews, a))
            && d.assets[a].status == StatusAfter(EventsOf(d.reviews, a))
            && d.assets[a].status != Published
  {
    EmptyIsConsistent();
    EveryRunKeepsIntegrity(Empty(), ops);
    LegalLogs(EventsOf(AfterAll(Empty(), ops).reviews, a));
  }
}
