/** What the store operations do to the tables, row by row and in terms of the columns. The
    statements here do not use the functions that define the operations. */
module StoreEffects {
  import opened Database
  import opened StoreOps
  import opened Text

  // ---------------------------------------------------------------- events that stay

  /** `kept` are the positions of the events that stay: all but those of the assets in `gone`. */
  ghost predicate KeptAt(before: seq<EventRow>, after: seq<EventRow>, gone: set<Id>, kept: seq<nat>)
  {
    && |kept| == |after| && (forall i, j :: 0 <= i < j < |kept| ==> kept[i] < kept[j])
    && (forall i :: 0 <= i < |kept| ==> kept[i] < |before| && after[i] == before[kept[i]])
    && (forall n :: 0 <= n < |before| ==> (n in kept <==> before[n].asset !in gone))
  }

  /** The events of the assets in `gone` are gone, the others are there in their order. */
  ghost predicate EventsGone(before: seq<EventRow>, after: seq<EventRow>, gone: set<Id>)
  {
    exists kept :: KeptAt(before, after, gone, kept)
  }

  lemma {:induction false} KeptNext(before: seq<EventRow>, after: seq<EventRow>, gone: set<Id>, kept: seq<nat>, last: EventRow)
    requires KeptAt(before, after, gone, kept)
    ensures if last.asset in gone then KeptAt(before + [last], after, gone, kept)
            else KeptAt(before + [last], after + [last], gone, kept + [|before|])
  {
    if last.asset !in gone {
      var more := kept + [|before|];
      assert forall n :: n in more <==> n in kept || n == |before|;
    }
  }

  lemma {:induction false} KeptEvents(reviews: seq<EventRow>, gone: set<Id>) returns (kept: seq<nat>)
    ensures KeptAt(reviews, KeepReviews(reviews, gone), gone, kept)
  {
    if reviews == [] {
      kept := [];
    } else {
      var before, last := reviews[..|reviews| - 1], reviews[|reviews| - 1];
      kept := KeptEvents(before, gone);
      KeptNext(before, KeepReviews(before, gone), gone, kept, last);
      assert before + [last] == reviews;
      if last.asset in gone {
        assert KeepReviews(before, gone) + [] == KeepReviews(before, gone);
      } else {
        kept := kept + [|before|];
      }
    }
  }

  lemma {:induction false} KeepReviewsDropsOnly(reviews: seq<EventRow>, gone: set<Id>)
    ensures EventsGone(reviews, KeepReviews(reviews, gone), gone)
  {
    var kept := KeptEvents(reviews, gone);
  }

  // ---------------------------------------------------------------- deleting a scope

  /** The tasks and assets whose scope columns are inside are gone with everything that hangs on
      them, and every other one is there as it was. */
  ghost predicate Emptied(db: Db, d: Db, inside: Scope -> bool)
  {
    && (forall t :: t in d.tasks <==> t in db.tasks && !inside(db.tasks[t].scope))
    && (forall t :: t in d.tasks ==> d.tasks[t] == db.tasks[t])
    && (forall x :: x in d.attempts <==> x in db.attempts && !(db.attempts[x] in db.tasks && inside(db.tasks[db.attempts[x]].scope)))
    && (forall x :: x in d.attempts ==> d.attempts[x] == db.attempts[x])
    && EmptiedOfAssets(db, d, inside)
  }

  ghost predicate EmptiedOfAssets(db: Db, d: Db, inside: Scope -> bool)
  {
    && (forall a :: a in d.assets <==> a in db.assets && !inside(db.assets[a].scope))
    && (forall a :: a in d.assets ==> d.assets[a] == db.assets[a])
    && (forall v :: v in d.versions <==> v in db.versions && !(db.versions[v] in db.assets && inside(db.assets[db.versions[v]].scope)))
    && (forall v :: v in d.versions ==> d.versions[v] == db.versions[v])
    && EventsGone(db.reviews, d.reviews, set a | a in db.assets && inside(db.assets[a].scope))
    && (forall x :: x in d.deliveries <==>
          x in db.deliveries && !(db.deliveries[x].asset in db.assets && inside(db.assets[db.deliveries[x].asset].scope)))
    && (forall x :: x in d.deliveries ==> d.deliveries[x] == db.deliveries[x])
  }

  ghost predicate OnlyCampaigns(db: Db, d: Db, inside: CampaignRow -> bool)
  {
    && (forall c :: c in d.campaigns <==> c in db.campaigns && !inside(db.campaigns[c]))
    && (forall c :: c in d.campaigns ==> d.campaigns[c] == db.campaigns[c])
  }

  /** What is gone after the delete of a workspace, a project or a campaign that is there. */
  ghost predicate ScopeGone(db: Db, d: Db, target: Target)
  {
    match target
    case OfWorkspace(w) =>
      && d.workspaces == db.workspaces - {w}
      && (forall p :: p in d.projects <==> p in db.projects && db.projects[p] != w)
      && (forall p :: p in d.projects ==> d.projects[p] == db.projects[p])
      && OnlyCampaigns(db, d, (row: CampaignRow) => row.workspace == w)
      && Emptied(db, d, (s: Scope) => s.workspace == w)
    case OfProject(w, p) =>
      && d.workspaces == db.workspaces && d.projects == db.projects - {p}
      && OnlyCampaigns(db, d, (row: CampaignRow) => row.workspace == w && row.project == p)
      && Emptied(db, d, (s: Scope) => s.workspace == w && s.project == p)
    case OfCampaign(w, p, c) =>
      && d.workspaces == db.workspaces && d.projects == db.projects && d.campaigns == db.campaigns - {c}
      && Emptied(db, d, (s: Scope) => s.workspace == w && s.project == p && s.campaign == c)
  }

  /** The row that the delete names is there. */
  predicate Named(db: Db, target: Target)
  {
    match target
    case OfWorkspace(w) => w in db.workspaces
    case OfProject(w, p) => p in db.projects && db.projects[p] == w
    case OfCampaign(w, p, c) => c in db.campaigns && db.campaigns[c].workspace == w && db.campaigns[c].project == p
  }

  lemma WithoutEmptiesAssets(db: Db, target: Target, inside: Scope -> bool)
    requires forall s :: Matches(target, s) <==> inside(s)
    ensures EmptiedOfAssets(db, Without(db, target), inside)
  {
    var gone := set a | a in db.assets && inside(db.assets[a].scope);
    assert gone == set a | a in db.assets && MatchesAsset(db, target, a);
    KeepReviewsDropsOnly(db.reviews, gone);
  }

  lemma WithoutEmpties(db: Db, target: Target, inside: Scope -> bool)
    requires forall s :: Matches(target, s) <==> inside(s)
    ensures Emptied(db, Without(db, target), inside)
  {
    WithoutEmptiesAssets(db, target, inside);
  }

  lemma WorkspaceRemoved(db: Db, w: Id)
    requires w in db.workspaces
    ensures ScopeGone(db, Without(db, OfWorkspace(w)), OfWorkspace(w))
  {
    WithoutEmpties(db, OfWorkspace(w), (s: Scope) => s.workspace == w);
  }

  lemma ProjectRemoved(db: Db, w: Id, p: Id)
    requires p in db.projects && db.projects[p] == w
    ensures ScopeGone(db, Without(db, OfProject(w, p)), OfProject(w, p))
  {
    WithoutEmpties(db, OfProject(w, p), (s: Scope) => s.workspace == w && s.project == p);
  }

  lemma CampaignRemoved(db: Db, w: Id, p: Id, c: Id)
    requires c in db.campaigns && db.campaigns[c].workspace == w && db.campaigns[c].project == p
    ensures ScopeGone(db, Without(db, OfCampaign(w, p, c)), OfCampaign(w, p, c))
  {
    WithoutEmpties(db, OfCampaign(w, p, c), (s: Scope) => s.workspace == w && s.project == p && s.campaign == c);
  }

  /** Deleting a scope whose row is there removes the rows of that scope and no others; otherwise it
      is refused. */
  lemma DeleteScopeRemoves(db: Db, target: Target)
    ensures DeleteScope(db, target).Ok? <==> Named(db, target)
    ensures Named(db, target) ==> ScopeGone(db, DeleteScope(db, target).value, target)
    ensures !Named(db, target) ==> DeleteScope(db, target) == Err(NotFound)
  {
    if Named(db, target) {
      match target
      case OfWorkspace(w) => WorkspaceRemoved(db, w);
      case OfProject(w, p) => ProjectRemoved(db, w, p);
      case OfCampaign(w, p, c) => CampaignRemoved(db, w, p, c);
    }
  }

  // ---------------------------------------------------------------- deleting an asset

  /** The asset is gone with its versions and events, and nothing else is. */
  ghost predicate AssetGone(db: Db, d: Db, a: Id)
  {
    && d == db.(assets := d.assets, versions := d.versions, reviews := d.reviews, deliveries := d.deliveries)
    && d.assets == db.assets - {a}
    && (forall v :: v in d.versions <==> v in db.versions && db.versions[v] != a)
    && (forall v :: v in d.versions ==> d.versions[v] == db.versions[v])
    && EventsGone(db.reviews, d.reviews, {a})
    && (forall x :: x in d.deliveries <==> x in db.deliveries && db.deliveries[x].asset != a)
    && (forall x :: x in d.deliveries ==> d.deliveries[x] == db.deliveries[x])
  }

  lemma WithoutAssetRemoves(db: Db, a: Id)
    ensures AssetGone(db, WithoutAsset(db, a), a)
  {
    KeepReviewsDropsOnly(db.reviews, {a});
  }

  /** An asset is cleaned up if and only if it is there, in that scope, with an allowed status. */
  lemma CleanupRemoves(db: Db, scope: Scope, a: Id, allowed: set<AssetStatus>)
    requires Consistent(db)
    ensures var r := CleanupAsset(db, scope, a, allowed);
            if a !in db.assets || db.assets[a].scope != scope then r == Err(NotFound)
            else if db.assets[a].status !in allowed then r == Err(Protected(db.assets[a].status))
            else r.Ok? && AssetGone(db, r.value, a)
  {
    WithoutAssetRemoves(db, a);
  }

  // ---------------------------------------------------------------- reviews

  /** The statuses that an action is allowed in; in its own result it does nothing. */
  predicate AllowedIn(action: Action, status: AssetStatus)
  {
    match action
    case Approve => status in {Draft, Rejected, Approved}
    case Reject => status in {Draft, Approved, Rejected}
    case Archive => status in {Draft, Rejected, Deprecated}
    case Restore => status in {Deprecated, Draft}
    case Unknown(_) => false
  }

  function Leaves(action: Action): AssetStatus
  {
    match action
    case Approve => Approved
    case Reject => Rejected
    case Archive => Deprecated
    case _ => Draft
  }

  /** The status is the action's, and an event is logged exactly if that changed it. */
  ghost predicate Reviewed(db: Db, d: Db, a: Id, action: Action)
    requires a in db.assets
  {
    var row := db.assets[a];
    && d == db.(assets := db.assets[a := row.(status := Leaves(action))], reviews := d.reviews)
    && d.reviews == db.reviews + if row.status == Leaves(action) then [] else [EventRow(a, row.currentVersion, action)]
  }

  lemma TransitionCommits(db: Db, a: Id, action: Action)
    requires a in db.assets
    ensures Transition(db, a, action).Ok? <==> AllowedIn(action, db.assets[a].status)
  {
  }

  lemma ReviewCommits(db: Db, a: Id, action: Action)
    requires Consistent(db)
    ensures Review(db, a, action).Ok? <==> a in db.assets && AllowedIn(action, db.assets[a].status)
  {
    if a in db.assets {
      TransitionCommits(db, a, action);
    }
  }

  lemma ReviewWrites(db: Db, a: Id, action: Action)
    requires a in db.assets && Transition(db, a, action).Ok?
    ensures Reviewed(db, Transition(db, a, action).value, a, action)
  {
    if db.assets[a].status == Leaves(action) {
      assert db.assets[a := db.assets[a]] == db.assets;
      assert db.reviews + [] == db.reviews;
    }
  }

  // ---------------------------------------------------------------- inserts

  /** An insert commits if and only if its parents are there and its ids are new. A new asset is a
      draft in the given scope, with one version, its current one. */
  lemma InsertEffects(db: Db, a: Id, v: Id, t: Id, scope: Scope, attempt: Id)
    ensures InsertAsset(db, a, v, t, scope).Ok? <==>
            a !in db.assets && v !in db.versions && t in db.tasks
            && scope.workspace in db.workspaces && scope.project in db.projects && scope.campaign in db.campaigns
    ensures InsertAsset(db, a, v, t, scope).Ok? ==>
              var d := InsertAsset(db, a, v, t, scope).value;
              && d.assets - {a} == db.assets && d.versions - {v} == db.versions
              && a in d.assets && d.assets[a].status == Draft && d.assets[a].scope == scope && d.assets[a].task == t
              && d.assets[a].currentVersion == v && v in d.versions && d.versions[v] == a
              && d == db.(assets := d.assets, versions := d.versions)
    ensures CreateAttempt(db, attempt, t).Ok? <==> attempt !in db.attempts && t in db.tasks
    ensures CreateAttempt(db, attempt, t).Ok? ==>
              CreateAttempt(db, attempt, t).value == db.(attempts := db.attempts[attempt := t])
  {
  }

  lemma ScopeInserts(db: Db, w: Id, p: Id, c: Id)
    ensures CreateWorkspace(db, w).Ok? <==> w !in db.workspaces
    ensures CreateWorkspace(db, w).Ok? ==> CreateWorkspace(db, w).value == db.(workspaces := db.workspaces + {w})
    ensures CreateProject(db, w, p).Ok? <==> w in db.workspaces && p !in db.projects
    ensures CreateProject(db, w, p).Ok? ==> CreateProject(db, w, p).value == db.(projects := db.projects[p := w])
    ensures CreateCampaign(db, w, p, c).Ok? <==> p in db.projects && db.projects[p] == w && c !in db.campaigns
    ensures CreateCampaign(db, w, p, c).Ok? ==>
              CreateCampaign(db, w, p, c).value == db.(campaigns := db.campaigns[c := CampaignRow(w, p)])
  {
  }

  /** A task with a key that its project knows is found, or refused if its input differs; any other
      task is inserted, if its scope is there and its id is new. */
  lemma TaskInsertEffect(db: Db, t: Id, row: TaskRow, u: Id)
    requires Consistent(db)
    ensures !CampaignThere(db, row.scope) ==> CreateTask(db, t, row) == Err(InvalidScope)
    ensures CampaignThere(db, row.scope) && SameKeyTask(db, row, u) ==>
              CreateTask(db, t, row) == if db.tasks[u].inputHash == row.inputHash then Ok(db) else Err(IdempotencyConflict)
    ensures CampaignThere(db, row.scope) && (forall x :: !SameKeyTask(db, row, x)) ==>
              CreateTask(db, t, row) == if t in db.tasks then Err(UniqueViolation) else Ok(db.(tasks := db.tasks[t := row]))
  {
    forall x
      ensures SameKeyTask(db, row, x) <==> Known(db, row, x)
    {
    }
    if SameKeyTask(db, row, u) {
      forall x | Known(db, row, x)
        ensures x == u
      {
        assert SameKey(db.tasks[x], db.tasks[u]);
      }
    }
  }

  predicate CampaignThere(db: Db, s: Scope)
  {
    && s.workspace in db.workspaces && s.project in db.projects && s.campaign in db.campaigns
    && db.campaigns[s.campaign].workspace == s.workspace && db.campaigns[s.campaign].project == s.project
  }

  predicate SameKeyTask(db: Db, row: TaskRow, u: Id)
  {
    && row.idempotencyKey != "" && u in db.tasks && db.tasks[u].idempotencyKey == row.idempotencyKey
    && db.tasks[u].scope.workspace == row.scope.workspace && db.tasks[u].scope.project == row.scope.project
  }
}
