/** The cascades delete exactly the rows of their scope and never trip a foreign key. */
module Cascade {
  import opened Database
  import E = StoreEffects

  /** After `n` statements of a cascade: which tables have already lost the rows of the scope. */
  function Partial(db: Db, target: Target, n: nat): Db
  {
    var w := Without(db, target);
    Db(
      if n >= 9 then w.workspaces else db.workspaces,
      if n >= 8 then w.projects else db.projects,
      if n >= 7 then w.campaigns else db.campaigns,
      if n >= 6 then w.tasks else db.tasks,
      if n >= 5 then w.attempts else db.attempts,
      if n >= 4 then w.assets else db.assets,
      if n >= 3 then w.versions else db.versions,
      if n >= 2 then w.reviews else db.reviews,
      if n >= 1 then w.deliveries else db.deliveries)
  }

  lemma {:induction false} KeepReviewsKeeps(reviews: seq<EventRow>, assets: set<Id>)
    ensures forall i :: 0 <= i < |KeepReviews(reviews, assets)| ==>
              KeepReviews(reviews, assets)[i] in reviews && KeepReviews(reviews, assets)[i].asset !in assets
    ensures forall e :: e in reviews && e.asset !in assets ==> e in KeepReviews(reviews, assets)
  {
    if reviews != [] {
      var init, last := reviews[..|reviews| - 1], reviews[|reviews| - 1];
      assert reviews == init + [last];
      KeepReviewsKeeps(init, assets);
    }
  }

  /** Each statement removes from its table what it should, although it selects through tables
      that earlier statements have already thinned out. */
  lemma EventStatements(db: Db, target: Target)
    ensures Delete(Partial(db, target, 0), target, DeleteDeliveryEvents) == Partial(db, target, 1)
    ensures Delete(Partial(db, target, 1), target, DeleteReviewEvents) == Partial(db, target, 2)
  {
    var p := Partial(db, target, 1);
    assert (set a | a in p.assets && MatchesAsset(p, target, a)) == (set a | a in db.assets && MatchesAsset(db, target, a));
  }

  lemma AssetStatements(db: Db, target: Target)
    ensures Delete(Partial(db, target, 2), target, DeleteVersions) == Partial(db, target, 3)
    ensures Delete(Partial(db, target, 3), target, DeleteAssets) == Partial(db, target, 4)
  {
  }

  lemma TaskStatements(db: Db, target: Target)
    ensures Delete(Partial(db, target, 4), target, DeleteAttempts) == Partial(db, target, 5)
    ensures Delete(Partial(db, target, 5), target, DeleteTasks) == Partial(db, target, 6)
  {
  }

  lemma ScopeStatements(db: Db, target: Target)
    ensures Delete(Partial(db, target, 6), target, DeleteCampaigns) == Partial(db, target, 7)
    ensures Delete(Partial(db, target, 7), target, DeleteProjects) == Partial(db, target, 8)
    ensures Delete(Partial(db, target, 8), target, DeleteWorkspaces) == Partial(db, target, 9)
  {
  }

  /** Removing rows is safe once every row that refers to them is gone. */
  lemma PartialScopeRefs(db: Db, target: Target, n: nat)
    requires Consistent(db)
    ensures ProjectRefs(Partial(db, target, n)) && CampaignRefs(Partial(db, target, n))
  {
  }

  lemma PartialTaskRefs(db: Db, target: Target, n: nat)
    requires Consistent(db)
    ensures TaskRefs(Partial(db, target, n)) && AttemptRefs(Partial(db, target, n))
  {
  }

  lemma PartialAssetRefs(db: Db, target: Target, n: nat)
    requires Consistent(db)
    ensures AssetRefs(Partial(db, target, n))
  {
  }

  lemma PartialVersionRefs(db: Db, target: Target, n: nat)
    requires Consistent(db)
    ensures VersionRefs(Partial(db, target, n))
  {
  }

  /** An event of an asset outside the scope keeps both rows it refers to. */
  lemma EventSurvives(db: Db, target: Target, n: nat, e: EventRow)
    requires EventRefs(db, e) && EventAgrees(db, e) && !MatchesAsset(db, target, e.asset)
    ensures EventRefs(Partial(db, target, n), e) && EventAgrees(Partial(db, target, n), e)
  {
  }

  ghost predicate EventsSound(db: Db)
  {
    && (forall e :: e in db.reviews ==> EventRefs(db, e) && EventAgrees(db, e))
    && (forall d :: d in db.deliveries ==> EventRefs(db, db.deliveries[d]) && EventAgrees(db, db.deliveries[d]))
  }

  lemma ConsistentEvents(db: Db)
    requires Consistent(db)
    ensures EventsSound(db)
  {
  }

  lemma ReviewSurvives(db: Db, target: Target, n: nat, i: nat)
    requires EventsSound(db) && i < |Partial(db, target, n).reviews|
    ensures n >= 2 ==> !MatchesAsset(db, target, Partial(db, target, n).reviews[i].asset)
    ensures Partial(db, target, n).reviews[i] in db.reviews
  {
    KeepReviewsKeeps(db.reviews, set a | a in db.assets && MatchesAsset(db, target, a));
  }

  lemma PartialEventRefs(db: Db, target: Target, n: nat)
    requires EventsSound(db)
    ensures ReviewRefs(Partial(db, target, n)) && DeliveryRefs(Partial(db, target, n))
    ensures n >= 2 ==> forall i :: 0 <= i < |Partial(db, target, n).reviews| ==> EventAgrees(Partial(db, target, n), Partial(db, target, n).reviews[i])
    ensures n >= 2 ==> forall d :: d in Partial(db, target, n).deliveries ==> EventAgrees(Partial(db, target, n), Partial(db, target, n).deliveries[d])
  {
    var p := Partial(db, target, n);
    forall i | 0 <= i < |p.reviews|
      ensures EventRefs(p, p.reviews[i]) && (n >= 2 ==> EventAgrees(p, p.reviews[i]))
    {
      ReviewSurvives(db, target, n, i);
      if n >= 2 {
        EventSurvives(db, target, n, p.reviews[i]);
      }
    }
    forall d | d in p.deliveries
      ensures EventRefs(p, p.deliveries[d]) && (n >= 2 ==> EventAgrees(p, p.deliveries[d]))
    {
      if n >= 1 {
        EventSurvives(db, target, n, db.deliveries[d]);
      }
    }
  }

  lemma PartialForeignKeys(db: Db, target: Target, n: nat)
    requires Consistent(db)
    ensures ForeignKeys(Partial(db, target, n))
  {
    PartialScopeRefs(db, target, n);
    PartialTaskRefs(db, target, n);
    PartialAssetRefs(db, target, n);
    PartialVersionRefs(db, target, n);
    ConsistentEvents(db);
    PartialEventRefs(db, target, n);
  }

  // ---------------------------------------------------------------- the whole cascade

  /** Executing statements `k`, `k + 1`, ... of the full order from the state after `k` of them. */
  function Order(k: nat): Statement
  {
    match k
    case 0 => DeleteDeliveryEvents
    case 1 => DeleteReviewEvents
    case 2 => DeleteVersions
    case 3 => DeleteAssets
    case 4 => DeleteAttempts
    case 5 => DeleteTasks
    case 6 => DeleteCampaigns
    case 7 => DeleteProjects
    case _ => DeleteWorkspaces
  }

  lemma StatementStep(db: Db, target: Target, k: nat)
    requires k < 9
    ensures Delete(Partial(db, target, k), target, Order(k)) == Partial(db, target, k + 1)
  {
    if k < 2 {
      EventStatements(db, target);
    } else if k < 4 {
      AssetStatements(db, target);
    } else if k < 6 {
      TaskStatements(db, target);
    } else {
      ScopeStatements(db, target);
    }
  }

  ghost predicate FollowsOrder(statements: seq<Statement>, k: nat)
  {
    k + |statements| <= 9 && forall i :: 0 <= i < |statements| ==> statements[i] == Order(k + i)
  }

  lemma ExecuteStep(db: Db, target: Target, k: nat)
    requires Consistent(db) && k < 9
    ensures Execute(Partial(db, target, k), target, Order(k)) == Ok(Partial(db, target, k + 1))
  {
    StatementStep(db, target, k);
    PartialForeignKeys(db, target, k + 1);
  }

  /** Statement `i` leads from one state to the next. */
  ghost predicate LeadsOn(states: seq<Db>, target: Target, statements: seq<Statement>, i: nat)
    requires i < |statements| && i + 1 < |states|
  {
    Execute(states[i], target, statements[i]) == Ok(states[i + 1])
  }

  ghost predicate Path(states: seq<Db>, target: Target, statements: seq<Statement>)
  {
    |states| == |statements| + 1 && forall i: nat :: i < |statements| ==> LeadsOn(states, target, statements, i)
  }

  lemma RestOfPath(states: seq<Db>, target: Target, statements: seq<Statement>)
    requires Path(states, target, statements) && statements != []
    ensures Path(states[1..], target, statements[1..])
    ensures ExecuteAll(states[0], target, statements) == ExecuteAll(states[1], target, statements[1..])
  {
    assert LeadsOn(states, target, statements, 0);
    forall i: nat | i < |statements| - 1
      ensures LeadsOn(states[1..], target, statements[1..], i)
    {
      assert LeadsOn(states, target, statements, i + 1);
    }
  }

  /** Statements that lead along a path execute to its end. */
  lemma {:induction false} PathExecutes(states: seq<Db>, target: Target, statements: seq<Statement>)
    requires Path(states, target, statements)
    ensures ExecuteAll(states[0], target, statements) == Ok(states[|statements|])
    decreases |statements|
  {
    if statements != [] {
      RestOfPath(states, target, statements);
      PathExecutes(states[1..], target, statements[1..]);
    }
  }

  lemma CascadeFollowsOrder(target: Target)
    ensures FollowsOrder(CascadeStatements(target), 0)
    ensures |CascadeStatements(target)| == if target.OfWorkspace? then 9 else if target.OfProject? then 8 else 7
  {
  }

  /** Shorter cascades stop early because the remaining tables hold no row of their scope. */
  lemma CascadeEnds(db: Db, target: Target)
    ensures Partial(db, target, 0) == db
    ensures Partial(db, target, |CascadeStatements(target)|) == Without(db, target)
  {
    CascadeFollowsOrder(target);
    var w := Without(db, target);
    assert target.OfCampaign? ==> w.projects == db.projects;
    assert !target.OfWorkspace? ==> w.workspaces == db.workspaces;
  }

  lemma WithoutEventsAgree(db: Db, target: Target)
    requires Consistent(db)
    ensures EventsAgree(Without(db, target))
  {
    assert Without(db, target) == Partial(db, target, 9);
    ConsistentEvents(db);
    PartialEventRefs(db, target, 9);
  }

  lemma WithoutUpperAgree(db: Db, target: Target)
    requires Consistent(db)
    ensures CampaignsAgree(Without(db, target)) && TasksAgree(Without(db, target)) && KeysUnique(Without(db, target))
  {
  }

  lemma WithoutScopesAgree(db: Db, target: Target)
    requires Consistent(db)
    ensures ScopesAgree(Without(db, target)) && KeysUnique(Without(db, target))
  {
    WithoutEventsAgree(db, target);
    WithoutUpperAgree(db, target);
    WithoutAssetsAgree(db, target);
  }

  lemma WithoutAssetsAgree(db: Db, target: Target)
    requires Consistent(db)
    ensures var w := Without(db, target);
            forall a :: a in w.assets ==>
              && w.assets[a].currentVersion in w.versions && w.versions[w.assets[a].currentVersion] == a
              && (w.assets[a].task in w.tasks ==> w.assets[a].scope == w.tasks[w.assets[a].task].scope)
  {
  }

  function Partials(db: Db, target: Target, n: nat): seq<Db>
  {
    seq(n + 1, i requires 0 <= i => Partial(db, target, i))
  }

  lemma CascadeIsPath(db: Db, target: Target)
    requires Consistent(db)
    ensures var statements := CascadeStatements(target); Path(Partials(db, target, |statements|), target, statements)
  {
    var statements := CascadeStatements(target);
    CascadeFollowsOrder(target);
    forall i: nat | i < |statements|
      ensures LeadsOn(Partials(db, target, |statements|), target, statements, i)
    {
      assert statements[i] == Order(0 + i);
      ExecuteStep(db, target, i);
    }
  }

  lemma WithoutIsConsistent(db: Db, target: Target)
    requires Consistent(db)
    ensures Consistent(Without(db, target))
  {
    CascadeEnds(db, target);
    PartialForeignKeys(db, target, |CascadeStatements(target)|);
    WithoutScopesAgree(db, target);
  }

  /** On a consistent database no statement of a cascade violates a foreign key; together they
      remove exactly the rows whose scope columns name the scope; and what is left is consistent
      again. */
  lemma CascadeRemovesExactlyTheScope(db: Db, target: Target)
    requires Consistent(db)
    ensures ExecuteAll(db, target, CascadeStatements(target)) == Ok(Without(db, target))
    ensures E.Named(db, target) ==> E.ScopeGone(db, Without(db, target), target)
    ensures Consistent(Without(db, target))
  {
    E.DeleteScopeRemoves(db, target);
    var statements := CascadeStatements(target);
    CascadeIsPath(db, target);
    PathExecutes(Partials(db, target, |statements|), target, statements);
    CascadeEnds(db, target);
    WithoutIsConsistent(db, target);
  }

  /** The reverse order would not do: deleting assets first strands their versions. */
  lemma AssetsBeforeVersionsFails(db: Db, target: Target, v: Id)
    requires Consistent(db) && v in db.versions && MatchesAsset(db, target, db.versions[v])
    ensures Execute(db, target, DeleteAssets) == Err(ForeignKeyViolation)
  {
    var d := Delete(db, target, DeleteAssets);
    assert v in d.versions && d.versions[v] !in d.assets;
  }
}
