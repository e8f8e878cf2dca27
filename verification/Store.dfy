/** PostgresStore: the operations as transactions that run statement by statement and roll back
    on the first error (internal/store/postgres.go). */
module Store {
  import opened Database
  import opened StoreOps
  import opened StoreInvariants
  import opened StoreEffects
  import opened Cascade
  import opened Text

  datatype Outcome = Pass | Fail(error: Error)

  /** The outcome and the tables that a transaction with result `r` leaves. */
  ghost predicate Commits(before: Db, after: Db, outcome: Outcome, r: Result<Db>)
  {
    if r.Ok? then outcome == Pass && after == r.value else outcome == Fail(r.error) && after == before
  }

  /** A scope goes if its row is there, and a missing one is reported. */
  ghost predicate ScopeOutcome(before: Db, after: Db, outcome: Outcome, target: Target)
  {
    if Named(before, target) then outcome == Pass && ScopeGone(before, after, target)
    else outcome == Fail(NotFound) && after == before
  }

  /** An asset goes if it is there, in that scope, with an allowed status. */
  ghost predicate CleanupOutcome(before: Db, after: Db, outcome: Outcome, scope: Scope, a: Id, allowed: set<AssetStatus>)
  {
    if a !in before.assets || before.assets[a].scope != scope then outcome == Fail(NotFound) && after == before
    else if before.assets[a].status !in allowed then outcome == Fail(Protected(before.assets[a].status)) && after == before
    else outcome == Pass && AssetGone(before, after, a)
  }

  /** A review is written if the asset is there in a status that allows it. */
  ghost predicate ReviewOutcome(before: Db, after: Db, outcome: Outcome, a: Id, action: Action)
  {
    if a in before.assets && AllowedIn(action, before.assets[a].status)
    then outcome == Pass && Reviewed(before, after, a, action)
    else outcome.Fail? && after == before
  }

  /** A selection commits if it can as a whole, and then leaves the chosen asset approved, the
      other candidates rejected and everything else but the log as it was. */
  ghost predicate BestOfOutcome(before: Db, after: Db, outcome: Outcome, selected: Id, candidates: seq<Id>)
  {
    if Selectable(before, selected, candidates) then
      && outcome == Pass && after == before.(assets := after.assets, reviews := after.reviews)
      && after.assets.Keys == before.assets.Keys
      && forall a :: a in before.assets ==>
           after.assets[a] == if a == selected then before.assets[a].(status := Approved)
                              else if Rejectable(candidates, a) then before.assets[a].(status := Rejected)
                              else before.assets[a]
    else outcome.Fail? && after == before
  }

  // ---------------------------------------------------------------- one asset, statement by statement

  datatype AssetStatement = DeliveryEventsOf | ReviewEventsOf | VersionsOf | RowOf

  function DeleteOf(db: Db, a: Id, statement: AssetStatement): Db
  {
    match statement
    case DeliveryEventsOf =>
      db.(deliveries := map d | d in db.deliveries && db.deliveries[d].asset != a :: db.deliveries[d])
    case ReviewEventsOf => db.(reviews := KeepReviews(db.reviews, {a}))
    case VersionsOf => db.(versions := map v | v in db.versions && db.versions[v] != a :: db.versions[v])
    case RowOf => db.(assets := db.assets - {a})
  }

  function ExecuteOf(db: Db, a: Id, statement: AssetStatement): Result<Db>
  {
    if ForeignKeys(DeleteOf(db, a, statement)) then Ok(DeleteOf(db, a, statement)) else Err(ForeignKeyViolation)
  }

  /** Deleting one asset child rows first violates no foreign key and leaves no trace of it. */
  lemma AssetDeleteSucceeds(db: Db, a: Id)
    requires Consistent(db)
    ensures var d1 := DeleteOf(db, a, DeliveryEventsOf);
            var d2 := DeleteOf(d1, a, ReviewEventsOf);
            var d3 := DeleteOf(d2, a, VersionsOf);
            var d4 := DeleteOf(d3, a, RowOf);
            ForeignKeys(d1) && ForeignKeys(d2) && ForeignKeys(d3) && ForeignKeys(d4) && d4 == WithoutAsset(db, a)
  {
    var d1 := DeleteOf(db, a, DeliveryEventsOf);
    var d2 := DeleteOf(d1, a, ReviewEventsOf);
    ConsistentEvents(db);
    EventDeletesSucceed(db, a);
    VersionDeleteSucceeds(db, a, d2, DeleteOf(d2, a, VersionsOf));
    WithoutAssetKeepsConsistency(db, a);
  }

  lemma EventDeletesSucceed(db: Db, a: Id)
    requires ForeignKeys(db)
    ensures ForeignKeys(DeleteOf(db, a, DeliveryEventsOf))
    ensures ForeignKeys(DeleteOf(DeleteOf(db, a, DeliveryEventsOf), a, ReviewEventsOf))
  {
    var d1 := DeleteOf(db, a, DeliveryEventsOf);
    var d2 := DeleteOf(d1, a, ReviewEventsOf);
    FewerEvents(db, d1);
    KeepReviewsKeeps(d1.reviews, {a});
    FewerEvents(d1, d2);
  }

  /** Deleting events alone breaks no foreign key. */
  lemma FewerEvents(db: Db, d: Db)
    requires ForeignKeys(db) && d == db.(reviews := d.reviews, deliveries := d.deliveries)
    requires forall i :: 0 <= i < |d.reviews| ==> d.reviews[i] in db.reviews
    requires forall x :: x in d.deliveries ==> x in db.deliveries && d.deliveries[x] == db.deliveries[x]
    ensures ForeignKeys(d)
  {
    forall i | 0 <= i < |d.reviews|
      ensures EventRefs(d, d.reviews[i])
    {
      assert EventRefs(db, d.reviews[i]);
    }
    forall x | x in d.deliveries
      ensures EventRefs(d, d.deliveries[x])
    {
      assert EventRefs(db, db.deliveries[x]);
    }
  }

  lemma VersionDeleteSucceeds(db: Db, a: Id, d2: Db, d3: Db)
    requires EventsSound(db) && ForeignKeys(d2) && d2.assets == db.assets && d2.versions == db.versions
    requires d2.reviews == KeepReviews(db.reviews, {a})
    requires d2.deliveries == map x | x in db.deliveries && db.deliveries[x].asset != a :: db.deliveries[x]
    requires d3 == DeleteOf(d2, a, VersionsOf)
    ensures ForeignKeys(d3)
  {
    EventsOutlive(db, a, d3);
    assert VersionRefs(d3);
  }

  lemma EventsOutlive(db: Db, a: Id, d: Db)
    requires EventsSound(db)
    requires d.reviews == KeepReviews(db.reviews, {a})
    requires d.deliveries == map x | x in db.deliveries && db.deliveries[x].asset != a :: db.deliveries[x]
    requires d.assets == db.assets
    requires forall v :: v in db.versions && db.versions[v] != a ==> v in d.versions
    ensures ReviewRefs(d) && DeliveryRefs(d)
  {
    KeepReviewsKeeps(db.reviews, {a});
    forall i | 0 <= i < |d.reviews|
      ensures EventRefs(d, d.reviews[i])
    {
      assert EventRefs(db, d.reviews[i]) && EventAgrees(db, d.reviews[i]);
    }
    forall x | x in d.deliveries
      ensures EventRefs(d, d.deliveries[x])
    {
      assert EventRefs(db, db.deliveries[x]) && EventAgrees(db, db.deliveries[x]);
    }
  }

  lemma CascadeHasOutcome(db: Db, target: Target)
    requires Consistent(db)
    ensures ExecuteAll(db, target, CascadeStatements(target)) == Ok(Without(db, target)) && Consistent(Without(db, target))
    ensures var there := Exists(db, target);
            ScopeOutcome(db, if there then Without(db, target) else db, if there then Pass else Fail(NotFound), target)
  {
    DeleteScopeRemoves(db, target);
    CascadeRemovesExactlyTheScope(db, target);
  }

  // ---------------------------------------------------------------- the store

  class PostgresStore {
    var db: Db

    constructor ()
      ensures db == Empty()
    {
      db := Empty();
    }

    /** DeleteWorkspace, DeleteProject and DeleteCampaign. */
    method DeleteCascade(target: Target) returns (r: Outcome)
      modifies this
      ensures !Exists(old(db), target) ==> Commits(old(db), db, r, Err(NotFound))
      ensures Exists(old(db), target) ==> Commits(old(db), db, r, ExecuteAll(old(db), target, CascadeStatements(target)))
      ensures Consistent(old(db)) ==> Commits(old(db), db, r, DeleteScope(old(db), target)) && Consistent(db)
      ensures Consistent(old(db)) ==> ScopeOutcome(old(db), db, r, target)
    {
      if Consistent(db) {
        CascadeHasOutcome(db, target);
      }
      if !Exists(db, target) {
        return Fail(NotFound);
      }
      var tx := db;
      var statements := CascadeStatements(target);
      for k := 0 to |statements|
        invariant db == old(db)
        invariant ExecuteAll(tx, target, statements[k..]) == ExecuteAll(old(db), target, statements)
      {
        assert statements[k..][0] == statements[k] && statements[k..][1..] == statements[k + 1..];
        var next := Execute(tx, target, statements[k]);
        if next.Err? {
          return Fail(next.error);
        }
        tx := next.value;
      }
      db := tx;
      return Pass;
    }

    /** DeleteCleanupAssetCandidate. */
    method DeleteCleanupAssetCandidate(scope: Scope, a: Id, allowed: set<AssetStatus>) returns (r: Outcome)
      modifies this
      ensures Consistent(old(db)) ==> Commits(old(db), db, r, CleanupAsset(old(db), scope, a, allowed)) && Consistent(db)
      ensures Consistent(old(db)) ==> CleanupOutcome(old(db), db, r, scope, a, allowed)
      ensures r.Fail? ==> db == old(db)
    {
      if Consistent(db) {
        CleanupRemoves(db, scope, a, allowed);
        AssetDeleteSucceeds(db, a);
        WithoutAssetKeepsConsistency(db, a);
      }
      if !Found(db, a) || db.assets[a].scope != scope {
        return Fail(NotFound);
      }
      if db.assets[a].status !in allowed {
        return Fail(Protected(db.assets[a].status));
      }
      var tx := ExecuteOf(db, a, DeliveryEventsOf);
      if tx.Err? {
        return Fail(tx.error);
      }
      tx := ExecuteOf(tx.value, a, ReviewEventsOf);
      if tx.Err? {
        return Fail(tx.error);
      }
      tx := ExecuteOf(tx.value, a, VersionsOf);
      if tx.Err? {
        return Fail(tx.error);
      }
      tx := ExecuteOf(tx.value, a, RowOf);
      if tx.Err? {
        return Fail(tx.error);
      }
      db := tx.value;
      return Pass;
    }

    /** ReviewAsset and LifecycleAsset. */
    method ReviewAsset(a: Id, action: Action) returns (r: Outcome)
      modifies this
      ensures Commits(old(db), db, r, Review(old(db), a, action))
      ensures Consistent(old(db)) ==> ReviewOutcome(old(db), db, r, a, action)
    {
      if Consistent(db) {
        ReviewCommits(db, a, action);
        if a in db.assets && Transition(db, a, action).Ok? {
          ReviewWrites(db, a, action);
        }
      }
      if !Found(db, a) {
        return Fail(NotFound);
      }
      var item := db.assets[a];
      var next := NextStatus(action);
      if next.Err? {
        return Fail(next.error);
      }
      if item.status == next.value {
        return Pass;
      }
      if !CanTransition(item.status, action) {
        return Fail(IllegalTransition);
      }
      var tx := db.(assets := db.assets[a := item.(status := next.value)]);
      tx := tx.(reviews := tx.reviews + [EventRow(a, item.currentVersion, action)]);
      db := tx;
      return Pass;
    }

    /** ApplyBestOfSelection: approve one asset and reject the others, all or nothing. */
    method ApplyBestOfSelection(selected: Id, candidates: seq<Id>) returns (r: Outcome)
      modifies this
      ensures Commits(old(db), db, r, ApplyBestOf(old(db), selected, candidates))
      ensures Consistent(old(db)) ==> BestOfOutcome(old(db), db, r, selected, candidates)
    {
      if Consistent(db) {
        BestOfHasOutcome(db, selected, candidates);
      }
      if !Found(db, selected) {
        return Fail(NotFound);
      }
      var first := Transition(db, selected, Approve);
      if first.Err? {
        return Fail(first.error);
      }
      var tx, seen, task := first.value, {selected}, db.assets[selected].task;
      for k := 0 to |candidates|
        invariant db == old(db)
        invariant RejectAll(tx, candidates[k..], task, seen) == ApplyBestOf(old(db), selected, candidates)
      {
        assert candidates[k..][0] == candidates[k] && candidates[k..][1..] == candidates[k + 1..];
        var a := Trim(candidates[k]);
        if a == "" || a in seen {
          continue;
        }
        seen := seen + {a};
        if !Found(tx, a) {
          return Fail(NotFound);
        }
        if tx.assets[a].task != task {
          return Fail(WrongTask);
        }
        var next := Transition(tx, a, Reject);
        if next.Err? {
          return Fail(next.error);
        }
        tx := next.value;
      }
      db := tx;
      return Pass;
    }
  }

  // ---------------------------------------------------------------- what best-of selection ends with

  /** `a` is one of the candidates that ApplyBestOfSelection rejects. */
  ghost predicate Rejectable(candidates: seq<Id>, a: Id)
  {
    exists i :: 0 <= i < |candidates| && Trim(candidates[i]) == a && a != ""
  }

  lemma RejectableTail(candidates: seq<Id>, a: Id)
    requires candidates != []
    ensures Rejectable(candidates, a) <==> (Trim(candidates[0]) == a && a != "") || Rejectable(candidates[1..], a)
  {
    if Rejectable(candidates[1..], a) {
      var i :| 0 <= i < |candidates[1..]| && Trim(candidates[1..][i]) == a;
      assert Trim(candidates[i + 1]) == a;
    }
    if i :| 0 < i < |candidates| && Trim(candidates[i]) == a && a != "" {
      assert Trim(candidates[1..][i - 1]) == a;
    }
  }

  /** `d` is `db` with the candidates outside `seen` rejected and everything else as it was. */
  ghost predicate Rejects(db: Db, d: Db, candidates: seq<Id>, task: Id, seen: set<Id>)
  {
    && d == db.(assets := d.assets, reviews := d.reviews)
    && d.assets.Keys == db.assets.Keys
    && (forall a :: Rejectable(candidates, a) && a !in seen ==>
          a in db.assets && db.assets[a].task == task && d.assets[a] == db.assets[a].(status := Rejected))
    && (forall a :: a in db.assets && (!Rejectable(candidates, a) || a in seen) ==> d.assets[a] == db.assets[a])
  }

  lemma RejectsOneMore(db: Db, m: Db, d: Db, candidates: seq<Id>, task: Id, seen: set<Id>)
    requires candidates != [] && Trim(candidates[0]) != "" && Trim(candidates[0]) !in seen
    requires var a := Trim(candidates[0]);
             a in db.assets && db.assets[a].task == task && m.assets == db.assets[a := db.assets[a].(status := Rejected)]
    requires m == db.(assets := m.assets, reviews := m.reviews)
    requires Rejects(m, d, candidates[1..], task, seen + {Trim(candidates[0])})
    ensures Rejects(db, d, candidates, task, seen)
  {
    forall x
      ensures Rejectable(candidates, x) <==> (Trim(candidates[0]) == x && x != "") || Rejectable(candidates[1..], x)
    {
      RejectableTail(candidates, x);
    }
  }

  lemma {:induction false} RejectAllOutcome(db: Db, candidates: seq<Id>, task: Id, seen: set<Id>)
    requires RejectAll(db, candidates, task, seen).Ok?
    ensures Rejects(db, RejectAll(db, candidates, task, seen).value, candidates, task, seen)
    decreases |candidates|
  {
    if candidates != [] {
      var a, rest := Trim(candidates[0]), candidates[1..];
      if a == "" || a in seen {
        forall x
          ensures Rejectable(candidates, x) <==> (a == x && x != "") || Rejectable(rest, x)
        {
          RejectableTail(candidates, x);
        }
        RejectAllOutcome(db, rest, task, seen);
      } else {
        var m := Transition(db, a, Reject).value;
        RejectAllOutcome(m, rest, task, seen + {a});
        assert m.assets == db.assets[a := db.assets[a].(status := Rejected)];
        RejectsOneMore(db, m, RejectAll(db, candidates, task, seen).value, candidates, task, seen);
      }
    }
  }

  /** A selection that commits ends with the chosen asset approved, every other candidate of the
      same task rejected, and no other asset touched. */
  lemma BestOfEndsWithOneApproved(db: Db, selected: Id, candidates: seq<Id>)
    requires ApplyBestOf(db, selected, candidates).Ok?
    ensures var d := ApplyBestOf(db, selected, candidates).value;
            && selected in db.assets && d.assets.Keys == db.assets.Keys
            && d.assets[selected] == db.assets[selected].(status := Approved)
            && (forall a :: Rejectable(candidates, a) && a != selected ==>
                  a in db.assets && db.assets[a].task == db.assets[selected].task
                  && d.assets[a] == db.assets[a].(status := Rejected))
            && (forall a :: a in db.assets && a != selected && !Rejectable(candidates, a) ==> d.assets[a] == db.assets[a])
            && d == db.(assets := d.assets, reviews := d.reviews)
  {
    RejectAllOutcome(Transition(db, selected, Approve).value, candidates, db.assets[selected].task, {selected});
  }

  predicate CanBeRejected(db: Db, a: Id, task: Id)
  {
    a in db.assets && db.assets[a].task == task && db.assets[a].status in {Draft, Approved, Rejected}
  }

  /** Rejecting one asset changes nothing about the others. */
  lemma {:induction false} RejectingOne(db: Db, a: Id, task: Id, m: Db)
    requires CanBeRejected(db, a, task) && Found(db, a) && Transition(db, a, Reject) == Ok(m)
    ensures m.assets == db.assets[a := db.assets[a].(status := Rejected)]
    ensures forall x :: x != a ==> (CanBeRejected(m, x, task) <==> CanBeRejected(db, x, task))
    ensures forall x :: Found(m, x) <==> Found(db, x)
  {
  }

  lemma {:induction false} RejectAllCommits(db: Db, candidates: seq<Id>, task: Id, seen: set<Id>)
    requires forall a :: Rejectable(candidates, a) && a in db.assets ==> Found(db, a)
    ensures RejectAll(db, candidates, task, seen).Ok? <==>
            forall a :: Rejectable(candidates, a) && a !in seen ==> CanBeRejected(db, a, task)
    decreases |candidates|
  {
    if candidates != [] {
      var a, rest := Trim(candidates[0]), candidates[1..];
      forall x
        ensures Rejectable(candidates, x) <==> (a == x && x != "") || Rejectable(rest, x)
      {
        RejectableTail(candidates, x);
      }
      if a == "" || a in seen {
        RejectAllCommits(db, rest, task, seen);
      } else if CanBeRejected(db, a, task) {
        var m := Transition(db, a, Reject).value;
        RejectingOne(db, a, task, m);
        RejectAllCommits(m, rest, task, seen + {a});
      } else {
        assert Rejectable(candidates, a) && a !in seen;
      }
    }
  }

  /** What a selection needs: a chosen asset that can be approved, and other candidates of its task
      that can be rejected. */
  ghost predicate Selectable(db: Db, selected: Id, candidates: seq<Id>)
  {
    && selected in db.assets && db.assets[selected].status in {Draft, Rejected, Approved}
    && forall a :: Rejectable(candidates, a) && a != selected ==> CanBeRejected(db, a, db.assets[selected].task)
  }

  lemma BestOfCommits(db: Db, selected: Id, candidates: seq<Id>)
    requires forall a :: a in db.assets && (a == selected || Rejectable(candidates, a)) ==> Found(db, a)
    ensures ApplyBestOf(db, selected, candidates).Ok? <==> Selectable(db, selected, candidates)
  {
    if selected in db.assets && db.assets[selected].status in {Draft, Rejected, Approved} {
      var m, task := Transition(db, selected, Approve).value, db.assets[selected].task;
      assert m.assets == db.assets[selected := db.assets[selected].(status := Approved)];
      RejectAllCommits(m, candidates, task, {selected});
      assert forall x :: x != selected ==> (CanBeRejected(m, x, task) <==> CanBeRejected(db, x, task));
    }
  }

  lemma BestOfHasOutcome(db: Db, selected: Id, candidates: seq<Id>)
    requires Consistent(db)
    ensures var r := ApplyBestOf(db, selected, candidates);
            BestOfOutcome(db, if r.Ok? then r.value else db, if r.Ok? then Pass else Fail(r.error), selected, candidates)
  {
    BestOfCommits(db, selected, candidates);
    if Selectable(db, selected, candidates) {
      BestOfEndsWithOneApproved(db, selected, candidates);
    }
  }

  /** On freshly registered drafts of one task the selection always commits. */
  lemma BestOfOnDraftsCommits(db: Db, selected: Id, candidates: seq<Id>)
    requires Found(db, selected) && db.assets[selected].status == Draft
    requires forall a :: Rejectable(candidates, a) ==>
               Found(db, a) && db.assets[a].task == db.assets[selected].task && db.assets[a].status == Draft
    ensures ApplyBestOf(db, selected, candidates).Ok?
  {
    BestOfCommits(db, selected, candidates);
  }

  /** A key names at most one task. */
  lemma KeyNamesOneTask(db: Db, row: TaskRow, t: Id, u: Id)
    requires KeysUnique(db) && Known(db, row, t) && Known(db, row, u)
    ensures t == u
  {
    assert SameKey(db.tasks[t], db.tasks[u]);
  }

  /** A creation repeated with the same key and the same input finds its task and adds nothing. */
  lemma RepeatedCreationAddsNothing(db: Db, t: Id, u: Id, row: TaskRow)
    requires Consistent(db) && row.idempotencyKey != "" && CreateTask(db, t, row).Ok?
    ensures var d := CreateTask(db, t, row).value; CreateTask(d, u, row) == Ok(d)
  {
    var d := CreateTask(db, t, row).value;
    CreateTaskKeepsConsistency(db, t, row);
    CreatedTaskIsKnown(db, t, row, d);
    var k :| Known(d, row, k) && d.tasks[k].inputHash == row.inputHash;
    forall x | Known(d, row, x)
      ensures x == k
    {
      KeyNamesOneTask(d, row, x, k);
    }
  }

  lemma CreatedTaskIsKnown(db: Db, t: Id, row: TaskRow, d: Db)
    requires row.idempotencyKey != "" && CreateTask(db, t, row) == Ok(d)
    ensures ScopeValid(d, row.scope) && exists k :: Known(d, row, k) && d.tasks[k].inputHash == row.inputHash
  {
    if !(exists u :: Known(db, row, u)) {
      assert Known(d, row, t);
    }
  }

  /** A task row never changes while it exists, so a scope read from it stays true. */
  lemma TaskRowsNeverChange(db: Db, op: Op, t: Id)
    requires t in db.tasks && t in After(db, op).tasks
    ensures After(db, op).tasks[t] == db.tasks[t]
  {
    if op.OpBestOf? && Perform(db, op).Ok? {
      RejectAllKeepsTasks(Transition(db, op.selected, Approve).value, op.candidates, db.assets[op.selected].task, {op.selected});
    }
  }

  lemma {:induction false} RejectAllKeepsTasks(db: Db, candidates: seq<Id>, task: Id, seen: set<Id>)
    requires RejectAll(db, candidates, task, seen).Ok?
    ensures RejectAll(db, candidates, task, seen).value.tasks == db.tasks
    decreases |candidates|
  {
    if candidates != [] {
      var a := Trim(candidates[0]);
      if a == "" || a in seen {
        RejectAllKeepsTasks(db, candidates[1..], task, seen);
      } else {
        RejectAllKeepsTasks(Transition(db, a, Reject).value, candidates[1..], task, seen + {a});
      }
    }
  }
}
