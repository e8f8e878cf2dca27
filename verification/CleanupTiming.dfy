/** Why cleanup's results assume that no store is in flight during a scan: runs that break the
    assumption lose a file of an asset that has a row. */
module CleanupTiming {
  import opened Database
  import opened StoreOps
  import opened StoreInvariants
  import opened Cleanup

  // ---------------------------------------------------------------- runs

  lemma RunCons(s: State, step: Step, rest: seq<Step>)
    requires Enabled(s, step) && Executable(Do(s, step), rest)
    ensures Executable(s, [step] + rest) && Run(s, [step] + rest) == Run(Do(s, step), rest)
    ensures QuietRun(s, [step] + rest) <==> Quiet(s, step) && QuietRun(Do(s, step), rest)
  {
    assert ([step] + rest)[1..] == rest;
  }

  lemma {:induction false} RunThen(s: State, first: seq<Step>, rest: seq<Step>)
    requires Executable(s, first) && Executable(Run(s, first), rest)
    ensures Executable(s, first + rest) && Run(s, first + rest) == Run(Run(s, first), rest)
    ensures QuietRun(s, first + rest) <==> QuietRun(s, first) && QuietRun(Run(s, first), rest)
    decreases |first|
  {
    if first == [] {
      assert first + rest == rest;
    } else {
      RunThen(Do(s, first[0]), first[1..], rest);
      RunCons(s, first[0], first[1..] + rest);
      assert [first[0]] + (first[1..] + rest) == first + rest;
    }
  }

  lemma ReachableNext(s: State, step: Step, s': State)
    requires Reachable(s) && Enabled(s, step) && Quiet(s, step) && s' == Do(s, step)
    ensures Reachable(s')
  {
    var steps :| Executable(Init(), steps) && QuietRun(Init(), steps) && Run(Init(), steps) == s;
    RunCons(s, step, []);
    assert [step] + [] == [step];
    RunThen(Init(), steps, [step]);
    assert Run(Init(), steps + [step]) == s';
  }

  // ---------------------------------------------------------------- a store in flight during a scan

  /** The cleanup after the walk: the orphan found there is deleted while its row is there. */
  lemma OrphanOfRegistered(s: State, c: nat, f: File)
    requires c in s.cleaners && s.cleaners[c] == Executing([FileCandidate(f)], [])
    ensures Executable(s, [TakeCandidate(c), DeleteFile(c)])
    ensures Run(s, [TakeCandidate(c), DeleteFile(c)]).db == s.db && f !in Run(s, [TakeCandidate(c), DeleteFile(c)]).files
  {
    var s1 := Do(s, TakeCandidate(c));
    RunCons(s1, DeleteFile(c), []);
    RunCons(s, TakeCandidate(c), [DeleteFile(c)]);
    assert [TakeCandidate(c)] + [DeleteFile(c)] == [TakeCandidate(c), DeleteFile(c)];
  }

  /** The walk finds a file whose path was not known when the paths were read. */
  lemma WalkFinds(s: State, c: nat, f: File, known: set<File>)
    requires c in s.cleaners && s.cleaners[c] == Scanning([], known)
    requires f in s.files && IsFileCandidate(f, known)
    ensures Executable(s, [Visit(c, f)] + [Confirm(c)])
    ensures Run(s, [Visit(c, f)] + [Confirm(c)]) == s.(cleaners := s.cleaners[c := Executing([FileCandidate(f)], [])])
  {
    var s1 := Do(s, Visit(c, f));
    assert [] + [FileCandidate(f)] == [FileCandidate(f)];
    var s2 := Do(s1, Confirm(c));
    assert s2 == s.(cleaners := s.cleaners[c := Executing([FileCandidate(f)], [])]);
    assert [Confirm(c)] + [] == [Confirm(c)];
    RunCons(s1, Confirm(c), []);
    RunCons(s, Visit(c, f), [Confirm(c)]);
  }

  /** Reading the known paths before the row is there makes its file an orphan. */
  lemma OrphanIsFound(s: State, a: Id, c: nat, scope: Scope) returns (steps: seq<Step>)
    requires Drawn(s) && VersionRefs(s.db) && a in s.storing && Final(Original, a) in s.files && c !in s.cleaners
    ensures Executable(s, steps) && !QuietRun(s, steps)
    ensures Run(s, steps) == s.(cleaners := s.cleaners[c := Executing([FileCandidate(Final(Original, a))], [])])
  {
    var f := Final(Original, a);
    var s1 := Do(s, Preview(c, scope, [], false));
    assert Candidates(s.db, scope, []) == [];
    var s2 := Do(s1, ReadKnownPaths(c));
    assert f !in KnownPaths(s.db);
    var walk := [Visit(c, f)] + [Confirm(c)];
    WalkFinds(s2, c, f, KnownPaths(s.db));
    assert s2.cleaners[c := Executing([FileCandidate(f)], [])] == s.cleaners[c := Executing([FileCandidate(f)], [])];
    RunCons(s1, ReadKnownPaths(c), walk);
    RunCons(s, Preview(c, scope, [], false), [ReadKnownPaths(c)] + walk);
    steps := [Preview(c, scope, [], false)] + ([ReadKnownPaths(c)] + walk);
  }

  /** A store that is in flight when the known paths are read loses a file: its row appears after
      the reading, its file is taken for an orphan, and the cleanup deletes it. */
  lemma StoreInFlightLosesFile(s: State, a: Id, v: Id, t: Id, scope: Scope, c: nat) returns (steps: seq<Step>)
    requires Drawn(s) && Stored(s) && VersionRefs(s.db) && a in s.storing && s.storing[a] == 3 && c !in s.cleaners
    requires Genuine(s.db, OpAsset(a, v, t, scope)) && InsertAsset(s.db, a, v, t, scope).Ok?
    ensures Executable(s, steps) && !QuietRun(s, steps)
    ensures a in Run(s, steps).db.assets && Final(Original, a) !in Run(s, steps).files
  {
    var f := Final(Original, a);
    assert f in s.files by {
      assert Rank(Original) < 3;
    }
    var found := s.(cleaners := s.cleaners[c := Executing([FileCandidate(f)], [])]);
    var end := [TakeCandidate(c), DeleteFile(c)];
    var walk := OrphanIsFound(s, a, c, scope);
    OrphanOfRegistered(Do(found, Register(a, v, t, scope)), c, f);
    RunCons(found, Register(a, v, t, scope), end);
    RunThen(s, walk, [Register(a, v, t, scope)] + end);
    steps := walk + ([Register(a, v, t, scope)] + end);
  }

  // ---------------------------------------------------------------- from the empty system

  /** A workspace, a project, a campaign and one task. */
  function OneTask(scope: Scope, t: Id): Db
  {
    Empty().(
      workspaces := {scope.workspace},
      projects := map[scope.project := scope.workspace],
      campaigns := map[scope.campaign := CampaignRow(scope.workspace, scope.project)],
      tasks := map[t := TaskRow(scope, "", "")])
  }

  lemma OneTaskIsReachable(scope: Scope, t: Id)
    ensures Reachable(Init().(db := OneTask(scope, t)))
  {
    var s0 := Init();
    assert Executable(s0, []) && QuietRun(s0, []) && Run(s0, []) == s0;
    var s1 := s0.(db := Empty().(workspaces := {scope.workspace}));
    ReachableNext(s0, Operate(OpWorkspace(scope.workspace)), s1);
    var s2 := s0.(db := s1.db.(projects := map[scope.project := scope.workspace]));
    ReachableNext(s1, Operate(OpProject(scope.workspace, scope.project)), s2);
    var s3 := s0.(db := s2.db.(campaigns := map[scope.campaign := CampaignRow(scope.workspace, scope.project)]));
    ReachableNext(s2, Operate(OpCampaign(scope.workspace, scope.project, scope.campaign)), s3);
    ReachableNext(s3, Operate(OpTask(t, TaskRow(scope, "", ""))), s0.(db := OneTask(scope, t)));
  }

  /** The state while an asset of that task is being stored, with some of its files in place. */
  function Storing(scope: Scope, t: Id, a: Id, files: set<File>, count: nat): State
  {
    State(OneTask(scope, t), files, map[a := count], {a}, map[])
  }

  function AllFiles(a: Id): set<File>
  {
    {Final(Original, a), Final(Thumbnail, a), Final(Metadata, a)}
  }

  lemma FileMoves(scope: Scope, t: Id, a: Id, files: set<File>, count: nat)
    requires count < 3 && Reachable(Storing(scope, t, a, files, count))
    ensures Reachable(Storing(scope, t, a, files + {Final(KindAt(count), a)}, count + 1))
  {
    ReachableNext(Storing(scope, t, a, files, count), MoveFile(a),
                  Storing(scope, t, a, files + {Final(KindAt(count), a)}, count + 1));
  }

  lemma StoringIsReachable(scope: Scope, t: Id, a: Id)
    ensures Reachable(Storing(scope, t, a, AllFiles(a), 3))
  {
    OneTaskIsReachable(scope, t);
    ReachableNext(Init().(db := OneTask(scope, t)), BeginStore(a), Storing(scope, t, a, {}, 0));
    FileMoves(scope, t, a, {}, 0);
    FileMoves(scope, t, a, {} + {Final(Original, a)}, 1);
    FileMoves(scope, t, a, {} + {Final(Original, a)} + {Final(Thumbnail, a)}, 2);
    assert {} + {Final(Original, a)} + {Final(Thumbnail, a)} + {Final(Metadata, a)} == AllFiles(a);
  }

  /** For every scope, task and asset there is a run from the empty system that keeps the assumption
      until a cleanup reads the known paths, and ends with an asset without its original. */
  lemma OneStoreInFlightSuffices(scope: Scope, t: Id, a: Id, v: Id) returns (before: seq<Step>, after: seq<Step>)
    ensures Executable(Init(), before) && QuietRun(Init(), before)
    ensures Executable(Init(), before + after) && !QuietRun(Init(), before + after)
    ensures var end := Run(Init(), before + after); a in end.db.assets && Final(Original, a) !in end.files
  {
    var s := Storing(scope, t, a, AllFiles(a), 3);
    StoringIsReachable(scope, t, a);
    ReachableInv(s);
    before :| Executable(Init(), before) && QuietRun(Init(), before) && Run(Init(), before) == s;
    after := StoreInFlightLosesFile(s, a, v, t, scope, 0);
    RunThen(Init(), before, after);
  }
}
