/** Storage cleanup (internal/app/storage_governance.go, internal/storage/governance.go): preview
    the candidates, then re-check and delete them one by one, while reviews, deletes and further
    stores go on around it. */
module Cleanup {
  import opened Database
  import opened StoreOps
  import opened StoreInvariants
  import opened Text

  datatype FileKind = Original | Thumbnail | Metadata

  /** A file below the storage root: one of an asset's three final files, a file of a temporary
      directory, or anything else (audit logs, input files). */
  datatype File = Final(kind: FileKind, asset: Id) | Temporary(name: string) | Elsewhere(name: string)

  /** The rank of a kind in the order in which a store moves the files to their final place. */
  function Rank(kind: FileKind): nat
  {
    match kind
    case Original => 0
    case Thumbnail => 1
    case Metadata => 2
  }

  function KindAt(rank: nat): FileKind
  {
    if rank == 0 then Original else if rank == 1 then Thumbnail else Metadata
  }

  function FilesOf(a: Id): seq<File>
  {
    [Final(Original, a), Final(Thumbnail, a), Final(Metadata, a)]
  }

  // ---------------------------------------------------------------- candidates

  datatype Candidate = AssetCandidate(scope: Scope, asset: Id, status: AssetStatus) | FileCandidate(file: File)

  datatype Reason = RejectedAsset | GeneratedUnselectedAsset | DeprecatedAsset | Kept

  /** cleanupDryRunReasonForAssetStatus, with `Kept` for "not ok". */
  function ReasonFor(status: AssetStatus, includeDeprecated: bool): Reason
  {
    match status
    case Rejected => RejectedAsset
    case Draft => GeneratedUnselectedAsset
    case Deprecated => if includeDeprecated then DeprecatedAsset else Kept
    case Approved => Kept
    case Published => Kept
  }

  /** cleanupAllowedAssetStatuses. */
  function AllowedStatuses(includeDeprecated: bool): set<AssetStatus>
  {
    {Rejected, Draft} + if includeDeprecated then {Deprecated} else {}
  }

  /** What an asset candidate may be when its rows go; it depends on the previewed status. */
  function AllowedFor(candidate: Candidate): set<AssetStatus>
    requires candidate.AssetCandidate?
  {
    AllowedStatuses(candidate.status == Deprecated)
  }

  /** executeCleanupAssetCandidate up to the deletion of files: a candidate whose previewed status
      is protected is refused outright, any other one is looked at again in the transaction. */
  function RemoveRows(db: Db, candidate: Candidate): Result<Db>
    requires candidate.AssetCandidate?
  {
    if ReasonFor(candidate.status, candidate.status == Deprecated) == Kept then Err(Protected(candidate.status))
    else CleanupAsset(db, candidate.scope, candidate.asset, AllowedFor(candidate))
  }

  /** The preview and the deletion agree on what is protected: a status is deletable if and only
      if it has a reason, and an approved or published asset never has one. */
  lemma PreviewAgreesWithDeletion(status: AssetStatus, includeDeprecated: bool)
    ensures status in AllowedStatuses(includeDeprecated) <==> ReasonFor(status, includeDeprecated) != Kept
    ensures ReasonFor(status, includeDeprecated) == Kept <==>
            status == Approved || status == Published || (status == Deprecated && !includeDeprecated)
  {
    match status
    case Draft =>
    case Approved =>
    case Rejected =>
    case Published =>
    case Deprecated =>
  }

  /** classifyUsageFile for the two categories that are ever deleted. */
  predicate IsFileCandidate(f: File, known: set<File>)
  {
    (f.Final? && f !in known) || f.Temporary?
  }

  // ---------------------------------------------------------------- the protocol

  datatype Cleaner =
    | Previewed(list: seq<Candidate>)
    | Scanning(list: seq<Candidate>, known: set<File>)
    | Executing(list: seq<Candidate>, doomed: seq<File>)

  /** `storing` maps each asset that is being stored to the number of its final files that are in
      place; `used` holds every asset id ever drawn. */
  datatype State = State(db: Db, files: set<File>, storing: map<Id, nat>, used: set<Id>, cleaners: map<nat, Cleaner>)

  datatype Step =
    | Operate(op: Op)
    | BeginStore(a: Id)
    | MoveFile(a: Id)
    | Register(a: Id, v: Id, t: Id, scope: Scope)
    | AbandonStore(a: Id)
    | WriteElsewhere(f: File)
    | Preview(c: nat, scope: Scope, assets: seq<Id>, includeDeprecated: bool)
    | ReadKnownPaths(c: nat)
    | Visit(c: nat, f: File)
    | Confirm(c: nat)
    | TakeCandidate(c: nat)
    | DeleteFile(c: nat)
    | Leave(c: nat)

  ghost predicate Previewable(db: Db, scope: Scope, assets: seq<Id>, includeDeprecated: bool)
  {
    forall i :: 0 <= i < |assets| ==>
      && assets[i] in db.assets && db.assets[assets[i]].scope == scope
      && ReasonFor(db.assets[assets[i]].status, includeDeprecated) != Kept
  }

  ghost predicate Enabled(s: State, step: Step)
  {
    match step
    case Operate(op) => !op.OpAsset?
    case BeginStore(a) => a !in s.used
    case MoveFile(a) => a in s.storing && s.storing[a] < 3
    case Register(a, v, t, scope) => a in s.storing && s.storing[a] == 3 && Genuine(s.db, OpAsset(a, v, t, scope))
    case AbandonStore(a) => a in s.storing
    case WriteElsewhere(f) => !f.Final?
    case Preview(c, scope, assets, includeDeprecated) =>
      c !in s.cleaners && Previewable(s.db, scope, assets, includeDeprecated)
    case ReadKnownPaths(c) => c in s.cleaners && s.cleaners[c].Previewed?
    case Visit(c, f) =>
      c in s.cleaners && s.cleaners[c].Scanning? && f in s.files && IsFileCandidate(f, s.cleaners[c].known)
    case Confirm(c) => c in s.cleaners && !s.cleaners[c].Executing?
    case TakeCandidate(c) =>
      c in s.cleaners && s.cleaners[c].Executing? && s.cleaners[c].doomed == [] && s.cleaners[c].list != []
    case DeleteFile(c) => c in s.cleaners && s.cleaners[c].Executing? && s.cleaners[c].doomed != []
    case Leave(c) => c in s.cleaners
  }

  /** The assumption: no store is in flight from the moment the known paths are read until the
      walk over the files has ended. The code does not enforce it. */
  ghost predicate Quiet(s: State, step: Step)
  {
    && (step.ReadKnownPaths? ==> s.storing == map[])
    && (step.BeginStore? ==> forall c :: c in s.cleaners ==> !s.cleaners[c].Scanning?)
  }

  /** ListKnownAssetFilePaths: the paths of every asset version. */
  function KnownPaths(db: Db): set<File>
  {
    set v, k: FileKind | v in db.versions :: Final(k, db.versions[v])
  }

  /** A scan lists the temporary files and the final files whose asset has no version. */
  lemma ListedFiles(db: Db, f: File)
    ensures IsFileCandidate(f, KnownPaths(db)) <==>
            f.Temporary? || (f.Final? && forall v :: v in db.versions ==> db.versions[v] != f.asset)
  {
    if f.Final? {
      assert f == Final(f.kind, f.asset);
      assert f in KnownPaths(db) <==> exists v :: v in db.versions && db.versions[v] == f.asset;
    }
  }

  ghost function Candidates(db: Db, scope: Scope, assets: seq<Id>): seq<Candidate>
    requires forall i :: 0 <= i < |assets| ==> assets[i] in db.assets
  {
    seq(|assets|, i requires 0 <= i < |assets| => AssetCandidate(scope, assets[i], db.assets[assets[i]].status))
  }

  /** executeCleanupCandidate up to the deletion of files. */
  function Taken(s: State, c: nat): State
    requires c in s.cleaners && s.cleaners[c].Executing? && s.cleaners[c].list != []
  {
    var candidate, rest := s.cleaners[c].list[0], s.cleaners[c].list[1..];
    match candidate
    case AssetCandidate(_, a, _) =>
      var r := RemoveRows(s.db, candidate);
      if r.Ok? then s.(db := r.value, cleaners := s.cleaners[c := Executing(rest, FilesOf(a))])
      else s.(cleaners := s.cleaners[c := Executing(rest, [])])
    case FileCandidate(f) => s.(cleaners := s.cleaners[c := Executing(rest, [f])])
  }

  ghost function Do(s: State, step: Step): State
    requires Enabled(s, step)
  {
    match step
    case Operate(op) => s.(db := After(s.db, op))
    case BeginStore(a) => s.(storing := s.storing[a := 0], used := s.used + {a})
    case MoveFile(a) => s.(files := s.files + {Final(KindAt(s.storing[a]), a)}, storing := s.storing[a := s.storing[a] + 1])
    case Register(a, v, t, scope) => s.(db := After(s.db, OpAsset(a, v, t, scope)), storing := s.storing - {a})
    case AbandonStore(a) => s.(storing := s.storing - {a})
    case WriteElsewhere(f) => s.(files := s.files + {f})
    case Preview(c, scope, assets, _) => s.(cleaners := s.cleaners[c := Previewed(Candidates(s.db, scope, assets))])
    case ReadKnownPaths(c) => s.(cleaners := s.cleaners[c := Scanning(s.cleaners[c].list, KnownPaths(s.db))])
    case Visit(c, f) =>
      s.(cleaners := s.cleaners[c := Scanning(s.cleaners[c].list + [FileCandidate(f)], s.cleaners[c].known)])
    case Confirm(c) => s.(cleaners := s.cleaners[c := Executing(s.cleaners[c].list, [])])
    case TakeCandidate(c) => Taken(s, c)
    case DeleteFile(c) =>
      s.(files := s.files - {s.cleaners[c].doomed[0]},
         cleaners := s.cleaners[c := Executing(s.cleaners[c].list, s.cleaners[c].doomed[1..])])
    case Leave(c) => s.(cleaners := s.cleaners - {c})
  }

  /** A preview lists assets of its scope that are not protected, each with its status at that time. */
  lemma PreviewLists(s: State, c: nat, scope: Scope, assets: seq<Id>, includeDeprecated: bool, i: nat)
    requires Enabled(s, Preview(c, scope, assets, includeDeprecated)) && i < |assets|
    ensures var cleaner, a := Do(s, Preview(c, scope, assets, includeDeprecated)).cleaners[c], assets[i];
            && cleaner.Previewed? && |cleaner.list| == |assets|
            && a in s.db.assets && s.db.assets[a].scope == scope
            && (s.db.assets[a].status in {Rejected, Draft} || (includeDeprecated && s.db.assets[a].status == Deprecated))
            && cleaner.list[i] == AssetCandidate(scope, a, s.db.assets[a].status)
  {
    PreviewAgreesWithDeletion(s.db.assets[assets[i]].status, includeDeprecated);
  }

  ghost predicate Executable(s: State, steps: seq<Step>)
    decreases |steps|
  {
    steps != [] ==> Enabled(s, steps[0]) && Executable(Do(s, steps[0]), steps[1..])
  }

  ghost function Run(s: State, steps: seq<Step>): State
    requires Executable(s, steps)
    decreases |steps|
  {
    if steps == [] then s else Run(Do(s, steps[0]), steps[1..])
  }

  /** Every step of the run keeps the assumption. */
  ghost predicate QuietRun(s: State, steps: seq<Step>)
    requires Executable(s, steps)
    decreases |steps|
  {
    steps != [] ==> Quiet(s, steps[0]) && QuietRun(Do(s, steps[0]), steps[1..])
  }

  function Init(): State
  {
    State(Empty(), {}, map[], {}, map[])
  }

  // ---------------------------------------------------------------- the invariant

  /** Every asset with a row has its original, its thumbnail and its metadata file. */
  ghost predicate Whole(s: State)
  {
    forall a, k :: a in s.db.assets ==> Final(k, a) in s.files
  }

  /** Asset ids are drawn before anything is written for them. */
  ghost predicate Drawn(s: State)
  {
    && s.db.assets.Keys <= s.used && s.storing.Keys <= s.used && s.storing.Keys !! s.db.assets.Keys
    && (forall k, a :: Final(k, a) in s.files ==> a in s.used)
  }

  ghost predicate Stored(s: State)
  {
    forall a, k :: a in s.storing && Rank(k) < s.storing[a] ==> Final(k, a) in s.files
  }

  /** The id was used, has no row and nobody is storing it: it never gets a row again. */
  ghost predicate Dead(s: State, a: Id)
  {
    a in s.used && a !in s.db.assets && a !in s.storing
  }

  ghost predicate Harmless(s: State, f: File)
  {
    f.Final? ==> Dead(s, f.asset)
  }

  ghost predicate CleanerSafe(s: State, cleaner: Cleaner)
  {
    && (forall i :: 0 <= i < |cleaner.list| && cleaner.list[i].FileCandidate? ==> Harmless(s, cleaner.list[i].file))
    && (cleaner.Executing? ==> forall i :: 0 <= i < |cleaner.doomed| ==> Harmless(s, cleaner.doomed[i]))
    && (cleaner.Scanning? ==> s.storing == map[] && forall a, k :: a in s.db.assets ==> Final(k, a) in cleaner.known)
  }

  ghost predicate CleanersSafe(s: State)
  {
    forall c :: c in s.cleaners ==> CleanerSafe(s, s.cleaners[c])
  }

  ghost predicate FilesSafe(s: State)
  {
    Whole(s) && Drawn(s) && Stored(s) && CleanersSafe(s)
  }

  ghost predicate Inv(s: State)
  {
    Consistent(s.db) && FilesSafe(s)
  }

  // ---------------------------------------------------------------- operations on rows

  lemma {:induction false} RejectAllKeepsAssets(db: Db, candidates: seq<Id>, task: Id, seen: set<Id>)
    requires RejectAll(db, candidates, task, seen).Ok?
    ensures RejectAll(db, candidates, task, seen).value.assets.Keys == db.assets.Keys
    decreases |candidates|
  {
    if candidates != [] {
      var a := Trim(candidates[0]);
      if a == "" || a in seen {
        RejectAllKeepsAssets(db, candidates[1..], task, seen);
      } else {
        var r := Transition(db, a, Reject);
        RejectAllKeepsAssets(r.value, candidates[1..], task, seen + {a});
      }
    }
  }

  /** Only registering an asset adds an asset row. */
  lemma OperationAddsNoAsset(db: Db, op: Op)
    requires !op.OpAsset?
    ensures After(db, op).assets.Keys <= db.assets.Keys
  {
    if op.OpBestOf? && Perform(db, op).Ok? {
      var r := Transition(db, op.selected, Approve);
      RejectAllKeepsAssets(r.value, op.candidates, db.assets[op.selected].task, {op.selected});
    }
  }

  lemma RegisterAddsOne(db: Db, a: Id, v: Id, t: Id, scope: Scope)
    ensures After(db, OpAsset(a, v, t, scope)).assets.Keys <= db.assets.Keys + {a}
  {
  }

  // ---------------------------------------------------------------- every step keeps the invariant

  /** No step revives a dead id. */
  ghost predicate Advances(s: State, s': State)
  {
    && s.used <= s'.used && s'.db.assets.Keys <= s.db.assets.Keys + s.storing.Keys
    && (forall a :: a in s'.storing && a in s.used ==> a in s.storing)
  }

  lemma StaysSafe(s: State, s': State, cleaner: Cleaner)
    requires CleanerSafe(s, cleaner) && Advances(s, s')
    requires cleaner.Scanning? ==> s'.storing == map[]
    ensures CleanerSafe(s', cleaner)
  {
    assert forall f :: Harmless(s, f) ==> Harmless(s', f);
  }

  lemma OthersStaySafe(s: State, s': State, c: nat)
    requires CleanersSafe(s) && Advances(s, s')
    requires forall d :: d in s'.cleaners && d != c ==> d in s.cleaners && s'.cleaners[d] == s.cleaners[d]
    requires forall d :: d in s'.cleaners && s'.cleaners[d].Scanning? && d != c ==> s'.storing == map[]
    requires c in s'.cleaners ==> CleanerSafe(s', s'.cleaners[c])
    ensures CleanersSafe(s')
  {
    forall d | d in s'.cleaners
      ensures CleanerSafe(s', s'.cleaners[d])
    {
      if d != c {
        StaysSafe(s, s', s.cleaners[d]);
      }
    }
  }

  lemma AllStaySafe(s: State, s': State)
    requires CleanersSafe(s) && Advances(s, s') && s'.cleaners == s.cleaners
    requires forall d :: d in s.cleaners && s.cleaners[d].Scanning? ==> s'.storing == map[]
    ensures CleanersSafe(s')
  {
    forall d | d in s'.cleaners
      ensures CleanerSafe(s', s'.cleaners[d])
    {
      StaysSafe(s, s', s.cleaners[d]);
    }
  }

  lemma ScanMeansQuiet(s: State)
    requires CleanersSafe(s)
    ensures forall d :: d in s.cleaners && s.cleaners[d].Scanning? ==> s.storing == map[]
  {
    forall d | d in s.cleaners && s.cleaners[d].Scanning?
      ensures s.storing == map[]
    {
      assert CleanerSafe(s, s.cleaners[d]);
    }
  }

  lemma OperationKeepsInv(s: State, op: Op)
    requires Inv(s) && Enabled(s, Operate(op))
    ensures Inv(s.(db := After(s.db, op)))
  {
    var s' := s.(db := After(s.db, op));
    OperationKeepsConsistency(s.db, op);
    OperationAddsNoAsset(s.db, op);
    ScanMeansQuiet(s);
    AllStaySafe(s, s');
  }

  lemma StoreStepKeepsInv(s: State, step: Step)
    requires Inv(s) && Enabled(s, step) && Quiet(s, step)
    requires step.BeginStore? || step.MoveFile? || step.AbandonStore? || step.WriteElsewhere?
    ensures Inv(Do(s, step))
  {
    ScanMeansQuiet(s);
    AllStaySafe(s, Do(s, step));
  }

  lemma RegisterKeepsInv(s: State, a: Id, v: Id, t: Id, scope: Scope)
    requires Inv(s) && Enabled(s, Register(a, v, t, scope))
    ensures Inv(Do(s, Register(a, v, t, scope)))
  {
    var s' := Do(s, Register(a, v, t, scope));
    OperationKeepsConsistency(s.db, OpAsset(a, v, t, scope));
    RegisterAddsOne(s.db, a, v, t, scope);
    ScanMeansQuiet(s);
    AllStaySafe(s, s');
    assert Whole(s') by {
      forall b, k | b in s'.db.assets
        ensures Final(k, b) in s'.files
      {
        if b == a {
          assert Rank(k) < 3;
        }
      }
    }
  }

  /** With no store in flight, every asset's files are among the known paths. */
  lemma KnownPathsCover(db: Db, a: Id, k: FileKind)
    requires Consistent(db) && a in db.assets
    ensures Final(k, a) in KnownPaths(db)
  {
    var v := db.assets[a].currentVersion;
    assert v in db.versions && db.versions[v] == a;
  }

  lemma ScanStepKeepsInv(s: State, step: Step)
    requires Inv(s) && Enabled(s, step) && Quiet(s, step)
    requires step.Preview? || step.ReadKnownPaths? || step.Visit? || step.Confirm? || step.Leave?
    ensures Inv(Do(s, step))
  {
    var s' := Do(s, step);
    var c := step.c;
    ScanMeansQuiet(s);
    if c in s.cleaners {
      assert CleanerSafe(s, s.cleaners[c]);
    }
    if step.ReadKnownPaths? {
      forall a, k | a in s.db.assets
        ensures Final(k, a) in KnownPaths(s.db)
      {
        KnownPathsCover(s.db, a, k);
      }
    }
    OthersStaySafe(s, s', c);
  }

  lemma TakeKeepsInv(s: State, c: nat)
    requires Inv(s) && Enabled(s, TakeCandidate(c))
    ensures Inv(Taken(s, c))
  {
    TakenRows(s, c, Taken(s, c).db);
    TakenFiles(s, c, Taken(s, c));
  }

  lemma TakenFiles(s: State, c: nat, s': State)
    requires FilesSafe(s) && Enabled(s, TakeCandidate(c)) && s' == Taken(s, c)
    requires forall a :: a in s'.db.assets ==> a in s.db.assets
    ensures FilesSafe(s')
  {
    assert CleanerSafe(s, s.cleaners[c]);
    TakenIsSafe(s, c, s');
    ScanMeansQuiet(s);
    OthersStaySafe(s, s', c);
  }

  lemma RemovedRows(db: Db, candidate: Candidate)
    requires candidate.AssetCandidate? && RemoveRows(db, candidate).Ok?
    ensures RemoveRows(db, candidate).value == WithoutAsset(db, candidate.asset)
  {
  }

  lemma TakenRows(s: State, c: nat, db: Db)
    requires Consistent(s.db) && Enabled(s, TakeCandidate(c)) && db == Taken(s, c).db
    ensures Consistent(db) && forall a :: a in db.assets ==> a in s.db.assets
  {
    var candidate := s.cleaners[c].list[0];
    if candidate.AssetCandidate? && RemoveRows(s.db, candidate).Ok? {
      RemovedRows(s.db, candidate);
      WithoutAssetKeepsConsistency(s.db, candidate.asset);
    }
  }

  lemma TakenIsSafe(s: State, c: nat, s': State)
    requires Drawn(s) && Enabled(s, TakeCandidate(c)) && CleanerSafe(s, s.cleaners[c]) && s' == Taken(s, c)
    ensures Advances(s, s') && CleanerSafe(s', s'.cleaners[c])
  {
    var before, after := s.cleaners[c], s'.cleaners[c];
    assert forall f :: Harmless(s, f) ==> Harmless(s', f);
    forall i | 0 <= i < |after.list| && after.list[i].FileCandidate?
      ensures Harmless(s', after.list[i].file)
    {
      assert after.list[i] == before.list[i + 1];
      assert Harmless(s, before.list[i + 1].file);
    }
  }

  lemma DeleteFileKeepsSafe(s: State, c: nat, s': State)
    requires FilesSafe(s) && Enabled(s, DeleteFile(c)) && s' == Do(s, DeleteFile(c))
    ensures FilesSafe(s')
  {
    var before := s.cleaners[c];
    assert CleanerSafe(s, before);
    assert Harmless(s, before.doomed[0]);
    ScanMeansQuiet(s);
    assert CleanerSafe(s', s'.cleaners[c]) by {
      StaysSafe(s, s', before);
    }
    OthersStaySafe(s, s', c);
  }

  lemma StepKeepsInv(s: State, step: Step)
    requires Inv(s) && Enabled(s, step) && Quiet(s, step)
    ensures Inv(Do(s, step))
  {
    match step
    case Operate(op) => OperationKeepsInv(s, op);
    case Register(a, v, t, scope) => RegisterKeepsInv(s, a, v, t, scope);
    case TakeCandidate(c) => TakeKeepsInv(s, c);
    case DeleteFile(c) => DeleteFileKeepsSafe(s, c, Do(s, step));
    case BeginStore(_) => StoreStepKeepsInv(s, step);
    case MoveFile(_) => StoreStepKeepsInv(s, step);
    case AbandonStore(_) => StoreStepKeepsInv(s, step);
    case WriteElsewhere(_) => StoreStepKeepsInv(s, step);
    case Preview(_, _, _, _) => ScanStepKeepsInv(s, step);
    case ReadKnownPaths(_) => ScanStepKeepsInv(s, step);
    case Visit(_, _) => ScanStepKeepsInv(s, step);
    case Confirm(_) => ScanStepKeepsInv(s, step);
    case Leave(_) => ScanStepKeepsInv(s, step);
  }

  lemma {:induction false} RunKeepsInv(s: State, steps: seq<Step>)
    requires Inv(s) && Executable(s, steps) && QuietRun(s, steps)
    ensures Inv(Run(s, steps))
    decreases |steps|
  {
    if steps != [] {
      StepKeepsInv(s, steps[0]);
      RunKeepsInv(Do(s, steps[0]), steps[1..]);
    }
  }

  // ---------------------------------------------------------------- what cleanup guarantees

  ghost predicate Reachable(s: State)
  {
    exists steps :: Executable(Init(), steps) && QuietRun(Init(), steps) && Run(Init(), steps) == s
  }

  lemma ReachableInv(s: State)
    requires Reachable(s)
    ensures Inv(s)
  {
    var steps :| Executable(Init(), steps) && QuietRun(Init(), steps) && Run(Init(), steps) == s;
    EmptyIsConsistent();
    RunKeepsInv(Init(), steps);
  }

  /** In every reachable state, whatever cleanups, reviews, deletes and stores are under way,
      every asset that has a row has its original, thumbnail and metadata file, and the rows
      themselves are consistent. */
  lemma SurvivorsAreWhole(s: State, a: Id, k: FileKind)
    requires Reachable(s) && a in s.db.assets
    ensures Final(k, a) in s.files && Consistent(s.db)
  {
    ReachableInv(s);
  }

  predicate ByCleanup(step: Step)
  {
    step.TakeCandidate? || step.DeleteFile?
  }

  /** A step of a cleanup removes an asset only if its status right then is deletable: an asset
      approved or published since the preview keeps its row and its files. */
  lemma ProtectedAssetsSurvive(s: State, step: Step, a: Id)
    requires Reachable(s) && Enabled(s, step) && ByCleanup(step)
    requires a in s.db.assets && s.db.assets[a].status in {Approved, Published}
    ensures var s' := Do(s, step);
            a in s'.db.assets && s'.db.assets[a] == s.db.assets[a] && forall k :: Final(k, a) in s'.files
  {
    ReachableInv(s);
    CleanupKeepsInv(s, step);
    CleanupKeepsProtected(s, step, a);
  }

  lemma CleanupKeepsInv(s: State, step: Step)
    requires Inv(s) && Enabled(s, step) && ByCleanup(step)
    ensures Whole(Do(s, step))
  {
    StepKeepsInv(s, step);
  }

  lemma CleanupKeepsProtected(s: State, step: Step, a: Id)
    requires Enabled(s, step) && ByCleanup(step)
    requires a in s.db.assets && s.db.assets[a].status in {Approved, Published}
    ensures a in Do(s, step).db.assets && Do(s, step).db.assets[a] == s.db.assets[a]
  {
    if step.TakeCandidate? {
      var candidate := s.cleaners[step.c].list[0];
      if candidate.AssetCandidate? {
        assert s.db.assets[a].status !in AllowedFor(candidate);
      }
    }
  }

  /** At some step of the run, the cleanup `c` was previewed with this candidate: the asset was in
      that scope and had that status then. */
  ghost predicate WasPreviewed(s: State, steps: seq<Step>, c: nat, candidate: Candidate)
    requires Executable(s, steps)
    decreases |steps|
  {
    && steps != []
    && ((steps[0].Preview? && steps[0].c == c && candidate in Candidates(s.db, steps[0].scope, steps[0].assets))
        || WasPreviewed(Do(s, steps[0]), steps[1..], c, candidate))
  }

  ghost predicate Lists(s: State, c: nat, candidate: Candidate)
  {
    c in s.cleaners && candidate in s.cleaners[c].list
  }

  lemma ListedBefore(s: State, step: Step, c: nat, candidate: Candidate)
    requires Enabled(s, step) && Lists(Do(s, step), c, candidate) && candidate.AssetCandidate?
    ensures Lists(s, c, candidate) || (step.Preview? && step.c == c && candidate in Candidates(s.db, step.scope, step.assets))
  {
    if step.TakeCandidate? && step.c == c {
      var list := s.cleaners[c].list;
      var i :| 0 <= i < |list[1..]| && list[1..][i] == candidate;
      assert list[i + 1] == candidate;
    }
  }

  lemma {:induction false} ListedWasPreviewed(s: State, steps: seq<Step>, c: nat, candidate: Candidate)
    requires Executable(s, steps) && Lists(Run(s, steps), c, candidate) && candidate.AssetCandidate?
    ensures Lists(s, c, candidate) || WasPreviewed(s, steps, c, candidate)
    decreases |steps|
  {
    if steps != [] {
      ListedWasPreviewed(Do(s, steps[0]), steps[1..], c, candidate);
      if Lists(Do(s, steps[0]), c, candidate) {
        ListedBefore(s, steps[0], c, candidate);
      }
    }
  }

  /** In every run, a cleanup removes an asset only if it previewed it, in its scope and with a
      status that is not protected, and its status is still one that the preview admits: a
      deprecated asset goes only if it was deprecated when it was previewed. */
  lemma OnlyPreviewedAssetsGo(steps: seq<Step>, c: nat, a: Id)
    requires Executable(Init(), steps) && Enabled(Run(Init(), steps), TakeCandidate(c))
    requires a in Run(Init(), steps).db.assets && a !in Taken(Run(Init(), steps), c).db.assets
    ensures var s := Run(Init(), steps);
            var candidate := s.cleaners[c].list[0];
            && WasPreviewed(Init(), steps, c, candidate)
            && candidate.AssetCandidate? && candidate.asset == a && candidate.scope == s.db.assets[a].scope
            && candidate.status in {Rejected, Draft, Deprecated}
            && s.db.assets[a].status in {Rejected, Draft} + if candidate.status == Deprecated then {Deprecated} else {}
  {
    var s := Run(Init(), steps);
    ListedWasPreviewed(Init(), steps, c, s.cleaners[c].list[0]);
  }

  /** Files go only after rows: a final file is deleted only when its asset has no row, no
      version and no event left, and never gets one again. */
  lemma RowsGoFirst(s: State, c: nat, k: FileKind, a: Id)
    requires Reachable(s) && Enabled(s, DeleteFile(c)) && s.cleaners[c].doomed[0] == Final(k, a)
    ensures Dead(s, a) && (forall v :: v in s.db.versions ==> s.db.versions[v] != a)
    ensures forall i :: 0 <= i < |s.db.reviews| ==> s.db.reviews[i].asset != a
  {
    ReachableInv(s);
    assert CleanerSafe(s, s.cleaners[c]);
    assert Harmless(s, s.cleaners[c].doomed[0]);
    forall i | 0 <= i < |s.db.reviews|
      ensures s.db.reviews[i].asset != a
    {
      assert EventRefs(s.db, s.db.reviews[i]);
    }
  }

  lemma {:induction false} DeadStaysDead(s: State, steps: seq<Step>, a: Id)
    requires Inv(s) && Executable(s, steps) && QuietRun(s, steps) && Dead(s, a)
    ensures Dead(Run(s, steps), a)
    decreases |steps|
  {
    if steps != [] {
      StepKeepsInv(s, steps[0]);
      StepKeepsDead(s, steps[0], a);
      DeadStaysDead(Do(s, steps[0]), steps[1..], a);
    }
  }

  lemma StepKeepsDead(s: State, step: Step, a: Id)
    requires Enabled(s, step) && Dead(s, a)
    ensures Dead(Do(s, step), a)
  {
    if step.Operate? {
      OperationAddsNoAsset(s.db, step.op);
    } else if step.Register? {
      RegisterAddsOne(s.db, step.a, step.v, step.t, step.scope);
    }
  }
}
