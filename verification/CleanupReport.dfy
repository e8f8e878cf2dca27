/** One cleanup execution from beginning to end, and the accounting of its report
    (internal/app/storage_governance.go). */
module CleanupReport {
  import opened Database
  import opened StoreOps
  import opened StoreInvariants
  import opened StoreEffects
  import opened Cleanup

  datatype FileResult = Gone(bytes: nat) | Missing | Undeletable

  datatype CandidateResult = Deleted | Skipped | Failed

  datatype Report = Report(results: seq<CandidateResult>, deleted: nat, skipped: nat, failed: nat,
                           deletedFiles: nat, deletedBytes: nat)

  /** The bytes of all files. */
  ghost function Total(files: map<File, nat>): nat
  {
    if files == map[] then 0
    else
      var f :| f in files;
      files[f] + Total(files - {f})
  }

  lemma {:induction false} TotalWithout(files: map<File, nat>, f: File)
    requires f in files
    ensures Total(files) == files[f] + Total(files - {f})
    decreases |files|
  {
    var g :| g in files && Total(files) == files[g] + Total(files - {g});
    if g != f {
      TotalWithout(files - {g}, f);
      TotalWithout(files - {f}, g);
      assert files - {g} - {f} == files - {f} - {g};
    }
  }

  function Freed(results: seq<FileResult>): nat
  {
    if results == [] then 0
    else Freed(results[..|results| - 1]) + if results[|results| - 1].Gone? then results[|results| - 1].bytes else 0
  }

  function GoneCount(results: seq<FileResult>): nat
  {
    if results == [] then 0
    else GoneCount(results[..|results| - 1]) + if results[|results| - 1].Gone? then 1 else 0
  }

  lemma ResultAppended(results: seq<FileResult>, r: FileResult)
    ensures Freed(results + [r]) == Freed(results) + if r.Gone? then r.bytes else 0
    ensures GoneCount(results + [r]) == GoneCount(results) + if r.Gone? then 1 else 0
  {
    assert (results + [r])[..|results|] == results;
  }

  /** `files` without the doomed ones, except those the file system refuses to delete. */
  function Remaining(files: map<File, nat>, doomed: seq<File>, stuck: set<File>): map<File, nat>
  {
    map f | f in files && (f !in doomed || f in stuck) :: files[f]
  }

  lemma RemainingNext(files: map<File, nat>, doomed: seq<File>, k: nat, stuck: set<File>)
    requires k < |doomed|
    ensures var now, f := Remaining(files, doomed[..k], stuck), doomed[k];
            Remaining(files, doomed[..k + 1], stuck) == if f in now && f !in stuck then now - {f} else now
  {
    assert doomed[..k + 1] == doomed[..k] + [doomed[k]];
  }

  /** What happens to the i-th doomed file: a file listed twice is missing the second time. */
  function FileResultAt(files: map<File, nat>, doomed: seq<File>, stuck: set<File>, i: nat): FileResult
    requires i < |doomed|
  {
    var f := doomed[i];
    if f !in files then Missing
    else if f in stuck then Undeletable
    else if f in doomed[..i] then Missing
    else Gone(files[f])
  }

  /** How a file is deleted. */
  function Deletion(files: map<File, nat>, f: File, stuck: set<File>): FileResult
  {
    if f !in files then Missing else if f in stuck then Undeletable else Gone(files[f])
  }

  lemma NextResult(files: map<File, nat>, doomed: seq<File>, stuck: set<File>, k: nat)
    requires k < |doomed|
    ensures Deletion(Remaining(files, doomed[..k], stuck), doomed[k], stuck) == FileResultAt(files, doomed, stuck, k)
  {
  }

  /** The rows after one candidate. */
  function RowsAfterOne(db: Db, candidate: Candidate): Db
  {
    if candidate.FileCandidate? then db
    else
      var r := RemoveRows(db, candidate);
      if r.Ok? then r.value else db
  }

  /** The files that one candidate stands for. */
  function FilesFor(candidate: Candidate): seq<File>
  {
    if candidate.FileCandidate? then [candidate.file] else FilesOf(candidate.asset)
  }

  predicate Refused(db: Db, candidate: Candidate)
  {
    candidate.AssetCandidate? && RemoveRows(db, candidate).Err?
  }

  function FilesAfterOne(db: Db, files: map<File, nat>, candidate: Candidate, stuck: set<File>): map<File, nat>
  {
    if Refused(db, candidate) then files else Remaining(files, FilesFor(candidate), stuck)
  }

  /** Some file of the candidate is there and cannot be deleted. */
  predicate SomeStuck(files: map<File, nat>, candidate: Candidate, stuck: set<File>)
  {
    exists i :: 0 <= i < |FilesFor(candidate)| && FilesFor(candidate)[i] in files && FilesFor(candidate)[i] in stuck
  }

  /** How a candidate ends. */
  function ResultOf(db: Db, files: map<File, nat>, candidate: Candidate, stuck: set<File>): CandidateResult
  {
    if Refused(db, candidate) then Skipped
    else if SomeStuck(files, candidate, stuck) then Failed
    else if candidate.FileCandidate? && candidate.file !in files then Skipped
    else Deleted
  }

  // ---------------------------------------------------------------- one candidate, in terms of the rows and files

  /** A candidate that is left alone: an asset that was previewed with a protected status, that is
      not in the previewed scope any more, or whose status the preview does not admit. */
  predicate LeftAlone(db: Db, candidate: Candidate)
  {
    match candidate
    case FileCandidate(_) => false
    case AssetCandidate(scope, a, status) =>
      || status in {Approved, Published} || a !in db.assets || db.assets[a].scope != scope
      || db.assets[a].status !in if status == Deprecated then {Rejected, Draft, Deprecated} else {Rejected, Draft}
  }

  /** The files that go with a candidate. */
  predicate Owns(candidate: Candidate, f: File)
  {
    match candidate
    case FileCandidate(g) => f == g
    case AssetCandidate(_, a, _) => f.Final? && f.asset == a
  }

  /** The candidate's files are gone, except those that cannot be deleted; no other file is. */
  ghost predicate OwnFilesGone(files: map<File, nat>, left: map<File, nat>, candidate: Candidate, stuck: set<File>)
  {
    && (forall f :: f in left <==> f in files && (Owns(candidate, f) ==> f in stuck))
    && (forall f :: f in left ==> left[f] == files[f])
  }

  /** How a candidate ends, and what it does to the rows and files. */
  ghost predicate Treated(db: Db, files: map<File, nat>, candidate: Candidate, stuck: set<File>,
                          d: Db, left: map<File, nat>, outcome: CandidateResult)
  {
    if LeftAlone(db, candidate) then outcome == Skipped && d == db && left == files
    else
      && (if candidate.AssetCandidate? then AssetGone(db, d, candidate.asset) else d == db)
      && OwnFilesGone(files, left, candidate, stuck)
      && (outcome == Failed <==> exists f :: f in left && Owns(candidate, f))
      && (outcome == Skipped <==> candidate.FileCandidate? && candidate.file !in files)
  }

  lemma OwnsItsFiles(candidate: Candidate, f: File)
    ensures Owns(candidate, f) <==> f in FilesFor(candidate)
  {
    if candidate.AssetCandidate? {
      if Owns(candidate, f) {
        assert f == Final(f.kind, f.asset);
        match f.kind
        case Original => assert FilesFor(candidate)[0] == f;
        case Thumbnail => assert FilesFor(candidate)[1] == f;
        case Metadata => assert FilesFor(candidate)[2] == f;
      }
    } else {
      assert FilesFor(candidate)[0] == candidate.file;
    }
  }

  lemma RefusedIffLeftAlone(db: Db, candidate: Candidate)
    requires Consistent(db)
    ensures Refused(db, candidate) <==> LeftAlone(db, candidate)
    ensures candidate.AssetCandidate? && !LeftAlone(db, candidate) ==> AssetGone(db, RowsAfterOne(db, candidate), candidate.asset)
  {
    if candidate.AssetCandidate? {
      AdmittedStatuses(candidate);
      CleanupRemoves(db, candidate.scope, candidate.asset, AllowedFor(candidate));
    }
  }

  lemma AdmittedStatuses(candidate: Candidate)
    requires candidate.AssetCandidate?
    ensures AllowedFor(candidate) == if candidate.status == Deprecated then {Rejected, Draft, Deprecated} else {Rejected, Draft}
    ensures ReasonFor(candidate.status, candidate.status == Deprecated) == Kept <==> candidate.status in {Approved, Published}
  {
  }

  lemma RemainingFiles(files: map<File, nat>, candidate: Candidate, stuck: set<File>)
    ensures OwnFilesGone(files, Remaining(files, FilesFor(candidate), stuck), candidate, stuck)
    ensures SomeStuck(files, candidate, stuck) <==> exists f :: f in Remaining(files, FilesFor(candidate), stuck) && Owns(candidate, f)
  {
    forall f: File
      ensures Owns(candidate, f) <==> f in FilesFor(candidate)
    {
      OwnsItsFiles(candidate, f);
    }
    var left := Remaining(files, FilesFor(candidate), stuck);
    if SomeStuck(files, candidate, stuck) {
      var i :| 0 <= i < |FilesFor(candidate)| && FilesFor(candidate)[i] in files && FilesFor(candidate)[i] in stuck;
      assert FilesFor(candidate)[i] in left && Owns(candidate, FilesFor(candidate)[i]);
    }
    if f :| f in left && Owns(candidate, f) {
      var i :| 0 <= i < |FilesFor(candidate)| && FilesFor(candidate)[i] == f;
      assert SomeStuck(files, candidate, stuck);
    }
  }

  /** A candidate is skipped exactly if it is left alone or is a file that is not there; every
      other one loses its rows and its files. */
  lemma CandidateIsTreated(db: Db, files: map<File, nat>, candidate: Candidate, stuck: set<File>)
    requires Consistent(db)
    ensures Treated(db, files, candidate, stuck, RowsAfterOne(db, candidate), FilesAfterOne(db, files, candidate, stuck),
                    ResultOf(db, files, candidate, stuck))
  {
    RefusedIffLeftAlone(db, candidate);
    RemainingFiles(files, candidate, stuck);
  }

  // ---------------------------------------------------------------- all candidates

  function RowsAfter(db: Db, candidates: seq<Candidate>): Db
  {
    if candidates == [] then db
    else RowsAfterOne(RowsAfter(db, candidates[..|candidates| - 1]), candidates[|candidates| - 1])
  }

  function FilesAfter(db: Db, files: map<File, nat>, candidates: seq<Candidate>, stuck: set<File>): map<File, nat>
  {
    if candidates == [] then files
    else
      var before := candidates[..|candidates| - 1];
      FilesAfterOne(RowsAfter(db, before), FilesAfter(db, files, before, stuck), candidates[|candidates| - 1], stuck)
  }

  /** How the candidates end, each after the ones before it. */
  function ResultsAfter(db: Db, files: map<File, nat>, candidates: seq<Candidate>, stuck: set<File>): (r: seq<CandidateResult>)
    ensures |r| == |candidates|
  {
    if candidates == [] then []
    else
      var before, last := candidates[..|candidates| - 1], candidates[|candidates| - 1];
      ResultsAfter(db, files, before, stuck) + [ResultOf(RowsAfter(db, before), FilesAfter(db, files, before, stuck), last, stuck)]
  }

  /** The rows and files between the candidates: each candidate is treated in its turn. */
  ghost predicate Turns(dbs: seq<Db>, stores: seq<map<File, nat>>, candidates: seq<Candidate>, stuck: set<File>,
                        results: seq<CandidateResult>)
  {
    && |dbs| == |stores| == |candidates| + 1 && |results| == |candidates|
    && forall i :: 0 <= i < |candidates| ==>
         Treated(dbs[i], stores[i], candidates[i], stuck, dbs[i + 1], stores[i + 1], results[i])
  }

  ghost predicate TreatedInTurn(rows: Db, start: map<File, nat>, candidates: seq<Candidate>, stuck: set<File>,
                                db: Db, files: map<File, nat>, results: seq<CandidateResult>)
  {
    exists dbs: seq<Db>, stores: seq<map<File, nat>> ::
      && Turns(dbs, stores, candidates, stuck, results)
      && dbs[0] == rows && stores[0] == start && dbs[|candidates|] == db && stores[|candidates|] == files
  }

  lemma {:induction false} RowsStayConsistent(db: Db, candidates: seq<Candidate>)
    requires Consistent(db)
    ensures Consistent(RowsAfter(db, candidates))
  {
    if candidates != [] {
      var before, last := candidates[..|candidates| - 1], candidates[|candidates| - 1];
      RowsStayConsistent(db, before);
      if last.AssetCandidate? {
        WithoutAssetKeepsConsistency(RowsAfter(db, before), last.asset);
      }
    }
  }

  lemma NextIsTreated(db: Db, files: map<File, nat>, candidates: seq<Candidate>, next: Candidate, stuck: set<File>)
    requires Consistent(db)
    ensures var more := candidates + [next];
            Treated(RowsAfter(db, candidates), FilesAfter(db, files, candidates, stuck), next, stuck,
                    RowsAfter(db, more), FilesAfter(db, files, more, stuck), ResultsAfter(db, files, more, stuck)[|candidates|])
  {
    AfterNext(db, files, candidates, next, stuck);
    RowsStayConsistent(db, candidates);
    CandidateIsTreated(RowsAfter(db, candidates), FilesAfter(db, files, candidates, stuck), next, stuck);
  }

  /** The turns up to here, and one more. */
  lemma {:induction false} LastIsTreated(db: Db, files: map<File, nat>, candidates: seq<Candidate>, last: Candidate,
                                         stuck: set<File>, d: Db, left: map<File, nat>, results: seq<CandidateResult>,
                                         d': Db, left': map<File, nat>, outcome: CandidateResult)
    requires TreatedInTurn(db, files, candidates, stuck, d, left, results)
    requires Treated(d, left, last, stuck, d', left', outcome)
    ensures TreatedInTurn(db, files, candidates + [last], stuck, d', left', results + [outcome])
  {
    var dbs: seq<Db>, stores: seq<map<File, nat>> :|
      && Turns(dbs, stores, candidates, stuck, results)
      && dbs[0] == db && stores[0] == files && dbs[|candidates|] == d && stores[|candidates|] == left;
    OneMoreTurn(dbs, stores, candidates, last, stuck, results, d', left', outcome);
  }

  lemma {:induction false} EveryCandidateIsTreated(db: Db, files: map<File, nat>, candidates: seq<Candidate>, stuck: set<File>)
    requires Consistent(db)
    ensures TreatedInTurn(db, files, candidates, stuck, RowsAfter(db, candidates), FilesAfter(db, files, candidates, stuck),
                          ResultsAfter(db, files, candidates, stuck))
  {
    if candidates == [] {
      assert Turns([db], [files], candidates, stuck, []);
    } else {
      var before, last := candidates[..|candidates| - 1], candidates[|candidates| - 1];
      EveryCandidateIsTreated(db, files, before, stuck);
      NextIsTreated(db, files, before, last, stuck);
      assert before + [last] == candidates;
      LastIsTreated(db, files, before, last, stuck, RowsAfter(db, before), FilesAfter(db, files, before, stuck),
                    ResultsAfter(db, files, before, stuck), RowsAfter(db, candidates), FilesAfter(db, files, candidates, stuck),
                    ResultsAfter(db, files, candidates, stuck)[|before|]);
    }
  }

  lemma {:induction false} OneMoreTurn(dbs: seq<Db>, stores: seq<map<File, nat>>, candidates: seq<Candidate>, last: Candidate,
                                       stuck: set<File>, results: seq<CandidateResult>, d: Db, left: map<File, nat>,
                                       outcome: CandidateResult)
    requires Turns(dbs, stores, candidates, stuck, results)
    requires Treated(dbs[|candidates|], stores[|candidates|], last, stuck, d, left, outcome)
    ensures TreatedInTurn(dbs[0], stores[0], candidates + [last], stuck, d, left, results + [outcome])
  {
    assert Turns(dbs + [d], stores + [left], candidates + [last], stuck, results + [outcome]);
  }

  lemma {:induction false} ResultAt(db: Db, files: map<File, nat>, candidates: seq<Candidate>, stuck: set<File>, i: nat)
    requires i < |candidates|
    ensures ResultsAfter(db, files, candidates, stuck)[i] ==
            ResultOf(RowsAfter(db, candidates[..i]), FilesAfter(db, files, candidates[..i], stuck), candidates[i], stuck)
    decreases |candidates|
  {
    var before := candidates[..|candidates| - 1];
    if i < |before| {
      assert before[..i] == candidates[..i] && before[i] == candidates[i];
      ResultAt(db, files, before, stuck, i);
    }
  }

  /** Only assets that are deletable and were listed lose their row; the others keep it as it is. */
  lemma {:induction false} OnlyListedRowsGo(db: Db, candidates: seq<Candidate>, a: Id)
    requires a in db.assets
    ensures var d := RowsAfter(db, candidates);
            if a in d.assets then d.assets[a] == db.assets[a]
            else exists i :: 0 <= i < |candidates| && candidates[i].AssetCandidate? && candidates[i].asset == a
                   && db.assets[a].scope == candidates[i].scope && db.assets[a].status in AllowedFor(candidates[i])
  {
    if candidates != [] {
      OnlyListedRowsGo(db, candidates[..|candidates| - 1], a);
    }
  }

  /** An approved or published asset survives every execution. */
  lemma ProtectedRowsStay(db: Db, candidates: seq<Candidate>, a: Id)
    requires a in db.assets && db.assets[a].status in {Approved, Published}
    ensures a in RowsAfter(db, candidates).assets && RowsAfter(db, candidates).assets[a] == db.assets[a]
  {
    OnlyListedRowsGo(db, candidates, a);
  }

  /** The candidate that accounts for a deleted file: a file candidate for it, or an asset
      candidate whose rows are gone. */
  predicate Accounts(candidate: Candidate, f: File, db: Db)
  {
    match candidate
    case FileCandidate(g) => f == g
    case AssetCandidate(_, a, _) => f.Final? && f.asset == a && a !in db.assets
  }

  /** The counters count the results. */
  predicate Tallied(report: Report)
  {
    && report.deleted == multiset(report.results)[Deleted]
    && report.skipped == multiset(report.results)[Skipped]
    && report.failed == multiset(report.results)[Failed]
  }

  /** What has happened after some candidates: each has been treated in its turn, the report lists
      how it ended and counts the endings of each kind, and the files and bytes that the report
      counts are exactly those that are gone. */
  ghost predicate Executed(rows: Db, start: map<File, nat>, done: seq<Candidate>, stuck: set<File>,
                           db: Db, files: map<File, nat>, report: Report)
  {
    && db == RowsAfter(rows, done) && files == FilesAfter(rows, start, done, stuck)
    && report.results == ResultsAfter(rows, start, done, stuck) && Tallied(report)
    && report.deletedFiles + |files| == |start|
    && report.deletedBytes + Total(files) == Total(start)
  }

  class Cleaning {
    var db: Db
    var files: map<File, nat>

    constructor (db: Db, files: map<File, nat>)
      ensures this.db == db && this.files == files
    {
      this.db := db;
      this.files := files;
    }

    /** DeleteStorageKey for a key that names a file below the root. */
    method DeleteStorageKey(f: File, stuck: set<File>) returns (result: FileResult)
      modifies this`files
      ensures result == Deletion(old(files), f, stuck)
      ensures files == if result.Gone? then old(files) - {f} else old(files)
      ensures result.Gone? ==> result.bytes + Total(files) == Total(old(files)) && 1 + |files| == |old(files)|
    {
      if f !in files {
        result := Missing;
      } else if f in stuck {
        result := Undeletable;
      } else {
        result := Gone(files[f]);
        TotalWithout(files, f);
        files := files - {f};
      }
    }

    /** deleteCleanupCandidateFiles: what the results say is exactly what disappeared. */
    method DeleteFiles(doomed: seq<File>, stuck: set<File>) returns (results: seq<FileResult>)
      modifies this`files
      ensures |results| == |doomed| && forall i :: 0 <= i < |doomed| ==> results[i] == FileResultAt(old(files), doomed, stuck, i)
      ensures files == Remaining(old(files), doomed, stuck)
      ensures Freed(results) + Total(files) == Total(old(files))
      ensures GoneCount(results) + |files| == |old(files)|
    {
      results := [];
      for k := 0 to |doomed|
        invariant |results| == k && forall i :: 0 <= i < k ==> results[i] == FileResultAt(old(files), doomed, stuck, i)
        invariant files == Remaining(old(files), doomed[..k], stuck)
        invariant Freed(results) + Total(files) == Total(old(files))
        invariant GoneCount(results) + |files| == |old(files)|
      {
        RemainingNext(old(files), doomed, k, stuck);
        NextResult(old(files), doomed, stuck, k);
        var result := DeleteStorageKey(doomed[k], stuck);
        ResultAppended(results, result);
        results := results + [result];
      }
      assert doomed[..|doomed|] == doomed;
    }

    /** executeCleanupAssetCandidate. */
    method ExecuteAsset(candidate: Candidate, stuck: set<File>) returns (outcome: CandidateResult, results: seq<FileResult>)
      requires candidate.AssetCandidate?
      modifies this
      ensures db == RowsAfterOne(old(db), candidate) && files == FilesAfterOne(old(db), old(files), candidate, stuck)
      ensures outcome == ResultOf(old(db), old(files), candidate, stuck)
      ensures Freed(results) + Total(files) == Total(old(files)) && GoneCount(results) + |files| == |old(files)|
    {
      if ReasonFor(candidate.status, candidate.status == Deprecated) == Kept {
        return Skipped, [];
      }
      var r := CleanupAsset(db, candidate.scope, candidate.asset, AllowedFor(candidate));
      if r.Err? {
        return Skipped, [];
      }
      db := r.value;
      results := DeleteFiles(FilesOf(candidate.asset), stuck);
      outcome := if Undeletable in results then Failed else Deleted;
      StuckResults(old(files), candidate, stuck, results);
    }

    /** executeCleanupCandidate. */
    method ExecuteOne(candidate: Candidate, stuck: set<File>) returns (outcome: CandidateResult, results: seq<FileResult>)
      modifies this
      ensures db == RowsAfterOne(old(db), candidate) && files == FilesAfterOne(old(db), old(files), candidate, stuck)
      ensures outcome == ResultOf(old(db), old(files), candidate, stuck)
      ensures Freed(results) + Total(files) == Total(old(files)) && GoneCount(results) + |files| == |old(files)|
      ensures Consistent(old(db)) ==> Treated(old(db), old(files), candidate, stuck, db, files, outcome)
    {
      if Consistent(db) {
        CandidateIsTreated(db, files, candidate, stuck);
      }
      match candidate
      case AssetCandidate(_, _, _) =>
        outcome, results := ExecuteAsset(candidate, stuck);
      case FileCandidate(f) =>
        results := DeleteFiles([f], stuck);
        StuckResults(old(files), candidate, stuck, results);
        if Undeletable in results {
          outcome := Failed;
        } else if exists i :: 0 <= i < |results| && results[i].Gone? {
          outcome := Deleted;
        } else {
          outcome := Skipped;
        }
    }

    /** CleanupExecute once it is confirmed. */
    method Execute(candidates: seq<Candidate>, stuck: set<File>) returns (report: Report)
      modifies this
      ensures Executed(old(db), old(files), candidates, stuck, db, files, report)
      ensures Consistent(old(db)) ==>
                TreatedInTurn(old(db), old(files), candidates, stuck, db, files, report.results)
    {
      report := Report([], 0, 0, 0, 0, 0);
      NothingExecuted(db, files, candidates[..0], stuck);
      for k := 0 to |candidates|
        invariant Executed(old(db), old(files), candidates[..k], stuck, db, files, report)
      {
        assert candidates[..k + 1] == candidates[..k] + [candidates[k]];
        report := ExecuteNext(old(db), old(files), candidates[..k], candidates[k], stuck, report);
      }
      assert candidates[..|candidates|] == candidates;
      ExecutedIsTreated(old(db), old(files), candidates, stuck, db, files, report);
    }

    /** One turn of the loop. */
    method ExecuteNext(ghost rows: Db, ghost start: map<File, nat>, ghost done: seq<Candidate>, candidate: Candidate,
                       stuck: set<File>, report: Report) returns (next: Report)
      requires Executed(rows, start, done, stuck, db, files, report)
      modifies this
      ensures Executed(rows, start, done + [candidate], stuck, db, files, next)
    {
      AfterNext(rows, start, done, candidate, stuck);
      var outcome, results := ExecuteOne(candidate, stuck);
      next := Counted(report, outcome).(
        deletedFiles := report.deletedFiles + GoneCount(results),
        deletedBytes := report.deletedBytes + Freed(results));
    }
  }

  lemma ExecutedIsTreated(rows: Db, start: map<File, nat>, candidates: seq<Candidate>, stuck: set<File>,
                          db: Db, files: map<File, nat>, report: Report)
    requires Executed(rows, start, candidates, stuck, db, files, report)
    ensures Consistent(rows) ==> TreatedInTurn(rows, start, candidates, stuck, db, files, report.results)
  {
    if Consistent(rows) {
      EveryCandidateIsTreated(rows, start, candidates, stuck);
    }
  }

  lemma NothingExecuted(db: Db, files: map<File, nat>, none: seq<Candidate>, stuck: set<File>)
    requires none == []
    ensures Executed(db, files, none, stuck, db, files, Report([], 0, 0, 0, 0, 0))
  {
  }

  lemma AfterNext(db: Db, files: map<File, nat>, candidates: seq<Candidate>, next: Candidate, stuck: set<File>)
    ensures RowsAfter(db, candidates + [next]) == RowsAfterOne(RowsAfter(db, candidates), next)
    ensures FilesAfter(db, files, candidates + [next], stuck)
            == FilesAfterOne(RowsAfter(db, candidates), FilesAfter(db, files, candidates, stuck), next, stuck)
    ensures ResultsAfter(db, files, candidates + [next], stuck)
            == ResultsAfter(db, files, candidates, stuck)
               + [ResultOf(RowsAfter(db, candidates), FilesAfter(db, files, candidates, stuck), next, stuck)]
  {
    assert (candidates + [next])[..|candidates|] == candidates;
  }

  /** One more result, in the list and in its counter. */
  function Counted(report: Report, outcome: CandidateResult): (r: Report)
    requires Tallied(report)
    ensures Tallied(r) && r.results == report.results + [outcome]
    ensures r.deletedFiles == report.deletedFiles && r.deletedBytes == report.deletedBytes
  {
    assert multiset(report.results + [outcome]) == multiset(report.results) + multiset{outcome};
    var r := report.(results := report.results + [outcome]);
    match outcome
    case Deleted => r.(deleted := report.deleted + 1)
    case Skipped => r.(skipped := report.skipped + 1)
    case Failed => r.(failed := report.failed + 1)
  }

  lemma StuckResults(files: map<File, nat>, candidate: Candidate, stuck: set<File>, results: seq<FileResult>)
    requires |results| == |FilesFor(candidate)|
    requires forall i :: 0 <= i < |results| ==> results[i] == FileResultAt(files, FilesFor(candidate), stuck, i)
    ensures Undeletable in results <==> SomeStuck(files, candidate, stuck)
  {
    if SomeStuck(files, candidate, stuck) {
      var i :| 0 <= i < |FilesFor(candidate)| && FilesFor(candidate)[i] in files && FilesFor(candidate)[i] in stuck;
      assert results[i] == Undeletable;
    }
  }

  // ---------------------------------------------------------------- the report is true at the end

  lemma {:induction false} NothingComesBack(db: Db, files: map<File, nat>, candidates: seq<Candidate>, stuck: set<File>, i: nat)
    requires i <= |candidates|
    ensures forall a :: a in RowsAfter(db, candidates).assets ==> a in RowsAfter(db, candidates[..i]).assets
    ensures var early, late := FilesAfter(db, files, candidates[..i], stuck), FilesAfter(db, files, candidates, stuck);
            && (forall f :: f in late ==> f in early && late[f] == early[f])
            && (forall f :: f in early && f in stuck ==> f in late)
    decreases |candidates|
  {
    if i < |candidates| {
      var before := candidates[..|candidates| - 1];
      assert before[..i] == candidates[..i];
      NothingComesBack(db, files, before, stuck, i);
    } else {
      assert candidates[..i] == candidates;
    }
  }

  /** What the result of one candidate means right after it. */
  lemma ResultMeans(db: Db, files: map<File, nat>, c: Candidate, stuck: set<File>)
    ensures var rows, left := RowsAfterOne(db, c), FilesAfterOne(db, files, c, stuck);
            && (ResultOf(db, files, c, stuck) != Skipped && c.AssetCandidate? ==> c.asset !in rows.assets)
            && (ResultOf(db, files, c, stuck) == Deleted ==> forall f :: f in FilesFor(c) ==> f !in left)
            && (ResultOf(db, files, c, stuck) == Failed ==> SomeStuck(left, c, stuck))
  {
    if SomeStuck(files, c, stuck) {
      var i :| 0 <= i < |FilesFor(c)| && FilesFor(c)[i] in files && FilesFor(c)[i] in stuck;
      assert FilesFor(c)[i] in FilesAfterOne(db, files, c, stuck);
    }
  }

  lemma StuckStays(early: map<File, nat>, late: map<File, nat>, c: Candidate, stuck: set<File>)
    requires SomeStuck(early, c, stuck) && forall f :: f in early && f in stuck ==> f in late
    ensures SomeStuck(late, c, stuck)
  {
    var i :| 0 <= i < |FilesFor(c)| && FilesFor(c)[i] in early && FilesFor(c)[i] in stuck;
    assert FilesFor(c)[i] in late;
  }

  /** What the report says of a candidate still holds when the execution is over: "deleted" means
      that its row and all its files are gone, "failed" that one of its files is left although a
      listed asset has no row any more. */
  lemma ReportHoldsAtTheEnd(db: Db, files: map<File, nat>, candidates: seq<Candidate>, stuck: set<File>, i: nat)
    requires i < |candidates|
    ensures var rows, left := RowsAfter(db, candidates), FilesAfter(db, files, candidates, stuck);
            var c, result := candidates[i], ResultsAfter(db, files, candidates, stuck)[i];
            && (result != Skipped && c.AssetCandidate? ==> c.asset !in rows.assets)
            && (result == Deleted ==> forall f :: f in FilesFor(c) ==> f !in left)
            && (result == Failed ==> SomeStuck(left, c, stuck))
  {
    var early, c := candidates[..i], candidates[i];
    assert candidates[..i + 1] == early + [c];
    ResultAt(db, files, candidates, stuck, i);
    AfterNext(db, files, early, c, stuck);
    ResultMeans(RowsAfter(db, early), FilesAfter(db, files, early, stuck), c, stuck);
    NothingComesBack(db, files, candidates, stuck, i + 1);
    if ResultsAfter(db, files, candidates, stuck)[i] == Failed {
      StuckStays(FilesAfter(db, files, early + [c], stuck), FilesAfter(db, files, candidates, stuck), c, stuck);
    }
  }

  /** A file that is gone at the end is one of a listed candidate's, and its asset has no row: the
      files of an asset that keeps its row are never touched on behalf of that asset. */
  lemma {:induction false} OnlyListedFilesGo(db: Db, files: map<File, nat>, candidates: seq<Candidate>, stuck: set<File>, f: File)
    requires f in files && f !in FilesAfter(db, files, candidates, stuck)
    ensures exists i :: 0 <= i < |candidates| && Accounts(candidates[i], f, RowsAfter(db, candidates))
  {
    var before, last := candidates[..|candidates| - 1], candidates[|candidates| - 1];
    if f !in FilesAfter(db, files, before, stuck) {
      OnlyListedFilesGo(db, files, before, stuck, f);
      var i :| 0 <= i < |before| && Accounts(before[i], f, RowsAfter(db, before));
      assert candidates[i] == before[i];
      RowsOnlyGo(RowsAfter(db, before), last);
    } else {
      assert Accounts(last, f, RowsAfter(db, candidates));
    }
  }

  lemma RowsOnlyGo(db: Db, candidate: Candidate)
    ensures forall a :: a in RowsAfterOne(db, candidate).assets ==> a in db.assets
  {
  }

  // ---------------------------------------------------------------- the protocol executes the same

  /** The cleaner gets from `s` to `s'` on its own. */
  ghost predicate Drives(s: State, c: nat, s': State)
  {
    exists steps ::
      && Executable(s, steps) && Run(s, steps) == s'
      && forall k :: 0 <= k < |steps| ==> steps[k] == TakeCandidate(c) || steps[k] == DeleteFile(c)
  }

  lemma DrivesNowhere(s: State, c: nat)
    ensures Drives(s, c, s)
  {
    assert Executable(s, []) && Run(s, []) == s;
  }

  lemma DrivesFirst(s: State, c: nat, step: Step, s': State)
    requires step == TakeCandidate(c) || step == DeleteFile(c)
    requires Enabled(s, step) && Drives(Do(s, step), c, s')
    ensures Drives(s, c, s')
  {
    var rest :|
      && Executable(Do(s, step), rest) && Run(Do(s, step), rest) == s'
      && forall k :: 0 <= k < |rest| ==> rest[k] == TakeCandidate(c) || rest[k] == DeleteFile(c);
    var steps := [step] + rest;
    assert steps[1..] == rest;
  }

  lemma {:induction false} FirstThenRest(db: Db, files: map<File, nat>, first: Candidate, rest: seq<Candidate>, stuck: set<File>)
    ensures var list, d, left := [first] + rest, RowsAfterOne(db, first), FilesAfterOne(db, files, first, stuck);
            RowsAfter(db, list) == RowsAfter(d, rest) && FilesAfter(db, files, list, stuck) == FilesAfter(d, left, rest, stuck)
    decreases |rest|
  {
    if rest == [] {
      assert [first] + rest == [] + [first];
      AfterNext(db, files, [], first, stuck);
    } else {
      var before, last := rest[..|rest| - 1], rest[|rest| - 1];
      FirstThenRest(db, files, first, before, stuck);
      assert [first] + rest == ([first] + before) + [last] && rest == before + [last];
      AfterNext(db, files, [first] + before, last, stuck);
      AfterNext(RowsAfterOne(db, first), FilesAfterOne(db, files, first, stuck), before, last, stuck);
    }
  }

  /** A cleaner deletes its doomed files, then treats its remaining candidates: alone, it leaves the
      rows and files that an execution of the same list leaves. */
  lemma {:induction false} CleanerFinishes(s: State, c: nat, files: map<File, nat>) returns (s': State)
    requires c in s.cleaners && s.cleaners[c].Executing?
    requires files.Keys == set f | f in s.files && f !in s.cleaners[c].doomed
    ensures Drives(s, c, s') && c in s'.cleaners && s'.cleaners[c] == Executing([], [])
    ensures s'.db == RowsAfter(s.db, s.cleaners[c].list)
    ensures s'.files == FilesAfter(s.db, files, s.cleaners[c].list, {}).Keys
    decreases |s.cleaners[c].list|, |s.cleaners[c].doomed|
  {
    var list, doomed := s.cleaners[c].list, s.cleaners[c].doomed;
    if doomed != [] {
      var m := Do(s, DeleteFile(c));
      assert doomed == [doomed[0]] + doomed[1..];
      s' := CleanerFinishes(m, c, files);
      DrivesFirst(s, c, DeleteFile(c), s');
    } else if list != [] {
      var m, left := Do(s, TakeCandidate(c)), FilesAfterOne(s.db, files, list[0], {});
      TakenLeaves(s, c, files);
      s' := CleanerFinishes(m, c, left);
      DrivesFirst(s, c, TakeCandidate(c), s');
      FirstThenRest(s.db, files, list[0], list[1..], {});
      assert [list[0]] + list[1..] == list;
    } else {
      s' := s;
      DrivesNowhere(s, c);
    }
  }

  lemma TakenLeaves(s: State, c: nat, files: map<File, nat>)
    requires c in s.cleaners && s.cleaners[c].Executing? && s.cleaners[c].doomed == [] && s.cleaners[c].list != []
    requires files.Keys == s.files
    ensures var m, candidate := Do(s, TakeCandidate(c)), s.cleaners[c].list[0];
            && m.db == RowsAfterOne(s.db, candidate) && m.cleaners[c].Executing? && m.cleaners[c].list == s.cleaners[c].list[1..]
            && FilesAfterOne(s.db, files, candidate, {}).Keys == set f | f in m.files && f !in m.cleaners[c].doomed
  {
  }
}
