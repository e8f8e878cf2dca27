/** How one processed attempt concludes (internal/app/service.go, second half of ProcessTask),
    and how the client-facing error summary reads that conclusion back. */
module TaskOutcome {
  import opened Options
  import opened Text

  datatype TaskStatus = Queued | Running | Completed | PartiallyCompleted | Failed | EnqueueFailed

  predicate Terminal(s: TaskStatus)
  {
    s == Completed || s == PartiallyCompleted || s == Failed
  }

  /** Storing and registering one generated file: an asset, or the error of whichever half failed. */
  datatype FileResult = Registered | Lost(error: string)

  datatype Conclusion = Conclusion(status: TaskStatus, code: Option<string>, message: Option<string>)

  function Count(files: seq<FileResult>): nat
  {
    if files == [] then 0
    else Count(files[..|files| - 1]) + if files[|files| - 1].Registered? then 1 else 0
  }

  function LastError(files: seq<FileResult>): Option<string>
  {
    if files == [] then None
    else if files[|files| - 1].Lost? then Some(files[|files| - 1].error)
    else LastError(files[..|files| - 1])
  }

  /** The status of a task from what was registered, what was asked and whether anything failed. */
  function FinalStatus(ready: nat, requested: int, lost: bool, providerFailed: bool): TaskStatus
  {
    if ready == 0 then Failed
    else if ready < requested || lost || providerFailed then PartiallyCompleted
    else Completed
  }

  function ReadyText(ready: nat, requested: nat): string
  {
    Decimal(ready) + " of " + Decimal(requested) + " requested images are ready"
  }

  /** The message recorded with a partial result. */
  function PartialMessage(ready: nat, requested: nat, error: Option<string>): string
  {
    if error.Some? then ReadyText(ready, requested) + ": " + error.value else ReadyText(ready, requested)
  }

  function FirstNonBlank(value: string, fallback: string): string
  {
    if Trim(value) != [] then Trim(value) else Trim(fallback)
  }

  function Either(a: Option<string>, b: Option<string>): Option<string>
  {
    if a.Some? then a else b
  }

  function Conclude(ready: nat, requested: nat, lost: Option<string>, providerError: Option<string>, errorCode: string): Conclusion
  {
    match FinalStatus(ready, requested, lost.Some?, providerError.Some?)
    case Failed =>
      if lost.Some? then Conclusion(Failed, Some("asset_processing_failed"), lost)
      else if providerError.Some? then Conclusion(Failed, Some(FirstNonBlank(errorCode, "provider_error")), providerError)
      else Conclusion(Failed, Some("asset_processing_failed"), Some("no generated files were registered"))
    case PartiallyCompleted =>
      Conclusion(PartiallyCompleted, Some(FirstNonBlank(errorCode, "partial_success")),
                 Some(PartialMessage(ready, requested, Either(lost, providerError))))
    case _ => Conclusion(Completed, None, None)
  }

  // ---------------------------------------------------------------- what a conclusion reports

  /** The last file that was lost. */
  predicate LastLost(files: seq<FileResult>, k: int)
  {
    0 <= k < |files| && files[k].Lost? && forall j :: k < j < |files| ==> files[j].Registered?
  }

  /** What went wrong, if anything did: the last lost file, or else the provider's error. */
  ghost predicate Reason(files: seq<FileResult>, providerError: Option<string>, reason: Option<string>)
  {
    || (exists k :: LastLost(files, k) && reason == Some(files[k].error))
    || ((forall k :: 0 <= k < |files| ==> files[k].Registered?) && reason == providerError)
  }

  function RegisteredAt(files: seq<FileResult>): set<nat>
  {
    set k: nat | k < |files| && files[k].Registered?
  }

  /** The recorded code and message say how many images are ready and what went wrong. */
  predicate Reports(c: Conclusion, ready: nat, requested: nat, allRegistered: bool, reason: Option<string>, errorCode: string)
  {
    var given := Trim(errorCode);
    match c.status
    case Completed => c.code.None? && c.message.None?
    case PartiallyCompleted =>
      && c.code == Some(if given != "" then given else "partial_success")
      && c.message == Some(Decimal(ready) + " of " + Decimal(requested) + " requested images are ready"
                           + if reason.Some? then ": " + reason.value else "")
    case Failed =>
      && c.code == Some(if allRegistered && reason.Some? then (if given != "" then given else "provider_error")
                        else "asset_processing_failed")
      && c.message == Some(if reason.Some? then reason.value else "no generated files were registered")
    case _ => false
  }

  ghost predicate Explained(files: seq<FileResult>, requested: nat, providerError: Option<string>, errorCode: string, c: Conclusion)
  {
    exists reason ::
      && Reason(files, providerError, reason)
      && Reports(c, |RegisteredAt(files)|, requested, |RegisteredAt(files)| == |files|, reason, errorCode)
  }

  lemma {:induction false} CountIsNumber(files: seq<FileResult>)
    ensures Count(files) == |RegisteredAt(files)|
  {
    if files == [] {
      assert RegisteredAt(files) == {};
    } else {
      var init, n := files[..|files| - 1], |files| - 1;
      CountIsNumber(init);
      forall k: nat
        ensures k in RegisteredAt(files) <==> k in RegisteredAt(init) || (k == n && files[n].Registered?)
      {
        assert k < n ==> init[k] == files[k];
      }
      if files[n].Registered? {
        assert RegisteredAt(files) == RegisteredAt(init) + {n};
      } else {
        assert RegisteredAt(files) == RegisteredAt(init);
      }
    }
  }

  lemma {:induction false} LastErrorIsLast(files: seq<FileResult>)
    requires LastError(files).Some?
    ensures exists k :: LastLost(files, k) && LastError(files) == Some(files[k].error)
  {
    var init, n := files[..|files| - 1], |files| - 1;
    if files[n].Lost? {
      assert LastLost(files, n);
    } else {
      LastErrorIsLast(init);
      var k :| LastLost(init, k) && LastError(init) == Some(init[k].error);
      assert forall j :: 0 <= j < n ==> init[j] == files[j];
      assert LastLost(files, k);
    }
  }

  lemma FallbackCodes(errorCode: string)
    ensures FirstNonBlank(errorCode, "provider_error") == if Trim(errorCode) != "" then Trim(errorCode) else "provider_error"
    ensures FirstNonBlank(errorCode, "partial_success") == if Trim(errorCode) != "" then Trim(errorCode) else "partial_success"
  {
    TrimOfTrimmed("provider_error");
    TrimOfTrimmed("partial_success");
  }

  lemma PartialReports(c: Conclusion, ready: nat, requested: nat, allRegistered: bool, reason: Option<string>, errorCode: string)
    requires c == Conclusion(PartiallyCompleted, Some(FirstNonBlank(errorCode, "partial_success")),
                             Some(PartialMessage(ready, requested, reason)))
    ensures Reports(c, ready, requested, allRegistered, reason, errorCode)
  {
    FallbackCodes(errorCode);
    var text := ReadyText(ready, requested);
    assert text + "" == text;
    if reason.Some? {
      assert text + (": " + reason.value) == text + ": " + reason.value;
    }
  }

  lemma FailureReports(ready: nat, requested: nat, lost: Option<string>, providerError: Option<string>, errorCode: string)
    requires ready == 0
    ensures Reports(Conclude(ready, requested, lost, providerError, errorCode), ready, requested, lost.None?,
                    Either(lost, providerError), errorCode)
  {
    FallbackCodes(errorCode);
  }

  lemma ConclusionReports(ready: nat, requested: nat, lost: Option<string>, providerError: Option<string>, errorCode: string)
    ensures Reports(Conclude(ready, requested, lost, providerError, errorCode), ready, requested, lost.None?,
                    Either(lost, providerError), errorCode)
  {
    var c := Conclude(ready, requested, lost, providerError, errorCode);
    if ready == 0 {
      FailureReports(ready, requested, lost, providerError, errorCode);
    } else if c.status == PartiallyCompleted {
      PartialReports(c, ready, requested, lost.None?, Either(lost, providerError), errorCode);
    }
  }

  lemma ReasonIsEither(files: seq<FileResult>, providerError: Option<string>)
    ensures Reason(files, providerError, Either(LastError(files), providerError))
  {
    CountIsFullIffNothingLost(files);
    if LastError(files).Some? {
      LastErrorIsLast(files);
    }
  }

  lemma ConclusionIsExplained(files: seq<FileResult>, requested: nat, providerError: Option<string>, errorCode: string)
    ensures Explained(files, requested, providerError, errorCode,
                      Conclude(Count(files), requested, LastError(files), providerError, errorCode))
  {
    CountIsFullIffNothingLost(files);
    CountIsNumber(files);
    ReasonIsEither(files, providerError);
    ConclusionReports(Count(files), requested, LastError(files), providerError, errorCode);
  }

  /** The registration loop and the status decision after it. */
  method RegisterFiles(files: seq<FileResult>, requested: nat, providerError: Option<string>, errorCode: string)
    returns (successCount: nat, c: Conclusion)
    ensures successCount == Count(files)
    ensures c == Conclude(Count(files), requested, LastError(files), providerError, errorCode)
    ensures c.status == Completed <==>
            (forall i :: 0 <= i < |files| ==> files[i].Registered?)
            && |files| >= 1 && |files| >= requested && providerError.None?
    ensures c.status == Failed <==> forall i :: 0 <= i < |files| ==> files[i].Lost?
    ensures Terminal(c.status) && (c.status == Completed <==> c.message.None?)
    ensures successCount == |RegisteredAt(files)| && Explained(files, requested, providerError, errorCode, c)
  {
    successCount := 0;
    var processErr: Option<string> := None;
    for k := 0 to |files|
      invariant successCount == Count(files[..k])
      invariant processErr == LastError(files[..k])
    {
      assert files[..k + 1][..k] == files[..k];
      if files[k].Lost? {
        processErr := Some(files[k].error);
      } else {
        successCount := successCount + 1;
      }
    }
    assert files[..|files|] == files;
    c := Settle(successCount, requested, processErr, providerError, errorCode);
    OutcomeAccounting(files, requested, providerError, errorCode);
    CountIsNumber(files);
    ConclusionIsExplained(files, requested, providerError, errorCode);
  }

  method Settle(successCount: nat, requested: nat, processErr: Option<string>, providerError: Option<string>, errorCode: string)
    returns (c: Conclusion)
    ensures c == Conclude(successCount, requested, processErr, providerError, errorCode)
    ensures c.status == Completed <==> successCount >= 1 && successCount >= requested && processErr.None? && providerError.None?
    ensures c.status == Failed <==> successCount == 0
    ensures c.message.None? <==> c.status == Completed
  {
    if successCount == 0 {
      if processErr.Some? {
        c := Conclusion(Failed, Some("asset_processing_failed"), processErr);
      } else if providerError.Some? {
        c := Conclusion(Failed, Some(FirstNonBlank(errorCode, "provider_error")), providerError);
      } else {
        c := Conclusion(Failed, Some("asset_processing_failed"), Some("no generated files were registered"));
      }
    } else if successCount < requested || processErr.Some? || providerError.Some? {
      var error := processErr;
      if processErr.None? {
        error := providerError;
      }
      c := Conclusion(PartiallyCompleted, Some(FirstNonBlank(errorCode, "partial_success")),
                      Some(PartialMessage(successCount, requested, error)));
    } else {
      c := Conclusion(Completed, None, None);
    }
  }

  lemma {:induction false} CountIsFullIffNothingLost(files: seq<FileResult>)
    ensures Count(files) <= |files|
    ensures Count(files) == |files| <==> LastError(files).None?
    ensures LastError(files).None? <==> forall i :: 0 <= i < |files| ==> files[i].Registered?
  {
    if files != [] {
      var init := files[..|files| - 1];
      CountIsFullIffNothingLost(init);
      assert forall i :: 0 <= i < |init| ==> init[i] == files[i];
    }
  }

  /** What each outcome tells the caller: completed means every generated file was registered
      and the request was met without any error; failed means nothing was registered. */
  lemma OutcomeAccounting(files: seq<FileResult>, requested: nat, providerError: Option<string>, errorCode: string)
    ensures var c := Conclude(Count(files), requested, LastError(files), providerError, errorCode);
            && Terminal(c.status)
            && (c.status == Completed <==>
                  (forall i :: 0 <= i < |files| ==> files[i].Registered?)
                  && |files| >= 1 && |files| >= requested && providerError.None?)
            && (c.status == Failed <==> forall i :: 0 <= i < |files| ==> files[i].Lost?)
            && (c.status == Completed <==> c.message.None?)
  {
    CountIsFullIffNothingLost(files);
    CountIsZeroIffAllLost(files);
  }

  lemma {:induction false} CountIsZeroIffAllLost(files: seq<FileResult>)
    ensures Count(files) == 0 <==> forall i :: 0 <= i < |files| ==> files[i].Lost?
  {
    if files != [] {
      var init := files[..|files| - 1];
      CountIsZeroIffAllLost(init);
      assert forall i :: 0 <= i < |init| ==> init[i] == files[i];
    }
  }

  function AfterMarker(message: string): string
  {
    var marker := Index(message, ": ");
    if marker >= 0 && marker + 2 < |message| then Trim(message[marker + 2..]) else ""
  }

  /** The provider error shown to the client, recovered from the recorded message. */
  function ProviderErrorSummary(status: TaskStatus, requested: int, delivered: int, errorMessage: Option<string>): string
  {
    if errorMessage.None? || Trim(errorMessage.value) == [] then ""
    else
      var message := Trim(errorMessage.value);
      if status == PartiallyCompleted && delivered > 0 && requested > 0 && delivered < requested then
        AfterMarker(message)
      else if status == Failed || status == EnqueueFailed then message
      else ""
  }

  /** The recorded message carries the error text through to the summary, trimmed, exactly
      while fewer images are delivered than were requested. `delivered` is the asset count at
      the time of reading, which may differ from the count when the message was written. */
  lemma SummaryRecoversPartialError(ready: nat, requested: nat, delivered: nat, error: Option<string>)
    ensures ProviderErrorSummary(PartiallyCompleted, requested, delivered, Some(PartialMessage(ready, requested, error)))
            == if error.Some? && 0 < delivered < requested then Trim(error.value) else ""
  {
    ReadyTextShape(ready, requested);
    SummaryOfMessage(ReadyText(ready, requested), requested, delivered, error);
  }

  /** A failed task shows its whole message, and a task in any other state shows none. */
  lemma SummaryOfOtherStates(status: TaskStatus, requested: int, delivered: int, error: Option<string>)
    requires status != PartiallyCompleted
    ensures ProviderErrorSummary(status, requested, delivered, error)
            == if status in {Failed, EnqueueFailed} && error.Some? then Trim(error.value) else ""
  {
  }

  lemma ReadyTextShape(ready: nat, requested: nat)
    ensures ReadyText(ready, requested) != [] && Trimmed(ReadyText(ready, requested)) && ':' !in ReadyText(ready, requested)
  {
    var p := ReadyText(ready, requested);
    assert p[0] == Decimal(ready)[0];
    assert p[|p| - 1] == 'y';
  }

  lemma SummaryOfMessage(p: string, requested: nat, delivered: nat, error: Option<string>)
    requires p != [] && Trimmed(p) && ':' !in p
    ensures ProviderErrorSummary(PartiallyCompleted, requested, delivered, Some(if error.Some? then p + ": " + error.value else p))
            == if error.Some? && 0 < delivered < requested then Trim(error.value) else ""
  {
    if error.None? {
      TrimOfTrimmed(p);
      NoColonSpace(p);
      SummaryIsAfterMarker(requested, delivered, p);
    } else {
      AfterMarkerOfJoined(p, error.value);
      SummaryIsAfterMarker(requested, delivered, p + ": " + error.value);
    }
  }

  lemma SummaryIsAfterMarker(requested: nat, delivered: nat, m: string)
    requires Trim(m) != []
    ensures ProviderErrorSummary(PartiallyCompleted, requested, delivered, Some(m))
            == if 0 < delivered < requested then AfterMarker(Trim(m)) else ""
  {
  }

  lemma AfterMarkerOfJoined(p: string, e: string)
    requires p != [] && Trimmed(p) && ':' !in p
    ensures Trim(p + ": " + e) != []
    ensures AfterMarker(Trim(p + ": " + e)) == Trim(e)
  {
    var r := TrimRight(e);
    TrimOfJoined(p, e);
    assert Trim(r) == Trim(e) by {
      TrimIdempotentOnRight(e);
    }
    AfterMarkerOf(p, r);
  }

  lemma AfterMarkerOf(p: string, r: string)
    requires ':' !in p
    ensures AfterMarker(p + ":") == ""
    ensures r != [] ==> AfterMarker(p + ": " + r) == Trim(r)
  {
    NoColonSpace(p + ":");
    if r != [] {
      var message := p + ": " + r;
      FirstColonSpace(message, |p|);
      assert message[|p| + 2..] == r;
    }
  }

  lemma TrimOfJoined(p: string, e: string)
    requires p != [] && Trimmed(p)
    ensures Trim(p + ": " + e) == if TrimRight(e) == [] then p + ":" else p + ": " + TrimRight(e)
  {
    TrimOfSeparated(p, ':', ' ', e);
    assert ": " == [':', ' '];
  }

  lemma TrimOfClean(m: string)
    requires m != [] && !IsSpace(m[0])
    ensures Trim(m) == TrimRight(m)
  {
  }

  lemma TrimRightAfterSpace(space: char, e: string)
    requires IsSpace(space)
    ensures TrimRight([space] + e) == if TrimRight(e) == [] then [] else [space] + TrimRight(e)
  {
    TrimRightAfter([space], e);
    assert [space][..0] == [];
  }

  lemma TrimRightAfterMark(front: string, mark: char, tail: string)
    requires !IsSpace(mark)
    ensures TrimRight((front + [mark]) + tail) == (front + [mark]) + TrimRight(tail)
  {
    TrimRightAfter(front + [mark], tail);
    assert TrimRight(front + [mark]) == front + [mark];
  }

  lemma Regroup(p: string, mark: char, space: char, tail: string)
    ensures p + [mark, space] + tail == (p + [mark]) + ([space] + tail)
  {
  }

  lemma TrimOfSeparated(p: string, mark: char, space: char, e: string)
    requires p != [] && Trimmed(p) && !IsSpace(mark) && IsSpace(space)
    ensures Trim(p + [mark, space] + e) == if TrimRight(e) == [] then p + [mark] else p + [mark, space] + TrimRight(e)
  {
    Regroup(p, mark, space, e);
    Regroup(p, mark, space, TrimRight(e));
    TrimOfClean(p + [mark, space] + e);
    TrimRightAfterMark(p, mark, [space] + e);
    TrimRightAfterSpace(space, e);
  }

  lemma ColonSpaceAt(s: string, k: nat)
    ensures OccursAt(s, ": ", k) <==> k + 1 < |s| && s[k] == ':' && s[k + 1] == ' '
  {
    if k + 2 <= |s| {
      assert s[k..k + 2] == [s[k], s[k + 1]];
    }
  }

  lemma NoColonSpace(s: string)
    requires forall k :: 0 <= k < |s| - 1 ==> s[k] != ':'
    ensures Index(s, ": ") == -1
  {
    var i := Index(s, ": ");
    if i >= 0 {
      ColonSpaceAt(s, i);
    }
  }

  lemma FirstColonSpace(s: string, at: nat)
    requires at + 1 < |s| && s[at] == ':' && s[at + 1] == ' '
    requires forall k :: 0 <= k < at ==> s[k] != ':'
    ensures Index(s, ": ") == at
  {
    ColonSpaceAt(s, at);
    var i := Index(s, ": ");
    if i >= 0 {
      ColonSpaceAt(s, i);
    }
  }
}
