/** Splitting one request into provider calls, running the calls in parallel and merging their
    answers (internal/app/service.go, internal/provider/parameters.go). */
module ProviderSplit {
  import opened Options
  import opened Text

  // ---------------------------------------------------------------- how many per call

  /** The decoded parts of a task's structured input that bound a single call. */
  datatype Limits = Limits(profileEnabled: bool, profileProvider: string, profileMaxN: int, configMaxN: Option<int>)

  const OPENAI := "openai-compatible"

  /** A configured max_n counts only when it lies in 1..10. */
  function ConfigMaxN(input: Limits): Option<int>
  {
    if input.configMaxN.Some? && 1 <= input.configMaxN.value <= 10 then input.configMaxN else None
  }

  function Clamp(n: int): (r: nat)
    ensures 1 <= r <= 10
  {
    if n < 1 then 1 else if n > 10 then 10 else n
  }

  /** The service's idea of the largest request a provider takes in one call. */
  function EffectiveMaxN(provider: string, input: Limits): nat
  {
    var fallback := if Trim(provider) == OPENAI then 1 else 4;
    var profiled := if input.profileEnabled && Trim(input.profileProvider) == provider && input.profileMaxN > 0
                    then input.profileMaxN else fallback;
    Clamp(if ConfigMaxN(input).Some? then ConfigMaxN(input).value else profiled)
  }

  /** The same question asked by the adapter registered as `providerID`. */
  function AdapterMaxN(providerID: string, fallback: int, input: Limits): nat
  {
    var profiled := if input.profileEnabled && Trim(input.profileProvider) == providerID && input.profileMaxN > 0
                    then input.profileMaxN else fallback;
    Clamp(if ConfigMaxN(input).Some? then ConfigMaxN(input).value else profiled)
  }

  /** The default of each adapter: 1 for the OpenAI-compatible one, 4 for the mock and fal. */
  function AdapterFallback(providerID: string): int
  {
    if providerID == OPENAI then 1 else 4
  }

  /** How many images the adapter really asks for. */
  function AdapterCount(providerID: string, requested: int, input: Limits): nat
  {
    var max := AdapterMaxN(providerID, AdapterFallback(providerID), input);
    if requested < 1 then 1 else if requested > max then max else requested
  }

  // ---------------------------------------------------------------- the split

  function Sum(counts: seq<nat>): nat
  {
    if counts == [] then 0 else Sum(counts[..|counts| - 1]) + counts[|counts| - 1]
  }

  /** Full calls first, then the remainder. */
  method SplitCounts(requestedCount: int, maxPerRequest: int) returns (counts: seq<nat>)
    ensures requestedCount < 1 ==> counts == []
    ensures requestedCount >= 1 ==> counts != [] && Sum(counts) == requestedCount
    ensures forall i :: 0 <= i < |counts| ==> 1 <= counts[i] && (maxPerRequest >= 1 ==> counts[i] <= maxPerRequest)
    ensures forall i :: 0 <= i < |counts| - 1 ==> counts[i] == if maxPerRequest < 1 then 1 else maxPerRequest
  {
    counts := [];
    if requestedCount < 1 {
      return;
    }
    var max := if maxPerRequest < 1 then 1 else maxPerRequest;
    var remaining := requestedCount;
    while remaining > 0
      invariant 0 <= remaining && remaining + Sum(counts) == requestedCount
      invariant forall i :: 0 <= i < |counts| ==> 1 <= counts[i] <= max
      invariant forall i :: 0 <= i < |counts| - 1 ==> counts[i] == max
      invariant remaining > 0 && counts != [] ==> counts[|counts| - 1] == max
    {
      var count := max;
      if count > remaining {
        count := remaining;
      }
      assert (counts + [count])[..|counts|] == counts;
      counts := counts + [count];
      remaining := remaining - count;
    }
  }

  /** For an adapter registered under a name without surrounding spaces, as all of them are,
      service and adapter agree on the bound, so no call of a split is cut short by the adapter. */
  lemma AdapterTakesEveryShare(providerID: string, input: Limits, share: nat)
    requires Trimmed(providerID)
    requires 1 <= share <= EffectiveMaxN(providerID, input)
    ensures AdapterMaxN(providerID, AdapterFallback(providerID), input) == EffectiveMaxN(providerID, input)
    ensures AdapterCount(providerID, share, input) == share
  {
    TrimOfTrimmed(providerID);
  }

  /** The bound of a call: a configured one from 1 to 10, or else that of an enabled profile of this
      provider, at most 10, or else the provider's default. */
  predicate BoundIs(provider: string, input: Limits, max: nat)
  {
    if input.configMaxN.Some? && 1 <= input.configMaxN.value <= 10 then max == input.configMaxN.value
    else if input.profileEnabled && Trim(input.profileProvider) == provider && input.profileMaxN > 0 then
      max == (if input.profileMaxN < 10 then input.profileMaxN else 10)
    else max == (if Trim(provider) == "openai-compatible" then 1 else 4)
  }

  /** What service and adapter take as the bound, and how many images a call asks for. */
  lemma BoundsAre(provider: string, requested: int, input: Limits)
    ensures BoundIs(provider, input, EffectiveMaxN(provider, input))
    ensures Trimmed(provider) ==>
              && BoundIs(provider, input, AdapterMaxN(provider, AdapterFallback(provider), input))
              && AdapterCount(provider, requested, input) ==
                 (if requested < 1 then 1 else if requested > EffectiveMaxN(provider, input) then EffectiveMaxN(provider, input)
                  else requested)
  {
    if Trimmed(provider) {
      TrimOfTrimmed(provider);
    }
  }

  // ---------------------------------------------------------------- merging the answers

  datatype File<C> = File(slot: int, content: C)

  /** One provider answer: files, the raw status text, an error code and message, and whether
      the call itself returned an error. */
  datatype Answer<C> = Answer(status: string, files: seq<File<C>>, errorCode: string, errorMessage: string, err: Option<string>)

  function Shift<C>(files: seq<File<C>>, offset: int): seq<File<C>>
  {
    seq(|files|, i requires 0 <= i < |files| => File(files[i].slot + offset, files[i].content))
  }

  function Total<C>(answers: seq<Answer<C>>): nat
  {
    if answers == [] then 0 else Total(answers[..|answers| - 1]) + |answers[|answers| - 1].files|
  }

  /** All files in call order, each call's slots moved past those of the calls before it. */
  function Merged<C>(answers: seq<Answer<C>>): seq<File<C>>
  {
    if answers == [] then []
    else
      var init := answers[..|answers| - 1];
      Merged(init) + Shift(answers[|answers| - 1].files, Total(init))
  }

  /** The first call error in call order. */
  function FirstError<C>(answers: seq<Answer<C>>): Option<string>
  {
    if answers == [] then None
    else
      var before := FirstError(answers[..|answers| - 1]);
      if before.Some? then before else answers[|answers| - 1].err
  }

  /** The last text that is not empty, in call order. */
  function LastCode<C>(answers: seq<Answer<C>>): string
  {
    if answers == [] then ""
    else if answers[|answers| - 1].errorCode != "" then answers[|answers| - 1].errorCode
    else LastCode(answers[..|answers| - 1])
  }

  function LastMessage<C>(answers: seq<Answer<C>>): string
  {
    if answers == [] then ""
    else if answers[|answers| - 1].errorMessage != "" then answers[|answers| - 1].errorMessage
    else LastMessage(answers[..|answers| - 1])
  }

  function Status<C>(answers: seq<Answer<C>>): string
  {
    if FirstError(answers).None? then "succeeded"
    else if Total(answers) > 0 then "partially_succeeded"
    else "failed"
  }

  /** What the whole split answers. */
  function Combined<C>(answers: seq<Answer<C>>): Answer<C>
  {
    Answer(Status(answers), Merged(answers), LastCode(answers), LastMessage(answers), FirstError(answers))
  }

  /** `order` lists every index below `n` exactly once. */
  ghost predicate CompletionOrder(order: seq<nat>, n: nat)
  {
    && |order| == n
    && (forall k :: 0 <= k < n ==> order[k] < n)
    && (forall i, j :: 0 <= i < j < n ==> order[i] != order[j])
  }

  /** Each goroutine writes its own slot of a shared slice when it completes; the merge reads the
      slice in call order. `order` is the order of completion: the outcome does not depend on it. */
  method GenerateSplit<C(0)>(answers: seq<Answer<C>>, order: seq<nat>) returns (combined: Answer<C>)
    requires CompletionOrder(order, |answers|)
    ensures combined == Combined(answers)
    ensures CombinedSays(answers, combined)
  {
    var results := new Answer<C>[|answers|];
    for k := 0 to |order|
      invariant forall j :: 0 <= j < k ==> results[order[j]] == answers[order[j]]
    {
      results[order[k]] := answers[order[k]];
    }
    forall i: nat | i < |answers|
      ensures results[i] == answers[i]
    {
      var j := EveryIndexCompletes(order, |answers|, i);
    }
    assert results[..] == answers;

    var slotOffset := 0;
    var firstErr: Option<string> := None;
    combined := Answer("received", [], "", "", None);
    for i := 0 to results.Length
      invariant results[..] == answers
      invariant slotOffset == Total(answers[..i]) && firstErr == FirstError(answers[..i])
      invariant combined.files == Merged(answers[..i])
      invariant combined.errorCode == LastCode(answers[..i]) && combined.errorMessage == LastMessage(answers[..i])
    {
      assert answers[..i + 1][..i] == answers[..i];
      combined := CombineResults(combined, results[i], slotOffset);
      slotOffset := slotOffset + |results[i].files|;
      if results[i].err.Some? && firstErr.None? {
        firstErr := results[i].err;
      }
    }
    assert answers[..|answers|] == answers;
    MergedLength(answers);
    var status := "succeeded";
    if firstErr.Some? {
      status := if |combined.files| > 0 then "partially_succeeded" else "failed";
    }
    combined := combined.(status := status, err := firstErr);
    CombinedMeans(answers);
  }

  method CombineResults<C>(combined: Answer<C>, next: Answer<C>, slotOffset: int) returns (r: Answer<C>)
    ensures r.files == combined.files + Shift(next.files, slotOffset)
    ensures r.errorCode == if next.errorCode != "" then next.errorCode else combined.errorCode
    ensures r.errorMessage == if next.errorMessage != "" then next.errorMessage else combined.errorMessage
  {
    r := combined;
    if next.errorCode != "" {
      r := r.(errorCode := next.errorCode);
    }
    if next.errorMessage != "" {
      r := r.(errorMessage := next.errorMessage);
    }
    for k := 0 to |next.files|
      invariant r.files == combined.files + Shift(next.files, slotOffset)[..k]
      invariant r.errorCode == if next.errorCode != "" then next.errorCode else combined.errorCode
      invariant r.errorMessage == if next.errorMessage != "" then next.errorMessage else combined.errorMessage
    {
      var file := next.files[k];
      r := r.(files := r.files + [file.(slot := file.slot + slotOffset)]);
    }
  }

  /** A completion order reaches every call: n distinct indices below n are all of them. */
  lemma EveryIndexCompletes(order: seq<nat>, n: nat, i: nat) returns (k: nat)
    requires CompletionOrder(order, n) && i < n
    ensures k < n && order[k] == i
  {
    if i !in order {
      assert Elements(order) <= Below(n) - {i};
      SubsetSize(Elements(order), Below(n) - {i});
    }
    k :| 0 <= k < |order| && order[k] == i;
  }

  ghost function Below(n: nat): (r: set<nat>)
    ensures |r| == n
    ensures forall i: nat :: i in r <==> i < n
  {
    if n == 0 then {} else Below(n - 1) + {n - 1}
  }

  ghost function Elements(s: seq<nat>): (r: set<nat>)
    ensures forall x :: x in r <==> x in s
    ensures (forall i, j :: 0 <= i < j < |s| ==> s[i] != s[j]) ==> |r| == |s|
  {
    if s == [] then {}
    else
      assert s == s[..|s| - 1] + [s[|s| - 1]];
      Elements(s[..|s| - 1]) + {s[|s| - 1]}
  }

  lemma {:induction false} SubsetSize<T>(a: set<T>, b: set<T>)
    requires a <= b
    ensures |a| <= |b|
  {
    if a != {} {
      var x :| x in a;
      SubsetSize(a - {x}, b - {x});
    }
  }

  lemma {:induction false} MergedLength<C>(answers: seq<Answer<C>>)
    ensures |Merged(answers)| == Total(answers)
  {
    if answers != [] {
      MergedLength(answers[..|answers| - 1]);
    }
  }

  /** A call that numbers its files 0, 1, 2, ... */
  ghost predicate NumbersItsFiles<C>(a: Answer<C>)
  {
    forall i :: 0 <= i < |a.files| ==> a.files[i].slot == i
  }

  function Contents<C>(answers: seq<Answer<C>>): seq<C>
  {
    if answers == [] then []
    else
      var last := answers[|answers| - 1].files;
      Contents(answers[..|answers| - 1]) + seq(|last|, i requires 0 <= i < |last| => last[i].content)
  }

  /** The merge keeps every file of every call, in call order, and numbers them without gap or
      clash as soon as each call numbers its own. */
  lemma {:induction false} MergeIsLossless<C>(answers: seq<Answer<C>>)
    ensures |Merged(answers)| == |Contents(answers)|
    ensures forall k :: 0 <= k < |Merged(answers)| ==> Merged(answers)[k].content == Contents(answers)[k]
    ensures (forall i :: 0 <= i < |answers| ==> NumbersItsFiles(answers[i])) ==>
              forall k :: 0 <= k < |Merged(answers)| ==> Merged(answers)[k].slot == k
  {
    if answers != [] {
      var init := answers[..|answers| - 1];
      MergeIsLossless(init);
      MergedLength(init);
      assert forall i :: 0 <= i < |init| ==> init[i] == answers[i];
    }
  }

  /** The answers a split gets when every call returns what it was asked for. */
  ghost predicate Fulfilled<C>(counts: seq<nat>, answers: seq<Answer<C>>)
  {
    && |counts| == |answers|
    && forall i :: 0 <= i < |counts| ==>
         |answers[i].files| == counts[i] && NumbersItsFiles(answers[i]) && answers[i].err.None?
  }

  /** A fulfilled split succeeds with exactly as many files as the shares add up to. */
  lemma {:induction false} FulfilledSplit<C>(counts: seq<nat>, answers: seq<Answer<C>>)
    requires Fulfilled(counts, answers)
    ensures var c := Combined(answers);
            && c.status == "succeeded" && c.err.None? && |c.files| == Sum(counts)
            && forall k :: 0 <= k < |c.files| ==> c.files[k].slot == k
  {
    MergedLength(answers);
    MergeIsLossless(answers);
    if answers != [] {
      var n := |answers| - 1;
      assert Fulfilled(counts[..n], answers[..n]);
      FulfilledSplit(counts[..n], answers[..n]);
      MergedLength(answers[..n]);
    }
  }

  /** End to end: shares within the bound, an adapter that returns what it asks for, and no
      error give back exactly the requested number of images in slots 0 .. requested - 1. */
  lemma SplitDeliversTheRequest<C>(providerID: string, input: Limits, requested: nat, counts: seq<nat>, answers: seq<Answer<C>>)
    requires Trimmed(providerID) && Sum(counts) == requested && |counts| == |answers|
    requires forall i :: 0 <= i < |counts| ==> 1 <= counts[i] <= EffectiveMaxN(providerID, input)
    requires forall i :: 0 <= i < |answers| ==>
               |answers[i].files| == AdapterCount(providerID, counts[i], input) && NumbersItsFiles(answers[i]) && answers[i].err.None?
    ensures var c := Combined(answers);
            && c.status == "succeeded" && c.err.None? && |c.files| == requested
            && forall k :: 0 <= k < requested ==> c.files[k].slot == k
  {
    forall i | 0 <= i < |counts|
      ensures |answers[i].files| == counts[i]
    {
      AdapterTakesEveryShare(providerID, input, counts[i]);
    }
    FulfilledSplit(counts, answers);
  }

  /** An error anywhere surfaces as the first one in call order, and whatever the other calls
      delivered is kept. */
  lemma {:induction false} FirstErrorIsFirst<C>(answers: seq<Answer<C>>)
    ensures FirstError(answers).None? <==> forall i :: 0 <= i < |answers| ==> answers[i].err.None?
    ensures FirstError(answers).Some? ==>
              exists i :: 0 <= i < |answers| && answers[i].err == FirstError(answers)
                          && forall j :: 0 <= j < i ==> answers[j].err.None?
  {
    if answers != [] {
      var init := answers[..|answers| - 1];
      FirstErrorIsFirst(init);
      assert forall i :: 0 <= i < |init| ==> init[i] == answers[i];
      if FirstError(init).None? {
        assert answers[|answers| - 1].err == FirstError(answers);
      }
    }
  }

  // ---------------------------------------------------------------- what the merge says

  function Codes<C>(answers: seq<Answer<C>>): seq<string>
  {
    seq(|answers|, i requires 0 <= i < |answers| => answers[i].errorCode)
  }

  function Messages<C>(answers: seq<Answer<C>>): seq<string>
  {
    seq(|answers|, i requires 0 <= i < |answers| => answers[i].errorMessage)
  }

  /** The last text that is not empty, if there is one. */
  predicate IsLastText(texts: seq<string>, text: string)
  {
    if forall i :: 0 <= i < |texts| ==> texts[i] == "" then text == ""
    else exists i :: 0 <= i < |texts| && texts[i] == text != "" && forall j :: i < j < |texts| ==> texts[j] == ""
  }

  /** The status says whether a call failed and whether there is anything nevertheless; code and
      message are the last that were given; the error is the first. */
  ghost predicate CombinedSays<C>(answers: seq<Answer<C>>, c: Answer<C>)
  {
    && IsLastText(Codes(answers), c.errorCode) && IsLastText(Messages(answers), c.errorMessage)
    && (if forall i :: 0 <= i < |answers| ==> answers[i].err.None? then c.err.None? && c.status == "succeeded"
        else
          && (exists i :: FirstFailing(answers, i) && c.err == answers[i].err)
          && c.status == if exists i :: 0 <= i < |answers| && answers[i].files != [] then "partially_succeeded" else "failed")
  }

  predicate FirstFailing<C>(answers: seq<Answer<C>>, i: int)
  {
    0 <= i < |answers| && answers[i].err.Some? && forall j :: 0 <= j < i ==> answers[j].err.None?
  }

  lemma {:induction false} LastTextNext(texts: seq<string>, text: string, last: string)
    requires IsLastText(texts, text)
    ensures IsLastText(texts + [last], if last != "" then last else text)
  {
    var all := texts + [last];
    assert all[|texts|] == last && forall i :: 0 <= i < |texts| ==> all[i] == texts[i];
    if last == "" && text != "" {
      var i :| 0 <= i < |texts| && texts[i] == text != "" && forall j :: i < j < |texts| ==> texts[j] == "";
      assert all[i] == text && forall j :: i < j < |all| ==> all[j] == "";
    }
  }

  lemma {:induction false} LastTexts<C>(answers: seq<Answer<C>>)
    ensures IsLastText(Codes(answers), LastCode(answers)) && IsLastText(Messages(answers), LastMessage(answers))
  {
    if answers != [] {
      var init, last := answers[..|answers| - 1], answers[|answers| - 1];
      LastTexts(init);
      LastTextNext(Codes(init), LastCode(init), last.errorCode);
      LastTextNext(Messages(init), LastMessage(init), last.errorMessage);
      assert Codes(answers) == Codes(init) + [last.errorCode];
      assert Messages(answers) == Messages(init) + [last.errorMessage];
    }
  }

  lemma {:induction false} SomeFiles<C>(answers: seq<Answer<C>>)
    ensures Total(answers) > 0 <==> exists i :: 0 <= i < |answers| && answers[i].files != []
  {
    if answers != [] {
      var init := answers[..|answers| - 1];
      SomeFiles(init);
      assert forall i :: 0 <= i < |init| ==> init[i] == answers[i];
    }
  }

  lemma {:induction false} CombinedMeans<C>(answers: seq<Answer<C>>)
    ensures CombinedSays(answers, Combined(answers))
  {
    LastTexts(answers);
    SomeFiles(answers);
    FirstErrorIsFirst(answers);
    if FirstError(answers).Some? {
      var i :| 0 <= i < |answers| && answers[i].err == FirstError(answers) && forall j :: 0 <= j < i ==> answers[j].err.None?;
      assert FirstFailing(answers, i);
    }
  }
}
