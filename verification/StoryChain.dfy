/** Sequential story panels (internal/app/story_continuity.go): each panel task names the selected
    asset of the panel before it, and is accepted only if that asset fits. Strings are as their
    readers deliver them: trimmed, with "" for an absent one. */
module StoryChain {
  import opened Database
  import opened Options

  /** GenerationMode and ContinuityPolicy.Mode. */
  datatype Mode = Unset | SequentialPreviousPanel | OtherMode(name: string)

  datatype Panel = Panel(index: int, scene: string)

  datatype Story = Story(id: string, mode: Mode, policyMode: Mode, plan: seq<Panel>, requirePrevious: bool,
                         maxCandidates: nat, previousBinding: Id)

  /** The metadata keys that take part: story_id, scene_id, panel_index, previous_panel_asset_id. */
  datatype Metadata = Metadata(story: string, scene: string, panel: int, previous: Id)

  datatype Request = Request(scope: Scope, story: Option<Story>, metadata: Metadata, manualSelection: bool,
                             count: nat, previousImage: Id)

  datatype Snapshot = Snapshot(scope: Scope, status: AssetStatus, metadata: Metadata)

  datatype Refusal =
    | StoryIdRequired
    | PanelPlanRequired
    | UnknownScene(scene: string)
    | UnknownPanel(index: int)
    | PanelNotChosen
    | ManualSelectionRequired
    | TooManyCandidates
    | PreviousPanelRequired
    | PreviousNotFound
    | PreviousOutOfScope
    | PreviousNotSelected(status: AssetStatus)
    | PreviousMismatch

  datatype Verdict<T> = Accepted(value: T) | Refused(reason: Refusal)

  function FirstNonEmpty(a: string, b: string): string
  {
    if a != "" then a else b
  }

  // ---------------------------------------------------------------- panels

  function PanelByScene(plan: seq<Panel>, scene: string): Option<Panel>
  {
    if plan == [] then None else if plan[0].scene == scene then Some(plan[0]) else PanelByScene(plan[1..], scene)
  }

  function PanelByIndex(plan: seq<Panel>, index: int): Option<Panel>
  {
    if plan == [] then None else if plan[0].index == index then Some(plan[0]) else PanelByIndex(plan[1..], index)
  }

  /** selectStoryPanelPlanEntry. */
  function SelectPanel(plan: seq<Panel>, metadata: Metadata): Verdict<Panel>
  {
    if plan == [] then Refused(PanelPlanRequired)
    else if metadata.scene != "" then
      var p := PanelByScene(plan, metadata.scene);
      if p.Some? then Accepted(p.value) else Refused(UnknownScene(metadata.scene))
    else if metadata.panel > 0 then
      var p := PanelByIndex(plan, metadata.panel);
      if p.Some? then Accepted(p.value) else Refused(UnknownPanel(metadata.panel))
    else if |plan| == 1 then Accepted(plan[0])
    else Refused(PanelNotChosen)
  }

  /** The first panel of the plan with this scene. */
  predicate FirstWithScene(plan: seq<Panel>, scene: string, p: Panel)
  {
    exists i :: 0 <= i < |plan| && plan[i] == p && p.scene == scene && forall j :: 0 <= j < i ==> plan[j].scene != scene
  }

  /** The first panel of the plan with this index. */
  predicate FirstWithIndex(plan: seq<Panel>, index: int, p: Panel)
  {
    exists i :: 0 <= i < |plan| && plan[i] == p && p.index == index && forall j :: 0 <= j < i ==> plan[j].index != index
  }

  lemma {:induction false} FoundByScene(plan: seq<Panel>, scene: string)
    ensures PanelByScene(plan, scene).Some? <==> exists i :: 0 <= i < |plan| && plan[i].scene == scene
    ensures PanelByScene(plan, scene).Some? ==> FirstWithScene(plan, scene, PanelByScene(plan, scene).value)
  {
    if plan != [] {
      FoundByScene(plan[1..], scene);
      assert forall i :: 0 < i < |plan| ==> plan[i] == plan[1..][i - 1];
      if plan[0].scene != scene && PanelByScene(plan[1..], scene).Some? {
        var p := PanelByScene(plan[1..], scene).value;
        var i :| 0 <= i < |plan[1..]| && plan[1..][i] == p && forall j :: 0 <= j < i ==> plan[1..][j].scene != scene;
        assert plan[i + 1] == p;
      }
    }
  }

  lemma {:induction false} FoundByIndex(plan: seq<Panel>, index: int)
    ensures PanelByIndex(plan, index).Some? <==> exists i :: 0 <= i < |plan| && plan[i].index == index
    ensures PanelByIndex(plan, index).Some? ==> FirstWithIndex(plan, index, PanelByIndex(plan, index).value)
  {
    if plan != [] {
      FoundByIndex(plan[1..], index);
      assert forall i :: 0 < i < |plan| ==> plan[i] == plan[1..][i - 1];
      if plan[0].index != index && PanelByIndex(plan[1..], index).Some? {
        var p := PanelByIndex(plan[1..], index).value;
        var i :| 0 <= i < |plan[1..]| && plan[1..][i] == p && forall j :: 0 <= j < i ==> plan[1..][j].index != index;
        assert plan[i + 1] == p;
      }
    }
  }

  /** A request that names a scene gets the first panel of that scene; one that names only an index
      gets the first panel of that index; and it is refused only if the plan has none. */
  lemma SelectsNamedPanel(plan: seq<Panel>, metadata: Metadata)
    ensures SelectPanel(plan, metadata).Accepted? ==>
              var p := SelectPanel(plan, metadata).value;
              && (metadata.scene != "" ==> FirstWithScene(plan, metadata.scene, p))
              && (metadata.scene == "" && metadata.panel > 0 ==> FirstWithIndex(plan, metadata.panel, p))
              && (metadata.scene == "" && metadata.panel <= 0 ==> plan == [p])
    ensures SelectPanel(plan, metadata).Accepted? <==>
              if metadata.scene != "" then exists i :: 0 <= i < |plan| && plan[i].scene == metadata.scene
              else if metadata.panel > 0 then exists i :: 0 <= i < |plan| && plan[i].index == metadata.panel
              else |plan| == 1
  {
    FoundByScene(plan, metadata.scene);
    FoundByIndex(plan, metadata.panel);
  }

  // ---------------------------------------------------------------- the previous panel

  /** validateStoryContinuityAssetScope. */
  predicate ScopeFits(expected: Scope, actual: Scope)
  {
    && actual.workspace == expected.workspace && actual.project == expected.project
    && (expected.campaign != "" && actual.campaign != "" ==> actual.campaign == expected.campaign)
  }

  /** The scene of the panel before, as far as the plan names it. */
  function ExpectedScene(plan: seq<Panel>, index: int): string
  {
    var p := PanelByIndex(plan, index);
    if p.Some? then p.value.scene else ""
  }

  /** validatePreviousPanelStoryLink: what the previous asset's task recorded must agree, where it
      recorded anything. */
  predicate LinkFits(story: string, plan: seq<Panel>, index: int, previous: Metadata)
  {
    index > 1 ==>
      var scene := ExpectedScene(plan, index - 1);
      && (story != "" && previous.story != "" ==> previous.story == story)
      && (previous.panel > 0 ==> previous.panel == index - 1)
      && (scene != "" && previous.scene != "" ==> previous.scene == scene)
  }

  /** `full` says everything that `known` says, and perhaps more. */
  predicate Completes(full: Metadata, known: Metadata)
  {
    && (known.story != "" ==> full.story == known.story)
    && (known.scene != "" ==> full.scene == known.scene)
    && (known.panel > 0 ==> full.panel == known.panel)
  }

  /** The metadata of the panel right before, as far as the request's own plan determines it. */
  ghost predicate IsPredecessor(full: Metadata, story: string, plan: seq<Panel>, index: int)
  {
    && full.panel == index - 1
    && (story != "" ==> full.story == story)
    && (forall p :: FirstWithIndex(plan, index - 1, p) && p.scene != "" ==> full.scene == p.scene)
  }

  lemma {:induction false} FirstIsUnique(plan: seq<Panel>, index: int, p: Panel, q: Panel)
    requires FirstWithIndex(plan, index, p) && FirstWithIndex(plan, index, q)
    ensures p == q
  {
    var i :| 0 <= i < |plan| && plan[i] == p && p.index == index && forall j :: 0 <= j < i ==> plan[j].index != index;
    var k :| 0 <= k < |plan| && plan[k] == q && q.index == index && forall j :: 0 <= j < k ==> plan[j].index != index;
    assert i == k;
  }

  /** The expected scene is that of the first panel with the index, if there is one. */
  lemma {:induction false} ExpectedSceneIs(plan: seq<Panel>, index: int)
    ensures forall p :: FirstWithIndex(plan, index, p) ==> ExpectedScene(plan, index) == p.scene
    ensures ExpectedScene(plan, index) != "" ==>
              exists p :: FirstWithIndex(plan, index, p) && p.scene == ExpectedScene(plan, index)
  {
    FoundByIndex(plan, index);
    forall p | FirstWithIndex(plan, index, p)
      ensures ExpectedScene(plan, index) == p.scene
    {
      FirstIsUnique(plan, index, p, PanelByIndex(plan, index).value);
    }
  }

  /** The check accepts a previous asset exactly if what its task recorded can be completed to the
      metadata of the panel right before. It pins down that panel only as far as it was recorded. */
  lemma LinkPinsPanel(story: string, plan: seq<Panel>, index: int, previous: Metadata)
    requires index > 1
    ensures LinkFits(story, plan, index, previous)
            <==> exists full :: Completes(full, previous) && IsPredecessor(full, story, plan, index)
  {
    ExpectedSceneIs(plan, index - 1);
    if LinkFits(story, plan, index, previous) {
      var scene := ExpectedScene(plan, index - 1);
      var full := Metadata(if story != "" then story else previous.story, if scene != "" then scene else previous.scene,
                           index - 1, "");
      assert Completes(full, previous) && IsPredecessor(full, story, plan, index);
    }
  }

  // ---------------------------------------------------------------- accepting a panel task

  function StoryId(story: Story, metadata: Metadata): string
  {
    FirstNonEmpty(story.id, metadata.story)
  }

  predicate Sequential(story: Story)
  {
    if story.mode != Unset then story.mode == SequentialPreviousPanel
    else story.policyMode == Unset || story.policyMode == SequentialPreviousPanel
  }

  function PreviousAsset(request: Request, story: Story, panel: Panel): Id
  {
    if panel.index > 1 then FirstNonEmpty(story.previousBinding, FirstNonEmpty(request.metadata.previous, request.previousImage))
    else ""
  }

  /** The previous asset is there, in scope, selected right now, and fits. */
  predicate PreviousFits(request: Request, story: Story, panel: Panel, assets: map<Id, Snapshot>)
  {
    var previous := PreviousAsset(request, story, panel);
    && previous != "" && previous in assets
    && ScopeFits(request.scope, assets[previous].scope)
    && (assets[previous].status == Approved || assets[previous].status == Published)
    && LinkFits(StoryId(story, request.metadata), story.plan, panel.index, assets[previous].metadata)
  }

  /** When a panel task is accepted. */
  predicate Acceptable(request: Request, story: Story, assets: map<Id, Snapshot>)
  {
    && StoryId(story, request.metadata) != ""
    && SelectPanel(story.plan, request.metadata).Accepted?
    && var panel := SelectPanel(story.plan, request.metadata).value;
    Sequential(story) ==>
      && request.manualSelection
      && (story.maxCandidates > 0 ==> request.count <= story.maxCandidates)
      && (panel.index > 1 && story.requirePrevious ==> PreviousFits(request, story, panel, assets))
  }

  /** What an accepted panel task records. */
  function Recorded(request: Request, story: Story): Metadata
    requires SelectPanel(story.plan, request.metadata).Accepted?
  {
    var panel := SelectPanel(story.plan, request.metadata).value;
    Metadata(StoryId(story, request.metadata), panel.scene, panel.index, PreviousAsset(request, story, panel))
  }

  // ---------------------------------------------------------------- acceptance, field by field

  /** The id of the story: the context's own, or else the metadata's. */
  predicate NamesStory(request: Request, story: Story, id: string)
  {
    id != "" && (id == story.id || (story.id == "" && id == request.metadata.story))
  }

  /** Previous panels are used if the context says so, or the policy does where the context is silent,
      or both are silent. */
  predicate OneAfterTheOther(story: Story)
  {
    || story.mode == SequentialPreviousPanel
    || (story.mode == Unset && story.policyMode in {Unset, SequentialPreviousPanel})
  }

  /** The panel is the first with the scene that is named, or else with the index, or the only one. */
  predicate Chosen(plan: seq<Panel>, metadata: Metadata, p: Panel)
  {
    if metadata.scene != "" then FirstWithScene(plan, metadata.scene, p)
    else if metadata.panel > 0 then FirstWithIndex(plan, metadata.panel, p)
    else plan == [p]
  }

  /** The previous asset is bound by the context, or else named by the metadata, or else by an image. */
  predicate NamesPrevious(request: Request, story: Story, a: Id)
  {
    && a != ""
    && (|| a == story.previousBinding
        || (story.previousBinding == "" && a == request.metadata.previous)
        || (story.previousBinding == "" && request.metadata.previous == "" && a == request.previousImage))
  }

  /** The asset is there in the same project, approved or published, and its task may be the panel
      right before. */
  ghost predicate Continues(request: Request, story: Story, id: string, panel: Panel, a: Id, assets: map<Id, Snapshot>)
  {
    && a in assets
    && assets[a].scope.workspace == request.scope.workspace && assets[a].scope.project == request.scope.project
    && (assets[a].scope.campaign == request.scope.campaign || assets[a].scope.campaign == "" || request.scope.campaign == "")
    && assets[a].status in {Approved, Published}
    && exists full :: Completes(full, assets[a].metadata) && IsPredecessor(full, id, story.plan, panel.index)
  }

  ghost predicate Fulfils(request: Request, story: Story, id: string, panel: Panel, assets: map<Id, Snapshot>)
  {
    && NamesStory(request, story, id) && Chosen(story.plan, request.metadata, panel)
    && (OneAfterTheOther(story) ==>
          && request.manualSelection && (story.maxCandidates == 0 || request.count <= story.maxCandidates)
          && (panel.index > 1 && story.requirePrevious ==>
                exists a :: NamesPrevious(request, story, a) && Continues(request, story, id, panel, a, assets)))
  }

  lemma {:induction false} ChosenIsUnique(plan: seq<Panel>, metadata: Metadata, p: Panel)
    requires Chosen(plan, metadata, p)
    ensures SelectPanel(plan, metadata) == Accepted(p)
  {
    SelectsNamedPanel(plan, metadata);
    var q := SelectPanel(plan, metadata).value;
    if metadata.scene != "" {
      var i :| 0 <= i < |plan| && plan[i] == p && p.scene == metadata.scene && forall j :: 0 <= j < i ==> plan[j].scene != metadata.scene;
      var k :| 0 <= k < |plan| && plan[k] == q && q.scene == metadata.scene && forall j :: 0 <= j < k ==> plan[j].scene != metadata.scene;
      assert i == k;
    } else if metadata.panel > 0 {
      var i :| 0 <= i < |plan| && plan[i] == p && p.index == metadata.panel && forall j :: 0 <= j < i ==> plan[j].index != metadata.panel;
      var k :| 0 <= k < |plan| && plan[k] == q && q.index == metadata.panel && forall j :: 0 <= j < k ==> plan[j].index != metadata.panel;
      assert i == k;
    }
  }

  lemma {:induction false} PreviousIffContinues(request: Request, story: Story, panel: Panel, assets: map<Id, Snapshot>)
    requires panel.index > 1
    ensures PreviousFits(request, story, panel, assets) <==>
            exists a :: NamesPrevious(request, story, a)
                        && Continues(request, story, StoryId(story, request.metadata), panel, a, assets)
  {
    var previous, id := PreviousAsset(request, story, panel), StoryId(story, request.metadata);
    assert forall a :: NamesPrevious(request, story, a) <==> a != "" && a == previous;
    if previous in assets {
      LinkPinsPanel(id, story.plan, panel.index, assets[previous].metadata);
    }
    if PreviousFits(request, story, panel, assets) {
      assert NamesPrevious(request, story, previous) && Continues(request, story, id, panel, previous, assets);
    }
  }

  /** A request is accepted if and only if it fulfils these conditions for some story id and panel;
      and there is only one such pair, which the task records with the previous asset. */
  lemma {:induction false} AcceptedIff(request: Request, story: Story, assets: map<Id, Snapshot>)
    ensures Acceptable(request, story, assets) <==> exists id, panel :: Fulfils(request, story, id, panel, assets)
    ensures forall id, panel :: Fulfils(request, story, id, panel, assets) ==>
              SelectPanel(story.plan, request.metadata).Accepted? && Records(request, story, id, panel, Recorded(request, story))
  {
    forall id, panel | Fulfils(request, story, id, panel, assets)
      ensures Acceptable(request, story, assets) && Records(request, story, id, panel, Recorded(request, story))
    {
      ChosenIsUnique(story.plan, request.metadata, panel);
      if panel.index > 1 {
        PreviousIffContinues(request, story, panel, assets);
      }
    }
    if Acceptable(request, story, assets) {
      SelectsNamedPanel(story.plan, request.metadata);
      var panel := SelectPanel(story.plan, request.metadata).value;
      if panel.index > 1 {
        PreviousIffContinues(request, story, panel, assets);
      }
      assert Fulfils(request, story, StoryId(story, request.metadata), panel, assets);
    }
  }

  /** The task records the story, the scene and index of the panel, and the previous asset of a later
      panel if one is named. */
  predicate Records(request: Request, story: Story, id: string, panel: Panel, m: Metadata)
  {
    && m.story == id && m.scene == panel.scene && m.panel == panel.index
    && (if panel.index > 1 then
          NamesPrevious(request, story, m.previous)
          || (m.previous == "" && story.previousBinding == "" && request.metadata.previous == "" && request.previousImage == "")
        else m.previous == "")
  }

  /** Why a request is refused. */
  ghost predicate Explains(reason: Refusal, request: Request, story: Story, assets: map<Id, Snapshot>)
  {
    match reason
    case StoryIdRequired => story.id == "" && request.metadata.story == ""
    case PanelPlanRequired => story.plan == []
    case UnknownScene(scene) => scene == request.metadata.scene != "" && forall p :: p in story.plan ==> p.scene != scene
    case UnknownPanel(index) => index == request.metadata.panel > 0 && forall p :: p in story.plan ==> p.index != index
    case PanelNotChosen => |story.plan| > 1 && request.metadata.scene == "" && request.metadata.panel <= 0
    case ManualSelectionRequired => OneAfterTheOther(story) && !request.manualSelection
    case TooManyCandidates => OneAfterTheOther(story) && request.count > story.maxCandidates > 0
    case PreviousPanelRequired => NeedsPrevious(request, story) && forall a :: !NamesPrevious(request, story, a)
    case PreviousNotFound => NeedsPrevious(request, story) && exists a :: NamesPrevious(request, story, a) && a !in assets
    case PreviousOutOfScope =>
      NeedsPrevious(request, story) && exists a :: NamesPrevious(request, story, a) && a in assets && Elsewhere(request.scope, assets[a].scope)
    case PreviousNotSelected(status) =>
      && NeedsPrevious(request, story) && status !in {Approved, Published}
      && exists a :: NamesPrevious(request, story, a) && a in assets && assets[a].status == status
    case PreviousMismatch =>
      NeedsPrevious(request, story) && exists a :: NamesPrevious(request, story, a) && a in assets && Mismatches(request, story, assets[a].metadata)
  }

  ghost predicate NeedsPrevious(request: Request, story: Story)
  {
    OneAfterTheOther(story) && story.requirePrevious
    && exists panel :: Chosen(story.plan, request.metadata, panel) && panel.index > 1
  }

  predicate Elsewhere(expected: Scope, actual: Scope)
  {
    || actual.workspace != expected.workspace || actual.project != expected.project
    || (expected.campaign != "" && actual.campaign != "" && actual.campaign != expected.campaign)
  }

  ghost predicate Mismatches(request: Request, story: Story, m: Metadata)
  {
    exists id, panel ::
      && NamesStory(request, story, id) && Chosen(story.plan, request.metadata, panel)
      && !exists full :: Completes(full, m) && IsPredecessor(full, id, story.plan, panel.index)
  }

  /** An accepted request fulfils the conditions and records what it says; a refused one does not
      fulfil them, and the reason is true of it. */
  ghost predicate Answers(request: Request, story: Story, assets: map<Id, Snapshot>, r: Verdict<Metadata>)
  {
    match r
    case Accepted(m) => exists id, panel :: Fulfils(request, story, id, panel, assets) && Records(request, story, id, panel, m)
    case Refused(reason) =>
      Explains(reason, request, story, assets) && !exists id, panel :: Fulfils(request, story, id, panel, assets)
  }

  lemma {:induction false} AcceptedRecords(request: Request, story: Story, assets: map<Id, Snapshot>)
    requires Acceptable(request, story, assets)
    ensures Answers(request, story, assets, Accepted(Recorded(request, story)))
  {
    AcceptedIff(request, story, assets);
    var id, panel :| Fulfils(request, story, id, panel, assets);
    assert Records(request, story, id, panel, Recorded(request, story));
  }

  lemma {:induction false} NotFulfilled(request: Request, story: Story, assets: map<Id, Snapshot>)
    requires !Acceptable(request, story, assets)
    ensures !exists id, panel :: Fulfils(request, story, id, panel, assets)
  {
    AcceptedIff(request, story, assets);
  }

  lemma {:induction false} NoPanelExplained(request: Request, story: Story, assets: map<Id, Snapshot>)
    requires SelectPanel(story.plan, request.metadata).Refused?
    ensures Answers(request, story, assets, Refused(SelectPanel(story.plan, request.metadata).reason))
  {
    NotFulfilled(request, story, assets);
    FoundByScene(story.plan, request.metadata.scene);
    FoundByIndex(story.plan, request.metadata.panel);
  }

  lemma {:induction false} NoPreviousExplained(request: Request, story: Story, panel: Panel, reason: Refusal, assets: map<Id, Snapshot>)
    requires SelectPanel(story.plan, request.metadata) == Accepted(panel) && StoryId(story, request.metadata) != ""
    requires Sequential(story) && story.requirePrevious && panel.index > 1
    requires var a := PreviousAsset(request, story, panel);
             || (a == "" && reason == PreviousPanelRequired)
             || (a != "" && a !in assets && reason == PreviousNotFound)
             || (a != "" && a in assets && !ScopeFits(request.scope, assets[a].scope) && reason == PreviousOutOfScope)
             || (a != "" && a in assets && assets[a].status !in {Approved, Published} && reason == PreviousNotSelected(assets[a].status))
             || (a != "" && a in assets && reason == PreviousMismatch
                 && !LinkFits(StoryId(story, request.metadata), story.plan, panel.index, assets[a].metadata))
    ensures Answers(request, story, assets, Refused(reason))
  {
    NotFulfilled(request, story, assets);
    var a, id := PreviousAsset(request, story, panel), StoryId(story, request.metadata);
    SelectsNamedPanel(story.plan, request.metadata);
    assert Chosen(story.plan, request.metadata, panel);
    assert a != "" ==> NamesPrevious(request, story, a);
    if reason == PreviousMismatch {
      LinkPinsPanel(id, story.plan, panel.index, assets[a].metadata);
      assert NamesStory(request, story, id);
      assert Mismatches(request, story, assets[a].metadata);
    }
  }

  lemma {:induction false} RefusalExplained(request: Request, story: Story, reason: Refusal, assets: map<Id, Snapshot>)
    requires
      || (reason == StoryIdRequired && StoryId(story, request.metadata) == "")
      || (reason == ManualSelectionRequired && Sequential(story) && !request.manualSelection)
      || (reason == TooManyCandidates && Sequential(story) && request.count > story.maxCandidates > 0)
    ensures Answers(request, story, assets, Refused(reason))
  {
    NotFulfilled(request, story, assets);
  }

  /** The checks on the previous panel's asset. */
  method CheckPrevious(request: Request, story: Story, panel: Panel, previous: Id, assets: map<Id, Snapshot>)
      returns (refusal: Option<Refusal>)
    requires SelectPanel(story.plan, request.metadata) == Accepted(panel) && StoryId(story, request.metadata) != ""
    requires Sequential(story) && story.requirePrevious && panel.index > 1 && previous == PreviousAsset(request, story, panel)
    ensures refusal.None? <==> PreviousFits(request, story, panel, assets)
    ensures refusal.Some? ==> Answers(request, story, assets, Refused(refusal.value))
    ensures refusal == Some(PreviousPanelRequired) ==> previous == ""
    ensures refusal.Some? && refusal.value.PreviousNotSelected? ==> refusal.value.status !in {Approved, Published}
  {
    if previous == "" {
      refusal := Some(PreviousPanelRequired);
    } else if previous !in assets {
      refusal := Some(PreviousNotFound);
    } else if !ScopeFits(request.scope, assets[previous].scope) {
      refusal := Some(PreviousOutOfScope);
    } else if assets[previous].status != Approved && assets[previous].status != Published {
      refusal := Some(PreviousNotSelected(assets[previous].status));
    } else if !LinkFits(StoryId(story, request.metadata), story.plan, panel.index, assets[previous].metadata) {
      refusal := Some(PreviousMismatch);
    } else {
      refusal := None;
    }
    if refusal.Some? {
      NoPreviousExplained(request, story, panel, refusal.value, assets);
    }
  }

  /** prepareStoryContextV1ForTask: the metadata to store, or why the request is refused. */
  method PrepareStoryContext(request: Request, assets: map<Id, Snapshot>) returns (r: Verdict<Metadata>)
    ensures request.story.None? ==> r == Accepted(request.metadata)
    ensures request.story.Some? ==>
              (r.Accepted? <==> Acceptable(request, request.story.value, assets))
              && (r.Accepted? ==> r.value == Recorded(request, request.story.value))
    ensures request.story.Some? ==> Answers(request, request.story.value, assets, r)
    ensures r == Refused(PreviousPanelRequired) ==>
              && request.story.Some? && SelectPanel(request.story.value.plan, request.metadata).Accepted?
              && var story, panel := request.story.value, SelectPanel(request.story.value.plan, request.metadata).value;
              panel.index > 1 && story.requirePrevious && PreviousAsset(request, story, panel) == ""
    ensures r.Refused? && r.reason.PreviousNotSelected? ==> r.reason.status !in {Approved, Published}
  {
    if request.story.None? {
      return Accepted(request.metadata);
    }
    var story, metadata := request.story.value, request.metadata;
    var id := FirstNonEmpty(story.id, metadata.story);
    if id == "" {
      RefusalExplained(request, story, StoryIdRequired, assets);
      return Refused(StoryIdRequired);
    }
    var mode := story.mode;
    if mode == Unset {
      mode := if story.policyMode != Unset then story.policyMode else SequentialPreviousPanel;
    }
    var chosen := SelectPanel(story.plan, metadata);
    if chosen.Refused? {
      NoPanelExplained(request, story, assets);
      return Refused(chosen.reason);
    }
    var panel, previous := chosen.value, "";
    if panel.index > 1 {
      previous := FirstNonEmpty(story.previousBinding, FirstNonEmpty(metadata.previous, request.previousImage));
    }
    if mode == SequentialPreviousPanel {
      if !request.manualSelection {
        RefusalExplained(request, story, ManualSelectionRequired, assets);
        return Refused(ManualSelectionRequired);
      }
      if story.maxCandidates > 0 && request.count > story.maxCandidates {
        RefusalExplained(request, story, TooManyCandidates, assets);
        return Refused(TooManyCandidates);
      }
      if panel.index > 1 && story.requirePrevious {
        var refusal := CheckPrevious(request, story, panel, previous, assets);
        if refusal.Some? {
          return Refused(refusal.value);
        }
      }
    }
    AcceptedRecords(request, story, assets);
    metadata := metadata.(story := id, scene := panel.scene, panel := panel.index, previous := previous);
    return Accepted(metadata);
  }

  // ---------------------------------------------------------------- runs

  /** A created task; `chained` says that it is a sequential panel task with a panel index of at
      least 1 that requires its predecessor. */
  datatype TaskRecord = TaskRecord(scope: Scope, metadata: Metadata, chained: bool)

  /** `born` remembers which task an asset came from, also after the asset is gone. */
  datatype World = World(tasks: seq<TaskRecord>, assets: map<Id, Snapshot>, born: map<Id, nat>)

  datatype Step =
    | Create(request: Request)
    | Register(task: nat, asset: Id)
    | SetStatus(asset: Id, status: AssetStatus)
    | Remove(asset: Id)

  predicate Chained(request: Request)
  {
    && request.story.Some? && Sequential(request.story.value) && request.story.value.requirePrevious
    && SelectPanel(request.story.value.plan, request.metadata).Accepted?
    && SelectPanel(request.story.value.plan, request.metadata).value.index >= 1
  }

  /** Asset ids are not empty and never drawn twice. */
  predicate Enabled(w: World, step: Step)
  {
    match step
    case Create(request) => request.story.Some? ==> Acceptable(request, request.story.value, w.assets)
    case Register(task, asset) => task < |w.tasks| && asset !in w.born && asset != ""
    case SetStatus(asset, _) => asset in w.assets
    case Remove(asset) => asset in w.assets
  }

  /** The assumption: the assets that panel tasks name as their predecessors come from panel tasks
      of the same kind. */
  predicate Disciplined(w: World, step: Step)
    requires Enabled(w, step)
  {
    step.Create? && Chained(step.request) ==>
      var r := Recorded(step.request, step.request.story.value);
      r.panel > 1 && r.previous in w.born && w.born[r.previous] < |w.tasks| ==> w.tasks[w.born[r.previous]].chained
  }

  function Do(w: World, step: Step): World
    requires Enabled(w, step)
  {
    match step
    case Create(request) =>
      var metadata := if request.story.Some? then Recorded(request, request.story.value) else request.metadata;
      w.(tasks := w.tasks + [TaskRecord(request.scope, metadata, Chained(request))])
    case Register(task, asset) =>
      w.(assets := w.assets[asset := Snapshot(w.tasks[task].scope, Draft, w.tasks[task].metadata)],
         born := w.born[asset := task])
    case SetStatus(asset, status) => w.(assets := w.assets[asset := w.assets[asset].(status := status)])
    case Remove(asset) => w.(assets := w.assets - {asset})
  }

  /** What the steps do: a new asset is a draft with its task's scope and metadata, a status is the one
      that is set, and only creations add tasks. */
  lemma StepEffects(w: World, step: Step)
    requires Enabled(w, step)
    ensures !step.Create? ==> Do(w, step).tasks == w.tasks
    ensures step.Create? ==>
              && Do(w, step).assets == w.assets && |Do(w, step).tasks| == |w.tasks| + 1 && w.tasks <= Do(w, step).tasks
              && Do(w, step).tasks[|w.tasks|].scope == step.request.scope
    ensures step.Register? && step.task < |w.tasks| ==>
              Do(w, step).assets == w.assets[step.asset := Snapshot(w.tasks[step.task].scope, Draft, w.tasks[step.task].metadata)]
    ensures step.SetStatus? && step.asset in w.assets ==>
              Do(w, step).assets == w.assets[step.asset := w.assets[step.asset].(status := step.status)]
    ensures step.Remove? ==> Do(w, step).assets == w.assets - {step.asset}
  {
  }

  /** Chained tasks are the panels of stories that go one after the other and require it. */
  lemma ChainedMeans(request: Request)
    ensures Chained(request) <==>
            && request.story.Some? && OneAfterTheOther(request.story.value) && request.story.value.requirePrevious
            && exists panel :: Chosen(request.story.value.plan, request.metadata, panel) && panel.index >= 1
  {
    if request.story.Some? {
      var plan := request.story.value.plan;
      SelectsNamedPanel(plan, request.metadata);
      if SelectPanel(plan, request.metadata).Accepted? {
        assert Chosen(plan, request.metadata, SelectPanel(plan, request.metadata).value);
      }
      forall panel | Chosen(plan, request.metadata, panel)
        ensures SelectPanel(plan, request.metadata) == Accepted(panel)
      {
        ChosenIsUnique(plan, request.metadata, panel);
      }
    }
  }

  ghost predicate Executable(w: World, steps: seq<Step>)
    decreases |steps|
  {
    steps != [] ==> Enabled(w, steps[0]) && Executable(Do(w, steps[0]), steps[1..])
  }

  /** Every step of the run keeps the assumption. */
  ghost predicate DisciplinedRun(w: World, steps: seq<Step>)
    requires Executable(w, steps)
    decreases |steps|
  {
    steps != [] ==> Disciplined(w, steps[0]) && DisciplinedRun(Do(w, steps[0]), steps[1..])
  }

  ghost function Run(w: World, steps: seq<Step>): World
    requires Executable(w, steps)
    decreases |steps|
  {
    if steps == [] then w else Run(Do(w, steps[0]), steps[1..])
  }

  function Init(): World
  {
    World([], map[], map[])
  }

  // ---------------------------------------------------------------- the chain

  /** The tasks reached by following the recorded previous assets from task `t`. */
  function Chain(w: World, t: nat): seq<nat>
    requires t < |w.tasks|
  {
    var previous := w.tasks[t].metadata.previous;
    if previous in w.born && w.born[previous] < t then [t] + Chain(w, w.born[previous]) else [t]
  }

  predicate SameSeries(a: TaskRecord, b: TaskRecord)
  {
    a.metadata.story == b.metadata.story && a.scope.workspace == b.scope.workspace && a.scope.project == b.scope.project
  }

  /** Task `u` is panel n - k of the story of task `t`, where `t` is panel n. */
  predicate PanelBack(w: World, t: nat, u: nat, k: nat)
    requires t < |w.tasks|
  {
    u < |w.tasks| && SameSeries(w.tasks[u], w.tasks[t]) && w.tasks[u].metadata.panel == w.tasks[t].metadata.panel - k
  }

  /** What a chain of panels is: walking back from task `t`, panel n of its story, visits the panels
      n, n - 1, ..., 1 of that story in that project, and ends there. */
  predicate Whole(w: World, t: nat)
    requires t < |w.tasks|
  {
    var chain := Chain(w, t);
    && |chain| == w.tasks[t].metadata.panel
    && (forall k :: 0 <= k < |chain| ==> PanelBack(w, t, chain[k], k))
    && w.tasks[chain[|chain| - 1]].metadata.previous == ""
  }

  /** The task that the recorded previous asset of task `t` came from. */
  predicate Follows(w: World, t: nat, p: nat)
    requires t < |w.tasks|
  {
    var previous := w.tasks[t].metadata.previous;
    previous in w.born && w.born[previous] == p && p < t
  }

  lemma WholeFollowing(w: World, t: nat, p: nat)
    requires t < |w.tasks| && Follows(w, t, p)
    ensures Whole(w, t) <==>
            SameSeries(w.tasks[p], w.tasks[t]) && w.tasks[p].metadata.panel == w.tasks[t].metadata.panel - 1 && Whole(w, p)
  {
    var chain, rest := Chain(w, t), Chain(w, p);
    assert chain == [t] + rest;
    assert forall k :: 0 <= k < |rest| ==> chain[k + 1] == rest[k];
    if Whole(w, t) {
      assert PanelBack(w, t, chain[1], 1) && rest[0] == p;
      forall k | 0 <= k < |rest|
        ensures PanelBack(w, p, rest[k], k)
      {
        assert PanelBack(w, t, chain[k + 1], k + 1);
      }
    }
    if SameSeries(w.tasks[p], w.tasks[t]) && w.tasks[p].metadata.panel == w.tasks[t].metadata.panel - 1 && Whole(w, p) {
      forall k | 0 <= k < |chain|
        ensures PanelBack(w, t, chain[k], k)
      {
        if k > 0 {
          assert PanelBack(w, p, rest[k - 1], k - 1);
        }
      }
    }
  }

  lemma WholeAlone(w: World, t: nat)
    requires t < |w.tasks| && Chain(w, t) == [t]
    ensures Whole(w, t) <==> w.tasks[t].metadata.panel == 1 && w.tasks[t].metadata.previous == ""
  {
    assert Chain(w, t)[0] == t;
  }

  // ---------------------------------------------------------------- what acceptance guarantees in every run

  predicate Traceable(w: World)
  {
    && (forall a :: a in w.born ==> a != "" && w.born[a] < |w.tasks|)
    && (forall a :: a in w.assets ==>
          && a in w.born && w.assets[a].scope == w.tasks[w.born[a]].scope
          && w.assets[a].metadata == w.tasks[w.born[a]].metadata)
  }

  /** What the check of a link leaves between the two tasks: they agree where the earlier one
      recorded anything. */
  predicate Compatible(to: TaskRecord, from: TaskRecord)
  {
    && (to.metadata.story != "" ==> to.metadata.story == from.metadata.story)
    && (to.metadata.panel > 0 ==> to.metadata.panel == from.metadata.panel - 1)
    && to.scope.workspace == from.scope.workspace && to.scope.project == from.scope.project
  }

  predicate Checked(w: World, t: nat)
    requires t < |w.tasks|
  {
    var m := w.tasks[t].metadata;
    && m.story != "" && m.panel >= 1
    && (m.panel == 1 ==> m.previous == "")
    && (m.panel > 1 ==>
          m.previous in w.born && w.born[m.previous] < t && Compatible(w.tasks[w.born[m.previous]], w.tasks[t]))
  }

  ghost predicate LinksChecked(w: World)
  {
    Traceable(w) && forall t {:trigger Checked(w, t)} :: 0 <= t < |w.tasks| && w.tasks[t].chained ==> Checked(w, t)
  }

  lemma CheckedStays(w: World, w': World, t: nat)
    requires t < |w.tasks| && Checked(w, t) && w.tasks <= w'.tasks
    requires forall a :: a in w.born ==> a in w'.born && w'.born[a] == w.born[a]
    ensures Checked(w', t)
  {
    assert forall i :: 0 <= i < |w.tasks| ==> w'.tasks[i] == w.tasks[i];
  }

  lemma CreatedIsChecked(w: World, request: Request)
    requires Traceable(w) && Enabled(w, Create(request)) && Chained(request)
    ensures Checked(Do(w, Create(request)), |w.tasks|)
  {
    var w', story := Do(w, Create(request)), request.story.value;
    var panel := SelectPanel(story.plan, request.metadata).value;
    assert w'.tasks[|w.tasks|].metadata == Recorded(request, story);
    if panel.index > 1 {
      assert PreviousFits(request, story, panel, w.assets);
      var previous := PreviousAsset(request, story, panel);
      assert w'.tasks[w.born[previous]] == w.tasks[w.born[previous]];
    }
  }

  lemma StepKeepsLinksChecked(w: World, step: Step)
    requires LinksChecked(w) && Enabled(w, step)
    ensures LinksChecked(Do(w, step))
  {
    var w' := Do(w, step);
    assert forall i :: 0 <= i < |w.tasks| ==> w'.tasks[i] == w.tasks[i];
    forall t | 0 <= t < |w'.tasks| && w'.tasks[t].chained
      ensures Checked(w', t)
    {
      if t < |w.tasks| {
        assert Checked(w, t);
        CheckedStays(w, w', t);
      } else {
        CreatedIsChecked(w, step.request);
      }
    }
  }

  lemma {:induction false} RunKeepsLinksChecked(w: World, steps: seq<Step>)
    requires LinksChecked(w) && Executable(w, steps)
    ensures LinksChecked(Run(w, steps))
    decreases |steps|
  {
    if steps != [] {
      StepKeepsLinksChecked(w, steps[0]);
      RunKeepsLinksChecked(Do(w, steps[0]), steps[1..]);
    }
  }

  // ---------------------------------------------------------------- when a chain is whole

  /** The task recorded a story and a panel index: what the check of a link looks at. */
  predicate RecordsPanel(w: World, t: nat)
    requires t < |w.tasks|
  {
    w.tasks[t].metadata.story != "" && w.tasks[t].metadata.panel > 0
  }

  lemma WholeIfPredecessorIs(w: World, t: nat)
    requires LinksChecked(w) && t < |w.tasks| && w.tasks[t].chained
    ensures Checked(w, t)
    ensures var m := w.tasks[t].metadata;
            Whole(w, t) <==> m.panel == 1 || (RecordsPanel(w, w.born[m.previous]) && Whole(w, w.born[m.previous]))
  {
    assert Checked(w, t);
    var m := w.tasks[t].metadata;
    if m.panel == 1 {
      WholeAlone(w, t);
    } else {
      WholeFollowing(w, t, w.born[m.previous]);
    }
  }

  /** A task that needs no trust: its own creation was checked, or it recorded its story and panel and
      either starts the story or links to the panel before. */
  predicate AccountsForItself(w: World, t: nat)
  {
    && t < |w.tasks|
    && (w.tasks[t].chained || (RecordsPanel(w, t) && (StartsStory(w, t) || LinksBack(w, t))))
  }

  predicate StartsStory(w: World, t: nat)
    requires t < |w.tasks|
  {
    w.tasks[t].metadata.panel == 1 && w.tasks[t].metadata.previous == ""
  }

  predicate LinksBack(w: World, t: nat)
    requires t < |w.tasks|
  {
    var previous := w.tasks[t].metadata.previous;
    && previous in w.born && w.born[previous] < t && SameSeries(w.tasks[w.born[previous]], w.tasks[t])
    && w.tasks[w.born[previous]].metadata.panel == w.tasks[t].metadata.panel - 1
  }

  /** No task on the chain needs trust. */
  predicate Accounted(w: World, t: nat)
    requires t < |w.tasks|
  {
    forall k :: 0 <= k < |Chain(w, t)| ==> AccountsForItself(w, Chain(w, t)[k])
  }

  lemma AccountedFollowing(w: World, t: nat, p: nat)
    requires t < |w.tasks| && Follows(w, t, p)
    ensures Accounted(w, t) <==> AccountsForItself(w, t) && Accounted(w, p)
  {
    var chain, rest := Chain(w, t), Chain(w, p);
    assert chain == [t] + rest;
    assert forall k :: 0 <= k < |rest| ==> chain[k + 1] == rest[k];
    assert chain[0] == t;
  }

  /** With a story, a chain is whole if and only if none of its tasks needs trust. */
  lemma {:induction false} WholeIffAccounted(w: World, t: nat)
    requires LinksChecked(w) && t < |w.tasks|
    ensures Accounted(w, t) ==> Whole(w, t) && RecordsPanel(w, t)
    ensures Whole(w, t) && w.tasks[t].metadata.story != "" ==> Accounted(w, t)
    decreases t
  {
    var previous := w.tasks[t].metadata.previous;
    assert w.tasks[t].chained ==> Checked(w, t);
    assert Chain(w, t)[0] == t;
    assert "" !in w.born;
    if previous in w.born && w.born[previous] < t {
      var p := w.born[previous];
      WholeFollowing(w, t, p);
      AccountedFollowing(w, t, p);
      WholeIffAccounted(w, p);
    } else {
      WholeAlone(w, t);
    }
  }

  lemma {:induction false} CreationKeepsChains(w: World, request: Request, t: nat)
    requires Enabled(w, Create(request)) && t < |w.tasks|
    ensures Chain(Do(w, Create(request)), t) == Chain(w, t)
    decreases t
  {
    var previous := w.tasks[t].metadata.previous;
    assert Do(w, Create(request)).tasks[t] == w.tasks[t];
    if previous in w.born && w.born[previous] < t {
      CreationKeepsChains(w, request, w.born[previous]);
    }
  }

  lemma {:induction false} ChainElements(w: World, t: nat, k: nat)
    requires t < |w.tasks| && k < |Chain(w, t)|
    ensures Chain(w, t)[k] <= t
  {
    var previous := w.tasks[t].metadata.previous;
    if k > 0 {
      ChainElements(w, w.born[previous], k - 1);
    }
  }

  lemma CreationKeepsWhole(w: World, request: Request, t: nat)
    requires Enabled(w, Create(request)) && t < |w.tasks|
    ensures Whole(Do(w, Create(request)), t) <==> Whole(w, t)
  {
    var w' := Do(w, Create(request));
    CreationKeepsChains(w, request, t);
    forall k | 0 <= k < |Chain(w, t)|
      ensures PanelBack(w', t, Chain(w, t)[k], k) <==> PanelBack(w, t, Chain(w, t)[k], k)
      ensures Chain(w, t)[k] < |w.tasks| && w'.tasks[Chain(w, t)[k]] == w.tasks[Chain(w, t)[k]]
    {
      ChainElements(w, t, k);
    }
  }

  /** The exact condition, over every run, disciplined or not: accepting panel n gives a whole chain
      if and only if n is 1, or the predecessor's task recorded a story and a panel index, the two
      things that the check skips when they are missing, and its own chain is whole. Unrolled, and
      to be read off the stored tasks before the call: none of the tasks on the predecessor's chain
      needs trust. */
  lemma ChainIsWholeIff(steps: seq<Step>, request: Request)
    requires Executable(Init(), steps) && Enabled(Run(Init(), steps), Create(request)) && Chained(request)
    ensures var w, r := Run(Init(), steps), Recorded(request, request.story.value);
            && (r.panel > 1 ==> r.previous in w.born && w.born[r.previous] < |w.tasks|)
            && (Whole(Do(w, Create(request)), |w.tasks|) <==>
                  r.panel == 1 || (RecordsPanel(w, w.born[r.previous]) && Whole(w, w.born[r.previous])))
            && (Whole(Do(w, Create(request)), |w.tasks|) <==> r.panel == 1 || Accounted(w, w.born[r.previous]))
  {
    RunKeepsLinksChecked(Init(), steps);
    var w, r := Run(Init(), steps), Recorded(request, request.story.value);
    var w' := Do(w, Create(request));
    StepKeepsLinksChecked(w, Create(request));
    assert w'.tasks[|w.tasks|].metadata == r && Checked(w', |w.tasks|);
    WholeIfPredecessorIs(w', |w.tasks|);
    if r.panel > 1 {
      var panel := SelectPanel(request.story.value.plan, request.metadata).value;
      assert PreviousFits(request, request.story.value, panel, w.assets);
      var p := w.born[r.previous];
      assert w'.tasks[p] == w.tasks[p];
      CreationKeepsWhole(w, request, p);
      WholeIffAccounted(w, p);
    }
  }

  // ---------------------------------------------------------------- disciplined runs

  /** Chained tasks follow chained tasks. */
  ghost predicate Inv(w: World)
  {
    LinksChecked(w) && forall t :: 0 <= t < |w.tasks| && w.tasks[t].chained ==> FollowsChained(w, t)
  }

  predicate FollowsChained(w: World, t: nat)
    requires t < |w.tasks|
  {
    var m := w.tasks[t].metadata;
    m.panel > 1 && m.previous in w.born && w.born[m.previous] < |w.tasks| ==> w.tasks[w.born[m.previous]].chained
  }

  lemma StepKeepsInv(w: World, step: Step)
    requires Inv(w) && Enabled(w, step) && Disciplined(w, step)
    ensures Inv(Do(w, step))
  {
    var w' := Do(w, step);
    StepKeepsLinksChecked(w, step);
    assert forall i :: 0 <= i < |w.tasks| ==> w'.tasks[i] == w.tasks[i];
    forall t | 0 <= t < |w'.tasks| && w'.tasks[t].chained
      ensures FollowsChained(w', t)
    {
      assert Checked(w', t);
      if t < |w.tasks| {
        assert Checked(w, t) && FollowsChained(w, t);
      }
    }
  }

  lemma {:induction false} RunKeepsInv(w: World, steps: seq<Step>)
    requires Inv(w) && Executable(w, steps) && DisciplinedRun(w, steps)
    ensures Inv(Run(w, steps))
    decreases |steps|
  {
    if steps != [] {
      StepKeepsInv(w, steps[0]);
      RunKeepsInv(Do(w, steps[0]), steps[1..]);
    }
  }

  lemma {:induction false} ChainIsChained(w: World, t: nat, k: nat)
    requires Inv(w) && t < |w.tasks| && w.tasks[t].chained && k < |Chain(w, t)|
    ensures Chain(w, t)[k] < |w.tasks| && w.tasks[Chain(w, t)[k]].chained
    decreases t
  {
    assert Checked(w, t) && FollowsChained(w, t);
    if k > 0 {
      ChainIsChained(w, w.born[w.tasks[t].metadata.previous], k - 1);
    }
  }

  /** Over every disciplined run from the start, the chain of an accepted panel n is whole: it visits
      the panels n, n - 1, ..., 1 of one story in one project, all of them chained, and ends. */
  lemma PanelsChain(steps: seq<Step>, t: nat)
    requires Executable(Init(), steps) && DisciplinedRun(Init(), steps)
    requires t < |Run(Init(), steps).tasks| && Run(Init(), steps).tasks[t].chained
    ensures var w := Run(Init(), steps);
            && Whole(w, t) && w.tasks[t].metadata.story != ""
            && forall k :: 0 <= k < |Chain(w, t)| ==> Chain(w, t)[k] < |w.tasks| && w.tasks[Chain(w, t)[k]].chained
  {
    RunKeepsInv(Init(), steps);
    var w := Run(Init(), steps);
    forall k | 0 <= k < |Chain(w, t)|
      ensures Chain(w, t)[k] < |w.tasks| && w.tasks[Chain(w, t)[k]].chained
    {
      ChainIsChained(w, t, k);
    }
    assert Checked(w, t);
    WholeIffAccounted(w, t);
  }

  /** Each link was approved or published, of a fitting scope, at the moment it was accepted. */
  lemma LinksAreSelected(w: World, request: Request)
    requires Enabled(w, Create(request)) && Chained(request)
    ensures var previous := Recorded(request, request.story.value).previous;
            previous != "" ==>
              && previous in w.assets && w.assets[previous].status in {Approved, Published}
              && ScopeFits(request.scope, w.assets[previous].scope) && !Elsewhere(request.scope, w.assets[previous].scope)
  {
    var panel := SelectPanel(request.story.value.plan, request.metadata).value;
    if panel.index > 1 {
      assert PreviousFits(request, request.story.value, panel, w.assets);
    }
  }

  /** A task record never changes, so the chain of a task stays what it was. */
  lemma {:induction false} ChainNeverChanges(w: World, step: Step, t: nat)
    requires Inv(w) && Enabled(w, step) && t < |w.tasks| && w.tasks[t].chained
    ensures t < |Do(w, step).tasks| && Chain(Do(w, step), t) == Chain(w, t)
    decreases t
  {
    var w' := Do(w, step);
    assert Checked(w, t) && FollowsChained(w, t);
    assert w'.tasks[t] == w.tasks[t];
    var previous := w.tasks[t].metadata.previous;
    if previous in w.born && w.born[previous] < t {
      assert w.tasks[w.born[previous]].chained;
      ChainNeverChanges(w, step, w.born[previous]);
    }
  }

  // ---------------------------------------------------------------- the assumption is needed

  /** A task that records nothing about a story, and a request for panel `n` that names an asset of
      that task as its predecessor. */
  function PlainRequest(scope: Scope): Request
  {
    Request(scope, None, Metadata("", "", 0, ""), true, 1, "")
  }

  function PanelRequest(scope: Scope, story: string, n: int, previous: Id): Request
  {
    Request(scope, Some(Story(story, SequentialPreviousPanel, Unset, [Panel(n, "")], true, 0, previous)),
            Metadata("", "", n, ""), true, 1, "")
  }

  /** The assumption is needed: for every n above 1 there is a run in which panel n is accepted
      with a predecessor that is no panel at all, and its chain is not whole. */
  lemma UnrecordedPanelSlipsThrough(scope: Scope, story: string, n: int, asset: Id) returns (steps: seq<Step>)
    requires n > 1 && story != "" && asset != ""
    ensures Executable(Init(), steps)
    ensures var w := Run(Init(), steps);
            && |w.tasks| == 2 && w.tasks[1].chained && w.tasks[1].metadata.panel == n
            && Chain(w, 1) == [1, 0] && !Whole(w, 1)
  {
    var plain, request := PlainRequest(scope), PanelRequest(scope, story, n, asset);
    var w1 := Do(Init(), Create(plain));
    var w2 := Do(w1, Register(0, asset));
    var w3 := Do(w2, SetStatus(asset, Approved));
    PanelIsAccepted(scope, story, n, asset, w3.assets);
    var w4 := Do(w3, Create(request));
    assert w4.tasks == [w1.tasks[0], TaskRecord(scope, Metadata(story, "", n, asset), true)];
    assert Chain(w4, 0) == [0];
    WholeFollowing(w4, 1, 0);
    assert Executable(w4, []) && Run(w4, []) == w4;
    StepFirst(w3, Create(request), []);
    StepFirst(w2, SetStatus(asset, Approved), [Create(request)]);
    StepFirst(w1, Register(0, asset), [SetStatus(asset, Approved)] + [Create(request)]);
    steps := [Create(plain)] + ([Register(0, asset)] + ([SetStatus(asset, Approved)] + [Create(request)]));
    StepFirst(Init(), Create(plain), steps[1..]);
  }

  lemma StepFirst(w: World, step: Step, rest: seq<Step>)
    requires Enabled(w, step) && Executable(Do(w, step), rest)
    ensures Executable(w, [step] + rest) && Run(w, [step] + rest) == Run(Do(w, step), rest)
  {
    assert ([step] + rest)[1..] == rest;
  }

  lemma PanelIsAccepted(scope: Scope, story: string, n: int, asset: Id, assets: map<Id, Snapshot>)
    requires n > 1 && story != "" && asset != ""
    requires asset in assets && assets[asset] == Snapshot(scope, Approved, Metadata("", "", 0, ""))
    ensures var request := PanelRequest(scope, story, n, asset);
            && Chained(request) && Acceptable(request, request.story.value, assets)
            && Recorded(request, request.story.value) == Metadata(story, "", n, asset)
  {
    var request := PanelRequest(scope, story, n, asset);
    assert SelectPanel([Panel(n, "")], request.metadata) == Accepted(Panel(n, ""));
    assert PreviousFits(request, request.story.value, Panel(n, ""), assets);
  }
}
