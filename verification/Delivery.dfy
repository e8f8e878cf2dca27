/** Delivery roles and the final delivery view of a batch manifest (internal/app/service.go). */
module Delivery {
  import opened Options
  import opened Text

  /** Where an edited asset comes from. */
  datatype Lineage = Lineage(derivedFrom: string, derivationType: string)

  datatype Role = NoRole | FinalDelivery | CaptionDerivative | BaseOriginal

  datatype Asset = Asset(id: string, status: string, lineage: Option<Lineage>, role: Role)

  datatype Scene = Scene(story: string, id: string, assets: seq<Asset>)

  // ---------------------------------------------------------------- roles

  function LowerChar(c: char): char
  {
    if 'A' <= c <= 'Z' then c - 'A' + 'a' else c
  }

  function Lower(s: string): string
  {
    if s == "" then "" else [LowerChar(s[0])] + Lower(s[1..])
  }

  const CAPTION_EDIT := "caption_edit"

  /** isCaptionDerivativeAsset. No letter of the marker has a case variant outside ASCII. */
  predicate IsDerivative(lineage: Option<Lineage>)
  {
    lineage.Some? && (Trim(lineage.value.derivedFrom) != "" || Lower(Trim(lineage.value.derivationType)) == CAPTION_EDIT)
  }

  /** isSelectedDeliveryStatus. */
  predicate IsSelected(status: string)
  {
    var s := Trim(status);
    s == "selected" || s == "approved" || s == "published"
  }

  /** deliveryRoleForSceneAsset. */
  function RoleFor(asset: Asset, overridden: set<string>): Role
  {
    if IsDerivative(asset.lineage) then
      if IsSelected(asset.status) then FinalDelivery else CaptionDerivative
    else if IsSelected(asset.status) && asset.id !in overridden then FinalDelivery
    else BaseOriginal
  }

  /** A selected derivative takes the place of the asset it was derived from. */
  predicate Overrides(asset: Asset, id: string)
  {
    && IsSelected(asset.status) && IsDerivative(asset.lineage)
    && Trim(asset.lineage.value.derivedFrom) == id && id != ""
  }

  predicate Overridden(assets: seq<Asset>, id: string)
  {
    exists i :: 0 <= i < |assets| && Overrides(assets[i], id)
  }

  /** What an asset's role should be, given its scene. */
  predicate HasRole(assets: seq<Asset>, asset: Asset, role: Role)
  {
    match role
    case FinalDelivery => IsSelected(asset.status) && (IsDerivative(asset.lineage) || !Overridden(assets, asset.id))
    case CaptionDerivative => IsDerivative(asset.lineage) && !IsSelected(asset.status)
    case BaseOriginal => !IsDerivative(asset.lineage) && (!IsSelected(asset.status) || Overridden(assets, asset.id))
    case NoRole => false
  }

  /** Every asset has the role its scene gives it; nothing else about it has changed. */
  predicate Enriched(before: seq<Asset>, after: seq<Asset>)
  {
    && |after| == |before|
    && forall i :: 0 <= i < |before| ==>
         HasRole(before, before[i], after[i].role) && after[i] == before[i].(role := after[i].role)
  }

  lemma RoleForIsRight(assets: seq<Asset>, asset: Asset, overridden: set<string>)
    requires forall id :: id in overridden <==> Overridden(assets, id)
    ensures HasRole(assets, asset, RoleFor(asset, overridden))
  {
  }

  /** enrichBatchStorySummarySceneDeliveryRoles, writing through the scene's assets. */
  method EnrichScene(assets: array<Asset>)
    modifies assets
    ensures Enriched(old(assets[..]), assets[..])
  {
    var overridden: set<string> := {};
    for n := 0 to assets.Length
      invariant assets[..] == old(assets[..])
      invariant forall id :: id in overridden <==> Overridden(assets[..n], id)
    {
      OverriddenNext(assets[..], n);
      if !IsSelected(assets[n].status) || !IsDerivative(assets[n].lineage) {
        continue;
      }
      var derivedFrom := Trim(assets[n].lineage.value.derivedFrom);
      if derivedFrom == "" {
        continue;
      }
      overridden := overridden + {derivedFrom};
    }
    ghost var before := assets[..];
    for n := 0 to assets.Length
      invariant forall i :: n <= i < assets.Length ==> assets[i] == before[i]
      invariant forall i :: 0 <= i < n ==> HasRole(before, before[i], assets[i].role)
                                           && assets[i] == before[i].(role := assets[i].role)
    {
      RoleForIsRight(before, assets[n], overridden);
      assets[n] := assets[n].(role := RoleFor(assets[n], overridden));
    }
  }

  lemma OverriddenNext(assets: seq<Asset>, n: nat)
    requires n < |assets|
    ensures forall id :: Overridden(assets[..n + 1], id) <==> Overridden(assets[..n], id) || Overrides(assets[n], id)
  {
    forall id
      ensures Overridden(assets[..n + 1], id) <==> Overridden(assets[..n], id) || Overrides(assets[n], id)
    {
      assert assets[..n + 1][n] == assets[n];
      assert forall i :: 0 <= i < n ==> assets[..n + 1][i] == assets[..n][i];
    }
  }

  lemma RolesDoNotMatter(before: seq<Asset>, after: seq<Asset>, id: string)
    requires Enriched(before, after)
    ensures Overridden(before, id) <==> Overridden(after, id)
  {
    assert forall i :: 0 <= i < |before| ==> (Overrides(before[i], id) <==> Overrides(after[i], id));
  }

  /** Enriching twice, as the manifest does, is enriching once. */
  lemma EnrichIsIdempotent(before: seq<Asset>, once: seq<Asset>, twice: seq<Asset>)
    requires Enriched(before, once) && Enriched(once, twice)
    ensures twice == once
  {
    forall i | 0 <= i < |before|
      ensures twice[i] == once[i]
    {
      RolesDoNotMatter(before, once, before[i].id);
    }
  }

  /** A scene has something to deliver exactly when one of its assets is selected: overriding a
      base by its selected derivative never leaves the scene empty. */
  lemma SceneDelivers(before: seq<Asset>, after: seq<Asset>)
    requires Enriched(before, after)
    ensures (exists i :: 0 <= i < |after| && after[i].role == FinalDelivery)
            <==> (exists i :: 0 <= i < |before| && IsSelected(before[i].status))
  {
    if i :| 0 <= i < |before| && IsSelected(before[i].status) {
      if after[i].role != FinalDelivery {
        assert Overridden(before, before[i].id);
        var j :| 0 <= j < |before| && Overrides(before[j], before[i].id);
        assert after[j].role == FinalDelivery;
      }
    }
  }

  // ---------------------------------------------------------------- regrouping

  datatype FinalAsset = FinalAsset(story: string, scene: string, asset: Asset)

  datatype FinalScene = FinalScene(story: string, id: string, finalAssets: seq<FinalAsset>)

  datatype FinalStory = FinalStory(id: string, sceneCount: nat, finalAssetCount: nat,
                                   scenes: seq<FinalScene>, finalAssets: seq<FinalAsset>)

  datatype Counts = Counts(stories: nat, scenes: nat, withFinal: nat, missingFinal: nat, finalAssets: nat)

  datatype Manifest = Manifest(counts: Counts, stories: seq<FinalStory>, scenes: seq<FinalScene>, finalAssets: seq<FinalAsset>)

  /** The assets of a scene that are delivered, in order. */
  function Delivered(assets: seq<Asset>): seq<Asset>
  {
    if assets == [] then []
    else Delivered(assets[..|assets| - 1])
         + if assets[|assets| - 1].role == FinalDelivery then [assets[|assets| - 1]] else []
  }

  predicate FinalSceneOf(scene: Scene, r: FinalScene)
  {
    && r.story == scene.story && r.id == scene.id
    && |r.finalAssets| == |Delivered(scene.assets)|
    && forall i :: 0 <= i < |r.finalAssets| ==> r.finalAssets[i] == FinalAsset(scene.story, scene.id, Delivered(scene.assets)[i])
  }

  function AllFinals(scenes: seq<FinalScene>): seq<FinalAsset>
  {
    if scenes == [] then [] else AllFinals(scenes[..|scenes| - 1]) + scenes[|scenes| - 1].finalAssets
  }

  /** The final assets of the scenes lie one after the other. */
  lemma {:induction false} FinalsInOrder(scenes: seq<FinalScene>, i: nat)
    requires i < |scenes|
    ensures AllFinals(scenes[..i]) + scenes[i].finalAssets <= AllFinals(scenes)
    decreases |scenes|
  {
    var before := scenes[..|scenes| - 1];
    if i < |before| {
      FinalsInOrder(before, i);
      assert before[..i] == scenes[..i];
    }
  }

  function WithFinals(scenes: seq<FinalScene>): nat
  {
    if scenes == [] then 0
    else WithFinals(scenes[..|scenes| - 1]) + if scenes[|scenes| - 1].finalAssets != [] then 1 else 0
  }

  /** The scenes of one story, in order. */
  function ScenesOf(scenes: seq<FinalScene>, story: string): seq<FinalScene>
  {
    if scenes == [] then []
    else ScenesOf(scenes[..|scenes| - 1], story)
         + if scenes[|scenes| - 1].story == story then [scenes[|scenes| - 1]] else []
  }

  function StoryWith(id: string, scenes: seq<FinalScene>): FinalStory
  {
    FinalStory(id, |scenes|, |AllFinals(scenes)|, scenes, AllFinals(scenes))
  }

  /** The last story with its id is the one that scenes are added to. */
  predicate IsLast(stories: seq<FinalStory>, i: nat)
    requires i < |stories|
  {
    forall j :: i < j < |stories| ==> stories[j].id != stories[i].id
  }

  /** Every story holds its scenes and their final assets; should the summary have listed a story
      twice, the last entry holds them and the others are empty. */
  predicate Regrouped(scenes: seq<FinalScene>, stories: seq<FinalStory>)
  {
    forall i {:trigger IsLast(stories, i)} :: 0 <= i < |stories| ==>
      stories[i] == StoryWith(stories[i].id, if IsLast(stories, i) then ScenesOf(scenes, stories[i].id) else [])
  }

  predicate HasStory(stories: seq<FinalStory>, id: string)
  {
    exists i :: 0 <= i < |stories| && stories[i].id == id
  }

  method BuildFinalScene(scene: Scene) returns (r: FinalScene)
    ensures FinalSceneOf(scene, r)
  {
    var finals: seq<FinalAsset> := [];
    for n := 0 to |scene.assets|
      invariant |finals| == |Delivered(scene.assets[..n])|
      invariant forall i :: 0 <= i < |finals| ==>
                  finals[i] == FinalAsset(scene.story, scene.id, Delivered(scene.assets[..n])[i])
    {
      assert scene.assets[..n + 1][..n] == scene.assets[..n];
      if scene.assets[n].role != FinalDelivery {
        continue;
      }
      finals := finals + [FinalAsset(scene.story, scene.id, scene.assets[n])];
    }
    assert scene.assets[..|scene.assets|] == scene.assets;
    r := FinalScene(scene.story, scene.id, finals);
  }

  /** `storyIndex` finds the last story with each id. */
  predicate Indexed(stories: seq<FinalStory>, storyIndex: map<string, nat>)
  {
    && (forall id :: id in storyIndex ==> storyIndex[id] < |stories| && stories[storyIndex[id]].id == id)
    && (forall i :: 0 <= i < |stories| ==> stories[i].id in storyIndex && i <= storyIndex[stories[i].id])
  }

  lemma IndexFindsLast(stories: seq<FinalStory>, storyIndex: map<string, nat>, i: nat)
    requires Indexed(stories, storyIndex) && i < |stories|
    ensures IsLast(stories, i) <==> storyIndex[stories[i].id] == i
  {
    var k := storyIndex[stories[i].id];
    assert IsLast(stories, i) ==> k == i;
    forall j | i < j < |stories| && k == i
      ensures stories[j].id != stories[i].id
    {
      assert j <= storyIndex[stories[j].id];
    }
  }

  lemma IndexedAppend(stories: seq<FinalStory>, storyIndex: map<string, nat>, s: FinalStory)
    requires Indexed(stories, storyIndex)
    ensures Indexed(stories + [s], storyIndex[s.id := |stories|])
  {
    var more := stories + [s];
    assert more[|stories|] == s && forall i :: 0 <= i < |stories| ==> more[i] == stories[i];
  }

  /** Starting a story that is not there yet. */
  lemma NewStory(scenes: seq<FinalScene>, stories: seq<FinalStory>, storyIndex: map<string, nat>, id: string)
    requires Indexed(stories, storyIndex) && Regrouped(scenes, stories) && id !in storyIndex
    requires forall i :: 0 <= i < |scenes| ==> scenes[i].story in storyIndex
    ensures Indexed(stories + [StoryWith(id, [])], storyIndex[id := |stories|])
    ensures Regrouped(scenes, stories + [StoryWith(id, [])])
  {
    var more := stories + [StoryWith(id, [])];
    IndexedAppend(stories, storyIndex, StoryWith(id, []));
    assert more[|stories|] == StoryWith(id, []) && forall i :: 0 <= i < |stories| ==> more[i] == stories[i];
    NoScenesOf(scenes, id);
    forall i | 0 <= i < |more|
      ensures more[i] == StoryWith(more[i].id, if IsLast(more, i) then ScenesOf(scenes, more[i].id) else [])
    {
      if i < |stories| {
        assert stories[i].id != id;
        assert IsLast(more, i) <==> IsLast(stories, i);
      }
    }
  }

  lemma {:induction false} NoScenesOf(scenes: seq<FinalScene>, id: string)
    requires forall i :: 0 <= i < |scenes| ==> scenes[i].story != id
    ensures ScenesOf(scenes, id) == []
  {
    if scenes != [] {
      NoScenesOf(scenes[..|scenes| - 1], id);
    }
  }

  function WithScene(story: FinalStory, scene: FinalScene): FinalStory
  {
    var finals := story.finalAssets + scene.finalAssets;
    FinalStory(story.id, story.sceneCount + 1, |finals|, story.scenes + [scene], finals)
  }

  lemma AddedScene(scenes: seq<FinalScene>, stories: seq<FinalStory>, storyIndex: map<string, nat>, scene: FinalScene, k: nat)
    requires Indexed(stories, storyIndex) && Regrouped(scenes, stories)
    requires scene.story in storyIndex && k == storyIndex[scene.story]
    ensures Regrouped(scenes + [scene], stories[k := WithScene(stories[k], scene)])
  {
    var next := stories[k := WithScene(stories[k], scene)];
    assert forall i :: 0 <= i < |stories| ==> next[i].id == stories[i].id;
    forall i | 0 <= i < |next|
      ensures next[i] == StoryWith(next[i].id, if IsLast(next, i) then ScenesOf(scenes + [scene], next[i].id) else [])
    {
      assert IsLast(next, i) <==> IsLast(stories, i);
      IndexFindsLast(stories, storyIndex, i);
      StoryStays(scenes, stories[i], IsLast(stories, i), scene, i == k);
    }
  }

  lemma StoryStays(scenes: seq<FinalScene>, story: FinalStory, last: bool, scene: FinalScene, hit: bool)
    requires story == StoryWith(story.id, if last then ScenesOf(scenes, story.id) else [])
    requires hit <==> last && scene.story == story.id
    ensures (if hit then WithScene(story, scene) else story)
            == StoryWith(story.id, if last then ScenesOf(scenes + [scene], story.id) else [])
  {
    ScenesOfNext(scenes, scene, story.id);
  }

  lemma ScenesOfNext(scenes: seq<FinalScene>, scene: FinalScene, id: string)
    ensures ScenesOf(scenes + [scene], id) == if scene.story == id then ScenesOf(scenes, id) + [scene] else ScenesOf(scenes, id)
    ensures AllFinals(ScenesOf(scenes, id) + [scene]) == AllFinals(ScenesOf(scenes, id)) + scene.finalAssets
  {
    assert (scenes + [scene])[..|scenes|] == scenes;
    assert (ScenesOf(scenes, id) + [scene])[..|ScenesOf(scenes, id)|] == ScenesOf(scenes, id);
  }

  /** Counts, scenes and assets after some scenes; `finalScenes` are those scenes, finished. */
  ghost predicate Tallied(scenes: seq<Scene>, m: Manifest)
  {
    && |m.scenes| == |scenes| && (forall i :: 0 <= i < |scenes| ==> FinalSceneOf(scenes[i], m.scenes[i]))
    && m.finalAssets == AllFinals(m.scenes)
    && m.counts.finalAssets == |m.finalAssets|
    && m.counts.withFinal == WithFinals(m.scenes) && m.counts.withFinal + m.counts.missingFinal == |scenes|
    && m.counts.stories == |m.stories|
  }

  /** What the stories of the manifest look like: those of the summary first, then the ones that
      only scenes mention. */
  ghost predicate Stories(storyIds: seq<string>, m: Manifest)
  {
    && Regrouped(m.scenes, m.stories)
    && |storyIds| <= |m.stories| && (forall i :: 0 <= i < |storyIds| ==> m.stories[i].id == storyIds[i])
    && (forall i :: 0 <= i < |m.scenes| ==> HasStory(m.stories, m.scenes[i].story))
    && (forall i, j :: 0 <= i < j < |m.stories| && |storyIds| <= j ==> m.stories[i].id != m.stories[j].id)
  }

  function FinalIds(stories: seq<FinalStory>): seq<string>
  {
    seq(|stories|, i requires 0 <= i < |stories| => stories[i].id)
  }

  /** The stories of the summary, then those that only scenes mention, as they first come up. */
  function AllIds(storyIds: seq<string>, scenes: seq<Scene>): seq<string>
  {
    if scenes == [] then storyIds
    else
      var before, id := AllIds(storyIds, scenes[..|scenes| - 1]), scenes[|scenes| - 1].story;
      if id in before then before else before + [id]
  }

  lemma {:induction false} NoNewStories(storyIds: seq<string>, scenes: seq<Scene>)
    requires forall i :: 0 <= i < |scenes| ==> scenes[i].story in storyIds
    ensures AllIds(storyIds, scenes) == storyIds
  {
    if scenes != [] {
      NoNewStories(storyIds, scenes[..|scenes| - 1]);
    }
  }

  lemma AllIdsNext(storyIds: seq<string>, scenes: seq<Scene>, scene: Scene)
    ensures AllIds(storyIds, scenes + [scene]) ==
            var before := AllIds(storyIds, scenes);
            if scene.story in before then before else before + [scene.story]
  {
    assert (scenes + [scene])[..|scenes|] == scenes;
  }

  lemma IndexedIds(stories: seq<FinalStory>, storyIndex: map<string, nat>, id: string)
    requires Indexed(stories, storyIndex)
    ensures id in storyIndex <==> id in FinalIds(stories)
  {
    if id in storyIndex {
      assert FinalIds(stories)[storyIndex[id]] == id;
    }
  }

  method StartStories(storyIds: seq<string>) returns (stories: seq<FinalStory>, storyIndex: map<string, nat>)
    ensures |stories| == |storyIds| && forall i :: 0 <= i < |storyIds| ==> stories[i] == StoryWith(storyIds[i], [])
    ensures Indexed(stories, storyIndex)
  {
    stories, storyIndex := [], map[];
    for n := 0 to |storyIds|
      invariant |stories| == n && forall i :: 0 <= i < n ==> stories[i] == StoryWith(storyIds[i], [])
      invariant Indexed(stories, storyIndex)
    {
      var story := FinalStory(storyIds[n], 0, 0, [], []);
      IndexedAppend(stories, storyIndex, story);
      storyIndex := storyIndex[storyIds[n] := |stories|];
      stories := stories + [story];
    }
  }

  lemma TalliedNext(scenes: seq<Scene>, scene: Scene, m: Manifest, final: FinalScene, next: Manifest)
    requires Tallied(scenes, m) && FinalSceneOf(scene, final)
    requires next.scenes == m.scenes + [final] && next.finalAssets == m.finalAssets + final.finalAssets
    requires next.counts.finalAssets == m.counts.finalAssets + |final.finalAssets|
    requires next.counts.withFinal == m.counts.withFinal + if |final.finalAssets| > 0 then 1 else 0
    requires next.counts.missingFinal == m.counts.missingFinal + if |final.finalAssets| > 0 then 0 else 1
    requires next.counts.stories == |next.stories|
    ensures Tallied(scenes + [scene], next)
  {
    assert next.scenes[..|m.scenes|] == m.scenes;
    assert forall i :: 0 <= i < |scenes| ==> (scenes + [scene])[i] == scenes[i] && next.scenes[i] == m.scenes[i];
  }

  /** The story that a scene goes to, started if it is not there yet. */
  method FindStory(ghost storyIds: seq<string>, m: Manifest, storyIndex: map<string, nat>, id: string)
      returns (next: Manifest, nextIndex: map<string, nat>)
    requires Stories(storyIds, m) && Indexed(m.stories, storyIndex) && m.counts.stories == |m.stories|
    ensures Stories(storyIds, next) && Indexed(next.stories, nextIndex) && id in nextIndex
    ensures next == m.(stories := next.stories, counts := m.counts.(stories := |next.stories|))
    ensures FinalIds(next.stories) == if id in FinalIds(m.stories) then FinalIds(m.stories) else FinalIds(m.stories) + [id]
  {
    IndexedIds(m.stories, storyIndex, id);
    next, nextIndex := m, storyIndex;
    if id !in storyIndex {
      nextIndex := storyIndex[id := |m.stories|];
      next := m.(
        stories := m.stories + [FinalStory(id, 0, 0, [], [])],
        counts := m.counts.(stories := m.counts.stories + 1));
      StartedStory(storyIds, m, storyIndex, id, next);
    }
  }

  /** The state of the loop after some scenes. */
  ghost predicate Building(storyIds: seq<string>, scenes: seq<Scene>, m: Manifest, storyIndex: map<string, nat>)
  {
    && Tallied(scenes, m) && Stories(storyIds, m) && Indexed(m.stories, storyIndex)
    && FinalIds(m.stories) == AllIds(storyIds, scenes)
  }

  /** The manifest with one more scene, which goes to story `k`. */
  function WithFinal(m: Manifest, k: nat, final: FinalScene): Manifest
    requires k < |m.stories|
  {
    Manifest(
      m.counts.(
        withFinal := m.counts.withFinal + if |final.finalAssets| > 0 then 1 else 0,
        missingFinal := m.counts.missingFinal + if |final.finalAssets| > 0 then 0 else 1,
        finalAssets := m.counts.finalAssets + |final.finalAssets|),
      m.stories[k := WithScene(m.stories[k], final)],
      m.scenes + [final],
      m.finalAssets + final.finalAssets)
  }

  lemma SameIds(m: Manifest, k: nat, final: FinalScene)
    requires k < |m.stories|
    ensures FinalIds(WithFinal(m, k, final).stories) == FinalIds(m.stories)
  {
  }

  /** One turn of the loop. */
  method DeliverScene(ghost storyIds: seq<string>, ghost scenes: seq<Scene>, scene: Scene, m: Manifest, storyIndex: map<string, nat>)
      returns (next: Manifest, nextIndex: map<string, nat>)
    requires Building(storyIds, scenes, m, storyIndex)
    ensures Building(storyIds, scenes + [scene], next, nextIndex) && next.counts.scenes == m.counts.scenes
  {
    var final := BuildFinalScene(scene);
    AllIdsNext(storyIds, scenes, scene);
    next, nextIndex := FindStory(storyIds, m, storyIndex, final.story);
    var k := nextIndex[final.story];
    ghost var found := next;
    next := WithFinal(next, k, final);
    StoriesNext(storyIds, found, nextIndex, final, k, next);
    TalliedNext(scenes, scene, found, final, next);
    SameIds(found, k, final);
  }

  /** buildBatchFinalDelivery. */
  method BuildFinalDelivery(storyIds: seq<string>, scenes: seq<Scene>) returns (m: Manifest)
    ensures Tallied(scenes, m) && Stories(storyIds, m)
    ensures FinalIds(m.stories) == AllIds(storyIds, scenes)
    ensures m.counts.scenes == |scenes|
  {
    var stories: seq<FinalStory>, storyIndex: map<string, nat> := StartStories(storyIds);
    m := Manifest(Counts(|storyIds|, |scenes|, 0, 0, 0), stories, [], []);
    assert FinalIds(m.stories) == storyIds;
    for n := 0 to |scenes|
      invariant Building(storyIds, scenes[..n], m, storyIndex) && m.counts.scenes == |scenes|
    {
      assert scenes[..n + 1] == scenes[..n] + [scenes[n]];
      m, storyIndex := DeliverScene(storyIds, scenes[..n], scenes[n], m, storyIndex);
    }
    assert scenes[..|scenes|] == scenes;
    if |storyIds| == 0 {
      m := m.(counts := m.counts.(stories := |m.stories|));
    }
  }

  lemma ScenesAreIndexed(stories: seq<FinalStory>, storyIndex: map<string, nat>, scenes: seq<FinalScene>)
    requires Indexed(stories, storyIndex)
    requires forall i :: 0 <= i < |scenes| ==> HasStory(stories, scenes[i].story)
    ensures forall i :: 0 <= i < |scenes| ==> scenes[i].story in storyIndex
  {
    forall i | 0 <= i < |scenes|
      ensures scenes[i].story in storyIndex
    {
      assert HasStory(stories, scenes[i].story);
    }
  }

  lemma StartedStory(storyIds: seq<string>, m: Manifest, storyIndex: map<string, nat>, id: string, next: Manifest)
    requires Stories(storyIds, m) && Indexed(m.stories, storyIndex) && id !in storyIndex
    requires next.scenes == m.scenes && next.stories == m.stories + [StoryWith(id, [])]
    ensures Stories(storyIds, next) && Indexed(next.stories, storyIndex[id := |m.stories|])
  {
    ScenesAreIndexed(m.stories, storyIndex, m.scenes);
    NewStory(m.scenes, m.stories, storyIndex, id);
    assert forall i :: 0 <= i < |m.stories| ==> next.stories[i] == m.stories[i];
    ScenesStayCovered(m.stories, next.stories, m.scenes);
  }

  lemma ScenesStayCovered(stories: seq<FinalStory>, next: seq<FinalStory>, scenes: seq<FinalScene>)
    requires |stories| <= |next| && forall i :: 0 <= i < |stories| ==> next[i].id == stories[i].id
    requires forall i :: 0 <= i < |scenes| ==> HasStory(stories, scenes[i].story)
    ensures forall i :: 0 <= i < |scenes| ==> HasStory(next, scenes[i].story)
  {
    forall i | 0 <= i < |scenes|
      ensures HasStory(next, scenes[i].story)
    {
      assert HasStory(stories, scenes[i].story);
      var j :| 0 <= j < |stories| && stories[j].id == scenes[i].story;
      assert next[j].id == scenes[i].story;
    }
  }

  lemma StoriesNext(storyIds: seq<string>, m: Manifest, storyIndex: map<string, nat>, final: FinalScene, k: nat, next: Manifest)
    requires Stories(storyIds, m) && Indexed(m.stories, storyIndex)
    requires final.story in storyIndex && k == storyIndex[final.story]
    requires next.scenes == m.scenes + [final] && next.stories == m.stories[k := WithScene(m.stories[k], final)]
    ensures Stories(storyIds, next) && Indexed(next.stories, storyIndex)
  {
    AddedScene(m.scenes, m.stories, storyIndex, final, k);
    assert forall i :: 0 <= i < |m.stories| ==> next.stories[i].id == m.stories[i].id;
    ScenesStayCovered(m.stories, next.stories, m.scenes);
    forall i | 0 <= i < |next.scenes|
      ensures HasStory(next.stories, next.scenes[i].story)
    {
      assert next.stories[k].id == final.story;
      assert i < |m.scenes| ==> next.scenes[i] == m.scenes[i];
    }
  }

  // ---------------------------------------------------------------- distinct story ids

  /** With distinct story ids, as the summary lists them, every story holds exactly the scenes
      with its id, in their order, and their final assets. */
  lemma StoriesHoldTheirScenes(storyIds: seq<string>, m: Manifest, i: nat)
    requires Stories(storyIds, m) && i < |m.stories|
    requires forall a, b :: 0 <= a < b < |storyIds| ==> storyIds[a] != storyIds[b]
    ensures m.stories[i] == StoryWith(m.stories[i].id, ScenesOf(m.scenes, m.stories[i].id))
    ensures forall j :: 0 <= j < |m.stories| && j != i ==> m.stories[j].id != m.stories[i].id
  {
    forall a, b | 0 <= a < b < |m.stories|
      ensures m.stories[a].id != m.stories[b].id
    {
      assert b < |storyIds| ==> m.stories[a].id == storyIds[a] && m.stories[b].id == storyIds[b];
    }
    assert IsLast(m.stories, i);
  }

  function SceneSum(stories: seq<FinalStory>): nat
  {
    if stories == [] then 0 else SceneSum(stories[..|stories| - 1]) + stories[|stories| - 1].sceneCount
  }

  function AssetSum(stories: seq<FinalStory>): nat
  {
    if stories == [] then 0 else AssetSum(stories[..|stories| - 1]) + stories[|stories| - 1].finalAssetCount
  }

  /** The stories that hold the scenes of the given ids. */
  function StoriesFor(ids: seq<string>, scenes: seq<FinalScene>): seq<FinalStory>
  {
    seq(|ids|, i requires 0 <= i < |ids| => StoryWith(ids[i], ScenesOf(scenes, ids[i])))
  }

  lemma SumsOfMore(ids: seq<string>, id: string, scenes: seq<FinalScene>)
    ensures SceneSum(StoriesFor(ids + [id], scenes)) == SceneSum(StoriesFor(ids, scenes)) + |ScenesOf(scenes, id)|
    ensures AssetSum(StoriesFor(ids + [id], scenes)) == AssetSum(StoriesFor(ids, scenes)) + |AllFinals(ScenesOf(scenes, id))|
  {
    assert StoriesFor(ids + [id], scenes) == StoriesFor(ids, scenes) + [StoryWith(id, ScenesOf(scenes, id))];
    assert StoriesFor(ids + [id], scenes)[..|ids|] == StoriesFor(ids, scenes);
  }

  lemma {:induction false} StoryGrows(scenes: seq<FinalScene>, scene: FinalScene, id: string)
    ensures var hit := scene.story == id;
            && |ScenesOf(scenes + [scene], id)| == |ScenesOf(scenes, id)| + (if hit then 1 else 0)
            && |AllFinals(ScenesOf(scenes + [scene], id))|
               == |AllFinals(ScenesOf(scenes, id))| + if hit then |scene.finalAssets| else 0
  {
    ScenesOfNext(scenes, scene, id);
  }

  lemma {:induction false} SumsNext(ids: seq<string>, scenes: seq<FinalScene>, scene: FinalScene)
    requires forall a, b :: 0 <= a < b < |ids| ==> ids[a] != ids[b]
    ensures var hit := scene.story in ids;
            && SceneSum(StoriesFor(ids, scenes + [scene])) == SceneSum(StoriesFor(ids, scenes)) + (if hit then 1 else 0)
            && AssetSum(StoriesFor(ids, scenes + [scene]))
               == AssetSum(StoriesFor(ids, scenes)) + if hit then |scene.finalAssets| else 0
    decreases |ids|
  {
    if ids != [] {
      var before, last := ids[..|ids| - 1], ids[|ids| - 1];
      SumsNext(before, scenes, scene);
      StoryGrows(scenes, scene, last);
      SumsOfMore(before, last, scenes);
      SumsOfMore(before, last, scenes + [scene]);
      assert before + [last] == ids;
    }
  }

  lemma {:induction false} SumsOfNothing(ids: seq<string>)
    ensures SceneSum(StoriesFor(ids, [])) == 0 && AssetSum(StoriesFor(ids, [])) == 0
  {
    if ids != [] {
      var before := ids[..|ids| - 1];
      SumsOfNothing(before);
      assert StoriesFor(ids, [])[..|before|] == StoriesFor(before, []);
    }
  }

  lemma {:induction false} SumsOfAll(ids: seq<string>, scenes: seq<FinalScene>)
    requires forall a, b :: 0 <= a < b < |ids| ==> ids[a] != ids[b]
    requires forall i :: 0 <= i < |scenes| ==> scenes[i].story in ids
    ensures SceneSum(StoriesFor(ids, scenes)) == |scenes| && AssetSum(StoriesFor(ids, scenes)) == |AllFinals(scenes)|
    decreases |scenes|
  {
    if scenes == [] {
      SumsOfNothing(ids);
    } else {
      var before, last := scenes[..|scenes| - 1], scenes[|scenes| - 1];
      assert before + [last] == scenes && last.story in ids;
      forall i | 0 <= i < |before|
        ensures before[i].story in ids
      {
        assert before[i] == scenes[i];
      }
      SumsOfAll(ids, before);
      SumsNext(ids, before, last);
    }
  }

  /** Regrouping neither loses nor duplicates anything: the stories' counters add up to the
      manifest's. */
  lemma RegroupingAddsUp(storyIds: seq<string>, scenes: seq<Scene>, m: Manifest)
    requires Tallied(scenes, m) && Stories(storyIds, m)
    requires forall a, b :: 0 <= a < b < |storyIds| ==> storyIds[a] != storyIds[b]
    ensures SceneSum(m.stories) == |scenes| && AssetSum(m.stories) == m.counts.finalAssets
  {
    var ids := seq(|m.stories|, i requires 0 <= i < |m.stories| => m.stories[i].id);
    forall i | 0 <= i < |m.stories|
      ensures m.stories[i] == StoriesFor(ids, m.scenes)[i]
      ensures forall j :: 0 <= j < |m.stories| && j != i ==> ids[i] != ids[j]
    {
      StoriesHoldTheirScenes(storyIds, m, i);
    }
    assert m.stories == StoriesFor(ids, m.scenes);
    forall i | 0 <= i < |m.scenes|
      ensures m.scenes[i].story in ids
    {
      assert HasStory(m.stories, m.scenes[i].story);
      var j :| 0 <= j < |m.stories| && m.stories[j].id == m.scenes[i].story;
      assert ids[j] == m.scenes[i].story;
    }
    SumsOfAll(ids, m.scenes);
  }

  lemma {:induction false} NothingDelivered(assets: seq<Asset>)
    ensures Delivered(assets) != [] <==> exists i :: 0 <= i < |assets| && assets[i].role == FinalDelivery
  {
    if assets != [] {
      var before := assets[..|assets| - 1];
      NothingDelivered(before);
      assert forall i :: 0 <= i < |before| ==> before[i] == assets[i];
    }
  }

  /** From the unenriched scene to the manifest: the scene is delivered with at least one asset
      if and only if it has a selected one. */
  lemma DeliveredIffSelected(before: seq<Asset>, scene: Scene, final: FinalScene)
    requires Enriched(before, scene.assets) && FinalSceneOf(scene, final)
    ensures final.finalAssets != [] <==> exists i :: 0 <= i < |before| && IsSelected(before[i].status)
  {
    SceneDelivers(before, scene.assets);
    NothingDelivered(scene.assets);
  }
}
