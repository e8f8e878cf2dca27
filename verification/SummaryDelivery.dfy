/** From the batch story summary to its final delivery (internal/app/service.go, GetBatchManifest):
    the summary's scenes are enriched with delivery roles and regrouped. */
module SummaryDelivery {
  import opened Options
  import opened Text
  import M = SummaryMeaning
  import Db = Database
  import S = StorySummary
  import B = BatchSummary
  import D = Delivery
  import O = StoryOrder

  /** What the structured input of some tasks says about the origin of their assets. */
  type Lineages = map<string, D.Lineage>

  /** The status as the summary spells it. */
  function StatusName(status: S.PublicStatus): string
  {
    match status
    case Generated => "generated"
    case Selected => "selected"
    case Archived => "archived"
    case RejectedAsset => "rejected"
    case PublishedAsset => "published"
  }

  function PlainAsset(asset: S.AssetSummary, lineages: Lineages): D.Asset
  {
    D.Asset(asset.id, StatusName(asset.status), if asset.task in lineages then Some(lineages[asset.task]) else None, D.NoRole)
  }

  function PlainAssets(assets: seq<S.AssetSummary>, lineages: Lineages): seq<D.Asset>
  {
    seq(|assets|, i requires 0 <= i < |assets| => PlainAsset(assets[i], lineages))
  }

  /** The scene as the manifest gets it. */
  ghost predicate EnrichedScene(scene: S.Scene, lineages: Lineages, r: D.Scene)
  {
    && r.story == scene.place.story && r.id == scene.place.scene
    && D.Enriched(PlainAssets(scene.assets, lineages), r.assets)
  }

  ghost predicate EnrichedScenes(scenes: seq<S.Scene>, lineages: Lineages, r: seq<D.Scene>)
  {
    |r| == |scenes| && forall i {:trigger r[i]} :: 0 <= i < |r| ==> EnrichedScene(scenes[i], lineages, r[i])
  }

  /** enrichBatchStorySummaryDeliverySemantics. */
  method EnrichSummary(scenes: seq<S.Scene>, lineages: Lineages) returns (r: seq<D.Scene>)
    ensures EnrichedScenes(scenes, lineages, r)
  {
    r := [];
    for n := 0 to |scenes|
      invariant EnrichedScenes(scenes[..n], lineages, r)
    {
      var plain := PlainAssets(scenes[n].assets, lineages);
      var assets := new D.Asset[|plain|](i requires 0 <= i < |plain| => plain[i]);
      assert assets[..] == plain;
      D.EnrichScene(assets);
      r := r + [D.Scene(scenes[n].place.story, scenes[n].place.scene, assets[..])];
    }
  }

  // ---------------------------------------------------------------- what the summary guarantees

  predicate HasAsset(assets: seq<S.AssetSummary>, status: S.PublicStatus)
  {
    exists i :: 0 <= i < |assets| && assets[i].status == status
  }

  lemma {:induction false} SomethingSelected(assets: seq<S.AssetSummary>)
    ensures S.SelectedStamps(assets) != [] <==> HasAsset(assets, S.Selected)
  {
    if assets != [] {
      var before := assets[..|assets| - 1];
      SomethingSelected(before);
      assert forall i :: 0 <= i < |before| ==> before[i] == assets[i];
    }
  }

  /** A scene names a primary asset exactly when one of its assets is selected. */
  lemma {:induction false} PrimaryIffSelected(rows: seq<S.Row>, scene: S.Scene)
    requires S.WellFormed(rows) && B.Final(rows, scene)
    ensures scene.primaryAsset != "" <==> HasAsset(scene.assets, S.Selected)
  {
    SomethingSelected(scene.assets);
    var stamps := S.SelectedStamps(scene.assets);
    if stamps != [] {
      var i :| O.LatestAt(stamps, i) && stamps[i].id == scene.primaryAsset;
      S.AssetsAreDistinct(rows, scene.place.story, scene.place.scene);
      S.SelectedStampsAreDistinct(scene.assets);
    }
  }

  lemma {:induction false} DeliveredStatus(status: S.PublicStatus)
    ensures D.IsSelected(StatusName(status)) <==> status == S.Selected || status == S.PublishedAsset
  {
  }

  /** A scene of the summary is delivered with something exactly when it has a primary asset or a
      published one. */
  lemma {:induction false} SceneIsDelivered(rows: seq<S.Row>, scene: S.Scene, lineages: Lineages, enriched: D.Scene, final: D.FinalScene)
    requires S.WellFormed(rows) && B.Final(rows, scene)
    requires EnrichedScene(scene, lineages, enriched) && D.FinalSceneOf(enriched, final)
    ensures final.finalAssets != [] <==> scene.primaryAsset != "" || HasAsset(scene.assets, S.PublishedAsset)
  {
    PrimaryIffSelected(rows, scene);
    D.DeliveredIffSelected(PlainAssets(scene.assets, lineages), enriched, final);
    SomethingDelivered(scene.assets, lineages);
  }

  lemma {:induction false} SomethingDelivered(assets: seq<S.AssetSummary>, lineages: Lineages)
    ensures var plain := PlainAssets(assets, lineages);
            (exists i :: 0 <= i < |plain| && D.IsSelected(plain[i].status))
            <==> HasAsset(assets, S.Selected) || HasAsset(assets, S.PublishedAsset)
  {
    var plain := PlainAssets(assets, lineages);
    forall i | 0 <= i < |plain|
      ensures D.IsSelected(plain[i].status) <==> assets[i].status == S.Selected || assets[i].status == S.PublishedAsset
    {
      DeliveredStatus(assets[i].status);
    }
    if HasAsset(assets, S.Selected) || HasAsset(assets, S.PublishedAsset) {
      var i :| 0 <= i < |assets| && (assets[i].status == S.Selected || assets[i].status == S.PublishedAsset);
      assert D.IsSelected(plain[i].status);
    }
  }

  // ---------------------------------------------------------------- what is delivered, in terms of the rows

  /** "caption_edit" in any mixture of cases. */
  predicate SpellsCaptionEdit(s: string)
  {
    |s| == 12 && forall i :: 0 <= i < 12 ==> s[i] == "caption_edit"[i] || s[i] == "CAPTION_EDIT"[i]
  }

  /** The asset is approved or published. */
  predicate Ready(row: S.Row)
  {
    row.asset.Some? && row.asset.value.status in {Db.Approved, Db.Published}
  }

  /** The asset is an edit of another one. */
  predicate Edited(row: S.Row, lineages: Lineages)
  {
    row.task.id in lineages
    && (Trim(lineages[row.task.id].derivedFrom) != "" || SpellsCaptionEdit(Trim(lineages[row.task.id].derivationType)))
  }

  /** The asset is ready and was made from the asset `id`. */
  predicate Replaces(row: S.Row, lineages: Lineages, id: string)
  {
    Ready(row) && row.task.id in lineages && Trim(lineages[row.task.id].derivedFrom) == id && id != ""
  }

  predicate Replaced(rows: seq<S.Row>, at: M.Where, lineages: Lineages, id: string)
  {
    exists m :: 0 <= m < |rows| && M.Within(rows[m], at) && Replaces(rows[m], lineages, id)
  }

  /** The rows of a scene whose asset is delivered: ready ones, but not an original with a ready
      edit in its scene. */
  predicate Delivers(rows: seq<S.Row>, at: M.Where, lineages: Lineages, n: nat)
  {
    && n < |rows| && M.Within(rows[n], at) && Ready(rows[n])
    && (Edited(rows[n], lineages) || !Replaced(rows, at, lineages, rows[n].asset.value.id))
  }

  ghost predicate FinalsAt(rows: seq<S.Row>, at: M.Where, lineages: Lineages, final: D.FinalScene, positions: seq<nat>)
  {
    && |positions| == |final.finalAssets| && M.Increasing(positions)
    && (forall n: nat :: n in positions <==> Delivers(rows, at, lineages, n))
    && forall k :: 0 <= k < |positions| ==>
         && positions[k] < |rows| && rows[positions[k]].asset.Some?
         && final.finalAssets[k].asset.id == rows[positions[k]].asset.value.id
         && final.finalAssets[k].story == final.story && final.finalAssets[k].scene == final.id
  }

  /** The final assets of a scene are exactly those, in the order of the rows. */
  ghost predicate FinalsAre(rows: seq<S.Row>, lineages: Lineages, final: D.FinalScene)
  {
    exists positions :: FinalsAt(rows, M.At(final.story, final.id), lineages, final, positions)
  }

  lemma {:induction false} LowerByChar(s: string)
    ensures |D.Lower(s)| == |s| && forall i :: 0 <= i < |s| ==> D.Lower(s)[i] == D.LowerChar(s[i])
  {
    if s != "" {
      LowerByChar(s[1..]);
    }
  }

  lemma {:induction false} LowerCharIs(c: char, lower: char, upper: char)
    requires lower == '_' == upper || ('a' <= lower <= 'z' && upper == lower - 'a' + 'A')
    ensures D.LowerChar(c) == lower <==> c == lower || c == upper
  {
  }

  lemma {:induction false} LowerSpells(s: string)
    ensures D.Lower(s) == D.CAPTION_EDIT <==> SpellsCaptionEdit(s)
  {
    LowerByChar(s);
    if |s| == 12 {
      forall i | 0 <= i < 12
        ensures D.Lower(s)[i] == "caption_edit"[i] <==> s[i] == "caption_edit"[i] || s[i] == "CAPTION_EDIT"[i]
      {
        LowerCharIs(s[i], "caption_edit"[i], "CAPTION_EDIT"[i]);
      }
    }
  }

  /** The properties of an asset that decide its role, in terms of its row. */
  lemma {:induction false} AssetOfRow(a: S.AssetSummary, row: S.Row, lineages: Lineages)
    requires M.Shows(a, row)
    ensures var plain := PlainAsset(a, lineages);
            && (D.IsSelected(plain.status) <==> Ready(row))
            && (D.IsDerivative(plain.lineage) <==> Edited(row, lineages))
            && (forall id :: D.Overrides(plain, id) <==> Replaces(row, lineages, id))
  {
    DeliveredStatus(a.status);
    if row.task.id in lineages {
      LowerSpells(Trim(lineages[row.task.id].derivationType));
    }
  }

  lemma {:induction false} OverriddenRows(rows: seq<S.Row>, at: M.Where, assets: seq<S.AssetSummary>, positions: seq<nat>,
                                          lineages: Lineages, id: string)
    requires M.AssetsAt(rows, at, assets, positions)
    ensures D.Overridden(PlainAssets(assets, lineages), id) <==> Replaced(rows, at, lineages, id)
  {
    var plain := PlainAssets(assets, lineages);
    if D.Overridden(plain, id) {
      var k :| 0 <= k < |plain| && D.Overrides(plain[k], id);
      AssetOfRow(assets[k], rows[positions[k]], lineages);
      assert positions[k] in positions && positions[k] in M.AssetRows(rows, at, S.Assets);
      assert Replaces(rows[positions[k]], lineages, id);
    }
    if Replaced(rows, at, lineages, id) {
      var m: nat :| m < |rows| && M.Within(rows[m], at) && Replaces(rows[m], lineages, id);
      assert m in M.AssetRows(rows, at, S.Assets) && m in positions;
      var k :| 0 <= k < |positions| && positions[k] == m;
      AssetOfRow(assets[k], rows[m], lineages);
      assert D.Overrides(plain[k], id);
    }
  }

  /** The role of an asset in terms of the rows: delivered, or else an edit or an original. */
  lemma {:induction false} RoleOfRow(rows: seq<S.Row>, at: M.Where, assets: seq<S.AssetSummary>, positions: seq<nat>,
                                     lineages: Lineages, enriched: seq<D.Asset>, k: nat)
    requires M.AssetsAt(rows, at, assets, positions) && D.Enriched(PlainAssets(assets, lineages), enriched) && k < |assets|
    ensures enriched[k].role ==
              if Delivers(rows, at, lineages, positions[k]) then D.FinalDelivery
              else if Edited(rows[positions[k]], lineages) then D.CaptionDerivative
              else D.BaseOriginal
    ensures enriched[k].id == assets[k].id
  {
    var plain := PlainAssets(assets, lineages);
    AssetOfRow(assets[k], rows[positions[k]], lineages);
    OverriddenRows(rows, at, assets, positions, lineages, assets[k].id);
    assert positions[k] in positions && positions[k] in M.AssetRows(rows, at, S.Assets);
    assert D.HasRole(plain, plain[k], enriched[k].role);
  }

  ghost predicate KeptAt(assets: seq<D.Asset>, kept: seq<nat>)
  {
    && |kept| == |D.Delivered(assets)| && M.Increasing(kept)
    && (forall k: nat :: k in kept <==> k < |assets| && assets[k].role == D.FinalDelivery)
    && forall i :: 0 <= i < |kept| ==> kept[i] < |assets| && D.Delivered(assets)[i] == assets[kept[i]]
  }

  lemma {:induction false} KeptNext(assets: seq<D.Asset>, last: D.Asset, kept: seq<nat>)
    requires KeptAt(assets, kept)
    ensures KeptAt(assets + [last], kept + if last.role == D.FinalDelivery then [|assets|] else [])
  {
    var more := assets + [last];
    assert more[..|assets|] == assets;
    assert forall k :: 0 <= k < |assets| ==> more[k] == assets[k];
    if last.role == D.FinalDelivery {
      forall k: nat
        ensures k in kept + [|assets|] <==> k in kept || k == |assets|
      {
        M.InNext(kept, |assets|, k);
      }
    } else {
      assert kept + [] == kept;
    }
  }

  lemma {:induction false} DeliveredAreKept(assets: seq<D.Asset>)
    ensures exists kept :: KeptAt(assets, kept)
  {
    if assets == [] {
      assert KeptAt(assets, []);
    } else {
      var before, last := assets[..|assets| - 1], assets[|assets| - 1];
      DeliveredAreKept(before);
      var kept: seq<nat> :| KeptAt(before, kept);
      KeptNext(before, last, kept);
      assert before + [last] == assets;
    }
  }

  function Compose(positions: seq<nat>, kept: seq<nat>): (r: seq<nat>)
    requires forall i :: 0 <= i < |kept| ==> kept[i] < |positions|
    ensures |r| == |kept| && forall i :: 0 <= i < |kept| ==> r[i] == positions[kept[i]]
  {
    seq(|kept|, i requires 0 <= i < |kept| => positions[kept[i]])
  }

  lemma {:induction false} InComposed(positions: seq<nat>, kept: seq<nat>, n: nat)
    requires forall i :: 0 <= i < |kept| ==> kept[i] < |positions|
    ensures n in Compose(positions, kept) <==> exists k :: k in kept && positions[k] == n
  {
    var r := Compose(positions, kept);
    if n in r {
      var i :| 0 <= i < |r| && r[i] == n;
      assert kept[i] in kept;
    }
    if k :| k in kept && positions[k] == n {
      var i :| 0 <= i < |kept| && kept[i] == k;
      assert r[i] == n;
    }
  }

  lemma {:induction false} ChosenRows(rows: seq<S.Row>, at: M.Where, assets: seq<S.AssetSummary>, positions: seq<nat>,
                                      lineages: Lineages, kept: seq<nat>, n: nat)
    requires M.AssetsAt(rows, at, assets, positions)
    requires forall k: nat :: k in kept <==> k < |assets| && Delivers(rows, at, lineages, positions[k])
    requires forall i :: 0 <= i < |kept| ==> kept[i] < |positions|
    ensures n in Compose(positions, kept) <==> Delivers(rows, at, lineages, n)
  {
    InComposed(positions, kept, n);
    if Delivers(rows, at, lineages, n) {
      assert n in M.AssetRows(rows, at, S.Assets) && n in positions;
      var k :| 0 <= k < |positions| && positions[k] == n;
      assert k in kept;
    }
  }

  lemma {:induction false} KeptRows(rows: seq<S.Row>, at: M.Where, assets: seq<S.AssetSummary>, positions: seq<nat>,
                                    lineages: Lineages, enriched: seq<D.Asset>, kept: seq<nat>)
    requires M.AssetsAt(rows, at, assets, positions) && D.Enriched(PlainAssets(assets, lineages), enriched)
    requires KeptAt(enriched, kept)
    ensures forall n: nat :: n in Compose(positions, kept) <==> Delivers(rows, at, lineages, n)
  {
    forall k: nat
      ensures k in kept <==> k < |assets| && Delivers(rows, at, lineages, positions[k])
    {
      if k < |assets| {
        RoleOfRow(rows, at, assets, positions, lineages, enriched, k);
      }
    }
    forall n: nat
      ensures n in Compose(positions, kept) <==> Delivers(rows, at, lineages, n)
    {
      ChosenRows(rows, at, assets, positions, lineages, kept, n);
    }
  }

  lemma {:induction false} KeptAsset(rows: seq<S.Row>, scene: S.Scene, lineages: Lineages, enriched: D.Scene, final: D.FinalScene,
                                     at: M.Where, positions: seq<nat>, kept: seq<nat>, i: nat)
    requires M.AssetsAt(rows, at, scene.assets, positions) && KeptAt(enriched.assets, kept) && i < |kept|
    requires EnrichedScene(scene, lineages, enriched) && D.FinalSceneOf(enriched, final)
    ensures var n := Compose(positions, kept)[i];
            n < |rows| && rows[n].asset.Some? && final.finalAssets[i].asset.id == rows[n].asset.value.id
  {
    var plain := PlainAssets(scene.assets, lineages);
    assert enriched.assets[kept[i]] == plain[kept[i]].(role := enriched.assets[kept[i]].role);
    assert M.Shows(scene.assets[kept[i]], rows[positions[kept[i]]]);
  }

  lemma {:induction false} FinalsAreRows(rows: seq<S.Row>, scene: S.Scene, lineages: Lineages, enriched: D.Scene, final: D.FinalScene)
    requires M.AssetsListed(rows, M.At(scene.place.story, scene.place.scene), scene.assets)
    requires EnrichedScene(scene, lineages, enriched) && D.FinalSceneOf(enriched, final)
    ensures FinalsAre(rows, lineages, final)
  {
    var at := M.At(scene.place.story, scene.place.scene);
    var positions: seq<nat> :| M.AssetsAt(rows, at, scene.assets, positions);
    DeliveredAreKept(enriched.assets);
    var kept: seq<nat> :| KeptAt(enriched.assets, kept);
    KeptRows(rows, at, scene.assets, positions, lineages, enriched.assets, kept);
    forall i | 0 <= i < |kept|
      ensures var n := Compose(positions, kept)[i];
              n < |rows| && rows[n].asset.Some? && final.finalAssets[i].asset.id == rows[n].asset.value.id
    {
      KeptAsset(rows, scene, lineages, enriched, final, at, positions, kept, i);
    }
    FinalsAtKept(rows, at, lineages, enriched, final, positions, kept);
  }

  lemma {:induction false} FinalsAtKept(rows: seq<S.Row>, at: M.Where, lineages: Lineages, enriched: D.Scene, final: D.FinalScene,
                                        positions: seq<nat>, kept: seq<nat>)
    requires M.Increasing(positions) && KeptAt(enriched.assets, kept) && D.FinalSceneOf(enriched, final)
    requires |positions| == |enriched.assets|
    requires forall n: nat :: n in Compose(positions, kept) <==> Delivers(rows, at, lineages, n)
    requires forall i :: 0 <= i < |kept| ==>
               var n := Compose(positions, kept)[i];
               n < |rows| && rows[n].asset.Some? && final.finalAssets[i].asset.id == rows[n].asset.value.id
    ensures FinalsAt(rows, at, lineages, final, Compose(positions, kept))
  {
  }

  // ---------------------------------------------------------------- the two responses agree

  function PublishedOnly(scenes: seq<S.Scene>): nat
  {
    if scenes == [] then 0
    else
      var last := scenes[|scenes| - 1];
      PublishedOnly(scenes[..|scenes| - 1])
      + if last.primaryAsset == "" && HasAsset(last.assets, S.PublishedAsset) then 1 else 0
  }

  lemma {:induction false} FinalsAddUp(scenes: seq<S.Scene>, finals: seq<D.FinalScene>)
    requires |finals| == |scenes|
    requires forall i :: 0 <= i < |scenes| ==>
               (finals[i].finalAssets != [] <==> scenes[i].primaryAsset != "" || HasAsset(scenes[i].assets, S.PublishedAsset))
    ensures D.WithFinals(finals) == B.SelectedCount(scenes) + PublishedOnly(scenes)
  {
    if scenes != [] {
      FinalsAddUp(scenes[..|scenes| - 1], finals[..|scenes| - 1]);
    }
  }

  function SceneIds(scenes: seq<D.FinalScene>): seq<string>
  {
    seq(|scenes|, i requires 0 <= i < |scenes| => scenes[i].id)
  }

  /** A story of the delivery holds the scenes that the summary lists for it. */
  lemma {:induction false} SameScenes(scenes: seq<S.Scene>, finals: seq<D.FinalScene>, id: string)
    requires |finals| == |scenes|
    requires forall i :: 0 <= i < |scenes| ==> finals[i].story == scenes[i].place.story && finals[i].id == scenes[i].place.scene
    ensures SceneIds(D.ScenesOf(finals, id)) == B.StoryOf(scenes, id).scenes
    ensures |D.ScenesOf(finals, id)| == B.StoryOf(scenes, id).sceneCount
  {
    if scenes != [] {
      SameScenes(scenes[..|scenes| - 1], finals[..|scenes| - 1], id);
    }
  }

  predicate StoryMatches(story: B.Story, finals: seq<D.FinalScene>, final: D.FinalStory)
  {
    && final == D.StoryWith(story.id, D.ScenesOf(finals, story.id))
    && SceneIds(final.scenes) == story.scenes && final.sceneCount == story.sceneCount
  }

  /** What the final delivery of a summary looks like: the same stories in the same order, none of
      them started by a scene, each with the scenes that the summary lists and their assets. */
  ghost predicate Matches(r: B.Response, m: D.Manifest)
  {
    && D.FinalIds(m.stories) == B.Ids(r.stories) && |m.stories| == |r.stories|
    && (forall i :: 0 <= i < |m.stories| ==> StoryMatches(r.stories[i], m.scenes, m.stories[i]))
    && m.counts.stories == r.storyCount && m.counts.scenes == r.sceneCount
    && m.counts.withFinal == r.sceneWithSelectedCount + PublishedOnly(r.scenes)
    && m.counts.withFinal + m.counts.missingFinal == r.sceneCount
    && D.SceneSum(m.stories) == r.sceneCount && D.AssetSum(m.stories) == m.counts.finalAssets
  }

  lemma {:induction false} StoriesMatch(r: B.Response, lineages: Lineages, scenes: seq<D.Scene>, m: D.Manifest)
    requires B.StoryList(r.scenes, r.stories) && EnrichedScenes(r.scenes, lineages, scenes)
    requires D.Tallied(scenes, m) && D.Stories(B.Ids(r.stories), m) && D.FinalIds(m.stories) == D.AllIds(B.Ids(r.stories), scenes)
    ensures D.FinalIds(m.stories) == B.Ids(r.stories) && |m.stories| == |r.stories|
    ensures forall i :: 0 <= i < |m.stories| ==> StoryMatches(r.stories[i], m.scenes, m.stories[i])
  {
    var ids := B.Ids(r.stories);
    B.StoryIdsAreDistinct(r.scenes, r.stories);
    D.NoNewStories(ids, scenes);
    assert |m.stories| == |D.FinalIds(m.stories)| == |ids| == |r.stories|;
    forall i | 0 <= i < |m.stories|
      ensures StoryMatches(r.stories[i], m.scenes, m.stories[i])
    {
      D.StoriesHoldTheirScenes(ids, m, i);
      assert D.FinalIds(m.stories)[i] == ids[i] == r.stories[i].id;
      SameScenes(r.scenes, m.scenes, ids[i]);
    }
  }

  /** The final delivery of every summary matches it. Published assets count as delivered but not
      as selected: without any, the two responses agree on how many scenes are ready. */
  lemma {:induction false} DeliveryMatchesSummary(rows: seq<S.Row>, r: B.Response, lineages: Lineages, scenes: seq<D.Scene>, m: D.Manifest)
    requires S.WellFormed(rows) && B.Summary(rows, r) && EnrichedScenes(r.scenes, lineages, scenes)
    requires D.Tallied(scenes, m) && D.Stories(B.Ids(r.stories), m) && D.FinalIds(m.stories) == D.AllIds(B.Ids(r.stories), scenes)
    requires m.counts.scenes == |scenes|
    ensures Matches(r, m)
  {
    StoriesMatch(r, lineages, scenes, m);
    B.StoryIdsAreDistinct(r.scenes, r.stories);
    D.RegroupingAddsUp(B.Ids(r.stories), scenes, m);
    forall i | 0 <= i < |r.scenes|
      ensures m.scenes[i].finalAssets != [] <==>
              r.scenes[i].primaryAsset != "" || HasAsset(r.scenes[i].assets, S.PublishedAsset)
    {
      assert B.Final(rows, r.scenes[i]);
      SceneIsDelivered(rows, r.scenes[i], lineages, scenes[i], m.scenes[i]);
    }
    FinalsAddUp(r.scenes, m.scenes);
  }

  /** Every scene of the manifest holds the final assets that the rows call for. */
  lemma {:induction false} ScenesDeliverRows(rows: seq<S.Row>, r: B.Response, lineages: Lineages, scenes: seq<D.Scene>, m: D.Manifest)
    requires M.Says(rows, r) && EnrichedScenes(r.scenes, lineages, scenes) && D.Tallied(scenes, m)
    ensures forall i :: 0 <= i < |m.scenes| ==> FinalsAre(rows, lineages, m.scenes[i])
  {
    forall i | 0 <= i < |m.scenes|
      ensures FinalsAre(rows, lineages, m.scenes[i])
    {
      assert M.SceneSays(rows, r.scenes[i]);
      FinalsAreRows(rows, r.scenes[i], lineages, scenes[i], m.scenes[i]);
    }
  }

  /** GetBatchManifest's final delivery view, from the query's rows to the manifest. */
  method DeliverSummary(rows: seq<S.Row>, lineages: Lineages) returns (r: B.Response, enriched: seq<D.Scene>, m: D.Manifest)
    requires S.WellFormed(rows)
    ensures B.Summary(rows, r) && EnrichedScenes(r.scenes, lineages, enriched)
    ensures D.Tallied(enriched, m) && Matches(r, m)
    ensures M.Says(rows, r) && forall i :: 0 <= i < |m.scenes| ==> FinalsAre(rows, lineages, m.scenes[i])
  {
    r := B.Summarize(rows);
    enriched := EnrichSummary(r.scenes, lineages);
    m := D.BuildFinalDelivery(B.Ids(r.stories), enriched);
    DeliveryMatchesSummary(rows, r, lineages, enriched, m);
    M.SummaryMeans(rows, r);
    ScenesDeliverRows(rows, r, lineages, enriched, m);
  }
}
