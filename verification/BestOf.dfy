/** Automatic best-of selection (internal/app/bestof.go): choose one of a task's new assets and,
    if asked to, reject the others. Scores are integers here, thousandths of the rounded score. */
module BestOf {
  import opened Options
  import opened Database
  import opened StoreOps
  import opened Store
  import opened StoryOrder
  import opened Text

  datatype Candidate = Candidate(id: Id, score: int)

  // ---------------------------------------------------------------- the choice

  /** A candidate with the highest score, and among those the one with the smallest id. */
  ghost predicate IsBest(candidates: seq<Candidate>, best: Candidate)
  {
    && best in candidates
    && forall c :: c in candidates ==> c.score <= best.score && (c.score == best.score ==> !Before(c.id, best.id))
  }

  lemma BestOfMore(candidates: seq<Candidate>, best: Candidate, next: Candidate)
    requires IsBest(candidates, best)
    ensures next.score > best.score || (next.score == best.score && Before(next.id, best.id)) ==> IsBest(candidates + [next], next)
    ensures next.score < best.score || (next.score == best.score && !Before(next.id, best.id)) ==> IsBest(candidates + [next], best)
  {
    if next.score == best.score {
      forall c | c in candidates && c.score == best.score && Before(next.id, best.id)
        ensures !Before(c.id, next.id)
      {
        if Before(c.id, next.id) {
          BeforeIsTransitive(c.id, next.id, best.id);
        }
      }
    }
    if Before(next.id, next.id) {
      BeforeIsStrict(next.id, next.id);
    }
  }

  /** scoreBestOfCandidate. */
  method ScoreBestOfCandidate(candidates: seq<Candidate>) returns (best: Option<Candidate>)
    ensures best.None? <==> candidates == []
    ensures best.Some? ==> IsBest(candidates, best.value)
  {
    best := None;
    for n := 0 to |candidates|
      invariant best.None? <==> n == 0
      invariant best.Some? ==> IsBest(candidates[..n], best.value)
    {
      assert candidates[..n + 1] == candidates[..n] + [candidates[n]];
      var candidate := candidates[n];
      if best.Some? {
        BestOfMore(candidates[..n], best.value, candidate);
      } else if Before(candidate.id, candidate.id) {
        BeforeIsStrict(candidate.id, candidate.id);
      }
      if best.None? || candidate.score > best.value.score
         || (candidate.score == best.value.score && Before(candidate.id, best.value.id))
      {
        best := Some(candidate);
      }
    }
    assert candidates[..|candidates|] == candidates;
  }

  /** The choice does not depend on the order of the candidates. */
  lemma ChoiceIgnoresOrder(a: seq<Candidate>, b: seq<Candidate>, x: Candidate, y: Candidate)
    requires multiset(a) == multiset(b) && IsBest(a, x) && IsBest(b, y)
    ensures x == y
  {
    assert x in multiset(a) && y in multiset(b);
    assert x in b && y in a;
    BeforeIsTotal(x.id, y.id);
  }

  predicate HasCandidate(candidates: seq<Candidate>, id: Id)
  {
    exists i :: 0 <= i < |candidates| && candidates[i].id == id
  }

  /** The ids of the candidates other than `selected`, in their order. */
  function OthersOf(candidates: seq<Candidate>, selected: Id): seq<Id>
  {
    if candidates == [] then []
    else
      var last := candidates[|candidates| - 1];
      OthersOf(candidates[..|candidates| - 1], selected) + if last.id == selected then [] else [last.id]
  }

  lemma HasCandidateNext(before: seq<Candidate>, last: Candidate, id: Id)
    ensures HasCandidate(before + [last], id) <==> HasCandidate(before, id) || last.id == id
  {
    var all := before + [last];
    assert all[|before|] == last && forall i :: 0 <= i < |before| ==> all[i] == before[i];
  }

  lemma {:induction false} OthersAreTheRest(candidates: seq<Candidate>, selected: Id, id: Id)
    ensures id in OthersOf(candidates, selected) <==> id != selected && HasCandidate(candidates, id)
  {
    if candidates != [] {
      var before, last := candidates[..|candidates| - 1], candidates[|candidates| - 1];
      OthersAreTheRest(before, selected, id);
      HasCandidateNext(before, last, id);
      assert before + [last] == candidates;
    }
  }

  /** otherBestOfCandidateIDs. */
  method OtherCandidateIds(candidates: seq<Candidate>, selected: Id) returns (ids: seq<Id>)
    ensures ids == OthersOf(candidates, selected)
    ensures forall id :: id in ids <==> id != selected && HasCandidate(candidates, id)
  {
    ids := [];
    for n := 0 to |candidates|
      invariant ids == OthersOf(candidates[..n], selected)
    {
      assert candidates[..n + 1][..n] == candidates[..n];
      if candidates[n].id == selected {
        continue;
      }
      ids := ids + [candidates[n].id];
    }
    assert candidates[..|candidates|] == candidates;
    forall id
      ensures id in ids <==> id != selected && HasCandidate(candidates, id)
    {
      OthersAreTheRest(candidates, selected, id);
    }
  }

  // ---------------------------------------------------------------- strategies

  const LOCAL_METADATA := "local_metadata"

  /** What a scorer answers: perhaps a candidate, or an error. */
  datatype Scored = Scored(best: Option<Candidate>) | ScorerFailed(error: string)

  datatype Decision = Decision(best: Option<Candidate>, fellBack: bool)

  /** The answer of the requested strategy if it is another one than the built-in and chooses;
      otherwise the built-in choice, which exists whenever there is a candidate. */
  ghost predicate Decides(requested: string, asked: Scored, candidates: seq<Candidate>, d: Decision)
  {
    if requested != LOCAL_METADATA && asked.Scored? && asked.best.Some? then d == Decision(asked.best, false)
    else
      && (d.best.Some? <==> candidates != []) && (d.best.Some? ==> IsBest(candidates, d.best.value))
      && d.fellBack == (requested != LOCAL_METADATA)
  }

  /** selectBestOfCandidate: `asked` is what a strategy other than the built-in one answers. */
  method SelectBestOfCandidate(requested: string, asked: Scored, candidates: seq<Candidate>) returns (d: Decision)
    ensures Decides(requested, asked, candidates, d)
  {
    var answer := asked;
    if requested == LOCAL_METADATA {
      var best := ScoreBestOfCandidate(candidates);
      answer := Scored(best);
    }
    if answer.Scored? && answer.best.Some? {
      return Decision(answer.best, false);
    }
    if requested == LOCAL_METADATA {
      return Decision(None, false);
    }
    var fallback := ScoreBestOfCandidate(candidates);
    d := Decision(fallback, true);
  }

  /** Whenever there is a candidate one is chosen; the built-in strategy takes the highest score, any
      other one decides itself, and the built-in one steps in if it fails or chooses nothing. */
  lemma DecisionMeans(requested: string, asked: Scored, candidates: seq<Candidate>, d: Decision)
    requires Decides(requested, asked, candidates, d)
    ensures candidates != [] ==> d.best.Some?
    ensures requested == "local_metadata" ==> !d.fellBack && (d.best.Some? ==> IsBest(candidates, d.best.value))
    ensures requested != "local_metadata" ==>
              (d.fellBack <==> asked.ScorerFailed? || asked.best.None?)
              && if d.fellBack then d.best.Some? ==> IsBest(candidates, d.best.value) else d.best == asked.best
    ensures candidates == [] && (requested == "local_metadata" || d.fellBack) ==> d.best.None?
  {
  }

  // ---------------------------------------------------------------- the effect

  /** The candidates are fresh drafts of one task. Stored ids carry no surrounding space. */
  ghost predicate FreshDrafts(db: Db, candidates: seq<Candidate>)
  {
    && (forall i :: 0 <= i < |candidates| ==> IsDraft(db, candidates[i].id))
    && forall i, j :: 0 <= i < |candidates| && 0 <= j < |candidates| ==>
         SameTask(db, candidates[i].id, candidates[j].id)
  }

  predicate SameTask(db: Db, a: Id, b: Id)
  {
    a in db.assets && b in db.assets && db.assets[a].task == db.assets[b].task
  }

  ghost predicate IsDraft(db: Db, id: Id)
  {
    Trim(id) == id && id != "" && Found(db, id) && db.assets[id].status == Draft
  }

  /** Exactly the chosen asset approved, every other candidate rejected, nothing else touched. */
  ghost predicate Settled(db: Db, d: Db, candidates: seq<Candidate>, best: Id)
  {
    && d.assets.Keys == db.assets.Keys
    && forall a :: a in db.assets ==>
         d.assets[a] == if a == best then db.assets[a].(status := Approved)
                        else if HasCandidate(candidates, a) then db.assets[a].(status := Rejected)
                        else db.assets[a]
  }

  lemma SettlesDrafts(db: Db, candidates: seq<Candidate>, best: Candidate, others: seq<Id>)
    requires FreshDrafts(db, candidates) && best in candidates
    requires forall id :: id in others <==> id != best.id && HasCandidate(candidates, id)
    ensures ApplyBestOf(db, best.id, others).Ok?
    ensures Settled(db, ApplyBestOf(db, best.id, others).value, candidates, best.id)
  {
    var b :| 0 <= b < |candidates| && candidates[b] == best;
    assert IsDraft(db, candidates[b].id);
    forall a
      ensures Rejectable(others, a) <==> a != best.id && HasCandidate(candidates, a)
      ensures Rejectable(others, a) ==> Found(db, a) && db.assets[a].task == db.assets[best.id].task && db.assets[a].status == Draft
    {
      RejectableDraft(db, candidates, b, others, a);
    }
    BestOfOnDraftsCommits(db, best.id, others);
    var approved := Transition(db, best.id, Approve).value;
    RejectAllOutcome(approved, others, db.assets[best.id].task, {best.id});
  }

  lemma RejectableDraft(db: Db, candidates: seq<Candidate>, b: nat, others: seq<Id>, a: Id)
    requires FreshDrafts(db, candidates) && b < |candidates|
    requires forall id :: id in others <==> id != candidates[b].id && HasCandidate(candidates, id)
    ensures Rejectable(others, a) <==> a != candidates[b].id && HasCandidate(candidates, a)
    ensures Rejectable(others, a) ==>
              Found(db, a) && db.assets[a].task == db.assets[candidates[b].id].task && db.assets[a].status == Draft
  {
    if Rejectable(others, a) {
      var i :| 0 <= i < |others| && Trim(others[i]) == a && a != "";
      assert others[i] in others;
      var k :| 0 <= k < |candidates| && candidates[k].id == others[i];
      assert IsDraft(db, candidates[k].id) && SameTask(db, candidates[k].id, candidates[b].id);
    }
    if a != candidates[b].id && HasCandidate(candidates, a) {
      var k :| 0 <= k < |candidates| && candidates[k].id == a;
      assert IsDraft(db, candidates[k].id) && a in others;
      var i :| 0 <= i < |others| && others[i] == a;
      assert Trim(others[i]) == a;
    }
  }

  /** What the selection of `best` does: with auto-reject on fresh drafts exactly the chosen asset
      ends approved and the other candidates rejected. */
  ghost predicate Effect(db: Db, d: Db, r: Outcome, candidates: seq<Candidate>, best: Candidate, autoReject: bool)
  {
    if !autoReject then
      && Commits(db, d, r, Review(db, best.id, Approve))
      && (Consistent(db) ==> ReviewOutcome(db, d, r, best.id, Approve))
    else
      && Commits(db, d, r, ApplyBestOf(db, best.id, OthersOf(candidates, best.id)))
      && (Consistent(db) ==> BestOfOutcome(db, d, r, best.id, OthersOf(candidates, best.id)))
      && (FreshDrafts(db, candidates) && best in candidates ==> r == Pass && Settled(db, d, candidates, best.id))
  }

  /** autoSelectBestAsset for a task with automatic selection: it carries out the decision, and
      commits as a whole or changes nothing. */
  method AutoSelectBestAsset(store: PostgresStore, requested: string, asked: Scored, candidates: seq<Candidate>, autoReject: bool)
      returns (d: Decision, r: Outcome)
    modifies store
    ensures Decides(requested, asked, candidates, d)
    ensures d.best.None? ==> r == Pass && store.db == old(store.db)
    ensures d.best.Some? ==> Effect(old(store.db), store.db, r, candidates, d.best.value, autoReject)
    ensures r != Pass ==> store.db == old(store.db)
  {
    d := SelectBestOfCandidate(requested, asked, candidates);
    if d.best.None? {
      return d, Pass;
    }
    if !autoReject {
      r := store.ReviewAsset(d.best.value.id, Approve);
    } else {
      var others := OtherCandidateIds(candidates, d.best.value.id);
      if FreshDrafts(store.db, candidates) && d.best.value in candidates {
        SettlesDrafts(store.db, candidates, d.best.value, others);
      }
      r := store.ApplyBestOfSelection(d.best.value.id, others);
    }
  }

  /** The statuses that best-of selection leaves do not depend on the order of the candidates. */
  lemma OutcomeIgnoresOrder(db: Db, d: Db, e: Db, a: seq<Candidate>, b: seq<Candidate>, x: Candidate, y: Candidate)
    requires multiset(a) == multiset(b) && IsBest(a, x) && IsBest(b, y)
    requires Settled(db, d, a, x.id) && Settled(db, e, b, y.id)
    ensures d.assets == e.assets
  {
    ChoiceIgnoresOrder(a, b, x, y);
    forall id
      ensures HasCandidate(a, id) <==> HasCandidate(b, id)
    {
      if HasCandidate(a, id) {
        SameCandidates(a, b, id);
      }
      if HasCandidate(b, id) {
        SameCandidates(b, a, id);
      }
    }
  }

  lemma SameCandidates(a: seq<Candidate>, b: seq<Candidate>, id: Id)
    requires multiset(a) == multiset(b) && HasCandidate(a, id)
    ensures HasCandidate(b, id)
  {
    var i :| 0 <= i < |a| && a[i].id == id;
    assert a[i] in multiset(a);
    assert a[i] in b;
  }
}
