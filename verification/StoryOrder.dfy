/** The orders of the batch summary (internal/store/postgres.go): tasks and assets by time and
    id, scenes by story, scene order and scene id. */
module StoryOrder {

  /** Go's order on strings. */
  predicate Before(a: string, b: string)
  {
    if b == "" then false
    else if a == "" then true
    else if a[0] != b[0] then a[0] < b[0]
    else Before(a[1..], b[1..])
  }

  /** They agree up to `k`, where the first one ends or has the smaller character. */
  predicate LessAt(a: string, b: string, k: nat)
  {
    && k <= |a| && k < |b| && a[..k] == b[..k]
    && (k == |a| || a[k] < b[k])
  }

  lemma {:induction false} BeforeIsLexicographic(a: string, b: string)
    ensures Before(a, b) <==> exists k: nat :: LessAt(a, b, k)
  {
    if b != "" {
      if a == "" {
        assert LessAt(a, b, 0);
      } else if a[0] != b[0] {
        assert Before(a, b) ==> LessAt(a, b, 0);
        forall k: nat | 0 < k <= |a| && k < |b|
          ensures a[..k] != b[..k]
        {
          assert a[..k][0] != b[..k][0];
        }
      } else {
        BeforeIsLexicographic(a[1..], b[1..]);
        forall k: nat | LessAt(a[1..], b[1..], k)
          ensures LessAt(a, b, k + 1)
        {
          assert a[..k + 1] == [a[0]] + a[1..][..k];
          assert b[..k + 1] == [b[0]] + b[1..][..k];
        }
        forall k: nat | LessAt(a, b, k)
          ensures k > 0 && LessAt(a[1..], b[1..], k - 1)
        {
          assert a[1..][..k - 1] == a[..k][1..];
          assert b[1..][..k - 1] == b[..k][1..];
        }
      }
    }
  }

  lemma {:induction false} BeforeIsTotal(a: string, b: string)
    ensures Before(a, b) || Before(b, a) || a == b
  {
    if a != "" && b != "" && a[0] == b[0] {
      BeforeIsTotal(a[1..], b[1..]);
      assert a[1..] == b[1..] ==> [a[0]] + a[1..] == [b[0]] + b[1..];
      assert [a[0]] + a[1..] == a && [b[0]] + b[1..] == b;
    }
  }

  lemma {:induction false} BeforeIsTransitive(a: string, b: string, c: string)
    requires Before(a, b) && Before(b, c)
    ensures Before(a, c)
  {
    if a != "" && a[0] == b[0] && b[0] == c[0] {
      BeforeIsTransitive(a[1..], b[1..], c[1..]);
    }
  }

  lemma {:induction false} BeforeIsStrict(a: string, b: string)
    requires Before(a, b)
    ensures !Before(b, a) && a != b
  {
    if a != "" && a[0] == b[0] {
      BeforeIsStrict(a[1..], b[1..]);
    }
  }

  // ---------------------------------------------------------------- the latest of some entries

  /** What tasks and selected assets are ranked by. */
  datatype Stamp = Stamp(time: nat, id: string)

  predicate Later(a: Stamp, b: Stamp)
  {
    a.time > b.time || (a.time == b.time && Before(b.id, a.id))
  }

  /** `id` names the one entry that is later than all others, or nothing if there is none. */
  ghost predicate IsLatest(stamps: seq<Stamp>, id: string)
  {
    if stamps == [] then id == ""
    else exists i :: LatestAt(stamps, i) && stamps[i].id == id
  }

  predicate LatestAt(stamps: seq<Stamp>, i: int)
  {
    0 <= i < |stamps| && forall j :: 0 <= j < |stamps| && j != i ==> Later(stamps[i], stamps[j])
  }

  predicate DistinctIds(stamps: seq<Stamp>)
  {
    && (forall i :: 0 <= i < |stamps| ==> stamps[i].id != "")
    && (forall i, j :: 0 <= i < j < |stamps| ==> stamps[i].id != stamps[j].id)
  }

  lemma LatestIsUnique(stamps: seq<Stamp>, a: string, b: string)
    requires IsLatest(stamps, a) && IsLatest(stamps, b)
    ensures a == b
  {
    if stamps != [] {
      var i :| LatestAt(stamps, i) && stamps[i].id == a;
      var j :| LatestAt(stamps, j) && stamps[j].id == b;
      if i != j {
        assert Later(stamps[i], stamps[j]) && Later(stamps[j], stamps[i]);
        if stamps[i].time == stamps[j].time {
          BeforeIsStrict(stamps[i].id, stamps[j].id);
        }
      }
    }
  }

  /** The running update: the latest of all but the last entry, replaced if the last is later. */
  lemma LatestOfMore(stamps: seq<Stamp>, latest: string, time: nat, s: Stamp, next: string)
    requires IsLatest(stamps, latest) && DistinctIds(stamps + [s])
    requires stamps != [] ==> exists i :: LatestAt(stamps, i) && stamps[i] == Stamp(time, latest)
    requires next == if stamps == [] || s.time > time || (s.time == time && Before(latest, s.id)) then s.id else latest
    ensures IsLatest(stamps + [s], next)
  {
    var all := stamps + [s];
    if stamps == [] {
      assert LatestAt(all, 0);
    } else {
      var i :| LatestAt(stamps, i) && stamps[i] == Stamp(time, latest);
      assert all[i] == stamps[i] && all[|stamps|] == s;
      assert s.id != latest by {
        assert all[i].id != all[|stamps|].id;
      }
      BeforeIsTotal(latest, s.id);
      if Later(s, stamps[i]) {
        forall j | 0 <= j < |stamps|
          ensures Later(s, stamps[j])
        {
          if j != i {
            LaterIsTransitive(s, stamps[i], stamps[j]);
          }
        }
        assert LatestAt(all, |stamps|);
      } else {
        assert LatestAt(all, i);
      }
    }
  }

  lemma LaterIsTransitive(a: Stamp, b: Stamp, c: Stamp)
    requires Later(a, b) && Later(b, c)
    ensures Later(a, c)
  {
    if a.time == b.time == c.time {
      BeforeIsTransitive(c.id, b.id, a.id);
    }
  }

  // ---------------------------------------------------------------- scenes

  /** What scenes are ordered by; order 0 means that no order is known. */
  datatype Place = Place(story: string, order: nat, scene: string)

  /** The comparison that the scenes are sorted with. */
  predicate Precedes(a: Place, b: Place)
  {
    if a.story != b.story then Before(a.story, b.story)
    else if a.order != b.order then
      if a.order == 0 then false
      else if b.order == 0 then true
      else a.order < b.order
    else Before(a.scene, b.scene)
  }

  lemma PrecedesIsStrict(a: Place, b: Place)
    requires Precedes(a, b)
    ensures !Precedes(b, a) && a != b
  {
    if a.story != b.story {
      BeforeIsStrict(a.story, b.story);
    } else if a.order == b.order {
      BeforeIsStrict(a.scene, b.scene);
    }
  }

  lemma PrecedesIsTransitive(a: Place, b: Place, c: Place)
    requires Precedes(a, b) && Precedes(b, c)
    ensures Precedes(a, c)
  {
    if a.story != b.story && b.story != c.story {
      BeforeIsTransitive(a.story, b.story, c.story);
      if a.story == c.story {
        BeforeIsStrict(a.story, b.story);
      }
    } else if a.story == b.story == c.story && a.order == b.order == c.order {
      BeforeIsTransitive(a.scene, b.scene, c.scene);
    }
  }

  /** Two scenes with different ids are always ordered one way or the other. */
  lemma PrecedesIsTotal(a: Place, b: Place)
    requires a.story != b.story || a.scene != b.scene
    ensures Precedes(a, b) || Precedes(b, a)
  {
    BeforeIsTotal(a.story, b.story);
    BeforeIsTotal(a.scene, b.scene);
  }
}
