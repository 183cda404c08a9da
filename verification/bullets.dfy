/** Bullets: removal by value (list.remove) and the bullet phase of a frame,
    in which every bullet climbs and those past the top edge are dropped. */
module Bullets {
  import opened Entities

  /** bullets.remove(b): drop the first element equal to b. */
  function RemoveFirst(s: seq<Bullet>, b: Bullet): (r: seq<Bullet>)
    requires b in s
    ensures |r| == |s| - 1
  {
    assert s == [s[0]] + s[1..];
    if s[0] == b then s[1..] else [s[0]] + RemoveFirst(s[1..], b)
  }

  /** Removal by value takes out exactly one occurrence of b. */
  lemma {:induction false} RemoveFirstCount(s: seq<Bullet>, b: Bullet)
    requires b in s
    ensures multiset(RemoveFirst(s, b)) == multiset(s) - multiset{b}
  {
    assert s == [s[0]] + s[1..];
    if s[0] != b {
      assert b in s[1..];
      RemoveFirstCount(s[1..], b);
    }
  }

  /** Removing by value removes position k when k is where b first occurs. */
  lemma {:induction false} RemoveFirstAt(s: seq<Bullet>, k: nat, b: Bullet)
    requires k < |s| && s[k] == b
    requires forall j :: 0 <= j < k ==> s[j] != b
    ensures RemoveFirst(s, b) == s[..k] + s[k + 1..]
    decreases k
  {
    if k == 0 {
      assert s[..0] + s[1..] == s[1..];
    } else {
      var t := s[1..];
      assert RemoveFirst(s, b) == [s[0]] + RemoveFirst(t, b) by {
        assert s[0] != b;
      }
      assert forall j :: 0 <= j < k - 1 ==> t[j] != b by {
        forall j | 0 <= j < k - 1
          ensures t[j] != b
        {
          assert t[j] == s[j + 1];
        }
      }
      RemoveFirstAt(t, k - 1, b);
      assert [s[0]] + (t[..k - 1] + t[k..]) == s[..k] + s[k + 1..] by {
        assert t[..k - 1] == s[1..k] && t[k..] == s[k + 1..];
        assert [s[0]] + s[1..k] == s[..k];
      }
    }
  }

  /** One bullet after one frame. */
  function Climbed(b: Bullet): (r: Bullet)
    ensures r.x == b.x && r.y < b.y && b.y - r.y == BULLET_SPEED
  {
    Bullet(b.x, b.y - BULLET_SPEED)
  }

  /** The bullet phase of a frame on the bullet list. */
  function BulletPhase(bs: seq<Bullet>): (r: seq<Bullet>)
    ensures |r| <= |bs|
    ensures forall b :: b in r ==> b.y > 0
    decreases |bs|
  {
    if bs == [] then []
    else
      var last := Climbed(bs[|bs| - 1]);
      BulletPhase(bs[..|bs| - 1]) + (if last.y > 0 then [last] else [])
  }

  /** The bullet phase creates no bullet: every survivor is a bullet of the
      list that climbed by exactly the bullet speed. */
  lemma {:induction false} BulletPhaseFrom(bs: seq<Bullet>)
    ensures forall b :: b in BulletPhase(bs) ==> Bullet(b.x, b.y + BULLET_SPEED) in bs
    decreases |bs|
  {
    if bs != [] {
      var front := bs[..|bs| - 1];
      BulletPhaseFrom(front);
      assert forall b :: b in front ==> b in bs;
    }
  }

  /** One iteration of the bullet loop, on a list whose first n entries are
      the survivors so far and whose rest is not yet visited: the bullet at
      position n climbs in place and, if it reached the top edge, is removed
      by value, which removes it at position n. */
  lemma BulletLoopStep(snap: seq<Bullet>, i: nat)
    requires i < |snap|
    ensures var p := BulletPhase(snap[..i]);
      var moved := Climbed(snap[i]);
      var cur := (p + snap[i..])[|p| := moved];
      var next := BulletPhase(snap[..i + 1]) + snap[i + 1..];
      (moved.y > 0 ==> cur == next && |BulletPhase(snap[..i + 1])| == |p| + 1) &&
      (moved.y <= 0 ==> moved in cur && RemoveFirst(cur, moved) == next && |BulletPhase(snap[..i + 1])| == |p|)
  {
    var p := BulletPhase(snap[..i]);
    var moved := Climbed(snap[i]);
    var cur := (p + snap[i..])[|p| := moved];
    var front := snap[..i + 1];
    assert front[..|front| - 1] == snap[..i] && front[|front| - 1] == snap[i];
    assert BulletPhase(front) == p + (if moved.y > 0 then [moved] else []);
    assert snap[i..] == [snap[i]] + snap[i + 1..];
    assert cur == p + [moved] + snap[i + 1..];
    if moved.y <= 0 {
      forall j | 0 <= j < |p|
        ensures cur[j] != moved
      {
        assert cur[j] == p[j] && p[j] in p;
      }
      RemoveFirstAt(cur, |p|, moved);
      assert cur[..|p|] == p;
      assert cur[|p| + 1..] == snap[i + 1..];
    }
  }

  /** The positions, in increasing order, of the bullets that survive. */
  function Survivors(bs: seq<Bullet>): seq<nat>
    decreases |bs|
  {
    if bs == [] then []
    else
      Survivors(bs[..|bs| - 1]) + (if Climbed(bs[|bs| - 1]).y > 0 then [|bs| - 1] else [])
  }

  /** Survivor positions are in range and strictly increasing. */
  lemma {:induction false} SurvivorsOrdered(bs: seq<Bullet>)
    ensures forall k :: 0 <= k < |Survivors(bs)| ==> Survivors(bs)[k] < |bs|
    ensures forall k, l :: 0 <= k < l < |Survivors(bs)| ==> Survivors(bs)[k] < Survivors(bs)[l]
    decreases |bs|
  {
    if bs != [] {
      SurvivorsOrdered(bs[..|bs| - 1]);
    }
  }

  /** A position survives exactly when its bullet is still below the top
      edge after climbing. */
  lemma {:induction false} SurvivorsExact(bs: seq<Bullet>)
    ensures forall j :: 0 <= j < |bs| ==> (j in Survivors(bs) <==> bs[j].y - BULLET_SPEED > 0)
    decreases |bs|
  {
    if bs != [] {
      var n := |bs| - 1;
      var front := bs[..n];
      SurvivorsExact(front);
      SurvivorsOrdered(front);
      forall j | 0 <= j < |bs|
        ensures j in Survivors(bs) <==> bs[j].y - BULLET_SPEED > 0
      {
        if j < n {
          assert front[j] == bs[j];
        }
      }
    }
  }

  /** The k-th surviving bullet is the bullet at the k-th survivor position,
      with the same x and a y smaller by exactly the bullet speed. */
  lemma {:induction false} SurvivorsMoved(bs: seq<Bullet>)
    ensures |BulletPhase(bs)| == |Survivors(bs)|
    ensures forall k :: 0 <= k < |Survivors(bs)| ==>
      Survivors(bs)[k] < |bs| &&
      BulletPhase(bs)[k] == Bullet(bs[Survivors(bs)[k]].x, bs[Survivors(bs)[k]].y - BULLET_SPEED)
    decreases |bs|
  {
    if bs != [] {
      var n := |bs| - 1;
      var front := bs[..n];
      SurvivorsMoved(front);
      SurvivorsOrdered(front);
      forall k | 0 <= k < |Survivors(front)|
        ensures bs[Survivors(front)[k]] == front[Survivors(front)[k]]
      {
      }
    }
  }

  /** The bullet phase keeps, in their original order, exactly the bullets
      whose y after climbing is still positive; each keeps its x and has
      climbed by exactly the bullet speed. */
  lemma BulletPhaseSelects(bs: seq<Bullet>)
    ensures |BulletPhase(bs)| == |Survivors(bs)|
    ensures forall k :: 0 <= k < |Survivors(bs)| ==>
      Survivors(bs)[k] < |bs| &&
      BulletPhase(bs)[k] == Bullet(bs[Survivors(bs)[k]].x, bs[Survivors(bs)[k]].y - BULLET_SPEED)
    ensures forall k, l :: 0 <= k < l < |Survivors(bs)| ==> Survivors(bs)[k] < Survivors(bs)[l]
    ensures forall j :: 0 <= j < |bs| ==> (j in Survivors(bs) <==> bs[j].y - BULLET_SPEED > 0)
  {
    SurvivorsOrdered(bs);
    SurvivorsExact(bs);
    SurvivorsMoved(bs);
  }
}
