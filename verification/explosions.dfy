/** Explosion groups: how one is spawned, and how the particle phase of a
    frame moves, ages and culls them. */
module Explosions {
  import opened Entities

  /** The group spawn_heart_explosion appends: eight particles at (x, y), each
      with its own velocity and the full lifespan. */
  function HeartGroup(x: real, y: real, sparks: seq<Spark>): (g: seq<Particle>)
    requires ValidSparks(sparks)
    ensures |g| == SPARK_COUNT
    ensures forall p :: p in g ==>
      p.x == x && p.y == y && p.life == SPARK_LIFESPAN &&
      -SPARK_MAX_SPEED <= p.dx <= SPARK_MAX_SPEED && -SPARK_MAX_SPEED <= p.dy <= SPARK_MAX_SPEED
  {
    seq(SPARK_COUNT, k requires 0 <= k < SPARK_COUNT =>
      Particle(x, y, sparks[k].dx, sparks[k].dy, SPARK_LIFESPAN))
  }

  /** One particle after one frame: moved by its velocity, one frame older. */
  function Advanced(p: Particle): Particle {
    Particle(p.x + p.dx, p.y + p.dy, p.dx, p.dy, p.life - 1)
  }

  /** Every particle of a group moves by its velocity, keeps it, and loses
      one frame of lifespan. */
  function AdvanceGroup(g: seq<Particle>): (r: seq<Particle>)
    ensures |r| == |g|
    ensures forall k :: 0 <= k < |g| ==>
      r[k].x == g[k].x + g[k].dx && r[k].y == g[k].y + g[k].dy &&
      r[k].dx == g[k].dx && r[k].dy == g[k].dy && r[k].life == g[k].life - 1
  {
    seq(|g|, k requires 0 <= k < |g| => Advanced(g[k]))
  }

  /** Every group is advanced; no group or particle appears or vanishes. */
  function AdvanceAll(es: seq<seq<Particle>>): (r: seq<seq<Particle>>)
    ensures |r| == |es|
    ensures forall h :: 0 <= h < |es| ==> |r[h]| == |es[h]|
  {
    seq(|es|, h requires 0 <= h < |es| => AdvanceGroup(es[h]))
  }

  /** Advancing a group one particle further along. */
  lemma AdvanceGroupStep(g: seq<Particle>, k: nat)
    requires k < |g|
    ensures (AdvanceGroup(g[..k]) + g[k..])[k := Advanced(g[k])] == AdvanceGroup(g[..k + 1]) + g[k + 1..]
  {
    assert g[..k + 1][..k] == g[..k];
  }

  /** Advancing the groups one group further along. */
  lemma AdvanceAllStep(es: seq<seq<Particle>>, h: nat)
    requires h < |es|
    ensures (AdvanceAll(es[..h]) + es[h..])[h := AdvanceGroup(es[h])] == AdvanceAll(es[..h + 1]) + es[h + 1..]
  {
    assert es[..h + 1][..h] == es[..h];
  }

  /** [p for p in g if p[4] > 0]: exactly the particles of g still alive. */
  function Live(g: seq<Particle>): (r: seq<Particle>)
    ensures |r| <= |g|
    ensures forall p :: p in r <==> p in g && p.life > 0
  {
    if g == [] then []
    else (if g[0].life > 0 then [g[0]] else []) + Live(g[1..])
  }

  /** The filter keeps every live particle as often as the group holds it,
      and no other. */
  lemma {:induction false} LiveCount(g: seq<Particle>)
    ensures forall p :: multiset(Live(g))[p] == if p.life > 0 then multiset(g)[p] else 0
    decreases |g|
  {
    if g != [] {
      assert g == [g[0]] + g[1..];
      LiveCount(g[1..]);
    }
  }

  /** [[...] for g in es if g]: groups that are empty are dropped, the others
      keep only their live particles (and may become empty themselves). */
  function Cull(es: seq<seq<Particle>>): (r: seq<seq<Particle>>)
    ensures |r| <= |es|
    ensures forall g, p :: g in r && p in g ==> p.life > 0
  {
    if es == [] then []
    else (if es[0] == [] then [] else [Live(es[0])]) + Cull(es[1..])
  }

  /** The particle phase of a frame. */
  function ParticlePhase(es: seq<seq<Particle>>): (r: seq<seq<Particle>>)
    ensures |r| <= |es|
    ensures forall g, p :: g in r && p in g ==> p.life > 0
  {
    Cull(AdvanceAll(es))
  }

  lemma {:induction false} CullAppend(a: seq<seq<Particle>>, b: seq<seq<Particle>>)
    ensures Cull(a + b) == Cull(a) + Cull(b)
    decreases |a|
  {
    if a == [] {
      assert a + b == b;
    } else {
      var t := a + b;
      assert t[0] == a[0] && t[1..] == a[1..] + b;
      CullAppend(a[1..], b);
      assert Cull(t) == (if a[0] == [] then [] else [Live(a[0])]) + Cull(a[1..] + b);
    }
  }

  /** The particle phase treats each group on its own and keeps their order. */
  lemma ParticlePhaseAppend(a: seq<seq<Particle>>, b: seq<seq<Particle>>)
    ensures ParticlePhase(a + b) == ParticlePhase(a) + ParticlePhase(b)
  {
    assert AdvanceAll(a + b) == AdvanceAll(a) + AdvanceAll(b);
    CullAppend(AdvanceAll(a), AdvanceAll(b));
  }

  /** A group that was already empty when the frame began is dropped. */
  lemma EmptyGroupDropped(a: seq<seq<Particle>>, b: seq<seq<Particle>>)
    ensures ParticlePhase(a + [[]] + b) == ParticlePhase(a) + ParticlePhase(b)
  {
    ParticlePhaseAppend(a + [[]], b);
    ParticlePhaseAppend(a, [[]]);
    EmptyGroupPhase();
  }

  lemma EmptyGroupPhase()
    ensures ParticlePhase([[]]) == []
  {
    assert AdvanceAll([[]]) == [[]];
    assert Cull([[]]) == [] + Cull([]);
  }

  /** A non-empty group survives the frame as the group of its advanced live
      particles; if all of them expire now it survives as an empty group, to
      be dropped one frame later. */
  lemma NonEmptyGroupSurvives(a: seq<seq<Particle>>, g: seq<Particle>, b: seq<seq<Particle>>)
    requires g != []
    ensures ParticlePhase(a + [g] + b) ==
      ParticlePhase(a) + [Live(AdvanceGroup(g))] + ParticlePhase(b)
    ensures (forall p :: p in g ==> p.life <= 1) ==> Live(AdvanceGroup(g)) == []
  {
    ParticlePhaseAppend(a + [g], b);
    ParticlePhaseAppend(a, [g]);
    SingleGroupPhase(g);
    if forall p :: p in g ==> p.life <= 1 {
      GroupExpires(g);
    }
  }

  lemma SingleGroupPhase(g: seq<Particle>)
    requires g != []
    ensures ParticlePhase([g]) == [Live(AdvanceGroup(g))]
  {
    var h := AdvanceGroup(g);
    assert AdvanceAll([g]) == [h];
    assert h != [];
    assert Cull([h]) == [Live(h)] + Cull([h][1..]);
  }

  /** A group whose particles all have lifespan at most 1 has none left
      after one frame. */
  lemma GroupExpires(g: seq<Particle>)
    requires forall p :: p in g ==> p.life <= 1
    ensures Live(AdvanceGroup(g)) == []
  {
    var a := AdvanceGroup(g);
    forall q | q in a ensures q.life <= 0 {
      var k :| 0 <= k < |a| && a[k] == q;
      assert g[k] in g;
    }
    NoneAliveIsEmpty(a);
  }

  lemma {:induction false} NoneAliveIsEmpty(g: seq<Particle>)
    requires forall p :: p in g ==> p.life <= 0
    ensures Live(g) == []
    decreases |g|
  {
    if g != [] {
      assert g[0] in g;
      NoneAliveIsEmpty(g[1..]);
    }
  }

  /** Every particle of a group moves by its velocity and loses one frame of
      lifespan; it stays exactly when its lifespan is still positive, and
      nothing else appears. */
  lemma ParticleFate(g: seq<Particle>)
    ensures forall p :: p in g ==> (Advanced(p) in Live(AdvanceGroup(g)) <==> p.life > 1)
    ensures forall q :: q in Live(AdvanceGroup(g)) ==>
      q.life > 0 && exists p :: p in g && q == Advanced(p)
  {
    forall p | p in g
      ensures Advanced(p) in AdvanceGroup(g)
    {
      var k :| 0 <= k < |g| && g[k] == p;
      assert AdvanceGroup(g)[k] == Advanced(p);
    }
    forall q | q in Live(AdvanceGroup(g))
      ensures exists p :: p in g && q == Advanced(p)
    {
      assert q in AdvanceGroup(g);
      var k :| 0 <= k < |g| && AdvanceGroup(g)[k] == q;
      assert g[k] in g;
    }
  }
}
