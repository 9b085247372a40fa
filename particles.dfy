/**
 * Explosion particles: the burst `createExplosion` emits at a hit, and what
 * one call of `updateExplosions(delta)` does to the whole pool.
 */
module Particles {
  import opened Geometry

  const ParticleCount: nat := 10
  const InitialLifetime: real := 1.0
  /** Each velocity component is `(Math.random() - 0.5) * Spread`. */
  const Spread: real := 0.2

  /**
   * One entry of `explosionParticles`: the mesh's position and opacity, the
   * velocity vector, and the remaining lifetime in seconds.
   */
  datatype Particle = Particle(position: Vec3, velocity: Vec3, lifetime: real, opacity: real)

  /** The three Math.random() draws behind one particle's velocity. */
  datatype Spray = Spray(x: Unit, y: Unit, z: Unit)

  predicate InSprayCube(v: Vec3) {
    && -0.1 <= v.x < 0.1
    && -0.1 <= v.y < 0.1
    && -0.1 <= v.z < 0.1
  }

  function Jitter(u: Unit): (v: real)
    ensures -0.1 <= v < 0.1
  {
    (u - 0.5) * Spread
  }

  /**
   * A freshly emitted particle: at the origin, with a velocity inside the
   * half-open cube [-0.1, 0.1)^3, lifetime 1.0 and the material's default
   * opacity 1.
   */
  function Spawned(origin: Vec3, s: Spray): (p: Particle)
    ensures p.position == origin && p.lifetime == InitialLifetime && p.opacity == 1.0
    ensures InSprayCube(p.velocity)
  {
    Particle(origin, Vec3(Jitter(s.x), Jitter(s.y), Jitter(s.z)), InitialLifetime, 1.0)
  }

  /** The particles one burst appends, in emission order. */
  function Burst(origin: Vec3, sprays: seq<Spray>): (r: seq<Particle>)
    ensures |r| == |sprays|
    ensures forall p :: p in r ==>
              p.position == origin && p.lifetime == InitialLifetime && InSprayCube(p.velocity)
  {
    seq(|sprays|, i requires 0 <= i < |sprays| => Spawned(origin, sprays[i]))
  }

  /**
   * One particle's update in one frame: it moves by its whole velocity (the
   * step is not scaled by `delta`), loses `delta` of lifetime, and its
   * opacity becomes `Math.max(0, lifetime)`.
   */
  function Step(p: Particle, delta: real): Particle {
    var lifetime := p.lifetime - delta;
    Particle(Add(p.position, p.velocity), p.velocity, lifetime, if 0.0 < lifetime then lifetime else 0.0)
  }

  /** A particle stays in the pool when its lifetime after this frame is positive. */
  predicate Survives(p: Particle, delta: real) {
    p.lifetime - delta > 0.0
  }

  /**
   * The pool after one `updateExplosions(delta)`, stated front to back: every
   * particle is stepped once, the ones that survive are kept in their
   * original order, the rest are dropped. All survivors have positive
   * lifetime, and their opacity equals it.
   */
  function Advanced(ps: seq<Particle>, delta: real): (r: seq<Particle>)
    ensures |r| <= |ps|
    ensures forall q :: q in r ==> 0.0 < q.lifetime && q.opacity == q.lifetime
    decreases |ps|
  {
    if ps == [] then []
    else (if Survives(ps[0], delta) then [Step(ps[0], delta)] else []) + Advanced(ps[1..], delta)
  }

  /** Advancing a pool is advancing each part of it: no particle affects another. */
  lemma {:induction false} AdvancedAppend(ps: seq<Particle>, qs: seq<Particle>, delta: real)
    ensures Advanced(ps + qs, delta) == Advanced(ps, delta) + Advanced(qs, delta)
    decreases |ps|
  {
    if ps == [] {
      assert ps + qs == qs;
    } else {
      assert (ps + qs)[1..] == ps[1..] + qs;
      AdvancedAppend(ps[1..], qs, delta);
    }
  }

  /**
   * The fate of the particle at index `i` is decided by its own lifetime
   * alone: it is stepped and kept, between the survivors before it and the
   * survivors after it, exactly when its lifetime minus `delta` is positive.
   */
  lemma AdvancedAt(ps: seq<Particle>, delta: real, i: nat)
    requires i < |ps|
    ensures Advanced(ps, delta) ==
              Advanced(ps[..i], delta)
              + (if Survives(ps[i], delta) then [Step(ps[i], delta)] else [])
              + Advanced(ps[i + 1..], delta)
  {
    assert ps == ps[..i] + ps[i..];
    AdvancedAppend(ps[..i], ps[i..], delta);
    assert ps[i..][1..] == ps[i + 1..];
  }

  /**
   * A particle that survives the frame is the next entry after the
   * survivors before it, moved by exactly its velocity, with the same
   * velocity, exactly `delta` less lifetime, and that lifetime as opacity.
   */
  lemma AdvancedSurvivorAt(ps: seq<Particle>, delta: real, i: nat)
    requires i < |ps| && Survives(ps[i], delta)
    ensures |Advanced(ps[..i], delta)| < |Advanced(ps, delta)|
    ensures var q := Advanced(ps, delta)[|Advanced(ps[..i], delta)|];
            && q.position == Add(ps[i].position, ps[i].velocity)
            && q.velocity == ps[i].velocity
            && q.lifetime == ps[i].lifetime - delta
            && q.opacity == q.lifetime
  {
    AdvancedAt(ps, delta, i);
  }

  /** If every particle had lifetime at most `limit`, every survivor has at most `limit - delta`. */
  lemma {:induction false} AdvancedLowers(ps: seq<Particle>, delta: real, limit: real)
    requires forall p :: p in ps ==> p.lifetime <= limit
    ensures forall q :: q in Advanced(ps, delta) ==> q.lifetime <= limit - delta
    decreases |ps|
  {
    if ps != [] {
      assert forall p :: p in ps[1..] ==> p in ps;
      AdvancedLowers(ps[1..], delta, limit);
    }
  }

  /**
   * If every particle outlives the frame, whatever their lifetimes, none is
   * dropped: the pool becomes each particle stepped, in the same order.
   */
  lemma {:induction false} AdvancedKeepsSurvivors(ps: seq<Particle>, delta: real)
    requires forall p :: p in ps ==> Survives(p, delta)
    ensures Advanced(ps, delta) == seq(|ps|, i requires 0 <= i < |ps| => Step(ps[i], delta))
    decreases |ps|
  {
    if ps != [] {
      assert forall p :: p in ps[1..] ==> p in ps;
      AdvancedKeepsSurvivors(ps[1..], delta);
      assert ps[0] in ps;
    }
  }

  /** The total time of a run of frames. */
  function Sum(deltas: seq<real>): real
    decreases |deltas|
  {
    if deltas == [] then 0.0 else deltas[0] + Sum(deltas[1..])
  }

  lemma {:induction false} SumNonNegative(deltas: seq<real>)
    requires forall i :: 0 <= i < |deltas| ==> deltas[i] >= 0.0
    ensures Sum(deltas) >= 0.0
    decreases |deltas|
  {
    if deltas != [] {
      SumNonNegative(deltas[1..]);
    }
  }

  /**
   * The pool after consecutive `updateExplosions` calls, one per frame, with
   * that frame's `delta` (each `animate` call measures its own).
   */
  function Frames(ps: seq<Particle>, deltas: seq<real>): seq<Particle>
    decreases |deltas|
  {
    if deltas == [] then ps else Frames(Advanced(ps, deltas[0]), deltas[1..])
  }

  /** An empty pool stays empty. */
  lemma {:induction false} FramesOfEmpty(deltas: seq<real>)
    ensures Frames([], deltas) == []
    decreases |deltas|
  {
    if deltas != [] {
      FramesOfEmpty(deltas[1..]);
    }
  }

  /**
   * A pool whose live particles all have lifetime at most `limit` is empty
   * once the frames' deltas add up to at least `limit`.
   */
  lemma {:induction false} FramesExpire(ps: seq<Particle>, deltas: seq<real>, limit: real)
    requires forall p :: p in ps ==> 0.0 < p.lifetime <= limit
    requires Sum(deltas) >= limit
    ensures Frames(ps, deltas) == []
    decreases |deltas|
  {
    if ps == [] {
      FramesOfEmpty(deltas);
    } else {
      assert ps[0] in ps;
      assert deltas != [];
      AdvancedLowers(ps, deltas[0], limit);
      FramesExpire(Advanced(ps, deltas[0]), deltas[1..], limit - deltas[0]);
    }
  }

  /**
   * A pool of particles with a common lifetime keeps all of them, through
   * frames of non-negative deltas, as long as that lifetime minus the
   * elapsed time is positive; each has exactly that much lifetime left.
   */
  lemma {:induction false} FramesKeep(ps: seq<Particle>, deltas: seq<real>, life: real)
    requires forall i :: 0 <= i < |deltas| ==> deltas[i] >= 0.0
    requires forall p :: p in ps ==> p.lifetime == life
    requires life - Sum(deltas) > 0.0
    ensures |Frames(ps, deltas)| == |ps|
    ensures forall q :: q in Frames(ps, deltas) ==> q.lifetime == life - Sum(deltas)
    decreases |deltas|
  {
    if deltas != [] {
      var delta, rest := deltas[0], deltas[1..];
      SumNonNegative(rest);
      AdvancedKeepsSurvivors(ps, delta);
      var next := Advanced(ps, delta);
      assert forall q :: q in next ==> q.lifetime == life - delta;
      FramesKeep(next, rest, life - delta);
    }
  }

  /** `n` frames of `delta` seconds each. */
  function Repeat(delta: real, n: nat): seq<real> {
    seq(n, _ => delta)
  }

  lemma {:induction false} SumRepeat(delta: real, n: nat)
    ensures Sum(Repeat(delta, n)) == n as real * delta
    decreases n
  {
    if n > 0 {
      assert Repeat(delta, n)[1..] == Repeat(delta, n - 1);
      SumRepeat(delta, n - 1);
    }
  }

  /**
   * A burst updated at 0.1 seconds per frame is still whole after nine
   * frames and gone on the tenth.
   */
  lemma BurstLifetime(origin: Vec3, sprays: seq<Spray>)
    ensures |Frames(Burst(origin, sprays), Repeat(0.1, 9))| == |sprays|
    ensures Frames(Burst(origin, sprays), Repeat(0.1, 10)) == []
  {
    var burst, nine, ten := Burst(origin, sprays), Repeat(0.1, 9), Repeat(0.1, 10);
    SumRepeat(0.1, 9);
    assert Sum(nine) == 0.9;
    assert forall i :: 0 <= i < |nine| ==> nine[i] >= 0.0;
    FramesKeep(burst, nine, InitialLifetime);
    SumRepeat(0.1, 10);
    assert Sum(ten) == 1.0;
    FramesExpire(burst, ten, InitialLifetime);
  }
}
