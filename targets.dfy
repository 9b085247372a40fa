/**
 * The shootable targets: where `createTarget` places a new one, and how a
 * hit target is filtered out of `targets` by object identity.
 */
module Targets {
  import opened Geometry

  const ArenaHalfWidth: real := 5.0
  const TargetHeight: real := 0.5

  /**
   * A target sphere. Its identity is the object reference, as the source's
   * `t !== target` compares meshes; the core never moves a target, so its
   * position is constant.
   */
  class Target {
    const position: Vec3

    constructor (position: Vec3)
      ensures this.position == position
    {
      this.position := position;
    }
  }

  /** The two Math.random() draws behind a target's x and z. */
  datatype SpawnRoll = SpawnRoll(x: Unit, z: Unit)

  /** Inside the 10 x 10 square around the origin (half-open), at sphere height. */
  predicate InArena(p: Vec3) {
    && -ArenaHalfWidth <= p.x < ArenaHalfWidth
    && p.y == TargetHeight
    && -ArenaHalfWidth <= p.z < ArenaHalfWidth
  }

  /** `target.position.set(Math.random() * 10 - 5, 0.5, Math.random() * 10 - 5)` */
  function SpawnPoint(roll: SpawnRoll): (p: Vec3)
    ensures InArena(p)
  {
    Vec3(roll.x * 10.0 - 5.0, TargetHeight, roll.z * 10.0 - 5.0)
  }

  /** No target appears twice. */
  predicate Distinct(ts: seq<Target>) {
    forall i, j :: 0 <= i < j < |ts| ==> ts[i] != ts[j]
  }

  /**
   * `ts.filter(u => u !== t)`: every target other than `t`, in the original
   * order, and `t` no longer.
   */
  function Without(ts: seq<Target>, t: Target): (r: seq<Target>)
    ensures t !in r
    ensures forall i :: 0 <= i < |r| ==> r[i] in ts
    ensures forall i :: 0 <= i < |ts| && ts[i] != t ==> ts[i] in r
    ensures |r| <= |ts|
    decreases |ts|
  {
    if ts == [] then []
    else (if ts[0] == t then [] else [ts[0]]) + Without(ts[1..], t)
  }

  /** Filtering out a target that is not there changes nothing. */
  lemma {:induction false} WithoutAbsent(ts: seq<Target>, t: Target)
    requires t !in ts
    ensures Without(ts, t) == ts
    decreases |ts|
  {
    if ts != [] {
      assert t !in ts[1..];
      WithoutAbsent(ts[1..], t);
    }
  }

  /**
   * In a list without repeats, filtering out the target at index `k` removes
   * exactly that entry; the others keep their order.
   */
  lemma {:induction false} WithoutAt(ts: seq<Target>, k: nat)
    requires Distinct(ts)
    requires k < |ts|
    ensures Without(ts, ts[k]) == ts[..k] + ts[k + 1..]
    decreases |ts|
  {
    var t, rest := ts[k], ts[1..];
    if k == 0 {
      assert forall i :: 0 <= i < |rest| ==> rest[i] == ts[i + 1];
      assert t !in rest;
      WithoutAbsent(rest, t);
    } else {
      assert rest[k - 1] == t;
      assert ts[0] != t;
      WithoutAt(rest, k - 1);
      assert Without(ts, t) == [ts[0]] + Without(rest, t);
      assert rest[..k - 1] == ts[1..k];
      assert rest[k..] == ts[k + 1..];
      assert ts[..k] == [ts[0]] + ts[1..k];
    }
  }

  /**
   * Dropping one entry of a list without repeats leaves one entry fewer and
   * still no repeats.
   */
  lemma DistinctDelete(ts: seq<Target>, k: nat)
    requires Distinct(ts)
    requires k < |ts|
    ensures |ts[..k] + ts[k + 1..]| == |ts| - 1
    ensures Distinct(ts[..k] + ts[k + 1..])
  {
  }
}
