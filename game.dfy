/**
 * The module-level state of game.js gathered in one object, with one method
 * per event handler or game function that changes it: key and mouse
 * handlers, the pointer-lock flag, `createTarget`, `createExplosion`,
 * `shoot`, `updateExplosions` and the per-frame `update`.
 */
module Game {
  import opened Wrappers
  import opened Geometry
  import opened Input
  import opened Particles
  import opened Targets

  const InitialTargets: nat := 5
  const MovementSpeed: real := 0.1
  /** The player's y after every locked frame. */
  const PlayerHeight: real := 1.0
  /** The camera sits this far above the player. */
  const EyeOffset: Vec3 := Vec3(0.0, 1.6, 0.0)
  /** `event.button` of the primary (left) mouse button. */
  const PrimaryButton: int := 0

  /** The sounds `shoot` (re)starts, in the order it starts them. */
  datatype Cue = GunshotCue | HitCue

  function Nudge(p: Vec3, on: bool, d: Vec3): Vec3 {
    if on then Add(p, d) else p
  }

  /**
   * The four conditional `player.position.add(...)` calls of a locked frame;
   * `forward` is the camera's flattened forward vector and `right` the
   * normalised cross product with the up axis, both computed by the
   * rendering library from the camera rotation.
   */
  function Moved(p: Vec3, ms: MoveState, forward: Vec3, right: Vec3): Vec3 {
    var p1 := Nudge(p, ms.forward, Scale(forward, MovementSpeed));
    var p2 := Nudge(p1, ms.backward, Scale(forward, -MovementSpeed));
    var p3 := Nudge(p2, ms.left, Scale(right, -MovementSpeed));
    Nudge(p3, ms.right, Scale(right, MovementSpeed))
  }

  /**
   * The net step along `v` of a pair of opposite flags: none when both or
   * neither are held, otherwise 0.1 of `v` towards the held one.
   */
  function NetStep(v: Vec3, plus: bool, minus: bool): Vec3 {
    if plus == minus then Vec3(0.0, 0.0, 0.0)
    else if plus then Scale(v, MovementSpeed)
    else Scale(v, -MovementSpeed)
  }

  /**
   * A locked frame moves the player by the net forward/backward step along
   * `forward` plus the net right/left step along `right`: opposite flags
   * cancel, no flag means no movement, and the step does not depend on the
   * frame's duration.
   */
  lemma MovedIsNetStep(p: Vec3, ms: MoveState, forward: Vec3, right: Vec3)
    ensures Moved(p, ms, forward, right) ==
              Add(Add(p, NetStep(forward, ms.forward, ms.backward)), NetStep(right, ms.right, ms.left))
  {
  }

  /** `player.position.y = 1` */
  function Pinned(p: Vec3): Vec3 {
    p.(y := PlayerHeight)
  }

  class GameState {
    var score: nat
    var targets: seq<Target>
    var particles: seq<Particle>
    var moveState: MoveState
    var mouseX: real
    var mouseY: real
    var isLocked: bool
    var player: Vec3
    var camera: Vec3
    /** `camera.rotation` as (x, y, z) Euler angles in 'YXZ' order. */
    var cameraRotation: Vec3
    /** Respawns scheduled with `setTimeout(createTarget, 1000)` that have not fired yet. */
    var pendingRespawns: nat
    /** Every sound cue started so far, oldest first. */
    var cues: seq<Cue>

    /**
     * What every handler keeps: pitch inside [-pi/2, pi/2]; each live target
     * listed once and inside the arena; the five targets of startup are
     * either live or waiting for their respawn; every pooled particle has
     * lifetime left and shows it as its opacity.
     */
    ghost predicate Valid()
      reads this
    {
      && -HalfPi <= mouseY <= HalfPi
      && Distinct(targets)
      && (forall i :: 0 <= i < |targets| ==> InArena(targets[i].position))
      && |targets| + pendingRespawns == InitialTargets
      && (forall p :: p in particles ==> 0.0 < p.lifetime == p.opacity)
    }

    /** Startup: the initial values, then `for (let i = 0; i < 5; i++) createTarget();`. */
    constructor (rolls: seq<SpawnRoll>)
      requires |rolls| == InitialTargets
      ensures Valid()
      ensures score == 0 && pendingRespawns == 0 && particles == [] && cues == []
      ensures |targets| == InitialTargets
      ensures forall i :: 0 <= i < |targets| ==> targets[i].position == SpawnPoint(rolls[i])
      ensures moveState == Idle && mouseX == 0.0 && mouseY == 0.0 && !isLocked
      ensures player == Vec3(0.0, 0.0, 0.0) && camera == Vec3(0.0, 1.0, 5.0)
      ensures cameraRotation == Vec3(0.0, 0.0, 0.0)
    {
      score := 0;
      targets := [];
      particles := [];
      moveState := Idle;
      mouseX, mouseY := 0.0, 0.0;
      isLocked := false;
      player := Vec3(0.0, 0.0, 0.0);
      camera := Vec3(0.0, 1.0, 5.0);
      cameraRotation := Vec3(0.0, 0.0, 0.0);
      pendingRespawns := 0;
      cues := [];
      new;
      var i := 0;
      while i < InitialTargets
        modifies this`targets
        invariant 0 <= i <= InitialTargets
        invariant |targets| == i && Distinct(targets)
        invariant forall j :: 0 <= j < i ==> targets[j].position == SpawnPoint(rolls[j])
      {
        var t := CreateTarget(rolls[i]);
        i := i + 1;
      }
    }

    /**
     * `createTarget`: a new target at the spawn point the two samples give,
     * appended after the existing ones. Returning it is a convenience of the
     * model; the source keeps only the list entry.
     */
    method CreateTarget(roll: SpawnRoll) returns (t: Target)
      modifies this`targets
      ensures fresh(t) && t.position == SpawnPoint(roll)
      ensures targets == old(targets) + [t]
      ensures old(Distinct(targets)) ==> Distinct(targets)
    {
      t := new Target(SpawnPoint(roll));
      targets := targets + [t];
    }

    /** The `setTimeout(createTarget, 1000)` callback firing. */
    method Respawn(roll: SpawnRoll) returns (t: Target)
      requires Valid() && pendingRespawns > 0
      modifies this`targets, this`pendingRespawns
      ensures Valid()
      ensures pendingRespawns == old(pendingRespawns) - 1
      ensures fresh(t) && t.position == SpawnPoint(roll)
      ensures targets == old(targets) + [t]
    {
      t := CreateTarget(roll);
      pendingRespawns := pendingRespawns - 1;
    }

    /** The keydown handler. */
    method OnKeyDown(key: string)
      requires Valid()
      modifies this`moveState
      ensures Valid()
      ensures moveState == ApplyKey(old(moveState), key, true)
    {
      var k := ToLower(key);
      if k == "w" {
        moveState := moveState.(forward := true);
      } else if k == "s" {
        moveState := moveState.(backward := true);
      } else if k == "a" {
        moveState := moveState.(left := true);
      } else if k == "d" {
        moveState := moveState.(right := true);
      }
    }

    /** The keyup handler. */
    method OnKeyUp(key: string)
      requires Valid()
      modifies this`moveState
      ensures Valid()
      ensures moveState == ApplyKey(old(moveState), key, false)
    {
      var k := ToLower(key);
      if k == "w" {
        moveState := moveState.(forward := false);
      } else if k == "s" {
        moveState := moveState.(backward := false);
      } else if k == "a" {
        moveState := moveState.(left := false);
      } else if k == "d" {
        moveState := moveState.(right := false);
      }
    }

    /** The pointerlockchange handler: whether the canvas now holds the lock. */
    method OnPointerLockChange(lockedToCanvas: bool)
      requires Valid()
      modifies this`isLocked
      ensures Valid()
      ensures isLocked == lockedToCanvas
    {
      isLocked := lockedToCanvas;
    }

    /** The mousemove handler: look angles change only while locked. */
    method OnMouseMove(movementX: real, movementY: real)
      requires Valid()
      modifies this`mouseX, this`mouseY
      ensures Valid()
      ensures isLocked ==>
                Look(mouseX, mouseY) == Turn(Look(old(mouseX), old(mouseY)), MouseMove(movementX, movementY))
      ensures !isLocked ==> mouseX == old(mouseX) && mouseY == old(mouseY)
    {
      if isLocked {
        mouseX := mouseX - movementX * Sensitivity;
        mouseY := mouseY + movementY * Sensitivity;
        mouseY := ClampPitch(mouseY);
      }
    }

    /** `createExplosion(position)`: ten new particles after the existing ones. */
    method CreateExplosion(position: Vec3, sprays: seq<Spray>)
      requires |sprays| == ParticleCount
      modifies this`particles
      ensures particles == old(particles) + Burst(position, sprays)
      ensures |particles| == |old(particles)| + ParticleCount
    {
      var i := 0;
      while i < ParticleCount
        invariant 0 <= i <= ParticleCount
        invariant particles == old(particles) + Burst(position, sprays[..i])
      {
        assert Burst(position, sprays[..i + 1]) == Burst(position, sprays[..i]) + [Spawned(position, sprays[i])];
        particles := particles + [Spawned(position, sprays[i])];
        i := i + 1;
      }
      assert sprays[..ParticleCount] == sprays;
    }

    /**
     * Everything `shoot` changes besides the gunshot cue: on a miss nothing;
     * on a hit of `targets[k]`, the hit cue, a burst at that target, its
     * removal, one more point and one scheduled respawn.
     */
    twostate predicate ShotResolved(hit: Option<nat>, sprays: seq<Spray>)
      reads this
    {
      match hit
      case None =>
        && cues == old(cues) + [GunshotCue]
        && score == old(score)
        && targets == old(targets)
        && particles == old(particles)
        && pendingRespawns == old(pendingRespawns)
      case Some(k) =>
        && k < |old(targets)|
        && cues == old(cues) + [GunshotCue, HitCue]
        && score == old(score) + 1
        && targets == Without(old(targets), old(targets)[k])
        && targets == old(targets)[..k] + old(targets)[k + 1..]
        && particles == old(particles) + Burst(old(targets)[k].position, sprays)
        && pendingRespawns == old(pendingRespawns) + 1
    }

    /**
     * `shoot`. The ray cast is the caller's: `hit` is the index in `targets`
     * of the nearest intersected target, or None when the ray meets none.
     */
    method Shoot(hit: Option<nat>, sprays: seq<Spray>)
      requires Valid()
      requires hit.Some? ==> hit.value < |targets|
      requires |sprays| == ParticleCount
      modifies this`score, this`targets, this`particles, this`pendingRespawns, this`cues
      ensures Valid()
      ensures ShotResolved(hit, sprays)
    {
      cues := cues + [GunshotCue];
      if hit.Some? {
        var target := targets[hit.value];
        cues := cues + [HitCue];
        CreateExplosion(target.position, sprays);
        WithoutAt(targets, hit.value);
        DistinctDelete(targets, hit.value);
        targets := Without(targets, target);
        score := score + 1;
        pendingRespawns := pendingRespawns + 1;
      }
    }

    /** The mousedown handler: the primary button shoots, and only while locked. */
    method OnMouseDown(button: int, hit: Option<nat>, sprays: seq<Spray>)
      requires Valid()
      requires hit.Some? ==> hit.value < |targets|
      requires |sprays| == ParticleCount
      modifies this`score, this`targets, this`particles, this`pendingRespawns, this`cues
      ensures Valid()
      ensures button == PrimaryButton && isLocked ==> ShotResolved(hit, sprays)
      ensures !(button == PrimaryButton && isLocked) ==> unchanged(this)
    {
      if button == PrimaryButton && isLocked {
        Shoot(hit, sprays);
      }
    }

    /**
     * `updateExplosions(delta)`: the back-to-front walk that steps each
     * particle and splices out, in place, those whose lifetime ran out.
     */
    method UpdateExplosions(delta: real)
      modifies this`particles
      ensures particles == Advanced(old(particles), delta)
    {
      ghost var original := particles;
      var i := |particles| - 1;
      while i >= 0
        invariant -1 <= i < |original|
        invariant particles == original[..i + 1] + Advanced(original[i + 1..], delta)
        decreases i
      {
        assert particles[i] == original[i];
        var pData := particles[i];
        pData := pData.(position := Add(pData.position, pData.velocity));
        pData := pData.(lifetime := pData.lifetime - delta);
        pData := pData.(opacity := if 0.0 < pData.lifetime then pData.lifetime else 0.0);
        assert pData == Step(original[i], delta);
        assert original[i..][1..] == original[i + 1..];
        assert original[..i + 1] == original[..i] + [original[i]];
        if pData.lifetime <= 0.0 {
          particles := particles[..i] + particles[i + 1..];
        } else {
          particles := particles[i := pData];
        }
        i := i - 1;
      }
      assert original[0..] == original;
    }

    /**
     * `update(delta)`: while locked, aim the camera from the look angles, move
     * the player, pin its height and put the camera at eye height above it;
     * locked or not, advance the particles.
     */
    method Update(delta: real, forward: Vec3, right: Vec3)
      requires Valid()
      modifies this`player, this`camera, this`cameraRotation, this`particles
      ensures Valid()
      ensures isLocked ==>
                && cameraRotation == Vec3(-mouseY, mouseX, 0.0)
                && player == Pinned(Moved(old(player), moveState, forward, right))
                && player.y == PlayerHeight
                && camera == Add(player, EyeOffset)
      ensures !isLocked ==>
                player == old(player) && camera == old(camera) && cameraRotation == old(cameraRotation)
      ensures particles == Advanced(old(particles), delta)
    {
      if isLocked {
        cameraRotation := Vec3(-mouseY, mouseX, 0.0);
        if moveState.forward {
          player := Add(player, Scale(forward, MovementSpeed));
        }
        if moveState.backward {
          player := Add(player, Scale(forward, -MovementSpeed));
        }
        if moveState.left {
          player := Add(player, Scale(right, -MovementSpeed));
        }
        if moveState.right {
          player := Add(player, Scale(right, MovementSpeed));
        }
        player := player.(y := PlayerHeight);
        camera := Add(player, EyeOffset);
      }
      UpdateExplosions(delta);
    }
  }

  /**
   * Startup, lock, one primary click whose ray meets the first target, then
   * the respawn: the score goes from 0 to 1, the hit target leaves the list
   * while its respawn is pending, ten particles appear at its position, and
   * the population is back to five once the respawn fires.
   */
  method HitScenario(rolls: seq<SpawnRoll>, sprays: seq<Spray>, again: SpawnRoll)
    returns (score: nat, liveAfterHit: nat, pending: nat, sparks: nat, liveAfterRespawn: nat)
    requires |rolls| == InitialTargets && |sprays| == ParticleCount
    ensures score == 1
    ensures liveAfterHit == InitialTargets - 1 && pending == 1
    ensures sparks == ParticleCount
    ensures liveAfterRespawn == InitialTargets
  {
    var game := new GameState(rolls);
    game.OnPointerLockChange(true);
    var first := game.targets[0];
    game.OnMouseDown(PrimaryButton, Some(0), sprays);
    assert first !in game.targets;
    score, liveAfterHit, pending, sparks := game.score, |game.targets|, game.pendingRespawns, |game.particles|;
    var t := game.Respawn(again);
    liveAfterRespawn := |game.targets|;
  }
}
