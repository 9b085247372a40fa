# Simple Aim Labs: game-state model

This project models the game-state bookkeeping of the first-person
target-shooting game in `game.js`:

- the four movement flags that the keydown and keyup handlers set and clear;
- the yaw/pitch look angles that mousemove accumulates while the pointer is
  locked, with pitch clamped to [-pi/2, pi/2];
- the target list: `createTarget`, startup with five targets, and removal of
  a hit target by object identity;
- the explosion particle pool: `createExplosion` emits bursts of ten, and
  `updateExplosions` does its back-to-front splice walk;
- `shoot`, with its score, targets, burst and respawn bookkeeping, gated by
  the primary-button, pointer-locked mousedown handler;
- the per-frame `update`: it is gated by the lock, pins the player's height,
  sets the eye offset, and advances the particles on every frame.

The module-level variables (`score`, `targets`, `explosionParticles`,
`moveState`, `mouseX`, `mouseY`, the pointer-lock flag, the player and camera
positions) are the fields of one class, `Game.GameState`. Each event handler
or game function is a method of it. Each method names the fields it changes
in its `modifies` clause and states their new values. The pure rules those
methods follow are functions in `Input`, `Particles` and `Targets`. The
lemmas there prove the properties the game relies on.

Inputs from outside the core become parameters:

- Each `Math.random()` draw is a `Unit`, a real in [0, 1).
- The ray cast in `shoot` is an `Option<nat>`: the index in `targets` of the
  nearest target hit, or none.
- `setTimeout(createTarget, 1000)` becomes a counter of pending respawns. The
  `Respawn` method stands for the timer callback firing.
- The audio played in `shoot` becomes a log of cues.
- The camera's flattened forward vector and its right vector, which Three.js
  computes from the camera rotation, are parameters of `Update`.

Design notes:

- Particles are values in a sequence. The source's array of particle records
  is spliced in place. The proof of `UpdateExplosions` shows that its
  back-to-front walk gives the same result as a simple front-to-back
  definition, `Advanced`: every particle is stepped once, survivors keep
  their order, and no particle is skipped or stepped twice.
- Targets are objects with a constant position, identified by reference:
  `targets.filter(t => t !== target)` compares references, and the model
  keeps that identity. Filtering out a target that is not in the list is a
  no-op (`Targets.WithoutAbsent`).
- A new particle's velocity components lie in the half-open range
  [-0.1, 0.1), because `Math.random()` never returns 1.
- A respawn is a pending count that `Respawn` fires. `Update` never touches
  it.
- Each frame has its own `delta`, so repeated updates are stated over a
  sequence of per-frame deltas.

## Model

| member | source | states |
|---|---|---|
| `Input.KeyActionMatchesKeys` | game.js:107-113 | after `toLowerCase`, a key selects a movement exactly when it is that movement's letter in lower or upper case; every other key selects none |
| `Input.ApplyKey` | game.js:107-122 | a key event sets (down) or clears (up) the one flag bound to the key and leaves the other flags as they were; an unmapped key changes no flag |
| `Input.ReplayReflectsLatest` | game.js:106-122 | after any history of key events, each flag equals the most recent down/up event of its own keys, or its starting value if there was none; other keys never touch it |
| `Input.ClampPitch` | game.js:191 | the result lies in [-pi/2, pi/2]; it is the input when the input is in range, and otherwise the bound on the input's side |
| `Input.Turn` | game.js:189-191 | one locked mousemove changes yaw by exactly `-movementX * 0.002`; the new pitch lies in [-pi/2, pi/2] and is `pitch + movementY * 0.002` whenever that value is in range |
| `Input.TurnAllBounds` | game.js:187-193 | after any number of locked mousemoves, pitch is still in [-pi/2, pi/2], and yaw is unbounded: the start yaw minus 0.002 times the summed horizontal motion |
| `Particles.Spawned` | game.js:131-138 | a new particle starts at the burst origin with lifetime 1.0, opacity 1, and each velocity component in [-0.1, 0.1) |
| `Particles.Burst` | game.js:125-140 | a burst has one particle per draw, each at the origin with lifetime 1.0 and its velocity in the cube [-0.1, 0.1)^3 |
| `Particles.Advanced` | game.js:203-215 | after one update, the pool is no longer than before, and every remaining particle has positive lifetime with opacity equal to it (never negative) |
| `Particles.AdvancedAppend` | game.js:204-213 | updating a pool is updating its parts separately: one particle's removal never affects another, so none is skipped and survivors keep their relative order |
| `Particles.AdvancedAt` | game.js:204-213 | the particle at index i is kept (stepped) between the survivors before and after it exactly when its old lifetime minus `delta` is positive, and removed otherwise |
| `Particles.AdvancedSurvivorAt` | game.js:205-208 | a survivor moves by exactly its velocity, not scaled by `delta`; it keeps that velocity, loses exactly `delta` of lifetime, and shows its lifetime as opacity |
| `Particles.AdvancedLowers` | game.js:207 | if all lifetimes were at most L, all survivors' lifetimes are at most L - delta |
| `Particles.AdvancedKeepsSurvivors` | game.js:204-213 | if every particle outlives the frame, whatever their lifetimes, none is removed: the pool becomes each particle stepped, in the same order |
| `Particles.FramesExpire` | game.js:203-215 | a pool whose lifetimes are positive and at most L is empty once the frames' deltas add up to L |
| `Particles.FramesKeep` | game.js:203-215 | through frames of non-negative deltas, a pool with a common lifetime loses no particle while that lifetime minus the elapsed time is positive, and each has exactly that much left |
| `Particles.BurstLifetime` | game.js:125-140 | a burst updated at 0.1 seconds per frame still holds all its particles after nine frames and is empty after the tenth |
| `Targets.SpawnPoint` | game.js:95-99 | a new target has x and z in [-5, 5) and y = 0.5 |
| `Targets.Without` | game.js:161 | the filtered list no longer contains the hit target, is no longer than before, keeps every other target, and adds none |
| `Targets.WithoutAbsent` | game.js:161 | filtering out a target that is not in the list leaves the list unchanged |
| `Targets.WithoutAt` | game.js:161 | in a list without repeats, filtering out the target at index k removes exactly that entry and keeps the others in order |
| `Targets.DistinctDelete` | game.js:161 | removing one entry from a list without repeats leaves one entry fewer and still no repeats |
| `Game.MovedIsNetStep` | game.js:227-230 | a locked frame moves the player by the net forward/backward step of 0.1 along `forward` plus the net right/left step along `right`; opposite flags cancel, and the step does not depend on `delta` |
| `Game.GameState.constructor` | game.js:91-103 | startup: score 0, no particles, all flags clear, look angles 0, unlocked, and exactly five targets at the spawn points of their draws, all distinct and inside the arena |
| `Game.GameState.CreateTarget` | game.js:91-102 | appends exactly one new target at the spawn point of its two draws; the existing targets are untouched and in place |
| `Game.GameState.Respawn` | game.js:167 | the scheduled respawn fires: one pending respawn fewer and one new target appended, which keeps live + pending targets at five |
| `Game.GameState.OnKeyDown` | game.js:107-114 | the flags become `ApplyKey(old flags, key, true)`; nothing else changes |
| `Game.GameState.OnKeyUp` | game.js:115-122 | the flags become `ApplyKey(old flags, key, false)`; nothing else changes |
| `Game.GameState.OnPointerLockChange` | game.js:177-179 | the lock flag becomes whether the canvas now holds the pointer lock |
| `Game.GameState.OnMouseMove` | game.js:187-193 | unlocked: yaw and pitch are unchanged; locked: they become `Turn` of the old angles, so pitch stays in [-pi/2, pi/2] |
| `Game.GameState.CreateExplosion` | game.js:125-140 | appends exactly ten particles, `Burst` of the origin and the draws, after the existing ones, which are left untouched and in place |
| `Game.GameState.Shoot` | game.js:143-169 | miss: only the gunshot cue; score, targets, particles and pending respawns unchanged. Hit on target k: gunshot then hit cue, score +1, target k removed with the others kept in order, exactly ten particles at its position, exactly one respawn scheduled |
| `Game.GameState.OnMouseDown` | game.js:196-200 | the primary button while locked shoots, with `Shoot`'s effects; any other button, or no lock, changes nothing |
| `Game.GameState.UpdateExplosions` | game.js:203-215 | the back-to-front splice walk leaves exactly `Advanced(old pool, delta)`: each particle is visited once, and expired ones are removed in place |
| `Game.GameState.Update` | game.js:218-235 | locked: the camera rotation is (-pitch, yaw, 0), the player moves per the flags, player y = 1, and camera = player + (0, 1.6, 0); unlocked: player and camera unchanged; in both cases the particles advance |
| `Game.HitScenario` | game.js:143-169 | startup, lock, and a primary click whose ray meets the first target give score 1, four live targets, one pending respawn and ten particles; five live targets after the respawn fires |

## Left out

- The scene itself is not modelled. This covers the renderer, camera projection, lights, floor, skybox, meshes, materials and `scene.add`/`scene.remove` (game.js:10-88 and the scene calls elsewhere). It is declarative setup inside the rendering library. The model keeps only what the game stores about meshes: positions and a particle's opacity. `material.transparent = true` is not modelled.
- Audio is not modelled: the loading, looping background tracks and volumes (game.js:22-56). In `shoot`, the stop-then-play restart of the gunshot and hit sounds (game.js:145-146, 156-157) is recorded only as a cue in a log.
- The camera-rotation maths is not modelled: `getWorldDirection`, flattening and normalising the forward vector, and the cross product for the right vector (game.js:220-226). These are floating-point vector maths inside Three.js. `Update` takes the resulting `forward` and `right` vectors as parameters, and stores the Euler angles it sets.
- The ray cast is not modelled (game.js:148-151). It is a library call. `Shoot` receives only its result: the index of the nearest target hit, or none.
- The HUD text update (game.js:163-166), the click handler that requests pointer lock (game.js:174-176) and the resize handler (game.js:250-254) are not modelled. They are DOM input/output.
- The animation loop is not modelled: `requestAnimationFrame`, `performance.now()` and the `delta` computation (game.js:238-247). This is host scheduling, so `delta` is a parameter of `Update`. The real-time delay of `setTimeout` is also not modelled: a respawn is pending until `Respawn` is called, and the 1000 ms delay itself is not represented.
- `Math.random()` is not modelled. Its draws are parameters of type `Unit`, a real in [0, 1).
- Floating point is not modelled. Coordinates, lifetimes, deltas and angles are reals, so double rounding is not captured. For example, in doubles ten subtractions of 0.1 from 1.0 leave a tiny positive remainder, so a burst updated at 0.1 seconds per frame would last one frame longer than `Particles.BurstLifetime` states for reals. `Math.PI` is the real 3.141592653589793.
- `toLowerCase` is modelled only for the ASCII letters A-Z. No other character lower-cases to `w`, `s`, `a` or `d`, so which keys match is exact.
- Non-numeric mouse deltas (NaN) are not modelled.
