/** The kiss-shooting game of `Game.tsx`: projectiles fly from the rabbit towards the bear,
    a projectile inside the bear's hit circle scores a kiss (at most one per 800 ms), each
    counted kiss sprays a burst of emoji particles, and ten kisses start the celebration.
    Screen size, clocks and `Math.random()` draws are parameters. */
module KissGame {
  import opened Sequences
  import opened FrameClock

  const TARGET_KISSES: nat := 10
  const HIT_COOLDOWN: int := 800       // ms between two counted hits
  const COMBO_WINDOW: int := 2000      // ms after the last combo change before it resets
  const PROJECTILE_SPEED: real := 6.0  // px per frame
  const HIT_RADIUS: real := 60.0       // px around the bear's anchor
  const GRAVITY: real := 0.5           // added to a particle's vy each frame
  const LIFE_DECAY: real := 0.015      // taken from a particle's life each frame
  const BEAR_INSET: real := 100.0      // the bear sits this far left of the right edge
  const SPAWN_X: real := 150.0         // x at which a new projectile leaves the rabbit
  const COMBO_BURST: nat := 25
  const PLAIN_BURST: nat := 15

  datatype Projectile = Projectile(id: real, x: real, y: real)

  datatype Particle = Particle(id: real, x: real, y: real, vx: real, vy: real, life: real, emoji: string)

  /** The four `Math.random()` values one spawned particle consumes, in call order. */
  datatype Draw = Draw(id: real, vx: real, vy: real, pick: real)

  predicate IsUnit(r: real) { 0.0 <= r < 1.0 }

  predicate ValidDraw(d: Draw) { IsUnit(d.id) && IsUnit(d.vx) && IsUnit(d.vy) && IsUnit(d.pick) }

  /** Enough well-formed random draws for the largest burst. */
  predicate RandomSource(draws: seq<Draw>) {
    |draws| >= COMBO_BURST && forall k :: 0 <= k < |draws| ==> ValidDraw(draws[k])
  }

  function BearX(width: real): real { width - BEAR_INSET }

  function BearY(height: real): real { height / 2.0 }

  /** The circular hit test `Math.sqrt(dx*dx + dy*dy) < 60`, squared. */
  predicate Hits(p: Projectile, bearX: real, bearY: real) {
    (p.x - bearX) * (p.x - bearX) + (p.y - bearY) * (p.y - bearY) < HIT_RADIUS * HIT_RADIUS
  }

  // ---------------------------------------------------------------- projectile pass

  /** `projectiles.map(p => ({...p, x: p.x + 6}))`. */
  function Advance(ps: seq<Projectile>): (r: seq<Projectile>)
    ensures |r| == |ps|
    ensures forall k :: 0 <= k < |ps| ==>
              r[k].id == ps[k].id && r[k].x == ps[k].x + PROJECTILE_SPEED && r[k].y == ps[k].y
  {
    if ps == [] then [] else [ps[0].(x := ps[0].x + PROJECTILE_SPEED)] + Advance(ps[1..])
  }

  /** The indices the filter callback pushes onto `hitProjectiles`. */
  function HitIndices(ps: seq<Projectile>, bearX: real, bearY: real): (r: seq<nat>)
    ensures forall j :: 0 <= j < |r| ==> r[j] < |ps|
    ensures forall k :: 0 <= k < |ps| ==> (k in r <==> Hits(ps[k], bearX, bearY))
    ensures forall j1, j2 :: 0 <= j1 < j2 < |r| ==> r[j1] < r[j2]
  {
    if ps == [] then []
    else
      var n := |ps| - 1;
      var front := HitIndices(ps[..n], bearX, bearY);
      assert forall k :: 0 <= k < n ==> ps[..n][k] == ps[k];
      front + (if Hits(ps[n], bearX, bearY) then [n] else [])
  }

  /** What the filter callback keeps: outside the hit circle and left of the right edge. */
  predicate Kept(p: Projectile, width: real, bearX: real, bearY: real) {
    !Hits(p, bearX, bearY) && p.x < width
  }

  function Survivors(ps: seq<Projectile>, width: real, bearX: real, bearY: real): seq<Projectile> {
    Filter(p => Kept(p, width, bearX, bearY), ps)
  }

  /** The projectile list after one `updateGame` frame. */
  function ProjectilePass(ps: seq<Projectile>, width: real, height: real): seq<Projectile> {
    Survivors(Advance(ps), width, BearX(width), BearY(height))
  }

  /** Whether `updateGame` calls `handleHit` this frame. */
  predicate HitThisFrame(ps: seq<Projectile>, width: real, height: real) {
    |HitIndices(Advance(ps), BearX(width), BearY(height))| > 0
  }

  /** One frame of projectiles: the survivors are exactly the advanced projectiles that are
      neither in the hit circle nor off the right edge, in their old order. */
  lemma ProjectilePassSpec(ps: seq<Projectile>, width: real, height: real)
    ensures var adv, r := Advance(ps), ProjectilePass(ps, width, height);
      && IsSubsequence(r, adv)
      && |r| <= |ps|
      && (forall k :: 0 <= k < |r| ==> r[k] in adv && !Hits(r[k], BearX(width), BearY(height)) && r[k].x < width)
      && (forall k :: 0 <= k < |adv| && !Hits(adv[k], BearX(width), BearY(height)) && adv[k].x < width ==> adv[k] in r)
  {
    var adv := Advance(ps);
    var bearX, bearY := BearX(width), BearY(height);
    var keep := p => Kept(p, width, bearX, bearY);
    var r := Filter(keep, adv);
    FilterKeepsOrder(keep, adv);
    forall k | 0 <= k < |r|
      ensures r[k] in adv && !Hits(r[k], bearX, bearY) && r[k].x < width
    {
      assert keep(r[k]);
    }
    forall k | 0 <= k < |adv| && !Hits(adv[k], bearX, bearY) && adv[k].x < width
      ensures adv[k] in r
    {
      assert keep(adv[k]);
    }
  }

  /** Equal projectiles are not merged or dropped: a kept value survives as often as it occurs
      among the advanced projectiles, any other value not at all. */
  lemma ProjectilePassCounts(ps: seq<Projectile>, width: real, height: real)
    ensures var adv, r := Advance(ps), ProjectilePass(ps, width, height);
      forall p :: multiset(r)[p] == if !Hits(p, BearX(width), BearY(height)) && p.x < width then multiset(adv)[p] else 0
  {
    var bearX, bearY := BearX(width), BearY(height);
    var keep := p => Kept(p, width, bearX, bearY);
    FilterCounts(keep, Advance(ps));
  }

  /** `handleHit` runs exactly when some advanced projectile is inside the hit circle, however
      many are, and then the frame removes at least one projectile. */
  lemma HitThisFrameSpec(ps: seq<Projectile>, width: real, height: real)
    ensures var adv := Advance(ps);
      HitThisFrame(ps, width, height) <==> exists k :: 0 <= k < |adv| && Hits(adv[k], BearX(width), BearY(height))
    ensures HitThisFrame(ps, width, height) ==> |ProjectilePass(ps, width, height)| < |ps|
  {
    var adv := Advance(ps);
    var bearX, bearY := BearX(width), BearY(height);
    var hits := HitIndices(adv, bearX, bearY);
    var keep := p => Kept(p, width, bearX, bearY);
    if |hits| > 0 {
      var k := hits[0];
      assert k in hits;
      assert 0 <= k < |adv| && Hits(adv[k], bearX, bearY);
      assert !keep(adv[k]);
      assert |Filter(keep, adv)| < |adv|;
    } else {
      forall k | 0 <= k < |adv|
        ensures !Hits(adv[k], bearX, bearY)
      {
        assert k !in hits;
      }
    }
  }

  // ---------------------------------------------------------------- particle pass

  /** One frame of motion for one particle: position by the old velocity, then gravity and decay. */
  function Step(q: Particle): Particle {
    q.(x := q.x + q.vx, y := q.y + q.vy, vy := q.vy + GRAVITY, life := q.life - LIFE_DECAY)
  }

  /** The `map` half of the particle pass. */
  function StepAll(qs: seq<Particle>): (r: seq<Particle>)
    ensures |r| == |qs|
    ensures forall k :: 0 <= k < |qs| ==> r[k] == Step(qs[k])
    ensures forall k :: 0 <= k < |qs| ==>
              && r[k].id == qs[k].id && r[k].emoji == qs[k].emoji && r[k].vx == qs[k].vx
              && r[k].x == qs[k].x + qs[k].vx && r[k].y == qs[k].y + qs[k].vy
              && r[k].vy == qs[k].vy + GRAVITY && r[k].life == qs[k].life - LIFE_DECAY
  {
    if qs == [] then [] else [Step(qs[0])] + StepAll(qs[1..])
  }

  predicate Alive(q: Particle) { q.life > 0.0 }

  /** The particle list after one `updateGame` frame. */
  function ParticlePass(qs: seq<Particle>): seq<Particle> {
    Filter(Alive, StepAll(qs))
  }

  /** Every particle that survives a frame is alive and has strictly less life than the one it
      came from; a particle survives iff its life exceeded one decay step; order is kept. */
  lemma ParticlePassSpec(qs: seq<Particle>)
    ensures var r := ParticlePass(qs);
      && IsSubsequence(r, StepAll(qs))
      && |r| <= |qs|
      && (forall j :: 0 <= j < |r| ==> r[j].life > 0.0)
      && (forall j :: 0 <= j < |r| ==>
            exists k :: 0 <= k < |qs| && r[j] == Step(qs[k]) && r[j].life < qs[k].life)
      && (forall k :: 0 <= k < |qs| ==> (Step(qs[k]) in r <==> qs[k].life > LIFE_DECAY))
  {
    var stepped := StepAll(qs);
    var r := ParticlePass(qs);
    FilterKeepsOrder(Alive, stepped);
    forall j | 0 <= j < |r|
      ensures r[j].life > 0.0
      ensures exists k :: 0 <= k < |qs| && r[j] == Step(qs[k]) && r[j].life < qs[k].life
    {
      assert r[j] in stepped && Alive(r[j]);
      var k :| 0 <= k < |stepped| && stepped[k] == r[j];
      assert r[j] == Step(qs[k]) && r[j].life == qs[k].life - LIFE_DECAY;
    }
    forall k | 0 <= k < |qs|
      ensures Step(qs[k]) in r <==> qs[k].life > LIFE_DECAY
    {
      assert stepped[k] == Step(qs[k]);
      if Step(qs[k]) in r {
        var j :| 0 <= j < |r| && r[j] == Step(qs[k]);
        assert Alive(r[j]);
      }
    }
  }

  /** Equal particles are not merged or dropped: a stepped value that is alive survives as often
      as it occurs among the stepped particles, any other value not at all. */
  lemma ParticlePassCounts(qs: seq<Particle>)
    ensures forall q :: multiset(ParticlePass(qs))[q] == if q.life > 0.0 then multiset(StepAll(qs))[q] else 0
  {
    FilterCounts(Alive, StepAll(qs));
  }

  /** Applies the particle pass `n` times. */
  function PassN(qs: seq<Particle>, n: nat): seq<Particle>
    decreases n
  {
    if n == 0 then qs else PassN(ParticlePass(qs), n - 1)
  }

  /** Decay guarantees removal: particles whose life is at most `n` decay steps are all gone
      after `n` frames, so a fresh particle (life 1.0) lives fewer than 67 frames. */
  lemma {:induction false} ParticlesExpire(qs: seq<Particle>, n: nat)
    requires n >= 1
    requires forall k :: 0 <= k < |qs| ==> qs[k].life <= n as real * LIFE_DECAY
    ensures PassN(qs, n) == []
    decreases n
  {
    var r := ParticlePass(qs);
    ParticlePassSpec(qs);
    if n > 1 {
      forall j | 0 <= j < |r|
        ensures r[j].life <= (n - 1) as real * LIFE_DECAY
      {
        var k :| 0 <= k < |qs| && r[j] == Step(qs[k]) && r[j].life < qs[k].life;
      }
      ParticlesExpire(r, n - 1);
    }
  }

  // ---------------------------------------------------------------- bursts

  function BurstSize(isCombo: bool): nat {
    if isCombo then COMBO_BURST else PLAIN_BURST
  }

  /** Width of the velocity range: `(Math.random() - 0.5) * spread`. */
  function Spread(isCombo: bool): real { if isCombo then 20.0 else 15.0 }

  function Palette(isCombo: bool): seq<string> {
    if isCombo then ["\U{1F496}", "\U{1F495}", "\U{2728}", "\U{1F48B}", "\U{1F31F}", "\U{1F4AB}"]
    else ["\U{1F496}", "\U{1F495}", "\U{2728}", "\U{1F48B}"]
  }

  /** The particle one iteration of the `spawnParticles` loop pushes. */
  function NewParticle(x: real, y: real, isCombo: bool, d: Draw): (q: Particle)
    requires ValidDraw(d)
    ensures q.x == x && q.y == y && q.life == 1.0 && q.id == d.id
    ensures q.emoji in Palette(isCombo)
    ensures -Spread(isCombo) / 2.0 <= q.vx < Spread(isCombo) / 2.0
    ensures -Spread(isCombo) / 2.0 - 5.0 <= q.vy < Spread(isCombo) / 2.0 - 5.0
  {
    var palette := Palette(isCombo);
    var pick := (d.pick * |palette| as real).Floor;
    Particle(d.id, x, y, (d.vx - 0.5) * Spread(isCombo), (d.vy - 0.5) * Spread(isCombo) - 5.0, 1.0, palette[pick])
  }

  /** The particles one `spawnParticles(x, y, isCombo)` call appends: 25 for a combo and 15
      otherwise, all at (x, y) with full life, |vx| within half the spread (10 or 7.5). */
  function Burst(x: real, y: real, isCombo: bool, draws: seq<Draw>): (b: seq<Particle>)
    requires RandomSource(draws)
    ensures |b| == (if isCombo then COMBO_BURST else PLAIN_BURST)
    ensures forall k :: 0 <= k < |b| ==>
              && b[k].x == x && b[k].y == y && b[k].life == 1.0
              && b[k].emoji in Palette(isCombo)
              && -Spread(isCombo) / 2.0 <= b[k].vx < Spread(isCombo) / 2.0
  {
    seq(BurstSize(isCombo), k requires 0 <= k < BurstSize(isCombo) => NewParticle(x, y, isCombo, draws[k]))
  }

  // ---------------------------------------------------------------- game state

  /** The component's state: its `useState` values and refs, each update applied at once. */
  class Game {
    var kissCount: nat
    var combo: nat
    var isCelebration: bool
    var projectiles: seq<Projectile>
    var particles: seq<Particle>
    var cooldown: int          // Date.now() of the last counted hit
    var comboChangedAt: int    // Date.now() of the last combo increment; its reset is due COMBO_WINDOW later
    var lastTime: real         // timestamp of the previous animation frame, 0 before the first

    /** The celebration is on exactly when the target has been reached. */
    ghost predicate Valid()
      reads this
    {
      isCelebration <==> kissCount >= TARGET_KISSES
    }

    constructor ()
      ensures Valid()
      ensures kissCount == 0 && combo == 0 && !isCelebration
      ensures projectiles == [] && particles == []
      ensures cooldown == 0 && lastTime == 0.0
    {
      kissCount, combo, isCelebration := 0, 0, false;
      projectiles, particles := [], [];
      cooldown, comboChangedAt, lastTime := 0, 0, 0.0;
    }

    /** `spawnParticles`: build the burst in a loop, then append it behind the existing particles. */
    method SpawnParticles(x: real, y: real, isCombo: bool, draws: seq<Draw>)
      requires RandomSource(draws)
      modifies this`particles
      ensures particles == old(particles) + Burst(x, y, isCombo, draws)
    {
      var count := BurstSize(isCombo);
      var newParticles: seq<Particle> := [];
      for i := 0 to count
        invariant |newParticles| == i
        invariant forall k :: 0 <= k < i ==> newParticles[k] == NewParticle(x, y, isCombo, draws[k])
      {
        newParticles := newParticles + [NewParticle(x, y, isCombo, draws[i])];
      }
      particles := particles + newParticles;
    }

    /** `handleHit`: inside the cooldown nothing changes; otherwise the hit is counted. */
    method HandleHit(x: real, y: real, now: int, draws: seq<Draw>)
      requires Valid() && RandomSource(draws)
      modifies this
      ensures Valid()
      ensures now - old(cooldown) < HIT_COOLDOWN ==> unchanged(this)
      ensures now - old(cooldown) >= HIT_COOLDOWN ==>
        && cooldown == now
        && combo == old(combo) + 1 && comboChangedAt == now
        && kissCount == old(kissCount) + 1
        && isCelebration == (old(isCelebration) || kissCount >= TARGET_KISSES)
        && particles == old(particles) + Burst(x, y, old(combo) > 2, draws)
        && projectiles == old(projectiles) && lastTime == old(lastTime)
    {
      if now - cooldown < HIT_COOLDOWN {
        return;
      }
      cooldown := now;
      var previousCombo := combo;
      combo, comboChangedAt := combo + 1, now;
      var newCount := kissCount + 1;
      if newCount >= TARGET_KISSES {
        isCelebration := true;
      }
      kissCount := newCount;
      SpawnParticles(x, y, previousCombo > 2, draws);
    }

    /** `updateGame`: one frame of projectiles (hit test, at most one `handleHit`) and particles. */
    method UpdateGame(width: real, height: real, now: int, draws: seq<Draw>)
      requires Valid() && RandomSource(draws)
      modifies this
      ensures Valid()
      ensures projectiles == ProjectilePass(old(projectiles), width, height)
      ensures var counted := HitThisFrame(old(projectiles), width, height) && now - old(cooldown) >= HIT_COOLDOWN;
        && (counted ==>
              && kissCount == old(kissCount) + 1 && combo == old(combo) + 1
              && cooldown == now && comboChangedAt == now
              && isCelebration == (old(isCelebration) || kissCount >= TARGET_KISSES))
        && (!counted ==>
              && kissCount == old(kissCount) && combo == old(combo)
              && cooldown == old(cooldown) && comboChangedAt == old(comboChangedAt)
              && isCelebration == old(isCelebration))
        && particles == ParticlePass(old(particles) +
             (if counted then Burst(BearX(width), BearY(height), old(combo) > 2, draws) else []))
      ensures lastTime == old(lastTime)
    {
      var bearX, bearY := BearX(width), BearY(height);
      var updated := Advance(projectiles);
      var hitProjectiles := HitIndices(updated, bearX, bearY);
      var remaining := Survivors(updated, width, bearX, bearY);
      ghost var before := particles;
      ghost var counted := |hitProjectiles| > 0 && now - cooldown >= HIT_COOLDOWN;
      ghost var burst := if counted then Burst(bearX, bearY, combo > 2, draws) else [];
      if |hitProjectiles| > 0 {
        HandleHit(bearX, bearY, now, draws);
      }
      assert !counted ==> before + burst == before;
      assert particles == before + burst;
      projectiles := remaining;
      particles := ParticlePass(particles);
    }

    /** `gameLoop`: frames with no previous timestamp, a non-positive delta or a running
        celebration change nothing but `lastTime`; a frame never pushes the count past the target. */
    method GameLoop(currentTime: real, width: real, height: real, now: int, draws: seq<Draw>)
      requires Valid() && RandomSource(draws)
      modifies this
      ensures Valid()
      ensures lastTime == currentTime
      ensures !FrameRuns(old(isCelebration), old(lastTime), currentTime) ==>
        && kissCount == old(kissCount) && combo == old(combo) && isCelebration == old(isCelebration)
        && projectiles == old(projectiles) && particles == old(particles)
        && cooldown == old(cooldown) && comboChangedAt == old(comboChangedAt)
      ensures FrameRuns(old(isCelebration), old(lastTime), currentTime) ==>
        && projectiles == ProjectilePass(old(projectiles), width, height)
        && kissCount <= old(kissCount) + 1
      ensures old(kissCount) <= TARGET_KISSES ==> kissCount <= TARGET_KISSES
    {
      var deltaTime := DeltaTime(lastTime, currentTime);
      lastTime := currentTime;
      if !isCelebration && deltaTime > 0.0 {
        UpdateGame(width, height, now, draws);
      }
    }

    /** `shootKiss`: ignored during the celebration, else one projectile leaves the rabbit. */
    method ShootKiss(height: real, id: real)
      modifies this`projectiles
      ensures isCelebration ==> projectiles == old(projectiles)
      ensures !isCelebration ==> projectiles == old(projectiles) + [Projectile(id, SPAWN_X, height / 2.0)]
    {
      if isCelebration {
        return;
      }
      projectiles := projectiles + [Projectile(id, SPAWN_X, height / 2.0)];
    }

    /** `restartGame`: back to the initial state whatever the state was. */
    method RestartGame()
      modifies this
      ensures Valid()
      ensures kissCount == 0 && combo == 0 && !isCelebration
      ensures projectiles == [] && particles == []
      ensures cooldown == 0 && lastTime == 0.0
      ensures comboChangedAt == old(comboChangedAt)
    {
      kissCount := 0;
      combo := 0;
      isCelebration := false;
      projectiles := [];
      particles := [];
      cooldown := 0;
      lastTime := 0.0;
    }

    /** The combo timer effect, as a deadline: a streak with no change for COMBO_WINDOW ms ends. */
    method ComboTimer(now: int)
      modifies this`combo
      ensures old(combo) > 0 && now >= comboChangedAt + COMBO_WINDOW ==> combo == 0
      ensures !(old(combo) > 0 && now >= comboChangedAt + COMBO_WINDOW) ==> combo == old(combo)
    {
      if combo > 0 && now >= comboChangedAt + COMBO_WINDOW {
        combo := 0;
      }
    }
  }
}
