/** The canvas renderer of `GameCanvas.tsx`. Each frame it walks the projectile and particle
    lists the parent shares through refs, moves every object in place, reports at most one hit
    to the parent's `onHit`, and replaces each ref with the list of objects it keeps.
    Drawing calls are not modelled; `onHit` calls are returned as a list. */
module KissCanvas {
  import opened Sequences
  import opened FrameClock

  const PROJECTILE_SPEED: real := 8.0   // px per frame
  const HIT_RADIUS: real := 60.0        // px around the bear's anchor
  const BEAR_X_FRACTION: real := 0.85   // the bear's anchor, as a fraction of the screen width
  const OFFSCREEN_MARGIN: real := 50.0  // projectiles are kept while x < width + this
  const GRAVITY: real := 0.3            // added to a particle's vy each frame
  const LIFE_DECAY: real := 0.02        // taken from a particle's life each frame

  /** A projectile object; frames move it in place. */
  class Projectile {
    const id: real
    var x: real
    var y: real

    constructor (id: real, x: real, y: real)
      ensures this.id == id && this.x == x && this.y == y
    {
      this.id, this.x, this.y := id, x, y;
    }
  }

  /** A particle object; frames move it, pull it down and fade it in place. */
  class Particle {
    const id: real
    var x: real
    var y: real
    var vx: real
    var vy: real
    var life: real
    const emoji: string

    constructor (id: real, x: real, y: real, vx: real, vy: real, life: real, emoji: string)
      ensures this.id == id && this.x == x && this.y == y && this.vx == vx && this.vy == vy
      ensures this.life == life && this.emoji == emoji
    {
      this.id, this.x, this.y, this.vx, this.vy, this.life, this.emoji := id, x, y, vx, vy, life, emoji;
    }
  }

  /** The arguments of one `onHit(x, y)` call. */
  datatype Hit = Hit(x: real, y: real)

  datatype Pos = Pos(x: real, y: real)

  function BearX(width: real): real { width * BEAR_X_FRACTION }

  function BearY(height: real): real { height / 2.0 }

  /** `Math.sqrt(dx*dx + dy*dy) < 60`, squared. */
  predicate InHitCircle(p: Pos, bearX: real, bearY: real) {
    (p.x - bearX) * (p.x - bearX) + (p.y - bearY) * (p.y - bearY) < HIT_RADIUS * HIT_RADIUS
  }

  /** The current positions of a list of projectiles. */
  ghost function Positions(ps: seq<Projectile>): (r: seq<Pos>)
    reads set p | p in ps
    ensures |r| == |ps|
    ensures forall k :: 0 <= k < |ps| ==> r[k] == Pos(ps[k].x, ps[k].y)
  {
    if ps == [] then [] else [Pos(ps[0].x, ps[0].y)] + Positions(ps[1..])
  }

  predicate AnyHit(pos: seq<Pos>, bearX: real, bearY: real) {
    exists k :: 0 <= k < |pos| && InHitCircle(pos[k], bearX, bearY)
  }

  /** Position `k` holds the first projectile, in list order, inside the hit circle. */
  predicate IsFirstHit(pos: seq<Pos>, k: int, bearX: real, bearY: real) {
    && 0 <= k < |pos|
    && InHitCircle(pos[k], bearX, bearY)
    && forall j :: 0 <= j < k ==> !InHitCircle(pos[j], bearX, bearY)
  }

  /** Some projectile is in the circle exactly when there is a first one, and there is only one. */
  lemma {:induction false} FirstHitSpec(pos: seq<Pos>, bearX: real, bearY: real)
    ensures AnyHit(pos, bearX, bearY) <==> exists k :: IsFirstHit(pos, k, bearX, bearY)
    ensures forall k1, k2 :: IsFirstHit(pos, k1, bearX, bearY) && IsFirstHit(pos, k2, bearX, bearY) ==> k1 == k2
  {
    if pos != [] && AnyHit(pos, bearX, bearY) {
      if InHitCircle(pos[0], bearX, bearY) {
        assert IsFirstHit(pos, 0, bearX, bearY);
      } else {
        var k :| 0 <= k < |pos| && InHitCircle(pos[k], bearX, bearY);
        assert InHitCircle(pos[1..][k - 1], bearX, bearY);
        FirstHitSpec(pos[1..], bearX, bearY);
        var f :| IsFirstHit(pos[1..], f, bearX, bearY);
        assert IsFirstHit(pos, f + 1, bearX, bearY);
      }
    }
  }

  /** What one frame does to the projectile list: `moved` are the positions after the move,
      `onHit` fired once iff some projectile is in the circle, and `kept` lists the positions of
      the kept projectiles: every one but the first hit that is still left of width + 50. */
  ghost predicate ProjectileFrame(before: seq<Projectile>, after: seq<Projectile>, moved: seq<Pos>,
                                  hits: seq<Hit>, kept: seq<nat>, width: real, height: real)
  {
    && |moved| == |before|
    && hits == (if AnyHit(moved, BearX(width), BearY(height)) then [Hit(BearX(width), BearY(height))] else [])
    && Picks(after, before, kept)
    && (forall k :: 0 <= k < |before| ==>
          (k in kept <==> !IsFirstHit(moved, k, BearX(width), BearY(height)) && moved[k].x < width + OFFSCREEN_MARGIN))
    && |after| + |hits| <= |before|
  }

  /** A projectile frame reports at most one hit, keeps the rest in order, and drops exactly
      the first projectile in the circle when it reports one. */
  lemma ProjectileFrameFacts(before: seq<Projectile>, after: seq<Projectile>, moved: seq<Pos>,
                             hits: seq<Hit>, kept: seq<nat>, width: real, height: real)
    requires Distinct(before)
    requires ProjectileFrame(before, after, moved, hits, kept, width, height)
    ensures |hits| <= 1
    ensures IsSubsequence(after, before) && Distinct(after)
    ensures hits != [] ==> |after| < |before|
    ensures hits != [] ==> exists k :: IsFirstHit(moved, k, BearX(width), BearY(height)) && before[k] !in after
  {
    PicksIsSubsequence(after, before, kept);
    PicksDistinct(after, before, kept);
    if hits != [] {
      FirstHitSpec(moved, BearX(width), BearY(height));
      var k :| IsFirstHit(moved, k, BearX(width), BearY(height));
      assert k !in kept;
    }
  }

  /** What one frame does to the particle list: the kept particles are those whose life, after
      the decay, is still positive, in their old order. */
  ghost predicate ParticleFrame(before: seq<Particle>, after: seq<Particle>, kept: seq<nat>)
    reads set q | q in before
  {
    && Picks(after, before, kept)
    && (forall k :: 0 <= k < |before| ==> (k in kept <==> before[k].life > 0.0))
  }

  /** The decisions the projectile loop has made after visiting the first `i` moved positions. */
  ghost predicate ScanState(moved: seq<Pos>, i: int, hitDetected: bool, kept: seq<nat>,
                            width: real, bearX: real, bearY: real)
  {
    && 0 <= i <= |moved|
    && (hitDetected <==> exists k :: 0 <= k < i && InHitCircle(moved[k], bearX, bearY))
    && (forall j :: 0 <= j < |kept| ==> kept[j] < i)
    && (forall k :: 0 <= k < i ==>
          (k in kept <==> !IsFirstHit(moved, k, bearX, bearY) && moved[k].x < width + OFFSCREEN_MARGIN))
  }

  /** One iteration of the projectile loop: the first projectile in the circle fires the hit,
      any other is kept iff it is left of width + 50. */
  lemma ScanStep(moved: seq<Pos>, i: int, hitDetected: bool, kept: seq<nat>,
                 width: real, bearX: real, bearY: real)
    requires ScanState(moved, i, hitDetected, kept, width, bearX, bearY) && i < |moved|
    ensures var fires := InHitCircle(moved[i], bearX, bearY) && !hitDetected;
      && (fires ==> ScanState(moved, i + 1, true, kept, width, bearX, bearY))
      && (!fires && moved[i].x < width + OFFSCREEN_MARGIN ==>
            ScanState(moved, i + 1, hitDetected, kept + [i], width, bearX, bearY))
      && (!fires && moved[i].x >= width + OFFSCREEN_MARGIN ==>
            ScanState(moved, i + 1, hitDetected, kept, width, bearX, bearY))
  {
    assert IsFirstHit(moved, i, bearX, bearY) <==> InHitCircle(moved[i], bearX, bearY) && !hitDetected;
  }

  /** The projectile half of `updateAndDrawGame`. */
  method UpdateProjectiles(ps: seq<Projectile>, width: real, height: real)
    returns (remaining: seq<Projectile>, hits: seq<Hit>, ghost kept: seq<nat>)
    requires Distinct(ps)
    modifies set p | p in ps
    ensures forall p :: p in ps ==> p.x == old(p.x) + PROJECTILE_SPEED && p.y == old(p.y)
    ensures ProjectileFrame(ps, remaining, Positions(ps), hits, kept, width, height)
  {
    var bearX, bearY := BearX(width), BearY(height);
    ghost var start := Positions(ps);
    ghost var moved := seq(|ps|, k requires 0 <= k < |ps| => Pos(start[k].x + PROJECTILE_SPEED, start[k].y));
    remaining, hits, kept := [], [], [];
    var hitDetected := false;
    var i := 0;
    while i < |ps|
      invariant 0 <= i <= |ps|
      invariant forall k :: 0 <= k < i ==> ps[k].x == moved[k].x && ps[k].y == moved[k].y
      invariant forall k :: i <= k < |ps| ==> ps[k].x == start[k].x && ps[k].y == start[k].y
      invariant ScanState(moved, i, hitDetected, kept, width, bearX, bearY)
      invariant hits == if hitDetected then [Hit(bearX, bearY)] else []
      invariant Picks(remaining, ps, kept)
      invariant |remaining| + |hits| <= i
    {
      var p := ps[i];
      assert forall k :: 0 <= k < |ps| && k != i ==> ps[k] != p;
      p.x := p.x + PROJECTILE_SPEED;
      assert Pos(p.x, p.y) == moved[i];
      ScanStep(moved, i, hitDetected, kept, width, bearX, bearY);
      if InHitCircle(Pos(p.x, p.y), bearX, bearY) && !hitDetected {
        hitDetected := true;
        hits := hits + [Hit(bearX, bearY)];
      } else if p.x < width + OFFSCREEN_MARGIN {
        PicksAppend(remaining, ps, kept, i);
        remaining := remaining + [p];
        kept := kept + [i];
      }
      i := i + 1;
    }
    assert Positions(ps) == moved;
  }

  /** One frame of in-place motion for a particle: position by the old velocity, then gravity
      on vy and one decay step off its life. */
  twostate predicate Moved(q: Particle)
    reads q
  {
    && q.x == old(q.x) + old(q.vx) && q.y == old(q.y) + old(q.vy)
    && q.vx == old(q.vx) && q.vy == old(q.vy) + GRAVITY && q.life == old(q.life) - LIFE_DECAY
  }

  /** The particle half of `updateAndDrawGame`. */
  method UpdateParticles(qs: seq<Particle>) returns (remaining: seq<Particle>, ghost kept: seq<nat>)
    requires Distinct(qs)
    modifies set q | q in qs
    ensures forall q :: q in qs ==> Moved(q)
    ensures ParticleFrame(qs, remaining, kept)
  {
    remaining, kept := [], [];
    var i := 0;
    while i < |qs|
      invariant 0 <= i <= |qs|
      invariant forall k :: 0 <= k < i ==>
                  && qs[k].x == old(qs[k].x) + old(qs[k].vx) && qs[k].y == old(qs[k].y) + old(qs[k].vy)
                  && qs[k].vx == old(qs[k].vx) && qs[k].vy == old(qs[k].vy) + GRAVITY
                  && qs[k].life == old(qs[k].life) - LIFE_DECAY
      invariant forall k :: i <= k < |qs| ==> unchanged(qs[k])
      invariant Picks(remaining, qs, kept)
      invariant forall j :: 0 <= j < |kept| ==> kept[j] < i
      invariant forall k :: 0 <= k < i ==> (k in kept <==> qs[k].life > 0.0)
    {
      var q := qs[i];
      q.x := q.x + q.vx;
      q.y := q.y + q.vy;
      q.vy := q.vy + GRAVITY;
      q.life := q.life - LIFE_DECAY;
      if q.life > 0.0 {
        remaining := remaining + [q];
        kept := kept + [i];
      }
      i := i + 1;
    }
  }

  /** The component's refs: the two shared lists and the previous frame's timestamp. */
  class GameCanvas {
    var projectiles: seq<Projectile>  // projectilesRef.current
    var particles: seq<Particle>      // particlesRef.current
    var lastTime: real                // lastTimeRef.current, 0 before the first frame

    /** No object appears twice in a list, so each is moved exactly once per frame. */
    ghost predicate Valid()
      reads this
    {
      Distinct(projectiles) && Distinct(particles)
    }

    constructor (projectiles: seq<Projectile>, particles: seq<Particle>)
      requires Distinct(projectiles) && Distinct(particles)
      ensures Valid() && lastTime == 0.0
      ensures this.projectiles == projectiles && this.particles == particles
    {
      this.projectiles, this.particles, lastTime := projectiles, particles, 0.0;
    }

    /** The update half of `updateAndDrawGame`. */
    method UpdateAndDrawGame(width: real, height: real)
      returns (hits: seq<Hit>, ghost keptProjectiles: seq<nat>, ghost keptParticles: seq<nat>)
      requires Valid()
      modifies this, set p | p in projectiles, set q | q in particles
      ensures Valid() && lastTime == old(lastTime)
      ensures forall p :: p in old(projectiles) ==> p.x == old(p.x) + PROJECTILE_SPEED && p.y == old(p.y)
      ensures ProjectileFrame(old(projectiles), projectiles, Positions(old(projectiles)), hits, keptProjectiles, width, height)
      ensures forall q :: q in old(particles) ==> Moved(q)
      ensures ParticleFrame(old(particles), particles, keptParticles)
    {
      var remainingProjectiles;
      ghost var before := projectiles;
      remainingProjectiles, hits, keptProjectiles := UpdateProjectiles(projectiles, width, height);
      ghost var moved := Positions(before);
      ProjectileFrameFacts(before, remainingProjectiles, moved, hits, keptProjectiles, width, height);
      projectiles := remainingProjectiles;
      var remainingParticles;
      remainingParticles, keptParticles := UpdateParticles(particles);
      PicksDistinct(remainingParticles, particles, keptParticles);
      particles := remainingParticles;
      assert Positions(before) == moved;
    }

    /** The frame callback `render`: it stores the timestamp, and updates only when the frame gate
        lets it; a gated frame changes no list and no object. */
    method Render(currentTime: real, isCelebration: bool, width: real, height: real)
      returns (hits: seq<Hit>, ghost keptProjectiles: seq<nat>, ghost keptParticles: seq<nat>)
      requires Valid()
      modifies this, set p | p in projectiles, set q | q in particles
      ensures Valid() && lastTime == currentTime
      ensures !FrameRuns(isCelebration, old(lastTime), currentTime) ==>
        && hits == [] && projectiles == old(projectiles) && particles == old(particles)
        && (forall p :: p in old(projectiles) ==> unchanged(p))
        && (forall q :: q in old(particles) ==> unchanged(q))
      ensures FrameRuns(isCelebration, old(lastTime), currentTime) ==>
        && (forall p :: p in old(projectiles) ==> p.x == old(p.x) + PROJECTILE_SPEED && p.y == old(p.y))
        && ProjectileFrame(old(projectiles), projectiles, Positions(old(projectiles)), hits, keptProjectiles, width, height)
        && (forall q :: q in old(particles) ==> Moved(q))
        && ParticleFrame(old(particles), particles, keptParticles)
    {
      var deltaTime := DeltaTime(lastTime, currentTime);
      lastTime := currentTime;
      hits, keptProjectiles, keptParticles := [], [], [];
      if !isCelebration && deltaTime > 0.0 {
        hits, keptProjectiles, keptParticles := UpdateAndDrawGame(width, height);
      }
    }
  }
}
