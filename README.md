# Kiss shooter and Love Tap, modelled in Dafny

This project models the simulation core of a two-character "kiss shooting" game and the tap counter of
its companion Love Tap page. Dafny's verifier proves properties of the model.

- **`Game.tsx`** (module `KissGame`, file `kiss_game.dfy`). The rabbit shoots kiss projectiles at the
  bear. Each animation frame does the following:
  - moves every projectile 6 px to the right;
  - removes the projectiles inside the bear's hit circle (radius 60 around (width − 100, height / 2))
    and those past the right edge;
  - calls `handleHit` once when anything was hit.
  A hit counts only if 800 ms have passed since the last counted hit. A counted hit bumps the combo and
  the kiss count and sprays 15 or 25 emoji particles. The tenth kiss starts the celebration, which
  freezes the loop until restart. Particles fall (gravity 0.5) and fade (0.015 per frame).
  The projectile and particle passes are pure `map`/`filter` pipelines, so they are functions here. The
  component's state (`useState` values and refs) is the class `KissGame.Game`; `handleHit`,
  `spawnParticles`, `shootKiss`, `restartGame` and the frame callback are its methods.
- **`GameCanvas.tsx`** (module `KissCanvas`, file `kiss_canvas.dfy`). This is a second, canvas-based
  version of the same frame with different rules:
  - speed 8, the bear at 0.85 · width, projectiles kept while x < width + 50;
  - gravity 0.3, decay 0.02;
  - a `hitDetected` flag, so that only the first projectile in list order inside the circle fires
    `onHit` and is dropped. A later projectile in the circle is kept or dropped by the off-screen test
    alone.
  Projectiles and particles are objects whose fields the loops update in place, so they are Dafny
  classes. The loops are methods with invariants. Their lists are required to hold no object twice.
- **`love-tap/page.tsx`** (module `LoveTap`, file `love_tap.dfy`):
  - the `handleTap` updater, which mints a link id exactly on the tenth tap;
  - reset and the role changes;
  - `copyLink`, which does nothing without a non-empty link id;
  - the mount effect: a link older than 7 days (604 800 000 ms) is expired. Either way, a page opened
    with both query parameters present shows the receiver screen.
- `frame_clock.dfy` (module `FrameClock`) holds the frame gate both loops share. `sequences.dfy`
  (module `Sequences`) holds the list facts: filter, order-preserving sublists, index embeddings.

Inputs the source reads from the browser are parameters:
- `Date.now()` becomes `now`;
- the `requestAnimationFrame` timestamp becomes `currentTime`;
- `window.innerWidth` and `innerHeight` become `width` and `height`;
- the `Math.random()` values of a burst become a list of `Draw` records, each field in [0, 1);
- the parsed query parameters and stored message of the Love Tap page are parameters too.

Coordinates, velocities and life are `real`. The hit test `Math.sqrt(dx*dx + dy*dy) < 60` is written
as `dx*dx + dy*dy < 3600`.

Every React state update is applied immediately and in order, and a ref always holds the current
state. So in `UpdateGame` the particle pass runs over the particle list that already includes the
burst `handleHit` just appended. The model's `handleHit` reads the current combo, the value from before
its own increment, and makes a combo burst when that value is above 2 (Game.tsx:193). In the source the
loop calls an older `handleHit`, whose combo may be stale; "## Left out" describes this.

## Model

| member | source | states |
|---|---|---|
| `FrameClock.FrameGate` | app/components/Game.tsx:59-65 | A frame updates iff not celebrating, a previous timestamp exists (≠ 0) and time moved forward; the first frame after start or restart never updates (same gate at GameCanvas.tsx:120-132) |
| `Sequences.Filter` | app/components/Game.tsx:98-110 | Every element `filter` returns is from the input and passes the test, every element that passes is returned, the list never grows, and it shrinks when some element fails |
| `Sequences.FilterCounts` | app/components/Game.tsx:98-110 | `filter` keeps every copy of a value that passes the test and no copy of one that fails, so equal elements are never merged or dropped |
| `Sequences.FilterKeepsOrder` | app/components/Game.tsx:120-126 | The survivors of a `filter` are an order-preserving sublist of its input |
| `Sequences.PicksIsSubsequence` | app/components/GameCanvas.tsx:77-82 | A list built by pushing elements at increasing positions is an order-preserving sublist |
| `KissGame.Advance` | app/components/Game.tsx:92-95 | Every projectile keeps its id and y, and its x grows by exactly 6 |
| `KissGame.HitIndices` | app/components/Game.tsx:97-107 | The collected hit indices are exactly the positions inside the hit circle, in increasing order |
| `KissGame.ProjectilePassSpec` | app/components/Game.tsx:88-110 | After a frame, every projectile left is an advanced one outside the circle with x < width, every such projectile is left, their old order is kept, and the list is no longer than before |
| `KissGame.ProjectilePassCounts` | app/components/Game.tsx:92-110 | Each advanced projectile value outside the circle with x < width is left as many times as it occurs, and any other value not at all |
| `KissGame.HitThisFrameSpec` | app/components/Game.tsx:112-115 | `handleHit` runs (once) iff at least one advanced projectile is in the circle, however many are; then the list strictly shrinks |
| `KissGame.StepAll` | app/components/Game.tsx:120-125 | Per particle: x += vx and y += vy with the old velocity, then vy += 0.5 and life −= 0.015; id, emoji and vx are kept |
| `KissGame.ParticlePassSpec` | app/components/Game.tsx:120-128 | Every surviving particle has life > 0 and came from an old particle with strictly more life. A particle's stepped value is kept iff its life exceeded 0.015. Order is kept |
| `KissGame.ParticlePassCounts` | app/components/Game.tsx:120-128 | Each stepped particle value with life > 0 is kept as many times as it occurs, and any other value not at all |
| `KissGame.ParticlesExpire` | app/components/Game.tsx:120-126 | Particles whose life is at most n decay steps are all gone after n frames, so no particle lives forever |
| `KissGame.NewParticle` | app/components/Game.tsx:140-148 | A spawned particle starts at (x, y) with life 1.0 and an emoji from the palette; vx lies in [−spread/2, spread/2) and vy 5 below that range |
| `KissGame.Burst` | app/components/Game.tsx:132-149 | A burst has 25 particles for a combo and 15 otherwise, all at (x, y) with life 1.0, palette emoji and |vx| ≤ 10 or 7.5 |
| `KissGame.Game.SpawnParticles` | app/components/Game.tsx:132-151 | The loop builds exactly the burst and appends it behind the existing particles |
| `KissGame.Game.HandleHit` | app/components/Game.tsx:154-194 | Within 800 ms of the last counted hit nothing changes. Otherwise the cooldown moves to `now`, combo and kiss count grow by exactly 1, the celebration is set once the count reaches 10, and a burst sized by the pre-increment combo > 2 is appended. The celebration stays on exactly while the count is ≥ 10 |
| `KissGame.Game.UpdateGame` | app/components/Game.tsx:85-129 | The new projectile list is the projectile pass. A hit is counted iff some projectile is in the circle and the cooldown has elapsed; counters then change as in `HandleHit`, and otherwise they are unchanged. Particles are the particle pass over the old list plus any burst |
| `KissGame.Game.GameLoop` | app/components/Game.tsx:59-65 | The timestamp is always stored. A gated frame changes nothing else. A running frame applies the projectile pass and raises the count by at most 1, so the count never passes 10 |
| `KissGame.Game.ShootKiss` | app/components/Game.tsx:196-212 | No-op while celebrating; otherwise appends exactly one projectile at (150, height / 2) |
| `KissGame.Game.RestartGame` | app/components/Game.tsx:214-222 | From any state: count 0, combo 0, no celebration, both lists empty, cooldown 0, lastTime 0 |
| `KissGame.Game.ComboTimer` | app/components/Game.tsx:75-82 | The combo drops to 0 once 2000 ms have passed since its last change, and is untouched before that |
| `KissGame.Game.constructor` | app/components/Game.tsx:25-38 | Initial state: zero counters, no celebration, empty lists, zero timestamps |
| `KissCanvas.FirstHitSpec` | app/components/GameCanvas.tsx:70-76 | Some projectile is in the circle iff there is a first one in list order, and that first one is unique |
| `KissCanvas.ScanStep` | app/components/GameCanvas.tsx:74-79 | One loop step: the projectile fires the hit iff it is in the circle and no earlier one was; any other is kept iff x < width + 50, even one in the circle |
| `KissCanvas.ProjectileFrameFacts` | app/components/GameCanvas.tsx:57-82 | A frame reports at most one hit. The kept list is an order-preserving sublist without repeats. A reported hit removes exactly the first projectile in the circle, so the list strictly shrinks |
| `KissCanvas.UpdateProjectiles` | app/components/GameCanvas.tsx:57-82 | Every projectile object moves 8 px right in place. `onHit` is called once iff one is in the circle. The kept objects are those other than the first hit with x < width + 50, in order; kept plus hits ≤ old length |
| `KissCanvas.UpdateParticles` | app/components/GameCanvas.tsx:85-106 | Every particle object moves by its old velocity, then gets vy += 0.3 and life −= 0.02, all in place; the kept objects are exactly those with life > 0, in order |
| `KissCanvas.GameCanvas.UpdateAndDrawGame` | app/components/GameCanvas.tsx:48-107 | Both refs are replaced by their kept lists with the projectile and particle frames above, and no list gets a repeated object |
| `KissCanvas.GameCanvas.Render` | app/components/GameCanvas.tsx:113-135 | The timestamp is always stored. A gated frame changes no list and no object and calls `onHit` never. A running frame is `UpdateAndDrawGame` |
| `KissCanvas.GameCanvas.constructor` | app/components/GameCanvas.tsx:15-22 | The canvas starts from the parent's two lists with no previous timestamp |
| `LoveTap.Tap` | app/love-tap/page.tsx:44-64 | A tap raises the count by exactly 1; the link id is set to the fresh id on the tap that reaches 10 and is unchanged on every other tap |
| `LoveTap.TapsFromReset` | app/love-tap/page.tsx:45-62 | After n taps from reset the count is n; a link exists iff n ≥ 10, and it is the one minted by the tenth tap |
| `LoveTap.ExpiryBoundary` | app/love-tap/page.tsx:25-30 | A link is expired iff now is at least 7 days + 1 ms after its timestamp; a link exactly 7 days old is not expired |
| `LoveTap.LoveTapPage.OnMount` | app/love-tap/page.tsx:19-42 | With both parameters present the role becomes receiver, expired or not; the expiry flag follows the 7-day test; a stored message is shown only for a live link; with either parameter missing nothing changes |
| `LoveTap.LoveTapPage.HandleTap` | app/love-tap/page.tsx:44-64 | The sender record becomes `Tap` of the old one |
| `LoveTap.LoveTapPage.CopyLink` | app/love-tap/page.tsx:66-73 | Without a truthy link id (none, or the empty string) nothing is copied and nothing changes; with one, the link id and the current time are copied and the feedback shows |
| `LoveTap.LoveTapPage.ResetSender` | app/love-tap/page.tsx:75-77 | From any state the sender record is count 0 with no link |
| `LoveTap.LoveTapPage.StartSending` | app/love-tap/page.tsx:89-94 | "Send Love" switches to the sender role |
| `LoveTap.LoveTapPage.Back` | app/love-tap/page.tsx:108-111 | "Back" returns home and resets the sender record |
| `LoveTap.LoveTapPage.constructor` | app/love-tap/page.tsx:9-16 | The page starts at home with a fresh sender record and no message |

## Left out

- Rendering is not modelled. This covers JSX, styles, `CelebrationContent`, `Character`, `GameUI`,
  `ShootButton`, `Celebration`, the layouts, and the canvas drawing calls (`fillText`, `save`/`restore`,
  `globalAlpha`, the background fill). They do not affect state.
- Browser effects are not modelled: audio playback, `bearRef.animate` and its intensity
  (`Math.min(combo, 5)`), canvas resizing and device-pixel-ratio scaling, scheduling with
  `requestAnimationFrame`/`cancelAnimationFrame`, and the early return of `render` when the canvas or its
  context is missing (GameCanvas.tsx:114-118).
- Timers are deadlines. The combo `setTimeout` is `ComboTimer(now)` against the time of the last combo
  change. The 2-second reset of the "Copied!" feedback (page.tsx:71) is not modelled.
- React update semantics are not modelled. Under React, the setters in one frame are batched and
  `particlesRef` only catches up after a render. So the burst appended at Game.tsx:150 would be replaced
  by the list set at Game.tsx:128. The model applies each update immediately with refs equal to state,
  and the burst survives.
- `KissGame.Game.HandleHit`: the combo burst test reads the current combo. In the source, the loop effect
  (Game.tsx:56-72) only re-subscribes when `isCelebration` changes. So the loop keeps calling the
  `updateGame` and `handleHit` of the render that installed it, and `combo` at Game.tsx:180 and :193 is that
  render's value: 0 after mount or restart. As written, a hit from the loop would therefore never spawn
  the 25-particle combo burst. The model does not capture this stale closure.
- `KissGame.Palette`: the combo and plain palettes at Game.tsx:136-137 are stored as double-encoded UTF-8
  (mojibake such as "ğŸ’–"), unlike the emoji in `GameCanvas.tsx`. The model uses the intended code points
  (U+1F496, U+1F495, U+2728, U+1F48B, U+1F31F, U+1F4AB). The character sequences the source actually
  draws are not modelled.
- `KissGame.Game.GameLoop`: when the frame runs, its contract states only the projectile list and the
  count bound. The full effect of a running frame is `UpdateGame`'s contract.
- Floating point is not modelled: values are exact reals, and `Math.sqrt` is replaced by the squared
  comparison.
- Projectile and particle ids (`Date.now() + Math.random()`, `Math.random()`) are taken as given values.
  Their uniqueness is not modelled.
- `KissCanvas`: nothing in the repository adds objects to the canvas's lists; the parent that would is
  not part of this model, so the constructor takes the lists as given. The `isCelebration` prop is a
  parameter of `Render`.
- The Love Tap sender screen's choice between the tap area and the share area (page.tsx:117) is rendering
  and is not modelled. `TapsFromReset` states the link id the tenth tap mints even when that id is `""`, which
  `Math.random()` returning 0 would produce (page.tsx:50). `CopyLink` treats such an id as absent, as page.tsx:67 does.
- Love Tap I/O is not modelled: `localStorage`, the clipboard, `URLSearchParams`, `parseInt`, URL
  building and navigation (page.tsx:176), and the random link id (a parameter of `Tap`). A NaN
  timestamp is the `None` case of `createdTime`, which the source's comparison treats as not expired.
  An absent and an empty query parameter are both `""`, since both are falsy.
- `app/game.config.ts` holds static data only. `Game.tsx` hard-codes its own target of 10
  (Game.tsx:41).
