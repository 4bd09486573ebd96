# Fireworks storefront: a Dafny model of its core

Fireworks-frontend is a Taro mini-program for a fireworks shop. Customers
browse a catalog over an animated fireworks background, collect products in
a wishlist and send an inquiry. Administrators sign in and edit products
(with up to three images) and categories. This project models, as pure
functions over immutable data:

- **the current background engine** (`FireworksBackground`):
  - the quality tiers and the start-up probe;
  - the particle pool with its active list and free list;
  - the spawners (rocket, spark, ring, bloom, trail) and the burst;
  - the per-frame governor that lowers the tier on slow frames;
  - the frame sweep;
  - the tap and touch handlers.
- **the older canvas renderer** (`FireworksCanvas`):
  - the particle class (reset, update, draw, isDead);
  - the renderer's pool reuse, explosions, touch trails, auto launch and particle loop;
  - its start/stop scheduling.
- **the catalog logic**:
  - search history and the wishlist;
  - the image uploader and `storage.ts`;
  - the product edit and add pages, and the category edit and add pages;
  - the inquiry create and share pages;
  - the navigation-bar metrics;
  - the admin session (`useAuth`).

Some things the program gets from the host are parameters of the model:
`Math.random`, `Math.cos`, `Math.sin`, `Math.pow` and `Math.sqrt` are the
fields of a `Host` record. Random draws are read at a cursor `k`, which every
operation threads through, so each call consumes its draws in source order.
Likewise, the clock (`Date.now()`), the storage contents, the file-system
answers, the upload outcome and the rendering of non-integer numbers are
passed in as parameters.

JavaScript numbers are `Num = Finite(real) | NaN | PosInf | NegInf`. Strings
are `seq<char>`. `trim` uses ECMAScript's white-space and line-terminator set,
and `.length` counts UTF-16 code units. `parseFloat`, `parseInt` and
`Number(string)` are modelled for the decimal forms the program meets
(`Infinity`, signs and exponents included).

The files, by module:

- **Shared:**
  - `wrappers.dfy`: `Option` and `Result`.
  - `js_text.dfy`: trim, split, join and decimal rendering.
  - `js_number.dfy`: the number model and the string-to-number parsers.
  - `host.dfy`: `HostMath`, the host and the random helpers.
- **Background engine:**
  - `background_config.dfy`: tiers, colour tables and the probe.
  - `background_pool.dfy`: the particle arena.
  - `background_spawn.dfy`: the spawners and the burst.
  - `background_step.dfy`: the governor, the per-particle step and frames.
  - `background_input.dfy`: the tap and touch handlers.
- **Canvas renderer:**
  - `canvas_particle.dfy`: the particle class.
  - `canvas_renderer.dfy`: the renderer.
  - `canvas_loop.dfy`: its start/stop scheduling.
- **Catalog:**
  - `search_history.dfy` and `wishlist.dfy`: the two hooks.
  - `storage.dfy`: `ImageStorage`.
  - `image_uploader.dfy`: `ImageUploader`.
  - `product_form.dfy`: `ProductForm`, the two product pages.
  - `category_form.dfy`: `CategoryForm`, the two category pages.
  - `inquiry.dfy`: the inquiry create and share pages.
  - `navbar.dfy`: `NavBar`.
  - `auth.dfy`: `Auth`.

## Model

| member | source | states |
|---|---|---|
| HostMath.RandBounds | src/components/customer/FireworksBackground/index.tsx:65 | `rand(min, max)` with a draw in [0,1) stays in [min, max], strictly below max when min < max |
| HostMath.PickIndex | src/components/customer/FireworksBackground/index.tsx:66 | `Math.floor(Math.random() * n)` is a valid index |
| HostMath.Pick | src/components/customer/FireworksBackground/index.tsx:66 | `pick(arr)` returns an element of a non-empty array |
| BackgroundConfig.Tier | src/components/customer/FireworksBackground/index.tsx:93-133 | every tier has ordered interval and burst bounds and a positive particle cap of at most 420 |
| BackgroundConfig.CapMonotone | src/components/customer/FireworksBackground/index.tsx:93-133 | a higher tier never has a smaller particle cap |
| BackgroundConfig.Downgrade | src/components/customer/FireworksBackground/index.tsx:363-366 | the downgrade lowers the tier by exactly one rank, and low stays low |
| BackgroundConfig.DetectInitialQuality | src/components/customer/FireworksBackground/index.tsx:135-148 | the start tier is high iff a finite benchmark level of at least 60 is reported, low iff it is in (0, 20], medium otherwise |
| BackgroundConfig.WeightedScanSelects | src/components/customer/FireworksBackground/index.tsx:68-76 | the weighted scan returns the first entry whose running weight reaches the draw |
| BackgroundConfig.TouchColorBands | src/components/customer/FireworksBackground/index.tsx:86-91 | the touch colour is white, cream, gold or red by the draw's percentile bands 55/22/18/5 |
| BackgroundPool.NewEngine | src/components/customer/FireworksBackground/index.tsx:172-192 | a new engine is well formed, holds exactly the tier's cap of inactive records, all in the pool, and none active |
| BackgroundPool.Acquire | src/components/customer/FireworksBackground/index.tsx:194-205 | acquiring fails, changing nothing, iff the active list is at the cap or the pool is empty; otherwise the last pooled id moves to the end of the active list, activated with its rocket and ring fields cleared |
| BackgroundPool.SwapRemove | src/components/customer/FireworksBackground/index.tsx:207-216 | removing index i moves the last id into slot i and keeps every other position |
| BackgroundPool.SwapRemoveContents | src/components/customer/FireworksBackground/index.tsx:207-216 | swap-removal drops exactly the id at the index and keeps the list duplicate-free |
| BackgroundPool.Recycle | src/components/customer/FireworksBackground/index.tsx:207-216 | recycling deactivates the record, swap-removes it from the active list, pushes it on the pool, and changes no other record |
| BackgroundPool.SpawnWith | src/components/customer/FireworksBackground/index.tsx:194-205 | a spawn succeeds iff there is room; on success exactly the given record is appended to the active list, and earlier particles are untouched |
| BackgroundPool.AcquireRecycle | src/components/customer/FireworksBackground/index.tsx:194-216 | acquiring then recycling the new particle restores the active list and the pool size |
| BackgroundSpawn.RocketRecord | src/components/customer/FireworksBackground/index.tsx:223-245 | a rocket starts 10 to 40 px below the screen, within the middle 76% of the width, moving up, with a target height between 16% and 44% of the screen and a life of 1100 to 1650 ms |
| BackgroundSpawn.SparkRecord | src/components/customer/FireworksBackground/index.tsx:247-263 | a spark starts at the rocket's position, falls, has alpha in [0.65,0.95) and a life of 220 to 420 ms |
| BackgroundSpawn.RingRecord | src/components/customer/FireworksBackground/index.tsx:265-284 | a ring has radius 6, speed 2.8, line width 1.4 and a life of 360 ms at the given point |
| BackgroundSpawn.BloomRecord | src/components/customer/FireworksBackground/index.tsx:298-319 | a bloom sits at the burst point, coloured from the burst's palette, with a life of 560 to 980 ms |
| BackgroundSpawn.TrailRecord | src/components/customer/FireworksBackground/index.tsx:322-341 | a trail sits at the touch point, coloured by the weighted touch table, with a life of 180 to 360 ms |
| BackgroundSpawn.SpawnRocket | src/components/customer/FireworksBackground/index.tsx:223-245 | a rocket is added iff there is room, consuming its fixed number of draws; otherwise nothing changes |
| BackgroundSpawn.SpawnSpark | src/components/customer/FireworksBackground/index.tsx:247-263 | a spark is added iff there is room; otherwise nothing changes |
| BackgroundSpawn.SpawnRing | src/components/customer/FireworksBackground/index.tsx:265-284 | a ring is added iff there is room; otherwise nothing changes |
| BackgroundSpawn.SpawnTouchTrail | src/components/customer/FireworksBackground/index.tsx:322-341 | a trail is added iff there is room; otherwise nothing changes |
| BackgroundSpawn.Blooms | src/components/customer/FireworksBackground/index.tsx:298-319 | the bloom loop adds min(requested, room) blooms, all at the burst point in the palette, and keeps the earlier particles |
| BackgroundSpawn.BurstAt | src/components/customer/FireworksBackground/index.tsx:286-320 | a burst adds a ring first when soft and there is room, then as many blooms of one drawn palette as requested and room allows |
| BackgroundStep.FrameDt | src/components/customer/FireworksBackground/index.tsx:352-353 | the frame time is 16 ms on the first frame; otherwise it is the elapsed time inside [8, 40], exactly 8 for a shorter gap and exactly 40 for a longer one |
| BackgroundStep.Governor | src/components/customer/FireworksBackground/index.tsx:355-367 | the average is seeded by the first sample and then smoothed 0.9/0.1; the streak grows by dt under 42 fps and otherwise shrinks, never below 0; the tier drops one rank with the streak reset exactly when the new streak exceeds 1800 ms, and otherwise the tier stays and the streak is the new one; particles are untouched |
| BackgroundStep.SlowFramesGrow | src/components/customer/FireworksBackground/index.tsx:355-367 | under sustained 25 fps the streak grows by exactly 40 ms per frame until the tier drops |
| BackgroundStep.SlowFramesNeverRise | src/components/customer/FireworksBackground/index.tsx:363-366 | the governor never raises the tier |
| BackgroundStep.SustainedSlowDowngrades | src/components/customer/FireworksBackground/index.tsx:355-367 | 46 frames at 25 fps always cost a tier unless it is already low |
| BackgroundStep.DowngradeKeepsParticles | src/components/customer/FireworksBackground/index.tsx:363-366 | a downgrade evicts no particle, so the active list can exceed the new cap and further spawns fail |
| BackgroundStep.LifeFraction | src/components/customer/FireworksBackground/index.tsx:394-402 | the life fraction lies in [0,1] and is life/maxLife for a live particle |
| BackgroundStep.GrowRing | src/components/customer/FireworksBackground/index.tsx:411-412 | the radius becomes `(radius or 0) + (speed or 0) * step`; a set, non-zero line width becomes max(0.8, width - 0.02 * step), so it never grows past its old value nor falls under 0.8; a missing or zero width stays; nothing else changes |
| BackgroundStep.RocketFlight | src/components/customer/FireworksBackground/index.tsx:432-477 | a rocket bursts at its target height; with under 60 ms of life and low enough it bursts there; it is recycled unburst when it leaves the view; otherwise it flies on with drag and gravity |
| BackgroundStep.Drift | src/components/customer/FireworksBackground/index.tsx:480-488 | a non-rocket drifts with gravity and friction, and it is out of view iff it is 120 px beyond an edge |
| BackgroundStep.Travel | src/components/customer/FireworksBackground/index.tsx:411-478 | after ageing, a ring stays in place and grows, every other kind moves by velocity times step; only a rocket the safety net keeps flying has its life changed (to 220, with 220 added to its maximum); a rocket's fate is apex exactly when its moved height reaches the target, low burst exactly when not, under 60 ms and at or above the 62% line |
| BackgroundStep.Survive | src/components/customer/FireworksBackground/index.tsx:404-409 | a surviving particle's alpha is clamp(pow(clamp(life / maxLife), 1.2)), its previous position is its old position, and its life is the reduced one except under the rocket safety net |
| BackgroundStep.Evolve | src/components/customer/FireworksBackground/index.tsx:394-488 | a particle expires iff `lifeMs - dt <= 0`, keeping its position; a survivor's life is `lifeMs - dt` with its maximum unchanged, except a rocket the safety net keeps flying (220, maximum + 220); its alpha follows the remaining life; it moves by velocity times step (rings stay and grow); a rocket bursts at the apex or low exactly under the source's conditions on its moved position |
| BackgroundStep.MaybeSpark | src/components/customer/FireworksBackground/index.tsx:434-435 | a flying rocket sheds a spark exactly when its draw falls under the tier's spark probability |
| BackgroundStep.Act | src/components/customer/FireworksBackground/index.tsx:397-455 | the evolved record is written back; an expired rocket bursts normally at its position; a flying rocket first may shed a spark (a spark record at its position when the draw is under the tier's probability and there is room) and then bursts normally at the apex or low; other particles only get written back; nothing already active changes |
| BackgroundStep.BurstRequestPositive | src/components/customer/FireworksBackground/index.tsx:295-296 | a normal burst asks for at least 14 blooms, the lowest tier's minimum |
| BackgroundStep.BurstLeavesBloom | src/components/customer/FireworksBackground/index.tsx:397-455 | whenever a particle's fate bursts and two records are free, at least one bloom appears at its position among the newly active particles |
| BackgroundStep.Visit | src/components/customer/FireworksBackground/index.tsx:387-512 | visiting index i keeps the engine well formed and leaves every lower index and its record untouched |
| BackgroundStep.Sweep | src/components/customer/FireworksBackground/index.tsx:387-512 | the backward sweep keeps the engine well formed and its settings unchanged |
| BackgroundStep.Schedule | src/components/customer/FireworksBackground/index.tsx:218-221 | the next launch time lies between the tier's interval bounds after now, and nothing else changes |
| BackgroundStep.Frame | src/components/customer/FireworksBackground/index.tsx:343-515 | a frame keeps the engine well formed, never raises the tier, and moves the next launch time only when it was unset or due; a due launch reschedules the next one within the interval of the tier the frame ends in |
| BackgroundStep.Run | src/components/customer/FireworksBackground/index.tsx:583-589 | any run of frames keeps the engine well formed |
| BackgroundStep.RunConserves | src/components/customer/FireworksBackground/index.tsx:172-216 | over any run of frames the active and free lists together always hold every record exactly once |
| BackgroundStep.FreshRunConserves | src/components/customer/FireworksBackground/index.tsx:544-565 | from a fresh engine the two lists always hold exactly the initial tier's cap, whatever the tier has dropped to |
| BackgroundInput.FirstFinite | src/components/customer/FireworksBackground/index.tsx:150-170 | the coordinate is the first of three candidates that is a finite number, if any is |
| BackgroundInput.GetPointFromEvent | src/components/customer/FireworksBackground/index.tsx:150-170 | the event's detail point wins; otherwise the first touch or changed touch is used; otherwise there is no point |
| BackgroundInput.PointNeedsSource | src/components/customer/FireworksBackground/index.tsx:150-170 | an event yields a point only if it has a detail point or a touch |
| BackgroundInput.StepCount | src/components/customer/FireworksBackground/index.tsx:671-673 | a move lays 1 trail under 28 px, 2 under 42 px and 3 beyond |
| BackgroundInput.TrailPoints | src/components/customer/FireworksBackground/index.tsx:675-678 | the trail points are evenly spaced along the move and the last is the new touch point |
| BackgroundInput.SpawnTrails | src/components/customer/FireworksBackground/index.tsx:675-678 | min(points, room) trails are added, in order, one at each point |
| BackgroundInput.LayTrails | src/components/customer/FireworksBackground/index.tsx:668-678 | with room for every step the last trail sits at the new touch point |
| BackgroundInput.Tap | src/components/customer/FireworksBackground/index.tsx:624-630 | a tap with a point is a soft burst there; otherwise nothing changes |
| BackgroundInput.TouchStart | src/components/customer/FireworksBackground/index.tsx:632-642 | a touch start records the point and the time; with room it appends exactly the touch-trail record at that point, consuming six draws, and keeps every active particle; without room only the touch fields change |
| BackgroundInput.TouchEnd | src/components/customer/FireworksBackground/index.tsx:644-649 | a touch end forgets only the last touch point |
| BackgroundInput.MoveSteps | src/components/customer/FireworksBackground/index.tsx:668-673 | a move lays between 1 and 3 trails |
| BackgroundInput.MoveTo | src/components/customer/FireworksBackground/index.tsx:660-678 | an accepted move records the point and the time, adds min(steps, room) trails, and ends at the new point |
| BackgroundInput.TouchMove | src/components/customer/FireworksBackground/index.tsx:651-679 | a move without a point, or inside the tier's trail interval, changes nothing |
| CanvasParticle.Defaults | src/components/FireworksCanvas/particle.ts:45-97 | each type's defaults: a rocket rises at 4.5 to 8 px/frame with gravity 0.045 and decay 0.005; a spark decays at 0.01 to 0.025; a trail at 0.05 from alpha 0.8; any other type is still with decay 0.1 |
| CanvasParticle.Reset | src/components/FireworksCanvas/particle.ts:38-105 | reset takes position, colour and type from the request, lets each defined override replace the type's default, and forgets the old state |
| CanvasParticle.Update | src/components/FireworksCanvas/particle.ts:107-118 | an update applies friction, then gravity, moves by the new velocity and lowers alpha by the decay, changing nothing else |
| CanvasParticle.Draw | src/components/FireworksCanvas/particle.ts:120-133 | a particle draws nothing iff it is dead, and otherwise one disc at its position, size and alpha |
| CanvasParticle.UpdateNFade | src/components/FireworksCanvas/particle.ts:107-118 | after n updates the alpha has fallen by exactly n times the decay |
| CanvasParticle.FadesToDeath | src/components/FireworksCanvas/particle.ts:107-133 | with a positive decay the alpha falls at every update, and the particle is dead once n·decay reaches its alpha |
| CanvasParticle.ResetFades | src/components/FireworksCanvas/particle.ts:38-118 | a particle reset without overrides always fades out in finitely many updates |
| CanvasRenderer.MakePool | src/components/FireworksCanvas/renderer.ts:50-53 | the pool is built from n particles |
| CanvasRenderer.NewRenderer | src/components/FireworksCanvas/renderer.ts:50-53 | a new renderer has no live particles, a pool of 200 and an 800 ms launch interval |
| CanvasRenderer.FirstDead | src/components/FireworksCanvas/renderer.ts:60 | `findIndex(isDead)` returns the first dead particle, or none when all are alive |
| CanvasRenderer.SpawnParticle | src/components/FireworksCanvas/renderer.ts:57-77 | a spawn reuses the first dead particle, else pops the pool, else drops the request; the live and pooled particles add up to the same count |
| CanvasRenderer.SpawnNeverShrinks | src/components/FireworksCanvas/renderer.ts:57-77 | spawning never shortens the live list, and keeps its length only when it reuses a dead particle or the pool is empty |
| CanvasRenderer.ExplodeLoop | src/components/FireworksCanvas/renderer.ts:97-105 | the loop issues n spark requests at the point, in spark colours, and conserves the particle count |
| CanvasRenderer.Explode | src/components/FireworksCanvas/renderer.ts:93-106 | an explosion requests 60 to 89 sparks at the point |
| CanvasRenderer.AddTouchTrail | src/components/FireworksCanvas/renderer.ts:109-120 | a touch requests two trails within 5 px of the point, in trail colours |
| CanvasRenderer.LaunchRocket | src/components/FireworksCanvas/renderer.ts:80-90 | a gold rocket on the bottom edge, in the middle 80% of the width, takes the first dead slot (other slots unchanged) or is appended from the pool, or the request is dropped when neither exists; both arrays together keep their size and the active list never shrinks |
| CanvasRenderer.RocketStartX | src/components/FireworksCanvas/renderer.ts:81 | the rocket starts within the middle 80% of the width |
| CanvasRenderer.AutoLaunch | src/components/FireworksCanvas/renderer.ts:131-136 | a rocket launches only once the interval has passed since the last launch |
| CanvasRenderer.VisitParticle | src/components/FireworksCanvas/renderer.ts:149-168 | one particle step conserves the count, and a live rocket explodes once it stops rising or passes the top quarter |
| CanvasRenderer.ParticleLoop | src/components/FireworksCanvas/renderer.ts:149-169 | the particle loop conserves the count and never shortens the live list |
| CanvasRenderer.Tick | src/components/FireworksCanvas/renderer.ts:127-172 | a frame conserves the count, keeps the size, and records a launch when the interval passed |
| CanvasRenderer.TicksConserve | src/components/FireworksCanvas/renderer.ts:57-77 | over any run of frames, live plus pooled particles stay constant |
| CanvasRenderer.FreshRendererConserves | src/components/FireworksCanvas/renderer.ts:50-53 | from a fresh renderer there are always exactly 200 particles, live or pooled |
| CanvasLoop.StartAsWritten | src/components/FireworksCanvas/renderer.ts:123-127 | `start` is a no-op while running; otherwise it queues a loop callback without storing its handle |
| CanvasLoop.StopAsWritten | src/components/FireworksCanvas/renderer.ts:177-183 | `stop` clears the flag, and without a stored handle cancels nothing |
| CanvasLoop.FireAsWritten | src/components/FireworksCanvas/renderer.ts:127-128 | a queued callback runs a frame and re-queues itself while running, and otherwise dies out |
| CanvasLoop.HandleNeverStored | src/components/FireworksCanvas/renderer.ts:174 | no sequence of calls ever stores a frame handle |
| CanvasLoop.RestartDoublesLoop | src/components/FireworksCanvas/renderer.ts:174-183 | start, stop, start before a frame leaves two loop chains, so each animation frame runs two particle frames |
| CanvasLoop.StartFixed | src/components/FireworksCanvas/renderer.ts:123-127 | corrected `start` stores the new handle |
| CanvasLoop.StopFixed | src/components/FireworksCanvas/renderer.ts:177-183 | corrected `stop` cancels the queued callback |
| CanvasLoop.FireFixed | src/components/FireworksCanvas/renderer.ts:127-128 | a queued callback runs a frame while running, and otherwise dies out |
| CanvasLoop.StepFixedKeepsSingleChain | src/components/FireworksCanvas/renderer.ts:123-183 | with the handle stored, each call keeps exactly one chain while running and none while stopped |
| CanvasLoop.FixedNeverDoubles | src/components/FireworksCanvas/renderer.ts:123-183 | with the handle stored, no call sequence ever queues a second chain |
| CanvasLoop.RestartFixed | src/components/FireworksCanvas/renderer.ts:174-183 | with the handle stored, start, stop, start leaves exactly one chain |
| SearchHistory.Without | src/hooks/useSearchHistory.ts:32 | filtering removes every occurrence of the keyword and keeps the others with their multiplicities |
| SearchHistory.WithoutConcat | src/hooks/useSearchHistory.ts:32 | filtering distributes over concatenation, so survivors keep their order |
| SearchHistory.AddHistory | src/hooks/useSearchHistory.ts:27-41 | a blank keyword changes nothing; otherwise the keyword leads, occurs once, the list has at most 10 entries, and the rest come from the old list |
| SearchHistory.AddHistoryKeepsOrder | src/hooks/useSearchHistory.ts:32-33 | behind the new keyword come the other old entries in their old order, cut to 9 |
| SearchHistory.AddHistoryNoDup | src/hooks/useSearchHistory.ts:32-33 | adding keeps the history free of duplicates |
| SearchHistory.AddHistoryIdempotent | src/hooks/useSearchHistory.ts:27-41 | searching a keyword twice in a row equals searching it once |
| SearchHistory.RemoveHistory | src/hooks/useSearchHistory.ts:44-54 | removal drops every occurrence and keeps every other keyword's count |
| SearchHistory.RemoveAfterAdd | src/hooks/useSearchHistory.ts:27-54 | removing a keyword just searched leaves the other recent keywords in order |
| SearchHistory.ClearHistory | src/hooks/useSearchHistory.ts:57-64 | clearing yields the empty history |
| Wishlist.NumberOr | src/hooks/useWishlist.ts:38-41 | `Number(x ?? d)` gives d for a missing or null field and the number itself for a number |
| Wishlist.StringOr | src/hooks/useWishlist.ts:37-39 | `String(x ?? '')` gives "" for a missing or null field and the string itself for a string |
| Wishlist.Decode | src/hooks/useWishlist.ts:35-42 | a stored element decodes with price 0, quantity 1 and addedAt now for missing fields |
| Wishlist.DecodeAll | src/hooks/useWishlist.ts:35-43 | only decoded elements with a finite positive product id survive, each one the decoding of some stored element, and never more items than elements |
| Wishlist.DecodeAllComplete | src/hooks/useWishlist.ts:35-43 | every stored element whose decoded product id is finite and positive is among the loaded items |
| Wishlist.DecodeAllConcat | src/hooks/useWishlist.ts:35-43 | decoding and filtering distributes over concatenation, so the kept items are in stored order |
| Wishlist.DecodeAllKeepsValid | src/hooks/useWishlist.ts:35-43 | when every element has a valid id the filter drops nothing: the result is every element decoded, in order |
| Wishlist.DecodeAllDropsInvalid | src/hooks/useWishlist.ts:43 | elements without a valid id are all dropped |
| Wishlist.Load | src/hooks/useWishlist.ts:28-47 | anything but an array loads as the empty list; an array loads as exactly its decoded elements with a valid id, each kept item from some element and every valid element kept |
| Wishlist.Persist | src/hooks/useWishlist.ts:49-51 | persisting writes one encoded element per item, in order |
| Wishlist.PersistLoad | src/hooks/useWishlist.ts:28-51 | storable items read back unchanged after persisting |
| Wishlist.ReloadedQuantity | src/hooks/useWishlist.ts:40 | a quantity that is no longer finite reads back as 1 |
| Wishlist.NewItem | src/hooks/useWishlist.ts:97-104 | a new entry copies id and name, takes price `|| 0`, the first image or "", quantity 1 and the current time |
| Wishlist.AddItem | src/hooks/useWishlist.ts:86-110 | a falsy id writes nothing; a listed product counts one more; a new product is appended with quantity 1 |
| Wishlist.RemoveItem | src/hooks/useWishlist.ts:112-115 | removal keeps exactly the items of other products |
| Wishlist.UpdateQuantity | src/hooks/useWishlist.ts:117-121 | a non-finite quantity or one below 1 writes nothing; otherwise every item of the product gets it and the others are unchanged |
| Wishlist.Count | src/hooks/useWishlist.ts:126 | the count is finite exactly when every quantity is, and a single NaN quantity makes it NaN |
| Wishlist.Total | src/hooks/useWishlist.ts:125 | the total is finite exactly when every price and quantity is, and a single NaN price or quantity makes it NaN |
| Wishlist.ClearAll | src/hooks/useWishlist.ts:123-126 | clearing leaves no items, a count of 0 and a total of 0 |
| Wishlist.CountIsSum | src/hooks/useWishlist.ts:126 | with finite quantities the count equals the plain sum of the quantities |
| Wishlist.AddItemCount | src/hooks/useWishlist.ts:86-110 | every successful add raises the count by exactly one |
| Wishlist.AddItemUnique | src/hooks/useWishlist.ts:90-105 | adding never creates a second entry for a product |
| Wishlist.RemoveAfterAdd | src/hooks/useWishlist.ts:86-115 | removing a product just added leaves what removing it would have left before |
| Wishlist.UpdateQuantityIdempotent | src/hooks/useWishlist.ts:117-121 | setting the same quantity twice equals setting it once |
| Wishlist.RemoveItemSum | src/hooks/useWishlist.ts:112-126 | removing a product lowers the count exactly as zeroing its quantities would |
| ImageStorage.Qualities | src/services/storage.ts:64-66 | the QR slot tries qualities 100, 95, 90, 85 and the others 80, 60, 40, each list strictly decreasing |
| ImageStorage.CompressImage | src/services/storage.ts:32-43 | a failed compression falls back to the original path |
| ImageStorage.FirstFit | src/services/storage.ts:68-74 | the result is the first quality's output whose size is known and at most 2 MiB, or none when none fits |
| ImageStorage.CompressToUnderLimit | src/services/storage.ts:62-82 | a fitting compression wins; otherwise the original is refused exactly when its size is known to exceed 2 MiB, and is kept otherwise |
| ImageStorage.AcceptedNeverKnownTooLarge | src/services/storage.ts:62-82 | an accepted file is never one known to exceed 2 MiB |
| ImageStorage.CompressorDown | src/services/storage.ts:32-82 | with compression failing throughout, the original itself is judged |
| ImageStorage.ExtAsWritten | src/services/storage.ts:98 | as written, the extension is the non-empty text after the last dot of the whole path, `jpg` when that text is empty, and the whole path when it has no dot |
| ImageStorage.ExtFixed | src/services/storage.ts:98 | corrected, the extension is taken from the file name after the last slash, "jpg" when the name has no dot |
| ImageStorage.ExtAgreeOnNamedFiles | src/services/storage.ts:98 | on a bare file name with an extension, both readings agree |
| ImageStorage.ExtAsWrittenKeepsDirectories | src/services/storage.ts:98 | as written, a dotless temporary path becomes its own "extension", slashes included |
| ImageStorage.CloudPath | src/services/storage.ts:100-102 | the path is the folder (`products/<id>/` for a truthy id, else `products/temp/`), then `<slot>_<timestamp>.`, then the extension |
| ImageStorage.CloudPathSlashes | src/services/storage.ts:100-102 | the cloud path has two slashes plus those of the extension |
| ImageStorage.CloudPathFixedDepth | src/services/storage.ts:98-102 | with the corrected extension, every cloud path is exactly two folders deep |
| ImageStorage.CloudPathAsWrittenTooDeep | src/services/storage.ts:98-102 | as written, a dotless temporary path produces a cloud path deeper than two folders |
| ImageStorage.UploadName | src/services/storage.ts:98-102 | the corrected upload name is two folders deep and ends in the corrected extension |
| ImageUploader.Percent | src/components/admin/ProductImageUploader/index.tsx:96 | clamping an integer to [0, 100] keeps values inside and pins the others to the nearer bound |
| ImageUploader.SafeProgress | src/components/admin/ProductImageUploader/index.tsx:95-98 | progress is the rounded value clamped to a whole number in [0, 100], NaN stays NaN, and ±Infinity becomes 100 or 0 |
| ImageUploader.SafeProgressWhole | src/components/admin/ProductImageUploader/index.tsx:96 | a whole percentage passes through unchanged |
| ImageUploader.UploadErrorMessage | src/components/admin/ProductImageUploader/index.tsx:104-112 | an error's own message is shown iff it is non-blank text, else the default; never blank |
| ImageUploader.SlotErrorText | src/components/admin/ProductImageUploader/index.tsx:164-167 | the upload error wins over the validation error, and an empty message counts as none |
| ImageUploader.FailedUploadShown | src/components/admin/ProductImageUploader/index.tsx:127-129 | a failed upload always puts a non-blank error under the slot |
| ImageUploader.Report | src/components/admin/ProductImageUploader/index.tsx:124 | the slot shows the last progress report sanitised, other slots unchanged |
| ImageUploader.HandleUpload | src/components/admin/ProductImageUploader/index.tsx:115-133 | a disabled or busy slot changes nothing; otherwise success sets only that slot's image, failure sets its error, and the slot is idle afterwards |
| ImageUploader.HandleDelete | src/components/admin/ProductImageUploader/index.tsx:136-148 | a disabled, busy or unconfirmed delete changes nothing; otherwise only that slot is emptied |
| ImageUploader.DeleteKeepsOtherSlots | src/components/admin/ProductImageUploader/index.tsx:144 | deleting one slot never touches another |
| ImageUploader.PreviewUrls | src/components/admin/ProductImageUploader/index.tsx:156 | the preview list holds exactly the non-empty images, one per non-empty slot |
| ImageUploader.PreviewOrder | src/components/admin/ProductImageUploader/index.tsx:156 | the main image comes first and the QR image last when present |
| ImageUploader.ValidateProductImages | src/components/admin/ProductImageUploader/index.tsx:249-267 | main and QR errors appear iff those images are empty, and the images are valid iff there are no errors |
| ImageUploader.ValidateIgnoresDetail | src/components/admin/ProductImageUploader/index.tsx:249-267 | the detail image never affects validation |
| ImageUploader.UploadsMakeValid | src/components/admin/ProductImageUploader/index.tsx:115-133 | uploading a main and a QR image makes the images valid |
| ImageUploader.CompleteAsWritten | src/components/admin/ProductImageUploader/index.tsx:126 | as written, a completed upload writes its slot over the images seen when it began |
| ImageUploader.CompleteFixed | src/components/admin/ProductImageUploader/index.tsx:126 | corrected, a completed upload writes its slot over the current images |
| ImageUploader.OverlapLosesFirstUpload | src/pages/admin/products/edit/index.tsx:196-200 | as written, two overlapping uploads to different slots lose the first one's image |
| ImageUploader.OverlapKeepsBothUploads | src/pages/admin/products/edit/index.tsx:196-200 | corrected, both overlapping uploads keep their images |
| ImageUploader.CompletionsAgreeWhenSequential | src/components/admin/ProductImageUploader/index.tsx:126 | without overlap, both versions set exactly the uploaded slot |
| ProductForm.StockValue | src/pages/admin/products/edit/index.tsx:255 | `parseInt(stock) \|\| 0` is always a finite whole number: the parsed value when truthy, else 0 |
| ProductForm.PriceOfDecimal | src/pages/admin/products/edit/index.tsx:214-218 | a positive whole price is accepted and parsed to itself |
| ProductForm.NonPositivePriceRejected | src/pages/admin/products/edit/index.tsx:214-218 | a zero or negative price is rejected |
| ProductForm.StockOfDecimal | src/pages/admin/products/edit/index.tsx:255 | a whole stock is sent as itself |
| ProductForm.ArrayToImages | src/pages/admin/products/edit/index.tsx:44-48 | slot k takes the k-th array entry, or "" when the array is shorter |
| ProductForm.ImagesToArray | src/pages/admin/products/edit/index.tsx:51-55 | the array has three entries, main, detail and QR in that order |
| ProductForm.ImagesRoundTrip | src/pages/admin/products/edit/index.tsx:44-55 | images to array and back is the identity |
| ProductForm.ArrayRoundTrip | src/pages/admin/products/edit/index.tsx:44-55 | array to images and back pads or cuts to three entries, and is the identity on three |
| ProductForm.FindCategory | src/pages/admin/products/edit/index.tsx:160 | `find` stops at the first category whose id is strictly equal |
| ProductForm.CategoryText | src/pages/admin/products/edit/index.tsx:158-162 | the picker text is never empty: the placeholder for a falsy id, otherwise the name of a category with that id |
| ProductForm.CategoryTextOfListed | src/pages/admin/products/edit/index.tsx:158-162 | a listed category with a name shows that name |
| ProductForm.CategoryTextOfUnlisted | src/pages/admin/products/edit/index.tsx:158-162 | an unlisted id shows the placeholder |
| ProductForm.ConfirmCategory | src/pages/admin/products/edit/index.tsx:174-185 | the choice changes only to a finite number, and string values go through `Number` |
| ProductForm.ConfirmDecimalText | src/pages/admin/products/edit/index.tsx:176-178 | a decimal string picks that id |
| ProductForm.ConfirmBlankText | src/pages/admin/products/edit/index.tsx:176-178 | a blank string picks id 0, which validation then rejects |
| ProductForm.StatusOf | src/pages/admin/products/edit/index.tsx:188-193 | the switch on means on shelf, and off means off shelf |
| ProductForm.StatusSwitchRoundTrip | src/pages/admin/products/edit/index.tsx:188-193 | the switch shows the status and toggling it back restores it |
| ProductForm.ValidateEdit | src/pages/admin/products/edit/index.tsx:203-236 | an error is flagged for a blank name, an invalid price, a falsy category and missing images; the form is valid iff none is flagged |
| ProductForm.SubmitEdit | src/pages/admin/products/edit/index.tsx:239-259 | a request is sent iff the form is valid and the route has an id; it carries the trimmed name and description, the parsed price and stock, and three images |
| ProductForm.LoadForm | src/pages/admin/products/edit/index.tsx:139-149 | loading shows the price through `toString`, shows the whole stock as digits that read back as the stock, copies name and status, keeps a truthy category, defaults the description to "" and pads the images |
| ProductForm.SaveUnchanged | src/pages/admin/products/edit/index.tsx:139-259 | saving a loaded, valid product without edits sends back its own values, fractional prices included, whenever the price's text reads back as the price |
| ProductForm.PriceTextValid | src/pages/admin/products/edit/index.tsx:214-216 | any text that `parseFloat` reads as a positive number passes the price check |
| ProductForm.EmptyIsNaN | src/pages/admin/products/edit/index.tsx:214-215 | `parseFloat('')` is NaN, so an empty price text never reads back as a number |
| ProductForm.WholePriceReadsBack | src/pages/admin/products/edit/index.tsx:141 | a whole price rendered as its decimal digits parses back to itself |
| ProductForm.FractionalPriceReadsBack | src/pages/admin/products/edit/index.tsx:253 | the text `19.9` parses back to the fractional price 19.9, so the round trip is not limited to whole prices |
| ProductForm.UploaderProductId | src/pages/admin/products/edit/index.tsx:417 | the uploader gets `Number(id)` for a non-empty route id, else nothing |
| ProductForm.UploaderProductIdOfDecimal | src/pages/admin/products/edit/index.tsx:417 | a decimal route id reaches the uploader as that number |
| ProductForm.OptionText | src/pages/admin/products/add/index.tsx:59-62 | a known option value shows its label, and anything else shows the placeholder |
| ProductForm.ConfirmAddCategory | src/pages/admin/products/add/index.tsx:74-79 | a non-empty choice replaces the category, and nothing else changes |
| ProductForm.ValidateAdd | src/pages/admin/products/add/index.tsx:81-98 | an error is flagged exactly for a blank name and an invalid price |
| ProductForm.SubmitAdd | src/pages/admin/products/add/index.tsx:100-114 | a request is sent iff name and price are valid, with the trimmed fields and the parsed price and stock |
| ProductForm.InitialAddFormRejected | src/pages/admin/products/add/index.tsx:36-42 | the untouched add form fails on both name and price |
| ProductForm.EditRulesIncludeAddRules | src/pages/admin/products/add/index.tsx:81-98 | whatever the edit page accepts, the add page accepts too |
| CategoryForm.CheckCategoryName | src/pages/admin/categories/add/index.tsx:22-37 | the name is missing iff it is blank, too long iff its trimmed length exceeds 50, and otherwise the trimmed name is used |
| CategoryForm.CheckCategoryNameIdempotent | src/pages/admin/categories/add/index.tsx:23-41 | an accepted name is accepted again unchanged |
| CategoryForm.InputCapNeverTooLong | src/pages/admin/categories/add/index.tsx:94 | a name within the input's 50-character cap is never rejected as too long |
| CategoryForm.CheckIgnoresSurroundingSpace | src/pages/admin/categories/add/index.tsx:23-37 | surrounding white space never changes the verdict |
| CategoryForm.SubmitAddCategory | src/pages/admin/categories/add/index.tsx:22-41 | a create request with the trimmed name iff the name checks pass, else the check's toast |
| CategoryForm.RouteCategoryId | src/pages/admin/categories/edit/index.tsx:13 | a missing route id is NaN, and a present one is `Number` of it |
| CategoryForm.LoadCategory | src/pages/admin/categories/edit/index.tsx:23-39 | the detail request goes out iff the id is finite and positive, else "参数错误" |
| CategoryForm.DecimalRouteIdAccepted | src/pages/admin/categories/edit/index.tsx:13-39 | a positive decimal route id is requested as that number |
| CategoryForm.BadRouteIdsRefused | src/pages/admin/categories/edit/index.tsx:13-35 | missing, empty, zero and negative ids are refused |
| CategoryForm.SubmitEditCategory | src/pages/admin/categories/edit/index.tsx:62-84 | an update with the loaded id, the trimmed name and the status iff the name checks pass |
| CategoryForm.SameNameRuleOnBothPages | src/pages/admin/categories/edit/index.tsx:62-84 | the add and edit pages accept and send exactly the same names |
| Inquiry.SubmitInquiry | src/pages/inquiry/create/index.tsx:32-56 | an empty wishlist, then a blank phone, then a malformed phone are refused in that order; otherwise the trimmed phone, the WeChat id (omitted when blank) and every wishlist line are sent |
| Inquiry.Lines | src/pages/inquiry/create/index.tsx:55 | one line per wishlist item, with its product id and quantity |
| Inquiry.PhoneSpacesIgnored | src/pages/inquiry/create/index.tsx:38-53 | white space around a valid phone number is not held against it |
| Inquiry.SnapshotAfter | src/pages/inquiry/create/index.tsx:59-65 | the snapshot keeps the share code, the trimmed phone and WeChat id and the items |
| Inquiry.FindSnapshot | src/pages/inquiry/share/index.tsx:41-47 | the stored snapshot is used iff its share code is non-empty and equals the route's |
| Inquiry.CreateThenShare | src/pages/inquiry/create/index.tsx:59-67 | the share page reached by the redirect finds the snapshot just stored |
| Inquiry.OtherCodeFindsNothing | src/pages/inquiry/share/index.tsx:32-47 | without a code, or with another inquiry's code, no summary is shown |
| Inquiry.ItemLines | src/pages/inquiry/share/index.tsx:22-24 | one `- name xquantity` line per item, in order |
| Inquiry.SummaryLines | src/pages/inquiry/share/index.tsx:17-27 | the summary has the item count plus five lines |
| Inquiry.SummaryRoundTrip | src/pages/inquiry/share/index.tsx:17-28 | splitting the copied summary at line breaks gives back the title, the heading, every item line in order and the contact line |
| Inquiry.ContactMentionsWechat | src/pages/inquiry/share/index.tsx:26 | the WeChat suffix appears iff a WeChat id was given |
| NavBar.StatusBarHeight | src/hooks/useNavBarMetrics.ts:11-23 | the status bar is the reported finite non-zero height, else 20 |
| NavBar.NavBarHeight | src/hooks/useNavBarMetrics.ts:29-46 | the bar is the capsule's gap twice plus its height when finite and positive, else 44; always positive |
| NavBar.GetMetrics | src/hooks/useNavBarMetrics.ts:10-53 | the total is the status bar plus the navigation bar |
| NavBar.NothingReportedIsFallback | src/hooks/useNavBarMetrics.ts:55-62 | a platform that reports nothing gives the hook's fallback 20/44/64 |
| NavBar.CapsuleCentred | src/hooks/useNavBarMetrics.ts:37-40 | a capsule `gap` below the status bar gives a bar of its height plus that gap above and below |
| NavBar.ZeroStatusBarIsDefault | src/hooks/useNavBarMetrics.ts:21-23 | a reported height of 0 counts as unreported |
| Auth.Read | src/hooks/useAuth.ts:16-17 | a missing key reads as a falsy value |
| Auth.GetToken | src/hooks/useAuth.ts:29-37 | the token is returned iff token and expiry are truthy and now is before the expiry |
| Auth.CheckAuth | src/hooks/useAuth.ts:15-24 | the check agrees with `getToken` and ends loading |
| Auth.RequireAuth | src/hooks/useAuth.ts:62-78 | access is allowed iff the session is live, and a redirect to login follows otherwise |
| Auth.ClearAuth | src/hooks/useAuth.ts:124-127 | both session keys are removed and every other key is kept |
| Auth.Logout | src/hooks/useAuth.ts:42-57 | logout clears the session keys and reports signed out |
| Auth.SignedOutAfterClear | src/hooks/useAuth.ts:42-57 | after logout nobody is signed in, at any time |
| Auth.SessionLiveEarlier | src/hooks/useAuth.ts:102-106 | a session live now was live at every earlier moment |
| Auth.ExpiredStaysExpired | src/hooks/useAuth.ts:102-106 | an expired session stays expired |
| Auth.LoginWindow | src/hooks/useAuth.ts:111-119 | a token stored with a numeric expiry is honoured exactly until that instant |

## Left out

- **Drawing:**
  - Nothing that reaches a canvas context is modelled: gradients, composite modes, `arc`, `fillRect`, the fade rectangle.
  - The background's per-particle draw-time random test is modelled only as one consumed draw.
  - `CanvasParticle.Draw` models what would be drawn as a value.
- **Floating point:** numbers are exact reals. Rounding and overflow of IEEE doubles are not modelled, and neither is `Math.round`'s handling of halves beyond the `Round` helper.
- **Canvas setup and host glue:**
  - Canvas setup, the device pixel ratio and resize (`renderer.ts:185-191`) are not modelled.
  - Neither is the React glue around both engines: the `useReady` and `useUnload` hooks, `active` toggling, visibility and reduced-motion checks.
- **Background engine:**
  - The `!p.active` guard inside the sweep is not modelled: the active list holds only active records (the `Wf` invariant), so that branch cannot run.
  - `BackgroundStep.RocketFlight`: the rocket safety net is modelled as the code has it. A rocket with under 60 ms of life bursts at once when it is at or above 62% of the screen height. Below that line its `lifeMs` is set back to 220 and its `maxLifeMs` raised by 220, so a rocket's remaining life is not monotone. No contract claims it is.
  - `BackgroundStep.RocketFlight`: rockets that leave the view are recycled without a burst, as the code does.
  - `BackgroundStep.Frame`: after a downgrade the active list can exceed the new cap. `DowngradeKeepsParticles` states that, rather than a cap invariant.
  - `BackgroundStep.Run`: the host's frame scheduling (`requestAnimationFrame`, `stop`/`start` of that engine) is replaced by an explicit list of frame timestamps.
- **Catalog storage and network:**
  - Taro storage is modelled as values or maps handed in. Network requests, toasts, modals, navigation and timers are not modelled; the model stops at the request body or the redirect decision.
  - `Wishlist.Load`: `JSON.parse` of text is not modelled; stored text that does not parse behaves like non-array data. Nested arrays inside item fields are not modelled.
  - `Wishlist.DecodeAll`: one `now` stands for every element's missing `addedAt`. The code calls `Date.now()` once per element inside the `.map` (src/hooks/useWishlist.ts:41), so those timestamps may differ by the time the map takes.
  - The wishlist's cross-page change event and `reload` are not modelled.
  - The search history's initial `JSON.parse` load is not modelled; only the list transforms are.
  - The inquiry create page's `itemCount` (`src/pages/inquiry/create/index.tsx:30`) has no member of its own: it is the same sum of quantities as the wishlist's count, covered by `Wishlist.CountIsSum`.
  - `ImageStorage.Folder`: the product id is an optional integer, so a fractional or NaN product id is not modelled (NaN would be falsy and go to `products/temp/`).
  - `ImageStorage.CompressToUnderLimit`: the compressor and the file-size query are a `FileHost` parameter.
  - The non-cloud upload path (`uploadToLocal`, src/services/storage.ts:116) and `chooseImage` are not modelled.
- **Upload concurrency:** `ImageUploader.HandleUpload` treats one upload as a single step from its start to its outcome. Overlapping uploads are modelled only through `CompleteAsWritten` and `CompleteFixed`.
- **Number rendering:** a non-integer quantity or price is rendered through a `fraction`/`numText` parameter. JavaScript's shortest-round-trip number printing is not modelled.
- **Product edit page:**
  - `ProductForm.LoadForm`: a product's stock is modelled as a whole number, because both product pages submit `parseInt(stock, 10) || 0`. A stock stored by other means with a fraction is not modelled. The price is any real number, and its `toString` text is the `numText` parameter.
  - `ProductForm.SaveUnchanged`: the round trip assumes the price's `toString` text parses back to the price. That holds for JavaScript's shortest round-trip rendering of a finite number, which is not modelled; `WholePriceReadsBack` and `FractionalPriceReadsBack` prove it for whole prices and for 19.9.
  - `ProductForm.SubmitEdit`: a price text of "Infinity" passes validation and is sent as Infinity, as in the code.
  - The clearing of individual error messages on typing is not modelled.
  - The category list load is not modelled; the list is a parameter.
- **Inquiry pages:**
  - The agent code (`useAgentCode`) is a parameter.
  - The create page's header-height computation is not modelled; it is separate from `NavBar`.
  - The snapshot stored as text and parsed with `JSON.parse` is not modelled; only the stored object is.
- **Session:** how the token is obtained (the login page) is outside the model. The clock is a parameter.

## Findings

| source | as written | input that shows it | evidently intended | confidence | as-written member | corrected member |
|---|---|---|---|---|---|---|
| src/components/FireworksCanvas/renderer.ts:174-183 | `start` never stores the handle `requestAnimationFrame` returns, so `stop` never cancels the queued callback | `start(); stop(); start()` before the next frame: two loop chains run, and every animation frame runs two particle frames | `start` stores the handle and `stop` cancels it, so exactly one chain runs while started | not executed; follows from the scheduling model | CanvasLoop.RestartDoublesLoop | CanvasLoop.FixedNeverDoubles |
| src/services/storage.ts:98 | the extension is taken after the last `.` of the whole path, so a path without a dot in its file name yields the directory part | `wxfile://tmp_abc` yields the extension `wxfile://tmp_abc`, and the cloud path gains extra folders | the extension comes from the file name, with `jpg` as the default | not executed; depends on the host handing out such a path | ImageStorage.CloudPathAsWrittenTooDeep | ImageStorage.CloudPathFixedDepth |
| src/components/admin/ProductImageUploader/index.tsx:126 | a finished upload calls `onChange({ ...images, [slot]: url })` with the images it saw when it began, and the edit page replaces its images with that | main and QR uploads overlap and the main one finishes first: the QR completion writes back the old, empty main image | each completion updates only its own slot of the current images | not executed; needs two uploads in flight | ImageUploader.OverlapLosesFirstUpload | ImageUploader.OverlapKeepsBothUploads |
