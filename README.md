# DinoX endless runner: a Dafny model of its core

DinoX is a small browser endless runner written as one script (`Script.js`).
A player box falls under gravity and jumps. Obstacles and coins spawn at the
right edge and scroll left. Passing an obstacle earns 5 points and speeds the
game up. Touching an obstacle ends the run. Touching a coin credits one coin
to a persistent economy. The economy is saved and merged back over defaults
on load, and it pays for skins and permanent perks in a shop.

The model has five modules:

- `Geometry`: `clamp`, the rectangle/rectangle test used for player versus
  obstacle, and the circle/rectangle test used for coin versus player.
  - Each test is proved equal to its geometric meaning: the two closed boxes
    share a point, or some point of the box lies within the disc.
- `Shade`: `shadeHex`, the colour helper used to draw skins.
  - It is modelled on strings: hex parsing, the channel split, the shift
    with clamping, and re-encoding.
  - Proved: the output is a well-formed `#rrggbb`, its channels are the
    input's channels shifted and clamped, a shift by 0 is the identity on
    `#rrggbb` input, and two shifts of the same sign compose.
  - The classic skin's accent `#fff` is read as 0x000fff, not as CSS white.
- `Economy`: the persisted record and the shop.
  - The record is coins, best score, owned and active skin, and four perk
    flags.
  - The shop's buttons are pure functions returning a `Result`: buy a skin,
    activate an owned skin, buy a perk, or a disabled button for an owned
    perk.
  - `loadState`'s shallow merge is modelled over a parsed save record whose
    fields may be missing.
  - The mutable `state` object is the class `Store`. Its methods are proved
    against the pure functions.
- `Entities`: obstacles and coins and what one frame does to each of them,
  as functions.
  - Scroll, mark as passed, magnet pull, collect, and the sweep of what left
    the screen.
  - Counts of first passes and of collections, and the speed-up as a
    closed form.
- `Runner`: the player object (class `Player`) and the game's run-scoped
  variables (class `Game`).
  - Per-frame: `loop`'s body, as `Tick` and the phases it calls.
  - Commands: `jump`, `togglePause`, `openShop`'s pause, the backdrop click,
    `startRun` and `init`.
  - `spawnObstacle` and `spawnCoin`.
  - The shop's click handlers.

Every random draw (`Math.random()`) is a parameter in [0, 1). The magnet's
per-coin pull is a parameter too (see "Left out").

The frame's two loops are `while` loops:
- The obstacle loop is proved against `Runner.MeetAll`, which
  `MeetAllSpec` ties to the `Entities` functions.
- The coin loop is proved against `Entities.CoinStepAll` and
  `Collections`.

`init`'s loop of three `spawnCoin` calls is written out as three calls.
`Game.Valid()` is the invariant that holds between frames:

- the score is non-negative;
- the speed stays in [4, 12];
- the player never sinks below the ground, and an airborne player has no
  jump left;
- the run is over exactly when the player is dead;
- every listed obstacle and coin is still on screen, and no coin in the
  list has been collected.

Some behaviour of the code is proved, not assumed:

- `jump()` decrements `jumpsLeft` on every jump, from the ground too, so an
  airborne player never has a jump left. A jump in the air never fires, with
  or without the double-jump perk.
- The shield branch of the obstacle loop cannot be reached.
- Entities that merely touch the player count: an obstacle edge-to-edge with
  the player kills, and a coin tangent to the player's box is collected.

## Model

| member | source | states |
|---|---|---|
| Geometry.Clamp | Script.js:75 | The result lies in [lo, hi]: it is v when v is inside, lo below, hi above. It is lo when lo > hi. |
| Geometry.RectIntersect | Script.js:214-216 | True exactly when the boxes overlap along both axes, with touching edges included. |
| Geometry.RectIntersectSymmetric | Script.js:214-216 | The test gives the same answer whichever box is the player. |
| Geometry.RectIntersectMeansSharedPoint | Script.js:214-216 | For boxes of non-negative size, the test holds if and only if the two closed boxes share a point. |
| Geometry.TouchingRectsIntersect | Script.js:214-216 | Boxes whose edges only touch count as intersecting, in both orders. |
| Geometry.ClampIsNearest | Script.js:224-225 | The clamped coordinate is the point of [lo, hi] nearest to v. |
| Geometry.CircleRectIntersect | Script.js:217-229 | A coin whose centre lies in the box is collected, whatever its radius. The full meaning is stated by CircleRectMeansReachablePoint. |
| Geometry.CircleRectMeansReachablePoint | Script.js:217-229 | The circle/rect test holds if and only if some point of the closed box lies within the closed disc. |
| Geometry.TangentCoinCollected | Script.js:217-229 | A disc tangent to the box counts as intersecting it; a disc one unit further away does not. |
| Shade.ParseHex | Script.js:304 | The value of k hex digits is below 16^k. |
| Shade.ToHex | Script.js:309 | Writes exactly n lower-case hex digits. |
| Shade.ParseToHex | Script.js:304-309 | Writing a value in n digits and parsing it back gives the value, when it fits. |
| Shade.ToHexOfParse | Script.js:304-309 | Parsing lower-case digits and writing them back in as many digits gives them unchanged. |
| Shade.ColourValue | Script.js:304 | The input's value, with or without '#', fits in 24 bits. |
| Shade.ClampInt | Script.js:308 | clamp on integer channels: the result is in [lo, hi] and equals v when v is inside. |
| Shade.ChannelsOfPack | Script.js:305-309 | Splitting a packed colour gives back its three channels. |
| Shade.PackOfChannels | Script.js:305-309 | The three channels of a 24-bit value are bytes, and packing them gives the value back. |
| Shade.ClampShiftCompose | Script.js:305-308 | Two clamped shifts of the same sign on one channel equal one clamped shift by their sum. |
| Shade.ShadeHex | Script.js:302-310 | The output is '#' followed by exactly six lower-case hex digits, so it is well-formed input again. |
| Shade.ShadeHexChannels | Script.js:302-310 | Each output channel is the input channel plus percent, clamped to 0..255. |
| Shade.ShadeHexZeroIdentity | Script.js:302-310 | A shift by 0 returns a lower-case '#rrggbb' input unchanged. |
| Shade.ShadeHexCompose | Script.js:302-310 | Shading by p and then q, both of one sign, equals shading by p + q. |
| Shade.ClassicAccentStripe | Script.js:302-310 | The classic accent '#fff' darkened by 10 gives '#0005f5': the digits are read as 0x000fff. |
| Entities.Rand | Script.js:74 | A draw u in [0, 1) scaled to [min, max) stays in [min, max], and below max when min < max. |
| Entities.Round | Script.js:108 | Math.round rounds to the nearest integer, with halves rounded up. |
| Entities.RoundedDrawInRange | Script.js:108-113 | A rounded draw between integral bounds stays within those bounds. |
| Entities.AdvanceAll | Script.js:154-155 | The obstacle loop leaves as many obstacles as it found; AdvanceAllIndex gives each one. |
| Entities.AdvanceSpec | Script.js:155-163 | An obstacle scrolls by exactly the run speed and keeps its shape. It is marked passed exactly when its right edge is strictly left of the player. A first pass happens once only. |
| Entities.AdvanceAllIndex | Script.js:154-163 | The loop advances each obstacle in place: result i is obstacle i advanced. |
| Entities.Passes | Script.js:157-160 | First passes in a frame are at most the number of obstacles. |
| Entities.PassesOfPassed | Script.js:157-160 | Obstacles already passed earn no further bonus. |
| Entities.Bump | Script.js:162 | One speed-up is either +0.02 or the cap 12. It never passes 12, and never lowers a speed that is at most 12. |
| Entities.Bumps | Script.js:162 | Repeated speed-ups never lower the speed and never exceed 12. |
| Entities.BumpsClosedForm | Script.js:162 | n speed-ups give min(12, speed + 0.02·n). |
| Entities.AnyHitMeans | Script.js:164 | Some obstacle hits the player if and only if there is an index whose obstacle overlaps the player's box. |
| Entities.MagnetStepBounded | Script.js:182-183 | A magnet step moves a coin at most 6 along each axis. |
| Entities.MagnetStepApproaches | Script.js:178-184 | A magnet step brings a coin more than 3 away strictly closer to the player's centre. |
| Entities.Moved | Script.js:177-186 | Pulling and scrolling a coin keeps its radius and its collected flag. |
| Entities.CoinStep | Script.js:186-189 | After a frame a coin is collected exactly when it was before or it now touches the player. |
| Entities.CoinStepAll | Script.js:175-192 | The coin loop leaves as many coins as it found; CoinStepAllIndex gives each one. |
| Entities.CoinStepAllIndex | Script.js:175-192 | The coin loop steps each coin in place, the i-th with the i-th pull. |
| Entities.Collections | Script.js:187-189 | Coins collected in a frame are at most the number of coins. |
| Entities.CoinStepSpec | Script.js:186-189 | Without the magnet, a coin scrolls by exactly the run speed and keeps its height. A coin already collected is never credited again. |
| Entities.Filter | Script.js:195-196 | filter keeps exactly the elements that pass, and never makes the list longer. |
| Entities.FilterConcat | Script.js:195-196 | filter preserves relative order: filtering a concatenation filters each part. |
| Entities.FilterIdempotent | Script.js:195-196 | Sweeping an already swept list changes nothing. |
| Economy.Perks.With | Script.js:379 | Setting ownedPerks[k] makes k owned and leaves every other perk as it was. |
| Economy.PerkPrice | Script.js:58-63 | Perk prices are the PERK_DEFS table (150, 200, 120, 180), all within 120..200. |
| Economy.BuySkin | Script.js:349-353 | It succeeds exactly when the balance covers 80. On success it debits exactly 80, appends the skin, makes it active, and leaves the best score and perks alone. Otherwise it fails with InsufficientFunds. |
| Economy.BuyPerk | Script.js:377-381 | It succeeds exactly when the balance covers the perk's price. On success it debits exactly that price, sets that flag only, and leaves the rest alone. Otherwise it fails with InsufficientFunds. |
| Economy.ChooseSkin | Script.js:340-353 | An owned skin is activated for free; any other skin goes through the buy rule. On success the skin is active and owned. |
| Economy.ChoosePerk | Script.js:372-383 | An owned perk's button is disabled (AlreadyOwned); any other perk goes through the buy rule. |
| Economy.ChooseSkinKeepsCoherent | Script.js:340-353 | A skin click keeps the balance non-negative and the active skin owned. It costs 0 for an owned skin and 80 otherwise. |
| Economy.ChoosePerkKeepsCoherent | Script.js:372-381 | A successful perk click keeps the economy coherent and costs exactly the perk's price. |
| Economy.PerkPurchaseIdempotent | Script.js:372-374 | After buying a perk, its button is disabled. |
| Economy.SessionKeepsCoherent | Script.js:340-381 | Over any series of shop clicks the economy stays coherent. The balance falls by exactly the sum of the listed prices of the successful clicks: 0 to activate an owned skin, 80 for a new skin, PERK_DEFS' price for a perk. The best score is untouched, and owned skins and perks are never lost. |
| Economy.PerksFrom | Script.js:43 | A perk is owned exactly when the saved object has it set to true. Missing keys read as false. |
| Economy.Load | Script.js:38-45 | No blob gives the defaults. Otherwise each top-level field present in the blob replaces the default whole, and missing fields keep their defaults. |
| Economy.FlagsListEveryPerk | Script.js:46 | The saved ownedPerks object has a key for every perk, holding that perk's flag. |
| Economy.Save | Script.js:46 | saveState writes every field of the record, and every perk with its flag. |
| Economy.LoadSaveRoundTrip | Script.js:38-46 | Loading what was saved gives the same economy back, and save/load/save is stable. |
| Economy.LoadValid | Script.js:29-45 | The defaults are coherent, and so is a blob with a non-negative balance whose active skin is owned. |
| Economy.LoadDoesNotValidate | Script.js:43 | The merge does not validate. A blob whose skin list omits 'classic' loads with an active skin that is not owned. |
| Economy.Store.constructor | Script.js:36 | The state object holds the loaded economy. |
| Economy.Store.Credit | Script.js:189 | Collecting a coin adds exactly 1 to the balance, changes nothing else, and keeps the economy coherent. |
| Economy.Store.RecordBest | Script.js:206 | best becomes max(best, score): it never decreases, and nothing else changes. |
| Economy.Store.Activate | Script.js:343 | Only the active skin changes. |
| Economy.Store.PurchaseSkin | Script.js:349-353 | The new state and the success flag are exactly BuySkin's outcome. |
| Economy.Store.PurchasePerk | Script.js:377-381 | The new state and the success flag are exactly BuyPerk's outcome. |
| Runner.Player.constructor | Script.js:69 | The player's initial fields: x 80, 46×46, at rest, airborne, one jump, alive, no shield. |
| Runner.Player.Respawn | Script.js:398-400 | The player stands on the ground line, at rest and alive, with a shield exactly when given one. jumpsLeft is not reset, and the player is left consistent. |
| Runner.Player.Jump | Script.js:78-88 | When the jump fires: vy = -12, airborne, one jump fewer. Otherwise nothing changes. Consistency is preserved. |
| Runner.Weight | Script.js:141 | Gravity per frame is 0.8, 2% more with the speed perk, and always positive. |
| Runner.Gravitate | Script.js:141-150 | The player lands exactly when the new position reaches the ground line. Landing leaves it on the line at rest, with 1 jump with double jump and 0 otherwise. An airborne player keeps its jumps, falls faster by the frame's gravity, and moves by its new speed. The player never ends below the ground. |
| Runner.Player.Fall | Script.js:140-150 | The player's y, vy, onGround and jumpsLeft become exactly Gravitate's result, and consistency is preserved. |
| Runner.MeetAllSpec | Script.js:154-174 | The obstacle loop advances every obstacle. The score gains 5 per first pass and the speed one bump per first pass. A live unshielded player dies exactly when some advanced obstacle overlaps it. |
| Runner.MeetObstacle | Script.js:155-173 | One iteration of the obstacle loop equals the Meet step. Its shield branch is unreachable. |
| Runner.MeetObstacles | Script.js:154-174 | The obstacle loop equals MeetAll over the list. |
| Runner.MeetCoin | Script.js:176-191 | One iteration of the coin loop equals CoinStep, and credits exactly when Catches holds. |
| Runner.Game.constructor | Script.js:422-431 | Boot loads the economy and creates the player. The three coins init spawns are discarded by startRun. The result is a valid, running, unpaused run with score 0, speed 4, timers 900/700, and a shield exactly when owned. |
| Runner.Game.StartRun | Script.js:393-405 | Resets the run: score 0, speed 4, no obstacles or coins, timers 900/700, unpaused. The player is alive on the ground with a shield exactly when owned. lastTime and jumpsLeft are kept, and the invariant is re-established. |
| Runner.Game.TogglePause | Script.js:97-98 | Flips paused and keeps the invariant. |
| Runner.Game.OpenShop | Script.js:319-320 | Opening the shop pauses the game. |
| Runner.Game.DismissModal | Script.js:429 | A click on the modal's backdrop clears paused (it schedules no frame; see "Left out"). |
| Runner.Game.Jump | Script.js:78-88 | A live player on the ground jumps: vy = -12, airborne, one jump fewer. Any other jump, including a double jump in the air, changes nothing. The invariant is kept. |
| Runner.Game.NewObstacle | Script.js:107-110 | The spawned obstacle is unpassed, 20 past the right edge and standing on the ground. Its height is round(rand(28, 80)) and its width round(rand(22, 44)), so they lie in [28, 80] and [22, 44]. |
| Runner.Game.NewCoin | Script.js:112-114 | The spawned coin is uncollected, of radius 10 and 20 past the right edge. Its height is round(rand(...)), between 120 and 40 above the ground. |
| Runner.Game.SpawnObstacle | Script.js:107-111 | Appends exactly NewObstacle of the two draws and keeps every other obstacle. |
| Runner.Game.SpawnCoin | Script.js:112-115 | Appends exactly NewCoin of the draw and keeps every other coin. |
| Runner.Game.ScrollObstacles | Script.js:154-174 | The obstacles become their advanced versions. The score gains 5 per first pass and the speed one bump per first pass. Death and game over happen exactly when an unshielded live player overlaps an advanced obstacle. |
| Runner.Game.ScrollCoins | Script.js:175-192 | The coins become their stepped versions, and the balance grows by exactly the number of coins collected this frame. |
| Runner.Game.Clock | Script.js:119-122 | The first frame counts as 0 ms. Otherwise dt is the time since the last frame, capped at 40. lastTime becomes ts. |
| Runner.Game.AddScore | Script.js:125-126 | The score becomes max(0, score + floor(speed·dt/30)). It never decreases when dt ≥ 0. |
| Runner.Game.RunSpawners | Script.js:129-138 | A timer that runs out is re-armed with rand over its gap, and the list gains exactly NewObstacle (or NewCoin) of the tick's draws. Otherwise the timer just runs down by dt and the list is unchanged. The on-screen invariant is preserved. |
| Runner.Game.Prepare | Script.js:119-138 | The clock, score and spawn phase keeps the invariant and sets lastTime. The score does not decrease unless time ran backwards. |
| Runner.Game.Move | Script.js:140-196 | The player's fall is exactly Gravitate. The scroll uses realSpeed (speed plus 2 with the speed perk, line 153), the player's box after the fall and the magnet flag. With that Motion m, the obstacles, coins, score, speed, death, game over and balance are exactly as Scroll states (the predicate Scrolled). The invariant is kept, and nothing else in the economy changes. |
| Runner.Game.Scroll | Script.js:154-196 | The obstacles become the sweep of the advanced obstacles, and the coins the sweep of the stepped coins. The score gains 5 per first pass and the speed one bump per first pass. An unshielded live player dies, and the run ends, exactly when an advanced obstacle overlaps it. The balance grows by exactly the coins collected. The invariant is kept. |
| Runner.Game.Frame | Script.js:119-211 | A running frame keeps the invariant. The score only drops if time ran backwards, and the speed never drops. The shield is kept, and death is terminal. On game over it pauses (showGameOver, line 409) and best becomes max(best, score); otherwise best is unchanged. Coins only grow, by at most one per listed coin. Skins and perks are untouched. |
| Runner.Game.Tick | Script.js:118-212 | A paused or stopped game only records lastTime. A running frame carries every guarantee Frame states, including that a shielded player is never killed. |
| Runner.Game.ClickSkin | Script.js:340-353 | The new economy and the success flag are exactly ChooseSkin's outcome. A success clears paused; a refusal leaves it. The invariant is kept. |
| Runner.Game.ClickPerk | Script.js:372-383 | The new economy and the success flag are exactly ChoosePerk's outcome. A success clears paused; a refusal leaves it. The invariant is kept. |

## Left out

- Rendering, the DOM, the HUD (`render`, `drawPlayer`, `roundRect`, `updateUI`) and sound (`playFX`) have no effect on the game state and are not modelled. The alert on insufficient funds is the `Err(InsufficientFunds)` result.
- Scheduling is not modelled. `requestAnimationFrame`, the autosave `setInterval` and the order in which ticks arrive are left out. `Tick` may be called at any time with any timestamp, including after the chain of frames has stopped.
- The freeze after the shop is not modelled. Opening the shop pauses, so the next `loop` call returns at line 119 without scheduling another frame. The shop buttons (lines 343, 351, 379) and the backdrop click (line 429) clear `paused` but schedule no frame. The run therefore stays frozen until `togglePause` is pressed twice (lines 97-100). The model's `paused` flag matches the source; which ticks actually arrive is the caller's choice.
- Persistence I/O is left out: `localStorage`, `JSON.parse`/`JSON.stringify` and the `try`/`catch` around them. A missing, empty, unreadable or `null` blob is `None`. A saved field of the wrong JSON type, and extra keys in the blob, are not modelled.
- `fitCanvas` and the resize handler are not modelled: the canvas size is fixed when `Game` is built, and the width is a non-negative integer.
- Numbers are exact reals or unbounded integers, not IEEE doubles: no rounding, NaN or infinity. `lastTime` is tested against 0 only, where the source's `!lastTime` also catches NaN.
- Entities.Moved: the magnet's pull is a parameter, not `dx / dist * 6` computed with `Math.hypot`. `IsMagnetStep` characterises the real step (length 6, towards the player's centre), and the NaN pull when a coin sits exactly at the player's centre is left out. Every property of a frame holds for any pull.
- Shade.ShadeHex: the input is limited to an optional '#' and at most six hex digits, and `percent` is an integer. Longer inputs (beyond `>>`'s 32-bit range) and fractional percents are not modelled.
- Economy.Load: the result is a fresh record, so the shallow copy's sharing of `ownedSkins` and `ownedPerks` with `defaultState` is left out. Pushing a skin into the shared array is not observable, because the defaults are never read again.
- Runner.Game.ClickSkin: the decision between buying and activating is taken at click time. The source takes it when the shop opens. Both agree, because any successful click closes the shop, and a refused click changes nothing the decision depends on.
- Runner.Game.ClickPerk: decided at click time as for ClickSkin.
- Runner.Game.Frame: it states the frame's invariant and the properties listed in the table, not its whole new state. The exact effect of its two phases is stated by `Prepare`'s callees (`Clock`, `AddScore`, `RunSpawners`) and by `Move`, which it calls in the source's order.
- Runner.Game.Prepare: states the invariant, lastTime and the score bound, not its whole new state. The exact effect is stated by `Clock`, `AddScore` and `RunSpawners`, which it calls in order.
- Runner.Game.Tick: in a running frame it states the invariant and all of Frame's guarantees, not the whole new state.
- Runner.Game.ScrollObstacles: the loop keeps the score, speed, `alive` and `gameOver` in local values and stores them at the end. Nothing reads them in between, so the result is the same as updating in place.
- Economy.Store: the loaded economy is not validated (see `LoadDoesNotValidate`). The Store's methods therefore preserve coherence when it holds, and `Game.Valid` does not assume it.
- The close button of the modal (line 95) only hides it and changes no game state. The game-over screen's retry and shop buttons are `StartRun` and `OpenShop`.
