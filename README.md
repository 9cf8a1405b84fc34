# Slot machine and bet selector, modelled in Dafny

This project models the two components of a browser slot-machine game.

**The slot machine's animation engine** (`src/components/SlotMachine.ts`, module `Slots`):
- Five reels each hold four symbol sprites and a real-valued scroll `position`.
- A tween is a record that moves a reel's position from its value at creation to a target over a duration, shaped by an easing curve: linear interpolation `lerp` with the `backout(0.5)` curve.
- The per-frame `update` does four things:
  - It sets each reel's vertical blur from the distance moved since the last frame.
  - It moves every symbol to `((position + j) % 4) * 150 - 150`. A symbol that wraps from below the first cell to above the window gets a new texture.
  - It advances every tween: it writes the eased value, and at phase 1 it snaps to the target and fires the completion callback.
  - It removes the finished tweens with `splice(indexOf(tween), 1)`.
- The Play button (`startPlay`) does nothing while a spin runs. Otherwise it starts one tween per reel, and only the last reel's tween carries `reelsComplete`.

**The bet selector widget** (`src/components/BetButton.ts`, module `Bets`):
- It holds an index into a list of amounts, and a text showing `$` and the amount.
- The plus and minus buttons clamp the index to the list.
- Clicking the text opens and closes an overlay that lists every amount, with the current one highlighted.
- Clicking an item selects it and closes the overlay.
- Dragging inside the overlay scrolls its content.

Two support modules define the JavaScript semantics the components rely on:
- `Sequences`: `indexOf`, `splice(start, 1)`, and the filters that describe a run of removals.
- `NumberText`: the decimal text of an integer. `ParseShow` shows that this text can be read back.

Classes carry the state the source updates in place:
- `Bets.BetButton`
- `Slots.Reel`
- `Slots.Tween`, whose fields are `const`, so tweens are compared by identity as in `indexOf`
- `Slots.SlotMachine`

Each method's contract ties its new state to specification functions, and lemmas state what those functions promise:
- `Slots.FinalPosition`
- `Slots.Finished` / `Slots.Unfinished`
- `Slots.CompletionCount`
- `Bets.ChangedIndex`
- `Bets.AmountText`

`SlotMachine.SpinBookkeeping` holds when `running` is true exactly while one pending tween carries the completion callback. `StartPlay` and `Update` both preserve it.

The clock and the random source are parameters:
- `Date.now()` is the `now` of `Update`, and the `now` of each `Draw` given to `StartPlay`.
- `Math.random()` is the `extra` of each `Draw`, and the `pick` function that chooses textures.

Behaviour of the code worth knowing:
- **Phase is not clamped below.** Only `Math.min(1, …)` is applied to a tween's phase, so a clock reading before the tween's start gives a negative phase (`Slots.Phase`).
- **Position is not monotone during a spin.** The back-out curve overshoots and comes back (`Slots.BackoutOvershoots`), so a reel's position passes its target and then returns to it.
- **An empty bet list is not rejected.** Nothing checks the list's length: with no amounts the index becomes -1 and the text `$undefined` (`Bets.ChangedIndex`, `Bets.AmountText`).
- **The last reel is not sure to stop last.** The completion callback sits on the last reel's tween, but the random extra can make reel 3 outlast it: reel 3 with the largest extra runs 5500 ms, reel 4 with none 4900 ms (`Slots.OutlastsWhateverTheDraw`). The spin then ends while reel 3 still moves, and Play is accepted again. `Slots.SpinEndsBeforeReelThreeStops` walks through that case: after a second Play, reel 3 has two tweens, and the later one decides its position (`Slots.LastWriteWins`).

## Model

| member | source | states |
|---|---|---|
| NumberText.Show | src/components/BetButton.ts:220 | the text of an integer: non-empty, a leading `-` exactly for negatives, digits elsewhere |
| NumberText.ParseShow | src/components/BetButton.ts:220 | the text of an amount reads back as that amount |
| NumberText.ShowInjective | src/components/BetButton.ts:220 | two amounts with the same text are equal |
| Bets.AmountText | src/components/BetButton.ts:170-172 | the display is `$` and the amount at the index, or `$undefined` for an index outside the list |
| Bets.AmountTextReadsBack | src/components/BetButton.ts:170-172 | for an index in the list, the amount can be read back from the display |
| Bets.ChangedIndex | src/components/BetButton.ts:174-180 | the new index is the old one plus delta when that is in the list, else 0 below or the last index above; it always lies in the list when the list is non-empty; it is -1 for an empty list |
| Bets.PlusMinusSteps | src/components/BetButton.ts:174-180 | plus and minus move one step, and at the ends they leave the index where it is |
| Bets.BuildBetItems | src/components/BetButton.ts:214-228 | one item per amount, in order: item i shows amount i, sits 30·i down at x 10, selects index i, and is the highlight colour exactly when i is the current index |
| Bets.BetButton.constructor | src/components/BetButton.ts:68-74 | the widget starts at index 0 with the first amount shown, overlay closed and empty, not dragging |
| Bets.BetButton.UpdateBetDisplay | src/components/BetButton.ts:170-172 | the text becomes the display of the current index |
| Bets.BetButton.ChangeBet | src/components/BetButton.ts:174-180 | the index becomes `ChangedIndex(index, delta, length)`, and the display follows it |
| Bets.BetButton.ToggleBetList | src/components/BetButton.ts:182-184 | the open flag flips: closing empties the overlay, and opening fills it with the highlighted list and resets the scroll |
| Bets.BetButton.OpenBetList | src/components/BetButton.ts:186-190 | the overlay is open and visible, listing every amount with the current one highlighted |
| Bets.BetButton.CloseBetList | src/components/BetButton.ts:192-196 | the overlay is closed, hidden, and has no children |
| Bets.BetButton.PopulateBetList | src/components/BetButton.ts:198-242 | the overlay gains a background, the list content and a mask, each sized by the list width (else the width, else 200) and the list height (else 150); the children already there are kept |
| Bets.BetButton.SelectBet | src/components/BetButton.ts:253-257 | the index becomes the given one, even outside the list; the display follows; the overlay closes |
| Bets.BetButton.PressBetItem | src/components/BetButton.ts:226 | pressing item k selects index k, which always lies in the list, shows its amount, and closes the overlay |
| Bets.BetButton.OnDragStart | src/components/BetButton.ts:264-269 | dragging starts, recording the pointer and the content offset |
| Bets.BetButton.OnDragEnd | src/components/BetButton.ts:271-274 | dragging stops |
| Bets.BetButton.OnDragMove | src/components/BetButton.ts:276-284 | while dragging, the content is as far from its start as the pointer is from the drag start; otherwise nothing moves |
| Sequences.IndexOf | src/components/SlotMachine.ts:256 | `indexOf`: -1 exactly when absent, otherwise the first index holding the element |
| Sequences.SpliceIndexOf | src/components/SlotMachine.ts:256 | in a list without repeats, `splice(indexOf(x), 1)` removes exactly x and keeps the rest in order |
| Sequences.RemoveAll | src/components/SlotMachine.ts:255-257 | splicing out, one after another at the index `indexOf` finds, every collected tween of a repeat-free list leaves exactly the tweens not collected, in their order |
| Sequences.SpliceOutNext | src/components/SlotMachine.ts:256 | one splice of the loop takes what the first k removals left to what the first k + 1 leave |
| Sequences.RemoveStep | src/components/SlotMachine.ts:255-257 | one pass of the removal loop: splicing out the next collected tween at the index `indexOf` finds drops exactly that tween from what is left |
| Sequences.ExceptDrop | src/components/SlotMachine.ts:255-257 | each removal in the loop extends the set of tweens removed so far by one |
| Sequences.DropMembers | src/components/SlotMachine.ts:255-257 | after the removals, the list holds exactly the tweens not removed |
| Sequences.DropDistinct | src/components/SlotMachine.ts:255-257 | removals keep the tween list free of repeats |
| Slots.Lerp | src/components/SlotMachine.ts:285-287 | the result is a1 at t = 0 and a2 at t = 1, and it moves from a1 by (a2 - a1)·t |
| Slots.LerpBetween | src/components/SlotMachine.ts:285-287 | for t in [0, 1] and a1 ≤ a2 (every spin tween moves a reel forward), the result lies between the end values |
| Slots.Backout | src/components/SlotMachine.ts:289-291 | the back-out curve starts at 0 and ends at 1 |
| Slots.BackoutNonNegative | src/components/SlotMachine.ts:289-291 | on [0, 1] the curve never drops below 0 for a non-negative amount |
| Slots.BackoutOvershoots | src/components/SlotMachine.ts:289-291 | with amount 0.5 the curve rises above its end value before t = 1 |
| Slots.Phase | src/components/SlotMachine.ts:240 | the phase is at most 1, and exactly 1 once the duration has elapsed; it is non-negative after the start and negative before it |
| Slots.JsRem | src/components/SlotMachine.ts:216 | JavaScript `%`: the result has the sign of the dividend, lies within the modulus, and differs from the dividend by a whole multiple of it |
| Slots.TruncatedRemainderBounds | src/components/SlotMachine.ts:216 | `x - trunc(x/m)·m` lies in [0, m) for x ≥ 0 and in (-m, 0] for x < 0 |
| Slots.SymbolOffset | src/components/SlotMachine.ts:215-217 | at a non-negative position, a symbol's offset lies in [-150, 450) |
| Slots.RestingOffset | src/components/SlotMachine.ts:215-217 | at a whole-number position, symbol j sits at `((p + j) mod 4)·150 - 150` |
| Slots.RestingSymbolsApart | src/components/SlotMachine.ts:215-217 | at a whole-number position, the four symbols of a reel occupy four different cells |
| Slots.WrapNotRepeated | src/components/SlotMachine.ts:218 | a symbol that has just wrapped cannot wrap again on the next frame |
| Slots.SwapOncePerWrap | src/components/SlotMachine.ts:214-223 | a symbol that wraps takes the picked texture, and the next frame cannot swap it again, wherever the reel then is |
| Slots.Reel.constructor | src/components/SlotMachine.ts:77-105 | a reel starts at rest at 0 without blur, with symbol j at 150·j showing the chosen texture |
| Slots.Reel.Render | src/components/SlotMachine.ts:206-232 | blur is 12 times the distance moved since the previous frame, and the previous position catches up; every symbol is re-rendered, and the position is untouched |
| Slots.Tween.constructor | src/components/SlotMachine.ts:269-279 | a tween records its reel, begin value, target, easing, duration, callback and start |
| Slots.Written | src/components/SlotMachine.ts:239-251 | once the duration has elapsed, the frame leaves exactly the target; before that it leaves the eased interpolation |
| Slots.BackoutTweenEnds | src/components/SlotMachine.ts:239-251 | a back-out tween leaves its begin value at its start and its target from its end on |
| Slots.LastWriteWins | src/components/SlotMachine.ts:239-251 | when several tweens move one reel, the last of them decides its position in a frame |
| Slots.FinishedStep | src/components/SlotMachine.ts:239-251 | taking one more tween into the pass collects it exactly when it has reached phase 1 |
| Slots.FinalPositionStep | src/components/SlotMachine.ts:239-251 | taking one more tween into the pass changes only the position of the reel that tween moves |
| Slots.UntweenedStays | src/components/SlotMachine.ts:239-251 | a reel that no tween moves keeps its position |
| Slots.FinishedMembers | src/components/SlotMachine.ts:247-250 | the collected tweens are exactly those at phase 1, and the kept ones exactly the others |
| Slots.FinishedSplit | src/components/SlotMachine.ts:247-257 | every tween is either collected or kept, never both, and the callbacks split the same way |
| Slots.FinishedDistinct | src/components/SlotMachine.ts:250 | the collection of finished tweens has no repeats |
| Slots.RemovingFinished | src/components/SlotMachine.ts:247-257 | the collected tweens are distinct members of the list, and removing them leaves exactly the unfinished tweens |
| Slots.DropKeepsReels | src/components/SlotMachine.ts:254-257 | after removals, every remaining tween still moves one of the machine's reels |
| Slots.DropFinished | src/components/SlotMachine.ts:254-257 | removing the collected tweens leaves the unfinished ones in their order |
| Slots.CompletionCountAppend | src/components/SlotMachine.ts:195 | callback counts add up over concatenated tween lists |
| Slots.SpinTarget | src/components/SlotMachine.ts:185 | reel i is sent 10 + 5i to 12 + 5i cells further on |
| Slots.SpinTime | src/components/SlotMachine.ts:186 | reel i spins for 2500 + 600i to 3700 + 600i ms |
| Slots.OutlastsWhateverTheDraw | src/components/SlotMachine.ts:186-195 | reel j's tween lasts at least as long as reel i's for every draw exactly when j ≥ i + 2; so the callback-carrying last reel is not sure to outlast reel 3 |
| Slots.SlotMachine.constructor | src/components/SlotMachine.ts:70-107 | five distinct fresh reels at rest, with symbol j of reel i showing `pick(i, j)`; not running, no tweens |
| Slots.SlotMachine.ReelsCompleted | src/components/SlotMachine.ts:200-202 | the spin is over |
| Slots.SlotMachine.TweenTo | src/components/SlotMachine.ts:260-283 | appends one fresh tween that starts from the reel's current position, and leaves the other tweens untouched |
| Slots.SlotMachine.StartPlay | src/components/SlotMachine.ts:178-198 | while running it changes nothing; otherwise it appends, in reel order, one back-out tween per reel with that reel's target and time, the callback on the last reel only; it preserves the running/callback bookkeeping |
| Slots.SlotMachine.UpdateReels | src/components/SlotMachine.ts:205-233 | every reel is rendered as `Reel.Render` states, and no position changes |
| Slots.Advance | src/components/SlotMachine.ts:240-251 | one tween's turn: the reel's position becomes the value the frame writes, which is the target exactly at phase 1, and the result reports whether the phase reached 1 |
| Slots.SlotMachine.AdvanceTweens | src/components/SlotMachine.ts:235-252 | each reel ends at the value its last tween wrote; the finished tweens are collected in order; running ends exactly when one of them carries the callback |
| Slots.SlotMachine.RemoveTweens | src/components/SlotMachine.ts:254-257 | the tween list loses exactly the collected tweens, and the rest keep their order |
| Slots.SlotMachine.Update | src/components/SlotMachine.ts:204-258 | one frame: blur and symbols from the old positions, then each reel at its last tween's value, then only the unfinished tweens kept in order; running ends when the callback fires, and the bookkeeping is preserved |
| Slots.OnlyReelThreeLeft | src/components/SlotMachine.ts:239-257 | for a spin started at 0 in which reel 3 drew the largest extra and the others none, a frame at 4900 ms leaves only reel 3's tween, and the finished ones include the callback tween |

## Left out

- **Drawing and layout.** Pixi drawing is not modelled: shapes, gradients, masks, text styles, hover effects, hit areas, the reel containers' x positions, and the UI bar with the Play button. Only the state the components own, and the values they hand to the scene graph, are kept.
- **Startup and the ticker.** The asynchronous texture loading (`loadTextures`), the `init` sequence and the ticker registration are I/O. The `Slots.SlotMachine.constructor` stands for the machine after loading, and `Update` stands for one ticker call.
- **Sprite scaling.** Symbol `scale` and `x` are recomputed after a texture swap (`SlotMachine.ts:224-230`) and at construction. They depend on the texture's pixel size, which the model does not have.
- **Scrolling only for tall content.** The drag handlers are installed only when the content is taller than the list (`BetButton.ts:244-250`). Content height is a rendering measurement, so the drag methods are modelled as always callable.
- **Stopping pointer events.** `event.stopPropagation()` only concerns event dispatch in the scene graph.
- Slots.Tween: the tweened property is fixed to a reel's `position` (the only property the code tweens), and the `change` callback is left out because the code always passes `undefined`.
- Slots.SlotMachine.TweenTo: it requires a reel of this machine and a positive duration. Those are the only calls the code makes. With a zero duration JavaScript's phase would be `NaN` in a frame at the start time and `Math.min(1, Infinity) = 1` in any later frame, where the tween snaps to its target; the model does not cover that case.
- **Arithmetic.** Numbers are exact reals and integers, not IEEE doubles. Rounding, the `NaN` or infinite quotient of a zero duration, and JavaScript's exponent notation for integers of 1e21 and more (`NumberText.Show`) are not modelled.
- Slots.SlotMachine.StartPlay: it takes one `Draw` (clock reading and random extra) per reel, standing for the `Date.now()` and `Math.random()` calls made in its loop.
- Slots.SlotMachine.RemoveTweens: the splices are applied to a copy of the tween list (in `Sequences.RemoveAll`), which is stored back once at the end; nothing reads the list in between, so the result is the same.
- Bets.BetButton.OpenBetList: it requires the overlay to be closed. Its only caller, `toggleBetList`, calls it only then.
