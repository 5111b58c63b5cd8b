# Click test engine, modelled in Dafny

This project models the game engine of a browser click-speed test (`script.js`).
The player clicks a target area as often as possible during a chosen number of seconds.
The page then shows the clicks per second (CPS), keeps the last ten scores with their best, average and recent history, and unlocks three achievements.

The model has five modules, one file each:

- `Numbers.dfy`: the JavaScript numbers a score can be. `count / totalTime` gives a finite number, `Infinity` (clicks over a zero duration) or `NaN` (no clicks over a zero duration). This module also has the `toFixed(2)` rounding, `>=`, `+`, `Math.max` and `/` on those values.
- `Ledger.dfy`: `saveScore` (push, then keep the last ten) and the statistics of `updateStats` (best, average, the last min(n, 5) scores newest first).
- `Achievements.dfy`: `checkAchievements`, with its three rules, and the banners `showAchievement` displays.
- `Engine.dfy`: the game state as a value (`count`, `timeLeft`, `totalTime`, `isRunning`, `scores`, `achievements`). Each handler is a transition on that value, and several events can be run in sequence. The lemmas about whole games are here: the countdown, click counting, one score per finished game, and what happens when a finished game is started again.
- `ClickTest.dfy`: the page's `gameState` object as a class whose methods are the handlers. They update the fields in place, as the JavaScript does. Each method is proved to perform exactly the matching `Engine` transition.

The interval timer becomes an explicit `Tick` method. The interval exists exactly while a game runs, because `startGame` creates it and `endGame` and `resetGame` clear it. So a tick on an idle game does nothing.
`resetGame` reads the duration from the active time button. The model takes that duration as a parameter.

Three facts about the code shape the model:

- `startGame` copies the time left into the duration (`script.js:302`). The duration and reset handlers set both values to the chosen seconds (`script.js:79-80`, `script.js:348-349`). See Findings.
- A recorded score is a plain number. The history shows the last min(n, 5) scores, newest first (`script.js:192`).
- Unlocked achievements are kept as an ordered list that only grows and never gains a duplicate (`script.js:231-249`).

## Model

| member | source | states |
|---|---|---|
| `Numbers.Round2` | script.js:324 | `toFixed(2)` then `parseFloat`: the result is a whole number of hundredths, within half a hundredth of the input, with the input's sign |
| `Numbers.Round2OfHundredths` | script.js:324 | a non-negative whole number of hundredths, such as 1.20, comes back unchanged |
| `Numbers.Cps` | script.js:324 | a positive duration gives a finite, non-negative CPS within rounding of clicks/duration; a zero duration gives NaN exactly when there were no clicks, and Infinity otherwise; a negative duration gives a finite value of zero or less |
| `Numbers.Add` | script.js:187 | `+` on scores: NaN if either side is NaN, finite exactly when both are, and then the real sum |
| `Numbers.Max` | script.js:184 | `Math.max` on two scores: NaN if either is NaN; otherwise one of the two, and no smaller than either |
| `Numbers.AtLeast` | script.js:232-238 | `cps >= bound`: false for NaN; otherwise true exactly when the bound is at most cps in the order `Math.max` uses, so Infinity passes every bound |
| `Numbers.Divide` | script.js:187 | division by the ledger length keeps NaN and Infinity and divides a finite value |
| `Ledger.Saved` | script.js:361-366 | after `saveScore` the new score is last, the ledger has min(old length + 1, 10) entries, and it is the suffix of old ++ [cps] in order |
| `Ledger.SavedEvictsOldest` | script.js:364-365 | saving onto a full ledger drops exactly its oldest score |
| `Ledger.SaveAllKeepsLastTen` | script.js:361-366 | after any number of saves from an empty ledger, exactly the last min(n, 10) scores remain, in insertion order |
| `Ledger.Best` | script.js:184 | `Math.max(...scores)`: NaN exactly when some score is NaN; otherwise one of the scores and at least every score |
| `Ledger.Total` | script.js:187 | the `reduce` sum is NaN exactly when a score is NaN, and finite exactly when all scores are, and then it is their real sum |
| `Ledger.Average` | script.js:187 | the average is NaN or finite under the same conditions, and a finite average times the length is the sum |
| `Ledger.AverageAtMostBest` | script.js:184-187 | on a ledger of finite scores the average never exceeds the best |
| `Ledger.Reverse` | script.js:192 | `reverse()`: same length, element i is element n-1-i of the input |
| `Ledger.Recent` | script.js:192 | `slice(-5).reverse()`: min(n, 5) entries, newest first |
| `Ledger.Stats` | script.js:183 | statistics exist exactly when the ledger is not empty |
| `Ledger.StatsOfFiniteLedger` | script.js:183-192 | on finite scores: the best is a recorded score no score exceeds, the average is sum / length and at most the best, and the history is the last min(n, 5) scores, newest first |
| `Achievements.AddIfDue` | script.js:232-233 | an id is present afterwards exactly when it was before or its rule fired; it is appended at most once and never duplicated |
| `Achievements.Unlock` | script.js:231-249 | `checkAchievements`: `speed_demon` iff cps >= 10, `click_master` iff cps >= 15, `persistent` iff the ledger holds >= 10 scores, each unless already present; the old list stays a prefix; only these three ids are added; no duplicates appear |
| `Achievements.UnlockBelowThresholds` | script.js:231-249 | below every threshold the list is unchanged |
| `Achievements.UnlockIdempotent` | script.js:231-249 | a second evaluation with the same inputs unlocks nothing new |
| `Achievements.ClickMasterUnlockedOnce` | script.js:231-249 | across any sequence of evaluations, each with its own cps and ledger length, `click_master` never occurs more than once; it occurs exactly once as soon as it was already present or some evaluation had cps >= 15 |
| `Achievements.Banners` | script.js:219-220 | no banner when the achievement setting is off; otherwise one banner per newly unlocked id, in order. Unlocking itself does not depend on the setting |
| `Achievements.Banner` | script.js:235-247 | the banner text shown for each of the three achievement ids |
| `Engine.Initial` | script.js:2-14 | page load: idle, no clicks, 10 seconds left of 10, persisted scores and achievements |
| `Engine.Start` | script.js:297-302 | ignored while running; otherwise running, count 0, `totalTime` = the old `timeLeft`, nothing else changed |
| `Engine.Click` | script.js:277-283 | a click on an idle game only starts it and is not counted; on a running game it adds exactly 1 to `count` and changes nothing else |
| `Engine.SpacePress` | script.js:125-130 | the spacebar press always leaves the game running: it counts one click, after starting the game if it was idle |
| `Engine.KeyDown` | script.js:122-132 | only a Space key with the spacebar setting on has any effect |
| `Engine.SelectDuration` | script.js:76-80 | ignored while running; otherwise `timeLeft` = `totalTime` = the chosen seconds |
| `Engine.Reset` | script.js:344-349 | from any state: idle, count 0, `timeLeft` = `totalTime` = the selected duration, ledger and achievements kept |
| `Engine.End` | script.js:320-340 | stops the game, keeps count and time, saves the CPS once and then evaluates achievements against the updated ledger length |
| `Engine.Tick` | script.js:309-316 | ignored when idle; otherwise `timeLeft` drops by exactly 1 and the game ends when it reaches 0 or below |
| `Engine.Step` | script.js:67-132 | the listener for each event (area click, start, reset, duration button, Space key, timer tick) keeps the invariant: a running game has no more time left than its duration, and an idle game has its full duration left or none (0 or below) |
| `Engine.RunPreservesInv` | script.js:297-349 | the same invariant holds after any sequence of events |
| `Engine.RunningStepMonotone` | script.js:283 | while a game keeps running, no event lowers the count, raises the time left or changes the duration |
| `Engine.ScoreRecordedOnlyAtExpiry` | script.js:313-314 | only the tick that ends a running game saves a score; every other event leaves ledger and achievements alone |
| `Engine.ClicksWhileRunning` | script.js:283 | n clicks on a running game raise the count by exactly n |
| `Engine.TicksCountDown` | script.js:310-313 | before time runs out, k ticks lower `timeLeft` by k and the game keeps running |
| `Engine.TicksWhileStopped` | script.js:321 | an idle game ignores any number of ticks |
| `Engine.TicksExpire` | script.js:309-316 | a game with k seconds left is still running after k-1 ticks, ends on the k-th with `timeLeft` = 0, and later ticks change nothing |
| `Engine.GameEnds` | script.js:297-340 | start, c clicks and at least the duration of ticks end in one closed-form state: started, c clicks counted, no time left, then `endGame` |
| `Engine.ReplayAfterExpiry` | script.js:302 | restarting a game that ran out at zero with at least one click and one tick appends Infinity and unlocks both speed achievements |
| `Engine.PlayedGame` | script.js:297-340 | start, c clicks and at least the duration of ticks: an ended game with count c and `timeLeft` 0, whose saved score is c / duration |
| `Engine.TwelveClicksInTenSeconds` | script.js:320-340 | twelve clicks in ten seconds save 1.2 as the newest score and unlock nothing while the ledger stays below ten |
| `Engine.DisciplinedRunRecordsFiniteScores` | script.js:302 | if every duration is positive and no finished game is restarted before a duration pick or reset, the duration stays positive and every saved score is finite and non-negative |
| `Engine.RestartAfterExpiry` | script.js:302 | as written, restarting a finished game sets `totalTime` to `timeLeft` (0 or below). The game ends on its first tick and saves Infinity, NaN or a value of zero or less. Infinity unlocks both speed achievements |
| `Engine.ReplayAfterTwelveClickGame` | script.js:302 | after a 12-click, 10-second game, four more clicks and one tick save `[1.2, Infinity]` and unlock `speed_demon` and `click_master` |
| `Engine.StartCorrected` | script.js:297-302 | corrected start: a new game gets its full duration as time left |
| `Engine.CorrectedRestartRunsFullDuration` | script.js:297-324 | with the corrected start, any idle game with a positive duration runs that full duration and saves a finite, non-negative CPS within rounding of clicks/duration |
| `ClickTest.GameState.constructor` | script.js:2-15 | the object starts in `Engine.Initial` with the loaded settings |
| `ClickTest.GameState.StartGame` | script.js:297-317 | updates the fields exactly as `Engine.Start` |
| `ClickTest.GameState.HandleClick` | script.js:277-294 | updates the fields exactly as `Engine.Click` |
| `ClickTest.GameState.KeyDown` | script.js:122-132 | updates the fields exactly as `Engine.KeyDown` |
| `ClickTest.GameState.SelectDuration` | script.js:76-84 | updates the fields exactly as `Engine.SelectDuration` |
| `ClickTest.GameState.Tick` | script.js:309-316 | updates the fields exactly as `Engine.Tick`. It reports an outcome exactly when it ends the game, with that game's count and CPS |
| `ClickTest.GameState.EndGame` | script.js:320-341 | updates the fields exactly as `Engine.End` and reports the count, the CPS and the banners shown |
| `ClickTest.GameState.ResetGame` | script.js:344-358 | updates the fields exactly as `Engine.Reset` |
| `ClickTest.GameState.SaveScore` | script.js:361-366 | the ledger becomes `Ledger.Saved(old ledger, cps)` and nothing else changes |
| `ClickTest.GameState.CheckAchievements` | script.js:231-249 | the list becomes `Achievements.Unlock(old list, cps, ledger length)`; the banners shown are those of the added ids |
| `ClickTest.GameState.Push` | script.js:233-245 | `achievements.push(id)`: the id becomes the last entry, nothing else changes, and the banners shown so far plus the one for `id` are those of every id added in this evaluation |
| `ClickTest.GameState.ShowAchievement` | script.js:219-228 | one banner for the id, or none when the achievement setting is off |

## Findings

| source | as written | input that shows it | evidently intended | confidence | as-written member | corrected member |
|---|---|---|---|---|---|---|
| script.js:302 | `startGame` sets `totalTime = timeLeft`. `endGame` never restores `timeLeft`, so after a finished game it is 0 | Play a 10 s game with 12 clicks and let it expire. Click the area 4 times (the first click restarts) and let one tick pass. `count / totalTime` is 3 / 0, so Infinity is saved and both speed achievements unlock. With no clicks NaN is saved; a further restart divides by a negative duration | each new game runs for the selected duration, as when a duration is picked or the game is reset | high; not executed | `Engine.RestartAfterExpiry` | `Engine.StartCorrected` |

The class keeps the start as written, so that the model stays faithful to the page.
`Engine.DisciplinedRunRecordsFiniteScores` states the call discipline under which the as-written start is harmless.
`Engine.CorrectedRestartRunsFullDuration` proves the corrected start needs no such discipline.

## Left out

- DOM updates: counter text, result text, button labels, cursor, the progress ring and the `updateTimerDisplay` percentage. They are presentation only.
- `localStorage` and JSON. Persisted scores, achievements and settings are constructor parameters. Saving (which would turn Infinity and NaN into `null`) is not modelled.
- The settings toggles, theme and menu handlers. Both settings the engine reads are fixed when the object is made.
- `playClickSound` (Web Audio) and `createClickEffect` (click coordinates and a timed element): foreign browser APIs and cosmetic.
- `setInterval`, `clearInterval` and `setTimeout`: replaced by the explicit `Tick` method, which does nothing when no game runs.
- `parseInt` of a button's `data-time`: durations are taken as integers. The lookup of the active time button in `resetGame` is a parameter.
- The `toFixed(1)` display of best, average and history, and the date shown with each history entry.
- Numbers.Round2: rounds the exact quotient to hundredths, ties away from zero. Binary floating-point representation can round a few tie values differently, and values of 1e21 or more are printed in exponent form; neither is modelled.
- Ledger.Total: adds with exact real arithmetic, without floating-point rounding or overflow to Infinity.
