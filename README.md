# BirthdayWish interaction model

A Dafny model of the state machine inside the `BirthdayWish` greeting-card
component (`components/birthday-wish.tsx`). The card shows six candles and six
balloons. A click lights a candle or pops a balloon only when it hits the next
one in order; any other click is ignored. A "celebrate" button starts a
repeating timer. Each firing of the timer lights one more candle. The firing
after the last candle is lit clears the timer. Confetti is switched on when
the celebration starts, and by an effect that runs whenever both counters
reach six.

- `birthday_wish.dfy`, module `BirthdayWish`:
  - the state as a value (`State`) and its invariant `Inv`;
  - each handler as a function on `State` (`LightCandleStep`,
    `PopBalloonStep`, `CelebrateStep`, `TickStep`, the confetti effect
    `ConfettiCheck`);
  - the events the card can receive (`Event`, `Enabled`, `Step`, `Run`);
  - what the card draws (`CandleLit`, `BalloonPopped`, `ColorIndex`,
    `CandleColour`, `BalloonColour`, `CelebrateEnabled`);
  - the component as a class `Widget`. Its five fields are updated in place
    by `LightCandle`, `PopBalloon`, `Celebrate`, `Tick` and `ConfettiEffect`.
    Each method's postcondition ties the new state to the matching function
    of the old state and keeps `Valid()`.
- `birthday_wish_properties.dfy`, module `BirthdayWishProperties`: lemmas
  about whole runs of events from mount.

Modelling choices:

- Clicks come only from the drawn indices 0..5, so the class methods require
  `0 <= index < 6`.
- The celebrate button is disabled while `celebrating` holds, so `Celebrate`
  requires `!celebrating`. The handler itself does not check this.
- The timer callback runs only while the timer exists, so `Tick` requires
  `intervalActive`. The timer handle is the boolean `intervalActive`.
- At the event level (`Step`), an event the card cannot receive changes
  nothing: a click on an index that is not drawn, a click on the disabled
  button, or a timer firing when there is no timer.
- The confetti effect runs after each handler that may change a counter.
  React reruns it only when a counter actually changed. `ConfettiCheckIdle`
  shows the two agree: in any state satisfying `Inv`, the effect changes
  nothing.

Three points of the code's behaviour that the model keeps as written:

- The code clears the timer only from inside the timer callback. Nothing
  cancels it when the card unmounts.
- Confetti appears as soon as the celebration starts, before all candles are
  lit.
- While celebrating, candle `i` is drawn lit when `i <= candlesLit`, one
  candle ahead of the count.

## Model

| member | source | states |
|---|---|---|
| `BirthdayWish.ConfettiCheck` | components/birthday-wish.tsx:76-80 | confetti is on afterwards exactly when it was on before or both counters are complete; no other field changes |
| `BirthdayWish.LightCandleStep` | components/birthday-wish.tsx:86-90 | a candle click keeps the invariant (so the count stays within 0..6); it never touches the balloon counter, the celebration or the timer; confetti never switches off |
| `BirthdayWish.PopBalloonStep` | components/birthday-wish.tsx:93-97 | a balloon click keeps the invariant; it never touches the candle counter, the celebration or the timer; confetti never switches off |
| `BirthdayWish.CelebrateStep` | components/birthday-wish.tsx:100-103 | starting the celebration turns on the celebration, the confetti and the timer all at once; both counters are unchanged; the invariant is kept |
| `BirthdayWish.TickStep` | components/birthday-wish.tsx:103-109 | a timer firing keeps the invariant; the balloon counter and the celebration flag are unchanged; the candle count never decreases; confetti stays on |
| `BirthdayWish.Step` | components/birthday-wish.tsx:86-110 | every event keeps the invariant; an event the card cannot receive (undrawn index, disabled button, no timer) changes nothing |
| `BirthdayWish.Advance` | components/birthday-wish.tsx:87-88 | definition of the in-order rule shared by both counters (also lines 94-95): a click on the index equal to the count advances it by one, any other click is ignored; its property over click sequences is stated by `InOrderCountIsSubseq` |
| `BirthdayWish.CandleLit` | components/birthday-wish.tsx:152 | definition of the lit test on a drawn candle; `CandleLitPrefix` and `LitCandlesDrawn` state that the lit candles are the first `candlesLit`, one more during a celebration, capped at six |
| `BirthdayWish.BalloonPopped` | components/birthday-wish.tsx:191 | definition of the popped test (also line 198); `PoppedBalloonsDrawn` states that exactly the first `balloonsPopped` balloons are drawn popped |
| `BirthdayWish.CelebrateEnabled` | components/birthday-wish.tsx:212 | definition of the button's enabled state, false exactly while celebrating; `NoSecondTimer` states that it is enabled only while no timer exists and that a click while disabled changes nothing |
| `BirthdayWish.ColorIndex` | components/birthday-wish.tsx:163 | the palette index `index % length` is always below the palette length, and it is the index itself for the drawn indices 0..5 |
| `BirthdayWish.CandleColour` | components/birthday-wish.tsx:152-172 | a candle gets a palette colour exactly when it is drawn lit; that colour is one of the candle palette's entries, and otherwise it is neutral grey |
| `BirthdayWish.BalloonColour` | components/birthday-wish.tsx:198 | a balloon gets a palette colour exactly when it is not popped; that colour is one of the balloon palette's entries, and otherwise it is grey #D1D5DB |
| `BirthdayWish.Widget.constructor` | components/birthday-wish.tsx:49-57 | mounting gives zero counters, no confetti, no celebration, no timer, and the invariant holds |
| `BirthdayWish.Widget.ConfettiEffect` | components/birthday-wish.tsx:76-80 | the new state is the confetti check applied to the old one |
| `BirthdayWish.Widget.LightCandle` | components/birthday-wish.tsx:86-90 | the candle count increases by exactly 1 when the index equals the count, and is unchanged otherwise; the balloon count, celebration and timer are unchanged; confetti is on exactly when it was on or both counters are complete; the invariant is kept |
| `BirthdayWish.Widget.PopBalloon` | components/birthday-wish.tsx:93-97 | the balloon count increases by exactly 1 when the index equals the count, and is unchanged otherwise; the candle count, celebration and timer are unchanged; confetti is on exactly when it was on or both counters are complete; the invariant is kept |
| `BirthdayWish.Widget.Celebrate` | components/birthday-wish.tsx:100-110 | makes celebration, confetti and timer all true and leaves both counters unchanged; it is callable only when the button is enabled; the invariant is kept |
| `BirthdayWish.Widget.Tick` | components/birthday-wish.tsx:104-108 | below six candles a firing lights exactly one more and the timer stays live; at six it keeps the count and clears the timer; balloons, celebration and confetti are unchanged; the invariant is kept |
| `BirthdayWishProperties.RunPreservesInv` | components/birthday-wish.tsx:49-110 | any sequence of events from a state satisfying the invariant ends in a state satisfying it |
| `BirthdayWishProperties.ReachableSatisfiesInv` | components/birthday-wish.tsx:49-61 | every state reachable from mount has both counters within 0..6, a timer only while celebrating, a cleared timer only with all candles lit, and confetti exactly when celebrating or complete |
| `BirthdayWishProperties.InvIsReachable` | components/birthday-wish.tsx:49-110 | every state satisfying the invariant is reached from mount by an explicit run, so the invariant is exactly the set of reachable states |
| `BirthdayWishProperties.LightInOrder` | components/birthday-wish.tsx:86-90 | outside a celebration, clicking the candles from the current count up to `k` in order lights exactly `k`; confetti is on exactly when `k` is six and all balloons are popped |
| `BirthdayWishProperties.PopInOrder` | components/birthday-wish.tsx:93-97 | outside a celebration, clicking the balloons from the current count up to `k` in order pops exactly `k`; confetti is on exactly when `k` is six and all candles are lit |
| `BirthdayWishProperties.RunMonotone` | components/birthday-wish.tsx:86-110 | over any run the counters never decrease, and confetti and the celebration never switch back off |
| `BirthdayWishProperties.CelebratingIffClicked` | components/birthday-wish.tsx:100-101 | after a run the celebration is on exactly when it was on before or the run contains a click on the celebrate button |
| `BirthdayWishProperties.ConfettiShownExactly` | components/birthday-wish.tsx:76-80 | after any run from mount, confetti is shown exactly when the celebrate button was clicked or both counters are complete |
| `BirthdayWishProperties.ConfettiCheckIdle` | components/birthday-wish.tsx:76-80 | in a state satisfying the invariant the confetti effect changes nothing, so running it after every step has the same result as running it only when a counter changed |
| `BirthdayWishProperties.InOrderCountIsSubseq` | components/birthday-wish.tsx:86-97 | under the in-order rule the count reaches `k` exactly when the indices from the starting count to `k - 1` occur, in order, among the clicks |
| `BirthdayWishProperties.BalloonsFollowClicks` | components/birthday-wish.tsx:93-97 | over any run, the balloon count is the in-order count of the balloon clicks alone; no other event moves it |
| `BirthdayWishProperties.BalloonsPoppedInOrder` | components/birthday-wish.tsx:93-97 | after any run from mount, at least `k` balloons are popped exactly when balloons 0..k-1 were clicked in that order |
| `BirthdayWishProperties.CandlesFollowClicks` | components/birthday-wish.tsx:86-90 | in a run without a celebration, the candle count is the in-order count of the candle clicks alone |
| `BirthdayWishProperties.CandlesLitInOrder` | components/birthday-wish.tsx:86-90 | after a run from mount without a celebration, at least `k` candles are lit exactly when candles 0..k-1 were clicked in that order |
| `BirthdayWishProperties.TicksAdvance` | components/birthday-wish.tsx:104-105 | while candles remain unlit, `m` firings light exactly `m` more and change nothing else |
| `BirthdayWishProperties.TicksClear` | components/birthday-wish.tsx:103-109 | from any live timer, exactly `6 - candlesLit + 1` firings light every candle and clear the timer; the clearing comes on the firing after the count reaches six |
| `BirthdayWishProperties.ClearedStaysCleared` | components/birthday-wish.tsx:104-108 | once the timer is cleared, no later run restarts it; every candle stays lit and a firing would change nothing |
| `BirthdayWishProperties.NoSecondTimer` | components/birthday-wish.tsx:211-212 | the celebrate button is enabled only while no timer exists; a click on it while it is disabled changes nothing |
| `BirthdayWishProperties.CandleLitPrefix` | components/birthday-wish.tsx:152 | the candles drawn lit are exactly the first `candlesLit` ones, or during a celebration one more, capped at six |
| `BirthdayWishProperties.LitCandlesDrawn` | components/birthday-wish.tsx:148-152 | the number of lit candles drawn among the first `n` is `min(n, LitShown)` |
| `BirthdayWishProperties.PoppedBalloonsDrawn` | components/birthday-wish.tsx:187-191 | the number of popped balloons drawn among the first `n` is `min(n, balloonsPopped)` |
| `BirthdayWishProperties.DistinctColours` | components/birthday-wish.tsx:38-39 | two different lit candles are drawn in different colours, and so are two different intact balloons |
| `BirthdayWishProperties.RepeatClickIgnored` | components/birthday-wish.tsx:86-90 | clicking candle 0 twice after mount lights one candle |
| `BirthdayWishProperties.CelebrateAfterFiveCandles` | components/birthday-wish.tsx:100-109 | with five candles lit, celebrating shows confetti at once; the first firing lights the sixth candle with the timer still live; the second firing clears the timer |
| `BirthdayWishProperties.ConfettiAfterBothSequences` | components/birthday-wish.tsx:76-80 | without celebrating, confetti is off one click before both sequences are complete and on after the completing click, whichever sequence finishes last |

## Left out

- Layout, text, CSS classes and framer-motion animation parameters
  (components/birthday-wish.tsx:115-231): these are presentational only.
  Only the lit/popped decisions, the palette colours and the button's
  disabled state are modelled.
- The dynamically loaded `react-confetti` renderer, its particle count and
  its seven-colour palette (lines 36, 40, 221-229): this is a foreign
  library. Only the `showConfetti` flag that gates it is modelled.
- The window-size state and the resize listener (lines 55, 64-73): this is
  browser I/O with no effect on the interaction logic.
- The 500 ms period of the timer (line 109): real time is left out. A timer
  firing is the event `TimerTick`, possible only while `intervalActive`.
- React's batching and the render-time closures of `lightCandle` and
  `popBalloon` (they compare against the value of the last render): every
  handler is one atomic step on the current state. The 0..6 bounds, `Inv`
  and `Complete` are therefore proved only under this one-step-at-a-time
  reading. In the code, a click on candle `candlesLit` may be handled while
  a timer update is still waiting to render. That click compares against
  the last render's count, and its `prev + 1` updater could then push the
  count past 6. The model does not capture this interleaving.
- Unmounting: the code has no cleanup for the timer, so the model has no
  unmount operation and claims no cancellation.
