/** The interaction state machine of the BirthdayWish greeting card:
    six candles to light and six balloons to pop, each strictly in order,
    a "celebrate" button that starts a repeating timer lighting the
    remaining candles, and a confetti flag raised once everything is done.

    The card's state is given twice: as the value `State`, on which the
    handlers are specified as functions, and as the class `Widget`, whose
    methods update the same five variables in place. */
module BirthdayWish {

  /** Number of candles and of balloons drawn on the card. */
  const TotalCandles: int := 6
  const TotalBalloons: int := 6

  /** The colour palettes; entry `i % |palette|` colours element `i`. */
  const CandleColors: seq<string> := ["blue", "red", "yellow", "green", "purple", "orange"]
  const BalloonColors: seq<string> := ["blue", "red", "yellow", "green", "purple", "orange"]

  /** The card's interaction state. `intervalActive` stands for the live
      handle of the timer that `celebrate` starts. */
  datatype State = State(
    candlesLit: int,
    balloonsPopped: int,
    showConfetti: bool,
    celebrating: bool,
    intervalActive: bool)

  /** The state at mount: nothing lit, nothing popped, no timer. */
  const Init: State := State(0, 0, false, false, false)

  /** Both ordered sequences are finished. */
  predicate Complete(c: State) {
    c.candlesLit == TotalCandles && c.balloonsPopped == TotalBalloons
  }

  /** The invariant of every state the card can reach from `Init`:
      bounded counters, a timer only while celebrating, a timer cleared
      only once every candle is lit, and confetti shown exactly when the
      celebration has started or both sequences are complete. */
  predicate Inv(c: State) {
    && 0 <= c.candlesLit <= TotalCandles
    && 0 <= c.balloonsPopped <= TotalBalloons
    && (c.intervalActive ==> c.celebrating)
    && (c.celebrating && !c.intervalActive ==> c.candlesLit == TotalCandles)
    && (c.showConfetti <==> c.celebrating || Complete(c))
  }

  /** The in-order rule shared by candles and balloons: a click on the
      element whose index equals the current count advances the count,
      any other click is ignored. */
  function Advance(count: int, index: int): int {
    if index == count then count + 1 else count
  }

  /** The confetti effect, run after a counter may have changed: once both
      sequences are complete the confetti is switched on. */
  function ConfettiCheck(c: State): (r: State)
    ensures r.showConfetti <==> c.showConfetti || Complete(c)
    ensures r.(showConfetti := c.showConfetti) == c
  {
    if Complete(c) then c.(showConfetti := true) else c
  }

  /** Clicking candle `index`. */
  function LightCandleStep(c: State, index: int): (r: State)
    requires 0 <= index < TotalCandles
    ensures Inv(c) ==> Inv(r)
    ensures r.balloonsPopped == c.balloonsPopped
    ensures r.celebrating == c.celebrating && r.intervalActive == c.intervalActive
    ensures c.showConfetti ==> r.showConfetti
  {
    ConfettiCheck(c.(candlesLit := Advance(c.candlesLit, index)))
  }

  /** Clicking balloon `index`. */
  function PopBalloonStep(c: State, index: int): (r: State)
    requires 0 <= index < TotalBalloons
    ensures Inv(c) ==> Inv(r)
    ensures r.candlesLit == c.candlesLit
    ensures r.celebrating == c.celebrating && r.intervalActive == c.intervalActive
    ensures c.showConfetti ==> r.showConfetti
  {
    ConfettiCheck(c.(balloonsPopped := Advance(c.balloonsPopped, index)))
  }

  /** Clicking the celebrate button, which is only clickable while no
      celebration is running. */
  function CelebrateStep(c: State): (r: State)
    requires !c.celebrating
    ensures Inv(c) ==> Inv(r)
    ensures r.candlesLit == c.candlesLit && r.balloonsPopped == c.balloonsPopped
    ensures r.celebrating && r.showConfetti && r.intervalActive
  {
    c.(celebrating := true, showConfetti := true, intervalActive := true)
  }

  /** One firing of the celebration timer: light one more candle while
      some are unlit, otherwise clear the timer and keep the count. */
  function TickStep(c: State): (r: State)
    requires c.intervalActive
    ensures Inv(c) ==> Inv(r)
    ensures r.balloonsPopped == c.balloonsPopped && r.celebrating == c.celebrating
    ensures c.showConfetti ==> r.showConfetti
    ensures c.candlesLit <= r.candlesLit
  {
    if c.candlesLit < TotalCandles then ConfettiCheck(c.(candlesLit := c.candlesLit + 1))
    else c.(intervalActive := false)
  }

  /** What can happen to the card: a click on a drawn candle or balloon,
      a click on the celebrate button, or a firing of the timer. */
  datatype Event = ClickCandle(index: int) | ClickBalloon(index: int) | ClickCelebrate | TimerTick

  /** Whether the card can receive `e` in state `c`: only indices 0..5
      are drawn, the button is disabled while celebrating, and the timer
      fires only while its handle is live. */
  predicate Enabled(c: State, e: Event) {
    match e
    case ClickCandle(i) => 0 <= i < TotalCandles
    case ClickBalloon(i) => 0 <= i < TotalBalloons
    case ClickCelebrate => !c.celebrating
    case TimerTick => c.intervalActive
  }

  /** The card's reaction to `e`; an event it cannot receive changes nothing. */
  function Step(c: State, e: Event): (r: State)
    ensures Inv(c) ==> Inv(r)
    ensures !Enabled(c, e) ==> r == c
  {
    if !Enabled(c, e) then c
    else match e
      case ClickCandle(i) => LightCandleStep(c, i)
      case ClickBalloon(i) => PopBalloonStep(c, i)
      case ClickCelebrate => CelebrateStep(c)
      case TimerTick => TickStep(c)
  }

  /** The state after the events `evs`, one at a time, starting from `c`. */
  function Run(c: State, evs: seq<Event>): State
    decreases |evs|
  {
    if evs == [] then c else Run(Step(c, evs[0]), evs[1..])
  }

  // ---------------------------------------------------------------------
  // What the card draws for a state.

  /** Candle `index` is drawn lit. While celebrating, the candle the timer
      is about to light is already drawn lit. */
  predicate CandleLit(c: State, index: int) {
    (c.celebrating && index <= c.candlesLit) || (!c.celebrating && index < c.candlesLit)
  }

  /** Balloon `index` is drawn popped (shrunk to nothing and greyed). */
  predicate BalloonPopped(c: State, index: int) {
    index < c.balloonsPopped
  }

  /** The palette entry element `index` takes from a palette of `length`
      colours. */
  function ColorIndex(index: nat, length: nat): (r: nat)
    requires length > 0
    ensures r < length
    ensures index < length ==> r == index
  {
    index % length
  }

  /** A drawn colour: a palette entry or the neutral grey (#D1D5DB) of an
      unlit candle or a popped balloon. */
  datatype Colour = Palette(name: string) | Neutral

  /** The colour candle `index` is drawn in. */
  function CandleColour(c: State, index: nat): (r: Colour)
    ensures r.Palette? <==> CandleLit(c, index)
    ensures r.Palette? ==> r.name in CandleColors
  {
    if CandleLit(c, index) then Palette(CandleColors[ColorIndex(index, |CandleColors|)]) else Neutral
  }

  /** The colour balloon `index` is drawn in. */
  function BalloonColour(c: State, index: nat): (r: Colour)
    ensures r.Palette? <==> !BalloonPopped(c, index)
    ensures r.Palette? ==> r.name in BalloonColors
  {
    if BalloonPopped(c, index) then Neutral else Palette(BalloonColors[ColorIndex(index, |BalloonColors|)])
  }

  /** The celebrate button accepts clicks. */
  predicate CelebrateEnabled(c: State) {
    !c.celebrating
  }

  // ---------------------------------------------------------------------
  // The component itself, updating its state variables in place.

  class Widget {
    var candlesLit: int
    var balloonsPopped: int
    var showConfetti: bool
    var celebrating: bool
    var intervalActive: bool

    /** The current state as a value. */
    function View(): State
      reads this
    {
      State(candlesLit, balloonsPopped, showConfetti, celebrating, intervalActive)
    }

    predicate Valid()
      reads this
    {
      Inv(View())
    }

    /** Mounting the card. */
    constructor ()
      ensures Valid() && View() == Init
    {
      candlesLit, balloonsPopped := 0, 0;
      showConfetti, celebrating, intervalActive := false, false, false;
    }

    /** The confetti effect, run after the handlers that may change a counter. */
    method ConfettiEffect()
      modifies this
      ensures View() == ConfettiCheck(old(View()))
    {
      if candlesLit == TotalCandles && balloonsPopped == TotalBalloons {
        showConfetti := true;
      }
    }

    method LightCandle(index: int)
      requires Valid() && 0 <= index < TotalCandles
      modifies this
      ensures Valid() && View() == LightCandleStep(old(View()), index)
      ensures candlesLit == if index == old(candlesLit) then old(candlesLit) + 1 else old(candlesLit)
      ensures balloonsPopped == old(balloonsPopped)
      ensures celebrating == old(celebrating) && intervalActive == old(intervalActive)
      ensures showConfetti <==> old(showConfetti) || Complete(View())
    {
      if index == candlesLit {
        candlesLit := candlesLit + 1;
      }
      ConfettiEffect();
    }

    method PopBalloon(index: int)
      requires Valid() && 0 <= index < TotalBalloons
      modifies this
      ensures Valid() && View() == PopBalloonStep(old(View()), index)
      ensures balloonsPopped == if index == old(balloonsPopped) then old(balloonsPopped) + 1 else old(balloonsPopped)
      ensures candlesLit == old(candlesLit)
      ensures celebrating == old(celebrating) && intervalActive == old(intervalActive)
      ensures showConfetti <==> old(showConfetti) || Complete(View())
    {
      if index == balloonsPopped {
        balloonsPopped := balloonsPopped + 1;
      }
      ConfettiEffect();
    }

    /** The button handler; the button is disabled while celebrating. */
    method Celebrate()
      requires Valid() && CelebrateEnabled(View())
      modifies this
      ensures Valid() && View() == CelebrateStep(old(View()))
      ensures celebrating && showConfetti && intervalActive
      ensures candlesLit == old(candlesLit) && balloonsPopped == old(balloonsPopped)
    {
      celebrating := true;
      showConfetti := true;
      intervalActive := true;
    }

    /** The timer callback; it fires only while the timer is live. */
    method Tick()
      requires Valid() && intervalActive
      modifies this
      ensures Valid() && View() == TickStep(old(View()))
      ensures old(candlesLit) < TotalCandles ==> candlesLit == old(candlesLit) + 1 && intervalActive
      ensures old(candlesLit) == TotalCandles ==> candlesLit == old(candlesLit) && !intervalActive
      ensures balloonsPopped == old(balloonsPopped) && celebrating == old(celebrating)
      ensures showConfetti == old(showConfetti)
    {
      if candlesLit < TotalCandles {
        candlesLit := candlesLit + 1;
        ConfettiEffect();
      } else {
        intervalActive := false;
      }
    }
  }
}
