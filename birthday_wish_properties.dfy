/** What the card promises over whole sequences of events: the invariant
    `Inv` holds in, and describes exactly, the states reachable from mount;
    counters and flags only grow; candles and balloons advance only in
    order; the timer lights the remaining candles and then stops for good;
    and what is drawn agrees with the counters. */
module BirthdayWishProperties {
  import opened BirthdayWish

  // ---------------------------------------------------------------------
  // Event sequences

  /** Splitting a sequence of events into two runs. */
  lemma {:induction false} RunAppend(c: State, a: seq<Event>, b: seq<Event>)
    ensures Run(c, a + b) == Run(Run(c, a), b)
    decreases |a|
  {
    if a == [] {
      assert a + b == b;
    } else {
      assert (a + b)[0] == a[0];
      assert (a + b)[1..] == a[1..] + b;
      RunAppend(Step(c, a[0]), a[1..], b);
    }
  }

  /** Every run from a state satisfying the invariant ends in one. */
  lemma {:induction false} RunPreservesInv(c: State, evs: seq<Event>)
    requires Inv(c)
    ensures Inv(Run(c, evs))
    decreases |evs|
  {
    if evs != [] {
      RunPreservesInv(Step(c, evs[0]), evs[1..]);
    }
  }

  /** The invariant holds in every state reachable from mount. */
  lemma ReachableSatisfiesInv(evs: seq<Event>)
    ensures Inv(Run(Init, evs))
  {
    RunPreservesInv(Init, evs);
  }

  /** Nothing is ever undone: both counters never decrease, and confetti
      and the celebration, once on, stay on. */
  lemma {:induction false} RunMonotone(c: State, evs: seq<Event>)
    ensures c.candlesLit <= Run(c, evs).candlesLit
    ensures c.balloonsPopped <= Run(c, evs).balloonsPopped
    ensures c.showConfetti ==> Run(c, evs).showConfetti
    ensures c.celebrating ==> Run(c, evs).celebrating
    decreases |evs|
  {
    if evs != [] {
      RunMonotone(Step(c, evs[0]), evs[1..]);
    }
  }

  /** The celebration is running exactly when it was running already or
      the celebrate button was clicked at some point. */
  lemma {:induction false} CelebratingIffClicked(c: State, evs: seq<Event>)
    ensures Run(c, evs).celebrating <==> c.celebrating || ClickCelebrate in evs
    decreases |evs|
  {
    if evs != [] {
      CelebratingIffClicked(Step(c, evs[0]), evs[1..]);
      assert ClickCelebrate in evs <==> evs[0] == ClickCelebrate || ClickCelebrate in evs[1..] by {
        assert evs == [evs[0]] + evs[1..];
      }
    }
  }

  /** Confetti is shown after a run from mount exactly when the celebrate
      button was clicked or both sequences are complete. */
  lemma ConfettiShownExactly(evs: seq<Event>)
    ensures Run(Init, evs).showConfetti <==> ClickCelebrate in evs || Complete(Run(Init, evs))
  {
    RunPreservesInv(Init, evs);
    CelebratingIffClicked(Init, evs);
  }

  /** The confetti effect has nothing to do in a state satisfying the
      invariant, so running it only when a counter changed, as the effect's
      dependency list does, and running it after every handler agree. */
  lemma ConfettiCheckIdle(c: State)
    requires Inv(c)
    ensures ConfettiCheck(c) == c
  {
  }

  // ---------------------------------------------------------------------
  // In-order advancement

  /** The count reached from `count` by a sequence of clicks under the
      in-order rule. */
  function InOrderCount(count: int, clicks: seq<int>): int
    decreases |clicks|
  {
    if clicks == [] then count else InOrderCount(Advance(count, clicks[0]), clicks[1..])
  }

  /** The indices `lo, lo + 1, ..., hi - 1`. */
  function Range(lo: int, hi: int): (r: seq<int>)
    decreases hi - lo
  {
    if lo >= hi then [] else [lo] + Range(lo + 1, hi)
  }

  /** `a` occurs in `b` in order, possibly with other elements between. */
  predicate IsSubseq(a: seq<int>, b: seq<int>)
    decreases |b|
  {
    if a == [] then true
    else if b == [] then false
    else if a[0] == b[0] then IsSubseq(a[1..], b[1..])
    else IsSubseq(a, b[1..])
  }

  lemma {:induction false} InOrderCountGrows(count: int, clicks: seq<int>)
    ensures count <= InOrderCount(count, clicks)
    decreases |clicks|
  {
    if clicks != [] {
      InOrderCountGrows(Advance(count, clicks[0]), clicks[1..]);
    }
  }

  /** Under the in-order rule, the count passes `k` exactly when the
      indices from the starting count up to `k - 1` were clicked in that
      order: skipped and repeated clicks are ignored. */
  lemma {:induction false} InOrderCountIsSubseq(count: int, clicks: seq<int>, k: int)
    requires count <= k
    ensures InOrderCount(count, clicks) >= k <==> IsSubseq(Range(count, k), clicks)
    decreases |clicks|
  {
    if k == count {
      InOrderCountGrows(count, clicks);
    } else if clicks == [] {
    } else {
      assert Range(count, k)[0] == count;
      assert Range(count, k)[1..] == Range(count + 1, k);
      InOrderCountIsSubseq(Advance(count, clicks[0]), clicks[1..], k);
      if clicks[0] == count {
        if k == count + 1 {
          InOrderCountGrows(count + 1, clicks[1..]);
        } else {
          InOrderCountIsSubseq(count + 1, clicks[1..], k);
        }
      }
    }
  }

  /** The indices of the clicks on drawn balloons among `evs`. */
  function BalloonClicks(evs: seq<Event>): seq<int>
    decreases |evs|
  {
    if evs == [] then []
    else if evs[0].ClickBalloon? && 0 <= evs[0].index < TotalBalloons
    then [evs[0].index] + BalloonClicks(evs[1..])
    else BalloonClicks(evs[1..])
  }

  /** The indices of the clicks on drawn candles among `evs`. */
  function CandleClicks(evs: seq<Event>): seq<int>
    decreases |evs|
  {
    if evs == [] then []
    else if evs[0].ClickCandle? && 0 <= evs[0].index < TotalCandles
    then [evs[0].index] + CandleClicks(evs[1..])
    else CandleClicks(evs[1..])
  }

  /** Only balloon clicks move the balloon counter, each by the in-order rule. */
  lemma {:induction false} BalloonsFollowClicks(c: State, evs: seq<Event>)
    ensures Run(c, evs).balloonsPopped == InOrderCount(c.balloonsPopped, BalloonClicks(evs))
    decreases |evs|
  {
    if evs != [] {
      BalloonsFollowClicks(Step(c, evs[0]), evs[1..]);
    }
  }

  /** After any run from mount, at least `k` balloons are popped exactly
      when balloons `0, ..., k - 1` were clicked in that order. */
  lemma BalloonsPoppedInOrder(evs: seq<Event>, k: int)
    requires 0 <= k
    ensures Run(Init, evs).balloonsPopped >= k <==> IsSubseq(Range(0, k), BalloonClicks(evs))
  {
    BalloonsFollowClicks(Init, evs);
    InOrderCountIsSubseq(0, BalloonClicks(evs), k);
  }

  /** Without a celebration, only candle clicks move the candle counter,
      each by the in-order rule. */
  lemma {:induction false} CandlesFollowClicks(c: State, evs: seq<Event>)
    requires Inv(c) && !c.celebrating && ClickCelebrate !in evs
    ensures Run(c, evs).candlesLit == InOrderCount(c.candlesLit, CandleClicks(evs))
    decreases |evs|
  {
    if evs != [] {
      assert evs[0] != ClickCelebrate;
      assert ClickCelebrate !in evs[1..];
      CandlesFollowClicks(Step(c, evs[0]), evs[1..]);
    }
  }

  /** Without a celebration, at least `k` candles are lit after a run from
      mount exactly when candles `0, ..., k - 1` were clicked in that order. */
  lemma CandlesLitInOrder(evs: seq<Event>, k: int)
    requires ClickCelebrate !in evs && 0 <= k
    ensures Run(Init, evs).candlesLit >= k <==> IsSubseq(Range(0, k), CandleClicks(evs))
  {
    CandlesFollowClicks(Init, evs);
    InOrderCountIsSubseq(0, CandleClicks(evs), k);
  }

  // ---------------------------------------------------------------------
  // The celebration timer

  /** `n` firings of the timer. */
  function Ticks(n: nat): seq<Event> {
    if n == 0 then [] else [TimerTick] + Ticks(n - 1)
  }

  /** While candles remain unlit, each firing lights exactly one more and
      leaves the timer running; nothing else changes. */
  lemma {:induction false} TicksAdvance(c: State, m: nat)
    requires Inv(c) && c.intervalActive && c.candlesLit + m <= TotalCandles
    ensures Run(c, Ticks(m)) == c.(candlesLit := c.candlesLit + m)
    decreases m
  {
    if m > 0 {
      var d := Step(c, TimerTick);
      assert d == c.(candlesLit := c.candlesLit + 1);
      assert Ticks(m)[0] == TimerTick && Ticks(m)[1..] == Ticks(m - 1);
      TicksAdvance(d, m - 1);
    }
  }

  /** The firing after the last candle is lit clears the timer: the
      celebration ends after exactly `TotalCandles - candlesLit + 1` firings
      with every candle lit, and no earlier firing clears it. */
  lemma TicksClear(c: State)
    requires Inv(c) && c.intervalActive
    ensures Run(c, Ticks(TotalCandles - c.candlesLit)).intervalActive
    ensures var n := TotalCandles - c.candlesLit;
      Run(c, Ticks(n + 1)) == c.(candlesLit := TotalCandles, intervalActive := false)
  {
    var n := TotalCandles - c.candlesLit;
    assert Ticks(n + 1) == Ticks(n) + [TimerTick] by {
      TicksSnoc(n);
    }
    RunAppend(c, Ticks(n), [TimerTick]);
    TicksAdvance(c, n);
  }

  lemma {:induction false} TicksSnoc(n: nat)
    ensures Ticks(n + 1) == Ticks(n) + [TimerTick]
  {
    if n > 0 {
      TicksSnoc(n - 1);
    }
  }

  /** Once the timer is cleared it never runs again: whatever happens
      afterwards, every candle stays lit and a timer firing changes nothing. */
  lemma {:induction false} ClearedStaysCleared(c: State, evs: seq<Event>)
    requires Inv(c) && c.celebrating && !c.intervalActive
    ensures var d := Run(c, evs);
      d.celebrating && !d.intervalActive && d.candlesLit == TotalCandles && Step(d, TimerTick) == d
    decreases |evs|
  {
    if evs != [] {
      ClearedStaysCleared(Step(c, evs[0]), evs[1..]);
    }
  }

  /** The celebrate button is usable only while no timer exists, so a click
      on it never starts a second timer, and a click on it while disabled
      changes nothing. */
  lemma NoSecondTimer(c: State)
    requires Inv(c)
    ensures CelebrateEnabled(c) ==> !c.intervalActive
    ensures !CelebrateEnabled(c) ==> Step(c, ClickCelebrate) == c
  {
  }

  // ---------------------------------------------------------------------
  // What is drawn

  /** How many candles are drawn lit. */
  function LitShown(c: State): int {
    if c.celebrating then (if c.candlesLit < TotalCandles then c.candlesLit + 1 else TotalCandles)
    else c.candlesLit
  }

  /** The lit candles are the first `LitShown(c)` ones. */
  lemma CandleLitPrefix(c: State, i: int)
    requires Inv(c) && 0 <= i < TotalCandles
    ensures CandleLit(c, i) <==> i < LitShown(c)
  {
  }

  /** The number of candles among `0, ..., n - 1` drawn lit. */
  function CountLit(c: State, n: nat): nat {
    if n == 0 then 0 else CountLit(c, n - 1) + (if CandleLit(c, n - 1) then 1 else 0)
  }

  /** The number of balloons among `0, ..., n - 1` drawn popped. */
  function CountPopped(c: State, n: nat): nat {
    if n == 0 then 0 else CountPopped(c, n - 1) + (if BalloonPopped(c, n - 1) then 1 else 0)
  }

  /** Outside a celebration exactly `candlesLit` candles are drawn lit;
      during one, a candle more, up to all six. */
  lemma {:induction false} LitCandlesDrawn(c: State, n: nat)
    requires Inv(c) && n <= TotalCandles
    ensures CountLit(c, n) == if n < LitShown(c) then n else LitShown(c)
  {
    if n > 0 {
      LitCandlesDrawn(c, n - 1);
    }
  }

  /** Exactly `balloonsPopped` balloons are drawn popped. */
  lemma {:induction false} PoppedBalloonsDrawn(c: State, n: nat)
    requires Inv(c) && n <= TotalBalloons
    ensures CountPopped(c, n) == if n < c.balloonsPopped then n else c.balloonsPopped
  {
    if n > 0 {
      PoppedBalloonsDrawn(c, n - 1);
    }
  }

  /** The six candles, when lit, are six different colours, and so are the
      six intact balloons. */
  lemma DistinctColours(c: State, i: nat, j: nat)
    requires i < j < TotalCandles
    ensures CandleLit(c, i) && CandleLit(c, j) ==> CandleColour(c, i) != CandleColour(c, j)
    ensures !BalloonPopped(c, i) && !BalloonPopped(c, j) ==> BalloonColour(c, i) != BalloonColour(c, j)
  {
  }

  // ---------------------------------------------------------------------
  // The invariant describes the reachable states exactly

  /** Clicking candles `lo, ..., hi - 1` in order. */
  function CandleRun(lo: int, hi: int): seq<Event>
    decreases hi - lo
  {
    if lo >= hi then [] else [ClickCandle(lo)] + CandleRun(lo + 1, hi)
  }

  /** Clicking balloons `lo, ..., hi - 1` in order. */
  function BalloonRun(lo: int, hi: int): seq<Event>
    decreases hi - lo
  {
    if lo >= hi then [] else [ClickBalloon(lo)] + BalloonRun(lo + 1, hi)
  }

  lemma {:induction false} LightInOrder(c: State, k: int)
    requires Inv(c) && !c.celebrating && c.candlesLit <= k <= TotalCandles
    ensures Run(c, CandleRun(c.candlesLit, k))
      == c.(candlesLit := k, showConfetti := k == TotalCandles && c.balloonsPopped == TotalBalloons)
    decreases k - c.candlesLit
  {
    if c.candlesLit < k {
      var evs := CandleRun(c.candlesLit, k);
      assert evs[0] == ClickCandle(c.candlesLit) && evs[1..] == CandleRun(c.candlesLit + 1, k);
      LightInOrder(Step(c, evs[0]), k);
    }
  }

  lemma {:induction false} PopInOrder(c: State, k: int)
    requires Inv(c) && !c.celebrating && c.balloonsPopped <= k <= TotalBalloons
    ensures Run(c, BalloonRun(c.balloonsPopped, k))
      == c.(balloonsPopped := k, showConfetti := c.candlesLit == TotalCandles && k == TotalBalloons)
    decreases k - c.balloonsPopped
  {
    if c.balloonsPopped < k {
      var evs := BalloonRun(c.balloonsPopped, k);
      assert evs[0] == ClickBalloon(c.balloonsPopped) && evs[1..] == BalloonRun(c.balloonsPopped + 1, k);
      PopInOrder(Step(c, evs[0]), k);
    }
  }

  /** A run from mount that reaches `c`. */
  function Witness(c: State): seq<Event> {
    CandleRun(0, c.candlesLit) + BalloonRun(0, c.balloonsPopped)
    + (if c.celebrating then [ClickCelebrate] + (if c.intervalActive then [] else [TimerTick]) else [])
  }

  /** Every state satisfying the invariant is reachable from mount, so
      together with `ReachableSatisfiesInv` the invariant is exactly the set
      of states the card can be in. */
  lemma InvIsReachable(c: State)
    requires Inv(c)
    ensures Run(Init, Witness(c)) == c
  {
    var candles := CandleRun(0, c.candlesLit);
    var balloons := BalloonRun(0, c.balloonsPopped);
    var tail := if c.celebrating then [ClickCelebrate] + (if c.intervalActive then [] else [TimerTick]) else [];
    assert Witness(c) == candles + (balloons + tail);
    RunAppend(Init, candles, balloons + tail);
    LightInOrder(Init, c.candlesLit);
    var s1 := Run(Init, candles);
    RunAppend(s1, balloons, tail);
    PopInOrder(s1, c.balloonsPopped);
    var s2 := Run(s1, balloons);
    assert s2 == State(c.candlesLit, c.balloonsPopped, Complete(c), false, false);
    if c.celebrating {
      var s3 := Step(s2, ClickCelebrate);
      assert Run(s2, tail) == Run(s3, tail[1..]);
      if !c.intervalActive {
        assert Run(s3, [TimerTick]) == Step(s3, TimerTick);
      }
    }
  }

  // ---------------------------------------------------------------------
  // Scenarios

  /** Clicking candle 0 twice lights it once. */
  lemma RepeatClickIgnored()
    ensures Run(Init, [ClickCandle(0), ClickCandle(0)]).candlesLit == 1
  {
  }

  /** With five candles lit, celebrating shows confetti at once; the first
      firing lights the sixth candle, the second clears the timer, and a
      third is then impossible. */
  lemma CelebrateAfterFiveCandles()
    ensures var s := Run(Init, CandleRun(0, 5) + [ClickCelebrate]);
      s.celebrating && s.showConfetti && s.intervalActive && s.candlesLit == 5
      && Step(s, TimerTick).candlesLit == TotalCandles && Step(s, TimerTick).intervalActive
      && !Step(Step(s, TimerTick), TimerTick).intervalActive
  {
    RunAppend(Init, CandleRun(0, 5), [ClickCelebrate]);
    LightInOrder(Init, 5);
  }

  /** Without celebrating, confetti appears with the last click that
      completes both sequences, whichever of the two finishes last. */
  lemma ConfettiAfterBothSequences()
    ensures !Run(Init, CandleRun(0, 6) + BalloonRun(0, 5)).showConfetti
    ensures Run(Init, CandleRun(0, 6) + BalloonRun(0, 6)).showConfetti
    ensures !Run(Init, BalloonRun(0, 6) + CandleRun(0, 5)).showConfetti
    ensures Run(Init, BalloonRun(0, 6) + CandleRun(0, 6)).showConfetti
  {
    LightInOrder(Init, 6);
    RunAppend(Init, CandleRun(0, 6), BalloonRun(0, 5));
    RunAppend(Init, CandleRun(0, 6), BalloonRun(0, 6));
    PopInOrder(Run(Init, CandleRun(0, 6)), 5);
    PopInOrder(Run(Init, CandleRun(0, 6)), 6);
    PopInOrder(Init, 6);
    RunAppend(Init, BalloonRun(0, 6), CandleRun(0, 5));
    RunAppend(Init, BalloonRun(0, 6), CandleRun(0, 6));
    LightInOrder(Run(Init, BalloonRun(0, 6)), 5);
    LightInOrder(Run(Init, BalloonRun(0, 6)), 6);
  }
}
