/** The tick accumulator: clock readings in nanoseconds, deltas handed out in milliseconds. */
module Tickers {

  const NANOSECONDS_IN_MILLISECOND: int := 1_000_000

  /** Converting a duration truncates toward zero. */
  function ToMilliseconds(nanoseconds: int): int {
    if nanoseconds >= 0 then nanoseconds / NANOSECONDS_IN_MILLISECOND
    else -(-nanoseconds / NANOSECONDS_IN_MILLISECOND)
  }

  datatype TickerView = TickerView(lastTick: int, hasStarted: bool)

  function Ticked(t: TickerView, now: int): (TickerView, int) {
    (t.(lastTick := now), ToMilliseconds(now - t.lastTick))
  }

  class Ticker {
    const period: int
    var lastTick: int
    var hasStarted: bool

    ghost function View(): TickerView
      reads this
    {
      TickerView(lastTick, hasStarted)
    }

    constructor (period: int)
      ensures !hasStarted && this.period == period
    {
      this.period := period;
      hasStarted := false;
    }

    method Start(now: int)
      modifies this
      ensures View() == TickerView(now, true)
    {
      lastTick := now;
      hasStarted := true;
    }

    /** The result is what the handler is called with. */
    method OnTick(now: int) returns (delta: int)
      modifies this
      ensures (View(), delta) == Ticked(old(View()), now)
    {
      var currentTick := now;
      delta := ToMilliseconds(currentTick - lastTick);
      lastTick := currentTick;
    }
  }

  /** The state after a tick at each of the readings, and the sum of the deltas handed out. */
  function AfterTicks(t: TickerView, readings: seq<int>): (TickerView, int) {
    if readings == [] then (t, 0)
    else
      var n := |readings| - 1;
      var (before, sum) := AfterTicks(t, readings[..n]);
      var (after, delta) := Ticked(before, readings[n]);
      (after, sum + delta)
  }

  predicate Monotone(start: int, readings: seq<int>) {
    && (forall k :: 0 <= k < |readings| ==> start <= readings[k])
    && (forall j, k :: 0 <= j < k < |readings| ==> readings[j] <= readings[k])
  }

  /** After n ticks at monotone readings the milliseconds handed out never exceed the time
      elapsed since the start, and lag behind it by less than n milliseconds. */
  lemma {:induction false} TickDrift(start: int, readings: seq<int>)
    requires Monotone(start, readings) && readings != []
    ensures var (t, sum) := AfterTicks(TickerView(start, true), readings);
            var elapsed := readings[|readings| - 1] - start;
            && t.lastTick == readings[|readings| - 1]
            && elapsed - |readings| * 1_000_000 < sum * 1_000_000 <= elapsed
  {
    var n := |readings| - 1;
    var init := readings[..n];
    assert forall k :: 0 <= k < n ==> init[k] == readings[k];
    if n > 0 {
      assert Monotone(start, init);
      TickDrift(start, init);
    } else {
      assert init == [];
    }
  }
}
