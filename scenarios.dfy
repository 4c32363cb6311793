// Client scenarios: what a caller can conclude about concrete tick streams
// from the contracts of the aggregator alone.
module Scenarios {
  import opened Types
  import opened Summary
  import opened Chunking
  import opened Rolling

  // Four ticks 10 units apart, asks 100, 102, 99 and 101 (in millionths).
  const T0 := BookTicker("BTCUSD", 100_000000, 1000)
  const T1 := BookTicker("BTCUSD", 102_000000, 1010)
  const T2 := BookTicker("BTCUSD", 99_000000, 1020)
  const T3 := BookTicker("BTCUSD", 101_000000, 1030)

  /** With one thread the four-tick window is one chunk and yields one bar. */
  lemma FourTicksOneThread()
    ensures WindowBars([T0, T1, T2, T3], "BTCUSD", 1) ==
      [OHLC("BTCUSD", 1030, 100_000000, 102_000000, 99_000000, 101_000000)]
  {
    var w := [T0, T1, T2, T3];
    assert ChunkSize(4, 1) == 4;
    assert Chunks(w, 4) == [w];
    assert w[1..] == [T1, T2, T3] && w[1..][1..] == [T2, T3] && w[1..][1..][1..] == [T3];
    assert MaxAsk([T3]) == 101_000000 && MinAsk([T3]) == 101_000000;
    assert MaxAsk([T2, T3]) == 101_000000 && MinAsk([T2, T3]) == 99_000000;
    assert MaxAsk([T1, T2, T3]) == 102_000000 && MinAsk([T1, T2, T3]) == 99_000000;
  }

  /** With two threads the four-tick window is two chunks of two and yields two bars. */
  lemma FourTicksTwoThreads()
    ensures WindowBars([T0, T1, T2, T3], "BTCUSD", 2) ==
      [OHLC("BTCUSD", 1010, 100_000000, 102_000000, 100_000000, 102_000000),
       OHLC("BTCUSD", 1030, 99_000000, 101_000000, 99_000000, 101_000000)]
  {
    var w := [T0, T1, T2, T3];
    assert ChunkSize(4, 2) == 2;
    assert w[..2] == [T0, T1] && w[2..] == [T2, T3] && w[2..][2..] == [];
    assert Chunks(w, 2) == [[T0, T1], [T2, T3]];
    assert MaxAsk([T1]) == 102_000000 && MinAsk([T1]) == 102_000000;
    assert MaxAsk([T3]) == 101_000000 && MinAsk([T3]) == 101_000000;
  }

  /** Four ticks inside one 60-unit window, one worker thread: the fourth
      update emits a single bar over all four ask prices. */
  method OneWindowOneThread() returns (r: Option<OHLC>, history: seq<OHLC>)
    ensures r == Some(OHLC("BTCUSD", 1030, 100_000000, 102_000000, 99_000000, 101_000000))
    ensures history == [r.value]
  {
    var agg := new RollingOHLC(60);
    r := agg.Update(T0, 1);
    r := agg.Update(T1, 1);
    r := agg.Update(T2, 1);
    assert agg.priceData == [T0, T1, T2];
    r := agg.Update(T3, 1);
    assert agg.priceData == [T0, T1, T2, T3];
    FourTicksOneThread();
    history := agg.GetOhlcData();
  }

  /** The same four ticks with two worker threads: both bars are recorded in
      chunk order and the second is returned. */
  method OneWindowTwoThreads() returns (r: Option<OHLC>, history: seq<OHLC>)
    ensures r == Some(OHLC("BTCUSD", 1030, 99_000000, 101_000000, 99_000000, 101_000000))
    ensures history == [OHLC("BTCUSD", 1010, 100_000000, 102_000000, 100_000000, 102_000000), r.value]
  {
    var agg := new RollingOHLC(60);
    r := agg.Update(T0, 2);
    r := agg.Update(T1, 2);
    r := agg.Update(T2, 2);
    assert agg.priceData == [T0, T1, T2];
    r := agg.Update(T3, 2);
    assert agg.priceData == [T0, T1, T2, T3];
    FourTicksTwoThreads();
    history := agg.GetOhlcData();
  }

  /** A 5-unit window and ticks 10 units apart: every update evicts the tick
      before it, the window never reaches four ticks, and nothing is emitted. */
  method SparseTicks() returns (rs: seq<Option<OHLC>>, history: seq<OHLC>)
    ensures rs == [None, None, None, None]
    ensures history == []
  {
    var agg := new RollingOHLC(5);
    var r0 := agg.Update(BookTicker("BTCUSD", 100_000000, 10), 4);
    var r1 := agg.Update(BookTicker("BTCUSD", 102_000000, 20), 4);
    assert |agg.priceData| == 1;
    var r2 := agg.Update(BookTicker("BTCUSD", 99_000000, 30), 4);
    assert |agg.priceData| == 1;
    var r3 := agg.Update(BookTicker("BTCUSD", 101_000000, 40), 4);
    rs := [r0, r1, r2, r3];
    history := agg.GetOhlcData();
  }

  /** Whatever three ticks a fresh aggregator is fed, it emits nothing. */
  method BelowThreshold(window: nat, t0: BookTicker, t1: BookTicker, t2: BookTicker, threads: nat)
    returns (rs: seq<Option<OHLC>>, history: seq<OHLC>)
    requires threads >= 1
    requires t0.time >= window && t1.time >= window && t2.time >= window
    ensures rs == [None, None, None]
    ensures history == []
  {
    var agg := new RollingOHLC(window);
    var r0 := agg.Update(t0, threads);
    var r1 := agg.Update(t1, threads);
    var r2 := agg.Update(t2, threads);
    rs := [r0, r1, r2];
    history := agg.GetOhlcData();
  }
}
