// The rolling-window aggregator: a time-ordered buffer of ticks, trimmed at
// the front on every update, and an append-only history of the bars
// computed over it.
module Rolling {
  import opened Types
  import opened Summary
  import opened Chunking

  /** The fewest buffered ticks for which `update` computes bars. */
  const MinTicks: nat := 4

  /** How many ticks eviction pops: the length of the longest prefix of `buf` whose ticks are older than `cutoff`. */
  function StaleCount(buf: seq<BookTicker>, cutoff: nat): (n: nat)
    ensures n <= |buf|
    ensures forall i :: 0 <= i < n ==> buf[i].time < cutoff
    ensures n == |buf| || buf[n].time >= cutoff
    decreases |buf|
  {
    if |buf| > 0 && buf[0].time < cutoff then
      var n := StaleCount(buf[1..], cutoff);
      assert forall i :: 1 <= i < |buf| ==> buf[i] == buf[1..][i - 1];
      n + 1
    else 0
  }

  /** The buffer after eviction: `buf` without its longest prefix of ticks older than `cutoff`. */
  function DropStale(buf: seq<BookTicker>, cutoff: nat): seq<BookTicker> {
    buf[StaleCount(buf, cutoff)..]
  }

  /** In a time-ordered buffer eviction leaves no tick older than the cutoff, and the order intact. */
  lemma DropStaleSorted(buf: seq<BookTicker>, cutoff: nat)
    requires Sorted(buf)
    ensures Sorted(DropStale(buf, cutoff))
    ensures NotOlderThan(DropStale(buf, cutoff), cutoff)
  {
    var r := DropStale(buf, cutoff);
    SuffixSorted(buf, StaleCount(buf, cutoff));
    if |r| > 0 {
      assert forall i :: 0 <= i < |r| ==> r[0].time <= r[i].time;
    }
  }

  lemma SuffixSorted(buf: seq<BookTicker>, d: nat)
    requires Sorted(buf) && d <= |buf|
    ensures Sorted(buf[d..])
  {
    var r := buf[d..];
    forall i, j | 0 <= i <= j < |r|
      ensures r[i].time <= r[j].time
    {
      assert r[i] == buf[d + i] && r[j] == buf[d + j];
    }
  }

  /** Appending a tick that follows a time-ordered buffer keeps it time-ordered. */
  lemma SortedSnoc(buf: seq<BookTicker>, tick: BookTicker)
    requires Sorted(buf) && Follows(buf, tick)
    ensures Sorted(buf + [tick])
  {
    var s := buf + [tick];
    forall i, j | 0 <= i <= j < |s|
      ensures s[i].time <= s[j].time
    {
      if j == |buf| && i < |buf| {
        assert s[i] == buf[i] && buf[i].time <= buf[|buf| - 1].time;
      }
    }
  }

  /** One eviction-and-append step on a time-ordered buffer: the result is
      time-ordered and holds no tick older than the cutoff. */
  lemma EvictThenAppend(buf: seq<BookTicker>, cutoff: nat, tick: BookTicker)
    requires tick.time >= cutoff
    ensures Sorted(buf) && Follows(buf, tick) ==>
      Sorted(DropStale(buf, cutoff) + [tick]) && NotOlderThan(DropStale(buf, cutoff) + [tick], cutoff)
  {
    if Sorted(buf) && Follows(buf, tick) {
      DropStaleSorted(buf, cutoff);
      DropStaleFollows(buf, cutoff, tick);
      SortedSnoc(DropStale(buf, cutoff), tick);
      NotOlderThanSnoc(DropStale(buf, cutoff), cutoff, tick);
    }
  }

  /** No tick of `buf` is older than `cutoff`. */
  ghost predicate NotOlderThan(buf: seq<BookTicker>, cutoff: nat) {
    forall i :: 0 <= i < |buf| ==> buf[i].time >= cutoff
  }

  lemma DropStaleFollows(buf: seq<BookTicker>, cutoff: nat, tick: BookTicker)
    requires Follows(buf, tick)
    ensures Follows(DropStale(buf, cutoff), tick)
  {
    var kept := DropStale(buf, cutoff);
    assert kept == [] || kept[|kept| - 1] == buf[|buf| - 1];
  }

  lemma NotOlderThanSnoc(buf: seq<BookTicker>, cutoff: nat, tick: BookTicker)
    requires NotOlderThan(buf, cutoff) && tick.time >= cutoff
    ensures NotOlderThan(buf + [tick], cutoff)
  {
    var s := buf + [tick];
    forall i | 0 <= i < |s|
      ensures s[i].time >= cutoff
    {
      if i < |buf| { assert s[i] == buf[i]; }
    }
  }

  /** The bars of one full window, `buf`, labelled with the triggering tick's `symbol`. */
  function WindowBars(buf: seq<BookTicker>, symbol: string, threads: nat): (r: seq<OHLC>)
    requires |buf| >= 1 && threads >= 1
    ensures 1 <= |r| <= NumChunks(|buf|, threads)
    ensures r[|r| - 1].timestamp == buf[|buf| - 1].time && r[|r| - 1].close == buf[|buf| - 1].ask
    ensures forall i :: 0 <= i < |r| ==> r[i].symbol == symbol
  {
    var k := ChunkSize(|buf|, threads);
    var chunks := Chunks(buf, k);
    ChunksShape(buf, k);
    PartitionBounds(buf, threads);
    ChunksLast(buf, k);
    var bars := Bars(chunks, symbol);
    assert Summarises(bars[|bars| - 1], chunks[|chunks| - 1], symbol);
    bars
  }

  /** Bar `i` of a window summarises chunk `i` of the window's partition. */
  lemma WindowBarsSummarise(buf: seq<BookTicker>, symbol: string, threads: nat)
    requires |buf| >= 1 && threads >= 1
    ensures var k := ChunkSize(|buf|, threads); var r := WindowBars(buf, symbol, threads);
      |r| == |Chunks(buf, k)| &&
      forall i :: 0 <= i < |r| ==> Summarises(r[i], Chunks(buf, k)[i], symbol)
  {
    ChunksShape(buf, ChunkSize(|buf|, threads));
  }

  class RollingOHLC {
    /** The window length, in the time unit of the ticks. */
    const windowSize: nat
    /** The ticks of the current window, oldest first. */
    var priceData: seq<BookTicker>
    /** Every bar computed so far, in the order computed. */
    var ohlcData: seq<OHLC>

    constructor (windowSize: nat)
      ensures this.windowSize == windowSize
      ensures priceData == [] && ohlcData == []
    {
      this.windowSize := windowSize;
      priceData := [];
      ohlcData := [];
    }

    /** Pops ticks older than `cutoff` off the front of the buffer, stopping
        at the first tick that is not. */
    method Evict(cutoff: nat)
      modifies this`priceData
      ensures priceData == DropStale(old(priceData), cutoff)
    {
      ghost var popped := 0;
      while |priceData| > 0 && priceData[0].time < cutoff
        invariant popped <= StaleCount(old(priceData), cutoff)
        invariant priceData == old(priceData)[popped..]
        decreases |priceData|
      {
        priceData := priceData[1..];
        popped := popped + 1;
      }
    }

    /** Evicts ticks older than `tick.time - windowSize` (Evict), appends
        `tick`, and once the window holds MinTicks ticks appends its bars, one
        per chunk for `threads` worker threads, returning the last of them. */
    method Update(tick: BookTicker, threads: nat) returns (r: Option<OHLC>)
      requires threads >= 1
      requires tick.time >= windowSize
      modifies this
      ensures priceData == DropStale(old(priceData), tick.time - windowSize) + [tick]
      ensures priceData[0].time >= tick.time - windowSize
      ensures |priceData| < MinTicks ==> r == None && ohlcData == old(ohlcData)
      ensures |priceData| >= MinTicks ==>
        var bars := WindowBars(priceData, tick.symbol, threads);
        ohlcData == old(ohlcData) + bars && r == Some(bars[|bars| - 1])
      ensures r.Some? ==>
        r.value.symbol == tick.symbol && r.value.timestamp == tick.time && r.value.close == tick.ask
      ensures old(ohlcData) <= ohlcData
    {
      Evict(tick.time - windowSize);
      priceData := priceData + [tick];
      if |priceData| >= MinTicks {
        var bars := WindowBars(priceData, tick.symbol, threads);
        ohlcData := ohlcData + bars;
        r := Some(bars[|bars| - 1]);
      } else {
        r := None;
      }
    }

    /** The history of all bars computed so far. */
    method GetOhlcData() returns (h: seq<OHLC>)
      ensures h == ohlcData
    {
      h := ohlcData;
    }
  }
}
