// The per-chunk computation of `update`: open, high, low and close of the
// ask prices of one non-empty chunk.
module Summary {
  import opened Types

  /** `m` is the largest ask price of `chunk` and occurs in it. */
  ghost predicate IsMaxAsk(m: int, chunk: seq<BookTicker>) {
    (forall i :: 0 <= i < |chunk| ==> chunk[i].ask <= m) &&
    (exists i :: 0 <= i < |chunk| && chunk[i].ask == m)
  }

  /** `m` is the smallest ask price of `chunk` and occurs in it. */
  ghost predicate IsMinAsk(m: int, chunk: seq<BookTicker>) {
    (forall i :: 0 <= i < |chunk| ==> m <= chunk[i].ask) &&
    (exists i :: 0 <= i < |chunk| && chunk[i].ask == m)
  }

  /** What a bar over the non-empty `chunk`, labelled with `symbol`, must hold. */
  ghost predicate Summarises(b: OHLC, chunk: seq<BookTicker>, symbol: string) {
    |chunk| > 0 &&
    b.symbol == symbol &&
    b.timestamp == chunk[|chunk| - 1].time &&
    b.open == chunk[0].ask &&
    b.close == chunk[|chunk| - 1].ask &&
    IsMaxAsk(b.high, chunk) &&
    IsMinAsk(b.low, chunk)
  }

  /** The maximum of the ask prices (`max_by` over the chunk). */
  function MaxAsk(chunk: seq<BookTicker>): (m: int)
    requires |chunk| > 0
    ensures IsMaxAsk(m, chunk)
    decreases |chunk|
  {
    if |chunk| == 1 then chunk[0].ask
    else
      var rest := MaxAsk(chunk[1..]);
      assert forall i :: 1 <= i < |chunk| ==> chunk[i] == chunk[1..][i - 1];
      if chunk[0].ask >= rest then chunk[0].ask else rest
  }

  /** The minimum of the ask prices (`min_by` over the chunk). */
  function MinAsk(chunk: seq<BookTicker>): (m: int)
    requires |chunk| > 0
    ensures IsMinAsk(m, chunk)
    decreases |chunk|
  {
    if |chunk| == 1 then chunk[0].ask
    else
      var rest := MinAsk(chunk[1..]);
      assert forall i :: 1 <= i < |chunk| ==> chunk[i] == chunk[1..][i - 1];
      if chunk[0].ask <= rest then chunk[0].ask else rest
  }

  /** The bar of one chunk. The symbol is the triggering tick's, not the chunk's own. */
  function ChunkBar(chunk: seq<BookTicker>, symbol: string): (b: OHLC)
    requires |chunk| > 0
    ensures Summarises(b, chunk, symbol)
    ensures b.low <= b.open <= b.high && b.low <= b.close <= b.high
  {
    OHLC(symbol, chunk[|chunk| - 1].time, chunk[0].ask, MaxAsk(chunk), MinAsk(chunk), chunk[|chunk| - 1].ask)
  }

  /** Any bar that summarises a chunk is the one ChunkBar computes. */
  lemma SummaryUnique(b: OHLC, chunk: seq<BookTicker>, symbol: string)
    requires |chunk| > 0
    requires Summarises(b, chunk, symbol)
    ensures b == ChunkBar(chunk, symbol)
  {
    var c := ChunkBar(chunk, symbol);
    var i :| 0 <= i < |chunk| && chunk[i].ask == b.high;
    var j :| 0 <= j < |chunk| && chunk[j].ask == c.high;
    var k :| 0 <= k < |chunk| && chunk[k].ask == b.low;
    var l :| 0 <= l < |chunk| && chunk[l].ask == c.low;
  }

  /** High and low bound open and close in every bar that summarises a chunk. */
  lemma SummaryBounds(b: OHLC, chunk: seq<BookTicker>, symbol: string)
    requires |chunk| > 0
    requires Summarises(b, chunk, symbol)
    ensures b.low <= b.open <= b.high && b.low <= b.close <= b.high
  {
    assert b.open == chunk[0].ask;
    assert b.close == chunk[|chunk| - 1].ask;
  }

  /** The bars of a sequence of non-empty chunks, one per chunk and in chunk
      order (the order-preserving map over `par_chunks`). */
  function Bars(chunks: seq<seq<BookTicker>>, symbol: string): (r: seq<OHLC>)
    requires forall i :: 0 <= i < |chunks| ==> |chunks[i]| > 0
    ensures |r| == |chunks|
    ensures forall i :: 0 <= i < |r| ==> Summarises(r[i], chunks[i], symbol)
    decreases |chunks|
  {
    if |chunks| == 0 then []
    else
      var rest := Bars(chunks[1..], symbol);
      assert forall i :: 1 <= i < |chunks| ==> chunks[i] == chunks[1..][i - 1];
      [ChunkBar(chunks[0], symbol)] + rest
  }
}
