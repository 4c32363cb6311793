// Data model of the aggregator: the consumed part of a book-ticker update,
// an OHLC bar, and the Option the update returns.
module Types {

  /** The result of `update`: a bar, or nothing when the window is too small. */
  datatype Option<T> = None | Some(value: T)

  /** A book-ticker update, restricted to the three fields the aggregator reads:
      the symbol `s`, the best ask price `a` (as a fixed-point integer, in
      millionths of a price unit) and the transaction time `T`. */
  datatype BookTicker = BookTicker(symbol: string, ask: int, time: nat)

  /** An OHLC bar over the ask prices of one chunk of the window. Prices are
      fixed-point integers in millionths, the unit of the six-digit rendering. */
  datatype OHLC = OHLC(symbol: string, timestamp: nat, open: int, high: int, low: int, close: int)

  /** Ticks in non-decreasing time order. */
  ghost predicate Sorted(buf: seq<BookTicker>) {
    forall i, j :: 0 <= i <= j < |buf| ==> buf[i].time <= buf[j].time
  }

  /** The stream is monotone at this step: `tick` is not older than the newest buffered tick. */
  ghost predicate Follows(buf: seq<BookTicker>, tick: BookTicker) {
    buf == [] || buf[|buf| - 1].time <= tick.time
  }
}
