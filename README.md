# Rolling-window OHLC aggregator

A Dafny model of `RollingOHLC`, the aggregator of the OHLEAlgorithm
repository. The aggregator keeps a time-ordered buffer of book-ticker updates
(`price_data`), an append-only history of OHLC bars (`ohlc_data`) and a fixed
`window_size`. Each `update`:

1. pops from the front every tick whose time `T` is below `newT - window_size`,
   stopping at the first tick that is not;
2. appends the new tick;
3. once the buffer holds at least four ticks, cuts it front to back into
   contiguous chunks of size `ceil(len / min(len, threads))` (so at most
   `min(len, threads)` chunks, the last possibly shorter) and computes one
   bar per chunk: open and close are
   the first and last ask, high and low the maximum and minimum ask, the
   timestamp is the chunk's last `T` and the symbol is the triggering tick's;
4. appends those bars to the history in chunk order and returns the last one.

Layout:

- `types.dfy` (module `Types`): `BookTicker` (only `s`, `a`, `T`), `OHLC`,
  `Option`, and the predicates `Sorted` and `Follows` for time order.
- `summary.dfy` (module `Summary`): the per-chunk bar as pure functions
  (`MaxAsk`, `MinAsk`, `ChunkBar`, `Bars`) with the independent specification
  `Summarises` and the lemma that it determines the bar.
- `chunking.dfy` (module `Chunking`): chunk count, chunk size, the cut into
  chunks (`par_chunks`), and lemmas that the cut is a contiguous,
  covering partition.
- `rolling.dfy` (module `Rolling`): the class `RollingOHLC`. Its fields are
  the three fields of the Rust struct. `Update` changes them in place. The
  eviction is the method `Evict`, a `while` loop that pops the front of the
  `priceData` sequence.
  Beside the class are the specification functions `StaleCount`, `DropStale`
  and `WindowBars`, and lemmas about them.
- `scenarios.dfy` (module `Scenarios`): client methods that drive a fresh
  aggregator through concrete tick streams. They rely only on the contracts.

The thread count (`rayon::current_num_threads()`) is the explicit parameter
`threads >= 1` of `Update`. The parallel map over chunks is pure and keeps its
order, so it is modelled as a sequential map. Ask prices are integers in
millionths of a price unit. That is the unit of the source's six-digit
rendering.

Because `Update`'s postcondition fixes the new buffer, the new history and the
result as functions of the old state, the tick and `threads`, two runs over
the same stream with the same window and thread count produce the same bars.

## Model

| member | source | states |
|---|---|---|
| `Rolling.RollingOHLC.constructor` | src/lib.rs:37-43 | the new aggregator has the given window size, an empty buffer and an empty history |
| `Rolling.RollingOHLC.Update` | src/lib.rs:47-109 | new buffer = old buffer minus its longest stale prefix, then the new tick; its front tick is not older than the cutoff; below four ticks the result is `None` and the history is unchanged; otherwise the history is the old history followed by the window's bars and the result is `Some` of the last one, carrying the tick's symbol, time and ask as symbol, timestamp and close; the old history is a prefix of the new |
| `Rolling.RollingOHLC.Evict` | src/lib.rs:50-56 | the front-popping loop leaves exactly the buffer without its longest prefix of ticks older than the cutoff |
| `Rolling.StaleCount` | src/lib.rs:49-56 | the number of ticks the eviction loop pops is the length of the longest prefix of ticks older than the cutoff: all of them are older, and the tick after them, if any, is not |
| `Rolling.DropStaleSorted` | src/lib.rs:50-56 | on a time-ordered buffer, eviction keeps the order and leaves no tick older than the cutoff |
| `Rolling.EvictThenAppend` | src/lib.rs:49-59 | for a time-ordered buffer and a tick not older than its last tick, evicting and then appending gives a time-ordered buffer with no tick older than the cutoff |
| `Rolling.SortedSnoc` | src/lib.rs:59 | appending a tick that is not older than the last buffered tick keeps the buffer time-ordered |
| `Rolling.WindowBars` | src/lib.rs:64-99 | a window yields between one and `min(len, threads)` bars, all carrying the triggering symbol; the last bar's timestamp and close are the last tick's time and ask |
| `Rolling.WindowBarsSummarise` | src/lib.rs:73-99 | there is one bar per chunk of the window's partition, and bar `i` summarises chunk `i` |
| `Rolling.RollingOHLC.GetOhlcData` | src/lib.rs:112-114 | returns the history and changes nothing |
| `Chunking.NumChunks` | src/lib.rs:67 | the chunk count is the smaller of the window length and the thread count |
| `Chunking.ChunkSize` | src/lib.rs:70 | the chunk size lies between 1 and the window length and is the least size `k` with `n * k >= len` for `n` chunks, that is `ceil(len / n)` |
| `Chunking.ChunksFlatten` | src/lib.rs:73-74 | the chunks, concatenated in order, are the window |
| `Chunking.ChunksShape` | src/lib.rs:73-74 | every chunk is non-empty and at most the chunk size long; only the last may be shorter |
| `Chunking.ChunkAt` | src/lib.rs:73-74 | chunk `i` is the slice of the window from `i * k` to `min(i * k + k, len)` |
| `Chunking.ChunksCountBounds` | src/lib.rs:73-74 | an empty input has no chunk; otherwise the chunk count `c` satisfies `(c - 1) * k < len <= c * k` |
| `Chunking.ChunksCount` | src/lib.rs:70-74 | the number of chunks, hence of bars, is `ceil(len / k)` |
| `Chunking.PartitionBounds` | src/lib.rs:67-74 | cutting the window by the computed size gives at least one and at most `min(len, threads)` chunks |
| `Chunking.ChunksLast` | src/lib.rs:78 | the last tick of the last chunk is the last tick of the window |
| `Summary.MaxAsk` | src/lib.rs:79-83 | the result is an ask price of the chunk and no ask price in it is larger |
| `Summary.MinAsk` | src/lib.rs:84-88 | the result is an ask price of the chunk and no ask price in it is smaller |
| `Summary.ChunkBar` | src/lib.rs:77-97 | the bar summarises the chunk: the triggering symbol, the last tick's time, first ask as open, last ask as close, maximum as high, minimum as low; hence low <= open, close <= high |
| `Summary.SummaryUnique` | src/lib.rs:77-97 | any bar that summarises a chunk equals `ChunkBar` of it |
| `Summary.SummaryBounds` | src/lib.rs:77-97 | in every bar that summarises a chunk, high and low bound open and close |
| `Summary.Bars` | src/lib.rs:73-99 | one bar per chunk, in chunk order, each summarising its chunk |
| `Scenarios.FourTicksOneThread` | src/lib.rs:64-99 | with one thread, the window of asks 100, 102, 99, 101 at times 1000 to 1030 yields exactly one bar: open 100, high 102, low 99, close 101, timestamp 1030 |
| `Scenarios.FourTicksTwoThreads` | src/lib.rs:64-99 | with two threads the same window yields two bars, over the first two and the last two ticks, in that order |
| `Scenarios.OneWindowOneThread` | src/lib.rs:47-109 | four ticks in one 60-unit window with one thread give a single bar with open 100, high 102, low 99, close 101 and the last tick's timestamp; the history is that bar |
| `Scenarios.OneWindowTwoThreads` | src/lib.rs:67-105 | the same ticks with two threads give two bars in chunk order; the second is returned |
| `Scenarios.SparseTicks` | src/lib.rs:50-62 | with a 5-unit window and ticks 10 units apart every update returns `None` and the history stays empty |
| `Scenarios.BelowThreshold` | src/lib.rs:62 | a fresh aggregator fed any three ticks returns `None` each time and keeps an empty history |

## Left out

- `src/main.rs` as a whole: opening and reading `data.txt`, JSON
  deserialisation, printing and writing `Output.txt` are I/O.
- Rayon: the thread pool and `par_chunks` become the parameter `threads` and a
  sequential map that keeps chunk order. Concurrency is not modelled.
- Floating point: the `f64` parse of the ask strings and the `{:.6}` rendering
  of the bar prices. Prices are fixed-point integers, and the `unwrap` panics on
  a malformed price or a `NaN` comparison do not arise.
- `Rolling.RollingOHLC.Update`: requires `tick.time >= windowSize`. The source
  subtracts `window_size` from `T` in `u64` with no guard. That panics in a
  debug build and wraps in a release build. The model does not cover either.
- `Rolling.RollingOHLC.Update`: the postcondition does not itself state that
  the buffer stays time-ordered. That follows from its buffer equation together
  with `Rolling.EvictThenAppend`, for a stream whose timestamps do not decrease.
- `u64` and `usize` widths are not modelled: timestamps, window sizes and
  lengths are unbounded naturals. The only place where the width matters is
  the cutoff subtraction above.
- The unused `BookTicker` fields (`e`, `u`, `b`, `B`, `A`, `E`), the serde
  derives and the `clone` calls: values are immutable in the model.
