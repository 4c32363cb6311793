// How `update` splits the window for its parallel map: the number of chunks
// is bounded by the thread count, the chunk size is a ceiling division, and
// the window is cut front to back into pieces of that size (`par_chunks`).
module Chunking {

  /** The number of chunks asked for: the smaller of the window length and the thread count. */
  function NumChunks(len: nat, threads: nat): (n: nat)
    requires len >= 1 && threads >= 1
    ensures 1 <= n && n <= len && n <= threads
    ensures n == len || n == threads
  {
    if len <= threads then len else threads
  }

  /** The chunk size, `(len + n - 1) / n` for `n` chunks: the least size
      with which `n` chunks cover the whole window. */
  function ChunkSize(len: nat, threads: nat): (k: nat)
    requires len >= 1 && threads >= 1
    ensures 1 <= k <= len
    ensures (k - 1) * NumChunks(len, threads) < len <= k * NumChunks(len, threads)
  {
    var n := NumChunks(len, threads);
    CeilDivBounds(len, n);
    (len + n - 1) / n
  }

  /** `(len + n - 1) / n` is the ceiling of `len / n`. */
  lemma CeilDivBounds(len: nat, n: nat)
    requires 1 <= n <= len
    ensures var k := (len + n - 1) / n; 1 <= k <= len && (k - 1) * n < len <= k * n
  {
    var k := (len + n - 1) / n;
    DivBounds(len + n - 1, n);
    assert (k - 1) * n == k * n - n by { MulPred(k, n); }
    assert k - 1 <= (k - 1) * n by { MulAtLeast(k - 1, n); }
  }

  lemma MulPred(k: int, n: int)
    ensures (k - 1) * n == k * n - n
  {
  }

  /** Euclidean division of naturals, as bounds on the quotient. */
  lemma DivBounds(a: nat, b: nat)
    requires b >= 1
    ensures (a / b) * b <= a < (a / b) * b + b
  {
  }

  lemma MulAtLeast(a: nat, b: nat)
    requires b >= 1
    ensures a * b >= a
  {
  }

  /** The concatenation of a sequence of sequences. */
  function Flatten<T>(ss: seq<seq<T>>): seq<T>
    decreases |ss|
  {
    if |ss| == 0 then [] else ss[0] + Flatten(ss[1..])
  }

  /** Consecutive pieces of `s` of length `k`, the last one possibly shorter;
      no piece at all for an empty `s`. */
  function Chunks<T>(s: seq<T>, k: nat): seq<seq<T>>
    requires k >= 1
    decreases |s|
  {
    if |s| == 0 then []
    else if |s| <= k then [s]
    else [s[..k]] + Chunks(s[k..], k)
  }

  /** The chunks, put back together, give the input. */
  lemma {:induction false} ChunksFlatten<T>(s: seq<T>, k: nat)
    requires k >= 1
    ensures Flatten(Chunks(s, k)) == s
    decreases |s|
  {
    if |s| == 0 {
    } else if |s| <= k {
      assert Flatten(Chunks(s, k)) == s + Flatten([]);
    } else {
      ChunksFlatten(s[k..], k);
      assert Chunks(s, k)[1..] == Chunks(s[k..], k);
      assert s == s[..k] + s[k..];
    }
  }

  /** Every chunk is non-empty and at most `k` long, and every chunk except the last is exactly `k` long. */
  lemma {:induction false} ChunksShape<T>(s: seq<T>, k: nat)
    requires k >= 1
    ensures forall i :: 0 <= i < |Chunks(s, k)| ==> 0 < |Chunks(s, k)[i]| <= k
    ensures forall i :: 0 <= i < |Chunks(s, k)| - 1 ==> |Chunks(s, k)[i]| == k
    decreases |s|
  {
    if |s| > k {
      ChunksShape(s[k..], k);
      var c := Chunks(s, k);
      assert forall i :: 1 <= i < |c| ==> c[i] == Chunks(s[k..], k)[i - 1];
    }
  }

  /** Chunk `i` is the slice of `s` starting at `i * k`, `k` long or cut off by the end of `s`. */
  lemma {:induction false} ChunkAt<T>(s: seq<T>, k: nat, i: nat)
    requires k >= 1
    requires i < |Chunks(s, k)|
    ensures i * k < |s|
    ensures Chunks(s, k)[i] == s[i * k .. Min(i * k + k, |s|)]
    decreases |s|
  {
    if i > 0 {
      var rest := s[k..];
      assert Chunks(s, k)[i] == Chunks(rest, k)[i - 1];
      ChunkAt(rest, k, i - 1);
      var lo := (i - 1) * k;
      assert lo + k == i * k by { MulStep(i, k); }
      ShiftSlice(s, k, lo, Min(lo + k, |rest|));
    }
  }

  lemma MulStep(i: nat, k: nat)
    requires i >= 1
    ensures (i - 1) * k + k == i * k
  {
  }

  lemma ShiftSlice<T>(s: seq<T>, k: nat, lo: nat, hi: nat)
    requires k <= |s| && lo <= hi <= |s| - k
    ensures s[k..][lo..hi] == s[k + lo..k + hi]
  {
  }

  function Min(a: nat, b: nat): nat {
    if a <= b then a else b
  }

  /** The number of chunks is the least count of `k`-sized pieces that covers `s`. */
  lemma {:induction false} ChunksCountBounds<T>(s: seq<T>, k: nat)
    requires k >= 1
    ensures |s| == 0 <==> |Chunks(s, k)| == 0
    ensures |s| > 0 ==> (|Chunks(s, k)| - 1) * k < |s| <= |Chunks(s, k)| * k
    decreases |s|
  {
    if |s| > k {
      ChunksCountBounds(s[k..], k);
      var m := |Chunks(s[k..], k)|;
      assert |Chunks(s, k)| == m + 1;
      assert (m + 1) * k == m * k + k;
    }
  }

  /** The number of chunks is `ceil(len / k)`. */
  lemma ChunksCount<T>(s: seq<T>, k: nat)
    requires k >= 1
    ensures |Chunks(s, k)| == (|s| + k - 1) / k
  {
    ChunksCountBounds(s, k);
    var c := |Chunks(s, k)|;
    if |s| > 0 {
      assert c * k <= |s| + k - 1 < c * k + k by {
        assert (c - 1) * k == c * k - k;
      }
      DivUnique(|s| + k - 1, k, c);
    }
  }

  lemma DivUnique(a: nat, b: nat, q: nat)
    requires b >= 1
    requires q * b <= a < q * b + b
    ensures a / b == q
  {
    DivBounds(a, b);
    var d := a / b;
    if d < q {
      MulMono(d + 1, q, b);
    } else if d > q {
      MulMono(q + 1, d, b);
    }
  }

  lemma MulMono(x: nat, y: nat, b: nat)
    requires x <= y
    ensures x * b <= y * b
  {
  }

  /** Cutting a window of `len` ticks by `ChunkSize` gives between one and `NumChunks` chunks. */
  lemma PartitionBounds<T>(s: seq<T>, threads: nat)
    requires |s| >= 1 && threads >= 1
    ensures 1 <= |Chunks(s, ChunkSize(|s|, threads))| <= NumChunks(|s|, threads)
  {
    var k := ChunkSize(|s|, threads);
    var n := NumChunks(|s|, threads);
    ChunksCountBounds(s, k);
    var c := |Chunks(s, k)|;
    assert (c - 1) * k < n * k;
    if c - 1 >= n {
      MulMono(n, c - 1, k);
    }
  }

  /** The last element of the last chunk is the last element of the input. */
  lemma {:induction false} ChunksLast<T>(s: seq<T>, k: nat)
    requires k >= 1 && |s| > 0
    ensures |Chunks(s, k)| > 0
    ensures var c := Chunks(s, k); |c[|c| - 1]| > 0 && c[|c| - 1][|c[|c| - 1]| - 1] == s[|s| - 1]
    decreases |s|
  {
    if |s| > k {
      var rest := s[k..];
      ChunksLast(rest, k);
      var c, d := Chunks(s, k), Chunks(rest, k);
      assert c == [s[..k]] + d;
      assert c[|c| - 1] == d[|d| - 1];
      assert rest[|rest| - 1] == s[|s| - 1];
    }
  }
}
