/** How the balancer cuts its input into chunks: each chunk is one
    `io.ReadAtLeast` into a fresh buffer of the chunk size, and the first read
    that finds no byte left ends the job. */
module Chunking {
  import opened Common
  import opened Digits

  /** The error `io.ReadAtLeast` reports: none (the buffer was filled), `io.EOF`
      (no byte was read), `io.ErrUnexpectedEOF` (the input ended part way), or
      `os.ErrClosed` (the file had already been closed). */
  datatype ReadErr = Nil | EOF | ErrUnexpectedEOF | ErrClosed

  /** The bytes read, the buffer after the read, and the error. */
  datatype ReadResult = ReadResult(n: nat, buffer: seq<byte>, err: ReadErr)

  function Min(a: nat, b: nat): nat {
    if a <= b then a else b
  }

  /** `io.ReadAtLeast(file, make([]byte, size), size)` on a file holding
      `input` whose read offset is `cursor`. */
  function ReadAtLeast(input: seq<byte>, cursor: nat, size: nat): (r: ReadResult)
    requires cursor <= |input|
    ensures |r.buffer| == size && r.n <= size && cursor + r.n <= |input|
    ensures r.n == size || cursor + r.n == |input|
    ensures r.buffer[..r.n] == input[cursor..cursor + r.n]
    ensures forall i :: r.n <= i < size ==> r.buffer[i] == 0
    ensures r.err == Nil <==> r.n == size
    ensures r.err == EOF <==> 0 < size && cursor == |input|
  {
    var n := Min(size, |input| - cursor);
    var err := if n == size then Nil else if n == 0 then EOF else ErrUnexpectedEOF;
    ReadResult(n, input[cursor..cursor + n] + Zeros(size - n), err)
  }

  /** The same read once the file has been closed: nothing is read, the
      buffer keeps its zeros, and the error is not `io.EOF`. */
  function ReadClosed(size: nat): (r: ReadResult)
    ensures r.n == 0 && r.err != EOF && r.buffer == Zeros(size)
  {
    ReadResult(0, Zeros(size), ErrClosed)
  }

  /** The buffers the job dispatches when its read offset is `cursor`: one per
      read, until a read reports `io.EOF`. */
  function ChunksFrom(input: seq<byte>, size: nat, cursor: nat): (cs: seq<seq<byte>>)
    requires 0 < size && cursor <= |input|
    ensures forall i :: 0 <= i < |cs| ==> |cs[i]| == size
    ensures cs == [] <==> cursor == |input|
    decreases |input| - cursor
  {
    var r := ReadAtLeast(input, cursor, size);
    if r.err == EOF then [] else [r.buffer] + ChunksFrom(input, size, cursor + r.n)
  }

  /** The buffers laid end to end. */
  function Flatten(cs: seq<seq<byte>>): seq<byte> {
    if cs == [] then [] else cs[0] + Flatten(cs[1..])
  }

  /** The sum of the partial results of all the buffers. */
  function SumOfDigitSums(cs: seq<seq<byte>>): nat {
    if cs == [] then 0 else DigitSum(cs[0]) + SumOfDigitSums(cs[1..])
  }

  /** A job over L bytes with chunk size C dispatches ceil(L / C) chunks:
      the smallest k with L <= k * C. */
  lemma {:induction false} ChunkCountBounds(input: seq<byte>, size: nat, cursor: nat)
    requires 0 < size && cursor <= |input|
    ensures var k := |ChunksFrom(input, size, cursor)|;
      |input| - cursor <= k * size < |input| - cursor + size
    decreases |input| - cursor
  {
    var r := ReadAtLeast(input, cursor, size);
    if r.err != EOF {
      var rest := ChunksFrom(input, size, cursor + r.n);
      ChunkCountBounds(input, size, cursor + r.n);
      assert |ChunksFrom(input, size, cursor)| == |rest| + 1;
      assert (|rest| + 1) * size == |rest| * size + size;
    }
  }

  /** The same count as an integer division. */
  lemma ChunkCount(input: seq<byte>, size: nat)
    requires 0 < size
    ensures |ChunksFrom(input, size, 0)| == (|input| + size - 1) / size
  {
    var k := |ChunksFrom(input, size, 0)|;
    ChunkCountBounds(input, size, 0);
    DivUnique(|input| + size - 1, size, k);
  }

  lemma DivUnique(x: int, c: int, q: int)
    requires 0 < c && 0 <= q * c <= x < q * c + c
    ensures x / c == q
  {
    var d, m := x / c, x % c;
    assert x == d * c + m && 0 <= m < c;
    if d < q {
      assert q * c - d * c == (q - d) * c;
      MulAtLeast(q - d, c);
    } else if q < d {
      assert d * c - q * c == (d - q) * c;
      MulAtLeast(d - q, c);
    }
  }

  lemma MulAtLeast(k: int, c: int)
    requires 1 <= k && 0 < c
    ensures c <= k * c
  {
    assert k * c == (k - 1) * c + c;
  }

  /** Coverage: laid end to end, the dispatched buffers are the rest of the
      input followed by fewer than C zero bytes, so every byte is sent exactly
      once, in order, and only the last buffer is padded. */
  lemma {:induction false} ChunksCover(input: seq<byte>, size: nat, cursor: nat)
    requires 0 < size && cursor <= |input|
    ensures var f := Flatten(ChunksFrom(input, size, cursor));
      |input| - cursor <= |f| < |input| - cursor + size &&
      f == input[cursor..] + Zeros(|f| - (|input| - cursor))
    decreases |input| - cursor
  {
    var cs := ChunksFrom(input, size, cursor);
    var r := ReadAtLeast(input, cursor, size);
    if r.err == EOF {
      assert input[cursor..] == [];
    } else {
      var rest := ChunksFrom(input, size, cursor + r.n);
      ChunksCover(input, size, cursor + r.n);
      var g := Flatten(rest);
      assert Flatten(cs) == r.buffer + g by {
        assert cs == [r.buffer] + rest;
        assert cs[1..] == rest;
      }
      if r.n == size {
        CoverFull(input, cursor, size, r.buffer, g);
      } else {
        assert g == [] by {
          assert rest == [];
        }
        assert r.buffer == input[cursor..] + Zeros(size - r.n) by {
          assert r.buffer == r.buffer[..r.n] + r.buffer[r.n..];
          assert r.buffer[r.n..] == Zeros(size - r.n);
        }
      }
    }
  }

  /** A full buffer followed by the rest of the input, padded, is the input
      from the buffer's start, padded the same. */
  lemma CoverFull(input: seq<byte>, cursor: nat, size: nat, buffer: seq<byte>, g: seq<byte>)
    requires cursor + size <= |input| && buffer == input[cursor..cursor + size]
    requires |input| - cursor - size <= |g| && g == input[cursor + size..] + Zeros(|g| - (|input| - cursor - size))
    ensures buffer + g == input[cursor..] + Zeros(|buffer + g| - (|input| - cursor))
  {
    assert input[cursor..] == input[cursor..cursor + size] + input[cursor + size..];
  }

  lemma {:induction false} SumOfDigitSumsIsDigitSumOfFlatten(cs: seq<seq<byte>>)
    ensures SumOfDigitSums(cs) == DigitSum(Flatten(cs))
  {
    if cs != [] {
      SumOfDigitSumsIsDigitSumOfFlatten(cs[1..]);
      DigitSumAppend(cs[0], Flatten(cs[1..]));
    }
  }

  /** `k` all-zero buffers of `size` bytes. */
  function ZeroBuffers(size: nat, k: nat): (bs: seq<seq<byte>>)
    ensures |bs| == k
    ensures forall j :: 0 <= j < k ==> bs[j] == Zeros(size)
  {
    seq(k, _ => Zeros(size))
  }

  /** One more all-zero buffer goes at the end. */
  lemma ZeroBuffersPush(size: nat, k: nat)
    ensures ZeroBuffers(size, k + 1) == ZeroBuffers(size, k) + [Zeros(size)]
  {
  }

  /** Partial results add up over a concatenation of buffer sequences. */
  lemma {:induction false} SumOfDigitSumsAppend(a: seq<seq<byte>>, b: seq<seq<byte>>)
    ensures SumOfDigitSums(a + b) == SumOfDigitSums(a) + SumOfDigitSums(b)
  {
    if a == [] {
      assert a + b == b;
    } else {
      assert (a + b)[1..] == a[1..] + b;
      SumOfDigitSumsAppend(a[1..], b);
    }
  }

  /** All-zero buffers add nothing to the answer. */
  lemma {:induction false} ZeroBuffersSum(size: nat, k: nat)
    ensures SumOfDigitSums(ZeroBuffers(size, k)) == 0
  {
    if k > 0 {
      assert ZeroBuffers(size, k)[1..] == ZeroBuffers(size, k - 1);
      ZeroBuffersSum(size, k - 1);
      DigitSumZeros(size);
    }
  }

  /** The partial results of the dispatched buffers add up to the digit sum of
      the rest of the input: the zero padding adds nothing. */
  lemma ChunksDigitSum(input: seq<byte>, size: nat, cursor: nat)
    requires 0 < size && cursor <= |input|
    ensures SumOfDigitSums(ChunksFrom(input, size, cursor)) == DigitSum(input[cursor..])
  {
    var cs := ChunksFrom(input, size, cursor);
    SumOfDigitSumsIsDigitSumOfFlatten(cs);
    ChunksCover(input, size, cursor);
    DigitSumPadded(input[cursor..], |Flatten(cs)| - (|input| - cursor));
  }

  /** The whole chunking followed by `k` all-zero buffers: ceil(L / C) + k
      buffers, whose partial results still add up to the digit sum of the
      input. */
  lemma PaddedChunks(input: seq<byte>, size: nat, k: nat)
    requires 0 < size
    ensures |ChunksFrom(input, size, 0) + ZeroBuffers(size, k)| == (|input| + size - 1) / size + k
    ensures SumOfDigitSums(ChunksFrom(input, size, 0) + ZeroBuffers(size, k)) == DigitSum(input)
  {
    ChunkCount(input, size);
    ChunksDigitSum(input, size, 0);
    assert input[0..] == input;
    SumOfDigitSumsAppend(ChunksFrom(input, size, 0), ZeroBuffers(size, k));
    ZeroBuffersSum(size, k);
  }

  /** The aggregate does not depend on the chunk size. */
  lemma AggregateIndependentOfChunkSize(input: seq<byte>, c1: nat, c2: nat)
    requires 0 < c1 && 0 < c2
    ensures SumOfDigitSums(ChunksFrom(input, c1, 0)) == SumOfDigitSums(ChunksFrom(input, c2, 0))
  {
    ChunksDigitSum(input, c1, 0);
    ChunksDigitSum(input, c2, 0);
  }

  /** A full read: the next C bytes go out as they are. */
  lemma ChunksFromFull(input: seq<byte>, size: nat, cursor: nat)
    requires 0 < size && cursor + size <= |input|
    ensures ChunksFrom(input, size, cursor) ==
      [input[cursor..cursor + size]] + ChunksFrom(input, size, cursor + size)
  {
    var r := ReadAtLeast(input, cursor, size);
    assert r.buffer == r.buffer[..r.n];
  }

  /** A short final read: the last bytes go out with a zero-filled tail, and
      nothing follows them. */
  lemma ChunksFromLast(input: seq<byte>, size: nat, cursor: nat)
    requires 0 < size && cursor < |input| <= cursor + size
    ensures ChunksFrom(input, size, cursor) == [input[cursor..] + Zeros(size - (|input| - cursor))]
  {
    var r := ReadAtLeast(input, cursor, size);
    assert r.buffer[r.n..] == Zeros(size - r.n);
    assert r.buffer == r.buffer[..r.n] + r.buffer[r.n..];
    assert input[cursor..cursor + r.n] == input[cursor..];
    assert ChunksFrom(input, size, |input|) == [];
  }

  /** Nine bytes in chunks of 3 are three full chunks. */
  lemma NineInThrees(input: seq<byte>)
    requires |input| == 9
    ensures ChunksFrom(input, 3, 0) == [input[0..3], input[3..6], input[6..9]]
  {
    ChunksFromFull(input, 3, 0);
    ChunksFromFull(input, 3, 3);
    ChunksFromFull(input, 3, 6);
    assert ChunksFrom(input, 3, 9) == [];
  }

  /** Nine bytes in chunks of 4 are two full chunks and one byte padded with
      three zero bytes. */
  lemma NineInFours(input: seq<byte>)
    requires |input| == 9
    ensures ChunksFrom(input, 4, 0) == [input[0..4], input[4..8], input[8..] + Zeros(3)]
  {
    ChunksFromFull(input, 4, 0);
    ChunksFromFull(input, 4, 4);
    ChunksFromLast(input, 4, 8);
  }

  /** "123456789" in chunks of 3 is "123", "456", "789", adding up to 45. */
  lemma NineDigitsInThrees()
    ensures ChunksFrom(NineDigits, 3, 0) == [[49, 50, 51], [52, 53, 54], [55, 56, 57]]
    ensures SumOfDigitSums(ChunksFrom(NineDigits, 3, 0)) == 45
  {
    NineDigitsSum();
    ChunksDigitSum(NineDigits, 3, 0);
    assert NineDigits[0..] == NineDigits;
    NineInThrees(NineDigits);
    assert NineDigits[0..3] == [49, 50, 51];
    assert NineDigits[3..6] == [52, 53, 54];
    assert NineDigits[6..9] == [55, 56, 57];
  }

  /** In chunks of 4 it is "1234", "5678" and "9" with three zero bytes, still
      adding up to 45. */
  lemma NineDigitsInFours()
    ensures ChunksFrom(NineDigits, 4, 0) == [[49, 50, 51, 52], [53, 54, 55, 56], [57] + Zeros(3)]
    ensures SumOfDigitSums(ChunksFrom(NineDigits, 4, 0)) == 45
  {
    NineDigitsSum();
    ChunksDigitSum(NineDigits, 4, 0);
    assert NineDigits[0..] == NineDigits;
    NineInFours(NineDigits);
    assert NineDigits[0..4] == [49, 50, 51, 52];
    assert NineDigits[4..8] == [53, 54, 55, 56];
    assert NineDigits[8..] == [57];
  }
}
