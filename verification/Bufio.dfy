/**
 A buffered reader over the bytes a connection still has to deliver. The
 connection is those bytes followed by one terminal error; the buffer size only
 decides where `ReadSlice` gives up looking for its delimiter.
 */
module Bufio {
  import opened Bytes

  /** bufio never uses a buffer of fewer than 16 bytes. */
  type BufferSize = n: nat | n >= 16 witness 16

  /** The index of the first `x`, or |s| when there is none. */
  function IndexOf(s: Bytes, x: byte): (i: nat)
    ensures i <= |s| && x !in s[..i]
    ensures i < |s| ==> s[i] == x
  {
    if s == [] || s[0] == x then 0
    else
      var i := 1 + IndexOf(s[1..], x);
      assert s[..i] == [s[0]] + s[1..][..i - 1];
      i
  }

  /** How many bytes one `ReadSlice(last)` takes from `rest`. */
  function ChunkLength(rest: Bytes, last: byte, size: BufferSize): (k: nat)
    ensures k <= |rest| && k <= size
    ensures rest != [] ==> k > 0
    ensures forall j :: 0 <= j < k - 1 ==> rest[j] != last
  {
    var i := IndexOf(rest, last);
    assert forall j :: 0 <= j < i ==> rest[j] == rest[..i][j];
    if i < |rest| && i < size then i + 1
    else if |rest| >= size then size
    else |rest|
  }

  datatype Stop = AtDelimiter | BufferFull | AtEnd

  /** Why `ReadSlice` stopped; at the end of the stream it reports the terminal error. */
  function ChunkStop(rest: Bytes, last: byte, size: BufferSize): Stop {
    var i := IndexOf(rest, last);
    if i < |rest| && i < size then AtDelimiter
    else if |rest| >= size then BufferFull
    else AtEnd
  }

  /**
   Bytes collected since the last place where `ReadSlice` stopped: the count
   starts again after every `last` and whenever the buffer is full.
   */
  function SinceCut(s: Bytes, last: byte, size: BufferSize): (n: nat)
    ensures n < size && n <= |s|
  {
    if s == [] then 0
    else
      var n := SinceCut(s[..|s| - 1], last, size) + 1;
      if s[|s| - 1] == last || n == size then 0 else n
  }

  /** The places where repeated `ReadSlice(last)` calls cut the stream `s`. */
  predicate IsCut(s: Bytes, last: byte, size: BufferSize, c: nat)
    requires c <= |s|
  {
    c == |s| || (c > 0 && SinceCut(s[..c], last, size) == 0)
  }

  /** The first cut at or after `from`. */
  function FirstCut(s: Bytes, last: byte, size: BufferSize, from: nat): (r: Option<nat>)
    ensures r.Some? <==> from <= |s|
    ensures r.Some? ==> from <= r.value <= |s| && IsCut(s, last, size, r.value)
    ensures r.Some? ==> forall c :: from <= c < r.value ==> !IsCut(s, last, size, c)
    decreases |s| - from
  {
    if from > |s| then None
    else if IsCut(s, last, size, from) then Some(from)
    else FirstCut(s, last, size, from + 1)
  }

  lemma {:induction false} SinceCutInChunk(s: Bytes, last: byte, size: BufferSize, at: nat, j: nat)
    requires at < |s| && j < ChunkLength(s[at..], last, size)
    requires SinceCut(s[..at], last, size) == 0
    ensures SinceCut(s[..at + j], last, size) == j
  {
    if j > 0 {
      SinceCutInChunk(s, last, size, at, j - 1);
      assert s[..at + j][..at + j - 1] == s[..at + (j - 1)];
      assert s[at + j - 1] == s[at..][j - 1];
    }
  }

  /**
   One `ReadSlice` at a cut goes exactly to the next cut: there is none
   strictly inside the chunk it returns, and no delimiter byte either.
   */
  lemma ChunkEndsAtNextCut(s: Bytes, last: byte, size: BufferSize, at: nat)
    requires at < |s| && SinceCut(s[..at], last, size) == 0
    ensures var k := ChunkLength(s[at..], last, size);
            && IsCut(s, last, size, at + k)
            && (ChunkStop(s[at..], last, size) != AtEnd ==> SinceCut(s[..at + k], last, size) == 0)
            && (ChunkStop(s[at..], last, size) == AtEnd ==> at + k == |s|)
            && forall c :: at < c < at + k ==> !IsCut(s, last, size, c) && s[c - 1] != last
  {
    var k := ChunkLength(s[at..], last, size);
    forall c | at < c < at + k
      ensures !IsCut(s, last, size, c) && s[c - 1] != last
    {
      SinceCutInChunk(s, last, size, at, c - at);
      assert s[c - 1] == s[at..][c - 1 - at];
    }
    SinceCutInChunk(s, last, size, at, k - 1);
    assert s[..at + k][..at + k - 1] == s[..at + (k - 1)];
    assert s[at + k - 1] == s[at..][k - 1];
  }

  /** bufio.Reader: what is left to read, behind a buffer of `size` bytes. */
  class Reader {
    var rest: Bytes
    const size: BufferSize
    const terminal: Error

    constructor (stream: Bytes, size: BufferSize, terminal: Error)
      ensures rest == stream && this.size == size && this.terminal == terminal
    {
      rest := stream;
      this.size := size;
      this.terminal := terminal;
    }

    method ReadSlice(last: byte) returns (chunk: Bytes, stop: Stop)
      modifies this`rest
      ensures old(rest) == chunk + rest
      ensures last !in chunk || (last !in chunk[..|chunk| - 1] && chunk[|chunk| - 1] == last)
      ensures stop.AtDelimiter? <==> last in chunk
      ensures stop.BufferFull? <==> last !in chunk && |chunk| == size
      ensures stop.AtEnd? <==> last !in chunk && |chunk| < size
      ensures stop.AtEnd? ==> rest == []
      ensures |chunk| == ChunkLength(old(rest), last, size)
      ensures stop == ChunkStop(old(rest), last, size)
    {
      var k := ChunkLength(rest, last, size);
      stop := ChunkStop(rest, last, size);
      chunk := rest[..k];
      rest := rest[k..];
    }

    method ReadByte() returns (r: Result<byte>)
      modifies this`rest
      ensures old(rest) == [] ==> r == Err(terminal) && rest == []
      ensures old(rest) != [] ==> r == Ok(old(rest)[0]) && rest == old(rest)[1..]
    {
      if rest == [] { return Err(terminal); }
      r := Ok(rest[0]);
      rest := rest[1..];
    }

    /** io.ReadFull into a buffer of n bytes. */
    method ReadFull(n: nat) returns (r: Result<Bytes>)
      modifies this`rest
      ensures |old(rest)| >= n ==> r == Ok(old(rest)[..n]) && rest == old(rest)[n..]
      ensures |old(rest)| < n ==> rest == []
      ensures |old(rest)| < n ==>
                r == Err(if old(rest) != [] && terminal == EOF then UnexpectedEOF else terminal)
    {
      if |rest| >= n {
        r := Ok(rest[..n]);
        rest := rest[n..];
      } else {
        r := Err(if rest == [] then terminal else MidFrame(terminal));
        rest := [];
      }
    }
  }
}
