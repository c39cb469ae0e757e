/** What the Legacy decoder's limit really bounds, and for which delimiters the buffer size shows. */
module LegacyLimit {
  import opened Bytes
  import opened Bufio
  import opened Legacy
  import opened LegacyTheorems

  /** The length of the chunk that ends at `end`, where the byte `last` stands. */
  function LastChunk(s: Bytes, last: byte, size: BufferSize, end: nat): (n: nat)
    requires 0 < end <= |s|
    ensures 1 <= n <= size && n <= end
  {
    SinceCut(s[..end - 1], last, size) + 1
  }

  lemma {:induction false} CountsFromCut(s: Bytes, last: byte, size: BufferSize, e: nat)
    requires e <= |s|
    ensures var from := e - SinceCut(s[..e], last, size);
            && SinceCut(s[..from], last, size) == 0
            && forall c :: from < c <= e ==> SinceCut(s[..c], last, size) == c - from
  {
    if SinceCut(s[..e], last, size) > 0 {
      assert s[..e][..e - 1] == s[..e - 1];
      CountsFromCut(s, last, size, e - 1);
    }
  }

  /** The collected bytes that count as allowed before the last chunk of a frame. */
  function Allowed(d: Delimiter, limit: int): nat {
    if FrameMax(d, limit) > 0 then FrameMax(d, limit) else 0
  }

  /** The first cut past the maximum comes before a frame end exactly when the last chunk begins past it. */
  lemma OverBeforeEndIff(d: Delimiter, s: Bytes, limit: int, size: BufferSize, end: nat)
    requires 0 < end <= |s|
    ensures var over := FirstOver(d, s, limit, size);
            over.None? || end <= over.value <==> end <= Allowed(d, limit) + LastChunk(s, Last(d), size, end)
  {
    hide FirstCut, SinceCut;
    CountsFromCut(s, Last(d), size, end - 1);
    var from := end - LastChunk(s, Last(d), size, end);
    assert from > 0 ==> IsCut(s, Last(d), size, from);
    assert forall c :: from < c < end ==> !IsCut(s, Last(d), size, c);
  }

  /**
   The outcome for any stream, delimiter, limit and buffer: a frame may end
   past the maximum by as much as its last chunk brings, and no further.
   */
  lemma OneExact(d: Delimiter, s: Bytes, limit: int, size: BufferSize, terminal: Error)
    ensures var end := FirstEnd(d, s, 0);
            var (o, used) := One(d, s, limit, size, terminal);
            && (end.Some? ==>
                  if end.value <= Allowed(d, limit) + LastChunk(s, Last(d), size, end.value) then
                    o == Ok(s[..end.value - 2 - |d|]) && used == end.value
                  else o == Err(CorruptFrame))
            && (end.None? ==>
                  o == Err(if |s| > FrameMax(d, limit) then CorruptFrame
                           else if s == [] then terminal
                           else if terminal == EOF then UnexpectedEOF else terminal))
  {
    hide FirstEnd, FrameEnd, FirstCut, IsCut, LastChunk, Allowed;
    var end := FirstEnd(d, s, 0);
    if end.Some? {
      OverBeforeEndIff(d, s, limit, size, end.value);
    }
  }

  /** Which payloads a decoder takes, for any delimiter, limit and buffer. */
  lemma AcceptedIff(d: Delimiter, p: Bytes, rest: Bytes, limit: int, size: BufferSize, terminal: Error)
    requires |p| <= MAX_UINT16
    ensures var f := Frame(d, p);
            One(d, f + rest, limit, size, terminal).0 == Ok(p)
            <==> Unambiguous(d, p) && |f| <= Allowed(d, limit) + LastChunk(f, Last(d), size, |f|)
  {
    hide One, Unambiguous, FirstEnd, FrameEnd, SinceCut, Frame;
    var f := Frame(d, p);
    var s := f + rest;
    FirstEndOfFrame(d, p, rest);
    OneExact(d, s, limit, size, terminal);
    assert s[..|f| - 1] == f[..|f| - 1];
    FrameHasEnd(d, p);
    assert s[..|p|] == f[..|p|];
  }

  /** A reader with this limit and buffer takes the payload's encoding and returns it. */
  ghost predicate Carries(d: Delimiter, p: Bytes, max: int, size: BufferSize)
    requires |p| <= MAX_UINT16
  {
    var f := Frame(d, p);
    Unambiguous(d, p) && |f| <= Allowed(d, Limit(max)) + LastChunk(f, Last(d), size, |f|)
  }

  lemma PullOfOne(d: Delimiter, s: Bytes, max: int, size: BufferSize, terminal: Error)
    ensures var o := One(d, s, Limit(max), size, terminal);
            o.0 != Ok([]) ==> Pull(d, s, max, size, terminal) == o
  {
  }

  /** The same for `Read`. */
  lemma ReadsIff(d: Delimiter, p: Bytes, rest: Bytes, max: int, size: BufferSize, terminal: Error)
    requires 0 < |p| <= MAX_UINT16
    ensures var (o, used) := Pull(d, Frame(d, p) + rest, max, size, terminal);
            && (o == Ok(p) <==> Carries(d, p, max, size))
            && (o == Ok(p) ==> used == |Frame(d, p)|)
  {
    hide One, Pull, Frame, Unambiguous, LastChunk, FirstEnd, FrameEnd;
    var f, s := Frame(d, p), Frame(d, p) + rest;
    AcceptedIff(d, p, rest, Limit(max), size, terminal);
    FirstEndOfFrame(d, p, rest);
    OneExact(d, s, Limit(max), size, terminal);
    PullOfOne(d, s, max, size, terminal);
    ParseThenPrint(d, s, Limit(max), size, terminal);
    var _ := PullParseThenPrint(d, s, max, size, terminal);
  }

  /** Without any frame in it a stream is corrupt as soon as it is too long for one, and else ended. */
  lemma NothingToParse(d: Delimiter, s: Bytes, max: int, size: BufferSize, terminal: Error)
    requires forall k :: 0 <= k <= |s| ==> FrameEnd(d, s[..k]).None?
    ensures Pull(d, s, max, size, terminal).0 ==
              Err(if |s| > (if max < 65535 then max else 65535) + 2 + |d| then CorruptFrame
                  else if s == [] then terminal
                  else if terminal == EOF then UnexpectedEOF else terminal)
  {
    hide One, Pull, FirstEnd, FrameEnd;
    OneExact(d, s, Limit(max), size, terminal);
    PullOfOne(d, s, max, size, terminal);
  }

  // ---- The last chunk of a frame

  /** The last chunk after `n` bytes that end with `last` and are otherwise free of it. */
  function Reach(n: nat, size: BufferSize): (r: nat)
    requires n > 0
    ensures 1 <= r <= size && r <= n
  {
    if n <= size then n else Reach(n - size, size)
  }

  lemma {:induction false} ReachStep(n: nat, size: BufferSize)
    requires n > 0
    ensures Reach(n + 1, size) == if Reach(n, size) == size then 1 else Reach(n, size) + 1
  {
    if n > size { ReachStep(n - size, size); }
  }

  lemma {:induction false} LastChunkAfter(s: Bytes, last: byte, size: BufferSize, from: nat, end: nat)
    requires from < end <= |s| && SinceCut(s[..from], last, size) == 0
    requires forall j :: from <= j < end - 1 ==> s[j] != last
    ensures LastChunk(s, last, size, end) == Reach(end - from, size)
  {
    if end - 1 > from {
      LastChunkAfter(s, last, size, from, end - 1);
      assert s[..end - 1][..end - 2] == s[..end - 2];
      assert s[end - 2] != last;
      ReachStep(end - 1 - from, size);
    }
  }

  /** How far before its end the delimiter has its last byte once more; 0 if nowhere. */
  function Gap(d: Delimiter): (g: nat)
    ensures g < |d| && (g > 0 ==> d[|d| - 1 - g] == Last(d))
    ensures forall i :: (if g > 0 then |d| - g else 0) <= i < |d| - 1 ==> d[i] != Last(d)
  {
    GapFrom(d, 1)
  }

  function GapFrom(d: Delimiter, from: nat): (g: nat)
    requires 0 < from <= |d|
    ensures g < |d| && (g > 0 ==> g >= from && d[|d| - 1 - g] == Last(d))
    ensures forall i :: (if g > 0 then |d| - g else 0) <= i < |d| - from ==> d[i] != Last(d)
    decreases |d| - from
  {
    if from == |d| then 0
    else if d[|d| - 1 - from] == Last(d) then from
    else GapFrom(d, from + 1)
  }

  /** By how many bytes a payload of `n` bytes can exceed the limit. */
  function Slack(d: Delimiter, n: nat, size: BufferSize): (m: nat)
    requires n <= MAX_UINT16
    ensures 1 <= m <= size
  {
    if Gap(d) > 0 then Reach(Gap(d), size)
    else if n % 256 == Last(d) then Reach(|d|, size)
    else if n / 256 == Last(d) then Reach(|d| + 1, size)
    else size
  }

  lemma FrameBytes(d: Delimiter, p: Bytes)
    requires |p| <= MAX_UINT16
    ensures var f := Frame(d, p);
            && f[..|p|] == p
            && f[|p|] == |p| / 256 && f[|p| + 1] == |p| % 256
            && forall j :: 0 <= j < |d| ==> f[|p| + 2 + j] == d[j]
  {
    assert Frame(d, p)[..|p|] == p;
  }

  lemma CutAfterLast(s: Bytes, last: byte, size: BufferSize, c: nat)
    requires c <= |s| && (c == 0 || s[c - 1] == last)
    ensures SinceCut(s[..c], last, size) == 0
  {
  }

  /** The last chunk is fixed by delimiter and length when one of them repeats the delimiter's last byte. */
  lemma LastChunkIsSlack(d: Delimiter, p: Bytes, size: BufferSize)
    requires |p| <= MAX_UINT16
    ensures var m := LastChunk(Frame(d, p), Last(d), size, |Frame(d, p)|);
            && m <= Slack(d, |p|, size)
            && (Gap(d) > 0 || Last(d) in Uint16(|p|) ==> m == Slack(d, |p|, size))
  {
    hide SinceCut, Frame, Reach;
    FrameBytes(d, p);
    var f, end := Frame(d, p), |Frame(d, p)|;
    assert forall j :: |p| + 2 <= j < end ==> f[j] == d[j - |p| - 2];
    var from := if Gap(d) > 0 then end - Gap(d)
    else if |p| % 256 == Last(d) then |p| + 2
    else if |p| / 256 == Last(d) then |p| + 1 else 0;
    if from > 0 {
      CutAfterLast(f, Last(d), size, from);
      LastChunkAfter(f, Last(d), size, from, end);
    }
  }

  // ---- What the limit bounds

  /** From any bytes: how long a payload can get. */
  lemma PayloadBound(d: Delimiter, s: Bytes, limit: int, size: BufferSize, terminal: Error)
    ensures var o := One(d, s, limit, size, terminal).0;
            o.Ok? ==> && |o.value| <= MAX_UINT16
                      && (limit >= 0 ==> |o.value| <= limit + Slack(d, |o.value|, size))
  {
    hide One, FirstEnd, FrameEnd, SinceCut, Unambiguous, Slack;
    var (o, used) := One(d, s, limit, size, terminal);
    OneExact(d, s, limit, size, terminal);
    ParseThenPrint(d, s, limit, size, terminal);
    if o.Ok? {
      LastChunkIsSlack(d, o.value, size);
      assert s[..used][..used - 1] == s[..used - 1];
    }
  }

  function Repeat(x: byte, n: nat): (p: Bytes)
    ensures |p| == n && forall i :: 0 <= i < n ==> p[i] == x
  {
    seq(n, i => x)
  }

  /** Bytes 255 spell no length below 65535, so such a payload suits every delimiter. */
  lemma FullBytesAreUnambiguous(d: Delimiter, n: nat)
    requires n <= MAX_UINT16
    ensures Unambiguous(d, Repeat(255, n))
  {
    hide Unambiguous, Frame;
    var p := Repeat(255, n);
    var f := Frame(d, p);
    FrameBytes(d, p);
    UnambiguousIff(d, p);
    forall m | 0 <= m < n
      ensures !EndsAt(d, f, m)
    {
      assert f[m] == p[m] && (m + 1 < n ==> f[m + 1] == p[m + 1]);
      assert f[m..m + 2] == [f[m], f[m + 1]];
    }
  }

  /** A whole number of buffers before `end`, within the payload if there is such a place, else 0. */
  function Align(end: nat, n: nat, size: BufferSize): (c: nat)
    ensures c <= n
  {
    if end <= n then end
    else if end < size then 0
    else Align(end - size, n, size)
  }

  lemma {:induction false} AlignReach(end: nat, n: nat, size: BufferSize)
    requires end > n
    ensures var c := Align(end, n, size);
            && (c > 0 ==> Reach(end - c, size) == size)
            && (c == 0 ==> Reach(end, size) == size || Reach(end, size) > n)
  {
    if end >= size && end - size > n {
      AlignReach(end - size, n, size);
    }
  }

  /** A payload whose only byte equal to the delimiter's last one puts a cut where the last chunk is longest. */
  function LatePayload(d: Delimiter, n: nat, size: BufferSize): (p: Bytes)
    ensures |p| == n
  {
    var c := Align(n + 2 + |d|, n, size);
    var x := if Last(d) != 255 then 255 else if c == 254 * 257 + 2 + |d| then 253 else 254;
    if c == 0 then Repeat(x, n) else Repeat(x, n)[c - 1 := Last(d)]
  }

  lemma LatePayloadBytes(d: Delimiter, n: nat, size: BufferSize)
    requires n <= MAX_UINT16 && Gap(d) == 0 && Last(d) !in Uint16(n)
    ensures var f, c := Frame(d, LatePayload(d, n, size)), Align(n + 2 + |d|, n, size);
            && (c > 0 ==> f[c - 1] == Last(d))
            && (forall j :: 0 <= j < |f| - 1 && j != c - 1 ==> f[j] != Last(d))
            && (c >= 2 + |d| ==> f[c - 2 - |d|..c - |d|] != Uint16(c - 2 - |d|))
  {
    hide Align, Frame, GapFrom;
    var p, c := LatePayload(d, n, size), Align(n + 2 + |d|, n, size);
    var f := Frame(d, p);
    FrameBytes(d, p);
    assert forall j :: 0 <= j < n ==> f[j] == p[j];
    assert forall j :: n + 2 <= j < |f| - 1 ==> f[j] == d[j - n - 2];
    if c >= 2 + |d| {
      assert f[c - 2 - |d|..c - |d|] == [f[c - 2 - |d|], f[c - 1 - |d|]];
    }
  }

  lemma LatePayloadIsUnambiguous(d: Delimiter, n: nat, size: BufferSize)
    requires n <= MAX_UINT16 && Gap(d) == 0 && Last(d) !in Uint16(n)
    ensures Unambiguous(d, LatePayload(d, n, size))
  {
    hide Unambiguous, Frame, LatePayload, Align, Gap, Uint16;
    var p := LatePayload(d, n, size);
    var f := Frame(d, p);
    LatePayloadBytes(d, n, size);
    UnambiguousIff(d, p);
    forall m | 0 <= m < n
      ensures !EndsAt(d, f, m)
    {
      assert f[m + 1 + |d|] == f[m + 2..m + 2 + |d|][|d| - 1];
    }
  }

  lemma LatePayloadReaches(d: Delimiter, n: nat, size: BufferSize)
    requires n <= MAX_UINT16 && Gap(d) == 0 && Last(d) !in Uint16(n)
    ensures var f := Frame(d, LatePayload(d, n, size));
            LastChunk(f, Last(d), size, |f|) == size || LastChunk(f, Last(d), size, |f|) > n
  {
    hide Frame, LatePayload, Align, Gap, Uint16, Reach, SinceCut;
    var f, c := Frame(d, LatePayload(d, n, size)), Align(n + 2 + |d|, n, size);
    LatePayloadBytes(d, n, size);
    CutAfterLast(f, Last(d), size, c);
    LastChunkAfter(f, Last(d), size, c, |f|);
    AlignReach(|f|, n, size);
  }

  function Longest(d: Delimiter, n: nat, size: BufferSize): (p: Bytes)
    requires n <= MAX_UINT16
    ensures |p| == n
  {
    if Gap(d) > 0 || Last(d) in Uint16(n) then Repeat(255, n) else LatePayload(d, n, size)
  }

  /** The bound is exact: some payload of `n` bytes is accepted exactly when `n` is within limit and slack. */
  lemma AcceptableLengthIff(d: Delimiter, n: nat, rest: Bytes, limit: nat, size: BufferSize, terminal: Error)
    requires n <= MAX_UINT16
    ensures (exists p: Bytes :: |p| == n && One(d, Frame(d, p) + rest, limit, size, terminal).0 == Ok(p))
            <==> n <= limit + Slack(d, n, size)
  {
    hide One, Frame, Unambiguous, Gap, Slack, LastChunk, LatePayload;
    forall p: Bytes | |p| == n && One(d, Frame(d, p) + rest, limit, size, terminal).0 == Ok(p)
      ensures n <= limit + Slack(d, n, size)
    {
      PayloadBound(d, Frame(d, p) + rest, limit, size, terminal);
    }
    if n <= limit + Slack(d, n, size) {
      var p := Longest(d, n, size);
      AcceptedIff(d, p, rest, limit, size, terminal);
      if Gap(d) > 0 || Last(d) in Uint16(n) {
        FullBytesAreUnambiguous(d, n);
        LastChunkIsSlack(d, p, size);
      } else {
        LatePayloadIsUnambiguous(d, n, size);
        LatePayloadReaches(d, n, size);
      }
    }
  }

  /** `max` bounds what `Read` returns, over every stream, only when it is past all that the format expresses. */
  lemma LimitHoldsIff(d: Delimiter, max: nat, size: BufferSize, terminal: Error)
    ensures (forall s :: var o := Pull(d, s, max, size, terminal).0; o.Ok? ==> |o.value| <= max)
            <==> max >= MAX_UINT16
  {
    hide One, Pull, Frame, Unambiguous, Slack, LastChunk;
    forall s ensures var o := Pull(d, s, max, size, terminal).0; o.Ok? ==> |o.value| <= MAX_UINT16 {
      var _ := PullParseThenPrint(d, s, max, size, terminal);
    }
    if max < MAX_UINT16 {
      var p := Repeat(255, max + 1);
      FullBytesAreUnambiguous(d, max + 1);
      AcceptedIff(d, p, [], max, size, terminal);
      PullOfOne(d, Frame(d, p) + [], max, size, terminal);
    }
  }

  // ---- When the buffer size shows

  lemma LastChunkIsGap(d: Delimiter, s: Bytes, end: nat, size: BufferSize)
    requires 0 < Gap(d) <= size && 0 < end <= |s| && FrameEnd(d, s[..end]).Some?
    ensures LastChunk(s, Last(d), size, end) == Gap(d)
  {
    hide FrameEnd, SinceCut;
    var f := s[..end];
    FrameEndIffFrame(d, f);
    LastChunkIsSlack(d, f[..end - 2 - |d|], size);
    assert f[..end - 1] == s[..end - 1];
  }

  /** With the last byte repeated within one buffer, the outcome depends on stream and limit alone. */
  lemma {:induction false} OneWithGap(d: Delimiter, s: Bytes, limit: int, size: BufferSize, terminal: Error)
    requires 0 < Gap(d) <= size
    ensures var end := FirstEnd(d, s, 0);
            var (o, used) := One(d, s, limit, size, terminal);
            && (end.Some? ==>
                  if end.value <= Allowed(d, limit) + Gap(d) then
                    o == Ok(s[..end.value - 2 - |d|]) && used == end.value
                  else o == Err(CorruptFrame))
            && (end.None? ==>
                  o == Err(if |s| > FrameMax(d, limit) then CorruptFrame
                           else if s == [] then terminal
                           else if terminal == EOF then UnexpectedEOF else terminal))
  {
    hide One, FirstEnd, FrameEnd, Gap, LastChunk, Allowed;
    OneExact(d, s, limit, size, terminal);
    if FirstEnd(d, s, 0).Some? {
      LastChunkIsGap(d, s, FirstEnd(d, s, 0).value, size);
    }
  }

  lemma BufferSizeInvisible(d: Delimiter, s: Bytes, limit: int, size: BufferSize, size': BufferSize, terminal: Error)
    requires 0 < Gap(d) <= size && Gap(d) <= size'
    ensures var (o, used) := One(d, s, limit, size, terminal);
            var (o', used') := One(d, s, limit, size', terminal);
            o == o' && (o.Ok? ==> used == used')
  {
    hide One, FirstEnd, Gap;
    OneWithGap(d, s, limit, size, terminal);
    OneWithGap(d, s, limit, size', terminal);
  }

  lemma {:induction false} PullIgnoresBufferSize(
      d: Delimiter, s: Bytes, max: int, size: BufferSize, size': BufferSize, terminal: Error)
    requires 0 < Gap(d) <= size && Gap(d) <= size'
    ensures var (o, used) := Pull(d, s, max, size, terminal);
            var (o', used') := Pull(d, s, max, size', terminal);
            o == o' && (o.Ok? ==> used == used')
    decreases |s|
  {
    hide One, Gap;
    BufferSizeInvisible(d, s, Limit(max), size, size', terminal);
    var (o, used) := One(d, s, Limit(max), size, terminal);
    if o == Ok([]) {
      PullIgnoresBufferSize(d, s[used..], max, size, size', terminal);
    }
  }

  /** A length both of whose bytes are not the delimiter's last one, of more than 32 KiB. */
  function RevealingLength(d: Delimiter): (n: nat)
    ensures 32768 < n < 253 * 256 && Uint16(n)[0] == Uint16(n)[1] != Last(d)
  {
    if Last(d) == 128 then 129 * 257 else 128 * 257
  }

  function RevealingPayload(d: Delimiter): (p: Bytes)
    ensures |p| == RevealingLength(d)
    ensures forall i :: 0 <= i < |p| ==> p[i] != Last(d)
  {
    Repeat(if Last(d) == 255 then 254 else 255, RevealingLength(d))
  }

  lemma RevealingIsUnambiguous(d: Delimiter)
    ensures Unambiguous(d, RevealingPayload(d))
  {
    hide Unambiguous, Frame;
    var p := RevealingPayload(d);
    var f := Frame(d, p);
    FrameBytes(d, p);
    UnambiguousIff(d, p);
    forall m | 0 <= m < |p|
      ensures !EndsAt(d, f, m)
    {
      assert f[m] == p[m];
      assert f[m..m + 2] == [f[m], f[m + 1]];
    }
  }

  /** A buffer that holds the whole frame makes the last chunk longer than any buffer short of the gap can. */
  lemma RevealingLastChunk(d: Delimiter, least: BufferSize)
    requires !(0 < Gap(d) <= least) && least <= 32768
    ensures var f := Frame(d, RevealingPayload(d));
            LastChunk(f, Last(d), |f|, |f|) > least
  {
    hide Frame, SinceCut, RevealingPayload;
    var p := RevealingPayload(d);
    var f := Frame(d, p);
    FrameBytes(d, p);
    if Gap(d) > 0 {
      LastChunkIsSlack(d, p, |f|);
    } else {
      assert forall j :: 0 <= j < |p| ==> f[j] == p[j];
      assert forall j :: |p| + 2 <= j < |f| - 1 ==> f[j] == d[j - |p| - 2];
      CutAfterLast(f, Last(d), |f|, 0);
      LastChunkAfter(f, Last(d), |f|, 0, |f|);
    }
  }

  /** Otherwise one stream and one limit tell two buffer sizes apart. */
  lemma BufferSizeShows(d: Delimiter, least: BufferSize, terminal: Error) returns (max: nat)
    requires !(0 < Gap(d) <= least) && least <= 32768
    ensures var p := RevealingPayload(d);
            var f := Frame(d, p);
            && |f| > least
            && Pull(d, f, max, least, terminal).0 == Err(CorruptFrame)
            && Pull(d, f, max, |f|, terminal) == (Ok(p), |f|)
  {
    hide One, Pull, Frame, Unambiguous, FirstEnd, FrameEnd, LastChunk, RevealingPayload, RevealingLength;
    var p := RevealingPayload(d);
    var f := Frame(d, p);
    max := |p| - 1 - least;
    RevealingIsUnambiguous(d);
    RevealingLastChunk(d, least);
    assert f + [] == f;
    AcceptedIff(d, p, [], max, |f|, terminal);
    FirstEndOfFrame(d, p, []);
    OneExact(d, f, max, least, terminal);
    ParseThenPrint(d, f, max, |f|, terminal);
    PullOfOne(d, f, max, |f|, terminal);
    PullOfOne(d, f, max, least, terminal);
  }
}
