/**
 The Legacy codec: payload, then its 16-bit length, then a delimiter. The
 decoder's specification is the shortest prefix of the stream that is a frame;
 the scanner below looks only where `ReadSlice` happens to stop.
 */
module Legacy {
  import opened Bytes
  import opened Bufio

  type Delimiter = d: Bytes | |d| > 0 witness [10]

  const DEFAULT_DELIMITER: Delimiter := [10, 10, 10]

  function Last(d: Delimiter): byte {
    d[|d| - 1]
  }

  function Frame(d: Delimiter, p: Bytes): (f: Bytes)
    requires |p| <= MAX_UINT16
    ensures |f| == |p| + 2 + |d|
  {
    p + Uint16(|p|) + d
  }

  /** The payload length when `buf` ends with a delimiter after a length equal to what precedes it. */
  function FrameEnd(d: Delimiter, buf: Bytes): (r: Option<nat>)
    ensures r.Some? ==> r.value <= MAX_UINT16 && r.value + 2 + |d| == |buf|
  {
    var at := |buf| - |d|;
    if at < 2 || buf[at..] != d then None
    else if ValueOf16(buf[at - 2..at]) == at - 2 then Some(at - 2)
    else None
  }

  /** `FrameEnd` recognises exactly the encodings. */
  lemma FrameEndIffFrame(d: Delimiter, buf: Bytes)
    ensures FrameEnd(d, buf).Some? <==> exists p: Bytes :: |p| <= MAX_UINT16 && buf == Frame(d, p)
    ensures FrameEnd(d, buf).Some? ==>
              var n := FrameEnd(d, buf).value;
              n <= MAX_UINT16 && n + 2 + |d| == |buf| && buf == Frame(d, buf[..n])
  {
    if FrameEnd(d, buf).Some? {
      var n := FrameEnd(d, buf).value;
      assert buf == buf[..n] + buf[n..n + 2] + buf[n + 2..];
      assert buf == Frame(d, buf[..n]);
    }
    forall p: Bytes | |p| <= MAX_UINT16 && buf == Frame(d, p)
      ensures FrameEnd(d, buf).Some?
    {
      FrameHasEnd(d, p);
    }
  }

  lemma FrameHasEnd(d: Delimiter, p: Bytes)
    requires |p| <= MAX_UINT16
    ensures FrameEnd(d, Frame(d, p)) == Some(|p|)
    ensures Frame(d, p)[..|p|] == p
  {
    var f := Frame(d, p);
    assert f[|f| - |d|..] == d;
    assert f[|p|..|p| + 2] == Uint16(|p|);
  }

  /** The length of the shortest prefix of at least `from` bytes that is a frame. */
  function FirstEnd(d: Delimiter, s: Bytes, from: nat): (r: Option<nat>)
    ensures r.Some? ==> from <= r.value <= |s| && FrameEnd(d, s[..r.value]).Some?
    ensures r.Some? ==> forall k :: from <= k < r.value ==> FrameEnd(d, s[..k]).None?
    ensures r.None? ==> forall k :: from <= k <= |s| ==> FrameEnd(d, s[..k]).None?
    decreases |s| - from
  {
    if from > |s| then None
    else if FrameEnd(d, s[..from]).Some? then Some(from)
    else FirstEnd(d, s, from + 1)
  }

  function Limit(max: int): int {
    if max < MAX_UINT16 then max else MAX_UINT16
  }

  function FrameMax(d: Delimiter, limit: int): int {
    limit + 2 + |d|
  }

  /** The first cut that leaves more than `FrameMax` bytes collected. */
  function FirstOver(d: Delimiter, s: Bytes, limit: int, size: BufferSize): (r: Option<nat>) {
    var over := FrameMax(d, limit) + 1;
    FirstCut(s, Last(d), size, if over < 0 then 0 else over)
  }

  /**
   One frame, and how many bytes it took: the shortest prefix that is a frame,
   unless more than `FrameMax` bytes had been collected at an earlier cut.
   */
  function One(d: Delimiter, s: Bytes, limit: int, size: BufferSize, terminal: Error): (r: (Result<Bytes>, nat))
    ensures r.1 <= |s|
    ensures r.0.Ok? ==> r.1 >= 2 + |d|
  {
    var end := FirstEnd(d, s, 0);
    var over := FirstOver(d, s, limit, size);
    if end.Some? && (over.None? || end.value <= over.value) then
      (Ok(s[..end.value - 2 - |d|]), end.value)
    else if over.Some? then
      (Err(CorruptFrame), over.value)
    else
      (Err(if s == [] then terminal else MidFrame(terminal)), |s|)
  }

  /** Frames are read until one is not empty. */
  function Pull(d: Delimiter, s: Bytes, max: int, size: BufferSize, terminal: Error): (r: (Result<Bytes>, nat))
    ensures r.1 <= |s|
    ensures r.0.Ok? ==> r.1 >= 2 + |d| && r.0.value != []
    decreases |s|
  {
    var (o, used) := One(d, s, Limit(max), size, terminal);
    if o == Ok([]) then
      var (o', used') := Pull(d, s[used..], max, size, terminal);
      (o', used + used')
    else
      (o, used)
  }

  method Append(d: Delimiter, dst: Bytes, payload: Bytes) returns (buf: Bytes, error: Option<Error>)
    ensures |payload| > MAX_UINT16 ==> buf == dst && error == Some(FrameTooLarge)
    ensures |payload| <= MAX_UINT16 ==> buf == dst + Frame(d, payload) && error == None
    ensures |payload| <= MAX_UINT16 ==> buf == dst + payload + [|payload| / 256, |payload| % 256] + d
  {
    if |payload| > MAX_UINT16 {
      return dst, Some(FrameTooLarge);
    }
    buf := dst + payload;
    buf := buf + Uint16(|payload|);
    buf := buf + d;
    error := None;
  }

  /** No frame ends strictly between two cuts, since every frame ends with the delimiter's last byte. */
  lemma ChunkMissesNothing(d: Delimiter, s: Bytes, size: BufferSize, at: nat)
    requires at <= |s| && SinceCut(s[..at], Last(d), size) == 0
    ensures var k := ChunkLength(s[at..], Last(d), size);
            && IsCut(s, Last(d), size, at + k)
            && (ChunkStop(s[at..], Last(d), size) != AtEnd ==> k > 0 && SinceCut(s[..at + k], Last(d), size) == 0)
            && (ChunkStop(s[at..], Last(d), size) == AtEnd ==> at + k == |s|)
            && forall c :: at < c < at + k ==> !IsCut(s, Last(d), size, c) && FrameEnd(d, s[..c]).None?
  {
    if at < |s| {
      ChunkEndsAtNextCut(s, Last(d), size, at);
      var k := ChunkLength(s[at..], Last(d), size);
      forall c | at < c < at + k
        ensures FrameEnd(d, s[..c]).None?
      {
        assert c >= |d| ==> s[..c][c - |d|..][|d| - 1] == s[c - 1];
      }
    }
  }

  /** The scanner has stopped at the cut `at` without a frame and without giving up. */
  ghost predicate Scanned(d: Delimiter, s: Bytes, limit: int, size: BufferSize, at: nat) {
    && at <= |s|
    && SinceCut(s[..at], Last(d), size) == 0
    && (at == 0 || at <= FrameMax(d, limit))
    && forall k :: 0 <= k <= at ==> FrameEnd(d, s[..k]).None?
  }

  lemma FirstEndIs(d: Delimiter, s: Bytes, c: nat)
    requires c <= |s| && FrameEnd(d, s[..c]).Some?
    requires forall k :: 0 <= k < c ==> FrameEnd(d, s[..k]).None?
    ensures FirstEnd(d, s, 0) == Some(c)
  {
  }

  lemma FirstOverIs(d: Delimiter, s: Bytes, limit: int, size: BufferSize, at: nat, c: nat)
    requires at <= c <= |s| && IsCut(s, Last(d), size, c)
    requires at == 0 || at <= FrameMax(d, limit)
    requires forall k :: at < k < c ==> !IsCut(s, Last(d), size, k)
    ensures FirstOver(d, s, limit, size).Some? ==> FirstOver(d, s, limit, size).value >= c
    ensures c > FrameMax(d, limit) ==> FirstOver(d, s, limit, size) == Some(c)
  {
  }

  lemma ScanStart(d: Delimiter, s: Bytes, limit: int, size: BufferSize)
    ensures Scanned(d, s, limit, size, 0)
  {
  }

  /** One more chunk either decides what `One` returns or continues the scan. */
  lemma ScanStep(d: Delimiter, s: Bytes, limit: int, size: BufferSize, terminal: Error, at: nat)
    requires Scanned(d, s, limit, size, at)
    ensures var c := at + ChunkLength(s[at..], Last(d), size);
            && c <= |s|
            && Decided(d, s, limit, size, terminal, c, ChunkStop(s[at..], Last(d), size))
            && (ChunkStop(s[at..], Last(d), size) != AtEnd ==> c > at)
  {
    hide IndexOf, SinceCut, FrameEnd, ChunkLength, ChunkStop;
    var c := at + ChunkLength(s[at..], Last(d), size);
    ChunkMissesNothing(d, s, size, at);
    FirstOverIs(d, s, limit, size, at, c);
    if FrameEnd(d, s[..c]).Some? {
      FirstEndIs(d, s, c);
      FrameEndIffFrame(d, s[..c]);
      assert s[..c][..c - 2 - |d|] == s[..c - 2 - |d|];
    } else {
      assert FirstEnd(d, s, 0).Some? ==> FirstEnd(d, s, 0).value > c;
    }
  }

  /** What `One` returns, as far as the bytes up to the cut `c` decide it. */
  ghost predicate Decided(d: Delimiter, s: Bytes, limit: int, size: BufferSize, terminal: Error, c: nat, stop: Stop)
    requires c <= |s|
  {
    var end := FrameEnd(d, s[..c]);
    if end.Some? then One(d, s, limit, size, terminal) == (Ok(s[..c][..end.value]), c)
    else if c > FrameMax(d, limit) then One(d, s, limit, size, terminal) == (Err(CorruptFrame), c)
    else if stop == AtEnd then
      One(d, s, limit, size, terminal) == (Err(if c == 0 then terminal else MidFrame(terminal)), c)
    else Scanned(d, s, limit, size, c)
  }

  /** The scanner. It looks for a frame end only where `ReadSlice` stopped. */
  method ReadOne(d: Delimiter, r: Reader, limit: int) returns (result: Result<Bytes>)
    modifies r`rest
    ensures var (o, used) := One(d, old(r.rest), limit, r.size, r.terminal);
            result == o && r.rest == old(r.rest)[used..]
  {
    hide One, FrameEnd, SinceCut, ChunkLength, ChunkStop;
    ghost var s := r.rest;
    ScanStart(d, s, limit, r.size);
    var frameMax := FrameMax(d, limit);
    var buf: Bytes := [];
    while true
      invariant Scanned(d, s, limit, r.size, |buf|)
      invariant buf == s[..|buf|] && r.rest == s[|buf|..]
      decreases |r.rest|
    {
      ScanStep(d, s, limit, r.size, r.terminal, |buf|);
      var chunk, stop := r.ReadSlice(Last(d));
      buf := buf + chunk;
      assert buf == s[..|buf|];
      var end := FrameEnd(d, buf);
      if end.Some? {
        return Ok(buf[..end.value]);
      }
      if |buf| > frameMax {
        return Err(CorruptFrame);
      }
      if stop != AtEnd {
        continue;
      }
      if r.terminal == EOF && |buf| > 0 {
        return Err(UnexpectedEOF);
      }
      return Err(r.terminal);
    }
  }

  method Read(d: Delimiter, r: Reader, max: int) returns (result: Result<Bytes>)
    modifies r`rest
    ensures var (o, used) := Pull(d, old(r.rest), max, r.size, r.terminal);
            result == o && r.rest == old(r.rest)[used..]
  {
    hide One;
    ghost var s := r.rest;
    ghost var skipped := 0;
    var limit := Limit(max);
    while true
      invariant skipped <= |s| && r.rest == s[skipped..]
      invariant var (o, used) := Pull(d, s[skipped..], max, r.size, r.terminal);
                Pull(d, s, max, r.size, r.terminal) == (o, skipped + used)
      decreases |r.rest|
    {
      ghost var used := One(d, r.rest, limit, r.size, r.terminal).1;
      result := ReadOne(d, r, limit);
      assert s[skipped..][used..] == s[skipped + used..];
      if result.Err? || result.value != [] {
        return;
      }
      skipped := skipped + used;
    }
  }
}
