/** Exactly which payloads the default "\n\n\n" format cannot carry. */
module DefaultFormat {
  import opened Bytes
  import opened Bufio
  import opened Legacy
  import opened LegacyTheorems
  import opened LegacyLimit

  const D: Delimiter := DEFAULT_DELIMITER

  /** Two bytes that spell their own index, then three newlines. */
  predicate InnerFrame(p: Bytes)
    requires |p| <= MAX_UINT16
  {
    exists m :: 0 <= m <= |p| - 5 && p[m..m + 2] == Uint16(m) && p[m + 2..m + 5] == D
  }

  /** Length 0x090A after a final 0x09: those three bytes read as a length and the delimiter's start. */
  predicate LengthReadsAsDelimiter(p: Bytes) {
    |p| == 0x090A && p[|p| - 1] == 0x09
  }

  /** The four ways in which the length bytes 0A or 0A 0A complete the three newlines. */
  predicate StraddlesLength(p: Bytes) {
    || (0x0A00 <= |p| < 0x0B00 && p[|p| - 4..] == Uint16(|p| - 4) + [10, 10])
    || (|p| == 0x0A0A && p[|p| - 3..] == [10, 7, 10])
    || (|p| == 0x0A0A && p[|p| - 2..] == [10, 8])
    || LengthReadsAsDelimiter(p)
  }

  lemma EndsAtBytes(f: Bytes, m: nat)
    ensures EndsAt(D, f, m)
            <==> && m + 5 <= |f| && m <= MAX_UINT16
                 && f[m] == m / 256 && f[m + 1] == m % 256
                 && f[m + 2] == 10 && f[m + 3] == 10 && f[m + 4] == 10
  {
    if m + 5 <= |f| {
      assert f[m..m + 2] == [f[m], f[m + 1]];
      assert f[m + 2..m + 5] == [f[m + 2], f[m + 3], f[m + 4]];
    }
  }

  lemma EndsInside(p: Bytes, m: nat)
    requires |p| <= MAX_UINT16 && m <= |p| - 5
    ensures EndsAt(D, Frame(D, p), m) <==> p[m..m + 2] == Uint16(m) && p[m + 2..m + 5] == D
  {
    hide Uint16;
    var f := Frame(D, p);
    assert f[..|p|] == p;
    assert f[m..m + 2] == f[..|p|][m..m + 2] && f[m + 2..m + 5] == f[..|p|][m + 2..m + 5];
  }

  lemma AstrideBytes(p: Bytes)
    requires |p| <= MAX_UINT16
    ensures var n, f := |p|, Frame(D, p);
            && f[n] == n / 256 && f[n + 1] == n % 256
            && f[n + 2] == 10 && f[n + 3] == 10 && f[n + 4] == 10
            && forall j :: 0 <= j < n ==> f[j] == p[j]
  {
    FrameBytes(D, p);
    assert forall j :: 0 <= j < |p| ==> Frame(D, p)[..|p|][j] == p[j];
    assert D[0] == D[1] == D[2] == 10;
  }

  lemma FourOrThreeEarly(p: Bytes)
    requires |p| <= MAX_UINT16
    ensures var n, f := |p|, Frame(D, p);
            && (n >= 4 ==>
                  (EndsAt(D, f, n - 4) <==> 0x0A00 <= n < 0x0B00 && p[n - 4..] == Uint16(n - 4) + [10, 10]))
            && (n >= 3 ==>
                  (EndsAt(D, f, n - 3) <==> n == 0x0A0A && p[n - 3..] == [10, 7, 10]))
  {
    hide Frame, EndsAt;
    var n, f := |p|, Frame(D, p);
    AstrideBytes(p);
    if n >= 4 {
      EndsAtBytes(f, n - 4);
      assert p[n - 4..] == [p[n - 4], p[n - 3], p[n - 2], p[n - 1]];
    }
    if n >= 3 {
      EndsAtBytes(f, n - 3);
      assert p[n - 3..] == [p[n - 3], p[n - 2], p[n - 1]];
    }
  }

  lemma TwoOrOneEarly(p: Bytes)
    requires |p| <= MAX_UINT16
    ensures var n, f := |p|, Frame(D, p);
            && (n >= 2 ==> (EndsAt(D, f, n - 2) <==> n == 0x0A0A && p[n - 2..] == [10, 8]))
            && (n >= 1 ==> (EndsAt(D, f, n - 1) <==> LengthReadsAsDelimiter(p)))
  {
    hide Frame, EndsAt;
    var n, f := |p|, Frame(D, p);
    AstrideBytes(p);
    if n >= 2 {
      EndsAtBytes(f, n - 2);
      assert p[n - 2..] == [p[n - 2], p[n - 1]];
    }
    if n >= 1 {
      EndsAtBytes(f, n - 1);
    }
  }

  lemma EndsAstride(p: Bytes)
    requires |p| <= MAX_UINT16
    ensures (exists m :: 0 <= m < |p| && m > |p| - 5 && EndsAt(D, Frame(D, p), m)) <==> StraddlesLength(p)
  {
    hide Frame, EndsAt, Uint16;
    FourOrThreeEarly(p);
    TwoOrOneEarly(p);
  }

  /** Every payload: the format can carry it unless one of these byte patterns occurs. */
  lemma DefaultUnambiguousIff(p: Bytes)
    requires |p| <= MAX_UINT16
    ensures Unambiguous(D, p) <==> !InnerFrame(p) && !StraddlesLength(p)
  {
    hide Unambiguous, EndsAt, Frame, StraddlesLength, Uint16;
    UnambiguousIff(D, p);
    EndsAstride(p);
    forall m: nat | m <= |p| - 5
      ensures EndsAt(D, Frame(D, p), m) <==> p[m..m + 2] == Uint16(m) && p[m + 2..m + 5] == D
    {
      EndsInside(p, m);
    }
  }

  lemma NewlineFree(p: Bytes)
    requires |p| <= MAX_UINT16 && 10 !in p
    ensures !InnerFrame(p) && (StraddlesLength(p) <==> LengthReadsAsDelimiter(p))
  {
    forall m: nat | m <= |p| - 5
      ensures !(p[m..m + 2] == Uint16(m) && p[m + 2..m + 5] == D)
    {
      assert p[m + 2] == p[m + 2..m + 5][0];
    }
    if |p| >= 4 {
      assert p[|p| - 1] == p[|p| - 4..][3] == p[|p| - 3..][2];
      assert p[|p| - 2] == p[|p| - 2..][0];
    }
  }

  /** The bytes that the default decoder makes of a newline-free payload: one fewer in the one bad case. */
  function Heard(p: Bytes): (h: Bytes)
    ensures p != [] ==> h != []
  {
    if LengthReadsAsDelimiter(p) then p[..|p| - 1] else p
  }

  lemma FirstEndOfNewlineFree(p: Bytes, rest: Bytes)
    requires |p| <= MAX_UINT16 && 10 !in p
    ensures FirstEnd(D, Frame(D, p) + rest, 0) == Some(|Heard(p)| + 5)
  {
    hide FirstEnd, FrameEnd, Frame, Unambiguous, EndsAt, InnerFrame, StraddlesLength;
    var f, n := Frame(D, p), |Heard(p)|;
    NewlineFree(p);
    DefaultUnambiguousIff(p);
    FirstEndOfFrame(D, p, rest);
    if LengthReadsAsDelimiter(p) {
      FrameBytes(D, p);
      EndsAtBytes(f, n);
      assert f[n] == p[n] && f[|p| + 2] == D[0] && f[|p| + 3] == D[1];
      assert EndsAt(D, f, n);
      forall k | 0 <= k <= n + 5
        ensures FrameEnd(D, (f + rest)[..k]).Some? <==> k == n + 5
      {
        assert (f + rest)[..k] == f[..k];
        FrameEndAt(D, f, k);
        if 5 <= k < n + 5 {
          EndsAtBytes(f, k - 5);
          assert k - 3 < |p| ==> f[k - 3] == p[k - 3];
        }
      }
      FirstEndIs(D, f + rest, n + 5);
    }
  }

  /** What the default decoder makes of a newline-free payload, for every limit and whatever follows it. */
  lemma DefaultDecodes(p: Bytes, rest: Bytes, limit: int, size: BufferSize, terminal: Error)
    requires |p| <= MAX_UINT16 && 10 !in p
    ensures var (o, used) := One(D, Frame(D, p) + rest, limit, size, terminal);
            if |Heard(p)| <= limit + 1 then o == Ok(Heard(p)) && used == |Heard(p)| + 5
            else o == Err(CorruptFrame)
  {
    hide One, FirstEnd, Unambiguous;
    var s := Frame(D, p) + rest;
    FirstEndOfNewlineFree(p, rest);
    OneWithGap(D, s, limit, size, terminal);
    assert s[..|Heard(p)|] == Heard(p);
  }

  /** The same of `Read`, which also skips an empty payload. */
  lemma DefaultReads(p: Bytes, rest: Bytes, max: int, size: BufferSize, terminal: Error)
    requires |p| <= MAX_UINT16 && 10 !in p
    ensures var (o, used) := Pull(D, Frame(D, p) + rest, max, size, terminal);
            var (o', used') := Pull(D, rest, max, size, terminal);
            if |Heard(p)| > max + 1 then o == Err(CorruptFrame)
            else if p == [] then o == o' && used == 5 + used'
            else o == Ok(Heard(p)) && used == |Heard(p)| + 5
  {
    hide One;
    DefaultDecodes(p, rest, Limit(max), size, terminal);
    assert (Frame(D, p) + rest)[|Frame(D, p)|..] == rest;
  }
}
