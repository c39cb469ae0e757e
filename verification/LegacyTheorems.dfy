/** What the Legacy format can and cannot carry. */
module LegacyTheorems {
  import opened Bytes
  import opened Bufio
  import opened Legacy

  /** No proper prefix of the payload's encoding is itself a frame. */
  ghost predicate Unambiguous(d: Delimiter, p: Bytes)
    requires |p| <= MAX_UINT16
  {
    forall k :: 0 <= k < |Frame(d, p)| ==> FrameEnd(d, Frame(d, p)[..k]).None?
  }

  lemma FirstEndOfFrame(d: Delimiter, p: Bytes, rest: Bytes)
    requires |p| <= MAX_UINT16
    ensures var end := FirstEnd(d, Frame(d, p) + rest, 0);
            && end.Some?
            && end.value <= |Frame(d, p)|
            && (Unambiguous(d, p) <==> end.value == |Frame(d, p)|)
  {
    hide FrameEnd;
    var f := Frame(d, p);
    forall k | 0 <= k <= |f|
      ensures (f + rest)[..k] == f[..k]
    {
    }
    FrameHasEnd(d, p);
    assert f[..|f|] == f;
    assert FrameEnd(d, (f + rest)[..|f|]).Some?;
  }

  /** Inside an encoding, or straddling its length, a length that fits its place and then the delimiter. */
  ghost predicate EndsAt(d: Delimiter, f: Bytes, m: nat) {
    m + 2 + |d| <= |f| && m <= MAX_UINT16 && f[m..m + 2] == Uint16(m) && f[m + 2..m + 2 + |d|] == d
  }

  lemma FrameEndAt(d: Delimiter, f: Bytes, k: nat)
    requires k <= |f|
    ensures FrameEnd(d, f[..k]).Some? <==> k >= 2 + |d| && EndsAt(d, f, k - 2 - |d|)
  {
    var m := k - 2 - |d|;
    if m >= 0 {
      var b := f[..k];
      assert b[m..m + 2] == f[m..m + 2];
      assert b[m + 2..] == f[m + 2..k];
      assert |b| - |d| == m + 2 && m <= k;
    }
  }

  /** Any delimiter: a payload is ambiguous exactly when its encoding holds an earlier length and delimiter. */
  lemma UnambiguousIff(d: Delimiter, p: Bytes)
    requires |p| <= MAX_UINT16
    ensures Unambiguous(d, p) <==> forall m :: 0 <= m < |p| ==> !EndsAt(d, Frame(d, p), m)
  {
    hide FrameEnd, EndsAt, Frame;
    var f := Frame(d, p);
    forall k | 0 <= k < |f| {
      FrameEndAt(d, f, k);
    }
    forall m | 0 <= m < |p|
      ensures EndsAt(d, f, m) <==> FrameEnd(d, f[..m + 2 + |d|]).Some?
    {
      FrameEndAt(d, f, m + 2 + |d|);
    }
  }

  lemma FirstOverAbove(d: Delimiter, s: Bytes, limit: int, size: BufferSize)
    ensures FirstOver(d, s, limit, size).Some? ==> FirstOver(d, s, limit, size).value > FrameMax(d, limit)
  {
  }

  /** Every frame within the limit is found first, whatever follows it, exactly when it is unambiguous. */
  lemma OneOnFrame(d: Delimiter, p: Bytes, rest: Bytes, limit: int, size: BufferSize, terminal: Error)
    requires |p| <= MAX_UINT16 && |p| <= limit
    ensures var (o, used) := One(d, Frame(d, p) + rest, limit, size, terminal);
            && o.Ok?
            && (Unambiguous(d, p) ==> o.value == p && used == |Frame(d, p)|)
            && (!Unambiguous(d, p) ==> |o.value| < |p| && used < |Frame(d, p)|)
  {
    hide FrameEnd, FirstEnd, FirstOver, Unambiguous;
    FirstEndOfFrame(d, p, rest);
    FirstOverAbove(d, Frame(d, p) + rest, limit, size);
    assert (Frame(d, p) + rest)[..|p|] == p;
  }

  /** Parse then print: the bytes taken are the encoding of the payload, and it is never ambiguous. */
  lemma ParseThenPrint(d: Delimiter, s: Bytes, limit: int, size: BufferSize, terminal: Error)
    ensures var (o, used) := One(d, s, limit, size, terminal);
            o.Ok? ==> |o.value| <= MAX_UINT16 && s[..used] == Frame(d, o.value) && Unambiguous(d, o.value)
  {
    hide FirstOver, FrameEnd;
    var (o, used) := One(d, s, limit, size, terminal);
    if o.Ok? {
      FrameEndIffFrame(d, s[..used]);
      assert s[..used][..used - 2 - |d|] == o.value;
      forall k | 0 <= k < used
        ensures s[..used][..k] == s[..k]
      {
      }
    }
  }

  function Empties(d: Delimiter, n: nat): (b: Bytes)
    ensures |b| == n * (2 + |d|)
  {
    if n == 0 then [] else Frame(d, []) + Empties(d, n - 1)
  }

  /** `Read` takes some empty frames and then the encoding of what it returns. */
  lemma {:induction false} PullParseThenPrint(d: Delimiter, s: Bytes, max: int, size: BufferSize, terminal: Error)
    returns (skipped: nat)
    ensures var (o, used) := Pull(d, s, max, size, terminal);
            o.Ok? ==> && 0 < |o.value| <= MAX_UINT16
                      && s[..used] == Empties(d, skipped) + Frame(d, o.value)
                      && Unambiguous(d, o.value)
    decreases |s|
  {
    hide Unambiguous, One, Frame, Empties;
    skipped := 0;
    var (o, used) := One(d, s, Limit(max), size, terminal);
    ParseThenPrint(d, s, Limit(max), size, terminal);
    if o == Ok([]) {
      var (o', used') := Pull(d, s[used..], max, size, terminal);
      var more := PullParseThenPrint(d, s[used..], max, size, terminal);
      skipped := 1 + more;
      if o'.Ok? {
        OneMoreEmpty(d, s, used, used', more, o'.value);
      }
    } else if o.Ok? {
      assert Empties(d, 0) + Frame(d, o.value) == Frame(d, o.value);
    }
  }

  lemma OneMoreEmpty(d: Delimiter, s: Bytes, used: nat, used': nat, n: nat, p: Bytes)
    requires used + used' <= |s| && |p| <= MAX_UINT16
    requires s[..used] == Frame(d, []) && s[used..][..used'] == Empties(d, n) + Frame(d, p)
    ensures s[..used + used'] == Empties(d, 1 + n) + Frame(d, p)
  {
    hide Frame;
    assert s[..used + used'] == s[..used] + s[used..][..used'];
    assert Empties(d, 1 + n) == Frame(d, []) + Empties(d, n);
  }
}
