/** Streams of frames under any of the three codecs. */
module Streams {
  import opened Bytes
  import opened Bufio
  import Legacy
  import LegacyTheorems
  import LegacyLimit
  import Prefixed

  datatype Codec =
    | LegacyCodec(delim: Legacy.Delimiter)
    | UvarintCodec
    | Uint32Codec

  /** What the format can express; a slice's length always fits 64 bits. */
  predicate Encodable(c: Codec, p: Bytes) {
    match c
    case LegacyCodec(_) => |p| <= MAX_UINT16
    case UvarintCodec => |p| < Prefixed.Pow2(64)
    case Uint32Codec => |p| <= MAX_UINT32
  }

  function Encode(c: Codec, p: Bytes): (f: Bytes)
    requires Encodable(c, p)
    ensures |f| > 0
  {
    match c
    case LegacyCodec(d) => Legacy.Frame(d, p)
    case UvarintCodec => Prefixed.Varint(|p|) + p
    case Uint32Codec => Uint32(|p|) + p
  }

  /** The next payload `Read` returns, and the bytes it takes. */
  function Next(c: Codec, s: Bytes, max: nat, size: BufferSize, terminal: Error): (r: (Result<Bytes>, nat))
    ensures r.1 <= |s|
    ensures r.0.Ok? ==> r.1 > 0
  {
    match c
    case LegacyCodec(d) => Legacy.Pull(d, s, max, size, terminal)
    case UvarintCodec => Prefixed.UvarintOne(s, max, terminal)
    case Uint32Codec => Prefixed.Uint32One(s, max, terminal)
  }

  /** Codec.Append. */
  method Append(c: Codec, dst: Bytes, p: Bytes) returns (buf: Bytes, error: Option<Error>)
    requires c.UvarintCodec? ==> Encodable(c, p)
    ensures Encodable(c, p) ==> error == None && buf == dst + Encode(c, p)
    ensures !Encodable(c, p) ==> error == Some(FrameTooLarge) && buf == dst
  {
    hide Legacy.Frame, Prefixed.Varint, Uint32, Prefixed.Pow2;
    match c {
      case LegacyCodec(d) =>
        buf, error := Legacy.Append(d, dst, p);
      case UvarintCodec =>
        buf := Prefixed.AppendUvarint(dst, p);
        error := None;
        assert buf == dst + Encode(c, p);
      case Uint32Codec =>
        buf, error := Prefixed.AppendUint32(dst, p);
        assert error == None ==> buf == dst + Encode(c, p);
    }
  }

  /** Codec.Read. */
  method Read(c: Codec, r: Reader, max: nat) returns (result: Result<Bytes>)
    modifies r`rest
    ensures var (o, used) := Next(c, old(r.rest), max, r.size, r.terminal);
            result == o && r.rest == old(r.rest)[used..]
  {
    match c {
      case LegacyCodec(d) => result := Legacy.Read(d, r, max);
      case UvarintCodec => result := Prefixed.ReadUvarintFrame(r, max);
      case Uint32Codec => result := Prefixed.ReadUint32Frame(r, max);
    }
  }

  /** Everything a peer reads before its first error, and that error. */
  function DecodeAll(c: Codec, s: Bytes, max: nat, size: BufferSize, terminal: Error): (r: (seq<Bytes>, Error))
    decreases |s|
  {
    var (o, used) := Next(c, s, max, size, terminal);
    if o.Err? then ([], o.error)
    else
      var (ps, e) := DecodeAll(c, s[used..], max, size, terminal);
      ([o.value] + ps, e)
  }

  lemma DecodeAllStep(c: Codec, s: Bytes, max: nat, size: BufferSize, terminal: Error)
    ensures var (o, used) := Next(c, s, max, size, terminal);
            var (ps, e) := DecodeAll(c, s, max, size, terminal);
            if o.Err? then ps == [] && e == o.error
            else ps != [] && ps[0] == o.value && DecodeAll(c, s[used..], max, size, terminal) == (ps[1..], e)
  {
  }

  predicate AllEncodable(c: Codec, ps: seq<Bytes>) {
    forall i :: 0 <= i < |ps| ==> Encodable(c, ps[i])
  }

  function EncodeAll(c: Codec, ps: seq<Bytes>): (s: Bytes)
    requires AllEncodable(c, ps)
  {
    if ps == [] then [] else Encode(c, ps[0]) + EncodeAll(c, ps[1..])
  }

  /** Legacy drops empty payloads; the others carry them. */
  function Kept(c: Codec, ps: seq<Bytes>): (r: seq<Bytes>)
    ensures |r| <= |ps|
  {
    if ps == [] then []
    else if c.LegacyCodec? && ps[0] == [] then Kept(c, ps[1..])
    else [ps[0]] + Kept(c, ps[1..])
  }

  /** A payload the format carries faithfully to a reader with this limit. */
  ghost predicate Fits(c: Codec, p: Bytes, max: nat) {
    Encodable(c, p) && |p| <= max && (c.LegacyCodec? ==> LegacyTheorems.Unambiguous(c.delim, p))
  }

  ghost predicate AllFit(c: Codec, ps: seq<Bytes>, max: nat) {
    forall i :: 0 <= i < |ps| ==> Fits(c, ps[i], max)
  }

  /** How many whole frames the first k bytes of the encoding hold. */
  function WholeFrames(c: Codec, ps: seq<Bytes>, k: nat): (n: nat)
    requires AllEncodable(c, ps)
    ensures n <= |ps|
  {
    if ps == [] || |Encode(c, ps[0])| > k then 0
    else 1 + WholeFrames(c, ps[1..], k - |Encode(c, ps[0])|)
  }

  /** `WholeFrames` is the largest such number. */
  lemma {:induction false} WholeFramesIsMost(c: Codec, ps: seq<Bytes>, k: nat)
    requires AllEncodable(c, ps)
    ensures var n := WholeFrames(c, ps, k);
            && |EncodeAll(c, ps[..n])| <= k
            && (n < |ps| ==> |EncodeAll(c, ps[..n + 1])| > k)
  {
    hide Encode, Encodable;
    if ps == [] {
    } else if |Encode(c, ps[0])| > k {
      assert ps[..0 + 1] == [ps[0]];
      assert EncodeAll(c, [ps[0]]) == Encode(c, ps[0]) + EncodeAll(c, []);
    } else {
      var n := WholeFrames(c, ps, k);
      WholeFramesIsMost(c, ps[1..], k - |Encode(c, ps[0])|);
      assert ps[..n][1..] == ps[1..][..n - 1];
      if n < |ps| {
        assert ps[..n + 1][1..] == ps[1..][..n];
      }
    }
  }

  /** Batching is invisible: two batches in turn put on the wire what one joint batch would. */
  lemma {:induction false} EncodeAllConcat(c: Codec, ps: seq<Bytes>, qs: seq<Bytes>)
    requires AllEncodable(c, ps) && AllEncodable(c, qs)
    ensures AllEncodable(c, ps + qs)
    ensures EncodeAll(c, ps + qs) == EncodeAll(c, ps) + EncodeAll(c, qs)
  {
    hide Encode, Encodable;
    if ps == [] {
      assert ps + qs == qs;
    } else {
      assert (ps + qs)[1..] == ps[1..] + qs;
      EncodeAllConcat(c, ps[1..], qs);
    }
  }

  lemma {:induction false} KeptConcat(c: Codec, ps: seq<Bytes>, qs: seq<Bytes>)
    ensures Kept(c, ps + qs) == Kept(c, ps) + Kept(c, qs)
  {
    if ps == [] {
      assert ps + qs == qs;
    } else {
      assert (ps + qs)[1..] == ps[1..] + qs;
      KeptConcat(c, ps[1..], qs);
    }
  }

  /** The three laws of one frame: it is read back; cut short it is an error; an empty Legacy one is skipped. */
  lemma FrameIsRead(c: Codec, p: Bytes, rest: Bytes, max: nat, size: BufferSize, terminal: Error)
    requires Fits(c, p, max) && !(c.LegacyCodec? && p == [])
    ensures Next(c, Encode(c, p) + rest, max, size, terminal) == (Ok(p), |Encode(c, p)|)
  {
    hide Legacy.One, LegacyTheorems.Unambiguous, Legacy.Frame;
    hide Prefixed.UvarintOne, Prefixed.Uint32One, Prefixed.Varint, Prefixed.Pow2, Uint32;
    match c {
      case LegacyCodec(d) =>
        LegacyTheorems.OneOnFrame(d, p, rest, Legacy.Limit(max), size, terminal);
      case UvarintCodec =>
        UvarintIsRead(p, rest, max, terminal);
      case Uint32Codec =>
        Uint32IsRead(p, rest, max, terminal);
    }
  }

  lemma UvarintIsRead(p: Bytes, rest: Bytes, max: nat, terminal: Error)
    requires |p| <= max && |p| < Prefixed.Pow2(64)
    ensures Prefixed.UvarintOne(Prefixed.Varint(|p|) + p + rest, max, terminal)
            == (Ok(p), |Prefixed.Varint(|p|)| + |p|)
  {
    hide Prefixed.ReadDigits, Prefixed.Varint, Prefixed.Pow2;
    var digits := Prefixed.Varint(|p|);
    assert digits + p + rest == digits + (p + rest);
    Prefixed.DigitsRoundTrip(|p|, 0, p + rest, terminal);
    assert (digits + (p + rest))[|digits|..] == p + rest;
  }

  lemma Uint32IsRead(p: Bytes, rest: Bytes, max: nat, terminal: Error)
    requires |p| <= max && |p| <= MAX_UINT32
    ensures Prefixed.Uint32One(Uint32(|p|) + p + rest, max, terminal) == (Ok(p), 4 + |p|)
  {
    hide Uint32, ValueOf32;
    var s := Uint32(|p|) + p + rest;
    Uint32RoundTrip(|p|);
    assert s[..4] == Uint32(|p|);
    assert s[4..] == p + rest;
  }

  lemma FrameCutShort(c: Codec, p: Bytes, k: nat, max: nat, size: BufferSize, terminal: Error)
    requires Fits(c, p, max) && 0 < k < |Encode(c, p)|
    ensures Next(c, Encode(c, p)[..k], max, size, terminal).0 == Err(MidFrame(terminal))
  {
    var s := Encode(c, p)[..k];
    match c {
      case LegacyCodec(d) =>
        LegacyCutShort(d, p, k, Legacy.Limit(max), size, terminal);
      case UvarintCodec =>
        UvarintCutShort(p, k, max, terminal);
      case Uint32Codec =>
        Uint32RoundTrip(|p|);
        assert k >= 4 ==> s[..4] == Uint32(|p|);
    }
  }

  lemma UvarintCutShort(p: Bytes, k: nat, max: nat, terminal: Error)
    requires |p| <= max && |p| < Prefixed.Pow2(64) && 0 < k < |Prefixed.Varint(|p|)| + |p|
    ensures Prefixed.UvarintOne((Prefixed.Varint(|p|) + p)[..k], max, terminal).0 == Err(MidFrame(terminal))
  {
    hide Prefixed.ReadDigits, Prefixed.Varint, Prefixed.Pow2;
    var digits := Prefixed.Varint(|p|);
    var s := (digits + p)[..k];
    if k < |digits| {
      assert s == digits[..k];
      Prefixed.DigitsCut(|p|, 0, k, terminal);
    } else {
      var got := p[..k - |digits|];
      assert s == digits + got;
      Prefixed.DigitsRoundTrip(|p|, 0, got, terminal);
      assert s[|digits|..] == got;
    }
  }

  lemma LegacyCutShort(d: Legacy.Delimiter, p: Bytes, k: nat, limit: int, size: BufferSize, terminal: Error)
    requires |p| <= MAX_UINT16 && |p| <= limit && LegacyTheorems.Unambiguous(d, p)
    requires 0 < k < |Legacy.Frame(d, p)|
    ensures Legacy.One(d, Legacy.Frame(d, p)[..k], limit, size, terminal).0 == Err(MidFrame(terminal))
  {
    hide Legacy.FrameEnd, FirstCut, IsCut;
    var s := Legacy.Frame(d, p)[..k];
    forall j | 0 <= j <= k
      ensures Legacy.FrameEnd(d, s[..j]).None?
    {
      assert s[..j] == Legacy.Frame(d, p)[..j];
    }
    assert Legacy.FirstEnd(d, s, 0).None?;
  }

  lemma EmptyFrameIsSkipped(d: Legacy.Delimiter, rest: Bytes, max: nat, size: BufferSize, terminal: Error)
    ensures var f := Legacy.Frame(d, []);
            var (o, used) := Next(LegacyCodec(d), rest, max, size, terminal);
            Next(LegacyCodec(d), f + rest, max, size, terminal) == (o, |f| + used)
  {
    hide Legacy.One, LegacyTheorems.Unambiguous, Legacy.Frame;
    var f := Legacy.Frame(d, []);
    EmptyIsUnambiguous(d);
    LegacyTheorems.OneOnFrame(d, [], rest, Legacy.Limit(max), size, terminal);
    assert (f + rest)[|f|..] == rest;
  }

  lemma EmptyIsUnambiguous(d: Legacy.Delimiter)
    ensures LegacyTheorems.Unambiguous(d, [])
  {
  }

  lemma NothingToRead(c: Codec, max: nat, size: BufferSize, terminal: Error)
    ensures Next(c, [], max, size, terminal).0 == Err(terminal)
  {
    if c.LegacyCodec? {
      assert Legacy.FirstEnd(c.delim, [], 0).None?;
    }
  }

  lemma DecodeFrameThen(c: Codec, p: Bytes, rest: Bytes, max: nat, size: BufferSize, terminal: Error)
    requires Fits(c, p, max)
    ensures var (ps, e) := DecodeAll(c, rest, max, size, terminal);
            DecodeAll(c, Encode(c, p) + rest, max, size, terminal) == (Kept(c, [p]) + ps, e)
  {
    hide Next, Encode, Encodable, LegacyTheorems.Unambiguous;
    if c.LegacyCodec? && p == [] {
      EmptyFrameIsSkipped(c.delim, rest, max, size, terminal);
      EncodeLegacy(c.delim, []);
      var f := Encode(c, []);
      var (o, used) := Next(c, rest, max, size, terminal);
      assert (f + rest)[|f| + used..] == rest[used..];
      assert [p][1..] == [] && Kept(c, [p]) == [];
      assert Kept(c, [p]) + DecodeAll(c, rest, max, size, terminal).0 == DecodeAll(c, rest, max, size, terminal).0;
    } else {
      FrameIsRead(c, p, rest, max, size, terminal);
      assert (Encode(c, p) + rest)[|Encode(c, p)|..] == rest;
      assert [p][1..] == [] && Kept(c, [p]) == [p];
    }
  }

  lemma EncodeLegacy(d: Legacy.Delimiter, p: Bytes)
    requires |p| <= MAX_UINT16
    ensures Encode(LegacyCodec(d), p) == Legacy.Frame(d, p)
  {
  }

  /**
   Truncation, for every codec: cutting a stream of frames at byte k gives the
   whole frames before the cut, then the clean terminal error when the cut is
   on a frame boundary and the mid-frame one otherwise.
   */
  lemma {:induction false} Truncation(c: Codec, ps: seq<Bytes>, k: nat, max: nat, size: BufferSize, terminal: Error)
    requires AllFit(c, ps, max) && AllEncodable(c, ps) && k <= |EncodeAll(c, ps)|
    ensures var n := WholeFrames(c, ps, k);
            DecodeAll(c, EncodeAll(c, ps)[..k], max, size, terminal) ==
              (Kept(c, ps[..n]),
               if k == |EncodeAll(c, ps[..n])| then terminal
               else if terminal == EOF then UnexpectedEOF else terminal)
  {
    hide Next, Encode, Fits, Encodable, DecodeAll;
    var n := WholeFrames(c, ps, k);
    if k == 0 || |Encode(c, ps[0])| > k {
      assert n == 0 && ps[..0] == [];
      CutInFirstFrame(c, ps, k, max, size, terminal);
    } else {
      var f := Encode(c, ps[0]);
      var rest := EncodeAll(c, ps[1..])[..k - |f|];
      Truncation(c, ps[1..], k - |f|, max, size, terminal);
      assert Fits(c, ps[0], max);
      DecodeFrameThen(c, ps[0], rest, max, size, terminal);
      assert EncodeAll(c, ps)[..k] == f + rest;
      FirstAndRest(c, ps, n);
    }
  }

  lemma CutInFirstFrame(c: Codec, ps: seq<Bytes>, k: nat, max: nat, size: BufferSize, terminal: Error)
    requires AllFit(c, ps, max) && AllEncodable(c, ps) && k <= |EncodeAll(c, ps)|
    requires ps == [] || k < |Encode(c, ps[0])|
    ensures DecodeAll(c, EncodeAll(c, ps)[..k], max, size, terminal) ==
              ([], if k == 0 then terminal else if terminal == EOF then UnexpectedEOF else terminal)
  {
    hide Next, Encode, Fits, Encodable;
    if k == 0 {
      NothingToRead(c, max, size, terminal);
    } else {
      FrameCutShort(c, ps[0], k, max, size, terminal);
      assert EncodeAll(c, ps)[..k] == Encode(c, ps[0])[..k];
    }
  }

  lemma FirstAndRest(c: Codec, ps: seq<Bytes>, n: nat)
    requires AllEncodable(c, ps) && 0 < n <= |ps|
    ensures AllEncodable(c, ps[..n]) && AllEncodable(c, ps[1..][..n - 1])
    ensures Kept(c, ps[..n]) == Kept(c, [ps[0]]) + Kept(c, ps[1..][..n - 1])
    ensures EncodeAll(c, ps[..n]) == Encode(c, ps[0]) + EncodeAll(c, ps[1..][..n - 1])
  {
    hide Encode, Encodable;
    var rest := ps[1..][..n - 1];
    assert forall i :: 0 <= i < |rest| ==> rest[i] == ps[i + 1];
    assert ps[..n] == [ps[0]] + ps[1..][..n - 1];
    KeptConcat(c, [ps[0]], ps[1..][..n - 1]);
    assert ps[..n][1..] == ps[1..][..n - 1];
  }

  lemma EncodeAllPrefix(c: Codec, ps: seq<Bytes>, n: nat)
    requires AllEncodable(c, ps) && n <= |ps|
    ensures EncodeAll(c, ps[..n]) <= EncodeAll(c, ps)
  {
    hide Encode, Encodable, EncodeAll;
    EncodeAllConcat(c, ps[..n], ps[n..]);
    assert ps == ps[..n] + ps[n..];
  }

  /** k bytes of the encoding are some whole frames and nothing more. */
  ghost predicate OnBoundary(c: Codec, ps: seq<Bytes>, k: nat)
    requires AllEncodable(c, ps)
  {
    exists m :: 0 <= m <= |ps| && k == |EncodeAll(c, ps[..m])|
  }

  /**
   A peer that hangs up is seen to have done so cleanly exactly when it stopped between
   two frames; any other error that ends the stream is reported as it is.
   */
  lemma CleanEndIff(c: Codec, ps: seq<Bytes>, k: nat, max: nat, size: BufferSize, terminal: Error)
    requires AllFit(c, ps, max) && AllEncodable(c, ps) && k <= |EncodeAll(c, ps)|
    ensures DecodeAll(c, EncodeAll(c, ps)[..k], max, size, terminal).1 ==
              if terminal == EOF && !OnBoundary(c, ps, k) then UnexpectedEOF else terminal
  {
    hide Fits, Encodable, Encode, DecodeAll, EncodeAll, Kept, WholeFrames;
    var n := WholeFrames(c, ps, k);
    Truncation(c, ps, k, max, size, terminal);
    WholeFramesIsMost(c, ps, k);
    forall m | 0 <= m <= |ps|
      ensures if m > n then |EncodeAll(c, ps[..m])| > k else |EncodeAll(c, ps[..m])| <= |EncodeAll(c, ps[..n])|
    {
      if m > n { LongerList(c, ps, n + 1, m); } else { LongerList(c, ps, m, n); }
    }
  }

  lemma LongerList(c: Codec, ps: seq<Bytes>, i: nat, j: nat)
    requires AllEncodable(c, ps) && i <= j <= |ps|
    ensures |EncodeAll(c, ps[..i])| <= |EncodeAll(c, ps[..j])|
  {
    hide Encodable, EncodeAll;
    EncodeAllPrefix(c, ps[..j], i);
    assert ps[..j][..i] == ps[..i];
  }

  /** Round trip: the uncut stream. */
  lemma RoundTrip(c: Codec, ps: seq<Bytes>, max: nat, size: BufferSize, terminal: Error)
    requires AllFit(c, ps, max) && AllEncodable(c, ps)
    ensures DecodeAll(c, EncodeAll(c, ps), max, size, terminal) == (Kept(c, ps), terminal)
  {
    hide Fits, Encodable, Encode, DecodeAll, EncodeAll, Kept, WholeFrames;
    var s := EncodeAll(c, ps);
    var n := WholeFrames(c, ps, |s|);
    Truncation(c, ps, |s|, max, size, terminal);
    WholeFramesIsMost(c, ps, |s|);
    assert s[..|s|] == s;
    EncodeAllPrefix(c, ps, if n < |ps| then n + 1 else n);
    assert ps[..|ps|] == ps;
  }

  /** Whatever bytes a Legacy decoder is given, what it returns is non-empty and unambiguous. */
  lemma {:induction false} DecodedAreUnambiguous(
      d: Legacy.Delimiter, s: Bytes, max: nat, size: BufferSize, terminal: Error)
    ensures forall p :: p in DecodeAll(LegacyCodec(d), s, max, size, terminal).0 ==>
              0 < |p| <= MAX_UINT16 && LegacyTheorems.Unambiguous(d, p)
    decreases |s|
  {
    hide LegacyTheorems.Unambiguous, Legacy.Pull;
    var (o, used) := Next(LegacyCodec(d), s, max, size, terminal);
    var _ := LegacyTheorems.PullParseThenPrint(d, s, max, size, terminal);
    if o.Ok? {
      DecodedAreUnambiguous(d, s[used..], max, size, terminal);
    }
  }

  /**
   Legacy carries a list of non-empty payloads of any expressible length exactly
   when none is ambiguous and none passes the limit by more than its last chunk.
   */
  lemma {:induction false} LegacyRoundTripIff(
      d: Legacy.Delimiter, ps: seq<Bytes>, max: nat, size: BufferSize, terminal: Error)
    requires forall i :: 0 <= i < |ps| ==> 0 < |ps[i]| <= MAX_UINT16
    requires AllEncodable(LegacyCodec(d), ps)
    ensures DecodeAll(LegacyCodec(d), EncodeAll(LegacyCodec(d), ps), max, size, terminal) == (ps, terminal)
            <==> forall i :: 0 <= i < |ps| ==> LegacyLimit.Carries(d, ps[i], max, size)
  {
    hide LegacyLimit.Carries, Legacy.Pull, Legacy.Frame;
    var c := LegacyCodec(d);
    if ps == [] {
      NothingToRead(c, max, size, terminal);
    } else {
      var f, rest := Legacy.Frame(d, ps[0]), EncodeAll(c, ps[1..]);
      LegacyLimit.ReadsIff(d, ps[0], rest, max, size, terminal);
      LegacyRoundTripIff(d, ps[1..], max, size, terminal);
      assert (f + rest)[|f|..] == rest;
      assert ps == [ps[0]] + ps[1..];
      assert forall i :: 0 < i < |ps| ==> ps[i] == ps[1..][i - 1];
    }
  }

  lemma {:induction false} NothingDropped(c: Codec, ps: seq<Bytes>)
    requires c.LegacyCodec? ==> forall i :: 0 <= i < |ps| ==> ps[i] != []
    ensures Kept(c, ps) == ps
  {
    if ps != [] {
      NothingDropped(c, ps[1..]);
    }
  }

  /** The length-prefixed codecs carry every list of payloads within the limit, empty ones included. */
  lemma PrefixedRoundTrip(c: Codec, ps: seq<Bytes>, max: nat, size: BufferSize, terminal: Error)
    requires !c.LegacyCodec? && AllEncodable(c, ps) && forall i :: 0 <= i < |ps| ==> |ps[i]| <= max
    ensures DecodeAll(c, EncodeAll(c, ps), max, size, terminal) == (ps, terminal)
  {
    RoundTrip(c, ps, max, size, terminal);
    NothingDropped(c, ps);
  }

  lemma {:induction false} DecodeAllIgnoresBufferSize(
      c: Codec, s: Bytes, max: nat, size: BufferSize, size': BufferSize, terminal: Error)
    requires c.LegacyCodec? ==> 0 < LegacyLimit.Gap(c.delim) <= size && LegacyLimit.Gap(c.delim) <= size'
    ensures DecodeAll(c, s, max, size, terminal) == DecodeAll(c, s, max, size', terminal)
    decreases |s|
  {
    hide Legacy.Pull, Prefixed.UvarintOne, Prefixed.Uint32One;
    if c.LegacyCodec? {
      LegacyLimit.PullIgnoresBufferSize(c.delim, s, max, size, size', terminal);
    }
    var (o, used) := Next(c, s, max, size, terminal);
    if o.Ok? {
      DecodeAllIgnoresBufferSize(c, s[used..], max, size, size', terminal);
    }
  }

  /** No stream, limit or end of stream tells two buffers of at least `least` bytes apart. */
  ghost predicate BufferSizeInvisible(c: Codec, least: BufferSize) {
    forall s, max: nat, size: BufferSize, size': BufferSize, terminal | least <= size && least <= size' ::
      DecodeAll(c, s, max, size, terminal) == DecodeAll(c, s, max, size', terminal)
  }

  /**
   Exactly when the buffer size never shows: always for the length-prefixed
   codecs, and for Legacy when the delimiter's last byte occurs once more among
   the last `least` bytes before it.
   */
  lemma BufferSizeInvisibleIff(c: Codec, least: BufferSize)
    requires least <= 32768
    ensures BufferSizeInvisible(c, least) <==> (c.LegacyCodec? ==> 0 < LegacyLimit.Gap(c.delim) <= least)
  {
    hide DecodeAll, LegacyLimit.Gap;
    if c.LegacyCodec? ==> 0 < LegacyLimit.Gap(c.delim) <= least {
      forall s, max: nat, size: BufferSize, size': BufferSize, terminal | least <= size && least <= size'
        ensures DecodeAll(c, s, max, size, terminal) == DecodeAll(c, s, max, size', terminal)
      {
        DecodeAllIgnoresBufferSize(c, s, max, size, size', terminal);
      }
    } else {
      BufferSizeShows(c.delim, least);
    }
  }

  lemma BufferSizeShows(d: Legacy.Delimiter, least: BufferSize)
    requires !(0 < LegacyLimit.Gap(d) <= least) && least <= 32768
    ensures !BufferSizeInvisible(LegacyCodec(d), least)
  {
    hide LegacyLimit.Gap, Legacy.Frame, Legacy.Pull, LegacyLimit.RevealingPayload;
    var max := LegacyLimit.BufferSizeShows(d, least, EOF);
    var f := Legacy.Frame(d, LegacyLimit.RevealingPayload(d));
    assert DecodeAll(LegacyCodec(d), f, max, least, EOF).0 == [];
    assert DecodeAll(LegacyCodec(d), f, max, |f|, EOF).0 != [];
  }
}
