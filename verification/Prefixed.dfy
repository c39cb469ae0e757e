/** The length-prefixed codecs: a uvarint or a big-endian uint32 length, then the payload. */
module Prefixed {
  import opened Bytes
  import opened Bufio

  /** A uint64 never takes more than ten varint bytes. */
  const MAX_VARINT_LEN: nat := 10

  function Pow2(n: nat): (p: nat)
    ensures p > 0
  {
    if n == 0 then 1 else 2 * Pow2(n - 1)
  }

  /** Base-128 digits, least significant first; all but the last carry the high bit. */
  function Varint(n: nat): (b: Bytes)
    ensures |b| > 0
  {
    if n < 128 then [n] else [n % 128 + 128] + Varint(n / 128)
  }

  /**
   Reads the digits from number `i` on: their value as if they were first, and how
   many bytes were taken. The tenth digit may only be the last, and at most 1.
   */
  function ReadDigits(s: Bytes, i: nat, terminal: Error): (r: (Result<nat>, nat))
    requires i <= MAX_VARINT_LEN
    ensures r.1 <= |s| && i + r.1 <= MAX_VARINT_LEN
    ensures r.0.Ok? ==> r.1 > 0
    decreases MAX_VARINT_LEN - i
  {
    if i == MAX_VARINT_LEN then (Err(VarintOverflow), 0)
    else if s == [] then (Err(if i > 0 then MidFrame(terminal) else terminal), 0)
    else if s[0] < 128 then
      (if i == MAX_VARINT_LEN - 1 && s[0] > 1 then Err(VarintOverflow) else Ok(s[0]), 1)
    else
      var (o, used) := ReadDigits(s[1..], i + 1, terminal);
      (WithDigit(s[0], o), used + 1)
  }

  /** Seven more bits below a value already read. */
  function WithDigit(b: byte, o: Result<nat>): (r: Result<nat>)
    requires b >= 128
    ensures r.Ok? <==> o.Ok?
    ensures o.Err? ==> r == o
  {
    if o.Ok? then Ok(b - 128 + 128 * o.value) else o
  }

  /** The payload after a length already read. */
  function TakePayload(s: Bytes, n: nat, max: nat, terminal: Error): (r: (Result<Bytes>, nat))
    ensures r.1 <= |s|
    ensures r.0.Ok? ==> |r.0.value| == n <= max && r.1 == n
  {
    if n > max then (Err(FrameTooLarge), 0)
    else if |s| >= n then (Ok(s[..n]), n)
    else (Err(MidFrame(terminal)), |s|)
  }

  function UvarintOne(s: Bytes, max: nat, terminal: Error): (r: (Result<Bytes>, nat))
    ensures r.1 <= |s|
    ensures r.0.Ok? ==> r.1 > 0 && |r.0.value| <= max
  {
    var (n, digits) := ReadDigits(s, 0, terminal);
    if n.Err? then (Err(n.error), digits)
    else
      var (o, used) := TakePayload(s[digits..], n.value, max, terminal);
      (o, digits + used)
  }

  function Uint32One(s: Bytes, max: nat, terminal: Error): (r: (Result<Bytes>, nat))
    ensures r.1 <= |s|
    ensures r.0.Ok? ==> r.1 > 0 && |r.0.value| <= max
  {
    if |s| < 4 then (Err(if s == [] then terminal else MidFrame(terminal)), |s|)
    else
      var (o, used) := TakePayload(s[4..], ValueOf32(s[..4]), max, terminal);
      (o, 4 + used)
  }

  /** binary.AppendUvarint followed by the payload. */
  method AppendUvarint(dst: Bytes, payload: Bytes) returns (buf: Bytes)
    ensures buf == dst + Varint(|payload|) + payload
  {
    buf := dst;
    var x: nat := |payload|;
    while x >= 128
      invariant buf + Varint(x) == dst + Varint(|payload|)
    {
      buf := buf + [x % 128 + 128];
      x := x / 128;
    }
    buf := buf + [x] + payload;
  }

  method AppendUint32(dst: Bytes, payload: Bytes) returns (buf: Bytes, error: Option<Error>)
    ensures |payload| > MAX_UINT32 ==> buf == dst && error == Some(FrameTooLarge)
    ensures |payload| <= MAX_UINT32 ==> buf == dst + Uint32(|payload|) + payload && error == None
    ensures |payload| <= MAX_UINT32 ==>
              var n := |payload|;
              buf == dst + [n / 0x100_0000, n / 0x1_0000 % 256, n / 0x100 % 256, n % 256] + payload
  {
    if |payload| > MAX_UINT32 {
      return dst, Some(FrameTooLarge);
    }
    Uint32Bytes(|payload|);
    buf := dst + Uint32(|payload|);
    return buf + payload, None;
  }

  method ReadPayload(r: Reader, n: nat, max: nat) returns (result: Result<Bytes>)
    modifies r`rest
    ensures var (o, used) := TakePayload(old(r.rest), n, max, r.terminal);
            result == o && r.rest == old(r.rest)[used..]
    ensures n > max ==> result == Err(FrameTooLarge) && r.rest == old(r.rest)
    ensures n <= max && |old(r.rest)| >= n ==> result == Ok(old(r.rest)[..n])
    ensures n <= max && |old(r.rest)| < n ==> result == Err(if r.terminal == EOF then UnexpectedEOF else r.terminal)
  {
    if n > max {
      return Err(FrameTooLarge);
    }
    result := r.ReadFull(n);
    if result.Err? {
      result := Err(MidFrame(result.error));
    }
  }

  /** The result once digits worth x have been read and the next weighs `weight`. */
  function Shifted(o: Result<nat>, x: nat, weight: nat): (r: Result<nat>)
    ensures o.Err? ==> r == o
  {
    if o.Ok? then Ok(x + weight * o.value) else o
  }

  /** binary.ReadUvarint. */
  method ReadUvarint(r: Reader) returns (result: Result<nat>)
    modifies r`rest
    ensures var (o, used) := ReadDigits(old(r.rest), 0, r.terminal);
            result == o && r.rest == old(r.rest)[used..]
  {
    hide ReadDigits;
    ghost var s := r.rest;
    var x: nat, weight: nat := 0, 1;
    var i: nat := 0;
    while i < MAX_VARINT_LEN
      invariant i <= MAX_VARINT_LEN && i <= |s| && r.rest == s[i..]
      invariant ReadDigits(s, 0, r.terminal) == Pending(s, i, x, weight, r.terminal)
    {
      NextDigit(s, i, x, weight, r.terminal);
      var b := r.ReadByte();
      if b.Err? {
        return Err(if i > 0 then MidFrame(b.error) else b.error);
      }
      if b.value < 128 {
        if i == MAX_VARINT_LEN - 1 && b.value > 1 {
          return Err(VarintOverflow);
        }
        return Ok(x + weight * b.value);
      }
      x := x + weight * (b.value - 128);
      weight := weight * 128;
      i := i + 1;
    }
    NoMoreDigits(s, x, weight, r.terminal);
    result := Err(VarintOverflow);
  }

  /** What reading s comes to, given i digits worth x. */
  function Pending(s: Bytes, i: nat, x: nat, weight: nat, terminal: Error): (Result<nat>, nat)
    requires i <= MAX_VARINT_LEN && i <= |s|
  {
    var (o, used) := ReadDigits(s[i..], i, terminal);
    (Shifted(o, x, weight), i + used)
  }

  lemma NoMoreDigits(s: Bytes, x: nat, weight: nat, terminal: Error)
    requires MAX_VARINT_LEN <= |s|
    ensures Pending(s, MAX_VARINT_LEN, x, weight, terminal) == (Err(VarintOverflow), MAX_VARINT_LEN)
  {
  }

  lemma NextDigit(s: Bytes, i: nat, x: nat, weight: nat, terminal: Error)
    requires i < MAX_VARINT_LEN && i <= |s|
    ensures var pending := Pending(s, i, x, weight, terminal);
            if i == |s| then
              pending == (Err(if i > 0 then MidFrame(terminal) else terminal), i)
            else if s[i] < 128 then
              pending == (if i == MAX_VARINT_LEN - 1 && s[i] > 1 then Err(VarintOverflow)
                          else Shifted(Ok(s[i]), x, weight), i + 1)
            else
              pending == Pending(s, i + 1, x + weight * (s[i] - 128), weight * 128, terminal)
  {
    hide Shifted, ReadDigits;
    DigitsUnfold(s, i, terminal);
    if i < |s| && s[i] >= 128 {
      ShiftDigit(ReadDigits(s[i + 1..], i + 1, terminal).0, x, weight, s[i]);
    }
  }

  lemma DigitsUnfold(s: Bytes, i: nat, terminal: Error)
    requires i < MAX_VARINT_LEN && i <= |s|
    ensures var now := ReadDigits(s[i..], i, terminal);
            if i == |s| then
              now == (Err(if i > 0 then MidFrame(terminal) else terminal), 0)
            else if s[i] < 128 then
              now == (if i == MAX_VARINT_LEN - 1 && s[i] > 1 then Err(VarintOverflow) else Ok(s[i]), 1)
            else
              var (o, used) := ReadDigits(s[i + 1..], i + 1, terminal);
              now == (WithDigit(s[i], o), used + 1)
  {
    hide WithDigit, MidFrame;
    assert i < |s| ==> s[i..][1..] == s[i + 1..];
  }

  lemma ShiftDigit(o: Result<nat>, x: nat, weight: nat, b: byte)
    requires b >= 128
    ensures Shifted(WithDigit(b, o), x, weight) == Shifted(o, x + weight * (b - 128), weight * 128)
  {
    if o.Ok? {
      assert weight * (b - 128 + 128 * o.value) == weight * (b - 128) + weight * 128 * o.value;
    }
  }

  method ReadUvarintFrame(r: Reader, max: nat) returns (result: Result<Bytes>)
    modifies r`rest
    ensures var (o, used) := UvarintOne(old(r.rest), max, r.terminal);
            result == o && r.rest == old(r.rest)[used..]
  {
    var n := ReadUvarint(r);
    if n.Err? {
      return Err(n.error);
    }
    result := ReadPayload(r, n.value, max);
  }

  method ReadUint32Frame(r: Reader, max: nat) returns (result: Result<Bytes>)
    modifies r`rest
    ensures var (o, used) := Uint32One(old(r.rest), max, r.terminal);
            result == o && r.rest == old(r.rest)[used..]
  {
    var header := r.ReadFull(4);
    if header.Err? {
      return Err(header.error);
    }
    result := ReadPayload(r, ValueOf32(header.value), max);
  }

  /** A Uint32 stream, byte by byte: most significant byte of the length first. */
  lemma Uint32OneIs(s: Bytes, max: nat, terminal: Error)
    ensures var (o, used) := Uint32One(s, max, terminal);
            if s == [] then o == Err(terminal)
            else if |s| < 4 then o == Err(if terminal == EOF then UnexpectedEOF else terminal)
            else
              var n := s[0] as nat * 0x100_0000 + s[1] as nat * 0x1_0000 + s[2] as nat * 0x100 + s[3] as nat;
              if n > max then o == Err(FrameTooLarge) && used == 4
              else if |s| < 4 + n then o == Err(if terminal == EOF then UnexpectedEOF else terminal)
              else o == Ok(s[4..4 + n]) && used == 4 + n
  {
    if |s| >= 4 {
      assert s[..4][..2] == [s[0], s[1]] && s[..4][2..] == [s[2], s[3]];
      var n := ValueOf32(s[..4]);
      assert |s| >= 4 + n ==> s[4..][..n] == s[4..4 + n];
    }
  }

  lemma Pow2Split(i: nat)
    requires i < 9
    ensures Pow2(64 - 7 * i) == 128 * Pow2(64 - 7 * (i + 1))
  {
    var k := 64 - 7 * (i + 1);
    assert Pow2(k + 7) == 2 * Pow2(k + 6) == 4 * Pow2(k + 5) == 8 * Pow2(k + 4);
    assert Pow2(k + 4) == 2 * Pow2(k + 3) == 4 * Pow2(k + 2) == 8 * Pow2(k + 1);
  }

  /** Digits written from position i on are read back, whatever follows them. */
  lemma {:induction false} DigitsRoundTrip(n: nat, i: nat, rest: Bytes, terminal: Error)
    requires i < MAX_VARINT_LEN && n < Pow2(64 - 7 * i)
    ensures |Varint(n)| <= MAX_VARINT_LEN - i
    ensures ReadDigits(Varint(n) + rest, i, terminal) == (Ok(n), |Varint(n)|)
  {
    if n >= 128 {
      assert Pow2(1) == 2;
      Pow2Split(i);
      DigitsRoundTrip(n / 128, i + 1, rest, terminal);
      assert (Varint(n) + rest)[1..] == Varint(n / 128) + rest;
    } else {
      assert Varint(n) == [n];
      assert Pow2(1) == 2;
    }
  }

  /** A proper prefix of the digits is never taken for a number. */
  lemma {:induction false} DigitsCut(n: nat, i: nat, k: nat, terminal: Error)
    requires i < MAX_VARINT_LEN && n < Pow2(64 - 7 * i) && k < |Varint(n)|
    ensures ReadDigits(Varint(n)[..k], i, terminal)
            == (Err(if i + k > 0 then MidFrame(terminal) else terminal), k)
  {
    hide Pow2, MidFrame, WithDigit;
    if k > 0 {
      DigitsRoundTrip(n, i, [], terminal);
      Pow2Split(i);
      DigitsCut(n / 128, i + 1, k - 1, terminal);
      assert Varint(n)[..k][1..] == Varint(n / 128)[..k - 1];
    }
  }

  /** How many bytes at the front carry the high bit. */
  function Leading(s: Bytes): (k: nat)
    ensures k <= |s| && forall j :: 0 <= j < k ==> s[j] >= 128
    ensures k < |s| ==> s[k] < 128
  {
    if s == [] || s[0] < 128 then 0 else 1 + Leading(s[1..])
  }

  function Weight(i: nat): nat {
    if i == 0 then 1 else 128 * Weight(i - 1)
  }

  function LowBits(b: byte): nat {
    if b < 128 then b else b - 128
  }

  /** The number that the low seven bits spell, least significant first. */
  function Spelled(b: Bytes): nat {
    if b == [] then 0 else Spelled(b[..|b| - 1]) + LowBits(b[|b| - 1]) * Weight(|b| - 1)
  }

  lemma {:induction false} SpelledFront(b: Bytes)
    requires b != []
    ensures Spelled(b) == LowBits(b[0]) + 128 * Spelled(b[1..])
  {
    hide LowBits;
    var m := |b| - 1;
    if m > 0 {
      SpelledFront(b[..m]);
      assert b[..m][1..] == b[1..][..m - 1];
      OneHigher(LowBits(b[m]), Weight(m - 1));
    }
  }

  lemma OneHigher(digit: nat, weight: nat)
    ensures digit * (128 * weight) == 128 * (digit * weight)
  {
  }

  /**
   What the reader makes of any bytes: ten or more with the high bit, or a tenth above 1, overflow;
   the stream may end before the last digit; otherwise it is the number spelled.
   */
  lemma {:induction false} ReadDigitsIs(s: Bytes, i: nat, terminal: Error)
    requires i <= MAX_VARINT_LEN
    ensures var k := Leading(s);
            var (o, used) := ReadDigits(s, i, terminal);
            if i + k >= 10 then o == Err(VarintOverflow)
            else if k == |s| then o == Err(if i + k > 0 && terminal == EOF then UnexpectedEOF else terminal)
            else if i + k == 9 && s[k] > 1 then o == Err(VarintOverflow)
            else o == Ok(Spelled(s[..k + 1])) && used == k + 1
    decreases |s|
  {
    hide Spelled, ReadDigits;
    FirstDigit(s, i, terminal);
    if s != [] && i < MAX_VARINT_LEN {
      if s[0] >= 128 {
        ReadDigitsIs(s[1..], i + 1, terminal);
        SpelledPart(s, Leading(s));
      } else {
        SpelledPart(s, 0);
        SpelledNone();
      }
    }
  }

  lemma FirstDigit(s: Bytes, i: nat, terminal: Error)
    requires i <= MAX_VARINT_LEN
    ensures var now := ReadDigits(s, i, terminal);
            if i == MAX_VARINT_LEN then now.0 == Err(VarintOverflow)
            else if s == [] then now.0 == Err(if i > 0 && terminal == EOF then UnexpectedEOF else terminal)
            else if s[0] < 128 then
              now == (if i == MAX_VARINT_LEN - 1 && s[0] > 1 then Err(VarintOverflow) else Ok(s[0]), 1)
            else
              var (o, used) := ReadDigits(s[1..], i + 1, terminal);
              now == (if o.Ok? then Ok(LowBits(s[0]) + 128 * o.value) else o, used + 1)
  {
  }

  lemma SpelledPart(s: Bytes, k: nat)
    requires s != [] && k <= |s|
    ensures k < |s| ==> Spelled(s[..k + 1]) == LowBits(s[0]) + 128 * Spelled(s[1..][..k])
  {
    hide Spelled, LowBits;
    if k < |s| {
      SpelledFront(s[..k + 1]);
      assert s[..k + 1][1..] == s[1..][..k];
    }
  }

  lemma SpelledNone()
    ensures Spelled([]) == 0
  {
  }

  /** What the writer prints spells the length, with the high bit on all bytes but the last. */
  lemma {:induction false} VarintSpells(n: nat)
    ensures var b := Varint(n);
            && Spelled(b) == n && Leading(b) == |b| - 1
            && (|b| > 1 ==> b[|b| - 1] > 0)
  {
    hide Spelled;
    SpelledFront(Varint(n));
    SpelledNone();
    if n >= 128 {
      VarintSpells(n / 128);
      assert Varint(n)[1..] == Varint(n / 128);
    }
  }

  /** No 64-bit length's code is a proper prefix of another's. */
  lemma VarintPrefixFree(m: nat, n: nat)
    requires m < Pow2(64) && n < Pow2(64) && Varint(m) <= Varint(n)
    ensures m == n
  {
    hide ReadDigits, Varint, Pow2;
    var rest := Varint(n)[|Varint(m)|..];
    assert Varint(n) == Varint(m) + rest == Varint(n) + [];
    DigitsRoundTrip(m, 0, rest, EOF);
    DigitsRoundTrip(n, 0, [], EOF);
  }

  /** Whatever bytes read as n, at least as many are taken as the printed code has. */
  lemma {:induction false} VarintMinimal(s: Bytes, i: nat, terminal: Error)
    requires i <= MAX_VARINT_LEN
    ensures var (o, used) := ReadDigits(s, i, terminal);
            o.Ok? ==> used >= |Varint(o.value)|
    decreases MAX_VARINT_LEN - i
  {
    var (o, used) := ReadDigits(s, i, terminal);
    if o.Ok? && s[0] >= 128 {
      VarintMinimal(s[1..], i + 1, terminal);
      var rest := ReadDigits(s[1..], i + 1, terminal).0.value;
      assert o.value / 128 == rest;
    }
  }

  /** Unlike Legacy, parsing does not determine the bytes: 80 00 also reads as an empty frame. */
  lemma PaddedVarintIsAccepted()
    ensures UvarintOne([0x80, 0x00], 0, EOF) == (Ok([]), 2)
    ensures Varint(0) == [0x00]
  {
    assert [0x80, 0x00][1..] == [0x00];
  }
}
