/** Bytes, results and the error classes a decoder can report. */
module Bytes {

  type byte = b: int | 0 <= b < 256

  type Bytes = seq<byte>

  datatype Option<+T> = None | Some(value: T)

  /** `ConnClosed` is reading from a closed connection, `Transport` any other error it may end with. */
  datatype Error =
    | EOF
    | UnexpectedEOF
    | CorruptFrame
    | FrameTooLarge
    | VarintOverflow
    | ConnClosed
    | Transport(code: int)

  datatype Result<+T> = Ok(value: T) | Err(error: Error)

  const MAX_UINT16: nat := 0xFFFF
  const MAX_UINT32: nat := 0xFFFF_FFFF

  /** Big-endian 16-bit length. */
  function Uint16(n: nat): (b: Bytes)
    requires n <= MAX_UINT16
    ensures |b| == 2
  {
    [n / 256, n % 256]
  }

  /** Big-endian 32-bit length. */
  function Uint32(n: nat): (b: Bytes)
    requires n <= MAX_UINT32
    ensures |b| == 4
  {
    Uint16(n / 0x1_0000) + Uint16(n % 0x1_0000)
  }

  function ValueOf16(b: Bytes): (n: nat)
    requires |b| == 2
    ensures n <= MAX_UINT16 && b == Uint16(n)
  {
    b[0] as int * 256 + b[1] as int
  }

  function ValueOf32(b: Bytes): (n: nat)
    requires |b| == 4
    ensures n <= MAX_UINT32
  {
    ValueOf16(b[..2]) * 0x1_0000 + ValueOf16(b[2..])
  }

  lemma Uint32RoundTrip(n: nat)
    requires n <= MAX_UINT32
    ensures ValueOf32(Uint32(n)) == n
  {
    var hi, lo := Uint16(n / 0x1_0000), Uint16(n % 0x1_0000);
    assert Uint32(n)[..2] == hi && Uint32(n)[2..] == lo;
  }

  /** Most significant byte first. */
  lemma Uint32Bytes(n: nat)
    requires n <= MAX_UINT32
    ensures Uint32(n) == [n / 0x100_0000, n / 0x1_0000 % 256, n / 0x100 % 256, n % 256]
  {
    var b := Uint32(n);
    Uint32Value(n);
    FourDigits(n, b[0], b[1], b[2], b[3]);
    assert b == [b[0], b[1], b[2], b[3]];
  }

  lemma Uint32Value(n: nat)
    requires n <= MAX_UINT32
    ensures var b := Uint32(n);
            n == b[0] as nat * 0x100_0000 + b[1] as nat * 0x1_0000 + b[2] as nat * 0x100 + b[3] as nat
  {
  }

  lemma FourDigits(n: nat, a: byte, b: byte, c: byte, e: byte)
    requires n == a as nat * 0x100_0000 + b as nat * 0x1_0000 + c as nat * 0x100 + e as nat
    ensures n / 0x100_0000 == a && n / 0x1_0000 % 256 == b && n / 0x100 % 256 == c && n % 256 == e
  {
    assert n / 0x1_0000 == a as nat * 256 + b as nat;
    assert n / 0x100 == (a as nat * 256 + b as nat) * 256 + c as nat;
  }

  /** What reading to the end of a frame that never completes reports. */
  function MidFrame(terminal: Error): Error {
    if terminal == EOF then UnexpectedEOF else terminal
  }
}
