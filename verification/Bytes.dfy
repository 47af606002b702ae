/** Bytes, fixed-width integers and UTF-8 text as the wire and storage formats use them. */
module Bytes {

  type byte = n: nat | n < 256

  datatype Option<+T> = None | Some(value: T)

  datatype Result<+T, +E> = Ok(value: T) | Err(error: E)

  /** Largest length of an in-memory buffer (`isize::MAX`). */
  const MAX_LENGTH: nat := 0x7FFF_FFFF_FFFF_FFFF

  // ---------- fixed-width integers ----------

  function Power256(width: nat): (p: nat)
    ensures p >= 1
  {
    if width == 0 then 1 else 256 * Power256(width - 1)
  }

  /** The `width` low-order bytes of `n`, least significant first (`to_le_bytes`). */
  function LittleEndian(n: nat, width: nat): (bytes: seq<byte>)
    ensures |bytes| == width
  {
    if width == 0 then [] else [n % 256] + LittleEndian(n / 256, width - 1)
  }

  /** `from_le_bytes`. */
  function FromLittleEndian(bytes: seq<byte>): (n: nat)
    ensures n < Power256(|bytes|)
  {
    if bytes == [] then 0 else bytes[0] + 256 * FromLittleEndian(bytes[1..])
  }

  lemma {:induction false} LittleEndianRoundTrip(n: nat, width: nat)
    requires n < Power256(width)
    ensures FromLittleEndian(LittleEndian(n, width)) == n
  {
    if width > 0 {
      LittleEndianRoundTrip(n / 256, width - 1);
      assert LittleEndian(n, width)[1..] == LittleEndian(n / 256, width - 1);
    }
  }

  lemma {:induction false} FromLittleEndianRoundTrip(bytes: seq<byte>)
    ensures LittleEndian(FromLittleEndian(bytes), |bytes|) == bytes
  {
    if bytes != [] {
      FromLittleEndianRoundTrip(bytes[1..]);
      assert FromLittleEndian(bytes) % 256 == bytes[0];
      assert FromLittleEndian(bytes) / 256 == FromLittleEndian(bytes[1..]);
    }
  }

  function Reverse(bytes: seq<byte>): (r: seq<byte>)
    ensures |r| == |bytes|
    ensures forall i :: 0 <= i < |r| ==> r[i] == bytes[|bytes| - 1 - i]
  {
    if bytes == [] then [] else Reverse(bytes[1..]) + [bytes[0]]
  }

  /** `to_be_bytes`. */
  function BigEndian(n: nat, width: nat): (bytes: seq<byte>)
    ensures |bytes| == width
  {
    Reverse(LittleEndian(n, width))
  }

  /** `from_be_bytes`. */
  function FromBigEndian(bytes: seq<byte>): (n: nat)
    ensures n < Power256(|bytes|)
  {
    FromLittleEndian(Reverse(bytes))
  }

  lemma BigEndianRoundTrip(n: nat, width: nat)
    requires n < Power256(width)
    ensures FromBigEndian(BigEndian(n, width)) == n
  {
    assert Reverse(Reverse(LittleEndian(n, width))) == LittleEndian(n, width);
    LittleEndianRoundTrip(n, width);
  }

  lemma FromBigEndianRoundTrip(bytes: seq<byte>)
    ensures BigEndian(FromBigEndian(bytes), |bytes|) == bytes
  {
    FromLittleEndianRoundTrip(Reverse(bytes));
    assert Reverse(Reverse(bytes)) == bytes;
  }

  lemma Widths()
    ensures Power256(4) == 0x1_0000_0000
    ensures Power256(8) == 0x1_0000_0000_0000_0000
  {
    assert Power256(2) == 65536;
    assert Power256(4) == 256 * (256 * Power256(2));
    assert Power256(6) == 256 * (256 * Power256(4));
    assert Power256(8) == 256 * (256 * Power256(6));
  }

  // ---------- UTF-8 ----------

  predicate Continuation(b: byte) {
    0x80 <= b <= 0xBF
  }

  /** Well-formed UTF-8 (section 4 of RFC 3629), as `std::str::from_utf8` accepts it. */
  predicate WellFormed(s: seq<byte>) {
    if s == [] then true
    else if s[0] <= 0x7F then WellFormed(s[1..])
    else if 0xC2 <= s[0] <= 0xDF then
      |s| >= 2 && Continuation(s[1]) && WellFormed(s[2..])
    else if 0xE0 <= s[0] <= 0xEF then
      && |s| >= 3 && Continuation(s[1]) && Continuation(s[2])
      && (s[0] == 0xE0 ==> s[1] >= 0xA0) && (s[0] == 0xED ==> s[1] <= 0x9F)
      && WellFormed(s[3..])
    else if 0xF0 <= s[0] <= 0xF4 then
      && |s| >= 4 && Continuation(s[1]) && Continuation(s[2]) && Continuation(s[3])
      && (s[0] == 0xF0 ==> s[1] >= 0x90) && (s[0] == 0xF4 ==> s[1] <= 0x8F)
      && WellFormed(s[4..])
    else false
  }

  predicate IsText(s: seq<byte>) {
    |s| <= MAX_LENGTH && WellFormed(s)
  }

  /** A Rust `String`, as its UTF-8 bytes. */
  type Text = s: seq<byte> | IsText(s)
}
