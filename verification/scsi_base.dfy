/**
 Basic vocabulary shared by the SCSI command model: bytes and fixed-width
 unsigned integers, the error taxonomy raised by the request classes, a
 failure-compatible Result, and big-endian (network order) marshalling.
 */
module ScsiBase {

  /** One octet of a CDB or of a data buffer. */
  type byte = x: int | 0 <= x < 0x100

  /** The C integer types that appear in the request API. */
  type u16 = x: int | 0 <= x < 0x1_0000
  type u32 = x: int | 0 <= x < 0x1_0000_0000
  type u64 = x: int | 0 <= x < 0x1_0000_0000_0000_0000

  /** The exception classes thrown by the request classes, one constructor each. */
  datatype Error =
    | OverRead          // read past the transferred data length
    | OverFlow          // write past the declared CDB or buffer length
    | ByteBoundary      // a bit field that crosses a byte boundary
    | InvalidValue      // a value too wide for its field, or an unknown enumerant
    | NotSupported      // an operation undefined for this command variant
    | InsufficientData  // the response is too short for the field asked for
    | InvalidCdbSize    // a CDB larger than the task can hold
    | Uninitialized     // the buffer is absent (a NULL pointer in the source)
    | OutOfRange        // an index past the end of a parsed list
    | HeapOverrun       // a copy past the end of an allocation: undefined behaviour in the source

  datatype Option<+T> = None | Some(value: T)

  datatype Result<+T> = Ok(value: T) | Err(error: Error) {
    predicate IsFailure() {
      Err?
    }

    function PropagateFailure<U>(): Result<U>
      requires Err?
    {
      Err(error)
    }

    function Extract(): T
      requires Ok?
    {
      value
    }
  }

  /** The truncating conversions of C (`(uint16_t) x`, `(uint8_t) x`, ...). */
  function Trunc8(x: nat): byte { x % 0x100 }
  function Trunc16(x: nat): u16 { x % 0x1_0000 }
  function Trunc32(x: nat): (t: u32)
    ensures x < 0x1_0000_0000 ==> t == x
  {
    x % 0x1_0000_0000
  }

  /** A zero-filled buffer, as left by `memset(p, 0, n)` on fresh storage. */
  function Zeros(n: nat): (z: seq<byte>)
    ensures |z| == n
    ensures forall i :: 0 <= i < n ==> z[i] == 0
  {
    seq(n, _ => 0)
  }

  function Pow256(n: nat): (p: nat)
    ensures p >= 1
  {
    if n == 0 then 1 else 256 * Pow256(n - 1)
  }

  /** The `n` low-order bytes of `v`, most significant first (`htons`, `htonl`). */
  function ToBigEndian(v: nat, n: nat): (s: seq<byte>)
    ensures |s| == n
    decreases n
  {
    if n == 0 then [] else ToBigEndian(v / 256, n - 1) + [v % 256]
  }

  /** The unsigned value of a big-endian byte string (`ntohs`, `ntohl`). */
  function FromBigEndian(s: seq<byte>): nat
    decreases |s|
  {
    if |s| == 0 then 0 else FromBigEndian(s[..|s| - 1]) * 256 + s[|s| - 1]
  }

  /** A big-endian string of `n` bytes denotes a value below 256^n. */
  lemma {:induction false} FromBigEndianBound(s: seq<byte>)
    ensures FromBigEndian(s) < Pow256(|s|)
    decreases |s|
  {
    if |s| > 0 {
      FromBigEndianBound(s[..|s| - 1]);
    }
  }

  /** Decoding inverts encoding, up to the truncation to `n` bytes. */
  lemma {:induction false} BigEndianRoundTrip(v: nat, n: nat)
    ensures FromBigEndian(ToBigEndian(v, n)) == v % Pow256(n)
    decreases n
  {
    if n > 0 {
      var s := ToBigEndian(v, n);
      assert s[..n - 1] == ToBigEndian(v / 256, n - 1);
      BigEndianRoundTrip(v / 256, n - 1);
      DivModStep(v, Pow256(n - 1));
    }
  }

  /** (v / 256) % p * 256 + v % 256 == v % (256 * p) */
  lemma DivModStep(v: nat, p: nat)
    requires p >= 1
    ensures (v / 256) % p * 256 + v % 256 == v % (256 * p)
  {
    var q := v / 256;
    var r := v % 256;
    var a := q / p;
    var b := q % p;
    assert q == a * p + b;
    assert b <= p - 1;
    assert b * 256 <= (p - 1) * 256 by {
      MulMonotone(b, p - 1, 256);
    }
    calc {
      v;
      q * 256 + r;
      (a * p + b) * 256 + r;
      { assert (a * p + b) * 256 == a * (256 * p) + b * 256; }
      a * (256 * p) + (b * 256 + r);
    }
    ModUnique(v, 256 * p, a, b * 256 + r);
  }

  lemma MulMonotone(x: nat, y: nat, k: nat)
    requires x <= y
    ensures x * k <= y * k
  {
  }

  /** The remainder is the unique c with v == a * m + c and 0 <= c < m. */
  lemma ModUnique(v: nat, m: nat, a: nat, c: nat)
    requires m >= 1 && c < m && v == a * m + c
    ensures v % m == c
  {
    var q := v / m;
    var r := v % m;
    assert v == q * m + r;
    if q < a {
      assert (a - q) * m == a * m - q * m;
      assert (a - q) * m >= m by { MulMonotone(1, a - q, m); }
    } else if q > a {
      assert (q - a) * m == q * m - a * m;
      assert (q - a) * m >= m by { MulMonotone(1, q - a, m); }
    }
  }

  /** Encoding inverts decoding: a big-endian string is the encoding of its value. */
  lemma {:induction false} BigEndianOfValue(s: seq<byte>)
    ensures ToBigEndian(FromBigEndian(s), |s|) == s
    decreases |s|
  {
    if |s| > 0 {
      var init := s[..|s| - 1];
      var v := FromBigEndian(s);
      assert v / 256 == FromBigEndian(init);
      assert v % 256 == s[|s| - 1];
      BigEndianOfValue(init);
      assert s == init + [s[|s| - 1]];
    }
  }

  /** A four-byte big-endian string, spelled out. */
  lemma FromBigEndian4(s: seq<byte>)
    requires |s| == 4
    ensures FromBigEndian(s) == ((s[0] as int * 0x100 + s[1]) * 0x100 + s[2]) * 0x100 + s[3]
  {
    var s1, s2, s3 := s[..1], s[..2], s[..3];
    assert s1[..0] == [] && s2[..1] == s1 && s3[..2] == s2 && s[..3] == s3;
    assert FromBigEndian(s1) == s[0];
    assert FromBigEndian(s2) == s[0] as int * 0x100 + s[1];
    assert FromBigEndian(s3) == (s[0] as int * 0x100 + s[1]) * 0x100 + s[2];
  }

  /** A 32-bit value survives encoding to four bytes and decoding. */
  lemma BigEndian32RoundTrip(v: u32)
    ensures FromBigEndian(ToBigEndian(v, 4)) == v
  {
    BigEndianRoundTrip(v, 4);
    assert Pow256(4) == 0x1_0000_0000;
  }

  lemma BigEndian64RoundTrip(v: u64)
    ensures FromBigEndian(ToBigEndian(v, 8)) == v
  {
    BigEndianRoundTrip(v, 8);
    assert Pow256(2) == 0x1_0000;
    assert Pow256(4) == 0x1_0000_0000;
    assert Pow256(6) == 0x1_0000_0000_0000;
    assert Pow256(8) == 0x1_0000_0000_0000_0000;
  }

  /** The four bytes a 32-bit big-endian write produces decode back to the value. */
  lemma BigEndian32Decode(v: u32)
    ensures FromBigEndian([v / 0x100_0000, (v / 0x1_0000) % 0x100, (v / 0x100) % 0x100, v % 0x100]) == v
  {
    BigEndian32(v);
    BigEndian32RoundTrip(v);
  }

  /** The most significant byte comes first: byte 0 of a 16-bit encoding is v / 256. */
  lemma BigEndian16(v: u16)
    ensures ToBigEndian(v, 2) == [v / 256, v % 256]
  {
  }

  /** Byte k of a 32-bit encoding holds bits 8*(3-k) .. 8*(3-k)+7 of the value. */
  lemma BigEndian32(v: u32)
    ensures ToBigEndian(v, 4) == [v / 0x100_0000, (v / 0x1_0000) % 256, (v / 256) % 256, v % 256]
  {
    assert v / 256 / 256 == v / 0x1_0000;
    assert v / 256 / 256 / 256 == v / 0x100_0000;
  }
}
