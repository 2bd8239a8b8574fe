/**
  The length prefix of the ledger's wire format (`Data.encodeLength` / `Data.decodedLength`):
  an unsigned LEB128 varint, as in section 7.6 of the DWARF 4 standard. A number is cut into
  7-bit groups, lowest group first; every byte but the last has its high bit 0x80 set.
*/
module LengthEncoding {
  import opened Bytes

  const ContinuationBit: nat := 0x80

  /** `Data.encodeLength(n)`. */
  function EncodeLength(n: nat): (r: Data)
    decreases n
    ensures IsVarint(r)
    ensures |r| == 1 <==> n < ContinuationBit
    ensures r[|r| - 1] == 0 <==> n == 0
  {
    if n < ContinuationBit then [n]
    else [n % ContinuationBit + ContinuationBit] + EncodeLength(n / ContinuationBit)
  }

  /**
    `data.decodedLength`: the value of the varint at the start of `data`. Reading stops at the
    first byte without the continuation bit; trailing bytes are ignored, and input that ends
    while a continuation bit is set yields the groups read so far. `k` bytes never hold more
    than `k` groups, so the value stays below 128^k.
  */
  function DecodedLength(data: Data): (r: nat)
    ensures r < Pow128(|data|)
  {
    if |data| == 0 then 0
    else if data[0] < ContinuationBit then data[0]
    else (data[0] - ContinuationBit) + ContinuationBit * DecodedLength(data[1..])
  }

  /** A complete varint: the last byte ends it, every earlier byte continues it. */
  predicate IsVarint(v: Data) {
    |v| >= 1 && v[|v| - 1] < ContinuationBit &&
    forall i :: 0 <= i < |v| - 1 ==> v[i] >= ContinuationBit
  }

  /** A varint without a superfluous zero group at its end: the shortest spelling of its value. */
  predicate IsCanonical(v: Data) {
    IsVarint(v) && (|v| > 1 ==> v[|v| - 1] != 0)
  }

  function Pow128(k: nat): (r: nat)
    ensures r >= 1
  {
    if k == 0 then 1 else ContinuationBit * Pow128(k - 1)
  }

  /** The test vectors of `encodeLength`. */
  lemma EncodeLengthVectors()
    ensures EncodeLength(0) == [0]
    ensures EncodeLength(1) == [1]
    ensures EncodeLength(5) == [5]
    ensures EncodeLength(127) == [0x7F]
    ensures EncodeLength(128) == [0x80, 0x01]
    ensures EncodeLength(255) == [0xFF, 0x01]
    ensures EncodeLength(256) == [0x80, 0x02]
    ensures EncodeLength(32767) == [0xFF, 0xFF, 0x01]
    ensures EncodeLength(2097152) == [0x80, 0x80, 0x80, 0x01]
  {
  }

  /** The test vectors of `decodedLength`: only the leading varint is read. */
  lemma DecodedLengthVectors()
    ensures DecodedLength([5, 3, 1, 2, 3, 7, 8, 5, 4]) == 5
    ensures DecodedLength([74, 174, 189, 206, 113, 78, 60, 226, 136, 170]) == 74
  {
  }

  /** Every encoding is canonical, so no value has two encodings of different lengths. */
  lemma EncodeLengthIsCanonical(n: nat)
    ensures IsCanonical(EncodeLength(n))
  {
  }

  /** The encoded size is the number of 7-bit groups `n` needs: `128^(k-1) <= n < 128^k`. */
  lemma {:induction false} EncodedSizeBounds(n: nat)
    ensures n < Pow128(|EncodeLength(n)|)
    ensures |EncodeLength(n)| > 1 ==> Pow128(|EncodeLength(n)| - 1) <= n
    decreases n
  {
    if n >= ContinuationBit {
      var m := n / ContinuationBit;
      EncodedSizeBounds(m);
      var k := |EncodeLength(m)|;
      assert |EncodeLength(n)| == k + 1;
      assert m <= Pow128(k) - 1;
      assert n == ContinuationBit * m + n % ContinuationBit;
      assert ContinuationBit * m <= ContinuationBit * (Pow128(k) - 1);
      if k > 1 {
        assert ContinuationBit * Pow128(k - 1) <= ContinuationBit * m;
      }
    }
  }

  /** Decoding reads the leading varint only: whatever follows a complete varint is ignored. */
  lemma {:induction false} DecodeIgnoresTail(v: Data, tail: Data)
    requires IsVarint(v)
    ensures DecodedLength(v + tail) == DecodedLength(v)
    decreases |v|
  {
    if |v| > 1 {
      assert (v + tail)[1..] == v[1..] + tail;
      DecodeIgnoresTail(v[1..], tail);
    }
  }

  /** Round trip: the length read back from an encoding, followed by anything, is the number encoded. */
  lemma {:induction false} DecodeEncodeLength(n: nat, tail: Data)
    ensures DecodedLength(EncodeLength(n) + tail) == n
    decreases n
  {
    DecodeIgnoresTail(EncodeLength(n), tail);
    if n >= ContinuationBit {
      var rest := EncodeLength(n / ContinuationBit);
      assert EncodeLength(n)[1..] == rest;
      DecodeEncodeLength(n / ContinuationBit, []);
      assert rest + [] == rest;
    }
  }

  /** The other round trip: re-encoding the value of a canonical varint gives back the same bytes. */
  lemma {:induction false} EncodeDecodedLength(v: Data)
    requires IsCanonical(v)
    ensures EncodeLength(DecodedLength(v)) == v
    decreases |v|
  {
    if |v| > 1 {
      var rest := v[1..];
      assert IsCanonical(rest);
      EncodeDecodedLength(rest);
      var m := DecodedLength(rest);
      assert rest[|rest| - 1] == v[|v| - 1] != 0;
      var n := DecodedLength(v);
      assert n == (v[0] - ContinuationBit) + ContinuationBit * m;
      assert n / ContinuationBit == m && n % ContinuationBit == v[0] - ContinuationBit;
    }
  }

  /** Distinct lengths have distinct encodings. */
  lemma EncodeLengthInjective(a: nat, b: nat)
    requires EncodeLength(a) == EncodeLength(b)
    ensures a == b
  {
    DecodeEncodeLength(a, []);
    DecodeEncodeLength(b, []);
  }

  /**
    The prefix is self-delimiting: when two encoded lengths followed by payloads give the same
    bytes, the lengths and the payloads are the same.
  */
  lemma EncodeLengthSelfDelimiting(a: nat, b: nat, t1: Data, t2: Data)
    requires EncodeLength(a) + t1 == EncodeLength(b) + t2
    ensures a == b && t1 == t2
  {
    var ea, eb := EncodeLength(a), EncodeLength(b);
    DecodeEncodeLength(a, t1);
    DecodeEncodeLength(b, t2);
    assert t1 == (ea + t1)[|ea|..];
    assert t2 == (eb + t2)[|eb|..];
  }
}
