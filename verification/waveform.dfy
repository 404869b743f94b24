/** The raw waveform encoder for the Daikin frame: each byte becomes eight
    mark/space pairs, least-significant bit first, and the 39 bytes are sent
    as two IR frames (bytes 0..19 and 20..38), each with a header and a
    trailing mark. */
module Waveform {
  import opened Units
  import opened Daikin

  const HDR_MARK: u16 := 3400
  const HDR_SPACE: u16 := 1750
  const BIT_MARK: u16 := 430
  const ONE_SPACE: u16 := 1300
  const ZERO_SPACE: u16 := 430
  const GAP: u16 := 35000

  /** Entries of the static `rawBuffer` */
  const RAW_CAPACITY: int := 800

  /** Carrier frequency the AC frames are sent at */
  const AC_KHZ: nat := 38

  /** Entries in each part of an encoded frame */
  const FRAME1_LEN: int := 324
  const FRAME2_LEN: int := 308
  const WAVE_LEN: int := 632

  /** `(b >> i) & 1` */
  function Bit(b: byte, i: nat): (r: int)
    ensures r == 0 || r == 1
  {
    (b / Pow2(i)) % 2
  }

  function SpaceFor(bit: int): u16 {
    if bit == 1 then ONE_SPACE else ZERO_SPACE
  }

  /** The pairs `addByteToBuffer` has written after its first n iterations */
  function BitPairs(b: byte, n: nat): (w: seq<u16>)
    requires n <= 8
    ensures |w| == 2 * n
  {
    if n == 0 then [] else BitPairs(b, n - 1) + [BIT_MARK, SpaceFor(Bit(b, n - 1))]
  }

  /** The 16 entries `addByteToBuffer` appends for one byte */
  function ByteWave(b: byte): (w: seq<u16>)
    ensures |w| == 16
  {
    BitPairs(b, 8)
  }

  /** The entries for a run of bytes, in order */
  function BytesWave(s: seq<byte>): (w: seq<u16>)
    ensures |w| == 16 * |s|
  {
    if s == [] then [] else BytesWave(s[..|s| - 1]) + ByteWave(s[|s| - 1])
  }

  /** One IR frame: header, the bytes, a trailing mark and the space after it */
  function FrameWave(bytes: seq<byte>, trailer: u16): seq<u16> {
    [HDR_MARK, HDR_SPACE] + BytesWave(bytes) + [BIT_MARK, trailer]
  }

  /** What `send39BytesRawOnce` leaves in the buffer and sends: bytes 0..19
      closed by the long gap, then bytes 20..38 closed by a zero space */
  function Wave(data: Frame): (r: seq<u16>)
    ensures |r| == WAVE_LEN <= RAW_CAPACITY
    ensures r[FRAME1_LEN - 1] == GAP && r[WAVE_LEN - 1] == 0
  {
    FrameWave(data[..20], GAP) + FrameWave(data[20..], 0)
  }

  // ---------------------------------------------------------------------------
  // Layout

  lemma {:induction false} BitPairsAt(b: byte, n: nat, i: nat)
    requires n <= 8 && i < n
    ensures |BitPairs(b, n)| == 2 * n
    ensures BitPairs(b, n)[2 * i] == BIT_MARK
    ensures BitPairs(b, n)[2 * i + 1] == SpaceFor(Bit(b, i))
  {
    if i < n - 1 {
      BitPairsAt(b, n - 1, i);
    } else if n > 1 {
      BitPairsAt(b, n - 1, 0);
    }
  }

  /** Entry 2i of a byte's encoding is the bit mark and entry 2i+1 is the
      long space exactly when bit i is set */
  lemma ByteWaveAt(b: byte, i: nat)
    requires i < 8
    ensures |ByteWave(b)| == 16
    ensures ByteWave(b)[2 * i] == BIT_MARK
    ensures ByteWave(b)[2 * i + 1] == (if Bit(b, i) == 1 then ONE_SPACE else ZERO_SPACE)
  {
    BitPairsAt(b, 8, i);
  }

  /** Byte j of a run occupies entries 16j .. 16j+15 of its encoding */
  lemma {:induction false} BytesWaveAt(s: seq<byte>, j: nat, k: nat)
    requires j < |s| && k < 16
    ensures |BytesWave(s)| == 16 * |s|
    ensures BytesWave(s)[16 * j + k] == ByteWave(s[j])[k]
  {
    var init := s[..|s| - 1];
    if j < |s| - 1 {
      BytesWaveAt(init, j, k);
    }
  }

  /** Frame 1 takes 324 entries and frame 2 takes 308, 632 in all, within the
      800-entry buffer; headers and trailers sit at fixed positions */
  lemma WaveLayout(data: Frame)
    ensures |Wave(data)| == WAVE_LEN == FRAME1_LEN + FRAME2_LEN <= RAW_CAPACITY
    ensures Wave(data)[0] == HDR_MARK && Wave(data)[1] == HDR_SPACE
    ensures Wave(data)[322] == BIT_MARK && Wave(data)[323] == GAP
    ensures Wave(data)[324] == HDR_MARK && Wave(data)[325] == HDR_SPACE
    ensures Wave(data)[630] == BIT_MARK && Wave(data)[631] == 0
    ensures Wave(data)[2..322] == BytesWave(data[..20])
    ensures Wave(data)[326..630] == BytesWave(data[20..])
  {
  }

  /** Where each bit of byte j lands within one IR frame */
  lemma FrameWaveBitAt(bytes: seq<byte>, trailer: u16, j: nat, i: nat)
    requires j < |bytes| && i < 8
    ensures |FrameWave(bytes, trailer)| == 4 + 16 * |bytes|
    ensures FrameWave(bytes, trailer)[2 + 16 * j + 2 * i] == BIT_MARK
    ensures FrameWave(bytes, trailer)[3 + 16 * j + 2 * i] == SpaceFor(Bit(bytes[j], i))
  {
    ByteWaveAt(bytes[j], i);
    BytesWaveAt(bytes, j, 2 * i);
    BytesWaveAt(bytes, j, 2 * i + 1);
  }

  /** Where each bit of each byte lands in the waveform */
  lemma WaveBitAt(data: Frame, j: nat, i: nat)
    requires j < FRAME_LEN && i < 8
    ensures |Wave(data)| == WAVE_LEN
    ensures var p := if j < 20 then 2 + 16 * j + 2 * i else 326 + 16 * (j - 20) + 2 * i;
            Wave(data)[p] == BIT_MARK && Wave(data)[p + 1] == SpaceFor(Bit(data[j], i))
  {
    var w1, w2 := FrameWave(data[..20], GAP), FrameWave(data[20..], 0);
    assert Wave(data) == w1 + w2;
    if j < 20 {
      FrameWaveBitAt(data[..20], GAP, j, i);
      assert data[..20][j] == data[j];
    } else {
      FrameWaveBitAt(data[20..], 0, j - 20, i);
      assert data[20..][j - 20] == data[j];
    }
  }


  // ---------------------------------------------------------------------------
  // Reading the bytes back

  /** The value whose bits are read from the spaces of the given pairs:
      bit i is set when entry 2i+1 is the long space */
  function DecodePairs(w: seq<u16>): nat
    requires |w| % 2 == 0
  {
    if w == [] then 0
    else DecodePairs(w[..|w| - 2]) + (if w[|w| - 1] == ONE_SPACE then Pow2(|w| / 2 - 1) else 0)
  }

  /** The bytes read back from a run of 16-entry groups, the last group
      giving the last byte (entries short of a whole group are ignored) */
  function DecodeBytes(w: seq<u16>): seq<int> {
    if |w| < 16 then [] else DecodeBytes(w[..|w| - 16]) + [DecodePairs(w[|w| - 16..])]
  }

  /** The 39 bytes read back from a full two-frame waveform */
  function DecodeWave(w: seq<u16>): seq<int>
    requires |w| == WAVE_LEN
  {
    DecodeBytes(w[2..322]) + DecodeBytes(w[326..630])
  }

  lemma DivModUnique(x: int, d: int, q: int, r: int)
    requires d > 0 && x == q * d + r && 0 <= r < d
    ensures x % d == r && x / d == q
  {
    var q', r' := x / d, x % d;
    assert x == q' * d + r';
    assert (q - q') * d == r' - r;
    if q - q' >= 1 {
      assert false;
    } else if q - q' <= -1 {
      assert false;
    }
  }

  lemma MulRegroup(hi: int, lo: int, p: int)
    ensures (2 * hi + lo) * p == hi * (2 * p) + lo * p
  {
  }

  /** Taking one more low bit: x mod 2p adds bit (x / p) mod 2, weighted p */
  lemma ModDouble(x: nat, p: nat)
    requires p > 0
    ensures x % (2 * p) == x % p + ((x / p) % 2) * p
  {
    var q, r := x / p, x % p;
    var hi, lo := q / 2, q % 2;
    assert x == q * p + r;
    assert q == 2 * hi + lo;
    MulRegroup(hi, lo, p);
    var loP := lo * p;
    assert loP == 0 || loP == p;
    assert x == hi * (2 * p) + (loP + r);
    DivModUnique(x, 2 * p, hi, loP + r);
  }

  lemma Pow2Of8()
    ensures Pow2(8) == 0x100
  {
    assert Pow2(2) == 4;
    assert Pow2(4) == 16;
    assert Pow2(6) == 64;
  }

  /** The low n bits are the low n - 1 bits plus bit n - 1 at weight 2^(n-1) */
  lemma LowBitsStep(b: byte, n: nat)
    requires n > 0
    ensures b % Pow2(n) == b % Pow2(n - 1) + (if Bit(b, n - 1) == 1 then Pow2(n - 1) else 0)
  {
    ModDouble(b, Pow2(n - 1));
  }

  /** Reading pair n of a byte's encoding adds bit n - 1 at weight 2^(n-1) */
  lemma DecodePairsStep(b: byte, n: nat)
    requires 0 < n <= 8
    ensures DecodePairs(BitPairs(b, n)) == DecodePairs(BitPairs(b, n - 1)) + (if Bit(b, n - 1) == 1 then Pow2(n - 1) else 0)
  {
    var w := BitPairs(b, n);
    assert w[..|w| - 2] == BitPairs(b, n - 1);
    assert w[|w| - 1] == SpaceFor(Bit(b, n - 1));
    assert |w| / 2 - 1 == n - 1;
  }

  /** Reading the first n pairs gives the low n bits */
  lemma {:induction false} DecodeBitPairs(b: byte, n: nat)
    requires n <= 8
    ensures DecodePairs(BitPairs(b, n)) == b % Pow2(n)
  {
    if n == 0 {
      assert b % Pow2(0) == 0;
    } else {
      DecodePairsStep(b, n);
      DecodeBitPairs(b, n - 1);
      LowBitsStep(b, n);
    }
  }

  /** A byte is recoverable from the spaces `addByteToBuffer` appends */
  lemma DecodeByteWave(b: byte)
    ensures DecodePairs(ByteWave(b)) == b
  {
    DecodeBitPairs(b, 8);
    Pow2Of8();
  }

  /** Decoding one more 16-entry group appends one byte */
  lemma DecodeBytesSnoc(a: seq<u16>, b: seq<u16>)
    requires |b| == 16
    ensures DecodeBytes(a + b) == DecodeBytes(a) + [DecodePairs(b)]
  {
    var w := a + b;
    assert w[..|w| - 16] == a;
    assert w[|w| - 16..] == b;
  }

  lemma {:induction false} DecodeBytesWave(s: seq<byte>)
    ensures DecodeBytes(BytesWave(s)) == s
  {
    if s != [] {
      var init, last := s[..|s| - 1], s[|s| - 1];
      calc {
        DecodeBytes(BytesWave(s));
        { DecodeBytesSnoc(BytesWave(init), ByteWave(last)); }
        DecodeBytes(BytesWave(init)) + [DecodePairs(ByteWave(last))];
        { DecodeBytesWave(init); DecodeByteWave(last); }
        init + [last];
        s;
      }
    }
  }


  /** The whole frame is recoverable from its waveform */
  lemma DecodeWaveRoundTrip(data: Frame)
    ensures |Wave(data)| == WAVE_LEN
    ensures DecodeWave(Wave(data)) == data
  {
    WaveLayout(data);
    DecodeBytesWave(data[..20]);
    DecodeBytesWave(data[20..]);
    assert data[..20] + data[20..] == data;
  }

  // ---------------------------------------------------------------------------
  // The static pulse buffer

  /** `rawBuffer` and its write cursor `rawIdx` */
  class RawBuffer {
    const buf: array<u16>
    var idx: int

    ghost predicate Valid()
      reads this
    {
      buf.Length == RAW_CAPACITY && 0 <= idx <= buf.Length
    }

    /** The entries written since the last reset */
    ghost function Contents(): seq<u16>
      reads this, buf
      requires Valid()
    {
      buf[..idx]
    }

    constructor ()
      ensures Valid() && fresh(buf) && idx == 0
    {
      buf := new u16[RAW_CAPACITY];
      idx := 0;
    }

    /** Write a mark and a space at the cursor and advance it past both */
    method PutPair(mark: u16, space: u16)
      requires Valid() && idx + 2 <= buf.Length
      modifies this, buf
      ensures Valid() && idx == old(idx) + 2
      ensures Contents() == old(Contents()) + [mark, space]
    {
      buf[idx] := mark;
      buf[idx + 1] := space;
      idx := idx + 2;
    }

    /** `addByteToBuffer`: appends the 16 entries of one byte, LSB first */
    method AddByte(b: byte)
      requires Valid() && idx + 16 <= buf.Length
      modifies this, buf
      ensures Valid() && idx == old(idx) + 16
      ensures Contents() == old(Contents()) + ByteWave(b)
    {
      for i := 0 to 8
        invariant Valid() && idx == old(idx) + 2 * i
        invariant Contents() == old(Contents()) + BitPairs(b, i)
      {
        PutPair(BIT_MARK, if (b / Pow2(i)) % 2 == 1 then ONE_SPACE else ZERO_SPACE);
      }
    }

    /** The `for` loops of `send39BytesRawOnce`: `addByteToBuffer` for each
        byte of a run */
    method AddBytes(s: seq<byte>)
      requires Valid() && idx + 16 * |s| <= buf.Length
      modifies this, buf
      ensures Valid() && idx == old(idx) + 16 * |s|
      ensures Contents() == old(Contents()) + BytesWave(s)
    {
      for i := 0 to |s|
        invariant Valid() && idx == old(idx) + 16 * i
        invariant Contents() == old(Contents()) + BytesWave(s[..i])
      {
        AddByte(s[i]);
        assert s[..i + 1][..i] == s[..i];
      }
      assert s[..|s|] == s;
    }

    /** Header, the bytes of a run, trailing mark and the given space */
    method AddFrame(bytes: seq<byte>, trailer: u16)
      requires Valid() && idx + 4 + 16 * |bytes| <= buf.Length
      modifies this, buf
      ensures Valid() && idx == old(idx) + 4 + 16 * |bytes|
      ensures Contents() == old(Contents()) + FrameWave(bytes, trailer)
    {
      PutPair(HDR_MARK, HDR_SPACE);
      AddBytes(bytes);
      PutPair(BIT_MARK, trailer);
    }

    /** The buffer-filling part of `send39BytesRawOnce`: reset the cursor,
        then frame 1 (bytes 0..19, closed by the gap) and frame 2 (bytes
        20..38, closed by a zero space) */
    method Encode(data: Frame)
      requires Valid()
      modifies this, buf
      ensures Valid() && idx == WAVE_LEN
      ensures Contents() == Wave(data)
    {
      idx := 0;
      assert Contents() == [];
      AddFrame(data[..20], GAP);
      assert Contents() == FrameWave(data[..20], GAP);
      AddFrame(data[20..], 0);
    }
  }
}
