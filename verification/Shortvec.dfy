/** Solana's shortvec ("compact-u16") length prefix, as services/hot-executor/src/signer.rs reads it. */
module Shortvec {
  import opened Wrappers
  import opened Primitives

  datatype SignError =
    | Truncated
    | SigCountInvalid
    | NoAccountKeys
    | FeePayerMismatch
    | BadSeed
    | CompactU16Overflow
    | BadBase64

  // ---------- what a length prefix is ----------

  /** The seven payload bits of a byte. */
  function Bits(b: byte): (r: nat)
    ensures r < 128 && (r == b as nat || r + 128 == b as nat)
  {
    (b % 128) as nat
  }

  /** One to three bytes; the top bit is set on every byte but the last. */
  predicate IsGroup(g: Bytes) {
    && 1 <= |g| <= 3
    && g[|g| - 1] < 128
    && forall i :: 0 <= i < |g| - 1 ==> g[i] >= 128
  }

  /** The number a group denotes: seven bits a byte, least significant byte first. */
  function Value(g: Bytes): nat {
    if g == [] then 0 else Bits(g[0]) + 128 * Value(g[1..])
  }

  /** `next` ends a group that starts at `offset` and denotes `value`. */
  predicate GroupAt(buf: Bytes, offset: nat, value: nat, next: nat) {
    && offset < next <= |buf|
    && IsGroup(buf[offset..next])
    && value == Value(buf[offset..next])
  }

  /** `n` bytes from `offset` on are present and all ask for a further byte. */
  predicate Continues(buf: Bytes, offset: nat, n: nat) {
    offset + n <= |buf| && forall i :: offset <= i < offset + n ==> buf[i] >= 128
  }

  // ---------- reading one ----------

  function Pow2(n: nat): nat {
    if n == 0 then 1 else 2 * Pow2(n - 1)
  }

  /** The executor's decoder as a function of the bytes. */
  function Decode(buf: Bytes, offset: nat): Result<(nat, nat), SignError> {
    if offset >= |buf| then Err(Truncated)
    else if buf[offset] < 128 then Ok((buf[offset] as nat, offset + 1))
    else if offset + 1 >= |buf| then Err(Truncated)
    else if buf[offset + 1] < 128 then
      Ok((Bits(buf[offset]) + 128 * buf[offset + 1] as nat, offset + 2))
    else if offset + 2 >= |buf| then Err(Truncated)
    else if buf[offset + 2] < 128 then
      Ok((Bits(buf[offset]) + 128 * Bits(buf[offset + 1]) + 16384 * buf[offset + 2] as nat,
          offset + 3))
    else Err(CompactU16Overflow)
  }

  /** The decoder's loop. Seven fresh bits are placed above the `shift` bits read so far, so the
      source's `|=` is a sum (see `OrIsSum`). */
  method ReadCompactU16(buf: Bytes, offset: nat) returns (r: Result<(nat, nat), SignError>)
    ensures r == Decode(buf, offset)
    ensures r.Ok? ==> GroupAt(buf, offset, r.value.0, r.value.1)
  {
    hide GroupAt;
    var value: nat, shift: nat, o := 0, 0, offset;
    assert Pow2(0) == 1 && Pow2(7) == 128 && Pow2(14) == 16384;
    while true
      invariant shift == 0 || shift == 7 || shift == 14
      invariant o == offset + shift / 7
      invariant shift > 0 ==> Continues(buf, offset, shift / 7)
      invariant value == if shift == 0 then 0
                         else if shift == 7 then Bits(buf[offset])
                         else Bits(buf[offset]) + 128 * Bits(buf[offset + 1])
      decreases 21 - shift
    {
      if o >= |buf| {
        return Err(Truncated);
      }
      var b := buf[o];
      o := o + 1;
      value := value + Bits(b) * Pow2(shift);
      if b < 128 {
        break;
      }
      shift := shift + 7;
      if shift > 14 {
        return Err(CompactU16Overflow);
      }
    }
    DecodeGroup(buf, offset);
    return Ok((value, o));
  }

  /** Adding seven bits above the bits already read is the same as or-ing them in. */
  lemma OrIsSum(value: bv32, b: bv32)
    ensures 0 | (b & 0x7f) == b & 0x7f
    ensures value < 128 ==> value | ((b & 0x7f) << 7) == value + ((b & 0x7f) << 7)
    ensures value < 16384 ==> value | ((b & 0x7f) << 14) == value + ((b & 0x7f) << 14)
  {
  }

  lemma ValueUnrolled(g: Bytes)
    requires IsGroup(g)
    ensures |g| == 1 ==> Value(g) == g[0] as nat
    ensures |g| == 2 ==> Value(g) == Bits(g[0]) + 128 * g[1] as nat
    ensures |g| == 3 ==> Value(g) == Bits(g[0]) + 128 * Bits(g[1]) + 16384 * g[2] as nat
  {
    if |g| == 2 {
      assert g[1..] == [g[1]];
    } else if |g| == 3 {
      assert g[1..] == [g[1], g[2]] && g[1..][1..] == [g[2]];
    }
  }

  lemma DecodeGroup(buf: Bytes, offset: nat)
    ensures Decode(buf, offset).Ok? ==>
      GroupAt(buf, offset, Decode(buf, offset).value.0, Decode(buf, offset).value.1)
  {
    var d := Decode(buf, offset);
    if d.Ok? {
      var g := buf[offset..d.value.1];
      assert IsGroup(g);
      ValueUnrolled(g);
    }
  }

  // ---------- main results ----------

  /** Decoding finds exactly the groups: soundness and completeness on every buffer and offset. */
  lemma DecodeIff(buf: Bytes, offset: nat, value: nat, next: nat)
    ensures Decode(buf, offset) == Ok((value, next)) <==> GroupAt(buf, offset, value, next)
  {
    DecodeGroup(buf, offset);
    if GroupAt(buf, offset, value, next) {
      var g := buf[offset..next];
      ValueUnrolled(g);
      assert forall i :: 0 <= i < |g| ==> g[i] == buf[offset + i];
    }
  }

  /** The buffer ends before three bytes, while asking for a further one. */
  predicate RunsOut(buf: Bytes, offset: nat) {
    offset >= |buf| || (|buf| - offset < 3 && Continues(buf, offset, |buf| - offset))
  }

  /** The two refusals: three bytes that all ask for more, or a buffer that ends while asking. */
  lemma DecodeErrorsIff(buf: Bytes, offset: nat)
    ensures Decode(buf, offset) == Err(CompactU16Overflow) <==> Continues(buf, offset, 3)
    ensures Decode(buf, offset) == Err(Truncated) <==> RunsOut(buf, offset)
    ensures Decode(buf, offset).Err? ==> Decode(buf, offset).error in {Truncated, CompactU16Overflow}
  {
    if offset + 1 < |buf| && buf[offset + 1] < 128 {
      assert !Continues(buf, offset, |buf| - offset);
    }
  }

  /** The shortest encoding of a length; Solana writes lengths below 2^16, this covers all 21 bits. */
  function Encode(v: nat): Bytes
    requires v < 0x20_0000
  {
    if v < 128 then [v as byte]
    else if v < 16384 then [(128 + v % 128) as byte, (v / 128) as byte]
    else [(128 + v % 128) as byte, (128 + v / 128 % 128) as byte, (v / 16384) as byte]
  }

  lemma EncodeIsGroup(v: nat)
    requires v < 0x20_0000
    ensures IsGroup(Encode(v)) && Value(Encode(v)) == v
  {
    ValueUnrolled(Encode(v));
    if v >= 16384 {
      assert v / 128 / 128 == v / 16384;
    }
  }

  /** Round trip: an encoded length is read back wherever it stands and whatever surrounds it. */
  lemma DecodeEncode(before: Bytes, v: nat, after: Bytes)
    requires v < 0x20_0000
    ensures Decode(before + Encode(v) + after, |before|) == Ok((v, |before| + |Encode(v)|))
  {
    EncodeIsGroup(v);
    var buf := before + Encode(v) + after;
    assert buf[|before|..|before| + |Encode(v)|] == Encode(v);
    DecodeIff(buf, |before|, v, |before| + |Encode(v)|);
  }

  /** The value depends on the consumed bytes alone: buffers that agree on them decode alike. */
  lemma DecodeLocal(a: Bytes, b: Bytes, offset: nat, value: nat, next: nat)
    requires Decode(a, offset) == Ok((value, next))
    requires next <= |b| && a[offset..next] == b[offset..next]
    ensures Decode(b, offset) == Ok((value, next))
  {
    DecodeIff(a, offset, value, next);
    DecodeIff(b, offset, value, next);
  }

  /** The decoder is named for 16 bits but accepts 21; it leaves 16 bits exactly when a third
      byte is 4 or more. */
  lemma BeyondU16Iff(g: Bytes)
    requires IsGroup(g)
    ensures Value(g) < 0x20_0000
    ensures Value(g) >= 0x1_0000 <==> |g| == 3 && g[2] >= 4
  {
    ValueUnrolled(g);
  }

  lemma SplitDigit(v: nat, low: nat, high: nat)
    requires v == low + 128 * high && low < 128
    ensures v / 128 == high && v % 128 == low
  {
  }

  lemma EncodeTwo(low: nat, high: nat)
    requires low < 128 && 0 < high < 128
    ensures Encode(low + 128 * high) == [(128 + low) as byte, high as byte]
  {
    SplitDigit(low + 128 * high, low, high);
  }

  lemma EncodeThree(low: nat, mid: nat, high: nat)
    requires low < 128 && mid < 128 && 0 < high < 128
    ensures Encode(low + 128 * mid + 16384 * high) == [(128 + low) as byte, (128 + mid) as byte, high as byte]
  {
    var v := low + 128 * mid + 16384 * high;
    SplitDigit(v, low, mid + 128 * high);
    SplitDigit(mid + 128 * high, mid, high);
    assert v / 16384 == high;
  }

  lemma PaddedIsShorter(g: Bytes)
    requires IsGroup(g) && |g| > 1 && g[|g| - 1] == 0
    ensures Value(g) < 16384 && |Encode(Value(g))| < |g|
  {
    ValueUnrolled(g);
  }

  lemma UnpaddedTwo(g: Bytes)
    requires IsGroup(g) && |g| == 2 && g[1] != 0
    ensures Value(g) < 0x20_0000 && Encode(Value(g)) == g
  {
    ValueUnrolled(g);
    EncodeTwo(Bits(g[0]), g[1] as nat);
    assert g == [g[0], g[1]];
  }

  lemma UnpaddedThree(g: Bytes)
    requires IsGroup(g) && |g| == 3 && g[2] != 0
    ensures Value(g) < 0x20_0000 && Encode(Value(g)) == g
  {
    ValueUnrolled(g);
    EncodeThree(Bits(g[0]), Bits(g[1]), g[2] as nat);
    assert g == [g[0], g[1], g[2]];
  }

  /** The decoder does not insist on the shortest form. A group is the encoder's own output
      exactly when it does not end in a padding zero byte. */
  lemma CanonicalIff(g: Bytes)
    requires IsGroup(g)
    ensures Value(g) < 0x20_0000
    ensures Encode(Value(g)) == g <==> |g| == 1 || g[|g| - 1] != 0
  {
    if |g| == 1 {
      ValueUnrolled(g);
    } else if g[|g| - 1] == 0 {
      PaddedIsShorter(g);
    } else if |g| == 2 {
      UnpaddedTwo(g);
    } else {
      UnpaddedThree(g);
    }
  }

  /** Both at once: a padded zero, and a length past 16 bits, are accepted. */
  lemma AcceptsMoreThanU16()
    ensures Decode([0x80, 0x00], 0) == Ok((0, 2)) && Encode(0) != [0x80, 0x00]
    ensures Decode([0xff, 0xff, 0x7f], 0) == Ok((0x1f_ffff, 3))
  {
    assert Bits(0x80) == 0 && Bits(0xff) == 127;
  }
}
