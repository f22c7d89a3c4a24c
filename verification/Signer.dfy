/** Fee-payer-locked signing of a serialized transaction (services/hot-executor/src/signer.rs). */
module Signer {
  import opened Wrappers
  import opened Primitives
  import opened Shortvec

  datatype Signed = Signed(signedTxBase64: string, signatureB58: string, signerAddress: string)

  function Code(e: SignError): string {
    match e
    case Truncated => "tx_truncated"
    case SigCountInvalid => "tx_sig_count_invalid"
    case NoAccountKeys => "tx_no_account_keys"
    case FeePayerMismatch => "fee_payer_mismatch_refusing_to_sign"
    case BadSeed => "key_length_invalid"
    case CompactU16Overflow => "compact_u16_overflow"
    case BadBase64 => "tx_base64_invalid"
  }

  /** A caller can tell the refusals apart by their codes. */
  lemma CodesAreDistinct(a: SignError, b: SignError)
    ensures Code(a) == Code(b) <==> a == b
  {
    if Code(a) == Code(b) {
      assert |Code(a)| == |Code(b)| && Code(a)[0] == Code(b)[0];
    }
  }

  // ---------- where things are ----------

  /** Slot 0 and the message by their offsets in the transaction, key 0 by its offset in the message. */
  datatype Layout = Layout(sigStart: nat, msgStart: nat, keysStart: nat) {
    predicate Fits(tx: Bytes) {
      sigStart + 64 <= msgStart && keysStart > 0 && msgStart + keysStart + 32 <= |tx|
    }
  }

  /** Where key 0 stands in a message: past the version byte, if any, the header and the key count. */
  function KeyOffset(message: Bytes): (r: Result<nat, SignError>)
    requires message != []
    ensures r.Ok? ==> 0 < r.value && r.value + 32 <= |message|
  {
    var (numKeys, keysStart) :- Decode(message, if message[0] >= 128 then 4 else 3);
    if numKeys < 1 then Err(NoAccountKeys)
    else if keysStart + 32 > |message| then Err(Truncated)
    else Ok(keysStart)
  }

  function Locate(tx: Bytes): (r: Result<Layout, SignError>)
    ensures r.Ok? ==> r.value.Fits(tx)
  {
    var (numSigs, sigStart) :- Decode(tx, 0);
    if numSigs < 1 || numSigs > 16 then Err(SigCountInvalid) else
    var msgStart := sigStart + numSigs * 64;
    if msgStart >= |tx| then Err(Truncated) else
    var keysStart :- KeyOffset(tx[msgStart..]);
    Ok(Layout(sigStart, msgStart, keysStart))
  }

  function MessageOf(tx: Bytes, layout: Layout): Bytes
    requires layout.Fits(tx)
  {
    tx[layout.msgStart..]
  }

  function FeePayer(tx: Bytes, layout: Layout): Bytes
    requires layout.Fits(tx)
  {
    MessageOf(tx, layout)[layout.keysStart..layout.keysStart + 32]
  }

  function Slot(tx: Bytes, layout: Layout): Bytes
    requires layout.Fits(tx)
  {
    tx[layout.sigStart..layout.sigStart + 64]
  }

  /** `tx` with 64 bytes from `at` on replaced. */
  function Overwrite(tx: Bytes, at: nat, sig: Bytes): Bytes
    requires at + 64 <= |tx|
  {
    tx[..at] + sig + tx[at + 64..]
  }

  // ---------- signing, as a function of the bytes ----------

  function SignBytes(lib: LawfulLibrary, tx: Bytes, seed: Bytes): Result<Bytes, SignError> {
    if |seed| != 32 then Err(BadSeed) else
    var layout :- Locate(tx);
    if FeePayer(tx, layout) != lib.pubKey(seed) then Err(FeePayerMismatch)
    else Ok(Overwrite(tx, layout.sigStart, lib.sign(seed, MessageOf(tx, layout))))
  }

  /** The whole operation, base64 to base64. */
  function SignText(lib: LawfulLibrary, txBase64: string, seed: Bytes): Result<Signed, SignError> {
    if |seed| != 32 then Err(BadSeed) else
    match lib.b64Decode(txBase64)
    case None => Err(BadBase64)
    case Some(tx) =>
      var bytes :- SignBytes(lib, tx, seed);
      var layout :- Locate(tx);
      Ok(Signed(lib.b64Encode(bytes),
                lib.b58Encode(lib.sign(seed, MessageOf(tx, layout))),
                lib.b58Encode(lib.pubKey(seed))))
  }

  /** Skip the version byte, if any, and the header, and read the key count. */
  method FindKeys(message: Bytes) returns (r: Result<nat, SignError>)
    requires message != []
    ensures r == KeyOffset(message)
  {
    var mo := 0;
    if message[0] >= 128 {
      mo := 1;
    }
    mo := mo + 3;
    var keyCount :- ReadCompactU16(message, mo);
    var (numKeys, keysStart) := keyCount;
    if numKeys < 1 {
      return Err(NoAccountKeys);
    }
    if keysStart + 32 > |message| {
      return Err(Truncated);
    }
    return Ok(keysStart);
  }

  /** The in-place half: parse the buffer, check the fee payer, overwrite slot 0.
      A refused buffer is left as it was. */
  method SignInPlace(lib: LawfulLibrary, tx: array<byte>, seed: Bytes) returns (r: Result<Bytes, SignError>)
    modifies tx
    ensures r.Err? ==> tx[..] == old(tx[..]) && SignBytes(lib, old(tx[..]), seed) == Err(r.error)
    ensures r.Ok? ==> SignBytes(lib, old(tx[..]), seed) == Ok(tx[..])
    ensures r.Ok? ==> |seed| == 32 && Locate(old(tx[..])).Ok? &&
                      r.value == lib.sign(seed, MessageOf(old(tx[..]), Locate(old(tx[..])).value))
  {
    if |seed| != 32 {
      return Err(BadSeed);
    }
    ghost var before := tx[..];
    var count :- ReadCompactU16(tx[..], 0);
    var (numSigs, sigStart) := count;
    if numSigs < 1 || numSigs > 16 {
      return Err(SigCountInvalid);
    }
    var msgStart := sigStart + numSigs * 64;
    if msgStart >= tx.Length {
      return Err(Truncated);
    }
    var message := tx[msgStart..];
    assert message == before[msgStart..];
    var keysStart :- FindKeys(message);
    var feePayer := message[keysStart..keysStart + 32];
    ghost var layout := Layout(sigStart, msgStart, keysStart);
    assert Locate(before) == Ok(layout);
    assert feePayer == FeePayer(before, layout);
    var publicKey := lib.pubKey(seed);
    if feePayer != publicKey {
      return Err(FeePayerMismatch);
    }
    var signature := lib.sign(seed, message);
    CopyFromSlice(tx, sigStart, signature);
    return Ok(signature);
  }

  /** Copies a signature over the 64 bytes from `at` on. */
  method CopyFromSlice(tx: array<byte>, at: nat, sig: Bytes)
    requires at + 64 <= tx.Length && |sig| == 64
    modifies tx
    ensures tx[..] == Overwrite(old(tx[..]), at, sig)
  {
    forall k | 0 <= k < 64 {
      tx[at + k] := sig[k];
    }
  }

  method SignSerializedTransaction(lib: LawfulLibrary, txBase64: string, seed: Bytes)
    returns (r: Result<Signed, SignError>)
    ensures r == SignText(lib, txBase64, seed)
  {
    if |seed| != 32 {
      return Err(BadSeed);
    }
    var decoded := lib.b64Decode(txBase64);
    if decoded.None? {
      return Err(BadBase64);
    }
    var bytes := decoded.value;
    var tx := new byte[|bytes|](i requires 0 <= i < |bytes| => bytes[i]);
    assert tx[..] == bytes;
    var signature :- SignInPlace(lib, tx, seed);
    return Ok(Signed(lib.b64Encode(tx[..]), lib.b58Encode(signature), lib.b58Encode(lib.pubKey(seed))));
  }

  // ---------- main results on arbitrary byte strings ----------

  lemma LocateStable(tx: Bytes, tx': Bytes, layout: Layout)
    requires Locate(tx) == Ok(layout) && |tx'| == |tx|
    requires tx'[..layout.sigStart] == tx[..layout.sigStart]
    requires tx'[layout.sigStart + 64..] == tx[layout.sigStart + 64..]
    ensures Locate(tx') == Ok(layout)
    ensures MessageOf(tx', layout) == MessageOf(tx, layout) && FeePayer(tx', layout) == FeePayer(tx, layout)
  {
    var at := layout.sigStart;
    var n := Decode(tx, 0).value.0;
    assert tx[0..at] == tx[..at] && tx'[0..at] == tx'[..at];
    DecodeLocal(tx, tx', 0, n, at);
    var skip := layout.msgStart - at - 64;
    assert tx'[layout.msgStart..] == tx'[at + 64..][skip..];
    assert tx[layout.msgStart..] == tx[at + 64..][skip..];
  }

  /** Frame and validity: only slot 0 changes, the output parses the same way, and its slot 0
      holds a signature of its own message that verifies under its own fee payer. */
  lemma SignedOutputVerifies(lib: LawfulLibrary, tx: Bytes, seed: Bytes, out: Bytes)
    requires SignBytes(lib, tx, seed) == Ok(out)
    ensures Locate(tx).Ok? && Locate(out) == Locate(tx)
    ensures var layout := Locate(tx).value;
      && |out| == |tx|
      && (forall i :: 0 <= i < |tx| && !(layout.sigStart <= i < layout.sigStart + 64) ==> out[i] == tx[i])
      && MessageOf(out, layout) == MessageOf(tx, layout)
      && FeePayer(out, layout) == lib.pubKey(seed)
      && lib.verify(FeePayer(out, layout), MessageOf(out, layout), Slot(out, layout))
  {
    var layout := Locate(tx).value;
    var sig := lib.sign(seed, MessageOf(tx, layout));
    assert |sig| == 64;
    assert out == Overwrite(tx, layout.sigStart, sig);
    assert out[..layout.sigStart] == tx[..layout.sigStart];
    assert out[layout.sigStart + 64..] == tx[layout.sigStart + 64..];
    assert Slot(out, layout) == sig;
    LocateStable(tx, out, layout);
  }

  lemma OverwriteTwice(tx: Bytes, at: nat, first: Bytes, second: Bytes)
    requires at + 64 <= |tx| && |first| == 64 && |second| == 64
    ensures Overwrite(Overwrite(tx, at, first), at, second) == Overwrite(tx, at, second)
  {
    var out := Overwrite(tx, at, first);
    assert out[..at] == tx[..at] && out[at + 64..] == tx[at + 64..];
  }

  /** Signing is idempotent. */
  lemma SignIdempotent(lib: LawfulLibrary, tx: Bytes, seed: Bytes)
    requires SignBytes(lib, tx, seed).Ok?
    ensures SignBytes(lib, SignBytes(lib, tx, seed).value, seed) == SignBytes(lib, tx, seed)
  {
    hide Locate;
    var out := SignBytes(lib, tx, seed).value;
    SignedOutputVerifies(lib, tx, seed, out);
    var layout := Locate(tx).value;
    var sig := lib.sign(seed, MessageOf(tx, layout));
    assert |sig| == 64;
    OverwriteTwice(tx, layout.sigStart, sig, sig);
  }

  /** The parse does not look into slot 0, whatever its result. */
  lemma LocateIgnoresSlot(tx: Bytes, tx': Bytes, count: nat, at: nat)
    requires Decode(tx, 0) == Ok((count, at)) && at + 64 <= |tx| == |tx'|
    requires tx'[..at] == tx[..at] && tx'[at + 64..] == tx[at + 64..]
    ensures Locate(tx') == Locate(tx)
  {
    assert tx[0..at] == tx[..at] && tx'[0..at] == tx'[..at];
    DecodeLocal(tx, tx', 0, count, at);
    var skip := 64 * count - 64;
    if 1 <= count && at + 64 * count < |tx| {
      assert tx'[at + 64 * count..] == tx'[at + 64..][skip..];
      assert tx[at + 64 * count..] == tx[at + 64..][skip..];
    }
  }

  /** The old content of slot 0 is irrelevant, to success and to every error alike: the first 64 bytes
      after a readable signature count, whatever the count and whatever follows. */
  lemma SignIgnoresOldSlot(lib: LawfulLibrary, tx: Bytes, old64: Bytes, seed: Bytes)
    requires Decode(tx, 0).Ok? && Decode(tx, 0).value.1 + 64 <= |tx| && |old64| == 64
    ensures SignBytes(lib, Overwrite(tx, Decode(tx, 0).value.1, old64), seed) == SignBytes(lib, tx, seed)
  {
    hide Decode, KeyOffset;
    var (count, at) := Decode(tx, 0).value;
    var tx' := Overwrite(tx, at, old64);
    assert tx'[..at] == tx[..at] && tx'[at + 64..] == tx[at + 64..];
    LocateIgnoresSlot(tx, tx', count, at);
    if |seed| == 32 && Locate(tx).Ok? {
      var layout := Locate(tx).value;
      LocateStable(tx, tx', layout);
      OverwriteTwice(tx, at, old64, lib.sign(seed, MessageOf(tx, layout)));
    }
  }

  /** The lock: a transaction that one seed can sign is refused, with the mismatch error and
      nothing else, by every well-sized seed of another key. */
  lemma OnlyTheFeePayerSigns(lib: LawfulLibrary, tx: Bytes, seed: Bytes, other: Bytes)
    requires SignBytes(lib, tx, seed).Ok? && |other| == 32
    ensures SignBytes(lib, tx, other).Ok? <==> lib.pubKey(other) == lib.pubKey(seed)
    ensures SignBytes(lib, tx, other).Err? ==> SignBytes(lib, tx, other) == Err(FeePayerMismatch)
  {
  }
}
