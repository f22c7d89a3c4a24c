/** The transaction format itself, independent of the signer's offsets, and what the signer does
    to it. */
module Wire {
  import opened Wrappers
  import opened Primitives
  import opened Shortvec
  import opened Signer

  // ---------- serialising ----------

  datatype Message = Message(version: Option<byte>, header: Bytes, keys: seq<Bytes>, rest: Bytes) {
    predicate WellFormed() {
      && |header| == 3
      && (if version.Some? then version.value >= 128 else header[0] < 128)
      && 1 <= |keys| < 0x20_0000
      && forall i :: 0 <= i < |keys| ==> |keys[i]| == 32
    }

    function Prefix(): Bytes {
      (if version.Some? then [version.value] else []) + header
    }

    function Serialize(): Bytes
      requires WellFormed()
    {
      Prefix() + Encode(|keys|) + (Flatten(keys) + rest)
    }
  }

  datatype Transaction = Transaction(slots: seq<Bytes>, message: Message) {
    predicate WellFormed() {
      && 1 <= |slots| <= 16
      && (forall i :: 0 <= i < |slots| ==> |slots[i]| == 64)
      && message.WellFormed()
    }

    function Serialize(): Bytes
      requires WellFormed()
    {
      Encode(|slots|) + Flatten(slots) + message.Serialize()
    }
  }

  function Flatten(parts: seq<Bytes>): Bytes {
    if parts == [] then [] else parts[0] + Flatten(parts[1..])
  }

  lemma {:induction false} FlattenLength(parts: seq<Bytes>, n: nat)
    requires forall i :: 0 <= i < |parts| ==> |parts[i]| == n
    ensures |Flatten(parts)| == |parts| * n
  {
    if parts != [] {
      FlattenLength(parts[1..], n);
      assert (|parts| - 1) * n + n == |parts| * n;
    }
  }

  // ---------- the signer on serialised transactions ----------

  /** The middle of three pieces is where the first one's length says. */
  lemma Middle(a: Bytes, b: Bytes, c: Bytes)
    ensures (a + b + c)[..|a|] == a && (a + b + c)[|a|..|a| + |b|] == b && (a + b + c)[|a| + |b|..] == c
  {
  }

  lemma KeyOffsetSerialized(m: Message)
    requires m.WellFormed()
    ensures var message := m.Serialize();
      && message != []
      && KeyOffset(message).Ok?
      && message[KeyOffset(message).value..KeyOffset(message).value + 32] == m.keys[0]
  {
    var message := m.Serialize();
    FlattenLength(m.keys, 32);
    DecodeEncode(m.Prefix(), |m.keys|, Flatten(m.keys) + m.rest);
    var keysStart := |m.Prefix()| + |Encode(|m.keys|)|;
    assert message[0] == m.Prefix()[0];
    Middle(m.Prefix() + Encode(|m.keys|), m.keys[0], Flatten(m.keys[1..]) + m.rest);
    assert message == m.Prefix() + Encode(|m.keys|) + m.keys[0] + (Flatten(m.keys[1..]) + m.rest);
  }

  /** Past a count in range and its slots, the message decides where the keys are. */
  lemma LocateJoined(count: Bytes, slots: Bytes, message: Bytes)
    requires IsGroup(count) && 1 <= Value(count) <= 16 && |slots| == 64 * Value(count) && message != []
    ensures var tx := count + slots + message;
      && tx[|count| + |slots|..] == message
      && Locate(tx) == match KeyOffset(message)
        case Err(e) => Err(e)
        case Ok(k) => Ok(Layout(|count|, |count| + |slots|, k))
  {
    hide KeyOffset, Value, Decode;
    var tx := count + slots + message;
    Middle(count, slots, message);
    assert tx[0..|count|] == tx[..|count|];
    DecodeIff(tx, 0, Value(count), |count|);
  }

  lemma LocateSerialized(t: Transaction)
    requires t.WellFormed()
    ensures var tx := t.Serialize();
      && Locate(tx).Ok?
      && Locate(tx).value.sigStart == |Encode(|t.slots|)|
      && MessageOf(tx, Locate(tx).value) == t.message.Serialize()
      && FeePayer(tx, Locate(tx).value) == t.message.keys[0]
  {
    EncodeIsGroup(|t.slots|);
    FlattenLength(t.slots, 64);
    KeyOffsetSerialized(t.message);
    LocateJoined(Encode(|t.slots|), Flatten(t.slots), t.message.Serialize());
  }

  lemma OverwriteMiddle(a: Bytes, slot: Bytes, b: Bytes, c: Bytes, sig: Bytes)
    requires |slot| == 64 && |sig| == 64
    ensures Overwrite(a + (slot + b) + c, |a|, sig) == a + (sig + b) + c
  {
    var tx := a + (slot + b) + c;
    assert tx[..|a|] == a && tx[|a| + 64..] == b + c;
  }

  /** Signing commutes with serialising. For every transaction the format can write, the signer
      finds exactly the serialised message, refuses exactly when key 0 is not the seed's, and
      otherwise yields the serialisation of the same transaction with slot 0 replaced. */
  lemma SignSerialized(lib: LawfulLibrary, t: Transaction, seed: Bytes)
    requires t.WellFormed() && |seed| == 32
    ensures var sig := lib.sign(seed, t.message.Serialize());
      var signed := t.(slots := t.slots[0 := sig]);
      && signed.WellFormed()
      && SignBytes(lib, t.Serialize(), seed) ==
         if t.message.keys[0] == lib.pubKey(seed) then Ok(signed.Serialize()) else Err(FeePayerMismatch)
  {
    LocateSerialized(t);
    var sig := lib.sign(seed, t.message.Serialize());
    var signed := t.(slots := t.slots[0 := sig]);
    assert |sig| == 64;
    assert signed.slots[1..] == t.slots[1..];
    OverwriteMiddle(Encode(|t.slots|), t.slots[0], Flatten(t.slots[1..]), t.message.Serialize(), sig);
  }

  // ---------- the signer on arbitrary bytes ----------

  /** A message cut at the places the format names; the key count need not be in shortest form. */
  datatype MessageParts = MessageParts(version: Bytes, header: Bytes, keyCount: Bytes, feePayer: Bytes, rest: Bytes) {
    function Whole(): Bytes {
      version + header + keyCount + (feePayer + rest)
    }

    predicate WellFormed() {
      && |header| == 3
      && (if version == [] then header[0] < 128 else |version| == 1 && version[0] >= 128)
      && IsGroup(keyCount) && Value(keyCount) >= 1
      && |feePayer| == 32
    }

    function KeyStart(): nat {
      |version| + |header| + |keyCount|
    }
  }

  /** A transaction cut at the places the format names. */
  datatype Parts = Parts(count: Bytes, slots: Bytes, message: MessageParts) {
    function Whole(): Bytes {
      count + slots + message.Whole()
    }

    predicate WellFormed() {
      && IsGroup(count) && 1 <= Value(count) <= 16
      && |slots| == 64 * Value(count)
      && message.WellFormed()
    }

    function ToLayout(): Layout {
      Layout(|count|, |count| + |slots|, message.KeyStart())
    }
  }

  lemma KeyOffsetParts(m: MessageParts)
    requires m.WellFormed()
    ensures m.Whole() != [] && KeyOffset(m.Whole()) == Ok(m.KeyStart())
    ensures m.Whole()[m.KeyStart()..m.KeyStart() + 32] == m.feePayer
  {
    var whole, prefix := m.Whole(), m.version + m.header;
    Middle(prefix, m.keyCount, m.feePayer + m.rest);
    assert whole[0] == if m.version == [] then m.header[0] else m.version[0];
    DecodeIff(whole, |prefix|, Value(m.keyCount), m.KeyStart());
    assert whole == prefix + m.keyCount + m.feePayer + m.rest;
    Middle(prefix + m.keyCount, m.feePayer, m.rest);
  }

  lemma LocateParts(d: Parts)
    requires d.WellFormed()
    ensures Locate(d.Whole()) == Ok(d.ToLayout())
    ensures FeePayer(d.Whole(), d.ToLayout()) == d.message.feePayer
  {
    hide Locate, KeyOffset;
    KeyOffsetParts(d.message);
    LocateJoined(d.count, d.slots, d.message.Whole());
    Middle(d.count, d.slots, d.message.Whole());
    assert MessageOf(d.Whole(), d.ToLayout()) == d.message.Whole();
  }

  lemma KeyOffsetGivesParts(message: Bytes) returns (m: MessageParts)
    requires message != [] && KeyOffset(message).Ok?
    ensures m.WellFormed() && m.Whole() == message && m.KeyStart() == KeyOffset(message).value
  {
    var v := if message[0] >= 128 then 1 else 0;
    var (n, keysStart) := Decode(message, v + 3).value;
    DecodeIff(message, v + 3, n, keysStart);
    m := MessageParts(message[..v], message[v..v + 3], message[v + 3..keysStart],
                      message[keysStart..keysStart + 32], message[keysStart + 32..]);
    Rejoin(message, v, v + 3, keysStart, keysStart + 32);
  }

  /** Five consecutive slices make up the whole. */
  lemma Rejoin(b: Bytes, i: nat, j: nat, k: nat, n: nat)
    requires i <= j <= k <= n <= |b|
    ensures b[..i] + b[i..j] + b[j..k] + (b[k..n] + b[n..]) == b
  {
    assert b[..i] + b[i..j] == b[..j];
    assert b[..j] + b[j..k] == b[..k];
    assert b[k..n] + b[n..] == b[k..];
  }

  /** The cut that a successful parse describes. */
  lemma LocateGivesParts(tx: Bytes) returns (d: Parts)
    requires Locate(tx).Ok?
    ensures d.WellFormed() && d.Whole() == tx && d.ToLayout() == Locate(tx).value
  {
    var layout := Locate(tx).value;
    var (n, sigStart) := Decode(tx, 0).value;
    DecodeIff(tx, 0, n, sigStart);
    var m := KeyOffsetGivesParts(tx[layout.msgStart..]);
    d := Parts(tx[0..sigStart], tx[sigStart..layout.msgStart], m);
    assert tx == tx[0..sigStart] + tx[sigStart..layout.msgStart] + tx[layout.msgStart..];
  }

  /** Exactly which byte strings a seed can sign: those that have a well-formed cut whose fee
      payer is the seed's key. No other input is ever signed. */
  lemma SignableIff(lib: LawfulLibrary, tx: Bytes, seed: Bytes)
    ensures SignBytes(lib, tx, seed).Ok? <==>
      |seed| == 32 && exists d: Parts :: d.WellFormed() && d.Whole() == tx && d.message.feePayer == lib.pubKey(seed)
  {
    if SignBytes(lib, tx, seed).Ok? {
      var d := LocateGivesParts(tx);
      LocateParts(d);
    }
    if |seed| == 32 && exists d: Parts :: d.WellFormed() && d.Whole() == tx && d.message.feePayer == lib.pubKey(seed) {
      var d: Parts :| d.WellFormed() && d.Whole() == tx && d.message.feePayer == lib.pubKey(seed);
      LocateParts(d);
    }
  }

  /** A cut read back from its bytes and the two places where it was made. */
  lemma Recut(m: MessageParts)
    requires m.WellFormed()
    ensures var w, v, k := m.Whole(), |m.version|, m.KeyStart();
      && m.version == w[..v] && m.header == w[v..v + 3] && m.keyCount == w[v + 3..k]
      && m.feePayer == w[k..k + 32] && m.rest == w[k + 32..]
  {
    var tail := m.feePayer + m.rest;
    Middle(m.version, m.header, m.keyCount + tail);
    Assoc(m.version + m.header, m.keyCount, tail);
    Middle(m.version + m.header, m.keyCount, tail);
    Middle(m.version + m.header + m.keyCount, m.feePayer, m.rest);
    Assoc(m.version + m.header + m.keyCount, m.feePayer, m.rest);
  }

  lemma MessagePartsUnique(a: MessageParts, b: MessageParts)
    requires a.WellFormed() && b.WellFormed() && a.Whole() == b.Whole()
    ensures a == b
  {
    KeyOffsetParts(a);
    KeyOffsetParts(b);
    assert a.Whole()[0] == if a.version == [] then a.header[0] else a.version[0];
    assert b.Whole()[0] == if b.version == [] then b.header[0] else b.version[0];
    Recut(a);
    Recut(b);
  }

  /** The cut is unique, so "the" message and "the" fee payer of a byte string are well defined. */
  lemma PartsUnique(a: Parts, b: Parts)
    requires a.WellFormed() && b.WellFormed() && a.Whole() == b.Whole()
    ensures a == b
  {
    LocateParts(a);
    LocateParts(b);
    Middle(a.count, a.slots, a.message.Whole());
    Middle(b.count, b.slots, b.message.Whole());
    assert a.count == a.Whole()[..|a.count|] && b.count == b.Whole()[..|b.count|];
    MessagePartsUnique(a.message, b.message);
  }

  // ---------- every refusal ----------

  /** A signature count in range, ending at `sigStart`. */
  predicate CountAt(tx: Bytes, count: nat, sigStart: nat) {
    GroupAt(tx, 0, count, sigStart) && 1 <= count <= 16
  }

  /** The bytes after the slots of a count in range. */
  predicate MessageAt(tx: Bytes, count: nat, sigStart: nat, message: Bytes) {
    CountAt(tx, count, sigStart) && sigStart + 64 * count < |tx| && message == tx[sigStart + 64 * count..]
  }

  function KeyCountOffset(message: Bytes): nat
    requires message != []
  {
    if message[0] >= 128 then 4 else 3
  }

  /** The message ends in its key count, or before the first of the keys it counts does. */
  ghost predicate KeysRunOut(message: Bytes) {
    message != [] &&
    (RunsOut(message, KeyCountOffset(message)) ||
     exists keys: nat, next: nat ::
       GroupAt(message, KeyCountOffset(message), keys, next) && keys >= 1 && next + 32 > |message|)
  }

  /** Which refusal a byte string meets, for a seed of the right size: the count is not in range; the
      key count is zero; a count runs past three bytes; the fee payer is another key; or the bytes run
      out, in the signature count, before the message, or in the message before the end of key 0. */
  lemma RefusalsIff(lib: LawfulLibrary, tx: Bytes, seed: Bytes)
    requires |seed| == 32
    ensures SignBytes(lib, tx, seed) == Err(SigCountInvalid) <==>
      exists count, next :: GroupAt(tx, 0, count, next) && !(1 <= count <= 16)
    ensures SignBytes(lib, tx, seed) == Err(NoAccountKeys) <==>
      exists count, sigStart, message, next ::
        MessageAt(tx, count, sigStart, message) && GroupAt(message, KeyCountOffset(message), 0, next)
    ensures SignBytes(lib, tx, seed) == Err(CompactU16Overflow) <==>
      Continues(tx, 0, 3) ||
      exists count, sigStart, message ::
        MessageAt(tx, count, sigStart, message) && Continues(message, KeyCountOffset(message), 3)
    ensures SignBytes(lib, tx, seed) == Err(Truncated) <==>
      RunsOut(tx, 0)
      || (exists count: nat, sigStart: nat :: CountAt(tx, count, sigStart) && sigStart + 64 * count >= |tx|)
      || (exists count, sigStart, message :: MessageAt(tx, count, sigStart, message) && KeysRunOut(message))
    ensures SignBytes(lib, tx, seed) == Err(FeePayerMismatch) <==>
      exists d: Parts :: d.WellFormed() && d.Whole() == tx && d.message.feePayer != lib.pubKey(seed)
    ensures SignBytes(lib, tx, seed).Err? ==>
      SignBytes(lib, tx, seed).error in
        {SigCountInvalid, NoAccountKeys, CompactU16Overflow, FeePayerMismatch, Truncated}
  {
    MismatchIff(lib, tx, seed);
    CountRefusals(tx);
    KeyRefusals(tx);
    Truncations(tx);
  }

  lemma KeyOffsetTruncations(message: Bytes)
    requires message != []
    ensures KeyOffset(message) == Err(Truncated) <==> KeysRunOut(message)
  {
    var o := KeyCountOffset(message);
    DecodeErrorsIff(message, o);
    forall keys: nat, next: nat ensures Decode(message, o) == Ok((keys, next)) <==> GroupAt(message, o, keys, next) {
      DecodeIff(message, o, keys, next);
    }
    if Decode(message, o).Ok? {
      var (keys, next) := Decode(message, o).value;
      assert GroupAt(message, o, keys, next);
    }
  }

  lemma Truncations(tx: Bytes)
    ensures Locate(tx) == Err(Truncated) <==>
      RunsOut(tx, 0)
      || (exists count: nat, sigStart: nat :: CountAt(tx, count, sigStart) && sigStart + 64 * count >= |tx|)
      || (exists count, sigStart, message :: MessageAt(tx, count, sigStart, message) && KeysRunOut(message))
  {
    DecodeErrorsIff(tx, 0);
    forall count: nat, next: nat ensures Decode(tx, 0) == Ok((count, next)) <==> GroupAt(tx, 0, count, next) {
      DecodeIff(tx, 0, count, next);
    }
    forall count: nat, sigStart: nat | CountAt(tx, count, sigStart) && sigStart + 64 * count >= |tx|
      ensures Locate(tx) == Err(Truncated)
    {
      assert Decode(tx, 0) == Ok((count, sigStart));
    }
    forall count: nat, sigStart: nat, message: Bytes | MessageAt(tx, count, sigStart, message)
      ensures Locate(tx) == Err(Truncated) <==> KeysRunOut(message)
    {
      MessageDecides(tx, count, sigStart, message);
      KeyOffsetTruncations(message);
    }
    if Decode(tx, 0).Ok? {
      var (count, sigStart) := Decode(tx, 0).value;
      assert GroupAt(tx, 0, count, sigStart);
      if 1 <= count <= 16 {
        assert CountAt(tx, count, sigStart);
        if sigStart + 64 * count < |tx| {
          assert MessageAt(tx, count, sigStart, tx[sigStart + 64 * count..]);
        }
      } else {
        assert Locate(tx) == Err(SigCountInvalid);
      }
    } else {
      assert Locate(tx) == Err(Decode(tx, 0).error);
    }
  }

  lemma MismatchIff(lib: LawfulLibrary, tx: Bytes, seed: Bytes)
    requires |seed| == 32
    ensures SignBytes(lib, tx, seed) == Err(FeePayerMismatch) <==>
      exists d: Parts :: d.WellFormed() && d.Whole() == tx && d.message.feePayer != lib.pubKey(seed)
  {
    if Locate(tx).Ok? {
      var d := LocateGivesParts(tx);
      LocateParts(d);
    }
    forall d: Parts | d.WellFormed() && d.Whole() == tx
      ensures Locate(tx) == Ok(d.ToLayout()) && FeePayer(tx, d.ToLayout()) == d.message.feePayer
    {
      LocateParts(d);
    }
  }

  lemma CountRefusals(tx: Bytes)
    ensures Locate(tx) == Err(SigCountInvalid) <==>
      exists count, next :: GroupAt(tx, 0, count, next) && !(1 <= count <= 16)
    ensures Decode(tx, 0) == Err(CompactU16Overflow) <==> Continues(tx, 0, 3)
  {
    forall count: nat, next: nat ensures Decode(tx, 0) == Ok((count, next)) <==> GroupAt(tx, 0, count, next) {
      DecodeIff(tx, 0, count, next);
    }
    if Decode(tx, 0).Ok? {
      var (count, next) := Decode(tx, 0).value;
      assert GroupAt(tx, 0, count, next);
    }
  }

  lemma KeyOffsetRefusals(message: Bytes)
    requires message != []
    ensures KeyOffset(message) == Err(NoAccountKeys) <==>
      exists next :: GroupAt(message, KeyCountOffset(message), 0, next)
    ensures KeyOffset(message) == Err(CompactU16Overflow) <==> Continues(message, KeyCountOffset(message), 3)
  {
    var o := KeyCountOffset(message);
    forall next: nat ensures Decode(message, o) == Ok((0, next)) <==> GroupAt(message, o, 0, next) {
      DecodeIff(message, o, 0, next);
    }
    if Decode(message, o).Ok? && Decode(message, o).value.0 == 0 {
      assert GroupAt(message, o, 0, Decode(message, o).value.1);
    }
  }

  /** Past a count in range and a nonempty message, the message decides. */
  lemma MessageDecides(tx: Bytes, count: nat, sigStart: nat, message: Bytes)
    requires MessageAt(tx, count, sigStart, message)
    ensures Decode(tx, 0) == Ok((count, sigStart)) && message != []
    ensures KeyOffset(message).Err? <==> Locate(tx).Err?
    ensures KeyOffset(message).Err? ==> Locate(tx) == Err(KeyOffset(message).error)
  {
    DecodeIff(tx, 0, count, sigStart);
  }

  lemma KeyRefusals(tx: Bytes)
    ensures Locate(tx) == Err(NoAccountKeys) <==>
      exists count, sigStart, message, next ::
        MessageAt(tx, count, sigStart, message) && GroupAt(message, KeyCountOffset(message), 0, next)
    ensures Locate(tx) == Err(CompactU16Overflow) <==>
      Continues(tx, 0, 3) ||
      exists count, sigStart, message ::
        MessageAt(tx, count, sigStart, message) && Continues(message, KeyCountOffset(message), 3)
  {
    CountRefusals(tx);
    forall count: nat, sigStart: nat, message: Bytes | MessageAt(tx, count, sigStart, message)
      ensures KeyOffset(message).Err? ==> Locate(tx) == Err(KeyOffset(message).error)
      ensures (exists next :: GroupAt(message, KeyCountOffset(message), 0, next)) <==>
        KeyOffset(message) == Err(NoAccountKeys)
      ensures Continues(message, KeyCountOffset(message), 3) <==> KeyOffset(message) == Err(CompactU16Overflow)
    {
      MessageDecides(tx, count, sigStart, message);
      KeyOffsetRefusals(message);
    }
    if Locate(tx) == Err(NoAccountKeys) || (Locate(tx) == Err(CompactU16Overflow) && Decode(tx, 0).Ok?) {
      var (count, sigStart) := Decode(tx, 0).value;
      DecodeIff(tx, 0, count, sigStart);
      assert MessageAt(tx, count, sigStart, tx[sigStart + 64 * count..]);
    }
  }
}
