/** What each op answers, field by field and by name, as the caller sees it. */
module Answers {
  import opened Wrappers
  import opened Primitives
  import opened Shortvec
  import opened Signer
  import opened Wire
  import opened Submit
  import opened Executor

  // ---------- refusals ----------

  function Refusal(code: string, intentId: Option<string>): Response {
    Response(false, None, intentId, None, None, None, None, None, None, None, Some(code))
  }

  /** The codes of requests that lack something, or name no op. */
  lemma MissingInputs(lib: LawfulLibrary, req: Request)
    ensures req.op == "sign" && req.unsignedTxBase64.None? ==>
      Respond(lib, req) == Refusal("missing_unsigned_tx_base64", None)
    ensures req.op == "sign" && req.unsignedTxBase64.Some? && req.seed.None? ==>
      Respond(lib, req) == Refusal("missing_seed", None)
    ensures req.op in {"sign_bundle", "build_execution_plan"} ==>
      if req.unsignedTxs.None? || req.unsignedTxs.value == [] then
        Respond(lib, req) == Refusal("missing_unsigned_txs", None)
      else
        req.seed.None? ==> Respond(lib, req) == Refusal("missing_seed", None)
    ensures req.op == "build_submit" && req.signedTxBase64.None? ==>
      Respond(lib, req) == Refusal("missing_signed_tx_base64", None)
    ensures req.op == "build_bundle" && req.signedTxs.None? ==> Respond(lib, req) == Refusal("missing_signed_txs", None)
    ensures req.op == "build_bundle" && req.signedTxs == Some([]) ==> Respond(lib, req) == Refusal("bundle_empty", None)
    ensures req.op == "build_bundle" && req.signedTxs.Some? && |req.signedTxs.value| > 5 ==>
      Respond(lib, req) == Refusal("bundle_too_large_max_5", None)
    ensures req.op == "select_tip" && req.tipFloor.None? ==> Respond(lib, req) == Refusal("missing_tip_floor", None)
    ensures req.op !in {"ping", "sign", "sign_bundle", "build_execution_plan", "build_submit", "build_bundle",
                        "select_tip"} ==>
      Respond(lib, req) == Refusal("unknown_op_" + req.op, None)
  {
    hide SignText, SignAll, SeedOf, SelectTipLamports, SubmitBody, PlanBody;
  }

  /** The codes of `sign`, by what is wrong with the bytes: each is answered exactly for these. */
  lemma SignRefusalTexts(lib: LawfulLibrary, req: Request, tx: Bytes)
    requires req.op == "sign" && req.unsignedTxBase64.Some? && RequestSeed(lib, req).Ok?
    requires lib.b64Decode(req.unsignedTxBase64.value) == Some(tx)
    ensures Respond(lib, req) == Refusal("tx_sig_count_invalid", req.intentId) <==>
      exists count, next :: GroupAt(tx, 0, count, next) && !(1 <= count <= 16)
    ensures Respond(lib, req) == Refusal("tx_no_account_keys", req.intentId) <==>
      exists count, sigStart, message, next ::
        MessageAt(tx, count, sigStart, message) && GroupAt(message, KeyCountOffset(message), 0, next)
    ensures Respond(lib, req) == Refusal("compact_u16_overflow", req.intentId) <==>
      Continues(tx, 0, 3) ||
      exists count, sigStart, message ::
        MessageAt(tx, count, sigStart, message) && Continues(message, KeyCountOffset(message), 3)
    ensures Respond(lib, req) == Refusal("fee_payer_mismatch_refusing_to_sign", req.intentId) <==>
      exists d: Parts ::
        d.WellFormed() && d.Whole() == tx && d.message.feePayer != lib.pubKey(RequestSeed(lib, req).value)
    ensures Respond(lib, req) == Refusal("tx_truncated", req.intentId) <==>
      RunsOut(tx, 0)
      || (exists count: nat, sigStart: nat :: CountAt(tx, count, sigStart) && sigStart + 64 * count >= |tx|)
      || (exists count, sigStart, message :: MessageAt(tx, count, sigStart, message) && KeysRunOut(message))
    ensures Respond(lib, req) != Refusal("tx_base64_invalid", req.intentId)
  {
    hide SignBytes, GroupAt, CountAt, MessageAt, Continues, KeysRunOut, RunsOut, KeyCountOffset, RequestSeed, Code;
    RefusalsIff(lib, tx, RequestSeed(lib, req).value);
    SignRefused(lib, req, tx);
  }

  /** The text of an answer tells which refusal it was. */
  lemma SignRefused(lib: LawfulLibrary, req: Request, tx: Bytes)
    requires req.op == "sign" && req.unsignedTxBase64.Some? && RequestSeed(lib, req).Ok?
    requires lib.b64Decode(req.unsignedTxBase64.value) == Some(tx)
    ensures var (r, s) := (Respond(lib, req), SignBytes(lib, tx, RequestSeed(lib, req).value));
      && (r == Refusal("tx_sig_count_invalid", req.intentId) <==> s == Err(SigCountInvalid))
      && (r == Refusal("tx_no_account_keys", req.intentId) <==> s == Err(NoAccountKeys))
      && (r == Refusal("compact_u16_overflow", req.intentId) <==> s == Err(CompactU16Overflow))
      && (r == Refusal("fee_payer_mismatch_refusing_to_sign", req.intentId) <==> s == Err(FeePayerMismatch))
      && (r == Refusal("tx_truncated", req.intentId) <==> s == Err(Truncated))
      && r != Refusal("tx_base64_invalid", req.intentId)
  {
    hide RequestSeed, SignBytes, SignText, Code;
    var s := SignBytes(lib, tx, RequestSeed(lib, req).value);
    RefusalsIff(lib, tx, RequestSeed(lib, req).value);
    SignTextOf(lib, req.unsignedTxBase64.value, tx, RequestSeed(lib, req).value);
    Texts();
    if s.Err? {
      assert Respond(lib, req) == Refusal(Code(s.error), req.intentId);
      CodesDiffer(s.error);
    } else {
      assert Respond(lib, req).ok;
    }
  }

  lemma SignTextOf(lib: LawfulLibrary, txBase64: string, tx: Bytes, seed: Bytes)
    requires |seed| == 32 && lib.b64Decode(txBase64) == Some(tx)
    ensures match SignBytes(lib, tx, seed)
      case Ok(_) => SignText(lib, txBase64, seed).Ok?
      case Err(e) => SignText(lib, txBase64, seed) == Err(e)
  {
  }

  lemma Texts()
    ensures Code(SigCountInvalid) == "tx_sig_count_invalid" && Code(NoAccountKeys) == "tx_no_account_keys"
    ensures Code(CompactU16Overflow) == "compact_u16_overflow" && Code(Truncated) == "tx_truncated"
    ensures Code(FeePayerMismatch) == "fee_payer_mismatch_refusing_to_sign"
    ensures Code(BadBase64) == "tx_base64_invalid" && Code(BadSeed) == "key_length_invalid"
  {
  }

  lemma CodesDiffer(e: SignError)
    ensures forall f: SignError :: Code(f) == Code(e) ==> f == e
  {
    forall f: SignError | Code(f) == Code(e) ensures f == e {
      CodesAreDistinct(e, f);
    }
  }

  /** A text that is no base64 is refused as such, after the seed; a seed of another size, before. */
  lemma TextRefusals(lib: LawfulLibrary, req: Request, txBase64: string, seed: Bytes)
    ensures req.op == "sign" && req.unsignedTxBase64 == Some(txBase64) && RequestSeed(lib, req).Ok? &&
            lib.b64Decode(txBase64) == None ==>
      Respond(lib, req) == Refusal("tx_base64_invalid", req.intentId)
    ensures |seed| != 32 ==> SignText(lib, txBase64, seed) == Err(BadSeed) && Code(BadSeed) == "key_length_invalid"
  {
  }

  // ---------- answers ----------

  lemma PingAnswer(lib: LawfulLibrary, req: Request)
    requires req.op == "ping"
    ensures Respond(lib, req) == Response(true, Some("pong"), None, None, None, None, None, None, None, None, None)
  {
  }

  /** `sign` answers with the signed transaction, its slot 0 and the address, and the correlation id. */
  lemma SignAnswer(lib: LawfulLibrary, req: Request)
    requires req.op == "sign" && Respond(lib, req).ok
    ensures req.unsignedTxBase64.Some? && RequestSeed(lib, req).Ok?
    ensures exists tx: string, signature: string ::
      && SignedLeg(lib, req.unsignedTxBase64.value, tx, signature, RequestSeed(lib, req).value)
      && var address := lib.b58Encode(lib.pubKey(RequestSeed(lib, req).value));
         Respond(lib, req) == Response(true, None, req.intentId, Some(signature), Some(tx), None, Some(address),
                                       None, None, None, None)
  {
    hide SignedLeg, SignText, RequestSeed;
    var seed := RequestSeed(lib, req).value;
    SignTextGivesSignedLeg(lib, req.unsignedTxBase64.value, seed);
    var s := SignText(lib, req.unsignedTxBase64.value, seed).value;
    SignerAddressIs(lib, req.unsignedTxBase64.value, seed);
    assert SignedLeg(lib, req.unsignedTxBase64.value, s.signedTxBase64, s.signatureB58, seed);
  }

  lemma SignerAddressIs(lib: LawfulLibrary, tx: string, seed: Bytes)
    requires SignText(lib, tx, seed).Ok?
    ensures SignText(lib, tx, seed).value.signerAddress == lib.b58Encode(lib.pubKey(seed))
  {
  }

  /** `sign_bundle` answers with every leg signed, in order, exactly if every leg can be; and with the
      correlation id. */
  lemma SignBundleAnswer(lib: LawfulLibrary, req: Request)
    requires req.op == "sign_bundle"
    ensures Respond(lib, req).ok <==>
      && req.unsignedTxs.Some? && req.unsignedTxs.value != [] && RequestSeed(lib, req).Ok?
      && forall i :: 0 <= i < |req.unsignedTxs.value| ==>
           SignText(lib, req.unsignedTxs.value[i], RequestSeed(lib, req).value).Ok?
    ensures Respond(lib, req).ok ==>
      exists legs: seq<string>, signatures: seq<string> ::
        && SignedLegs(lib, req.unsignedTxs.value, legs, signatures, RequestSeed(lib, req).value)
        && Respond(lib, req) == Response(true, None, req.intentId, None, None, Some(legs), None, None, None, None, None)
  {
    hide SignedLegs, SignText, RequestSeed, Code;
    if req.unsignedTxs.Some? && RequestSeed(lib, req).Ok? {
      var txs, seed := req.unsignedTxs.value, RequestSeed(lib, req).value;
      SignAllIff(lib, txs, seed);
      if SignAll(lib, txs, seed).Ok? && txs != [] {
        SignedLegsVerify(lib, txs, seed);
      }
    }
  }

  /** A plan answers with its envelope, whose one body carries the signed transactions of the envelope,
      in order, with the requested options; and with the correlation id. */
  lemma PlanAnswer(lib: LawfulLibrary, req: Request)
    requires req.op == "build_execution_plan" && Respond(lib, req).ok
    ensures Respond(lib, req).envelope.Some?
    ensures var env := Respond(lib, req).envelope.value;
      && Respond(lib, req) == Response(true, None, req.intentId, None, None, None, None, None, None, Some(env), None)
      && "signed_txs" in env
      && if req.executionMode == Some("jito") then
           && "bundle_body" in env && env["bundle_body"].Get("method") == Some(JStr("sendBundle"))
           && Param(env["bundle_body"], 0) == env["signed_txs"]
         else
           && "submit_body" in env && env["submit_body"].Get("method") == Some(JStr("sendTransaction"))
           && env["signed_txs"] == JArr([Param(env["submit_body"], 0)])
           && CarriesOptions(req, env["submit_body"])
  {
    hide SignRequested;
    var signed := SignRequested(lib, req).value;
    var body := PlanBody(req, signed).value;
    if Mode(req) == "jito" {
      assert body.1 == BuildJitoBundleRequest(SignedTxs(signed)).value;
    } else {
      SubmitBodyReads(req, signed[0].signedTxBase64);
      assert SignedTxs(signed) == [signed[0].signedTxBase64];
    }
  }

  /** The options of the body: skipped preflight only on request, and three retries unless given. */
  predicate CarriesOptions(req: Request, body: Json) {
    && Param(body, 1).Get("skipPreflight") == Some(JBool(req.skipPreflight == Some(true)))
    && Param(body, 1).Get("maxRetries") == Some(JInt(match req.maxRetries case None => 3 case Some(n) => n))
    && Param(body, 1).Get("encoding") == Some(JStr("base64"))
  }

  lemma SubmitBodyReads(req: Request, tx: string)
    ensures Param(SubmitBody(req, tx), 0) == JStr(tx) && CarriesOptions(req, SubmitBody(req, tx))
    ensures SubmitBody(req, tx).Get("method") == Some(JStr("sendTransaction"))
  {
    SendBodyReads(tx, req.skipPreflight == Some(true), match req.maxRetries case None => 3 case Some(n) => n);
  }

  /** `build_submit` answers with a body that carries the given transaction and options. */
  lemma SubmitAnswer(lib: LawfulLibrary, req: Request)
    requires req.op == "build_submit" && req.signedTxBase64.Some?
    ensures exists body: Json ::
      && Respond(lib, req) == Response(true, None, req.intentId, None, None, None, None, Some(body), None, None, None)
      && body.Get("method") == Some(JStr("sendTransaction"))
      && Param(body, 0) == JStr(req.signedTxBase64.value) && CarriesOptions(req, body)
  {
    SubmitBodyReads(req, req.signedTxBase64.value);
    var body := SubmitBody(req, req.signedTxBase64.value);
    assert body.Get("method") == Some(JStr("sendTransaction"));
  }

  /** `build_bundle` answers with a body that carries the given transactions, in order. */
  lemma BundleAnswer(lib: LawfulLibrary, req: Request)
    requires req.op == "build_bundle" && req.signedTxs.Some? && 1 <= |req.signedTxs.value| <= 5
    ensures exists body: Json ::
      && Respond(lib, req) == Response(true, None, req.intentId, None, None, None, None, Some(body), None, None, None)
      && body.Get("method") == Some(JStr("sendBundle")) && ReadStrings(Param(body, 0)) == req.signedTxs.value
  {
    BundleBodyReads(req.signedTxs.value);
    var body := BuildJitoBundleRequest(req.signedTxs.value).value;
    assert body.Get("method") == Some(JStr("sendBundle"));
  }

  /** `select_tip` answers with the tip of the percentile that the level names, the median unless it is
      `low` or `aggressive`, and with no correlation id. */
  lemma TipAnswer(lib: LawfulLibrary, req: Request, fields: map<string, Json>, x: real, tip: nat)
    requires req.op == "select_tip" && req.tipFloor == Some(JObj(fields))
    requires var key := if req.level == Some("low") then "landed_tips_25th_percentile"
                        else if req.level == Some("aggressive") then "landed_tips_75th_percentile"
                        else "landed_tips_50th_percentile";
      key in fields && IsNumber(fields[key], x)
    ensures Respond(lib, req) == Response(true, None, None, None, None, None, None, None, Some(tip), None, None) <==>
      var lamports := x * 1000000000.0;
      if lamports < 1000.5 || lamports >= 999999999999.5 then tip == 1000
      else tip as real - 0.5 <= lamports < tip as real + 0.5
  {
    hide SelectTipLamports;
    var level := if req.level == Some("low") then Low
                 else if req.level == Some("aggressive") then Aggressive
                 else Normal;
    TipIs(fields, level, x, tip);
  }

  // ---------- seeds ----------

  /** The seed of a text: the first 32 bytes of a base58 text of 32 or 64 bytes, or the refusal. */
  lemma SeedFromText(lib: LawfulLibrary, text: string, seed: Bytes)
    ensures var decoded := lib.trimmedB58Decode(text);
      && (SeedOf(lib, JStr(text)) == Ok(seed) <==>
            decoded.Some? && |decoded.value| in {32, 64} && seed == decoded.value[..32])
      && (SeedOf(lib, JStr(text)) == Err("key_format_invalid") <==> decoded.None?)
      && (SeedOf(lib, JStr(text)) == Err("key_length_invalid") <==> decoded.Some? && |decoded.value| !in {32, 64})
  {
    assert "key_format_invalid"[4] != "key_length_invalid"[4];
    if lib.trimmedB58Decode(text).Some? && |lib.trimmedB58Decode(text).value| == 32 {
      assert lib.trimmedB58Decode(text).value[..32] == lib.trimmedB58Decode(text).value;
    }
  }

  /** `v` is a whole number that fits a byte. */
  predicate FitsByte(v: Json) {
    v.JInt? && 0 <= v.n < 256
  }

  /** The seed of a JSON array: its first 32 numbers as they are, of 32 or 64 numbers that fit a byte. */
  lemma SeedFromBytes(lib: LawfulLibrary, items: seq<Json>, seed: Bytes)
    ensures var bytes := forall i :: 0 <= i < |items| ==> FitsByte(items[i]);
      && (SeedOf(lib, JArr(items)) == Ok(seed) <==>
            && bytes && |items| in {32, 64} && |seed| == 32
            && forall i :: 0 <= i < 32 ==> seed[i] as int == items[i].n)
      && (SeedOf(lib, JArr(items)) == Err("key_format_invalid") <==> !bytes)
      && (SeedOf(lib, JArr(items)) == Err("key_length_invalid") <==> bytes && |items| !in {32, 64})
  {
    assert "key_format_invalid"[4] != "key_length_invalid"[4];
    if forall i :: 0 <= i < |items| ==> FitsByte(items[i]) {
      assert forall i :: 0 <= i < |items| ==> FitsByte(items[i]) && IsByte(items[i]);
      var bytes := SeedBytes(items);
      assert |items| == 32 ==> bytes == bytes[..32];
      if |items| in {32, 64} {
        assert SeedOf(lib, JArr(items)) == Ok(bytes[..32]);
        if |seed| == 32 && forall i :: 0 <= i < 32 ==> seed[i] as int == items[i].n {
          assert seed == bytes[..32];
        }
      }
    }
  }

  /** Any other JSON value is no seed. */
  lemma SeedFromOther(lib: LawfulLibrary, v: Json)
    requires !v.JStr? && !v.JArr?
    ensures SeedOf(lib, v) == Err("key_format_invalid")
  {
  }

  // ---------- lines ----------

  /** What one line adds to the output; by `ServeIsStateless` that is all there is to say. */
  lemma LineAnswers(lib: LawfulLibrary, req: Request)
    ensures Transcript(lib, [Parsed(req)]) == [Respond(lib, req)]
    ensures Transcript(lib, [Malformed]) == [Refusal("invalid_json", None)]
    ensures Transcript(lib, [Blank]) == [] && Transcript(lib, [Unreadable]) == []
    ensures Transcript(lib, []) == []
  {
    forall line: Line ensures AnsweredLines([line]) == if Answered(line) then [line] else [] {
      assert [line][1..] == [];
    }
  }
}
