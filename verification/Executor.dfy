/** The request handler of the hot executor (services/hot-executor/src/main.rs). */
module Executor {
  import opened Wrappers
  import opened Primitives
  import opened Shortvec
  import opened Signer
  import opened Submit

  datatype Request = Request(
    op: string,
    intentId: Option<string>,
    unsignedTxBase64: Option<string>,
    seed: Option<Json>,
    signedTxBase64: Option<string>,
    signedTxs: Option<seq<string>>,
    unsignedTxs: Option<seq<string>>,
    skipPreflight: Option<bool>,
    maxRetries: Option<nat>,
    tipFloor: Option<Json>,
    level: Option<string>,
    executionMode: Option<string>,
    side: Option<string>
  )

  datatype Response = Response(
    ok: bool,
    op: Option<string>,
    intentId: Option<string>,
    signature: Option<string>,
    signedTxBase64: Option<string>,
    signedTxs: Option<seq<string>>,
    signerAddress: Option<string>,
    request: Option<Json>,
    tipLamports: Option<nat>,
    envelope: Option<map<string, Json>>,
    error: Option<string>
  )

  const DEFAULT := Response(false, None, None, None, None, None, None, None, None, None, None)

  function Failed(code: string): Response {
    DEFAULT.(error := Some(code))
  }

  function Succeeded(intentId: Option<string>): Response {
    DEFAULT.(ok := true, intentId := intentId)
  }

  /** `ok` and `error` exclude each other; a refusal carries no signature, no signed transaction, no
      address, no body and no envelope; a correlation id is the request's own. */
  predicate AllOrNothing(req: Request, r: Response) {
    && (r.ok <==> r.error.None?)
    && (!r.ok ==> r == Failed(r.error.value).(intentId := r.intentId))
    && (r.intentId.Some? ==> r.intentId == req.intentId)
  }

  // ---------- the seed ----------

  function NormalizeSeed(bytes: Bytes): (r: Result<Bytes, string>)
    ensures r.Ok? ==> |r.value| == 32 && r.value <= bytes
  {
    if |bytes| == 64 then Ok(bytes[..32])
    else if |bytes| == 32 then Ok(bytes)
    else Err("key_length_invalid")
  }

  predicate IsByte(v: Json) {
    v.JInt? && 0 <= v.n <= 255
  }

  function SeedBytes(items: seq<Json>): Bytes
    requires forall i :: 0 <= i < |items| ==> IsByte(items[i])
  {
    seq(|items|, i requires 0 <= i < |items| && IsByte(items[i]) => items[i].n as byte)
  }

  function SeedOf(lib: LawfulLibrary, v: Json): (r: Result<Bytes, string>)
    ensures r.Ok? ==> |r.value| == 32
  {
    match v
    case JStr(s) =>
      (match lib.trimmedB58Decode(s)
       case None => Err("key_format_invalid")
       case Some(bytes) => NormalizeSeed(bytes))
    case JArr(items) =>
      if forall i :: 0 <= i < |items| ==> IsByte(items[i]) then NormalizeSeed(SeedBytes(items))
      else Err("key_format_invalid")
    case _ => Err("key_format_invalid")
  }

  method SeedFromValue(lib: LawfulLibrary, v: Json) returns (r: Result<Bytes, string>)
    ensures r == SeedOf(lib, v)
  {
    if v.JStr? {
      var decoded := lib.trimmedB58Decode(v.s);
      return if decoded.None? then Err("key_format_invalid") else NormalizeSeed(decoded.value);
    }
    if v.JArr? {
      var bytes: Bytes := [];
      for i := 0 to |v.items|
        invariant forall k :: 0 <= k < i ==> IsByte(v.items[k])
        invariant bytes == SeedBytes(v.items[..i])
      {
        var n := v.items[i];
        if !n.JInt? || n.n < 0 || n.n > 255 {
          return Err("key_format_invalid");
        }
        bytes := bytes + [n.n as byte];
      }
      assert v.items[..|v.items|] == v.items;
      return NormalizeSeed(bytes);
    }
    return Err("key_format_invalid");
  }

  /** The seed of a request, or the error every signing op answers with. */
  function RequestSeed(lib: LawfulLibrary, req: Request): (r: Result<Bytes, string>)
    ensures r.Ok? ==> |r.value| == 32
  {
    match req.seed
    case None => Err("missing_seed")
    case Some(v) => SeedOf(lib, v)
  }

  // ---------- signing every leg ----------

  /** All legs signed, or the error of the first leg that is refused. */
  function SignAll(lib: LawfulLibrary, txs: seq<string>, seed: Bytes): Result<seq<Signed>, SignError> {
    if txs == [] then Ok([]) else
    var first :- SignText(lib, txs[0], seed);
    var rest :- SignAll(lib, txs[1..], seed);
    Ok([first] + rest)
  }

  lemma {:induction false} SignAllIff(lib: LawfulLibrary, txs: seq<string>, seed: Bytes)
    ensures match SignAll(lib, txs, seed)
      case Ok(signed) =>
        |signed| == |txs| && forall i :: 0 <= i < |txs| ==> SignText(lib, txs[i], seed) == Ok(signed[i])
      case Err(e) =>
        exists i :: 0 <= i < |txs| && SignText(lib, txs[i], seed) == Err(e) &&
                    forall j :: 0 <= j < i ==> SignText(lib, txs[j], seed).Ok?
  {
    hide SignText;
    if txs != [] && SignText(lib, txs[0], seed).Ok? {
      var tail := txs[1..];
      SignAllIff(lib, tail, seed);
      match SignAll(lib, tail, seed)
      case Ok(signed) =>
      case Err(e) =>
        var i :| 0 <= i < |tail| && SignText(lib, tail[i], seed) == Err(e) &&
                 forall j :: 0 <= j < i ==> SignText(lib, tail[j], seed).Ok?;
        assert forall j :: 0 <= j < i + 1 ==> SignText(lib, txs[j], seed).Ok? by {
          forall j | 0 < j < i + 1 ensures txs[j] == tail[j - 1] {}
        }
        assert txs[i + 1] == tail[i];
    }
  }

  lemma SignAllStops(lib: LawfulLibrary, txs: seq<string>, seed: Bytes, i: nat)
    requires i < |txs| && SignText(lib, txs[i], seed).Err?
    requires forall j :: 0 <= j < i ==> SignText(lib, txs[j], seed).Ok?
    ensures SignAll(lib, txs, seed) == Err(SignText(lib, txs[i], seed).error)
  {
    SignAllIff(lib, txs, seed);
  }

  lemma SignAllDone(lib: LawfulLibrary, txs: seq<string>, seed: Bytes, done: seq<Signed>)
    requires |done| == |txs| && forall k :: 0 <= k < |txs| ==> SignText(lib, txs[k], seed) == Ok(done[k])
    ensures SignAll(lib, txs, seed) == Ok(done)
  {
    SignAllIff(lib, txs, seed);
    assert SignAll(lib, txs, seed).Ok? && SignAll(lib, txs, seed).value == done;
  }

  function SignedTxs(signed: seq<Signed>): seq<string> {
    seq(|signed|, i requires 0 <= i < |signed| => signed[i].signedTxBase64)
  }

  function Signatures(signed: seq<Signed>): seq<string> {
    seq(|signed|, i requires 0 <= i < |signed| => signed[i].signatureB58)
  }

  /** The loop that `sign_bundle` and `build_execution_plan` share: push leg by leg, stop at the
      first refusal. */
  method SignLegs(lib: LawfulLibrary, txs: seq<string>, seed: Bytes)
    returns (error: Option<SignError>, signedTxs: seq<string>, signatures: seq<string>)
    ensures match SignAll(lib, txs, seed)
      case Ok(signed) => error == None && signedTxs == SignedTxs(signed) && signatures == Signatures(signed)
      case Err(e) => error == Some(e)
  {
    signedTxs, signatures := [], [];
    ghost var done: seq<Signed> := [];
    for i := 0 to |txs|
      invariant signedTxs == SignedTxs(done) && signatures == Signatures(done)
      invariant |done| == i && forall k :: 0 <= k < i ==> SignText(lib, txs[k], seed) == Ok(done[k])
    {
      var leg := SignSerializedTransaction(lib, txs[i], seed);
      if leg.Err? {
        SignAllStops(lib, txs, seed, i);
        return Some(leg.error), signedTxs, signatures;
      }
      signedTxs := signedTxs + [leg.value.signedTxBase64];
      signatures := signatures + [leg.value.signatureB58];
      done := done + [leg.value];
    }
    SignAllDone(lib, txs, seed, done);
    return None, signedTxs, signatures;
  }

  // ---------- what each op answers ----------

  function RespondSign(lib: LawfulLibrary, req: Request): (r: Response)
    ensures AllOrNothing(req, r)
  {
    if req.unsignedTxBase64.None? then Failed("missing_unsigned_tx_base64") else
    match RequestSeed(lib, req)
    case Err(e) => Failed(e)
    case Ok(seed) =>
      match SignText(lib, req.unsignedTxBase64.value, seed)
      case Err(e) => Failed(Code(e)).(intentId := req.intentId)
      case Ok(s) =>
        Succeeded(req.intentId).(signature := Some(s.signatureB58),
                                 signedTxBase64 := Some(s.signedTxBase64),
                                 signerAddress := Some(s.signerAddress))
  }

  /** The prologue the two multi-leg ops share: nonempty legs, then the seed, then every leg. */
  function SignRequested(lib: LawfulLibrary, req: Request): Result<seq<Signed>, string> {
    if req.unsignedTxs.None? || req.unsignedTxs.value == [] then Err("missing_unsigned_txs") else
    var seed :- RequestSeed(lib, req);
    match SignAll(lib, req.unsignedTxs.value, seed)
    case Err(e) => Err(Code(e))
    case Ok(signed) => Ok(signed)
  }

  function RespondSignBundle(lib: LawfulLibrary, req: Request): (r: Response)
    ensures AllOrNothing(req, r)
  {
    match SignRequested(lib, req)
    case Err(e) => Failed(e)
    case Ok(signed) => Succeeded(req.intentId).(signedTxs := Some(SignedTxs(signed)))
  }

  function Mode(req: Request): string {
    if req.executionMode.Some? then req.executionMode.value else "rpc"
  }

  function SubmitBody(req: Request, tx: string): Json {
    BuildSendTransactionRequest(tx,
      if req.skipPreflight.Some? then req.skipPreflight.value else false,
      if req.maxRetries.Some? then req.maxRetries.value else 3)
  }

  /** The body entry of the envelope and its key, decided by the mode after all legs are signed. */
  function PlanBody(req: Request, signed: seq<Signed>): Result<(string, Json), string> {
    if Mode(req) == "jito" then
      var body :- BuildJitoBundleRequest(SignedTxs(signed));
      Ok(("bundle_body", body))
    else if Mode(req) == "rpc" then
      if |signed| != 1 then Err("rpc_mode_requires_single_leg")
      else Ok(("submit_body", SubmitBody(req, signed[0].signedTxBase64)))
    else Err("invalid_execution_mode")
  }

  function Envelope(req: Request, signed: seq<Signed>, body: (string, Json)): map<string, Json> {
    var header: map<string, Json> := map["mode" := JStr(Mode(req))]["leg_count" := JInt(|signed|)];
    var withSide := if req.side.Some? then header["side" := JStr(req.side.value)] else header;
    withSide[body.0 := body.1]["signatures" := Strings(Signatures(signed))]["signed_txs" := Strings(SignedTxs(signed))]
  }

  function RespondPlan(lib: LawfulLibrary, req: Request): (r: Response)
    ensures AllOrNothing(req, r)
  {
    match SignRequested(lib, req)
    case Err(e) => Failed(e)
    case Ok(signed) =>
      match PlanBody(req, signed)
      case Err(e) => Failed(e)
      case Ok(body) => Succeeded(req.intentId).(envelope := Some(Envelope(req, signed, body)))
  }

  function RespondSubmit(req: Request): (r: Response)
    ensures AllOrNothing(req, r)
  {
    match req.signedTxBase64
    case None => Failed("missing_signed_tx_base64")
    case Some(tx) => Succeeded(req.intentId).(request := Some(SubmitBody(req, tx)))
  }

  function RespondBundle(req: Request): (r: Response)
    ensures AllOrNothing(req, r)
  {
    match req.signedTxs
    case None => Failed("missing_signed_txs")
    case Some(txs) =>
      match BuildJitoBundleRequest(txs)
      case Err(e) => Failed(e)
      case Ok(body) => Succeeded(req.intentId).(request := Some(body))
  }

  function RespondTip(req: Request): (r: Response)
    ensures AllOrNothing(req, r)
  {
    match req.tipFloor
    case None => Failed("missing_tip_floor")
    case Some(floor) =>
      var level := if req.level == Some("low") then Low
                   else if req.level == Some("aggressive") then Aggressive
                   else Normal;
      Succeeded(None).(tipLamports := Some(SelectTipLamports(floor, level)))
  }

  /** The answer to a request, of whatever op: all or nothing. */
  function Respond(lib: LawfulLibrary, req: Request): (r: Response)
    ensures AllOrNothing(req, r)
  {
    if req.op == "ping" then Succeeded(None).(op := Some("pong"))
    else if req.op == "sign" then RespondSign(lib, req)
    else if req.op == "sign_bundle" then RespondSignBundle(lib, req)
    else if req.op == "build_execution_plan" then RespondPlan(lib, req)
    else if req.op == "build_submit" then RespondSubmit(req)
    else if req.op == "build_bundle" then RespondBundle(req)
    else if req.op == "select_tip" then RespondTip(req)
    else Failed("unknown_op_" + req.op)
  }

  // ---------- the handler ----------

  method SeedOfRequest(lib: LawfulLibrary, req: Request) returns (r: Result<Bytes, string>)
    ensures r == RequestSeed(lib, req)
  {
    if req.seed.None? {
      return Err("missing_seed");
    }
    r := SeedFromValue(lib, req.seed.value);
  }

  method HandleSignBundle(lib: LawfulLibrary, req: Request) returns (resp: Response)
    ensures resp == RespondSignBundle(lib, req)
  {
    if req.unsignedTxs.None? || req.unsignedTxs.value == [] {
      return Failed("missing_unsigned_txs");
    }
    var seed := SeedOfRequest(lib, req);
    if seed.Err? {
      return Failed(seed.error);
    }
    var error, signedTxs, _ := SignLegs(lib, req.unsignedTxs.value, seed.value);
    if error.Some? {
      return Failed(Code(error.value));
    }
    return Succeeded(req.intentId).(signedTxs := Some(signedTxs));
  }

  method HandlePlan(lib: LawfulLibrary, req: Request) returns (resp: Response)
    ensures resp == RespondPlan(lib, req)
  {
    if req.unsignedTxs.None? || req.unsignedTxs.value == [] {
      return Failed("missing_unsigned_txs");
    }
    var seed := SeedOfRequest(lib, req);
    if seed.Err? {
      return Failed(seed.error);
    }
    var error, signedTxs, signatures := SignLegs(lib, req.unsignedTxs.value, seed.value);
    if error.Some? {
      return Failed(Code(error.value));
    }
    ghost var signed := SignAll(lib, req.unsignedTxs.value, seed.value).value;
    var env: map<string, Json> := map[];
    env := env["mode" := JStr(Mode(req))];
    env := env["leg_count" := JInt(|signedTxs|)];
    if req.side.Some? {
      env := env["side" := JStr(req.side.value)];
    }
    if Mode(req) == "jito" {
      var body := BuildJitoBundleRequest(signedTxs);
      if body.Err? {
        return Failed(body.error);
      }
      env := env["bundle_body" := body.value];
    } else if Mode(req) == "rpc" {
      if |signedTxs| != 1 {
        return Failed("rpc_mode_requires_single_leg");
      }
      env := env["submit_body" := SubmitBody(req, signedTxs[0])];
    } else {
      return Failed("invalid_execution_mode");
    }
    env := env["signatures" := Strings(signatures)];
    env := env["signed_txs" := Strings(signedTxs)];
    return Succeeded(req.intentId).(envelope := Some(env));
  }

  method HandleSign(lib: LawfulLibrary, req: Request) returns (resp: Response)
    ensures resp == RespondSign(lib, req)
  {
    if req.unsignedTxBase64.None? {
      return Failed("missing_unsigned_tx_base64");
    }
    var seed := SeedOfRequest(lib, req);
    if seed.Err? {
      return Failed(seed.error);
    }
    var signed := SignSerializedTransaction(lib, req.unsignedTxBase64.value, seed.value);
    match signed
    case Err(e) => return Failed(Code(e)).(intentId := req.intentId);
    case Ok(s) =>
      return Succeeded(req.intentId).(signature := Some(s.signatureB58),
                                      signedTxBase64 := Some(s.signedTxBase64),
                                      signerAddress := Some(s.signerAddress));
  }

  method Handle(lib: LawfulLibrary, req: Request) returns (resp: Response)
    ensures resp == Respond(lib, req)
  {
    match req.op
    case "sign" => resp := HandleSign(lib, req);
    case "sign_bundle" => resp := HandleSignBundle(lib, req);
    case "build_execution_plan" => resp := HandlePlan(lib, req);
    case _ => resp := Respond(lib, req);
  }

  // ---------- main results: the plan is a composition ----------

  /** Jito mode answers exactly as signing the bundle and then building its body would: the same
      error response, or the same legs and the same body. */
  lemma JitoPlanIsSignThenBundle(lib: LawfulLibrary, req: Request)
    requires req.executionMode == Some("jito")
    ensures var plan, bundle := RespondPlan(lib, req), RespondSignBundle(lib, req);
      if !bundle.ok then plan == bundle else
      var body := RespondBundle(req.(signedTxs := bundle.signedTxs));
      if !body.ok then plan == body else
      && plan == Succeeded(req.intentId).(envelope := plan.envelope)
      && plan.envelope.Some?
      && var env := plan.envelope.value;
      && "bundle_body" in env && Some(env["bundle_body"]) == body.request && "submit_body" !in env
      && "signed_txs" in env && env["signed_txs"] == Strings(bundle.signedTxs.value)
      && "leg_count" in env && env["leg_count"] == JInt(|req.unsignedTxs.value|)
  {
    hide SignText, RequestSeed, SubmitBody;
    var signed := SignRequested(lib, req);
    if signed.Ok? {
      SignAllIff(lib, req.unsignedTxs.value, RequestSeed(lib, req).value);
    }
  }

  /** Rpc mode (the default) with one leg answers exactly as signing it and then building the
      submit body would, except that a refusal loses the correlation id that `sign` echoes. */
  lemma RpcPlanIsSignThenSubmit(lib: LawfulLibrary, req: Request, tx: string)
    requires req.executionMode == None || req.executionMode == Some("rpc")
    requires req.unsignedTxs == Some([tx])
    ensures var plan, leg := RespondPlan(lib, req), RespondSign(lib, req.(unsignedTxBase64 := Some(tx)));
      if !leg.ok then plan == leg.(intentId := None) else
      var body := RespondSubmit(req.(signedTxBase64 := leg.signedTxBase64));
      && body.ok
      && plan == Succeeded(req.intentId).(envelope := plan.envelope)
      && plan.envelope.Some?
      && var env := plan.envelope.value;
      && "submit_body" in env && Some(env["submit_body"]) == body.request && "bundle_body" !in env
      && "signed_txs" in env && env["signed_txs"] == Strings([leg.signedTxBase64.value])
      && "signatures" in env && env["signatures"] == Strings([leg.signature.value])
  {
    hide SignText, SeedOf, BuildSendTransactionRequest;
    var seed := RequestSeed(lib, req);
    if seed.Ok? {
      SignAllOne(lib, tx, seed.value);
      if SignText(lib, tx, seed.value).Ok? {
        var s := SignText(lib, tx, seed.value).value;
        assert SignedTxs([s]) == [s.signedTxBase64] && Signatures([s]) == [s.signatureB58];
      }
    }
  }

  /** Exactly when a refused leg is answered alike: when there is no correlation id to lose, or the
      seed itself is refused, where `sign` does not echo it either. */
  lemma RefusedLegIff(lib: LawfulLibrary, req: Request, tx: string)
    requires req.executionMode == None || req.executionMode == Some("rpc")
    requires req.unsignedTxs == Some([tx])
    ensures var plan, leg := RespondPlan(lib, req), RespondSign(lib, req.(unsignedTxBase64 := Some(tx)));
      && plan.ok == leg.ok
      && (!leg.ok ==> (plan == leg <==> req.intentId.None? || RequestSeed(lib, req).Err?))
  {
    RpcPlanIsSignThenSubmit(lib, req, tx);
  }

  /** It is lost: an empty transaction, refused as truncated, keeps the id in `sign` and not in a plan. */
  lemma RefusedLegLosesId(lib: LawfulLibrary, req: Request, id: string)
    requires req.seed == Some(JArr(seq(32, _ => JInt(0)))) && req.intentId == Some(id)
    requires req.executionMode == None || req.executionMode == Some("rpc")
    requires req.unsignedTxs == Some([lib.b64Encode([])]) && req.unsignedTxBase64 == Some(lib.b64Encode([]))
    ensures RespondSign(lib, req) == Failed("tx_truncated").(intentId := Some(id))
    ensures RespondPlan(lib, req) == Failed("tx_truncated")
  {
    var tx := lib.b64Encode([]);
    assert req.(unsignedTxBase64 := Some(tx)) == req;
    assert lib.b64Decode(tx) == Some([]);
    assert RequestSeed(lib, req) == NormalizeSeed(SeedBytes(req.seed.value.items));
    assert Locate([]) == Err(Truncated);
    assert SignText(lib, tx, RequestSeed(lib, req).value) == Err(Truncated);
    assert Code(Truncated) == "tx_truncated";
    RpcPlanIsSignThenSubmit(lib, req, tx);
  }

  lemma SignAllOne(lib: LawfulLibrary, tx: string, seed: Bytes)
    ensures SignAll(lib, [tx], seed) ==
      match SignText(lib, tx, seed) case Err(e) => Err(e) case Ok(s) => Ok([s])
  {
    match SignText(lib, tx, seed)
    case Err(e) => SignAllStops(lib, [tx], seed, 0);
    case Ok(s) => SignAllDone(lib, [tx], seed, [s]);
  }

  /** Leg `i` is refused, and none before it. */
  predicate FirstRefused(lib: LawfulLibrary, txs: seq<string>, seed: Bytes, i: nat) {
    && i < |txs| && SignText(lib, txs[i], seed).Err?
    && forall j :: 0 <= j < i ==> SignText(lib, txs[j], seed).Ok?
  }

  /** Which refusal a plan meets, in order of precedence: no legs, the seed's, that of the first leg
      that is refused, and only then, whatever the mode, the mode's: too many legs for jito, another
      number than one for rpc, or no such mode. */
  lemma PlanRefusals(lib: LawfulLibrary, req: Request)
    ensures req.unsignedTxs.None? || req.unsignedTxs.value == [] ==>
      RespondPlan(lib, req) == Failed("missing_unsigned_txs")
    ensures req.unsignedTxs.Some? && req.unsignedTxs.value != [] && RequestSeed(lib, req).Err? ==>
      RespondPlan(lib, req) == Failed(RequestSeed(lib, req).error)
    ensures req.unsignedTxs.Some? && req.unsignedTxs.value != [] && RequestSeed(lib, req).Ok? ==>
      var txs, seed := req.unsignedTxs.value, RequestSeed(lib, req).value;
      && (forall i: nat :: FirstRefused(lib, txs, seed, i) ==>
            RespondPlan(lib, req) == Failed(Code(SignText(lib, txs[i], seed).error)))
      && ((forall i :: 0 <= i < |txs| ==> SignText(lib, txs[i], seed).Ok?) ==>
            match req.executionMode
            case None => |txs| != 1 ==> RespondPlan(lib, req) == Failed("rpc_mode_requires_single_leg")
            case Some(mode) =>
              if mode == "jito" then |txs| > 5 ==> RespondPlan(lib, req) == Failed("bundle_too_large_max_5")
              else if mode == "rpc" then |txs| != 1 ==> RespondPlan(lib, req) == Failed("rpc_mode_requires_single_leg")
              else RespondPlan(lib, req) == Failed("invalid_execution_mode"))
  {
    hide SignText, RequestSeed, SubmitBody, Code;
    if req.unsignedTxs.Some? && RequestSeed(lib, req).Ok? {
      var txs, seed := req.unsignedTxs.value, RequestSeed(lib, req).value;
      SignAllIff(lib, txs, seed);
      forall i: nat | FirstRefused(lib, txs, seed, i)
        ensures SignAll(lib, txs, seed) == Err(SignText(lib, txs[i], seed).error)
      {
        SignAllStops(lib, txs, seed, i);
      }
    }
  }

  /** With legs and seed present and all legs signable, the plan succeeds exactly for jito with at most
      five legs and rpc with one. */
  lemma PlanSucceedsIff(lib: LawfulLibrary, req: Request)
    ensures RespondPlan(lib, req).ok <==>
      && req.unsignedTxs.Some? && req.unsignedTxs.value != []
      && RequestSeed(lib, req).Ok?
      && (forall i :: 0 <= i < |req.unsignedTxs.value| ==>
            SignText(lib, req.unsignedTxs.value[i], RequestSeed(lib, req).value).Ok?)
      && (match req.executionMode
          case None => |req.unsignedTxs.value| == 1
          case Some(mode) =>
            (mode == "jito" && |req.unsignedTxs.value| <= 5) || (mode == "rpc" && |req.unsignedTxs.value| == 1))
  {
    if req.unsignedTxs.Some? && RequestSeed(lib, req).Ok? {
      SignAllIff(lib, req.unsignedTxs.value, RequestSeed(lib, req).value);
    }
  }

  /** An envelope describes itself: it names the mode, the number of legs and the side as requested,
      carries as many signatures as legs, and has nothing else but the one body of its mode. */
  lemma EnvelopeDescribesItself(lib: LawfulLibrary, req: Request)
    requires RespondPlan(lib, req).ok
    ensures RespondPlan(lib, req).envelope.Some? && req.unsignedTxs.Some?
    ensures var env := RespondPlan(lib, req).envelope.value;
      && env.Keys == {"mode", "leg_count", "signatures", "signed_txs"}
           + (if req.side.Some? then {"side"} else {})
           + (if req.executionMode == Some("jito") then {"bundle_body"} else {"submit_body"})
      && env["mode"] == JStr(if req.executionMode == Some("jito") then "jito" else "rpc")
      && env["leg_count"] == JInt(|req.unsignedTxs.value|)
      && env["signatures"].JArr? && |env["signatures"].items| == |req.unsignedTxs.value|
      && (req.side.Some? ==> env["side"] == JStr(req.side.value))
  {
    hide SignText, RequestSeed, SubmitBody, BuildSendTransactionRequest;
    SignAllIff(lib, req.unsignedTxs.value, RequestSeed(lib, req).value);
  }

  /** The options of a submit body are the requested ones, preflight kept and three retries by default. */
  lemma SubmitOptions(req: Request)
    requires req.signedTxBase64.Some?
    ensures RespondSubmit(req).request.Some?
    ensures var options := Param(RespondSubmit(req).request.value, 1);
      && options.Get("skipPreflight") == Some(JBool(req.skipPreflight == Some(true)))
      && options.Get("maxRetries") == Some(JInt(match req.maxRetries case None => 3 case Some(n) => n))
  {
    SendBodyReads(req.signedTxBase64.value, req.skipPreflight == Some(true),
                  match req.maxRetries case None => 3 case Some(n) => n);
  }

  // ---------- main results: end to end ----------

  /** A signed leg decodes to bytes that differ from the unsigned leg's only in slot 0, which
      verifies over the leg's own message under the leg's own fee payer; `signature` is that slot in base58. */
  ghost predicate SignedLeg(lib: LawfulLibrary, unsigned: string, signedTx: string, signature: string, seed: Bytes) {
    exists tx: Bytes, out: Bytes, layout: Layout ::
      && lib.b64Decode(unsigned) == Some(tx) && lib.b64Decode(signedTx) == Some(out)
      && Locate(tx) == Ok(layout) && Locate(out) == Ok(layout) && |out| == |tx|
      && (forall i :: 0 <= i < |tx| && !(layout.sigStart <= i < layout.sigStart + 64) ==> out[i] == tx[i])
      && FeePayer(out, layout) == lib.pubKey(seed)
      && lib.verify(FeePayer(out, layout), MessageOf(out, layout), Slot(out, layout))
      && signature == lib.b58Encode(Slot(out, layout))
  }

  lemma OverwrittenSlot(tx: Bytes, layout: Layout, sig: Bytes)
    requires layout.Fits(tx) && |sig| == 64
    ensures layout.Fits(Overwrite(tx, layout.sigStart, sig))
    ensures Slot(Overwrite(tx, layout.sigStart, sig), layout) == sig
  {
  }

  lemma SignTextGivesSignedLeg(lib: LawfulLibrary, unsigned: string, seed: Bytes)
    requires SignText(lib, unsigned, seed).Ok?
    ensures var s := SignText(lib, unsigned, seed).value;
      SignedLeg(lib, unsigned, s.signedTxBase64, s.signatureB58, seed)
  {
    hide Locate;
    var tx := lib.b64Decode(unsigned).value;
    var out := SignBytes(lib, tx, seed).value;
    SignedOutputVerifies(lib, tx, seed, out);
    var layout := Locate(tx).value;
    OverwrittenSlot(tx, layout, lib.sign(seed, MessageOf(tx, layout)));
    assert lib.b64Decode(lib.b64Encode(out)) == Some(out);
  }

  /** What `sign` answers belongs together: the signature is slot 0 of the returned transaction. */
  lemma SignAnswerVerifies(lib: LawfulLibrary, req: Request)
    requires RespondSign(lib, req).ok
    ensures req.unsignedTxBase64.Some? && RequestSeed(lib, req).Ok?
    ensures var (r, seed) := (RespondSign(lib, req), RequestSeed(lib, req).value);
      && r.signedTxBase64.Some? && r.signature.Some?
      && SignedLeg(lib, req.unsignedTxBase64.value, r.signedTxBase64.value, r.signature.value, seed)
      && r.signerAddress == Some(lib.b58Encode(lib.pubKey(seed)))
  {
    SignTextGivesSignedLeg(lib, req.unsignedTxBase64.value, RequestSeed(lib, req).value);
  }

  lemma EnvelopeLegs(lib: LawfulLibrary, req: Request)
    requires RespondPlan(lib, req).ok
    ensures SignRequested(lib, req).Ok? && RespondPlan(lib, req).envelope.Some?
    ensures var env := RespondPlan(lib, req).envelope.value;
      && "signed_txs" in env && env["signed_txs"] == Strings(SignedTxs(SignRequested(lib, req).value))
      && "signatures" in env && env["signatures"] == Strings(Signatures(SignRequested(lib, req).value))
  {
    hide SignRequested, BuildJitoBundleRequest, BuildSendTransactionRequest;
  }

  /** The i-th transaction is the i-th unsigned leg signed, and the i-th signature is its slot 0. */
  ghost predicate SignedLegs(lib: LawfulLibrary, unsigned: seq<string>, legs: seq<string>, signatures: seq<string>,
                             seed: Bytes)
  {
    && |legs| == |unsigned| && |signatures| == |unsigned|
    && forall i :: 0 <= i < |unsigned| ==> SignedLeg(lib, unsigned[i], legs[i], signatures[i], seed)
  }

  /** End to end: every transaction in a successful plan's envelope is the corresponding requested leg,
      signed and verifiable, in the requested order, and every signature in it is slot 0 of the
      transaction in the same place: the first is the one the caller persists. */
  lemma PlanLegsVerify(lib: LawfulLibrary, req: Request)
    requires RespondPlan(lib, req).ok
    ensures RequestSeed(lib, req).Ok? && req.unsignedTxs.Some? && RespondPlan(lib, req).envelope.Some?
    ensures var env := RespondPlan(lib, req).envelope.value;
      && "signed_txs" in env && "signatures" in env
      && exists legs: seq<string>, signatures: seq<string> ::
           && env["signed_txs"] == Strings(legs) && env["signatures"] == Strings(signatures)
           && SignedLegs(lib, req.unsignedTxs.value, legs, signatures, RequestSeed(lib, req).value)
  {
    hide RespondPlan, SignedLegs;
    EnvelopeLegs(lib, req);
    SignedLegsVerify(lib, req.unsignedTxs.value, RequestSeed(lib, req).value);
  }

  lemma SignedLegsVerify(lib: LawfulLibrary, txs: seq<string>, seed: Bytes)
    requires SignAll(lib, txs, seed).Ok?
    ensures var signed := SignAll(lib, txs, seed).value;
      SignedLegs(lib, txs, SignedTxs(signed), Signatures(signed), seed)
  {
    hide SignedLeg, SignText;
    var signed := SignAll(lib, txs, seed).value;
    SignAllIff(lib, txs, seed);
    forall i | 0 <= i < |txs| ensures SignedLeg(lib, txs[i], SignedTxs(signed)[i], Signatures(signed)[i], seed) {
      SignTextGivesSignedLeg(lib, txs[i], seed);
    }
  }

  lemma SeedTailIsIgnored(lib: LawfulLibrary, items: seq<Json>)
    requires |items| == 64 && forall i :: 0 <= i < 64 ==> IsByte(items[i])
    ensures SeedOf(lib, JArr(items)) == SeedOf(lib, JArr(items[..32]))
  {
    assert SeedBytes(items)[..32] == SeedBytes(items[..32]);
  }

  lemma SameSeedSameLegs(lib: LawfulLibrary, req: Request, v: Json, w: Json)
    requires SeedOf(lib, v) == SeedOf(lib, w)
    ensures SignRequested(lib, req.(seed := Some(v))) == SignRequested(lib, req.(seed := Some(w)))
  {
  }

  /** Two ways of writing the same seed, such as a 64-byte secret and its first 32 bytes
      (`SeedTailIsIgnored`), are interchangeable in every op that reads it. */
  lemma SameSeedSameResponse(lib: LawfulLibrary, req: Request, v: Json, w: Json)
    requires SeedOf(lib, v) == SeedOf(lib, w)
    ensures RespondSign(lib, req.(seed := Some(v))) == RespondSign(lib, req.(seed := Some(w)))
    ensures RespondSignBundle(lib, req.(seed := Some(v))) == RespondSignBundle(lib, req.(seed := Some(w)))
    ensures RespondPlan(lib, req.(seed := Some(v))) == RespondPlan(lib, req.(seed := Some(w)))
  {
    hide SignText, SignAll, SeedOf, RespondPlan, RespondSignBundle;
    SameSeedSameLegs(lib, req, v, w);
    PlanAlike(lib, req.(seed := Some(v)), req.(seed := Some(w)));
  }

  /** Two seed fields that no response can tell apart: refused alike, or of one public key and the same
      signature for every message. */
  ghost predicate LooksAlike(lib: LawfulLibrary, v: Json, w: Json) {
    match (SeedOf(lib, v), SeedOf(lib, w))
    case (Err(e), Err(f)) => e == f
    case (Ok(s), Ok(t)) => lib.pubKey(s) == lib.pubKey(t) && forall m: Bytes :: lib.sign(s, m) == lib.sign(t, m)
    case _ => false
  }

  lemma {:induction false} SignAllBlind(lib: LawfulLibrary, txs: seq<string>, s: Bytes, t: Bytes)
    requires |s| == 32 && |t| == 32 && lib.pubKey(s) == lib.pubKey(t)
    requires forall m: Bytes :: lib.sign(s, m) == lib.sign(t, m)
    ensures SignAll(lib, txs, s) == SignAll(lib, txs, t)
  {
    if txs != [] {
      SignTextBlind(lib, txs[0], s, t);
      SignAllBlind(lib, txs[1..], s, t);
    }
  }

  lemma SignTextBlind(lib: LawfulLibrary, tx: string, s: Bytes, t: Bytes)
    requires |s| == 32 && |t| == 32 && lib.pubKey(s) == lib.pubKey(t)
    requires forall m: Bytes :: lib.sign(s, m) == lib.sign(t, m)
    ensures SignText(lib, tx, s) == SignText(lib, tx, t)
  {
  }

  /** No seed is echoed, in any response of any op: a response depends on the seed field only through
      its refusal, or through the public key and the signatures. */
  lemma SeedIsNotEchoed(lib: LawfulLibrary, req: Request, v: Json, w: Json)
    requires LooksAlike(lib, v, w)
    ensures Respond(lib, req.(seed := Some(v))) == Respond(lib, req.(seed := Some(w)))
  {
    hide LooksAlike, SignRequested;
    hide RespondSign, RespondSignBundle, RespondPlan, RespondSubmit, RespondBundle, RespondTip;
    var a, b := req.(seed := Some(v)), req.(seed := Some(w));
    SignAlike(lib, req, v, w);
    LegsAlike(lib, req, v, w);
    PlanAlike(lib, a, b);
    SeedlessAlike(a, b);
  }

  lemma LegsAlike(lib: LawfulLibrary, req: Request, v: Json, w: Json)
    requires LooksAlike(lib, v, w)
    ensures SignRequested(lib, req.(seed := Some(v))) == SignRequested(lib, req.(seed := Some(w)))
  {
    hide SignText, SignAll, SeedOf, Code;
    if SeedOf(lib, v).Ok? && req.unsignedTxs.Some? {
      SignAllBlind(lib, req.unsignedTxs.value, SeedOf(lib, v).value, SeedOf(lib, w).value);
    }
  }

  lemma SignAlike(lib: LawfulLibrary, req: Request, v: Json, w: Json)
    requires LooksAlike(lib, v, w)
    ensures RespondSign(lib, req.(seed := Some(v))) == RespondSign(lib, req.(seed := Some(w)))
  {
    hide SignText, SignAll, SeedOf, Code;
    if SeedOf(lib, v).Ok? && req.unsignedTxBase64.Some? {
      SignTextBlind(lib, req.unsignedTxBase64.value, SeedOf(lib, v).value, SeedOf(lib, w).value);
    }
  }

  lemma SeedlessAlike(a: Request, b: Request)
    requires b == a.(seed := b.seed)
    ensures RespondSubmit(a) == RespondSubmit(b) && RespondBundle(a) == RespondBundle(b)
    ensures RespondTip(a) == RespondTip(b)
  {
  }

  lemma PlanAlike(lib: LawfulLibrary, a: Request, b: Request)
    requires b == a.(seed := b.seed) && SignRequested(lib, a) == SignRequested(lib, b)
    ensures RespondSignBundle(lib, a) == RespondSignBundle(lib, b) && RespondPlan(lib, a) == RespondPlan(lib, b)
  {
    hide SignRequested, BuildJitoBundleRequest, BuildSendTransactionRequest;
  }

  // ---------- the request/response loop ----------

  /** A line as the loop meets it: unreadable, blank, not a request, or a request. */
  datatype Line = Unreadable | Blank | Malformed | Parsed(req: Request)

  predicate Answered(line: Line) {
    line.Malformed? || line.Parsed?
  }

  function Answer(lib: LawfulLibrary, line: Line): Response
    requires Answered(line)
  {
    if line.Malformed? then Failed("invalid_json") else Respond(lib, line.req)
  }

  /** The lines that get an answer, in order. */
  function AnsweredLines(lines: seq<Line>): (r: seq<Line>)
    ensures forall i :: 0 <= i < |r| ==> Answered(r[i])
  {
    if lines == [] then []
    else if Answered(lines[0]) then [lines[0]] + AnsweredLines(lines[1..])
    else AnsweredLines(lines[1..])
  }

  /** The responses to a whole input. */
  function Transcript(lib: LawfulLibrary, lines: seq<Line>): seq<Response> {
    var answered := AnsweredLines(lines);
    seq(|answered|, i requires 0 <= i < |answered| => Answer(lib, answered[i]))
  }

  /** The loop, with an output that accepts `capacity` writes before one fails (None: never).
      The k-th response answers the k-th answerable line and nothing else, so a caller can match
      responses to requests first in, first out; a failed write only cuts the transcript short. */
  method Serve(lib: LawfulLibrary, lines: seq<Line>, capacity: Option<nat>) returns (out: seq<Response>)
    ensures var answered := AnsweredLines(lines);
      && |out| == (if capacity.Some? && capacity.value < |answered| then capacity.value else |answered|)
      && forall k :: 0 <= k < |out| ==> out[k] == Answer(lib, answered[k])
    ensures out == Transcript(lib, lines)[..|out|]
  {
    out := [];
    for i := 0 to |lines|
      invariant |out| <= |AnsweredLines(lines)|
      invariant AnsweredLines(lines)[|out|..] == AnsweredLines(lines[i..])
      invariant capacity.Some? ==> |out| <= capacity.value
      invariant forall k :: 0 <= k < |out| ==> out[k] == Answer(lib, AnsweredLines(lines)[k])
    {
      assert lines[i..][1..] == lines[i + 1..];
      var line := lines[i];
      if line.Unreadable? || line.Blank? {
        continue;
      }
      assert AnsweredLines(lines)[|out|..][0] == line;
      var resp;
      if line.Malformed? {
        resp := Failed("invalid_json");
      } else {
        resp := Handle(lib, line.req);
      }
      if capacity == Some(|out|) {
        break;
      }
      ghost var was := out;
      out := out + [resp];
      assert AnsweredLines(lines)[|out|..] == AnsweredLines(lines)[|was|..][1..];
    }
  }

  lemma {:induction false} AnsweredConcat(a: seq<Line>, b: seq<Line>)
    ensures AnsweredLines(a + b) == AnsweredLines(a) + AnsweredLines(b)
  {
    if a == [] {
      assert a + b == b;
    } else {
      assert (a + b)[1..] == a[1..] + b;
      AnsweredConcat(a[1..], b);
    }
  }

  /** The service keeps nothing between lines: the responses to two inputs, one after the other, are the
      responses to each on its own. What a line is answered does not depend on the lines before it. */
  lemma ServeIsStateless(lib: LawfulLibrary, a: seq<Line>, b: seq<Line>)
    ensures Transcript(lib, a + b) == Transcript(lib, a) + Transcript(lib, b)
    ensures AnsweredLines(a + b) == AnsweredLines(a) + AnsweredLines(b)
  {
    hide Answer;
    AnsweredConcat(a, b);
  }
}
