/** Request bodies and tip selection (services/hot-executor/src/submit.rs). */
module Submit {
  import opened Wrappers

  datatype Json =
    | JNull
    | JBool(b: bool)
    | JInt(n: int)
    | JReal(x: real)
    | JStr(s: string)
    | JArr(items: seq<Json>)
    | JObj(fields: map<string, Json>)
  {
    /** `get` on a JSON value: only objects have fields. */
    function Get(key: string): Option<Json> {
      if JObj? && key in fields then Some(fields[key]) else None
    }

    function AsNumber(): Option<real> {
      match this
      case JInt(n) => Some(n as real)
      case JReal(x) => Some(x)
      case _ => None
    }
  }

  function Strings(texts: seq<string>): Json {
    JArr(seq(|texts|, i requires 0 <= i < |texts| => JStr(texts[i])))
  }

  function RpcBody(rpcMethod: string, parameters: seq<Json>): Json {
    JObj(map["jsonrpc" := JStr("2.0"), "id" := JInt(1), "method" := JStr(rpcMethod), "params" := JArr(parameters)])
  }

  function BuildSendTransactionRequest(signedTxBase64: string, skipPreflight: bool, maxRetries: nat): Json {
    RpcBody("sendTransaction", [
      JStr(signedTxBase64),
      JObj(map["encoding" := JStr("base64"), "skipPreflight" := JBool(skipPreflight), "maxRetries" := JInt(maxRetries)])
    ])
  }

  function BuildJitoBundleRequest(signedTxs: seq<string>): (r: Result<Json, string>)
    ensures r.Ok? <==> 1 <= |signedTxs| <= 5
  {
    if |signedTxs| == 0 then Err("bundle_empty")
    else if |signedTxs| > 5 then Err("bundle_too_large_max_5")
    else Ok(RpcBody("sendBundle", [Strings(signedTxs), JObj(map["encoding" := JStr("base64")])]))
  }

  // ---------- reading a body back, as its receiver does ----------

  function Param(body: Json, i: nat): Json {
    match body.Get("params")
    case None => JNull
    case Some(p) => if p.JArr? && i < |p.items| then p.items[i] else JNull
  }

  function ReadStrings(v: Json): seq<string> {
    if v.JArr? then
      seq(|v.items|, i requires 0 <= i < |v.items| => if v.items[i].JStr? then v.items[i].s else "")
    else []
  }

  /** The receiver of a `sendTransaction` body finds the transaction and both options where JSON-RPC
      says they are. */
  lemma SendBodyReads(tx: string, skipPreflight: bool, maxRetries: nat)
    ensures var body := BuildSendTransactionRequest(tx, skipPreflight, maxRetries);
      && body.JObj? && body.fields.Keys == {"jsonrpc", "id", "method", "params"}
      && body.Get("jsonrpc") == Some(JStr("2.0")) && body.Get("id") == Some(JInt(1))
      && body.Get("method") == Some(JStr("sendTransaction"))
      && Param(body, 0) == JStr(tx)
      && Param(body, 1).Get("skipPreflight") == Some(JBool(skipPreflight))
      && Param(body, 1).Get("maxRetries") == Some(JInt(maxRetries))
      && Param(body, 1).Get("encoding") == Some(JStr("base64"))
  {
  }

  /** The receiver of a `sendBundle` body finds the same transactions in the same order. */
  lemma BundleBodyReads(txs: seq<string>)
    requires 1 <= |txs| <= 5
    ensures var body := BuildJitoBundleRequest(txs).value;
      && body.JObj? && body.fields.Keys == {"jsonrpc", "id", "method", "params"}
      && body.Get("jsonrpc") == Some(JStr("2.0")) && body.Get("id") == Some(JInt(1))
      && body.Get("method") == Some(JStr("sendBundle"))
      && ReadStrings(Param(body, 0)) == txs
      && Param(body, 1).Get("encoding") == Some(JStr("base64"))
  {
    assert ReadStrings(Strings(txs)) == txs;
  }

  // ---------- tip selection ----------

  datatype TipLevel = Low | Normal | Aggressive

  const TIP_FLOOR_LAMPORTS: nat := 1000
  const TIP_CEILING: real := 1000000000000.0

  function PercentileKey(level: TipLevel): string {
    match level
    case Low => "landed_tips_25th_percentile"
    case Normal => "landed_tips_50th_percentile"
    case Aggressive => "landed_tips_75th_percentile"
  }

  /** Rust's `f64::round` in exact arithmetic: to the nearest integer, ties away from zero. */
  function RoundAway(x: real): int {
    if x >= 0.0 then (x + 0.5).Floor else -((-x + 0.5).Floor)
  }

  /** The requested percentile in SOL, zero when it is missing or not a number. */
  function Percentile(tipFloor: Json, level: TipLevel): real {
    var record := if tipFloor.JArr? then (if |tipFloor.items| > 0 then tipFloor.items[0] else JNull) else tipFloor;
    match record.Get(PercentileKey(level))
    case None => 0.0
    case Some(v) => match v.AsNumber() { case None => 0.0 case Some(x) => x }
  }

  function SelectTipLamports(tipFloor: Json, level: TipLevel): (tip: nat)
    ensures TIP_FLOOR_LAMPORTS <= tip < 1000000000000
  {
    var lamports := RoundAway(Percentile(tipFloor, level) * 1000000000.0);
    if TIP_FLOOR_LAMPORTS <= lamports && (lamports as real) < TIP_CEILING then lamports else TIP_FLOOR_LAMPORTS
  }

  /** Nearest, and away from zero from the middle. */
  lemma RoundAwayIff(x: real, n: int)
    ensures RoundAway(x) == n <==>
      || -0.5 < x - n as real < 0.5
      || (x > 0.0 && x - n as real == -0.5)
      || (x < 0.0 && x - n as real == 0.5)
  {
  }

  /** What a number a JSON value is: integers and reals are, nothing else is. */
  predicate IsNumber(v: Json, x: real) {
    v == JReal(x) || (v.JInt? && v.n as real == x)
  }

  /** The tip of a percentile, exactly: the nearest lamport between floor and ceiling, from the middle
      up; the floor below and past them. */
  lemma TipIs(fields: map<string, Json>, level: TipLevel, x: real, n: int)
    requires PercentileKey(level) in fields && IsNumber(fields[PercentileKey(level)], x)
    ensures var lamports := x * 1000000000.0;
      SelectTipLamports(JObj(fields), level) == n <==>
        if lamports < 1000.5 || lamports >= 999999999999.5 then n == 1000
        else n as real - 0.5 <= lamports < n as real + 0.5
  {
    RoundAwayIff(x * 1000000000.0, n);
    RoundAwayIff(x * 1000000000.0, 1000);
    RoundAwayIff(x * 1000000000.0, 1000000000000);
  }

  /** Without a number to read the tip is the floor: a record that is no object, lacks the percentile or
      has something else there, or an empty list. */
  lemma TipFallsBack(record: Json, level: TipLevel)
    requires record.JArr? ==> record.items == []
    requires record.JObj? && PercentileKey(level) in record.fields ==>
      !record.fields[PercentileKey(level)].JInt? && !record.fields[PercentileKey(level)].JReal?
    ensures SelectTipLamports(record, level) == 1000
    ensures !record.JArr? ==> SelectTipLamports(JArr([record]), level) == 1000
  {
    assert RoundAway(0.0 * 1000000000.0) == 0;
  }

  lemma RoundAwayMonotone(x: real, y: real)
    requires x <= y
    ensures RoundAway(x) <= RoundAway(y)
  {
  }

  /** A larger percentile gives no smaller tip unless it is past the ceiling, where the tip drops back
      to the floor, and the smaller one is plausible and above the floor. */
  lemma TipMonotoneIff(a: Json, b: Json, level: TipLevel)
    requires Percentile(a, level) <= Percentile(b, level)
    ensures SelectTipLamports(a, level) <= SelectTipLamports(b, level) <==>
      || RoundAway(Percentile(b, level) * 1000000000.0) < 1000000000000
      || RoundAway(Percentile(a, level) * 1000000000.0) <= TIP_FLOOR_LAMPORTS
      || RoundAway(Percentile(a, level) * 1000000000.0) >= 1000000000000
  {
    RoundAwayMonotone(Percentile(a, level) * 1000000000.0, Percentile(b, level) * 1000000000.0);
  }

  /** Each level reads its own percentile, from the record or from the first record of a list, and a
      plausible percentile gives the nearest whole number of lamports. */
  lemma TipReads(p25: real, p50: real, p75: real, level: TipLevel)
    ensures var record := JObj(map["landed_tips_25th_percentile" := JReal(p25),
                                   "landed_tips_50th_percentile" := JReal(p50),
                                   "landed_tips_75th_percentile" := JReal(p75)]);
      var lamports := (match level case Low => p25 case Normal => p50 case Aggressive => p75) * 1000000000.0;
      && SelectTipLamports(JArr([record]), level) == SelectTipLamports(record, level)
      && (1000.0 <= lamports < 999999999999.0 ==>
            -0.5 <= SelectTipLamports(record, level) as real - lamports <= 0.5)
  {
    var record := JObj(map["landed_tips_25th_percentile" := JReal(p25),
                           "landed_tips_50th_percentile" := JReal(p50),
                           "landed_tips_75th_percentile" := JReal(p75)]);
    assert PercentileKey(Low)[12] == '2' && PercentileKey(Normal)[12] == '5' && PercentileKey(Aggressive)[12] == '7';
    assert Percentile(record, level) == match level case Low => p25 case Normal => p50 case Aggressive => p75;
  }

  /** It does drop: a percentile of 1000 SOL gives a smaller tip than one of half a SOL. */
  lemma TipCanDrop()
    ensures var half := JObj(map["landed_tips_50th_percentile" := JReal(0.5)]);
      var thousand := JObj(map["landed_tips_50th_percentile" := JReal(1000.0)]);
      Percentile(half, Normal) < Percentile(thousand, Normal) &&
      SelectTipLamports(thousand, Normal) == 1000 < SelectTipLamports(half, Normal) == 500000000
  {
    assert RoundAway(0.5 * 1000000000.0) == 500000000;
    assert RoundAway(1000.0 * 1000000000.0) == 1000000000000;
  }
}
