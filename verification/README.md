# Verified model of the trading bot's signing, guarding, resolving and reporting code

This project models, in Dafny 4.11, the four parts of the trading bot whose correctness is subtle,
and proves what each is for.

* **The hot executor** (Rust). `Primitives` (Ed25519, base64 and base58 as values constrained by a few
  laws), `Shortvec` (the length prefix), `Signer` (parse, check the fee payer, overwrite slot 0 in
  place), `Wire` (the transaction format itself and what the signer does to it), `Submit` (request
  bodies and the tip), `Executor` (the request handler and the line loop), `Answers` (what each op
  answers, by name and by field).
* **The mechanism guard** (JavaScript). `Tokens` (the grammar), `Views` (the two renderings), `LexLaws`
  (both renderings, equation by equation), `Guard` (the single-pass lexer and the scanner).
* **The token-metadata resolver** (JavaScript). `TokenMeta` (a state machine whose steps are what runs
  between two awaits, with every interleaving of timeouts and replies), `Resolved` (whether a resolved
  mint stays resolved) and `Resolver` (the code over its mutable variables, proved to take those steps).
* **The analytics reports** (Python, and one fold of the operator UI). `Rounding`, `Grouping`
  (aggregation by key, insertion-ordered dictionaries, stable sort), `Events` (the join of exits to
  leaders), `Leaders` (the two reports), `LeaderLaws`, `Columns` (the reports' figures, from the
  log), `Drawdown`, `Backtest`, `Recommend`.

`dafny verify dfyconfig.toml` checks everything.

Loops of the sources are methods proved equal to a specification function; the laws are lemmas about
those functions. Numbers in the reports are exact reals; Python's `round` and JavaScript's `Math.round`
are modelled as they are, ties included. Times are microseconds as integers. Bytes are integers below 256.

## What the proofs found

* `read_compact_u16` accepts 21 bits and padded forms (`Shortvec.AcceptsMoreThanU16`): a length leaves
  16 bits exactly when the third byte is 4 or more (`Shortvec.BeyondU16Iff`), and is in shortest form
  exactly when it has one byte or does not end in a zero byte (`Shortvec.CanonicalIff`).
* A refused leg of an rpc plan loses the correlation id that `sign` echoes (`Executor.RefusedLegLosesId`);
  the two refusals are equal exactly when there is no id or the seed is refused
  (`Executor.RefusedLegIff`). Otherwise the plan is the composition of the smaller ops
  (`Executor.RpcPlanIsSignThenSubmit`).
* A larger percentile can give a smaller tip: past the ceiling the tip drops to the floor
  (`Submit.TipCanDrop`); `Submit.TipMonotoneIff` says for exactly which pairs of percentiles it does not.
* `noStrings` does not keep the source's line count when a string literal spans lines
  (`Views.StringNewlineIsLost`), and does in every other case (`Views.NewlinesKept`).
* A resolved token can turn into a known miss: a mint asked for again while its request is in flight is
  sent twice (`Resolved.ResolvedMayRegress`). From a state on, resolved mints are safe exactly if no mint
  in flight is also cached, queued or in another request (`Resolved.StableIff`); so a request is safe
  exactly if it asks for no mint in flight (`Resolved.PoliteIff`), and every request that does so can be
  followed by the regress (`Resolved.ImpoliteRegresses`).
* Line 21 of the resolver, which re-arms the timer after an empty batch, never does so
  (`TokenMeta.FireSends`).
* The docstring of `leader_metrics` bounds the window by `now`; the code does not, and the model follows
  the code. The report is that of the log without later exits exactly if it counts no exit later than
  `now` (`LeaderLaws.UpperBoundIff`); `LeaderLaws.FutureExitCounts` is a log where the two differ.

## Model

| member | source | states |
|---|---|---|
| Shortvec.ReadCompactU16 | services/hot-executor/src/signer.rs:35-55 | the decoding loop never indexes out of bounds; a success is a length group at the offset and the value it denotes |
| Shortvec.DecodeIff | services/hot-executor/src/signer.rs:35-55 | decoding succeeds with a value and an end exactly when a one-to-three-byte group denoting that value stands there |
| Shortvec.DecodeErrorsIff | services/hot-executor/src/signer.rs:40-52 | overflow exactly after three continuing bytes; truncation exactly when the buffer ends while continuing |
| Shortvec.DecodeEncode | services/hot-executor/src/signer.rs:34-55 | every encoded length is read back, whatever stands before and after it |
| Shortvec.DecodeLocal | services/hot-executor/src/signer.rs:35-55 | the result depends on the consumed bytes alone |
| Shortvec.BeyondU16Iff | services/hot-executor/src/signer.rs:49-52 | values stay below 2^21 and leave 16 bits exactly when a third byte is at least 4 |
| Shortvec.CanonicalIff | services/hot-executor/src/signer.rs:35-55 | an accepted group is the shortest encoding exactly when it has one byte or does not end in a zero byte |
| Shortvec.AcceptsMoreThanU16 | services/hot-executor/src/signer.rs:35-55 | a padded length and a length past 16 bits that are accepted |
| Signer.SignInPlace | services/hot-executor/src/signer.rs:72-106 | on refusal the buffer is unchanged and the error is the specified one; on success the buffer is the specified signed transaction; no index is out of bounds |
| Signer.FindKeys | services/hot-executor/src/signer.rs:82-94 | locating key 0 in the message agrees with the specification, errors included |
| Signer.SignSerializedTransaction | services/hot-executor/src/signer.rs:66-113 | base64 in, base64 out: the specified signed transaction, signature and address, or the specified error |
| Signer.SignedOutputVerifies | services/hot-executor/src/signer.rs:72-112 | the output differs from the input only in slot 0, parses alike, and its slot 0 verifies over its own message under its own fee payer |
| Signer.SignIdempotent | services/hot-executor/src/signer.rs:76-106 | signing the output again gives the same output |
| Signer.SignIgnoresOldSlot | services/hot-executor/src/signer.rs:72-106 | the old 64 bytes of slot 0 change neither a success nor any error, for every input with a readable count and that many bytes after it |
| Signer.OnlyTheFeePayerSigns | services/hot-executor/src/signer.rs:95-102 | of a signable transaction, another seed of the right size succeeds exactly if it has the same public key and otherwise meets the mismatch refusal |
| Wire.SignSerialized | services/hot-executor/src/signer.rs:66-113 | signing commutes with serialising: it succeeds exactly when key 0 is the seed's, and yields the same transaction with slot 0 replaced by the signature of the serialised message |
| Wire.SignableIff | services/hot-executor/src/signer.rs:66-113 | a byte string is signed exactly when it has a well-formed cut whose fee payer is the seed's key |
| Wire.PartsUnique | services/hot-executor/src/signer.rs:72-95 | that cut is unique |
| Wire.RefusalsIff | services/hot-executor/src/signer.rs:72-102 | for each refusal, truncation included, exactly which byte strings meet it |
| Submit.BundleBodyReads | services/hot-executor/src/submit.rs:25-38 | a receiver finds the same transactions in the same order |
| Submit.BuildJitoBundleRequest | services/hot-executor/src/submit.rs:25-38 | a body is built exactly for one to five transactions |
| Submit.SelectTipLamports | services/hot-executor/src/submit.rs:51-69 | the tip lies between the protocol floor and the ceiling |
| Submit.TipMonotoneIff | services/hot-executor/src/submit.rs:62-68 | for exactly which two percentiles the larger does not give a smaller tip |
| Submit.TipCanDrop | services/hot-executor/src/submit.rs:62-68 | a larger percentile with a smaller tip |
| Submit.TipReads | services/hot-executor/src/submit.rs:51-69 | each level reads its own percentile, from a record or a list, and a plausible one gives the nearest lamport |
| Submit.TipIs | services/hot-executor/src/submit.rs:51-69 | exactly which tip a percentile gives: the nearest lamport, the middle up, between floor and ceiling, and the floor below and past them |
| Submit.TipFallsBack | services/hot-executor/src/submit.rs:51-68 | without a number to read the tip is the floor |
| Executor.SeedFromValue | services/hot-executor/src/main.rs:93-110 | text or byte array to a 32-byte seed, or the specified error |
| Executor.SignLegs | services/hot-executor/src/main.rs:181-191 | the signing loop pushes all legs in order or stops with the first refusal |
| Executor.SignAllIff | services/hot-executor/src/main.rs:155-161 | success is every leg signed, in order; failure is the error of the first refused leg |
| Executor.Handle | services/hot-executor/src/main.rs:112-255 | every request gets the specified response |
| Answers.MissingInputs | services/hot-executor/src/main.rs:112-255 | the code of every request that lacks an input or names no op |
| Answers.SignRefusalTexts | services/hot-executor/src/main.rs:115-144 | each refusal text of sign is answered exactly for the byte strings that are wrong in its way |
| Answers.SignAnswer | services/hot-executor/src/main.rs:115-139 | all fields of a successful sign: a signed leg, its slot 0, the address, the correlation id, and nothing else |
| Answers.SignBundleAnswer | services/hot-executor/src/main.rs:145-164 | all fields of sign_bundle, and exactly when it succeeds |
| Answers.PlanAnswer | services/hot-executor/src/main.rs:170-221 | all fields of a successful plan; the one body of its envelope carries the signed transactions of the envelope, in order |
| Answers.SubmitAnswer | services/hot-executor/src/main.rs:222-234 | all fields of build_submit; its body carries the given transaction and the requested options |
| Answers.BundleAnswer | services/hot-executor/src/main.rs:235-241 | all fields of build_bundle; its body carries the given transactions in order |
| Answers.TipAnswer | services/hot-executor/src/main.rs:242-253 | select_tip answers with the tip of the percentile its level names, the median by default |
| Answers.SeedFromText | services/hot-executor/src/main.rs:83-97 | exactly which texts give which seed, and which of the two refusals the others meet |
| Answers.SeedFromBytes | services/hot-executor/src/main.rs:83-110 | the same of byte arrays: the first 32 numbers as they are |
| Answers.LineAnswers | services/hot-executor/src/main.rs:261-281 | what a request, a malformed, a blank and an unreadable line add to the output |
| Executor.Respond | services/hot-executor/src/main.rs:112-255 | every response is all or nothing: a refusal carries only its code and correlation id |
| Executor.JitoPlanIsSignThenBundle | services/hot-executor/src/main.rs:170-221 | a jito plan answers as sign_bundle then build_bundle: same error response, or same legs and body |
| Executor.RpcPlanIsSignThenSubmit | services/hot-executor/src/main.rs:170-234 | a one-leg rpc plan answers as sign then build_submit, but for the correlation id of a refusal |
| Executor.RefusedLegIff | services/hot-executor/src/main.rs:115-191 | such a plan is refused exactly when sign refuses, and alike exactly when there is no correlation id or the seed is refused |
| Executor.RefusedLegLosesId | services/hot-executor/src/main.rs:115-191 | a refused leg whose correlation id is in the answer of sign and not in that of the plan |
| Executor.PlanSucceedsIff | services/hot-executor/src/main.rs:170-221 | exactly which plans succeed |
| Executor.PlanRefusals | services/hot-executor/src/main.rs:170-217 | which error every other plan gives: missing legs before the seed, the seed before the first refused leg, and the mode last |
| Executor.EnvelopeDescribesItself | services/hot-executor/src/main.rs:192-219 | an envelope holds exactly the mode, leg count, side, signatures, legs and the one body of its mode, as requested |
| Executor.PlanLegsVerify | services/hot-executor/src/main.rs:181-220 | every transaction in an envelope is the requested leg with a signature that verifies, in order, and the i-th signature is slot 0 of the i-th transaction |
| Executor.SignAnswerVerifies | services/hot-executor/src/main.rs:115-139 | the same of one signed leg: the answered signature is slot 0 of the answered transaction, and the address is the seed's |
| Executor.SeedTailIsIgnored | services/hot-executor/src/main.rs:83-110 | a 64-byte secret and its first 32 bytes give the same seed |
| Executor.SeedIsNotEchoed | services/hot-executor/src/main.rs:112-255 | the header's promise that no seed is echoed: every response of every op is the same for two seeds of one public key and equal signatures: nothing else of the seed shows |
| Executor.Serve | services/hot-executor/src/main.rs:257-282 | the k-th response answers the k-th readable nonblank line; a failed write only cuts the transcript short |
| Tokens.TokenizeIsValid | tools/check-mechanism-guards.mjs:30-70 | every source splits exactly into valid code characters, comments and strings |
| Tokens.TokenizeUnlex | tools/check-mechanism-guards.mjs:30-70 | the split is unique: a valid token list is read back from its text |
| Guard.Lex | tools/check-mechanism-guards.mjs:30-70 | the single pass, overshooting index included, computes the two renderings of the tokens |
| LexLaws.CodeShows | tools/check-mechanism-guards.mjs:36-68 | a character that opens neither comment nor string stays, in both views, before any text |
| LexLaws.LineShows | tools/check-mechanism-guards.mjs:38-42 | a line comment is a blank, up to its newline |
| LexLaws.BlockShows | tools/check-mechanism-guards.mjs:43-52 | a block comment is as many newlines as it has and a blank |
| LexLaws.OpenBlockShows | tools/check-mechanism-guards.mjs:43-52 | so is one that never ends |
| LexLaws.StringShows | tools/check-mechanism-guards.mjs:53-66 | a literal in any of the three quotes, escapes included, stays in noComments whatever it contains, and is its two quotes in noStrings |
| LexLaws.OpenStringShows | tools/check-mechanism-guards.mjs:53-66 | one that never ends runs to the end of the source, half an escape included |
| LexLaws.TextsJoin | tools/check-mechanism-guards.mjs:30-70 | the views of two texts end to end are those of each, unless a token runs on |
| Views.ViewsCommute | tools/check-mechanism-guards.mjs:30-73 | the two views are fixpoints and commute |
| Views.SimplifyAllReads | tools/check-mechanism-guards.mjs:38-67 | a view is the text of a valid token list, whose own views are those of the source |
| Views.NothingIsCreated | tools/check-mechanism-guards.mjs:38-67 | a view read again has no comment, and its string literals are the source's, in order |
| Views.CommentShows | tools/check-mechanism-guards.mjs:38-52 | a comment shows in both views as the newlines of its text and a blank, and nothing else |
| Views.NewlinesKept | tools/check-mechanism-guards.mjs:43-52 | noComments keeps every newline; noStrings loses exactly those in strings |
| Views.StringNewlineIsLost | tools/check-mechanism-guards.mjs:53-66 | a source whose noStrings view has fewer lines |
| Guard.ScanText | tools/check-mechanism-guards.mjs:157-180 | the scanner returns the specified violations in order |
| Guard.ScanReports | tools/check-mechanism-guards.mjs:157-180 | exactly which violations are reported, under an allowlist entry and outside every one, with the clipped match |
| Guard.VerdictIgnoresComments | tools/check-mechanism-guards.mjs:157-180 | sources that differ only in comments, of any kind and text but with as many newlines, get identical violations |
| Guard.MechanismsIgnoreStrings | tools/check-mechanism-guards.mjs:175-178 | mechanism violations do not depend on what stands in strings or, newlines apart, in comments |
| Guard.VerdictOfStripped | tools/check-mechanism-guards.mjs:157-180 | scanning the stripped text gives the same violations |
| Guard.AllowedIff | tools/check-mechanism-guards.mjs:130-138 | an entry, with or without a closing slash, admits itself and what lies under it, by whole path segments |
| Guard.AllowlistIff | tools/check-mechanism-guards.mjs:130-138 | the carve-out is exactly what lies under some entry of the allowlist |
| TokenMeta.StepKeepsInv | apps/operator-ui/src/api/useTokenMeta.js:15-43 | a set timer is a timeout still scheduled; a nonempty queue has a timeout or a reply to come |
| TokenMeta.RunKeepsInv | apps/operator-ui/src/api/useTokenMeta.js:15-43 | that holds after every run |
| TokenMeta.ReachableInv | apps/operator-ui/src/api/useTokenMeta.js:8-43 | in particular in every state reachable from the module's initial one |
| TokenMeta.RunConserves | apps/operator-ui/src/api/useTokenMeta.js:15-43 | over every run no mint is lost and none invented; cached mints stay cached |
| TokenMeta.FireSends | apps/operator-ui/src/api/useTokenMeta.js:15-22 | a timeout sends nothing and leaves the queue empty, or sends 1 to 100 distinct uncached mints |
| TokenMeta.FireTakes | apps/operator-ui/src/api/useTokenMeta.js:15-22 | it takes a hundred of the waiting mints, or all if there are fewer, and leaves the rest queued |
| TokenMeta.ReplyStores | apps/operator-ui/src/api/useTokenMeta.js:22-35 | a good reply caches the metadata it has and a miss for each other mint of its batch, and changes no other value |
| TokenMeta.QuietRunIsShort | apps/operator-ui/src/api/useTokenMeta.js:15-35 | without new requests a run takes at most the work at hand plus 200 steps a failed reply |
| TokenMeta.QuietRunDrains | apps/operator-ui/src/api/useTokenMeta.js:15-35 | such a run ends with an empty queue, nothing in flight and every known mint cached |
| TokenMeta.SerialRunSends | apps/operator-ui/src/api/useTokenMeta.js:16-34 | a burst is sent as the queue cut into hundreds, in order |
| TokenMeta.BurstCost | apps/operator-ui/src/api/useTokenMeta.js:16-42 | k distinct new mints cost exactly ceil(k/100) requests and each is sent once |
| Resolved.ResolvedMayRegress | apps/operator-ui/src/api/useTokenMeta.js:22-42 | a run from the initial state in which a resolved mint turns into a miss |
| Resolved.RequestExclusiveIff | apps/operator-ui/src/api/useTokenMeta.js:37-43 | a request keeps every mint in flight out of cache, queue and other requests exactly if it asks for none of them |
| Resolved.PoliteRunKeepsValues | apps/operator-ui/src/api/useTokenMeta.js:15-43 | if no caller asks for a mint in flight, cached values never change |
| Resolved.StableIff | apps/operator-ui/src/api/useTokenMeta.js:8-43 | cached values stay as they are in every such run from a state exactly if no mint in flight there is cached, queued or in flight twice |
| Resolved.PoliteIff | apps/operator-ui/src/api/useTokenMeta.js:37-43 | a request leaves that so exactly if it asks for no mint in flight |
| Resolved.ImpoliteRegresses | apps/operator-ui/src/api/useTokenMeta.js:15-43 | any request for a mint in flight can be followed by a run that resolves it, to any value, and then turns it into a miss |
| Resolved.SentOnce | apps/operator-ui/src/api/useTokenMeta.js:15-43 | without a failed reply or a request for a mint in flight, no mint is ever sent twice, and none that is cached or in flight at all |
| Resolver.TokenMetaResolver.RequestTokenMeta | apps/operator-ui/src/api/useTokenMeta.js:37-43 | the loop takes the specified request step |
| Resolver.TokenMetaResolver.Flush | apps/operator-ui/src/api/useTokenMeta.js:15-22 | flush up to its await takes the specified step |
| Resolver.TokenMetaResolver.Reply | apps/operator-ui/src/api/useTokenMeta.js:22-35 | the continuation takes the specified reply step, failed or not |
| Events.MapPositions | services/analytics/analytics/score_leaders.py:47-53 | the entry loop computes the specified map |
| Events.PosLeaderIff | services/analytics/analytics/leader_report.py:53-59 | a position's leader is the one its last naming entry names, if any |
| Events.NamesLeaderIff | services/analytics/analytics/score_leaders.py:17-53 | which event kinds name a leader, and that leader counts before leader_address |
| Events.IsExitIff | services/analytics/analytics/score_leaders.py:18-58 | which event kinds realise an amount, and which amounts count |
| Leaders.PositionsRealized | services/analytics/analytics/score_leaders.py:42-66 | the exit loop builds the dictionary of position totals in order of first counted exit |
| Leaders.ScoreLeaders | services/analytics/analytics/score_leaders.py:69-97 | the script returns the specified ranked scores |
| Leaders.LeaderReport | services/analytics/analytics/leader_report.py:49-124 | the report returns the specified ranked metrics for its cutoff |
| Leaders.ReportsAgree | services/analytics/analytics/leader_report.py:49-124 | without a window both list the same leaders in the same order with equal shared columns |
| Grouping.SortDescIs | services/analytics/analytics/leader_report.py:123 | the sort ranks, keeps every row, and keeps the order of equal scores |
| Grouping.SortDescUnique | services/analytics/analytics/leader_report.py:123 | and is the only ranked list that keeps the order of equal scores |
| Rounding.HalfEvenIff | services/analytics/analytics/leader_report.py:105-120 | a figure rounds to the nearest whole number, the even one of two |
| Rounding.RoundsAre | services/analytics/analytics/leader_report.py:105-120 | money to the cent, the profit factor to thousandths, the win rate to ten-thousandths, each within half a unit |
| Rounding.JsRound2Iff | apps/operator-ui/src/pages/AnalyticsReports.jsx:63 | the UI rounds to the nearest cent, up from the middle |
| LeaderLaws.Conservation | services/analytics/analytics/backtest.py:23-38 | unrounded leader totals plus exits without a leader sum to the backtest's total |
| LeaderLaws.RowsRoundTotals | services/analytics/analytics/leader_report.py:92-110 | each row rounds the leader's netted total |
| Columns.ReportShowsLog | services/analytics/analytics/leader_report.py:65-121 | every figure of every row, from the log: results net the exits of a position, wins and losses are their profits and losses, and each sum, quotient and the score is rounded once |
| Columns.ScoresShowLog | services/analytics/analytics/score_leaders.py:69-96 | the same of the scoring script's columns |
| Columns.FiledResults | services/analytics/analytics/leader_report.py:65-91 | what is filed under a leader is one result a position, in order of first counted exit |
| Columns.LastExitFromLog | services/analytics/analytics/leader_report.py:76-91 | the last exit a row shows is the latest of its leader's counted exits |
| LeaderLaws.ExitOrderIsIrrelevant | services/analytics/analytics/leader_report.py:65-124 | reordering exits permutes the report's rows and changes none |
| LeaderLaws.ExitOrderIsIrrelevantToScores | services/analytics/analytics/score_leaders.py:42-97 | the same for the scoring script |
| LeaderLaws.SplitExitIsOneTradeInScores | services/analytics/analytics/score_leaders.py:42-66 | splitting an exit leaves the scores as they were |
| LeaderLaws.SplitExitIsOneTrade | services/analytics/analytics/leader_report.py:65-83 | splitting an exit into two partial sells leaves the whole report as it was |
| LeaderLaws.WindowIsFilter | services/analytics/analytics/leader_report.py:61-78 | a windowed report is the unwindowed report of the log without older exits |
| LeaderLaws.RowsShowTrades | services/analytics/analytics/leader_report.py:65-109 | each row of the report shows as trades the number of its leader's positions with a counted exit |
| LeaderLaws.WiderWindowKeepsRows | services/analytics/analytics/leader_report.py:61-124 | a wider window drops no leader from the report and lowers no trade count |
| LeaderLaws.ReportShowsLater | services/analytics/analytics/leader_report.py:65-123 | some row shows a last exit later than a given time exactly if some counted exit is later |
| LeaderLaws.UpperBoundIff | services/analytics/analytics/leader_report.py:50-124 | the report is that of the log without exits later than now exactly if no exit it counts is later than now |
| LeaderLaws.FutureExitCounts | services/analytics/analytics/leader_report.py:50-124 | a log whose report has a row for an exit later than now, and is empty without it |
| Drawdown.FoldIs | services/analytics/analytics/backtest.py:23-38 | one pass computes the final equity, the highest equity and the largest fall over all pairs |
| Drawdown.SummaryConcat | services/analytics/analytics/backtest.py:23-38 | the curve of two periods follows from each period's total, peak, trough and drawdown |
| Drawdown.EquityPoints | apps/operator-ui/src/pages/AnalyticsReports.jsx:61-65 | the UI's rounded curve starts at zero and follows the running sum |
| Drawdown.UiDrawdown | apps/operator-ui/src/pages/AnalyticsReports.jsx:72-75 | the UI's loop computes the specified peak and drawdown of the points |
| Drawdown.UiIsNear | apps/operator-ui/src/pages/AnalyticsReports.jsx:61-75 | for any amounts the UI's peak is within half a cent and its drawdown within a cent of the backtest's |
| Drawdown.UiIsExactOnCents | apps/operator-ui/src/pages/AnalyticsReports.jsx:61-75 | over whole cents both are equal |
| Backtest.RunBacktest | services/analytics/analytics/backtest.py:23-38 | the loop over the log reports the rounded total, highest equity and largest fall of its realised amounts |
| Recommend.RecommendFollowSet | services/analytics/analytics/leader_report.py:127-142 | the loop fills three lists in report order |
| Recommend.Partition | services/analytics/analytics/leader_report.py:127-142 | the three lists partition the report |
| Recommend.TradeFloorOnLists | services/analytics/analytics/leader_report.py:127-142 | raising the trade floor leaves follow and drop as they are of the rows that pass it, and only watch gains |
| Recommend.ProfitFloorOnLists | services/analytics/analytics/leader_report.py:127-142 | raising the profit factor floor leaves drop as it is, and watch gains exactly what follow loses |
| Recommend.FollowsEveryProfit | services/analytics/analytics/leader_report.py:97-141 | with a floor of at most one, the recommendation is the sign of the shown total |
| Recommend.RowCounts | services/analytics/analytics/leader_report.py:94-121 | wins and losses are distinct trades, the win rate is a rate, and the profit factor is undefined exactly without losses |
| Recommend.RowAverage | services/analytics/analytics/leader_report.py:99-118 | the shown average lies between the shown worst and best trade |
| Recommend.RowScore | services/analytics/analytics/leader_report.py:98-120 | the score is the total for a leader who always wins, half of it for one who never does, and between them otherwise |
| Recommend.ReportListsLeadersOnce | services/analytics/analytics/leader_report.py:85-124 | the report is ranked and lists each leader with a counted exit once |

## Left out

- Cryptography, base58, base64 and JSON parsing: foreign libraries; the model assumes only that signing gives 64 bytes that verify and that base64 round trips, and takes a line as already parsed.
- Floating-point error: sums, averages and rounding are exact, so order and split laws hold for exact arithmetic.
- Machine integers: offsets are unbounded naturals; the largest sum the source forms is a buffer offset plus 1027, so its `usize` does not wrap.
- `read_compact_u16` bit operations: modelled as sums; `Shortvec.OrIsSum` shows on bit vectors that or-ing fresh bits is adding them.
- The guard's regular expressions, import specifier matching, file walking and command line: abstract functions of the two views.
- Characters of a source text: Dafny characters stand for JavaScript code units; the lexer looks only at ASCII ones.
- Timeout lengths in the resolver: any scheduled timeout may fire at any time, which covers every real schedule.
- A rejected promise in the resolver: the source relies on its client never throwing, and so does the model.
- The React hook, subscribers and re-rendering: user interface.
- Event kinds: an enumeration of the six kinds the reports tell apart and a catch-all, in place of text.
- Timestamp parsing and ISO output: a timestamp is an optional integer.
- Selecting and sorting the UI's closed positions: only the curve and the drawdown over the chosen amounts are modelled.
- The packages folder, fixtures, services wiring and scripts: type contracts, configuration and I/O without state or arithmetic of their own.
