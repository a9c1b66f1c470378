# AirSwap CLI best-quote pipeline in Dafny

This project models the quote-aggregation core of the AirSwap command-line
client (`src/lib/utils.ts`) and proves properties about the model. The client
turns a user's trade intent into a request and asks every maker ("peer")
listed by the on-chain indexer for a quote. It then collects what the peers
send back and picks the cheapest quote for the caller.

The model is sequential and pure:

- **Peer call** (`Peer`). The scheme of a locator selects the https or http
  JSON-RPC client. One reply becomes exactly one outcome, checked in this
  order: a transport error gives a "Connection Error" message that names the
  locator; an application error gives a "Maker Error" message that carries
  the peer's text; anything else is a success that carries the payload.
- **Fan-out** (`Aggregate`). The indexer's bytes32 locators are decoded.
  Only truthy results are counted in `requested` and dispatched. In the
  source, the peers' callbacks run in whatever order the network delivers
  them. The model takes that order as an argument: a sequence of
  completions, each a dispatched slot paired with its peer's reply. Each
  completion is one step of a fold. It appends to `results` or `errors`,
  with order validation for methods whose name contains `Order`. It then
  increments `completed` and runs the selection when `completed` equals
  `requested`. Every property is proved for every completion order.
- **Selection** (`Selection`). A linear scan for the lowest
  `sender.amount`, both as written and corrected for non-numeric amounts
  (see "## Findings"); the rounds use the corrected scan. The strict
  less-than means the earliest entry wins ties.
  An empty results list yields no winner and the full errors list.
- **Request construction** (`Request`). `promptSide`'s normalisation of the
  side answer and `promptToken`'s lookup, by address and then by upper-cased
  symbol. Then `getRequest`: which token is signer and which is sender, the
  method name, the atomic amount `floor(amount × 10^first.decimals)`, and
  the optional `senderWallet`.
- **Scenarios** (`Scenarios`). Whole rounds: a mixed round, a round in which
  every peer is unreachable, an order that fails validation, and a round in
  which nothing is dispatched.

Foreign code becomes parameters. `parseBytes32String` is a function
`Bytes32 -> Option<string>`. `orders.isValidOrder` is a predicate on quotes.
`ethers.utils.getAddress` not throwing is a predicate on strings.

Completion is checked only inside a peer's callback (`src/lib/utils.ts:409`).
With nothing dispatched, no peer callback runs, so the aggregation callback
is never called. `Aggregate.MultiPeerCall`
and `Scenarios.NothingToDispatch` state this behaviour.

## Model

| member | source | states |
|---|---|---|
| `Peer.TransportIsHttpsIff` | src/lib/utils.ts:349-354 | The https client is chosen if and only if the locator begins with `https:` in any letter case (the protocol as the URL parser reports it). Every other locator, with or without a scheme, gets the http client. |
| `Peer.Classify` | src/lib/utils.ts:356-366 | A reply is a success exactly when it has neither a transport error nor an application error, and then it carries the result. A transport error takes precedence: its message starts with "Connection Error" and contains both the locator and the error text. Otherwise an application error gives a message starting with "Maker Error" that contains the peer's message. |
| `Peer.ErrorKindsDistinct` | src/lib/utils.ts:358-361 | A connection-error message never equals a maker-error message, so the error kind can be read back from the text. |
| `Selection.Scan` | src/lib/utils.ts:415-421 | The corrected scan ends on the best entry: no numeric amount is lower, every earlier numeric amount is strictly higher, and a non-numeric winner is possible only as the first entry of a list with no numeric amount. |
| `Selection.ScanAsWritten` | src/lib/utils.ts:415-421 | The scan as written ends on the starting entry or on one it visited, and every entry after the winner was compared with it and was not strictly lower. A NaN on either side is never lower, so a NaN winner is never replaced. |
| `Selection.ScanAgreesOnNumeric` | src/lib/utils.ts:415-421 | When every amount is numeric, the scan as written and the corrected scan choose the same index. |
| `Selection.ScanAsWrittenKeepsNaNFirst` | src/lib/utils.ts:415-421 | With a non-numeric first amount followed by the amount 5, the scan as written keeps index 0. That index is not the best, and the corrected scan picks index 1. |
| `Selection.Select` | src/lib/utils.ts:412-422 | The errors list is passed through whole. There is no winner and no locator exactly when results are empty. Otherwise the winner and its locator come from one best entry of the results. |
| `Selection.SelectIsLowestFirst` | src/lib/utils.ts:415-421 | On numeric amounts the winner's `sender.amount` is at most every result's amount, and it is a result whose earlier entries are all strictly higher (first seen wins ties). |
| `Aggregate.Dispatched` | src/lib/utils.ts:380-388 | A slot is dispatched if and only if its locator decoded to a non-empty string. Slots are dispatched in increasing index order. |
| `Aggregate.DecodeLocators` | src/lib/utils.ts:380-388 | The decode loop puts each slot's decode result in place. It dispatches exactly the truthy slots, in order, and `requested` equals their number. |
| `Aggregate.CompletionOrderInFlight` | src/lib/utils.ts:386-389 | Every completion of a completion order belongs to a dispatched slot, and there are exactly `requested` completions. |
| `Aggregate.Settle` | src/lib/utils.ts:389-407 | An outcome is accepted if and only if it is a success and, for a method containing `Order`, the order is valid. An accepted outcome is filed with its own locator and payload. A rejected one is filed with its own locator and either the peer's error message or "Got an invalid order or signature ". |
| `Aggregate.Record` | src/lib/utils.ts:389-409 | One callback appends an accepted entry to `results` and a rejected one to `errors`, leaving the other list unchanged. It adds one completion, leaves `requested` alone, and calls the aggregation callback with the selection over the updated lists exactly when `completed` reaches `requested`. |
| `Aggregate.Collect` | src/lib/utils.ts:373-409 | After any k completions in any order, `completed == k == |results| + |errors|` and `requested` is the number of dispatched slots. The aggregation callback has been called once if `0 < requested <= k` and never otherwise. |
| `Aggregate.CollectFiresOnLast` | src/lib/utils.ts:409-422 | When the completions number exactly `requested` (and at least one), the single call of the aggregation callback carried the selection over the final results and errors. |
| `Aggregate.CollectIsFilter` | src/lib/utils.ts:389-407 | `results` is exactly the accepted entries and `errors` exactly the rejected entries of the completions, each list in completion order. |
| `Aggregate.FilterMembers` | src/lib/utils.ts:389-407 | An entry is in the results filter if and only if it was accepted, and in the errors filter if and only if it was rejected. |
| `Aggregate.EntriesTraceToReplies` | src/lib/utils.ts:389-407 | Every result is a success returned by some completed peer, under that peer's locator, and for an order method it is valid. Every error carries its peer's locator and either that peer's classified error message or, for an order method, the invalid-order message for an order that failed validation. |
| `Aggregate.EntryOfTraces` | src/lib/utils.ts:389-407 | A completion's accepted entry carries that peer's locator and its error-free, validated answer. Its rejected entry carries that peer's locator and either the classified error or the invalid-order message. |
| `Aggregate.NoAnswerNoResults` | src/lib/utils.ts:389-407 | If every completed peer had a transport error, `results` is empty, whatever the completion order. |
| `Aggregate.CollectLocators` | src/lib/utils.ts:389-407 | After any prefix of completions, the multiset of locators in results and errors equals the multiset of locators of the completed slots. |
| `Aggregate.EveryDispatchedPeerAccountedOnce` | src/lib/utils.ts:380-409 | After a full completion order, the locators in results and errors are exactly the dispatched locators as a multiset. Each dispatched peer appears once, and a failed or empty decode never appears. |
| `Aggregate.MultiPeerCall` | src/lib/utils.ts:369-429 | With no dispatched locator the aggregation callback is never called. Otherwise it is called exactly once, with the selection over results and errors that together hold one entry per dispatched peer. |
| `Request.ParseSideByFirstLetter` | src/lib/utils.ts:73-85 | The side answer gives Buy exactly when it starts with `b` or `B`, and Sell exactly when it starts with `s` or `S`. Anything else, the empty answer included, is rejected. |
| `Request.LookupToken` | src/lib/utils.ts:87-101 | Lookup fails exactly when the answer is neither a valid address present in the address index nor, upper-cased, a key of the symbol index. A valid, present address wins. Otherwise the entry comes from the symbol index. |
| `Request.LookupTokenFromMetadata` | src/lib/utils.ts:91-99 | A token that is found is always an entry of one of the two metadata indexes. |
| `Request.AtomicAmount` | src/lib/utils.ts:465-474 | The atomic amount `a` is the floor of `amount × 10^decimals`: `a × 10^scale <= mantissa × 10^decimals < (a + 1) × 10^scale`. |
| `Request.AtomicAmountExact` | src/lib/utils.ts:465-474 | A whole amount is scaled exactly, and a non-negative amount gives a non-negative atomic amount. |
| `Request.BuildRequest` | src/lib/utils.ts:441-475 | For Buy: signer token = first, sender token = second, method `getSenderSide`+kind, and only `signerAmount` is set. For Sell: the tokens are swapped, the method is `getSignerSide`+kind, and only `senderAmount` is set. In both cases the amount is the atomic amount in `first`'s decimals, the parameter tokens are the chosen tokens' addresses, and `senderWallet` is present if and only if kind is `Order`. |
| `Request.BuyAndSellMirror` | src/lib/utils.ts:441-475 | The Buy and Sell requests for the same inputs swap the parameter tokens. They carry the same atomic amount, placed in opposite amount parameters, and the same `senderWallet`. |
| `Request.MethodValidatesOnlyOrders` | src/lib/utils.ts:452-471 | For kinds `Order` and `Quote`, the built method name contains `Order` exactly when the kind is `Order`. So only order requests have their replies validated. |
| `Request.GetRequest` | src/lib/utils.ts:431-484 | A request is built if and only if the side is recognised and both tokens are found. Checks run in order (side, then first token, then second), and the first failure decides the error. On success the request is the one `BuildRequest` gives for the parsed side and the found tokens. |
| `Scenarios.MixedRound` | src/lib/utils.ts:389-422 | Three peers answer 100, 50 and a connection error (the error arriving first). The 50 quote and its locator win, and the only error is the third peer's connection error under its locator. |
| `Scenarios.AllUnreachable` | src/lib/utils.ts:389-422 | For every locator list with at least one dispatched peer, and every completion order in which every reply is a transport error, the callback is called once with no winner and one error per requested peer. |
| `Scenarios.InvalidSignatureRound` | src/lib/utils.ts:389-413 | An order request whose single answer fails validation ends with no winner and one error carrying the peer's locator and the invalid-order message. |
| `Scenarios.NothingToDispatch` | src/lib/utils.ts:380-409 | A failed decode and an empty string dispatch nothing. The only completion order is empty, and the aggregation callback is never called. |

## Findings

| source | as written | input that shows it | evidently intended | confidence | as-written member | corrected member |
|---|---|---|---|---|---|---|
| src/lib/utils.ts:415-421 | `lowest` starts at `results[0]`. It is replaced only when `new BigNumber(results[j].order.sender.amount).lt(lowest.order.sender.amount)`, which is false whenever either side is NaN. | Two results in which the first peer's `sender.amount` is not numeric (for example `"abc"`, possible for quote methods, which are not validated) and the second is `5`. The first peer wins. | The lowest numeric `sender.amount` wins, so a non-numeric amount never beats a numeric one. | medium; not executed | `Selection.ScanAsWrittenKeepsNaNFirst` | `Selection.Scan` |

`Selection.ScanAsWritten` is the scan exactly as written. `Selection.Scan`,
which `Selection.Select` uses, also lets a numeric amount replace a
non-numeric lowest. `Selection.ScanAgreesOnNumeric` proves that the two
agree whenever every amount is numeric.

## Left out

- `indexerCall` (the on-chain `getLocators` call) is not modelled. Its output is the input sequence of bytes32 locators, and its failure is outside the round.
- `parseBytes32String`, `orders.isValidOrder` and `ethers.utils.getAddress` are library code. They are parameters (a decode function and two predicates). The encode/decode round trip of bytes32 strings belongs to that library and is not stated.
- The jayson transport, its timeouts and real concurrency are replaced by an explicit completion order. A transport that called a callback twice is not modelled.
- `getWallet`, `getMetadata` and `updateMetadata` are left out: keychain, provider, file-system and HTTP I/O.
- Presentation code is left out: `displayDescription`, `printOrder`, `getData`, `printObject`, `printTable`, `confirmTransaction` and the `cli.action` spinners.
- `handleTransaction` and `handleError` are left out: transaction mining and logging.
- `getBest` and `src/commands/orders/best.ts` are left out. They wire `getRequest` to `multiPeerCall`, print, prompt and submit the swap, with no logic of their own.
- The `parseInt`/`isNaN` acceptance of the typed amount is not modelled. The amount arrives already parsed as an exact decimal (mantissa and scale). A negative mantissa is allowed, since `parseInt` accepts a leading minus sign.
- The cli prompts are not modelled. The side and token answers are inputs.
- Atomic amounts are integers. The source sends their `toFixed()` decimal strings.
- Peer.Classify: messages carry the plain label text ("Connection Error", "Maker Error"). chalk's ANSI colour codes around the labels are presentation and are not modelled.
- Peer.TransportIsHttpsIff: the protocol is read as the leading run of scheme characters followed by a colon. Node's URL parser's trimming of surrounding whitespace and its other URL rules are not modelled.
- Request.ParseSideByFirstLetter: upper-casing is ASCII-only. JavaScript's full Unicode case mapping (for example `ß` upper-casing to `SS`) is not modelled.
- Selection.Select: uses the corrected `Selection.Scan`, not the scan as written (see "## Findings"), and so does every round built on it (`Aggregate.Record`, `Aggregate.Collect`, `Aggregate.MultiPeerCall`). The two differ only when an amount is not numeric: for results whose amounts are NaN and then 5, the source calls back with the first entry and the model with the second. `Selection.ScanAgreesOnNumeric` shows they agree on all-numeric results.
- Selection.Select: every payload is a non-null quote whose `sender.amount` is an integer or NaN. Fractional amounts are not modelled. A falsy JSON-RPC result is not modelled: for a quote method, a single success with `result: null` makes the source call back with a null order but a non-null locator, a pair the model's verdicts cannot express (they give no winner exactly when results are empty). A payload with no `sender` field, which makes the source throw during selection, is not modelled either.
- Request.LookupToken: upper-casing of the symbol is ASCII-only, as for `Request.ParseSideByFirstLetter`. JavaScript's full Unicode case mapping is not modelled.
