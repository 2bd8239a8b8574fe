# solana-swift JSON-RPC client, modelled in Dafny

This project models the decision logic of `JSONRPCAPIClient`, the JSON-RPC client of the
solana-swift SDK, together with two small utilities it ships: the bounds-checked
`subscript(safe:)` on collections and the length prefix codec `Data.encodeLength` /
`Data.decodedLength`.

- `RpcClient` holds the class `JSONRPCAPIClient`. Its immutable configuration is the endpoint plus
  the collaborators it is handed: the network manager, the request encoder, Foundation's URL
  parser and the failable `RequestConfiguration(commitment:encoding:)` initializer. Each collaborator is a function, and the client only looks at whether its outcome
  succeeded. Decoders are passed per call, one per entity type, as Swift picks them by type.
  The functions cover `makeRequest`, which frames one call as a single object and any other
  number as an array and maps errors to `cantEncodeParams` and `invalidAPIURL`. They also cover
  `urlRequest`, `request(with:)` for single calls and batches, `get`, and the typed accessors
  that add their own checks. Methods (`MakeRequest`, `UrlRequest`, `SendTransaction`) keep the
  source's step-by-step updates of local variables. Each is proved equal to the function that
  specifies it.
- `ErrorRewrite` is the message rewriting of `sendTransaction`. `Strings` holds the Foundation
  string operations it rests on: `contains`, and `components(separatedBy:)` with `.last`.
- `UInt64Parsing` is `UInt64(String)` as used by `getTokenAccountBalance`.
- `CollectionExtensions` is `subscript(safe:)` over a collection whose indices are a contiguous
  range. That covers arrays (from 0) and slices (from their parent's position).
- `LengthEncoding` is the varint length prefix: unsigned LEB128, as in section 7.6 of the DWARF 4
  standard, which Solana calls compact-u16 or shortvec. Its implementation file is not part of
  this model, so it is written from its test vectors. The vectors are proved, together with both
  round trips, canonical form, size bounds and self-delimitation.

Where the code's documented intent and the code differ, the model follows the code:
- The rewritten message is the text after the last `"Error: "` (with a space) of the first log line
  containing `"Error:"`. When that line has no `"Error: "`, the message is the whole line.
- The `"Transaction simulation failed: "` fallback keeps the whole message when the marker is
  absent. That is because `components(separatedBy:).last` of a string without the separator is
  the string itself.
- `getRecentBlockhash` rejects a nil blockhash, not an empty one.
- `getAccountInfo` turns every failure into `couldNotRetrieveAccountInfo`, including transport and
  encoding errors, because it uses `try?`.
- `getSignatureStatus` ignores its `configs` argument.
- `request(with: [r])` with exactly one request is framed as a single object even though its answer
  is decoded as an array.
- A batch whose decoded answer has a different length from the request list is returned as decoded.
  Nothing checks the lengths.

## Model

| member | source | states |
|---|---|---|
| Strings.FindFirst | Sources/SolanaSwift/APIClient/Networking/JSONRPCAPIClient.swift:201 | the result is the first position at or after `from` where the pattern occurs; none means no occurrence there |
| Strings.Contains | Sources/SolanaSwift/APIClient/Networking/JSONRPCAPIClient.swift:201 | `contains` holds exactly when some position starts an occurrence |
| Strings.LastComponent | Sources/SolanaSwift/APIClient/Networking/JSONRPCAPIClient.swift:202-203 | `.last` of the split: a suffix of the string, and the whole string when the separator does not occur in it |
| Strings.Components | Sources/SolanaSwift/APIClient/Networking/JSONRPCAPIClient.swift:202-203 | there is always at least one component, so `.last` is never nil |
| Strings.JoinComponents | Sources/SolanaSwift/APIClient/Networking/JSONRPCAPIClient.swift:202 | joining the components with the separator gives back the string |
| Strings.ComponentsAvoidSeparator | Sources/SolanaSwift/APIClient/Networking/JSONRPCAPIClient.swift:202 | no component contains the separator |
| Strings.LastComponentFacts | Sources/SolanaSwift/APIClient/Networking/JSONRPCAPIClient.swift:202-208 | the last component holds no separator; it is the whole string when there is no separator; otherwise the string ends with separator + last component |
| Strings.LastComponentIdempotent | Sources/SolanaSwift/APIClient/Networking/JSONRPCAPIClient.swift:206-208 | taking the last component twice equals taking it once |
| Strings.LastComponentAfter | Sources/SolanaSwift/APIClient/Networking/JSONRPCAPIClient.swift:200-208 | for a separator with no border, the last component of `p + sep + x`, where `x` holds no separator, is `x` |
| ErrorRewrite.FirstMatch | Sources/SolanaSwift/APIClient/Networking/JSONRPCAPIClient.swift:200-201 | the position of the first log line that contains the marker, with no earlier such line; none when no line contains it |
| ErrorRewrite.FirstContaining | Sources/SolanaSwift/APIClient/Networking/JSONRPCAPIClient.swift:200-201 | a line exists exactly when some log line contains the marker, and then it is the first log line that contains it |
| ErrorRewrite.LogLines | Sources/SolanaSwift/APIClient/Networking/JSONRPCAPIClient.swift:200 | the logs when `data` and `logs` are both present; any line offered comes from them, so a nil `data` or `logs` offers none |
| ErrorRewrite.ReadableMessage | Sources/SolanaSwift/APIClient/Networking/JSONRPCAPIClient.swift:199-211 | a suffix of the first `"Error:"` log line when there is one, else a suffix of the node's message, which is kept whole when it lacks the simulation-failed marker |
| ErrorRewrite.RewrittenError | Sources/SolanaSwift/APIClient/Networking/JSONRPCAPIClient.swift:196-219 | only an `invalidResponse` with a message changes; the error kind, `code` and `data` are kept and the message stays non-nil |
| ErrorRewrite.RewriteFromErrorLog | Sources/SolanaSwift/APIClient/Networking/JSONRPCAPIClient.swift:198-205 | when the first log line with `"Error:"` reads `p + "Error: " + x` (`x` without `"Error: "`), the message becomes `x` |
| ErrorRewrite.RewriteFromErrorLogWithoutSeparator | Sources/SolanaSwift/APIClient/Networking/JSONRPCAPIClient.swift:200-205 | a first `"Error:"` line without `"Error: "` becomes the whole message |
| ErrorRewrite.RewriteFromSimulationFailure | Sources/SolanaSwift/APIClient/Networking/JSONRPCAPIClient.swift:206-211 | with no `"Error:"` log line, the message `p + "Transaction simulation failed: " + y` becomes `y` |
| ErrorRewrite.RewriteKeepsPlainMessage | Sources/SolanaSwift/APIClient/Networking/JSONRPCAPIClient.swift:206-214 | with neither marker, the error is rethrown exactly as it came |
| ErrorRewrite.RewriteIdempotent | Sources/SolanaSwift/APIClient/Networking/JSONRPCAPIClient.swift:196-214 | rewriting a rewritten error changes nothing more |
| UInt64Parsing.ParseUInt64 | Sources/SolanaSwift/APIClient/Networking/JSONRPCAPIClient.swift:130 | an amount parses exactly when it is a non-empty digit string whose value is at most 2^64-1, and then yields that value |
| UInt64Parsing.ParseDecimalString | Sources/SolanaSwift/APIClient/Networking/JSONRPCAPIClient.swift:130-133 | the numeral of `n` parses back to `n` exactly when `n` fits in 64 bits, and is refused otherwise |
| UInt64Parsing.ParseRejectsNonNumerals | Sources/SolanaSwift/APIClient/Networking/JSONRPCAPIClient.swift:130-132 | empty text or text with a non-digit never parses |
| CollectionExtensions.SafeSubscript | Sources/SolanaSwift/Extensions/Collection+Extensions.swift:12-13 | non-nil exactly when `indices` contains the index, and then the element at it |
| CollectionExtensions.SafeSubscriptOnArray | Sources/SolanaSwift/Extensions/Collection+Extensions.swift:11-13 | on an array: the element for 0 <= i < count, nil for negative indices and for indices >= count |
| CollectionExtensions.SafeSubscriptOnEmpty | Sources/SolanaSwift/Extensions/Collection+Extensions.swift:13 | an empty collection gives nil at every index |
| CollectionExtensions.SafeSubscriptFindsElement | Sources/SolanaSwift/Extensions/Collection+Extensions.swift:13 | a non-nil answer is an element of the collection, the one at that position |
| CollectionExtensions.SafeSubscriptCoversElements | Sources/SolanaSwift/Extensions/Collection+Extensions.swift:12-13 | reading every index in order gives back the whole collection |
| LengthEncoding.EncodeLength | Tests/SolanaSwiftUnitTests/Other/CodableTests/EncodingTests.swift:19-27 | every encoding is a complete varint; it is one byte exactly for values below 0x80, and its last byte is 0 only for 0 |
| LengthEncoding.EncodeLengthVectors | Tests/SolanaSwiftUnitTests/Other/CodableTests/EncodingTests.swift:19-27 | the nine `encodeLength` vectors, 0 -> [0] through 2097152 -> [0x80,0x80,0x80,0x01] |
| LengthEncoding.DecodedLengthVectors | Tests/SolanaSwiftUnitTests/Other/CodableTests/EncodingTests.swift:14-17 | the two `decodedLength` vectors: 5 and 74, trailing bytes ignored |
| LengthEncoding.EncodeLengthIsCanonical | Tests/SolanaSwiftUnitTests/Other/CodableTests/EncodingTests.swift:23-27 | the last byte is below 0x80, all earlier bytes are at least 0x80, and there is no superfluous zero group |
| LengthEncoding.EncodedSizeBounds | Tests/SolanaSwiftUnitTests/Other/CodableTests/EncodingTests.swift:26-27 | an encoding of k bytes holds a value `n` with 128^(k-1) <= n < 128^k (the lower bound for k > 1) |
| LengthEncoding.DecodedLength | Tests/SolanaSwiftUnitTests/Other/CodableTests/EncodingTests.swift:14-17 | the value read from `k` bytes is below 128^k: no input decodes to more groups than it has bytes |
| LengthEncoding.DecodeIgnoresTail | Tests/SolanaSwiftUnitTests/Other/CodableTests/EncodingTests.swift:14-17 | decoding stops at the first byte without the continuation bit; what follows is ignored |
| LengthEncoding.DecodeEncodeLength | Tests/SolanaSwiftUnitTests/Other/CodableTests/EncodingTests.swift:14-27 | `decodedLength(encodeLength(n) + tail) == n` for every `n` and every tail |
| LengthEncoding.EncodeDecodedLength | Tests/SolanaSwiftUnitTests/Other/CodableTests/EncodingTests.swift:14-27 | re-encoding the value of any canonical varint gives back the same bytes |
| LengthEncoding.EncodeLengthInjective | Tests/SolanaSwiftUnitTests/Other/CodableTests/EncodingTests.swift:19-27 | distinct lengths have distinct encodings |
| LengthEncoding.EncodeLengthSelfDelimiting | Tests/SolanaSwiftUnitTests/Other/CodableTests/EncodingTests.swift:14-27 | equal bytes `encodeLength(a) + t1 == encodeLength(b) + t2` force `a == b` and `t1 == t2` |
| RpcClient.Frame | Sources/SolanaSwift/APIClient/Networking/JSONRPCAPIClient.swift:316-320 | a single object exactly for one call, an array otherwise; the calls are kept in order, none lost or added |
| RpcClient.JSONRPCAPIClient.constructor | Sources/SolanaSwift/APIClient/Networking/JSONRPCAPIClient.swift:14-17 | the client keeps the endpoint, the network manager and the other collaborators it is given |
| RpcClient.JSONRPCAPIClient.OutboundRequest | Sources/SolanaSwift/APIClient/Networking/JSONRPCAPIClient.swift:333-338 | an endpoint that is not a URL is `invalidAPIURL`; otherwise a POST to that URL whose body is the data, with the JSON content type |
| RpcClient.JSONRPCAPIClient.UrlRequest | Sources/SolanaSwift/APIClient/Networking/JSONRPCAPIClient.swift:333-344 | updating a default request field by field yields exactly `OutboundRequest` |
| RpcClient.JSONRPCAPIClient.Exchange | Sources/SolanaSwift/APIClient/Networking/JSONRPCAPIClient.swift:313-331 | an encoder failure is `cantEncodeParams`; a bad endpoint is `invalidAPIURL`; otherwise the transport's answer to a POST whose body is the encoded framed envelope |
| RpcClient.JSONRPCAPIClient.MakeRequest | Sources/SolanaSwift/APIClient/Networking/JSONRPCAPIClient.swift:313-331 | appending the encoding to an empty buffer and sending it yields exactly `Exchange` |
| RpcClient.JSONRPCAPIClient.Request | Sources/SolanaSwift/APIClient/Networking/JSONRPCAPIClient.swift:305-309 | errors before decoding pass through unchanged; otherwise the result is exactly the decoder's reading of the answer to the one call |
| RpcClient.JSONRPCAPIClient.RequestBatch | Sources/SolanaSwift/APIClient/Networking/JSONRPCAPIClient.swift:295-303 | succeeds exactly when sending and decoding succeed; then the i-th envelope returned is the codec's re-typing of the i-th decoded, with the same count; a transport or decoder error is rethrown unchanged |
| RpcClient.JSONRPCAPIClient.Get | Sources/SolanaSwift/APIClient/Networking/JSONRPCAPIClient.swift:286-293 | the decoded `result`, unchanged, when present; `cantDecodeResponse` when absent; earlier errors unchanged |
| RpcClient.JSONRPCAPIClient.TransportErrorPassesThrough | Sources/SolanaSwift/APIClient/Networking/JSONRPCAPIClient.swift:305-309 | a transport failure reaches the caller unchanged, whatever the decoder |
| RpcClient.JSONRPCAPIClient.GetReturnsDecodedResult | Sources/SolanaSwift/APIClient/Networking/JSONRPCAPIClient.swift:286-293 | when the answer decodes to an envelope holding `x`, `get` returns `x` |
| RpcClient.JSONRPCAPIClient.GetBalance | Sources/SolanaSwift/APIClient/Networking/JSONRPCAPIClient.swift:38-48 | the `value` of the decoded result when present, `cantDecodeResponse` otherwise, errors passed through |
| RpcClient.JSONRPCAPIClient.GetRecentBlockhash | Sources/SolanaSwift/APIClient/Networking/JSONRPCAPIClient.swift:97-104 | succeeds exactly when the fee record has a blockhash, and returns it; a nil one is `other("Blockhash not found")` |
| RpcClient.JSONRPCAPIClient.GetSignatureStatuses | Sources/SolanaSwift/APIClient/Networking/JSONRPCAPIClient.swift:106-112 | the statuses list inside the result, errors passed through |
| RpcClient.JSONRPCAPIClient.GetSignatureStatus | Sources/SolanaSwift/APIClient/Networking/JSONRPCAPIClient.swift:114-121 | succeeds exactly when the list for `[signature]` is non-empty and its first status non-nil, returning that status; else `cantDecodeResponse` |
| RpcClient.JSONRPCAPIClient.GetTokenAccountBalance | Sources/SolanaSwift/APIClient/Networking/JSONRPCAPIClient.swift:123-134 | a returned balance always has an amount that parses as UInt64; an amount that does not parse is `couldNotRetrieveAccountInfo`; otherwise the value unchanged |
| RpcClient.JSONRPCAPIClient.GetAccountInfo | Sources/SolanaSwift/APIClient/Networking/JSONRPCAPIClient.swift:21-28 | never nil: succeeds exactly when the result holds an account, and every failure is `couldNotRetrieveAccountInfo` |
| RpcClient.JSONRPCAPIClient.SimulateTransaction | Sources/SolanaSwift/APIClient/Networking/JSONRPCAPIClient.swift:229-241 | succeeds exactly when `err` is nil; `"BlockhashNotFound"` is `other("Blockhash not found")`; any other `err` is `transactionError(err, logs)` |
| RpcClient.JSONRPCAPIClient.GetMultipleAccounts | Sources/SolanaSwift/APIClient/Networking/JSONRPCAPIClient.swift:277-282 | no keys gives no accounts, whatever the node would say; otherwise the accounts returned |
| RpcClient.JSONRPCAPIClient.SendTransaction | Sources/SolanaSwift/APIClient/Networking/JSONRPCAPIClient.swift:188-221 | the signature on success; a failure is rethrown as `RewrittenError` of it |

## Left out

- The network (`NetworkManager.requestData`) is a function from request to bytes or error. Logging (`Logger.log`, `cURL()`) is left out; it has no effect on results.
- `Exchange` has no cancellation path. In the source, `Task.checkCancellation()` (JSONRPCAPIClient.swift:324) runs after encoding and before the URL is built. A cancelled task therefore throws `CancellationError` there: it never reaches the transport, and with a bad endpoint it fails with `CancellationError` instead of `invalidAPIURL`.
- `observeSignatureStatus` and `TransactionMonitor` are left out. Their behaviour is asynchronous streams, timing and cancellation, and `TransactionMonitor` is not part of this model.
- The JSON codec (`JSONRPCRequestEncoder`, `JSONRPCResponseDecoder`, `AnyDecodable`, `AnyResponse` decoding) is not part of this model. It is an opaque function that succeeds or fails. Request identifiers and the exact wire text are therefore not modelled.
- RpcClient.JSONRPCAPIClient.RequestBatch: the codec's re-typing `AnyResponse<Entity>(resp)` (JSONRPCAPIClient.swift:300) is not part of this model. It is a function handed to the call, so the model states only that it is applied to each envelope in turn, not what it does to `id`, `result` or `error` (a cast that fails could drop a result).
- `getBlockTime` is left out: its result is a floating-point `Date`.
- The thin accessors that only fix a method name and parameters are left out: `getBlockHeight`, `getConfirmedBlocksWithLimit`, `getBlockCommitment`, `getClusterNodes`, `getConfirmedBlock`, `getConfirmedSignaturesForAddress`, `getTransaction`, `getEpochInfo`, `getFees`, `getMinimumBalanceForRentExemption`, `getTokenAccountsByDelegate`, `getTokenAccountsByOwner`, `getTokenLargestAccounts`, `getTokenSupply`, `getVersion`, `getVoteAccounts`, `minimumLedgerSlot`, `requestAirdrop`, `getSignaturesForAddress`, `setLogFilter` and `validatorExit`. Each is `Get` with its own method name and adds no control flow.
- Headers other than the JSON content type are not modelled.
- UInt64Parsing.ParseUInt64: does not accept the sign prefixes that Swift's `UInt64(String)` allows: a leading `+`, and a leading `-` before a zero value, so `"-0"` (which Swift reads as 0) is refused here. Amounts are modelled as plain digit strings.
- LengthEncoding.EncodeLength: uses unbounded integers. The platform's 64-bit `Int`/`UInt` limits and shift overflow are not modelled. On empty or truncated input, `DecodedLength` yields the groups read so far; this is the natural reading of a loop that stops at the end of the data, since the implementation file is not part of this model.
- Strings are sequences of Unicode scalars, compared scalar by scalar. Foundation's `contains` and `components(separatedBy:)` compare by Characters with canonical equivalence, so a separator whose last scalar joins with a following combining mark (`"Error: "` before U+0301) is found by `Strings.Components` but not by Foundation. Unicode normalisation and grapheme clustering are not modelled.
- `RequestConfiguration(commitment:encoding:)` is a failable initializer whose body is not part of this model. The client is handed it as `makeConfiguration`, and whatever it returns, nil included, is sent as the configuration parameter; which arguments give nil is not modelled.
- Default arguments are not modelled: every parameter is explicit. This covers `networkManager = URLSession(configuration: .default)` (JSONRPCAPIClient.swift:14), the `configs` defaults (lines 107, 190 and 231) and the `commitment` defaults.
- CollectionExtensions.SafeSubscript: covers collections indexed by a contiguous range of integers (arrays and their slices). `subscript(safe:)` is generic over every `Collection`; collections with other index types (`String.Index`, `Dictionary` and `Set` indices) are not modelled.
- `Error+Extensions.swift` (casts and enum equality of error types not modelled here) and `SolanaTokensRepository.swift` (a protocol with a default argument) hold no logic of the core.
