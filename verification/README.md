# TiyGate: verified models of its stateful cores

TiyGate is an LLM gateway. This project models the parts of it whose
correctness is not visible from one function body, and proves what they are
for. A method that updates fields or a local buffer is a Dafny method with loop
invariants, proved equal to a function of the old state; the theorems are
lemmas about those functions, over all inputs, all runs or all interleavings.

| module | what it models |
|---|---|
| `HeaderForward`, `HeaderReading` | the wildcard matcher of the header policy, against the declarative wildcard relation; the built-in policies name by name |
| `SchemaConversion`, `SchemaReading` | the compiler from JSON Schema to Gemini's OpenAPI subset, both given a meaning; the conversion keyword by keyword |
| `TokenCache`, `SingleFlight` | the OAuth token cache, and its refresh protocol as a step relation with a rotating server |
| `LabelApplier` | the second OAuth applier and its protocol |
| `TokenUsage` | usage objects through chains of Chat and Gemini hops |
| `ChatStream`, `ChatReading` | the Chat Completions stream encoder and decoder; what the decoder makes of any frames, told from the history of the wire |
| `GeminiStream`, `GeminiReading` | the two Gemini response decoders, streaming and whole; what each makes of any event or response, told part by part |
| `ChatRequest`, `ChatRequestReading`, `ChatNormalForm`, `ToolPairing` | Chat request messages to IR and back; what becomes of any messages either way; what a round trip does; calls and their results |
| `GeminiRequest`, `GeminiRequestReading`, `GeminiPairing`, `GeminiSignatures` | the contents of a Gemini request: names of results, thought signatures, every part of every turn; how results find their calls, and signatures come back to theirs |
| `Quota`, `RedisQuota`, `QuotaReading` | the quota windows in memory, and the Redis script under interleaving gateways; who is let through and what is counted, by the documented numbers |
| `BruteForce`, `RedisBruteForce`, `BruteForceReading` | the lockout state machine in memory, and its Redis script; the answers of both, told from the history of calls |
| `EmbeddingCache`, `TextReading` | the embedding cache: normaliser, key and cache; words and bytes told from the outside |
| `TraceContext`, `TraceReading` | the trace id counter and the `traceparent` header (section 3.2 of W3C Trace Context); the header told by positions |
| `JsonPrinting` | a JSON library that reads back whatever it prints, so what the codecs assume can be met |
| `Arithmetic`, `JsonValue`, `RequestIr`, `Sequences`, `StreamIr`, `Utf8`, `Whitespace`, `Wrappers` | shared vocabulary and lemmas |

The modules called `…Reading` say what the functions of the others mean without
using those functions' helpers: by the literal names and numbers of the wire, by
positions, or by the history of calls. Code that differs in one of them cannot
agree with the reading.

JSON is a datatype: chunks, requests and schemas are modelled after parsing.
Numbers are finite decimals, each written in one way. Where the code parses JSON
held in a string (tool arguments, tool results), the JSON library is a parameter
`JsonText`, assumed only to read back what it printed, and one such library is
constructed. The clock, the random source, the hash and the servers' replies are
inputs; several clock readings in one call are separate inputs that do not run
backwards.

## Findings

Some expectations fail in the code. Each has a lemma with inputs that show it,
and where the failing inputs can be told apart, a lemma saying exactly when the
expectation holds.

* A wildcard pattern that does not end in `*` accepts only the shortest of the
  values it describes: a value is missed exactly when a proper prefix of it is
  described too. The module documentation says that `*request-id` blocks any
  header ending in `request-id`; the header `request-idrequest-id` is forwarded.
  Patterns ending in `*` and the default request policy are exact; the default
  response policy misses exactly the names that end in `request-id` or
  `requestid`, hold that text earlier as well, and are named by no other entry.
* The schema conversion changes meaning when `anyOf` has siblings, `enum` sits
  beside `const`, a nullable type array sits beside `allOf` or `oneOf`, the type
  array is empty, or a keyword is dropped; outside these cases it is exact, and
  without `oneOf` it never rejects a value the original accepts.
* `invalidate_provider` drops the mutexes with the tokens, after which two
  refreshes of one key can be in flight; nothing else lets two. The second
  applier's explicit `refresh` takes no lock, and a reply without a refresh token
  leaves its label unable to refresh until a new login.
* The two Gemini response decoders agree on texts only. Streamed, a call without
  arguments has an empty object where the whole decoder leaves null; a thought or
  a call beside a text is there streamed and missing whole, which can turn the
  finish from tool calls to stop; a usage object without a number in its prompt,
  candidate and total fields is reported streamed and dropped whole; and usage
  before the finish makes up a finish of its own. For each there is the exact
  condition on the response.
* Thought signatures leave the streaming Gemini decoder only with a response id,
  and only those of calls are kept: a stream that never tells its id loses them
  all, and the signature of a signed text is always lost, while decoding the same
  response whole returns both.
* Signatures go back onto calls by position. Kept from streams they reach their
  own calls exactly when no call without a signature comes before one with; kept
  from responses decoded whole, exactly when signed parts and calls keep step, so
  a signed text gives its signature to the next call, and calls of earlier turns
  take those of later ones.
* A Gemini request looks calls up by item id, not by the `call_id` that results
  carry when a call has one. A paired request, with unique ids and named calls,
  is refused exactly when some nameless result's call has another `call_id`, no
  item id, or is not the assistant's, and the result's id does not spell a name
  after `gemini_call_`.
* A Chat request message of role `tool` that carries calls, without an array of
  texts, grows by one message every time it is encoded and decoded. String
  arguments that parse as a JSON string may change once more.
* A message that carries a call and its own result is sent with the result
  first. Decoding drops calls exactly when a system message carries them and no
  message has a cache breakpoint.
* The module documentation of the brute-force limiter promises escalation after
  `max_lockouts` lockouts. The Redis script keeps the count in a key that
  expires with the lockout, so there every lockout escalates (when
  `max_lockouts` is at most 1) or none does. The two limiters answer alike over
  all steady runs exactly when `max_lockouts` is at most 1 or the two stages are
  equally long; else they part after `max_lockouts` lockouts, memory holding the
  client longer when the escalated stage is the longer one and Redis when it is
  the shorter. Moreover a success during a lockout ends it in Redis only, and
  pending failures expire there only; runs without either are the steady ones.
* Two embedding requests can share a key when a model name holds `|`, or when
  the dimensions lie from 0x7C000000 to 0x7CFFFFFF. The module documentation
  says that inputs are lower-cased; the code does not, so `A` and `a` have
  entries of their own.
* The documentation of the trace module says that the version byte is not
  validated; the code accepts `00` only. Its flags field accepts either case,
  any number of leading zeros and a plus sign.

## Model

| member | source | states |
|---|---|---|
| HeaderForward.GlobMatch | crates/core/src/header_forward.rs:266-300 | the segment loop accepts exactly the values the wildcard relation describes, except the shadowed ones |
| HeaderForward.SplitMatches | crates/core/src/header_forward.rs:267 | splitting at the stars keeps the wildcard relation: segments in order with free gaps |
| HeaderForward.LeftmostIsBest | crates/core/src/header_forward.rs:281 | taking the leftmost occurrence of a segment that is not the last loses no match |
| HeaderForward.AcceptsExactly | crates/core/src/header_forward.rs:275-299 | the greedy placement succeeds exactly on matching, unshadowed values |
| HeaderForward.DisagreesExactlyWhenShadowed | crates/core/src/header_forward.rs:263-300 | matcher and relation differ exactly when the last segment ends the value and also occurs earlier |
| HeaderForward.AcceptsTheShortest | crates/core/src/header_forward.rs:263-300 | without a star at the end, accepted are exactly the described values no proper prefix of which is described |
| HeaderForward.CompleteWhen | crates/core/src/header_forward.rs:266-300 | no match is missed by patterns ending in a star, without a star, or whose last segment occurs once |
| HeaderForward.RepeatedSuffixIsMissed | crates/core/src/header_forward.rs:281-297 | every suffix pattern misses the value that repeats the suffix |
| HeaderForward.RequestIdEntryMisses | crates/core/src/header_forward.rs:113 | the built-in response entry for request ids is such a pattern |
| HeaderForward.DenyList.Add | crates/core/src/header_forward.rs:242-254 | literals and globs together hold exactly the entries added |
| HeaderForward.DenyList.AddDefaults | crates/core/src/header_forward.rs:242-254 | the entries become the lower-cased defaults and whatever was there |
| HeaderForward.DenyList.AddExtra | crates/core/src/header_forward.rs:166-205 | operator entries are trimmed, lower-cased and added, blank ones skipped |
| HeaderForward.DenyList.ShouldForward | crates/core/src/header_forward.rs:207-237 | a header passes exactly when every entry describing it is one the matcher misses |
| HeaderForward.PrefixPoliciesAreExact | crates/core/src/header_forward.rs:207-221 | with literals and star-ended globs only, a header passes exactly when no entry describes it |
| HeaderForward.DefaultRequestPolicyIsExact | crates/core/src/header_forward.rs:143-153 | the default request policy blocks exactly the headers its entries describe |
| HeaderForward.DefaultResponsePolicyMisses | crates/core/src/header_forward.rs:100-125 | the default response policy misses exactly the names that end in `request-id` or `requestid`, hold it earlier as well, and are named by no other entry |
| HeaderReading.CaseIsIgnored | crates/core/src/header_forward.rs:208 | two names are one to a policy exactly when they differ in the case of ASCII letters only |
| HeaderReading.LettersAreLowered | crates/core/src/header_forward.rs:208 | each capital becomes its small letter, which stays |
| HeaderReading.OthersStay | crates/core/src/header_forward.rs:208 | and no other character changes |
| HeaderReading.TrimIs | crates/core/src/header_forward.rs:171 | trimming takes white space off both ends, and all of it |
| HeaderReading.WhitespaceIs | crates/core/src/header_forward.rs:171 | white space is the Unicode property, character by character |
| HeaderReading.RequestHeadersBlocked | crates/core/src/header_forward.rs:33-71 | the request list blocks credentials, what is recomputed, hop-by-hop headers and trace context, by name, and nothing else |
| HeaderReading.ResponseHeadersBlocked | crates/core/src/header_forward.rs:73-125 | the response list blocks by name, beginning, `trace` anywhere, and the endings `request-id` and `requestid` when they are not repeated, and nothing else |
| HeaderReading.DefaultPolicies | crates/core/src/header_forward.rs:143-237 | new policies with the built-in lists decide so on every header, whatever its case |
| SchemaConversion.ConversionLosesNoValue | crates/protocols/src/gemini.rs:120-283 | without `oneOf`, every value the JSON Schema accepts is accepted after conversion, whatever the dropped keywords mean together with the rest of their schema |
| SchemaConversion.ConversionIsExact | crates/protocols/src/gemini.rs:120-283 | on schemas whose known keywords survive at every depth, `oneOf` included and whatever other keywords they carry, both accept exactly the same values as far as the known keywords go |
| SchemaConversion.ConversionIsExactInAnyReading | crates/protocols/src/gemini.rs:120-283 | where moreover nothing is dropped, in any reading of the keywords the converter does not know |
| SchemaReading.KeywordsAreTold | crates/protocols/src/gemini.rs:120-283 | every schema, faithful or not, is converted as told keyword by keyword: names of types, `enum` before `const`, alternatives without null, what a collapsed one overwrites |
| SchemaConversion.NotesStay | crates/protocols/src/gemini.rs:131-163 | description and format stay, but for the format of a bare object and what a collapsed `anyOf` member brings |
| SchemaConversion.CollapseOverwrites | crates/protocols/src/gemini.rs:249-256 | a collapsed `anyOf` member overwrites each keyword it has, and the rest of the schema stays |
| SchemaConversion.ConversionIsInSubset | crates/protocols/src/gemini.rs:120-283 | plainly typed schemas convert to documents without type arrays and without null among alternatives, at every depth |
| SchemaConversion.TypesConvert | crates/protocols/src/gemini.rs:169-195 | the converted type accepts what the original did, a null member becoming `nullable` |
| SchemaConversion.NullAnyOfExact | crates/protocols/src/gemini.rs:231-264 | an `anyOf` with a null member is replaced by its non-null part made nullable, without changing its meaning |
| SchemaConversion.OneOfCanLoseAValue | crates/protocols/src/gemini.rs:131-146 | a dropped `required` under `oneOf` can reject an accepted value |
| SchemaConversion.NullableOutranksAllOf | crates/protocols/src/gemini.rs:169-195 | a nullable type array beside `allOf` lets null through |
| SchemaConversion.NullableOutranksOneOf | crates/protocols/src/gemini.rs:169-195 | and so does one beside `oneOf` |
| SchemaConversion.EmptyTypeArrayAdmitsNull | crates/protocols/src/gemini.rs:179-180 | an empty type array, which accepts nothing, converts to one that accepts null |
| SchemaConversion.CollapsedAnyOfReplacesSiblings | crates/protocols/src/gemini.rs:249-256 | a collapsed `anyOf` member overwrites the keywords beside it |
| SchemaConversion.EnumReplacesConst | crates/protocols/src/gemini.rs:164-200 | an `enum` overwrites the `const` beside it |
| JsonValue.DecimalsAreCanonical | crates/protocols/src/gemini.rs:164-200 | numbers of equal value are equal JSON, so comparing values with `const` and `enum` compares what they mean |
| TokenCache.OAuthTokenCache.MutexFor | crates/auth/src/provider_oauth.rs:649-655 | one mutex per key, made on first use and kept |
| TokenCache.OAuthTokenCache.Seed | crates/auth/src/provider_oauth.rs:659-674 | an absent or empty refresh token is filled in; any other entry stays |
| TokenCache.OAuthTokenCache.SeedTokens | crates/auth/src/provider_oauth.rs:680-722 | the key's entry becomes the given tokens and no other entry changes |
| TokenCache.OAuthTokenCache.InvalidateProvider | crates/auth/src/provider_oauth.rs:640-647 | every key of the provider loses its token and its mutex, and no other does |
| TokenCache.OAuthTokenCache.InvalidateAccessTokenIfMatches | crates/auth/src/provider_oauth.rs:889-902 | clears the access token if it is the rejected one, and never a newer one |
| TokenCache.OAuthTokenCache.ApplyCached | crates/auth/src/provider_oauth.rs:831-855 | hands out the cached token exactly when it is usable, changing nothing |
| TokenCache.OAuthTokenCache.Apply | crates/auth/src/provider_oauth.rs:729-825 | double-checked refresh, with other callers interfering while it waits and while the request is out; the key's mutex is made at most once and no other changes |
| TokenCache.UsableExactlyWhen | crates/auth/src/provider_oauth.rs:585-592 | a cached token is handed out exactly when its access text is not empty and it has no expiry or more than 60 seconds left |
| TokenCache.GrantsLast | crates/auth/src/provider_oauth.rs:585-592 | a granted token is handed out until a minute before its lifetime is over, and keeps the presented refresh token if none came |
| TokenCache.SeedingFills | crates/auth/src/provider_oauth.rs:659-674 | seeding fills in a missing refresh token and changes nothing else |
| TokenCache.ClearingSparesNewer | crates/auth/src/provider_oauth.rs:889-902 | a rejected token is usable no more, its refresh token stays, and a newer token is left alone |
| TokenCache.InvalidationIsExact | crates/auth/src/provider_oauth.rs:640-647 | among provider ids without a colon, invalidating one drops its own keys and no others |
| SingleFlight.SingleFlight | crates/auth/src/provider_oauth.rs:729-825 | until a key's own provider is invalidated at most one refresh of the key is in flight, whatever else is done |
| SingleFlight.RequestsPresentTheLiveToken | crates/auth/src/provider_oauth.rs:760-819 | each refresh request presents the refresh token the rotating server holds at that moment |
| SingleFlight.RefreshesAreBounded | crates/auth/src/provider_oauth.rs:585-592 | successful refreshes of a key are at most one plus the usable tokens that expired, were cleared or came too late |
| SingleFlight.EachTokenIsClearedOnce | crates/auth/src/provider_oauth.rs:889-902 | any number of rejections clears an access token at most once |
| SingleFlight.InvKept | crates/auth/src/provider_oauth.rs:649-902 | mutual exclusion, live requests and the refresh count are kept by every step of every call |
| SingleFlight.HitsAreFresh | crates/auth/src/provider_oauth.rs:729-757 | in every run a call is handed a cached token exactly when that has a text and more than 60 seconds left |
| SingleFlight.LockedMutexesAreHeld | crates/auth/src/provider_oauth.rs:740-825 | in every run no mutex stays locked once the call that locked it has left |
| SingleFlight.DroppingMutexesBreaksExclusion | crates/auth/src/provider_oauth.rs:640-647 | one `invalidate_provider` between two calls lets both refresh at once |
| SingleFlight.ApplyTakesTheSteps | crates/auth/src/provider_oauth.rs:729-825 | from any reachable state an undisturbed call takes steps of the protocol to the tokens `apply` leaves |
| SingleFlight.ApplyAlone | crates/auth/src/provider_oauth.rs:729-825 | the cache object's `apply` leaves just those tokens when nobody interferes |
| LabelApplier.OAuthAuthApplier.StateFor | crates/auth/src/oauth.rs:158-177 | one mutex per label, made on first use, the cached token untouched |
| LabelApplier.OAuthAuthApplier.StoreToken | crates/auth/src/oauth.rs:179-193 | the label's token is replaced, its mutex and the other labels stay |
| LabelApplier.OAuthAuthApplier.Cached | crates/auth/src/oauth.rs:195-200 | reads the label's token |
| LabelApplier.FreshExactlyWhen | crates/auth/src/oauth.rs:95-97 | a token is handed out exactly when it has no expiry or more than the leeway left |
| LabelApplier.StoredTokensLast | crates/auth/src/oauth.rs:179-193 | a stored token is handed out until the leeway before its lifetime is over, and other labels keep theirs |
| LabelApplier.AppliesAreSingleFlight | crates/auth/src/oauth.rs:309-363 | in every run at most one `apply` refresh per label is in flight, whatever explicit refreshes and logins run beside it |
| LabelApplier.AppliesPresentTheLiveToken | crates/auth/src/oauth.rs:309-363 | in `apply`-only runs each request presents the live token |
| LabelApplier.HitsAreFresh | crates/auth/src/oauth.rs:309-340 | in every run a call is handed a cached token exactly when more than the leeway is left of it |
| LabelApplier.RepliesAreStored | crates/auth/src/oauth.rs:223-300 | a refresh and a login store just the reply they got, with its lifetime counted from then |
| LabelApplier.LockedMutexesAreHeld | crates/auth/src/oauth.rs:309-363 | in every run no mutex stays locked once the call that locked it has left |
| LabelApplier.ExplicitRefreshesOverlap | crates/auth/src/oauth.rs:223-263 | two explicit refreshes of one label can overlap |
| LabelApplier.UnrotatedReplyStrands | crates/auth/src/oauth.rs:179-193 | storing a reply without a refresh token leaves the label with none |
| LabelApplier.StrandedUntilLogin | crates/auth/src/oauth.rs:223-300 | such a label is never refreshed again in any run until a login stores a new token |
| TokenUsage.TokensAreConserved | crates/protocols/src/chat_completions.rs:681-707 | through any chain of hops, streaming or not, prompt sum, completion, cache reads and reasoning stay, and the total is their sum |
| TokenUsage.GatesAgreeExactlyWhen | crates/protocols/src/gemini.rs:1167-1174 | the whole and the streaming decoder take the same usage objects exactly when one of three fields has a number or none of five is there |
| TokenUsage.EncodedCountsAre | crates/protocols/src/chat_completions.rs:681-707 | on the wire the prompt counts cache reads and writes in, and the total is the sum |
| TokenUsage.ChatCountsAre | crates/protocols/src/chat_completions.rs:1287-1316 | read from Chat, the prompt is what the cached counts leave of it, at least none, and the other counts stay |
| TokenUsage.ChatGatesAre | crates/protocols/src/chat_completions.rs:1290-1296 | Chat usage is taken exactly when one of three counts is there |
| TokenUsage.GeminiCountsAre | crates/protocols/src/gemini.rs:1166-1189 | the same of counts read from Gemini |
| ChatStream.ChatStreamEncoder.ToolCallIndex | crates/protocols/src/chat_completions.rs:1363-1369 | a known id keeps its index, a new one takes the next, an empty one changes nothing |
| ChatStream.ChatStreamEncoder.EncodePart | crates/protocols/src/chat_completions.rs:1373-1521 | the frame written and the tables left are those of the encoding function |
| ChatStream.ChatStreamDecoder.Slot | crates/protocols/src/chat_completions.rs:1593-1599 | the slot table is extended to the index and keeps what it held |
| ChatStream.ChatStreamDecoder.FeedCall | crates/protocols/src/chat_completions.rs:1717-1790 | one call delta updates its slot and yields opener and arguments |
| ChatStream.ChatStreamDecoder.Feed | crates/protocols/src/chat_completions.rs:1603-1883 | the parts yielded and the state left are those of the decoding function |
| ChatStream.RoundTripIsNormalForm | crates/protocols/src/chat_completions.rs:1373-1883 | decoding the encoder's chunks gives the normal form, for any parts in any order, calls interleaved, ids empty or not |
| ChatStream.Relay | crates/protocols/src/chat_completions.rs:1373-1883 | the two objects joined wire to wire yield that normal form |
| ChatStream.ContentSurvives | crates/protocols/src/chat_completions.rs:1373-1883 | a reader collects the text, reasoning and arguments of each call as meant, a nameless fragment counting for the latest call |
| ChatStream.NamedContentSurvives | crates/protocols/src/chat_completions.rs:1373-1883 | with ids on every fragment that is what a reader of the original collects |
| ChatStream.IndicesAreStable | crates/protocols/src/chat_completions.rs:1363-1369 | ids map injectively to indices and keep them over any run |
| ChatReading.StreamsAreTold | crates/protocols/src/chat_completions.rs:1603-1883 | whatever frames come, each says what the history of the wire makes of it: a fragment goes out under the id last given at its index, finishes behind the usage, a call turn's missing finish at the end |
| ChatReading.ArgumentsAreBoundByIndex | crates/protocols/src/chat_completions.rs:1719-1738 | with one id per index, the arguments collected under it are those sent at that index, however the calls are interleaved |
| ChatReading.PartsAreWritten | crates/protocols/src/chat_completions.rs:1373-1521 | each part is written as one frame of its own field, or as none |
| GeminiStream.GeminiStreamDecoder.FeedPart | crates/protocols/src/gemini.rs:1418-1482 | one part yields its deltas and stashes its signature |
| GeminiStream.GeminiStreamDecoder.Feed | crates/protocols/src/gemini.rs:1367-1545 | the parts yielded and the state left are those of the step function |
| GeminiStream.GeminiStreamDecoder.FinishStream | crates/protocols/src/gemini.rs:1547-1565 | hands over id and signatures once and leaves none |
| GeminiStream.PartsAreRead | crates/protocols/src/gemini.rs:1418-1482 | whatever the parts of a candidate, each says its deltas, and calls alone latch and leave signatures |
| GeminiStream.PartsAgreeExactlyWhen | crates/protocols/src/gemini.rs:1017-1072 | on a part the two decoders agree exactly when no text hides a thought or a call, a call has arguments, and only a call is signed |
| GeminiStream.ResponsesAgreeExactlyWhen | crates/protocols/src/gemini.rs:1014-1076 | on a list of parts they agree on texts, and on reasoning, calls and signatures exactly when they do on every part |
| GeminiStream.UnfinishedEvents | crates/protocols/src/gemini.rs:1415-1544 | events before the finish say their parts and usages, and a made-up finish at the first usage |
| GeminiStream.BrokenSaysTheSame | crates/protocols/src/gemini.rs:1418-1482 | breaking texts into pieces anywhere changes nothing said |
| GeminiStream.StreamingRefinesWhole | crates/protocols/src/gemini.rs:1004-1197 | however a response is cut, streaming it gives the text of decoding it whole, and the reasoning, calls, usage and finish each under an exact condition on the response |
| GeminiStream.UnfinishedRefinesWhole | crates/protocols/src/gemini.rs:1531-1543 | the same of responses without a finish reason, where the finish agrees exactly when no usage is reported |
| GeminiStream.SignaturesArriveExactlyWhen | crates/protocols/src/gemini.rs:1547-1565 | the end of the stream hands over the signatures of calls with the first id told, or nothing; they are the whole ones exactly when there are none, or only calls are signed and an id was told |
| GeminiStream.MissingArgumentsDiffer | crates/protocols/src/gemini.rs:1468-1472 | a call without arguments has null when decoded whole and an empty object when streamed |
| GeminiStream.CallsBesideTextAreHidden | crates/protocols/src/gemini.rs:1034-1057 | a call beside a text is missing when decoded whole, and the finish with it |
| GeminiStream.CacheCountAloneDiffers | crates/protocols/src/gemini.rs:1511-1519 | a cache count alone is reported streamed and dropped whole |
| GeminiStream.SignedTextLosesSignature | crates/protocols/src/gemini.rs:1448-1454 | the signature of a signed text is kept whole and lost streamed |
| GeminiStream.FinishIsMadeUp | crates/protocols/src/gemini.rs:1535-1543 | usage without a finish makes one up in the stream only |
| GeminiStream.SignaturesAreLostWithoutId | crates/protocols/src/gemini.rs:1547-1565 | a signed call in a stream without ids loses its signature, which the whole decoder returns |
| GeminiReading.StreamedCallsAreTheWires | crates/protocols/src/gemini.rs:1457-1482 | however a response is cut, the calls streamed are the wire's in order, each under its own id, or one made of its name |
| GeminiReading.OwnIdsAreKept | crates/protocols/src/gemini.rs:1058-1062 | a call with an id of its own is reported under it by each decoder that reads it |
| GeminiReading.IdsAreTold | crates/protocols/src/gemini.rs:42-48 | without one it is `gemini_call_` and the name, or empty |
| GeminiReading.EventSays | crates/protocols/src/gemini.rs:1367-1545 | every event says the id if it is the first, all candidates, the usage, and a made-up finish if there was none, in this order |
| GeminiReading.ResponseHolds | crates/protocols/src/gemini.rs:1004-1197 | a whole response holds its id, the contents of all candidates in order, the first one's finish, and the usage |
| GeminiReading.FinishesAreTold | crates/protocols/src/gemini.rs:1128-1151 | the finish reasons by name, a stop after calls being a call turn's end |
| ChatRequest.ParseContentArray | crates/protocols/src/chat_completions.rs:1890-1953 | each content part is decoded by its type and the message's role |
| ChatRequest.DecodeOne | crates/protocols/src/chat_completions.rs:130-258 | reasoning first, then content, then calls, and never an empty message |
| ChatRequest.DecodeRequest | crates/protocols/src/chat_completions.rs:128-329 | all messages decoded, system messages extracted unless one has a breakpoint |
| ChatRequest.Collect | crates/protocols/src/chat_completions.rs:771-892 | the pass over a message's content collects texts, reasoning and calls and sends results at once |
| ChatRequest.EncodeRequest | crates/protocols/src/chat_completions.rs:748-938 | the system text first, then each message's results and what remains of it |
| ChatRequestReading.SystemTextIsJoined | crates/protocols/src/chat_completions.rs:287-329 | without a breakpoint among system messages there is no system text exactly when the wire has none, and otherwise each text stands at its offset with one newline between neighbours; the other messages stay in order |
| ChatRequestReading.MarkedMessagesStay | crates/protocols/src/chat_completions.rs:260-329 | with one there is no system text and every message stays in its place |
| ChatRequestReading.MessageIsTold | crates/protocols/src/chat_completions.rs:130-258 | any message is decoded by the names of roles, fields and types on the wire |
| ChatRequestReading.RequestIsWritten | crates/protocols/src/chat_completions.rs:748-938 | any request is written as the system text and each message's results and main message |
| ChatRequestReading.ReasoningIsJoined | crates/protocols/src/chat_completions.rs:785-795 | reasoning texts are joined by newlines from the first that is not empty |
| ChatNormalForm.RoundTripIsNormalForm | crates/protocols/src/chat_completions.rs:128-938 | decoding an encoded request gives a normal form said on the IR alone |
| ChatNormalForm.SystemExtracted | crates/protocols/src/chat_completions.rs:287-329 | the system text put in front is taken out again unchanged |
| ChatNormalForm.BreakpointsSurvive | crates/protocols/src/chat_completions.rs:268-285 | breakpoints of system messages survive the round trip and none appears |
| ChatNormalForm.MessageSettles | crates/protocols/src/chat_completions.rs:755-936 | what a message turns into is final exactly when its arguments settle and it is no growing tool message |
| ChatNormalForm.QuotedTwiceChangesTwice | crates/protocols/src/chat_completions.rs:755-936 | arguments that are JSON printed twice over change in the first round trip and again in the second |
| ChatNormalForm.ToolCallsGrowForever | crates/protocols/src/chat_completions.rs:141-162 | tool messages with calls and no array of texts grow every round |
| ChatNormalForm.NormalFormIsFinal | crates/protocols/src/chat_completions.rs:128-938 | normalising twice is normalising once exactly when every message that stays is settled |
| ChatNormalForm.SecondRoundTripChangesNothing | crates/protocols/src/chat_completions.rs:128-938 | the same, said of encoding and decoding |
| JsonPrinting.FaithfulLibrariesExist | crates/protocols/src/chat_completions.rs:128-938 | a JSON library exists that reads back every value it prints, as both codecs assume |
| ToolPairing.MessageEvents | crates/protocols/src/chat_completions.rs:755-936 | an encoded message answers first and calls afterwards, each in the IR's order |
| ToolPairing.CallsAndResultsAreConserved | crates/protocols/src/chat_completions.rs:755-936 | calls and results go out one for one |
| ToolPairing.EncodedIsPairedIff | crates/protocols/src/chat_completions.rs:755-936 | on the wire every result follows its call exactly when its call is in an earlier message |
| ToolPairing.PairingIsKept | crates/protocols/src/chat_completions.rs:755-936 | pairing is kept when no message carries a call and its own result |
| ToolPairing.SameMessagePairIsParted | crates/protocols/src/chat_completions.rs:869-934 | in one message the result is sent ahead of its call |
| ToolPairing.DecodingKeepsCallsAndResults | crates/protocols/src/chat_completions.rs:130-329 | decoding keeps every call and result in order exactly when a breakpoint keeps the system messages or none of them carries calls |
| GeminiRequest.LookupToolCallName | crates/protocols/src/gemini.rs:56-76 | the first named call with the id in the last assistant message that has one, else the name in a synthesised id |
| GeminiRequest.NameFromIs | crates/protocols/src/gemini.rs:56-71 | a name is found exactly when an assistant message calls by that id, and it is such a call's name |
| GeminiRequest.ResultsGetTheirCallsName | crates/protocols/src/gemini.rs:56-76 | a nameless result is sent under the name of the assistant's call whose item id it carries |
| GeminiRequest.SynthesisedIdsResolve | crates/protocols/src/gemini.rs:42-48 | a synthesised id always gives a name, its own unless a call of that id bears another |
| GeminiRequest.EncodeMessageParts | crates/protocols/src/gemini.rs:735-810 | the loop over a message's content, with the signature index running on |
| GeminiRequest.EncodeContents | crates/protocols/src/gemini.rs:713-815 | the loop over all messages, an unresolved result ending it |
| GeminiRequest.TurnsFailIff | crates/protocols/src/gemini.rs:766-782 | encoding is refused exactly when some result has no name |
| GeminiRequest.ResultsWithCallsNeverFail | crates/protocols/src/gemini.rs:766-782 | requests whose nameless results all carry the item id of a named call are never refused |
| GeminiRequest.EncodingIs | crates/protocols/src/gemini.rs:713-815 | each part says its content under the resolved name, and the j-th call carries the j-th signature, then the sentinel if the model needs one |
| GeminiRequestReading.NearestCallIsLookedUp | crates/protocols/src/gemini.rs:56-71 | a result is named by the first named call with its id in the last assistant message that has one |
| GeminiRequestReading.OtherwiseTheIdTells | crates/protocols/src/gemini.rs:73-76 | without such a call by the name after `gemini_call_`, or by nothing |
| GeminiRequestReading.DecodedIdsLeadBack | crates/protocols/src/gemini.rs:42-76 | the id the response decoders make leads back to the call's name, unless a call of that id bears another |
| GeminiRequestReading.ModelsAreRecognised | crates/protocols/src/gemini.rs:87-89 | a signature is asked for exactly when the model's name holds `gemini-3` in letters of any case |
| GeminiRequestReading.RequestIsTold | crates/protocols/src/gemini.rs:713-815 | every accepted request goes out part by part and turn by turn, under the wire's names |
| GeminiSignatures.StreamedSignaturesReturn | crates/protocols/src/gemini.rs:716-764 | signatures kept from streams go back to their own calls exactly when no call without a signature comes before one with |
| GeminiSignatures.WholeSignaturesReturn | crates/protocols/src/gemini.rs:716-764 | those of a response decoded whole, with any number of earlier calls, do exactly when calls and signatures keep step |
| GeminiSignatures.UnsignedCallsTakeTheNext | crates/protocols/src/gemini.rs:752-764 | a call without a signature takes that of the call after it |
| GeminiSignatures.SignedTextsGiveTheirs | crates/protocols/src/gemini.rs:1017-1020 | a signed text gives its signature to the call after it |
| GeminiSignatures.EarlierCallsTakeThem | crates/protocols/src/gemini.rs:752-764 | a call of an earlier turn takes the signature of a later response |
| GeminiPairing.AcceptedExactlyWhenFound | crates/protocols/src/gemini.rs:766-782 | paired requests with unique ids and named calls are accepted exactly when each nameless result's own call is an assistant's with that very item id, or the result's id spells a name |
| GeminiPairing.NamedAfterItsCallExactlyWhen | crates/protocols/src/gemini.rs:56-76 | and a result bears its own call's name exactly when the call is so found or the id spells that name |
| GeminiPairing.CallIdsAreNotLookedUp | crates/core/src/ir/mod.rs:212-219 | a call with an item id and another `call_id`, and its result, are paired and refused |
| Quota.WindowCounter.Snapshot | crates/core/src/quota.rs:158-168 | the window restarts when it has run out, and usage and remaining time are reported |
| Quota.InMemoryQuota.CheckPass | crates/core/src/quota.rs:215-238 | the check pass, bucket by bucket, each at its own clock reading |
| Quota.InMemoryQuota.CommitPass | crates/core/src/quota.rs:240-249 | the commit pass charges every bucket at its own clock reading |
| Quota.InMemoryQuota.CheckAndConsume | crates/core/src/quota.rs:195-252 | check then commit on the key's buckets, other keys untouched |
| Quota.InMemoryQuota.CurrentUsage | crates/core/src/quota.rs:254-263 | every known bucket's usage, rolled to its own reading |
| Quota.DeniedCallsAreInvisible | crates/core/src/quota.rs:195-252 | a denied call changes no usage observable afterwards, in any bucket |
| Quota.AllowedCallsChargeAll | crates/core/src/quota.rs:240-249 | an allowed call charges each tracked bucket once |
| Quota.AllowedCallsChargeNoOther | crates/core/src/quota.rs:204-249 | and no other bucket |
| Quota.DenialNamesAFullBucket | crates/core/src/quota.rs:224-236 | a denial names a bucket without room and what was left of its window |
| Quota.RetryAfterSuffices | crates/core/src/quota.rs:229-236 | after `retry_after` on an idle key that bucket takes any increment within its limit |
| Quota.RunKeepsBound | crates/core/src/quota.rs:195-263 | the invariant behind the rate bound holds after every operation of every run |
| Quota.GrantsAreRateBounded | crates/core/src/quota.rs:195-263 | no bucket exceeds its limit, and any interval grants at most the limit times its windows plus two |
| QuotaReading.AllowedExactlyWhen | crates/core/src/quota.rs:195-238 | a call is let through exactly when every counted bucket has room for one request or its tokens, in windows of 60 seconds or a day |
| QuotaReading.DenialIs | crates/core/src/quota.rs:215-238 | a denial comes from the first bucket without room and tells what is left of its window |
| QuotaReading.ChargesAre | crates/core/src/quota.rs:240-249 | an allowed call takes one request or its tokens from each counted bucket and leaves the others; a denied one takes nothing |
| QuotaReading.UsageIsTold | crates/core/src/quota.rs:254-263 | the usage reported is what is used of each window that has not run out |
| QuotaReading.UsageIsExact | crates/core/src/quota.rs:195-263 | in every run each counter holds exactly what was granted since its window began |
| QuotaReading.GrantsAre | crates/core/src/quota.rs:240-249 | a call grants one request or its tokens from each bucket it counts, if it is let through |
| QuotaReading.AtMostTwiceAWindow | crates/core/src/quota.rs:195-263 | no interval shorter than its window sees a bucket grant more than twice its limit |
| RedisQuota.KeysAreDistinct | crates/core/src/quota.rs:429-438 | no two buckets share a Redis key |
| RedisQuota.LiveCountersAreWithinLimits | crates/core/src/quota.rs:401-415 | however gateways interleave, every live counter is within its limit and expires within its window |
| RedisQuota.DeniedCallsChargeAPrefix | crates/core/src/quota.rs:477-508 | a denied call has charged a strict prefix of its buckets, each once |
| RedisQuota.SharedGrantsAreRateBounded | crates/core/src/quota.rs:401-508 | the rate bound holds across all gateways together |
| QuotaReading.KeysAre | crates/core/src/quota.rs:429-438 | the keys, by name |
| QuotaReading.ScriptIs | crates/core/src/quota.rs:401-415 | a script goes through exactly when there is room, and a key that held nothing starts its time anew |
| QuotaReading.PlansAre | crates/core/src/quota.rs:448-462 | a call checks exactly the buckets with a limit, requests before tokens and minutes before days |
| QuotaReading.TurnsAreDecided | crates/core/src/quota.rs:477-508 | each turn of a call is decided by its own bucket: charged if there is room, and otherwise the end of the call |
| QuotaReading.CallsRun | crates/core/src/quota.rs:466-508 | a call begins with nothing charged, ends allowed when nothing is left to charge, and fails open |
| QuotaReading.SharedUsageIsExact | crates/core/src/quota.rs:401-508 | however gateways interleave, each key holds exactly what was granted since it was made |
| BruteForce.InMemoryBruteForceLimiter.PurgeExpired | crates/admin/src/brute_force.rs:177-187 | exactly the entries with a lock, failures or lockouts are kept |
| BruteForce.InMemoryBruteForceLimiter.IsLocked | crates/admin/src/brute_force.rs:190-201 | purge, then report the lock at a later reading |
| BruteForce.InMemoryBruteForceLimiter.RecordFailure | crates/admin/src/brute_force.rs:203-245 | counts, locks or escalates one client, with four clock readings |
| BruteForce.InMemoryBruteForceLimiter.RecordSuccess | crates/admin/src/brute_force.rs:247-258 | clears a known client's counters and keeps its lock |
| BruteForce.PurgingIsInvisible | crates/admin/src/brute_force.rs:177-258 | over any run the limiter answers as one that never forgets |
| BruteForce.NoTriggerBeforeTheDeadline | crates/admin/src/brute_force.rs:203-245 | no call triggers a lockout while one lasts |
| BruteForce.LockoutIsExact | crates/admin/src/brute_force.rs:190-258 | locked at every moment before the deadline whatever is called, unlocked from it on until the next trigger |
| BruteForce.LockoutsAreRateBounded | crates/admin/src/brute_force.rs:203-245 | without successes, k lockouts take at least the first k-1 together, and count max_failures failures each plus those pending |
| BruteForce.CycleIs | crates/admin/src/brute_force.rs:226-241 | every max_lockouts-th lockout is escalated |
| BruteForce.TotalDurationIs | crates/admin/src/brute_force.rs:226-241 | the closed form of the time k lockouts last |
| BruteForceReading.AnswersAreTold | crates/admin/src/brute_force.rs:177-258 | over any run of any clients each answer follows from the failures counted since the client's last success: every `max_failures`-th locks, every `max_lockouts`-th lockout is long, and a success unlocks nothing |
| RedisBruteForce.RedisEscalatesAlwaysOrNever | crates/admin/src/brute_force.rs:278-315 | after any history a lockout escalates exactly when max_lockouts is at most 1 |
| RedisBruteForce.AgreeUntilEscalation | crates/admin/src/brute_force.rs:278-430 | over steady runs, through any number of lockouts, the Redis limiter answers as the in-memory one until memory escalates to a stage of another length |
| RedisBruteForce.AgreeExactlyWhen | crates/admin/src/brute_force.rs:278-430 | they answer alike over all steady runs exactly when `max_lockouts` is at most 1 or the stages are equally long |
| RedisBruteForce.TheyPartAfterLockouts | crates/admin/src/brute_force.rs:312 | with stages of different length, after `max_lockouts` lockouts in a row one limiter still holds the client: memory when the escalated stage is longer, Redis when it is shorter |
| RedisBruteForce.SuccessUnlocksRedis | crates/admin/src/brute_force.rs:411-427 | a success during a lockout ends it in Redis only |
| RedisBruteForce.PendingFailuresExpireInRedis | crates/admin/src/brute_force.rs:294-299 | failures left for both lockout times are forgotten in Redis only |
| BruteForceReading.RedisAnswersAreTold | crates/admin/src/brute_force.rs:278-430 | over any events Redis answers by the pending failures, forgotten after both lockout times, and the latest deadline |
| EmbeddingCache.Normalize | crates/cache/src/embedding_cache.rs:187-202 | the loop and the trim give the words joined by single blanks |
| EmbeddingCache.SameWordsSameKey | crates/cache/src/embedding_cache.rs:187-202 | two inputs normalise equally exactly when their words agree |
| EmbeddingCache.NormalizingTwiceIsOnce | crates/cache/src/embedding_cache.rs:187-202 | normalising is idempotent |
| TextReading.KeysAreTight | crates/cache/src/embedding_cache.rs:187-202 | however the words of an input are laid out with white space, the key has them with one blank between neighbours |
| TextReading.EveryTextIsLaidOut | crates/cache/src/embedding_cache.rs:187-202 | and every text is such a layout |
| TextReading.CharactersAreUtf8 | crates/cache/src/embedding_cache.rs:82-92 | the hashed bytes of a text are its UTF-8 (section 3 of RFC 3629) |
| EmbeddingCache.CollisionsAre | crates/cache/src/embedding_cache.rs:80-94 | exactly which keys share their hashed bytes when model and format hold no delimiter |
| EmbeddingCache.PreimageIsFaithful | crates/cache/src/embedding_cache.rs:80-94 | outside the excluded dimensions the hashed bytes tell every request from every other |
| EmbeddingCache.EntriesAreSharedByWords | crates/cache/src/embedding_cache.rs:58-65 | requests made of a model name and a text share an entry exactly when model and words agree |
| EmbeddingCache.CaseIsKept | crates/cache/src/embedding_cache.rs:187-202 | letter case tells requests apart, against the documentation |
| EmbeddingCache.BarsInModelsCollide | crates/cache/src/embedding_cache.rs:80-94 | a delimiter in the model name makes requests collide |
| EmbeddingCache.DimensionsInRangeCollide | crates/cache/src/embedding_cache.rs:86-88 | dimensions in the excluded range make requests collide |
| EmbeddingCache.EmbeddingCache.Get | crates/cache/src/embedding_cache.rs:130-137 | the entry under the key's hash, if any |
| EmbeddingCache.EmbeddingCache.Put | crates/cache/src/embedding_cache.rs:140-146 | stores the response under the key's hash |
| EmbeddingCache.EmbeddingCache.InvalidateAll | crates/cache/src/embedding_cache.rs:158-162 | every entry is dropped |
| EmbeddingCache.CacheRefinesPlainMap | crates/cache/src/embedding_cache.rs:130-146 | with a hash that does not collide on the keys used, the cache answers as a map from requests to values, so every hit is that request's |
| TraceContext.HexLower | crates/core/src/tracing_ctx.rs:150-158 | two lower-case digits per byte |
| TraceContext.HexInjective | crates/core/src/tracing_ctx.rs:150-158 | different bytes print differently |
| TraceContext.TraceIdGenerator.Bump | crates/core/src/tracing_ctx.rs:197-204 | the carry loop adds one to the big-endian bytes in place |
| TraceContext.TraceIdGenerator.Next | crates/core/src/tracing_ctx.rs:189-214 | the bytes are one more than before, or random on the first call and on wrapping |
| TraceContext.BumpedAddsOne | crates/core/src/tracing_ctx.rs:197-204 | carrying adds exactly one unless every byte is full |
| TraceContext.IdsAreDistinct | crates/core/src/tracing_ctx.rs:189-214 | the ids of a run that does not wrap are pairwise distinct |
| TraceContext.ExtractsExactly | crates/core/src/tracing_ctx.rs:85-113 | a header is accepted exactly when it has the shape, and yields its fields |
| TraceReading.HeadersAreRead | crates/core/src/tracing_ctx.rs:85-113 | a header yields a context exactly when version, ids and dashes stand at their positions and the rest spells the flags |
| TraceReading.FlagsAreTheNumber | crates/core/src/tracing_ctx.rs:103-106 | flags are read exactly when hexadecimal digits spell a number below 256, perhaps behind a plus sign |
| TraceReading.DigitsArePrinted | crates/core/src/tracing_ctx.rs:150-158 | each byte is printed as its two digits |
| TraceReading.BothHeadersAreRead | crates/core/src/tracing_ctx.rs:118-136 | no context without a readable `traceparent`, and the `tracestate` as it is |
| TraceContext.OddFlagsAreAccepted | crates/core/src/tracing_ctx.rs:94-113 | flags with zeros or a plus sign in front, or in upper case, are read as the printed ones |
| TraceContext.PrintedContextParses | crates/core/src/tracing_ctx.rs:40-45 | a printed context is read back, without `tracestate`, exactly when it was well formed |
| TraceContext.ParsePrintParse | crates/core/src/tracing_ctx.rs:85-113 | parsing what was parsed and printed changes nothing |
| TraceContext.GeneratedIdsAreWellFormed | crates/core/src/tracing_ctx.rs:118-158 | generated ids survive the header, `tracestate` included |

## Left out

- JSON text, SSE framing, HTTP, Redis and database connections, SHA-256 and
  random bytes: libraries, taken as inputs or as steps of a server.
- Liveness of locks, cancelled tasks and refresh replies lost on the way: the
  step relations say what may happen, not that it does.
- Counters are unbounded integers: u64 and u32 overflow is not modelled.
- Wall-clock readings are assumed not to run backwards.
- TokenCache.OAuthTokenCache.Apply: account identity fields and the request
  headers it sets are not modelled; keys built from a provider id containing a
  colon may coincide, as in the code.
- TokenCache.OAuthTokenCache.MutexFor: a mutex is a bare object; who holds it is
  the business of the step relation.
- SingleFlight.SingleFlight: the server never hands out an empty refresh token
  and failed requests do not rotate. The mutex is one atomic acquire step.
- SingleFlight.RequestsPresentTheLiveToken: this and the results after it are
  stated for runs without `invalidate_provider` and `seed_tokens`, in which
  configured and seeded refresh tokens are the key's first one or empty.
- SingleFlight.ApplyTakesTheSteps: an undisturbed call only; interference is in
  the step relation and, as a parameter, in the contract of the method.
- ChatStream.RoundTripIsNormalForm: error frames and the ids of reasoning items
  are not modelled, and usage goes through the counts of `TokenUsage`.
- GeminiStream.StreamingRefinesWhole: citations and error events are not
  compared. Argument text is compared as the JSON it holds.
- GeminiSignatures.WholeSignaturesReturn: for signatures that differ from each
  other and from the sentinel; else a wrong one may be right by chance. Nothing in
  the repository carries the list from a response to the next request; the
  results hold for whoever does.
- HeaderForward.DenyList.AddExtra: lower-casing is that of ASCII letters, which is
  all that header names have; the code lower-cases operator entries by Unicode.
- Responses with several candidates: the whole decoder reads the first finish
  reason only, so streaming is compared on one candidate.
- ChatRequest.DecodeRequest: image parts and media, tools, sampling parameters
  and the response format are not modelled; neither is an id, signature or
  encrypted content on reasoning, which Chat drops.
- GeminiRequest.EncodeContents: media parts and the generation config are not
  modelled.
- Quota.InMemoryQuota.CheckAndConsume: the bucket map holds window values, not
  window objects; `Quota.WindowCounter` models the object itself.
- RedisQuota.LiveCountersAreWithinLimits: a key is gone from the millisecond its
  expiry is reached; a server that still answers in that millisecond is not
  modelled. The specs of a key are fixed over a run.
- RedisQuota.DeniedCallsChargeAPrefix: the limit and the retry time that a denial
  reports (always a whole window) are not modelled.
- RedisBruteForce.RedisEscalatesAlwaysOrNever: the gateway's clock and the
  server's are one clock.
- EmbeddingCache.CacheRefinesPlainMap: expiry and capacity are drops that may
  come at any time; the object's `Drop` stands for the cache library's.
- SchemaConversion.ConversionLosesNoValue: the meaning of keywords the converter
  drops is a parameter that sees the whole schema. `format` is copied and is an
  annotation: it constrains nothing on either side.
- The Responses and Anthropic codecs, routing, health tracking, redaction, the
  admin handlers and the desktop and web interfaces.
