# Verification of go-authzen

A Dafny model of the decision, caching, retry and serving logic of go-authzen, an implementation of the OpenID
AuthZEN Authorization API 1.0, with proofs of what that logic guarantees. Check it with
`dafny verify dfyconfig.toml`.

## What is modelled

- **Two policy deciders.** `TodoScenario` has the reference rule over an arbitrary user directory and todo list.
  `Cedar` is an interpreter for the permits in use (its `in` is proved to be the reflexive-transitive closure of the
  parent relation), `TodoPdp` the Cedar PDP with its per-request overlay, and `Equivalence` the exact condition under
  which the two agree, for every directory, request and properties payload. `Fixtures` shows that the shipped
  entity file mirrors the shipped tables, and gives an input for each way of disagreeing.
- **Batches.** `Evaluation` validates requests; `Batch` has both batch loops and both ways of merging defaults.
- **The metadata cache.** `CacheControl` is the max-age parser in int64 arithmetic, `MetadataClient` the client object
  and one call, `MetadataProtocol` any number of concurrent calls as a state machine whose steps are the atomic
  actions of the code (lock, read, unlock, check, fetch, lock, read clock, write, unlock), over a clock that only moves
  forward and a network that answers anything.
- **The retry loop.** `Retry` has the loop as the code runs it and an audit of everything it does; `Backoff` the
  doubling in int64 arithmetic against its closed form.
- **The server.** `ErrorTree` maps Go error trees to statuses, `Server` has handlers, routing and the metadata
  document, `Middleware` the option-built chain on mutable response writers, `Urls` the joining of URLs.
- **Both sides together.** `EndToEnd` follows a single or batch request from the client's validation and encoding
  through retry, middleware, mux and handler to the decider, and the text that the server writes back to the value
  that the caller gets; and it connects discovery with both ends, and the two PDPs with the wire. `Replies` says what the
  whole server replies at each path, in literal statuses and names, and that the metadata document agrees with it.

Go's `int` is taken to have 64 bits. Network answers, clock readings, cancellations and `GetBody` results are
parameters over which every result quantifies.

## Where the code and its comments differ

The model follows the code.

- Cancellation during a wait returns the last outcome, not the context error (`client/doer.go:81-83` against
  `client/doer.go:120-126`): `Retry.DoOutcome`.
- The first wait is already the doubled base delay (`client/doer.go:117`, `client/doer.go:152`): `Retry.DelaysClosedForm`.
- Without `GetBody` the loop does not fall back to a single attempt; it resends whatever is left of the body
  (`client/doer.go:74-79` against `client/doer.go:104-128`): `Retry.BodyReplay`.
- A response that stays retryable to the end is returned already drained and closed: `Retry.DoOutcome`. What its reader
  then finds is up to `net/http`, and is a parameter.
- `max-age=0` means the default lifetime, not no caching (`client/metadata.go:141-142` against
  `client/metadata.go:103-106`): `MetadataClient.AcceptedLifetime`.
- A max-age beyond 9223372036 seconds wraps around: to the default on multiples of 2^55, to a negative lifetime when
  the top bit of the 64-bit product is set, and otherwise to a positive lifetime shorter than what was asked for
  (18446744074 seconds give 0.29 seconds): `CacheControl.LifetimeSign`, `MetadataClient.AcceptedLifetime`.
- Client options are not order-insensitive (`client/client.go:69-71`): two different positive lifetimes clash, and two
  different transports do. `MetadataClient.OptionsCommute` says that nothing else does.
- The metadata document can be wrong about a method in both ways (`server/metadata.go:77-100`), since it is built from
  the answer to a zero request: `Server.AdvertisementRight` says exactly when it is right.
- Several loggers all fire (`server/middleware.go:48-50` against `server/middleware.go:55-58`): `Middleware.Transparent`.
- The doubling overflows for large delays that the options accept; `Backoff.DelayExact` says exactly when.

## Model

| member | source | states |
|---|---|---|
| Evaluation.Validate | evaluation.go:126-140 | a single request is valid exactly when present with subject type, action name and resource type, and otherwise the first missing of the three is named |
| Evaluation.ValidateBatch | evaluation.go:152-192 | the error is nil exactly on a non-empty batch whose every merged item is a valid single request; otherwise it names the least incomplete index and the field that the merged item alone would be refused for |
| Evaluation.BatchVerdictUnique | evaluation.go:152-192 | that verdict determines the result of batch validation |
| Evaluation.FieldPathInjective | evaluation.go:165-188 | the index and the field can be read back from the error's path |
| Evaluation.FieldPathForm | evaluation.go:165-188 | the path is the index in brackets, as a numeral without leading zeros, then the field |
| Evaluation.EffectiveFields | evaluation.go:159-184 | an item's present field wins, even if zero; then the batch's default; then the zero value |
| TodoScenario.UserByID | interop/scenario.go:93-100 | the first user with the ID, or none when no user has it |
| TodoScenario.TodoByID | interop/scenario.go:126-133 | the first todo with the ID, or none when no todo has it |
| TodoScenario.UndecodablePayload | interop/policy.go:56-70 | a payload that does not decode, or decodes to an empty ownerID, decides like no payload, for every question |
| TodoScenario.BuildPropertiesCache | interop/scenario.go:151-158 | the cache has every listed ID, and maps it to the encoded owner of the last todo with that ID |
| TodoScenario.CacheTransparent | interop/scenario.go:143-158 | TodoProperties on every listed todo equals direct encoding exactly when equal IDs have equal owners |
| TodoScenario.PropertiesRedundant | interop/policy.go:56-70 | on a listed todo the owner test gives owner equals subject, with its properties and with none, even for an empty owner |
| TodoScenario.Cases | interop/cases.go:38-102 | the nested loops build the case table |
| TodoScenario.AppendProfiles | interop/cases.go:52-60 | the first nested loop appends every user reading every profile, in order |
| TodoScenario.AppendList | interop/cases.go:62-78 | the list and create loops append one row per user, in order |
| TodoScenario.AppendChanges | interop/cases.go:80-99 | the last nested loop appends an update and a delete row per user and todo, in order |
| TodoScenario.CaseTableExact | interop/cases.go:38-102 | a row is in the table exactly when it is one of the five described kinds over the listed users and todos |
| TodoScenario.ProfileAt | interop/cases.go:52-60 | row i*U + j asks whether user i may read the profile of user j, without a payload |
| TodoScenario.ListAt | interop/cases.go:62-69 | then row i asks whether user i may read the todo list, on todo-1 |
| TodoScenario.CreateAt | interop/cases.go:71-78 | then row i asks whether user i may create a todo, on todo-1 |
| TodoScenario.ChangeAt | interop/cases.go:80-99 | then row i*2T + 2j + c asks whether user i may update (c=0) or delete (c=1) todo j, with that todo's properties |
| TodoScenario.CaseTableSize | interop/cases.go:52-99 | the table has U*U + 2U + 2UT rows |
| TodoScenario.CaseTableSound | interop/cases.go:40-50 | every row belongs to a listed user and expects what Decide answers on it |
| TodoScenario.CaseTableCovers | interop/cases.go:29-38 | with a non-empty todo list, every user occurs with each of the five actions |
| Cedar.IsInExact | examples/todo-pdp/policies.cedar:19-52 | the computed `in` holds exactly when a chain of parent steps leads from one entity to the other, in any store, cyclic or not |
| Cedar.IsInOneLevel | examples/todo-pdp/entities.json:1-47 | in a hierarchy one level deep, `in` means being the entity or one of its parents |
| Equivalence.StoreOfMirrors | examples/todo-pdp/entities.json:1-47 | the translation of any directory into entities mirrors it |
| Equivalence.RoleMembership | examples/todo-pdp/decider.go:159-172 | after the overlay the principal is in a role exactly when the directory says so and the overlay did not replace the principal |
| Equivalence.OwnTodoMeaning | examples/todo-pdp/policies.cedar:38-45 | on a Todo the permit's condition is true exactly when the reference owner test is |
| Equivalence.CedarMeaning | examples/todo-pdp/decider.go:86-98 | interpreter, permits, store and overlay together compute four role rules; a malformed payload is an error that maps to 500 |
| Equivalence.AgreementExact | interop/policy.go:28-70 | the Cedar PDP answers the reference decision if and only if the payload is well-formed and the request is in the agreement domain |
| Equivalence.MalformedFallsBack | interop/policy.go:56-70 | on a malformed payload the reference decision is the one without payload, and equals what the Cedar PDP would answer without payload exactly in the agreement domain |
| Equivalence.PermitCarriesOver | interop/policy.go:28-50 | a reference permit is a Cedar permit when every user holds a role, the payload is well-formed and the overlay spares the principal |
| Equivalence.PermitCarriesBack | examples/todo-pdp/policies.cedar:19-52 | a Cedar permit is a reference permit for an admin, and for the resource type the action takes |
| Equivalence.StandardRequest | interop/cases.go:52-99 | requests with the action's own resource type are in the agreement domain when every user holds a role |
| Equivalence.ConformanceExact | examples/todo-pdp/decider_test.go:24-46 | the Cedar PDP passes the whole case table if and only if every user holds one of the three roles |
| Fixtures.EntitiesMirror | examples/todo-pdp/entities.json:1-47 | the shipped entity file mirrors the shipped user and todo tables |
| Fixtures.LookupUser | interop/scenario.go:75-81 | lookups in the shipped user table |
| Fixtures.LookupTodo | interop/scenario.go:111-116 | lookups in the shipped todo table |
| Fixtures.SelfOverlayDenies | examples/todo-pdp/decider.go:159-196 | an admin reading the own profile with an ownerID in the payload is permitted by the rule and denied by the PDP |
| Fixtures.ReadOfOtherType | examples/todo-pdp/policies.cedar:48-52 | a viewer reading a user of type todo is denied by the rule and permitted by the PDP |
| Fixtures.CedarSpelling | examples/todo-pdp/decider.go:43-48 | an editor changing an own todo of type Todo is denied by the rule and permitted by the PDP |
| Fixtures.MalformedPayload | examples/todo-pdp/decider.go:178-187 | with a malformed payload the rule falls back to the todo list, permitting its owner and denying another editor, and the PDP errs |
| Batch.MergesDiffer | examples/todo-pdp/decider.go:121-152 | merging by zero value and merging by nil differ exactly on a present zero field over a non-zero default |
| Batch.PickedFields | examples/todo-pdp/decider.go:121-152 | a present non-zero field is picked; for an absent or a zero one the default is, and without one the zero value |
| Batch.MergeAgreement | interop/decider.go:73-85 | on a batch that passes validation the two merges coincide and every merged item is a valid single request |
| Batch.ReferenceBatch | interop/decider.go:66-108 | as many responses as items, in order, each the single evaluation of the merged item |
| Batch.ReferenceEvaluations | interop/decider.go:66-108 | the batch loop returns exactly those responses whatever the semantic option says; a nil request is a validation error |
| Batch.CedarEvaluations | examples/todo-pdp/decider.go:103-119 | the batch loop returns every item's own answer, or the error of the first item that has one |
| Batch.BatchesAgree | examples/todo-pdp/decider.go:103-119 | on a validated batch the two deciders return the same responses if and only if every merged item is well-formed and in the agreement domain |
| Batch.BatchFails | examples/todo-pdp/decider.go:103-119 | on a validated batch the Cedar decider errs exactly when some effective payload is malformed, with an error that maps to 500 |
| Text.TrimRight | client/metadata.go:97-98 | the prefix that drops exactly the trailing run of one character |
| Text.TrimRightUnique | client/metadata.go:97-98 | TrimRight is the only text that meets its contract |
| Text.JoinSplit | client/metadata.go:179 | splitting a header loses nothing |
| Text.SplitJoin | client/metadata.go:179 | splitting a joined list of separator-free parts gives the list back |
| Text.TrimSpacePadded | client/metadata.go:180 | trimming recovers a directive from any white-space padding |
| Text.AtoiDecimal | client/metadata.go:185 | a decimal numeral is read back exactly when it fits an int64 |
| Text.AtoiExact | client/metadata.go:185 | one optional sign, then at least one digit and nothing else, with a value in the int64 range |
| Text.DigitsInTens | client/metadata.go:185 | a numeral is read digit by digit in base ten |
| Text.DecimalCanonical | evaluation.go:165 | %d writes no leading zeros |
| Text.WhiteSpace | client/metadata.go:180 | the white space that is trimmed, by code point |
| Int64.WrapExact | client/metadata.go:189 | int64 arithmetic keeps the 64 low bits of a result, in the int64 range |
| CacheControl.ParseMaxAge | client/metadata.go:175-192 | the loop yields the lifetime of the first max-age directive of the split header, 0 without one |
| CacheControl.FirstFrom | client/metadata.go:179-183 | the index found holds a max-age directive and none stands before it |
| CacheControl.HeaderLifetime | client/metadata.go:175-192 | in any directive list with any padding the first directive whose text starts with max-age= alone decides |
| CacheControl.HeaderWithoutMaxAge | client/metadata.go:191 | without such a directive the lifetime is 0 |
| CacheControl.HeaderSeconds | client/metadata.go:175-192 | N seconds, in any position and padding, give exactly N*10^9 nanoseconds if and only if N is at most 9223372036 |
| CacheControl.PlainHeader | client/metadata.go:175-192 | "max-age=N", alone or after another directive, comma and space, gives N*10^9 nanoseconds for 1 to 9223372036 |
| CacheControl.LifetimeExact | client/metadata.go:185-189 | the same for one directive's argument |
| CacheControl.LifetimeSign | client/metadata.go:185-189 | for a positive number of seconds the lifetime is 0 exactly on multiples of 2^55, negative exactly when the 64-bit product has its top bit set, positive otherwise; it is never longer than asked for, and exactly that long up to 9223372036 seconds only |
| CacheControl.LifetimeNegative | client/metadata.go:189 | 9223372037 to 18446744073 seconds all give a negative lifetime |
| CacheControl.LifetimeWrapsAround | client/metadata.go:189 | 18446744074 seconds give a positive lifetime of 0.29 seconds |
| CacheControl.LifetimeVanishes | client/metadata.go:185-189 | the lifetime is 0 exactly when the argument is malformed, not positive, or a multiple of 2^55 |
| Urls.TrimUrl | client/evaluate.go:107-112 | trimming the text of a valid URL is trimming its path |
| Urls.CallUrl | client/evaluate.go:107-112 | the called URL is scheme, host and base path without the slashes at its end, then the endpoint's path |
| Urls.EndpointAgreement | server/metadata.go:69-100 | client and server build the same endpoint URL exactly when base and PDP URL are equal modulo trailing slashes |
| MetadataClient.Judge | client/metadata.go:74-108 | an accepted answer is a 2xx response whose decoded body is the document, and without relaxed validation it speaks for the base URL |
| MetadataClient.RefusalExact | client/metadata.go:74-102 | an answer is accepted exactly when it is a decodable 2xx document that speaks for the base URL or validation is relaxed, and each kind of refusal has its one cause and carries its status, message or both PDP names |
| MetadataClient.AcceptedLifetime | client/metadata.go:103-106 | 1 to 9223372036 seconds are taken as they are; a missing, malformed or non-positive value, or a multiple of 2^55, gives the default; and the lifetime is positive exactly unless the 64-bit product of a positive value has its top bit set |
| MetadataClient.OptionsKeep | client/metadata.go:143-167 | for every option list the base URL stays, validation is relaxed only on request, and a positive default lifetime stays positive |
| MetadataClient.OptionsCommute | client/client.go:69-71 | every permutation of an option list gives the same client settings if and only if the list has no two different positive lifetimes and no two different transports |
| MetadataClient.MadeWith | client/client.go:81-98 | a client made with options skips the mix-up check if and only if an option says so; its lifetime is that of the last positive lifetime option or else one hour, its transport that of the last transport option or else the default |
| MetadataClient.NewClient | client/client.go:81-98 | a client is made exactly from a parsed URL with scheme and host; its cache is cold, it validates unless an option relaxes that, and lifetime and transport are the last ones set, or else one hour and the default |
| MetadataClient.Client.constructor | client/client.go:89-97 | an empty cache, and the settings that the options come to |
| MetadataClient.Client.Apply | client/client.go:106-114 | each option updates its own setting and no other; a nil transport resets to the default and a non-positive lifetime is ignored |
| MetadataClient.Client.FetchRaw | client/metadata.go:74-108 | the checks in order give the judgement of the answer |
| MetadataClient.Client.FetchMetadata | client/metadata.go:50-68 | result and new cache of one call: unexpired cache as it is, error without change, or the fetched document stored with its expiry |
| MetadataProtocol.MixUpSafety | client/metadata.go:50-102 | in every state of every concurrent run of a validating client the cached document and every returned document belong to the base URL |
| MetadataProtocol.MadeClientSafety | client/metadata.go:50-102 | a client made without the relaxing option, whatever its other options, never caches or returns a document that does not name its base URL up to trailing slashes |
| MetadataProtocol.MutualExclusion | client/metadata.go:52-66 | no two goroutines are inside the mutex together |
| MetadataProtocol.NoDeadlock | client/metadata.go:52-66 | a goroutine blocked on the mutex waits for another one that can take its next step |
| MetadataProtocol.OnlyWritesChange | client/metadata.go:64-66 | the cache changes only by the store of the mutex holder, to that store's document and expiry |
| MetadataProtocol.FailingCallWritesNothing | client/metadata.go:59-62 | in any run, a call that returns an error has not written the cache |
| MetadataProtocol.DocumentsWereAccepted | client/metadata.go:50-68 | in every state of every concurrent run the cached document and every returned document came from the network earlier in that run and passed the checks |
| MetadataProtocol.HitIsFresh | client/metadata.go:52-57 | a document returned without a fetch is one that some goroutine had accepted from the network with lifetime t and then stored, counting from a time s, and its expiry check fell in [s, s+t), whatever was stored between |
| MetadataProtocol.ReturnsItsOwn | client/metadata.go:59-67 | in any run, an error returned is that of the goroutine's own refused answer, and a document that is not a hit was fetched, accepted and stored by the same goroutine |
| MetadataProtocol.FetchesSpanLifetimes | client/metadata.go:52-67 | in a run whose calls do not overlap, k successful fetches span at least the lifetimes of the first k-1 |
| MetadataProtocol.SoloCall | client/metadata.go:50-68 | left alone, the protocol's steps end with the result and the cache of the FetchMetadata method |
| Backoff.DelayExact | client/doer.go:151-164 | the doubling loop gives min(base*2^k, maxDelay) for every k >= 1 if and only if 2*base fits an int64 and maxDelay is below the last doubling of base that fits |
| Backoff.HalfRangeSafe | client/doer.go:151-164 | delays of at most half the int64 range always meet that condition |
| Backoff.DoublingOverflows | client/doer.go:157-162 | when the cap is not below the last doubling that fits, some delay is negative |
| Backoff.CappedMonotone | client/doer.go:54-56 | the closed-form delays never shrink and stay under the cap |
| Backoff.TotalBounds | client/doer.go:151-164 | m delays total at most m*maxDelay and at most base*(2^(m+1) - 2) |
| Retry.OptionsKeepUsable | client/doer.go:45-66 | no option list makes a configuration without attempts or with a non-positive delay |
| Retry.MadeWith | client/doer.go:35-66 | the last attempts option counts, at least one attempt, and the last positive delays; or else 3 attempts, 100 ms and 5 s |
| Retry.RetryDoer.constructor | client/doer.go:84-93 | the configuration is usable, and is what the options come to |
| Retry.RetryDoer.BackoffFor | client/doer.go:151-164 | the loop with early return computes the capped doubling, with negative indices read as 0 |
| Retry.RetryDoer.Do | client/doer.go:100-149 | result, trace of sends, waits, drains and closes, and remaining body are those of the loop function |
| Retry.StopExists | client/doer.go:103-144 | every run has a stopping attempt within maxAttempts |
| Retry.LoopAppends | client/doer.go:100-149 | what a Do does is independent of what was done before it |
| Retry.DoOutcome | client/doer.go:100-149 | with stopping attempt n: the final response, the GetBody error, or else attempt n's outcome is returned; attempts 1 to n are sent in order; each retryable response is drained then closed once before anything else, a final one is left open; the waits are the backoff's in order |
| Retry.ReturnsLastOutcome | client/doer.go:100-149 | the last attempt's own error, or a response of its own status, retryable or not, with a nil error; or the GetBody error that prevented another attempt |
| Retry.TriesAgain | client/doer.go:103-144 | another attempt is made if and only if the outcome is a transport error or 502, 503 or 504, an attempt is left, GetBody succeeds and the wait is not cancelled |
| Retry.AttemptsBounded | client/doer.go:103-148 | at most maxAttempts inner calls, and (nil, nil) exactly when maxAttempts is below 1 |
| Retry.FirstAnswerWins | client/doer.go:118-144 | when no answered status is retryable, all attempts before the last failed in transport, and the last one's response is returned unread and open, or else an error |
| Retry.FinalAtOnce | client/doer.go:128-131 | a non-retryable first answer ends Do after one call, and is returned unread and unclosed |
| Retry.BodyReplay | client/doer.go:104-115 | all of the first n attempts send the full body if and only if GetBody is set, there is no body, or nothing was read before |
| Retry.BodyWithoutHook | client/doer.go:104-115 | without GetBody an attempt sends exactly what the earlier ones left unread |
| Retry.DelaysClosedForm | client/doer.go:117 | the m-th wait is min(base*2^m, maxDelay), and the waits add up accordingly |
| Retry.WaitsBounded | client/doer.go:117 | a Do that stops after n attempts has begun m waits, m being n-1, or n when the last was cancelled; they never shrink, and total at most m*maxDelay and at most base*(2^(m+1) - 2) |
| ErrorTree.IsNotImplementedExact | server/metadata.go:113-115 | errors.Is finds the sentinel exactly when a path in the error tree leads to it |
| ErrorTree.AsValidationExact | server/handler.go:181-184 | errors.As finds a validation error exactly when a path leads to one |
| ErrorTree.ContainsInside | server/handler.go:181-184 | what is inside each kind of error: itself and what is inside the errors it wraps, joins or has as its cause |
| Server.BuildMetadata | server/metadata.go:69-106 | the document speaks for pdpURL verbatim, has the joined URL of every endpoint that passed its probe and of Evaluate, no other, and the capabilities in order |
| Server.DocumentFields | server/metadata.go:69-100 | each field is the trimmed PDP URL with its own literal path, present if and only if its own method has no sentinel in its answer to its own zero request; Evaluation always |
| Server.ApplyCapabilities | server/metadata.go:26-30 | capability options append in order and change nothing else |
| Server.AdvertisementRight | server/metadata.go:77-115 | for any method: it is listed exactly when no request is answered 501, unlisted exactly when every one is, if and only if the requests whose error tree has the sentinel and no validation error are all or none, as the zero request's tree has the sentinel or not |
| Server.AdvertisementExact | server/metadata.go:113-115 | for a method whose having the sentinel does not depend on the request: omitted exactly when the tree has it; listed never yields 501; omitted yields 400 for exactly the requests with a validation error in the tree, and 501 for the others |
| Server.StatusTable | server/handler.go:152-191 | 400 for a body that does not decode, 200 for an answer, and for an error 400, 501 or 500 by what is in its tree |
| Server.ProbeCanMislead | server/metadata.go:77-100 | an input for each way in which the document can be wrong |
| Server.StubIsOmitted | server/decider.go:88-118 | the embedded stub answers 501 on all five endpoints; the document omits the four optional ones, and lists Evaluation all the same |
| Server.Route | server/handler.go:44-48 | a POST to an endpoint's own path reaches its handler, and nothing else does; another method there is 405, an unclean path a redirect, any other path 404 |
| Server.CleanExact | server/handler.go:43 | a path is clean exactly when it begins with a slash and has no double slash and no dot segment |
| Middleware.ResponseWriter.Do | server/handler.go:168-191 | the first WriteHeader or Write commits the status and a copy of the headers |
| Middleware.DoOn | server/middleware.go:122-130 | an operation through any stack of recorders reaches the base writer, and every recorder hears WriteHeader |
| Middleware.Handler.constructor | server/handler.go:41-55 | the chain is the mux wrapped by the options in order |
| Middleware.Handler.ServeHTTP | server/handler.go:74-76 | output and hook calls of serving a request through the chain |
| Middleware.DoAllOn | server/middleware.go:122-130 | the same for a whole sequence of operations |
| Middleware.Serve | server/middleware.go:51-98 | one link of the chain with everything inside it: output, recorded statuses and hook calls |
| Middleware.ServeObserved | server/middleware.go:109-116 | the inner chain's output is unchanged, and the hook is then called with the recorded status |
| Middleware.ServeEchoing | server/middleware.go:88-98 | the request ID is set before anything inside runs |
| Middleware.HooksFire | server/middleware.go:51-78 | every non-nil hook fires exactly once, in option order |
| Middleware.EchoInstalled | server/middleware.go:88-98 | the chain echoes exactly when some option asks for it |
| Middleware.DisciplinedOutput | server/middleware.go:118-130 | a handler that sets headers, one status and then writes commits that status, and recorders end with it |
| Middleware.Transparent | server/middleware.go:51-130 | for every option list: status and body are the bare mux's, hooks fire once in option order with that status, and X-Request-ID is set exactly when an echo option is present and the request carries one |
| Middleware.CommitExact | server/middleware.go:118-130 | for any sequence of operations the status on the wire is the first WriteHeader's, or 200 when a Write comes first or there is none |
| Middleware.RecorderExact | server/middleware.go:109-130 | for every option list and every handler, the hooks report the status on the wire if and only if the last status set is the one committed, or there is no hook |
| EndToEnd.DiscoveryAgrees | client/metadata.go:96-102 | a validating client accepts a server's document exactly when base and PDP URL are equal modulo trailing slashes, and exactly then each advertised endpoint is the URL the client calls |
| EndToEnd.CallIsRouted | client/evaluate.go:107-112 | the path that the client calls is routed to the endpoint it means if and only if the base URL has no path but slashes; otherwise the mux redirects an unclean path and does not know a clean one |
| EndToEnd.Classify | client/evaluate.go:85-101 | a call succeeds exactly on a transported 2xx response whose body can be read and decodes |
| EndToEnd.ClassifyExact | client/evaluate.go:85-101 | each failure has its one cause and carries its message or status; a success is the decoded value, or the zero value for null |
| EndToEnd.PostJson | client/evaluate.go:73-101 | encoding, sending, releasing and classifying give the result and the transport trace of one exchange |
| EndToEnd.Evaluate | client/evaluate.go:29-38 | an invalid request is refused with its validation error, and one without encoding too, without any inner call; another yields the exchange of its encoding |
| EndToEnd.Evaluations | client/evaluate.go:53-62 | the same for a batch and the one verdict of batch validation |
| EndToEnd.ServerNeverRetried | client/doer.go:166-173 | nothing that the server sends, to whatever path, method and body, has a retryable status |
| EndToEnd.PostSettles | client/evaluate.go:73-101 | a call to the server stops at the first attempt that is answered, wholly or broken off, with every attempt sent once and in order and no response left open, and classifies what came back |
| EndToEnd.DecisionArrives | server/handler.go:78-90 | whatever the retry and middleware options, transport failures, broken responses and cancellations, the caller of Evaluate gets a transport or read error, or the value the decider answered to the request decoded from the wire, deny like permit, errors as their mapped status; 404 or the redirect when the base URL has a path |
| EndToEnd.BatchArrives | server/handler.go:92-104 | the same for a validated batch and Evaluations |
| EndToEnd.DecisionsMade | server/handler.go:78-90 | the decider is asked this very request, and nothing else, once per attempt that the server serves; for an answered call that is exactly once if and only if no earlier attempt failed after being served |
| EndToEnd.BatchDecisionsMade | server/handler.go:92-104 | the same for a validated batch |
| EndToEnd.OneCallOneDecision | client/evaluate.go:29-38 | when the first attempt is answered: one request sent, its response read and closed, exactly one call of the decider, and its answer decoded from the text the server wrote, or a read error if that breaks off |
| EndToEnd.WriteJson | server/handler.go:168-172 | content type, status and body are written in that order |
| EndToEnd.WriteError | server/handler.go:179-191 | the status switch gives the mapped status of the error, written with a plain-text body |
| EndToEnd.HandleRequest | server/handler.go:78-160 | a handler asks its decider once about a body that decodes and not at all otherwise, and writes the JSON of the response with 200, or the text of the error with its mapped status |
| EndToEnd.ServeMux | server/handler.go:43-48 | one request through the mux: what is written, and the call of the one decider method that its path stands for |
| EndToEnd.MiddlewareKeepsReply | server/handler.go:41-55 | for every option list the caller receives the status, content type and text that the handler writes, X-Request-ID exactly when an option echoes one that the request has, and every hook hears that status |
| EndToEnd.ReferenceAdvertises | interop/decider.go:13-33 | the reference PDP's document lists the two evaluation endpoints and no search endpoint, and for every request an endpoint is listed exactly when the answer is not 501 |
| EndToEnd.CallerGetsReferenceDecision | examples/todo-pdp/decider.go:86-98 | through client, retry, middleware and handler, a caller of the Cedar PDP reads the reference decision if and only if the payload is well-formed and the request is in the agreement domain; a malformed payload reaches the caller as status 500 |
| EndToEnd.CallerGetsReferenceBatch | examples/todo-pdp/decider.go:103-119 | a caller of the Cedar PDP's batch endpoint reads the reference decisions in order if and only if every merged item is well-formed and in the agreement domain, and status 500 exactly when some merged payload is malformed |
| EndToEnd.SameOnTheWire | examples/todo-pdp/decider.go:86-98 | the two PDPs give the same reply exactly on the agreement domain, and the Cedar PDP's status is 500 on a malformed payload and 200 otherwise |
| Replies.PathsReply | server/handler.go:41-191 | a POST to each of the five literal paths, through any middleware, gets the reply of that endpoint's own method: 200 and JSON, or 400, 501 or 500 and plain text |
| Replies.PathsAsk | server/handler.go:78-146 | a body that decodes makes one call of the endpoint's own decider method, and another none |
| Replies.OthersRefused | server/handler.go:43-48 | another method on a known path gets 405 and an unknown clean path 404, without a decider call |
| Replies.UndecodableIs400 | server/handler.go:152-160 | at every endpoint, for every option list, a body that does not decode gets 400 and the decider is not asked |
| Replies.ServedNotImplemented | server/handler.go:179-191 | a POST that decodes gets 501 exactly when the error tree has the sentinel and no validation error |
| Replies.ListedExactly | server/metadata.go:77-100 | for every decider, an optional endpoint is listed if and only if its own method has no sentinel in its answer to the zero request |
| Replies.DocumentIsRight | server/metadata.go:69-115 | for every decider and every uniform optional endpoint: listed, and nothing served there has status 501; or not listed, and every POST that decodes gets 501, or 400 for a validation error |

## Left out

- Network I/O, `net/http` internals, real timers and panics: outcomes, cancellations and times are parameters.
- JSON coding: an arbitrary codec per endpoint, for which the end-to-end results assume that the other side reads back the request and the answer at hand; properties have three forms (absent, malformed, a decoded ownerID).
- URL parsing, percent-escaping, queries and fragments: a URL is scheme, host and path.
- ServeMux patterns: a fixed route table with path cleaning, and none of the headers that the mux adds to its own errors. Statuses 1xx, which do not commit a response, do not occur.
- The metadata document's own URL and the endpoint that serves it.
- Following redirects: the inner doer hands back what the server sends.
- Mounting the server behind a prefix-stripping handler: a client whose base URL has a path is shown not to reach an endpoint.
- Error types with their own `Is` or `As` methods, which `errors.Is` and `errors.As` also consult: error trees only unwrap.
- The Cedar policy text, forbid policies, and expressions that the four permits do not use.
- The search requests' own validation and the client's search calls: straight-line checks; search payloads are opaque.
- Short-circuit batch semantics: declared by the library, implemented by no decider in it.
- `signed_metadata`, bearer tokens, error texts, hook durations, case names, the example's main program, scripts.
- A nil request to the Cedar decider, which the Go code dereferences.
- Single-flight fetching and newest-fetch-wins: the code gives neither.
- Retry.RetryDoer.Do: the inner doer's outcomes are numbered by the attempts of one Do, so state shared by several calls is not modelled.
- MetadataProtocol.HitIsFresh: expiry times are unbounded integers, so overflow inside Go's time package is not modelled.
- MetadataProtocol.SoloCall: the FetchMetadata method is one uninterrupted call; interleavings are in the state machine only.
