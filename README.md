# COS trigger feed — a Dafny model

This project models the core of a Cloud Object Storage (COS) trigger feed for an
OpenWhisk-style platform. It has two halves.

- **The provider** (`provider/lib/ProviderManager.js`, `provider/lib/active.js`) keeps a
  registry of COS triggers and hands them to an event provider, which watches their buckets.
  - The registry is filled at start-up from the trigger document store, and afterwards from
    the store's change feed.
  - When a bucket changes, the provider fires the trigger by POSTing the event to the
    platform. Transient failures are retried with a quadratic back-off. A permanent client
    error disables the trigger in the store, and the change feed then unregisters it.
  - Two hosts serve each worker. Only the *active* host fires. The active host is agreed
    through a Redis hash and channel, and can be swapped through the `/active` endpoint or
    on `SIGTERM`.
  - The diagnostic endpoints are guarded by HTTP Basic authentication against the
    `ENDPOINT_AUTH` setting.
- **The feed action** (`action/cosWebAction.js`, `action/lib/common.js`,
  `action/lib/config.js`) is the web action the platform calls to create, read, update and
  delete a trigger.
  - It checks the caller's right to the trigger with the platform.
  - It validates the feed parameters (`bucket`, `endpoint`, `apikey`, `interval`) and maps
    them to their stored names.
  - It checks that the bucket can be listed.
  - It writes the trigger document, recording IAM credentials in `additionalData`.

How the source is turned into Dafny:

- Pure logic becomes functions on values:
  - JavaScript values (`Json.Value`), truthiness, `split`/`join` and `parseQName`;
  - the fire policy, the Basic-authentication decision and the `/active` decision;
  - parameter validation, and the feed action's promise chains.
- Each promise chain is a function from the answers of the outside services to the calls
  the action makes and the way its promise settles. The first settlement wins, as in
  JavaScript.
- State that the source updates in place becomes classes:
  - the provider's closure over `self` is `ProviderManager.TriggerManager`. Its registry,
    stored documents and event-provider calls are specified by transitions on the value
    `ProviderManager.Registry`;
  - the Redis server is `Redis.RedisClient`;
  - the forwarded parameter object is `Json.JsObject`.
- Loops become methods with loop invariants, proved equal to the functions that specify
  them:
  - the start-up reconciliation;
  - the two loops of `validateParams`.

Start-up against an empty Redis key: `initActiveHost` writes the default active host
`<prefix>0`, not the starting host itself, and the model follows the code (`ProviderManager.InitActiveHost`,
`ProviderManager.TwoHostsAgreeOnActive`).

## Model

| member | source | states |
|---|---|---|
| Strings.Split | provider/lib/ProviderManager.js:329 | `split` on one character always yields at least one piece; it yields more than one exactly when the separator occurs; no piece contains the separator |
| Strings.JoinSplit | provider/lib/ProviderManager.js:329-331 | joining the pieces of a split with the same separator gives back the original string |
| Strings.SplitJoin | provider/lib/ProviderManager.js:329-331 | splitting a join of separator-free pieces gives back exactly those pieces |
| Strings.SplitAtFirst | provider/lib/ProviderManager.js:329 | the first piece of a split is the text before the first separator, and the rest are the pieces of what follows it |
| Strings.StripTrailingDigits | provider/lib/ProviderManager.js:24 | `replace(/\d+$/, '')` yields a prefix of the host name; everything it removes is a digit, and the prefix does not itself end in a digit |
| Strings.StripDigitSuffix | provider/lib/ProviderManager.js:24 | the prefix of `p` followed by digits is `p` whenever `p` does not end in a digit (`host1` has prefix `host`) |
| Strings.ToLower | provider/lib/active.js:19 | lower-casing keeps the length and maps each character on its own |
| QName.ParseQName | provider/lib/ProviderManager.js:324-337 | a name that does not start with `/` is in the default namespace `_`, unchanged; otherwise the parsed namespace contains no `/`, and `/ns` with no further `/` is namespace `ns` with an empty name |
| QName.SplitQualified | action/lib/common.js:89 | the pieces of `/ns/name` for a slash-free namespace are an empty piece, the namespace, then the pieces of the name |
| QName.ParseQNameRoundTrip | action/lib/common.js:84-97 | every id `/ns/name…` that holds a second `/` is rebuilt exactly as `/namespace/name` from its parsed parts |
| QName.TriggerIdParses | action/cosWebAction.js:25 | the trigger id built from a namespace without `/` parses back to that namespace and the whole name, even when the name contains `/` |
| FirePolicy.ShouldDisableTrigger | provider/lib/ProviderManager.js:65-68 | a status disables exactly when it is a 4xx other than 408, 409 and 429 |
| FirePolicy.Backoff | provider/lib/ProviderManager.js:174 | the back-off before retry `k` (counting from 0) is at least `k + 1` seconds |
| FirePolicy.RetryDelay | provider/lib/ProviderManager.js:174 | the wait before retry `k` is at least `k + 1` seconds, and is the quadratic back-off except on the first retry after a 429 |
| FirePolicy.RetryDelayIsMinuteOnlyAfterFirst429 | provider/lib/ProviderManager.js:174 | the wait before a retry is one minute exactly on the first retry after a 429; the quadratic back-off never gives a minute |
| FirePolicy.BackoffIncreasing | provider/lib/ProviderManager.js:174 | the back-off strictly grows with the retry count |
| FirePolicy.PostStep | provider/lib/ProviderManager.js:158-192 | one reply is a success iff it is not an error and its status is below 400; it disables iff the failure carries a disabling status; it is retried iff it is another failure and the budget of 10 is not spent, with the delay the policy gives |
| FirePolicy.FailureMessage | provider/lib/ProviderManager.js:163-168 | the disable message is the platform's `errorMessage` when the error carries one, `undefined` when its `error` has none, and otherwise the generic text naming the status code |
| FirePolicy.PostTrigger | provider/lib/ProviderManager.js:147-199 | corrected: a fire makes between one attempt and as many as there are replies, with one delay fewer than attempts |
| FirePolicy.PostTriggerPrefix | provider/lib/ProviderManager.js:173-184 | every attempt before the last failed in a retryable way while budget remained, and is followed by the delay the policy gives |
| FirePolicy.PostTriggerLast | provider/lib/ProviderManager.js:158-192 | the last attempt is the one reply not retried, and the fire settles and disables as that reply alone decides |
| FirePolicy.PostTriggerRequests | provider/lib/ProviderManager.js:147-199 | every attempt POSTs the same event to the same URI; there is one delay fewer than attempts, and at most `RETRY_ATTEMPTS - retryCount + 1` attempts |
| FirePolicy.PostTriggerOutcome | provider/lib/ProviderManager.js:147-199 | every attempt before the last failed in a retryable way within the budget, followed by its delay. The last reply decides: success resolves with the trigger id; a disabling status disables once and rejects; a retryable failure with the budget spent rejects as unreachable, without disabling |
| FirePolicy.DisableOnlyForEligibleStatus | provider/lib/ProviderManager.js:162-170 | a fire disables its trigger only with a disabling status; never for 408/409/429, a server error or a network error |
| FirePolicy.AsWrittenRetryIsMisaddressed | provider/lib/ProviderManager.js:177 | as written, the first retry is sent to the number 1 with the URI as its body, and a second retryable failure gives up at once |
| FirePolicy.AsWrittenDiffersFromIntended | provider/lib/ProviderManager.js:173-187 | replies 500, 500, 200: as written the fire is rejected after two requests; as intended it succeeds on the third |
| FirePolicy.PostTriggerAsWritten | provider/lib/ProviderManager.js:147-199 | as written, a fire makes at most two attempts, with one delay fewer than attempts, and when it resolves, it resolves with the trigger id and disables nothing |
| BasicAuth.MatchCredentials | provider/lib/ProviderManager.js:298 | `^([^:]*):(.*)$` matches iff there is a colon and the rest is one line; the user part has no colon, and user + `:` + password is the whole text |
| BasicAuth.MatchCredentialsComplete | provider/lib/ProviderManager.js:298-304 | every colon-free user with a single-line password is matched back exactly |
| BasicAuth.ParseBasicHeader | provider/lib/ProviderManager.js:286-301 | a missing header is challenged; a scheme other than `basic` (any case) or an empty token is refused 400 `Malformed request, basic authentication expected`; a token that does not decode to a single-line `user:password` is refused 400 `Malformed request, authentication invalid`; otherwise the decoded user and password are returned |
| BasicAuth.AuthorizeAsWritten | provider/lib/ProviderManager.js:282-317 | without `ENDPOINT_AUTH` every request proceeds. With it: no header is challenged; a malformed header or token is refused 400 with the matching message; parsed credentials proceed iff the token decodes to the first two colon-separated pieces of the setting, and are otherwise refused 401 `Invalid key` |
| BasicAuth.BasicHeaderSplits | provider/lib/ProviderManager.js:292 | a header `scheme token` splits into exactly the scheme and the token |
| BasicAuth.BasicHeaderParses | provider/lib/ProviderManager.js:292-304 | a well-formed Basic header carrying `user:password` yields exactly that user and password |
| BasicAuth.AuthorizeAsWrittenAccepts | provider/lib/ProviderManager.js:303-308 | a client sending the configured `user:password`, with no colon in the password, proceeds whatever the case of `Basic` |
| BasicAuth.AuthorizeAsWrittenRefusesColonPassword | provider/lib/ProviderManager.js:305-306 | with `ENDPOINT_AUTH = u:a:b`, the exact credentials `u:a:b` are refused with 401 `Invalid key` |
| BasicAuth.Authorize | provider/lib/ProviderManager.js:282-317 | corrected: the same challenges and 400 refusals as as written; parsed credentials proceed iff the token decodes to exactly the configured setting, and are otherwise refused 401 `Invalid key` |
| BasicAuth.AuthorizeAccepts | provider/lib/ProviderManager.js:303-308 | corrected: every colon-free user with a single-line password, colons included, is accepted when sent exactly |
| Redis.RedisClient.HGet | provider/lib/ProviderManager.js:360 | a field read returns a value iff the hash holds that field, and the value is the one held |
| Redis.RedisClient.HSet | provider/lib/ProviderManager.js:395 | a write succeeds unless the server fails; on success the field holds the value and nothing else changes; on failure nothing changes |
| Redis.RedisClient.Publish | provider/lib/ProviderManager.js:370 | a publish appends one message to the channel's log when the server answers, and is lost otherwise |
| Redis.Stored | provider/lib/ProviderManager.js:395 | after `hset key field value` the field holds the value, the key's other fields and every other key keep theirs, and no other key appears |
| ProviderManager.InitTrigger | provider/lib/ProviderManager.js:50-63 | the in-memory record is keyed by the document's `_id` |
| ProviderManager.Created | provider/lib/ProviderManager.js:33-48 | creating registers the trigger under its id and keeps every other entry; it adds one `add` call and leaves the store alone; triggers stay keyed by their ids |
| ProviderManager.Deleted | provider/lib/ProviderManager.js:107-121 | deleting an unregistered id changes nothing; a registered one leaves the registry with exactly one `remove` call, other entries kept |
| ProviderManager.DisabledDoc | provider/lib/ProviderManager.js:79-86 | a disabled document differs from the original only in its status: inactive since `now`, for an automatic reason with the given code and message |
| ProviderManager.Disabled | provider/lib/ProviderManager.js:74-104 | disabling keeps the store's ids and never registers a trigger; with a successful lookup and write the stored document is no longer active; a failed lookup, whether the document is missing or the store errs, deletes the trigger from memory and leaves the store alone |
| ProviderManager.DisabledChangesOnlyActiveStatus | provider/lib/ProviderManager.js:74-104 | disabling rewrites at most the one document, and only if it was still active; a found document leaves the registry alone; a missing document or a failed lookup deletes the trigger from memory |
| ProviderManager.ChangeDecision | provider/lib/ProviderManager.js:258-268 | a change unregisters iff the trigger is registered and the document says `active === false`; it registers iff the trigger is unregistered and the status is missing or `active === true` |
| ProviderManager.Changed | provider/lib/ProviderManager.js:254-269 | a change event never writes the store and makes at most one provider call; its trigger is registered afterwards iff it stays registered (not `active === false`) or it is added (no status or `active === true`) |
| ProviderManager.ChangedIdempotent | provider/lib/ProviderManager.js:254-269 | replaying the same change event changes nothing more |
| ProviderManager.ChangedTouchesOnlyItsTrigger | provider/lib/ProviderManager.js:254-269 | a change event removes only its own id, and only when inactive; it adds only the document's id, and only when active; it keeps every other entry and the keying invariant |
| ProviderManager.ReconcileRow | provider/lib/ProviderManager.js:214-234 | one start-up row never unregisters anything and keeps the store's ids; it touches only its own id; an unregistered row is registered unless its existence check gave a disabling status, in which case it stays unregistered and its still-active document is written back disabled when the lookup and the write succeed |
| ProviderManager.Reconciled | provider/lib/ProviderManager.js:208-236 | start-up never unregisters a trigger and never adds or removes a stored document |
| ProviderManager.ReconciledRegistersRows | provider/lib/ProviderManager.js:208-236 | after start-up every row is registered unless its existence check returned a disabling status; nothing registered before is lost; triggers stay keyed |
| ProviderManager.ReconciledLeavesOthers | provider/lib/ProviderManager.js:214-234 | rows for other ids neither register nor unregister an id, nor change its stored document |
| ProviderManager.ReconciledDisablesEligibleRows | provider/lib/ProviderManager.js:221-230 | an unregistered id that occurs in one row and gets a disabling status is still unregistered after start-up, and its still-active document is disabled when the lookup and the write succeed (otherwise it is unchanged) |
| ProviderManager.DisableThenChangeUnregisters | provider/lib/ProviderManager.js:259-260 | a registered active trigger that a fire disables leaves the registry once the store's change comes back |
| ProviderManager.RedundantHost | provider/lib/ProviderManager.js:367 | the other host of the pair is never this host, and is `<prefix>0` or `<prefix>1` |
| ProviderManager.HostPrefix | provider/lib/ProviderManager.js:24 | the host prefix is a prefix of the host followed only by digits, and stripping digits from it again changes nothing |
| ProviderManager.FireUri | provider/lib/ProviderManager.js:134-135 | the fire URI is `https://<router>/api/v1/namespaces/` followed by the namespace, and ends with `/triggers/<name>` |
| ProviderManager.InitActiveHost | provider/lib/ProviderManager.js:389-401 | a stored active host is adopted without writing; with none, the default is kept and written |
| ProviderManager.TwoHostsAgreeOnActive | provider/lib/ProviderManager.js:389-401 | two hosts `<p>0` and `<p>1` that start one after the other against an empty key both believe `<p>0` is active, so exactly one of them fires |
| ProviderManager.OrDefault | provider/lib/ProviderManager.js:16-23 | an unset or empty setting takes its default, any other keeps its value |
| ProviderManager.TriggerManager.constructor | provider/lib/ProviderManager.js:16-29 | start-up state: empty registry, settings with their defaults, the prefix of the host, active host `<prefix>0`, Redis key `<prefix-or-db>_<worker>` |
| ProviderManager.TriggerManager.CreateTrigger | provider/lib/ProviderManager.js:33-48 | the new registry is `Created` of the old one, with the keying invariant kept |
| ProviderManager.TriggerManager.DeleteTrigger | provider/lib/ProviderManager.js:107-121 | the new registry is `Deleted` of the old one |
| ProviderManager.TriggerManager.DisableTrigger | provider/lib/ProviderManager.js:74-104 | the new registry is `Disabled` of the old one: the document is disabled after a successful lookup, and the trigger is dropped from memory after a failed one |
| ProviderManager.TriggerManager.OnRegistrationFailure | provider/lib/ProviderManager.js:43-47 | a trigger the event provider refuses is disabled with no status code and the exception's message |
| ProviderManager.TriggerManager.HandleChange | provider/lib/ProviderManager.js:254-269 | the new registry is `Changed` of the old one |
| ProviderManager.TriggerManager.ReconcileAll | provider/lib/ProviderManager.js:201-241 | processing the view's rows in order gives `Reconciled` of the old registry |
| ProviderManager.TriggerManager.ShouldFireTrigger | provider/lib/ProviderManager.js:70-72 | a host fires iff it is the active host, and then the other host of its pair is not the active one |
| ProviderManager.TriggerManager.FireTrigger | provider/lib/ProviderManager.js:123-145 | corrected (posts with `FirePolicy.PostTrigger`): a fire happens iff the trigger is registered and this host is active. It posts to `https://<router>/api/v1/namespaces/<ns>/triggers/<name>` with the corrected retry policy; the registry changes only by the disable that a disabling reply causes |
| ProviderManager.TriggerManager.FireTriggerAsWritten | provider/lib/ProviderManager.js:123-145 | a fire happens iff the trigger is registered and this host is active; it posts with `FirePolicy.PostTriggerAsWritten`, so it makes at most two attempts; the registry changes only by the disable that a disabling reply causes |
| ProviderManager.TriggerManager.InitRedis | provider/lib/ProviderManager.js:339-387 | with Redis, start-up succeeds iff the server answers. The belief is then the stored active host, or the default, which is written back with every other hash entry kept; after that the key always holds the belief. Without Redis it succeeds at once |
| ProviderManager.TriggerManager.OnMessage | provider/lib/ProviderManager.js:348-351 | a published message becomes the active host, and the registry is untouched |
| ProviderManager.TriggerManager.OnSigterm | provider/lib/ProviderManager.js:365-376 | the active host hands over on shutdown: it writes the other host to its field, keeping every other hash entry, and publishes it, provided the server answers; an inactive host does nothing |
| ProviderManager.TriggerManager.Authorize | provider/lib/ProviderManager.js:282-317 | the middleware with this provider's setting is `AuthorizeAsWritten`: every request proceeds when `ENDPOINT_AUTH` is unset, and a request without a header is challenged |
| ActiveEndpoint.RequestedHost | provider/lib/active.js:18-28 | `active=true` (any case) asks for this host, `false` for the other host, which differs from it; any other text is invalid |
| ActiveEndpoint.Outcome | provider/lib/active.js:9-59 | the response always names this worker and host. The local belief changes only without Redis, and is then announced; without Redis a valid query always leaves the requested host active. A hand-over is written only through a working Redis, and only to a host other than the active one. A failing Redis asked for a change reports its error. An error changes nothing |
| ActiveEndpoint.ReportOnly | provider/lib/active.js:18-25 | with no query or an invalid one, the endpoint only reports whether this host is active, and flags the invalid query |
| ActiveEndpoint.LocalSwapTakesEffect | provider/lib/active.js:43-50 | without Redis, `true` makes this host active and `false` makes the other host of the pair active, and the response reports the new state |
| ActiveEndpoint.StoreSwapHandsOver | provider/lib/active.js:30-37 | with a working Redis, a query asking for a change hands over through Redis and answers `swapping`; one asking for the present state does nothing |
| ActiveEndpoint.RepeatedQueryIsStable | provider/lib/active.js:29 | the same query sent again after its change took effect changes nothing |
| ActiveEndpoint.Active | provider/lib/active.js:9-59 | the handler answers as `Outcome` does; it moves the belief, or writes the hand-over to its field (every other hash entry kept) and publishes it; it never touches the registry |
| Config.GetOpenWhiskConfig | action/lib/config.js:4-16 | a trigger authenticates with an IAM token manager iff its additional data holds a truthy `iamApikey`, using that key; otherwise with its API key. Certificates are ignored, and the namespace is the trigger's |
| Config.IamData | action/lib/config.js:28-32 | the additional data holds the three IAM settings when the namespace IAM key is set, and nothing otherwise |
| Config.IamDataSelectsTokenManager | action/lib/config.js:4-32 | a trigger carrying the data the action recorded uses token authentication exactly when the action ran with an IAM key, and then with that key |
| Config.CosApikey | action/lib/config.js:21-26 | a COS API key is found iff the bound credentials and their `cloud-object-storage` entry are truthy, and it is that entry's `apikey` |
| Config.WithAdditionalData | action/lib/config.js:18-35 | the parameters gain `additionalData` (the serialised IAM data), and `apikey` from the bound COS credentials when none was given; every other parameter is kept |
| Config.WithAdditionalDataIdempotent | action/lib/config.js:18-35 | adding the additional data twice is the same as adding it once |
| Config.AddAdditionalData | action/lib/config.js:18-35 | the in-place update leaves the object holding `WithAdditionalData` of its old properties |
| Common.SendResponse | action/lib/common.js:108-114 | a JSON response whose omitted code and body default to 200 and `{status: 'success'}` |
| Common.SendError | action/lib/common.js:99-106 | an error response carries the code and `{error}`, and `message` exactly when the message is truthy |
| Common.ErrorIsNotSuccess | action/lib/common.js:99-114 | an error body can never be mistaken for the success body |
| Common.AuthDecision | action/lib/common.js:67-80 | authentication passes iff the trigger was found, or it is a delete and the platform says 404. A failure with a status keeps that status; one without becomes 400 with its message |
| Common.VerifyTriggerAuth | action/lib/common.js:58-82 | the trigger is looked up by its name with the client configuration the trigger selects; it passes iff found, or a delete answered 404; a failure carries the platform's status code, or 400 |
| Common.AuthRejectionCode | action/lib/common.js:68-79 | a rejection always carries a non-zero code, never 404 for a delete, and the fixed `Trigger authentication request failed.` |
| Common.ConstructObject | action/lib/common.js:116-132 | a falsy value gives `undefined`; an object or array is kept; a non-empty string is parsed; any other value gives `undefined` |
| Common.StoredIamDataReadsBack | action/lib/common.js:116-132 | the recorded `additionalData`, parsed back, is the IAM object itself, and selects token authentication exactly when the IAM key was set |
| Common.WebTriggerName | action/lib/common.js:45-46 | the forwarded name is `/<namespace>/<name>` for a string trigger name; it throws exactly for a truthy non-string |
| Common.WebParams | action/lib/common.js:44-56 | the forwarded parameters are exactly the raw ones without `lifecycleEvent` and `apihost`, plus the rewritten trigger name, the IAM data and, when no key was given, the bound COS key; every other parameter keeps its value |
| Common.WebCopy | action/lib/common.js:48-52 | the copy drops the two platform keys, replaces the trigger name, and keeps every other parameter, so the key and credentials it hands on are those of the raw parameters |
| Common.WebTriggerNameParses | action/lib/common.js:46 | the forwarded name parses back to the action's namespace and the given name, whether or not that name was qualified |
| Common.CreateWebParams | action/lib/common.js:44-56 | a fresh object holding `WebParams` of the raw parameters; the raw object is not changed |
| CosWebAction.DbName | action/cosWebAction.js:177-190 | every updatable parameter is stored under one of the four stored names |
| CosWebAction.DbNameInjective | action/cosWebAction.js:177-190 | distinct updatable parameters are stored under distinct names |
| CosWebAction.VerifiedParam | action/cosWebAction.js:177-190 | a name is accepted iff it is one of the four feed parameters, and is mapped to its stored name; any other is `<name> is not an updatable parameter` |
| CosWebAction.FeedParametersMapToDbParameters | action/cosWebAction.js:9-10 | the two parameter lists correspond position by position |
| CosWebAction.FormatError | action/cosWebAction.js:192-197 | the bucket error text names the code and the message, with `unknown` for either when missing |
| CosWebAction.CollectExpected | action/cosWebAction.js:134-141 | collecting the required parameters only adds entries to the valid set |
| CosWebAction.CollectExpectedMissing | action/cosWebAction.js:135-138 | a create without some feed parameter reports the first missing one |
| CosWebAction.CollectExpectedFrame | action/cosWebAction.js:135-140 | with every listed parameter present, collecting succeeds, adds only the stored names of listed parameters, and keeps every other entry |
| CosWebAction.CollectExpectedComplete | action/cosWebAction.js:135-140 | with every listed parameter present, each lands under its stored name; nothing else is added, and other entries are kept |
| CosWebAction.Updates | action/cosWebAction.js:144-152 | the updates are exactly the present updatable parameters, under their stored names |
| CosWebAction.UpdatesEmpty | action/cosWebAction.js:153-155 | there is no update exactly when no present parameter is updatable |
| CosWebAction.UpdatesStep | action/cosWebAction.js:144-152 | visiting one more parameter adds its update if it is updatable, and nothing otherwise |
| CosWebAction.CollectUpdates | action/cosWebAction.js:142-156 | an update fails with `no updatable parameters were specified` iff no parameter is updatable |
| CosWebAction.UpdateKeepsUnmentioned | action/cosWebAction.js:142-156 | an update overrides exactly the stored parameters it names, and every other stored value is kept |
| CosWebAction.Validated | action/cosWebAction.js:132-175 | validation succeeds only with an integer interval of at least 1 and a listable bucket, and it never loses a previous value |
| CosWebAction.CreateCollected | action/cosWebAction.js:134-141 | a create request with every feed parameter collects exactly the four stored parameters |
| CosWebAction.CreateValidationAccepts | action/cosWebAction.js:134-169 | a complete create with a valid interval and a reachable bucket yields exactly the four stored parameters |
| CosWebAction.UpdateValidationAccepts | action/cosWebAction.js:144-172 | an update naming an updatable parameter, with a valid resulting interval, yields the old values overridden by the named ones when the bucket is listed, and the bucket error otherwise |
| CosWebAction.IntervalCheckedBeforeBucket | action/cosWebAction.js:158-172 | an update with an invalid resulting interval is refused `invalid interval parameter` whatever the bucket check answers |
| CosWebAction.CreateIntervalCheckedBeforeBucket | action/cosWebAction.js:158-172 | a complete create with an invalid interval is refused `invalid interval parameter` whatever the bucket check answers |
| CosWebAction.CreateValidationReportsMissing | action/cosWebAction.js:135-138 | whatever the bucket, a create missing a parameter fails naming the first one missing |
| CosWebAction.CollectExpectedLoop | action/cosWebAction.js:134-141 | the `for…of` loop computes `CollectExpected` |
| CosWebAction.CollectUpdatesLoop | action/cosWebAction.js:142-156 | the `for…in` loop computes `CollectUpdates` whatever order it visits the parameters in |
| CosWebAction.ValidateParams | action/cosWebAction.js:132-175 | the procedure computes `Validated` |
| CosWebAction.LifecycleOf | action/cosWebAction.js:30-127 | `post`, `get`, `put`, `delete` select create, read, update, delete, and nothing else is dispatched |
| CosWebAction.Prepare | action/cosWebAction.js:14-27 | a missing trigger name is answered 400 at once, and an unsupported method 400. A dispatched request carries the string trigger name, its id `/namespace/name` and its lifecycle |
| CosWebAction.NewTrigger | action/cosWebAction.js:33-41 | a new document is active since `now`, has no fire limit, and carries the key and additional data it was given |
| CosWebAction.CreateFlowAsWritten | action/cosWebAction.js:30-60 | as written, every create asks for a worker first, and once one is picked creates a document under the trigger id, even after a refusal; every write is keyed by the trigger id |
| CosWebAction.CreateFlowsAgree | action/cosWebAction.js:30-60 | the create chain as written settles exactly as the corrected one, and makes the same calls unless the request was refused |
| CosWebAction.CreateFlow | action/cosWebAction.js:30-60 | corrected: a refused create makes no store call, and every write is keyed by the trigger id |
| CosWebAction.CreateAsWrittenStoresRefusedTrigger | action/cosWebAction.js:43-56 | as written, a create that fails authentication is refused, yet a document without bucket, endpoint, key or interval is created under its id |
| CosWebAction.CreateFlowWritesOnlyWhenAccepted | action/cosWebAction.js:30-60 | corrected: a refused create writes nothing; a successful one stores the new document merged with the validated parameters and the chosen worker |
| CosWebAction.ReadConfig | action/cosWebAction.js:67-74 | the reported configuration has exactly six keys: name and namespace are the third and second `:`-pieces of the id, and bucket, endpoint, key and interval are the stored `bucket`, `s3_endpoint`, `s3_apikey` and `interval` |
| CosWebAction.ReadStatus | action/cosWebAction.js:75-80 | the reported status has exactly `active`, `dateChanged` and `reason`, read from the stored status, all `undefined` when it is not an object |
| CosWebAction.ReadBody | action/cosWebAction.js:65-82 | a body can be reported iff the document's `_id` is a string and it has a status; it is then the configuration and status read from the document |
| CosWebAction.StoredTriggerHolds | action/cosWebAction.js:48-56 | the document an accepted create writes holds the request's bucket, endpoint, key and interval under their stored names, and an active status dated at creation |
| CosWebAction.CreateThenRead | action/cosWebAction.js:48-82 | a trigger stored by an accepted create reads back with the request's bucket, endpoint, key and interval, active since its creation |
| CosWebAction.ReadFlow | action/cosWebAction.js:61-87 | a read refused by authentication touches nothing; otherwise it reads the document once by id, and a success answers 200 with that document's configuration and status |
| CosWebAction.Pick | action/cosWebAction.js:101 | `_.pick` keeps exactly the listed keys the document has, with their values |
| CosWebAction.CheckUpdate | action/cosWebAction.js:94-105 | an update passes its checks only if it is authenticated, the document is read and not disabled, and the parameters validate against its stored ones |
| CosWebAction.UpdateWrites | action/cosWebAction.js:106-113 | after the checks, an update either fails with the store's error or succeeds, every write keyed by the trigger id; success means disable, re-read, then store the updated parameters |
| CosWebAction.UpdateChainAsWritten | action/cosWebAction.js:106-115 | as written, whatever the checks decided, the chain next disables the trigger under its id with the document it read; a refusal still settles the request, and a passed check continues as `UpdateWrites` |
| CosWebAction.UpdateFlowAsWritten | action/cosWebAction.js:88-115 | as written, an unauthenticated update is refused and yet its first store call disables the trigger; every write is keyed by the trigger id |
| CosWebAction.UpdateFlowsAgree | action/cosWebAction.js:88-115 | the update chain as written settles exactly as the corrected one, and makes the same calls unless the request was refused |
| CosWebAction.UpdateFlow | action/cosWebAction.js:88-115 | corrected: a refused update writes nothing, and every write is keyed by the trigger id |
| CosWebAction.UpdateOfDisabledTrigger | action/cosWebAction.js:96-111 | an update of a disabled trigger is refused naming it. As written the chain still disables it and updates it with `undefined` parameters; as intended only the read happens |
| CosWebAction.UpdateFlowAccepted | action/cosWebAction.js:94-113 | a successful update takes the trigger out of service, reads it again and stores its old stored parameters overridden by the named ones |
| CosWebAction.DeleteFlow | action/cosWebAction.js:116-126 | a delete refused by authentication touches nothing; a successful one reads, takes out of service and deletes the document by id |
| CosWebAction.Main | action/cosWebAction.js:12-130 | corrected (built from `CreateFlow` and `UpdateFlow`): no trigger name means 400 with no store call; every store call a request causes is keyed by the id parsed from its trigger name |
| CosWebAction.MainAsWritten | action/cosWebAction.js:12-130 | as written: no trigger name means 400 with no store call; every store call a request causes is keyed by the id parsed from its trigger name |
| CosWebAction.MainAsWrittenAgrees | action/cosWebAction.js:12-130 | the action as written answers every request as the corrected one does; the two differ only in the store calls after a refused create or update |
| CosWebAction.MainRejectsUnsupportedMethod | action/cosWebAction.js:127-129 | any other method is answered 400 `unsupported lifecycleEvent` without touching the store |
| CosWebAction.DeleteOfVanishedTrigger | action/cosWebAction.js:119-124 | deleting a trigger the platform no longer knows (404) still removes its document |

## Findings

| source | as written | input that shows it | evidently intended | confidence | as-written member | corrected member |
|---|---|---|---|---|---|---|
| provider/lib/ProviderManager.js:177 | the retry calls `postTrigger(triggerData, uri, retryCount + 1)`, dropping `event` | replies 500, 500, 200: the second request goes to URI `1` with the URI as its body, and the fire is rejected after the second failure | retry with the same event, URI and `retryCount + 1`, up to 10 retries | high (not executed) | FirePolicy.AsWrittenRetryIsMisaddressed | FirePolicy.PostTriggerOutcome |
| provider/lib/ProviderManager.js:305-306 | the setting is split at every colon, and only the first two pieces are compared | `ENDPOINT_AUTH = u:a:b` with the client sending `u:a:b` gives 401 `Invalid key` | compare with the setting split at its first colon, as the client's credentials are | medium (not executed) | BasicAuth.AuthorizeAsWrittenRefusesColonPassword | BasicAuth.AuthorizeAccepts |
| action/cosWebAction.js:43-56 | the mid-chain `.catch` rejects but returns normally, so the chain goes on to `getWorkerID` and `createTrigger` | a create whose authentication fails, with the store answering: it is refused with 400, yet a document with no bucket, endpoint, key or interval is created | a refused create stops and writes nothing | high (not executed) | CosWebAction.CreateAsWrittenStoresRefusedTrigger | CosWebAction.CreateFlowWritesOnlyWhenAccepted |
| action/cosWebAction.js:97-111 | `return reject(...)` for a disabled trigger and the `.catch` at 103 both let the chain continue to `disableTrigger` and `updateTrigger` | an update of a trigger whose status is `active: false`: refused with 400, yet the trigger is disabled with an `undefined` document and updated with `undefined` parameters | a refused update stops after the read | high (not executed) | CosWebAction.UpdateOfDisabledTrigger | CosWebAction.UpdateFlow |

How the corrected definitions are used:

- `ProviderManager.TriggerManager.FireTrigger` uses the corrected `FirePolicy.PostTrigger`;
  `ProviderManager.TriggerManager.FireTriggerAsWritten` uses `FirePolicy.PostTriggerAsWritten`.
- `CosWebAction.Main` uses `CreateFlow` and `UpdateFlow`. `CosWebAction.MainAsWritten`
  composes the chains as written, and `CosWebAction.MainAsWrittenAgrees` relates the two.
- `ProviderManager.TriggerManager.Authorize` keeps the code as written. The corrected
  `BasicAuth.Authorize` is proved beside it.

## Left out

- The network is not modelled:
  - the `request` and `openwhisk` clients, the auth handler (`authRequest`) and the IAM
    token manager;
  - `requestHelper` in action/lib/common.js, which only wraps `request`.

  The platform's replies to fires, existence checks and trigger lookups are inputs.
- The document store (action/lib/Database.js and the provider's `triggerDB`) is not part of
  this model.
  - Its answers are inputs, and the calls made on it are outputs.
  - Its rejections are taken to be `Error` objects, with a `message`.
  - The provider's store lookup and write in `disableTrigger` are reduced to the flags
    `lookupOk` and `insertOk`. A reconciliation uses one pair of flags for all its rows.
- The S3 `listObjects` bucket check is an input (`bucketCheck`).
- These are parameters rather than modelled:
  - `JSON.parse` / `JSON.stringify` (`parse`, `stringify`);
  - base64 decoding (`decode`);
  - `Date.now()` (`now`).
- `moment` formatting: `dateChangedISO` is not produced, and `dateChanged` is reported as
  stored.
- Concurrency: the interleaving of asynchronous callbacks, timers and promises is not
  modelled.
  - Each callback runs to completion in order.
  - The start-up rows are reconciled one after the other.
  - A retry's delay is recorded, not waited for.
- Logging and health statistics (provider/lib/health.js) are not modelled.
- The change feed's set-up and its `error` handler (ProviderManager.js:243-280) are not
  modelled beyond the `change` handler.
- The Redis subscriber's connection and `error` handler are not modelled. An unreachable
  server fails every command with the same error.
- The catch-all `Exception occurred while firing trigger` (ProviderManager.js:194-196) is not
  modelled: no modelled step of the callback throws.
- Numbers: `Json.Frac` stands for every number that is not an integer, so an interval such
  as `1.5` is refused with `invalid interval parameter`, as the source does. Only NaN is not
  modelled.
- Lower-casing is modelled for ASCII letters only.
- A repeated `active` query parameter (an array, on which `toLowerCase` throws) is not
  modelled: the query is a string or absent.
- ProviderManager.TriggerManager.Authorize: it models the middleware as written, so a colon
  in the configured password is never accepted. The corrected `BasicAuth.Authorize` is
  proved separately.
- ProviderManager.TriggerManager.FireTrigger: it requires at least 11 replies, one for each
  attempt the budget allows, because replies are supplied up front. It posts with the
  corrected `FirePolicy.PostTrigger`. As written (ProviderManager.js:177) a fire makes at most
  two attempts, so replies 500, 500, 200 give up where the corrected model succeeds; that
  behaviour is `ProviderManager.TriggerManager.FireTriggerAsWritten`.
- CosWebAction.Main: it composes the corrected create and update chains, so it does not make
  the store calls that the code as written makes after a refusal. Those calls are modelled by
  `CosWebAction.MainAsWritten`.
