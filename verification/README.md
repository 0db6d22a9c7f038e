# Verified models of the agent sandbox's stateful logic

This project models the four parts of the repository whose correctness depends on state, time,
interleaving or tree structure, and proves what they promise:

1. **Webhook replay protocol** (`images/webhook-listener/`). Concurrent deliveries verify a timestamped
   signature, claim a replay key in a bounded and lazily swept cache, forward, and release the key only
   when the request provably never left. `ReplayCache` is the cache itself, proved equal to an unbounded
   history; `Signatures` and `Routes` are the checks, keys and routing table; `ReplayProtocol` is the step
   system of all interleavings with at-most-once delivery and claim ownership; `ReplayLimits` shows that
   the conditions of both are exact, `StampLimits` how far apart the stamps of two deliveries are, and
   `ReplayRetries` what may be retried and what is forwarded at all; `Encodings` is what timestamps and signatures
   spell; `Headers` is the header filter, and `OutboundNames` says name by name what passes it.
2. **Config reconciler and TOML printer** (`charts/agent/files/reconcile-config.py`). `ConfigTree` holds the
   tree operations and their lens laws, `Reconcile` the pass "merge, then replace the owned paths",
   `Harnesses` six of the seven kinds, `Hermes`, `HermesLaws`, `HermesEndpoints` and `HermesLeaves` the seventh;
   `OwnedNames` says key by key what each kind takes from the desired configuration alone.
   `TomlWriter` is the printer, `TomlReader` an independent reader written from TOML v1.0.0, and
   `TomlLexical` and `TomlRoundTrip` connect the two.
3. **Host controller state** (`host/mcp/vicegerent_mcp.py`). `StateFile` is the crash-safe file with its locked
   transactions, `StateProgress` what its schedules can still bring about, `StateRecovery` the recovery of a
   corrupt one, which readers do without the lock, `Workloads` the fingerprint-driven reconciler, `RecoveryLoop` the
   bounded recovery and `ProcessTree` the process closure.
4. **Schema check, merge and Makefile expansion** (`scripts/`). `MachineValues` is the check of one value and the
   merge, `ValuesContract` the whole of `validate` with its cross-field phase, `ValuesLaws` what a clean first
   phase is worth to the second, `ValuesMeaning` what passing means in terms of the merged keys, `SecretNames` what
   the accepted names guarantee to the installer, and `MakeVars` and `MakeOrder` the memoised expansion
   and when its order matters.

Code that updates fields is a class here (`ReplayCache.ReplayCache`, `Headers.Header`, `Harnesses.Document`,
`Hermes.Route`, `TomlWriter.TomlPrinter`, `StateFile.StateStore`, `RecoveryLoop.Recovery`,
`MachineValues.Validator`, `MakeVars.Expander`). Each method is proved against a specification function, and
the laws are proved about that function. Lists of names and limits are stated again, literally, where a law says
what they are for. Code that runs concurrently is a step system: states, enabled steps,
and runs as sequences of them.

## Where the code does less than it or its documentation says

Each of these is proved with an exact condition; where the condition is not met, an input or a run that fails
is part of the proof.

- *At most one delivery per generic-v2 key.* The clock that stamps the claim is read before the lock is taken
  and after the signature was checked against an earlier reading. With `lag` the bound on the time from the
  first reading to the lock, the guarantee holds exactly for claims stamped at or after the start of the
  signature's window plus `lag` (`ReplayLimits.AtMostOnceExactly`). Without a condition on the claims it holds
  exactly when `lag` is zero (`ReplayLimits.UnconditionallyAtMostOnceExactly`).
- *`forget` releases only its own claim.* This holds exactly while `lag` plus the time from a claim to its release
  fits into an entry's lifetime (`ReplayLimits.OwnershipExactly`); the 30 s client timeout against the 600 s
  lifetime leaves wide room.
- *Two deliveries under one key are a lifetime apart.* From the one's stamp to the other's lock they are, while
  `lag` and flight fit into it. Stamp to stamp they are on all runs exactly when a request holds the lock in the instant it is stamped and no flight
  outlives its claim: a release by a later request, or a sweep of the full cache by a later stamp, lets in an
  earlier stamp that still waits for the lock (`StampLimits.StampsApartExactly`,
  `StampLimits.UnreleasedStampsApartExactly`).
- *Reconciling is idempotent.* A non-mapping that sits on a proper prefix of a nested owned path is replaced by
  a fresh mapping, which the next merge refills. `Reconcile.Undisturbed` is the exact condition on the inputs;
  whatever the input, the second pass is final.
- *Routes are locked to declared endpoints.* An existing `model` that is no mapping survives the merge and
  switches the whole locking block off, for the delegation and for every auxiliary route
  (`HermesEndpoints.EndpointsLockedExactly`). A user's delegation where none is desired is not locked at all
  (`HermesEndpoints.DelegationLockedExactly`).
- *Every existing configuration can be reconciled.* A provider that the user gives as a list or a mapping raises a
  TypeError when it is looked up, and nothing is written (`HermesEndpoints.HermesRunsExactly`,
  `HermesEndpoints.ListProviderStops`).
- *TOML output is valid.* The JSON string encoder leaves U+007F unescaped, which TOML forbids
  (`TomlRoundTrip.RoundTrip`).
- *A corrupt state file is recovered.* Only malformed UTF-8 text is: a wrong version is refused, and bytes that are
  no UTF-8 raise an uncaught decoding error. A crash inside the copy step breaks the recovery copy, and
  a file that is gone reads as the empty state even with a valid recovery copy beside it
  (`StateFile.CorruptionIsRecoveredExactly`).
- *A committed update is durable.* The loading functions recover a corrupt file without the lock, so a reader may
  put its older copy in place after a transaction has recovered and committed. An update can be lost without
  another corruption exactly when at its commit some reader is in the middle of such a recovery
  (`StateRecovery.CommitIsSafeExactly`, `StateRecovery.ReaderUndoesCommit`).
- *Recorded fingerprints match the containers.* Two steps can make one wrong, and no other: a run that begins with
  the group listing alone while a listed container has another spec, and a failed `thv run` that leaves its
  container behind while another spec is on record (`Workloads.FingerprintsMatchExactly`).
- *A workload in `error` is recovered by a stop and a start.* After its stop, a workload that is never observed
  `stopped` gets no further command, even if it runs again and fails again: a further error gets a stop exactly
  when `stopped` was observed since the last one (`RecoveryLoop.ErrorGetsStopExactly`).
- *The values check reports faults instead of raising.* The check exempts webhook routes, so that a route may name
  its provider by a list or a mapping; the cross-field phase then raises, and only then
  (`ValuesLaws.CrossFieldRunsExactly`, `ValuesLaws.ListProviderRaises`).
- *Connection-nominated headers are dropped.* Only the first Connection line is read
  (`Headers.MeetsRfcExactly`, section 7.6.1 of RFC 9110).

## Model

| member | source | states |
|---|---|---|
| ReplayCache.CacheRefinesHistory | images/webhook-listener/server.go:171-203 | for every run of calls with a nondecreasing clock the lazily swept map gives exactly the verdicts of an unbounded history of claims and releases, never holds more than 10 000 keys, and knows a key as live iff the history does |
| ReplayCache.SameVerdict | images/webhook-listener/server.go:171-190 | one verdict: replay iff the key has an unforgotten claim at most 600 s old (bound inclusive), full iff it has none and 10 000 keys do, admitted otherwise |
| ReplayCache.StepAgrees | images/webhook-listener/server.go:171-203 | each call keeps the map in agreement with the history from its clock on, so a sweep never drops a live key |
| ReplayCache.LiveAfterClaim | images/webhook-listener/server.go:160-170 | the reference history itself: a claim makes its own key live for one lifetime and changes no other key |
| ReplayCache.LiveAfterRelease | images/webhook-listener/server.go:194-203 | in the reference history a release ends every earlier claim of its key and no other |
| ReplayCache.ReplayCache.Record | images/webhook-listener/server.go:171-192 | the method with its sweep loop, whatever order the map is ranged over, has the specified verdict and entries |
| ReplayCache.ReplayCache.Forget | images/webhook-listener/server.go:194-203 | deletes exactly the key, and nothing for the empty key |
| Signatures.ReplayKeySeparates | images/webhook-listener/verify.go:162-177 | two keys are equal iff provider, agent, route and identity are: the colon-joined text decodes uniquely |
| Signatures.SpellingsOfOneDigest | images/webhook-listener/verify.go:164-168 | two decodable hexadecimal signatures fold to the same lower-case text iff they decode to the same bytes |
| Signatures.GenericKeysSeparate | images/webhook-listener/verify.go:162-177 | generic-v2 keys are equal iff agent, route and decoded signature bytes are equal |
| Signatures.SvixKeysSeparate | images/webhook-listener/verify.go:162-177 | svix keys are equal iff agent, route and message id are, and no key serves two providers |
| Signatures.KeyBindsTimestamp | images/webhook-listener/verify.go:135-153 | two verified generic-v2 deliveries with one key carry the same timestamp and body |
| Encodings.ParsesExactly | images/webhook-listener/verify.go:179-189 | a timestamp parses exactly when it is an optional sign and digits, leading zeros included, whose value fits into 64 bits, and to that value |
| Encodings.HexDecodesExactly | images/webhook-listener/verify.go:143-146 | a signature decodes to given bytes exactly when it is their two-digit hexadecimal spelling in either letter case |
| Routes.CompileRoutes | images/webhook-listener/config.go:52-90 | succeeds iff the table is non-empty, every route is correct and all pairs differ; paths then correspond one to one to the configured pairs, each bound to its own agent's target; otherwise the error is that of the first route that cannot be compiled |
| Routes.RoutePathSeparates | images/webhook-listener/config.go:82-86 | a compiled path determines its (agent, route) pair |
| Routes.RouteErrorExactly | images/webhook-listener/config.go:12-82 | which of the five checks of a route fails first, if any, with names, file names, providers and the target given by their grammar |
| Routes.CompiledIsConfined | images/webhook-listener/config.go:73-87 | every path of a compiled table leads to the in-cluster service of the agent it names and to that route, and its secret file name stays in its directory |
| ReplayProtocol.NeverSent | images/webhook-listener/server.go:224-232 | true iff some link of the error chain is a dial or proxyconnect error, outermost or not |
| ReplayProtocol.WalkNeverSent | images/webhook-listener/server.go:224-232 | the loop along the chain finds exactly that |
| ReplayProtocol.StepKeepsKey | images/webhook-listener/server.go:115-153 | every step of every request keeps live claims in the cache and unforgotten claims of a key a lifetime apart |
| ReplayProtocol.RunKeepsKeys | images/webhook-listener/server.go:115-203 | on every interleaving, with flights within the lifetime, the above holds and every entry is owned by an unforgotten claim |
| ReplayProtocol.DeliveriesSpaced | images/webhook-listener/server.go:120-153 | of two deliveries under one key (svix or generic-v2) that may have left, one held the lock more than twice the tolerance after the other was stamped; stamp to stamp, on runs where sweeps and releases may come between, they are more than twice the tolerance less lag apart |
| ReplayProtocol.StampsSpaced | images/webhook-listener/server.go:171-203 | on every run, for every lag and flight: of two requests admitted under one key the later one is stamped more than twice the tolerance after the earlier one, unless a step between them removed the key, and that step is a release under the key or a sweep of the full cache by a stamp the entry has expired at |
| StampLimits.StampsApartExactly | images/webhook-listener/server.go:115-203 | on all runs, deliveries under one key that may have left are stamped more than twice the tolerance apart iff a request holds the lock in the instant it is stamped and no flight outlives its claim |
| StampLimits.UnreleasedStampsApartExactly | images/webhook-listener/server.go:171-190 | on all runs without releases the same holds iff lag is zero, whatever the flights; for any other lag a sweep of a cache of 10 000 expired entries lets an earlier stamp in |
| StampLimits.ReleaseAdmitsEarlierStamp | images/webhook-listener/server.go:149-153 | for any positive lag a run in which the claim of a refused delivery is released and an earlier stamp, exactly one lifetime after the first delivery, is admitted |
| ReplayProtocol.ForgetOwnsItsEntry | images/webhook-listener/server.go:149-153 | every release deletes the entry its own request wrote, and takes no live claim of another request away |
| ReplayProtocol.ReplayRefusedExactly | images/webhook-listener/server.go:115-203 | at any moment of any run, for every stamp up to the clock: a delivery is refused as a replay if an unforgotten claim of its key is live at the clock, and only if one is live at the stamp; for a stamp that is the clock the two conditions are one |
| ReplayProtocol.ClaimsInWindow | images/webhook-listener/verify.go:179-189 | everything claimed under an authentic delivery's key verified within that delivery's five-minute window, both ends included |
| ReplayProtocol.AtMostOnce | images/webhook-listener/server.go:115-203 | on every interleaving at most one delivery per generic-v2 key ever leaves, if its claims start no earlier than window start plus lag; no bound on flights is needed |
| ReplayProtocol.AtMostOnceInOneInstant | images/webhook-listener/server.go:115-203 | when check and claim share one instant, at most one delivery per generic-v2 key leaves, unconditionally |
| ReplayRetries.ReleasedExactly | images/webhook-listener/server.go:137-153 | an answered forward goes on to its release iff no header was written, no link of the error chain is the 502 error and some link is a dial or proxyconnect error; such a delivery did not leave, and every other answer keeps the claim |
| ReplayRetries.AnsweredExactly | images/webhook-listener/server.go:205-232 | of a forwarded delivery any outcome is possible, except that one which left has no outcome that proves it did not |
| ReplayRetries.RetryIsAdmitted | images/webhook-listener/server.go:115-203 | on every run, after such an answer: the claim waits for its release or is gone, and once it is gone the next request under its key to hold the lock is admitted iff fewer than 10 000 keys are unexpired |
| ReplayRetries.ForwardedIsProven | images/webhook-listener/verify.go:29-53 | on every run, whatever is forwarded had a secret, a supported provider and that provider's proof, timestamps within five minutes included, at most lag before it was claimed |
| ReplayRetries.CheckedExactly | images/webhook-listener/verify.go:29-53 | a request passes its check iff it is so proven at that moment, and is rejected otherwise |
| ReplayRetries.UntimestampedAlwaysForwarded | images/webhook-listener/verify.go:162-177 | deliveries of the four providers without a signed timestamp claim no key and are never refused as replays |
| ReplayLimits.EarlyClaimAdmitsASecond | images/webhook-listener/server.go:115-135 | for every earlier claim a complete run in which two copies of the same delivery leave |
| ReplayLimits.AtMostOnceExactly | images/webhook-listener/server.go:115-135 | at-most-once holds for claims from r on iff r is at least window start plus lag |
| ReplayLimits.UnconditionallyAtMostOnceExactly | images/webhook-listener/server.go:115-135 | at-most-once holds on all runs of all ideal digests, with no condition on the claims, iff lag is zero; for any other lag a concrete delivery is sent twice |
| ReplayLimits.LongFlightForgetsAnother | images/webhook-listener/server.go:149-153 | a run in which a flight that outlives its claim forgets the next delivery's claim |
| ReplayLimits.OwnershipExactly | images/webhook-listener/server.go:65-65 | release ownership holds on all runs iff lag plus flight fit into the lifetime of an entry; beyond it two concrete svix deliveries show a claim forgotten by another |
| Headers.OutboundHeaders | images/webhook-listener/server.go:237-246 | the headers sent on are exactly the inbound ones minus hop-by-hop names, names the first Connection line nominates and credential-shaped names, all remaining values in order, for every map iteration order |
| Headers.CopyHeaders | images/webhook-listener/server.go:313-319 | copying into an empty header reproduces every name with all its values in order |
| Headers.RemoveHopByHopHeaders | images/webhook-listener/server.go:321-328 | deletes exactly the nominated and the fixed names |
| Headers.StripCredentialHeaders | images/webhook-listener/server.go:280-294 | deletes exactly the credential-shaped names while ranging over the map it deletes from |
| Headers.CanonicalIgnoresCase | images/webhook-listener/server.go:24-34 | two token names share a canonical spelling iff they differ in letter case only |
| Headers.OutboundIsSurviving | images/webhook-listener/server.go:244-246 | the two deletions together keep a header iff it survives the case-insensitive rules |
| Headers.MeetsRfcExactly | images/webhook-listener/server.go:321-328 | the result is what section 7.6.1 of RFC 9110 asks for iff no later Connection line nominates a header the first one lets through |
| Headers.OneConnectionLine | images/webhook-listener/server.go:321-328 | with at most one Connection line the filter is exact |
| Headers.SecondConnectionLineIsIgnored | images/webhook-listener/server.go:322-324 | a concrete header that only a second Connection line nominates is forwarded |
| OutboundNames.OutboundExactly | images/webhook-listener/server.go:237-328 | header by header in any letter case: one leaves, with all its values, iff it is none of the nine connection headers, not Authorization, does not begin with Cf-Access-, contains neither "signature" nor "token", and is no element of the first Connection line, white space aside |
| OutboundNames.CredentialsStayBehind | images/webhook-listener/verify.go:29-53 | in any letter case, none of the six headers that the checks read their proof from ever leaves, nor any Cf-Access- header |
| OutboundNames.TelemetryLeaves | images/webhook-listener/server.go:271-290 | Svix-Id, Svix-Timestamp, X-Webhook-Timestamp, Cf-Ray and Content-Type leave with all their values unless the first Connection line nominates them |
| OutboundNames.NominatesExactly | images/webhook-listener/server.go:321-324 | a Connection line nominates a name iff the name, in any letter case, stands between two commas or ends of the line with only white space around it |
| OutboundNames.TokenCharacters | images/webhook-listener/server.go:313-328 | header names that are canonicalized are the tokens of section 5.6.2 of RFC 9110 |
| ConfigTree.GetSet | charts/agent/files/reconcile-config.py:44-52 | reading at or below a path just set reads the value set |
| ConfigTree.GetSetAbove | charts/agent/files/reconcile-config.py:44-52 | setting makes every proper prefix a mapping |
| ConfigTree.GetSetBeside | charts/agent/files/reconcile-config.py:44-52 | setting changes nothing at paths incomparable with the one set |
| ConfigTree.GetDelete | charts/agent/files/reconcile-config.py:55-62 | nothing is left at or below a deleted path |
| ConfigTree.GetDeleteBeside | charts/agent/files/reconcile-config.py:55-62 | deleting changes nothing at incomparable paths |
| ConfigTree.GetDeleteAbove | charts/agent/files/reconcile-config.py:55-62 | deleting turns no prefix into a mapping or a non-mapping |
| ConfigTree.SetWhatYouGet | charts/agent/files/reconcile-config.py:35-52 | writing back what was read changes nothing |
| ConfigTree.DeleteWhatIsAbsent | charts/agent/files/reconcile-config.py:55-62 | deleting an absent path changes nothing |
| ConfigTree.MergeReads | charts/agent/files/reconcile-config.py:22-32 | along every path a merge reads as the override where it has the path, as the base where no non-mapping of the override is in the way, and as nothing otherwise |
| ConfigTree.CoversMeansAbsorbed | charts/agent/files/reconcile-config.py:22-32 | a merge changes the override in nothing iff the override already covers the base |
| ConfigTree.CoversMeansPaths | charts/agent/files/reconcile-config.py:22-32 | covering, stated path by path |
| Reconcile.OwnershipFrame | charts/agent/files/reconcile-config.py:65-72 | at and below an owned path the result reads as desired, absent where that is; beside all owned paths it reads existing values first and desired ones where nothing existing blocks them |
| Reconcile.IdempotentExactly | charts/agent/files/reconcile-config.py:22-72 | a second pass changes nothing iff nothing desired, other than owned paths, lies below an existing non-mapping that an owned path replaces |
| Reconcile.StableFromTheSecondPass | charts/agent/files/reconcile-config.py:22-72 | on every input the second pass is final |
| Reconcile.IdempotentWhenOpen | charts/agent/files/reconcile-config.py:22-72 | idempotent whenever existing values on proper prefixes of owned paths are mappings or absent |
| Harnesses.ReconcileClaudeSettings | charts/agent/files/reconcile-config.py:219-231 | the in-place rewriting is the specified pass over the kind's owned paths |
| Harnesses.ReconcileClaudeMarketplaces | charts/agent/files/reconcile-config.py:234-241 | owns every desired marketplace, in whatever order they are walked |
| Harnesses.ReconcileClaudePlugins | charts/agent/files/reconcile-config.py:244-248 | owns nothing: the plain merge |
| Harnesses.ReconcileClaudeState | charts/agent/files/reconcile-config.py:251-265 | owns mcpServers and the trust flag of every desired project that has one |
| Harnesses.ReconcileCodex | charts/agent/files/reconcile-config.py:268-298 | owns eight fixed paths and the trust level of every desired project that has one |
| Harnesses.ReconcileOpenCode | charts/agent/files/reconcile-config.py:301-307 | owns five top-level keys |
| Harnesses.Document.Replace | charts/agent/files/reconcile-config.py:65-72 | makes one owned path what the desired configuration says, deleting it if absent there |
| Harnesses.Document.ForceLeaves | charts/agent/files/reconcile-config.py:268-279 | sets the leaf of exactly those desired entries that are mappings and have it |
| Harnesses.OwnedPathsSeparate | charts/agent/files/reconcile-config.py:219-307 | for each kind, and every set of project or marketplace names, no owned path lies at or below another |
| Harnesses.KindIdempotentExactly | charts/agent/files/reconcile-config.py:219-307 | each of the six kinds is idempotent iff undisturbed, and stable from the second pass on |
| Harnesses.FlatKindsAreIdempotent | charts/agent/files/reconcile-config.py:219-307 | settings, marketplaces, plugins and opencode are idempotent on every input |
| Harnesses.OwnershipOfKind | charts/agent/files/reconcile-config.py:219-307 | each kind's owned paths read as desired, every incomparable path as in the merge |
| Harnesses.CodexMayNeedTwoPasses | charts/agent/files/reconcile-config.py:282-298 | a concrete Codex input whose second pass differs from the first |
| OwnedNames.KindReads | charts/agent/files/reconcile-config.py:219-308 | for each of six kinds and every path: at and below the listed keys, and the listed leaves that are desired, the result reads as desired; at any other path that does not lead to one, as the merge |
| OwnedNames.HermesReads | charts/agent/files/reconcile-config.py:109-133 | the same for Hermes outside its four rebuilt sections: fifteen top-level keys, platforms.webhook and approvals.mode |
| Hermes.Route.Reconcile | charts/agent/files/reconcile-config.py:85-106 | rewrites a route in place as specified, or stops with a TypeError exactly when a provider name is a list or a mapping |
| Hermes.LockRoutes | charts/agent/files/reconcile-config.py:205-215 | locks every auxiliary route, in whatever order they are walked |
| Hermes.AssembleAuxiliary | charts/agent/files/reconcile-config.py:161-179 | rebuilds the auxiliary section from the desired routes and their preserved leaves |
| Hermes.LockDocument | charts/agent/files/reconcile-config.py:181-215 | locks model, delegation and auxiliary routes in place, or stops where the specification does |
| Hermes.ReconcileHermes | charts/agent/files/reconcile-config.py:109-216 | the whole in-place reconciler has the specified result, or none when a TypeError stops it |
| HermesLaws.RouteAgain | charts/agent/files/reconcile-config.py:75-106 | preserving the leaves of a locked route and locking again gives the same route |
| HermesLaws.AssembledSections | charts/agent/files/reconcile-config.py:135-179 | what each of the four sections reads before locking, and that all other keys are the owned-path pass |
| HermesLaws.HermesIdempotentExactly | charts/agent/files/reconcile-config.py:109-216 | a second pass over a Hermes configuration changes nothing iff the first one rebuilt no prefix that the merge refills |
| HermesLaws.HermesStableFromTheSecondPass | charts/agent/files/reconcile-config.py:109-216 | if the first pass runs through, so does the second, and it is final |
| HermesLaws.HermesMayNeedTwoPasses | charts/agent/files/reconcile-config.py:109-133 | a concrete Hermes input whose second pass differs from the first |
| HermesEndpoints.RouteIsLocked | charts/agent/files/reconcile-config.py:85-106 | a route names a declared provider afterwards iff it or the desired route did before, and then has exactly that provider's endpoint |
| HermesEndpoints.ForeignModelFallsBack | charts/agent/files/reconcile-config.py:91-98 | a user's model with an undeclared provider ends up with the desired provider and the desired default model, if there is one, and keeps the user's other leaves, merge, preservation and locking together |
| HermesEndpoints.AgentChoicesSurvive | charts/agent/files/reconcile-config.py:135-142 | in the reconciled agent section exactly the three listed leaves are the user's, where the user has them; everything else is as desired |
| HermesEndpoints.ModelChoicesSurvive | charts/agent/files/reconcile-config.py:145-192 | a user's model whose provider is declared survives leaf by leaf, merge, preservation and locking together |
| HermesLeaves.ModelLeaf | charts/agent/files/reconcile-config.py:145-192 | every leaf of the reconciled model: provider and endpoint of the user's provider if declared and of the desired one otherwise; of the user's leaves exactly default, context_length and persist_switch_by_default, with an undeclared provider the desired models instead; else as desired |
| HermesLeaves.DefaultIsChosen | charts/agent/files/reconcile-config.py:180-195 | whatever is declared, the other routes default to the provider chosen for the model, and to anthropic where neither model names one |
| HermesLeaves.DelegationLeaf | charts/agent/files/reconcile-config.py:153-203 | every leaf of the reconciled delegation: the same with the user's model and context_length, and with the reconciled model's provider as default |
| HermesLeaves.AuxiliaryLeaf | charts/agent/files/reconcile-config.py:161-215 | every leaf of every desired auxiliary route, in the same way; routes that are not desired are gone |
| HermesLeaves.DelegationSurvives | charts/agent/files/reconcile-config.py:153-160 | a user's delegation with a declared provider keeps its model, provider and context_length |
| HermesLeaves.AuxiliarySurvives | charts/agent/files/reconcile-config.py:161-179 | so does a user's auxiliary route of a desired name |
| HermesEndpoints.EndpointsAreLocked | charts/agent/files/reconcile-config.py:109-216 | for every existing configuration whose model is a mapping or absent, with no list or mapping in place of a provider that is looked up: the reconciler runs through, and the reconciled model, desired delegation and each desired auxiliary route names a declared provider and has exactly its base_url, key_env and api_mode |
| HermesEndpoints.HermesRunsExactly | charts/agent/files/reconcile-config.py:85-216 | a configuration is written iff the existing model is no mapping, or no list or mapping stands in place of a provider that is looked up: the existing model's, the existing delegation's if one is desired, and those of the existing auxiliary routes that are desired too, or of all of them if no auxiliary mapping is desired |
| HermesEndpoints.ListProviderStops | charts/agent/files/reconcile-config.py:91-92 | an existing model whose provider is an empty list stops the reconciler, whatever is desired |
| HermesEndpoints.ScalarModelKeepsAStranger | charts/agent/files/reconcile-config.py:181-186 | with an existing model that is no mapping an undeclared provider survives in the delegation, and in every desired auxiliary route |
| HermesEndpoints.EndpointsLockedExactly | charts/agent/files/reconcile-config.py:181-215 | for all existing delegation and auxiliary sections whose providers can be looked up the reconciler runs through and locks all routes iff the existing model is absent or a mapping whose own provider can be looked up, or is no mapping and no route besides the model is desired |
| HermesEndpoints.DelegationLockedExactly | charts/agent/files/reconcile-config.py:194-203 | any delegation a user has set up, if it is still a mapping in the result, is locked iff the locking is on, the model's own provider can be looked up, and a delegation is desired |
| TomlWriter.Dump | charts/agent/files/reconcile-config.py:363-387 | the nested printer appending to one list of lines emits the specified document |
| TomlWriter.TomlPrinter.WriteTable | charts/agent/files/reconcile-config.py:366-384 | header, then one-line pairs, then tables and arrays of tables below |
| TomlLexical.ReadsString | charts/agent/files/reconcile-config.py:340-346 | an escaped string reads back as itself, or is rejected iff it contains U+007F (TOML v1.0.0, section "String") |
| TomlLexical.ReadsKey | charts/agent/files/reconcile-config.py:337-341 | bare and quoted keys read back as themselves (section "Keys") |
| TomlLexical.ReadsValue | charts/agent/files/reconcile-config.py:344-360 | every inline value, nested arrays and inline tables included, reads back as what it stands for |
| TomlRoundTrip.ReadsDocumentLines | charts/agent/files/reconcile-config.py:363-387 | the lines of a document parse to the statement stream of the tree |
| TomlRoundTrip.BuildAllBelow | charts/agent/files/reconcile-config.py:379-384 | statements with a prefixed path build below that key what they build at the root, through the last element of an array of tables |
| TomlRoundTrip.TableBuilds | charts/agent/files/reconcile-config.py:366-384 | the statement stream of a table builds exactly that table (sections "Table" and "Array of Tables") |
| TomlRoundTrip.RoundTrip | charts/agent/files/reconcile-config.py:337-387 | for every mapping in every key order, reading the printed document gives the mapping back; it is invalid TOML iff some text contains U+007F |
| StateFile.StateStore.ReadState | host/mcp/vicegerent_mcp.py:265-293 | what a read answers for every content of the file and of its recovery copy, and what it restores |
| StateFile.StateStore.Recover | host/mcp/vicegerent_mcp.py:244-262 | restores a valid recovery copy over a malformed file |
| StateFile.StateStore.WriteState | host/mcp/vicegerent_mcp.py:296-304 | the new document, and the old one as recovery copy if there was one |
| StateFile.AnsweredExactly | host/mcp/vicegerent_mcp.py:244-293 | an absent file reads as three empty mappings, a valid one as itself; any other is answered with a state iff it is malformed and its recovery copy is valid, and is left alone otherwise |
| StateFile.StepIsSound | host/mcp/vicegerent_mcp.py:296-324 | every step, crashes and torn copies included, keeps the file the fold of the committed updates and the recovery copy what the last steps made it |
| StateFile.ReadsAreLinearizable | host/mcp/vicegerent_mcp.py:296-341 | at every moment of every interleaving, with any crashes, the file reads as the committed updates applied in lock order |
| StateFile.CrashLeavesOldOrNew | host/mcp/vicegerent_mcp.py:296-304 | a crash at any step leaves exactly the old or exactly the new state readable |
| StateFile.LogIsRenames | host/mcp/vicegerent_mcp.py:296-324 | on every run the committed updates are exactly those of the renames, in their order |
| StateFile.RaisingTransactionWritesNothing | host/mcp/vicegerent_mcp.py:311-324 | from taking the lock to letting go of it, a transaction whose body raises changes neither disk nor log, whatever the other processes do or crash at meanwhile |
| StateFile.FingerprintsFold | host/mcp/vicegerent_mcp.py:1402-1406 | the final fingerprints are the fold of the fingerprint updates alone; enabling and parameter updates leave them untouched |
| StateFile.LastFingerprintWins | host/mcp/vicegerent_mcp.py:1402-1406 | each name has the fingerprint of its last committed update |
| StateFile.UntouchedFingerprintStays | host/mcp/vicegerent_mcp.py:1402-1406 | a name without a committed update keeps the original fingerprint, or has none |
| StateFile.LastSaveWins | host/mcp/vicegerent_mcp.py:327-341 | enabling and parameters are those of the last committed transaction that saved them |
| StateProgress.EveryTransactionCanCommit | host/mcp/vicegerent_mcp.py:296-324 | in every state of every run, crashes included, a waiting transaction can still commit: at once when nobody holds the lock, and otherwise after the process inside has committed, which it can do by itself |
| StateProgress.InsideCanFinish | host/mcp/vicegerent_mcp.py:296-324 | the process inside can always finish by its own steps, with its update as the last of the log and the file reading as that log, also where the first write has nothing to copy |
| StateProgress.CopyCanTear | host/mcp/vicegerent_mcp.py:296-304 | wherever a state file exists, the next transaction can crash and leave the recovery copy as it was, torn, or complete |
| StateFile.CorruptionIsRecoveredExactly | host/mcp/vicegerent_mcp.py:244-293 | after two commits, what a file that turned unreadable or disappeared is read back as, in every case: the state before the last write iff the damage is malformed text and nothing was copied since, and the empty state for a file that is gone |
| StateRecovery.RecoveryIsRead | host/mcp/vicegerent_mcp.py:244-293 | whatever both files hold, the steps of a read that nothing interrupts leave the disk as one atomic read does; with the lock they go on with the state it answers, iff it answers one, and otherwise let go of the lock |
| StateRecovery.MalformedIsMendedExactly | host/mcp/vicegerent_mcp.py:244-262 | with the lock, a malformed file leads to a transaction iff its recovery copy is a valid document, and is then replaced by it; otherwise both files stay |
| StateRecovery.WriteIsWrite | host/mcp/vicegerent_mcp.py:296-304 | the steps of a write that nothing interrupts replace the file by the changed state and keep the old file, if there was one, as recovery copy |
| StateRecovery.VersionsAreFolds | host/mcp/vicegerent_mcp.py:244-324 | on every interleaving of transactions, recoveries with and without the lock, crashes and corruptions of both files, a readable state file is the fold of the committed updates it holds, each once and in commit order |
| StateRecovery.StepKeepsSafe | host/mcp/vicegerent_mcp.py:244-324 | an update that the file holds and no process endangers stays held and unendangered under every step but a corruption |
| StateRecovery.LostExactly | host/mcp/vicegerent_mcp.py:239-341 | at any moment of any run, an update that the file holds can vanish from it without another corruption iff some process endangers it: a reader recovering without the lock whose copy does not hold it yet, or a lock holder working on a state without it |
| StateRecovery.CommitIsSafeExactly | host/mcp/vicegerent_mcp.py:239-341 | an update can be lost after its commit without another corruption iff at the commit some reader without the lock has found the file corrupt and not put its copy in place yet |
| StateRecovery.CommitStays | host/mcp/vicegerent_mcp.py:296-324 | with no such reader at its commit, an update is in the file at every later moment up to the next corruption |
| StateRecovery.NothingLostUncorrupted | host/mcp/vicegerent_mcp.py:265-324 | up to the first corruption the file holds every committed update, whatever crashes |
| StateRecovery.ReaderUndoesCommit | host/mcp/vicegerent_mcp.py:239-262 | for every state, older state and update a run with one corruption, one reader and one transaction, after which the committed update is gone and the file is valid |
| Workloads.FingerprintsMatch | host/mcp/vicegerent_mcp.py:1409-1505 | over every history of runs, failing calls and outside changes included, a recorded fingerprint matches the baked arguments whenever no worker is busy with the workload, as long as no step endangers it |
| Workloads.PartialListingMismatches | host/mcp/vicegerent_mcp.py:1460-1487 | for every world and changed workload, the run that begins with the group listing alone, restarts the workload and records a wrong fingerprint |
| Workloads.FingerprintsMatchExactly | host/mcp/vicegerent_mcp.py:1409-1505 | for every state, step and name, all histories that go on with the step keep the name matched iff the step is neither a partial beginning that lists a changed container nor a failed start that leaves one behind under another record |
| Workloads.RebuiltExactly | host/mcp/vicegerent_mcp.py:1450-1470 | an existing container is removed and rebuilt iff it is outside the group, was created with another spec, has no recorded spec, or mounts an outdated kubeconfig; otherwise it is restarted, or left alone iff it runs |
| Workloads.DecidedExactly | host/mcp/vicegerent_mcp.py:1450-1470 | whatever the two listings returned, each of the four decisions by an exact condition on what was listed and recorded |
| Workloads.OneRunConverges | host/mcp/vicegerent_mcp.py:1428-1548 | when all calls succeed, one run in any interleaving leaves every enabled workload running in the group with its current spec |
| Workloads.SecondRunIsQuiet | host/mcp/vicegerent_mcp.py:1428-1548 | after such a run a second one with the same specs issues no rm, run or restart at all, in any interleaving, and leaves the world as it is |
| Workloads.LeftoversAreHonest | host/mcp/vicegerent_mcp.py:1495-1504 | after a failed start that leaves a container behind, a run with the same specs still converges, since no record claims a spec its container lacks |
| Workloads.LeftoverRunsUnderAnotherFingerprint | host/mcp/vicegerent_mcp.py:1461-1481 | but if the spec is taken back to the recorded one, the next run restarts the leftover and records the restored spec for a container with the abandoned one |
| Workloads.RunNeverStalls | host/mcp/vicegerent_mcp.py:1536-1548 | until all workers have finished, some step of one of them is possible |
| RecoveryLoop.WaitForWorkloads | host/mcp/vicegerent_mcp.py:1551-1596 | the polling loop with its counters and set issues exactly the commands of the policy, ends at the first listing that shows everything running, and warns only if none did |
| RecoveryLoop.AllRunningMeans | host/mcp/vicegerent_mcp.py:1577-1581 | nothing is pending iff every wanted workload is observed running |
| RecoveryLoop.RecoveryIsBounded | host/mcp/vicegerent_mcp.py:1582-1592 | for every sequence of listings each workload's commands alternate stop, start, stop, with at most three stops, and each answers the state just observed |
| RecoveryLoop.StartFollowsOwnStop | host/mcp/vicegerent_mcp.py:1589-1592 | a start is issued only right after this loop's own stop of the same workload |
| RecoveryLoop.EveryObservationIsAnswered | host/mcp/vicegerent_mcp.py:1582-1592 | after a poll that shows error a stop of the workload is outstanding or its three stops are used up, and after one that shows stopped no start is owed |
| RecoveryLoop.ErrorGetsStopExactly | host/mcp/vicegerent_mcp.py:1584-1589 | an observed error gets a stop iff fewer than three have been issued and stopped was observed since the last one |
| RecoveryLoop.RepeatedErrorIsLeftAlone | host/mcp/vicegerent_mcp.py:1584-1589 | for the listings error, running, error the loop issues one stop and nothing more |
| ProcessTree.ManagedPids | host/mcp/vicegerent_mcp.py:475-488 | terminates on every finite snapshot, cycles included, with exactly the processes reachable from the roots |
| ProcessTree.OneLevel | host/mcp/vicegerent_mcp.py:481-487 | one level keeps everything collected reachable and only the frontier unexplored, and strictly reduces what is missing |
| MachineValues.Validator.ValidateValue | scripts/validate-machine-values.py:84-117 | appends to the shared list exactly the faults of the value, in whatever order keys are visited |
| MachineValues.FaultsExactly | scripts/validate-machine-values.py:84-117 | the faults reported are exactly the problems, place by place, at the places of the value below which the template is an unexempt mapping: none is missed and none invented |
| MachineValues.ConformsByKey | scripts/validate-machine-values.py:94-103 | outside exempt places a mapping conforms iff each of its entries has a template and conforms to it |
| MachineValues.MergeConforms | scripts/validate-machine-values.py:64-117 | two values that conform at a path merge to one that does, exemptions included |
| MachineValues.MergedOverrideConforms | scripts/validate-machine-values.py:64-117 | a valid override merged over a self-valid template is valid |
| MachineValues.IndexIsDropped | scripts/validate-machine-values.py:80-81 | an indexed path part is read as its name, for every index |
| MachineValues.ExemptionsArePaired | scripts/validate-machine-values.py:32-61 | every exemption below agentDefaults has its counterpart below agents, and conversely |
| MachineValues.ConformsAtBothPlaces | scripts/validate-machine-values.py:80-117 | a value conforms below agentDefaults iff it conforms at the same place of any agent |
| MachineValues.LayeredAgentConforms | scripts/validate-machine-values.py:201-227 | default values, machine defaults and agent entry, checked layer by layer, conform when merged |
| MachineValues.ChainIsSafe | scripts/validate-machine-values.py:201-246 | every chain of get calls that the template leaves open meets only mappings in a conforming value |
| MachineValues.StringIsRead | scripts/validate-machine-values.py:204-211 | where the template ends in a string, a conforming value is read as a string or as nothing |
| MachineValues.AgentChainsAreSafe | scripts/validate-machine-values.py:234-246 | none of the chains that look up providers, harnesses, failover, memory and aggregator meets anything but mappings in a checked agent |
| MachineValues.PlatformChainsAreSafe | scripts/validate-machine-values.py:142-143 | nor do the content safety and model chains in the checked platform values |
| ValuesContract.Validate | scripts/validate-machine-values.py:258-277 | the whole check: it raises iff the agents' template cannot be extended or clean values reach a failing read, reports exactly the schema faults if there are any, and passes iff there are none and the cross-field contract holds |
| ValuesContract.CheckSchema | scripts/validate-machine-values.py:262-273 | the first phase reports exactly the faults of the values and of every agent against its own template |
| ValuesContract.ValidateCrossFieldContract | scripts/validate-machine-values.py:201-255 | runs through iff every read succeeds, and then reports something iff the contract is broken |
| ValuesContract.CheckAllAgents | scripts/validate-machine-values.py:213-249 | with the names seen so far as its only memory, accepts exactly agents with valid and pairwise different names that each hold up |
| ValuesContract.CheckUses | scripts/validate-machine-values.py:234-246 | accepts an agent iff every provider it switches on, names or needs for a harness has its platform capacity switched on |
| ValuesContract.ValidateWebhookConfig | scripts/validate-machine-values.py:151-198 | raises iff a mapping-valued route names its provider by a list or a mapping, and otherwise reports something iff toolsets or some route break their rules |
| ValuesContract.ValidateSshHosts | scripts/validate-machine-values.py:120-139 | reports something iff some host entry breaks its rules, and never raises |
| ValuesLaws.CleanAgentConforms | scripts/validate-machine-values.py:262-273 | when the first phase reports nothing, every merged agent, over default and machine defaults, conforms to the agents' template |
| ValuesLaws.CrossFieldRunsExactly | scripts/validate-machine-values.py:201-277 | on shaped, self-valid default values and values without schema faults the cross-field phase raises nothing iff no mapping-valued webhook route of a merged agent names its provider by a list or a mapping |
| ValuesLaws.RepositoryDefaultsAreShaped | values.defaults.yaml:57-236 | the default values have the shape the cross-field phase takes for granted, where it reads them |
| ValuesLaws.ListProviderRaises | scripts/validate-machine-values.py:173-175 | a concrete machine configuration that passes the first phase and makes the second one raise |
| ValuesMeaning.SchemaCleanExactly | scripts/validate-machine-values.py:262-273 | the first phase finds nothing iff the values fit the defaults, agents is a list of mappings, and each fits the agent defaults with a name |
| ValuesMeaning.ConformsByLevel | scripts/validate-machine-values.py:32-118 | what fits at each place: any mapping at the six exempt places, any list of strings at the twenty others, and elsewhere the kind of the default, mappings key by key |
| ValuesMeaning.PassesExactly | scripts/validate-machine-values.py:201-255 | values without schema faults pass the second phase iff the contract holds in terms of the merged keys: statuses, names, capacities, webhook sections with their routes, and SSH hosts |
| ValuesMeaning.CapacitiesMean | scripts/validate-machine-values.py:142-148 | every use of a provider has its capacity iff models.<provider>.enabled is true for each of the four switched-on providers, for anthropic if a claudeCode model is set, and for the failover, mnemosyne and aggregator providers |
| ValuesMeaning.UsedCapacityIsOn | scripts/validate-machine-values.py:234-246 | in values that pass, each provider that some merged agent uses has models.<provider>.enabled true in the merged platform |
| ValuesMeaning.SafetyMeans | scripts/validate-machine-values.py:204-211 | the two content safety statuses hold iff each is disabled, or enabled with the capacity of openai |
| ValuesMeaning.RouteMeans | scripts/validate-machine-values.py:160-198 | a webhook route holds iff its name and each of its options, eleven keys and no other, is of the stated kind, its provider is there, and it is not delivered to the log alone |
| SecretNames.SecretVariablesSeparate | scripts/install/lib/webhooks.sh:107-113 | for valid names the installer's environment variable, joined, upper-cased and with hyphens folded, determines agent and route |
| SecretNames.SecretsAreUnique | scripts/validate-machine-values.py:226-233 | in values that pass, no two webhook routes of any agents share a signing-secret variable |
| SecretNames.VariableIsShellName | scripts/install/lib/webhooks.sh:107-113 | for valid names the variable is the prefix followed by capital letters, digits and underscores only |
| MakeVars.CutsPlayNoPart | scripts/validate-image-tags.py:44-51 | for a variable from which no cycle is reachable the guard against circles never changes the value |
| MakeVars.DenotationSolvesEquations | scripts/validate-image-tags.py:39-55 | the denotation is plain recursive substitution on every such variable |
| MakeVars.DenotationIsUnique | scripts/validate-image-tags.py:39-55 | nothing else satisfies plain substitution there |
| MakeVars.ExpandIsRight | scripts/validate-image-tags.py:44-51 | with any correct memo, and inside any chain of expansions, the memoised value is the denotation and the memo stays correct |
| MakeVars.Expander.ExpandName | scripts/validate-image-tags.py:44-51 | the recursion that writes the shared memo has the specified value and memo, and terminates on every assignment graph |
| MakeVars.MakeVars | scripts/validate-image-tags.py:39-55 | every assigned variable gets a value, the result is that of some order of expansion, and, whatever the order, a variable has its denotation if no cycle is reachable from it |
| MakeVars.OrderMattersOnACycle | scripts/validate-image-tags.py:39-55 | two variables on a cycle whose values depend on the order of expansion |
| MakeOrder.EveryOrderGivesDenotations | scripts/validate-image-tags.py:39-55 | where no two different variables refer to each other, directly or not, every order gives every variable its denotation, self-references included |
| MakeOrder.OrderMattersExactly | scripts/validate-image-tags.py:39-55 | for given references, some literal texts make two orders of expansion give different values iff two different variables refer to each other, directly or not |

## Left out

- HTTP serving, sockets, TLS, the forward proxy, status codes and log lines: a forward is its outcome (whether the header was written, and the error chain).
- A dial error anywhere in the chain is taken as proof that the request did not leave; the HTTP transport's own retries (of requests with an Idempotency-Key header, for example) are not modelled.
- HMAC-SHA256 is a function from key and message to digest that never collides; Base64 and constant-time comparison are not modelled.
- The digest checks of pagerduty, github, gitlab, svix and alertmanager: their answer is the field `vouched` of a delivery. Svix's timestamp rule is modelled.
- One mathematical clock in nanoseconds: no monotonic readings, no overflow of timestamps, no saturating subtraction. The 64-bit range of parsed timestamps is modelled.
- URL parsing: a route carries its parsed target, or nothing where parsing fails.
- Header values and names outside ASCII: lower-casing is ASCII; parsed header names are tokens.
- set_path, delete_path and replace_path on nested dictionaries are functions on trees that the class Document assigns to its root; copying versus sharing of subtrees is not captured.
- Configuration keys that are not strings, and mapping order, except in the TOML printer, where the order is kept.
- Python's `str` of a provider name that is not a string is the parameter `show`; a null and a missing value stay distinct.
- YAML and JSON reading and writing, file modes and the atomic write of the reconciler.
- TOML floats, dates and non-finite numbers. The TOML reader covers what the printer emits; it lets a header extend a static array or an inline table, which full TOML rejects, and no printed document depends on that. Lone surrogates cannot occur in the model's text.
- The unlocked migration from the legacy state path, operating-system errors while reading or writing, and JSON text: a file is absent, a valid document, malformed text, of another version, or undecodable. A write torn by a crash is malformed or complete, since the encoder emits ASCII.
- Temporary state files are private to their process, so a crash while writing one leaves no readable trace and is the same as a crash before. Threads of one process that recover at once share the name of that file, which is not modelled.
- A file is read in one instant: a copy of the recovery file sees it before, during (as malformed text) or after a write to it, never half and half.
- Workload histories contain no crashes of the controller and no other program that creates, removes or regroups workloads; status drift and outdated kubeconfigs may happen at any time. A failed restart or removal changes nothing; a failed start exports its kubeconfig and may leave its container behind. Dry runs only print and are not modelled.
- A workload's spec is one fingerprint for the duration of a run.
- What `list_workloads` and `pgrep` print is parsed elsewhere: listings, and the parent-child snapshot, are given as values.
- The scan of Makefile text for assignments: an assigned value is given as its pieces, text and references.
- The wording of the cross-field messages, their places and their order: of that phase it is stated exactly when something is reported and when a read raises.
- CrossFieldRunsExactly: takes the shape of the default values for granted (`ValuesLaws.Shaped`: statuses are strings, models are mappings, the agent defaults a mapping with mappings where they are read); the repository's own have it, as far as the reads go. Keys that are not strings, which would also make sorting unknown keys raise, are outside the model.
- `\d` in list indices matches ASCII digits only.
- The cerbos shim, the image patches, the chart render checks, the terminal interface and the remaining scripts are not part of this model.
