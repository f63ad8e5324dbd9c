# Verification of the Onyxia backend

This project models six parts of the Onyxia backend in Dafny and proves properties of them that hold
for every input, every run or every interleaving. `dafny verify dfyconfig.toml` checks all of it.

Code that changes state step by step is modelled by classes and methods with loops; each is proved
against a specification on values, and the promises of the program are lemmas about that specification.

**Replay detection** (`JtiCache`, `Oidc`, `Replay`). The cache of DPoP proof identifiers forgets entries
after six minutes. It is proved to answer exactly as a log that never forgets would, over every sequence
of calls and whatever order the map is iterated in. Requests are listed in the order in which they hold
the cache's lock; each reads the clock three times (for the time window, for the eviction, for the
insertion), and how long it queues between the first and the second reading is not bounded. Over every
such run, accepting one proof twice takes a request that queued for longer than a stated slack; with no
queueing it never happens; and six minutes is the shortest lifetime for which that holds.

**Routing** (`Router`, `Client`). The specification is the six path templates of the OpenAPI document,
matched segment by segment. The generated trie, with its restored and not restored positions, is proved to
agree with it on every path but two. The URLs that the generated client builds are proved to be
taken apart into the same operation and parameters.

**The Onyxia secret** (`SecretGateway`). The API server is a versioned map with a history of its states.
Between any two requests of a call other clients may do anything an API server allows, and any request may
fail before or after it took effect. Every step of the gateway is proved to be one of a few allowed steps;
safety is proved for every interleaving of such steps, and progress in terms of how often others wrote the
secret.

**Onboarding** (`MergePatch`, `NamespaceService`, `Onboarding`, `Convergence`). Namespaces and quotas are
reconciled by create, JSON merge patch (section 2 of RFC 7396), get and update. Any request may fail before or
after it took effect. Proved over every run of onboardings by any users in any order: what never disappears, what stands in the end, when
nothing more is written, and that writing every user's annotations into the one configured map does not leak
into the annotations of later users who bring attributes.

**The JSON codec** (`RequiredFields`, `JsonFields`, `InstallRequestCodec`, `ProblemCodec`, `CatalogCodec`).
A JSON object is a sequence of keys and values, in which keys may repeat. Round trips hold under every order in
which Go iterates a map; the bit loop that finds missing fields is proved to name exactly those.

**Catalogs and versions** (`VersionFilter`, `CatalogConfig`, `Packages`, `CatalogService`). From the
validation of the configuration to the version that gets installed: what is listed can be got, and what is
advertised can be resolved.

`Common` holds the option and result types and the string searches that several parts share.

## Where the code departs from what is promised

Each of these is proved, with the exact condition:

- A `PUT` to `/api/services/events/install` or `/api/services/schemas/install` matches the template
  `/api/services/{releaseId}/install` of the OpenAPI document, but is answered with "not found", because two
  branches of the trie leave the switch before they restore the rest of the path (`Router.RouterDeviation`). So
  releases named `events` or `schemas` cannot be installed (`Router.PrintThenRoute`).
- A proof can be replayed if the second request waits long enough between its time check and the cache's lock
  (`Replay.StalledReplay`; exactly when, in any run: `Replay.SecondAcceptanceExactly`).
- A quota without any amounts does not clear the limits that are stored (`Convergence.LimitNotCleared`,
  `Convergence.EnforcedExactly`).
- Nil labels, patched onto a namespace, remove its labels (`Convergence.LabelsDropped`, `Convergence.KeptExactly`).
- A request without an attribute map would get the attributes of the last user who had one
  (`Onboarding.WhatRemains`, `Onboarding.AlwaysIndependentExactly`). Both authenticators of the program always
  supply a map (internal/auth/oidc/oidc.go:172-177, internal/auth/noauth/noauth.go:21-28,
  internal/usercontext/context_impl.go:53-58), so this does not come up.
- A user and a group can be given the same namespace when one configured prefix extends the other
  (`Onboarding.SharedNamespaceExactly`).
- An additional member of a problem that uses the name of a fixed field does not survive a round trip
  (`ProblemCodec.TitleTaken`, `ProblemCodec.RoundTripExactly`).
- Excluded packages are not listed, but can still be got and resolved (`Packages.ExcludedButGot`), and the version
  filters do not apply to OCI catalogs (`Packages.AdvertisedResolves`).
- Packages of OCI catalogs are listed without the description, home and icon that getting them adds from the charts
  (`Packages.ListedWithoutDescription`, `Packages.ListedExactly`).
- The comment of `matchHTU` cites RFC 3986; section 4.3 of RFC 9449 asks for the URI to be compared without its
  query, the code compares the query too. The model does what the code does (`Oidc.MatchHtu`).

## Model

| member | source | states |
|---|---|---|
| JtiCache.JTICache.constructor | internal/auth/oidc/dpop/jti.go:15-17 | the cache starts empty |
| JtiCache.JTICache.Evict | internal/auth/oidc/dpop/jti.go:33-40 | exactly the entries whose expiry has not passed remain, unchanged, whatever the iteration order |
| JtiCache.JTICache.Seen | internal/auth/oidc/dpop/jti.go:21-30 | true exactly when the unbounded log remembers the identifier; new map and log; a hit extends no expiry |
| JtiCache.LookRefinesRecord | internal/auth/oidc/dpop/jti.go:21-40 | one call on the map answers as the log does and keeps the map equal to the part of the log that counts, at every later time |
| JtiCache.MapRefinesLog | internal/auth/oidc/dpop/jti.go:21-40 | after every run the map is exactly the unexpired part of the log |
| JtiCache.SeenRefinesLog | internal/auth/oidc/dpop/jti.go:21-30 | after every run, the map's answer is the log's |
| JtiCache.SeenExactly | internal/auth/oidc/dpop/jti.go:21-30 | "seen" exactly when an earlier call inserted that identifier and its lifetime has not passed, both boundaries included |
| JtiCache.LogEntries | internal/auth/oidc/dpop/jti.go:25-29 | after any number of calls the log holds an entry exactly when some call was answered "new" and inserted it |
| JtiCache.SizeBound | internal/auth/oidc/dpop/jti.go:21-40 | the map is never larger than the number of new identifiers that still count |
| Oidc.FindAuthorization | internal/auth/oidc/dpop/request.go:10-23 | none exactly when no line uses the scheme; otherwise the credentials of the first line that does |
| Oidc.SchemeExactly | internal/auth/oidc/dpop/request.go:10-23 | a line uses a scheme exactly when it is a name that folds to it, a space, and the credentials |
| Oidc.VerifyProof | internal/auth/oidc/dpop/verify.go:35-113 | success exactly when all checks pass and the identifier is new, and then method, scheme, host, path and query of the request are those claimed and the time is from 60 seconds before to 5 minutes after `iat`; rejections before the lookup leave the cache alone, later ones have consumed the identifier |
| Oidc.OneProofOneRequest | internal/auth/oidc/dpop/verify.go:117-133 | a proof admissible for one request is admissible for another at that time if and only if method, scheme and host fold to the same and path and query are identical |
| Oidc.AdmissibleExactly | internal/auth/oidc/dpop/verify.go:52-94 | the checks before the lookup, in the parsed fields of both URLs and in seconds |
| Oidc.Auth.ValidateAudience | internal/auth/oidc/oidc.go:230-269 | accepts exactly the audience claims that contain the audience, and no list with a non-string |
| Oidc.AudienceExactly | internal/auth/oidc/oidc.go:230-269 | for each form of the claim, which audiences are accepted |
| Oidc.Auth.ExtractStringArray | internal/auth/oidc/oidc.go:285-313 | all strings of the claim in order, or nothing if one item is not a string |
| Oidc.Auth.VerifyToken | internal/auth/oidc/oidc.go:130-187 | which tokens are accepted, and the user: name, groups, roles, the remaining claims as attributes, the bound key |
| Oidc.CnfJktExactly | internal/auth/oidc/oidc.go:315-325 | the bound key is the string at "cnf", "jkt", where there is one |
| Oidc.Auth.VerifyRequest | internal/auth/oidc/oidc.go:76-120 | which requests are accepted, as whom, and exactly when the cache changes and how |
| Oidc.Auth.CheckProof | internal/auth/oidc/oidc.go:201-228 | no error exactly when the proof is admissible, not replayed, bound to this token and to the expected key |
| Replay.AcceptedBoundRequest | internal/auth/oidc/oidc.go:76-120 | a bound token is accepted only under the DPoP scheme, with a proof by its key that describes this request field by field and names this token, whose identifier this request recorded for 360 seconds |
| Replay.IdentifierConsumed | internal/auth/oidc/dpop/verify.go:92-107 | a request changes the log exactly when it reaches the lookup with a new identifier, accepted or not; unbound tokens never do |
| Replay.RecordedIsRefused | internal/auth/oidc/dpop/jti.go:21-30 | once recorded, an identifier is refused to everyone who holds the lock within its lifetime |
| Replay.ReplayedExactly | internal/auth/oidc/dpop/jti.go:21-30 | in every run, a request is refused as a replay if and only if an earlier one recorded its identifier, accepted or not, and the lifetime has not passed |
| Replay.ReplayNeedsStall | internal/auth/oidc/dpop/verify.go:81-97 | in every run, two acceptances of one proof imply that the second queued longer than the first's delay plus its distance to the end of the skew allowance |
| Replay.NeverAcceptedTwice | internal/auth/oidc/dpop/verify.go:81-97 | in every run without queueing no proof is accepted twice |
| Replay.SecondAcceptanceExactly | internal/auth/oidc/dpop/verify.go:81-97 | in every run, a proof accepted once and not recorded since is accepted again if and only if the request queued longer than the skew and age left over |
| Replay.StalledReplay | internal/auth/oidc/dpop/verify.go:81-97 | a concrete run in which one proof is accepted twice |
| Replay.TtlIsTight | internal/auth/oidc/dpop/verify.go:16-20 | whenever a proof was issued, with coinciding clock readings a lifetime is replay-safe if and only if it is at least the age limit plus the skew |
| Router.Walk | services/api/oas/oas_router_gen.go:67-392 | the trie with its in-place position, arguments and skipped restores reaches the leaf and arguments of the templates read by position |
| Router.Catalogs | services/api/oas/oas_router_gen.go:85-171 | the branch under "catalogs" either reaches its leaf or restores the position |
| Router.Events | services/api/oas/oas_router_gen.go:172-263 | the branch under "events/", including the break that restores nothing |
| Router.Schemas | services/api/oas/oas_router_gen.go:264-348 | the branch under "schemas/", including the break that restores nothing |
| Router.Server.CutPrefix | services/api/oas/oas_router_gen.go:34-45 | cuts the prefix off exactly the paths that start with it |
| Router.Server.ServeHTTP | services/api/oas/oas_router_gen.go:49-395 | for every path and method: an operation is handled if and only if the path matches its template, is not shadowed, and the method is PUT for the installation and GET for the others; "not allowed" names that method; the parameters are those of the template |
| Router.Server.FindPath | services/api/oas/oas_router_gen.go:448-787 | finds exactly the operations and parameters that ServeHTTP handles |
| Router.RouterDeviation | services/api/oas/oas_router_gen.go:189-191 | router and OpenAPI document agree on a path if and only if it is not one of the two shadowed ones, on which a documented PUT is not found |
| Router.RoutedExactly | services/openapi.yaml:20-231 | what the specification answers, with the methods spelled out |
| Router.ReachIsRouted | services/openapi.yaml:20-231 | reading by position gives what the templates give, on every path and method |
| Router.AtMostOneTemplate | services/openapi.yaml:20-231 | no path matches two templates |
| Router.FindIsLookup | services/openapi.yaml:20-231 | the literals and slashes the trie compares decide exactly the segment-wise match |
| Router.PrintIsFound | services/openapi.yaml:20-231 | a template filled with slash-free parameters, empty ones included, matches that template with those parameters |
| Router.PrintThenRoute | services/api/oas/oas_router_gen.go:49-395 | a filled template, requested with PUT for the installation and GET for the others, is routed back to its operation and parameters if and only if it is not an install of "events" or "schemas" |
| Router.SplitJoin | services/openapi.yaml:20-231 | joining segments and splitting the path gives the segments back |
| Router.JoinSplit | services/openapi.yaml:20-231 | splitting a path and joining the segments gives the path back |
| Client.PartsSpellTemplate | services/api/oas/oas_client_gen.go:269-310 | the parts concatenate to the template with its parameters filled in, for every operation |
| Client.ApiClient.SendGetMyCatalogs | services/api/oas/oas_client_gen.go:161-165 | the URL path is the base and the filled template |
| Client.ApiClient.SendGetMyPackage | services/api/oas/oas_client_gen.go:269-310 | the URL path is the base and the filled template, with encoded parameters |
| Client.ApiClient.SendGetPackageSchema | services/api/oas/oas_client_gen.go:414-474 | the URL path is the base and the filled template, with encoded parameters |
| Client.ApiClient.SendInstallService | services/api/oas/oas_client_gen.go:578-601 | the URL path is the base and the filled template, with the encoded parameter |
| Client.ApiClient.SendWatchRelease | services/api/oas/oas_client_gen.go:724-747 | the URL path is the base and the filled template, with the encoded parameter |
| Client.ApiClient.SendWatchResources | services/api/oas/oas_client_gen.go:869-892 | the URL path is the base and the filled template, with the encoded parameter |
| Client.ClientThenServer | services/api/oas/oas_client_gen.go:578-601 | a server with the client's base routes every such URL back to the operation and parameters, but for installs of "events" and "schemas" |
| SecretGateway.SecretNames | services/adapters/k8s/onyxia_secret_gateway.go:15-20 | the name is the prefix and the release; names are equal if and only if the releases are |
| SecretGateway.WriteBack | services/adapters/k8s/onyxia_secret_gateway.go:62-76 | an update under the version read succeeds exactly if the secret is still as read, and then changes type and data alone |
| SecretGateway.CreateSecret | services/adapters/k8s/onyxia_secret_gateway.go:44-59 | creation stores the data or reports that the secret exists; its steps are allowed ones |
| SecretGateway.UpdateRead | services/adapters/k8s/onyxia_secret_gateway.go:72-76 | the compare-and-swap fails with a conflict only if others wrote in between |
| SecretGateway.WriteOnce | services/adapters/k8s/onyxia_secret_gateway.go:61-77 | one retry: written, or a conflict that costs others a write, in two requests |
| SecretGateway.EnsureOnyxiaSecret | services/adapters/k8s/onyxia_secret_gateway.go:32-78 | every own step is an allowed one and leaves every other secret as it was; nil means that the secret named with the prefix and the release held the data; nil is certain with fewer disturbances than attempts; at most three requests undisturbed |
| SecretGateway.DeleteOnyxiaSecret | services/adapters/k8s/onyxia_secret_gateway.go:80-91 | the secret named with the prefix and the release is gone on success, an absent one included; every other secret is left as it was |
| SecretGateway.ReadOnyxiaSecretData | services/adapters/k8s/onyxia_secret_gateway.go:93-109 | the data at one instant, no data as empty data, an absent secret as an error; writes nothing |
| SecretGateway.EnsureThenRead | services/adapters/k8s/onyxia_secret_gateway.go:32-109 | undisturbed, reading after ensuring gives the data ensured |
| SecretGateway.OwnStepsKeepOthers | services/adapters/k8s/onyxia_secret_gateway.go:32-91 | in every run, no own step of ensuring or deleting changes any secret but that of the release |
| SecretGateway.OtherReleasesUnaffected | services/adapters/k8s/onyxia_secret_gateway.go:93-109 | in every run, another release of the namespace reads the same before and after each own step |
| SecretGateway.UndisturbedExactly | services/adapters/k8s/onyxia_secret_gateway.go:61-77 | no disturbance is counted if and only if others left the secret alone between any two requests |
| SecretGateway.StepsInterfereAsAllowed | services/adapters/k8s/onyxia_secret_gateway.go:32-91 | what a step does to other calls is no more than they allow for, and no other secret is touched |
| SecretGateway.SecretSafety | services/adapters/k8s/onyxia_secret_gateway.go:32-91 | in every state of every interleaving the secret is absent, as in the beginning, or of the Onyxia type with the data of one single call |
| SecretGateway.MetadataKept | services/adapters/k8s/onyxia_secret_gateway.go:72-76 | without removals, everything else a secret carries is kept through every interleaving |
| MergePatch.MergeIdempotent | onboarding/adapter/kubernetes/namespace_service.go:50-72 | applying a merge patch again changes nothing |
| MergePatch.MergeStrings | onboarding/adapter/kubernetes/namespace_service.go:50-72 | patching strings with strings overlays them |
| NamespaceService.PatchOverlays | onboarding/adapter/kubernetes/namespace_service.go:50-72 | the patch overlays annotations and labels; nil labels, encoded as null, remove all labels |
| NamespaceService.CreateNamespace | onboarding/adapter/kubernetes/namespace_service.go:31-90 | each result with the state it leaves: created, exists without change, patched; an error after nothing or after the write it attempted |
| NamespaceService.ApplyResourceQuotas | onboarding/adapter/kubernetes/namespace_service.go:92-161 | each result with the state it leaves; after a success that is not "ignored", unless no amount is configured, each of the ten resources is limited to the amount configured for it and nothing else is limited |
| NamespaceService.ApplyLimits | onboarding/adapter/kubernetes/namespace_service.go:105-160 | created, updated with annotations and labels kept, unchanged, ignored; an error after nothing or after the write it attempted |
| NamespaceService.StoredLimits | onboarding/adapter/kubernetes/namespace_service.go:92-161 | what is stored after each success, resource by resource |
| NamespaceService.IgnoredExactly | onboarding/adapter/kubernetes/namespace_service.go:124-127 | which quotas are ignored |
| NamespaceService.QuotasAreDifferent | onboarding/adapter/kubernetes/namespace_service.go:163-176 | comparing sizes and one direction decides equality of the limits by amount |
| NamespaceService.ConvertQuotaToResourceMap | onboarding/adapter/kubernetes/namespace_service.go:178-205 | the parsed amounts of the configured entries, whatever the order; fails exactly if one does not parse |
| NamespaceService.EntriesOf | onboarding/adapter/kubernetes/namespace_service.go:179-190 | the ten resources, and which field of the quota each is entered from |
| NamespaceService.ConvertedLimits | onboarding/adapter/kubernetes/namespace_service.go:178-205 | which field of the quota becomes the limit of which resource: there if and only if the field is not empty, and as parsed |
| Onboarding.Usecase.GetNamespaceAnnotations | onboarding/usecase/namespace.go:42-64 | nil when disabled; the static map itself when there is one; with attributes, the original static annotations overlaid by timestamp and attributes, whoever came before |
| Onboarding.StringMap.Annotate | onboarding/usecase/namespace.go:54-62 | the writes through the shared reference are an overlay |
| Onboarding.AnnotatedExactly | onboarding/usecase/namespace.go:54-62 | key by key: the user's value or "<nil>", else the time, else as it was |
| Onboarding.WhatRemains | onboarding/usecase/namespace.go:49-63 | of all earlier visits, a visit sees the attributes of the last that brought any, and nothing else |
| Onboarding.HistoryIndependent | onboarding/usecase/namespace.go:49-63 | a visit with attributes gets what it would have got first |
| Onboarding.AlwaysIndependentExactly | onboarding/usecase/namespace.go:49-63 | all visits are independent if and only if no attribute is configured but one the timestamp overwrites |
| Onboarding.FirstRole | onboarding/usecase/quota.go:91-99 | the quota of the first role, in the user's order, that has one |
| Onboarding.Usecase.GetUserQuota | onboarding/usecase/quota.go:86-112 | the first role's quota, else the users' or the default one |
| Onboarding.Usecase.GetQuota | onboarding/usecase/quota.go:60-84 | groups and users are given their own kind of quota |
| Onboarding.SelectedExactly | onboarding/usecase/quota.go:60-112 | which of the configured quotas is chosen, case by case |
| Onboarding.Usecase.ApplyQuotas | onboarding/usecase/quota.go:12-58 | nothing when disabled; otherwise the chosen quota is applied |
| Onboarding.Usecase.Reconcile | onboarding/usecase/onboarding.go:33-45 | the quota is applied only after the namespace; which errors are returned |
| Onboarding.Usecase.Onboard | onboarding/usecase/onboarding.go:33-45 | what each onboarding asks for and does, appended to the run: the namespace by prefix and name, the annotations, and what limits the chosen quota leaves stored |
| Onboarding.SharedNamespaceExactly | onboarding/usecase/onboarding.go:47-52 | a named user and a named group can share a namespace if and only if one prefix extends the other |
| Convergence.KeptExactly | onboarding/adapter/kubernetes/namespace_service.go:39-89 | no annotation disappears; labels do if and only if nil labels are patched onto some, always on success, and on an error if the patch took effect |
| Convergence.LabelsDropped | onboarding/adapter/kubernetes/namespace_service.go:50-72 | a concrete namespace that loses its labels |
| Convergence.NothingDisappears | onboarding/adapter/kubernetes/namespace_service.go:39-89 | over every run no annotation disappears, and with non-nil labels no label |
| Convergence.WrittenAsRequested | onboarding/adapter/kubernetes/namespace_service.go:39-89 | after "created", "updated" or an error that changed the namespace, every requested annotation and label has its value |
| Convergence.LastAnnotationStands | onboarding/adapter/kubernetes/namespace_service.go:39-89 | over every run an annotation keeps the value of the last onboarding that wrote it, reported as an error or not |
| Convergence.ConfiguredLabelsStand | onboarding/adapter/kubernetes/namespace_service.go:39-89 | over every run the configured labels stay once written, reported as an error or not |
| Convergence.NamespaceRepeats | onboarding/adapter/kubernetes/namespace_service.go:31-90 | asking for the same namespace again changes nothing |
| Convergence.EnforcedExactly | onboarding/adapter/kubernetes/namespace_service.go:92-161 | after success the limits are enforced if and only if they were before, or there are some and the quota is not ignored |
| Convergence.LimitNotCleared | onboarding/adapter/kubernetes/namespace_service.go:105-108 | a concrete limit that a quota without amounts leaves in place |
| Convergence.Converges | onboarding/adapter/kubernetes/namespace_service.go:92-161 | over every run, after one application of the limits, even one that reported an error, no onboarding with the same limits writes that namespace's quota again; it reports unchanged or ignored |
| Convergence.QuotasKept | onboarding/adapter/kubernetes/namespace_service.go:110-129 | over every run quotas keep their annotations and labels, and ignored ones do not change at all |
| Convergence.RepeatsChangeNothing | onboarding/usecase/onboarding.go:33-45 | after one success, any number of the same onboardings leave the state as it is |
| RequiredFields.TakeLowest | services/api/oas/oas_json_gen.go:2092-2108 | clearing the lowest bit lowers the count by one and takes off exactly the first name, its index in range |
| RequiredFields.TakeNames | services/api/oas/oas_json_gen.go:2092-2108 | the loop ends with no bit left and has named each bit once, ascending |
| RequiredFields.MissedNames | services/api/oas/oas_json_gen.go:2083-2111 | the bits left by mask and exclusive or are those of the required names that no key set, for any sequence of keys |
| RequiredFields.MissingFields | services/api/oas/oas_json_gen.go:2083-2114 | the failures are the names of the bits required and not seen |
| RequiredFields.AbsentExactly | services/api/oas/oas_json_gen.go:2083-2114 | a name is reported exactly when it is required and no key has it |
| RequiredFields.AbsentOnce | services/api/oas/oas_json_gen.go:2083-2114 | no name is reported twice |
| JsonFields.EncodeRaws | services/api/oas/oas_json_gen.go:2140-2148 | every entry is written once, in whatever order the map is iterated |
| JsonFields.DecodeRaws | services/api/oas/oas_json_gen.go:2151-2175 | entries are added to those already there; a malformed value fails the whole |
| JsonFields.GatherLists | services/api/oas/oas_json_gen.go:2133-2175 | under every order of writing, the map is read back, unless a value is malformed |
| JsonFields.EmptyIsMalformed | services/api/oas/oas_json_gen.go:2141-2146 | a key written without a value is malformed, and so is an object with one |
| JsonFields.GatheredAt | services/api/oas/oas_json_gen.go:2151-2175 | key by key, what is read last is what is there, over what was there before |
| InstallRequestCodec.ServiceInstallRequest.Encode | services/api/oas/oas_json_gen.go:1919-1967 | writes one of the documents of the request |
| InstallRequestCodec.ServiceInstallRequest.DecodeField | services/api/oas/oas_json_gen.go:1990-2078 | what each key sets, and when it fails |
| InstallRequestCodec.ServiceInstallRequest.Decode | services/api/oas/oas_json_gen.go:1981-2117 | the fields read in order over the defaults; the error, malformed or the names missing in ascending order |
| InstallRequestCodec.DecodedByName | services/api/oas/oas_json_gen.go:1990-2078 | each field read is the last value under its name, share false without one, and the options the last values in any of the objects under "options" |
| InstallRequestCodec.FieldsTable | services/api/oas/oas_json_gen.go:1970-2088 | the bits set per key, the mask and the table of names fit together |
| InstallRequestCodec.RequiredExactly | services/api/oas/oas_json_gen.go:2083-2114 | with decodable values, decoding fails exactly when a required name is missing, and reports exactly those, once each |
| InstallRequestCodec.RoundTripExactly | services/api/oas/oas_json_gen.go:1919-2117 | under every order of the options a request reads back as its normal form (share false when unset, options empty when nil), unless an option is malformed |
| InstallRequestCodec.DecodeEncodeDecode | services/api/oas/oas_json_gen.go:1919-2117 | what any document decodes to is read back the same after encoding |
| ProblemCodec.ProblemObject.Encode | services/api/oas/oas_json_gen.go:1711-1756 | writes one of the documents of the problem |
| ProblemCodec.ProblemObject.Decode | services/api/oas/oas_json_gen.go:1767-1845 | the fields read in order, additional members dropped first |
| ProblemCodec.DecodedByName | services/api/oas/oas_json_gen.go:1773-1840 | each of the five fields is the last value under its name, and the additional members are the last values under all other names |
| ProblemCodec.RoundTripExactly | services/api/oas/oas_json_gen.go:1711-1845 | a problem reads back as its normal form if and only if its URI does and its additional members are well-formed and avoid the five names |
| ProblemCodec.TitleTaken | services/api/oas/oas_json_gen.go:1750-1756 | a concrete problem that does not survive: its additional member is read as the title |
| ProblemCodec.DecodeEncodeDecode | services/api/oas/oas_json_gen.go:1711-1845 | what any document decodes to is read back the same after encoding, if its URI is |
| CatalogCodec.Decode | services/api/oas/oas_json_gen.go:81-219 | for any sequence of keys and values: malformed exactly when a value does not decode, otherwise exactly the required keys that never occur, in order |
| CatalogCodec.RequiredExactly | services/api/oas/oas_json_gen.go:185-216 | a name is reported if and only if it is required and no key has it, once |
| VersionFilter.ComponentsExactly | services/adapters/helm/version_filter.go:32-37 | the components are the two dot-free strings a version is spelled with, with or without a third part; there are none if and only if it has no dot |
| VersionFilter.MinorInjective | services/adapters/helm/version_filter.go:32-37 | two versions share a key if and only if their first two components are the same |
| VersionFilter.SkipPatches | services/adapters/helm/version_filter.go:28-45 | the loop over the set of keys keeps exactly the versions that are first of their class or have none |
| VersionFilter.FirstsExactly | services/adapters/helm/version_filter.go:28-45 | the positions kept are ascending, and exactly those with no earlier version of the same class |
| VersionFilter.KeptExactly | services/adapters/helm/version_filter.go:28-45 | of all versions spelled with one major and minor the first is kept and no other; every version without a dot is kept |
| VersionFilter.SkippedKeepsClasses | services/adapters/helm/version_filter.go:28-45 | no class is lost |
| VersionFilter.SkippedOncePerClass | services/adapters/helm/version_filter.go:28-45 | no class is kept twice |
| VersionFilter.SkipIdempotent | services/adapters/helm/version_filter.go:28-45 | skipping again changes nothing |
| VersionFilter.SkippedKeepsNewest | services/adapters/helm/version_filter.go:28-45 | on a newest-first list each kept version is newer than all others of its class |
| VersionFilter.KeptIncreasing | services/adapters/helm/version_filter.go:19-52 | every filter keeps a subsequence |
| VersionFilter.NewestKept | services/adapters/helm/version_filter.go:19-52 | every filter keeps the newest version, unless asked for none |
| VersionFilter.Apply | services/adapters/helm/version_filter.go:19-52 | the versions kept by each filter; the slice is out of range exactly for a negative number |
| CatalogConfig.ValidateCommon | services/bootstrap/env/validate.go:51-108 | accepts exactly the valid combinations of status, mode, number, id, name and restrictions |
| CatalogConfig.ValidateOci | services/bootstrap/env/validate.go:110-120 | accepts exactly non-empty lists of named packages |
| CatalogConfig.ValidateCatalogConfig | services/bootstrap/env/validate.go:24-49 | accepts exactly the valid configurations |
| CatalogConfig.ValidateCatalogsConfig | services/bootstrap/env/validate.go:10-22 | succeeds if and only if all are valid and the ids are distinct; otherwise reports the first at fault |
| CatalogConfig.FindCatalog | services/usecase/catalog.go:107-114 | the first configuration with the id |
| CatalogConfig.FirstByIdExactly | services/usecase/catalog.go:107-114 | none exactly when no configuration has the id |
| CatalogConfig.ByIdExactly | services/adapters/helm/package_repository.go:43-55 | the map has exactly the ids of the configurations, each with the last configuration of that id |
| CatalogConfig.SameById | services/usecase/catalog.go:107-114 | with distinct ids the first-wins scan and the last-wins map agree on every id |
| Packages.NewPackageRepository | services/adapters/helm/package_repository.go:33-86 | succeeds exactly when every Helm catalog has a filter and a usable location; the maps it fills |
| Packages.HelmHasRepo | services/adapters/helm/package_repository.go:46-79 | every Helm catalog has a chart repository at its location |
| Packages.ExtractVersions | services/adapters/helm/package_repository.go:419-427 | the non-empty versions of the charts that are not nil, in order |
| Packages.OfferedExactly | services/adapters/helm/package_repository.go:419-427 | which versions are extracted |
| Packages.Repository.ListPackages | services/adapters/helm/package_repository.go:88-104 | for every kind of catalog, the listing or the error |
| Packages.Repository.ListHelmPackages | services/adapters/helm/package_repository.go:194-224 | every chart that is shown, once, described by its latest version, in whatever order; an error only for a nil chart or a cancelled request |
| Packages.IsExcluded | services/adapters/helm/package_repository.go:429-436 | excluded if and only if listed as such |
| Packages.Repository.ListOciPackages | services/adapters/helm/package_repository.go:312-327 | the configured packages that are not excluded, in order |
| Packages.OciListingExactly | services/adapters/helm/package_repository.go:312-327 | which packages an OCI catalog lists |
| Packages.NilListsNothing | services/adapters/helm/package_repository.go:312-344 | an OCI catalog with nil packages lists none and none can be got |
| Packages.Repository.GetPackage | services/adapters/helm/package_repository.go:106-123 | for every kind of catalog, the package or the error |
| Packages.Repository.GetHelmPackage | services/adapters/helm/package_repository.go:226-258 | the latest description and the filtered versions, or why not |
| Packages.Repository.GetOciPackage | services/adapters/helm/package_repository.go:329-375 | the first configured package of the name with its versions, described by the charts pulled |
| Packages.Repository.DescribePackage | services/adapters/helm/package_repository.go:355-372 | the loop over the versions leaves the description, home and icon of the last described chart that could be pulled |
| Packages.ReferenceExactly | services/adapters/helm/package_repository.go:346-356 | location and name with one slash between, whether or not either brings one |
| Packages.EnrichedExactly | services/adapters/helm/package_repository.go:346-372 | pulled charts never change id and name, and change the rest if and only if one has a description |
| Packages.Repository.ResolvePackage | services/adapters/helm/package_repository.go:125-174 | the version asked for with its location, or why not |
| Packages.Repository.ResolveOciPackage | services/adapters/helm/package_repository.go:377-406 | the version among those of the first package of the name |
| Packages.ListedExactly | services/adapters/helm/package_repository.go:194-258 | listed if and only if it can be got and is not excluded; getting it gives the listed id and name, and the listed package if and only if the catalog is a Helm one or no chart that can be pulled has a description |
| Packages.ExcludedButGot | services/adapters/helm/package_repository.go:312-353 | a concrete excluded package that can be got |
| Packages.ListedWithoutDescription | services/adapters/helm/package_repository.go:312-375 | a concrete package that is got with a description it is not listed with |
| Packages.ResolvesExactly | services/adapters/helm/package_repository.go:125-174 | resolves if and only if the catalog has the version, to exactly what was asked for |
| Packages.AdvertisedResolves | services/adapters/helm/package_repository.go:226-258 | every advertised version resolves under every filter; unfiltered, every named version that resolves is advertised |
| Packages.AdvertisedByMode | services/adapters/helm/version_filter.go:54-67 | what each mode advertises of the versions offered: all, the first, the first of each minor version, or as many as configured |
| CatalogService.Service.GetPackage | services/usecase/catalog.go:116-139 | what the repository gets for a configured id, unknown otherwise |
| CatalogService.Service.BuildCatalogs | services/usecase/catalog.go:141-178 | the included configurations in order, each with its names, highlights and listing, or the error of one listing |
| CatalogService.IncludedExactly | services/usecase/catalog.go:147-150 | the included configurations are exactly the configured ones that the predicate admits |
| CatalogService.ValidNeverPanics | services/adapters/helm/package_repository.go:411-417 | under a validated configuration the filter exists and its slice is in range |
| CatalogService.ShownIsInstallable | services/usecase/catalog.go:141-178 | under a validated configuration every package shown can be got by its id and name, as shown but for the descriptions of pulled OCI charts, and every version advertised for it resolves |

## Left out

- Oidc.VerifyProof: parsing and signatures of JWTs, key thumbprints, hashing, URL parsing and Unicode case folding are functions supplied from outside; times are integers, so Go's saturation for an `iat` centuries away is not modelled.
- Oidc.Auth.VerifyRequest: the context that carries the user, logging and error texts are not modelled; errors are told apart by kind.
- Router.Server.ServeHTTP: escaped paths are not modelled (percent-decoding of parameters, `NormalizeEscapedPath`); handlers, operation names, path patterns and allowed headers neither.
- Router.Walk: models both copies of the trie, which differ only in what they do at a leaf; the remaining path is kept as a position, not as a slice.
- Client.ClientThenServer: the path encoder is any function whose results contain no slash; that the server's decoding inverts it is not modelled, and joining the base URL is concatenation.
- SecretGateway.EnsureOnyxiaSecret: backoff times of the retry are not modelled, only their number; that a server refuses to change the type of a secret shows up as a request that failed.
- SecretGateway.SecretSafety: a call is a sequence of atomic steps on one secret; that each step of the methods is one is their contract.
- NamespaceService.CreateNamespace: no other writer works on namespaces and quotas; a namespace deleted between create and patch, version conflicts on quotas, and defaults set by the server are not modelled.
- NamespaceService.ConvertQuotaToResourceMap: the syntax of quantities is a function supplied from outside.
- Onboarding.Usecase.GetNamespaceAnnotations: calls run one at a time; concurrent writes to the shared map are a data race that is not modelled. Attributes are held as printed.
- InstallRequestCodec.ServiceInstallRequest.Decode: JSON text is not modelled, only objects as sequences of keys and values; what is left in the object after an error is not stated.
- ProblemCodec.ProblemObject.Decode: printing and parsing of URIs are functions supplied from outside.
- RequiredFields.MissingFields: a missing field beyond the table of names would be reported by number; the masks of the program have none, which is required here.
- CatalogCodec.Decode: what the values of a catalog decode to is not modelled; of which values decoding works is a predicate supplied from outside.
- Packages.Repository.GetOciPackage: pulling a chart is a function supplied from outside, of the catalog, the reference and the version; it does not change between calls.
- Packages.NewPackageRepository: of which locations a chart repository can be made is a predicate supplied from outside; credentials and cache paths are not modelled.
- Packages.Repository.ListHelmPackages: downloaded indexes do not change between calls; home and icon are kept as text.
- CatalogConfig.ValidateCommon: trimming space and compiling regular expressions are functions supplied from outside.
- CatalogService.Service.BuildCatalogs: which catalogs a user may see is a predicate supplied from outside.
- `GetPackageSchema` is not implemented in the program.
- The remaining codecs, getters and setters, HTTP handlers, middleware, configuration loading, logging, tracing and the installation of charts would add only easy members or calls into other programs.
