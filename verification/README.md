# Verification of the control plane's protocols and transformations

A Dafny model of the parts of the platform whose correctness is a property of
many steps rather than of one function. Each module follows one component and
takes its form: objects the program updates in place are classes, loops are
loops, pure code is functions, and concurrent code is a system of steps.

| module | component |
|---|---|
| `SettingsPlan`, `SettingsRoundTrip`, `SettingsStores`, `SettingsInterleavings`, `SettingsReads`, `SettingsRows` | a settings PUT: planned, written to the Secret, committed to git, cleaned up; the GET that reads it back; several PUTs at once, PUTs read at any moment, and which rows make that safe |
| `LogStream` | a log stream: containers merged under a mutex, a bounded channel, a done signal, a writer |
| `EvidenceChain`, `EvidenceStore`, `EvidencePruning` | the evidence log: hash chains per Ref and per record, a fenced compare-and-set, pruning, verification from a cursor |
| `Interpolation`, `Templates`, `TemplateSources`, `Siblings`, `Conversion` | the compose converter: references in values, the templates made of them, host rewriting, the conversion itself |
| `CataloguePlan`, `CatalogueInstall`, `InstalledEntry` | the catalogue: planned values, refused images and unknown ports, rendered objects, and what a compose template comes to once installed |
| `RateCounting`, `FixedWindow`, `SlidingWindow`, `Limited`, `LimitReached` | the two rate limiters, the choice between them, and the traffic that gets the most out of it |
| `Rollback` | the paged search for a deploy, over the evidence store |
| `ManifestDirectory` | the directory of manifests, in which omission means deletion |
| `PhcStrings` | password hashes in PHC string format |
| `Common`, `Text` | shared vocabulary: options, results, Go's string operations |

`dafny verify dfyconfig.toml` checks the project.

## What turned out not to hold

Where a promise in a comment is not what the code does, the model keeps the
code, shows an input on which the promise fails, and proves exactly when it
holds.

- Two settings PUTs planned from one commit can leave git naming a key the Secret
  lacks (`SettingsStores.InterleavedPutsBreak`,
  `SettingsInterleavings.RivalRemovalBreaks`). However their steps interleave, git
  names only held keys if and only if no request removes a key another one names
  and, while there is no Secret yet, all that set a value set the same keys
  (`SettingsInterleavings.RequestsHoldIffCompatible`). A PUT read after a rival's
  commit is no safer while the rival's removal is still to come
  (`SettingsReads.LateReaderBreaks`); for requests read at any moment the condition
  is `SettingsReads.HoldsIffFit`, and by the requests' own rows
  `SettingsRows.HoldsIffRowsFit`. Requests accepted wherever they are read are safe
  exactly when each lists every secret any of them names and, with no Secret yet, all
  that name secrets name the same (`SettingsRows.HoldsIffRowsAgree`).
- A default that contains a dollar sign can turn into a reference
  (`Interpolation.DollarInDefaultBecomesAReference`). Minting into a template is
  evaluating its value if and only if no dollar the value spells itself opens a
  placeholder of a generated name (`Templates.MeansTheValueIff`), and it names the
  value's sources exactly as `TemplateSources.SourcesStayIff` says.
- A transition that carries an image or an admission outcome merges it into the
  stored row, and the record's hash covers both, so Verify then refuses the
  record (`EvidenceStore.LearnedImageBreaksVerify`). Verify accepts a log exactly
  when no row has drifted that way (`EvidenceStore.VerifiesIffUndrifted`).
- Verify begins without a predecessor, so a walk from a later cursor, or over a
  log whose oldest row was pruned, is refused
  (`EvidencePruning.LaterCursorsAreRefused`); what it accepts is exactly the
  undrifted beginning of a log (`EvidencePruning.VerifiesIffFromTheStart`).
- Names derived from services can meet (`Siblings.ObjectNamesMeet`). An install
  then loses an object, and a workload is given another's values, exactly as
  `CatalogueInstall.EveryObjectHasItsFileIff` and
  `CatalogueInstall.EachValueOnceIff` say.
- An app may be called what one of its own services became; two files of one
  directory then hold a Workload of that name (`CatalogueInstall.AppsNameIsTaken`).
  The objects of an install differ in kind or name exactly as
  `CatalogueInstall.NamedApartIff` says.
- When the primary service became a Database, the first workload is installed
  under the app's name, but the addresses of its service are rewritten to the name
  derived from the service, and those of the primary are left as compose wrote
  them. Every other repointed address is the name its service is installed under
  (`InstalledEntry.RepointedIsInstalledIff`, `InstalledEntry.PrimaryDatabaseIsLeft`).
- A PostgreSQL name that ends in an underscore is changed
  (`Conversion.IdentifierKeptIff`).
- A secret turned into a literal stays in the cluster Secret
  (`SettingsStores.LiteralLeavesTheSecret`); that is the only thing completed
  requests leave behind (`SettingsStores.ExtraIsWhatWasTurned`).
- A lost create race reports success without writing (`SettingsStores.LostRace`).
- A workload that already carries a negative quantity cannot be put back as it
  was shown (`SettingsRoundTrip.GetThenPut`).
- The Redis window is exact only while no two hits draw the same millisecond and
  nonce (`SlidingWindow.CountIsExactIffNoncesDiffer`); otherwise it admits at most
  its limit and one hit for each repeated draw
  (`SlidingWindow.AtMostTheLimitAndRepeats`).
- A rollback that pages through the deploy log while its cursor is pruned ends in
  an error, not in "no such deploy" (`Rollback.PrunedCursorIsRefused`,
  `Rollback.RecordBySeq`).
- A HEAD request on a read route spends a write bucket
  (`Limited.HeadSpendsAWriteBucket`); a key decides the limit if and only if both
  requests are on one route, metered by address, or under equal limits
  (`Limited.KeyDecidesTheLimitIff`).
- A password hash that decodes need not be one that was printed: blanks, leading
  zeros, what follows the parameters, line breaks in the base64 and anything
  before the first dollar are not refused
  (`PhcStrings.AnythingBeforeTheFirstDollar`, `PhcStrings.ReprintsIffCanonical`).

## Model

| member | source | states |
|---|---|---|
| `FixedWindow.RateLimiter.Check` | app/src/ratelimit.js:30-48 | One hit updates the window map in place to exactly what the specification gives, and the verdict, count, remaining and retryAfter are those of the entry it leaves |
| `FixedWindow.RateLimiter.Sweep` | app/src/ratelimit.js:15-19 | Deleting closed windows in any iteration order leaves exactly the open ones |
| `FixedWindow.SweepingIsInvisible` | app/src/ratelimit.js:15-38 | On every run of a nondecreasing clock the limiter that sweeps above 5000 keys and the one that never sweeps give the same verdict, count, remaining and retryAfter sequence |
| `FixedWindow.LogIsTheVerdicts` | app/src/ratelimit.js:40-47 | The admission log the bounds speak about is what check answers |
| `FixedWindow.AtMostTwiceTheLimit` | app/src/ratelimit.js:30-48 | Any closed interval of windowMs holds at most twice the limit of admitted hits on a key, for every hit sequence, rejected hits included |
| `FixedWindow.TwiceTheLimitIsReached` | app/src/ratelimit.js:35-41 | The factor two is attained, for every limit and every window length |
| `FixedWindow.AtMostTwiceLessOne` | app/src/ratelimit.js:30-48 | A half-open interval of windowMs holds at most one admitted hit less than two limits, and none under a limit of zero |
| `FixedWindow.MostIsReached` | app/src/ratelimit.js:35-41 | That bound is attained too, for every limit of at least one and every window longer than an instant |
| `SlidingWindow.SharedCounter.SlidingWindow` | app/src/redis.js:59-75 | Trim, add, count and expire as one step on the shared set; null when unhealthy or when the reply is lost |
| `SlidingWindow.ExpiryIsInvisible` | app/src/redis.js:62-69 | The counter with pExpire tells every hit the same count as one that never expires |
| `SlidingWindow.CountIsExactIffNoncesDiffer` | app/src/redis.js:64-66 | The count is the number of hits in the window if and only if no two of them drew the same millisecond and nonce |
| `SlidingWindow.AtMostTheLimitAndRepeats` | app/src/redis.js:52-69 | Any half-open interval of windowMs holds at most the limit of admitted hits on a key, rejected hits included, and one more for each hit in it whose member an earlier hit drew |
| `SlidingWindow.AtMostTheLimit` | app/src/redis.js:52-69 | So it holds at most the limit when members are distinct |
| `SlidingWindow.CollidingNonceAdmitsTwice` | app/src/redis.js:65-65 | Without distinct members the bound fails: a concrete run |
| `Limited.Replica.Admit` | app/src/app.js:76-130 | The choice of key, effective limit and backend, with the counters updated in place, equals the specification in both the Redis and the fallback branch |
| `Limited.KeyDecidesTheLimitIff` | app/src/app.js:78-97 | Two requests on one key are under one limit if and only if they are on one route, or metered by address, or the routes' limits are equal |
| `Limited.HeadSpendsAWriteBucket` | app/src/app.js:78-97 | A HEAD on a read route has the key of a write and the read limit |
| `Limited.FleetAllowance` | app/src/app.js:76-117 | Over any interleaving of n replicas and a Redis that comes and goes, one key on one route gets per window at most its limit from Redis, one less than twice its limit from each replica, and as many more as drew a member already drawn |
| `LimitReached.AllowanceIsReached` | app/src/app.js:76-117 | For any number of replicas and any limits, traffic with distinct members that gets all of that |
| `Limited.KeyAllowance` | app/src/app.js:76-117 | Over both routes one key gets per window at most the larger of its two limits from Redis, one less than twice each of them from every replica, and the repeated draws |
| `LimitReached.KeyAllowanceIsReached` | app/src/app.js:76-117 | And all of this, for any limits and any key of requests that are not GET: posts and HEADs share it |
| `EvidenceChain.CanonicalOnce` | evidence/chain.go:55-55 | Canonical is idempotent, so what is read back at store precision hashes to what was written |
| `EvidenceChain.HeadBinds` | evidence/chain.go:98-111 | Equal heads over equally many payloads commit to equal payloads and equal bases, or the proof returns two distinct hash inputs that collide |
| `EvidenceChain.RecordChainBinds` | evidence/chain.go:59-81 | Two chains of equal length and equal last hash agree record for record on every chained field up to Canonical timestamps, or a collision is returned |
| `EvidenceChain.EventChainBinds` | evidence/chain.go:83-96 | The same for a record's event sub-chain, which also commits to the record's own hash and id |
| `EvidenceChain.EventHashBindsTheHistory` | evidence/chain.go:73-111 | One event hash commits to the events before it, its record and every record before that |
| `EvidenceChain.VerifyEvents` | evidence/memory/memory.go:369-379 | Accepts exactly the event lists whose every link re-derives |
| `EvidenceChain.VerifyRows` | evidence/memory/memory.go:359-388 | Over one page up to the end of the range: valid if and only if every row walked re-derives; otherwise the first that does not is named; the root is the head of the record chain as far as the records held |
| `EvidenceStore.MemoryStore.Append` | evidence/memory/memory.go:60-85 | The maps after an append, the duplicate answer and the refusal without a key equal the specification |
| `EvidenceStore.MemoryStore.Move` | evidence/memory/memory.go:87-142 | The row after a transition, the conflict and the not-found answers equal the specification |
| `EvidenceStore.MemoryStore.Prune` | evidence/memory/memory.go:332-352 | The maps and the order lose exactly the rows created before the cutoff that were not found current; the counters and heads stay |
| `EvidenceStore.MemoryStore.History` | evidence/memory/memory.go:188-224 | The page a query asks for: the rows of the Ref, states and times it names, in the order it asks for, behind its cursor, cut at its limit with a cursor when there are more; or an error when the cursor names no record |
| `EvidenceStore.MemoryStore.Verify` | evidence/memory/memory.go:354-388 | A cursor that names no record is an error; otherwise the page after it is walked up to the end of the range |
| `EvidenceStore.VerifyReadsOneRef` | evidence/memory/memory.go:354-363 | The query Verify makes for a whole Ref yields the rows of that Ref after the cursor, the oldest 200 |
| `EvidenceStore.RefIsALog` | evidence/evidence.go:220-243 | After any run each Ref is a log: Seq gapless from one, hashes linked, each event's From the previous To, State the last To, times canonical |
| `EvidenceStore.RunOnlyGrows` | evidence/evidence.go:432-434 | No operation changes a record's own hash or place or takes back an event |
| `EvidenceStore.FenceAdmitsOnlyFreshWrites` | evidence/evidence.go:269-299 | A write fenced on the version read lands if and only if From allows it and nothing was recorded on the record since, whatever other observers did in between |
| `EvidenceStore.FromAloneAdmitsStaleWrites` | evidence/evidence.go:269-299 | A run in which a From-only write lands although two events were appended since its read |
| `EvidenceStore.VerifiesIffUndrifted` | evidence/memory/memory.go:354-388 | Verify accepts the first n rows if and only if none of them has had its image or admission changed since it was appended, up to a returned collision |
| `EvidenceStore.QuietRunsVerify` | evidence/memory/memory.go:354-388 | A run whose transitions carry neither an image nor an admission always verifies, whatever the hash |
| `EvidenceStore.LearnedImageBreaksVerify` | evidence/memory/memory.go:87-142 | One transition that learns another image makes Verify refuse the record it moved, or yields a collision |
| `EvidencePruning.RunIsSound` | evidence/evidence.go:426-434 | Over any run of appends, transitions and prunes, whatever each prune found current, every row is its log entry moved on, in the order of Seq, and the counters and heads are those of the whole log |
| `EvidencePruning.VerifiesIffFromTheStart` | evidence/memory/memory.go:354-388 | After any such run and from any cursor up to any end, Verify accepts what it walked if and only if that is the beginning of the Ref's log, no row missing and none drifted, up to a returned collision |
| `EvidencePruning.VerifiesIffSeqIsTheLength` | evidence/memory/memory.go:354-388 | So a walk that got somewhere is accepted if and only if the Seq of its last row is its length and nothing in it drifted |
| `EvidencePruning.LaterCursorsAreRefused` | evidence/memory/memory.go:354-363 | A walk that begins after a row of the Ref, and finds any, is refused, or yields a collision |
| `LogStream.RunKeepsInv` | server/logs.go:227-299 | Every state of every interleaving of containers, channel, heartbeat, cancellation and writer satisfies the invariant |
| `LogStream.WrittenIsAPrefix` | server/logs.go:227-258 | The written lines are a prefix of the emitted ones, the buffer never exceeds 256, and each container's written lines are a prefix of its own log in order |
| `LogStream.EndMeansEverything` | server/logs.go:269-289 | When an end event is written every emitted line was written in order, its count is exact, and a container that ended cleanly has all of its lines out |
| `LogStream.NeverStuck` | server/logs.go:227-300 | Until the writer has stopped some step other than a heartbeat is enabled |
| `LogStream.StepSpendsWork` | server/logs.go:252-299 | Every step but a successful heartbeat strictly lowers the work left |
| `LogStream.StreamsEnd` | server/logs.go:469-517 | So a run has boundedly many steps besides heartbeats |
| `Interpolation.Sources` | compose/convert.go:831-843 | The loop returns the generated names in order of first appearance with their kinds |
| `Interpolation.SourceNamesAreExact` | compose/convert.go:831-843 | That list has no repeats and holds exactly the generated names the value mentions |
| `Templates.MeansTheValueIff` | compose/convert.go:845-860 | Minting into literalExceptSources(v) is evaluating v with generated names minted and all others at their defaults, whatever is minted, if and only if no dollar the value spells itself opens a bare placeholder |
| `Templates.PassIsIdleIff` | compose/convert.go:852-860 | A pass leaves a text as it is if and only if its only references are bare placeholders of generated names |
| `Templates.SecondPassIff` | compose/convert.go:845-860 | A second pass over a template changes nothing and names the same references one for one if and only if the template has only bare placeholders and none is a stray |
| `Templates.SameSourcesIff` | compose/convert.go:831-860 | A template with only bare placeholders names the value's sources, in the value's order, if and only if every stray names a source named before it or the one whose turn it is |
| `Templates.SameSources` | compose/convert.go:831-860 | So it does without strays |
| `TemplateSources.SourcesStayIff` | compose/convert.go:831-860 | Any template names the value's sources, in the value's order, if and only if every name it is read to hold is a source named before or the one whose turn it is, and none is lost in the default of a reference before it |
| `Templates.CleanValuesKeepThePromise` | compose/convert.go:845-860 | In particular for a value whose only dollars open a reference |
| `Templates.PricesKeepThePromise` | compose/convert.go:845-860 | So does a value whose dollar opens nothing |
| `Interpolation.DollarInDefaultBecomesAReference` | compose/convert.go:852-860 | A default that spells the start of a generated reference becomes one, for every pair of names |
| `Siblings.ObjectName` | compose/convert.go:915-925 | A DNS label of at most 40 characters for every text |
| `Siblings.ObjectNamesMeet` | compose/convert.go:915-925 | objectName is not injective: names that differ only in a character a label cannot hold meet |
| `Siblings.RewriteSiblings` | compose/convert.go:695-733 | The splice loop yields the value with exactly the eligible spans replaced and every other character in place, and reports each sibling found |
| `Siblings.NothingEligibleNothingChanged` | compose/convert.go:714-724 | Self, primary and foreign hosts are left as they are |
| `Siblings.RewritingKeepsSources` | compose/convert.go:695-733 | The rewritten value names the same generated sources in the same order |
| `Siblings.RepointSiblings` | compose/convert.go:624-675 | Every value of a service is rewritten in place, and the notes are a function of the fields and values |
| `Siblings.NotedAtFirstMention` | compose/convert.go:651-673 | Each sibling host addressed is noted exactly once, under the first field that addresses it, with where it points now |
| `Conversion.SortVariables` | compose/convert.go:481-516 | The loop over a service's variables equals the specification |
| `Conversion.EachVariableLandsOnce` | compose/convert.go:481-516 | Each variable is in exactly one of Env, Generated and the URL notes, once, with what its value makes of it, and nothing else is in them |
| `Conversion.EveryVariableLands` | compose/convert.go:481-518 | In a converted template every variable of every workload is found where its value says, sibling addresses repointed |
| `Conversion.ClaimVolumes` | compose/convert.go:520-543 | The loop over a service's volumes equals the specification |
| `Conversion.VolumesAreAccountedFor` | compose/convert.go:520-543 | The claims are the first eight volumes that can be claimed; every volume is spoken of once, and as claimed exactly when it was |
| `Conversion.EveryVolumeIsNoted` | compose/convert.go:520-543 | Every volume of every workload has its note in the converted result |
| `Conversion.EverySiblingIsNoted` | compose/convert.go:624-675 | Every sibling a workload's variables address has its note in the converted result, under the first variable that does and as pointed where |
| `Conversion.UnsupportedAreNotedExactly` | compose/convert.go:556-573 | A field is said to have nowhere to go if and only if a service that runs as a workload sets it |
| `Conversion.DeclaredAreExact` | compose/convert.go:380-406 | The sources of a Database are exactly the generated names its service's environment mentions |
| `Conversion.Identifier` | compose/convert.go:408-432 | The result is empty or an identifier the API admits |
| `Conversion.IdentifierKeptIff` | compose/convert.go:408-432 | A database or user name is taken as it reads, and nothing said, if and only if it is an identifier that does not end in an underscore |
| `Conversion.AsWorkload` | compose/convert.go:436-577 | The workload, its requests and its notes are a function of the service, whatever order its environment map yields |
| `Conversion.Convert` | compose/convert.go:206-275 | The result, every note included, is a function of the template and the options alone: map iteration order does not matter |
| `Conversion.EveryServiceIsOneObject` | compose/convert.go:228-262 | Every service becomes exactly one Workload or exactly one Database, in service order |
| `Conversion.PrimaryIsValid` | compose/convert.go:226-274 | Primary is a valid index, of the primary service's workload, or zero when that service became a Database |
| `Conversion.FailsIffNothingToRun` | compose/convert.go:206-269 | A conversion fails exactly without a namespace or when every service is a database |
| `Conversion.ConvertedRequestsOnce` | compose/convert.go:481-516 | A converted template asks for each variable of a service once |
| `Conversion.RequestsNameTheirSources` | compose/convert.go:502-518 | A request of a converted template, its addresses repointed, names exactly its sources, in order, if and only if its value's template is read to name them in turn and loses none; where that has only bare placeholders, if and only if every stray names a source in turn, and each as often as the value does if and only if there is no stray |
| `CataloguePlan.Planner.AttachSecrets` | catalog/plan.go:226-278 | The workloads, Secrets, blockers and mint list after attachSecrets equal the specification, whatever order the maps yield |
| `CataloguePlan.Planner.PinAll` | catalog/plan.go:368-413 | The images and blockers after pinImages equal the specification |
| `CataloguePlan.Planner.PortAll` | catalog/plan.go:328-366 | The ports and blockers after resolvePorts equal the specification |
| `CataloguePlan.OwnedNames` | catalog/plan.go:280-288 | The loop returns the wanted names a Database publishes itself |
| `CataloguePlan.MintIsDetermined` | catalog/plan.go:273-277 | The mint list is determined by what is to be minted, however the map yields it |
| `CataloguePlan.AcceptedIffAdmitted` | catalog/plan.go:422-434 | refusedImage accepts exactly the images the three rules of the API admit |
| `CataloguePlan.RegistryPortIsNoTag` | catalog/plan.go:415-434 | The colon of a registry's port is not taken for a tag |
| `CataloguePlan.InstallableIff` | catalog/plan.go:328-413 | A plan is installable if and only if nothing blocked it before, every image it would commit is admitted by the API, and every workload's port is known |
| `CataloguePlan.ResolversOnlyRescue` | catalog/plan.go:293-310 | An entry installable with no pin resolver is unchanged under every resolver, however each call answers or fails |
| `CatalogueInstall.PlannedSecrets` | server/catalog.go:468-541 | The nested loops give the field's values and one refusal per inexpressible request or overfull workload |
| `CatalogueInstall.UnrefusedIffClean` | server/catalog.go:478-526 | Nothing is refused key by key if and only if every request is one mintable source under a usable name and no source is wanted twice |
| `CatalogueInstall.WhyRefused` | server/catalog.go:595-618 | The reasons are the blockers, then the refusals key by key, then one for each workload that holds more than sixteen; there are none exactly when there is no blocker, the requests are clean and no workload holds more than sixteen |
| `CatalogueInstall.EachValueOnceIff` | server/catalog.go:655-742 | For an entry refused nothing, a rendered workload asks for exactly what its service asked for, in name order, if and only if no other workload of its name asked for anything; it asks for at most sixteen values and reads no Secret the plan invented |
| `CatalogueInstall.MintOncePerRequest` | catalog/plan.go:226-277 | For an entry refused nothing, minted values and planned keys correspond one for one and nothing a Database owns is minted; the rendered (workload, variable) pairs are those keys if and only if workloads of one name ask for nothing |
| `CatalogueInstall.NothingOwnedIsMinted` | catalog/plan.go:244-264 | In every plan no minted name is one a Database publishes |
| `CatalogueInstall.NoPlannedSecretIsRead` | server/catalog.go:767-785 | Attaching a planned Secret and dropping planned Secrets again leaves what a workload read before |
| `CatalogueInstall.RenderInstall` | server/catalog.go:655-763 | Refuses over an existing manifest, succeeds exactly when every object is complete, and then writes the fence and one file per object |
| `CatalogueInstall.EveryObjectHasItsFileIff` | server/catalog.go:678-762 | Every object is in the file named for it if and only if no two different ones get one name; nothing else is written but the fence |
| `CatalogueInstall.OverwrittenIff` | server/catalog.go:678-762 | An object is overwritten exactly when the last one rendered under its name is another |
| `CatalogueInstall.NamedApartIff` | server/catalog.go:678-762 | The objects of an install differ in kind or name if and only if no two beside the app are given one name and no workload beside the app is given the app's |
| `CatalogueInstall.AppsNameIsTaken` | server/catalog.go:678-685 | An app called what one of its services became: every object has its file, and two of them are Workloads of one name |
| `CatalogueInstall.FinishedIsPlanned` | catalog/plan.go:218-221 | Pinning and port resolution leave what the plan asks for untouched |
| `InstalledEntry.PlanIsOfTheConversion` | catalog/plan.go:190-222 | The planner's passes over a conversion give a plan with the conversion's workloads, Databases, requests and owned sources |
| `InstalledEntry.InstalledAsksForItsService` | server/catalog.go:655-742 | From template to directory: an installed workload is given a value for exactly those variables of its compose service whose values ask for one, unless a namesake asked for any |
| `InstalledEntry.RepointedIsInstalledIff` | compose/convert.go:651-733 | A repointed address is the name its service is installed under, unless the primary service became a Database and the address is the first workload's; then if and only if the app has that very name |
| `InstalledEntry.PrimaryDatabaseIsLeft` | compose/convert.go:695-733 | The address of a primary service that became a Database is left as compose wrote it, though it is installed under the name derived from it |
| `SettingsPlan.PlanSettings` | server/settings.go:459-556 | The planner's loops and refusals equal the specification, first refusal first |
| `SettingsPlan.DraftsAreOk` | server/settings.go:472-532 | Accepted rows give distinct, well-named lists with secrets apart from literals and one value per variable |
| `SettingsPlan.PlansAreSettled` | server/settings.go:459-556 | Every accepted PUT leaves a settled workload that names only secrets set now or before, sets only what it names and removes exactly the old secrets it lists nowhere |
| `SettingsRoundTrip.ToWireSettings` | server/settings.go:388-428 | The reader's loops equal the specification |
| `SettingsRoundTrip.ShownRows` | server/settings.go:388-428 | A GET shows each variable of a settled workload once, in name order, on the sides it is kept, and no value of a secret |
| `SettingsRoundTrip.GetThenPut` | server/settings.go:459-626 | Putting back what was shown sets and removes nothing and changes only list order; it is refused exactly when the workload carries a negative quantity |
| `SettingsRoundTrip.RoundTripIsAFixpoint` | server/settings.go:388-626 | The second round trip changes nothing and shows the same page |
| `SettingsRoundTrip.PutThenGet` | server/settings.go:388-556 | After an accepted PUT a GET shows exactly the rows put, trimmed and in name order, secrets by name only; the health put; and each quantity as put, or as shown before where it was left blank |
| `SettingsStores.BuildPatch` | server/secretwrite.go:65-85 | The merge patch sets the given values and nulls the removed keys, whatever order the map yields |
| `SettingsStores.Installation.Put` | server/secretwrite.go:62-122 | The Secret and the answer after each outcome of patch and create, a rival's create included |
| `SettingsStores.PutIsAllOrNothing` | server/secretwrite.go:62-115 | Uncontended, Put merges whole or not at all and reports success only when it merged |
| `SettingsStores.LostRace` | server/secretwrite.go:111-121 | A lost create race reports success and leaves the rival's data, which is the promised merge exactly when the rival wrote the same values |
| `SettingsStores.Installation.Update` | server/settings.go:194-275 | The stores and the answer of one request under any failure of its three writes |
| `SettingsStores.CarryingKeepsNames` | server/settings.go:231-275 | At every moment of a request git names only keys the Secret holds, whatever fails |
| `SettingsStores.RunKeepsNames` | server/settings.go:231-275 | The same over every serial run, with any failure and a crash at any moment of any request |
| `SettingsStores.SavedValues` | server/settings.go:231-275 | After a saved request every named secret has the value just put or the one it had |
| `SettingsStores.SavedExtra` | server/settings.go:511-540 | What a saved request leaves over in the Secret: what was left over and is not named, and each secret it turned into a literal |
| `SettingsStores.SavedKeysMatch` | server/settings.go:511-540 | From keys equal to names, a saved request keeps them equal if and only if it turns no secret into a literal |
| `SettingsStores.ExtraIsWhatWasTurned` | server/settings.go:511-540 | Over a run of completed requests the Secret's surplus is exactly what some request turned into a literal and no later one took back |
| `SettingsStores.RunKeysMatch` | server/settings.go:511-540 | So keys equal names after such a run if and only if nothing is left behind |
| `SettingsStores.LiteralLeavesTheSecret` | server/settings.go:509-540 | A concrete request that leaves its old secret in the cluster |
| `SettingsStores.InterleavedPutsBreak` | server/settings.go:217-275 | Two interleaved PUTs that leave git naming a missing key |
| `SettingsInterleavings.AloneItIsCarried` | server/settings.go:217-275 | A request left alone in the step system is the one a serial run carries out |
| `SettingsInterleavings.PlayKeepsInv` | server/settings.go:217-275 | Under the condition, at every moment of every interleaving each request's names, less what it has still to put, are held |
| `SettingsInterleavings.HoldsIffCompatible` | server/settings.go:217-275 | For any number of requests planned from one commit: git names only held keys at every moment of every interleaving, stopped anywhere, if and only if no request removes a key another names and, with no Secret yet, each that sets values sets all that any sets |
| `SettingsInterleavings.RequestsHoldIffCompatible` | server/settings.go:459-540 | The same for the plans that accepted PUTs have |
| `SettingsInterleavings.RemovalBreaks` | server/settings.go:249-275 | Where the condition on removals fails, one schedule leaves git naming a missing key |
| `SettingsInterleavings.LostCreateBreaks` | server/secretwrite.go:111-121 | Where the condition on a Secret still to be created fails, a lost create leaves git naming a missing key |
| `SettingsInterleavings.RivalRemovalBreaks` | server/settings.go:217-275 | A request that sets a key and names nothing else loses it to a rival that drops it |
| `SettingsReads.PlayIsSound` | server/settings.go:194-275 | Under the condition, at every moment of every interleaving of requests read at any moment, each request's names, less what it has still to put, are held, and every plan is one some request has at a commit the requests can make |
| `SettingsReads.HoldsIffFit` | server/settings.go:194-275 | Requests read at any moment and any number of times: git names only held keys at every moment of every interleaving if and only if no request, wherever it is accepted, removes a key some commit they can make names, and, with no Secret yet, all that set a value set the same keys |
| `SettingsReads.FitRequestsKeepCommits` | server/settings.go:509-540 | So such requests, read at any commit they make, remove nothing |
| `SettingsReads.LateReaderBreaks` | server/settings.go:249-275 | One commits without a key, another reads that, sets the key and commits, and the removal comes last: git names a missing key |
| `SettingsRows.HoldsIffRowsFit` | server/settings.go:459-540 | The condition by the requests' rows and quantities: in whatever order they can be accepted, one that may follow another lists all that one names as secrets, one accepted at the start lists what any names of the start's, and, with no Secret yet, those that name secrets from nothing name the same; if and only if git always names held keys |
| `SettingsRows.AgreeingRowsAreEnough` | server/settings.go:459-540 | Enough for any requests: each lists every secret any of them names, and, with no Secret yet, those that give every secret a value name the same |
| `SettingsRows.HoldsIffRowsAgree` | server/settings.go:459-540 | For requests accepted wherever they are read that is also necessary |
| `SettingsRows.CompleteRequestsAreTaken` | server/settings.go:459-600 | Such are requests with rows in order, a value for every secret and all quantities given |
| `Rollback.RecordBySeq` | server/lifecycle.go:470-504 | Within ten pages of a store that changes between them, reading rows the store held when their page was read: a hit is the record as the store holds it, with fewer than 2000 read; no such deploy means the store holds none; too far back means 2000 newer records were read and an older one is left; the answer is an error exactly when a page fails or the last record read before it was pruned; and of the rows down to where it stopped none was missed |
| `Rollback.RunsAreSteady` | evidence/memory/memory.go:188-224 | What the walk assumes of the stores holds of those along any run of appends, transitions and prunes in which no id is given twice |
| `Rollback.ReadWasThere` | server/lifecycle.go:457-469 | All that the walk reads are distinct deploys, newer than the one looked for, that were there when it began |
| `Rollback.AnswersIff` | server/lifecycle.go:457-504 | While nothing is pruned, whatever was before and whatever is appended: found if and only if the number was there when the walk began with fewer than 2000 newer ones; too far back if and only if 2000 newer ones were there and yet another one |
| `Rollback.GaplessAnswersIff` | server/lifecycle.go:457-469 | In a log gapless from one to n: found if and only if the number is one of the newest 2000; too far back if and only if it is 2000 behind n and the log is longer than that |
| `Rollback.RecentDeploysAreFound` | server/lifecycle.go:60-77 | Whatever else is pruned, a deploy still there at the last page, with fewer than 2000 newer ones there at the first, is found, short of an error |
| `Rollback.TooFarBackIsFar` | server/lifecycle.go:126-134 | Whenever the answer is too far back, 2000 newer deploys were there when the walk began, and the number is at least 2000 behind the newest |
| `Rollback.PrunedCursorIsRefused` | evidence/memory/memory.go:188-224 | A page after a cursor is an error if and only if the cursor's record is held no more |
| `ManifestDirectory.CarryForward` | server/deploy.go:230-238 | Everything the platform wrote and the render did not produce is copied byte for byte |
| `ManifestDirectory.Repository.RenderOp` | server/deploy.go:158-228 | Each render, its refusals included, equals the specification |
| `ManifestDirectory.Commit` | internal/gitwrite/gitwrite.go:345-394 | What is rendered is written, what is omitted is removed only where the caller may and the content is the platform's |
| `ManifestDirectory.RemoveOmitted` | internal/gitwrite/gitwrite.go:371-382 | The removal loop leaves exactly the rendered files and the foreign ones |
| `ManifestDirectory.Repository.Apply` | server/lifecycle.go:303-369 | One commit moves the directory as specified, and a failed one leaves it as it was |
| `ManifestDirectory.CommittedDatabases` | server/databases.go:269-277 | The Databases of the files that parse as one, in the order of the file names |
| `ManifestDirectory.DatabasesAreListedOnce` | server/databases.go:269-277 | In a well-formed directory that list holds each committed Database once, in the order of its file |
| `ManifestDirectory.OthersAreUntouched` | server/deploy.go:212-238 | A file an operation does not speak about is there afterwards byte for byte, and none appears |
| `ManifestDirectory.OnlyItsOwnFields` | server/lifecycle.go:417-455 | A scale, settings change or rollback alters exactly its own fields of the committed spec |
| `ManifestDirectory.StepMovesTheLedger` | server/databases.go:383-464 | The committed databases, and whether the directory holds anything else, change exactly as the operation alone tells |
| `ManifestDirectory.RunKeepsTheDirectory` | server/databases.go:383-464 | Over any run the committed databases are those the operations created and did not delete since, told without looking at a file, and the directory and the app's manifest are never lost |
| `ManifestDirectory.RunLeavesOthersAlone` | server/deploy.go:212-238 | A sibling manifest no operation speaks about is the same at the end of any run |
| `ManifestDirectory.ForeignFilesSurvive` | server/lifecycle.go:405-414 | Foreign files survive every run byte for byte |
| `PhcStrings.RoundTrip` | auth/password.go:172-207 | For all parameters and byte strings decoding an encoded hash returns them, with the two lengths set to the actual ones |
| `PhcStrings.DecodesIffEncoded` | auth/password.go:197-204 | A text decodes to given bytes if and only if, line breaks aside, it is their encoding: unpadded and strict in its trailing bits |
| `PhcStrings.ReprintsIffCanonical` | auth/password.go:172-207 | A text that decodes prints again as it was if and only if nothing stands before its first dollar, its version and parameters are plain numbers with nothing around them, and its base64 has no line break |
| `PhcStrings.PrintedIff` | auth/password.go:172-207 | A text was printed by encode if and only if it decodes and is canonical |
| `PhcStrings.AnythingBeforeTheFirstDollar` | auth/password.go:180-182 | What stands before the first dollar is not read |

## Left out

- HTTP handlers, cookies, JSON decoding, the CLI, the panel, Terraform and the Kubernetes and Argo CD clients: plumbing around the modelled parts.
- SHA-256, argon2 and JSON encoding: the hash and the two encodings are arbitrary functions; results about equal hashes return a collision, those about equal fields assume only that the encodings tell different payloads apart, and those about pruned logs also that no encoding is another's with 32 bytes in front.
- The gate in derive (auth/password.go:162-168): a counting semaphore, which bounds memory and decides no result.
- Quantity arithmetic: quantities are integers with an arbitrary printer and parser; only GET-then-PUT assumes that printing a set quantity parses back.
- Regular expressions: the interpolation pattern is a hand-written scanner; siblingHost is any matcher that reports ordered, disjoint spans; the ports, paths and port mentions read from a compose service's lists and healthcheck are given with the service.
- The text and order of notes, refusals and warnings: they are values of datatypes, and a converted template's notes are a multiset.
- Conversion.AsWorkload: does not model volume sizes, labels, or the order of notes, which are a multiset.
- Conversion.Convert: does not model namespaces or labels of the converted objects, or the order of notes.
- Interleaved settings PUTs whose writes fail: the step systems of SettingsInterleavings and SettingsReads stop a request anywhere but do not retry it.
- ErrNoChange in the settings route (server/settings.go:240-255): unreachable while every render stamps a fresh rollout annotation.
- Base64 of Secret values and the Secret's labels (server/secretwrite.go:69-85): the data map holds the values themselves.
- Clocks: times are integers read from one nondecreasing clock shared by all hits, and windowMs is positive.
- Random identifiers: nonces, rollout ids and record ids are parameters; a record id keeps its two parts instead of their printed form.
- The SQL evidence store, Current, Export and Retention. Which rows a Prune finds current is a parameter, because it is read before the lock is taken again.
- EvidenceStore.MemoryStore.History: Query.Actor is declared (evidence/evidence.go:324) but match (evidence/memory/memory.go:226-246) does not read it, so the model's query has no actor.
- EvidenceStore.MemoryStore.Append: the caller's record is the fields a caller sets, so identity, hashes and times that Append overwrites are not passed in.
- SSE framing, line stamps and pod picking in server/logs.go: a container is its lines and whether it ended cleanly.
- Labels of committed manifests, which renderDeploy, renderScale and renderSettings drop (server/deploy.go:176-178): frames are over Spec and Annotations.
- The field validation of databaseFrom and the claim budget (server/databases.go:98-260): bounds on single fields, each refused where it is read.
- An install into a directory other operations also change: CatalogueInstall.RenderInstall is one commit, and the runs of ManifestDirectory start from whatever is committed.
- YAML: a committed file is the object it holds or somebody else's; Parse and Render are inverse on Spec.
- CataloguePlan.Planner.PinAll and CataloguePlan.Planner.PortAll: the loops compute the new images and ports and write them back at the end, instead of through pointers one at a time.
- Role tables, the app list merge, the registry cache, catalogue search and metrics: lookups and listings without state of their own.
