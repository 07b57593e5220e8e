# Verification of the gateway's stateful core

This project models, in Dafny, the parts of the API gateway whose correctness depends on order, sharing or rounding, and
proves what they promise. Each source file has its own module:

| module | what it models |
|---|---|
| `RedisFence`, `CacheProtocol` | cache-aside refills fenced by generations: the Lua scripts, the WATCH transaction, and every interleaving of readers and writers of the database and the cache |
| `TrustedProxy` | the mutable binary trie that decides whether a list of networks trusts a whole address family |
| `RateLimit` | the sliding-window limiter and its background sweeper |
| `Verification` | one-time codes that are reserved while an action runs, then consumed or released |
| `RelayTask` | submission, retry, settlement and cleanup of an asynchronous task |
| `MultiKey`, `KeyList` | deletion and re-indexing of a channel's keys, the status pages, and how keys are stored and appended |
| `UpstreamModels` | detection, automatic addition and selective application of upstream model changes |
| `PricingDiff`, `ModelsDev` | the comparison of local and upstream prices, and the choice of one price per model |
| `OggDuration` | the Ogg page scanner for Opus streams |
| `SystemMonitor` | starting and stopping the background monitor |
| `QuotaMath` | saturating and strict quota conversions |
| `GoStrings`, `Floats`, `Options` | trimming, splitting and joining of strings; the shapes of a float64; optional values |

Code that updates variables in place is modelled by classes and methods with loops; each is proved equal to a function of the
old state, and the promises are proved about that function and about every run of it. Redis, the database, the clock, the
upstreams and the packages behind the controllers are parameters or events that may come in any order.

## Where code and documentation part

The model follows the code. Where a promise fails for some inputs, the exact condition under which it holds is proved.

* The rule beside the rate limits, duration at most the sweep interval, is one second stricter than needed
  (`RateLimit.SweepsInvisibleIff`).
* The refill comment says that a missing generation always rejects; it does for every version but -1, with which a refill
  that is left alone stores (`RedisFence.MissingMarkerRejects`). The refill is atomic in every interleaving for the versions
  the sequence has reached, which readers hold; a caller with -1 or a version still to come can see it fail although the
  marker agrees (`RedisFence.RefillIsAtomicIff`).
* Keys joined by newlines and models joined by commas do not always come back; the exact conditions are those of
  `KeyList.StoredKeysReadBack` and `UpstreamModels.StoredModelsReadBack`. A blank line typed into the key field becomes an
  empty key, which is lost when it ends up first or last (`KeyList.BlankLineBecomesKey`).
* So `delete_disabled_keys` does what repeated `delete_key` does, call by call, exactly when the keys left between the calls
  come back from the store, some key survives, and no enabled key carries a left-over time or reason
  (`MultiKey.DeleteDisabledIsRepeatedDelete`, with an input that fails in `MultiKey.BlankKeyLosesTrack`).
* Surviving keys keep their status exactly when the remaining list comes back (`MultiKey.SurvivorsKeepTheirStatus`); otherwise
  a disabled key can come back enabled (`MultiKey.DisabledKeyComesBack`). The same condition decides for an append
  (`MultiKey.AppendKeepsStatus`).
* Applying all upstream changes is a fixpoint exactly when the added names are comma-free and no upstream model is kept out
  only by ignore rules that are written like added names (`UpstreamModels.ApplyAllIsFixpoint`, with an instance in
  `UpstreamModels.RuleNamedModelReopens`).
* Ignoring a pending model keeps it away only if its name is not written like an expression that does not match it
  (`UpstreamModels.IgnoredStaysAway`).
* The size counted on storing is the number of keys, except that an empty array counts as one (`KeyList.CountMatches`).
* Appending to a stored text that begins with `[` and is no array starts from no keys at all (`KeyList.AppendSeesChannelKeys`).
* The models.dev selection promises the cheapest non-zero price; it is exact up to 1e-9, and exactly the cheapest under
  the condition of `ModelsDev.CheapestIff`.
* The price comparison does not show every pair on which some channel differs: it shows one exactly when, besides, the last
  channel of some name differs there and differs somewhere with a value other than null and the text `same`
  (`PricingDiff.ShownIff`). With distinct names and no such values that is every differing pair (`PricingDiff.ShownExactly`);
  a namesake, a null or the text can hide one (`PricingDiff.NamesakeHidesDifference`, `PricingDiff.MarkerHidesDifference`).
* A reserved task is marked failed only together with the refund, in every environment whose submit attempts never fail with
  the code of a lost response (`RelayTask.FailedMarksAreRefunded`), as in this repository, where only relay.go uses that code.
  For an arbitrary submit package the exact condition is that of `RelayTask.MarkedFailedIsRefunded`, and
  `RelayTask.LostCodeKeepsReservation` shows a failing one.
* After a stop of the monitor has timed out, no start has any effect until another stop is waited for to the end
  (`SystemMonitor.CancelledHandleBlocksStarts`).

## Model

| member | source | states |
|---|---|---|
| `RedisFence.Server.GetOrInitVersion` | common/redis.go:86-94 | reads the marker, or takes the next number of the shared sequence |
| `RedisFence.Server.InvalidateVersionedHash` | common/redis.go:96-107 | lifts the sequence over a legacy marker, issues a new generation, drops the hash, dirties watchers |
| `RedisFence.Server.DeleteVersionedHash` | common/redis.go:109-118 | keeps the deleted generation below the sequence, removes hash and marker |
| `RedisFence.Server.HSetIfVersion` | common/redis.go:256-293 | computes the refill, with other processes acting between WATCH and GET and between GET and EXEC; for a past version, and whenever it stores, one atomic compare-and-store |
| `RedisFence.RefillIsAtomicIff` | common/redis.go:256-293 | atomic in every interleaving exactly for versions the sequence has reached, or that no marker can show |
| `RedisFence.RefillIsSafe` | common/redis.go:256-293 | whatever the version and the interleaving, a refill that stores compared at its last step, and one that fails changes nothing |
| `RedisFence.MissingMarkerRejects` | common/redis.go:262-267 | with a missing marker a refill stores only for -1, and left alone exactly then |
| `RedisFence.RefillReadsBack` | common/redis.go:248-293 | in every interleaving the fields of a stored refill read back, and every other field is what it was at its last step |
| `RedisFence.CommandsAreLocal` | common/redis.go:86-118 | a command on one entity leaves version, fields and watches of the others alone |
| `RedisFence.CommandsDo` | common/redis.go:86-118 | asking again for a version changes nothing; invalidation and deletion drop all fields and move the version up, or away |
| `RedisFence.WatchFencesPersists` | common/redis.go:256-293 | from the WATCH on, a dirty watch means that the past version is spent, after any command of others |
| `RedisFence.WatchHoldsPersists` | common/redis.go:271-293 | from the GET on, a clean watch means that the version read still stands |
| `CacheProtocol.CachedFieldsAreFresh` | common/redis.go:230-303 | in every run a cached field is from a commit no older than any whose invalidation is complete |
| `CacheProtocol.QuiescentCacheEqualsDatabase` | common/redis.go:230-315 | when all writers of an entity have invalidated, what is cached equals the current row |
| `CacheProtocol.GenerationNeverReturns` | common/redis.go:86-118 | across invalidation, deletion and re-initialisation a later generation is larger than a replaced one |
| `CacheProtocol.OldReadersNeverStore` | common/redis.go:297-315 | a reader holding a generation from before an invalidation or deletion never stores |
| `CacheProtocol.ExecIsCompareAndStore` | common/redis.go:256-293 | in every run, with WATCH, GET and EXEC as separate steps, a reader stores at its EXEC exactly when the entity then carries its generation |
| `CacheProtocol.UndisturbedReaderStores` | common/redis.go:256-293 | in every run a reader with the current generation passes its check and stores, as long as nobody invalidates or deletes the hash |
| `CacheProtocol.RefillRuns` | common/redis.go:230-303 | from any world a new reader can go through all its steps, and then the requested fields of the last row are cached |
| `CacheProtocol.WriteRuns` | common/redis.go:297-315 | from any world a writer can commit and fence, and a hash can expire |
| `CacheProtocol.ReadsRequestedFields` | common/redis.go:248-254 | a narrow reader takes the requested fields of the last row, and no others |
| `TrustedProxy.Trie.Add` | common/trusted_proxy.go:114-137 | marks exactly the prefix's path, unless a covered node lies on the way |
| `TrustedProxy.Trie.CompleteIffCoveredBelow` | common/trusted_proxy.go:139-147 | the recursive test holds exactly when every address below a node meets a covered node |
| `TrustedProxy.AddRepresents` | common/trusted_proxy.go:114-137 | leaving out prefixes below covered nodes loses no trusted address |
| `TrustedProxy.CoverAll` | common/trusted_proxy.go:103-112 | true exactly when every address of the family matches some listed prefix under its netmask |
| `TrustedProxy.TrustIsPrefix` | common/trusted_proxy.go:114-137 | matching a network is having its bits as a prefix |
| `TrustedProxy.MatchesIsPrefix` | common/trusted_proxy.go:125-131 | an address is the same as a network under the netmask exactly when the leading bits agree, read as the trie reads them |
| `TrustedProxy.EntriesInOrder` | common/trusted_proxy.go:17-31 | every value gives its trimmed text or, if blank, nothing, in order |
| `TrustedProxy.ConfiguredListReadsBack` | common/trusted_proxy.go:10-13 | a list joined by commas is taken apart as it was, and a blank one gives the defaults |
| `TrustedProxy.ParseTrustedProxies` | common/trusted_proxy.go:9-42 | splits at commas or takes the defaults, and accepts the trimmed entries only if both families keep an untrusted address; each refusal names the first offending entry or the first covered family |
| `RateLimit.InMemoryRateLimiter.RequestWithRetry` | common/rate-limit.go:89-121 | the queue of the key and the answer change as one request says |
| `RateLimit.InMemoryRateLimiter.Allow` | common/rate-limit.go:123-135 | predicts the answer of a request at the same instant |
| `RateLimit.InMemoryRateLimiter.ClearExpired` | common/rate-limit.go:46-55 | drops exactly the stale queues |
| `RateLimit.RunsSimilar` | common/rate-limit.go:46-55 | at every moment the unswept queue is an expired prefix followed by the swept queue |
| `RateLimit.SweepsInvisibleIff` | common/constants.go:217-218 | sweeps at any moments leave all answers alike exactly when the duration is at most one second over the interval |
| `RateLimit.QueueIsLastAdmissions` | common/rate-limit.go:89-121 | a queue holds the last admissions, and admissions that are max apart are a duration apart |
| `RateLimit.AdmittedIff` | common/rate-limit.go:89-121 | in every run with sweeps a request is admitted exactly when less than max admissions lie less than the duration back |
| `RateLimit.UnlimitedAdmitsAll` | common/rate-limit.go:89-95 | a limit of zero or less admits everything and keeps no queue |
| `RateLimit.WindowBound` | common/rate-limit.go:89-121 | in every run with sweeps no window of the duration holds more than max admissions |
| `RateLimit.WindowBoundIff` | common/constants.go:217-218 | every run keeps that bound exactly when the duration is at most one second over the interval |
| `RateLimit.RetryHintExact` | common/rate-limit.go:110-121 | after a rejection a later request is admitted exactly from the hinted second on |
| `Verification.VerificationCodes.RegisterCode` | common/verification.go:36-46 | stores the code unclaimed and sweeps expired ones when the table is over its size |
| `Verification.VerificationCodes.VerifyCode` | common/verification.go:48-57 | true exactly for the stored, unclaimed, unexpired code, and changes nothing |
| `Verification.VerificationCodes.VerifyCodeAndRun` | common/verification.go:61-94 | reserves, runs while others act, then consumes on success and releases otherwise, but only its own claim |
| `Verification.VerificationCodes.VerifyAndDeleteCode` | common/verification.go:96-107 | deletes the code exactly when it is unclaimed, unexpired and equal |
| `Verification.VerifiesIff` | common/verification.go:48-107 | in every run a code verifies exactly when it is the one registered for the key, less than 600 seconds ago, and not reserved |
| `Verification.RegisteredCodeVerifies` | common/verification.go:36-57 | right after a registration that code and no other verifies, for 600 seconds |
| `Verification.RegisterStores` | common/verification.go:36-46 | what a registration does entry by entry: over ten entries it sweeps just the ones of ten minutes and more |
| `Verification.OperationsAreLocal` | common/verification.go:59-112 | no other operation touches an entry of another key, nor any with a code or claim that is not the right one |
| `Verification.VerificationChanges` | common/verification.go:48-107 | a code that does not verify changes nothing, one that does is reserved or deleted |
| `Verification.EventsHappen` | common/verification.go:36-112 | in every run any operation can come next |
| `Verification.ConsumedAtMostOnce` | common/verification.go:61-107 | in every interleaving no registration is consumed twice |
| `Verification.VerifiedIsAvailable` | common/verification.go:48-107 | at any time, what verifies is a registration that is neither consumed nor held by a running action |
| `Verification.ReservationIsExclusive` | common/verification.go:61-94 | nothing verifies a claimed registration, and two running actions never hold the same one |
| `Verification.LateFinishIsHarmless` | common/verification.go:76-88 | a late finisher leaves newer codes and other claims alone |
| `Verification.FailedActionIsRetryable` | common/verification.go:59-94 | after a failed or panicking action the entry is what it was and verifies until it expires |
| `Verification.SuccessfulActionConsumes` | common/verification.go:59-94 | after a successful action no entry of its registration is left |
| `RelayTask.SubmitLoop` | controller/relay.go:651-719 | no submit follows an answered, unknown or non-retryable one; the submits, in order, and the final error are those of the environment |
| `RelayTask.RetryRule` | controller/relay.go:827-876 | from each turn on: one attempt, and further ones exactly if it failed retryably, with budget, on a channel that is not pinned, before reaching the upstream |
| `RelayTask.RetriedStatuses` | controller/relay.go:849-876 | refused are just the statuses 200 to 299, 400, 408, 504 and 524 |
| `RelayTask.EarlyErrors` | controller/relay.go:655-685 | the code and status of each error before a submit |
| `RelayTask.Finalize` | controller/relay.go:776-812 | settles first; the response is written only after a successful settlement |
| `RelayTask.Deferred` | controller/relay.go:609-642 | when the reservation is refunded and which single mark the task gets |
| `RelayTask.RelayTask` | controller/relay.go:589-758 | over every environment: effects come in a safe order, retries are justified, success, refund, marks, booking and reports are decided exactly by what happened upstream, and the submits, in order, and the error are those of the environment |
| `RelayTask.Decided` | controller/relay.go:609-642 | the refund never follows a settlement, a persisted task or an upstream contact, and a durable unsettled task stays unmarked |
| `RelayTask.MarkedFailedIsRefunded` | controller/relay.go:616-640 | a reserved task marked failed is refunded, in every run of an environment, under an exact condition on its attempts |
| `RelayTask.FailedMarksAreRefunded` | controller/relay.go:616-640 | so it is whenever no attempt fails with the lost-response code |
| `RelayTask.LostCodeKeepsReservation` | controller/relay.go:616-618 | one attempt with that code leaves a failed mark without a refund |
| `MultiKey.Channel.DeleteKeyAt` | controller/channel.go:1851-1930 | reads the keys from the text, removes one and re-indexes, or refuses a bad index and the last key, and stores the channel |
| `MultiKey.Channel.DeleteAutoDisabled` | controller/channel.go:1932-1985 | reads the keys from the text, removes all auto-disabled ones in one pass, re-indexes and stores the channel |
| `MultiKey.Channel.UpdateFields` | model/channel.go:609-672 | counts the keys in the stored text and drops the entries from there on |
| `MultiKey.Channel.DisableAll` | controller/channel.go:1803-1849 | disables the enabled keys and stores the channel, or does nothing when there is none |
| `MultiKey.Channel.Append` | controller/channel.go:1105-1187 | extends the key text by the new keys, or takes the input as the first text, and stores the channel; blank input changes nothing |
| `MultiKey.AppendKeepsStatus` | controller/channel.go:1110-1187 | when loaded again after an append, every old key keeps its index, status, time and reason and the new keys stand behind, exactly when the whole list comes back; on a channel stored with some key the new ones are then enabled |
| `MultiKey.AppendElsewhere` | controller/channel.go:1105-1110 | blank input changes nothing, and the first keys are those of the input |
| `MultiKey.DisableAllDisables` | controller/channel.go:1803-1849 | every enabled key and no other becomes manually disabled, and they are counted; entries behind the keys of the text are dropped, and without an enabled key nothing changes |
| `MultiKey.DeletionsAnswer` | controller/channel.go:1851-1985 | which deletions are refused, what the others count, and that a refused one stores nothing |
| `MultiKey.DeleteDisabledIsRepeatedDelete` | controller/channel.go:1932-1985 | on the stored channel, equals deleting the auto-disabled indices one by one from the highest, call by call, under an exact condition |
| `MultiKey.LoadStored` | model/channel.go:626-672 | a compacted channel is loaded as it was stored exactly when its keys come back |
| `MultiKey.BlankKeyLosesTrack` | controller/channel.go:1932-1985 | for the keys a, an empty one and b, one action leaves no key and the repetition one |
| `MultiKey.SurvivorsKeepTheirStatus` | controller/channel.go:1869-1916 | when loaded again, survivors keep their order, status, time and reason under the new index, exactly when the remaining keys come back |
| `MultiKey.DisabledKeyComesBack` | controller/channel.go:1869-1916 | deleting the first of the keys a, an empty one and b enables the disabled last one |
| `MultiKey.GetKeyStatus` | controller/channel.go:1577-1689 | counts, filter, clamped page and page contents |
| `MultiKey.PagesCoverList` | controller/channel.go:1652-1673 | the pages laid end to end are the list |
| `MultiKey.PagesAreFilled` | controller/channel.go:1652-1673 | every page before the last is full, and the last one is not empty unless the list is |
| `MultiKey.WithStatusKeeps` | controller/channel.go:1638-1648 | the filter keeps exactly the lines with the status, in order |
| `MultiKey.LineShows` | controller/channel.go:1594-1635 | a line has the status of its key, and time and reason only if that is not enabled |
| `MultiKey.PreviewIsShort` | controller/channel.go:1623-1627 | a preview has at most ten characters of the key |
| `KeyList.StoredKeysReadBack` | model/channel.go:175-197 | keys joined as lines come back exactly when they have no newline and the ends are not empty, or the text is an array of just them |
| `KeyList.LooksLikeArrayIff` | model/channel.go:175-197 | array-like is a text whose first character behind white space is a bracket |
| `KeyList.CountMatches` | model/channel.go:626-643 | the size counted on storing is the number of keys, exactly unless the text is an empty array |
| `KeyList.BlankLineBecomesKey` | controller/channel.go:651-661 | a new channel has an empty key exactly when some line is blank and not empty |
| `KeyList.CleanKeysInOrder` | controller/channel.go:651-661 | every line gives its trimmed text, an empty one nothing, in order |
| `KeyList.AppendToText` | controller/channel.go:1110-1180 | stores the existing keys followed by the new ones, joined again |
| `KeyList.AppendKeepsChannelKeys` | controller/channel.go:1110-1180 | after an append the channel's keys are at their indices with the new ones behind them exactly when the whole list comes back |
| `KeyList.AppendedKeys` | controller/channel.go:1156-1180 | what is appended is trimmed, new, each once, and nothing else is left out |
| `KeyList.AppendSeesChannelKeys` | controller/channel.go:1116-1131 | an append starts from the channel's keys exactly unless the text only looks like an array |
| `UpstreamModels.MergeModelNames` | controller/channel_upstream_update.go:104-118 | equals the base followed by the new names |
| `UpstreamModels.ApplySelectedModelChanges` | controller/channel_upstream_update.go:142-147 | equals one formula: keep what is not removed or is added, then append what is new |
| `UpstreamModels.AppliedInOneFormula` | controller/channel_upstream_update.go:142-147 | the chain of merges and subtractions is that formula |
| `UpstreamModels.CollectPending` | controller/channel_upstream_update.go:176-235 | finds exactly the missing and the stale models |
| `UpstreamModels.PendingIs` | controller/channel_upstream_update.go:176-235 | missing and stale models in terms of the given lists, redirects and rules |
| `UpstreamModels.PendingInOrder` | controller/channel_upstream_update.go:205-235 | missing models keep the upstream order, stale ones the local order |
| `UpstreamModels.NormalizeMeans` | controller/channel_upstream_update.go:97-102 | normalizing loses and adds no name and keeps the order |
| `UpstreamModels.Channel.CheckUpdates` | controller/channel_upstream_update.go:360-407 | the stored result of a check, and that automatic sync adds exactly the pending models |
| `UpstreamModels.CheckStores` | controller/channel_upstream_update.go:378-397 | every missing model ends up among the models or in the list for the administrator; time, stale models and rules |
| `UpstreamModels.Channel.ApplyUpdates` | controller/channel_upstream_update.go:783-831 | the stored result of applying a selection |
| `UpstreamModels.StoredModelsReadBack` | model/channel.go:312-317 | a normalized list survives storage exactly when its names are comma-free |
| `UpstreamModels.GetModelsJoins` | model/channel.go:312-317 | the models joined again are the text without outer commas |
| `UpstreamModels.ApplyAllIsFixpoint` | controller/channel_upstream_update.go:176-235 | detect, apply all, detect again finds nothing, exactly when the added names are comma-free and the rules that are left still ignore what was ignored |
| `UpstreamModels.OnlyRuleReopens` | controller/channel_upstream_update.go:800-804 | a pending model written like the only rule, which keeps out another model, reopens the check |
| `UpstreamModels.RuleNamedModelReopens` | controller/channel_upstream_update.go:800-804 | such an upstream and rule |
| `UpstreamModels.AutoSyncIsFixpoint` | controller/channel_upstream_update.go:384-396 | after automatic sync nothing is left to add, exactly for comma-free names |
| `UpstreamModels.SelectionPartitionsPending` | controller/channel_upstream_update.go:783-831 | pending additions are added, ignored or remaining; add wins over ignore and remove |
| `UpstreamModels.SelectionMeans` | controller/channel_upstream_update.go:795-800 | a selection takes the requested names that are pending, and adding wins over removing |
| `UpstreamModels.AppliedModels` | controller/channel_upstream_update.go:802-807 | the next check reads the old models without the removed ones and the added ones behind, exactly for comma-free additions |
| `UpstreamModels.AppliedRules` | controller/channel_upstream_update.go:809-812 | the rules are the old ones and the ignored names without the added ones |
| `UpstreamModels.IgnoredStaysAway` | controller/channel_upstream_update.go:809-812 | an ignored model is offered again exactly when it is written like an expression that does not match it, and nothing else covers it |
| `PricingDiff.BuildDifferences` | controller/ratio_sync.go:536-696 | the table after all passes, pair by pair |
| `PricingDiff.CompareCell` | controller/ratio_sync.go:605-629 | what one channel shows for a pair, and whether it makes the pair different |
| `PricingDiff.Prune` | controller/ratio_sync.go:667-693 | keeps live columns, and of the rows and models exactly those that still show something |
| `PricingDiff.ShownIff` | controller/ratio_sync.go:593-693 | for all inputs: a pair is shown exactly when some channel supplies a value that is missing locally or not nearly equal, and the last channel of some name really differs somewhere and has a cell other than the marker here |
| `PricingDiff.ShownExactly` | controller/ratio_sync.go:593-693 | for distinct names and values other than null and the marker the first of these conditions is enough |
| `PricingDiff.ShownPrices` | controller/ratio_sync.go:48-53 | for numbers and distinct names: shown exactly when some price is 0.000000001 or more above or below the local one, or there is no local one |
| `PricingDiff.ShownTexts` | controller/ratio_sync.go:55-70 | for texts and distinct names: shown exactly when some text differs from the local one, or there is none |
| `PricingDiff.PriceCells` | controller/ratio_sync.go:605-629 | the number, marker or null in each cell of a shown price |
| `PricingDiff.ReadMeans` | controller/ratio_sync.go:125-132 | integers count as numbers in all fields but the billing mode and expression |
| `PricingDiff.ColumnsAreDisagreeing` | controller/ratio_sync.go:656-674 | for all inputs: every shown row has a column for exactly the names whose last channel really disagrees anywhere |
| `PricingDiff.CellsMean` | controller/ratio_sync.go:605-629 | for all inputs: a cell is the marker exactly where the last channel of its name does not differ, that channel's own value exactly where it differs with a real one, and null otherwise |
| `PricingDiff.VerdictsMean` | controller/ratio_sync.go:558-591 | for all inputs: the confidence beside a cell is that of its own channel |
| `PricingDiff.DistrustedIff` | controller/ratio_sync.go:558-591 | distrusted exactly at 37.5 and 1, within 0.000000001 |
| `PricingDiff.KeptChannelsDiffer` | controller/ratio_sync.go:656-693 | a kept channel shows a real difference in some kept row, for all inputs |
| `PricingDiff.NamesakeHidesDifference` | controller/ratio_sync.go:626 | a namesake that agrees hides a difference |
| `PricingDiff.MarkerHidesDifference` | controller/ratio_sync.go:614-624 | a supplied null or marker text hides a difference |
| `ModelsDev.Select` | controller/ratio_sync.go:906-948 | holds for each model what the providers in name order leave, or reports why there is nothing |
| `ModelsDev.SortedKeys` | controller/ratio_sync.go:915-919 | lists the keys of a map in order, from any iteration order |
| `ModelsDev.ListingIsUnique` | controller/ratio_sync.go:915-919 | there is one such list, so the selection does not depend on map order |
| `ModelsDev.HeldIsBest` | controller/ratio_sync.go:881-893 | what every step of the selection keeps, although near equality is not transitive |
| `ModelsDev.ChosenPrice` | controller/ratio_sync.go:881-944 | a model has a price exactly when a valid one exists; it is not zero unless all are, and below every non-zero one plus 1e-9 |
| `ModelsDev.PricedIff` | controller/ratio_sync.go:845-944 | in terms of the price list: priced exactly when some entry is usable, with the prices of such an entry, and below every positive usable price plus 0.000000001 |
| `ModelsDev.OffersOwn` | controller/ratio_sync.go:845-879 | a candidate carries input, output and cache price of its own provider, each from its own field |
| `ModelsDev.ReplacesIff` | controller/ratio_sync.go:881-893 | when a candidate takes over, in arithmetic |
| `ModelsDev.BeforeIsLexicographic` | controller/ratio_sync.go:915 | the order of names is lexicographic |
| `ModelsDev.CheapestIff` | controller/ratio_sync.go:903-905 | the cheapest price is chosen exactly when nothing within the tolerance above it is held when it is reached |
| `ModelsDev.CheapestWhenApart` | controller/ratio_sync.go:903-905 | so it is whenever no other price lies within the tolerance |
| `ModelsDev.DearerMayWin` | controller/ratio_sync.go:903-905 | 3 wins over 2.9999999995 |
| `OggDuration.GetOpusDuration` | common/audio.go:196-254 | the cursor loop ends on all bytes and computes the scan of the whole input |
| `OggDuration.DurationOfStream` | common/audio.go:207-253 | for printed pages with capture-free bytes between and behind them, the scan finds the largest non-negative granule |
| `OggDuration.DurationOfTruncatedStream` | common/audio.go:215-248 | a stream cut inside a page counts it exactly when its 27 header bytes are there |
| `OggDuration.LargestIsMaximum` | common/audio.go:229-232 | the largest granule is an upper bound and is attained |
| `OggDuration.GranuleReadsBack` | common/audio.go:229 | every signed 64-bit granule is read back from its eight little-endian bytes |
| `OggDuration.JunkIsNotSynced` | common/audio.go:219-226 | resynchronisation cannot find a pattern that straddles the start of a page |
| `SystemMonitor.Monitor.StartSystemMonitor` | common/system_monitor.go:70-84 | starts a loop exactly when there is no handle |
| `SystemMonitor.Monitor.Finish` | common/system_monitor.go:121-128 | clears the handle exactly if it is still the observed one |
| `SystemMonitor.StepKeepsInv` | common/system_monitor.go:70-132 | every step keeps the link between handle, cancellation, live loops and finished stops |
| `SystemMonitor.AtMostOneLoop` | common/system_monitor.go:70-132 | in every run at most one loop is alive |
| `SystemMonitor.StoppedStaysStopped` | common/system_monitor.go:110-132 | the loop seen by a stop that returned without an error has ended for good |
| `SystemMonitor.HandleChanges` | common/system_monitor.go:121-128 | a handle is cleared only by a stop of its own, ended loop, and set only by a start when there is none |
| `SystemMonitor.StaleStopIsHarmless` | common/system_monitor.go:121-128 | a late stop of an older loop leaves a newer handle and its loop alone |
| `SystemMonitor.StartRunsIff` | common/system_monitor.go:70-84 | a start leaves an uncancelled loop exactly when there was no handle or its loop was not cancelled |
| `SystemMonitor.CancelledHandleBlocksStarts` | common/system_monitor.go:119-131 | after a stop that gave up, no number of starts brings monitoring back |
| `SystemMonitor.GivenUpStopBlocks` | common/system_monitor.go:119-131 | a run that reaches such a state |
| `SystemMonitor.StopThenStartRevives` | common/system_monitor.go:110-132 | one more finished stop and a start do |
| `SystemMonitor.StopEndsLoop` | common/system_monitor.go:110-132 | a stop that is let finish ends the running loop and clears the handle |
| `QuotaMath.ConvertProjects` | common/quota_math.go:65-137 | every conversion is the unlimited one cut off at the 32-bit range; NaN gives 0, infinities the ends |
| `QuotaMath.ConvertIsMonotone` | common/quota_math.go:65-137 | larger values never give smaller quotas |
| `QuotaMath.ConvertFixesQuotas` | common/quota_math.go:65-137 | in-range integers convert to themselves, without a clamp |
| `QuotaMath.ConvertIsClose` | common/quota_math.go:88-131 | truncation is off by less than 1 toward zero, rounding by at most a half |
| `QuotaMath.StrictIffInRange` | common/quota_math.go:81-137 | the strict form succeeds exactly when the prepared value is in range, and otherwise reports the clamp |

## Left out

- Redis time-outs, eviction, persistence and network errors; each Lua script and EXEC is one step, and versions are integers without the rounding of Lua numbers. An expiring hash is an event, markers and the sequence do not expire.
- HIncrBy and HSetField writes beside the fence, and the reflection that turns objects into hash fields.
- Parsing of addresses and networks: a parameter that gives an address, a family and a prefix length.
- Starting and stopping the limiter's sweeper; its ticks are events. A key keeps one limit, and the clock does not go back.
- Generation of codes and claim ids: codes are inputs, claim ids are fresh.
- The services behind task submission: every outcome is possible, except that an error comes without a result and a task only after an upstream answer. A panic inside the handler is not part of the model, nor is the wording of messages and marks.
- Numbers of attempts: the retry budget of each turn is given by the environment.
- HTTP, JSON, audit records, cache refreshes and database errors around the key and model actions; enabling and disabling a single key.
- MultiKey.DeleteDisabledIsRepeatedDelete: about every call of the repetition; two actions whose calls differ may still happen to store the same channel, which is not characterised.
- MultiKey.GetKeyStatus: key previews cut by characters, not by bytes.
- Special parsing of Vertex AI keys before an append.
- The regular-expression engine of ignore rules and the normalization of redirects, which are parameters; notifications and scheduling of checks.
- Values that are lists or objects in pricing data, and NaN in it; numbers are reals without rounding.
- The conversion of chosen prices to ratios and its rounding to six digits, and the OpenRouter conversion: formulas of one line each.
- OggDuration.GetOpusDuration: read errors other than the end of input, and readers that return fewer bytes than they have; the page checksum is not checked by the source either.
- The other audio formats.
- The readings the monitor takes, and its timers; a loop ends at some time after it is cancelled.
- QuotaMath.ConvertProjects: decimals and floats are reals, so rounding of a decimal beyond 53 bits on its way to a float is not modelled, and log lines are not.
