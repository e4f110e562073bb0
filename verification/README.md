# Model catalog: sync, registry and events

This project models the part of the platform that keeps the catalog of AI models up to date, and proves
what it guarantees. Collectors report models of vendors; their reports are completed, merged by the
authority of their sources and applied to a registry; every change of the registry is announced through a
transactional outbox; clients list and resolve what is stored. Beside it stands the small loop that
tracks the official versions of command line tools.

Verify everything with `dafny verify dfyconfig.toml`.

## The parts

- `Text`, `Ordering`: strings, sorting and ordered enumeration as the other files need them.
- `Slugs`, `ModelIdentity`: vendor and model slugs, release suffixes, channel words, snapshot aliases.
  `SlugPieces` and `IdentityReference` say what they compute without their steps: slugs as joined pieces, dates
  as numbers, channel words as text between breaks.
- `EntryMerge`, `MergedFields`, `CollectedSources`, `SourceMerge`, `SourceAuthority`, `AuthorityFold`,
  `FoldOrder`: the merge algebra, `MergedFields` on raw inputs and field by field. Merging two entries swaps
  them when the second is the more trusted one, so merging is not associative; the descending sort of the
  collectors' results is what makes the outcome the first value in authority order.
  `FoldOrder.OrderKeepsEntryIff` says exactly which other orders would do,
  `AuthorityFold.FoldOrderMattersIff` in which fields another order of three reports shows, and
  `AuthorityFold.FoldOrderShows` gives reports for which it does.
- `VendorScope`: which vendor a raw name means, and when that depends on the order of registration.
- `Identities`, `Snapshot`, `Collect`, `GlobalSnapshot`: candidates, private snapshots, regrouping and
  fan-in. Loops over maps take their keys in any order and the order in which collectors finish is an
  input, so a contract that fixes the outcome proves it independent of both.
- `RegistryEntries`, `Registry`, `RegistryRuns`, `NamedSources`: the store, and which reports it takes. A
  transaction is a method that changes all tables or none; runs are sequences of transactions in commit
  order.
- `Resolve`, `LikePattern`, `ListQuery`, `ListShortfalls`, `ListWalk`: the queries. Which rows the database
  evaluates beyond those it needs is an input of a request. A walk is a list of requests, each meeting a registry
  of its own, so anything may happen between two pages.
- `Reconcile`, `StoredEntries`, `SyncRun`: applying a snapshot, and what the registry then holds, told by the
  snapshot's entries. Several runs of one plan are a state machine whose moves are transactions, with a stop
  allowed at every point; the loop of one run is proved to make only such moves.
- `Outbox`, `Acceptance`, `Drain`, `Delivery`: outbox, publishers, stream and consumers as interleaved steps
  with faults, ambiguous outcomes, redeliveries and crashes at every point.
- `CliVersions`: the version sync and its store.

## Where the code falls short of what is said about it

- The comment on `NormalizeExternalModelIdentity` says it prefers the shortest candidate; the code takes the
  first that differs from the slug (`ModelIdentity.ShortestCandidateIff`,
  `ModelIdentity.InstructVariantIsPassedOver`).
- Slug normalisation is not idempotent when whitespace other than a space hides behind an edge dash
  (`Slugs.VendorSlugIdempotentIff`, `Slugs.ModelSlugIdempotentIff`), and the same whitespace can hide a
  channel word (`ModelIdentity.ChannelTokenSurvivesIff`, `ModelIdentity.TabHidesChannelToken`).
- Priorities are compared by a 32-bit subtraction, which misorders sources whose priorities are too far apart
  (`CollectedSources.HigherPriorityFirstIff`, `CollectedSources.HighestPriorityComesLast`).
- A source that leaves its priority to the authority table loses it when a second report of it carries a
  small positive one (`SourceAuthority.MergeKeepsPriorityIff`, `SourceAuthority.TableLosesToOne`). No present
  collector sets a priority, so only other callers can bring such reports.
- A vendor id registered late overwrites an alias bound to another vendor
  (`VendorScope.OrderFreeIffClashFree`, `VendorScope.LaterIDWins`).
- Resolving a model with the vendor named never reaches the alias lookup: the driver's error for a missing
  row is wrapped before it is compared (`Resolve.ScopedMeetsScanIff`, `Resolve.BareScanWouldResolve`,
  `Resolve.ScopedAliasIsLost`).
- An upsert fails as a whole on a source whose definition names no model (`NamedSources.ReportedUpsertIff`,
  `RegistryRuns.NamelessIsNotStored`). No present collector sets the definition of a source, so only other
  callers can bring such a source.
- The life cycle filter of the list query reads a number under the key `lifecycleStatus`, and definitions are
  stored with a name under `lifecycle_status` (store/codec.go:14), so a model with an excluded status is
  listed (`ListShortfalls.LifecycleFailsIff`, `ListShortfalls.ExclusionAgreesIff`,
  `ListShortfalls.BlockedIsListed`).
- The category filter casts the stored category to a number, and categories are stored by name, so the
  database refuses the query (`ListShortfalls.RefusalIff`, `ListShortfalls.CategoryFilterFails`,
  `ListShortfalls.ModerationIsRefused`).
- Marking an outbox row trims the event id, enqueueing does not: a row under an untrimmed id is never marked
  and is published again and again (`Outbox.MarkHitsOwnRowIff`, `Drain.UntrimmedIsRepublished`), and marking it
  can publish a row that was never sent (`Acceptance.KeptInAllWeatherIff`, `Acceptance.UnsentIsMarked`).
- The consumer is idempotent by its record of processed events only: overlapping deliveries and lost marks
  let the handler succeed twice (`Delivery.SucceedsAgainIff`, `Delivery.HandlerCanSucceedTwice`).
- Without managed vendors a sync run empties the registry (`SyncRun.NoManagedVendorsEmptyTheRegistry`).
- A CLI whose source does not resolve loses its snapshot, while one whose fetch fails keeps it
  (`CliVersions.DroppedIff`, `CliVersions.UnresolvedIsDropped`).

## Assumptions

- Definitions are validated by code outside this model: validity is a parameter, and where entries are merged
  and collected again it is assumed that filling the gaps of a valid definition from a valid one for
  the same model keeps it valid.
- Collected sources are assumed to have identifiers on which slug normalisation is a projection, and no
  negative priority, wherever a result speaks of the list of sources as a list. The collectors leave the
  priority to the authority table.
- The database runs transactions one after the other, refuses null where a column is not null, keeps keys
  unique and deletes aliases with their entry. It orders text by code point. It evaluates the conditions of a
  query in an order of its own, on all rows it needs and perhaps on others, and refuses the query when a cast
  it evaluates fails; a text casts to a number if it is a decimal number of 32 bits.
- Definitions, badges and prices come back from their JSON columns as they went in, and page tokens decode to
  what was encoded; event ids generated for events without one are new and trimmed.
- The broker accepts, refuses, or accepts and reports a failure; it delivers anything it holds any number of
  times.

## Model

| member | source | states |
|---|---|---|
| `Text.LessIsLexicographic` | `packages/platform-k8s/internal/modelservice/models/source_priority.go:64` | the order of strings: at the first rune in which they differ, a prefix being the smaller one |
| `Text.LowerLetters` | `packages/platform-k8s/internal/modelservice/modelidentity/identity.go:13` | lower-casing changes A to Z only, each to the small letter of its place |
| `Slugs.CollapseDashes` | `packages/platform-k8s/internal/modelservice/modelidentity/identity.go:22-24` | the loop that replaces double dashes terminates and leaves every run of dashes as one dash |
| `Slugs.NormalizedVendorSlug` | `packages/platform-k8s/internal/modelservice/modelidentity/identity.go:12-26` | the vendor slug: lower-cased, trimmed, separators turned into dashes, edge dashes dropped before runs are collapsed |
| `Slugs.NormalizeExternalModelSlug` | `packages/platform-k8s/internal/modelservice/modelidentity/identity.go:48-68` | the model slug: as for vendors but the dot stays, runs are collapsed before edge dashes are dropped, and `qwen-3` is rewritten last |
| `Slugs.TrimCollapseCommute` | `packages/platform-k8s/internal/modelservice/modelidentity/identity.go:16-25` | collapsing and dropping edge dashes commute, so the two normalisers differ only in their separators |
| `Slugs.SlugsAreCanonical` | `packages/platform-k8s/internal/modelservice/modelidentity/identity.go:12-26` | every slug is free of upper-case letters, of the separators it replaces, of double dashes and of edge dashes |
| `Slugs.VendorSlugIdempotentIff` | `packages/platform-k8s/internal/modelservice/modelidentity/identity.go:12-26` | the vendor normaliser is idempotent on an identifier exactly when no whitespace is left at the edges once edge whitespace and then edge separators are stripped |
| `Slugs.ModelSlugIdempotentIff` | `packages/platform-k8s/internal/modelservice/modelidentity/identity.go:48-68` | the same condition decides idempotence of the model normaliser, the `qwen-3` rewrite included |
| `Slugs.SpacesOnlyIsIdempotent` | `packages/platform-k8s/internal/modelservice/modelidentity/identity.go:12-68` | with U+0020 as the only whitespace both normalisers are idempotent |
| `Slugs.TabBehindDashBreaksIdempotence` | `packages/platform-k8s/internal/modelservice/modelidentity/identity.go:12-14` | an identifier with a tab behind its first dash is not a fixed point: whitespace is trimmed before dashes are |
| `SlugPieces.VendorSlugJoins` | `packages/platform-k8s/internal/modelservice/modelidentity/identity.go:12-26` | a vendor slug is the pieces of the lower-cased, trimmed identifier between dashes, underscores, spaces, dots and slashes, joined by dashes |
| `SlugPieces.ModelSlugJoins` | `packages/platform-k8s/internal/modelservice/modelidentity/identity.go:48-68` | a model slug is the pieces between dashes, underscores, spaces and slashes, joined, but `qwen-3-` at the head becomes `qwen3-` and `qwen-3.` becomes `qwen3.` |
| `SlugPieces.QwenHeads` | `packages/platform-k8s/internal/modelservice/modelidentity/identity.go:59-65` | both heads at work: `qwen-3-32b` and `qwen-3.5` |
| `ModelIdentity.CutIsSound` | `packages/platform-k8s/internal/modelservice/modelidentity/identity.go:143-207` | whatever a suffix cutter returns, base, some whitespace, a dash and the suffix make up the trimmed identifier again |
| `ModelIdentity.CutIsComplete` | `packages/platform-k8s/internal/modelservice/modelidentity/identity.go:143-207` | every identifier made of a base, whitespace, a dash and an accepted suffix is cut into exactly that base and suffix |
| `ModelIdentity.CutRoundTrip` | `packages/platform-k8s/internal/modelservice/modelidentity/identity.go:143-207` | cutting base-dash-suffix gives base and suffix back, for each of the three cutters |
| `ModelIdentity.PreciseDateExcludesOthers` | `packages/platform-k8s/internal/modelservice/modelidentity/identity.go:143-207` | when a precise date is cut, neither the calendar nor the four-digit cutter applies |
| `ModelIdentity.CalendarAndReleaseIsMonthYear` | `packages/platform-k8s/internal/modelservice/modelidentity/identity.go:171-207` | when both the calendar and the four-digit cutter apply, the identifier ends in month and year |
| `ModelIdentity.NormalizeExternalModelIdentity` | `packages/platform-k8s/internal/modelservice/modelidentity/identity.go:32-45` | the scan over the candidates returns the base of the first cut that applies, with the alias built for it, or the slug itself |
| `ModelIdentity.FirstCandidate` | `packages/platform-k8s/internal/modelservice/modelidentity/identity.go:210-237` | the candidate list starts with the base of the first cut, or holds nothing but the slug |
| `ModelIdentity.FirstCutIsShortest` | `packages/platform-k8s/internal/modelservice/modelidentity/identity.go:32-45` | the base taken is no longer than the base of any other cut that applies |
| `ModelIdentity.IdentityShape` | `packages/platform-k8s/internal/modelservice/modelidentity/identity.go:32-45` | the result is the slug with no alias and no cut applies, or a cut base with exactly one snapshot alias equal to the slug |
| `ModelIdentity.SpacesOnlyIdentity` | `packages/platform-k8s/internal/modelservice/modelidentity/identity.go:32-45` | with U+0020 as the only whitespace the result is the slug, or what stands before a dash and an accepted suffix in it with the slug as snapshot alias, and it names no release channel |
| `ModelIdentity.ChannelTokenSurvivesIff` | `packages/platform-k8s/internal/modelservice/modelidentity/identity.go:32-45` | the promise that an accepted identifier names no release channel fails exactly when the slug ends in a channel word, whitespace, a dash and an accepted suffix |
| `ModelIdentity.TabHidesChannelToken` | `packages/platform-k8s/internal/modelservice/modelidentity/identity.go:72-109` | an input that shows it for every channel word: a tab before the cut hides the word from the check, and the accepted identifier names the channel |
| `ModelIdentity.ShortestCandidateIff` | `packages/platform-k8s/internal/modelservice/modelidentity/identity.go:28-31` | the candidate taken is the shortest listed exactly when a precise date was cut or the base has no `-instruct` variant |
| `ModelIdentity.InstructVariantIsPassedOver` | `packages/platform-k8s/internal/modelservice/modelidentity/identity.go:210-237` | inputs that show it, `foo-instruct-2024` among them: the shorter `foo` is a candidate and `foo-instruct` is taken |
| `ModelIdentity.FooInstruct` | `packages/platform-k8s/internal/modelservice/modelidentity/identity.go:210-237` | `foo-instruct-2024` is one of these inputs |
| `IdentityReference.SuffixesAreNumbers` | `packages/platform-k8s/internal/modelservice/modelidentity/identity.go:240-310` | the suffixes as numbers: year, month 1 to 12 and day 1 to 31, dashed or not; month and year in either order; four digits |
| `IdentityReference.ChannelsAreWords` | `packages/platform-k8s/internal/modelservice/modelidentity/identity.go:72-109` | a name is found to name a release channel exactly if its trimmed lower-case form holds `preview`, `latest` or `experimental` between two of the eight breaks or an end |
| `IdentityReference.RejectedIff` | `packages/platform-k8s/internal/modelservice/modelidentity/identity.go:32-36` | a name is rejected exactly if its slug is empty or holds one of the three words like that |
| `EntryMerge.MergeDefinitionAliases` | `packages/platform-k8s/internal/modelservice/models/definition_merge.go:83-120` | the loops and the sort yield the distinct trimmed aliases of both lists by kind and value |
| `EntryMerge.MergedAliasMembers` | `packages/platform-k8s/internal/modelservice/models/definition_merge.go:83-120` | an alias is in the merge exactly if it is a cleaned alias of either list, and the merge is strictly sorted |
| `EntryMerge.MergeDefinitionMetadata` | `packages/platform-k8s/internal/modelservice/models/definition_merge.go:23-81` | filling the gaps of the primary field by field gives the merged definition |
| `EntryMerge.MergeDefinitionsAssociative` | `packages/platform-k8s/internal/modelservice/models/definition_merge.go:23-120` | gap filling is associative, aliases included |
| `EntryMerge.NormalizeDefinitionSourceBadges` | `packages/platform-k8s/internal/modelservice/models/source_model_badges.go:21-61` | the loop with its seen set and the sort give the sorted distinct known badges |
| `EntryMerge.NormalizeBadgesTwice` | `packages/platform-k8s/internal/modelservice/models/source_model_badges.go:21-61` | normalising badges is idempotent |
| `EntryMerge.MergedBadgeMembers` | `packages/platform-k8s/internal/modelservice/models/source_model_badges.go:63-65` | a badge is in the merge exactly if it is a known badge of either list |
| `EntryMerge.MergePricingSummary` | `packages/platform-k8s/internal/modelservice/models/source_model_badges.go:99-127` | the assignments of the merge, with normalisation before and after, fill each empty price from the fallback |
| `EntryMerge.MergedPrice` | `packages/platform-k8s/internal/modelservice/models/source_model_badges.go:99-127` | per price field, and for the price type, the merge holds the normalised primary's value if it has one, else the normalised fallback's |
| `EntryMerge.MergedIsNormal` | `packages/platform-k8s/internal/modelservice/models/source_model_badges.go:67-127` | a merged summary is trimmed and names a price, or there is none |
| `EntryMerge.MergePricingAssociative` | `packages/platform-k8s/internal/modelservice/models/source_model_badges.go:99-127` | merging pricing is associative |
| `MergedFields.NormalizedPricing` | `packages/platform-k8s/internal/modelservice/models/source_model_badges.go:67-89` | on any summary: it is dropped exactly if every field but the currency is blank, and otherwise each field is kept trimmed and the type as it is |
| `MergedFields.MergedPricing` | `packages/platform-k8s/internal/modelservice/models/source_model_badges.go:99-128` | on any two summaries: per field the trimmed price of the first usable one that has one, the type likewise; no merge exactly if neither is usable |
| `MergedFields.NormalizedBadges` | `packages/platform-k8s/internal/modelservice/models/source_model_badges.go:21-61` | on any list: the seven known names that some member spells up to case and edge whitespace, in alphabetical order |
| `MergedFields.MergedAliases` | `packages/platform-k8s/internal/modelservice/models/definition_merge.go:83-120` | on any two lists: the non-blank aliases of both, values trimmed and kinds kept, each once, unspecified before stable before snapshot and then by value |
| `MergedFields.MergedDefinitions` | `packages/platform-k8s/internal/modelservice/models/definition_merge.go:23-81` | field by field: ids of the first, its name unless blank, its numbers, lists and limits unless zero or empty, the aliases of both, no other member; a single definition stays as it is |
| `CollectedSources.NormalizeCollectedSources` | `packages/platform-k8s/internal/modelservice/models/source_model.go:21-50` | one source per key, each the merge of its reports; in the canonical order whenever ids are stable and priority differences fit 32 bits, whatever order the map is visited in |
| `CollectedSources.HigherPriorityFirstIff` | `packages/platform-k8s/internal/modelservice/models/source_model.go:138-141` | of two sources alike in directness the comparison puts the higher priority first exactly when the 32-bit difference does not wrap around |
| `CollectedSources.HighestPriorityComesLast` | `packages/platform-k8s/internal/modelservice/models/source_model.go:138-141` | an input that shows it: the highest priority there is sorts behind the priority -2 |
| `CollectedSources.ComparisonIsStrictTotal` | `packages/platform-k8s/internal/modelservice/models/source_model.go:130-152` | where differences fit, the comparison is antisymmetric, transitive, and zero only between sources of one key and one priority |
| `CollectedSources.MergedPriority` | `packages/platform-k8s/internal/modelservice/models/source_model.go:105-128` | the priority kept for a key is the highest one reported for it |
| `CollectedSources.CanonicalForm` | `packages/platform-k8s/internal/modelservice/models/source_model.go:21-50` | output keys are distinct and exactly those of the valid inputs, and the output is strictly sorted by the comparison and clean |
| `CollectedSources.KeySequenceIsOrderFree` | `packages/platform-k8s/internal/modelservice/models/source_model.go:21-50` | the sequence of output keys does not depend on the order of the input |
| `CollectedSources.CanonicalIsIdempotent` | `packages/platform-k8s/internal/modelservice/models/source_model.go:21-50` | normalising a normalised list changes nothing |
| `CollectedSources.MergedOfCanonical` | `packages/platform-k8s/internal/modelservice/models/source_model.go:21-50` | a normalised list merges to the same sources as the list it came from |
| `CollectedSources.NormalizedSource` | `packages/platform-k8s/internal/modelservice/models/source_model.go:71-88` | on any source: usable exactly if it names a vendor, a model and a source; what becomes of each of its fields |
| `CollectedSources.CanonicalOrder` | `packages/platform-k8s/internal/modelservice/models/source_model.go:130-152` | the normalised list has direct sources first, then higher priorities, then source, vendor, model and own model ids in alphabetical order |
| `CollectedSources.MergeIntoOneIff` | `packages/platform-k8s/internal/modelservice/models/source_model.go:90-96` | two sources become one exactly if they agree in vendor, model, source, own model id and directness |
| `CollectedSources.MergeCollectedSource` | `packages/platform-k8s/internal/modelservice/models/source_model.go:105-128` | the step-by-step merge of two reports of one source: id, definition, priority, badges and pricing |
| `SourceMerge.MergedSourceFields` | `packages/platform-k8s/internal/modelservice/models/source_model.go:105-128` | the source kept for a key holds per number, list and price the first value among its reports in list order, the union of their badges and aliases, and the first report's name and kind |
| `SourceAuthority.CollectedEntryAuthorityPriority` | `packages/platform-k8s/internal/modelservice/models/source_priority.go:17-25` | the running maximum is the priority of the best source, zero without sources |
| `SourceAuthority.CollectedEntryAuthoritySourceID` | `packages/platform-k8s/internal/modelservice/models/source_priority.go:27-39` | the running best ends at the id of the best source, ties going to the smaller id and blank ids last |
| `SourceAuthority.CompareCollectedEntryAuthority` | `packages/platform-k8s/internal/modelservice/models/source_priority.go:41-66` | entries compare by priority and then by source id |
| `SourceAuthority.BestIsBest` | `packages/platform-k8s/internal/modelservice/models/source_priority.go:17-39` | the authority of an entry is that of one of its sources, and no source's is higher |
| `SourceAuthority.AuthoritiesAreOrdered` | `packages/platform-k8s/internal/modelservice/models/source_priority.go:41-66` | the authority order is a strict weak order whose ties form an equivalence |
| `SourceAuthority.HigherMeans` | `packages/platform-k8s/internal/modelservice/models/source_priority.go:41-66` | an entry outranks another exactly by a higher priority, or at one priority by the source id that comes first, blank ones last |
| `SourceAuthority.ListedAuthorities` | `packages/platform-k8s/internal/modelservice/models/source_authority.go:6-13` | the six listed sources by name and number; any other counts for nothing |
| `SourceAuthority.PriorityOf` | `packages/platform-k8s/internal/modelservice/models/source_priority.go:68-73` | a source counts for its own priority if that is positive, else for what it is listed with |
| `SourceAuthority.MergeKeepsPriorityIff` | `packages/platform-k8s/internal/modelservice/models/source_priority.go:68-73` | merging two reports of one source keeps the higher effective priority exactly unless one leaves it to the table and the other carries a positive one below the table's |
| `SourceAuthority.TableLosesToOne` | `packages/platform-k8s/internal/modelservice/models/source_priority.go:68-73` | two reports that show it: one of a source the table gives 500, one that carries a 1, and the merge counts as 1 |
| `SourceAuthority.CanonicalKeepsAuthority` | `packages/platform-k8s/internal/modelservice/models/source_priority.go:17-39` | normalising the sources of an entry does not change its authority, if reports of one key agree on carrying a priority |
| `AuthorityFold.MergeCollectedEntries` | `packages/platform-k8s/internal/modelservice/models/definition_merge.go:11-21` | the merge with its swap: the more trusted entry is the primary; sources are one per key, and the canonical list when they are well formed |
| `AuthorityFold.MergeCommutesUnlessTied` | `packages/platform-k8s/internal/modelservice/models/definition_merge.go:11-14` | merging commutes unless the authorities tie, and on a tie the first argument wins |
| `AuthorityFold.DescendingFoldNeverSwaps` | `packages/platform-k8s/internal/modelservice/models/definition_merge.go:11-21` | folding reports in strictly descending authority never swaps, keeps the first report's authority, and its sources are those of all reports normalised at once |
| `AuthorityFold.DescendingFold` | `packages/platform-k8s/internal/modelservice/models/definition_merge.go:11-120` | the fold holds per number, capability list and price the first non-empty value in authority order, and the unions of aliases, badges and source keys |
| `AuthorityFold.DescendingFoldKeepsFirst` | `packages/platform-k8s/internal/modelservice/models/sync/vendor_support.go:37-40` | since candidates are completed before merging, ids, display name, shapes and modalities always come from the most trusted report |
| `AuthorityFold.FoldOrderMattersIff` | `packages/platform-k8s/internal/modelservice/models/sync/collect.go:69-75` | with the most and the least trusted of three reports merged first, a number, list or price comes out different from the descending fold exactly when the most trusted report lacks it and the other two have it and disagree |
| `AuthorityFold.OtherOrdersAgree` | `packages/platform-k8s/internal/modelservice/models/sync/collect.go:69-75` | in the three remaining orders no number, list or price comes out different |
| `AuthorityFold.FoldOrderShows` | `packages/platform-k8s/internal/modelservice/models/sync/collect.go:69-75` | reports of authority 600, 400 and 100 that show it: the descending fold keeps a context of 4000 tokens, merging 100, 600, 400 keeps 1000 |
| `FoldOrder.MergedConcat` | `packages/platform-k8s/internal/modelservice/models/source_model.go:21-50` | merging two lists of sources by key is merging each and joining the results, so sources can be merged in any grouping |
| `FoldOrder.PairsAssociate` | `packages/platform-k8s/internal/modelservice/models/definition_merge.go:15-21` | but for the swap, merging entries is associative in definition, badges, pricing and sources |
| `FoldOrder.FoldFollowsOrder` | `packages/platform-k8s/internal/modelservice/models/definition_merge.go:11-21` | folding any list of reports of distinct authority is filling gaps without a swap in one order: each report goes in front if it is above what is merged, and behind if it is below |
| `FoldOrder.OrderKeepsEntryIff` | `packages/platform-k8s/internal/modelservice/models/sync/collect.go:69-75` | an order of any number of reports leaves the whole entry as the descending order does, whatever the reports hold, exactly if every report in it is above all those before it or below all of them; in any other order some contents come out with another number |
| `VendorScope.NewConfiguredVendorScope` | `packages/platform-k8s/internal/modelservice/models/sync/vendor.go:16-39` | the two loops build the scope: ids bind to themselves, aliases to their vendor, conflicts to a tombstone, preset sources are not managed |
| `VendorScope.ScopeFollowsClaims` | `packages/platform-k8s/internal/modelservice/models/sync/vendor.go:50-61` | if no alias is another vendor's id, a slug is unbound, bound or a tombstone as no, one or several vendors claim it, however often |
| `VendorScope.ResolvesIffOneClaimant` | `packages/platform-k8s/internal/modelservice/models/sync/vendor.go:63-83` | then a name resolves to a vendor exactly if that vendor is the only one claiming its slug, and to a canonical id unless it is a preset source |
| `VendorScope.ScopeIsOrderFree` | `packages/platform-k8s/internal/modelservice/models/sync/vendor.go:16-39` | then resolution does not depend on the order of the vendors |
| `VendorScope.OrderFreeIffClashFree` | `packages/platform-k8s/internal/modelservice/models/sync/vendor.go:28-31` | resolution is the same for every permutation of the vendors exactly if no alias slug equals another vendor's id |
| `VendorScope.LastOneDecides` | `packages/platform-k8s/internal/modelservice/models/sync/vendor.go:28-31` | if an alias of one vendor is the id of another, registering the latter last restores its id and registering it first leaves a tombstone |
| `VendorScope.LaterIDWins` | `packages/platform-k8s/internal/modelservice/models/sync/vendor.go:28-31` | two vendors that show it: `beta` is an alias of `alpha`, and means itself or nobody as `beta` is registered last or first |
| `VendorScope.CanonicalResolutionIsIdempotent` | `packages/platform-k8s/internal/modelservice/models/sync/vendor.go:63-72` | resolving a canonical id gives it back |
| `VendorScope.CanonicalIDsAre` | `packages/platform-k8s/internal/modelservice/models/sync/vendor.go:33-36` | the canonical and the managed ids are the ids of the vendors that are not preset sources |
| `VendorScope.ManagedIff` | `packages/platform-k8s/internal/modelservice/models/source_authority.go:15-21` | a vendor is managed exactly if it is configured and not one of the four preset sources, by name |
| `Identities.IdentitiesAreTrimmed` | `packages/platform-k8s/internal/modelservice/models/identity.go:15-35` | an identity is trimmed and has neither part blank |
| `Snapshot.VendorSupportDefinitionCandidate` | `packages/platform-k8s/internal/modelservice/models/sync/vendor_support.go:12-45` | the step-by-step completion of a report: refusals, trimmed ids, display name, shapes and modalities, validation last |
| `Snapshot.CandidateIsCompletion` | `packages/platform-k8s/internal/modelservice/models/entry_defaults.go:6-20` | an accepted definition is the reported one with only the gaps the code fills filled, everything else as reported; it is refused exactly for a missing definition, a blank id, another vendor or an invalid completion |
| `Snapshot.ReportKeeps` | `packages/platform-k8s/internal/modelservice/models/sync/vendor_support.go:12-46` | an accepted report keeps its completed definition, its known badges, its trimmed prices and its normalised sources; when it is refused |
| `Collect.ReportIsComplete` | `packages/platform-k8s/internal/modelservice/models/sync/vendor_support.go:37-44` | an accepted report is valid, has a name, shapes and modalities, and normalised badges, prices and sources |
| `Collect.ReportIsFixed` | `packages/platform-k8s/internal/modelservice/models/sync/vendor_support.go:12-45` | collecting a collected entry again changes nothing |
| `Snapshot.CollectedDefinitionsSnapshot.AddCollected` | `packages/platform-k8s/internal/modelservice/models/sync/snapshot.go:51-80` | one report joins the entry of its model, or is skipped; with plain sources there is one outcome, otherwise it is fixed up to the order of the sources |
| `Snapshot.CollectedDefinitionsSnapshot.Merge` | `packages/platform-k8s/internal/modelservice/models/sync/snapshot.go:46-81` | merging grouped reports adds every vendor's reports in list order, the vendors one after the other in some order, and marks the vendors with reports as collected; with plain sources and trimmed vendors the order does not show |
| `Snapshot.MergeIsDeterministic` | `packages/platform-k8s/internal/modelservice/models/sync/snapshot.go:46-81` | so the outcome is a function of the inputs |
| `Snapshot.AddItemsAt` | `packages/platform-k8s/internal/modelservice/models/sync/snapshot.go:46-81` | a vendor's reports touch only models of that vendor, each depending only on its own entry |
| `Collect.ExtractGroupedDefinitions` | `packages/platform-k8s/internal/modelservice/models/sync/collect.go:152-168` | regrouping lists every entry that has a definition and names a vendor once, under the trimmed id of that vendor, and nothing else, whatever order the map is visited in |
| `Collect.MergeOfExtract` | `packages/platform-k8s/internal/modelservice/models/sync/collect.go:81-84` | merging the groups of a snapshot into another merges exactly its entries, and names exactly its vendors |
| `Collect.CollectDefinitionSourceIsolated` | `packages/platform-k8s/internal/modelservice/models/sync/collect.go:103-140` | a collector's result regroups the merge of its reports in a snapshot of its own |
| `Collect.SortByAuthority` | `packages/platform-k8s/internal/modelservice/models/sync/collect.go:70-75` | sorting permutes the results, and puts none before one of higher priority, or of the same priority and a smaller id |
| `Collect.ResultsInOrder` | `packages/platform-k8s/internal/modelservice/models/sync/collect.go:69-75` | of two results the one merged first has the higher authority, or the same and the smaller source id |
| `Collect.CollectAuthoritativeDefinitions` | `packages/platform-k8s/internal/modelservice/models/sync/collect.go:35-98` | the fan-in over results in completion order yields the collectors' snapshots overlaid in authority order, with the vendors of the entries as collected vendors; nothing without managed vendors |
| `GlobalSnapshot.CompletionOrderIsInvisible` | `packages/platform-k8s/internal/modelservice/models/sync/collect.go:61-75` | collectors with distinct ids give the same merged snapshot in every completion order |
| `GlobalSnapshot.EntryIsFold` | `packages/platform-k8s/internal/modelservice/models/sync/collect.go:77-89` | each entry of the merged snapshot is the fold of the collectors' entries for that model, in sorted order |
| `GlobalSnapshot.LocalAuthority` | `packages/platform-k8s/internal/modelservice/models/source_authority.go:3-5` | what a collector registered in the authority table collects under its own id has its priority and id as authority |
| `GlobalSnapshot.GlobalEntryIsAuthorityFold` | `packages/platform-k8s/internal/modelservice/models/sync/collect.go:69-89` | with registered collectors the snapshot has an entry for exactly the models somebody reported, and it is the descending authority fold of the reports |
| `GlobalSnapshot.CollectedVendorsAreDefined` | `packages/platform-k8s/internal/modelservice/models/sync/snapshot.go:50` | a vendor counts as collected exactly when the merged snapshot holds a validated definition of it |
| `RegistryEntries.ProtoRegistrySourcesFromCollectedSources` | `packages/platform-k8s/internal/modelservice/models/model_registry_entry.go:30-53` | the loop maps every normalised source to one registry source |
| `RegistryEntries.NewModelRegistryEntry` | `packages/platform-k8s/internal/modelservice/models/model_registry_entry.go:16-28` | the registry entry of a collected entry |
| `RegistryEntries.EntryKeeps` | `packages/platform-k8s/internal/modelservice/models/model_registry_entry.go:16-28` | on any entry: its registry entry has its definition, its known badges and, unless it names none, its trimmed prices |
| `RegistryEntries.NormalizedObservation` | `packages/platform-k8s/internal/modelservice/models/model_registry_entry.go:60-78` | what normalising does to each field of an observation |
| `RegistryEntries.EffectiveIDIsBlankIff` | `packages/platform-k8s/internal/modelservice/models/model_registry_entry.go:73-100` | a source is without effective model id exactly when it names none and carries a definition that names none |
| `RegistryEntries.NormalizeRegistryObservations` | `packages/platform-k8s/internal/modelservice/models/store/codec.go:82-101` | the loop with its seen set keeps the first observation of each key and drops blank source ids |
| `RegistryEntries.ObservationKeys` | `packages/platform-k8s/internal/modelservice/models/store/codec.go:82-101` | the keys kept are exactly those of the sources that name a source |
| `RegistryEntries.ObservationsOfEntry` | `packages/platform-k8s/internal/modelservice/models/store/codec.go:82-101` | the observations of a collected entry are the triples of its normalised sources |
| `RegistryEntries.ObservationRecords` | `packages/platform-k8s/internal/modelservice/models/model_registry_entry.go:31-58` | an observation records, under its triple, the kind, badges, prices and definition of the first source that has the triple; without a definition one of vendor, model and name stands in |
| `Registry.PostgresModelRegistry.UpsertManagedDefinition` | `packages/platform-k8s/internal/modelservice/models/store/store.go:91-162` | an upsert either commits the new row, aliases, observations and event together, or changes nothing |
| `Registry.PostgresModelRegistry.DeleteManagedDefinition` | `packages/platform-k8s/internal/modelservice/models/store/store.go:164-195` | a delete removes row, aliases and observations and records the event with the stored generation; a missing row is no error |
| `Registry.PostgresModelRegistry.NextGeneration` | `packages/platform-k8s/internal/modelservice/models/store/store.go:197-206` | the generation is one more than the stored one and the mutation an update, or one and a creation |
| `Registry.ReplaceAliases` | `packages/platform-k8s/internal/modelservice/models/store/store_write.go:54-72` | the alias rows of a model become its cleaned aliases, other rows stay |
| `Registry.ReplaceObservations` | `packages/platform-k8s/internal/modelservice/models/store/store_write.go:16-52` | the observation rows of a model are deleted and inserted one by one, failing on the first insert that violates a constraint |
| `RegistryRuns.ReplacedRows` | `packages/platform-k8s/internal/platform/state/migrations.go:267-279` | the inserts fail exactly on a missing source model id, never on the key, and leave one row per distinct observation |
| `RegistryRuns.RunsAreConsistent` | `packages/platform-k8s/internal/modelservice/models/store/store_write.go:54-72` | in every reachable state entries lie under their identity, the alias rows are exactly the cleaned aliases of the stored definitions, and observations belong to entries |
| `RegistryRuns.EventLogRefinesTable` | `packages/platform-k8s/internal/modelservice/models/store/store_write.go:74-96` | in every run the committed events replay to exactly the stored definitions, and per identity the versions are accepted in turn and end at the stored generation |
| `RegistryRuns.VersionsCountUpdates` | `packages/platform-k8s/internal/modelservice/models/store/store.go:197-206` | an event's version is one more than the number of events of its identity since the last deletion, a deletion carries that number itself, and it is a creation exactly at zero |
| `RegistryRuns.NoOutboxNoEvents` | `packages/platform-k8s/internal/modelservice/models/store/store_write.go:74-96` | a registry without an outbox records no event |
| `RegistryRuns.CollectedUpsert` | `packages/platform-k8s/internal/modelservice/models/store/store_write.go:16-52` | upserting a collected entry succeeds exactly when every normalised source has an effective model id, and then the model's observation rows are exactly the triples of its sources |
| `NamedSources.ReportedUpsertIff` | `packages/platform-k8s/internal/modelservice/models/model_registry_entry.go:73-100` | in terms of what is reported: it succeeds exactly when, for every source reported without a model id of its own, the first definition reported for its key is absent or names a model |
| `RegistryRuns.NamelessIsNotStored` | `packages/platform-k8s/internal/modelservice/models/store/codec.go:82-101` | a report that shows the failure: one usable source whose definition has a blank model id |
| `NamedSources.GlobalNames` | `packages/platform-k8s/internal/modelservice/models/sync/collect.go:77-89` | if no source is reported with a definition that names no model, none in the merged snapshot has one |
| `Resolve.AppendUniqueModelRefs` | `packages/platform-k8s/internal/modelservice/models/store/query_resolve.go:122-133` | a reference is appended unless one with the same trimmed ids is there |
| `Resolve.ResolveModel` | `packages/platform-k8s/internal/modelservice/models/store/query_resolve.go:30-69` | the staged lookup with its errors; its answer is that of a scan over the stored definitions exactly if no vendor is named or the vendor stores a model with that very id; a blank request, a scoped hit and a scoped miss each have one answer |
| `Resolve.GetRegistryEntry` | `packages/platform-k8s/internal/modelservice/models/store/postgres_management.go:63-81` | the stored row, an error for a blank id, and for a missing row the wrapped error of the driver, which is taken for a missing model only unwrapped |
| `Resolve.AliasTableIsScan` | `packages/platform-k8s/internal/modelservice/models/store/query_resolve.go:87-101` | the alias rows answer exactly as the stored definitions would |
| `Resolve.ResolvesAsScanIff` | `packages/platform-k8s/internal/modelservice/models/store/query_resolve.go:30-69` | in every reachable state: a request is answered as by a scan over the definitions, of the named vendor if there is one (the only model with that id, else the only one with that alias, else ambiguous or not found), exactly if no vendor is named or the vendor stores a model with that very id |
| `Resolve.AnswerIsUnique` | `packages/platform-k8s/internal/modelservice/models/store/query_resolve.go:30-69` | a request has one answer |
| `Resolve.ScopedMeetsScanIff` | `packages/platform-k8s/internal/modelservice/models/store/query_resolve.go:35-44` | with a vendor named, any request but one for a stored id ends in the driver's error inside another one, be the model missing or named by an alias |
| `Resolve.BareScanWouldResolve` | `packages/platform-k8s/internal/modelservice/models/store/postgres_management.go:38-74` | the cause: if the scan did not wrap the driver's error, every request that names a vendor would be answered as by the scan |
| `Resolve.ScopedAliasIsLost` | `packages/platform-k8s/internal/modelservice/models/store/query_resolve.go:35-44` | a run that shows it: the vendor stores a model with that very alias, an unscoped request finds it, and the request that names the vendor ends in an error |
| `LikePattern.LikeIsContains` | `packages/platform-k8s/internal/modelservice/models/store/query_list.go:250-253` | for every query and text, LIKE with the escaped pattern matches exactly if the text contains the trimmed lower-cased query |
| `LikePattern.EscapedMatchesItself` | `packages/platform-k8s/internal/modelservice/models/store/query_list.go:250-253` | an escaped string in a pattern matches itself and nothing else |
| `ListQuery.SearchIsSubstring` | `packages/platform-k8s/internal/modelservice/models/store/query_list.go:165-201` | the search clause finds exactly the models one of whose searched texts contains the query: ids, display name, canonical id, family, aliases and observations, most of them also with dashes read as spaces |
| `ListQuery.BuildPredicate` | `packages/platform-k8s/internal/modelservice/models/store/query_list.go:118-162` | the casts of the clauses built step by step succeed exactly on definitions whose members asked about are absent or numbers, and a model passes the clauses exactly when the filter accepts it: vendors, id, badge, query, sources, category and excluded life cycle statuses |
| `ListQuery.TokenRoundTrip` | `packages/platform-k8s/internal/modelservice/models/store/list_pagination.go:19-91` | a page token for a stored identity decodes to that identity and offset |
| `ListQuery.List` | `packages/platform-k8s/internal/modelservice/models/store/query_list.go:12-103` | the query is refused exactly if a cast that is evaluated fails; otherwise one page: the first rows behind the token in order, all of which cast, a token when more follow, the total, and per row the stored definition, badges, prices and observations |
| `ListQuery.PageIsFilled` | `packages/platform-k8s/internal/modelservice/models/store/page_size.go:30-38` | the listed page holds as many of the rows behind the token as the request says, 50 for none and at most 100, each at its place in the order of vendor and model ids; a token follows exactly if more remain; and the total |
| `ListQuery.TokenReads` | `packages/platform-k8s/internal/modelservice/models/store/list_pagination.go:19-36` | a token's bookmark is read trimmed, or not at all with a blank part, and a negative offset as none |
| `ListQuery.ListedKeeps` | `packages/platform-k8s/internal/modelservice/models/store/query_list.go:61-70` | a listed model shows the definition, the known badges and the trimmed prices of its row |
| `ListQuery.SourcesInOrder` | `packages/platform-k8s/internal/modelservice/models/store/postgres_management.go:135-213` | its sources are its stored observations, direct ones first, then by source and model id in alphabetical order |
| `ListQuery.ListedSources` | `packages/platform-k8s/internal/modelservice/models/store/postgres_management.go:135-213` | the sources listed with a model are its observations, each once, direct ones first and then by source and model id |
| `ListShortfalls.LifecycleFailsIff` | `packages/platform-k8s/internal/modelservice/models/store/query_list.go:156-161` | the life cycle clause rejects a model exactly if its definition holds a number under `lifecycleStatus` and that number is to be excluded |
| `ListShortfalls.ExclusionAgreesIff` | `packages/platform-k8s/internal/modelservice/models/store/codec.go:14` | the clause excludes by the status stored under `lifecycle_status`, for every filter, exactly if the number under `lifecycleStatus` is that status; without that key it excludes nothing and is right for a filter exactly if the stored status is not to be excluded |
| `ListShortfalls.BlockedIsListed` | `packages/platform-k8s/internal/modelservice/models/store/query_list.go:156-161` | a run that shows it: the one model stored is blocked, blocked models are to be excluded, and the page lists it |
| `ListShortfalls.FilterNames` | `packages/platform-k8s/internal/modelservice/models/store/definition_filter.go:11-59` | the numbers the filter's names and digits stand for, and -1 for any other text |
| `ListShortfalls.IDsAskedFor` | `packages/platform-k8s/internal/modelservice/models/source_ids.go:9-27` | which vendor ids a filter asks for, and which source ids: only the six listed ones, by name |
| `ListShortfalls.NumeralsCast` | `packages/platform-k8s/internal/modelservice/models/store/query_list.go:153-159` | the cast reads back every decimal numeral of 32 bits and refuses larger ones |
| `ListShortfalls.RefusalIff` | `packages/platform-k8s/internal/modelservice/models/store/query_list.go:150-155` | in whatever order the conditions are evaluated, the query is refused exactly if a row it needs does not cast, and may be refused exactly if some stored row does not |
| `ListShortfalls.CategoryFilterFails` | `packages/platform-k8s/internal/modelservice/models/store/query_list.go:150-155` | with categories stored by name, a filter by a known category never lists anything: it is refused for certain exactly if a model with a category gets through the other conditions, and otherwise the page is empty |
| `ListShortfalls.ModerationIsRefused` | `packages/platform-k8s/internal/modelservice/models/store/codec.go:14-21` | a run that shows it: of a store with one moderation model the request for moderation models is refused |
| `ListWalk.PageContinues` | `packages/platform-k8s/internal/modelservice/models/store/query_list.go:29-98` | a page fetched with the token of a walk holds matching models behind the last one returned, and leaves out none before its own last |
| `ListWalk.WalkIsComplete` | `packages/platform-k8s/internal/modelservice/models/store/query_list.go:12-103` | with any page sizes and any changes in between: identities strictly increase, a finished walk has returned every model that matched throughout, the last total counts the walk and earlier totals are zero |
| `ListWalk.FixedWalkIsExact` | `packages/platform-k8s/internal/modelservice/models/store/query_list.go:12-103` | on an unchanged registry a finished walk returns exactly the matching models in order |
| `ListWalk.FixedWalkTerminates` | `packages/platform-k8s/internal/modelservice/models/store/list_pagination.go:93-113` | on an unchanged registry a walk has no token left after as many pages as there are matching models |
| `Reconcile.Sync` | `packages/platform-k8s/internal/modelservice/models/sync/apply.go:12-74` | a run alone keeps the store consistent, touches nothing the plan keeps, ends reconciled unless an upsert fails, and cannot fail if every source of the plan names a model |
| `Reconcile.UpsertEffect` | `packages/platform-k8s/internal/modelservice/models/store/store.go:91-162` | an upsert puts exactly the planned entry in place and changes no other model |
| `Reconcile.RunsConverge` | `packages/platform-k8s/internal/modelservice/models/sync/apply.go:12-87` | however runs with one plan interleave, stop and crash, once one has completed the registry holds the planned entries and, unchanged, the models of managed vendors that were not collected, and nothing else |
| `Reconcile.ManagedModelsSurvive` | `packages/platform-k8s/internal/modelservice/models/sync/apply.go:76-87` | at no point of any execution is a model touched that is not planned and whose vendor is managed and not collected |
| `Reconcile.RerunChangesOnlyGenerations` | `packages/platform-k8s/internal/modelservice/models/sync/apply.go:36-56` | applying the plan again changes at most the generations of planned entries |
| `SyncRun.NoManagedVendorsEmptyTheRegistry` | `packages/platform-k8s/internal/modelservice/models/sync/collect.go:42-44` | without managed vendors a run plans nothing, whatever the collectors report, and applying that empties the registry |
| `SyncRun.SyncNow` | `packages/platform-k8s/internal/modelservice/models/sync/reconciler.go:67-73` | after a sync run the registry holds every entry of the merged snapshot, definition, badges, prices and observations, and else only what managed vendors nobody reported on had; or the run stops on a failing upsert having done nothing outside its plan; it does not fail if no collector reports a source with a definition that names no model |
| `SyncRun.SnapshotIsStored` | `packages/platform-k8s/internal/modelservice/models/sync/apply.go:12-74` | a registry reconciled with a run's plan holds every entry of the merged snapshot, with its definition, badges, prices and observations, and else exactly the models, unchanged, of managed vendors without an entry in it |
| `SyncRun.NamedReportsAreApplicable` | `packages/platform-k8s/internal/modelservice/models/sync/apply.go:36-56` | if no collector reports such a source, every planned entry can be stored in any registry |
| `SyncRun.StaleDeleteSafety` | `packages/platform-k8s/internal/modelservice/models/sync/apply.go:58-87` | a run, completed or not, removes a model of a managed vendor only if its snapshot holds a validated definition of that vendor |
| `SyncRun.EmptyRunKeepsManagedVendors` | `packages/platform-k8s/internal/modelservice/models/sync/collect.go:91-96` | a run in which no collector yields anything leaves exactly the models of managed vendors |
| `SyncRun.PlanIsOrderFree` | `packages/platform-k8s/internal/modelservice/models/sync/collect.go:61-75` | what a run applies does not depend on the order in which the collectors finish |
| `Outbox.OutboxTable.Enqueue` | `packages/platform-k8s/internal/platform/domainevents/outbox.go:54-80` | a blank id is replaced, a known id changes nothing |
| `Outbox.OutboxTable.Claim` | `packages/platform-k8s/internal/platform/domainevents/outbox.go:82-119` | the unpublished rows created first, at most a batch, are returned in some order and their attempts counted |
| `Outbox.BatchIsOldest` | `packages/platform-k8s/internal/platform/domainevents/outbox.go:82-105` | the claimed ids are unpublished, as many as the batch (32 unless given) or all there are, and every one was created before, or at the same time under a smaller id than, each one left out |
| `Acceptance.OlderIsClaimed` | `packages/platform-k8s/internal/platform/domainevents/outbox.go:94` | of an older row `b` and a younger row `a` a batch of one is `b` |
| `Outbox.AttemptsCounted` | `packages/platform-k8s/internal/platform/domainevents/outbox.go:82-105` | a claim adds one attempt to the claimed rows and changes nothing else |
| `Outbox.EnqueuedOnce` | `packages/platform-k8s/internal/platform/domainevents/outbox.go:54-80` | what the row of a new event holds, under which id, and that nothing else changes |
| `Outbox.MarksOneRow` | `packages/platform-k8s/internal/platform/domainevents/outbox.go:121-149` | which row a mark changes, and how |
| `Outbox.OutboxTable.MarkPublished` | `packages/platform-k8s/internal/platform/domainevents/outbox.go:121-149` | the row under the trimmed id is marked, a blank id is ignored |
| `Outbox.OutboxTable.MarkFailed` | `packages/platform-k8s/internal/platform/domainevents/outbox.go:125-149` | the trimmed error is stored in the row under the trimmed id |
| `Outbox.MarkHitsOwnRowIff` | `packages/platform-k8s/internal/platform/domainevents/outbox.go:133-149` | a row is marked published under its own id exactly when the id is trimmed |
| `Outbox.UntrimmedIDMarksAnother` | `packages/platform-k8s/internal/platform/domainevents/outbox.go:137-144` | marking an untrimmed id marks the row of the trimmed id instead |
| `Drain.UntrimmedIsRepublished` | `packages/platform-k8s/internal/platform/domainevents/publisher.go:71-101` | a row under an untrimmed id that is claimed once is claimed by every later call without failures, for ever, and never becomes published |
| `Drain.SpacedIDIsStuck` | `packages/platform-k8s/internal/platform/domainevents/outbox.go:54-80` | an event whose id begins with a space is such a row: the outbox it is enqueued in never empties |
| `Outbox.Publisher.PublishPending` | `packages/platform-k8s/internal/platform/domainevents/publisher.go:71-101` | what a call does to rows and stream for every combination of failing and unheard replies; with all ids trimmed only what was accepted becomes published, and if nothing fails exactly the batch does |
| `Outbox.CallFacts` | `packages/platform-k8s/internal/platform/domainevents/publisher.go:71-101` | the two promises, for every order in which the claim returns the rows |
| `Acceptance.EachEffect` | `packages/platform-k8s/internal/platform/domainevents/publisher.go:83-100` | which records a call reaches, which of them the stream then holds, and which rows are marked; only a failing mark after an accepted record ends it |
| `Acceptance.OutcomeIsNoted` | `packages/platform-k8s/internal/platform/domainevents/publisher.go:92-98` | the row of a refused record gets the trimmed error and that of an accepted one is published without one; no other row changes |
| `Acceptance.CallKeepsAcceptedIff` | `packages/platform-k8s/internal/platform/domainevents/publisher.go:71-101` | for any ids, order and replies, after a call every published row has been accepted by the stream exactly if every row it newly marked is in the stream by then |
| `Acceptance.KeptInAllWeatherIff` | `packages/platform-k8s/internal/platform/domainevents/outbox.go:121-149` | that holds whatever the replies exactly if every claimed id is trimmed, or its trimmed form is blank, unknown, published already or in the stream already |
| `Acceptance.UnsentIsMarked` | `packages/platform-k8s/internal/platform/domainevents/outbox.go:121-149` | two rows that show it, under a space and `1` and under `1`: even a call without failures on a batch of one marks the second as published, which was never sent |
| `Drain.CallShortensQueue` | `packages/platform-k8s/internal/platform/domainevents/publisher.go:71-101` | if the unpublished rows have trimmed ids, a call without failures takes exactly the oldest batch off the queue |
| `Drain.DrainBound` | `packages/platform-k8s/internal/platform/domainevents/publisher.go:71-101` | then k calls without failures empty an outbox of n unpublished rows exactly when k batches hold n rows |
| `Drain.DrainsIff` | `packages/platform-k8s/internal/platform/domainevents/outbox.go:133-149` | calls without failures empty the outbox at all exactly if every unpublished row has a trimmed id |
| `Delivery.Consumer.Handle` | `packages/platform-k8s/internal/platform/domainevents/consumer.go:101-129` | how a message is answered, whether the handler is called and whether the event is recorded, for every combination of faults |
| `Delivery.OutcomeMeans` | `packages/platform-k8s/internal/platform/domainevents/consumer.go:101-129` | for every message and every combination of failing calls: when it is terminated, when acknowledged, when the handler is called, when the event is recorded |
| `Delivery.StepsAreHandle` | `packages/platform-k8s/internal/platform/domainevents/consumer.go:101-129` | undisturbed, the steps of a delivery in the interleaved system lead to what the handler method does |
| `Delivery.StepsArePublishPending` | `packages/platform-k8s/internal/platform/domainevents/publisher.go:71-101` | undisturbed, the steps of a publisher in the interleaved system lead to the rows and messages that `PublishPending` leaves, for every combination of replies |
| `Delivery.StepKeepsWell` | `packages/platform-k8s/internal/platform/domainevents/consumer.go:101-129` | every step of every publisher and delivery, fault or crash keeps the protocol invariant and only adds rows, messages and records |
| `Delivery.DeliverySafety` | `packages/platform-k8s/internal/platform/domainevents/consumer.go:101-129` | in every reachable state: published rows are in the stream and it holds nothing that was not enqueued; acknowledged messages are recorded as processed; processed events were handled successfully; only undecodable messages are terminated |
| `Delivery.ProcessedIsNotHandledAgain` | `packages/platform-k8s/internal/platform/domainevents/consumer.go:108-117` | a delivery whose check runs after the event was recorded never calls the handler |
| `Delivery.HandledAtMostOnce` | `packages/platform-k8s/internal/platform/domainevents/consumer.go:108-128` | the handler succeeds at most once per consumer and event if deliveries do not overlap between check and mark and no success is lost before its mark |
| `Delivery.SucceedsAgainIff` | `packages/platform-k8s/internal/platform/domainevents/consumer.go:108-128` | from any state of the protocol some execution makes the handler succeed again exactly unless the event is recorded and no delivery of it stands between check and handler |
| `Delivery.HandlerCanSucceedTwice` | `packages/platform-k8s/internal/platform/domainevents/consumer.go:108-128` | executions from the start in which it succeeds twice: with two deliveries that overlap, and with one that ended without its mark |
| `CliVersions.PostgresStore.Load` | `packages/platform-k8s/internal/cliruntimeservice/cliversions/postgres_store.go:31-62` | loading gives the versions of the rows, blank versions skipped, where rows hold the record of their own id |
| `CliVersions.LoadedMeans` | `packages/platform-k8s/internal/cliruntimeservice/cliversions/postgres_store.go:31-62` | which rows are loaded, and with which version and time |
| `CliVersions.PostgresStore.Save` | `packages/platform-k8s/internal/cliruntimeservice/cliversions/postgres_store.go:64-105` | a save writes exactly the state and deletes the rest; a failed one leaves every row as it was or as it should be |
| `CliVersions.LoadAfterSave` | `packages/platform-k8s/internal/cliruntimeservice/cliversions/postgres_store.go:31-105` | loading what was saved gives it back, for trimmed non-blank ids and versions |
| `CliVersions.Sync` | `packages/platform-k8s/internal/cliruntimeservice/cliversions/syncer.go:72-135` | after a sync the store holds the synced versions; it is written exactly when they differ, and changes are reported unless the save fails |
| `CliVersions.SyncMeans` | `packages/platform-k8s/internal/cliruntimeservice/cliversions/syncer.go:85-128` | per CLI with distinct ids: the fetched version, an unchanged one with its time, the previous snapshot if fetching failed, nothing if it is not configured or its source does not resolve; and a change exactly if the fetched version differs |
| `CliVersions.DroppedIff` | `packages/platform-k8s/internal/cliruntimeservice/cliversions/syncer.go:85-128` | a known CLI is dropped exactly if it is not configured or its source does not resolve |
| `CliVersions.UnresolvedIsDropped` | `packages/platform-k8s/internal/cliruntimeservice/cliversions/syncer.go:85-128` | a CLI that shows it: dropped with a source of an unsupported kind, kept with one that resolves and cannot be fetched |
| `CliVersions.PackagesAreAsked` | `packages/platform-k8s/internal/cliruntimeservice/cliversions/source.go:25-58` | an npm package is asked for by its trimmed name and tag, `latest` without one, and what version and change follow from the answer |
| `CliVersions.CasksAreAsked` | `packages/platform-k8s/internal/cliruntimeservice/cliversions/source.go:25-58` | a Homebrew cask is asked for by its trimmed name, with the same outcome |
| `CliVersions.OthersHaveNoVersion` | `packages/platform-k8s/internal/cliruntimeservice/cliversions/source.go:25-58` | no version and no change for a CLI without a usable source, nor for an id no CLI has |
| `CliVersions.ChangesChain` | `packages/platform-k8s/internal/cliruntimeservice/cliversions/syncer.go:108-122` | consecutive changes of a CLI chain, each from the snapshot the one before ended with, unless it was removed in between |

## Left out

- HTTP fetchers, provider-specific report formats, gRPC and Connect servers, telemetry and metrics: input and output only.
- Lower-casing beyond ASCII letters: `Text.Lower` maps A to Z; other letters are left as they are.
- Generations and event versions are unbounded here; the program stores them in 64 bits.
- Keys that the program joins with NUL bytes are tuples, so identifiers containing NUL are not told apart from joins.
- Nil and empty lists are not distinguished, and nil entries of lists do not occur.
- The members of a definition's JSON form that merging drops (category, life cycle and the like) are a map of texts, emptied by a merge.
- The alias candidates of a vendor (`sync/vendor.go:29`, `sync/vendor.go:85-93`), which only one fetcher reads.
- The legacy filter syntax of the list query, and the numbers of categories and life cycle statuses beyond those the filter names.
- The subject, producer and time stamps of events beyond the creation order of outbox rows.
- The order of messages in the stream: the claim returns rows in no particular order and failed ones are skipped.
- The duplicate window of the stream: accepting a message twice is as accepting it once.
- The delivery limit of a consumer: redelivery is unbounded.
- Locked rows that a concurrent claim skips: in `Delivery` a claim takes any unpublished rows, in `Outbox` it runs alone.
- Fetch errors are counted, not described.
- The proto numbers of alias kinds, shapes and modalities: their declarations are not part of this model, so kinds sort as unspecified, stable, snapshot, and the defaults are only known to be set.
- Reconcile.Sync: takes the identity of a stored definition from its row; in a consistent store the definition has the same one.
- AuthorityFold.MergeCollectedEntries: for sources with unstable ids or wrapping priorities only the set of merged sources is stated, since the order the program produces then depends on the order of a map.
- Snapshot.CollectedDefinitionsSnapshot.Merge: for vendor keys that are not trimmed or sources that are not plain the outcome is fixed only per order of the vendors, since two keys that trim to the same vendor are merged in the order of a map.
- SyncRun.SyncNow: requires collectors whose groups are trimmed and whose sources are plain.
- GlobalSnapshot.GlobalEntryIsAuthorityFold: requires the collectors to report under their own id with the priority of the authority table, as the program asks of them.
- Delivery.HandledAtMostOnce: one direction only; overlapping deliveries may still succeed once. `Delivery.SucceedsAgainIff` says exactly when a further success is possible.
- List requests that are refused: `ListWalk` speaks of walks whose requests are answered.
- Failures of the database inside a query: `Resolve` models the error of a missing row and `ListQuery` the failing cast only.
