# Verification of the DNS anti-phishing filter

A Dafny model of the parts of the filter that decide: the string algorithms behind typosquat detection, the caches
that have to agree with a source of truth, the rate limiter and the small concurrent state machines, with the
properties each is there to keep. `dafny verify dfyconfig.toml` checks everything.

| file | what it models |
|---|---|
| `EditDistance.dfy` | the plain and the keyboard-weighted edit distance, as least cost over edit scripts, and the metric laws |
| `Labels.dfy` | splitting names into labels, and the parent domains every lookup enumerates |
| `BrandSpoofing.dfy`, `Lookalikes.dfy` | typosquat, homoglyph, keyword and subdomain detection, with its coverage, its radius, and exactly what is reported |
| `RateLimiter.dfy` | the token bucket with idle cleanup |
| `Bloom.dfy`, `Whitelist.dfy` | the Bloom filter in front of the whitelist table, and their rebuild protocol |
| `FeedParse.dfy`, `FeedText.dfy`, `FeedSync.dfy`, `SizeLimit.dfy` | one feed sync: size limit, streaming parse and what the text means, deduplication, batches, staging, rename, revision |
| `FeedProtocol.dfy` | feed publication against the analysis cache, any number of analysers and syncs interleaved |
| `Verdicts.dfy` | the verdict pipeline and the group policy |
| `Overrides.dfy` | which override applies to a domain |
| `Telemetry.dfy`, `Scheduler.dfy` | the telemetry queue and the agent scheduler |

Code that updates state in place is modelled by methods and classes that do the same, each proved against a
specification; the lemmas are about the specification. Concurrent parts are state machines whose steps are single
Redis commands, channel operations or critical sections, in any order.

## Modelling choices

- Strings are sequences of runes (`char`). Trimming with lower-casing, `idna.ToUnicode`, `unicode.ToLower` and
  `normalizeCandidate` are function parameters: results hold for every such function. "Plain name" is the ASCII
  case in which the first two change nothing.
- float64 is `real`. The weighted distances are whole numbers of half units, so nothing is lost there.
- Clock readings are parameters. In limiter runs no call lies before any clock reading made earlier in the run; a
  cleanup may have read its clock before calls that were served first. 600.0 seconds are the source's ten
  minutes.
- A Redis command either takes effect or fails without effect. In the protocol model cache writes may also land
  arbitrarily late or never, and keys of the cache may expire at any time; the feed and revision keys do not.
- The staging key, named after the clock, is taken to be new.
- A CSV source is a finite list of rows and row errors; a text source a list of lines with a possible scanner error
  at the end.
- The 64-bit FNV sum is an arbitrary function. Filter sizes come in already computed; only their alignment is modelled.
- What the lexical tests find in a domain (digit ratio, mixed scripts, entropy, keywords, category list) enters
  `Verdicts` as arbitrary signals; TLS, WHOIS and AI answers are arbitrary nonnegative scores or an optional verdict.
- `FirstStage` assumes a scoring configuration with nonnegative weights and a brand weight of at least ten, and
  domains that `NormalizeDomain` accepts and leaves unchanged.
- The reason text of a brand report is modelled as a `Finding` that carries the names it mentions.
- Ghost variables, the fields `at`, `read`, `seen`, `hit`, `wrote`, `announced`, `runs`, `accepted`, `mark`, `built`,
  `began` and `ended`, and the `queries` of a cache entry are history, kept for the statements only; no modelled
  operation depends on them.

## Where the code falls short of what one might expect

Each is a proved lemma, with the exact condition where there is one.

- Cleanup can be observed, and the window bound broken, exactly when ten minutes do not refill a burst
  (`CleanupInvisibleExactly`, `WindowBoundExactly`). The reported wait is cut short exactly when a token takes more
  than ten minutes (`WaitAlwaysExactExactly`); waiting it out suffices at any rate.
- A comment at `internal/agent/engine.go:129` says that a trigger meeting a full channel is processed on the next
  tick. The code forgets it, exactly when eight are queued (`TriggerKeptExactly`); the model follows the code.
- A whitelist update that commits its table and fails to reload the filter hides newly listed domains
  (`FailedReloadHidesAListedDomain`). So would overlapping rebuilds (`StaleRebuildHidesAListedDomain`), but no caller
  overlaps them: the service loads before the agent exists, and the agent runs one task at a time. A filter hides
  listed domains exactly when it lets too little through (`ExactExactly`, `ReachableExactExactly`).
- One failed feed query is cached under the current revision and served afterwards (`FailedReadPoisonsTheCache`), and
  one failed read of the revision accepts any cached entry (`FailedRevisionReadServesStale`). `FreshExactly` says for
  each kind of analysis whether freshness survives.
- A sync that fails at its bump leaves its domains unannounced, and no retry announces them
  (`RetriesNeverAnnounce`); cached verdicts from before are served on (`UnannouncedIsServedStale`). `AnnouncedExactly`
  and `QuietExactly` say when everything live has been announced.
- OSINT evidence overwrites the category, so a group that blocks, say, only "gambling" can end up allowing a
  domain that became MALICIOUS on the way (`NeverUnblocksExactly`).
- A brand weight under ten gives negative scores (`LexicalInRangeExactly`), and then some brand reports lower a
  score (`BrandLowersExactly`).
- The official domain of one trusted bank is reported as a typosquat of another (`OfficialBankDomainIsReported`);
  `OfficialReportedExactly` says exactly when that happens.

## Model

| member | source | states |
|---|---|---|
| `EditDistance.LevenshteinDistance` | internal/analysis/brand.go:60-90 | the in-place one-column loop returns the least cost over all edit scripts: some script of single-character edits attains it, none is cheaper |
| `EditDistance.WeightedLevenshteinDistance` | internal/analysis/brand.go:226-266 | the same for keyboard weights (insert, delete 1; replace 0, 1/2 or 1), for every lower-casing function; the result is a whole number of half units |
| `EditDistance.PassUnit` | internal/analysis/brand.go:76-87 | one pass of the inner loop turns the array from one column of the recurrence into the next, overwriting it in place with only the diagonal saved |
| `EditDistance.PassWeighted` | internal/analysis/brand.go:242-263 | the same pass over the float array, with both directions of the adjacency lookup |
| `EditDistance.LevenshteinLoop` | internal/analysis/brand.go:60-90 | the whole loop nest, with its two empty-string returns, ends in the corner cell of the recurrence |
| `EditDistance.WeightedLoop` | internal/analysis/brand.go:226-266 | the same for the weighted loop nest |
| `EditDistance.RecurrenceIsLeastCost` | internal/analysis/brand.go:79-89 | the recurrence on last characters computes the least script cost; ties the loops to the meaning of the distance |
| `EditDistance.NoScriptIsCheaper` | internal/analysis/brand.go:60-90 | every script, edits at any positions in any order, costs at least the recurrence's value between its ends |
| `EditDistance.CheapestScript` | internal/analysis/brand.go:60-90 | a script that costs no more than the recurrence's value, constructed |
| `EditDistance.Identity` | internal/analysis/brand.go:245-265 | distance zero exactly for equal strings |
| `EditDistance.Symmetric` | internal/analysis/brand.go:181-189 | symmetry, although the loop treats its arguments differently and the adjacency table lists some pairs in one direction only |
| `EditDistance.Triangle` | internal/analysis/brand.go:245-265 | triangle inequality, for both cost tables |
| `EditDistance.LeastCostIsAMetric` | internal/analysis/brand.go:226-266 | the three metric laws, stated of least script costs without mentioning the recurrence |
| `EditDistance.ReplacementWeight` | internal/analysis/brand.go:181-189 | replacing one character, with any text before and behind it, weighs 1/2 if the two keys touch on the keyboard (or are k with 9 or 0) and 1 otherwise; stated by key positions, for every lower-casing function |
| `EditDistance.InsertionWeight` | internal/analysis/brand.go:245-263 | inserting or deleting one character weighs 1 |
| `EditDistance.PlainEditCosts` | internal/analysis/brand.go:76-87 | every kind of single edit counts 1 in the plain distance |
| `EditDistance.TableIsKeyboard` | internal/analysis/brand.go:181-189 | read in both directions, the adjacency table lists exactly the keys that touch |
| `EditDistance.LeastCostUnique` | internal/analysis/brand.go:60-90 | the contract of the plain loop leaves one result only |
| `EditDistance.LeastWeightUnique` | internal/analysis/brand.go:226-266 | and so does the contract of the weighted loop |
| `EditDistance.KeyboardWithinPlain` | internal/analysis/brand.go:245-265 | the weighted distance is at least half the plain distance and never exceeds it |
| `Labels.ScanEnumeratesLabelSuffixes` | internal/store/sqlite.go:1347-1352 | splitting at dots and joining parts[i:] visits exactly the strings that equal the domain or follow one of its dots |
| `Labels.SuffixesShrink` | internal/store/sqlite.go:1350-1352 | the scan goes from longer to strictly shorter suffixes |
| `Labels.JoinSplit` | internal/risk/service.go:764-767 | joining the parts of a split gives the name back |
| `Labels.SplitJoin` | internal/analysis/brand.go:124-153 | splitting what was joined from dot-free parts gives the parts back |
| `Labels.SuffixTransitive` | internal/store/sqlite.go:1350-1352 | label suffixes of label suffixes are label suffixes |
| `Labels.SuffixLinear` | internal/store/sqlite.go:1350-1352 | the label suffixes of one name are label suffixes of each other by length |
| `Labels.CandidatesExact` | internal/risk/service.go:763-774 | the feed candidates of a domain are exactly its nonempty label suffixes |
| `Labels.CandidatesShrink` | internal/risk/service.go:763-774 | candidates come longest first |
| `Labels.ThreatFeedCandidates` | internal/risk/service.go:763-774 | the candidate loop builds that list, longest first |
| `BrandSpoofing.CheckBrandSpoofing` | internal/analysis/brand.go:283-425 | the nested loops with early return give the first finding of the first brand that has one (homoglyph, keyboard typo, classic typo, keyword, subdomain) and its penalty |
| `BrandSpoofing.CheckLabels` | internal/analysis/brand.go:330-385 | the label loop gives the first typosquat finding, skipping public-suffix labels and names shorter than four |
| `BrandSpoofing.CheckSubdomains` | internal/analysis/brand.go:397-421 | true exactly when a label before the root domain contains the brand, plainly or as a skeleton |
| `BrandSpoofing.TyposquatCoverage` | internal/analysis/brand.go:283-425 | every plain domain outside gov.vn whose root is not official for a brand, with a label reachable from the brand's name by a script of at most two edits (both at least four long, label not skipped, or the label equal to the name), is reported |
| `BrandSpoofing.ReportedExactly` | internal/analysis/brand.go:283-425 | a plain domain is reported if and only if it is outside gov.vn and, for some brand whose own domain it is not, a label looks like the brand (both at least four long, not skipped, different, weighted distance at most 1.5 or plain distance at most 2), or its name occurs in the root or in an earlier label |
| `BrandSpoofing.ScanExactly` | internal/analysis/brand.go:313-422 | for any names: some brand is reported if and only if one has a typo finding, a mention or a subdomain use and is not official |
| `BrandSpoofing.OfficialReportedExactly` | internal/analysis/brand.go:313-346 | an official domain of a shipped brand is reported if and only if it is suspicious in that sense for another shipped brand |
| `BrandSpoofing.TwoLetterBanksCollide` | internal/analysis/brand.go:330-385 | a label of two letters and bank is reported for every such brand whose own domain it is not |
| `BrandSpoofing.ReportsAreJustified` | internal/analysis/brand.go:313-422 | the converse radius: a report names a brand whose own domain this is not, and a typosquat report names a label whose skeleton is within three edits of it |
| `BrandSpoofing.TypoIsClose` | internal/analysis/brand.go:338-382 | a typosquat finding points at a label that is not a skipped public suffix; a homoglyph finding has the brand itself as skeleton, the others do not |
| `BrandSpoofing.ExactLabelFound` | internal/analysis/brand.go:387-421 | a label equal to the brand is reported wherever it stands in the name |
| `BrandSpoofing.RootParts` | internal/analysis/brand.go:124-153 | the root domain consists of the last labels of the domain |
| `BrandSpoofing.ToSkeleton` | internal/analysis/brand.go:212-223 | the rune loop maps every rune by the homoglyph table |
| `BrandSpoofing.SkeletonLaws` | internal/analysis/brand.go:191-223 | skeletons are stable, and ASCII names are their own skeletons |
| `BrandSpoofing.OfficialBankDomainIsReported` | internal/analysis/brand.go:313-385 | vpbank.com.vn, official for one trusted brand, is reported because its name is one edit from another trusted brand |
| `BrandSpoofing.BankBrandsAreTrusted` | internal/analysis/brand.go:19-58 | both of those brands are in the shipped list |
| `Lookalikes.ReportedForAllNames` | internal/analysis/brand.go:283-425 | for every folded name, decoded or not, and brands with ASCII names: reported if and only if outside gov.vn and, for a brand whose own domain it is not, a weighed label is shown as something close to the name, the name occurs in the root domain or is spelt in the decoded one, or either in a label before it |
| `Lookalikes.HomoglyphCoverage` | internal/analysis/brand.go:289-360 | a label whose decoded form reads, letter by letter, as a brand's name without being it is reported |
| `Lookalikes.SpeltInRoot` | internal/analysis/brand.go:308-311 | a brand's name spelt with lookalikes anywhere in the decoded root domain is reported |
| `Lookalikes.SpeltInSubdomain` | internal/analysis/brand.go:397-421 | so is one in a decoded label before the root domain |
| `Lookalikes.HomoglyphExactly` | internal/analysis/brand.go:167-179 | a letter's skeleton is a given ASCII character exactly when it is that character or one of its listed lookalikes |
| `Lookalikes.SpellsExactly` | internal/analysis/brand.go:212-223 | a name occurs in a skeleton exactly when it is spelt, letter by letter, in the text |
| `Lookalikes.SkeletonOfLabels` | internal/analysis/brand.go:307-309 | taking skeletons and splitting into labels commute |
| `Lookalikes.RootLabels` | internal/analysis/brand.go:124-153 | the root domain has three labels when a two-byte one follows com, co, net, org, gov, edu or ac, and else two |
| `Lookalikes.GovernmentExactly` | internal/analysis/brand.go:427-430 | government names are gov.vn and what lies under it |
| `Lookalikes.FirstBrandReported` | internal/analysis/brand.go:313-422 | the report is that of the first brand of the list that is reported at all |
| `Lookalikes.KindOfFinding` | internal/analysis/brand.go:330-421 | typosquats come before mentions, mentions before subdomains |
| `Lookalikes.PenaltyExactly` | internal/analysis/brand.go:355-418 | the score, ten less for a subdomain, twenty more under a risky top-level domain |
| `RateLimiter.Limiter.Allow` | internal/ratelimit/limiter.go:42-73 | the new bucket table and the answer are those of one token-bucket step; a disabled limiter allows and keeps no state |
| `RateLimiter.Limiter.SecondsUntilNextToken` | internal/ratelimit/limiter.go:77-92 | the wait reported from the stored bucket |
| `RateLimiter.Limiter.Cleanup` | internal/ratelimit/limiter.go:118-130 | the loop removes exactly the buckets not touched since the cutoff |
| `RateLimiter.Limiter.constructor` | internal/ratelimit/limiter.go:27-38 | per-minute rate converted to per-second, no buckets |
| `RateLimiter.RunKeepsValid` | internal/ratelimit/limiter.go:42-73 | in every run of calls and cleanups tokens stay within [0, burst] |
| `RateLimiter.SweepsUnobserved` | internal/ratelimit/limiter.go:118-130 | cleanups inserted anywhere in a run never change an answer, when ten minutes refill a burst |
| `RateLimiter.CleanupInvisibleExactly` | internal/ratelimit/limiter.go:118-130 | cleanup is invisible in all runs if and only if burst <= 0 or burst <= 600 * rate |
| `RateLimiter.CleanupObserved` | internal/ratelimit/limiter.go:118-130 | otherwise the constructed run drain, clean up, drain again answers differently |
| `RateLimiter.WindowBound` | internal/ratelimit/limiter.go:42-73 | in every run one key is granted at most burst + rate * (t2 - t1) calls in any window [t1, t2] |
| `RateLimiter.WindowBoundExactly` | internal/ratelimit/limiter.go:118-130 | that bound holds of all runs if and only if burst <= 600 * rate (for burst >= 0) |
| `RateLimiter.WaitIsExact` | internal/ratelimit/limiter.go:77-92 | after a denial every call of the key before t + wait is denied and every later one granted, whatever calls and cleanups follow, when 600 * rate >= 1; at any rate when only calls follow |
| `RateLimiter.WaitAlwaysExactExactly` | internal/ratelimit/limiter.go:77-92 | for burst >= 1 the reported wait is exact in every run from an empty limiter if and only if 600 * rate >= 1 |
| `RateLimiter.WaitCutShort` | internal/ratelimit/limiter.go:118-130 | otherwise: drain, be denied, clean up between ten minutes and the announced wait; the next call is granted too early |
| `RateLimiter.IdleKeepsLevel` | internal/ratelimit/limiter.go:42-73 | calls of other keys and cleanups never take tokens from a key; where burst <= 600 * rate they leave it exactly the tokens it would find |
| `RateLimiter.RetryAfterSuffices` | internal/ratelimit/middleware.go:44-49 | at every rate and burst >= 1: after a denial, whatever cleanups, calls of other keys and denied polls come first, a call after the rounded-up Retry-After seconds is granted |
| `RateLimiter.RetryAfterIsLeast` | internal/ratelimit/middleware.go:45-48 | the announced seconds are the fewest whole ones that cover the wait, and one at least |
| `RateLimiter.MinuteRefills` | internal/ratelimit/limiter.go:27-33 | a limiter built for so many requests a minute refills that many tokens in 60 seconds |
| `Bloom.BloomFilter.constructor` | internal/risk/bloom.go:17-46 | m is rounded up to whole bytes, k is at least one, no bit is set |
| `Bloom.BloomFilter.Add` | internal/risk/bloom.go:60-73 | the bits stay exactly the union of the index sets of everything added, every index is in range, and no bit is cleared |
| `Bloom.BloomFilter.Test` | internal/risk/bloom.go:78-93 | true exactly when every probe of the element is covered by added elements |
| `Bloom.NoFalseNegatives` | internal/risk/bloom.go:75-93 | what was added passes |
| `Bloom.PassesGrows` | internal/risk/bloom.go:60-73 | what passes keeps passing whatever is added |
| `Bloom.SetBitAt` | internal/risk/bloom.go:68-71 | or-ing one mask into one byte sets one bit position of the whole array and no other |
| `Bloom.Index` | internal/risk/bloom.go:66-70 | every probe index is in range |
| `Bloom.FirstProbe` | internal/risk/bloom.go:50-66 | the probes start at the lower half of the hash |
| `Bloom.NextProbe` | internal/risk/bloom.go:50-66 | and go on in strides of its upper half, around the array |
| `Whitelist.Whitelist.LoadFromDB` | internal/risk/whitelist.go:36-72 | the installed filter holds exactly the rows read; no rows remove the filter; a failed query or a missing database leaves it |
| `Whitelist.Whitelist.LoadFallback` | internal/risk/whitelist.go:122-137 | without a database the map holds exactly the listed domains |
| `Whitelist.Whitelist.IsAllowed` | internal/risk/whitelist.go:150-189 | fallback mode is suffix membership in the map; hybrid mode is a suffix that passes the filter and that its own query finds |
| `Whitelist.AllowedMeansInATable` | internal/risk/whitelist.go:150-189 | hybrid true implies a nonempty label suffix in the table seen by one of its queries, whatever the filter |
| `Whitelist.FreshFilterIsExact` | internal/risk/whitelist.go:36-72 | with a filter built from the current table the two-stage test equals suffix membership, as in fallback mode |
| `Whitelist.WhitelistIsSafe` | internal/risk/whitelist.go:150-189 | over all interleavings of commits, rebuild reads, swaps and the rounds of any number of lookups: an allowed domain has a nonempty label suffix in a table that was current at some moment between the start and the end of its lookup |
| `Whitelist.ListedIsAllowed` | internal/risk/whitelist.go:170-186 | the other way: a name in the table the filter was made from and in every table current during the lookup allows its subdomains, unless a query fails |
| `Whitelist.QuietLookupIsExact` | internal/risk/whitelist.go:150-189 | a lookup without a commit inside it, with the filter made from the current table and no failing query, answers exactly suffix membership in that table |
| `Whitelist.StepKeepsInv` | internal/risk/whitelist.go:150-189 | every step keeps the invariant: queries see tables of the lookup's own interval, and the read lock keeps its filter installed |
| `Whitelist.ExactExactly` | internal/risk/whitelist.go:169-186 | whatever filter is installed, the two-stage test equals suffix membership in the table if and only if every listed name has a listed label suffix that the filter lets through |
| `Whitelist.ReachableExactExactly` | internal/risk/whitelist.go:36-72 | the same in every reachable state; a filter made from a table that contains the current one always qualifies |
| `Whitelist.RebuildIsFresh` | internal/store/sqlite.go:818-855 | a rebuild with anything but commits and other swaps in between leaves a filter made from the last committed table |
| `Whitelist.StaleRebuildHidesAListedDomain` | internal/risk/whitelist.go:36-72 | were two rebuilds to overlap, the older read could be installed last, and a listed domain would then not be allowed |
| `Whitelist.FailedReloadHidesAListedDomain` | internal/agent/whitelist_update.go:93-121 | an update that commits the table and then fails to read it back leaves the old filter, and a newly listed domain is not allowed |
| `FeedParse.DedupUnique` | internal/feed/parse.go:178-187 | the emitted list is the only list of the accepted candidates' distinct elements in first-occurrence order |
| `FeedParse.DedupElements` | internal/feed/parse.go:178-187 | no emitted domain repeats, and none is lost |
| `FeedParse.DedupKeepsOrder` | internal/feed/parse.go:178-187 | emission follows first occurrence |
| `FeedParse.OfferAllIsDedup` | internal/feed/parse.go:178-187 | offering candidates one by one against the seen set deduplicates the whole feed |
| `FeedParse.EveryRowCounted` | internal/feed/parse.go:66-97 | accepted, invalid and skipped rows add up to all rows |
| `FeedText.ParsedTextExactly` | internal/feed/parse.go:99-139 | the parsed domains of a text feed are exactly those d for which some line has a maximal space-free run, before any run starting with a hash sign, whose part before a hash sign normalises to d |
| `FeedText.ParsedCsvExactly` | internal/feed/parse.go:66-95 | those of a CSV feed are exactly the ones that some row's first field to normalise gives, fields stripped of surrounding spaces and comments |
| `FeedText.FieldsAreWords` | internal/feed/parse.go:117 | the fields of a line are its maximal space-free runs, every one, in order |
| `FeedText.LineAcceptsExactly` | internal/feed/parse.go:114-136 | the same as for the feed, for one line |
| `FeedText.CoreExactly` | internal/feed/parse.go:189-198 | what is left of a field: the part before the first hash sign, from its first to its last character that is no space |
| `FeedText.FirstDomainExactly` | internal/feed/parse.go:162-176 | the first field that gives any domain decides a row |
| `FeedText.LineCountsExactly` | internal/feed/parse.go:137-149 | a line adds one to Skipped when nothing stands before its comment; else to Invalid every word not accepted, but only one when none is |
| `FeedSync.FirstField` | internal/feed/parse.go:162-176 | the first field of a row that normalises, or none |
| `FeedSync.Ingest.ParseFields` | internal/feed/parse.go:114-139 | the field loop up to the first comment field: its candidates, rejects and flags, including when the handler fails midway |
| `FeedSync.Ingest.ParseLine` | internal/feed/parse.go:106-150 | what one line adds to the emitted domains and to each statistic |
| `FeedSync.Ingest.ParseText` | internal/feed/parse.go:99-160 | after all lines Invalid and Skipped are the per-line sums and the emitted domains the deduplicated candidates; a failure leaves a prefix of them |
| `FeedSync.Ingest.ParseRow` | internal/feed/parse.go:70-94 | what one CSV row adds, row errors included |
| `FeedSync.Ingest.ParseCsv` | internal/feed/parse.go:66-97 | the same over all rows |
| `FeedSync.Ingest.AddDomain` | internal/feed/parse.go:178-187 | Valid counts what is emitted, Valid + Duplicates what was offered; the seen set is the set emitted |
| `FeedSync.Ingest.Flush` | internal/feed/sync.go:127-138 | after a successful flush the target key holds what it held plus everything emitted, and written is its growth; a failed flush changes nothing |
| `FeedSync.Ingest.OnDomain` | internal/feed/sync.go:140-146 | the batch never exceeds a thousand and is flushed when it reaches that size |
| `FeedSync.ParseEach` | internal/feed/parse.go:43-64 | a fully parsed source emits its deduplicated candidates; for CSV the four counts add up to the rows |
| `FeedSync.Sync` | internal/feed/sync.go:54-206 | replacing leaves exactly the parsed set, also when only the revision bump or the status record fails, with Written = Valid; adding leaves the union with Written the growth, for any batch boundaries; a replacing sync that fails before publication leaves the live key alone; an adding one has added only parsed domains; no other key but the staging key is touched; rename never meets a missing key |
| `FeedSync.Fill` | internal/feed/sync.go:140-158 | parse and flush into one key, with what a failure midway has left there |
| `FeedSync.Publish` | internal/feed/sync.go:159-172 | staged set over live key by rename, or deletion when nothing was parsed; failures leave the live key |
| `FeedSync.Commit` | internal/feed/sync.go:159-205 | publish and announce: the staged set is live exactly when the sync got as far as the bump, else the live key is as it was |
| `FeedSync.Replace` | internal/feed/sync.go:116-173 | the replacing path as a whole |
| `FeedSync.Extend` | internal/feed/sync.go:122-158 | the adding path as a whole |
| `FeedSync.DryRun` | internal/feed/sync.go:97-111 | a dry run touches no key and reports the statistics of the source |
| `FeedSync.Announce` | internal/feed/sync.go:174-205 | the revision moves by one exactly when the sync replaced or wrote at least the minimum and the bump did not fail, and only after publication |
| `FeedSync.EnoughToAnnounce` | internal/feed/status.go:213-218 | unless told otherwise one new member is enough to announce; a positive setting is the number needed |
| `FeedSync.AnnouncedExactly` | internal/feed/sync.go:147-195 | over all runs of syncs, however they end: every live member was in the feed at the last bump if and only if all that syncs have put there since had been announced |
| `FeedSync.QuietExactly` | internal/feed/sync.go:174-195 | without a replacing sync failing just at its bump, that is if and only if no sync since the last bump has written anything new |
| `FeedSync.KnownDomainsAnnounceNothing` | internal/feed/sync.go:189-201 | adding syncs of live domains change neither the live set nor what was announced, however many there are and however they end |
| `FeedSync.RetriesNeverAnnounce` | internal/feed/sync.go:189-195 | after a sync that failed at its bump, any number of successful retries leaves its domain unannounced |
| `FeedSync.Redis.SetAdd` | internal/cache/redis.go:154-163 | union and growth, or no effect |
| `FeedSync.Redis.Rename` | internal/cache/redis.go:146-152 | moves a set over another key; a missing source key fails without effect |
| `FeedSync.Redis.Delete` | internal/cache/redis.go:138-144 | removes one key, or no effect |
| `FeedSync.Redis.Increment` | internal/cache/redis.go:113-119 | adds one to the counter, from zero when missing, or no effect |
| `SizeLimit.LimitedReader.Read` | internal/feed/sync.go:294-308 | for every answer of the source: within the budget as many bytes as are ready and fit buffer and budget; with the budget spent a one-byte probe that tells the end, a source that is too large, or one that does not say yet |
| `SizeLimit.LimitedReader.ReadToError` | internal/feed/sync.go:287-308 | reading with buffers of any sizes to the first error yields a prefix of at most limit bytes; EOF only if all was delivered, the size error only if the source is larger; from a source that always has something ready, enough reads come to exactly one of the two |
| `Verdicts.Analyze` | internal/analysis/analysis.go:137-244 | the accumulation ends in the capped sum, the 70/40 verdict and the final category; its range and freshness are the lemmas below |
| `Verdicts.Categorize` | internal/analysis/analysis.go:221-234 | phishing for a malicious result with a reason that mentions it, else malware; suspicious; classified categories win |
| `Verdicts.EnrichSuspicious` | internal/risk/service.go:688-734 | the in-place update: only in the band [20, 70), capped, re-thresholded |
| `Verdicts.HasStrongWarning` | internal/osint/osint.go:299-307 | true exactly when one item is confident enough and of an official, trusted-news or safe-browsing kind |
| `Verdicts.ShouldLookup` | internal/osint/osint.go:280-297 | a warning lookup is wanted exactly outside gov.vn for a suspicious result, a score of at least 35, or a name with a sensitive term |
| `Verdicts.LexicalInRangeExactly` | internal/analysis/analysis.go:150-219 | with nonnegative weights all lexical scores are within [0, 100] if and only if the brand weight is at least 10 |
| `Verdicts.MoreSignsScoreMore` | internal/analysis/analysis.go:150-219 | a domain with more signs never has a lower score, severity or confidence, in spite of the cap and of the public-service floor between the tests |
| `Verdicts.BrandLowersExactly` | internal/analysis/analysis.go:193-197 | a brand report can lower a score if and only if it is a brand subdomain without a risky top-level domain and the brand weight is under ten |
| `Verdicts.LexicalIsFresh` | internal/analysis/analysis.go:209-243 | a lexical result has its verdict at the threshold and its confidence computed from its score |
| `Verdicts.PublicServiceIsMalicious` | internal/analysis/analysis.go:186-191 | public-service abuse scores 75 at least and is MALICIOUS, whatever else is found |
| `Verdicts.PublicServiceLifts` | internal/analysis/analysis.go:186-191 | it lifts what the signs weighed before it add up to, to 75 at least, and does nothing else |
| `Verdicts.SignAddsItsWeight` | internal/analysis/analysis.go:153-184 | each shape sign, and each keyword, adds exactly its weight, up to 100; the first keyword brings the base score, the second the bonus |
| `Verdicts.LateSignAddsItsWeight` | internal/analysis/analysis.go:193-207 | high entropy and brand reports add exactly theirs, ten less for subdomains, twenty more under a risky top-level domain |
| `Verdicts.NothingScoresNothing` | internal/analysis/analysis.go:150-151 | no sign, no score |
| `Verdicts.ScoreDecides` | internal/analysis/analysis.go:209-242 | MALICIOUS from 70 on, SUSPICIOUS from 40, and a confidence of 0.45 plus a 120th of the score, up to 1 |
| `Verdicts.CategoryExactly` | internal/analysis/analysis.go:221-234 | a domain in no list is phishing, malware, suspicious or uncategorized by score and by keywords or a brand report that mentions phishing |
| `Verdicts.ReasonsExactly` | internal/analysis/analysis.go:150-207 | one reason for each sign, and no other |
| `Verdicts.EnrichmentEscalates` | internal/risk/service.go:688-734 | enrichment lowers neither score, severity nor confidence and keeps all reasons |
| `Verdicts.RefinementEscalates` | internal/risk/service.go:561-594 | neither does AI refinement (malicious answers carry score 85) |
| `Verdicts.OSINTEscalates` | internal/risk/service.go:596-627 | neither does OSINT evidence, looked up only when wanted or forced |
| `Verdicts.PipelineEscalates` | internal/risk/service.go:502-524 | the stages in sequence only escalate, with score in [0, 100], verdict at its threshold and confidence in [0, 1] after each |
| `Verdicts.EnrichmentAdds` | internal/risk/service.go:688-734 | results from 20 to 69 gain exactly the evidence scores, up to 100, and all reasons; others stay |
| `Verdicts.RefinementAdds` | internal/risk/service.go:561-594 | a malicious answer to a suspicious result: MALICIOUS, 85 at least, the higher confidence; other answers add reasons only |
| `Verdicts.OSINTAdds` | internal/osint/osint.go:262-278 | a blocking lookup that is wanted or forced: MALICIOUS phishing, 90 and 0.92 at least, its reason once; else nothing |
| `Verdicts.LookupFrom35` | internal/osint/osint.go:280-297 | without a sensitive term, a lookup is wanted from 35 on or for a suspicious result |
| `Verdicts.Enforce` | internal/risk/service.go:358-384 | the enforcement loops decide exactly the group's blocking predicate |
| `Verdicts.SettingsExactly` | internal/risk/service.go:358-384 | each setting by itself: MALICIOUS; from 40 on with the category or a mention of phishing; the listed categories |
| `Verdicts.BlocksBySetting` | internal/risk/service.go:358-384 | a group blocks exactly what one of its settings blocks |
| `Verdicts.EscalationKeepsBlock` | internal/risk/service.go:358-384 | an escalation that keeps the category never turns a block into an allow |
| `Verdicts.NeverUnblocksExactly` | internal/risk/service.go:358-384 | an intermediate result a group would block is still blocked at the end, for all analyses, if and only if the group is strict on malware or on phishing, blocks the category phishing, or blocks no other category an analysis can have; the failing half uses results for which the warning lookup is made without being forced |
| `FeedProtocol.StepKeepsInv` | internal/risk/service.go:461-534 | every Redis command of every analyser and sync, failing or not, keeps the protocol invariant |
| `FeedProtocol.InvAlways` | internal/feed/sync.go:122-195 | so every interleaving does, and history only grows |
| `FeedProtocol.LabelsAreSafe` | internal/risk/service.go:523-530 | in every interleaving, failures and late writes included, the feed reads behind a cached entry were made after its labelled revision was reached and tell what the feed then held |
| `FeedProtocol.HitsAreSafe` | internal/risk/service.go:469-480 | an analysis that read revision r takes from the cache only entries resting on reads made after r was reached: late writes are never accepted under a newer revision |
| `FeedProtocol.ListedSinceIsReported` | internal/risk/service.go:461-534 | for any mix of adding and replacing syncs: such an analysis returns MALICIOUS for a domain with a label suffix listed from the bump on (for a cache miss, from its own start on) |
| `FeedProtocol.UnlistedSinceIsUnmatched` | internal/risk/service.go:741-761 | and with no label suffix listed from then on, its result rests on no feed match |
| `FeedProtocol.SightedIsFresh` | internal/risk/service.go:461-534 | with adding syncs and any other reads failing: an analysis begun after a bump returns MALICIOUS for a domain equal to or under one in the feed at the bump, if every feed query behind its result succeeded and, for a cache hit, its read of the revision did |
| `FeedProtocol.FreshExactly` | internal/risk/service.go:469-547 | for every domain and each of the eight kinds of analyses (revision read, feed queries, hit or miss): all of that kind begun after a bump at which the domain was listed return MALICIOUS, in all runs of adding syncs, if and only if the feed queries succeeded and, for hits, the read of the revision did |
| `FeedProtocol.FailedReadMisses` | internal/risk/service.go:536-547 | after a failed feed query an analysis returns whatever lexical analysis makes of the listed domain |
| `FeedProtocol.FailedRevisionReadServesStale` | internal/risk/service.go:475-480 | an analysis whose read of the revision fails is served an entry written before the domain was listed, with no feed query and no cache read failing |
| `FeedProtocol.UnannouncedIsServedStale` | internal/risk/service.go:475-480 | without any failed read, a listed domain that no bump has announced is still served as before |
| `FeedProtocol.NoStaleVerdict` | internal/risk/service.go:461-534 | in additive runs in which no read by an analysis of this domain fails, every analysis of it begun after a bump returns MALICIOUS when it was listed at the bump, whatever reads for other domains fail |
| `FeedProtocol.SyncedIsReported` | internal/feed/sync.go:189-195 | in terms of one sync: what it wrote before its bump is reported by every analysis begun after it with such reads |
| `FeedProtocol.WroteWasListed` | internal/feed/sync.go:147-195 | what an additive sync wrote was in the feed when its bump took effect |
| `FeedProtocol.ListedIsMalicious` | internal/risk/service.go:736-774 | complete, truthful candidate reads while a label suffix was listed force the verdict |
| `FeedProtocol.MatchThreatFeed` | internal/risk/service.go:741-761 | on a feed that holds still, the candidate loop matches exactly when the domain or a parent domain is listed |
| `FeedProtocol.FailedReadIsCached` | internal/risk/service.go:536-547 | a failed feed query makes a listed domain look unlisted, and that result is cached under the revision the sync has just announced |
| `FeedProtocol.FailedReadPoisonsTheCache` | internal/risk/service.go:469-494 | a later analysis, whether or not its own read of the revision fails, is served that result after the bump |
| `Overrides.GetEffectiveOverride` | internal/store/sqlite.go:1342-1391 | the row at the longest label suffix present in either table, the group's before the global one at equal length, query errors included |
| `Overrides.EffectiveDetermined` | internal/store/sqlite.go:1350-1388 | the answer is determined by the rows at the domain's label suffixes |
| `Overrides.GroupRowWins` | internal/store/sqlite.go:1353-1371 | at the longest suffix with any row, the group's row is the answer whatever the global table holds or does there |
| `Overrides.GlobalRowElse` | internal/store/sqlite.go:1376-1387 | without a group's row there it is the global row |
| `Overrides.GlobalRowBelowGroupRow` | internal/store/sqlite.go:1353-1387 | adding, changing or removing the global row where the group has one changes nothing |
| `Overrides.FailureDecides` | internal/store/sqlite.go:1372-1386 | a failing query at that suffix is an error: of the group table at once, of the global one when the group has no row |
| `Overrides.NoOverrideExactly` | internal/store/sqlite.go:1390 | no override exactly when no suffix has a row and no query fails |
| `Overrides.NonSuffixesNeverMatter` | internal/store/sqlite.go:1350-1388 | rows for names that are not label suffixes never change it |
| `Overrides.OtherGroupsNeverMatter` | internal/store/sqlite.go:1354-1359 | neither do rows of other groups |
| `Overrides.SubdomainInherits` | internal/store/sqlite.go:1340-1351 | a subdomain without rows below its parent gets exactly the parent's override |
| `Telemetry.StepKeepsInv` | internal/store/sqlite.go:344-373 | every channel operation of recorders, writer and Close keeps the queue invariant |
| `Telemetry.AcceptedIsConserved` | internal/store/sqlite.go:344-373 | in every run the accepted sequence is what was handed to the database ++ the entry in hand ++ queued, in order, with at most 1000 queued |
| `Telemetry.DroppedOnlyWhenFull` | internal/store/sqlite.go:344-353 | an entry is dropped exactly when 1000 are queued |
| `Telemetry.CloseFlushes` | internal/store/sqlite.go:326-333 | when Close finishes waiting, everything accepted before it signalled done has been handed to the database, once and in order |
| `Telemetry.TableIsWritten` | internal/store/sqlite.go:375-394 | the table gains what was handed over less the refused inserts, and all of it if and only if none was refused |
| `Telemetry.CloseStores` | internal/store/sqlite.go:326-333 | then, unless an insert was refused, all of it is in the table |
| `Telemetry.WriterWindsDown` | internal/store/sqlite.go:355-373 | after done an unfinished writer can always move, and each move brings its exit nearer |
| `Telemetry.WriterMovesAreBounded` | internal/store/sqlite.go:355-373 | so the writer's moves after done are bounded by the work left plus two per new entry |
| `Scheduler.StepKeepsInv` | internal/agent/engine.go:166-263 | every step of loop and callers keeps the scheduler invariant |
| `Scheduler.SchedulerIsSafe` | internal/agent/engine.go:187-263 | in every run tasks never overlap, a scheduled run starts at least an interval after every earlier completion of its task, and disabled tasks run only by trigger |
| `Scheduler.SweepStartsExactly` | internal/agent/engine.go:193-207 | a sweep starts the task it has come to exactly if that is enabled and has never run, or not for an interval |
| `Scheduler.SweepReaches` | internal/agent/engine.go:193-207 | a sweep not told to stop reaches every task it has not come to yet |
| `Scheduler.TriggersAreConserved` | internal/agent/engine.go:121-135 | the accepted names, in order, are the names of the triggered runs, then of the one running, then the queue; run and error counters match the completed runs |
| `Scheduler.TriggerKeptExactly` | internal/agent/engine.go:121-135 | in every reachable state a trigger of a known task is accepted if and only if fewer than eight are queued, and changes nothing at all if and only if eight are |
| `Scheduler.NinthTriggerIsForgotten` | internal/agent/engine.go:126-132 | that state is reached: after eight triggers during the first sweep the ninth is answered true and forgotten |

## Left out

- HTTP, DoH and DoT handlers, TLS and WHOIS sockets, AI clients, mail and webhooks: input and output plumbing.
- Dashboard, login, cookies, CSRF, secret loading, safe file access: user interface and library glue.
- SQL text, migrations, JSON, gzip and zip, the Redis client: tables are maps and sets, Redis a map of sets.
- Logarithmic sizing of the Bloom filter and Shannon entropy.
- `NormalizeDomain`, `normalizeCandidate`, `isProbablyCSV`, the 100 MB cap and the 1 MB line limit of the parser.
- The invalid-domain result of the analyser, and the order of override, whitelist and analysis in `AnalyzeWithOptions`.
- The category keyword lists (the category of a domain is a signal; the witnesses of `NeverUnblocksExactly` are names that the lists put in the category used), metrics, request IDs, environment parsing.
- The CIDR cache of client mappings: it is reloaded after each change of the table, so agreement would add only easy members.
- OSINT sources, evidence and caches: only whether a lookup is wanted or forced, and whether it blocks, is used.
- Nil receivers, and switched-off components other than the disabled limiter, enrichment and AI.
- Cache lifetimes: entries may expire at any time.
- `lastErr` and `state` strings of scheduled tasks, and task timeouts.
- Sync: a Redis command that times out on the client but takes effect on the server is not modelled; the parser-drift flag and the status record are left out of the report.
- Scheduler.SchedulerIsSafe: is about safety only; which of a ready ticker, trigger and stop signal the select takes is left open.
- BrandSpoofing.TyposquatCoverage: is stated for plain ASCII names; Lookalikes.ReportedForAllNames speaks of all.
- SizeLimit.LimitedReader.ReadToError: is stated for sources that report their end with zero bytes, and says nothing about reads after the first error.
