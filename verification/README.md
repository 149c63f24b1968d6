# Verification of the DORA metrics backend

This project models the parts of the backend that compute and move data (the
trend engine, the GitLab collector, the MCP authorization server, the metric
queries and alerts, the Atlassian connection service and the identity matcher)
and proves properties of them in Dafny. `dafny verify dfyconfig.toml` checks
everything.

## How the model is laid out

| file | about |
|---|---|
| LeastSquares, Trend, TrendLaws, Formatting | the regression, the forecast, what it does not depend on, and the digit buffers that print it |
| McpOAuth, McpOAuthRuns | the authorization server, and every interleaving of its critical sections |
| Correlation, Collection, CollectionRuns | attribution of merge requests to deployments, one collection run, and sequences of runs against a changing GitLab |
| Median, LeadTime | order statistics, the sort-based medians, lead-time decomposition, gaming detection |
| Relational, Aggregation | bags, joins and sums; the project and team window queries |
| Classification, Measuring | tiers, and what the four measures are in terms of the tables |
| TierAlerts, TierAlertRuns, Dispatch | metric windows and alert events over runs, and the retry chain of one delivery |
| Envelope, Atlassian, AtlassianRuns | the stored form of tokens, the connection service, and its runs |
| Identities | the merge suggestions |

Code that changes things step by step (handlers, stores, loops over buffers) is
written as methods and classes whose contracts tie the new state to a function
of the old one; the laws are proved about those functions. SQL SELECTs and
pure switches are functions.

Conventions. Go floats are exact reals. Times and durations are integer
nanoseconds. Clocks, random names, nonces, remote answers and the success of
each write are parameters, so every theorem holds for all of them. SHA-256,
AES-GCM, base64, case folding, trimming and the environment-name pattern are
uninterpreted; the laws assumed of the cipher and base64 are the predicate
`Envelope.Lawful`. Ids are integers where the code only compares them. Database
rows are maps by key, or sequences read as bags.

Hypotheses of the run theorems, each stated as a predicate: names drawn at
random are fresh (`McpOAuthRuns.Enabled`; the Atlassian conservation law needs
no such hypothesis); GitLab moves a deployment's update time whenever its
status or finish time changes (`CollectionRuns.Honest`) and a merge request's
whenever its row changes (`CollectionRuns.HonestRequests`); runs of one project
do not overlap (`CollectionRuns.InOrder`, `CollectionRuns.RequestsInOrder`) and
each successful window goes back to the successful fetch before it
(`CollectionRuns.AllReach`, which follows from runs that end within an hour of
their fetch, `CollectionRuns.AllPrompt`); GitLab lists each id once
(`CollectionRuns.OneEach`); for links, listed deployments stay listed with their
finish time, new ones come after them, and merge-request rows keep the columns
attribution reads (`Correlation.AllInFinishOrder`, `CollectionRuns.ListsKept`);
tables have their primary keys (`Aggregation.WellKeyed`, `Measuring.Tabled`);
recomputations of one window do not overlap and carry increasing times, those of
different windows come in any order, and inserts succeed
(`TierAlertRuns.Increasing`, `TierAlertRuns.History`). Where a hypothesis
matters, a companion lemma shows what happens without it.

## Where the code and its own words disagree

- trend.go:116-117 says the samples are sorted; nothing sorts them. The model
  follows the code: `TrendLaws.OrderOnlyNamesTheTiers` says exactly what order
  affects, `TrendLaws.SortingIsUnnecessaryIff` when it matters, and
  `TrendLaws.UnsortedSamplesGiveAStaleTier` shows it doing so.
- trend.go:212-214 answers a single sample with the line y = 0, which is not its
  best fit unless the sample lies on it (`LeastSquares.FitMinimises`). `Predict`
  never reaches that branch.
- trend.go:188 guards the breach estimate with a 180-day cap that can never act
  (`TrendLaws.BreachIffDegrading`), and both clamps at trend.go:246-251 are dead
  over exact arithmetic (`LeastSquares.LinearRegression`).
- trend.go:257 and gaming.go:104 print the smallest 64-bit integer as a bare
  minus sign (`Formatting.DecimalRoundTrip`).
- handlers.go:809-819 promises each merge request one deployment. That is so in
  one pass, but links are never deleted, so whatever makes another deployment the
  first at or after a merge (one that arrives out of finish order, one that leaves
  the list because its status, finish time or environment name changed) leaves the
  old link beside the new one. `Correlation.TwoPassesIff`,
  `Correlation.InterleavingsAgreeIff` and `CollectionRuns.LinksAreCleanIff` say
  exactly when; `Correlation.LateDeploymentLinksTwice` and
  `Correlation.DepartedDeploymentLinksTwice` are inputs.
- alerts.go:26-28 calls repeated calls on one event free of side effects beyond its
  final status. The handler never reads the stored status: every call that gets as
  far as the request POSTs, on a delivered event too, and the last call that writes
  decides the status, so delivered can become failed (`Dispatch.HandledIff`,
  `Dispatch.LastWriteDecides`, `Dispatch.DeliveredEventIsPostedAgain`). Within one
  retry chain that takes a status write that was lost
  (`Dispatch.TakenTwiceMeansLostWrite`, `Dispatch.TakenYetFailed`).
- subcomponents.go:53-76 drops negative components, but one that is less than a
  second negative truncates to 0 and is kept (`LeadTime.NegativeIsKeptIff`).
- alert_destinations.go:181 tells Opsgenie of a regression whatever the event,
  promotions of a tier_change rule included (`Dispatch.MessageIsRightIff`,
  `Dispatch.OpsgeniePromotionIsMistold`).

Two limits the code accepts, with their exact extent: as tier.go:8-10 documents,
insufficient data is neither a regression nor a promotion, and
`TierAlertRuns.EventsTellEveryChangeIff` says which changes go untold; a refresh
whose write is lost (service.go:315-326) leaves a rotated-out token stored, and
`AtlassianRuns.StoredTokensAreTheNewestAnsweredIff` says for how long.

## Model

| member | source | states |
|---|---|---|
| `LeastSquares.LinearRegression` | backend/internal/prediction/trend.go:210-253 | The two-pass loop returns exactly the closed-form fit; R² is in [0,1] before either clamp; the line minimises the residual unless the series is one sample off the line y = 0 |
| `LeastSquares.AccumulateSums` | backend/internal/prediction/trend.go:215-222 | The first loop computes the five sums (with the sample count) |
| `LeastSquares.SquaredDeviations` | backend/internal/prediction/trend.go:230-237 | The second loop computes explained and total variation |
| `LeastSquares.FitMinimises` | backend/internal/prediction/trend.go:210-228 | Over every line, for samples of any length, the returned line has least squared residual if and only if a lone sample (answered with y = 0) lies on it |
| `LeastSquares.FitIsTheOnlyMinimum` | backend/internal/prediction/trend.go:223-228 | When the xs are not all equal, another line has the same residual only if it is the same line |
| `LeastSquares.ResidualOfOtherLine` | backend/internal/prediction/trend.go:227-228 | Any other line pays exactly the sum of squared distances between the two lines |
| `LeastSquares.VariationSplits` | backend/internal/prediction/trend.go:230-237 | Total variation is explained plus residual variation |
| `LeastSquares.DenominatorSign` | backend/internal/prediction/trend.go:223-226 | The denominator is never negative and is zero exactly when all xs are equal |
| `LeastSquares.ConstantSeries` | backend/internal/prediction/trend.go:238-243 | No variation exactly when all ys are equal, and then the slope is 0 |
| `LeastSquares.R2IsExplainedShare` | backend/internal/prediction/trend.go:245-251 | R² is the explained share, in [0,1], and is 1 exactly when every sample lies on the line |
| `LeastSquares.RatioIsR2` | backend/internal/prediction/trend.go:238-251 | The ratio needs no clamp, and the zero-variation branch is only reached with slope 0 |
| `Trend.Predict` | backend/internal/prediction/trend.go:115-206 | Filter, coordinate slices, fit, decisions and projection together compute the forecast, whose breach estimate is written without the tier arithmetic, its guards or the cap |
| `Trend.BreachEstimate` | backend/internal/prediction/trend.go:176-193 | Neither guard ever withholds the estimate; it is round(0.5/abs(slope)) and lies in 0..175 |
| `Trend.Coordinates` | backend/internal/prediction/trend.go:136-142 | The filled slices hold days since the first listed sample and ranks |
| `Trend.RankToTierInverts` | backend/internal/prediction/trend.go:91-111 | Within half a rank of a tier's rank the projection names that tier |
| `TrendLaws.BreachIffDegrading` | backend/internal/prediction/trend.go:146-193 | A breach estimate is present exactly on degrading predictions, whatever the current tier, is within half a day of 0.5/abs(slope per day), and is at most 175, so the 180-day cap never acts |
| `TrendLaws.ForecastReadsTheBestLine` | backend/internal/prediction/trend.go:115-175 | Whatever line of least residual is laid through the ranks against days, six or more samples not all at one instant: the weekly slope is seven times its slope, R² the share of variation it removes, and the projected tier is read off it 2 592 000 000 000 000 ns after the last ranked sample, at 3.5, 2.5 and 1.5 |
| `TrendLaws.DecisionsInNumbers` | backend/internal/prediction/trend.go:128-206 | Fewer than six ranked samples give no forecast; direction turns at 0.02 ranks a week, confidence at R² 0.6 with ten samples and at 0.3, and a reason comes with every degrading forecast that is not of low confidence |
| `TrendLaws.RankedSamplesAreThoseOfATier` | backend/internal/prediction/trend.go:118-127 | The regression uses exactly the samples of the four tiers, each as often as it occurs |
| `TrendLaws.UnrankedSamplesAreInvisible` | backend/internal/prediction/trend.go:118-127 | Insufficient-data or unknown-tier samples inserted anywhere change nothing |
| `TrendLaws.ShiftedClockIsInvisible` | backend/internal/prediction/trend.go:136-142 | Shifting every timestamp changes nothing |
| `TrendLaws.OrderOnlyNamesTheTiers` | backend/internal/prediction/trend.go:118-206 | Permuting the samples changes at most the two tier names, and not even those when the same ranked sample comes last |
| `TrendLaws.UnsortedSamplesGiveAStaleTier` | backend/internal/prediction/trend.go:116-117 | A concrete unsorted input on which the current tier is not the most recent one: the announced sort is not there |
| `TrendLaws.ChronologicalSamplesGiveTheLatestTier` | backend/internal/prediction/trend.go:151 | The reported tier is that of the last ranked sample listed, and no ranked sample is later when the ranked ones are listed by time |
| `TrendLaws.SortingIsUnnecessaryIff` | backend/internal/prediction/trend.go:116-151 | The announced sort would read the current tier at the same moment if and only if no ranked sample is later than the last ranked one listed; reading the same sample, it changes nothing |
| `TrendLaws.MirroredRanksMirrorTheTrend` | backend/internal/prediction/trend.go:144-175 | Mapping each rank r to 5 − r negates the slope, keeps R² and confidence, and swaps degrading with improving |
| `TrendLaws.OneTierIsStable` | backend/internal/prediction/trend.go:157-175 | A series stuck on one tier is stable with slope 0; its confidence is low exactly when all timestamps coincide |
| `Formatting.Itoa` | backend/internal/prediction/trend.go:257-277 | For every 64-bit integer the loop stays inside its 20-byte buffer and prints the decimal digits |
| `Formatting.DecimalRoundTrip` | backend/internal/calculator/gaming.go:104-124 | Parsing the output gives the number back if and only if it is not −2^63 |
| `Formatting.FmtFloat` | backend/internal/prediction/trend.go:279-303 | The split, carry and padding print the nearest number of hundredths |
| `Formatting.FixedPointIsWithinHalfAHundredth` | backend/internal/prediction/trend.go:284-299 | For magnitudes below 2^63 the output reads back within 0.005 with the right sign, if and only if the magnitude is below 2^63 − 0.005; the range beyond, where the carry overflows, holds reals but no 64-bit float |
| `McpOAuth.Contains` | backend/internal/mcp/server/oauth.go:332-339 | The redirect URI search answers membership |
| `McpOAuth.OAuthServer.HandleAuthorize` | backend/internal/mcp/server/oauth.go:161-222 | Stores a code only when every check passed, in their order; otherwise nothing changes |
| `McpOAuth.OAuthServer.TakeCode` | backend/internal/mcp/server/oauth.go:249-254 | A code is removed by the lookup that finds it |
| `McpOAuth.OAuthServer.HandleToken` | backend/internal/mcp/server/oauth.go:230-297 | A well-formed request spends its code whatever the answer; a token with the code's client and scope is stored exactly when no check refuses |
| `McpOAuth.OAuthServer.HandleRevoke` | backend/internal/mcp/server/oauth.go:300-314 | Removes the token on a well-formed POST, known or not |
| `McpOAuth.OAuthServer.ValidateToken` | backend/internal/mcp/server/oauth.go:123-135 | Answers client and scope of a stored unexpired token, and forgets an expired one |
| `McpOAuth.ExchangeOnce` | backend/internal/mcp/server/oauth.go:161-297 | An approved code exchanged in time validates with the approved client and scope, and exchanging it again finds no code |
| `McpOAuth.ApprovedIff` | backend/internal/mcp/server/oauth.go:161-199 | A request is approved if and only if it asks for a code with S256 and a challenge, names a known client at one of its redirect URIs, and carries the configured operator token |
| `McpOAuthRuns.InvAlways` | backend/internal/mcp/server/oauth.go:123-314 | Codes, flights, ledger and token map stay consistent after every interleaving of steps |
| `McpOAuthRuns.OneTokenPerCode` | backend/internal/mcp/server/oauth.go:249-254 | In every interleaving a code yields at most one token (section 4.1.2 of RFC 6749) |
| `McpOAuthRuns.EveryTokenIsEarned` | backend/internal/mcp/server/oauth.go:201-287 | Every token carries client and scope of an operator-approved code, redeemed by the same client at the same registered redirect URI with the matching verifier within the code's minute (section 4.6 of RFC 7636) |
| `McpOAuthRuns.ValidatesIffIssuedUnrevokedAndFresh` | backend/internal/mcp/server/oauth.go:123-135 | A token validates if and only if it was issued, not revoked since (section 2 of RFC 7009), and is at most one hour old |
| `McpOAuthRuns.RefusedCheckBurns` | backend/internal/mcp/server/oauth.go:260-278 | A check that refuses leaves the code in nobody's hands |
| `McpOAuthRuns.FailedExchangeBurnsTheCode` | backend/internal/mcp/server/oauth.go:249-278 | From then on no run ever issues a token from it |
| `McpOAuthRuns.GoodExchangeSucceeds` | backend/internal/mcp/server/oauth.go:230-297 | After any interleaving a code stored within the minute and not taken is exchanged by a well-formed request of its client, redirect URI and verifier, for a token that validates at once with the approved client and scope |
| `Collection.BackfillOnlyWidens` | backend/internal/collector/handlers.go:222-231 | A backfill never narrows the window and reaches at least its own length |
| `Collection.WindowInNanoseconds` | backend/internal/collector/handlers.go:222-231 | The first window is 30 days, later ones go back an hour before the stamp, and a backfill replaces either exactly when it reaches further, all in nanoseconds |
| `Collection.ProjectStore.UpsertDeployment` | backend/internal/storage/queries/deployments.sql.go:120-131 | On conflict only status and finish time change |
| `Collection.ProjectStore.UpsertEnvironment` | backend/internal/storage/queries/environments.sql.go:71-78 | Inserts, or overwrites name and production flag |
| `Collection.ProjectStore.StoreEnvironments` | backend/internal/collector/handlers.go:200-214 | The listing is upserted in order up to the failing item |
| `Collection.ProjectStore.StoreDeployments` | backend/internal/collector/handlers.go:241-277 | The batch is upserted in order up to the failing item, an environment missing from the listing being inserted once, before the deployment that names it can fail |
| `Collection.ProjectStore.StoreMergeRequests` | backend/internal/collector/handlers.go:291-321 | The batch is overwritten in order up to the failing item |
| `Collection.ProjectStore.Correlate` | backend/internal/collector/handlers.go:820-863 | The two loops insert exactly the links of the intervals passed and, in the one where a failure strikes, those inserted before it; all others are kept |
| `Collection.ProjectStore.LinkAll` | backend/internal/collector/handlers.go:853-860 | Insert-or-ignore of one deployment's links |
| `Collection.ProjectStore.CollectGitlab` | backend/internal/collector/handlers.go:195-335 | The whole run, stopped at any remote call or any single write, leaves the tables the specification function gives, and stamps the project only at the end |
| `Collection.ListedUnique` | backend/internal/storage/queries/deployment_mr_links.sql.go:15-24 | With ties broken by id the ordered list is determined by its rows |
| `Collection.LatestArrivalIsAppended` | backend/internal/storage/queries/deployment_mr_links.sql.go:15-24 | A production deployment finishing after all others extends the list at its end |
| `Collection.ProductionIdsAreDistinct` | backend/internal/storage/queries/deployment_mr_links.sql.go:15-24 | No deployment is listed twice |
| `CollectionRuns.RunEffect` | backend/internal/collector/handlers.go:154-335 | A run upserts a prefix of its batch, all of it when it succeeds, and only success moves the sync stamp |
| `CollectionRuns.SuccessStoresEverything` | backend/internal/collector/handlers.go:195-335 | A successful run on any tables stores every listed environment with its name and production flag; every deployment the window lets in, whole when new, status and finish time otherwise; every merged default-branch request the window lets in with exactly its row; and leaves the requests outside the batch alone |
| `CollectionRuns.RequestsEffect` | backend/internal/collector/handlers.go:281-321 | Any run, failed or not, upserts only requests with state merged, on the default branch, updated after the whole second of the window start, and all of those when it succeeds |
| `CollectionRuns.TracksRequestsAlways` | backend/internal/collector/handlers.go:222-321 | After any runs whose windows go back to the successful fetch before, failed ones included, every merged default-branch request updated between the first window start and the last successful fetch is stored with its row |
| `CollectionRuns.TracksAlways` | backend/internal/collector/handlers.go:222-335 | After any non-overlapping runs, failed ones included, whose successful windows go back to the successful fetch before, every deployment updated between the first window start and the last successful fetch is mirrored |
| `CollectionRuns.StoredAsFetched` | backend/internal/collector/handlers.go:222-277 | After every successful run of such a sequence each deployment last updated after the first successful window start is stored with its status and finish time at that fetch |
| `CollectionRuns.PromptRunsReach` | backend/internal/collector/handlers.go:222-231 | One hour of overlap makes a window reach whenever the successful runs before ended within an hour of their fetch, to the second, backfill or not |
| `CollectionRuns.PromptRunsStoreAsFetched` | backend/internal/collector/handlers.go:222-277 | So after such runs, the last however slow, everything is stored as fetched |
| `CollectionRuns.NarrowWindowLosesAnUpdate` | backend/internal/collector/handlers.go:222-231 | The reach is needed: whenever a second run's window, whatever its start and backfill, does not go back to the first one's fetch, there is a history whose update it misses |
| `CollectionRuns.SlowRunLosesAnUpdate` | backend/internal/collector/handlers.go:223-225 | The hour is needed: for any first run that ends later than an hour after its fetch there is a history whose update the next run misses |
| `CollectionRuns.RunsOnlyAdd` | backend/internal/storage/queries/deployments.sql.go:120-131 | No run removes a row or a link, and a deployment keeps the environment, commit and start time of its first insert |
| `CollectionRuns.RunLinks` | backend/internal/collector/handlers.go:322-335 | Any run, failed or not, keeps rows and links and adds only links of a pass over the tables it leaves; a successful one adds all of those |
| `CollectionRuns.RunsLinkFirstDeliveries` | backend/internal/collector/handlers.go:809-863 | Told by the tables alone: what a run links anew is a non-bot default-branch request and the first successful production deployment finishing at or after its merge, some such deployment finishing less than 30 days after it; a successful run links all of those |
| `CollectionRuns.SuccessLinksEverything` | backend/internal/collector/handlers.go:322-335 | A successful run ends with the links it found plus exactly those of a pass over the tables it leaves |
| `CollectionRuns.LinksAreThoseOfOnePass` | backend/internal/collector/handlers.go:154-335 | Over any runs, failed ones included, in which listed deployments stay put, new ones come last and merge requests keep what attribution reads, all stored links are those a pass over the current tables would insert, and after a successful run there are no others missing |
| `CollectionRuns.OneDeploymentEach` | backend/internal/collector/handlers.go:809-819 | Over such runs each merge request is linked to at most one listed deployment and to none off the list |
| `CollectionRuns.LinksAreCleanIff` | backend/internal/collector/handlers.go:809-863 | After a successful run on any tables the links are those of one pass if and only if each link found still leads to the first deployment, and a merge request has two deployments if and only if it had before or its link leads elsewhere |
| `CollectionRuns.RenamedEnvironmentLeaves` | backend/internal/storage/queries/environments.sql.go:71-78 | Reported under a name that is not a production one, an environment takes exactly its deployments off the list |
| `Correlation.OnePassAttribution` | backend/internal/collector/handlers.go:820-863 | A pass links a non-bot default-branch merge request if and only if it was merged in (first finish − 30 days, last finish], to exactly one deployment, the first in list order finishing at or after it |
| `Correlation.ClosesIffFirst` | backend/internal/storage/queries/merge_requests.sql.go:15-22 | Falling in a deployment's half-open interval means that deployment is the first finishing at or after the merge |
| `Correlation.PassIsIdempotent` | backend/internal/storage/queries/deployment_mr_links.sql.go:60-64 | A repeated pass adds nothing and no pass removes a link |
| `Correlation.LinkedIff` | backend/internal/collector/handlers.go:812-861 | A pass over any list links a merge request to a deployment if and only if that is the first listed one finishing at or after the merge and the merge lies in the list's span, told without the intervals of the loop |
| `Correlation.TwoPassesIff` | backend/internal/collector/handlers.go:828-861 | Between passes over any two lists and merge-request tables: a link survives into the later pass if and only if its deployment is still the first, and both passes together give a merge request two deployments if and only if both attribute it, to different ones |
| `Correlation.LinksAreThoseOfPasses` | backend/internal/storage/queries/deployment_mr_links.sql.go:60-64 | For any history of lists, merge-request writes and passes, a stored link is one some pass found its deployment first by |
| `Correlation.InterleavingsAgreeIff` | backend/internal/collector/handlers.go:816-861 | A history ending with a pass stores exactly that pass's links if and only if every deployment an earlier pass linked is still the first for its merge request |
| `Correlation.GrowthKeepsLinks` | backend/internal/collector/handlers.go:828-861 | Appending deployments and adding or rewriting merge requests without touching what attribution reads keeps every link of a pass |
| `Correlation.LinksNeverStray` | backend/internal/collector/handlers.go:828-861 | When listed deployments stay put and new ones come last, no stored link is ever one a fresh pass would not insert |
| `Correlation.InterleavingsAgree` | backend/internal/collector/handlers.go:809-863 | Any interleaving of such arrivals and passes ending in a pass stores exactly the links of one pass at the end |
| `Correlation.InsertionLeavesNoStaleLinkIff` | backend/internal/collector/handlers.go:828-861 | The special case of one deployment inserted right after a pass: the next pass leaves only the new list's links if and only if no previously linked merge request falls in the newcomer's interval |
| `Correlation.LateDeploymentLinksTwice` | backend/internal/collector/handlers.go:828-861 | A concrete late arrival after which one merge request is linked to two deployments |
| `Correlation.DepartedDeploymentLinksTwice` | backend/internal/collector/handlers.go:828-861 | A concrete departure from the list, nothing arriving, after which one merge request is linked to two deployments |
| `Median.MedianIgnoresOrder` | backend/internal/calculator/subcomponents.go:122-137 | The integer and the continuous median depend on the multiset only |
| `Median.MedianGrows` | backend/internal/calculator/subcomponents.go:122-137 | Pointwise larger samples have a larger median |
| `Median.MedianMinimisesDeviation` | backend/internal/calculator/subcomponents.go:119-137 | The median minimises the total absolute deviation over all integers, and the minimisers are exactly the integers between the two middle values |
| `Median.MedianOfNegated` | backend/internal/calculator/subcomponents.go:122-137 | The median of the negated sample is the negated median, so neither of two middle values is favoured; the continuous median likewise |
| `Median.MiddleByCount` | backend/internal/calculator/gaming.go:137-146 | Each middle value is determined by how many samples lie at or below each point |
| `Median.PooledMedianIsBetween` | backend/internal/storage/queries/team_metrics.sql.go:129-149 | The continuous median of pooled samples lies between the medians of the non-empty parts |
| `LeadTime.Decompose` | backend/internal/calculator/subcomponents.go:51-78 | Each component is present if and only if both ends are and the end is less than a second too early, and is its whole seconds |
| `LeadTime.PartsAccountForTotal` | backend/internal/calculator/subcomponents.go:51-78 | On chronological timestamps pickup + review + lag ≤ total ≤ that sum + 2 |
| `LeadTime.TwoSecondsCanBeDropped` | backend/internal/calculator/subcomponents.go:54 | The bound of 2 is reached |
| `LeadTime.NegativeIsKeptIff` | backend/internal/calculator/subcomponents.go:53-76 | A negative stretch is kept, as 0, if and only if it is shorter than a second |
| `LeadTime.AggregateLeadTime` | backend/internal/calculator/subcomponents.go:91-117 | Each component's median is taken over its own present values |
| `LeadTime.MissingComponentsAreInvisible` | backend/internal/calculator/subcomponents.go:96-109 | Breakdowns lacking a component do not move its median, whatever else they carry |
| `LeadTime.MedianInt64` | backend/internal/calculator/subcomponents.go:122-137 | Copy, in-place sort and middle give nothing for an empty sample and otherwise a centre of least total deviation |
| `LeadTime.MedianOfInts` | backend/internal/calculator/gaming.go:137-146 | Copy, in-place sort and middle give the median |
| `LeadTime.AnalyzeGaming` | backend/internal/calculator/gaming.go:60-92 | Flagged if and only if at least four sizes are known and at least half of them are at most five lines, that is, the lower middle one is; the counts and the percentage are those of the window's merge requests; a trivial median is always flagged |
| `Relational.JoinBySharing` | backend/internal/storage/queries/team_metrics.sql.go:168-182 | Summing over a join is summing what each right row receives, for any tables |
| `Aggregation.TeamTotals` | backend/internal/storage/queries/team_metrics.sql.go:53-63 | Any sum over a team's rows is the sum over its projects of the same sum, for any tables |
| `Aggregation.TeamCountIsSum` | backend/internal/storage/queries/team_metrics.sql.go:53-63 | A team's deployment count is the sum of its projects' counts |
| `Aggregation.GroupsAreIds` | backend/internal/storage/queries/deployments.sql.go:15-34 | After the left join and GROUP BY the groups are the deployments, and one counts as failed exactly when some incident is linked |
| `Aggregation.FailureRateOfDistinct` | backend/internal/storage/queries/deployments.sql.go:15-34 | The failure rate is the linked share, one sample per deployment however many links it has |
| `Aggregation.FailureSampleIsDeploymentCount` | backend/internal/storage/queries/deployments.sql.go:15-64 | For any link table the failure rate's sample size is the deployment count, by project and by team |
| `Aggregation.TeamFailureRateIsWeightedMean` | backend/internal/storage/queries/team_metrics.sql.go:14-34 | A team's failure rate is the sample-weighted mean of its projects' rates |
| `Aggregation.TeamSampleIsPooled` | backend/internal/storage/queries/team_metrics.sql.go:129-149 | A team's lead-time sample is the pooled samples of its projects, as multisets |
| `Aggregation.TeamMedianIsBetweenProjectMedians` | backend/internal/storage/queries/team_metrics.sql.go:129-149 | A team's median lead time lies between the smallest and largest median of its projects with samples |
| `Aggregation.RestorationsByProject` | backend/internal/storage/queries/incidents.sql.go:63-77 | Sums over incidents joined to chosen projects split by project |
| `Aggregation.TeamMttrIsWeightedMean` | backend/internal/storage/queries/team_metrics.sql.go:168-182 | MTTR sample sizes add up over a team's projects and its mean is the sample-weighted mean; an incident shared by two of them counts for each |
| `Classification.WorstOf` | backend/internal/calculator/classification.go:160-181 | The loop returns the lowest known tier present, and insufficient data if and only if none is known |
| `Classification.WorstIsUnique` | backend/internal/calculator/classification.go:157-181 | Only one tier fits that description |
| `Classification.RegressionIff` | backend/internal/alerts/tier.go:27-33 | The overall tier regresses if and only if some metric is known and below every metric known before, and one was known |
| `Classification.RuleFiresOn` | backend/internal/alerts/tier.go:27-55 | A regression is one of the six pairs that fall, a change one of those or the six that rise; tier_regression fires on the first, tier_change on both, any other kind on none |
| `Classification.RegressionHasACause` | backend/internal/calculator/classification.go:160-181 | Every regression has a metric whose own tier fell or became known |
| `Classification.RegressionIsMeasured` | backend/internal/calculator/classification.go:91-155 | With unchanged thresholds, in whatever order they stand, every regression has a metric whose measure got strictly worse or was first measured |
| `Classification.OverallByLimits` | backend/internal/calculator/classification.go:91-181 | With thresholds in whatever order they stand, the overall tier is elite, high or better, medium or better, exactly when something is measured and all that is measured keeps the limits of that tier or a better one, at the limit included for frequency and failure rate and excluded for durations; insufficient exactly when nothing is measured |
| `Classification.InsufficientIff` | backend/internal/collector/handlers.go:388-463 | Data is insufficient if and only if the window holds no successful production deployment and no resolved incident of the project |
| `Measuring.DeploymentsMeasured` | backend/internal/collector/handlers.go:393-437 | Frequency times days is the number of the project's successful production deployments since the window start in nanoseconds; the failure rate is the share of them linked to an incident, absent exactly when there are none |
| `Measuring.LeadTimeMeasured` | backend/internal/collector/handlers.go:407-419 | With one sample, finish minus first commit, for each linked non-bot request of those deployments, the lead time is the continuous median in whole seconds, absent exactly without samples |
| `Measuring.RestoreMeasured` | backend/internal/collector/handlers.go:438-449 | With one sample, resolved minus created, for each incident of the project resolved since the window start, the restore time is the mean in whole seconds, absent exactly without samples |
| `TierAlerts.Latest` | backend/internal/storage/queries/metrics.sql.go:16-24 | The returned window is a latest one of its project and length, and none is returned only if there is none |
| `TierAlerts.MetricStore.FanOutAlertsForTierChange` | backend/internal/collector/handlers.go:515-592 | Appends one event per enabled covering rule whose kind matches, in rule order, skipping refused inserts; nothing without a change between known tiers |
| `TierAlerts.MetricStore.HandleComputeMetricWindow` | backend/internal/collector/handlers.go:360-506 | Reads the previous tier before appending the new window, then fans out; a failed query or store leaves everything unchanged |
| `TierAlertRuns.PreviousIsLast` | backend/internal/collector/handlers.go:382-391 | With times increasing within each window the tier read back is the last one computed for it |
| `TierAlertRuns.EventsAreTheMatchingChanges` | backend/internal/alerts/tier.go:36-55 | Over any run whose times increase within each window, in whatever order the windows come, what a rule reports for a window is exactly the adjacent transitions of its kind, and nothing for windows it does not cover |
| `TierAlertRuns.EventsByKind` | backend/internal/alerts/tier.go:47-55 | Over any such run an enabled rule of the tenant, project and window length has stored exactly the adjacent pairs that fell if its kind is tier_regression, that fell or rose if tier_change, and none of any other kind or reach |
| `TierAlertRuns.EventsAreAdjacentComputations` | backend/internal/collector/handlers.go:515-592 | Every stored event tells of two adjacent computations of its window |
| `TierAlertRuns.StoredRegressionsHaveACause` | backend/internal/calculator/classification.go:160-181 | Every stored regression has a metric whose own tier fell or became known between the two adjacent computations it tells of |
| `TierAlertRuns.RankChangesTelescope` | backend/internal/alerts/tier.go:36-42 | Across a stretch without insufficient data rank changes add up to the last rank minus the first |
| `TierAlertRuns.ReportedRanksTelescope` | backend/internal/collector/handlers.go:515-592 | So do the rank changes of the stored events of a tier_change rule |
| `TierAlertRuns.GapsAreSilent` | backend/internal/alerts/tier.go:36-42 | In any history nothing is reported across a stretch of insufficient data, however long: the reports are those before it and those after it |
| `TierAlertRuns.ReportedPlusHidden` | backend/internal/alerts/tier.go:8-42 | In any history the transitions among the known tiers are those reported plus those hidden behind insufficient data, and all are reported if and only if none is hidden |
| `TierAlertRuns.EventsTellEveryChangeIff` | backend/internal/collector/handlers.go:515-592 | So for the stored events of a covering rule over any run: they fall short of every known transition by exactly the number hidden, and tell all if and only if none is |
| `Dispatch.AlertEvents.HandleDispatchAlert` | backend/internal/collector/alerts.go:29-138 | Per outcome class: whether a POST is sent, the stored status, and whether the queue tries again; other events are untouched |
| `Dispatch.AlertEvents.MarkDelivered` | backend/internal/storage/queries/alerts.sql.go:354-361 | Sets delivered with the status code and clears the error |
| `Dispatch.AlertEvents.MarkFailed` | backend/internal/storage/queries/alerts.sql.go:373-379 | Sets failed with the status code, if any, and an error |
| `Dispatch.HandledIff` | backend/internal/collector/alerts.go:29-138 | On any stored status a call POSTs if and only if nothing keeps it from the request, and leaves the event delivered if and only if it wrote and its POST was accepted, or it did not write and the event was delivered before |
| `Dispatch.VerdictByStatus` | backend/internal/collector/alerts.go:100-138 | Of a POST the queue is told done exactly on 200 to 299 if stored, give up exactly on 400 to 499 other than 408 and 429, and again otherwise |
| `Dispatch.DeliveredEventIsPostedAgain` | backend/internal/collector/alerts.go:26-29 | A call on a delivered event that POSTs again and leaves it failed |
| `Dispatch.LastWriteDecides` | backend/internal/collector/alerts.go:26-29 | After any calls from any start the last call that wrote decides the status, and without one the start does; other events are untouched |
| `Dispatch.PostsAreBounded` | backend/internal/collector/tasks.go:127-136 | From any start, and however long the queue keeps trying, one retry chain POSTs at most six times and never after a recorded delivery or a permanent rejection of its own |
| `Dispatch.KeepsTrying` | backend/internal/collector/tasks.go:127-136 | With nothing in the way of the request but an answer that is neither accepted nor final, the chain does use all its six attempts, a POST each |
| `Dispatch.DeliveredIffRecorded` | backend/internal/collector/alerts.go:102-127 | After a chain from any start the status is delivered if and only if an attempt got a 2xx and its write succeeded, or it was delivered before and no attempt wrote |
| `Dispatch.DeliveredIsFinal` | backend/internal/collector/alerts.go:104-115 | A delivery the chain recorded ends it, and an ended chain makes no attempt any more |
| `Dispatch.DeliveredStaysIff` | backend/internal/collector/alerts.go:102-127 | Within a chain a delivered event stays delivered come what may if and only if the chain is over |
| `Dispatch.TakenTwiceMeansLostWrite` | backend/internal/collector/alerts.go:104-110 | Within one chain, from any start, a webhook accepts the alert again only after an acceptance whose write failed |
| `Dispatch.TakenYetFailed` | backend/internal/collector/alerts.go:104-137 | A concrete chain in which the webhook accepted the alert and the event ends failed |
| `Dispatch.WordingMatchesTransition` | backend/internal/collector/alerts.go:142-192 | For every stored event, the generic message says regressed exactly when the tier fell |
| `Dispatch.MessageIsRightIff` | backend/internal/collector/alert_destinations.go:112-195 | For every stored event and destination the message tells what happened if and only if the tier fell or the destination is not Opsgenie |
| `Dispatch.OpsgeniePromotionIsMistold` | backend/internal/collector/alert_destinations.go:180-183 | A promotion the Opsgenie text tells as a regression |
| `Envelope.RoundTrip` | backend/internal/integrations/atlassian/crypto.go:60-93 | Decryption inverts encryption, the empty text included |
| `Envelope.DecryptsIff` | backend/internal/integrations/atlassian/crypto.go:74-93 | A stored value opens to a text if and only if it is empty (and so is the text) or decodes to a nonce followed by that text sealed under it |
| `Atlassian.Service.StartConnect` | backend/internal/integrations/atlassian/service.go:74-91 | Stores the state with its ten-minute expiry and the default return path |
| `Atlassian.Service.CompleteConnect` | backend/internal/integrations/atlassian/service.go:104-178 | The state is gone afterwards whatever the outcome; the connection is stored exactly when nothing failed |
| `Atlassian.Service.AccessToken` | backend/internal/integrations/atlassian/service.go:185-208 | The token returned is the stored one with at least five minutes left, or one refreshed in this call |
| `Atlassian.Service.RefreshConnection` | backend/internal/integrations/atlassian/service.go:281-328 | A failure changes at most the error column; a success stores the new tokens and replaces the refresh token only when a new one came |
| `Atlassian.Service.DisconnectTenant` | backend/internal/integrations/atlassian/service.go:259-265 | Deletes the tenant's connection |
| `AtlassianRuns.StatesAreConserved` | backend/internal/integrations/atlassian/service.go:82-129 | Over any run each state handed out was consumed once or is still stored |
| `AtlassianRuns.StateIsConsumedOnce` | backend/internal/integrations/atlassian/service.go:115-126 | A state issued once is consumed at most once |
| `AtlassianRuns.EncryptionIsTransparent` | backend/internal/integrations/atlassian/service.go:74-328 | Over any run the service answers exactly like one that stores the tokens themselves and never meets an unreadable ciphertext |
| `AtlassianRuns.StoredTokensAreTheLatest` | backend/internal/integrations/atlassian/service.go:141-171 | The stored ciphertexts decrypt to the newest non-empty refresh token since the last stored connect, and the newest access token, of the answers whose write succeeded |
| `AtlassianRuns.StoredTokensAreTheNewestAnsweredIff` | backend/internal/integrations/atlassian/service.go:289-326 | Counting lost answers too: the stored access token is the newest answered if, and Atlassian's tokens being fresh only if, the newest answer was saved; the stored refresh token likewise, if and only if no answer carrying one was lost since the last saved one |
| `AtlassianRuns.TokensHandedOutAreCurrent` | backend/internal/integrations/atlassian/service.go:199-208 | The token handed out is the newest saved, so the newest answered unless that answer was lost, and has the safety margin left or was answered in that call |
| `AtlassianRuns.TokensLastFiveMinutes` | backend/internal/integrations/atlassian/service.go:185-208 | Told by the lifetimes Atlassian answered: while stored time + expires_in·10^9 of the newest saved answer reaches five minutes past the check, its access token is handed out; after that only a token answered and saved in this call, each refusal having its cause |
| `AtlassianRuns.CallbacksConnectTheStarter` | backend/internal/integrations/atlassian/service.go:74-178 | A callback whose state is still stored connects if and only if it comes within ten minutes of the start that handed the state out, Atlassian answers with an access token and the table takes it; it connects that start's tenant with exactly what Atlassian answered |
| `AtlassianRuns.FailedAccessOnlyMarks` | backend/internal/integrations/atlassian/service.go:281-327 | A failed token request changes nothing except, on a refused refresh, the error column |
| `Identities.Match` | backend/internal/identities/automatch.go:39-72 | The partition, nested loops, seen set and stable sort return the first suggestion of each unordered pair, stably sorted by falling score |
| `Identities.Collect` | backend/internal/identities/automatch.go:54-67 | The loops with the seen set keep the first suggestion of each pair key |
| `Identities.PairKeyIff` | backend/internal/identities/automatch.go:98-103 | Two keys are equal if and only if the unordered pairs of ids are |
| `Identities.NoPairTwice` | backend/internal/identities/automatch.go:36-38 | For any input no unordered pair of ids is suggested twice |
| `Identities.EmailsThenUsernames` | backend/internal/identities/automatch.go:54-72 | With distinct ids the result is the email matches in nested-loop order followed by the username-only matches in nested-loop order |
| `Identities.EachMatchExactlyOnce` | backend/internal/identities/automatch.go:82-96 | With distinct ids each matching gitlab-jira pair is suggested exactly once, for its email first and its username otherwise |
| `Identities.SuggestedIff` | backend/internal/identities/automatch.go:82-96 | With distinct ids a gitlab and a jira identity are suggested if and only if their normalised emails are equal and not blank, with score 1.0, or else their normalised usernames are, with 0.7 |

## Left out

- HTTP routing, request parsing, redirects and response bodies: no state of their own.
- The GitLab, Jira and MCP network clients, webhooks, secret and SLO providers, and configuration: calls into systems outside the repository; their answers are parameters.
- The Angular frontend: it repeats the backend's tier thresholds.
- IEEE rounding, NaN and infinities: reals are exact, so the clamps of the regression and the zero-length window (a float division by zero) are outside the model; `Classification.Measure` takes a positive window.
- Saturation of Go durations beyond 292 years and int64 overflow of sums, counts and expiry times: integers are unbounded except in `Formatting`.
- `Formatting.FmtFloat`: magnitudes of 2^63 and above, where Go leaves the conversion to an integer undefined.
- The wording of reasons, webhook bodies, PagerDuty and Opsgenie envelopes and the host match that selects them, and `fmtPct`: text without an invariant, except whether a message tells of a regression; the figures a trend reason carries are kept in `Trend.Reason`.
- `Collection.ProjectStore.CollectGitlab`: the page loop and changes at GitLab during paging are not modelled.
- Overlapping collections of one project and concurrent recomputations of one window: the code takes no lock there, so the theorems are about sequential runs.
- Rows of equal finish time have no order in SQL; the model breaks the tie by id. Two rows of a metric window never share a computation time: the primary key refuses the second, which is a failed store.
- `TierAlertRuns.History`: rules stay the same over the run; what the fan-out does with faults is in the contract of `TierAlerts.MetricStore.FanOutAlertsForTierChange`. Enqueueing the dispatch task, whose failure leaves the event pending, is not modelled.
- `Dispatch.RunTask`: the queue's backoff. A worker that dies inside an attempt leaves either an attempt not made or one whose write was lost; what further calls then do is `Dispatch.LastWriteDecides`.
- Timing of constant-time comparisons, entropy failure and the parsing of the client list from the environment.
- `CloudID`, `GetConnection`, metadata and the listing of rules and events: plain reads.
- Jira collection, incident linking, achievements, monthly snapshots, ISO weeks, error budgets and the per-day series: they would add easy members only.
