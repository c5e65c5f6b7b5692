# NODOAI dashboard core in Dafny

This project models the client-side data logic of the NODOAI vault dashboard, a
React front end for AI-managed liquidity vaults on Sui, and proves properties of
that logic. It covers:

- **Unified activity feed** (`activity_feed.dfy`). Transactions are normalised into
  activities and eight synthetic optimizer events are placed before "now". The two
  lists are merged, newest first, by a stable sort. The result can be shown as
  all, user or ai activities, and elapsed times are bucketed into `s/m/h/d` labels.
  The component's `activities`/`filterType` state is the class `Feed`.
- **Portfolio figures** (`dashboard.dfy`). Three totals over the investment
  snapshot; a value-weighted APR estimate with the APR picked by substring; and the
  30-day performance series, built by a loop that attributes each day's deposits
  to that day.
- **Vault catalogue** (`vault_catalog.dfy`). A case-insensitive search on name and
  description, then one of four category views. The filter state and its reset
  button are the class `CatalogFilters`.
- **Insight carousel** (`ai_insights.dfy`). Four fixed insight cards, an active
  index moved by the autoplay tick, the previous/next buttons and the dots, and the
  colour of a metric's change. This is the class `Carousel`.
- **Hero figures** (`hero_section.dfy`). Total TVL and the mean APR, written into
  the hero's `kpiData` state (class `HeroKpis`).
- **Small helpers.** The vault display classification (`vault_detail_header.dfy`)
  and the abbreviated wallet address (`connect_wallet.dfy`).

Shared modules:

- `Text`: JavaScript `includes`, ASCII `toLowerCase`, `trim`, clamping `substring`,
  `localeCompare` as lexicographic order, and integer rendering in a template
  string.
- `StableSort`: `Array.prototype.sort` as ECMAScript 2019, section 22.1.3.25, makes
  it stable. It is an insertion sort proved sorted, a permutation, and
  order-preserving among tied elements.
- `Sequences`: order-preserving subsequences.
- `Records`: the service records (`Transaction`, `Investment`) and the day number
  of a millisecond timestamp.
- `Wrappers`: `Option`, standing for a value that may be `undefined`.

Representation choices:

- Amounts, APRs and TVL are `real`.
- Timestamps are integer milliseconds and dates are day numbers. A transaction's
  `timestamp` is an ISO-8601 string in the feed; the model takes it as already parsed.
- The wall clock ("now", "today") is a parameter.
- The `Math.sin` growth curve of the series is the parameter `growth`.

Two places where the code departs from the intent its field names and the design suggest:

- The normaliser does not drop transactions whose type is neither deposit nor
  withdraw. It casts the type and keeps the record (`UnknownTypeIsKept`).
- The profit total adds up the stored `profit` fields. It does not recompute value
  minus principal (`StoredProfitIsNotRecomputed`).

## Model

| member | source | states |
|---|---|---|
| ActivityFeed.FromTransaction | src/components/vault/UnifiedActivityFeed.tsx:36-43 | a transaction becomes one activity with the same id, type, amount and time, `vault` = vault name, `user` = the first 8 characters of the id (all of it when shorter), no AI fields |
| ActivityFeed.Normalize | src/components/vault/UnifiedActivityFeed.tsx:36-43 | one activity per transaction, in order; none is dropped |
| ActivityFeed.NormalizeTransactions | src/components/vault/UnifiedActivityFeed.tsx:36-43 | missing transactions give the empty list, not an error |
| ActivityFeed.UnknownTypeIsKept | src/components/vault/UnifiedActivityFeed.tsx:38 | a record whose type is neither deposit nor withdraw still yields one activity with that type |
| ActivityFeed.AiActivities | src/components/vault/UnifiedActivityFeed.tsx:46-111 | exactly 8 events of type ai at now minus 2, 5, 8, 15, 22, 37, 48 and 67 minutes, each with an action and result and no amount or user; strictly newest first, all before now |
| ActivityFeed.AiActivityIds | src/components/vault/UnifiedActivityFeed.tsx:46-111 | event i of the list has id `ai-` followed by the decimal numeral of i + 1, so the ids run `ai-1` … `ai-8` in list order |
| ActivityFeed.NewerOrSameIsTotalPreorder | src/components/vault/UnifiedActivityFeed.tsx:114-116 | the comparator `b.timestamp - a.timestamp` is a consistent comparator |
| ActivityFeed.MergeIsStableOrderedPermutation | src/components/vault/UnifiedActivityFeed.tsx:114-116 | the merged list is a permutation of transactions followed by AI events, of length the sum, non-increasing in time; the activities of any one timestamp keep their concatenation order |
| ActivityFeed.NewestFirstHead | src/components/vault/UnifiedActivityFeed.tsx:114-116 | in a newest-first list the head is at least as recent as every element |
| ActivityFeed.MergeActivities | src/components/vault/UnifiedActivityFeed.tsx:114-116 | the sorted concatenation holds every transaction activity and AI event exactly as often as before, and nothing else |
| ActivityFeed.BuildFeed | src/components/vault/UnifiedActivityFeed.tsx:36-118 | the stored list has the transaction activities plus eight entries, a permutation of the transaction activities followed by the AI events |
| ActivityFeed.FeedIsNewestFirst | src/components/vault/UnifiedActivityFeed.tsx:36-118 | whether or not transactions were delivered, the built feed is non-increasing in time |
| ActivityFeed.FeedShape | src/components/vault/UnifiedActivityFeed.tsx:36-118 | with transactions delivered the feed has \|txs\| + 8 entries, is a permutation of the normalised transactions and the AI events, and is newest first with the newest at the head |
| ActivityFeed.FeedWithoutTransactions | src/components/vault/UnifiedActivityFeed.tsx:36-118 | without transactions the feed is exactly the AI events |
| ActivityFeed.MergeHead | src/components/vault/UnifiedActivityFeed.tsx:114-116 | the head of the merged list is the first of the concatenation among those with its timestamp, so a transaction wins a tie with an AI event |
| ActivityFeed.MergeOneHead | src/components/vault/UnifiedActivityFeed.tsx:114-116 | one activity merged ahead of a list with a strictly newest head leads the result exactly when it is at least as recent as that head |
| ActivityFeed.SingleTransactionScenario | src/components/vault/UnifiedActivityFeed.tsx:36-118 | one transaction gives nine entries, led by the transaction when it is no older than two minutes and by `ai-1` otherwise |
| ActivityFeed.Project | src/components/vault/UnifiedActivityFeed.tsx:122-126 | every filter mode gives an order-preserving subsequence holding exactly the shown activities, each as often as before; `user` shows deposit/withdraw, `ai` shows ai |
| ActivityFeed.ProjectAllIsIdentity | src/components/vault/UnifiedActivityFeed.tsx:123 | the `all` filter is the identity |
| ActivityFeed.UserAndAiPartition | src/components/vault/UnifiedActivityFeed.tsx:122-126 | when every type is deposit, withdraw or ai, the user and ai views are disjoint and together hold every activity as often as it occurs |
| ActivityFeed.TimeAgo | src/components/vault/UnifiedActivityFeed.tsx:129-138 | seconds exactly when under a minute has passed; otherwise 1–59 minutes, 1–23 hours or at least one day, with the elapsed milliseconds between count and count + 1 of that unit (floor division at each step) |
| ActivityFeed.TimeAgoLabel | src/components/vault/UnifiedActivityFeed.tsx:132-137 | the label ends in the letter of its unit and starts with a minus sign exactly when the timestamp lies in the future |
| ActivityFeed.TimeAgoLabelReadsBack | src/components/vault/UnifiedActivityFeed.tsx:132-137 | the label is the decimal count followed by the unit letter, and its numeral reads back as the count |
| ActivityFeed.Feed.Refresh | src/components/vault/UnifiedActivityFeed.tsx:34-119 | the effect replaces the activity list wholesale with the merged feed, which is newest first; the filter is unchanged |
| ActivityFeed.Feed.constructor | src/components/vault/UnifiedActivityFeed.tsx:23-24 | the component starts with no activities and the `all` filter |
| ActivityFeed.Feed.SetFilterType | src/components/vault/UnifiedActivityFeed.tsx:24 | a filter click changes only the filter |
| ActivityFeed.ProjectKeepsShown | src/components/vault/UnifiedActivityFeed.tsx:122-126 | every activity the filter shows is kept |
| ActivityFeed.Feed.FilteredActivities | src/components/vault/UnifiedActivityFeed.tsx:122-126 | the shown list is a subsequence of the stored list, holds exactly the stored activities that are shown, and is the whole list under `all` |
| Dashboard.TotalAppend | src/pages/Dashboard.tsx:46-48 | each total of a concatenation is the sum of the parts' totals |
| Dashboard.Total | src/pages/Dashboard.tsx:46-48 | with no negative field the total is not negative |
| Dashboard.TotalOf | src/pages/Dashboard.tsx:46-48 | missing investments and an empty list both total 0; otherwise the total over the list |
| Dashboard.TotalIsSumOfFields | src/pages/Dashboard.tsx:46-48 | the left fold equals the first field plus the rest, and every total is 0 for missing or empty investments |
| Dashboard.ConsistentProfitTotal | src/pages/Dashboard.tsx:46-48 | when every stored profit is value minus principal, the profit total is total value minus total principal |
| Dashboard.StoredProfitIsNotRecomputed | src/pages/Dashboard.tsx:48 | a stored profit of 0 on value 110 and principal 100 gives a profit total of 0, not 10 |
| Dashboard.AprEstimate | src/pages/Dashboard.tsx:88-91 | 21.5 exactly when the id contains `deep`; 18.9 exactly when it contains `cetus` but not `deep`; 15.2 otherwise; case-sensitive |
| Dashboard.ValueWithApr | src/pages/Dashboard.tsx:87-94 | the value-times-estimate sum; its bounds are `ValueWithAprWithin` |
| Dashboard.AverageApr | src/pages/Dashboard.tsx:84-97 | 0 for missing or empty investments and for a total value that is not positive (no division by zero); otherwise the rate times the total value is the value-weighted APR sum |
| Dashboard.ValueWithAprWithin | src/pages/Dashboard.tsx:87-94 | with no negative value and every estimate in [lo, hi], the weighted sum lies between lo and hi times the total value |
| Dashboard.AverageAprWithin | src/pages/Dashboard.tsx:84-97 | with no negative value, a positive total and every estimate in [lo, hi], the average APR lies in [lo, hi] |
| Dashboard.UniformAverageApr | src/pages/Dashboard.tsx:84-97 | when every position has the same estimate, the average APR is that estimate |
| Dashboard.ValueWithAprBounds | src/pages/Dashboard.tsx:87-94 | with no negative value, the weighted sum lies between 15.2 and 21.5 times the total value |
| Dashboard.AverageAprBounds | src/pages/Dashboard.tsx:84-97 | with no negative value and a positive total, the average APR lies in [15.2, 21.5] |
| Dashboard.DepositsOn | src/pages/Dashboard.tsx:67-69 | only deposits dated that day are selected, each taken from the feed |
| Dashboard.DepositsOnOfOne | src/pages/Dashboard.tsx:67-69 | on a one-element feed the filter keeps the element exactly when it is a deposit dated that day |
| Dashboard.DepositsOnComplete | src/pages/Dashboard.tsx:67-69 | every deposit of the feed dated that day is selected |
| Dashboard.SumAmounts | src/pages/Dashboard.tsx:71 | with no negative amount the sum is not negative |
| Dashboard.DepositAmount | src/pages/Dashboard.tsx:67-71 | with no negative amount the day's amount is not negative; a day without deposits has amount 0 |
| Dashboard.DepositAmountAppend | src/pages/Dashboard.tsx:67-71 | a day's deposit amount over any split of the feed is the sum of the parts' amounts |
| Dashboard.DepositAmountOfOne | src/pages/Dashboard.tsx:67-71 | one transaction adds its amount to its own day exactly when it is a deposit; a withdrawal never contributes |
| Dashboard.DepositAmountInsert | src/pages/Dashboard.tsx:67-71 | inserting a transaction anywhere in the feed changes a day's amount by exactly its contribution |
| Dashboard.SeriesPoint | src/pages/Dashboard.tsx:59-78 | point i is dated today − 29 + i, has value = principal × growth(i) and profit = value − principal; `deposit` is present exactly when the day's deposits sum to more than 0, and then equals that positive sum |
| Dashboard.PerformanceData | src/pages/Dashboard.tsx:47-82 | empty when transactions are missing; otherwise exactly 30 points for the consecutive days today − 29 … today in ascending order, point i being `SeriesPoint` i with the principal total of the investments (0 when they are missing) |
| Dashboard.DayOfWithinDay | src/pages/Dashboard.tsx:61 | every timestamp within a day has that day's date |
| Dashboard.DepositAttribution | src/pages/Dashboard.tsx:57-79 | a 500 deposit at 10:00 today shows as 500 on today's point and on no other point |
| VaultCatalog.Search | src/pages/EnhancedVaultCatalog.tsx:86-90 | keeps exactly the vaults whose lower-cased name or description contains the query, each as often as before, in their original order |
| VaultCatalog.ApplySearch | src/pages/EnhancedVaultCatalog.tsx:84-91 | the search step only drops vaults and never reorders them |
| VaultCatalog.BlankQueryKeepsAll | src/pages/EnhancedVaultCatalog.tsx:85 | an empty or whitespace-only query filters nothing out |
| VaultCatalog.QuerySearchKeepsMatches | src/pages/EnhancedVaultCatalog.tsx:85-90 | any other query keeps, in order, exactly the vaults matching the lower-cased, untrimmed query |
| VaultCatalog.FilteredVaults | src/pages/EnhancedVaultCatalog.tsx:80-110 | an empty vault list gives an empty result for every category and query; every category shows a permutation of the searched list |
| VaultCatalog.AllKeepsSearchOrder | src/pages/EnhancedVaultCatalog.tsx:106-108 | `All` returns the searched list unchanged |
| VaultCatalog.TopAprIsSortedPermutation | src/pages/EnhancedVaultCatalog.tsx:95-96 | `Top APR` is a permutation of the searched list that is non-increasing in APR |
| VaultCatalog.LowestRiskIsStableSortedPermutation | src/pages/EnhancedVaultCatalog.tsx:97-102 | `Lowest Risk` is a permutation ordered low < medium < high, and the vaults of each level keep their searched order |
| VaultCatalog.NewIsSortedPermutation | src/pages/EnhancedVaultCatalog.tsx:103-105 | `New` is a permutation ascending by id |
| VaultCatalog.HigherAprFirstIsTotalPreorder | src/pages/EnhancedVaultCatalog.tsx:96 | `b.apr - a.apr` is a consistent comparator |
| VaultCatalog.LowerRiskFirstIsTotalPreorder | src/pages/EnhancedVaultCatalog.tsx:99-102 | the risk-rank comparator is a consistent comparator |
| VaultCatalog.SmallerIdFirstIsTotalPreorder | src/pages/EnhancedVaultCatalog.tsx:105 | `localeCompare` on ids, as lexicographic order, is a consistent comparator |
| VaultCatalog.CatalogFilters.constructor | src/pages/EnhancedVaultCatalog.tsx:52-53 | the page starts on `All` with an empty query |
| VaultCatalog.CatalogFilters.Visible | src/pages/EnhancedVaultCatalog.tsx:80-110 | the grid shows a permutation of the searched list, and under `All` the searched list itself |
| VaultCatalog.CatalogFilters.SetActiveFilter | src/pages/EnhancedVaultCatalog.tsx:52 | choosing a category changes only the category |
| VaultCatalog.CatalogFilters.SetSearchQuery | src/pages/EnhancedVaultCatalog.tsx:53 | typing changes only the query |
| VaultCatalog.CatalogFilters.ResetFilters | src/pages/EnhancedVaultCatalog.tsx:375-378 | reset clears the query and selects `All`, after which every vault list is shown whole and in order |
| StableSort.SortBy | src/pages/EnhancedVaultCatalog.tsx:96 | the sort returns a permutation of its input of the same length |
| StableSort.Insert | src/pages/EnhancedVaultCatalog.tsx:96 | one insertion step adds exactly the inserted element |
| StableSort.SortBySorted | src/components/vault/UnifiedActivityFeed.tsx:114-116 | with a consistent comparator, the result is ordered by it |
| StableSort.SortByStable | src/pages/EnhancedVaultCatalog.tsx:99-102 | elements tied under the comparator keep their relative input order |
| StableSort.SortBySortedIdentity | src/pages/EnhancedVaultCatalog.tsx:105 | an already ordered list is left as it is |
| AiInsights.GenerateInsights | src/components/vault/AIInsightsModule.tsx:48-135 | a fixed list of 4 cards with ids `insight-1`…`insight-4`, each with a metric |
| AiInsights.InsightIdsAreDistinct | src/components/vault/AIInsightsModule.tsx:48-135 | the four ids are pairwise distinct |
| AiInsights.NextIndex | src/components/vault/AIInsightsModule.tsx:41 | `(i+1) % n` stays in [0, n), moves one card forward and wraps the last card to the first |
| AiInsights.PrevIndex | src/components/vault/AIInsightsModule.tsx:163 | 0 maps to n − 1 and any other index i, up to n, to i − 1, staying in range |
| AiInsights.NextPrevInverse | src/components/vault/AIInsightsModule.tsx:161-169 | next followed by prev, or prev followed by next, returns to the original index |
| AiInsights.NextSteps | src/components/vault/AIInsightsModule.tsx:41 | k ≤ n steps forward from i land on i + k, wrapped once past the end |
| AiInsights.FullCycle | src/components/vault/AIInsightsModule.tsx:41 | n steps forward return to the starting card |
| AiInsights.MetricColor | src/components/vault/AIInsightsModule.tsx:152-159 | emerald exactly for a positive change, red-500 exactly for a negative one, white exactly for zero |
| AiInsights.Carousel.constructor | src/components/vault/AIInsightsModule.tsx:32-34 | the carousel starts on the first of the generated cards with autoplay on |
| AiInsights.Carousel.Tick | src/components/vault/AIInsightsModule.tsx:37-45 | while autoplay is on the index becomes `(i+1) % n`, otherwise nothing changes; autoplay is unchanged and the index stays in range |
| AiInsights.Carousel.HandleNext | src/components/vault/AIInsightsModule.tsx:166-169 | autoplay off and the index becomes `(i+1) % n`, in range |
| AiInsights.Carousel.HandlePrev | src/components/vault/AIInsightsModule.tsx:161-164 | autoplay off and the index moves back, 0 going to n − 1, in range |
| AiInsights.Carousel.SelectDot | src/components/vault/AIInsightsModule.tsx:316-319 | autoplay off and the index becomes the clicked dot's |
| HeroSection.TotalTvl | src/components/vault/EnhancedHeroSection.tsx:29 | with no negative TVL the total is not negative |
| HeroSection.TotalApr | src/components/vault/EnhancedHeroSection.tsx:33 | the APR sum; its bounds are `TotalAprBounds` |
| HeroSection.TotalAprBounds | src/components/vault/EnhancedHeroSection.tsx:33 | APRs that each lie in [lo, hi] sum to between n·lo and n·hi |
| HeroSection.TotalTvlAppend | src/components/vault/EnhancedHeroSection.tsx:29 | total TVL of a concatenation is the sum of the parts' TVLs |
| HeroSection.TotalTvlCoversEachPool | src/components/vault/EnhancedHeroSection.tsx:29 | with non-negative TVLs the total is at least the TVL of each pool |
| HeroSection.MeanApr | src/components/vault/EnhancedHeroSection.tsx:33 | on a non-empty list the mean times the pool count is the APR sum |
| HeroSection.MeanAprBounds | src/components/vault/EnhancedHeroSection.tsx:33 | the mean lies between any lower and upper bound of the pools' APRs |
| HeroSection.AprFigure | src/components/vault/EnhancedHeroSection.tsx:33-34 | an empty pool list shows `NaN%`, any other the mean |
| HeroSection.HeroKpis.constructor | src/components/vault/EnhancedHeroSection.tsx:15-19 | the initial figures are `$6.3M`, `18.7%` and `2,000+` |
| HeroSection.HeroKpis.OnVaults | src/components/vault/EnhancedHeroSection.tsx:25-44 | while loading or without a list nothing changes; otherwise TVL is the total in millions, APR the mean figure, and active LPs `2,000+` |
| VaultDetailHeader.GetVaultInfo | src/components/vault/VaultDetailHeader.tsx:14-40 | conservative / low risk exactly when the name contains `SUI-USDC`; balanced / moderate risk exactly when it contains `Cetus` but not `SUI-USDC`; aggressive / high risk otherwise |
| VaultDetailHeader.GetVaultInfoIsTotal | src/components/vault/VaultDetailHeader.tsx:14-40 | every name gets one of the three classifications |
| VaultDetailHeader.SuiUsdcTakesPrecedence | src/components/vault/VaultDetailHeader.tsx:15-23 | a name containing both markers, in either order, is conservative |
| VaultDetailHeader.LowerCaseNameIsAggressive | src/components/vault/VaultDetailHeader.tsx:15-23 | the match is case-sensitive: a lower-cased name never contains `SUI-USDC` or `Cetus`, so it is always aggressive / high risk |
| ConnectWallet.FormatAddress | src/components/wallet/ConnectWalletButton.tsx:34-36 | for any address the result is its first min(6, len) characters, `...`, and its last min(4, len) characters |
| ConnectWallet.LongAddressShape | src/components/wallet/ConnectWalletButton.tsx:35 | an address of 10 or more characters gives first 6 + `...` + last 4, 13 characters in all |
| ConnectWallet.FormatAddressFrames | src/components/wallet/ConnectWalletButton.tsx:35 | the result always starts with a prefix of the address and ends with a suffix of it |
| ConnectWallet.ShortAddressRepeats | src/components/wallet/ConnectWalletButton.tsx:35 | an address of at most 4 characters is shown whole on both sides of the ellipsis |
| ConnectWallet.AddressLabel | src/components/wallet/ConnectWalletButton.tsx:62 | a missing address is shown as exactly `...`, a present one formatted |
| ConnectWallet.EmptyAddress | src/components/wallet/ConnectWalletButton.tsx:35 | the empty address formats to the bare ellipsis |
| Text.Contains | src/pages/EnhancedVaultCatalog.tsx:88-89 | the empty string is in every string, and a string contains nothing longer than itself |
| Text.ContainsIffOccurs | src/pages/EnhancedVaultCatalog.tsx:88-89 | `includes` holds exactly when the substring occurs at some position |
| Text.ToLower | src/pages/EnhancedVaultCatalog.tsx:86 | lower-casing keeps the length, maps each character and leaves no ASCII capital |
| Text.TrimStart | src/pages/EnhancedVaultCatalog.tsx:85 | removes exactly the leading whitespace |
| Text.TrimEnd | src/pages/EnhancedVaultCatalog.tsx:85 | removes exactly the trailing whitespace |
| Text.Trim | src/pages/EnhancedVaultCatalog.tsx:85 | `trim` cuts a window of the string with only whitespace around it, starting and ending with a visible character; it is empty exactly when the string is blank |
| Text.Substring | src/components/wallet/ConnectWalletButton.tsx:35 | with both indices clamped into [0, len], the result has length the distance between them and its k-th character is the one k places after the smaller index |
| Text.SubstringSymmetric | src/components/wallet/ConnectWalletButton.tsx:35 | the two indices may be given in either order: `substring(i, j)` equals `substring(j, i)` |
| Text.SubstringPrefix | src/components/wallet/ConnectWalletButton.tsx:35 | `substring(0, n)` is the first min(n, len) characters |
| Text.SubstringSuffix | src/components/wallet/ConnectWalletButton.tsx:35 | `substring(len − n)` is the last min(n, len) characters |
| Text.LexLe | src/pages/EnhancedVaultCatalog.tsx:105 | a prefix comes no later than the string it begins |
| Text.LexLeTotal | src/pages/EnhancedVaultCatalog.tsx:105 | any two ids compare one way or the other |
| Text.LexLeTransitive | src/pages/EnhancedVaultCatalog.tsx:105 | the id order is transitive |
| Text.IntToDecimal | src/components/vault/UnifiedActivityFeed.tsx:132-137 | `${n}` is never empty, starts with a minus sign exactly for a negative number and a digit otherwise, and is digits after that |
| Text.IntToDecimalRoundTrip | src/components/vault/UnifiedActivityFeed.tsx:132-137 | the decimal rendering of an integer reads back as that integer |

## Left out

- Rendering is not modelled: JSX, class names chosen for display, icons,
  framer-motion animation and scroll transforms are presentation.
- The scheduling of the insight interval, the hero query, and the one-second
  brain animation timer is not modelled. `Carousel.Tick` is one firing of the
  interval.
- Fetching through `useQuery`/`vaultService`, retries and refetch are network
  I/O. Their results (`transactions`, `investments`, `vaults`, `isLoading`) are
  parameters.
- The wall clock (`Date.now()`, `new Date()`) is the parameter `now` or `today`.
- Dashboard.SeriesPoint: the `1 + sin(i/5)·0.01 + (i/29)·0.08` growth factor is the
  abstract parameter `growth`, because `Math.sin` is floating point.
- Date handling: the series compares ISO date strings (`split('T')[0]`) after
  local-time `setDate` arithmetic. The model compares UTC day numbers of
  millisecond timestamps instead. Local-time versus UTC offsets are not modelled.
- HeroSection.HeroKpis.OnVaults: the figures are stored as numbers, not as the strings
  `$x.xM` and `x.x%`, because `toFixed` rounding is floating-point formatting.
  For the same reason the page's currency and number formatting is left out.
- An activity's `Date` objects are their millisecond values. The `amount` of an
  AI event is absent.
- Randomness is left out because it is nondeterministic decoration: the network
  nodes of the hero background, and the random "data points", "model confidence"
  and "last update" figures of the insight panel.
- Each insight card's decorative SVG chart string is omitted from `Insight`.
- Sorting a copy (`[...filtered].sort`) leaves the input list untouched. The model
  works on immutable sequences, so this holds by construction and needs no lemma.
- Float arithmetic is left out: amounts, APRs and TVL are exact reals, with no
  rounding, NaN or infinity. The mean APR of an empty pool list, a NaN the source
  shows, is the explicit figure `PercentNaN`; the other NaN sources are not modelled.
- Records.Transaction: `timestamp` is a millisecond count, not the ISO string that
  `new Date(tx.timestamp)` parses (src/components/vault/UnifiedActivityFeed.tsx:40). A
  malformed string gives an Invalid Date whose NaN time the comparator places
  arbitrarily and `getTimeAgo` shows as `NaNd`; that case is not modelled.
- `localeCompare` is taken as lexicographic code-point order, not locale collation.
- `toLowerCase` is ASCII only.
- The clipboard copy, toasts, wallet connection, signature dialog, and the
  drawers and key listeners of the vault detail page are foreign calls and UI
  event plumbing.
- Operations of the page components beyond those in this model are presentation
  or loading dispatch with no data transformation. They are not part of this model.
