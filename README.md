# Supabase edge functions: feed ranking, recommendations and small validators

This project is a Dafny model of the logic inside a set of Supabase edge functions for a
social learning app. Each module follows one function's request handler. The handler is
taken after authentication and body parsing, and database query results are inputs.

- `RankFeed` (`rank-feed`): builds the home feed.
  - Trending posts and lessons are filtered. Rows by blocked authors are dropped, and so
    are mature rows when the mature filter is on, which is the default.
  - They are merged with recent content from followed authors, keyed on `type:id`. The
    first arrival wins. A follow row that is added gets +10.
  - The candidates are sorted by score, highest first, with a stable sort.
  - One pass fills at most `min(limit, 50)` slots, skipping any candidate that would be a
    fourth consecutive item by the same author. A missing author counts as the single
    value `null`.
- `RecommendContent` (`recommend-content`): build recommendations in three tiers.
  - Followed creators (+20), interest categories (+10) and trending (+0), each with a fixed
    reason.
  - The follow and interest tiers are guarded by a seen-set seeded from past interactions.
  - The trending tier is guarded by the keys already recommended.
  - Then a stable sort by score and a `slice(0, take)`.
- `StudyBuddy` (`study-buddy`): the prompt subject, and the merge of an already-parsed
  model reply into the default study card. Each field is validated for shape and length.
- `GeneratePost` (`generate-post`):
  - The topic check.
  - Extraction of at most three post variants from the reply text: split into lines, trim,
    drop empty, overlong and bullet-only lines, keep the first three.
  - The fallback variant.
- `ModerateContent` (`moderate-content`):
  - The `text` check.
  - The whole-word, case-insensitive `spam|harm` rule, using a scanning search that is
    proved equal to a reference definition.
  - The override of the rule by the model's block verdict.
  - The status `approved`/`quarantined`.
- `RevenueCat` (`revenuecat-webhook`): the `app_user_id` check and the mapping from event
  type to subscription status.
- `NotifyDigest` (`notify-digest`):
  - The configuration check.
  - The recipients: truthy profile ids, capped at 1000.
  - The digest parts: post bodies, then lesson titles.
  - The headline.

Shared modules:
- `Common`: `Option` with `??`, JavaScript truthiness of an optional string, and the page
  size `Math.min(limit, 50)`.
- `Text`: ASCII white space, `trim`, `split`, `join` and `startsWith`.
- `Seqs`: order-preserving subsequences, distinct keys, and `slice(0, end)` with
  JavaScript's negative `end`.
- `StableSort`: the ES2019 stable `sort` with a descending score comparator.

The handlers whose source works by mutation are methods: loops over the input rows
(`RankFeedHandler`, `RecommendHandler`, `GatherTrending`, `MergeFollow`, `AddTier`,
`SelectDiverse`, `BuildParts`), and the `Apply*` field overwrites, which are straight-line
conditional updates of the study card. Each is proved equal to a
specification function (`Feed`, `Recommend`, `AfterTrending`, …). The properties are
lemmas about those functions.

Where the code does not do the obvious thing, the model does what the code does:
- In `rank-feed`, first arrival wins. A candidate already present from trending keeps its
  unboosted score; boosts are not maxed across provenance.
- In `rank-feed`, a missing author is the shared value `null` (starting from
  `lastAuthorId = null`), not a distinct author per item. So at most two missing-author
  items can open the feed.
- In `study-buddy`, `correct_index` is checked against the length of the reply's options
  before filtering, not the number of options kept (`IndexCanPassFilteredOptions`).

## Model

| member | source | states |
|---|---|---|
| Common.Take | supabase/functions/rank-feed/index.ts:22-32 | The page size is the smaller of `limit` (default 20) and 50: at most each of them and equal to one of them. |
| Seqs.SliceTo | supabase/functions/recommend-content/index.ts:175 | `slice(0, end)` is a prefix; its length is `min(end, n)` for `end >= 0` and `max(n + end, 0)` for negative `end`. |
| Text.Trim | supabase/functions/generate-post/index.ts:100 | `trim()` gives an infix with no white space at either end and only white space outside it. |
| Text.Split | supabase/functions/generate-post/index.ts:99 | `split(sep)` gives at least one piece and no piece contains the separator. |
| Text.JoinSplit | supabase/functions/generate-post/index.ts:99 | Joining the pieces of a split with the separator gives back the original string. |
| Text.ToLower | supabase/functions/moderate-content/index.ts:60 | Case folding of the `i` flag: each upper-case ASCII letter becomes its own lower-case letter (same offset from 'a' as from 'A'), everything else is unchanged. |
| StableSort.Sort | supabase/functions/rank-feed/index.ts:124 | The sort by descending score gives a non-increasing sequence with the same elements (multiset). |
| StableSort.SortIsStable | supabase/functions/rank-feed/index.ts:124 | Stability: for every score, the elements with that score keep their input order. |
| StableSort.SortKeepsDistinct | supabase/functions/recommend-content/index.ts:171 | Sorting keeps keys distinct when they were distinct. |
| RankFeed.KeyInjective | supabase/functions/rank-feed/index.ts:134 | Two `type:id` keys are equal exactly when both the kind and the id are equal. |
| RankFeed.FromRow | supabase/functions/rank-feed/index.ts:69-75 | A candidate takes the row's id, author and mature flag, with the kind given and score `engagement_score ?? 0` plus the boost. |
| RankFeed.FollowingIds | supabase/functions/rank-feed/index.ts:96-99 | The followed set minus every blocked id: disjoint from the blocked ids, and exactly the followed ids that are not blocked. |
| RankFeed.GatherTrending | supabase/functions/rank-feed/index.ts:63-91 | The trending loop computes `AfterTrending`: passing rows are pushed unboosted and their metadata set. |
| RankFeed.MergeFollow | supabase/functions/rank-feed/index.ts:107-120 | The follow loop computes `AfterFollow`: a new, admissible row is pushed with +10 and its metadata set. |
| RankFeed.AfterTrending | supabase/functions/rank-feed/index.ts:63-91 | Defines the trending loops as a fold over the rows; specified by `TrendingSound`, `TrendingComplete` and `TrendingMetaLastWins`. |
| RankFeed.AfterFollow | supabase/functions/rank-feed/index.ts:107-120 | Defines the follow loops as a fold over the rows; specified by `FollowKeepsEarlier`, `FollowAppendsBoosted`, `FollowAppendsFresh` and `FollowCovers`. |
| RankFeed.TrendingSound | supabase/functions/rank-feed/index.ts:64-76 | The trending loop keeps earlier candidates. Each appended one is an unboosted copy of a row, with metadata, by an unblocked author, and not mature while the filter is on. |
| RankFeed.TrendingComplete | supabase/functions/rank-feed/index.ts:64-76 | Every trending row that passes both filters becomes a candidate. |
| RankFeed.TrendingMetaLastWins | supabase/functions/rank-feed/index.ts:68 | `postMeta.set` overwrites: an id's metadata is that of the last passing row with that id. |
| RankFeed.FollowKeepsEarlier | supabase/functions/rank-feed/index.ts:109-111 | First arrival wins: earlier candidates, including trending ones with their unboosted score, and their metadata are left unchanged. |
| RankFeed.FollowAppendsBoosted | supabase/functions/rank-feed/index.ts:107-120 | Every appended follow candidate is a row with score `engagement_score + 10`, not mature while the filter is on, and with metadata. |
| RankFeed.FollowAppendsFresh | supabase/functions/rank-feed/index.ts:109 | No appended follow candidate repeats a `(type, id)` already among the candidates. |
| RankFeed.FollowCovers | supabase/functions/rank-feed/index.ts:107-120 | Every follow row that passes the mature filter has its `(type, id)` among the candidates afterwards. |
| RankFeed.SelectStep | supabase/functions/rank-feed/index.ts:132-154 | Defines one iteration of the selection loop, including the counter increment on a skipped same-author candidate; specified through `Selected`. |
| RankFeed.Selected | supabase/functions/rank-feed/index.ts:126-155 | Defines the selection loop as a fold over the sorted candidates; specified by `SelectionSound`, `SelectedDecides`, `SelectedSaturated` and `SingleAuthorKeepsThree`. |
| RankFeed.Skipped | supabase/functions/rank-feed/index.ts:133-141 | The three reasons the loop passes over a candidate: the page is full, its key is seen, or its author's run reaches the limit. |
| RankFeed.SelectionSound | supabase/functions/rank-feed/index.ts:126-155 | The diversity pass keeps at most `take` candidates, as a subsequence of its input, with distinct keys, no four consecutive equal authors and at most two leading missing authors. |
| RankFeed.SelectedGrows | supabase/functions/rank-feed/index.ts:132-155 | The loop only appends: the items kept after a prefix of the candidates are a prefix of the final items. |
| RankFeed.SelectedDecides | supabase/functions/rank-feed/index.ts:132-155 | Candidate `k` is passed over exactly when `Skipped` holds of the state the earlier candidates left; otherwise it is appended and is the final item at position `|st.picked|`. |
| RankFeed.NotKeptWasSkipped | supabase/functions/rank-feed/index.ts:132-141 | A candidate missing from the selection was passed over for one of the three reasons. |
| RankFeed.SelectedSaturated | supabase/functions/rank-feed/index.ts:133 | Once `take` items are kept, later candidates change nothing (the `break`). |
| RankFeed.SingleAuthorKeepsThree | supabase/functions/rank-feed/index.ts:137-144 | With one author throughout, the pass keeps exactly the first three candidates, because the run counter keeps growing past the limit. |
| RankFeed.AssembleItem | supabase/functions/rank-feed/index.ts:146-154 | An item has the candidate's id, type and author. Posts carry body and `created_at` from `postMeta` and no title; lessons carry title and `created_at` from `lessonMeta` and no body. `why_shown` is set exactly in curated mode. |
| RankFeed.SelectDiverse | supabase/functions/rank-feed/index.ts:126-155 | The selection loop produces the assembled items of exactly the candidates `Selected` keeps. |
| RankFeed.GatherAdmissible | supabase/functions/rank-feed/index.ts:63-122 | Every gathered candidate is by an unblocked author, is not mature while the filter is on, and has metadata of its own kind. |
| RankFeed.Gather | supabase/functions/rank-feed/index.ts:63-122 | Defines the candidate pool and metadata after the trending and follow loops; specified by `GatherAdmissible`. |
| RankFeed.Ranked | supabase/functions/rank-feed/index.ts:124 | Defines the sorted candidates; specified by `RankedSound`. |
| RankFeed.Feed | supabase/functions/rank-feed/index.ts:32-158 | Defines the response items; specified by `FeedFromPicked` and `FeedSound`. |
| RankFeed.RankedSound | supabase/functions/rank-feed/index.ts:124 | The ranked candidates are sorted by score and all admissible. |
| RankFeed.FeedFromPicked | supabase/functions/rank-feed/index.ts:146-158 | Item `k` of the feed comes from kept candidate `k`: same id, type, author and key. The item authors are the candidate authors, and the field shapes hold. |
| RankFeed.FeedSound | supabase/functions/rank-feed/index.ts:32-158 | The feed has at most `min(limit, 50)` items. They come from a sorted, admissible candidate list in order, with no blocked author, no mature item while the filter is on, no key twice, no four consecutive items by one author and at most two leading missing authors. |
| RankFeed.RankFeedHandler | supabase/functions/rank-feed/index.ts:32-158 | The handler's blocked-set loop, gathering loops, sort, selection and slice compute `Feed`. |
| RecommendContent.TypeOf | supabase/functions/recommend-content/index.ts:85 | The type is "post" exactly when the id starts with "post", and "lesson" otherwise. |
| RecommendContent.IdKeyInjective | supabase/functions/recommend-content/index.ts:85-86 | Two ids have the same key exactly when they are equal. |
| RecommendContent.TierRows | supabase/functions/recommend-content/index.ts:63-84 | A tier's rows are its posts unless `content_type` is "lesson", then its lessons unless it is "post": only the lessons for "lesson", only the posts for "post", and otherwise all posts followed by all lessons. |
| RecommendContent.Entry | supabase/functions/recommend-content/index.ts:87-92 | An entry has the row's id, the type of its id, score `engagement_score ?? 0` plus the tier's boost, and the tier's reason. |
| RecommendContent.AddTier | supabase/functions/recommend-content/index.ts:84-95 | One tier loop computes `AfterTier`: unseen keys are pushed and marked seen. |
| RecommendContent.AfterTier | supabase/functions/recommend-content/index.ts:84-95 | Defines one tier loop as a fold over its rows; specified by `TierKeepsEarlier`, `TierAppends`, `TierSeen`, `TierDistinct` and `TierCovers`. |
| RecommendContent.TierKeepsEarlier | supabase/functions/recommend-content/index.ts:84-95 | A tier keeps the entries it is given and never removes a key from the seen-set. |
| RecommendContent.TierAppends | supabase/functions/recommend-content/index.ts:86-94 | Each entry a tier appends is a row's entry, under a key that was unseen when the tier began. |
| RecommendContent.TierSeen | supabase/functions/recommend-content/index.ts:93 | The seen-set stays the initial keys plus the keys pushed. |
| RecommendContent.TierDistinct | supabase/functions/recommend-content/index.ts:86-94 | A tier whose seen-set covers its entries never pushes a key twice. |
| RecommendContent.TierCovers | supabase/functions/recommend-content/index.ts:84-95 | After a tier, every one of its rows' keys is seen. |
| RecommendContent.PersonalInv | supabase/functions/recommend-content/index.ts:57-142 | After the follow and interest tiers, keys are unique and the seen-set is the interaction keys plus the keys pushed. |
| RecommendContent.Personal | supabase/functions/recommend-content/index.ts:57-142 | Defines the entries of the follow and interest tiers; specified by `PersonalInv`, `FollowEntries`, `InterestEntries`, `FollowCovered` and `InterestCovered`. |
| RecommendContent.Recommendations | supabase/functions/recommend-content/index.ts:33-168 | Defines all entries before sorting; specified by `RecommendationsDistinct`, `TrendingEntries` and `TrendingCovered`. |
| RecommendContent.RecommendationsDistinct | supabase/functions/recommend-content/index.ts:84-168 | No `type:id` key is recommended twice. |
| RecommendContent.FollowEntries | supabase/functions/recommend-content/index.ts:84-95 | Follow-tier entries come from follow rows, with score + 20 and reason "From creators you follow", and never hold an interacted item. |
| RecommendContent.InterestEntries | supabase/functions/recommend-content/index.ts:129-140 | Interest-tier entries keep the follow entries in front. They come from interest rows, with score + 10 and their reason, never hold an interacted item, and never hold a follow row's key when that tier ran. |
| RecommendContent.TrendingEntries | supabase/functions/recommend-content/index.ts:155-168 | Trending entries follow the personalised ones. They come from trending rows at their own score and take keys no personalised entry has; interactions are not consulted. |
| RecommendContent.TrendingCovered | supabase/functions/recommend-content/index.ts:156-168 | Every trending row's key ends up among the recommendations. |
| RecommendContent.FollowCovered | supabase/functions/recommend-content/index.ts:84-95 | Every follow row the user has not interacted with is recommended by the follow tier. |
| RecommendContent.InterestCovered | supabase/functions/recommend-content/index.ts:129-140 | Every interest row the user has not interacted with, whose key the follow tier did not recommend, is recommended with reason "Matches your interests". |
| RecommendContent.AnonymousOnlyTrending | supabase/functions/recommend-content/index.ts:35-168 | Without a user, every recommendation is a trending row with reason "Trending now". |
| RecommendContent.SortedSound | supabase/functions/recommend-content/index.ts:171 | The sorted entries are non-increasing by score, a permutation of the entries, with unique keys and types read off ids. |
| RecommendContent.Output | supabase/functions/recommend-content/index.ts:175-179 | An output item has exactly the entry's id, its type, and `why_shown` equal to its reason's text. |
| RecommendContent.Outputs | supabase/functions/recommend-content/index.ts:175-179 | `map` keeps length and order, one output per entry. |
| RecommendContent.OutputSound | supabase/functions/recommend-content/index.ts:32-179 | The output is the first `min(limit, 50)` sorted entries; a negative page size counts back from the end. It has no id twice, types read off ids, and `why_shown` the entry's reason. |
| RecommendContent.TypesFollowIds | supabase/functions/recommend-content/index.ts:89 | Every entry's type is the type of its id. |
| RecommendContent.RecommendHandler | supabase/functions/recommend-content/index.ts:32-179 | The handler's three tier loops, seen-sets, sort and slice compute `Recommend`. |
| StudyBuddy.Subject | supabase/functions/study-buddy/index.ts:22 | `topic` when present, else "content <id>" for a truthy `content_id`, else "this topic". |
| StudyBuddy.DefaultCard | supabase/functions/study-buddy/index.ts:24-30 | Defines the default card; `MergedFits` shows the field bounds it shares with every merged result. |
| StudyBuddy.Member | supabase/functions/study-buddy/index.ts:115-130 | A member read gives a value exactly for an object that has that field. |
| StudyBuddy.ShortStrings | supabase/functions/study-buddy/index.ts:117 | The filter keeps the string entries within the limit in their order (a subsequence of the entries), each exactly as often as it occurs, and nothing else. |
| StudyBuddy.ShortStringsMembers | supabase/functions/study-buddy/index.ts:117 | A string is kept exactly when it is an entry within the limit. |
| StudyBuddy.NoStringKept | supabase/functions/study-buddy/index.ts:126 | With no string entry, the filter keeps nothing. |
| StudyBuddy.NewTips | supabase/functions/study-buddy/index.ts:116-118 | Tips are replaced exactly when the reply's `tips` is an array of at least 2, by its first two entries filtered; the result has at most 2 tips of at most 100 chars. |
| StudyBuddy.NewText | supabase/functions/study-buddy/index.ts:119-124 | A text field is replaced exactly by a string within its limit; otherwise it is unchanged. |
| StudyBuddy.NewOptions | supabase/functions/study-buddy/index.ts:125-127 | Options are replaced exactly when the reply's `options` is an array of at least 3, by its first three entries filtered; the result has at most 3 options of at most 100 chars. |
| StudyBuddy.NewIndex | supabase/functions/study-buddy/index.ts:128-132 | The index is replaced by a number in `[0, n)`, where `n` is the reply's options length or else the current count, and changes only to such a number. |
| StudyBuddy.OptionsLength | supabase/functions/study-buddy/index.ts:130 | Defines `parsed.options?.length ?? n`; `IndexCanPassFilteredOptions` and `IndexWithoutOptions` show its two uses. |
| StudyBuddy.Merged | supabase/functions/study-buddy/index.ts:115-133 | Defines the field-by-field merge; specified by `MergedFits` and the field rules `NewTips`, `NewText`, `NewOptions` and `NewIndex`. |
| StudyBuddy.ApplyTips | supabase/functions/study-buddy/index.ts:116-118 | Overwrites only `tips`, with its validated value. |
| StudyBuddy.ApplyAction | supabase/functions/study-buddy/index.ts:119-121 | Overwrites only `action`, with its validated value. |
| StudyBuddy.ApplyQuestion | supabase/functions/study-buddy/index.ts:122-124 | Overwrites only `question`, with its validated value. |
| StudyBuddy.ApplyOptions | supabase/functions/study-buddy/index.ts:125-127 | Overwrites only `options`, with its validated value. |
| StudyBuddy.ApplyIndex | supabase/functions/study-buddy/index.ts:128-132 | Overwrites only `correct_index`, checked against the options already updated. |
| StudyBuddy.ApplyParsed | supabase/functions/study-buddy/index.ts:115-133 | The field-by-field overwrites of an object reply compute `Merged`; any other reply leaves the card as it is. |
| StudyBuddy.StudyBuddyHandler | supabase/functions/study-buddy/index.ts:21-133 | Without a key or a reply the result is exactly the default card; otherwise it is the default merged with the reply. |
| StudyBuddy.MergedFits | supabase/functions/study-buddy/index.ts:25-133 | From the default card, any reply gives at most 2 tips and 3 options of at most 100 chars, an action of at most 150 chars, a question of at most 200 chars, and a non-negative index. |
| StudyBuddy.IndexCanPassFilteredOptions | supabase/functions/study-buddy/index.ts:125-132 | With 3 or more non-string options no option survives, yet an index below their count is accepted: the index can point past the options kept. |
| StudyBuddy.IndexWithoutOptions | supabase/functions/study-buddy/index.ts:130 | Without `options` in the reply, the index is checked against the current options. |
| GeneratePost.Lines | supabase/functions/generate-post/index.ts:98-100 | One trimmed line per piece of the split on newlines. |
| GeneratePost.IsValidVariant | supabase/functions/generate-post/index.ts:101-106 | Defines the line filter: non-empty, at most 280 chars, not made only of digits, `-*+.` and white space; `BulletsDropped` shows the last clause. |
| GeneratePost.KeepValid | supabase/functions/generate-post/index.ts:101-106 | The filter keeps the valid lines in their order (a subsequence of the lines), each exactly as often as it occurs, and nothing else. |
| GeneratePost.KeepValidMembers | supabase/functions/generate-post/index.ts:101-106 | A line is kept exactly when it is among the lines and valid. |
| GeneratePost.ExtractVariants | supabase/functions/generate-post/index.ts:98-107 | Defines the extraction pipeline; specified by `ExtractSound` and `ExtractComplete`. |
| GeneratePost.ExtractSound | supabase/functions/generate-post/index.ts:98-107 | At most 3 variants. Each is a trimmed line of the text, non-empty, at most 280 chars and not made only of digits, `-*+.` and white space. Together they are a subsequence of the trimmed lines. |
| GeneratePost.ExtractComplete | supabase/functions/generate-post/index.ts:107 | The variants are all the valid lines when there are at most three of them, and otherwise the first three. |
| GeneratePost.BulletsDropped | supabase/functions/generate-post/index.ts:105 | A line of digits, bullets, dots and spaces is rejected whatever its length. |
| GeneratePost.Generated | supabase/functions/generate-post/index.ts:34-131 | Defines the variants answered; specified by `GeneratedSound`. |
| GeneratePost.Fallback | supabase/functions/generate-post/index.ts:130 | Defines the fallback variant; specified by `FallbackShape`. |
| GeneratePost.GeneratedSound | supabase/functions/generate-post/index.ts:129-131 | The returned variants are never empty and number at most 3. They are the single fallback when the text is missing or gives nothing, and otherwise the extracted variants. |
| GeneratePost.FallbackShape | supabase/functions/generate-post/index.ts:130 | The fallback is `Post about "`, the topic, `" (`, the given tone or "neutral", `, `, the given length or "short", and `).`, with its length the sum of these parts. |
| GeneratePost.GeneratePostHandler | supabase/functions/generate-post/index.ts:26-131 | A falsy topic gives exactly the 400 "topic required"; otherwise the answer is `Generated`. |
| ModerateContent.MatchFromExists | supabase/functions/moderate-content/index.ts:60 | The regular-expression search from an offset succeeds exactly when a whole-word match starts at or after it. |
| ModerateContent.MatchFrom | supabase/functions/moderate-content/index.ts:60 | Defines the search of the regular expression from an offset; specified by `MatchFromExists`. |
| ModerateContent.RuleFlags | supabase/functions/moderate-content/index.ts:60 | Defines `/\b(spam|harm)\b/i.test(text)`; specified by `RuleFlagsWords` and `RuleIgnoresCase`. |
| ModerateContent.RuleFlagsWords | supabase/functions/moderate-content/index.ts:60 | The rule flags a text exactly when "spam" or "harm" occurs in it as a whole word, in any case, with `[A-Za-z0-9_]` as word characters. |
| ModerateContent.Lower | supabase/functions/moderate-content/index.ts:60 | Lower-casing is character by character. |
| ModerateContent.LowerWordAt | supabase/functions/moderate-content/index.ts:60 | A whole-word match at an offset is unchanged by lower-casing the text. |
| ModerateContent.RuleIgnoresCase | supabase/functions/moderate-content/index.ts:60 | The verdict is the same for the text and its lower-cased form. |
| ModerateContent.PartOfWordNotFlagged | supabase/functions/moderate-content/index.ts:60 | A keyword followed by a word character is not a match. |
| ModerateContent.ShoutedSpamFlagged | supabase/functions/moderate-content/index.ts:60 | "SPAM!" is flagged. |
| ModerateContent.SpammyNotFlagged | supabase/functions/moderate-content/index.ts:60 | "spammy" is not flagged. |
| ModerateContent.Status | supabase/functions/moderate-content/index.ts:144 | The status is "approved" exactly when the verdict is safe, and "quarantined" otherwise. |
| ModerateContent.ModerateHandler | supabase/functions/moderate-content/index.ts:52-147 | A missing, empty or non-string text gives exactly the 400 "text required". Otherwise the status follows the verdict, and `content_type`/`content_id` are echoed unchanged. |
| ModerateContent.Verdict | supabase/functions/moderate-content/index.ts:60-128 | Defines `isSafe`: the model's verdict when it answered, otherwise the rule's; specified by `VerdictCases`. |
| ModerateContent.VerdictCases | supabase/functions/moderate-content/index.ts:60-144 | When the model answered, approval means no block reason; without a key or an answer, approval means neither word occurs. |
| RevenueCat.SubscriptionStatus | supabase/functions/revenuecat-webhook/index.ts:25-32 | "premium" exactly for INITIAL_PURCHASE, RENEWAL and PRODUCT_CHANGE; "cancelled" exactly for CANCELLATION and EXPIRATION; "trialing" exactly for TRIAL_STARTED; "free" for everything else and for a missing type. |
| RevenueCat.Webhook | supabase/functions/revenuecat-webhook/index.ts:18-32 | A missing or empty `app_user_id` gives exactly the 400 and no update; otherwise that user's profile gets `SubscriptionStatus` of the event type. |
| RevenueCat.CaseMatters | supabase/functions/revenuecat-webhook/index.ts:26-31 | Event names are matched exactly: "renewal" and "" map to "free", "RENEWAL" to "premium". |
| NotifyDigest.TruthyIds | supabase/functions/notify-digest/index.ts:29 | `filter(Boolean)` keeps the present, non-empty ids in their order (a subsequence of the profile ids), each exactly as often as it occurs, and nothing else. |
| NotifyDigest.TruthyIdsFromProfiles | supabase/functions/notify-digest/index.ts:29 | Each kept id is the value of some profile id. |
| NotifyDigest.Recipients | supabase/functions/notify-digest/index.ts:56 | At most 1000 recipients: a prefix of the truthy ids, of length `min(count, 1000)`. |
| NotifyDigest.RecipientsComplete | supabase/functions/notify-digest/index.ts:29-56 | Every recipient is a truthy profile id; with at most 1000 of them, every truthy id is a recipient. |
| NotifyDigest.Texts | supabase/functions/notify-digest/index.ts:43-44 | One text per row, a missing one becoming "". |
| NotifyDigest.BuildParts | supabase/functions/notify-digest/index.ts:42-44 | The two push loops give the post bodies followed by the lesson titles. |
| NotifyDigest.Parts | supabase/functions/notify-digest/index.ts:42-44 | Defines the digest parts; specified by `PartsShape`. |
| NotifyDigest.PartsShape | supabase/functions/notify-digest/index.ts:39-44 | With the row limits (2 posts, 1 lesson) there are at most 3 parts, posts first, and all of them are quoted. |
| NotifyDigest.Headline | supabase/functions/notify-digest/index.ts:45 | No parts give "Your daily digest is ready.". Otherwise the headline is "3 stories for you: ", then the first `min(80, n)` chars of the first three parts joined by " · ", then "...". It is always at most 102 chars. |
| NotifyDigest.ShortDigestQuotedWhole | supabase/functions/notify-digest/index.ts:45 | A joined digest shorter than 80 chars is quoted whole. |
| NotifyDigest.NotifyDigestHandler | supabase/functions/notify-digest/index.ts:16-56 | Missing configuration gives exactly the not-configured answer, and no truthy id gives `sent: 0`. Otherwise the notification carries `Headline(parts)` and the capped recipients. |

## Left out

- The HTTP shell is not modelled. This covers `Deno.serve`, CORS and `OPTIONS`, the
  Authorization-header checks, `req.json()`, response headers and the 500 catch-alls. It is
  request plumbing.
- Database queries are inputs (`FeedSources`, `RecSources` and the handler parameters).
  Their server-side filters, orderings and row limits are not re-checked.
  - Where a property depends on a query's guarantee, it is stated as a precondition. Follow
    rows are by followed, unblocked authors (`FollowRowsFromFollowed`). The digest queries
    return at most 2 posts and 1 lesson (`PartsShape`).
- The Gemini and OneSignal `fetch` calls, context caching, `setTimeout` backoff and the
  retry loops are not modelled. They are network, timing and foreign behaviour.
  - An attempt that succeeds is an input: the reply text for generate-post, the parsed
    reply for study-buddy, the block verdict for moderate-content.
  - The "no attempt produced a result" outcome is `None`.
  - The `sent`/`id` fields that notify-digest copies from OneSignal's answer are not
    modelled.
- `JSON.parse` and the removal of markdown fences in study-buddy are not modelled; they are
  library parsing. The model works on an already-parsed JSON value.
- StudyBuddy.OptionsLength: an object `options` whose `length` member is not a number
  counts as absent. JavaScript comparisons would coerce strings and booleans, and those
  coercions are not modelled.
- Scores are integers. `Number(engagement_score ?? 0)` on floating-point or non-numeric
  values, NaN and `b.score - a.score` rounding are not modelled.
- `limit` is an optional integer with default 20. A `null` or non-numeric `limit` and
  `Math.min` on NaN are not modelled.
- A `user_id`, `topic`, `text`, `app_user_id` or profile id that is present but not a
  string is treated as absent (`None`), although JavaScript would treat a truthy
  non-string as present. The same holds for study-buddy's `content_id`, where a truthy
  number such as 5 would give the subject "content 5" rather than "this topic", for
  generate-post's `tone` and `target_length`,
  which a number would fill in by its printed form, and for moderate-content's
  `content_type` and `content_id`, which are echoed whatever their JSON type.
- Unicode details are not modelled. This covers `trim()`, `\s` and the `i` flag on
  characters beyond ASCII, and UTF-16 `length`. Strings are character sequences with ASCII
  white space and ASCII word characters.
- `sort` is modelled as a value function (a stable insertion sort on a copy), not as an
  in-place update of the array.
- The placeholder stubs with no logic are not part of this model: `admin-content`,
  `admin-users`, `bulk-operations`, `content-search`, `notify-push` and `webhook-generic`.
