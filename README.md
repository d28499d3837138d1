# mask-message, modelled in Dafny

mask-message watches one public timeline (`/elonmusk`) through a list of
Nitter mirrors. For every post it has not seen before, it:

1. asks a language model for Chinese fund-search keywords;
2. looks those keywords up in a catalog of exchange-traded funds;
3. fetches the top holdings of the first five funds found;
4. ranks the securities those funds share;
5. sends the result as a notification.

The ids already reported are kept in a seen-state file.

This project models the deterministic core of that pipeline: the feed
ingestion loop of `TwitterMonitor.fetch_tweets`, the seen-state save/load
transform, the fund search and holdings filter, the overlap ranking of
`job`, and the clean-up of the language model's reply. It then proves
properties of that model.

Browser pages, the fund data source, the language model and the JSON
parser come in as data or as function parameters. What `fetch_tweets`
writes to the seen-state file comes back as a result.

Modules, one per concern:

- `Wrappers` holds `Option`.
- `PyStr` holds the Python `str` operations the code uses: `strip`,
  `rstrip(c)`, `startswith`, `endswith`, `in`, and `split(c)[0]` /
  `split(c)[-1]`.
- `StrOrder` holds Python's string order and `sorted(set(...))`.
- `SeenStore` models `save_processed_tweets` / `load_processed_tweets`.
- `Feed` holds the pure parts of src/monitor.py. It also gives
  `fetch_tweets` as a specification function (`Fetch`), written exactly as
  the code behaves, defects included.
- `Monitor` holds the `TwitterMonitor` class. Its imperative `FetchTweets`
  has loops and `break`/`continue`, and is proved equal to `Fetch`.
- `FeedProps` holds lemmas about `Fetch`.
- `FeedIntended` holds the corrected ingestion loop used by the findings.
- `Findings` holds the counterexamples, plus the same inputs given to
  the corrected loop.
- `MarketData` holds the `search_etfs` and `get_holdings` specifications,
  the properties proved about them, and the `MarketDataSource` class whose
  loop methods meet those specifications.
- `Ranking` holds the `stock_stats` fold, the stable descending sort and
  the top-ten selection: as functions, as lemmas, and as the imperative
  `RankStocks`.
- `Analyzer` holds the fence-stripping and list-or-empty logic of
  `analyze_tweet`.
- `Job` holds the per-tweet loop of `job` (`RunJob`).

Where the code behaves differently from what its names and comments
suggest, the model follows the code:

- **`occurrence` counts holding entries, not distinct funds.**
  `Ranking.CountAtMostFunds` bounds it by the number of funds only when no
  fund lists a code twice.
- **Entries with no usable id are not skipped.** The id extraction accepts
  an empty id. An item whose link element has no `href` raises, which ends
  that mirror's pass.
- **Seen ids are evicted in lexicographic order of their string.** This is
  not the order in which they were seen (`SeenStore.DroppedBelowKept`).
- **Ties in the ranking keep first-seen order.** Python's sort is stable
  and dicts keep insertion order (`Ranking.RankStable`).

## Model

| member | source | states |
|---|---|---|
| PyStr.TrimStart | src/analyzer.py:45 | the result is a suffix of the input, everything dropped is whitespace, and it does not start with whitespace |
| PyStr.StartsWith | src/analyzer.py:47-50 | `s.startswith(p)`: `p` is no longer than `s` and is its prefix |
| PyStr.EndsWith | src/analyzer.py:51 | `s.endswith(p)`: `p` is no longer than `s` and is its suffix |
| PyStr.IsSpace | src/analyzer.py:45 | the characters `str.isspace()` accepts, which `strip()` removes |
| PyStr.Contains | src/market_data.py:68 | `sub in s`; its meaning as an occurrence at some position is used by `MarketData.MatchesMembers` and `SearchExample` |
| PyStr.TrimEnd | src/analyzer.py:45 | the result is a prefix of the input, everything dropped is whitespace, and it does not end with whitespace |
| PyStr.Strip | src/analyzer.py:45 | `strip()` leaves no whitespace at either end and never lengthens the string (what it keeps is stated by `StripSlice`) |
| PyStr.StripSlice | src/analyzer.py:45 | `strip()` keeps one contiguous part of the string and drops only whitespace before and after it |
| PyStr.StripTrimmed | src/analyzer.py:54 | `strip()` changes a string exactly when it has whitespace at one of its ends |
| PyStr.StripIdempotent | src/analyzer.py:54 | stripping twice is stripping once |
| PyStr.TrimEndChar | src/monitor.py:13 | `rstrip(c)` keeps a prefix, drops only `c`s, and leaves no trailing `c` |
| PyStr.TrimEndCharIdempotent | src/monitor.py:13 | `rstrip(c)` applied twice is applied once |
| PyStr.AfterLastSpec | src/monitor.py:57 | `split('/')[-1]` is the `/`-free suffix after the last `/`, or the whole string |
| PyStr.AfterLast | src/monitor.py:57 | `split(c)[-1]`, characterised by `AfterLastSpec` |
| PyStr.BeforeFirstSpec | src/monitor.py:57 | `split('#')[0]` is the `#`-free prefix up to the first `#`, or the whole string |
| PyStr.BeforeFirst | src/monitor.py:57 | `split(c)[0]`, characterised by `BeforeFirstSpec` |
| StrOrder.Less | src/utils.py:29 | Python's `<` on `str`: code point by code point, a proper prefix first |
| StrOrder.LessIrreflexive | src/utils.py:29 | no string sorts before itself |
| StrOrder.LessTransitive | src/utils.py:29 | Python's string order is transitive |
| StrOrder.LessTotal | src/utils.py:29 | any two distinct strings are ordered one way or the other |
| StrOrder.LessAsymmetric | src/utils.py:29 | the order never holds both ways |
| StrOrder.SortedDistinct | src/utils.py:29 | `sorted(set(xs))` is strictly increasing and holds exactly the strings of `xs` |
| StrOrder.StrictlySortedUnique | src/utils.py:29 | two strictly increasing listings with the same strings are equal |
| StrOrder.SortedDistinctOfSorted | src/utils.py:29 | sorting an already strictly increasing list gives it back |
| SeenStore.SavedIds | src/utils.py:29-32 | the written list is strictly increasing, has at most 1000 ids, each from the input, and with at most 1000 distinct ids it holds all of them |
| SeenStore.Keep | src/utils.py:31-32 | a list of up to 1000 is kept whole; a longer one keeps exactly its last 1000 |
| SeenStore.DroppedBelowKept | src/utils.py:29-32 | every id lost to the cap is smaller than every id kept |
| SeenStore.SavedIdsIdempotent | src/utils.py:29-32 | saving a saved list writes the same list |
| SeenStore.SavedIdsOfSameElems | src/utils.py:29 | the written list depends only on the set of ids, so the order `list(set)` produced is irrelevant |
| SeenStore.Write | src/utils.py:27-35 | the file holds the transformed list |
| SeenStore.Load | src/utils.py:18-25 | a missing or malformed file loads as `[]`; otherwise the stored list |
| SeenStore.LoadWriteRoundTrip | src/utils.py:18-35 | loading after saving gives the saved list, which is sorted, capped, complete below the cap, and a fixed point of another save |
| SeenStore.SavedForSet | src/utils.py:29 | the list written for a set agrees with the transform of every listing of that set |
| Feed.NormalizeBase | src/monitor.py:13 | a mirror base is its configured URL with all trailing `/` removed, and ends without `/` |
| Feed.NormalizeBaseIdempotent | src/monitor.py:13 | normalising a base again changes nothing |
| Feed.ProfileUrl | src/monitor.py:18-19 | the profile URL is exactly the base followed by `/elonmusk`, with nothing in between |
| Feed.ProfileUrlOfNormalized | src/monitor.py:13-19 | after normalisation the base and `/elonmusk` meet with exactly one `/` |
| Feed.ExtractId | src/monitor.py:57 | an extracted id contains neither `/` nor `#` |
| Feed.ExtractIdCharacterized | src/monitor.py:56-57 | the extracted id is exactly the text after the last `/` of the href, cut at the first `#` after it (so it may be empty) |
| Feed.ExtractIdBounds | src/monitor.py:56-57 | the id is the slice of the href after its last `/` and before the next `#`, at positions that satisfy the characterisation |
| Feed.StatusHrefId | src/monitor.py:56-57 | a status link `/elonmusk/status/<n>#m` yields `<n>` as its id |
| Feed.FinalText | src/monitor.py:73-147 | a reply whose parent text was found non-empty reads `Context (Parent Tweet): <parent>\n\nReplying: <text>`; any other item, including a failed parent lookup, keeps its own text |
| Feed.HasParent | src/monitor.py:78-147 | a reply whose parent lookup found non-empty text; `FinalText` adds the context exactly then |
| Feed.Published | src/monitor.py:70-71 | the date's `title`, or `Unknown time` when there is none |
| Feed.Start | src/monitor.py:22 | a fetch starts from the current seen set with no output, and none of `final_text`, `full_link`, `published` is bound |
| Feed.Window | src/monitor.py:53 | only the first (at most) ten items are examined |
| Feed.EntryStep | src/monitor.py:54-155 | one item as written; `FeedProps.NewTweetStep` (a new tweet outside the first run), `SeenItemReplays`, `SeenBeforeNewRaises` and `EntryStepGrows` state what it does |
| Feed.ScanEntries | src/monitor.py:53-155 | the item loop, ending at the first exception; `FeedProps.ScanEntriesGrows`, `CompletedScanCovers` and `SeenItemsReplayLastNew` state what it does |
| Feed.MirrorStep | src/monitor.py:30-166 | one mirror: a failed navigation or an empty timeline continues the walk; `FeedProps.WinnerCovered` states what a completing mirror guarantees |
| Feed.TryMirrors | src/monitor.py:30-166 | the completed mirror, if any, is one of the mirrors tried |
| Feed.TryMirrorsUnfold | src/monitor.py:30-166 | a mirror whose pass did not complete hands the state it left, not the state before it, to the rest of the walk |
| Feed.TryMirrorsNext | src/monitor.py:30-166 | the same, with the winner's position counted from any starting offset |
| Feed.Fetch | src/monitor.py:21-170 | `fetch_tweets` as written; `FeedProps.FetchGrows` and `FirstRunReturnsNothing` state what it does |
| Feed.Saves | src/monitor.py:157 | a save happens after a completed pass when tweets were emitted or it is the first run |
| Feed.Written | src/monitor.py:157-158 | a save happens exactly when some mirror's pass completed and tweets were emitted or it is the first run |
| Monitor.TwitterMonitor.constructor | src/monitor.py:9-16 | instances are the configured bases normalised, the seen set is the loaded ids, and the first-run flag holds iff nothing was loaded |
| Monitor.TwitterMonitor.FetchTweets | src/monitor.py:21-170 | the returned tweets, the new `processed_tweets` and the list saved are those of `Fetch` over the shuffled mirrors |
| Monitor.TwitterMonitor.ScanWindow | src/monitor.py:53-155 | the item loop ends in the state of `ScanEntries`, stopping at the first exception |
| Monitor.TwitterMonitor.ProcessItem | src/monitor.py:54-155 | one item transforms the state as `EntryStep` does, including the unbound-local exception |
| Monitor.ListOf | src/monitor.py:158 | `list(s)` lists exactly the elements of the set |
| FeedProps.EntryStepGrows | src/monitor.py:54-155 | one item only adds seen ids and appends records, and every record's id is seen |
| FeedProps.ScanEntriesGrows | src/monitor.py:53-155 | the same for a whole pass over a mirror's items |
| FeedProps.TryMirrorsGrows | src/monitor.py:30-166 | the same across the mirror walk; a failed mirror's changes are not rolled back, since the final state grows from the state that mirror left |
| FeedProps.FetchGrows | src/monitor.py:21-170 | `processed_tweets` only grows, and holds the id of every returned record |
| FeedProps.FirstRunScanSilent | src/monitor.py:59-64 | during the first run a pass emits nothing and binds none of the three locals |
| FeedProps.FirstRunMirrorsSilent | src/monitor.py:59-64 | the same across the whole mirror walk |
| FeedProps.FirstRunReturnsNothing | src/monitor.py:59-155 | while the first-run flag holds, `fetch_tweets` returns `[]` whatever the mirrors render |
| FeedProps.CompletedScanCovers | src/monitor.py:53-155 | after a completed pass, every linked item's id is in the seen set |
| FeedProps.ScanEntriesGrows' | src/monitor.py:53-155 | the seen set never shrinks during a pass, completed or not |
| FeedProps.WinnerCovered | src/monitor.py:46-161 | the mirror that stops the walk rendered at least one item and all linked items of its window are seen afterwards |
| FeedProps.LaterMirrorsIgnored | src/monitor.py:161 | mirrors after the completed one are never consulted |
| FeedProps.ItemsBeyondWindowIgnored | src/monitor.py:53 | items past the tenth have no effect |
| FeedProps.UnlinkedItemsSkipped | src/monitor.py:54-55 | items without `a.tweet-link` can be removed without changing anything |
| FeedProps.SeenBeforeNewRaises | src/monitor.py:149-155 | a seen item met before any new tweet bound the locals raises and changes nothing |
| FeedProps.SeenItemsReplayLastNew | src/monitor.py:149-155 | once the locals are bound, each later seen item is appended with its own id and the bound text, link and date (`NewThenSeenReplay` ties these to the new tweet that bound them) |
| FeedProps.NewTweetStep | src/monitor.py:59-76 | outside the first run a new tweet binds the locals to its own text, link and date, appends its own record and is marked seen |
| FeedProps.NewThenSeenReplay | src/monitor.py:59-155 | a new tweet followed by seen items gives its own record, then each seen item under its own id with that new tweet's text, link and date |
| FeedProps.ReplaysSpec | src/monitor.py:149-155 | the replayed records are one per seen item, each with that item's own id and the bound text, link and date |
| FeedProps.SeenItemReplays | src/monitor.py:149-155 | one seen item after the locals are bound appends a record with its id and the bound values, and changes nothing else |
| FeedIntended.TweetOf | src/monitor.py:67-76 | a new tweet's record carries its own id, link, text and date |
| FeedIntended.ScanFixed | src/monitor.py:53-155 | the corrected item loop; `ScanFixedFresh`, `ScanFixedOwnItem` and `ScanFixedComplete` state what it does |
| FeedIntended.MirrorFixed | src/monitor.py:30-166 | one corrected mirror, failing over as the code does |
| FeedIntended.WalkFixed | src/monitor.py:30-166 | the corrected mirror walk; `WalkFixedFresh` and `WalkFixedOwnItem` state what it does |
| FeedIntended.CycleFixed | src/monitor.py:21-170 | the corrected cycle can only end the first run, never start one |
| FeedIntended.ScanFixedFresh | src/monitor.py:59-155 | a corrected pass appends only records of distinct ids that were unseen before and are seen after |
| FeedIntended.ScanFixedOwnItem | src/monitor.py:149-155 | every record of a corrected pass is built from its own item |
| FeedIntended.ScanFixedComplete | src/monitor.py:53-155 | a completed corrected pass outside the first run reports every new linked item of the window |
| FeedIntended.ScanFixedFirstRunSilent | src/monitor.py:59-64 | a corrected first-run pass emits nothing |
| FeedIntended.WalkFixedFresh | src/monitor.py:30-166 | the freshness of `ScanFixedFresh` holds across the mirror walk, and the first run emits nothing |
| FeedIntended.FreshTransitive | src/monitor.py:30-166 | freshness of two successive stretches of the walk composes into freshness of both together |
| FeedIntended.CycleFixedFresh | src/monitor.py:21-170 | a corrected cycle never re-reports a seen id, reports each id once, is silent in the first run, and what it saves is its final seen set, after which the first run is over |
| FeedIntended.WalkFixedOwnItem | src/monitor.py:149-155 | every record of a corrected walk comes from a linked item in some mirror's window |
| FeedIntended.CycleFixedOwnItem | src/monitor.py:149-155 | every record of a corrected cycle comes from a linked item some mirror rendered |
| Findings.SeenTweetReemitted | src/monitor.py:59-155 | as written, a timeline holding a new tweet and then a seen one returns both, the seen id carrying the new tweet's text, link and date |
| Findings.SeenTweetReemittedFixed | src/monitor.py:59-155 | corrected, the same timeline reports the new tweet alone and saves both ids |
| Findings.FirstRunNeverEnds | src/monitor.py:59-158 | as written, once the first-run flag is set a later cycle reports nothing, the mirror fails on the seen item, and nothing is saved |
| Findings.FirstRunNeverEndsFixed | src/monitor.py:59-158 | corrected, the first cycle records the timeline and ends the first run, and the next cycle reports the new tweet |
| MarketData.CandidateOf | src/market_data.py:70-74 | a result carries the row's code and name and the keyword that matched it |
| MarketData.NameMatches | src/market_data.py:68 | a row matches when it has a name that contains the keyword |
| MarketData.Matches | src/market_data.py:67-74 | one keyword's candidates in catalog order, characterised by `MatchesMembers` |
| MarketData.AllMatches | src/market_data.py:66-74 | `results` after the match loop, keyword-major, characterised by `AllMatchesMembers` |
| MarketData.KeepFirst | src/market_data.py:76-84 | the dedupe keeps exactly the codes it was given, each once, and only given results |
| MarketData.Search | src/market_data.py:46-84 | an absent or empty catalog, or one lacking `代码` or `名称`, gives `[]` |
| MarketData.KeepFirstFirstWins | src/market_data.py:76-84 | each kept result is the earliest one with its code, and they keep that order |
| MarketData.MatchesMembers | src/market_data.py:68-74 | one keyword yields exactly the rows whose name contains it |
| MarketData.AllMatchesMembers | src/market_data.py:66-74 | the match loop yields exactly the (row, keyword) pairs whose name contains the keyword |
| MarketData.SearchSound | src/market_data.py:66-74 | every result's name contains its keyword, which was searched, and comes from a catalog row |
| MarketData.SearchComplete | src/market_data.py:66-84 | result codes are distinct, and every code matched by a keyword is among them |
| MarketData.SearchFirstWins | src/market_data.py:66-83 | each result is the first match for its code in keyword-major, catalog-minor order |
| MarketData.SearchExample | src/market_data.py:46-84 | one keyword against a fund that matches and one that does not finds only the first, tagged with the keyword |
| MarketData.Holdings | src/market_data.py:109-127 | at most ten holdings; no frame, or an exception, gives `[]` |
| MarketData.CodeText | src/market_data.py:118 | `str(h.get('股票代码', ''))`: a missing code reads as `''` |
| MarketData.Excluded | src/market_data.py:120 | a code starting with `688`, `8` or `4` is excluded |
| MarketData.Survivors | src/market_data.py:116-122 | `filtered_holdings`, characterised by `SurvivorsMembers` and `SurvivorsAppend` |
| MarketData.SurvivorsMembers | src/market_data.py:116-122 | a record survives iff its code does not start with `688`, `8` or `4`; a missing code reads as `''` and survives |
| MarketData.SurvivorsAppend | src/market_data.py:116-122 | filtering keeps source order |
| MarketData.HoldingsFiltered | src/market_data.py:116-124 | the result is the first (at most) ten survivors, none of them from an excluded segment |
| MarketData.HoldingsExample | src/market_data.py:116-124 | of `688001`, `800001`, `000001` and `600000`, the last two survive |
| MarketData.MarketDataSource.constructor | src/market_data.py:11-13 | the source holds the catalog its cache load produced |
| MarketData.MarketDataSource.SearchEtfs | src/market_data.py:46-84 | the match loop and dedupe loop return `Search` of the catalog |
| MarketData.MatchAll | src/market_data.py:65-74 | the keyword loop returns exactly the matches of every keyword, keyword by keyword |
| MarketData.MatchKeyword | src/market_data.py:67-74 | the row loop for one keyword returns exactly that keyword's matches in catalog order |
| MarketData.DedupeByCode | src/market_data.py:76-82 | the dedupe loop returns exactly the first result for each code, in order |
| MarketData.MarketDataSource.GetHoldings | src/market_data.py:109-127 | the filter loop and slice return `Holdings` of the reply |
| Ranking.FoldWellFormed | src/main.py:54-58 | the tally's key order lists each key of `stock_stats` exactly once |
| Ranking.WeightOf | src/main.py:49-52 | the parsed weight, or `0.0` when it is missing or `float` raises; `UnparsedWeightAddsNothing` uses it |
| Ranking.Flatten | src/main.py:39-46 | all holdings of the funds, fund by fund, as the nested loop visits them |
| Ranking.Add | src/main.py:54-58 | one holding's update of `stock_stats`, stated by `CountHolding` and `CountsStep` |
| Ranking.Fold | src/main.py:45-58 | `stock_stats` after the loops; `FoldHas`, `FoldKeys` and `FoldStat` state what it holds |
| Ranking.FoldHas | src/main.py:54-58 | a code is a key iff some holding has it |
| Ranking.FoldKeys | src/main.py:54-55 | the keys come in the order of their first sighting |
| Ranking.FoldStat | src/main.py:45-58 | each key's entry holds the first sighting's name, the number of holdings with that code and the sum of their weights |
| Ranking.CountsStep | src/main.py:55-58 | one more holding adds one to its code's count and its weight to that code's sum, and leaves other codes alone |
| Ranking.UnparsedWeightAddsNothing | src/main.py:49-52 | a holding whose weight is missing or does not parse is still counted but adds 0.0 to the weight |
| Ranking.CountAtMostFunds | src/main.py:39-58 | when no fund lists a code twice, no count exceeds the number of funds |
| Ranking.SortDesc | src/main.py:61-65 | the sort is a permutation of the items |
| Ranking.SortDescCorrect | src/main.py:61-65 | the sort is a permutation, non-increasing in (count, weight), and stable: entries with equal keys keep their order |
| Ranking.Items | src/main.py:62 | `stock_stats.items()` lists each key in insertion order with its entry |
| Ranking.Common | src/main.py:68-74 | each common stock carries its item's code, name, count and weight |
| Ranking.Take | src/main.py:68 | the top-ten slice is the first (at most) ten |
| Ranking.RankedItemsFacts | src/main.py:45-65 | every sorted item is an occurring code with its reference statistics, and no code appears twice |
| Ranking.RankedItems | src/main.py:61-65 | `ranked_stocks`, as `RankedItemsFacts` states it |
| Ranking.Rank | src/main.py:61-74 | `final_common_stocks`, as `RankCorrect` and `RankStable` state it |
| Ranking.RankCorrect | src/main.py:45-74 | at most ten common stocks with distinct codes, non-increasing in (occurrence, total weight), each with the count, weight sum and first name of its code |
| Ranking.RankPrefix | src/main.py:68-74 | the common stocks are exactly the first min(10, n) of the n sorted items, converted one for one |
| Ranking.RankStable | src/main.py:54-65 | ties keep first-seen order |
| Ranking.RankExample | src/main.py:39-74 | two funds sharing one security with weights 5 and 3 rank it first with count 2 and weight 8 |
| Ranking.RankStocks | src/main.py:36-74 | the fold, sort and top-ten loops return `Rank` of the funds |
| Ranking.TallyFunds | src/main.py:39-58 | the nested loop builds exactly the fold of all holdings in order |
| Ranking.CountHolding | src/main.py:45-58 | one inner pass inserts on first sight, then adds one to the count and the weight to the sum |
| Analyzer.Cleanup | src/analyzer.py:45-54 | the cleaned text has no whitespace at either end and is no longer than the reply |
| Analyzer.Unfence | src/analyzer.py:47-52 | removing the fences never lengthens the text (its effect on each reply shape is stated by `UnfenceFenceFree`, `CleanupFenced` and `CleanupBareFenced`) |
| Analyzer.UnfenceFenceFree | src/analyzer.py:47-52 | text without a fence at either end is left as it is |
| Analyzer.CleanupFenceFree | src/analyzer.py:45-54 | a reply without a fence at either end is only stripped |
| Analyzer.CleanupFenced | src/analyzer.py:45-54 | a body wrapped in a `json` code fence comes back stripped |
| Analyzer.CleanupBareFenced | src/analyzer.py:45-54 | a body wrapped in bare code fences comes back stripped, unless it starts with a backtick or with `json` |
| Analyzer.AnalyzeReply | src/analyzer.py:45-66 | a parsed list is returned unchanged, and keywords are returned only for a list |
| Analyzer.AnalyzeReplyFallback | src/analyzer.py:60-66 | a failed call or a non-list parse gives `[]` |
| Job.TopFunds | src/main.py:34 | only the first (at most) five candidates are used, in order |
| Job.Annotated | src/main.py:39-42 | each fund gets exactly its fetched holdings, and nothing else about it changes |
| Job.ReportFor | src/main.py:27-74 | the lists sent for one tweet's keywords, as `ReportShape` and `ReportBounds` state them |
| Job.NotificationFor | src/main.py:21-81 | the notification for one tweet: its keywords, then the report for them |
| Job.Notifications | src/main.py:21-81 | one notification per new tweet, in order |
| Job.ReportShape | src/main.py:31-74 | no keywords gives two empty lists; otherwise the first five results, each with its holdings, and the ranking of exactly those |
| Job.ReportBounds | src/main.py:39-74 | at most ten common stocks, and when no fund lists a code twice none occurs more often than there are funds (at most five) |
| Job.RunJob | src/main.py:13-81 | the monitor fetches as `fetch_tweets` does, and then exactly the notifications of the new tweets are sent; none when there are none |
| Job.NotifyAll | src/main.py:21-81 | the per-tweet loop sends `Notifications` of the new tweets |
| Job.BuildReport | src/main.py:31-74 | search, holdings of the first five and ranking give `ReportFor` |
| Job.FetchHoldings | src/main.py:39-42 | the holdings loop gives every one of the first five funds its own fetched holdings, in order |

## Left out

- Browser work is left out: Playwright launch, navigation, waits, selectors and the page script that finds a reply's parent (src/monitor.py:27-44, 86-132). That is I/O. Its results are the `Mirror` and `Entry` data, and a failed or empty lookup is `ContextFailed` or `NoParent`.
- `random.shuffle` is left out. `FetchTweets` takes the shuffled order as a parameter and requires it to be a permutation of the instances.
- Logging and closing pages or the browser are left out, because they do not affect the result.
- A missing `.tweet-content` and a present date element without a `title` are not modelled separately. The entry's text is then `""` and its date a string; a `None` title is not modelled.
- akshare, the CSV cache and the 24-hour freshness check (src/market_data.py:15-44) are network, filesystem and clock. The catalog comes in as `MarketDataSource`'s constructor argument (`NoCatalog` when no frame was loaded).
- The three holdings APIs of `get_holdings` (src/market_data.py:91-107) are left out. What they return for a code comes in as a `HoldingsReply`. An exception, and the branch where only the dated `fund_portfolio_hold` exists, are both `Failed`.
- MarketData.NameMatches: pandas `str.contains` matches a regular expression by default. Here it is a plain substring test, so keywords that contain regex metacharacters behave differently. An invalid pattern raises out of `search_etfs` and aborts the cycle; the model does not capture that. A missing name never matches.
- Catalog cells are strings (the cache is read with `dtype=str`). Non-string codes and `NaN` codes are not modelled.
- The OpenAI client, the prompt and `json.loads` (src/analyzer.py:8-43, 56) are foreign calls. The reply comes in as `LlmReply`, and the parser as the `parse` parameter.
- Analyzer.AnalyzeReply: list elements are modelled as strings, although the code returns whatever the list holds. A non-string element later makes `str.contains` in `search_etfs` raise `TypeError`, which ends the per-tweet loop.
- src/notifier.py is left out: message layout and an HTTP POST. A sent notification is modelled as a `Notification` value.
- `main()` is left out: argument parsing, the scheduler, the sleep loop, and the test-notify path (src/main.py:86-131). This is process plumbing.
- The exception handler around `job` (src/main.py:83-84) is left out. The exceptions left in the modelled part of `job` are the ones `str.contains` raises in `search_etfs` for a keyword that is not a valid regular expression, or not a string (see the `MarketData.NameMatches` and `Analyzer.AnalyzeReply` lines). Either would end the whole per-tweet loop.
- Job.RunJob: the language model and the holdings source are modelled as functions (`llm`, `source`). So the model assumes the same tweet text always gets the same reply, and the same fund code always gets the same holdings. The real completion is sampled at `temperature=0.3` (src/analyzer.py:42), and each holdings call is a new network request, so neither holds in general. In particular, the re-emitted duplicates of the first finding share a text, and the model gives them identical reports, which the real calls need not.
- Job.RunJob and Job.Notifications: one notification per new tweet holds only while every keyword is a string and a valid regular expression. A keyword such as `(` makes `search_etfs` raise (src/market_data.py:68 has no `try`), and the handler at src/main.py:83-84 then ends the loop, so that tweet and every later tweet of the cycle get no notification. The model does not capture this.
- Analyzer.Unfence: its own contract bounds only the length. Its effect is stated for three reply shapes: no fence (`UnfenceFenceFree`), a `json` fence (`CleanupFenced`) and a bare fence (`CleanupBareFenced`). Bodies that begin with a backtick are not covered.
- `float` arithmetic is left out. Weights are `real`, so `NaN`, infinities and rounding of sums are not modelled. `float` either yields a value or raises.
- `load_config`, `setup_logger` (src/utils.py:12-16, 37-45) and tests/test_basic.py are not part of this model.
- Reading and writing the seen-state file is modelled as the `StoredFile` value. Directory creation and write atomicity are not modelled.
- SeenStore.Load: only three file states are modelled: missing, valid UTF-8 that is not JSON (`Malformed`, loaded as `[]`), and a JSON list of strings. The code catches only `json.JSONDecodeError` (src/utils.py:21-25). So a file that is not valid UTF-8 raises `UnicodeDecodeError` out of `TwitterMonitor.__init__`, and src/main.py:98 does not catch it, so the process stops. Valid JSON that is not a list of strings is not modelled either. `null` or `0` makes `set()` raise in the constructor, a string such as `"abc"` gives a set of its characters, and `{}` starts a first run.
- Feed.MirrorStep: a completed pass always wins the walk. In the code `save_processed_tweets` runs inside the mirror's `try` (src/monitor.py:38, 157-158, 163-166). So a failing write turns a completed pass into a failed mirror. The walk then goes on to the next mirror and may append its items again. The write is I/O, and the model assumes it succeeds.
- Aliasing of the `etf` dicts is not modelled. The model builds new `FundResult` values rather than mutating the search results, which nothing reads again.

## Findings

| source | as written | input that shows it | evidently intended | confidence | as-written member | corrected member |
|---|---|---|---|---|---|---|
| src/monitor.py:59-76, 149-155 | The append to `new_tweets` sits outside the `if tweet_id not in self.processed_tweets` block. So every linked item reached after a new one is appended again, with its own id but the latest new tweet's text, link and date. An already-seen item reached before any new one raises an unbound-local error and fails the mirror. | Mirror `https://nitter.example` renders a new tweet `2` followed by the already-seen tweet `1`, outside the first run, with seen set `{1}`. | Only new tweets are appended, each with its own data. | not executed | Findings.SeenTweetReemitted | Findings.SeenTweetReemittedFixed |
| src/monitor.py:16, 59-64, 157-158 | `is_first_run` is set once, in the constructor, and never cleared. A long-running process that started with no saved ids therefore keeps treating every cycle as the first run: it never reports a tweet, and a seen item raises because the locals were never bound, so nothing is saved either. | A monitor built with no saved ids that already holds `1` in memory. A mirror renders new tweet `2` followed by seen tweet `1`. | A cycle whose pass completes ends the first run, and later cycles report new tweets. | not executed | Findings.FirstRunNeverEnds | Findings.FirstRunNeverEndsFixed |
