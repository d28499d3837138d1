/**
 * `job` of src/main.py: one cycle of fetching new tweets and, for each,
 * extracting keywords, searching the fund catalog, fetching the holdings of
 * the first five funds, ranking their shared holdings and sending one
 * notification. The language model, the holdings source and the parser
 * come in as parameters; the notifications sent are returned in order.
 */
module Job {
  import opened Wrappers
  import opened Feed
  import opened MarketData
  import opened Ranking
  import opened Analyzer
  import Monitor

  /** How many search candidates get their holdings fetched. */
  const MaxFunds: nat := 5

  /** `{'etfs': etf_results, 'common_stocks': final_common_stocks}` */
  datatype Report = Report(etfs: seq<FundResult>, commonStocks: seq<CommonStock>)

  /** One call of `send_notification(tweet, report)`. */
  datatype Notification = Notification(tweet: Tweet, report: Report)

  /** `etf_candidates[:5]` */
  function TopFunds(cs: seq<Candidate>): (top: seq<Candidate>)
    ensures |top| == (if |cs| <= MaxFunds then |cs| else MaxFunds) && top == cs[..|top|]
  {
    if |cs| <= MaxFunds then cs else cs[..MaxFunds]
  }

  /** Each fund with its `holdings` field set to what `get_holdings` returned for its code. */
  function Annotated(funds: seq<Candidate>, source: string -> HoldingsReply): (rs: seq<FundResult>)
    ensures |rs| == |funds|
    ensures forall i :: 0 <= i < |funds| ==> rs[i] == FundResult(funds[i], Holdings(source(funds[i].code)))
    decreases |funds|
  {
    if funds == [] then []
    else
      var last := funds[|funds| - 1];
      Annotated(funds[..|funds| - 1], source) + [FundResult(last, Holdings(source(last.code)))]
  }

  /** The report for one tweet's keywords. */
  function ReportFor(cat: Catalog, keywords: seq<string>, source: string -> HoldingsReply): Report {
    if keywords == [] then Report([], [])
    else
      var etfs := Annotated(TopFunds(Search(cat, keywords)), source);
      Report(etfs, Rank(etfs))
  }

  function NotificationFor(t: Tweet, cat: Catalog, llm: string -> LlmReply, parse: string -> Parsed,
                           source: string -> HoldingsReply): Notification
  {
    Notification(t, ReportFor(cat, AnalyzeReply(llm(t.text), parse), source))
  }

  /** The notifications of one cycle, one per new tweet, in order. */
  function Notifications(tweets: seq<Tweet>, cat: Catalog, llm: string -> LlmReply, parse: string -> Parsed,
                         source: string -> HoldingsReply): (ns: seq<Notification>)
    ensures |ns| == |tweets|
    ensures forall i :: 0 <= i < |tweets| ==> ns[i] == NotificationFor(tweets[i], cat, llm, parse, source)
    decreases |tweets|
  {
    if tweets == [] then []
    else
      Notifications(tweets[..|tweets| - 1], cat, llm, parse, source)
        + [NotificationFor(tweets[|tweets| - 1], cat, llm, parse, source)]
  }

  /**
   * A tweet without keywords is still reported, with both lists empty.
   * Otherwise the report holds the first (at most) five search results in
   * search order, each unchanged but for its holdings, and the ranking of
   * exactly those funds' holdings.
   */
  lemma ReportShape(cat: Catalog, keywords: seq<string>, source: string -> HoldingsReply)
    ensures var r := ReportFor(cat, keywords, source);
      && (keywords == [] ==> r == Report([], []))
      && |r.etfs| <= MaxFunds
      && (keywords != [] ==>
            && |r.etfs| == (if |Search(cat, keywords)| <= MaxFunds then |Search(cat, keywords)| else MaxFunds)
            && (forall i :: 0 <= i < |r.etfs| ==>
                  r.etfs[i].fund == Search(cat, keywords)[i]
                  && r.etfs[i].holdings == Holdings(source(r.etfs[i].fund.code)))
            && r.commonStocks == Rank(r.etfs))
  {
  }

  /**
   * The common stocks of every report number at most ten, and when no fund
   * lists a security twice, none occurs more often than there are funds,
   * which is at most five.
   */
  lemma ReportBounds(cat: Catalog, keywords: seq<string>, source: string -> HoldingsReply)
    ensures var r := ReportFor(cat, keywords, source);
      && |r.commonStocks| <= MaxCommon
      && ((forall f :: f in r.etfs ==> DistinctHoldingCodes(f.holdings)) ==>
            forall s :: s in r.commonStocks ==> s.occurrence <= |r.etfs| <= MaxFunds)
  {
    var r := ReportFor(cat, keywords, source);
    if keywords != [] {
      RankCorrect(r.etfs);
      if forall f :: f in r.etfs ==> DistinctHoldingCodes(f.holdings) {
        forall s | s in r.commonStocks ensures s.occurrence <= |r.etfs| {
          var i :| 0 <= i < |r.commonStocks| && r.commonStocks[i] == s;
          CountAtMostFunds(r.etfs, s.code);
        }
      }
    }
  }

  /**
   * `job(...)`: fetch, then one notification per new tweet; with no new
   * tweets nothing is sent. `shuffled` and `fetched` are as for
   * `fetch_tweets`, `llm` gives the model's reply for a tweet text and
   * `source` what the holdings call returns for a fund code.
   */
  method RunJob(monitor: Monitor.TwitterMonitor, market: MarketDataSource,
                shuffled: seq<string>, fetched: seq<Mirror>,
                llm: string -> LlmReply, parse: string -> Parsed, source: string -> HoldingsReply)
    returns (sent: seq<Notification>, written: Option<seq<string>>)
    requires multiset(shuffled) == multiset(monitor.instances)
    requires |fetched| == |shuffled|
    modifies monitor
    ensures var o := Fetch(monitor.isFirstRun, old(monitor.processedTweets), shuffled, fetched);
      && monitor.processedTweets == o.scan.seen
      && written == Written(monitor.isFirstRun, o)
      && sent == Notifications(o.scan.out, market.etfFrame, llm, parse, source)
  {
    var newTweets;
    newTweets, written := monitor.FetchTweets(shuffled, fetched);
    sent := [];
    if newTweets == [] {
      return;
    }
    sent := NotifyAll(market, newTweets, llm, parse, source);
  }

  /** The per-tweet loop of `job`. */
  method NotifyAll(market: MarketDataSource, newTweets: seq<Tweet>,
                   llm: string -> LlmReply, parse: string -> Parsed, source: string -> HoldingsReply)
    returns (sent: seq<Notification>)
    ensures sent == Notifications(newTweets, market.etfFrame, llm, parse, source)
  {
    sent := [];
    for i := 0 to |newTweets|
      invariant sent == Notifications(newTweets[..i], market.etfFrame, llm, parse, source)
    {
      assert newTweets[..i + 1][..i] == newTweets[..i];
      var tweet := newTweets[i];
      var keywords := AnalyzeReply(llm(tweet.text), parse);
      var report := BuildReport(market, keywords, source);
      sent := sent + [Notification(tweet, report)];
    }
    assert newTweets[..|newTweets|] == newTweets;
  }

  /** Steps 2 and 3 of the per-tweet loop: search, holdings of the first five funds, ranking. */
  method BuildReport(market: MarketDataSource, keywords: seq<string>, source: string -> HoldingsReply)
    returns (report: Report)
    ensures report == ReportFor(market.etfFrame, keywords, source)
  {
    var etfResults: seq<FundResult> := [];
    var finalCommonStocks: seq<CommonStock> := [];
    if keywords != [] {
      var etfCandidates := market.SearchEtfs(keywords);
      var topEtfs := TopFunds(etfCandidates);
      etfResults := FetchHoldings(market, topEtfs, source);
      finalCommonStocks := RankStocks(etfResults);
    }
    report := Report(etfResults, finalCommonStocks);
  }

  /** Step 3: each of the funds considered, with its `holdings` set from `get_holdings`. */
  method FetchHoldings(market: MarketDataSource, topEtfs: seq<Candidate>, source: string -> HoldingsReply)
    returns (etfResults: seq<FundResult>)
    ensures etfResults == Annotated(topEtfs, source)
  {
    etfResults := [];
    for j := 0 to |topEtfs|
      invariant etfResults == Annotated(topEtfs[..j], source)
    {
      assert topEtfs[..j + 1][..j] == topEtfs[..j];
      var holdings := market.GetHoldings(source(topEtfs[j].code));
      etfResults := etfResults + [FundResult(topEtfs[j], holdings)];
    }
    assert topEtfs[..|topEtfs|] == topEtfs;
  }
}
