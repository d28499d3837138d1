/**
 * `MarketData` of src/market_data.py: keyword search over the cached fund
 * catalog (`search_etfs`) and the segment filter and top-10 slice of
 * `get_holdings`. The catalog and the raw holdings come in as data: loading
 * and refreshing the cache and calling the data source are not modelled.
 */
module MarketData {
  import opened Wrappers
  import opened PyStr

  /** The catalog's code and name columns. */
  const CodeColumn: string := "代码"
  const NameColumn: string := "名称"
  /** How many holdings `get_holdings` returns at most. */
  const MaxHoldings: nat := 10

  // ---------------------------------------------------------------------
  // Fund catalog search

  /** One catalog row, its code already rendered by `str`; `name` is `None` where the cell is missing. */
  datatype FundRow = FundRow(code: string, name: Option<string>)

  /** `etf_df`: no frame at all, or its column names and rows. */
  datatype Catalog = NoCatalog | Catalog(columns: set<string>, rows: seq<FundRow>)

  /** One search result: `{'code', 'name', 'match_keyword'}`. */
  datatype Candidate = Candidate(code: string, name: string, matchKeyword: string)

  /** `str.contains(keyword, na=False)` on one row, read as a plain substring test. */
  predicate NameMatches(row: FundRow, kw: string) {
    row.name.Some? && Contains(row.name.value, kw)
  }

  function CandidateOf(row: FundRow, kw: string): (c: Candidate)
    requires row.name.Some?
    ensures c.code == row.code && c.name == row.name.value && c.matchKeyword == kw
  {
    Candidate(row.code, row.name.value, kw)
  }

  /** The candidates one keyword contributes, in catalog order. */
  function Matches(rows: seq<FundRow>, kw: string): seq<Candidate>
    decreases |rows|
  {
    if rows == [] then []
    else
      var last := rows[|rows| - 1];
      Matches(rows[..|rows| - 1], kw) + (if NameMatches(last, kw) then [CandidateOf(last, kw)] else [])
  }

  /** `results` after the match loop: keyword-major, catalog-minor. */
  function AllMatches(rows: seq<FundRow>, kws: seq<string>): seq<Candidate>
    decreases |kws|
  {
    if kws == [] then [] else AllMatches(rows, kws[..|kws| - 1]) + Matches(rows, kws[|kws| - 1])
  }

  function CodesOf(cs: seq<Candidate>): set<string> {
    set c | c in cs :: c.code
  }

  lemma CodesOfAppend(cs: seq<Candidate>, x: Candidate)
    ensures CodesOf(cs + [x]) == CodesOf(cs) + {x.code}
  {
    forall code | code in CodesOf(cs + [x]) ensures code in CodesOf(cs) + {x.code} {
      var c :| c in cs + [x] && c.code == code;
      if c != x {
        assert c in cs;
      }
    }
    forall code | code in CodesOf(cs) ensures code in CodesOf(cs + [x]) {
      var c :| c in cs && c.code == code;
      assert c in cs + [x];
    }
    assert x in cs + [x];
  }

  predicate DistinctCodes(cs: seq<Candidate>) {
    forall i, j :: 0 <= i < j < |cs| ==> cs[i].code != cs[j].code
  }

  /** `unique_results` after the dedupe loop over `xs`. */
  function KeepFirst(xs: seq<Candidate>): (r: seq<Candidate>)
    ensures CodesOf(r) == CodesOf(xs) && DistinctCodes(r)
    ensures forall c :: c in r ==> c in xs
    decreases |xs|
  {
    if xs == [] then []
    else
      var r := KeepFirst(xs[..|xs| - 1]);
      var x := xs[|xs| - 1];
      assert xs == xs[..|xs| - 1] + [x];
      CodesOfAppend(xs[..|xs| - 1], x);
      CodesOfAppend(r, x);
      if x.code in CodesOf(r) then r else r + [x]
  }

  /** The frame is usable: present, with rows, and with both columns. */
  predicate Usable(cat: Catalog) {
    cat.Catalog? && cat.rows != [] && CodeColumn in cat.columns && NameColumn in cat.columns
  }

  /** `search_etfs(keywords)` */
  function Search(cat: Catalog, kws: seq<string>): (r: seq<Candidate>)
    ensures !Usable(cat) ==> r == []
  {
    if !Usable(cat) then [] else KeepFirst(AllMatches(cat.rows, kws))
  }

  /** The position of the first candidate with code `code`. */
  function FirstIndex(xs: seq<Candidate>, code: string): (k: nat)
    requires code in CodesOf(xs)
    ensures k < |xs| && xs[k].code == code
    ensures forall j :: 0 <= j < k ==> xs[j].code != code
    decreases |xs|
  {
    if xs[0].code == code then 0
    else
      assert code in CodesOf(xs[1..]) by {
        var c :| c in xs && c.code == code;
        assert c != xs[0];
      }
      1 + FirstIndex(xs[1..], code)
  }

  lemma FirstIndexAppend(xs: seq<Candidate>, x: Candidate, code: string)
    requires code in CodesOf(xs)
    ensures code in CodesOf(xs + [x]) && FirstIndex(xs + [x], code) == FirstIndex(xs, code)
  {
    var ys := xs + [x];
    var k := FirstIndex(xs, code);
    assert ys[k] == xs[k];
    assert ys[k] in ys;
    var k' := FirstIndex(ys, code);
  }

  lemma FirstIndexLast(xs: seq<Candidate>, x: Candidate)
    requires x.code !in CodesOf(xs)
    ensures x.code in CodesOf(xs + [x]) && FirstIndex(xs + [x], x.code) == |xs|
  {
    var ys := xs + [x];
    assert ys[|xs|] == x;
    assert x in ys;
  }

  /** Each of `r` is the earliest of `xs` with its code, and `r` follows the order of those positions. */
  ghost predicate FirstWins(xs: seq<Candidate>, r: seq<Candidate>) {
    && (forall i :: 0 <= i < |r| ==> r[i].code in CodesOf(xs) && r[i] == xs[FirstIndex(xs, r[i].code)])
    && (forall i, j :: 0 <= i < j < |r| ==> FirstIndex(xs, r[i].code) < FirstIndex(xs, r[j].code))
  }

  /** Keep-first dedupe keeps the earliest candidate of each code, in the order of those earliest positions. */
  lemma {:induction false} KeepFirstFirstWins(xs: seq<Candidate>)
    ensures FirstWins(xs, KeepFirst(xs))
    decreases |xs|
  {
    if xs != [] {
      var p := xs[..|xs| - 1];
      var x := xs[|xs| - 1];
      assert xs == p + [x];
      var r0 := KeepFirst(p);
      KeepFirstFirstWins(p);
      var r := KeepFirst(xs);
      forall c | c in CodesOf(p) ensures c in CodesOf(xs) && FirstIndex(xs, c) == FirstIndex(p, c) {
        FirstIndexAppend(p, x, c);
      }
      forall i | 0 <= i < |r0|
        ensures r0[i].code in CodesOf(xs) && r0[i] == xs[FirstIndex(xs, r0[i].code)]
        ensures FirstIndex(xs, r0[i].code) < |p|
      {
        var k := FirstIndex(p, r0[i].code);
        assert xs[k] == p[k];
      }
      assert FirstWins(xs, r0);
      if x.code in CodesOf(r0) {
        assert r == r0;
      } else {
        assert r == r0 + [x];
        FirstIndexLast(p, x);
        FirstWinsExtend(xs, r0, x);
      }
    }
  }

  lemma FirstWinsExtend(xs: seq<Candidate>, r: seq<Candidate>, x: Candidate)
    requires FirstWins(xs, r) && x.code in CodesOf(xs) && x == xs[FirstIndex(xs, x.code)]
    requires forall i :: 0 <= i < |r| ==> FirstIndex(xs, r[i].code) < FirstIndex(xs, x.code)
    ensures FirstWins(xs, r + [x])
  {
    var r' := r + [x];
    forall i | 0 <= i < |r'| ensures r'[i].code in CodesOf(xs) && r'[i] == xs[FirstIndex(xs, r'[i].code)] {
      if i < |r| {
        assert r'[i] == r[i];
      }
    }
    forall i, j | 0 <= i < j < |r'| ensures FirstIndex(xs, r'[i].code) < FirstIndex(xs, r'[j].code) {
      assert r'[i] == r[i];
      if j < |r| {
        assert r'[j] == r[j];
      }
    }
  }

  lemma MatchesMembers(rows: seq<FundRow>, kw: string, c: Candidate)
    ensures c in Matches(rows, kw) <==> exists row :: row in rows && NameMatches(row, kw) && c == CandidateOf(row, kw)
    decreases |rows|
  {
    if rows != [] {
      var p := rows[..|rows| - 1];
      var last := rows[|rows| - 1];
      assert rows == p + [last];
      MatchesMembers(p, kw, c);
      if c !in Matches(rows, kw) {
        forall row | row in rows && NameMatches(row, kw) ensures c != CandidateOf(row, kw) {
          if row != last {
            assert row in p;
          }
        }
      }
    }
  }

  /** The match loop finds exactly the (row, keyword) pairs whose name contains the keyword. */
  lemma {:induction false} AllMatchesMembers(rows: seq<FundRow>, kws: seq<string>, c: Candidate)
    ensures c in AllMatches(rows, kws) <==>
      exists row, kw :: row in rows && kw in kws && NameMatches(row, kw) && c == CandidateOf(row, kw)
    decreases |kws|
  {
    if kws != [] {
      var p := kws[..|kws| - 1];
      var kw := kws[|kws| - 1];
      assert kws == p + [kw];
      AllMatchesMembers(rows, p, c);
      MatchesMembers(rows, kw, c);
      if c !in AllMatches(rows, kws) {
        forall row, k | row in rows && k in kws && NameMatches(row, k) ensures c != CandidateOf(row, k) {
          if k != kw {
            assert k in p;
          }
        }
      }
    }
  }

  /** Every result's name contains its keyword, which is one of the keywords searched, and comes from a catalog row. */
  lemma SearchSound(cat: Catalog, kws: seq<string>)
    ensures forall c :: c in Search(cat, kws) ==>
      && cat.Catalog? && c.matchKeyword in kws && Contains(c.name, c.matchKeyword)
      && FundRow(c.code, Some(c.name)) in cat.rows
  {
    if Usable(cat) {
      forall c | c in Search(cat, kws)
        ensures c.matchKeyword in kws && Contains(c.name, c.matchKeyword) && FundRow(c.code, Some(c.name)) in cat.rows
      {
        AllMatchesMembers(cat.rows, kws, c);
      }
    }
  }

  /**
   * Result codes are pairwise distinct, and on a usable catalog every code
   * whose name matches some keyword is among them.
   */
  lemma SearchComplete(cat: Catalog, kws: seq<string>)
    ensures DistinctCodes(Search(cat, kws))
    ensures Usable(cat) ==>
      forall row, kw :: row in cat.rows && kw in kws && NameMatches(row, kw) ==> row.code in CodesOf(Search(cat, kws))
  {
    if Usable(cat) {
      var all := AllMatches(cat.rows, kws);
      forall row, kw | row in cat.rows && kw in kws && NameMatches(row, kw)
        ensures row.code in CodesOf(Search(cat, kws))
      {
        AllMatchesMembers(cat.rows, kws, CandidateOf(row, kw));
        assert CandidateOf(row, kw) in all;
      }
    }
  }

  /**
   * First match wins: on a usable catalog each result is the earliest match
   * for its code in keyword-major, catalog-minor order, and the results keep
   * that order.
   */
  lemma SearchFirstWins(cat: Catalog, kws: seq<string>)
    requires Usable(cat)
    ensures FirstWins(AllMatches(cat.rows, kws), Search(cat, kws))
  {
    assert Search(cat, kws) == KeepFirst(AllMatches(cat.rows, kws));
    KeepFirstFirstWins(AllMatches(cat.rows, kws));
  }

  lemma {:induction false} ContainsHead(s: string, sub: string)
    requires sub != [] && Contains(s, sub)
    ensures sub[0] in s
    decreases |s|
  {
    if !StartsWith(s, sub) {
      ContainsHead(s[1..], sub);
    } else {
      assert s[0] == sub[0];
    }
  }

  /** Searching one keyword against a catalog with one matching fund and one other. */
  lemma SearchExample()
    ensures var cat := Catalog({CodeColumn, NameColumn},
                               [FundRow("562510", Some("新能源车ETF")), FundRow("510300", Some("沪深300ETF"))]);
      Search(cat, ["新能源车"]) == [Candidate("562510", "新能源车ETF", "新能源车")]
  {
    var rows := [SampleMatching, SampleOther];
    SampleMatches();
    assert [SampleKeyword][..0] == [];
    var all := AllMatches(rows, [SampleKeyword]);
    assert AllMatches(rows, []) == [];
    assert all == AllMatches(rows, []) + Matches(rows, SampleKeyword);
    assert all == [CandidateOf(SampleMatching, SampleKeyword)];
    assert all[..0] == [] && KeepFirst(all[..0]) == [] && CodesOf([]) == {};
    assert KeepFirst(all) == all;
  }

  const SampleKeyword: string := "新能源车"
  const SampleMatching: FundRow := FundRow("562510", Some("新能源车ETF"))
  const SampleOther: FundRow := FundRow("510300", Some("沪深300ETF"))

  lemma SampleMatches()
    ensures Matches([SampleMatching, SampleOther], SampleKeyword) == [CandidateOf(SampleMatching, SampleKeyword)]
  {
    assert StartsWith("新能源车ETF", SampleKeyword);
    assert NameMatches(SampleMatching, SampleKeyword);
    SampleOtherNoMatch();
    assert [SampleMatching, SampleOther][..1] == [SampleMatching] && [SampleMatching][..0] == [];
    assert Matches([SampleMatching], SampleKeyword) == [CandidateOf(SampleMatching, SampleKeyword)];
  }

  lemma SampleOtherNoMatch()
    ensures !NameMatches(SampleOther, SampleKeyword)
  {
    if NameMatches(SampleOther, SampleKeyword) {
      ContainsHead("沪深300ETF", SampleKeyword);
      assert false;
    }
  }

  // ---------------------------------------------------------------------
  // Holdings

  /** The `占净值比例` cell: missing (the default `0` is used), parsed by `float`, or rejected by it. */
  datatype WeightCell = Missing | Parses(value: real) | Unparsable

  /** One holdings record: the raw `股票代码` cell (a string), `股票名称`, `占净值比例`. */
  datatype Holding = Holding(code: Option<string>, name: Option<string>, weight: WeightCell)

  /** What the holdings call produced: an exception (or the dated API only), no frame, or a frame's records. */
  datatype HoldingsReply = Failed | NoFrame | Frame(records: seq<Holding>)

  /** `str(h.get('股票代码', ''))` */
  function CodeText(h: Holding): string {
    h.code.GetOr("")
  }

  /** Star Market (`688`) and Beijing (`8`, `4`) codes are left out. */
  predicate Excluded(code: string) {
    StartsWith(code, "688") || StartsWith(code, "8") || StartsWith(code, "4")
  }

  /** `filtered_holdings` after the filter loop. */
  function Survivors(hs: seq<Holding>): seq<Holding>
    decreases |hs|
  {
    if hs == [] then []
    else
      var last := hs[|hs| - 1];
      Survivors(hs[..|hs| - 1]) + (if Excluded(CodeText(last)) then [] else [last])
  }

  /** The filter/slice part of `get_holdings(code)`. */
  function Holdings(reply: HoldingsReply): (r: seq<Holding>)
    ensures |r| <= MaxHoldings
    ensures !reply.Frame? ==> r == []
  {
    match reply
    case Frame(hs) =>
      var s := Survivors(hs);
      if |s| <= MaxHoldings then s else s[..MaxHoldings]
    case _ => []
  }

  /** A record survives iff its code is not in an excluded segment; a missing code reads as `""` and survives. */
  lemma {:induction false} SurvivorsMembers(hs: seq<Holding>, h: Holding)
    ensures h in Survivors(hs) <==> h in hs && !Excluded(CodeText(h))
    ensures h.code == None ==> !Excluded(CodeText(h))
    decreases |hs|
  {
    if hs != [] {
      var p := hs[..|hs| - 1];
      assert hs == p + [hs[|hs| - 1]];
      SurvivorsMembers(p, h);
    }
  }

  /** Filtering keeps source order: it distributes over concatenation. */
  lemma {:induction false} SurvivorsAppend(a: seq<Holding>, b: seq<Holding>)
    ensures Survivors(a + b) == Survivors(a) + Survivors(b)
    decreases |b|
  {
    if b == [] {
      assert a + b == a;
    } else {
      var b' := b[..|b| - 1];
      assert a + b == (a + b') + [b[|b| - 1]];
      assert (a + b)[..|a + b| - 1] == a + b';
      SurvivorsAppend(a, b');
    }
  }

  /** The holdings returned are the first (at most) ten survivors, none from an excluded segment. */
  lemma HoldingsFiltered(reply: HoldingsReply)
    requires reply.Frame?
    ensures var r := Holdings(reply); var s := Survivors(reply.records);
      |r| == (if |s| <= MaxHoldings then |s| else MaxHoldings) && r == s[..|r|]
    ensures forall h :: h in Holdings(reply) ==> h in reply.records && !Excluded(CodeText(h))
  {
    var s := Survivors(reply.records);
    forall h | h in Holdings(reply) ensures h in reply.records && !Excluded(CodeText(h)) {
      assert h in s;
      SurvivorsMembers(reply.records, h);
    }
  }

  /** The segment filter on four sample codes. */
  lemma HoldingsExample()
    ensures var hs := [Holding(Some("688001"), None, Missing), Holding(Some("800001"), None, Missing),
                       Holding(Some("000001"), None, Missing), Holding(Some("600000"), None, Missing)];
      Holdings(Frame(hs)) == hs[2..]
  {
    var hs := [Holding(Some("688001"), None, Missing), Holding(Some("800001"), None, Missing),
               Holding(Some("000001"), None, Missing), Holding(Some("600000"), None, Missing)];
    assert StartsWith(CodeText(hs[0]), "688") && StartsWith(CodeText(hs[1]), "8");
    assert CodeText(hs[2]) == "000001" && CodeText(hs[3]) == "600000";
    assert "000001"[..3] == "000" && "000001"[..1] == "0";
    assert "600000"[..3] == "600" && "600000"[..1] == "6";
    assert "000" != "688" && "600" != "688" && "0" != "8" && "0" != "4" && "6" != "8" && "6" != "4";
    assert hs[..1][..0] == [] && hs[..2][..1] == hs[..1] && hs[..3][..2] == hs[..2] && hs[..3] == hs[..4][..3];
    assert Survivors(hs[..1]) == [];
    assert Survivors(hs[..2]) == [];
    assert Survivors(hs[..3]) == [hs[2]];
    assert hs[..4] == hs;
    assert Survivors(hs) == [hs[2], hs[3]];
  }

  // ---------------------------------------------------------------------
  // The object

  class MarketDataSource {
    /** `etf_df`, as the cache load left it. */
    var etfFrame: Catalog

    constructor (cached: Catalog)
      ensures etfFrame == cached
    {
      etfFrame := cached;
    }

    /** `search_etfs(keywords)`: the match loop, then the keep-first dedupe on code. */
    method SearchEtfs(keywords: seq<string>) returns (uniqueResults: seq<Candidate>)
      ensures uniqueResults == Search(etfFrame, keywords)
    {
      if etfFrame.NoCatalog? || etfFrame.rows == [] {
        return [];
      }
      if CodeColumn !in etfFrame.columns || NameColumn !in etfFrame.columns {
        return [];
      }
      var results := MatchAll(etfFrame.rows, keywords);
      uniqueResults := DedupeByCode(results);
    }

    /** The filter/slice part of `get_holdings(code)`, given what the data source returned for `code`. */
    method GetHoldings(reply: HoldingsReply) returns (holdings: seq<Holding>)
      ensures holdings == Holdings(reply)
    {
      if !reply.Frame? {
        return [];
      }
      var allHoldings := reply.records;
      var filtered: seq<Holding> := [];
      for i := 0 to |allHoldings|
        invariant filtered == Survivors(allHoldings[..i])
      {
        var h := allHoldings[i];
        assert allHoldings[..i + 1][..i] == allHoldings[..i];
        var sCode := if h.code.Some? then h.code.value else "";
        if StartsWith(sCode, "688") || StartsWith(sCode, "8") || StartsWith(sCode, "4") {
          continue;
        }
        filtered := filtered + [h];
      }
      assert allHoldings[..|allHoldings|] == allHoldings;
      holdings := if |filtered| <= MaxHoldings then filtered else filtered[..MaxHoldings];
    }
  }

  /** The match loop of `search_etfs`: every keyword in turn, every row in turn. */
  method MatchAll(rows: seq<FundRow>, keywords: seq<string>) returns (results: seq<Candidate>)
    ensures results == AllMatches(rows, keywords)
  {
    results := [];
    for i := 0 to |keywords|
      invariant results == AllMatches(rows, keywords[..i])
    {
      assert keywords[..i + 1][..i] == keywords[..i];
      var matches := MatchKeyword(rows, keywords[i]);
      results := results + matches;
    }
    assert keywords[..|keywords|] == keywords;
  }

  /** The rows of the catalog whose name contains `keyword`, as search results. */
  method MatchKeyword(rows: seq<FundRow>, keyword: string) returns (matches: seq<Candidate>)
    ensures matches == Matches(rows, keyword)
  {
    matches := [];
    for j := 0 to |rows|
      invariant matches == Matches(rows[..j], keyword)
    {
      assert rows[..j + 1][..j] == rows[..j];
      if rows[j].name.Some? && Contains(rows[j].name.value, keyword) {
        matches := matches + [Candidate(rows[j].code, rows[j].name.value, keyword)];
      }
    }
    assert rows[..|rows|] == rows;
  }

  /** The dedupe loop of `search_etfs`, with its growing `seen_codes` set. */
  method DedupeByCode(results: seq<Candidate>) returns (uniqueResults: seq<Candidate>)
    ensures uniqueResults == KeepFirst(results)
  {
    uniqueResults := [];
    var seenCodes: set<string> := {};
    for k := 0 to |results|
      invariant uniqueResults == KeepFirst(results[..k])
      invariant seenCodes == CodesOf(uniqueResults)
    {
      var r := results[k];
      assert results[..k + 1][..k] == results[..k];
      if r.code !in seenCodes {
        CodesOfAppend(uniqueResults, r);
        uniqueResults := uniqueResults + [r];
        seenCodes := seenCodes + {r.code};
      }
    }
    assert results[..|results|] == results;
  }
}
