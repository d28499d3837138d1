/**
 * The overlap ranking inside `job` (src/main.py:36-74): every holding of the
 * considered funds is folded into `stock_stats`, an insertion-ordered map
 * from security code to (first name, count, total weight); its items are
 * sorted stably in descending (count, total weight) order and the first ten
 * become the common stocks.
 */
module Ranking {
  import opened Wrappers
  import opened MarketData

  /** How many common stocks are reported at most. */
  const MaxCommon: nat := 10

  /** A candidate fund with its `holdings` field set. */
  datatype FundResult = FundResult(fund: Candidate, holdings: seq<Holding>)

  /** `{'name', 'count', 'total_weight'}` */
  datatype Stat = Stat(name: Option<string>, count: nat, totalWeight: real)

  /** `stock_stats`: its keys in insertion order, and its entries. The key is `h.get('股票代码')`, `None` when missing. */
  datatype Tally = Tally(order: seq<Option<string>>, stats: map<Option<string>, Stat>)

  /** One of `stock_stats.items()`. */
  datatype Ranked = Ranked(code: Option<string>, stat: Stat)

  /** One of `final_common_stocks`. */
  datatype CommonStock = CommonStock(code: Option<string>, name: Option<string>, occurrence: nat, totalWeight: real)

  /** `float(h.get('占净值比例', 0))`, with `0.0` when `float` raises. */
  function WeightOf(h: Holding): real {
    match h.weight
    case Missing => 0.0
    case Parses(v) => v
    case Unparsable => 0.0
  }

  /** The holdings of all funds, fund by fund. */
  function Flatten(funds: seq<FundResult>): seq<Holding>
    decreases |funds|
  {
    if funds == [] then [] else Flatten(funds[..|funds| - 1]) + funds[|funds| - 1].holdings
  }

  // ---------------------------------------------------------------------
  // Reference definitions per code

  /** The number of holdings with code `k`. */
  function Occurrences(hs: seq<Holding>, k: Option<string>): nat
    decreases |hs|
  {
    if hs == [] then 0
    else Occurrences(hs[..|hs| - 1], k) + (if hs[|hs| - 1].code == k then 1 else 0)
  }

  /** The sum of the weights of the holdings with code `k`, in order. */
  function WeightSum(hs: seq<Holding>, k: Option<string>): real
    decreases |hs|
  {
    if hs == [] then 0.0
    else WeightSum(hs[..|hs| - 1], k) + (if hs[|hs| - 1].code == k then WeightOf(hs[|hs| - 1]) else 0.0)
  }

  predicate Occurs(hs: seq<Holding>, k: Option<string>) {
    exists i :: 0 <= i < |hs| && hs[i].code == k
  }

  /** The position of the first holding with code `k`. */
  function FirstSeen(hs: seq<Holding>, k: Option<string>): (i: nat)
    requires Occurs(hs, k)
    ensures i < |hs| && hs[i].code == k && forall j :: 0 <= j < i ==> hs[j].code != k
    decreases |hs|
  {
    if hs[0].code == k then 0
    else
      assert Occurs(hs[1..], k) by {
        var i :| 0 <= i < |hs| && hs[i].code == k;
        assert hs[1..][i - 1] == hs[i];
      }
      1 + FirstSeen(hs[1..], k)
  }

  lemma FirstSeenAppend(hs: seq<Holding>, h: Holding, k: Option<string>)
    requires Occurs(hs, k)
    ensures Occurs(hs + [h], k) && FirstSeen(hs + [h], k) == FirstSeen(hs, k)
  {
    var i := FirstSeen(hs, k);
    assert (hs + [h])[i] == hs[i];
    var i' := FirstSeen(hs + [h], k);
  }

  lemma FirstSeenLast(hs: seq<Holding>, h: Holding)
    requires !Occurs(hs, h.code)
    ensures Occurs(hs + [h], h.code) && FirstSeen(hs + [h], h.code) == |hs|
  {
    assert (hs + [h])[|hs|] == h;
    var i := FirstSeen(hs + [h], h.code);
  }

  // ---------------------------------------------------------------------
  // The fold

  /** The keys of `order` are distinct and are exactly the keys of `stats`. */
  predicate WellFormed(t: Tally) {
    && (forall i, j :: 0 <= i < j < |t.order| ==> t.order[i] != t.order[j])
    && (forall k :: k in t.stats ==> k in t.order)
    && (forall k :: k in t.order ==> k in t.stats)
  }

  /** One pass of the inner loop: insert the code on first sight, then count it and add its weight. */
  function Add(t: Tally, h: Holding): Tally {
    var k := h.code;
    var s0 := if k in t.stats then t.stats[k] else Stat(h.name, 0, 0.0);
    var order := if k in t.stats then t.order else t.order + [k];
    Tally(order, t.stats[k := Stat(s0.name, s0.count + 1, s0.totalWeight + WeightOf(h))])
  }

  /** `stock_stats` after folding `hs`. */
  function Fold(hs: seq<Holding>): Tally
    decreases |hs|
  {
    if hs == [] then Tally([], map[]) else Add(Fold(hs[..|hs| - 1]), hs[|hs| - 1])
  }

  /** The fold keeps `order` and the keys of `stats` in step, each key once. */
  lemma {:induction false} FoldWellFormed(hs: seq<Holding>)
    ensures WellFormed(Fold(hs))
    decreases |hs|
  {
    if hs != [] {
      FoldWellFormed(hs[..|hs| - 1]);
    }
  }

  /** A code is a key of the fold iff some holding has it. */
  lemma {:induction false} FoldHas(hs: seq<Holding>, k: Option<string>)
    ensures k in Fold(hs).stats <==> Occurs(hs, k)
    decreases |hs|
  {
    if hs != [] {
      var p := hs[..|hs| - 1];
      var h := hs[|hs| - 1];
      FoldHas(p, k);
      if Occurs(hs, k) && k != h.code {
        var i :| 0 <= i < |hs| && hs[i].code == k;
        assert p[i] == hs[i];
      }
      if Occurs(p, k) {
        var i :| 0 <= i < |p| && p[i].code == k;
        assert hs[i] == p[i];
      }
    }
  }

  /** The keys of the fold come in the order of their first occurrence. */
  lemma {:induction false} FoldKeys(hs: seq<Holding>)
    ensures forall k :: k in Fold(hs).stats <==> Occurs(hs, k)
    ensures forall a, b :: 0 <= a < b < |Fold(hs).order| ==>
      Occurs(hs, Fold(hs).order[a]) && Occurs(hs, Fold(hs).order[b]) &&
      FirstSeen(hs, Fold(hs).order[a]) < FirstSeen(hs, Fold(hs).order[b])
    decreases |hs|
  {
    forall k ensures k in Fold(hs).stats <==> Occurs(hs, k) {
      FoldHas(hs, k);
    }
    FoldWellFormed(hs);
    if hs != [] {
      var p := hs[..|hs| - 1];
      var h := hs[|hs| - 1];
      assert hs == p + [h];
      FoldKeys(p);
      FoldWellFormed(p);
      var t0 := Fold(p);
      var t := Fold(hs);
      assert t == Add(t0, h);
      forall a, b | 0 <= a < b < |t.order|
        ensures Occurs(hs, t.order[a]) && Occurs(hs, t.order[b]) && FirstSeen(hs, t.order[a]) < FirstSeen(hs, t.order[b])
      {
        assert t.order[a] in t.order && t.order[b] in t.order;
        assert t.order[a] == t0.order[a] && t0.order[a] in t0.order;
        FirstSeenAppend(p, h, t0.order[a]);
        if b < |t0.order| {
          assert t.order[b] == t0.order[b] && t0.order[b] in t0.order;
          FirstSeenAppend(p, h, t0.order[b]);
        } else {
          FirstSeenLast(p, h);
        }
      }
    }
  }

  /**
   * Per code, the fold counts the holdings with that code, sums their
   * weights, and keeps the name of the first one.
   */
  lemma {:induction false} FoldStat(hs: seq<Holding>, k: Option<string>)
    requires k in Fold(hs).stats
    ensures Occurs(hs, k)
    ensures Fold(hs).stats[k] == Stat(hs[FirstSeen(hs, k)].name, Occurrences(hs, k), WeightSum(hs, k))
    decreases |hs|
  {
    FoldHas(hs, k);
    var p := hs[..|hs| - 1];
    var h := hs[|hs| - 1];
    assert hs == p + [h];
    var t0 := Fold(p);
    assert Fold(hs) == Add(t0, h);
    FoldHas(p, k);
    CountsStep(p, h, k);
    if k in t0.stats {
      FoldStat(p, k);
      FirstSeenAppend(p, h, k);
      assert hs[FirstSeen(p, k)] == p[FirstSeen(p, k)];
    } else {
      OccurrencesAbsent(p, k);
      WeightSumAbsent(p, k);
      FirstSeenLast(p, h);
    }
  }

  /** Appending one holding adds one to its own code's count and its weight to that code's sum. */
  lemma CountsStep(hs: seq<Holding>, h: Holding, k: Option<string>)
    ensures Occurrences(hs + [h], k) == Occurrences(hs, k) + (if h.code == k then 1 else 0)
    ensures WeightSum(hs + [h], k) == WeightSum(hs, k) + (if h.code == k then WeightOf(h) else 0.0)
  {
    assert (hs + [h])[..|hs|] == hs;
  }

  lemma {:induction false} OccurrencesAbsent(hs: seq<Holding>, k: Option<string>)
    requires !Occurs(hs, k)
    ensures Occurrences(hs, k) == 0
    decreases |hs|
  {
    if hs != [] {
      var p := hs[..|hs| - 1];
      forall i | 0 <= i < |p| ensures p[i].code != k {
        assert p[i] == hs[i];
      }
      OccurrencesAbsent(p, k);
    }
  }

  lemma {:induction false} WeightSumAbsent(hs: seq<Holding>, k: Option<string>)
    requires !Occurs(hs, k)
    ensures WeightSum(hs, k) == 0.0
    decreases |hs|
  {
    if hs != [] {
      var p := hs[..|hs| - 1];
      forall i | 0 <= i < |p| ensures p[i].code != k {
        assert p[i] == hs[i];
      }
      WeightSumAbsent(p, k);
    }
  }

  /** A holding whose weight is missing or does not parse is still counted, but adds nothing to the weight. */
  lemma UnparsedWeightAddsNothing(hs: seq<Holding>, h: Holding)
    requires !h.weight.Parses?
    ensures Occurrences(hs + [h], h.code) == Occurrences(hs, h.code) + 1
    ensures WeightSum(hs + [h], h.code) == WeightSum(hs, h.code)
  {
    assert (hs + [h])[..|hs|] == hs;
  }

  // ---------------------------------------------------------------------
  // Counting bound

  lemma {:induction false} OccurrencesAppend(a: seq<Holding>, b: seq<Holding>, k: Option<string>)
    ensures Occurrences(a + b, k) == Occurrences(a, k) + Occurrences(b, k)
    decreases |b|
  {
    if b == [] {
      assert a + b == a;
    } else {
      var b' := b[..|b| - 1];
      assert (a + b)[..|a + b| - 1] == a + b';
      OccurrencesAppend(a, b', k);
    }
  }

  predicate DistinctHoldingCodes(hs: seq<Holding>) {
    forall i, j :: 0 <= i < j < |hs| ==> hs[i].code != hs[j].code
  }

  lemma {:induction false} OccurrencesDistinct(hs: seq<Holding>, k: Option<string>)
    requires DistinctHoldingCodes(hs)
    ensures Occurrences(hs, k) <= 1
    decreases |hs|
  {
    if hs != [] {
      var p := hs[..|hs| - 1];
      var last := hs[|hs| - 1];
      forall i, j | 0 <= i < j < |p| ensures p[i].code != p[j].code {
        assert p[i] == hs[i] && p[j] == hs[j];
      }
      if last.code == k {
        forall i | 0 <= i < |p| ensures p[i].code != k {
          assert p[i] == hs[i];
        }
        OccurrencesAbsent(p, k);
      } else {
        OccurrencesDistinct(p, k);
      }
    }
  }

  /** When no fund lists a code twice, no code is counted more often than there are funds. */
  lemma {:induction false} CountAtMostFunds(funds: seq<FundResult>, k: Option<string>)
    requires forall f :: f in funds ==> DistinctHoldingCodes(f.holdings)
    ensures Occurrences(Flatten(funds), k) <= |funds|
    decreases |funds|
  {
    if funds != [] {
      var p := funds[..|funds| - 1];
      assert forall f :: f in p ==> f in funds;
      CountAtMostFunds(p, k);
      OccurrencesAppend(Flatten(p), funds[|funds| - 1].holdings, k);
      OccurrencesDistinct(funds[|funds| - 1].holdings, k);
    }
  }

  // ---------------------------------------------------------------------
  // The stable descending sort

  /** `(a.count, a.total_weight) > (b.count, b.total_weight)` */
  predicate Greater(a: Stat, b: Stat) {
    a.count > b.count || (a.count == b.count && a.totalWeight > b.totalWeight)
  }

  predicate SameKey(a: Stat, b: Stat) {
    a.count == b.count && a.totalWeight == b.totalWeight
  }

  predicate Descending(rs: seq<Ranked>) {
    forall i, j :: 0 <= i < j < |rs| ==> !Greater(rs[j].stat, rs[i].stat)
  }

  /** Place `x` in front of the first entry whose key is not above its own. */
  function InsertDesc(x: Ranked, rs: seq<Ranked>): (r: seq<Ranked>)
    ensures multiset(r) == multiset(rs) + multiset{x}
    decreases |rs|
  {
    if rs == [] || !Greater(rs[0].stat, x.stat) then [x] + rs
    else
      assert rs == [rs[0]] + rs[1..];
      [rs[0]] + InsertDesc(x, rs[1..])
  }

  /** `sorted(items, key=(count, total_weight), reverse=True)` */
  function SortDesc(rs: seq<Ranked>): (r: seq<Ranked>)
    ensures multiset(r) == multiset(rs)
    decreases |rs|
  {
    if rs == [] then []
    else
      assert rs == [rs[0]] + rs[1..];
      InsertDesc(rs[0], SortDesc(rs[1..]))
  }

  lemma {:induction false} InsertDescSorted(x: Ranked, rs: seq<Ranked>)
    requires Descending(rs)
    ensures Descending(InsertDesc(x, rs))
    decreases |rs|
  {
    if rs != [] && Greater(rs[0].stat, x.stat) {
      InsertDescSorted(x, rs[1..]);
      var r := InsertDesc(x, rs);
      var tail := InsertDesc(x, rs[1..]);
      assert r == [rs[0]] + tail;
      forall j | 1 <= j < |r| ensures !Greater(r[j].stat, rs[0].stat) {
        assert r[j] in multiset(tail);
        if r[j] != x {
          assert r[j] in multiset(rs[1..]);
          var m :| 0 <= m < |rs[1..]| && rs[1..][m] == r[j];
          assert rs[m + 1] == r[j];
        }
      }
    }
  }

  /** The entries with key `key`, in order. */
  function WithKey(rs: seq<Ranked>, key: Stat): seq<Ranked>
    decreases |rs|
  {
    if rs == [] then []
    else (if SameKey(rs[0].stat, key) then [rs[0]] else []) + WithKey(rs[1..], key)
  }

  lemma {:induction false} InsertDescStable(x: Ranked, rs: seq<Ranked>, key: Stat)
    ensures WithKey(InsertDesc(x, rs), key) == (if SameKey(x.stat, key) then [x] else []) + WithKey(rs, key)
    decreases |rs|
  {
    if rs != [] && Greater(rs[0].stat, x.stat) {
      InsertDescStable(x, rs[1..], key);
      var r := InsertDesc(x, rs);
      assert r[0] == rs[0] && r[1..] == InsertDesc(x, rs[1..]);
    } else {
      var r := InsertDesc(x, rs);
      assert r[0] == x && r[1..] == rs;
    }
  }

  /**
   * The sort is a permutation into non-increasing (count, total weight)
   * order that keeps the relative order of entries with equal keys.
   */
  lemma {:induction false} SortDescCorrect(rs: seq<Ranked>)
    ensures multiset(SortDesc(rs)) == multiset(rs)
    ensures Descending(SortDesc(rs))
    ensures forall key :: WithKey(SortDesc(rs), key) == WithKey(rs, key)
    decreases |rs|
  {
    if rs != [] {
      SortDescCorrect(rs[1..]);
      InsertDescSorted(rs[0], SortDesc(rs[1..]));
      forall key ensures WithKey(SortDesc(rs), key) == WithKey(rs, key) {
        InsertDescStable(rs[0], SortDesc(rs[1..]), key);
      }
    }
  }

  // ---------------------------------------------------------------------
  // The ranking

  /** `stock_stats.items()` in insertion order. */
  function Items(t: Tally): (rs: seq<Ranked>)
    requires WellFormed(t)
    ensures |rs| == |t.order| && forall i :: 0 <= i < |rs| ==> rs[i] == Ranked(t.order[i], t.stats[t.order[i]])
  {
    seq(|t.order|, i requires 0 <= i < |t.order| => Ranked(t.order[i], t.stats[t.order[i]]))
  }

  function ToCommon(r: Ranked): CommonStock {
    CommonStock(r.code, r.stat.name, r.stat.count, r.stat.totalWeight)
  }

  function Common(rs: seq<Ranked>): (cs: seq<CommonStock>)
    ensures |cs| == |rs| && forall i :: 0 <= i < |rs| ==> cs[i] == ToCommon(rs[i])
    decreases |rs|
  {
    if rs == [] then [] else Common(rs[..|rs| - 1]) + [ToCommon(rs[|rs| - 1])]
  }

  function Take(rs: seq<Ranked>, n: nat): (r: seq<Ranked>)
    ensures |r| == (if |rs| <= n then |rs| else n) && r == rs[..|r|]
  {
    if |rs| <= n then rs else rs[..n]
  }

  /** The sorted items of the fold of all holdings of `funds`. */
  function RankedItems(funds: seq<FundResult>): seq<Ranked> {
    FoldWellFormed(Flatten(funds));
    SortDesc(Items(Fold(Flatten(funds))))
  }

  /** `final_common_stocks` for the funds considered. */
  function Rank(funds: seq<FundResult>): seq<CommonStock> {
    Common(Take(RankedItems(funds), MaxCommon))
  }

  /** What the fold should hold for code `k`: the first holding's name, the count and the weight sum. */
  function StatOf(hs: seq<Holding>, k: Option<string>): Stat
    requires Occurs(hs, k)
  {
    Stat(hs[FirstSeen(hs, k)].name, Occurrences(hs, k), WeightSum(hs, k))
  }

  /** Each sorted item is a code that occurs, with its reference statistics, and no code appears twice. */
  lemma RankedItemsFacts(funds: seq<FundResult>)
    ensures var rs := RankedItems(funds);
      var all := Flatten(funds);
      && Descending(rs)
      && (forall i, j :: 0 <= i < j < |rs| ==> rs[i].code != rs[j].code)
      && (forall i :: 0 <= i < |rs| ==> Occurs(all, rs[i].code) && rs[i].stat == StatOf(all, rs[i].code))
  {
    var all := Flatten(funds);
    var t := Fold(all);
    FoldWellFormed(all);
    var items := Items(t);
    var sorted := SortDesc(items);
    assert sorted == RankedItems(funds);
    SortDescCorrect(items);
    forall i | 0 <= i < |sorted| ensures Occurs(all, sorted[i].code) && sorted[i].stat == StatOf(all, sorted[i].code) {
      assert sorted[i] in multiset(items);
      var m :| 0 <= m < |items| && items[m] == sorted[i];
      FoldStat(all, t.order[m]);
    }
    forall i, j | 0 <= i < j < |sorted| ensures sorted[i].code != sorted[j].code {
      ItemsCodesDistinct(t, sorted, i, j);
    }
  }

  /**
   * At most ten common stocks with distinct codes, in non-increasing
   * (occurrence, total weight) order; each one is a code that some holding
   * has, with the number of holdings that have it, the sum of their weights
   * and the name of the first.
   */
  lemma RankCorrect(funds: seq<FundResult>)
    ensures var r := Rank(funds);
      var all := Flatten(funds);
      && |r| <= MaxCommon
      && (forall i, j :: 0 <= i < j < |r| ==> r[i].code != r[j].code)
      && (forall i, j :: 0 <= i < j < |r| ==>
            r[i].occurrence > r[j].occurrence ||
            (r[i].occurrence == r[j].occurrence && r[i].totalWeight >= r[j].totalWeight))
      && (forall i :: 0 <= i < |r| ==>
            && Occurs(all, r[i].code)
            && r[i].occurrence == Occurrences(all, r[i].code)
            && r[i].totalWeight == WeightSum(all, r[i].code)
            && r[i].name == all[FirstSeen(all, r[i].code)].name)
  {
    var rs := RankedItems(funds);
    RankedItemsFacts(funds);
    var r := Rank(funds);
    RankPrefix(funds);
    forall i, j | 0 <= i < j < |r|
      ensures r[i].occurrence > r[j].occurrence ||
              (r[i].occurrence == r[j].occurrence && r[i].totalWeight >= r[j].totalWeight)
    {
      assert !Greater(rs[j].stat, rs[i].stat);
    }
  }

  /** The common stocks are the first (at most) ten sorted items, converted. */
  lemma RankPrefix(funds: seq<FundResult>)
    ensures var rs := RankedItems(funds); var r := Rank(funds);
      |r| == (if |rs| <= MaxCommon then |rs| else MaxCommon) && forall i :: 0 <= i < |r| ==> r[i] == ToCommon(rs[i])
  {
    var rs := RankedItems(funds);
    var top := Take(rs, MaxCommon);
    assert Rank(funds) == Common(top);
    forall i | 0 <= i < |top| ensures top[i] == rs[i] {
    }
  }

  /** Distinct keys stay distinct through any permutation of the items. */
  lemma ItemsCodesDistinct(t: Tally, sorted: seq<Ranked>, i: nat, j: nat)
    requires WellFormed(t) && multiset(sorted) == multiset(Items(t)) && i < j < |sorted|
    ensures sorted[i].code != sorted[j].code
  {
    var items := Items(t);
    assert sorted[i] in multiset(items) && sorted[j] in multiset(items);
    var a :| 0 <= a < |items| && items[a] == sorted[i];
    var b :| 0 <= b < |items| && items[b] == sorted[j];
    if a == b {
      forall m, n | 0 <= m < n < |items| ensures items[m] != items[n] {
        assert items[m].code == t.order[m] && items[n].code == t.order[n];
      }
      AtMostOnce(items, sorted[i]);
      MultisetTwice(sorted, i, j);
    } else {
      assert items[a].code == t.order[a] && items[b].code == t.order[b];
    }
  }

  lemma {:induction false} AtMostOnce(s: seq<Ranked>, x: Ranked)
    requires forall m, n :: 0 <= m < n < |s| ==> s[m] != s[n]
    ensures multiset(s)[x] <= 1
    decreases |s|
  {
    if s != [] {
      assert s == [s[0]] + s[1..];
      forall m, n | 0 <= m < n < |s[1..]| ensures s[1..][m] != s[1..][n] {
        assert s[1..][m] == s[m + 1] && s[1..][n] == s[n + 1];
      }
      AtMostOnce(s[1..], x);
      if x == s[0] {
        forall m | 0 <= m < |s[1..]| ensures s[1..][m] != x {
          assert s[1..][m] == s[m + 1];
        }
        assert x !in s[1..];
      }
    }
  }

  lemma MultisetTwice(s: seq<Ranked>, i: nat, j: nat)
    requires i < j < |s| && s[i] == s[j]
    ensures multiset(s)[s[i]] >= 2
  {
    assert s == s[..i] + [s[i]] + s[i + 1..j] + [s[j]] + s[j + 1..];
  }

  /** Ties keep the first-seen order of the fold: the sort is stable. */
  lemma RankStable(funds: seq<FundResult>)
    ensures WellFormed(Fold(Flatten(funds)))
    ensures forall key :: WithKey(RankedItems(funds), key) == WithKey(Items(Fold(Flatten(funds))), key)
  {
    FoldWellFormed(Flatten(funds));
    SortDescCorrect(Items(Fold(Flatten(funds))));
  }

  /** Two funds that share one security with weights 5 and 3 rank it first with count 2 and weight 8. */
  lemma RankExample(a: Candidate, b: Candidate)
    ensures var funds := [FundResult(a, [SampleShared5, SampleOther]), FundResult(b, [SampleShared3])];
      var r := Rank(funds);
      |r| == 2 && r[0] == CommonStock(Some("000858"), Some("五粮液"), 2, 8.0) && r[1].occurrence == 1
  {
    var funds := [FundResult(a, [SampleShared5, SampleOther]), FundResult(b, [SampleShared3])];
    assert funds[..1][..0] == [] && funds[..2][..1] == funds[..1];
    assert Flatten(funds[..1]) == [SampleShared5, SampleOther];
    assert Flatten(funds) == Flatten(funds[..1]) + [SampleShared3];
    assert Flatten(funds) == [SampleShared5, SampleOther, SampleShared3];
    SampleFold();
    var x := Ranked(Some("000858"), Stat(Some("五粮液"), 2, 8.0));
    var y := Ranked(Some("600519"), Stat(None, 1, 6.0));
    SampleSort(x, y);
  }

  const SampleShared5: Holding := Holding(Some("000858"), Some("五粮液"), Parses(5.0))
  const SampleOther: Holding := Holding(Some("600519"), None, Parses(6.0))
  const SampleShared3: Holding := Holding(Some("000858"), Some("五粮液"), Parses(3.0))

  lemma SampleFold()
    ensures var t := Fold([SampleShared5, SampleOther, SampleShared3]);
      WellFormed(t) && Items(t) == [Ranked(Some("000858"), Stat(Some("五粮液"), 2, 8.0)), Ranked(Some("600519"), Stat(None, 1, 6.0))]
  {
    var all := [SampleShared5, SampleOther, SampleShared3];
    var shared := Some("000858");
    assert all[..2] == [SampleShared5, SampleOther] && [SampleShared5, SampleOther][..1] == [SampleShared5];
    assert [SampleShared5][..0] == [];
    var t1 := Tally([shared], map[shared := Stat(Some("五粮液"), 1, 5.0)]);
    assert Fold([SampleShared5]) == t1;
    var t2 := Tally([shared, Some("600519")], t1.stats[Some("600519") := Stat(None, 1, 6.0)]);
    assert Fold([SampleShared5, SampleOther]) == t2;
    var t3 := Tally([shared, Some("600519")], t2.stats[shared := Stat(Some("五粮液"), 2, 8.0)]);
    assert Fold(all) == t3;
    FoldWellFormed(all);
  }

  lemma SampleSort(x: Ranked, y: Ranked)
    requires Greater(x.stat, y.stat)
    ensures SortDesc([x, y]) == [x, y]
  {
    assert [x, y][1..] == [y] && [y][1..] == [];
    assert SortDesc([y]) == [y];
  }

  // ---------------------------------------------------------------------
  // The imperative ranking

  /** The `stock_stats` fold, the sort and the top-ten loop of `job`, over the funds considered. */
  method RankStocks(funds: seq<FundResult>) returns (finalCommonStocks: seq<CommonStock>)
    ensures finalCommonStocks == Rank(funds)
  {
    var order, stats := TallyFunds(funds);
    FoldWellFormed(Flatten(funds));
    var rankedStocks := SortDesc(Items(Tally(order, stats)));
    finalCommonStocks := [];
    var top := Take(rankedStocks, MaxCommon);
    for k := 0 to |top|
      invariant finalCommonStocks == Common(top[..k])
    {
      assert top[..k + 1][..k] == top[..k];
      var entry := top[k];
      finalCommonStocks := finalCommonStocks
        + [CommonStock(entry.code, entry.stat.name, entry.stat.count, entry.stat.totalWeight)];
    }
    assert top[..|top|] == top;
  }

  /** The nested loop that builds `stock_stats`. */
  method TallyFunds(funds: seq<FundResult>) returns (order: seq<Option<string>>, stats: map<Option<string>, Stat>)
    ensures Tally(order, stats) == Fold(Flatten(funds))
  {
    order := [];
    stats := map[];
    for i := 0 to |funds|
      invariant Tally(order, stats) == Fold(Flatten(funds[..i]))
    {
      assert funds[..i + 1][..i] == funds[..i];
      ghost var before := Flatten(funds[..i]);
      assert Flatten(funds[..i + 1]) == before + funds[i].holdings;
      var holdings := funds[i].holdings;
      assert before + holdings[..0] == before;
      for j := 0 to |holdings|
        invariant Tally(order, stats) == Fold(before + holdings[..j])
      {
        ghost var prefix := before + holdings[..j + 1];
        assert prefix[..|prefix| - 1] == before + holdings[..j] && prefix[|prefix| - 1] == holdings[j];
        order, stats := CountHolding(order, stats, holdings[j]);
      }
      assert holdings[..|holdings|] == holdings;
    }
    assert funds[..|funds|] == funds;
  }

  /** One pass of the inner loop over a fund's holdings. */
  method CountHolding(order0: seq<Option<string>>, stats0: map<Option<string>, Stat>, h: Holding)
    returns (order: seq<Option<string>>, stats: map<Option<string>, Stat>)
    ensures Tally(order, stats) == Add(Tally(order0, stats0), h)
  {
    order, stats := order0, stats0;
    var sCode := h.code;
    var weight: real;
    match h.weight {
      case Missing => weight := 0.0;
      case Parses(v) => weight := v;
      case Unparsable => weight := 0.0;
    }
    if sCode !in stats {
      stats := stats[sCode := Stat(h.name, 0, 0.0)];
      order := order + [sCode];
    }
    stats := stats[sCode := Stat(stats[sCode].name, stats[sCode].count + 1, stats[sCode].totalWeight + weight)];
  }
}
