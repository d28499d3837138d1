/**
 * What `fetch_tweets` as written guarantees, proved about the functions of
 * module Feed that the method `Monitor.TwitterMonitor.FetchTweets` is tied to.
 */
module FeedProps {
  import opened Wrappers
  import opened Feed

  // ---------------------------------------------------------------------
  // processed_tweets only grows; every emitted id is in it

  /** Every id in `new_tweets` is in `processed_tweets`. */
  ghost predicate OutSeen(s: Scan) {
    forall k :: 0 <= k < |s.out| ==> s.out[k].id in s.seen
  }

  /** `s2` is `s1` with ids added to the seen set and records appended to the output. */
  ghost predicate Grows(s1: Scan, s2: Scan) {
    s1.seen <= s2.seen && s1.out <= s2.out
  }

  lemma EntryStepGrows(firstRun: bool, base: string, e: Entry, s: Scan)
    requires OutSeen(s)
    ensures var s2 := EntryStep(firstRun, base, e, s).scan; OutSeen(s2) && Grows(s, s2)
  {
  }

  lemma {:induction false} ScanEntriesGrows(firstRun: bool, base: string, es: seq<Entry>, s: Scan)
    requires OutSeen(s)
    ensures var s2 := ScanEntries(firstRun, base, es, s).scan; OutSeen(s2) && Grows(s, s2)
    decreases |es|
  {
    if es != [] {
      EntryStepGrows(firstRun, base, es[0], s);
      var p := EntryStep(firstRun, base, es[0], s);
      if p.Go? {
        ScanEntriesGrows(firstRun, base, es[1..], p.scan);
      }
    }
  }

  /**
   * The walk only grows the state, and a failed mirror's changes are not
   * rolled back: the final state grows from the state that mirror left.
   */
  lemma {:induction false} TryMirrorsGrows(firstRun: bool, bases: seq<string>, mirrors: seq<Mirror>, s: Scan)
    requires |bases| == |mirrors|
    requires OutSeen(s)
    ensures var s2 := TryMirrors(firstRun, bases, mirrors, s).scan; OutSeen(s2) && Grows(s, s2)
    ensures bases != [] && MirrorStep(firstRun, bases[0], mirrors[0], s).Raise? ==>
      Grows(MirrorStep(firstRun, bases[0], mirrors[0], s).scan, TryMirrors(firstRun, bases, mirrors, s).scan)
    decreases |bases|
  {
    if bases != [] {
      var p := MirrorStep(firstRun, bases[0], mirrors[0], s);
      if mirrors[0].Items? && mirrors[0].items != [] {
        ScanEntriesGrows(firstRun, bases[0], Window(mirrors[0].items), s);
      }
      if p.Raise? {
        TryMirrorsUnfold(firstRun, bases, mirrors, s, p.scan);
        TryMirrorsGrows(firstRun, bases[1..], mirrors[1..], p.scan);
      }
    }
  }

  /**
   * `processed_tweets` only grows, and afterwards holds the id of every
   * record `fetch_tweets` returns.
   */
  lemma FetchGrows(firstRun: bool, seen: set<string>, bases: seq<string>, mirrors: seq<Mirror>)
    requires |bases| == |mirrors|
    ensures var o := Fetch(firstRun, seen, bases, mirrors);
      seen <= o.scan.seen && forall t :: t in o.scan.out ==> t.id in o.scan.seen
  {
    TryMirrorsGrows(firstRun, bases, mirrors, Start(seen));
  }

  // ---------------------------------------------------------------------
  // The first run emits nothing

  /** None of the three locals is bound. */
  predicate Unbound(s: Scan) {
    s.finalText.None? && s.fullLink.None? && s.published.None?
  }

  lemma {:induction false} FirstRunScanSilent(base: string, es: seq<Entry>, s: Scan)
    requires Unbound(s)
    ensures var s2 := ScanEntries(true, base, es, s).scan; Unbound(s2) && s2.out == s.out
    decreases |es|
  {
    if es != [] {
      var p := EntryStep(true, base, es[0], s);
      if p.Go? {
        FirstRunScanSilent(base, es[1..], p.scan);
      }
    }
  }

  lemma {:induction false} FirstRunMirrorsSilent(bases: seq<string>, mirrors: seq<Mirror>, s: Scan)
    requires |bases| == |mirrors|
    requires Unbound(s)
    ensures var s2 := TryMirrors(true, bases, mirrors, s).scan; Unbound(s2) && s2.out == s.out
    decreases |bases|
  {
    if bases != [] {
      var p := MirrorStep(true, bases[0], mirrors[0], s);
      if mirrors[0].Items? && mirrors[0].items != [] {
        FirstRunScanSilent(bases[0], Window(mirrors[0].items), s);
      }
      if p.Raise? {
        TryMirrorsUnfold(true, bases, mirrors, s, p.scan);
        FirstRunMirrorsSilent(bases[1..], mirrors[1..], p.scan);
      }
    }
  }

  /** While `is_first_run` holds, `fetch_tweets` returns `[]`, whatever the mirrors render. */
  lemma FirstRunReturnsNothing(seen: set<string>, bases: seq<string>, mirrors: seq<Mirror>)
    requires |bases| == |mirrors|
    ensures Fetch(true, seen, bases, mirrors).scan.out == []
  {
    FirstRunMirrorsSilent(bases, mirrors, Start(seen));
  }

  // ---------------------------------------------------------------------
  // A completed pass covers the whole window

  /** The entry links to a tweet whose id is in `seen`. */
  predicate LinkedIn(e: Entry, seen: set<string>) {
    e.link.Href? ==> ExtractId(e.link.href) in seen
  }

  lemma {:induction false} CompletedScanCovers(firstRun: bool, base: string, es: seq<Entry>, s: Scan)
    requires ScanEntries(firstRun, base, es, s).Go?
    ensures var s2 := ScanEntries(firstRun, base, es, s).scan;
      forall e :: e in es ==> LinkedIn(e, s2.seen)
    decreases |es|
  {
    if es != [] {
      var p := EntryStep(firstRun, base, es[0], s);
      assert p.Go?;
      CompletedScanCovers(firstRun, base, es[1..], p.scan);
      ScanEntriesGrows'(firstRun, base, es[1..], p.scan);
      assert forall e :: e in es ==> e == es[0] || e in es[1..];
    }
  }

  /** The seen set never shrinks in a pass (without the output invariant of ScanEntriesGrows). */
  lemma {:induction false} ScanEntriesGrows'(firstRun: bool, base: string, es: seq<Entry>, s: Scan)
    ensures s.seen <= ScanEntries(firstRun, base, es, s).scan.seen
    decreases |es|
  {
    if es != [] {
      var p := EntryStep(firstRun, base, es[0], s);
      if p.Go? {
        ScanEntriesGrows'(firstRun, base, es[1..], p.scan);
      }
    }
  }

  /**
   * The walk stops at the first mirror whose pass completes: that mirror
   * rendered at least one item, and the id of every linked item among its
   * first ten is in `processed_tweets` afterwards.
   */
  lemma {:induction false} WinnerCovered(firstRun: bool, bases: seq<string>, mirrors: seq<Mirror>, s: Scan)
    requires |bases| == |mirrors|
    ensures var o := TryMirrors(firstRun, bases, mirrors, s);
      o.winner.Some? ==>
        var m := mirrors[o.winner.value];
        m.Items? && m.items != [] &&
        forall e :: e in Window(m.items) ==> LinkedIn(e, o.scan.seen)
    decreases |bases|
  {
    if bases != [] {
      var p := MirrorStep(firstRun, bases[0], mirrors[0], s);
      if p.Go? {
        CompletedScanCovers(firstRun, bases[0], Window(mirrors[0].items), s);
      } else {
        TryMirrorsUnfold(firstRun, bases, mirrors, s, p.scan);
        WinnerCovered(firstRun, bases[1..], mirrors[1..], p.scan);
      }
    }
  }

  /**
   * Mirrors after the one whose pass completes are never consulted: any
   * other continuation of the mirror list gives the same outcome.
   */
  lemma {:induction false} LaterMirrorsIgnored(firstRun: bool, bases: seq<string>, mirrors: seq<Mirror>,
                                               bases': seq<string>, mirrors': seq<Mirror>, s: Scan)
    requires |bases| == |mirrors| && |bases'| == |mirrors'|
    requires TryMirrors(firstRun, bases, mirrors, s).winner.Some?
    requires var w := TryMirrors(firstRun, bases, mirrors, s).winner.value;
      w < |bases'| && bases'[..w + 1] == bases[..w + 1] && mirrors'[..w + 1] == mirrors[..w + 1]
    ensures TryMirrors(firstRun, bases', mirrors', s) == TryMirrors(firstRun, bases, mirrors, s)
    decreases |bases|
  {
    var w := TryMirrors(firstRun, bases, mirrors, s).winner.value;
    assert bases'[0] == bases[0] && mirrors'[0] == mirrors[0] by {
      assert bases'[..w + 1][0] == bases[..w + 1][0];
      assert mirrors'[..w + 1][0] == mirrors[..w + 1][0];
    }
    var p := MirrorStep(firstRun, bases[0], mirrors[0], s);
    if p.Raise? {
      TryMirrorsUnfold(firstRun, bases, mirrors, s, p.scan);
      TryMirrorsUnfold(firstRun, bases', mirrors', s, p.scan);
      var o := TryMirrors(firstRun, bases[1..], mirrors[1..], p.scan);
      assert o.winner.value == w - 1;
      assert bases'[1..][..w] == bases[1..][..w] by {
        assert bases'[1..][..w] == bases'[..w + 1][1..];
        assert bases[1..][..w] == bases[..w + 1][1..];
      }
      assert mirrors'[1..][..w] == mirrors[1..][..w] by {
        assert mirrors'[1..][..w] == mirrors'[..w + 1][1..];
        assert mirrors[1..][..w] == mirrors[..w + 1][1..];
      }
      LaterMirrorsIgnored(firstRun, bases[1..], mirrors[1..], bases'[1..], mirrors'[1..], p.scan);
    }
  }

  // ---------------------------------------------------------------------
  // Items beyond the window, and items without a link

  /** Only the first ten items of a mirror are examined. */
  lemma ItemsBeyondWindowIgnored(firstRun: bool, base: string, es: seq<Entry>, extra: seq<Entry>, s: Scan)
    requires |es| >= WindowSize
    ensures MirrorStep(firstRun, base, Items(es + extra), s) == MirrorStep(firstRun, base, Items(es), s)
  {
    assert (es + extra)[..WindowSize] == es[..WindowSize];
  }

  /** The items that carry an `a.tweet-link`. */
  function Linked(es: seq<Entry>): (r: seq<Entry>)
    ensures forall e :: e in r <==> e in es && !e.link.NoLink?
    ensures |r| <= |es|
  {
    if es == [] then []
    else if es[0].link.NoLink? then Linked(es[1..])
    else [es[0]] + Linked(es[1..])
  }

  /** Items without an `a.tweet-link` are skipped without any other effect. */
  lemma {:induction false} UnlinkedItemsSkipped(firstRun: bool, base: string, es: seq<Entry>, s: Scan)
    ensures ScanEntries(firstRun, base, es, s) == ScanEntries(firstRun, base, Linked(es), s)
    decreases |es|
  {
    if es != [] {
      var p := EntryStep(firstRun, base, es[0], s);
      if p.Go? {
        UnlinkedItemsSkipped(firstRun, base, es[1..], p.scan);
      }
      if !es[0].link.NoLink? {
        var r := Linked(es);
        assert r[0] == es[0] && r[1..] == Linked(es[1..]);
      }
    }
  }

  // ---------------------------------------------------------------------
  // The append outside the new-tweet block

  /** A seen item reached while no new tweet has bound the locals raises, and changes nothing. */
  lemma SeenBeforeNewRaises(firstRun: bool, base: string, e: Entry, s: Scan)
    requires e.link.Href? && ExtractId(e.link.href) in s.seen
    requires !Bound(s)
    ensures EntryStep(firstRun, base, e, s) == Raise(s)
  {
  }

  /** The records a run of seen items produces once a new tweet has bound the locals to these values. */
  function Replays(es: seq<Entry>, text: string, link: string, published: string): (r: seq<Tweet>)
    requires forall e :: e in es ==> e.link.Href?
    ensures |r| == |es|
    decreases |es|
  {
    if es == [] then []
    else
      assert forall e :: e in es[1..] ==> e in es;
      [Tweet(ExtractId(es[0].link.href), text, link, published)] + Replays(es[1..], text, link, published)
  }

  /** The `k`-th replayed record carries the `k`-th item's own id and the bound values. */
  lemma {:induction false} ReplaysSpec(es: seq<Entry>, text: string, link: string, published: string)
    requires forall e :: e in es ==> e.link.Href?
    ensures forall k :: 0 <= k < |es| ==>
      Replays(es, text, link, published)[k] == Tweet(ExtractId(es[k].link.href), text, link, published)
    decreases |es|
  {
    if es != [] {
      assert forall e :: e in es[1..] ==> e in es;
      ReplaysSpec(es[1..], text, link, published);
      forall k | 1 <= k < |es|
        ensures Replays(es, text, link, published)[k] == Tweet(ExtractId(es[k].link.href), text, link, published)
      {
        assert es[1..][k - 1] == es[k];
      }
    }
  }

  /** A step that goes on hands its state to the rest of the pass. */
  lemma ScanEntriesGo(firstRun: bool, base: string, es: seq<Entry>, s: Scan, s1: Scan)
    requires es != [] && EntryStep(firstRun, base, es[0], s) == Go(s1)
    ensures ScanEntries(firstRun, base, es, s) == ScanEntries(firstRun, base, es[1..], s1)
  {
  }

  /** One already-seen item after a new tweet appends a record with the bound values and marks nothing new. */
  lemma SeenItemReplays(base: string, e: Entry, s: Scan)
    requires Bound(s)
    requires e.link.Href? && ExtractId(e.link.href) in s.seen
    ensures EntryStep(false, base, e, s)
      == Go(s.(out := s.out + [Tweet(ExtractId(e.link.href), s.finalText.value, s.fullLink.value, s.published.value)]))
  {
    var id := ExtractId(e.link.href);
    assert s.seen + {id} == s.seen;
  }

  /**
   * Outside the first run, every already-seen linked item reached after a
   * new tweet is appended again, under its own id but with the text, link
   * and date of the most recent new tweet.
   */
  lemma {:induction false} SeenItemsReplayLastNew(base: string, es: seq<Entry>, s: Scan)
    requires Bound(s)
    requires forall e :: e in es ==> e.link.Href? && ExtractId(e.link.href) in s.seen
    ensures ScanEntries(false, base, es, s)
      == Go(s.(out := s.out + Replays(es, s.finalText.value, s.fullLink.value, s.published.value)))
    decreases |es|
  {
    if es != [] {
      var text, link, published := s.finalText.value, s.fullLink.value, s.published.value;
      assert es[0] in es;
      SeenItemReplays(base, es[0], s);
      var t := Tweet(ExtractId(es[0].link.href), text, link, published);
      var s1 := s.(out := s.out + [t]);
      ScanEntriesGo(false, base, es, s, s1);
      assert forall e :: e in es[1..] ==> e in es;
      SeenItemsReplayLastNew(base, es[1..], s1);
      assert Replays(es, text, link, published) == [t] + Replays(es[1..], text, link, published);
      assert s1.out + Replays(es[1..], text, link, published) == s.out + Replays(es, text, link, published);
    }
  }

  /**
   * Outside the first run a new tweet binds the three locals to its own
   * text, link and date, appends its own record, and is marked seen.
   */
  lemma NewTweetStep(base: string, e: Entry, s: Scan)
    requires e.link.Href? && ExtractId(e.link.href) !in s.seen
    ensures var id := ExtractId(e.link.href);
      var text, link, published := FinalText(e), base + e.link.href, Published(e);
      EntryStep(false, base, e, s)
        == Go(Scan(s.seen + {id}, s.out + [Tweet(id, text, link, published)], Some(text), Some(link), Some(published)))
  {
  }

  /**
   * A new tweet followed by already-seen items: the new tweet's own record,
   * then every seen item again under its own id with that new tweet's text,
   * link and date.
   */
  lemma NewThenSeenReplay(base: string, e: Entry, es: seq<Entry>, s: Scan)
    requires e.link.Href? && ExtractId(e.link.href) !in s.seen
    requires forall x :: x in es ==> x.link.Href? && ExtractId(x.link.href) in s.seen + {ExtractId(e.link.href)}
    ensures var id := ExtractId(e.link.href);
      var text, link, published := FinalText(e), base + e.link.href, Published(e);
      ScanEntries(false, base, [e] + es, s)
        == Go(Scan(s.seen + {id}, s.out + [Tweet(id, text, link, published)] + Replays(es, text, link, published),
                   Some(text), Some(link), Some(published)))
  {
    var id := ExtractId(e.link.href);
    var text, link, published := FinalText(e), base + e.link.href, Published(e);
    var s1 := Scan(s.seen + {id}, s.out + [Tweet(id, text, link, published)], Some(text), Some(link), Some(published));
    NewTweetStep(base, e, s);
    assert ([e] + es)[0] == e && ([e] + es)[1..] == es;
    ScanEntriesGo(false, base, [e] + es, s, s1);
    SeenItemsReplayLastNew(base, es, s1);
  }
}
