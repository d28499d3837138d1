/**
 * `fetch_tweets` as its comments and the name `new_tweets` describe it, with
 * the two defects of the code as written removed: a record is appended (and
 * its id marked seen) only for a tweet that is new outside the first run,
 * from that tweet's own item; and the first-run flag is cleared once a pass
 * completes. Everything else (window, failover, no rollback, save rule) is as
 * in module Feed.
 */
module FeedIntended {
  import opened Wrappers
  import opened Feed

  /** What a monitor carries from one cycle to the next. */
  datatype MonitorState = MonitorState(seen: set<string>, firstRun: bool)

  /** `processed_tweets` and `new_tweets` during a cycle. */
  datatype Pass = Pass(seen: set<string>, out: seq<Tweet>)

  /** Processing items either goes on or stops at an exception. */
  datatype Step = Next(pass: Pass) | Stop(pass: Pass)

  /** The record a new tweet gets from its own item. */
  function TweetOf(base: string, e: Entry): (t: Tweet)
    requires e.link.Href?
    ensures t.id == ExtractId(e.link.href) && t.link == base + e.link.href
    ensures t.text == FinalText(e) && t.published == Published(e)
  {
    Tweet(ExtractId(e.link.href), FinalText(e), base + e.link.href, Published(e))
  }

  /** The item loop with the append inside the new-tweet block. */
  function ScanFixed(firstRun: bool, base: string, es: seq<Entry>, p: Pass): Step
    decreases |es|
  {
    if es == [] then Next(p)
    else
      match es[0].link
      case NoLink => ScanFixed(firstRun, base, es[1..], p)
      case NoHref => Stop(p)
      case Href(h) =>
        var id := ExtractId(h);
        if id in p.seen then ScanFixed(firstRun, base, es[1..], p)
        else if firstRun then ScanFixed(firstRun, base, es[1..], p.(seen := p.seen + {id}))
        else ScanFixed(firstRun, base, es[1..], Pass(p.seen + {id}, p.out + [TweetOf(base, es[0])]))
  }

  /** One mirror: `Next` when its pass completed. */
  function MirrorFixed(firstRun: bool, base: string, m: Mirror, p: Pass): Step {
    match m
    case Fail => Stop(p)
    case Items(es) => if es == [] then Stop(p) else ScanFixed(firstRun, base, Window(es), p)
  }

  /** The mirror walk; `completed` when some mirror's pass completed. */
  datatype Walk = Walk(pass: Pass, completed: bool)

  function WalkFixed(firstRun: bool, bases: seq<string>, mirrors: seq<Mirror>, p: Pass): Walk
    requires |bases| == |mirrors|
    decreases |bases|
  {
    if bases == [] then Walk(p, false)
    else
      match MirrorFixed(firstRun, bases[0], mirrors[0], p)
      case Next(p1) => Walk(p1, true)
      case Stop(p1) => WalkFixed(firstRun, bases[1..], mirrors[1..], p1)
  }

  /** One cycle: the records reported, the state afterwards, and the set saved, if any. */
  datatype Cycle = Cycle(tweets: seq<Tweet>, after: MonitorState, saved: Option<set<string>>)

  function CycleFixed(st: MonitorState, bases: seq<string>, mirrors: seq<Mirror>): (c: Cycle)
    requires |bases| == |mirrors|
    ensures c.after.firstRun == (st.firstRun && c.after.firstRun)
  {
    var w := WalkFixed(st.firstRun, bases, mirrors, Pass(st.seen, []));
    Cycle(
      w.pass.out,
      MonitorState(w.pass.seen, st.firstRun && !w.completed),
      if w.completed && (w.pass.out != [] || st.firstRun) then Some(w.pass.seen) else None)
  }

  // ---------------------------------------------------------------------
  // What the corrected pass guarantees

  /** `out` extends `p.out` by records of distinct ids that were not seen before and are seen now. */
  ghost predicate FreshExtension(p: Pass, q: Pass) {
    && p.seen <= q.seen
    && |p.out| <= |q.out| && q.out[..|p.out|] == p.out
    && (forall k :: |p.out| <= k < |q.out| ==> q.out[k].id !in p.seen && q.out[k].id in q.seen)
    && (forall i, j :: |p.out| <= i < j < |q.out| ==> q.out[i].id != q.out[j].id)
  }

  lemma {:induction false} ScanFixedFresh(firstRun: bool, base: string, es: seq<Entry>, p: Pass)
    ensures FreshExtension(p, ScanFixed(firstRun, base, es, p).pass)
    decreases |es|
  {
    if es != [] {
      match es[0].link
      case NoLink => ScanFixedFresh(firstRun, base, es[1..], p);
      case NoHref =>
      case Href(h) =>
        var id := ExtractId(h);
        if id in p.seen {
          ScanFixedFresh(firstRun, base, es[1..], p);
        } else if firstRun {
          var p1 := p.(seen := p.seen + {id});
          ScanFixedFresh(firstRun, base, es[1..], p1);
          FreshAfterMark(p, id, ScanFixed(firstRun, base, es[1..], p1).pass);
        } else {
          var t := TweetOf(base, es[0]);
          var p1 := Pass(p.seen + {id}, p.out + [t]);
          ScanFixedFresh(firstRun, base, es[1..], p1);
          FreshAfterRecord(p, t, ScanFixed(firstRun, base, es[1..], p1).pass);
        }
    }
  }

  /** Marking an id as seen before an extension keeps it an extension of the earlier pass. */
  lemma FreshAfterMark(p: Pass, id: string, q: Pass)
    requires FreshExtension(p.(seen := p.seen + {id}), q)
    ensures FreshExtension(p, q)
  {
  }

  /** Reporting a fresh record before an extension keeps it an extension of the earlier pass. */
  lemma FreshAfterRecord(p: Pass, t: Tweet, q: Pass)
    requires t.id !in p.seen
    requires FreshExtension(Pass(p.seen + {t.id}, p.out + [t]), q)
    ensures FreshExtension(p, q)
  {
    var n := |p.out|;
    assert q.out[..n + 1][..n] == q.out[..n];
    assert q.out[n] == t;
    forall i, j | n <= i < j < |q.out| ensures q.out[i].id != q.out[j].id {
      if i == n {
        assert q.out[j].id !in p.seen + {t.id};
      }
    }
  }

  /** `t` is the record of one of the linked items `es`. */
  ghost predicate FromItem(base: string, es: seq<Entry>, t: Tweet) {
    exists e :: e in es && e.link.Href? && t == TweetOf(base, e)
  }

  lemma FromItemOfTail(base: string, es: seq<Entry>, t: Tweet)
    requires es != [] && FromItem(base, es[1..], t)
    ensures FromItem(base, es, t)
  {
    var e :| e in es[1..] && e.link.Href? && t == TweetOf(base, e);
    assert e in es;
  }

  /** Every record of a corrected pass is built from its own item. */
  lemma {:induction false} ScanFixedOwnItem(firstRun: bool, base: string, es: seq<Entry>, p: Pass)
    ensures var q := ScanFixed(firstRun, base, es, p).pass;
      |p.out| <= |q.out| && forall k :: |p.out| <= k < |q.out| ==> FromItem(base, es, q.out[k])
    decreases |es|
  {
    if es != [] && !es[0].link.NoHref? {
      var q := ScanFixed(firstRun, base, es, p).pass;
      var p1 := match es[0].link
        case Href(h) =>
          (if ExtractId(h) in p.seen then p
           else if firstRun then p.(seen := p.seen + {ExtractId(h)})
           else Pass(p.seen + {ExtractId(h)}, p.out + [TweetOf(base, es[0])]))
        case _ => p;
      assert ScanFixed(firstRun, base, es, p) == ScanFixed(firstRun, base, es[1..], p1);
      ScanFixedOwnItem(firstRun, base, es[1..], p1);
      ScanFixedFresh(firstRun, base, es[1..], p1);
      forall k | |p.out| <= k < |q.out|
        ensures FromItem(base, es, q.out[k])
      {
        if k < |p1.out| {
          assert q.out[k] == p1.out[k] == TweetOf(base, es[0]);
        } else {
          FromItemOfTail(base, es, q.out[k]);
        }
      }
    }
  }

  /** A completed corrected pass outside the first run reports every new linked item of the window. */
  lemma {:induction false} ScanFixedComplete(base: string, es: seq<Entry>, p: Pass)
    requires ScanFixed(false, base, es, p).Next?
    ensures var q := ScanFixed(false, base, es, p).pass;
      forall e :: e in es && e.link.Href? && ExtractId(e.link.href) !in p.seen ==>
        exists k :: |p.out| <= k < |q.out| && q.out[k].id == ExtractId(e.link.href)
    decreases |es|
  {
    if es != [] {
      var q := ScanFixed(false, base, es, p).pass;
      match es[0].link
      case NoLink =>
        ScanFixedComplete(base, es[1..], p);
        assert forall e :: e in es && e != es[0] ==> e in es[1..];
      case Href(h) =>
        var id := ExtractId(h);
        var p1 := if id in p.seen then p else Pass(p.seen + {id}, p.out + [TweetOf(base, es[0])]);
        assert ScanFixed(false, base, es, p) == ScanFixed(false, base, es[1..], p1);
        ScanFixedComplete(base, es[1..], p1);
        ScanFixedFresh(false, base, es[1..], p1);
        forall e | e in es && e.link.Href? && ExtractId(e.link.href) !in p.seen
          ensures exists k :: |p.out| <= k < |q.out| && q.out[k].id == ExtractId(e.link.href)
        {
          if ExtractId(e.link.href) == id {
            assert q.out[|p.out|] == p1.out[|p.out|];
          } else {
            assert e in es[1..];
            var k :| |p1.out| <= k < |q.out| && q.out[k].id == ExtractId(e.link.href);
          }
        }
    }
  }

  lemma {:induction false} ScanFixedFirstRunSilent(base: string, es: seq<Entry>, p: Pass)
    ensures ScanFixed(true, base, es, p).pass.out == p.out
    decreases |es|
  {
    if es != [] {
      match es[0].link
      case NoLink => ScanFixedFirstRunSilent(base, es[1..], p);
      case NoHref =>
      case Href(h) =>
        var id := ExtractId(h);
        if id in p.seen {
          ScanFixedFirstRunSilent(base, es[1..], p);
        } else {
          ScanFixedFirstRunSilent(base, es[1..], p.(seen := p.seen + {id}));
        }
    }
  }

  lemma {:induction false} WalkFixedFresh(firstRun: bool, bases: seq<string>, mirrors: seq<Mirror>, p: Pass)
    requires |bases| == |mirrors|
    ensures FreshExtension(p, WalkFixed(firstRun, bases, mirrors, p).pass)
    ensures firstRun ==> WalkFixed(firstRun, bases, mirrors, p).pass.out == p.out
    decreases |bases|
  {
    if bases != [] {
      var m := mirrors[0];
      if m.Items? && m.items != [] {
        ScanFixedFresh(firstRun, bases[0], Window(m.items), p);
        if firstRun {
          ScanFixedFirstRunSilent(bases[0], Window(m.items), p);
        }
      }
      var s := MirrorFixed(firstRun, bases[0], m, p);
      if s.Stop? {
        WalkFixedFresh(firstRun, bases[1..], mirrors[1..], s.pass);
        FreshTransitive(p, s.pass, WalkFixed(firstRun, bases[1..], mirrors[1..], s.pass).pass);
      }
    }
  }

  /** An extension of an extension is an extension. */
  lemma FreshTransitive(p: Pass, r: Pass, q: Pass)
    requires FreshExtension(p, r) && FreshExtension(r, q)
    ensures FreshExtension(p, q)
  {
    assert q.out[..|p.out|] == q.out[..|r.out|][..|p.out|];
    forall k | |p.out| <= k < |r.out| ensures q.out[k] == r.out[k] {
      assert q.out[..|r.out|][k] == q.out[k];
    }
  }

  /**
   * A corrected cycle never reports a tweet that was already seen, reports
   * each id at most once, reports nothing during the first run, and ends
   * the first run once some mirror's pass completes.
   */
  lemma CycleFixedFresh(st: MonitorState, bases: seq<string>, mirrors: seq<Mirror>)
    requires |bases| == |mirrors|
    ensures var c := CycleFixed(st, bases, mirrors);
      && st.seen <= c.after.seen
      && (forall t :: t in c.tweets ==> t.id !in st.seen && t.id in c.after.seen)
      && (forall i, j :: 0 <= i < j < |c.tweets| ==> c.tweets[i].id != c.tweets[j].id)
      && (st.firstRun ==> c.tweets == [])
      && (c.saved.Some? ==> !c.after.firstRun && c.saved.value == c.after.seen)
  {
    WalkFixedFresh(st.firstRun, bases, mirrors, Pass(st.seen, []));
  }

  /** `t` is the record of a linked item in the window of one of the mirrors. */
  ghost predicate FromSomeMirror(bases: seq<string>, mirrors: seq<Mirror>, t: Tweet)
    requires |bases| == |mirrors|
  {
    exists k :: 0 <= k < |mirrors| && mirrors[k].Items? && FromItem(bases[k], Window(mirrors[k].items), t)
  }

  lemma {:induction false} WalkFixedOwnItem(firstRun: bool, bases: seq<string>, mirrors: seq<Mirror>, p: Pass)
    requires |bases| == |mirrors|
    ensures var q := WalkFixed(firstRun, bases, mirrors, p).pass;
      |p.out| <= |q.out| && forall k :: |p.out| <= k < |q.out| ==> FromSomeMirror(bases, mirrors, q.out[k])
    decreases |bases|
  {
    if bases != [] {
      var q := WalkFixed(firstRun, bases, mirrors, p).pass;
      var m := mirrors[0];
      var s := MirrorFixed(firstRun, bases[0], m, p);
      if m.Items? && m.items != [] {
        ScanFixedOwnItem(firstRun, bases[0], Window(m.items), p);
        ScanFixedFresh(firstRun, bases[0], Window(m.items), p);
      }
      if s.Stop? {
        WalkFixedOwnItem(firstRun, bases[1..], mirrors[1..], s.pass);
        WalkFixedFresh(firstRun, bases[1..], mirrors[1..], s.pass);
      }
      forall k | |p.out| <= k < |q.out| ensures FromSomeMirror(bases, mirrors, q.out[k]) {
        if k < |s.pass.out| {
          assert q.out[k] == s.pass.out[k];
          assert FromItem(bases[0], Window(m.items), q.out[k]);
        } else {
          var k' :| 0 <= k' < |mirrors[1..]| && mirrors[1..][k'].Items?
            && FromItem(bases[1..][k'], Window(mirrors[1..][k'].items), q.out[k]);
          assert mirrors[k' + 1] == mirrors[1..][k'] && bases[k' + 1] == bases[1..][k'];
        }
      }
    }
  }

  /** Every record a corrected cycle reports is built from a linked item one of the mirrors rendered. */
  lemma CycleFixedOwnItem(st: MonitorState, bases: seq<string>, mirrors: seq<Mirror>)
    requires |bases| == |mirrors|
    ensures forall t :: t in CycleFixed(st, bases, mirrors).tweets ==> FromSomeMirror(bases, mirrors, t)
  {
    WalkFixedOwnItem(st.firstRun, bases, mirrors, Pass(st.seen, []));
  }
}
