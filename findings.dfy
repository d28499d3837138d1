/**
 * Two timelines that show where `fetch_tweets` as written departs from what
 * its seen set is for, each next to what the corrected cycle of module
 * FeedIntended does with the same input.
 */
module Findings {
  import opened Wrappers
  import opened Feed
  import opened FeedIntended

  const Base: string := "https://nitter.example"
  /** A tweet the monitor has not seen yet. */
  const NewItem: Entry := Entry(Href(StatusHref("2")), "new", Some("d2"), false, NoParent)
  /** A tweet the monitor reported in an earlier cycle. */
  const OldItem: Entry := Entry(Href(StatusHref("1")), "old", Some("d1"), false, NoParent)
  /** The record the new tweet should get. */
  const NewTweet: Tweet := Tweet("2", "new", Base + StatusHref("2"), "d2")

  /**
   * As written, a seen tweet that follows a new one in the same window is
   * appended again, under its own id but with the new tweet's text, link
   * and date.
   */
  lemma SeenTweetReemitted()
    ensures var o := Fetch(false, {"1"}, [Base], [Items([NewItem, OldItem])]);
      o.scan.out == [NewTweet, NewTweet.(id := "1")] && o.winner == Some(0)
  {
    StatusHrefId("1");
    StatusHrefId("2");
    var s0 := Start({"1"});
    var s1 := Scan({"1", "2"}, [NewTweet], Some("new"), Some(Base + StatusHref("2")), Some("d2"));
    var s2 := s1.(out := [NewTweet, NewTweet.(id := "1")]);
    assert EntryStep(false, Base, NewItem, s0) == Go(s1);
    assert EntryStep(false, Base, OldItem, s1) == Go(s2);
    assert [NewItem, OldItem][1..] == [OldItem];
    assert ScanEntries(false, Base, [OldItem], s1) == Go(s2);
    assert ScanEntries(false, Base, [NewItem, OldItem], s0) == Go(s2);
  }

  /** Corrected, the same timeline reports the new tweet alone. */
  lemma SeenTweetReemittedFixed()
    ensures CycleFixed(MonitorState({"1"}, false), [Base], [Items([NewItem, OldItem])])
      == Cycle([NewTweet], MonitorState({"1", "2"}, false), Some({"1", "2"}))
  {
    StatusHrefId("1");
    StatusHrefId("2");
    var p1 := Pass({"1", "2"}, [NewTweet]);
    assert [NewItem, OldItem][1..] == [OldItem];
    assert TweetOf(Base, NewItem) == NewTweet;
    assert [NewItem, OldItem][0] == NewItem && ExtractId(NewItem.link.href) == "2";
    assert Pass({"1"} + {"2"}, [] + [NewTweet]) == p1;
    assert ScanFixed(false, Base, [OldItem], p1) == Next(p1);
    assert ScanFixed(false, Base, [NewItem, OldItem], Pass({"1"}, []))
      == ScanFixed(false, Base, [OldItem], p1);
  }

  /**
   * As written, the first-run flag outlives the first cycle: a later cycle
   * of the same monitor still reports nothing, and a seen tweet in its
   * window makes every mirror fail, so the new tweet is not saved either.
   */
  lemma FirstRunNeverEnds()
    ensures var o := Fetch(true, {"1"}, [Base], [Items([NewItem, OldItem])]);
      o.scan.out == [] && o.winner == None && !Saves(true, o)
  {
    StatusHrefId("1");
    StatusHrefId("2");
    var s0 := Start({"1"});
    var s1 := s0.(seen := {"1", "2"});
    assert EntryStep(true, Base, NewItem, s0) == Go(s1);
    assert EntryStep(true, Base, OldItem, s1) == Raise(s1);
    assert [NewItem, OldItem][1..] == [OldItem];
    assert ScanEntries(true, Base, [NewItem, OldItem], s0) == Raise(s1);
    assert MirrorStep(true, Base, Items([NewItem, OldItem]), s0) == Raise(s1);
    assert [Base][1..] == [] && [Items([NewItem, OldItem])][1..] == [];
    assert TryMirrors(true, [Base], [Items([NewItem, OldItem])], s0) == Shift(TryMirrors(true, [], [], s1), 1);
  }

  /** Corrected, the first cycle records the timeline and ends the first run; the next one reports the new tweet. */
  lemma FirstRunNeverEndsFixed()
    ensures var c1 := CycleFixed(MonitorState({}, true), [Base], [Items([OldItem])]);
      c1 == Cycle([], MonitorState({"1"}, false), Some({"1"})) &&
      CycleFixed(c1.after, [Base], [Items([NewItem, OldItem])]).tweets == [NewTweet]
  {
    StatusHrefId("1");
    StatusHrefId("2");
    assert [OldItem][1..] == [];
    assert ScanFixed(true, Base, [OldItem], Pass({}, [])) == Next(Pass({"1"}, []));
    var p1 := Pass({"1", "2"}, [NewTweet]);
    assert [NewItem, OldItem][1..] == [OldItem];
    assert TweetOf(Base, NewItem) == NewTweet;
    assert [NewItem, OldItem][0] == NewItem && ExtractId(NewItem.link.href) == "2";
    assert Pass({"1"} + {"2"}, [] + [NewTweet]) == p1;
    assert ScanFixed(false, Base, [OldItem], p1) == Next(p1);
    assert ScanFixed(false, Base, [NewItem, OldItem], Pass({"1"}, []))
      == ScanFixed(false, Base, [OldItem], p1);
  }
}
