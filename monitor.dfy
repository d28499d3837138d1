/**
 * `TwitterMonitor` of src/monitor.py: its constructor (normalised mirror
 * list, loaded seen set, first-run flag) and `fetch_tweets`, with the
 * browser's findings handed in as data and the write to the seen-state file
 * handed back as a result.
 */
module Monitor {
  import opened Wrappers
  import opened StrOrder
  import opened Feed
  import SeenStore

  class TwitterMonitor {
    /** The configured mirror bases, each with its trailing `/` removed. */
    const instances: seq<string>
    /** True iff the seen-state file gave no ids when the monitor was built; never changed afterwards. */
    const isFirstRun: bool
    /** `processed_tweets` */
    var processedTweets: set<string>

    constructor (configured: seq<string>, stored: SeenStore.StoredFile)
      ensures |instances| == |configured|
      ensures forall i :: 0 <= i < |configured| ==> instances[i] == NormalizeBase(configured[i])
      ensures processedTweets == Elems(SeenStore.Load(stored))
      ensures isFirstRun <==> SeenStore.Load(stored) == []
    {
      instances := seq(|configured|, i requires 0 <= i < |configured| => NormalizeBase(configured[i]));
      var loadedIds := SeenStore.Load(stored);
      processedTweets := Elems(loadedIds);
      isFirstRun := |loadedIds| == 0;
    }

    /**
     * `fetch_tweets()`. `shuffled` is the order `random.shuffle` chose and
     * `fetched[i]` what mirror `shuffled[i]` rendered. Returns `new_tweets`
     * and the list given to `save_processed_tweets`, if it was called.
     */
    method FetchTweets(shuffled: seq<string>, fetched: seq<Mirror>)
      returns (tweets: seq<Tweet>, written: Option<seq<string>>)
      requires multiset(shuffled) == multiset(instances)
      requires |fetched| == |shuffled|
      modifies this
      ensures var o := Fetch(isFirstRun, old(processedTweets), shuffled, fetched);
        tweets == o.scan.out && processedTweets == o.scan.seen && written == Written(isFirstRun, o)
    {
      tweets := [];
      written := None;
      var finalText: Option<string> := None;
      var fullLink: Option<string> := None;
      var published: Option<string> := None;
      var i := 0;
      while i < |shuffled|
        invariant 0 <= i <= |shuffled|
        invariant written == None
        invariant Fetch(isFirstRun, old(processedTweets), shuffled, fetched)
          == Shift(TryMirrors(isFirstRun, shuffled[i..], fetched[i..],
                              Scan(processedTweets, tweets, finalText, fullLink, published)), i)
      {
        var instance := shuffled[i];
        assert shuffled[i..][1..] == shuffled[i + 1..] && fetched[i..][1..] == fetched[i + 1..];
        if fetched[i].Fail? || fetched[i].items == [] {
          // navigation failed, or "No timeline items found": next mirror
          TryMirrorsNext(isFirstRun, shuffled[i..], fetched[i..],
                         Scan(processedTweets, tweets, finalText, fullLink, published),
                         Scan(processedTweets, tweets, finalText, fullLink, published), i);
          i := i + 1;
          continue;
        }
        ghost var before := Scan(processedTweets, tweets, finalText, fullLink, published);
        var raised;
        raised, tweets, finalText, fullLink, published :=
          ScanWindow(instance, Window(fetched[i].items), tweets, finalText, fullLink, published);
        if raised {
          TryMirrorsNext(isFirstRun, shuffled[i..], fetched[i..], before,
                         Scan(processedTweets, tweets, finalText, fullLink, published), i);
          i := i + 1;
          continue;
        }
        if tweets != [] || isFirstRun {
          var listing := ListOf(processedTweets);
          written := Some(SeenStore.SavedIds(listing));
        }
        break;
      }
    }

    /** The item loop over `timeline_items[:10]`, stopping at the first exception. */
    method ScanWindow(instance: string, window: seq<Entry>, tweets0: seq<Tweet>,
                      finalText0: Option<string>, fullLink0: Option<string>, published0: Option<string>)
      returns (raised: bool, tweets: seq<Tweet>,
               finalText: Option<string>, fullLink: Option<string>, published: Option<string>)
      modifies this
      ensures var before := Scan(old(processedTweets), tweets0, finalText0, fullLink0, published0);
        var after := Scan(processedTweets, tweets, finalText, fullLink, published);
        ScanEntries(isFirstRun, instance, window, before) == if raised then Raise(after) else Go(after)
    {
      tweets, finalText, fullLink, published := tweets0, finalText0, fullLink0, published0;
      ghost var before := Scan(processedTweets, tweets, finalText, fullLink, published);
      raised := false;
      var j := 0;
      while j < |window|
        invariant 0 <= j <= |window|
        invariant ScanEntries(isFirstRun, instance, window, before)
          == ScanEntries(isFirstRun, instance, window[j..],
                         Scan(processedTweets, tweets, finalText, fullLink, published))
      {
        var e := window[j];
        assert window[j..][0] == e && window[j..][1..] == window[j + 1..];
        raised, tweets, finalText, fullLink, published :=
          ProcessItem(instance, e, tweets, finalText, fullLink, published);
        if raised {
          return;
        }
        j := j + 1;
      }
    }

    /**
     * One pass of the item loop (src/monitor.py:54-155) over the locals of
     * `fetch_tweets`; `raised` reports the exception that ends the mirror.
     */
    method ProcessItem(instance: string, e: Entry, tweets0: seq<Tweet>,
                       finalText0: Option<string>, fullLink0: Option<string>, published0: Option<string>)
      returns (raised: bool, tweets: seq<Tweet>,
               finalText: Option<string>, fullLink: Option<string>, published: Option<string>)
      modifies this
      ensures var before := Scan(old(processedTweets), tweets0, finalText0, fullLink0, published0);
        var after := Scan(processedTweets, tweets, finalText, fullLink, published);
        EntryStep(isFirstRun, instance, e, before) == if raised then Raise(after) else Go(after)
    {
      tweets, finalText, fullLink, published := tweets0, finalText0, fullLink0, published0;
      raised := false;
      match e.link {
        case NoLink =>
          return;
        case NoHref =>
          raised := true;
          return;
        case Href(href) =>
          var tweetId := ExtractId(href);
          if tweetId !in processedTweets {
            if isFirstRun {
              processedTweets := processedTweets + {tweetId};
              return;
            }
            fullLink := Some(instance + href);
            published := Some(Published(e));
            finalText := Some(FinalText(e));
          }
          if finalText.None? || fullLink.None? || published.None? {
            // reading a local that was never bound raises
            raised := true;
            return;
          }
          tweets := tweets + [Tweet(tweetId, finalText.value, fullLink.value, published.value)];
          processedTweets := processedTweets + {tweetId};
      }
    }
  }

  /** `list(s)`: the elements of a set in some order. */
  method ListOf(s: set<string>) returns (xs: seq<string>)
    ensures Elems(xs) == s
  {
    xs := [];
    var rest := s;
    while rest != {}
      invariant Elems(xs) + rest == s
      invariant Elems(xs) !! rest
      decreases |rest|
    {
      var x :| x in rest;
      xs := xs + [x];
      rest := rest - {x};
    }
  }
}
