/**
 * The pure parts of src/monitor.py and the behaviour of
 * `TwitterMonitor.fetch_tweets` as written, stated as functions over the
 * timeline data that the browser would have produced.
 *
 * An exception raised while a mirror is processed (a missing `href`, or the
 * append reading a local that was never bound) ends that mirror's pass; the
 * state changed so far stays changed and the next mirror is tried.
 */
module Feed {
  import opened Wrappers
  import opened PyStr
  import SeenStore

  /** Path appended to a mirror base by `get_profile_url`. */
  const ProfilePath: string := "/elonmusk"
  /** Only the first this-many timeline items of a mirror are examined. */
  const WindowSize: nat := 10
  const ContextLabel: string := "Context (Parent Tweet): "
  const ReplyLabel: string := "\n\nReplying: "
  /** `published` when the entry has no `.tweet-date a` element. */
  const UnknownTime: string := "Unknown time"

  // ---------------------------------------------------------------------
  // Mirror URLs

  /** `url.rstrip('/')`, applied to every configured mirror. */
  function NormalizeBase(url: string): (base: string)
    ensures |base| <= |url| && base == url[..|base|]
    ensures forall k :: |base| <= k < |url| ==> url[k] == '/'
    ensures base == [] || base[|base| - 1] != '/'
  {
    TrimEndChar(url, '/')
  }

  lemma NormalizeBaseIdempotent(url: string)
    ensures NormalizeBase(NormalizeBase(url)) == NormalizeBase(url)
  {
  }

  /** `get_profile_url(instance)` */
  function ProfileUrl(instance: string): (url: string)
    ensures EndsWith(url, ProfilePath) && |url| == |instance| + |ProfilePath| && url[..|instance|] == instance
  {
    instance + ProfilePath
  }

  /** For a normalised base the profile path follows it with exactly one `/`. */
  lemma ProfileUrlOfNormalized(configured: string)
    ensures var base := NormalizeBase(configured);
      var url := ProfileUrl(base);
      |url| == |base| + |ProfilePath| && url[|base|..] == ProfilePath &&
      (|base| > 0 ==> url[|base| - 1] != '/')
  {
  }

  // ---------------------------------------------------------------------
  // Tweet ids

  /** `href.split('/')[-1].split('#')[0]` */
  function ExtractId(href: string): (id: string)
    ensures '/' !in id && '#' !in id
  {
    AfterLastSpec(href, '/');
    BeforeFirstSpec(AfterLast(href, '/'), '#');
    BeforeFirst(AfterLast(href, '/'), '#')
  }

  /**
   * `id` sits in `href` right after its last `/` (or at the start) and runs
   * up to the first `#` after that point (or the end).
   */
  ghost predicate IsIdOf(href: string, id: string) {
    exists i, j :: 0 <= i <= j <= |href| && href[i..j] == id && IdBounds(href, i, j)
  }

  ghost predicate IdBounds(href: string, i: int, j: int)
    requires 0 <= i <= j <= |href|
  {
    && (i == 0 || href[i - 1] == '/')
    && (forall k :: i <= k < |href| ==> href[k] != '/')
    && (forall k :: i <= k < j ==> href[k] != '#')
    && (j == |href| || href[j] == '#')
  }

  /** The id extraction is exactly the one described by `IsIdOf`. */
  lemma ExtractIdCharacterized(href: string, id: string)
    ensures IsIdOf(href, id) <==> id == ExtractId(href)
  {
    var i := |href| - |AfterLast(href, '/')|;
    var j := i + |ExtractId(href)|;
    ExtractIdBounds(href);
    if IsIdOf(href, id) {
      var i', j' :| 0 <= i' <= j' <= |href| && href[i'..j'] == id && IdBounds(href, i', j');
      IdBoundsUnique(href, i, j, i', j');
    }
  }

  /** The extracted id sits at the bounds `IdBounds` describes. */
  lemma ExtractIdBounds(href: string)
    ensures var i := |href| - |AfterLast(href, '/')|; var j := i + |ExtractId(href)|;
      0 <= i <= j <= |href| && href[i..j] == ExtractId(href) && IdBounds(href, i, j)
  {
    var seg := AfterLast(href, '/');
    AfterLastSpec(href, '/');
    BeforeFirstSpec(seg, '#');
    var i := |href| - |seg|;
    var r := ExtractId(href);
    var j := i + |r|;
    assert seg == href[i..];
    assert r == seg[..|r|];
    assert href[i..j] == r;
    forall k | i <= k < |href| ensures href[k] != '/' {
      assert href[k] == seg[k - i];
    }
    forall k | i <= k < j ensures href[k] != '#' {
      assert href[k] == r[k - i];
    }
    if j < |href| {
      assert href[j] == seg[|r|];
    }
  }

  /** At most one pair of positions meets `IdBounds`. */
  lemma IdBoundsUnique(href: string, i: int, j: int, i': int, j': int)
    requires 0 <= i <= j <= |href| && IdBounds(href, i, j)
    requires 0 <= i' <= j' <= |href| && IdBounds(href, i', j')
    ensures i == i' && j == j'
  {
  }

  /** The `href` of a Nitter status link: `/elonmusk/status/<n>#m`. */
  function StatusHref(n: string): (h: string)
    ensures StartsWith(h, ProfilePath) && EndsWith(h, "#m")
  {
    ProfilePath + "/status/" + n + "#m"
  }

  /** A status link yields its status number as the tweet id. */
  lemma StatusHrefId(n: string)
    requires '/' !in n && '#' !in n
    ensures ExtractId(StatusHref(n)) == n
  {
    var h := StatusHref(n);
    var i := |ProfilePath + "/status/"|;
    var j := i + |n|;
    assert h[i..j] == n;
    assert h[i - 1] == '/';
    assert h[j] == '#';
    forall k | i <= k < |h| ensures h[k] != '/' {
      if k < j {
        assert h[k] == n[k - i];
      } else {
        assert h[k] in "#m";
      }
    }
    assert IdBounds(h, i, j);
    ExtractIdCharacterized(h, n);
  }

  // ---------------------------------------------------------------------
  // Timeline data

  /** The `a.tweet-link` element of a timeline item. */
  datatype Link =
    | NoLink               // the item has no `a.tweet-link`: skipped
    | NoHref               // the element has no `href`: `None.split` raises
    | Href(href: string)

  /** What the detail-page lookup of a reply's parent came back with. */
  datatype ParentContext =
    | ContextFailed        // navigation or evaluation raised; logged and swallowed
    | NoParent             // the page script returned `null`
    | ParentText(text: string)

  /** One rendered timeline item, as far as `fetch_tweets` reads it. */
  datatype Entry = Entry(
    link: Link,
    text: string,          // inner text of `.tweet-content`, `""` without one
    date: Option<string>,  // `title` of `.tweet-date a`, `None` without the element
    isReply: bool,         // a `.replying-to` element is present
    parent: ParentContext) // consulted only for replies

  /** One mirror's timeline page: navigation failed, or the items it rendered. */
  datatype Mirror = Fail | Items(items: seq<Entry>)

  /** One record of `new_tweets`. */
  datatype Tweet = Tweet(id: string, text: string, link: string, published: string)

  /** The parent context is found and non-empty (`if parent_text:`). */
  predicate HasParent(e: Entry) {
    e.isReply && e.parent.ParentText? && e.parent.text != []
  }

  /** `final_text`: the reply composed with its parent's text, or the entry's own text. */
  function FinalText(e: Entry): (r: string)
    ensures EndsWith(r, e.text)
    ensures r == e.text <==> !HasParent(e)
    ensures HasParent(e) ==>
      StartsWith(r, ContextLabel) && |r| == |ContextLabel| + |e.parent.text| + |ReplyLabel| + |e.text| &&
      r[|ContextLabel|..|ContextLabel| + |e.parent.text|] == e.parent.text &&
      r[|ContextLabel| + |e.parent.text|..|r| - |e.text|] == ReplyLabel
  {
    if HasParent(e) then
      var r := ContextLabel + e.parent.text + ReplyLabel + e.text;
      assert r[|ContextLabel|..|ContextLabel| + |e.parent.text|] == e.parent.text;
      assert r[|ContextLabel| + |e.parent.text|..|r| - |e.text|] == ReplyLabel;
      r
    else e.text
  }

  /** `published` */
  function Published(e: Entry): (p: string)
    ensures e.date.Some? ==> p == e.date.value
    ensures e.date.None? ==> p == UnknownTime
  {
    e.date.GetOr(UnknownTime)
  }

  // ---------------------------------------------------------------------
  // fetch_tweets, as written

  /**
   * The state `fetch_tweets` carries through its loops: `processed_tweets`,
   * `new_tweets`, and the three locals bound only for a new tweet outside the
   * first run (`None` until bound; once bound they keep their value, also
   * across mirrors).
   */
  datatype Scan = Scan(
    seen: set<string>,
    out: seq<Tweet>,
    finalText: Option<string>,
    fullLink: Option<string>,
    published: Option<string>)

  /** The state at the start of `fetch_tweets`. */
  function Start(seen: set<string>): (s: Scan)
    ensures s.seen == seen && s.out == []
    ensures s.finalText.None? && s.fullLink.None? && s.published.None?
  {
    Scan(seen, [], None, None, None)
  }

  /** The three locals the append reads are all bound. */
  predicate Bound(s: Scan) {
    s.finalText.Some? && s.fullLink.Some? && s.published.Some?
  }

  /** Processing one item either goes on or raises. */
  datatype Progress = Go(scan: Scan) | Raise(scan: Scan)

  /** The body of the item loop (src/monitor.py:54-155) for one item. */
  function EntryStep(firstRun: bool, base: string, e: Entry, s: Scan): Progress {
    match e.link
    case NoLink => Go(s)
    case NoHref => Raise(s)
    case Href(h) =>
      var id := ExtractId(h);
      if id !in s.seen && firstRun then
        Go(s.(seen := s.seen + {id}))
      else
        var s1 :=
          if id !in s.seen
          then s.(finalText := Some(FinalText(e)), fullLink := Some(base + h), published := Some(Published(e)))
          else s;
        if !Bound(s1) then Raise(s1)
        else
          var t := Tweet(id, s1.finalText.value, s1.fullLink.value, s1.published.value);
          Go(s1.(out := s1.out + [t], seen := s1.seen + {id}))
  }

  /** The item loop over `items`, stopping at the first exception. */
  function ScanEntries(firstRun: bool, base: string, es: seq<Entry>, s: Scan): Progress
    decreases |es|
  {
    if es == [] then Go(s)
    else
      match EntryStep(firstRun, base, es[0], s)
      case Raise(s1) => Raise(s1)
      case Go(s1) => ScanEntries(firstRun, base, es[1..], s1)
  }

  /** `timeline_items[:10]` */
  function Window(es: seq<Entry>): (w: seq<Entry>)
    ensures |w| <= WindowSize && |w| <= |es| && w == es[..|w|]
    ensures |es| >= WindowSize ==> |w| == WindowSize
    ensures |es| < WindowSize ==> w == es
  {
    if |es| > WindowSize then es[..WindowSize] else es
  }

  /** One iteration of the mirror loop: `Go` when this mirror's pass completed and the walk stops. */
  function MirrorStep(firstRun: bool, base: string, m: Mirror, s: Scan): Progress {
    match m
    case Fail => Raise(s)
    case Items(es) =>
      if es == [] then Raise(s)       // "No timeline items found": continue
      else ScanEntries(firstRun, base, Window(es), s)
  }

  /** The final state, and the position of the mirror whose pass completed, if any. */
  datatype Outcome = Outcome(scan: Scan, winner: Option<nat>)

  /** The outcome of a walk that started `k` mirrors later. */
  function Shift(o: Outcome, k: nat): (r: Outcome)
    ensures r.scan == o.scan && r.winner.Some? == o.winner.Some?
    ensures o.winner.Some? ==> r.winner.value == o.winner.value + k
  {
    Outcome(o.scan, if o.winner.Some? then Some(o.winner.value + k) else None)
  }

  /** The mirror loop over the shuffled bases and what each mirror rendered. */
  function TryMirrors(firstRun: bool, bases: seq<string>, mirrors: seq<Mirror>, s: Scan): (o: Outcome)
    requires |bases| == |mirrors|
    ensures o.winner.Some? ==> o.winner.value < |mirrors|
    decreases |bases|
  {
    if bases == [] then Outcome(s, None)
    else
      match MirrorStep(firstRun, bases[0], mirrors[0], s)
      case Go(s1) => Outcome(s1, Some(0))
      case Raise(s1) =>
        Shift(TryMirrors(firstRun, bases[1..], mirrors[1..], s1), 1)
  }

  /** A mirror whose pass did not complete hands its state on to the rest of the walk. */
  lemma TryMirrorsNext(firstRun: bool, bases: seq<string>, mirrors: seq<Mirror>, s: Scan, s1: Scan, k: nat)
    requires |bases| == |mirrors| > 0
    requires MirrorStep(firstRun, bases[0], mirrors[0], s) == Raise(s1)
    ensures Shift(TryMirrors(firstRun, bases, mirrors, s), k)
      == Shift(TryMirrors(firstRun, bases[1..], mirrors[1..], s1), k + 1)
  {
    TryMirrorsUnfold(firstRun, bases, mirrors, s, s1);
    ShiftTwice(TryMirrors(firstRun, bases[1..], mirrors[1..], s1), k);
  }

  lemma TryMirrorsUnfold(firstRun: bool, bases: seq<string>, mirrors: seq<Mirror>, s: Scan, s1: Scan)
    requires |bases| == |mirrors| > 0
    requires MirrorStep(firstRun, bases[0], mirrors[0], s) == Raise(s1)
    ensures TryMirrors(firstRun, bases, mirrors, s) == Shift(TryMirrors(firstRun, bases[1..], mirrors[1..], s1), 1)
  {
  }

  lemma ShiftTwice(o: Outcome, k: nat)
    ensures Shift(Shift(o, 1), k) == Shift(o, k + 1)
  {
  }

  /** `fetch_tweets()` from the seen set it starts with. */
  function Fetch(firstRun: bool, seen: set<string>, bases: seq<string>, mirrors: seq<Mirror>): Outcome
    requires |bases| == |mirrors|
  {
    TryMirrors(firstRun, bases, mirrors, Start(seen))
  }

  /** Saving happens only after a completed pass, and only when something was emitted or on the first run. */
  predicate Saves(firstRun: bool, o: Outcome) {
    o.winner.Some? && (o.scan.out != [] || firstRun)
  }

  /** The list `fetch_tweets` hands to `save_processed_tweets`, if it saves. */
  ghost function Written(firstRun: bool, o: Outcome): (w: Option<seq<string>>)
    ensures w.Some? <==> Saves(firstRun, o)
  {
    if Saves(firstRun, o) then Some(SeenStore.SavedForSet(o.scan.seen)) else None
  }
}
