/**
 * The seen-set store of src/utils.py: the transform `save_processed_tweets`
 * applies before writing (distinct, sorted, the last 1000 kept) and the
 * fallbacks of `load_processed_tweets`. The file itself is a value of
 * `StoredFile`; reading and writing it are the I/O boundary.
 */
module SeenStore {
  import opened StrOrder

  /** At most this many ids are kept on disk. */
  const Cap: nat := 1000

  /** What the seen-state file holds when `load_processed_tweets` opens it. */
  datatype StoredFile =
    | Missing                      // no file yet
    | Malformed                    // valid UTF-8 text that is not valid JSON
    | Saved(ids: seq<string>)      // a JSON list of string ids

  /** The list `save_processed_tweets(ids)` writes. */
  function SavedIds(ids: seq<string>): (r: seq<string>)
    ensures StrictlySorted(r)
    ensures |r| <= Cap
    ensures forall x :: x in r ==> x in ids
    ensures |Elems(ids)| <= Cap ==> Elems(r) == Elems(ids)
  {
    var u := SortedDistinct(ids);
    StrictlySortedCard(u);
    Keep(u)
  }

  /** `unique_ids[-1000:]` once there are more than 1000 of them. */
  function Keep(u: seq<string>): (r: seq<string>)
    requires StrictlySorted(u)
    ensures StrictlySorted(r)
    ensures |r| <= Cap
    ensures |u| <= Cap ==> r == u
    ensures |u| > Cap ==> r == u[|u| - Cap..]
  {
    if |u| > Cap then u[|u| - Cap..] else u
  }

  /** Truncation evicts the smallest ids: every dropped id is below every kept one. */
  lemma {:induction false} DroppedBelowKept(ids: seq<string>, x: string, k: string)
    requires x in ids && x !in SavedIds(ids)
    requires k in SavedIds(ids)
    ensures Less(x, k)
  {
    var u := SortedDistinct(ids);
    assert x in Elems(u);
    var i :| 0 <= i < |u| && u[i] == x;
    StrictlySortedCard(u);
    assert |u| > Cap;
    var r := SavedIds(ids);
    assert r == u[|u| - Cap..];
    var j :| 0 <= j < |r| && r[j] == k;
    assert u[|u| - Cap + j] == k;
    assert i < |u| - Cap;
  }

  /** Saving what was saved writes the same list again. */
  lemma SavedIdsIdempotent(ids: seq<string>)
    ensures SavedIds(SavedIds(ids)) == SavedIds(ids)
  {
    var r := SavedIds(ids);
    SortedDistinctOfSorted(r);
  }

  /** The written list depends only on the set of ids handed over (so the order of `list(set)` does not matter). */
  lemma SavedIdsOfSameElems(xs: seq<string>, ys: seq<string>)
    requires Elems(xs) == Elems(ys)
    ensures SavedIds(xs) == SavedIds(ys)
  {
    SortedDistinctOfSameElems(xs, ys);
  }

  /** The file after `save_processed_tweets(ids)`. */
  function Write(ids: seq<string>): (f: StoredFile)
    ensures f.Saved? && f.ids == SavedIds(ids)
  {
    Saved(SavedIds(ids))
  }

  /** `load_processed_tweets()`: `[]` when the file is missing or malformed, else its list. */
  function Load(f: StoredFile): (ids: seq<string>)
    ensures f.Missing? || f.Malformed? ==> ids == []
    ensures f.Saved? ==> ids == f.ids
  {
    match f
    case Saved(xs) => xs
    case _ => []
  }

  /**
   * Saving and loading again gives back the distinct ids, sorted, capped at
   * 1000; with at most 1000 distinct ids nothing is lost.
   */
  lemma {:induction false} LoadWriteRoundTrip(ids: seq<string>)
    ensures Load(Write(ids)) == SavedIds(ids)
    ensures StrictlySorted(Load(Write(ids))) && |Load(Write(ids))| <= Cap
    ensures |Elems(ids)| <= Cap ==> Elems(Load(Write(ids))) == Elems(ids)
    ensures Load(Write(Load(Write(ids)))) == Load(Write(ids))
  {
    SavedIdsIdempotent(ids);
  }

  /** The written list of a set of ids, whatever order `list(set)` lists it in. */
  ghost function SavedForSet(s: set<string>): (r: seq<string>)
    ensures forall xs :: Elems(xs) == s ==> r == SavedIds(xs)
  {
    var xs := ListingOf(s);
    assert forall ys :: Elems(ys) == s ==> SavedIds(ys) == SavedIds(xs) by {
      forall ys | Elems(ys) == s ensures SavedIds(ys) == SavedIds(xs) {
        SavedIdsOfSameElems(ys, xs);
      }
    }
    SavedIds(xs)
  }

  /** Some listing of a finite set. */
  ghost function ListingOf(s: set<string>): (xs: seq<string>)
    ensures Elems(xs) == s
    decreases |s|
  {
    if s == {} then []
    else
      var x :| x in s;
      [x] + ListingOf(s - {x})
  }
}
