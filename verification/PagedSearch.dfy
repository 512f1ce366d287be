/** Searching a paged listing for the first item that matches. */
module PagedSearch {
  import opened Wrappers

  const PAGE_SIZE: nat := 250
  const MAX_PAGES: nat := 5
  const REACH: nat := 1250

  /** The first item that matches. */
  function LinearSearch<T>(items: seq<T>, matches: T -> bool): (found: Option<T>) {
    if items == [] then None
    else if matches(items[0]) then Some(items[0])
    else LinearSearch(items[1..], matches)
  }

  ghost predicate FirstMatchAt<T>(items: seq<T>, matches: T -> bool, i: nat) {
    i < |items| && matches(items[i]) && forall j :: 0 <= j < i ==> !matches(items[j])
  }

  /** The linear search finds the item at `i` exactly when that is where the first match is. */
  lemma {:induction false} SearchFindsFirst<T>(items: seq<T>, matches: T -> bool) returns (i: nat)
    ensures LinearSearch(items, matches).Some? ==>
      FirstMatchAt(items, matches, i) && LinearSearch(items, matches) == Some(items[i])
    ensures LinearSearch(items, matches).None? ==> forall j :: 0 <= j < |items| ==> !matches(items[j])
  {
    i := 0;
    if items != [] && !matches(items[0]) {
      i := SearchFindsFirst(items[1..], matches);
      i := i + 1;
      forall j | 0 <= j < |items| && (j < i || LinearSearch(items, matches).None?)
        ensures !matches(items[j])
      {
        assert j > 0 ==> items[j] == items[1..][j - 1];
      }
    }
  }

  lemma {:induction false} SearchAppend<T>(a: seq<T>, b: seq<T>, matches: T -> bool)
    ensures LinearSearch(a + b, matches)
         == if LinearSearch(a, matches).Some? then LinearSearch(a, matches) else LinearSearch(b, matches)
  {
    if a == [] {
      assert a + b == b;
    } else {
      SearchAppend(a[1..], b, matches);
      assert (a + b)[1..] == a[1..] + b;
    }
  }

  function Min(a: nat, b: nat): (m: nat) { if a < b then a else b }

  /** The part of a listing that five pages can show. */
  function Visible<T>(listing: seq<T>): (items: seq<T>) {
    listing[..Min(REACH, |listing|)]
  }

  /** One page of the listing; pages are counted from 1. */
  function Page<T>(listing: seq<T>, page: nat): (items: seq<T>)
    requires page >= 1
  {
    listing[Min((page - 1) * PAGE_SIZE, |listing|)..Min(page * PAGE_SIZE, |listing|)]
  }

  function Before<T>(listing: seq<T>, page: nat): (items: seq<T>)
    requires page >= 1
  {
    listing[..Min((page - 1) * PAGE_SIZE, |listing|)]
  }

  lemma PageExtends<T>(listing: seq<T>, page: nat)
    requires 1 <= page <= MAX_PAGES
    ensures Before(listing, page) + Page(listing, page) == Before(listing, page + 1)
    ensures Before(listing, page + 1) <= Visible(listing)
    ensures |Page(listing, page)| < PAGE_SIZE ==> Before(listing, page + 1) == Visible(listing)
  {
  }

  lemma MatchInPrefix<T>(prefix: seq<T>, items: seq<T>, matches: T -> bool)
    requires prefix <= items && LinearSearch(prefix, matches).Some?
    ensures LinearSearch(items, matches) == LinearSearch(prefix, matches)
  {
  }

  ghost predicate FullWithoutMatch<T>(listing: seq<T>, matches: T -> bool, page: nat)
    requires page >= 1
  {
    |Page(listing, page)| == PAGE_SIZE && LinearSearch(Page(listing, page), matches).None?
  }

  /** The first match of one page. */
  method SearchPage<T>(items: seq<T>, matches: T -> bool) returns (found: Option<T>)
    ensures found == LinearSearch(items, matches)
  {
    var i := 0;
    while i < |items|
      invariant 0 <= i <= |items|
      invariant LinearSearch(items, matches) == LinearSearch(items[i..], matches)
    {
      if matches(items[i]) {
        return Some(items[i]);
      }
      assert items[i..][1..] == items[i + 1..];
      i := i + 1;
    }
    return None;
  }

  /**
   The paged search, with its five pages and its early exits, finds exactly what a linear search of
   the first 1250 listed items finds. `requests` is the number of pages asked for: up to the
   first page, if any, that is not full or holds a match.
   */
  method SearchPages<T>(listing: seq<T>, matches: T -> bool) returns (found: Option<T>, requests: nat)
    ensures found == LinearSearch(Visible(listing), matches)
    ensures found == LinearSearch(if |listing| < 1250 then listing else listing[..1250], matches)
    ensures 1 <= requests <= MAX_PAGES == 5
    ensures requests < MAX_PAGES && found.None? ==> |Page(listing, requests)| < 250
    ensures forall p :: 1 <= p < requests ==> FullWithoutMatch(listing, matches, p)
    ensures requests == MAX_PAGES || !FullWithoutMatch(listing, matches, requests)
  {
    assert Visible(listing) == if |listing| < 1250 then listing else listing[..1250];
    requests := 0;
    var page := 1;
    while page <= MAX_PAGES
      invariant 1 <= page <= MAX_PAGES + 1 && requests == page - 1
      invariant page > MAX_PAGES ==> Before(listing, page) == Visible(listing)
      invariant LinearSearch(Before(listing, page), matches).None?
      invariant forall p :: 1 <= p < page ==> FullWithoutMatch(listing, matches, p)
      decreases MAX_PAGES + 1 - page
    {
      var items := Page(listing, page);
      requests := page;
      PageExtends(listing, page);
      if items == [] {
        assert Before(listing, page + 1) == Before(listing, page);
        return None, requests;
      }
      var found := SearchPage(items, matches);
      SearchAppend(Before(listing, page), items, matches);
      if found.Some? {
        MatchInPrefix(Before(listing, page + 1), Visible(listing), matches);
        return found, requests;
      }
      if |items| < PAGE_SIZE {
        return None, requests;
      }
      page := page + 1;
    }
    return None, requests;
  }
}
