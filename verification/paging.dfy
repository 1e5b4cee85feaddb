/**
 Limit/offset pages over a listing, and what a client that follows their links gets to see.
 */
module Paging {
  import opened Ordering
  import opened Vocabulary

  datatype Page<T> = Page(items: seq<T>, total: nat, limit: nat, offset: nat) {
    function NextOffset(): Option<nat> {
      if offset + limit < total then Some(offset + limit) else None
    }

    function PreviousOffset(): Option<nat> {
      if offset == 0 then None else if offset < limit then Some(0) else Some(offset - limit)
    }
  }

  datatype Setting = Setting(defaultSize: nat, maxSize: nat)

  datatype Param = Value(n: int) | PageError

  datatype Paged<T> = Paged(page: Page<T>) | Refused

  // `parse` is the host's reading of text as an integer.
  function IntParam(raw: Option<string>, parse: string -> Option<int>, default: int, minimum: int, maximum: Option<int>)
    : (p: Param)
    ensures p.Value? && raw.Some? ==> p.n >= minimum && (maximum.Some? ==> p.n <= maximum.value)
  {
    if raw.None? then Value(default)
    else
      var n := parse(raw.value);
      if n.None? || n.value < minimum || (maximum.Some? && n.value > maximum.value) then PageError else Value(n.value)
  }

  function PageAt<T>(listing: seq<T>, limit: nat, offset: nat): Page<T> {
    Page(listing[Min(offset, |listing|)..Min(offset + limit, |listing|)], |listing|, limit, offset)
  }

  function Paginate<T>(listing: seq<T>, limit: Option<string>, offset: Option<string>, parse: string -> Option<int>, s: Setting)
    : Paged<T>
  {
    var l := IntParam(limit, parse, s.defaultSize, 1, Some(s.maxSize));
    var o := IntParam(offset, parse, 0, 0, None);
    if l.Value? && o.Value? then Paged(PageAt(listing, l.n, o.n)) else Refused
  }

  predicate Asks(raw: Option<string>, parse: string -> Option<int>, default: nat, n: nat) {
    if raw.None? then n == default else parse(raw.value) == Some(n)
  }

  // Not supplied, or a number within the bounds.
  predicate Acceptable(raw: Option<string>, parse: string -> Option<int>, minimum: int, maximum: Option<int>) {
    raw.Some? ==>
      && parse(raw.value).Some? && parse(raw.value).value >= minimum
      && (maximum.Some? ==> parse(raw.value).value <= maximum.value)
  }

  // A page is given exactly when every parameter that is supplied is a number in range, with the true
  // total and the rows asked for in their order. A supplied limit stays within the cap; the default is not
  // checked against it.
  lemma PaginateMeans<T>(listing: seq<T>, limit: Option<string>, offset: Option<string>, parse: string -> Option<int>,
                         s: Setting)
    ensures var r := Paginate(listing, limit, offset, parse, s);
      && (r.Paged? <==> Acceptable(limit, parse, 1, Some(s.maxSize)) && Acceptable(offset, parse, 0, None))
      && (r.Paged? ==>
            && Asks(limit, parse, s.defaultSize, r.page.limit) && Asks(offset, parse, 0, r.page.offset)
            && r.page.total == |listing| && |r.page.items| <= r.page.limit
            && (limit.Some? ==> 1 <= r.page.limit <= s.maxSize)
            && (forall i :: 0 <= i < |r.page.items| ==>
                  r.page.offset + i < |listing| && r.page.items[i] == listing[r.page.offset + i])
            && (|r.page.items| < r.page.limit ==> r.page.offset + |r.page.items| >= |listing|))
  {
  }

  // The pages a client sees when it follows the next link from some offset.
  function Walk<T>(listing: seq<T>, limit: nat, offset: nat): (pages: seq<Page<T>>)
    requires limit > 0
    decreases if offset < |listing| then |listing| - offset else 0
  {
    var page := PageAt(listing, limit, offset);
    if page.NextOffset().Some? then [page] + Walk(listing, limit, page.NextOffset().value) else [page]
  }

  function AllItems<T>(pages: seq<Page<T>>): seq<T> {
    if pages == [] then [] else pages[0].items + AllItems(pages[1..])
  }

  // The least number of pages of this size that hold `total` rows; an empty listing still has a page.
  predicate JustEnough(n: nat, limit: nat, total: nat) {
    n >= 1 && total <= n * limit && (n > 1 ==> (n - 1) * limit < total)
  }

  // Following the links shows what is left of the listing, every row once and in order, and stops after
  // exactly as many pages as that takes.
  lemma {:induction false} WalkShowsTheRest<T>(listing: seq<T>, limit: nat, offset: nat)
    requires limit > 0 && offset <= |listing|
    ensures AllItems(Walk(listing, limit, offset)) == listing[offset..]
    ensures JustEnough(|Walk(listing, limit, offset)|, limit, |listing| - offset)
    decreases |listing| - offset
  {
    var page := PageAt(listing, limit, offset);
    if page.NextOffset().Some? {
      var rest := Walk(listing, limit, offset + limit);
      WalkShowsTheRest(listing, limit, offset + limit);
      assert ([page] + rest)[1..] == rest;
      assert (|rest| + 1) * limit == |rest| * limit + limit;
      assert |rest| > 1 ==> |rest| * limit == (|rest| - 1) * limit + limit;
      assert page.items + listing[offset + limit..] == listing[offset..];
    } else {
      assert [page][1..] == [];
      assert page.items == listing[offset..];
    }
  }

  lemma WalkShowsEverything<T>(listing: seq<T>, limit: nat)
    requires limit > 0
    ensures AllItems(Walk(listing, limit, 0)) == listing
    ensures JustEnough(|Walk(listing, limit, 0)|, limit, |listing|)
  {
    WalkShowsTheRest(listing, limit, 0);
    assert listing[0..] == listing;
  }

  // Where the page i links on from this offset starts.
  function PageStart(offset: nat, limit: nat, i: nat): nat
    decreases i
  {
    if i == 0 then offset else PageStart(offset + limit, limit, i - 1)
  }

  lemma {:induction false} PageStartMeans(offset: nat, limit: nat, i: nat)
    ensures PageStart(offset, limit, i) == offset + i * limit
    ensures PageStart(offset, limit, i + 1) == PageStart(offset, limit, i) + limit
    decreases i
  {
    if i > 0 {
      PageStartMeans(offset + limit, limit, i - 1);
      assert i * limit == limit + (i - 1) * limit;
    }
  }

  lemma {:induction false} PageOfWalk<T>(listing: seq<T>, limit: nat, offset: nat, i: nat)
    requires limit > 0 && i < |Walk(listing, limit, offset)|
    ensures Walk(listing, limit, offset)[i] == PageAt(listing, limit, PageStart(offset, limit, i))
    decreases i
  {
    if i > 0 {
      PageOfWalk(listing, limit, offset + limit, i - 1);
    }
  }

  // Page i starts at i limits, and its previous link leads back to the page before it.
  lemma WalkRetraces<T>(listing: seq<T>, limit: nat, offset: nat, i: nat)
    requires limit > 0 && i < |Walk(listing, limit, offset)|
    ensures Walk(listing, limit, offset)[i] == PageAt(listing, limit, offset + i * limit)
    ensures i > 0 ==> Walk(listing, limit, offset)[i].PreviousOffset() == Some(Walk(listing, limit, offset)[i - 1].offset)
    ensures i == 0 && offset == 0 ==> Walk(listing, limit, offset)[i].PreviousOffset() == None
  {
    PageOfWalk(listing, limit, offset, i);
    PageStartMeans(offset, limit, i);
    if i > 0 {
      PageOfWalk(listing, limit, offset, i - 1);
      PageStartMeans(offset, limit, i - 1);
    }
  }

  // The previous link leads one limit back, or to the start when that is nearer; the first page has none.
  lemma PreviousLinkMeans<T>(page: Page<T>)
    requires page.limit > 0
    ensures page.PreviousOffset().None? <==> page.offset == 0
    ensures page.PreviousOffset().Some? ==>
      var back := page.PreviousOffset().value;
      back + page.limit == page.offset || (back == 0 && page.offset < page.limit)
  {
  }

  // The pages a client sees when it follows the previous link from some offset.
  function WalkBack<T>(listing: seq<T>, limit: nat, offset: nat): (pages: seq<Page<T>>)
    requires limit > 0
    decreases offset
  {
    var back := PageAt(listing, limit, offset).PreviousOffset();
    if back.None? then [] else [PageAt(listing, limit, back.value)] + WalkBack(listing, limit, back.value)
  }

  ghost predicate Shows<T>(page: Page<T>, row: nat, item: T) {
    page.offset <= row < page.offset + |page.items| && page.items[row - page.offset] == item
  }

  // Going back from any offset shows every row before it.
  lemma {:induction false} WalkBackShowsTheRest<T>(listing: seq<T>, limit: nat, offset: nat, row: nat)
    requires limit > 0 && row < offset && row < |listing|
    ensures exists i :: 0 <= i < |WalkBack(listing, limit, offset)| && Shows(WalkBack(listing, limit, offset)[i], row, listing[row])
    decreases offset
  {
    PreviousLinkMeans(PageAt(listing, limit, offset));
    var back := PageAt(listing, limit, offset).PreviousOffset().value;
    var rest := WalkBack(listing, limit, back);
    if row < back {
      WalkBackShowsTheRest(listing, limit, back, row);
      var i :| 0 <= i < |rest| && Shows(rest[i], row, listing[row]);
      assert WalkBack(listing, limit, offset)[i + 1] == rest[i];
    } else {
      assert Shows(WalkBack(listing, limit, offset)[0], row, listing[row]);
    }
  }

  // In just as many pages as that takes.
  lemma {:induction false} WalkBackStops<T>(listing: seq<T>, limit: nat, offset: nat)
    requires limit > 0 && offset > 0
    ensures JustEnough(|WalkBack(listing, limit, offset)|, limit, offset)
    decreases offset
  {
    var back := PageAt(listing, limit, offset).PreviousOffset().value;
    var rest := WalkBack(listing, limit, back);
    if back > 0 {
      WalkBackStops(listing, limit, back);
      assert (|rest| + 1) * limit == |rest| * limit + limit;
      assert |rest| * limit == (|rest| - 1) * limit + limit;
    }
  }
}
