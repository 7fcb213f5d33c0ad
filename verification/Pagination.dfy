/** Paging through a Douban library, and when the snapshot so collected may be called complete. */
module Pagination {
  import opened Wrappers

  const PAGE_SIZE: nat := 15
  const MAX_PAGES: nat := 80

  datatype Item = Item(subjectId: string, title: string)

  datatype PageDecision = Continue | Complete | Partial

  datatype Metadata = Metadata(complete: bool, fetchedPages: nat, truncatedByLimit: bool, endObserved: bool)

  function Subjects(items: seq<Item>): set<string> {
    set item | item in items :: item.subjectId
  }

  /** The first item of each subject, in order of appearance. */
  function Distinct(items: seq<Item>): seq<Item> {
    if items == [] then []
    else
      var init, last := Distinct(items[..|items| - 1]), items[|items| - 1];
      if last.subjectId in Subjects(init) then init else init + [last]
  }

  function FirstN(n: nat, items: seq<Item>): seq<Item> {
    if |items| <= n then items else items[..n]
  }

  function Flatten(pages: seq<seq<Item>>): seq<Item> {
    if pages == [] then [] else Flatten(pages[..|pages| - 1]) + pages[|pages| - 1]
  }

  lemma {:induction false} DistinctConcat(a: seq<Item>, b: seq<Item>)
    ensures Distinct(Distinct(a) + b) == Distinct(a + b)
  {
    if b == [] {
      assert a + b == a && Distinct(a) + b == Distinct(a);
      DistinctTwice(a);
    } else {
      var init := b[..|b| - 1];
      assert (a + b)[..|a + b| - 1] == a + init;
      assert (Distinct(a) + b)[..|Distinct(a) + b| - 1] == Distinct(a) + init;
      DistinctConcat(a, init);
    }
  }

  lemma {:induction false} DistinctTwice(a: seq<Item>)
    ensures Distinct(Distinct(a)) == Distinct(a)
  {
    if a != [] {
      var init, last := a[..|a| - 1], a[|a| - 1];
      DistinctTwice(init);
      if last.subjectId !in Subjects(Distinct(init)) {
        assert Distinct(a)[..|Distinct(a)| - 1] == Distinct(init);
      }
    }
  }

  lemma {:induction false} DistinctExtends(a: seq<Item>, b: seq<Item>)
    ensures Distinct(a) <= Distinct(a + b)
  {
    if b == [] {
      assert a + b == a;
    } else {
      assert (a + b)[..|a + b| - 1] == a + b[..|b| - 1];
      DistinctExtends(a, b[..|b| - 1]);
    }
  }

  /** One item per subject, none left out. */
  lemma {:induction false} DistinctIsExact(items: seq<Item>)
    ensures Subjects(Distinct(items)) == Subjects(items)
    ensures forall i, j :: 0 <= i < j < |Distinct(items)| ==> Distinct(items)[i].subjectId != Distinct(items)[j].subjectId
  {
    if items != [] {
      var init, last := items[..|items| - 1], items[|items| - 1];
      DistinctIsExact(init);
      assert Subjects(items) == Subjects(init) + {last.subjectId};
      assert Subjects(Distinct(init) + [last]) == Subjects(Distinct(init)) + {last.subjectId};
      forall i | 0 <= i < |Distinct(init)| ensures Distinct(init)[i].subjectId in Subjects(Distinct(init)) {
        assert Distinct(init)[i] in Distinct(init);
      }
    }
  }

  /** How many of the distinct items are held once one more page has been looked at. */
  function Room(held: nat, limit: nat): nat {
    if limit <= held then held + 1 else limit
  }

  /** Takes items of unseen subjects until the limit is reached, which is looked at after each. */
  method TakeNew(start: seq<Item>, startSeen: set<string>, limit: nat, page: seq<Item>)
    returns (items: seq<Item>, seen: set<string>, full: bool)
    requires startSeen == Subjects(start) && Distinct(start) == start
    ensures seen == Subjects(items) && Distinct(items) == items && start <= items
    ensures items == FirstN(Room(|start|, limit), Distinct(start + page))
    ensures full <==> |Distinct(start + page)| >= Room(|start|, limit)
  {
    hide Distinct, Subjects;
    items, seen := start, startSeen;
    NothingTaken(start, page);
    for k := 0 to |page|
      invariant seen == Subjects(items) && Held(start, page, k, items)
      invariant start <= items && |items| < Room(|start|, limit)
    {
      ghost var next := NextItem(start, page, k, items);
      if page[k].subjectId !in seen {
        seen := seen + {page[k].subjectId};
        items := items + [page[k]];
        if |items| >= limit {
          PrefixIsFirstN(items, Distinct(start + page));
          return items, seen, true;
        }
      }
    }
    EverythingTaken(start, page, items);
    full := false;
  }

  lemma PrefixIsFirstN(items: seq<Item>, all: seq<Item>)
    requires items <= all
    ensures items == FirstN(|items|, all) && |all| >= |items|
  {
  }

  lemma NothingTaken(start: seq<Item>, page: seq<Item>)
    requires Distinct(start) == start
    ensures Held(start, page, 0, start)
  {
    assert start + page[..0] == start;
  }

  lemma EverythingTaken(start: seq<Item>, page: seq<Item>, items: seq<Item>)
    requires Held(start, page, |page|, items)
    ensures items == Distinct(start + page) && Distinct(items) == items
  {
    assert page[..|page|] == page;
  }

  lemma NothingNew(items: seq<Item>)
    requires Distinct(items) == items
    ensures items == FirstN(|items| + 1, Distinct(items + [])) && Distinct(items + []) == items
  {
    assert items + [] == items;
  }

  class LibraryPagination {
    const limit: nat
    var items: seq<Item>
    var seen: set<string>
    var fetchedPages: nat
    var truncatedByLimit: bool
    var endObserved: bool

    ghost predicate Valid()
      reads this
    {
      seen == Subjects(items) && Distinct(items) == items
    }

    constructor (limit: nat)
      ensures Valid() && this.limit == limit && items == [] && fetchedPages == 0 && !truncatedByLimit && !endObserved
    {
      this.limit := limit;
      items := [];
      seen := {};
      fetchedPages := 0;
      truncatedByLimit := false;
      endObserved := false;
    }

    method PushPage(page: seq<Item>) returns (decision: PageDecision)
      requires Valid()
      modifies this
      ensures Valid() && fetchedPages == old(fetchedPages) + 1
      ensures items == FirstN(Room(|old(items)|, limit), Distinct(old(items) + page))
      ensures endObserved == (old(endObserved) || page == [])
      ensures truncatedByLimit == (old(truncatedByLimit) || |Distinct(old(items) + page)| >= Room(|old(items)|, limit))
      ensures decision == if page == [] then Complete
                          else if |Distinct(old(items) + page)| >= Room(|old(items)|, limit) then Partial
                          else if items == old(items) || fetchedPages >= 80 then Partial
                          else Continue
    {
      fetchedPages := fetchedPages + 1;
      if page == [] {
        endObserved := true;
        NothingNew(items);
        return Complete;
      }
      var before := |items|;
      var full: bool;
      items, seen, full := TakeNew(items, seen, limit, page);
      if full {
        truncatedByLimit := true;
        return Partial;
      }
      if |items| == before || fetchedPages >= MAX_PAGES {
        return Partial;
      }
      decision := Continue;
    }

    function Snapshot(decision: PageDecision): Metadata
      reads this
    {
      Metadata(decision == Complete && endObserved, fetchedPages, truncatedByLimit, endObserved)
    }
  }

  /** The distinct items of `start` and the first `k` items of the page. */
  ghost predicate Held(start: seq<Item>, page: seq<Item>, k: nat, items: seq<Item>) {
    k <= |page| && items == Distinct(start + page[..k]) && Distinct(items) == items
  }

  lemma DistinctNext(items: seq<Item>, item: Item)
    ensures Distinct(items + [item]) ==
      if item.subjectId in Subjects(Distinct(items)) then Distinct(items) else Distinct(items) + [item]
  {
    assert (items + [item])[..|items|] == items;
  }

  lemma SubjectsNext(items: seq<Item>, item: Item)
    ensures Subjects(items + [item]) == Subjects(items) + {item.subjectId}
  {
    assert forall i :: i in items + [item] <==> i in items || i == item;
  }

  /** What looking at one more item of the page does to the distinct items so far. */
  lemma NextItem(start: seq<Item>, page: seq<Item>, k: nat, items: seq<Item>) returns (next: seq<Item>)
    requires k < |page| && Held(start, page, k, items)
    ensures next == if page[k].subjectId in Subjects(items) then items else items + [page[k]]
    ensures Held(start, page, k + 1, next) && next <= Distinct(start + page)
    ensures Distinct(next) == next && Subjects(next) == Subjects(items) + {page[k].subjectId}
  {
    hide Distinct, Subjects;
    next := if page[k].subjectId in Subjects(items) then items else items + [page[k]];
    assert start + page[..k + 1] == (start + page[..k]) + [page[k]];
    DistinctNext(start + page[..k], page[k]);
    if page[k].subjectId !in Subjects(items) {
      DistinctNext(items, page[k]);
      SubjectsNext(items, page[k]);
    }
    HeldIsPrefix(start, page, k + 1, next);
  }

  lemma HeldIsPrefix(start: seq<Item>, page: seq<Item>, k: nat, items: seq<Item>)
    requires Held(start, page, k, items)
    ensures items <= Distinct(start + page)
  {
    hide Distinct;
    assert start + page == (start + page[..k]) + page[k..];
    DistinctExtends(start + page[..k], page[k..]);
  }

  // ------------------------------------------------------------- the whole library

  datatype Library = Library(items: seq<Item>, snapshot: Metadata)

  function ClampLimit(limit: nat): (r: nat)
    ensures 1 <= r <= 1200 && (1 <= limit <= 1200 ==> r == limit) && (limit < 1 ==> r == 1) && (limit > 1200 ==> r == 1200)
  {
    if limit < 1 then 1 else if limit > PAGE_SIZE * MAX_PAGES then PAGE_SIZE * MAX_PAGES else limit
  }

  /** The first `n` pages of a source that answers by start offset, if all of them can be fetched. */
  ghost predicate FetchedPages(fetch: nat -> Option<seq<Item>>, n: nat, pages: seq<seq<Item>>) {
    |pages| == n && forall k :: 0 <= k < n ==> fetch(15 * k) == Some(pages[k])
  }

  /** Every one of these pages held something new, and together they stayed below the limit. */
  ghost predicate AllProgress(pages: seq<seq<Item>>, limit: nat) {
    forall k :: 0 <= k < |pages| ==> Progress(pages, k, limit)
  }

  ghost predicate Progress(pages: seq<seq<Item>>, k: nat, limit: nat)
    requires k < |pages|
  {
    |Distinct(Flatten(pages[..k]))| < |Distinct(Flatten(pages[..k + 1]))| < limit
  }

  /** What may be reported about the pages that were fetched. */
  ghost predicate Reports(library: Library, pages: seq<seq<Item>>, limit: nat) {
    var distinct, ended := Distinct(Flatten(pages)), pages != [] && pages[|pages| - 1] == [];
    && library.items == FirstN(limit, distinct)
    && library.snapshot == Metadata(ended, |pages|, |distinct| >= limit, ended)
    && (ended ==> |distinct| < limit)
  }

  /** The last page was no reason to ask for another. */
  ghost predicate Stopped(pages: seq<seq<Item>>, limit: nat)
    requires pages != []
  {
    |pages| == 80 || !Progress(pages, |pages| - 1, limit)
  }

  /** The pages that were fetched, and why the answer is what it is. */
  ghost predicate Explains(fetch: nat -> Option<seq<Item>>, limit: nat, pages: seq<seq<Item>>, r: Option<Library>) {
    && FetchedPages(fetch, |pages|, pages)
    && match r
       case None => |pages| < 80 && fetch(15 * |pages|) == None && AllProgress(pages, limit)
       case Some(library) =>
         && 1 <= |pages| <= 80 && AllProgress(pages[..|pages| - 1], limit)
         && Stopped(pages, limit) && Reports(library, pages, limit)
  }

  lemma StopsWhere(pages: seq<seq<Item>>, limit: nat, longer: seq<seq<Item>>)
    requires pages != [] && |pages| <= |longer| && longer[..|pages|] == pages && AllProgress(longer, limit)
    ensures Progress(pages, |pages| - 1, limit)
  {
    var k := |pages| - 1;
    assert Progress(longer, k, limit);
    assert longer[..k] == pages[..k] && longer[..k + 1] == pages[..k + 1];
  }

  lemma NoLonger(fetch: nat -> Option<seq<Item>>, limit: nat, pages: seq<seq<Item>>, r: Option<Library>,
                 pages': seq<seq<Item>>, r': Option<Library>)
    requires Explains(fetch, limit, pages, r) && Explains(fetch, limit, pages', r')
    ensures |pages| >= |pages'| && (|pages| == |pages'| && r'.None? ==> r.None?)
  {
    var known := if r'.None? then pages' else pages'[..|pages'| - 1];
    if |pages| <= |known| && r.Some? {
      assert forall k :: 0 <= k < |pages| ==> fetch(15 * k) == Some(pages[k]) && fetch(15 * k) == Some(pages'[k]);
      assert known[..|pages|] == pages;
      StopsWhere(pages, limit, known);
    }
  }

  /** The source and the limit settle the answer. */
  lemma LibraryIsDetermined(fetch: nat -> Option<seq<Item>>, limit: nat, pages: seq<seq<Item>>, r: Option<Library>,
                            pages': seq<seq<Item>>, r': Option<Library>)
    requires Explains(fetch, limit, pages, r) && Explains(fetch, limit, pages', r')
    ensures pages == pages' && r == r'
  {
    NoLonger(fetch, limit, pages, r, pages', r');
    NoLonger(fetch, limit, pages', r', pages, r);
    assert forall k :: 0 <= k < |pages| ==> fetch(15 * k) == Some(pages[k]) && fetch(15 * k) == Some(pages'[k]);
    assert pages == pages';
  }

  /** One page more, and no reason to go on. */
  lemma LastPage(fetch: nat -> Option<seq<Item>>, limit: nat, earlier: seq<seq<Item>>, page: seq<Item>, library: Library)
    requires Fetching(fetch, limit, earlier) && |earlier| < 80 && fetch(15 * |earlier|) == Some(page)
    requires limit > 0 && Reports(library, earlier + [page], limit)
    requires |Distinct(Flatten(earlier + [page]))| >= limit || |earlier| + 1 == 80
          || |Distinct(Flatten(earlier + [page]))| == |Distinct(Flatten(earlier))|
    ensures Explains(fetch, limit, earlier + [page], Some(library))
  {
    hide Distinct, Flatten, Reports, AllProgress;
    var pages := earlier + [page];
    assert pages[..|pages| - 1] == earlier && pages[..|pages|] == pages;
  }

  /** What the pagination holds then is what may be reported. */
  lemma LastReport(earlier: seq<seq<Item>>, page: seq<Item>, limit: nat, library: Library)
    requires |Distinct(Flatten(earlier))| < limit
    requires library.items == FirstN(Room(|Distinct(Flatten(earlier))|, limit), Distinct(Distinct(Flatten(earlier)) + page))
    requires library.snapshot == Metadata(page == [], |earlier| + 1,
      page != [] && |Distinct(Distinct(Flatten(earlier)) + page)| >= limit, page == [])
    ensures Reports(library, earlier + [page], limit)
  {
    FlattenNext(earlier, page);
    hide Distinct, Flatten;
  }

  /** One page more, which held something new and left room. */
  lemma NextPage(fetch: nat -> Option<seq<Item>>, limit: nat, earlier: seq<seq<Item>>, page: seq<Item>)
    requires Fetching(fetch, limit, earlier) && fetch(15 * |earlier|) == Some(page)
    requires |Distinct(Flatten(earlier))| < |Distinct(Flatten(earlier + [page]))| < limit
    ensures Fetching(fetch, limit, earlier + [page])
  {
    hide Distinct, Flatten, AllProgress;
    ProgressExtends(earlier, page, limit);
  }

  /** What is known while pages are still asked for. */
  ghost predicate Fetching(fetch: nat -> Option<seq<Item>>, limit: nat, pages: seq<seq<Item>>) {
    FetchedPages(fetch, |pages|, pages) && AllProgress(pages, limit)
  }

  method FetchLibrary(fetch: nat -> Option<seq<Item>>, requested: nat) returns (r: Option<Library>)
    ensures exists pages :: Explains(fetch, ClampLimit(requested), pages, r)
  {
    NothingFetched();
    var limit := ClampLimit(requested);
    var pagination := new LibraryPagination(limit);
    var start := 0;
    var decision := Partial;
    ghost var pages: seq<seq<Item>> := [];
    assert Fetching(fetch, limit, pages);
    hide Distinct, Flatten, AllProgress, FetchedPages, Fetching, Reports, Explains;
    for k := 0 to MAX_PAGES
      invariant start == 15 * k && |pages| == k && Fetching(fetch, limit, pages)
      invariant Collected(pagination, pages, limit) && k < MAX_PAGES && fresh(pagination)
    {
      var page := fetch(start);
      if page == None {
        NoPage(fetch, limit, pages);
        return None;
      }
      FlattenNext(pages, page.value);
      decision := pagination.PushPage(page.value);
      if decision != Continue {
        LastReport(pages, page.value, limit, Library(pagination.items, pagination.Snapshot(decision)));
        LastPage(fetch, limit, pages, page.value, Library(pagination.items, pagination.Snapshot(decision)));
        pages := pages + [page.value];
        break;
      }
      NextPage(fetch, limit, pages, page.value);
      pages := pages + [page.value];
      start := start + PAGE_SIZE;
    }
    var snapshot := pagination.Snapshot(decision);
    r := Some(Library(pagination.items, snapshot));
  }

  lemma NoPage(fetch: nat -> Option<seq<Item>>, limit: nat, pages: seq<seq<Item>>)
    requires Fetching(fetch, limit, pages) && |pages| < 80 && fetch(15 * |pages|) == None
    ensures Explains(fetch, limit, pages, None)
  {
  }

  /** The state of a pagination that has only ever been told to continue. */
  ghost predicate Collected(pagination: LibraryPagination, pages: seq<seq<Item>>, limit: nat)
    reads pagination
  {
    && pagination.Valid() && pagination.limit == limit && pagination.fetchedPages == |pages|
    && pagination.items == Distinct(Flatten(pages)) && |pagination.items| < limit
    && !pagination.truncatedByLimit && !pagination.endObserved
  }

  lemma NothingFetched()
    ensures Distinct(Flatten([])) == []
  {
  }

  lemma FlattenNext(earlier: seq<seq<Item>>, page: seq<Item>)
    ensures Distinct(Flatten(earlier + [page])) == Distinct(Distinct(Flatten(earlier)) + page)
    ensures Distinct(Flatten(earlier)) <= Distinct(Flatten(earlier + [page]))
    ensures page == [] ==> Distinct(Flatten(earlier + [page])) == Distinct(Flatten(earlier))
  {
    assert (earlier + [page])[..|earlier|] == earlier;
    DistinctConcat(Flatten(earlier), page);
    DistinctExtends(Flatten(earlier), page);
    if page == [] {
      assert Flatten(earlier) + [] == Flatten(earlier);
    }
  }

  lemma ProgressExtends(earlier: seq<seq<Item>>, page: seq<Item>, limit: nat)
    requires AllProgress(earlier, limit)
    requires |Distinct(Flatten(earlier))| < |Distinct(Flatten(earlier + [page]))| < limit
    ensures AllProgress(earlier + [page], limit)
  {
    var pages := earlier + [page];
    forall k | 0 <= k < |pages| ensures Progress(pages, k, limit) {
      if k < |earlier| {
        assert Progress(earlier, k, limit);
        assert pages[..k] == earlier[..k] && pages[..k + 1] == earlier[..k + 1];
      } else {
        assert pages[..k] == earlier && pages[..k + 1] == pages;
      }
    }
  }
}
