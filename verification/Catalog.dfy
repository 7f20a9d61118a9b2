/** The in-memory document catalog (internal/storage/meta/postgres/store.go) and
    what its pages add up to. */
module Catalog {

  datatype Document = Document(
    docId: string, storageId: string, ownerId: string, visibility: string, groupIds: seq<string>,
    title: string, source: string, sourceUrl: string, sourceHash: string, status: string, updatedAt: int)

  datatype PageRequest = PageRequest(
    page: int, pageSize: int, storageId: string, source: string, sourceUrl: string, sourceUrlMode: string,
    allowedStorageIds: set<string>, applyVisibility: bool, owners: seq<string>, groups: seq<string>)

  datatype Page = Page(items: seq<Document>, page: int, pageSize: int, total: nat, hasNext: bool)

  predicate Overlaps(a: seq<string>, b: seq<string>) {
    exists i | 0 <= i < |a| :: a[i] in b
  }

  predicate VisibleInMemory(d: Document, owners: seq<string>, groups: seq<string>) {
    match d.visibility
    case "public" => true
    case "personal" => d.ownerId in owners
    case "group" => d.ownerId in owners || Overlaps(d.groupIds, groups)
    case _ => true
  }

  predicate Contains(haystack: string, needle: string) {
    |needle| <= |haystack| && exists i | 0 <= i <= |haystack| - |needle| :: haystack[i..][..|needle|] == needle
  }

  predicate MatchesUrl(d: Document, req: PageRequest) {
    req.sourceUrl == "" || (if req.sourceUrlMode == "partial" then
      Contains(d.sourceUrl, req.sourceUrl) else d.sourceUrl == req.sourceUrl)
  }

  predicate Selected(d: Document, req: PageRequest) {
    && (req.storageId == "" || d.storageId == req.storageId)
    && (req.allowedStorageIds == {} || d.storageId in req.allowedStorageIds)
    && (req.source == "" || d.source == req.source)
    && MatchesUrl(d, req)
    && (req.applyVisibility ==> VisibleInMemory(d, req.owners, req.groups))
  }

  function DefaultStorageId(id: string): string { if id == "" then "legacy" else id }

  /** A document as the catalog keeps it. */
  function Stored(doc: Document): Document { doc.(storageId := DefaultStorageId(doc.storageId)) }

  predicate WellKept(docs: map<string, Document>) {
    forall id | id in docs :: docs[id].docId == id && docs[id].storageId != ""
  }

  predicate NewestFirst(s: seq<Document>) {
    forall i, j | 0 <= i < j < |s| :: s[i].updatedAt >= s[j].updatedAt
  }

  /** One way of laying out a set of documents: newest first, each exactly once. */
  ghost predicate IsListing(docs: set<Document>, all: seq<Document>) {
    NewestFirst(all) && multiset(all) == multiset(docs)
  }

  function EffectivePageSize(n: int): (r: int)
    ensures r > 0
  {
    if n <= 0 then 20 else n
  }

  function EffectivePage(n: int): (r: int)
    ensures r > 0
  {
    if n <= 0 then 1 else n
  }

  function Least(a: int, b: int): int { if a > b then b else a }

  function PageOf(all: seq<Document>, page: int, pageSize: int): Page {
    var ps := EffectivePageSize(pageSize);
    var p := EffectivePage(page);
    NonNegative(p - 1, ps);
    var start := Least((p - 1) * ps, |all|);
    var end := Least(start + ps, |all|);
    Page(all[start..end], p, ps, |all|, end < |all|)
  }

  lemma NonNegative(a: int, b: int)
    requires 0 <= a && 0 < b
    ensures 0 <= a * b
  {
  }

  /** What a call of List may return for a set of matching documents: documents with
      equal times come in no fixed order, so the layout may differ between calls. */
  ghost predicate IsAnswer(docs: set<Document>, page: int, pageSize: int, r: Page) {
    exists all :: IsListing(docs, all) && r == PageOf(all, page, pageSize)
  }

  ghost function SelectedIn(docs: map<string, Document>, keys: set<string>, req: PageRequest): set<Document> {
    set id | id in keys && id in docs && Selected(docs[id], req) :: docs[id]
  }

  lemma SelectOneMore(docs: map<string, Document>, keys: set<string>, id: string, req: PageRequest)
    requires WellKept(docs) && id in docs && id !in keys
    ensures docs[id] !in SelectedIn(docs, keys, req)
    ensures SelectedIn(docs, keys + {id}, req) == SelectedIn(docs, keys, req) + (if Selected(docs[id], req) then
      {docs[id]} else {})
  {
  }

  lemma MultisetOfUnion(s: set<Document>, d: Document)
    requires d !in s
    ensures multiset(s + {d}) == multiset(s) + multiset{d}
  {
  }

  // ---- Sorting --------------------------------------------------------------------------------

  method SortNewestFirst(items: seq<Document>) returns (out: seq<Document>)
    ensures NewestFirst(out) && multiset(out) == multiset(items)
  {
    out := [];
    for i := 0 to |items|
      invariant NewestFirst(out) && multiset(out) == multiset(items[..i])
    {
      assert items[..i + 1] == items[..i] + [items[i]];
      out := Insert(out, items[i]);
    }
    assert items[..|items|] == items;
  }

  method Insert(s: seq<Document>, d: Document) returns (out: seq<Document>)
    requires NewestFirst(s)
    ensures NewestFirst(out) && multiset(out) == multiset(s) + multiset{d}
  {
    var k := 0;
    while k < |s| && s[k].updatedAt >= d.updatedAt
      invariant 0 <= k <= |s|
      invariant forall j | 0 <= j < k :: s[j].updatedAt >= d.updatedAt
    {
      k := k + 1;
    }
    InsertKeepsOrder(s, k, d);
    InsertCounts(s, k, d);
    out := s[..k] + [d] + s[k..];
  }

  lemma InsertCounts(s: seq<Document>, k: nat, d: Document)
    requires k <= |s|
    ensures multiset(s[..k] + [d] + s[k..]) == multiset(s) + multiset{d}
  {
    assert s == s[..k] + s[k..];
  }

  lemma InsertKeepsOrder(s: seq<Document>, k: nat, d: Document)
    requires NewestFirst(s) && k <= |s|
    requires forall j | 0 <= j < k :: s[j].updatedAt >= d.updatedAt
    requires k < |s| ==> s[k].updatedAt < d.updatedAt
    ensures NewestFirst(s[..k] + [d] + s[k..])
  {
    var t := s[..k] + [d] + s[k..];
    forall i, j | 0 <= i < j < |t| ensures t[i].updatedAt >= t[j].updatedAt {
      assert t[i] == if i < k then s[i] else if i == k then d else s[i - 1];
      assert t[j] == if j < k then s[j] else if j == k then d else s[j - 1];
      assert k < |s| ==> forall m | k <= m < |s| :: s[k].updatedAt >= s[m].updatedAt;
    }
  }

  // ---- The catalog ------------------------------------------------------------------------------

  class Store {
    var docs: map<string, Document>

    constructor ()
      ensures docs == map[] && WellKept(docs)
    {
      docs := map[];
    }

    method Save(doc: Document)
      requires WellKept(docs)
      modifies this
      ensures docs == old(docs)[doc.docId := Stored(doc)]
      ensures WellKept(docs)
    {
      docs := docs[doc.docId := Stored(doc)];
    }

    method Delete(docId: string)
      requires WellKept(docs)
      modifies this
      ensures docs == old(docs) - {docId} && WellKept(docs)
    {
      docs := docs - {docId};
    }

    method GetMany(ids: seq<string>) returns (out: map<string, Document>)
      ensures forall id :: id in out <==> id in ids && id in docs
      ensures forall id | id in out :: out[id] == docs[id]
    {
      out := map[];
      for i := 0 to |ids|
        invariant forall id :: id in out <==> id in ids[..i] && id in docs
        invariant forall id | id in out :: out[id] == docs[id]
      {
        if ids[i] in docs {
          out := out[ids[i] := docs[ids[i]]];
        }
      }
    }

    method Collect(req: PageRequest) returns (items: seq<Document>)
      requires WellKept(docs)
      ensures multiset(items) == multiset(SelectedIn(docs, docs.Keys, req))
    {
      items := [];
      var todo := docs.Keys;
      while todo != {}
        invariant todo <= docs.Keys
        invariant multiset(items) == multiset(SelectedIn(docs, docs.Keys - todo, req))
        decreases todo
      {
        var id :| id in todo;
        ghost var done := docs.Keys - todo;
        SelectOneMore(docs, done, id, req);
        assert docs.Keys - (todo - {id}) == done + {id};
        if Selected(docs[id], req) {
          MultisetOfUnion(SelectedIn(docs, done, req), docs[id]);
          items := items + [docs[id]];
        }
        todo := todo - {id};
      }
      assert docs.Keys - todo == docs.Keys;
    }

    method List(req: PageRequest) returns (r: Page)
      requires WellKept(docs)
      ensures IsAnswer(SelectedIn(docs, docs.Keys, req), req.page, req.pageSize, r)
    {
      var found := Collect(req);
      var items := SortNewestFirst(found);
      assert IsListing(SelectedIn(docs, docs.Keys, req), items);
      var ps := req.pageSize;
      if ps <= 0 {
        ps := 20;
      }
      var p := req.page;
      if p <= 0 {
        p := 1;
      }
      NonNegative(p - 1, ps);
      var start := (p - 1) * ps;
      if start > |items| {
        start := |items|;
      }
      var end := start + ps;
      if end > |items| {
        end := |items|;
      }
      return Page(items[start..end], p, ps, |items|, end < |items|);
    }
  }

  // ---- All pages together -----------------------------------------------------------------------

  ghost predicate DistinctTimes(docs: set<Document>) {
    forall d, e | d in docs && e in docs :: d.updatedAt == e.updatedAt ==> d == e
  }

  lemma ElementsAre(docs: set<Document>, all: seq<Document>)
    requires multiset(all) == multiset(docs)
    ensures forall d :: d in all <==> d in docs
  {
    forall d ensures d in all <==> d in docs {
      assert d in all <==> d in multiset(all);
      assert d in docs <==> d in multiset(docs);
    }
  }

  lemma HeadsAgree(docs: set<Document>, a: seq<Document>, b: seq<Document>)
    requires DistinctTimes(docs) && NewestFirst(a) && NewestFirst(b)
    requires a != [] && b != [] && a[0] in b && b[0] in a && a[0] in docs && b[0] in docs
    ensures a[0] == b[0]
  {
    var i :| 0 <= i < |b| && b[i] == a[0];
    var j :| 0 <= j < |a| && a[j] == b[0];
  }

  lemma TailCounts(a: seq<Document>)
    requires a != []
    ensures multiset(a[1..]) == multiset(a) - multiset{a[0]}
  {
    assert a == [a[0]] + a[1..];
  }

  lemma TailsAgree(a: seq<Document>, b: seq<Document>)
    requires a != [] && b != [] && a[0] == b[0] && multiset(a) == multiset(b)
    ensures multiset(a[1..]) == multiset(b[1..])
  {
    TailCounts(a);
    TailCounts(b);
  }

  lemma HeadAndTail(a: seq<Document>, b: seq<Document>)
    requires a != [] && b != [] && a[0] == b[0] && a[1..] == b[1..]
    ensures a == b
  {
    assert a == [a[0]] + a[1..] && b == [b[0]] + b[1..];
  }

  lemma SameElements(a: seq<Document>, b: seq<Document>)
    requires multiset(a) == multiset(b)
    ensures |a| == |b| && forall i | 0 <= i < |a| :: a[i] in b
  {
    assert |a| == |multiset(a)| && |b| == |multiset(b)|;
    forall i | 0 <= i < |a| ensures a[i] in b {
      assert a[i] in multiset(a);
    }
  }

  lemma {:induction false} SameOrder(docs: set<Document>, a: seq<Document>, b: seq<Document>)
    requires DistinctTimes(docs)
    requires NewestFirst(a) && NewestFirst(b) && multiset(a) == multiset(b)
    requires forall i | 0 <= i < |a| :: a[i] in docs
    ensures a == b
    decreases |a|
  {
    SameElements(a, b);
    if a != [] {
      SameElements(b, a);
      HeadsAgree(docs, a, b);
      TailsAgree(a, b);
      SameOrder(docs, a[1..], b[1..]);
      HeadAndTail(a, b);
    }
  }

  /** With distinct times every call lays the documents out in the same order. */
  lemma ListingUnique(docs: set<Document>, a: seq<Document>, b: seq<Document>)
    requires DistinctTimes(docs) && IsListing(docs, a) && IsListing(docs, b)
    ensures a == b
  {
    ElementsAre(docs, a);
    SameOrder(docs, a, b);
  }

  function Joined(pages: seq<Page>): seq<Document> {
    if pages == [] then [] else Joined(pages[..|pages| - 1]) + pages[|pages| - 1].items
  }

  /** Pages 1, 2, ... of one list, all but the last saying that more follow. */
  ghost predicate Paged(docs: set<Document>, pageSize: int, pages: seq<Page>) {
    && (forall i | 0 <= i < |pages| :: IsAnswer(docs, i + 1, pageSize, pages[i]))
    && (forall i | 0 <= i < |pages| - 1 :: pages[i].hasNext)
  }

  /** The pages up to the one that says nothing follows. */
  ghost predicate ReadThrough(docs: set<Document>, pageSize: int, pages: seq<Page>) {
    pages != [] && Paged(docs, pageSize, pages) && !pages[|pages| - 1].hasNext
  }

  /** Where page n + 1 starts, for pages of the given size. */
  function Offset(n: nat, size: nat): nat { if n == 0 then 0 else Offset(n - 1, size) + size }

  lemma {:induction false} OffsetIsProduct(n: nat, size: nat)
    ensures Offset(n, size) == n * size
  {
    if n > 0 { OffsetIsProduct(n - 1, size); }
  }

  predicate IsSlice(all: seq<Document>, n: nat, size: nat, r: Page) {
    && (Offset(n, size) <= |all| ==> r.items == all[Offset(n, size)..Least(Offset(n, size) + size, |all|)])
    && (r.hasNext <==> Offset(n, size) + size < |all|)
  }

  lemma PageSlice(all: seq<Document>, n: nat, pageSize: int)
    ensures IsSlice(all, n, EffectivePageSize(pageSize), PageOf(all, n + 1, pageSize))
  {
    OffsetIsProduct(n, EffectivePageSize(pageSize));
  }

  lemma {:induction false} JoinedPrefix(all: seq<Document>, size: nat, pages: seq<Page>)
    requires forall i | 0 <= i < |pages| :: IsSlice(all, i, size, pages[i])
    requires forall i | 0 <= i < |pages| - 1 :: pages[i].hasNext
    ensures Joined(pages) == all[..Least(Offset(|pages|, size), |all|)]
    decreases |pages|
  {
    if pages != [] {
      var n := |pages| - 1;
      JoinedPrefix(all, size, pages[..n]);
      assert n > 0 ==> IsSlice(all, n - 1, size, pages[n - 1]) && pages[n - 1].hasNext;
      assert IsSlice(all, n, size, pages[n]);
      assert Offset(n, size) <= |all|;
      TwoParts(all, Offset(n, size), Least(Offset(n, size) + size, |all|));
    }
  }

  lemma TwoParts(all: seq<Document>, start: nat, end: nat)
    requires start <= end <= |all|
    ensures all[..start] + all[start..end] == all[..end]
  {
  }

  lemma AnswerIs(docs: set<Document>, all: seq<Document>, page: int, pageSize: int, r: Page)
    requires DistinctTimes(docs) && IsListing(docs, all) && IsAnswer(docs, page, pageSize, r)
    ensures r == PageOf(all, page, pageSize)
  {
    var other :| IsListing(docs, other) && r == PageOf(other, page, pageSize);
    ListingUnique(docs, all, other);
  }

  /** The pages of one list are its slices. */
  lemma PagesAreSlices(docs: set<Document>, pageSize: int, pages: seq<Page>, all: seq<Document>)
    requires DistinctTimes(docs) && IsListing(docs, all)
    requires forall i | 0 <= i < |pages| :: IsAnswer(docs, i + 1, pageSize, pages[i])
    ensures forall i | 0 <= i < |pages| :: IsSlice(all, i, EffectivePageSize(pageSize), pages[i])
  {
    forall i | 0 <= i < |pages| ensures IsSlice(all, i, EffectivePageSize(pageSize), pages[i]) {
      AnswerIs(docs, all, i + 1, pageSize, pages[i]);
      PageSlice(all, i, pageSize);
    }
  }

  /** Slices up to one that nothing follows make up the whole. */
  lemma SlicesAreAll(all: seq<Document>, size: nat, pages: seq<Page>)
    requires pages != [] && !pages[|pages| - 1].hasNext
    requires forall i | 0 <= i < |pages| :: IsSlice(all, i, size, pages[i])
    requires forall i | 0 <= i < |pages| - 1 :: pages[i].hasNext
    ensures Joined(pages) == all
  {
    JoinedPrefix(all, size, pages);
    LastReachesEnd(all, |pages|, size, pages[|pages| - 1]);
  }

  lemma LastReachesEnd(all: seq<Document>, n: nat, size: nat, page: Page)
    requires n > 0 && IsSlice(all, n - 1, size, page) && !page.hasNext
    ensures all[..Least(Offset(n, size), |all|)] == all
  {
  }

  lemma SomeListing(docs: set<Document>, page: int, pageSize: int, r: Page) returns (all: seq<Document>)
    requires IsAnswer(docs, page, pageSize, r)
    ensures IsListing(docs, all)
  {
    all :| IsListing(docs, all) && r == PageOf(all, page, pageSize);
  }

  /** Reading pages until one says nothing follows gives every document exactly once,
      newest first. */
  lemma PagesHoldEverything(docs: set<Document>, pageSize: int, pages: seq<Page>)
    requires DistinctTimes(docs) && ReadThrough(docs, pageSize, pages)
    ensures IsListing(docs, Joined(pages))
  {
    var all := SomeListing(docs, 1, pageSize, pages[0]);
    PagesAreSlices(docs, pageSize, pages, all);
    SlicesAreAll(all, EffectivePageSize(pageSize), pages);
  }
}
