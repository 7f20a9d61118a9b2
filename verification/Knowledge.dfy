/** Reading documents: Get, List and Search of internal/knowledge/service.go, and
    how the three agree. */
module Knowledge {
  import opened Wrappers
  import Access
  import Catalog

  /** What the service is told about a request: the principal, its subject key and
      groups, and the token and scopes it came with. */
  datatype Caller = Caller(
    principal: Access.Principal, userId: string, subjectKey: string, groups: seq<string>,
    token: Option<Access.Token>, scopes: seq<Access.Scope>)

  datatype Error = NotFound | Forbidden | Failed(reason: string)

  /** A record the vector store returned. */
  datatype Record = Record(docId: string, score: real)

  datatype Hit = Hit(docId: string, title: string, score: real, visibility: string, source: string, sourceUrl: string)

  /** The access store's contents. */
  datatype Grants = Grants(storages: map<string, Access.Storage>, acl: map<string, Access.Binding>)

  // ---- Visibility -------------------------------------------------------------------------------

  predicate Owns(c: Caller, d: Catalog.Document) {
    d.ownerId != "" && (d.ownerId == c.userId || d.ownerId == c.subjectKey)
  }

  predicate CanSee(c: Caller, d: Catalog.Document) {
    match d.visibility
    case "public" => true
    case "personal" => Owns(c, d)
    case "group" => Owns(c, d) || Catalog.Overlaps(d.groupIds, c.groups)
    case _ => true
  }

  method OwnerIdentifiers(c: Caller) returns (out: seq<string>)
    ensures forall x :: x in out <==> x != "" && (x == c.userId || x == c.subjectKey)
    ensures forall i, j | 0 <= i < j < |out| :: out[i] != out[j]
  {
    out := [];
    var ids := [c.userId, c.subjectKey];
    for i := 0 to |ids|
      invariant forall x :: x in out <==> x != "" && x in ids[..i]
      invariant forall i, j | 0 <= i < j < |out| :: out[i] != out[j]
    {
      if ids[i] == "" || ids[i] in out {
        continue;
      }
      out := out + [ids[i]];
    }
    assert ids[..|ids|] == ids;
  }

  /** The filter List hands to the catalog says the same as the check Get makes. */
  lemma SameVisibility(c: Caller, owners: seq<string>, d: Catalog.Document)
    requires forall x :: x in owners <==> x != "" && (x == c.userId || x == c.subjectKey)
    ensures Catalog.VisibleInMemory(d, owners, c.groups) == CanSee(c, d)
  {
    assert d.ownerId in owners <==> Owns(c, d);
  }

  // ---- Who may read what ------------------------------------------------------------------------

  /** What Get demands. */
  ghost predicate MayRead(g: Grants, c: Caller, d: Catalog.Document) {
    && d.storageId != ""
    && Access.CanAccess(g.acl, c.principal, c.token, c.scopes, d.storageId, Access.DocumentRead)
    && CanSee(c, d)
  }

  /** What the readable set holds. */
  ghost predicate Readable(g: Grants, c: Caller, storageId: string, now: int) {
    && storageId in g.storages
    && Access.Candidate(g.acl, c.principal, c.token, c.scopes, storageId, now)
    && Access.CanAccess(g.acl, c.principal, c.token, c.scopes, storageId, Access.DocumentRead)
  }

  /** The filters of a request the caller controls. */
  predicate Asked(d: Catalog.Document, req: Catalog.PageRequest) {
    && (req.storageId == "" || d.storageId == req.storageId)
    && (req.source == "" || d.source == req.source)
    && Catalog.MatchesUrl(d, req)
  }

  /** The documents a List call pages through. */
  ghost function Listed(docs: map<string, Catalog.Document>, g: Grants, c: Caller, req: Catalog.PageRequest,
      now: int): set<Catalog.Document> {
    set id | id in docs && Asked(docs[id], req) && Readable(g, c, docs[id].storageId, now) && CanSee(c, docs[id]) ::
      docs[id]
  }

  /** A document Search may show. */
  ghost predicate Shown(docs: map<string, Catalog.Document>, g: Grants, c: Caller, id: string, now: int) {
    && id != "" && id in docs
    && (docs[id].status == "" || docs[id].status == "ready")
    && Readable(g, c, docs[id].storageId, now) && CanSee(c, docs[id])
  }

  ghost function ShownIds(docs: map<string, Catalog.Document>, g: Grants, c: Caller, now: int): set<string> {
    set id | id in docs && Shown(docs, g, c, id, now)
  }

  function HitOf(d: Catalog.Document, score: real): Hit {
    Hit(d.docId, d.title, score, d.visibility, d.source, d.sourceUrl)
  }

  ghost function HitsOf(docs: map<string, Catalog.Document>, shown: set<string>, recs: seq<Record>): seq<Hit>
    requires shown <= docs.Keys
  {
    if recs == [] then [] else
      var last := recs[|recs| - 1];
      HitsOf(docs, shown, recs[..|recs| - 1]) + (if last.docId in shown then
        [HitOf(docs[last.docId], last.score)] else [])
  }

  /** What the catalog selects for the request List builds is what should be listed. */
  lemma SelectionIsListed(docs: map<string, Catalog.Document>, g: Grants, c: Caller, req: Catalog.PageRequest,
      full: Catalog.PageRequest, now: int)
    requires full == req.(allowedStorageIds := full.allowedStorageIds, applyVisibility := true,
      owners := full.owners, groups := c.groups)
    requires full.allowedStorageIds != {}
    requires forall x :: x in full.owners <==> x != "" && (x == c.userId || x == c.subjectKey)
    requires forall id | id in docs && Asked(docs[id], req) ::
      docs[id].storageId in full.allowedStorageIds <==> Readable(g, c, docs[id].storageId, now)
    ensures Catalog.SelectedIn(docs, docs.Keys, full) == Listed(docs, g, c, req, now)
  {
    forall id | id in docs ensures Catalog.Selected(docs[id], full) <==>
                                     Asked(docs[id], req) && Readable(g, c, docs[id].storageId, now)
                                       && CanSee(c, docs[id])
    {
      SameVisibility(c, full.owners, docs[id]);
      assert Catalog.MatchesUrl(docs[id], full) == Catalog.MatchesUrl(docs[id], req);
    }
  }

  // ---- The service --------------------------------------------------------------------------------

  class Service {
    const catalog: Catalog.Store
    const access: Access.Store

    constructor (catalog: Catalog.Store, access: Access.Store)
      ensures this.catalog == catalog && this.access == access
    {
      this.catalog := catalog;
      this.access := access;
    }

    ghost predicate Valid()
      reads this, catalog, access
    {
      Catalog.WellKept(catalog.docs) && access.Valid()
    }

    ghost function Held(): Grants
      reads access
    {
      Grants(access.storages, access.acl)
    }

    method CanReadDoc(c: Caller, d: Catalog.Document) returns (ok: bool)
      ensures ok == MayRead(Held(), c, d)
    {
      var r := access.CanAccessStorage(c.principal, c.token, c.scopes, d.storageId, Access.DocumentRead);
      ok := r.Ok? && r.value.ok && CanSee(c, d);
    }

    method Get(c: Caller, id: string) returns (r: Result<Catalog.Document, Error>)
      ensures id !in catalog.docs ==> r == Err(NotFound)
      ensures id in catalog.docs && MayRead(Held(), c, catalog.docs[id]) ==> r == Ok(catalog.docs[id])
      ensures id in catalog.docs && !MayRead(Held(), c, catalog.docs[id]) ==> r == Err(Forbidden)
    {
      if id !in catalog.docs {
        return Err(NotFound);
      }
      var ok := CanReadDoc(c, catalog.docs[id]);
      if !ok {
        return Err(Forbidden);
      }
      return Ok(catalog.docs[id]);
    }

    method List(c: Caller, req: Catalog.PageRequest, now: int) returns (r: Result<Catalog.Page, Error>)
      requires Valid()
      ensures req.storageId != "" && !Readable(Held(), c, req.storageId, now) ==> r == Err(Forbidden)
      ensures req.storageId == "" || Readable(Held(), c, req.storageId, now) ==>
        r.Ok? && Catalog.IsAnswer(Listed(catalog.docs, Held(), c, req, now), req.page, req.pageSize, r.value)
    {
      var readable := access.ReadableStorageIds(c.principal, c.token, c.scopes, now);
      assert forall id :: id in readable <==> Readable(Held(), c, id, now);
      var allowed := readable;
      if req.storageId != "" {
        if req.storageId !in readable {
          return Err(Forbidden);
        }
        allowed := {req.storageId};
      } else if readable == {} {
        var none: seq<Catalog.Document> := [];
        assert Listed(catalog.docs, Held(), c, req, now) == {};
        assert Catalog.IsListing(Listed(catalog.docs, Held(), c, req, now), none);
        return Ok(EmptyPage(req));
      }
      var owners := OwnerIdentifiers(c);
      var full := req.(allowedStorageIds := allowed, applyVisibility := true, owners := owners, groups := c.groups);
      SelectionIsListed(catalog.docs, Held(), c, req, full, now);
      var page := catalog.List(full);
      return Ok(page);
    }

    method Search(c: Caller, storageId: string, found: Result<seq<Record>, string>,
        now: int) returns (r: Result<seq<Hit>, Error>)
      requires Valid()
      ensures storageId != "" && !Readable(Held(), c, storageId, now) ==> r == Err(Forbidden)
      ensures (storageId == "" || Readable(Held(), c, storageId, now)) && found.Err? ==> r == Err(Failed(found.error))
      ensures (storageId == "" || Readable(Held(), c, storageId, now)) && found.Ok? ==>
        r == Ok(HitsOf(catalog.docs, ShownIds(catalog.docs, Held(), c, now), found.value))
    {
      var readable := access.ReadableStorageIds(c.principal, c.token, c.scopes, now);
      if storageId != "" && storageId !in readable {
        return Err(Forbidden);
      }
      if found.Err? {
        return Err(Failed(found.error));
      }
      var hits := FilterHits(c, readable, found.value, now);
      return Ok(hits);
    }

    method FilterHits(c: Caller, readable: set<string>, recs: seq<Record>, now: int) returns (hits: seq<Hit>)
      requires forall id :: id in readable <==> Readable(Held(), c, id, now)
      ensures hits == HitsOf(catalog.docs, ShownIds(catalog.docs, Held(), c, now), recs)
    {
      var ids := DocIds(recs);
      var docsById := catalog.GetMany(ids);
      ghost var shown := ShownIds(catalog.docs, Held(), c, now);
      hits := [];
      for i := 0 to |recs|
        invariant hits == HitsOf(catalog.docs, shown, recs[..i])
      {
        assert recs[..i + 1][..i] == recs[..i];
        var id := recs[i].docId;
        assert id in docsById <==> id != "" && id in catalog.docs;
        if id !in docsById {
          continue;
        }
        var doc := docsById[id];
        if doc.status != "" && doc.status != "ready" {
          continue;
        }
        if !(doc.storageId in readable && CanSee(c, doc)) {
          continue;
        }
        hits := hits + [HitOf(doc, recs[i].score)];
      }
      assert recs[..|recs|] == recs;
    }
  }

  /** The document ids of the records, without blanks and repeats. */
  method DocIds(recs: seq<Record>) returns (ids: seq<string>)
    ensures forall i | 0 <= i < |recs| :: recs[i].docId == "" || recs[i].docId in ids
    ensures "" !in ids
  {
    ids := [];
    for i := 0 to |recs|
      invariant forall j | 0 <= j < i :: recs[j].docId == "" || recs[j].docId in ids
      invariant "" !in ids
    {
      if recs[i].docId == "" || recs[i].docId in ids {
        continue;
      }
      ids := ids + [recs[i].docId];
    }
  }

  function EmptyPage(req: Catalog.PageRequest): (r: Catalog.Page)
    ensures r == Catalog.PageOf([], req.page, req.pageSize)
  {
    var ps := if req.pageSize <= 0 then 20 else req.pageSize;
    var pg := if req.page <= 0 then 1 else req.page;
    Catalog.NonNegative(pg - 1, ps);
    Catalog.Page([], pg, ps, 0, false)
  }

  // ---- The three agree ------------------------------------------------------------------------------

  predicate Unfiltered(req: Catalog.PageRequest) {
    req.storageId == "" && req.source == "" && req.sourceUrl == ""
  }

  /** Exactly which of the documents Get returns an unfiltered List leaves out: those
      in storages that do not exist, or where the caller's bindings all have expired. */
  lemma ListedExactly(docs: map<string, Catalog.Document>, g: Grants, c: Caller, req: Catalog.PageRequest, now: int,
      id: string)
    requires Catalog.WellKept(docs) && Unfiltered(req) && id in docs
    ensures docs[id] in Listed(docs, g, c, req, now) <==>
              && MayRead(g, c, docs[id])
              && docs[id].storageId in g.storages
              && ((c.token.None? && Access.PlatformAdmin(c.principal))
                || Access.InForce(g.acl, c.principal.subjectKeys, docs[id].storageId, now))
  {
    var d := docs[id];
    if MayRead(g, c, d) {
      Access.IndexExact(g.acl, c.principal, c.token, c.scopes, d.storageId, Access.DocumentRead, now);
    }
    assert d in Listed(docs, g, c, req, now) <==> Readable(g, c, d.storageId, now) && CanSee(c, d);
  }

  lemma ListedIsReadable(docs: map<string, Catalog.Document>, g: Grants, c: Caller, req: Catalog.PageRequest,
      now: int, id: string)
    requires Catalog.WellKept(docs) && Unfiltered(req) && id in docs
    requires docs[id].storageId in g.storages
    requires NoneExpired(g, now)
    ensures docs[id] in Listed(docs, g, c, req, now) <==> MayRead(g, c, docs[id])
  {
    var d := docs[id];
    ListedExactly(docs, g, c, req, now, id);
    if MayRead(g, c, d) {
      Access.IndexExact(g.acl, c.principal, c.token, c.scopes, d.storageId, Access.DocumentRead, now);
      Access.IndexComplete(g.acl, c.principal, c.token, c.scopes, d.storageId, Access.DocumentRead, now);
    }
  }

  lemma ListedAreDocuments(docs: map<string, Catalog.Document>, g: Grants, c: Caller, req: Catalog.PageRequest,
      now: int)
    requires Catalog.WellKept(docs)
    ensures forall d | d in Listed(docs, g, c, req, now) :: d.docId in docs && d == docs[d.docId]
  {
  }

  lemma ListedDistinct(docs: map<string, Catalog.Document>, listed: set<Catalog.Document>)
    requires forall d | d in listed :: d.docId in docs && d == docs[d.docId]
    requires DistinctUpdates(docs)
    ensures Catalog.DistinctTimes(listed)
  {
  }

  lemma CountInListing(listed: set<Catalog.Document>, all: seq<Catalog.Document>, d: Catalog.Document)
    requires Catalog.IsListing(listed, all)
    ensures multiset(all)[d] == (if d in listed then 1 else 0)
  {
  }

  predicate StoragesExist(docs: map<string, Catalog.Document>, g: Grants) {
    forall id | id in docs :: docs[id].storageId in g.storages
  }

  predicate NoneExpired(g: Grants, now: int) {
    forall b | b in g.acl :: !Access.Expired(g.acl[b], now)
  }

  predicate DistinctUpdates(docs: map<string, Catalog.Document>) {
    forall i, j | i in docs && j in docs :: docs[i].updatedAt == docs[j].updatedAt ==> i == j
  }

  /** The ids for which Get returns a document. */
  ghost function Gettable(docs: map<string, Catalog.Document>, g: Grants, c: Caller): set<string> {
    set id | id in docs && MayRead(g, c, docs[id])
  }

  /** The documents with the given ids, each once, newest first. */
  ghost predicate HoldsOnce(docs: map<string, Catalog.Document>, ids: set<string>, all: seq<Catalog.Document>) {
    && (forall id | id in docs :: multiset(all)[docs[id]] == if id in ids then 1 else 0)
    && (forall i | 0 <= i < |all| :: all[i].docId in docs && all[i] == docs[all[i].docId])
    && Catalog.NewestFirst(all)
  }

  ghost predicate ListsExactly(docs: map<string, Catalog.Document>, ids: set<string>, listed: set<Catalog.Document>) {
    && (forall d | d in listed :: d.docId in docs && d == docs[d.docId])
    && (forall id | id in docs :: docs[id] in listed <==> id in ids)
  }

  lemma ListingHoldsOnce(docs: map<string, Catalog.Document>, ids: set<string>, listed: set<Catalog.Document>,
      all: seq<Catalog.Document>)
    requires Catalog.IsListing(listed, all) && ListsExactly(docs, ids, listed)
    ensures HoldsOnce(docs, ids, all)
  {
    forall id | id in docs ensures multiset(all)[docs[id]] == if id in ids then 1 else 0 {
      CountInListing(listed, all, docs[id]);
    }
    Catalog.ElementsAre(listed, all);
  }

  lemma ListedIsGettable(docs: map<string, Catalog.Document>, g: Grants, c: Caller, req: Catalog.PageRequest, now: int)
    requires Catalog.WellKept(docs) && Unfiltered(req)
    requires StoragesExist(docs, g) && NoneExpired(g, now)
    ensures ListsExactly(docs, Gettable(docs, g, c), Listed(docs, g, c, req, now))
  {
    ListedAreDocuments(docs, g, c, req, now);
    forall id | id in docs ensures docs[id] in Listed(docs, g, c, req, now) <==> id in Gettable(docs, g, c) {
      ListedIsReadable(docs, g, c, req, now, id);
    }
  }

  lemma PagesHoldOnce(docs: map<string, Catalog.Document>, ids: set<string>, listed: set<Catalog.Document>,
      pageSize: int, pages: seq<Catalog.Page>)
    requires ListsExactly(docs, ids, listed) && DistinctUpdates(docs)
    requires Catalog.ReadThrough(listed, pageSize, pages)
    ensures HoldsOnce(docs, ids, Catalog.Joined(pages))
  {
    ListedDistinct(docs, listed);
    Catalog.PagesHoldEverything(listed, pageSize, pages);
    ListingHoldsOnce(docs, ids, listed, Catalog.Joined(pages));
  }

  lemma ListsTheSame(docs: map<string, Catalog.Document>, ids: set<string>, a: set<Catalog.Document>,
      b: set<Catalog.Document>)
    requires ListsExactly(docs, ids, a) && ListsExactly(docs, ids, b)
    ensures a == b
  {
    assert forall d | d in a :: docs[d.docId] in b;
    assert forall d | d in b :: docs[d.docId] in a;
  }

  /** What List may answer to the calls for pages 1, 2, ... made at the given times, all
      but the last saying that more follow. */
  ghost predicate Answers(docs: map<string, Catalog.Document>, g: Grants, c: Caller, req: Catalog.PageRequest,
      times: seq<int>, pages: seq<Catalog.Page>) {
    && 0 < |pages| == |times|
    && (forall i | 0 <= i < |pages| :: Catalog.IsAnswer(Listed(docs, g, c, req.(page := i + 1), times[i]), i + 1,
      req.pageSize, pages[i]))
    && (forall i | 0 <= i < |pages| - 1 :: pages[i].hasNext)
    && !pages[|pages| - 1].hasNext
  }

  lemma AnswerFromOneList(docs: map<string, Catalog.Document>, g: Grants, c: Caller, req: Catalog.PageRequest,
      now: int, later: int, i: nat, page: Catalog.Page)
    requires Catalog.WellKept(docs) && Unfiltered(req)
    requires StoragesExist(docs, g) && NoneExpired(g, now) && NoneExpired(g, later)
    requires Catalog.IsAnswer(Listed(docs, g, c, req.(page := i + 1), later), i + 1, req.pageSize, page)
    ensures Catalog.IsAnswer(Listed(docs, g, c, req, now), i + 1, req.pageSize, page)
  {
    ListedIsGettable(docs, g, c, req, now);
    ListedIsGettable(docs, g, c, req.(page := i + 1), later);
    ListsTheSame(docs, Gettable(docs, g, c), Listed(docs, g, c, req, now), Listed(docs, g, c, req.(page := i + 1),
      later));
  }

  lemma AnswersReadThrough(docs: map<string, Catalog.Document>, g: Grants, c: Caller, req: Catalog.PageRequest,
      times: seq<int>, pages: seq<Catalog.Page>)
    requires Catalog.WellKept(docs) && Unfiltered(req) && StoragesExist(docs, g)
    requires forall i | 0 <= i < |times| :: NoneExpired(g, times[i])
    requires Answers(docs, g, c, req, times, pages)
    ensures Catalog.ReadThrough(Listed(docs, g, c, req, times[0]), req.pageSize, pages)
  {
    forall i | 0 <= i < |pages| ensures Catalog.IsAnswer(Listed(docs, g, c, req, times[0]), i + 1, req.pageSize,
      pages[i]) {
      AnswerFromOneList(docs, g, c, req, times[0], times[i], i, pages[i]);
    }
  }

  /** With all storages present, no binding expired and distinct times, the pages of an
      unfiltered List, read until none follows, hold each document Get would return
      exactly once, nothing else, newest first. */
  lemma PagesAgreeWithGet(docs: map<string, Catalog.Document>, g: Grants, c: Caller, req: Catalog.PageRequest,
      times: seq<int>, pages: seq<Catalog.Page>)
    requires Catalog.WellKept(docs) && Unfiltered(req)
    requires StoragesExist(docs, g) && DistinctUpdates(docs)
    requires forall i | 0 <= i < |times| :: NoneExpired(g, times[i])
    requires Answers(docs, g, c, req, times, pages)
    ensures HoldsOnce(docs, Gettable(docs, g, c), Catalog.Joined(pages))
  {
    AnswersReadThrough(docs, g, c, req, times, pages);
    ListedIsGettable(docs, g, c, req, times[0]);
    PagesHoldOnce(docs, Gettable(docs, g, c), Listed(docs, g, c, req, times[0]), req.pageSize, pages);
  }

  /** Every hit stands for a document with status ready or none that Get would return to
      this caller, and shows that document's own fields; no matching record of such a
      document is dropped. */
  lemma {:induction false} HitsAgreeWithGet(docs: map<string, Catalog.Document>, g: Grants, c: Caller, now: int,
      recs: seq<Record>)
    requires Catalog.WellKept(docs)
    ensures var shown := ShownIds(docs, g, c, now);
            forall h | h in HitsOf(docs, shown, recs) ::
              && h.docId in docs
              && MayRead(g, c, docs[h.docId])
              && (docs[h.docId].status == "" || docs[h.docId].status == "ready")
              && h == HitOf(docs[h.docId], h.score)
              && Record(h.docId, h.score) in recs
    ensures var shown := ShownIds(docs, g, c, now);
            forall i | 0 <= i < |recs| && recs[i].docId in shown ::
              HitOf(docs[recs[i].docId], recs[i].score) in HitsOf(docs, shown, recs)
    decreases |recs|
  {
    var shown := ShownIds(docs, g, c, now);
    if recs != [] {
      var n := |recs| - 1;
      var front := recs[..n];
      HitsAgreeWithGet(docs, g, c, now, front);
      assert forall r | r in front :: r in recs;
      assert recs[n] == Record(recs[n].docId, recs[n].score) && recs[n] in recs;
      assert forall i | 0 <= i < n :: front[i] == recs[i];
    }
  }
}
