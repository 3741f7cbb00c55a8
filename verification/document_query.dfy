/**
 The document listing (list_documents of backend/src/services/documents.rs with
 backend/src/utils/setops.rs). It narrows a query and an id set stage by stage,
 returns early where a stage finds nothing, and finally reorders by relevance.
 It is proved equal to filtering by one predicate per request field.

 `rows` is the whole document table in the order of the request's sort clause.
*/
module DocumentQuery {
  import opened Common
  import opened Text
  import opened Folders
  import opened FolderService

  datatype Doc = Doc(id: Id, tenant: TenantId, deleted: bool, folder: Option<Id>, title: string)

  datatype Status = Active | Deleted | All

  datatype Query = Query(
    folder: Option<Id>, includeDescendants: Option<bool>, text: Option<string>,
    tags: Option<string>, correspondents: Option<string>, status: Status)

  /** The tables, and the two matters decided outside: how a UUID reads and when ILIKE matches. */
  datatype Source = Source(
    rows: seq<Doc>, tagRows: set<(Id, Id)>, correspondentRows: set<(Id, Id)>,
    parse: string -> Option<Id>, like: (string, string) -> bool)

  function Ids(docs: seq<Doc>): (r: seq<Id>)
    ensures |r| == |docs| && forall i :: 0 <= i < |docs| ==> r[i] == docs[i].id
  {
    if docs == [] then [] else [docs[0].id] + Ids(docs[1..])
  }

  lemma IdsMembers(docs: seq<Doc>)
    ensures forall id :: id in Ids(docs) <==> exists d :: d in docs && d.id == id
  {
    forall id
      ensures id in Ids(docs) <==> exists d :: d in docs && d.id == id
    {
      if id in Ids(docs) {
        var i :| 0 <= i < |docs| && Ids(docs)[i] == id;
        assert docs[i] in docs;
      }
      if d :| d in docs && d.id == id {
        var i :| 0 <= i < |docs| && docs[i] == d;
        assert Ids(docs)[i] == id;
      }
    }
  }

  // ---------- Request fields ----------

  /** A field counts as given when something is left after trimming. */
  function Given(field: Option<string>): Option<string> {
    if field.Some? && Trim(field.value) != "" then Some(Trim(field.value)) else None
  }

  function Split(s: string, separator: char): (parts: seq<string>)
    ensures parts != []
  {
    if s == "" then [""]
    else if s[0] == separator then [""] + Split(s[1..], separator)
    else
      var rest := Split(s[1..], separator);
      [[s[0]] + rest[0]] + rest[1..]
  }

  function JoinWith(parts: seq<string>, separator: char): string
    requires parts != []
  {
    if |parts| == 1 then parts[0] else parts[0] + [separator] + JoinWith(parts[1..], separator)
  }

  /** The parts hold no separator, and joining them gives back the text. */
  lemma {:induction false} SplitJoins(s: string, separator: char)
    ensures JoinWith(Split(s, separator), separator) == s
    ensures forall p :: p in Split(s, separator) ==> separator !in p
  {
    if s != "" {
      SplitJoins(s[1..], separator);
      var rest := Split(s[1..], separator);
      assert s == [s[0]] + s[1..];
      if s[0] == separator {
        assert Split(s, separator) == [""] + rest;
        JoinFirst("", rest, separator);
        assert "" + [separator] == [separator];
      } else {
        assert rest[0] in rest && Split(s, separator) == [[s[0]] + rest[0]] + rest[1..];
        JoinLonger(s[0], rest, separator);
        forall p | p in Split(s, separator)
          ensures separator !in p
        {
          assert p == [s[0]] + rest[0] || p in rest[1..];
        }
      }
    }
  }

  lemma JoinFirst(first: string, rest: seq<string>, separator: char)
    requires rest != []
    ensures JoinWith([first] + rest, separator) == first + [separator] + JoinWith(rest, separator)
  {
    assert ([first] + rest)[1..] == rest;
  }

  lemma JoinLonger(c: char, parts: seq<string>, separator: char)
    requires parts != []
    ensures JoinWith([[c] + parts[0]] + parts[1..], separator) == [c] + JoinWith(parts, separator)
  {
    assert ([[c] + parts[0]] + parts[1..])[1..] == parts[1..];
    if |parts| > 1 {
      assert [c] + parts[0] + [separator] + JoinWith(parts[1..], separator) == [c] + (parts[0] + [separator] + JoinWith(parts[1..], separator));
    }
  }

  /** The ids of a comma-separated list, unless one of them is no UUID. */
  function ParseAll(parts: seq<string>, parse: string -> Option<Id>): (r: Option<seq<Id>>)
    ensures r.Some? ==> |r.value| == |parts|
  {
    if parts == [] then Some([])
    else
      match parse(Trim(parts[0]))
      case None => None
      case Some(id) =>
        match ParseAll(parts[1..], parse)
        case None => None
        case Some(ids) => Some([id] + ids)
  }

  function Lower(c: char): char {
    if 'A' <= c <= 'Z' then (c as int + 32) as char else c
  }

  predicate EqIgnoreAsciiCase(a: string, b: string) {
    |a| == |b| && forall i :: 0 <= i < |a| ==> Lower(a[i]) == Lower(b[i])
  }

  // ---------- One predicate per field ----------

  predicate StatusOk(q: Query, d: Doc) {
    match q.status
    case Active => !d.deleted
    case Deleted => d.deleted
    case All => true
  }

  ghost predicate FolderOk(t: Table, tenant: TenantId, q: Query, d: Doc)
    requires Acyclic(t)
  {
    var below := q.includeDescendants != Some(false);
    if q.folder.Some? && below then d.folder.Some? && d.folder.value in Descendants(t, tenant, q.folder.value)
    else if q.folder.Some? then d.folder == q.folder
    else below || d.folder.None?
  }

  predicate LinkedToAll(links: set<(Id, Id)>, list: string, parse: string -> Option<Id>, d: Doc) {
    var ids := ParseAll(Split(list, ','), parse);
    ids.Some? ==> forall id :: id in ids.value ==> (d.id, id) in links
  }

  predicate HasLink(links: set<(Id, Id)>, d: Id) {
    exists l :: l in links && l.0 == d
  }

  /** "none" asks for active documents without tags; a list that does not parse asks for nothing. */
  predicate TagsOk(src: Source, q: Query, d: Doc) {
    match Given(q.tags)
    case None => true
    case Some(list) =>
      if EqIgnoreAsciiCase(Trim(list), "none") then !d.deleted && !HasLink(src.tagRows, d.id)
      else LinkedToAll(src.tagRows, list, src.parse, d)
  }

  predicate CorrespondentsOk(src: Source, q: Query, d: Doc) {
    match Given(q.correspondents)
    case None => true
    case Some(list) => LinkedToAll(src.correspondentRows, list, src.parse, d)
  }

  /** All fields but the search text. */
  ghost predicate FieldsOk(src: Source, t: Table, tenant: TenantId, q: Query, d: Doc)
    requires Acyclic(t)
  {
    d.tenant == tenant && StatusOk(q, d) && FolderOk(t, tenant, q, d) && TagsOk(src, q, d) && CorrespondentsOk(src, q, d)
  }

  predicate TitleHit(src: Source, tenant: TenantId, text: string, d: Doc) {
    d.tenant == tenant && !d.deleted && src.like(d.title, text)
  }

  /** Engine hits in their order, then the title hits that are new. */
  function Combined(engine: seq<Id>, titleHits: seq<Id>): seq<Id> {
    engine + Filter(titleHits, (id: Id) => id !in engine)
  }

  // ---------- Set intersections ----------

  function IntersectOptionSets(base: Option<set<Id>>, next: set<Id>): Option<set<Id>> {
    Some(if base.Some? then base.value * next else next)
  }

  function LinkedTo(links: set<(Id, Id)>, id: Id): (r: set<Id>)
    ensures forall d :: d in r <==> (d, id) in links
  {
    var r := set l | l in links && l.1 == id :: l.0;
    assert forall d :: (d, id) in links ==> (d, id).0 in r;
    r
  }

  /** Intersects the documents linked to each id and stops once none is left. */
  method LoadLinkedDocIds(links: set<(Id, Id)>, ids: seq<Id>) returns (r: set<Id>)
    ensures forall d :: d in r <==> ids != [] && forall id :: id in ids ==> (d, id) in links
  {
    var current: Option<set<Id>> := None;
    var i := 0;
    while i < |ids|
      invariant 0 <= i <= |ids|
      invariant current.None? <==> i == 0
      invariant current.Some? ==> forall d :: d in current.value <==> forall k :: 0 <= k < i ==> (d, ids[k]) in links
    {
      current := IntersectOptionSets(current, LinkedTo(links, ids[i]));
      i := i + 1;
      if current.value == {} {
        break;
      }
    }
    r := if current.Some? then current.value else {};
    if ids != [] {
      forall d
        ensures d in r <==> forall id :: id in ids ==> (d, id) in links
      {
        if d in r {
          assert forall id :: id in ids ==> exists k :: 0 <= k < i && ids[k] == id;
        } else {
          var k :| 0 <= k < i && (d, ids[k]) !in links;
          assert ids[k] in ids;
        }
      }
    }
  }

  // ---------- Relevance order ----------

  function Position(order: seq<Id>, id: Id): (p: nat)
    ensures p <= |order|
    ensures id in order ==> p < |order| && order[p] == id
  {
    if order == [] || order[0] == id then 0 else 1 + Position(order[1..], id)
  }

  function InsertByRank(d: Doc, docs: seq<Doc>, order: seq<Id>): seq<Doc> {
    if docs == [] || Position(order, d.id) <= Position(order, docs[0].id) then [d] + docs
    else [docs[0]] + InsertByRank(d, docs[1..], order)
  }

  /** A stable sort by the position in the combined hit list. */
  function SortByRank(docs: seq<Doc>, order: seq<Id>): seq<Doc> {
    if docs == [] then [] else InsertByRank(docs[0], SortByRank(docs[1..], order), order)
  }

  /** Ids in the order of the hit list, without repetition. */
  ghost predicate Ranked(ids: seq<Id>, order: seq<Id>) {
    && (forall i :: 0 <= i < |ids| ==> ids[i] in order)
    && forall i, j :: 0 <= i < j < |ids| ==> Position(order, ids[i]) < Position(order, ids[j])
  }

  lemma {:induction false} InsertKeepsRanked(d: Doc, docs: seq<Doc>, order: seq<Id>)
    requires Ranked(Ids(docs), order) && d.id in order && d.id !in Ids(docs)
    ensures Ranked(Ids(InsertByRank(d, docs, order)), order)
    ensures forall x :: x in InsertByRank(d, docs, order) <==> x == d || x in docs
    decreases |docs|
  {
    if docs != [] {
      assert Ids(docs)[0] == docs[0].id;
      DifferentPlace(d, docs[0], order);
      RankedAfterFirst(docs, order);
      if Position(order, docs[0].id) < Position(order, d.id) {
        TailIsRanked(d, docs, order);
        InsertKeepsRanked(d, docs[1..], order);
        FirstThenRanked(docs[0], InsertByRank(d, docs[1..], order), order);
      } else {
        FirstThenRanked(d, docs, order);
      }
    }
  }

  lemma DifferentPlace(d: Doc, e: Doc, order: seq<Id>)
    requires d.id in order && e.id in order && d.id != e.id
    ensures Position(order, d.id) != Position(order, e.id)
  {
    assert order[Position(order, d.id)] == d.id && order[Position(order, e.id)] == e.id;
  }

  lemma TailIsRanked(d: Doc, docs: seq<Doc>, order: seq<Id>)
    requires docs != [] && Ranked(Ids(docs), order) && d.id !in Ids(docs)
    ensures Ranked(Ids(docs[1..]), order) && d.id !in Ids(docs[1..])
  {
    var ids, tail := Ids(docs), Ids(docs[1..]);
    assert ids == [docs[0].id] + tail;
    forall i | 0 <= i < |tail|
      ensures tail[i] == ids[i + 1]
    {
    }
    forall i, j | 0 <= i < j < |tail|
      ensures Position(order, tail[i]) < Position(order, tail[j])
    {
      assert tail[i] == ids[i + 1] && tail[j] == ids[j + 1];
    }
  }

  lemma RankedAfterFirst(docs: seq<Doc>, order: seq<Id>)
    requires docs != [] && Ranked(Ids(docs), order)
    ensures forall x :: x in docs[1..] ==> Position(order, docs[0].id) < Position(order, x.id)
  {
    forall x | x in docs[1..]
      ensures Position(order, docs[0].id) < Position(order, x.id)
    {
      var i :| 0 <= i < |docs[1..]| && docs[1..][i] == x;
      assert Ids(docs)[0] == docs[0].id && Ids(docs)[i + 1] == x.id;
    }
  }

  lemma FirstThenRanked(first: Doc, rest: seq<Doc>, order: seq<Id>)
    requires Ranked(Ids(rest), order) && first.id in order
    requires forall x :: x in rest ==> Position(order, first.id) < Position(order, x.id)
    ensures Ranked(Ids([first] + rest), order)
  {
    assert Ids([first] + rest) == [first.id] + Ids(rest);
    forall i | 0 <= i < |rest|
      ensures Position(order, first.id) < Position(order, Ids(rest)[i])
    {
      assert rest[i] in rest;
    }
  }

  lemma {:induction false} SortIsRanked(docs: seq<Doc>, order: seq<Id>)
    requires NoDup(Ids(docs)) && forall d :: d in docs ==> d.id in order
    ensures Ranked(Ids(SortByRank(docs, order)), order)
    ensures forall x :: x in SortByRank(docs, order) <==> x in docs
    decreases |docs|
  {
    if docs != [] {
      assert forall i :: 0 <= i < |docs[1..]| ==> Ids(docs[1..])[i] == Ids(docs)[i + 1];
      SortIsRanked(docs[1..], order);
      var sorted := SortByRank(docs[1..], order);
      forall i | 0 <= i < |sorted|
        ensures Ids(sorted)[i] != docs[0].id
      {
        assert sorted[i] in docs[1..];
        var j :| 0 <= j < |docs[1..]| && docs[1..][j] == sorted[i];
        assert Ids(docs)[j + 1] == sorted[i].id;
      }
      InsertKeepsRanked(docs[0], sorted, order);
    }
  }

  lemma {:induction false} PositionInTail(order: seq<Id>, id: Id)
    requires order != [] && id != order[0]
    ensures Position(order, id) == 1 + Position(order[1..], id)
  {
  }

  lemma {:induction false} FilterIsRanked(order: seq<Id>, keep: Id -> bool)
    requires NoDup(order)
    ensures Ranked(Filter(order, keep), order)
    decreases |order|
  {
    if order != [] {
      var tail := Filter(order[1..], keep);
      FilterIsRanked(order[1..], keep);
      forall i | 0 <= i < |tail|
        ensures tail[i] in order[1..] && Position(order, tail[i]) == 1 + Position(order[1..], tail[i])
      {
        assert tail[i] in tail;
        PositionInTail(order, tail[i]);
      }
    }
  }

  lemma {:induction false} RankedIsUnique(a: seq<Id>, b: seq<Id>, order: seq<Id>)
    requires Ranked(a, order) && Ranked(b, order) && forall x :: x in a <==> x in b
    ensures a == b
    decreases |a|
  {
    if b != [] {
      assert b[0] in b;
    }
    if a != [] {
      assert a[0] in a && a[0] in b;
      var i :| 0 <= i < |b| && b[i] == a[0];
      assert b[0] in b && b[0] in a;
      var j :| 0 <= j < |a| && a[j] == b[0];
      assert a[0] == b[0];
      forall x
        ensures x in a[1..] <==> x in b[1..]
      {
        assert x in a <==> x == a[0] || x in a[1..];
        assert x in b <==> x == b[0] || x in b[1..];
        assert x == a[0] ==> x !in a[1..] && x !in b[1..];
      }
      RankedIsUnique(a[1..], b[1..], order);
    }
  }

  // ---------- list_documents ----------

  datatype Failure = SearchUnavailable

  ghost predicate IsTitleResult(src: Source, tenant: TenantId, text: string, titleHits: seq<Id>) {
    NoDup(titleHits) && forall id :: id in titleHits <==> exists d :: d in src.rows && d.id == id && TitleHit(src, tenant, text, d)
  }

  lemma {:induction false} KeptIdsDistinct(rows: seq<Doc>, keep: Doc -> bool)
    requires NoDup(Ids(rows))
    ensures NoDup(Ids(Filter(rows, keep)))
    decreases |rows|
  {
    if rows != [] {
      assert forall i :: 0 <= i < |rows[1..]| ==> Ids(rows[1..])[i] == Ids(rows)[i + 1];
      KeptIdsDistinct(rows[1..], keep);
      var tail := Filter(rows[1..], keep);
      if keep(rows[0]) {
        forall i | 0 <= i < |tail|
          ensures tail[i].id != rows[0].id
        {
          assert tail[i] in tail;
          var k :| 0 <= k < |rows[1..]| && rows[1..][k] == tail[i];
          assert Ids(rows)[k + 1] == tail[i].id;
        }
        assert Filter(rows, keep) == [rows[0]] + tail;
      }
    }
  }

  /** Sorting what the fields keep among the hits gives the hits, filtered, in their order. */
  lemma SortedHits(kept: seq<Doc>, order: seq<Id>)
    requires NoDup(Ids(kept)) && NoDup(order) && forall d :: d in kept ==> d.id in order
    ensures Ids(SortByRank(kept, order)) == Filter(order, (id: Id) => id in Ids(kept))
    ensures forall d :: d in SortByRank(kept, order) <==> d in kept
  {
    SortIsRanked(kept, order);
    IdsMembers(kept);
    IdsMembers(SortByRank(kept, order));
    FilterIsRanked(order, (id: Id) => id in Ids(kept));
    RankedIsUnique(Ids(SortByRank(kept, order)), Filter(order, (id: Id) => id in Ids(kept)), order);
  }

  lemma CombinedNoDup(engine: seq<Id>, titleHits: seq<Id>)
    requires NoDup(engine) && NoDup(titleHits)
    ensures NoDup(Combined(engine, titleHits))
  {
    FilterNoDup(titleHits, (id: Id) => id !in engine);
    NoDupConcat(engine, Filter(titleHits, (id: Id) => id !in engine));
  }

  method TitleSearch(src: Source, tenant: TenantId, text: string) returns (ids: seq<Id>)
    requires NoDup(Ids(src.rows))
    ensures IsTitleResult(src, tenant, text, ids)
  {
    var hits := Filter(src.rows, d => TitleHit(src, tenant, text, d));
    KeptIdsDistinct(src.rows, d => TitleHit(src, tenant, text, d));
    ids := Ids(hits);
    IdsMembers(hits);
  }

  /** The id set after the tag and correspondent stages, or None for an early return of nothing. */
  method LinkStage(links: set<(Id, Id)>, list: string, parse: string -> Option<Id>, filterIds: Option<set<Id>>)
    returns (next: Option<set<Id>>, nothing: bool)
    ensures nothing ==> forall d: Doc :: !LinkedToAll(links, list, parse, d)
    ensures !nothing ==> forall d: Doc {:trigger LinkedToAll(links, list, parse, d)} ::
              InOption(next, d.id) <==> InOption(filterIds, d.id) && LinkedToAll(links, list, parse, d)
  {
    next, nothing := filterIds, false;
    var ids := ParseAll(Split(list, ','), parse);
    if ids.Some? && ids.value != [] {
      var matching := LoadLinkedDocIds(links, ids.value);
      forall d: Doc
        ensures LinkedToAll(links, list, parse, d) <==> d.id in matching
      {
      }
      if matching == {} {
        nothing := true;
        return;
      }
      next := IntersectOptionSets(filterIds, matching);
    }
  }

  predicate InOption(ids: Option<set<Id>>, id: Id) {
    ids.Some? ==> id in ids.value
  }

  /** The untagged active documents of the tenant. */
  function Untagged(src: Source, tenant: TenantId): (r: set<Id>)
    ensures forall id :: id in r <==> exists d :: d in src.rows && d.id == id && d.tenant == tenant && !d.deleted && !HasLink(src.tagRows, d.id)
  {
    set d | d in src.rows && d.tenant == tenant && !d.deleted && !HasLink(src.tagRows, d.id) :: d.id
  }

  /**
   What a request means, for the predicate its other fields make up: without
   search text the rows in order, with it the hits in their order.
   */
  ghost predicate Answers(
    src: Source, tenant: TenantId, q: Query, engine: Result<seq<Id>, Failure>, keep: Doc -> bool, r: Result<seq<Doc>, Failure>)
  {
    match Given(q.text)
    case None => r == Ok(Filter(src.rows, keep))
    case Some(text) =>
      match engine
      case Err(e) => r == Err(e)
      case Ok(hits) =>
        && r.Ok? && (forall d :: d in r.value ==> d in src.rows)
        && exists titleHits :: IsTitleResult(src, tenant, text, titleHits)
             && Ids(r.value) == Filter(Combined(hits, titleHits), (id: Id) => Selects(src.rows, keep, id))
  }

  /** The document of this id is kept. */
  ghost predicate Selects(rows: seq<Doc>, keep: Doc -> bool, id: Id) {
    exists d :: d in rows && d.id == id && keep(d)
  }

  // ---------- Putting the stages together ----------

  lemma RowIsUnique(rows: seq<Doc>, d: Doc, e: Doc)
    requires NoDup(Ids(rows)) && d in rows && e in rows && d.id == e.id
    ensures d == e
  {
    var i :| 0 <= i < |rows| && rows[i] == d;
    var j :| 0 <= j < |rows| && rows[j] == e;
    assert Ids(rows)[i] == Ids(rows)[j];
  }

  /** The tenant, status and folder filters. */
  ghost predicate BaseOk(t: Table, tenant: TenantId, q: Query, d: Doc)
    requires Acyclic(t)
  {
    d.tenant == tenant && StatusOk(q, d) && FolderOk(t, tenant, q, d)
  }

  method BaseQuery(src: Source, folders: FolderTable, ghost t: Table, tenant: TenantId, q: Query) returns (docs: seq<Doc>)
    requires folders.Valid() && t == folders.rows
    ensures docs == Filter(src.rows, d => BaseOk(t, tenant, q, d))
  {
    var first: Doc -> bool := (d: Doc) => d.tenant == tenant && StatusOk(q, d);
    ghost var base: Doc -> bool := (d: Doc) => BaseOk(t, tenant, q, d);
    var includeDescendants := if q.includeDescendants.Some? then q.includeDescendants.value else true;
    docs := Filter(src.rows, first);
    if q.folder.Some? {
      var folder := q.folder.value;
      if includeDescendants {
        var below := folders.GatherDescendants(tenant, folder);
        assert forall x :: x in below <==> x in Elems(below);
        var second: Doc -> bool := (d: Doc) => d.folder.Some? && d.folder.value in below;
        docs := Filter(docs, second);
        assert Elems(below) == Descendants(t, tenant, folder);
        forall d: Doc
          ensures base(d) <==> first(d) && second(d)
        {
          assert FolderOk(t, tenant, q, d) <==> second(d);
        }
        FilterTwice(src.rows, first, second, base);
      } else {
        var second: Doc -> bool := (d: Doc) => d.folder == q.folder;
        docs := Filter(docs, second);
        FilterTwice(src.rows, first, second, base);
      }
    } else if !includeDescendants {
      var second: Doc -> bool := (d: Doc) => d.folder.None?;
      docs := Filter(docs, second);
      FilterTwice(src.rows, first, second, base);
    } else {
      FilterAgree(src.rows, first, base);
    }
  }

  predicate InHits(order: Option<seq<Id>>, id: Id) {
    order.Some? ==> id in order.value
  }

  /** The hit list, when there is one, is that of the request. */
  ghost predicate OrderOf(src: Source, tenant: TenantId, q: Query, engine: Result<seq<Id>, Failure>, order: Option<seq<Id>>) {
    match Given(q.text)
    case None => order.None?
    case Some(text) =>
      engine.Ok? && order.Some? && NoDup(order.value)
      && exists titleHits :: IsTitleResult(src, tenant, text, titleHits) && order.value == Combined(engine.value, titleHits)
  }

  /** When no row is kept, an early empty answer is right. */
  lemma NothingAnswers(
    src: Source, tenant: TenantId, q: Query, engine: Result<seq<Id>, Failure>, order: Option<seq<Id>>, keep: Doc -> bool)
    requires OrderOf(src, tenant, q, engine, order)
    requires forall d :: d in src.rows && InHits(order, d.id) ==> !keep(d)
    ensures Answers(src, tenant, q, engine, keep, Ok([]))
  {
    if order.None? {
      FilterNone(src.rows, keep);
    } else {
      FilterNone(order.value, (id: Id) => Selects(src.rows, keep, id));
    }
  }

  lemma RankedAnswers(
    src: Source, tenant: TenantId, q: Query, engine: Result<seq<Id>, Failure>, order: seq<Id>, keep: Doc -> bool, kept: seq<Doc>)
    requires Given(q.text).Some? && OrderOf(src, tenant, q, engine, Some(order))
    requires NoDup(Ids(kept))
    requires forall d :: d in kept <==> d in src.rows && d.id in order && keep(d)
    ensures Answers(src, tenant, q, engine, keep, Ok(SortByRank(kept, order)))
    ensures NoDup(Ids(SortByRank(kept, order)))
  {
    SortedHits(kept, order);
    FilterNoDup(order, (id: Id) => id in Ids(kept));
    IdsMembers(kept);
    FilterAgree(order, (id: Id) => id in Ids(kept), (id: Id) => Selects(src.rows, keep, id));
  }

  /** The text stage: the hit list and the id set it starts. */
  method TextStage(src: Source, tenant: TenantId, text: string, hits: seq<Id>) returns (order: seq<Id>)
    requires NoDup(Ids(src.rows)) && NoDup(hits)
    ensures NoDup(order)
    ensures exists titleHits :: IsTitleResult(src, tenant, text, titleHits) && order == Combined(hits, titleHits)
  {
    var titleHits := TitleSearch(src, tenant, text);
    CombinedNoDup(hits, titleHits);
    order := Combined(hits, titleHits);
  }

  /** The id set after the tag stage, or an early return of nothing. */
  method TagStage(src: Source, tenant: TenantId, q: Query, filterIds: Option<set<Id>>)
    returns (next: Option<set<Id>>, nothing: bool)
    requires NoDup(Ids(src.rows))
    ensures nothing ==> forall d :: d in src.rows && d.tenant == tenant ==> !TagsOk(src, q, d)
    ensures !nothing ==> forall d: Doc {:trigger InOption(next, d.id)} {:trigger TagsOk(src, q, d)} :: d in src.rows && d.tenant == tenant ==>
              (InOption(next, d.id) <==> InOption(filterIds, d.id) && TagsOk(src, q, d))
  {
    next, nothing := filterIds, false;
    var tagsParam := Given(q.tags);
    if tagsParam.Some? {
      if EqIgnoreAsciiCase(Trim(tagsParam.value), "none") {
        var untagged := Untagged(src, tenant);
        forall d | d in src.rows && d.tenant == tenant
          ensures d.id in untagged <==> TagsOk(src, q, d)
        {
          if d.id in untagged {
            var e :| e in src.rows && e.id == d.id && e.tenant == tenant && !e.deleted && !HasLink(src.tagRows, e.id);
            RowIsUnique(src.rows, d, e);
          }
        }
        if untagged == {} {
          nothing := true;
          return;
        }
        next := IntersectOptionSets(filterIds, untagged);
      } else {
        next, nothing := LinkStage(src.tagRows, tagsParam.value, src.parse, filterIds);
        forall d: Doc
          ensures TagsOk(src, q, d) <==> LinkedToAll(src.tagRows, tagsParam.value, src.parse, d)
          ensures !nothing ==> (InOption(next, d.id) <==> InOption(filterIds, d.id) && TagsOk(src, q, d))
        {
        }
      }
    }
  }

  method CorrespondentStage(src: Source, q: Query, filterIds: Option<set<Id>>)
    returns (next: Option<set<Id>>, nothing: bool)
    ensures nothing ==> forall d: Doc :: !CorrespondentsOk(src, q, d)
    ensures !nothing ==> forall d: Doc {:trigger InOption(next, d.id)} {:trigger CorrespondentsOk(src, q, d)} ::
              InOption(next, d.id) <==> InOption(filterIds, d.id) && CorrespondentsOk(src, q, d)
  {
    next, nothing := filterIds, false;
    var correspondentsParam := Given(q.correspondents);
    if correspondentsParam.Some? {
      next, nothing := LinkStage(src.correspondentRows, correspondentsParam.value, src.parse, filterIds);
      if !nothing {
        forall d: Doc
          ensures InOption(next, d.id) <==> InOption(filterIds, d.id) && CorrespondentsOk(src, q, d)
        {
          assert CorrespondentsOk(src, q, d) <==> LinkedToAll(src.correspondentRows, correspondentsParam.value, src.parse, d);
        }
      }
    }
  }

  lemma FieldsSplit(src: Source, t: Table, tenant: TenantId, q: Query, keep: Doc -> bool, base: Doc -> bool)
    requires Acyclic(t)
    requires keep == (d => FieldsOk(src, t, tenant, q, d)) && base == (d => BaseOk(t, tenant, q, d))
    ensures forall d {:trigger keep(d)} {:trigger base(d)} ::
              (keep(d) <==> base(d) && TagsOk(src, q, d) && CorrespondentsOk(src, q, d)) && (base(d) ==> d.tenant == tenant)
  {
  }

  /**
   The staged listing answers the request: a failing search engine fails it,
   otherwise it returns exactly the documents meeting every field, none twice.
   */
  method ListDocuments(src: Source, folders: FolderTable, ghost t: Table, tenant: TenantId, q: Query, engine: Result<seq<Id>, Failure>)
    returns (r: Result<seq<Doc>, Failure>)
    requires NoDup(Ids(src.rows)) && folders.Valid() && t == folders.rows && (engine.Ok? ==> NoDup(engine.value))
    ensures Answers(src, tenant, q, engine, d => FieldsOk(src, t, tenant, q, d), r)
    ensures r.Ok? ==> NoDup(Ids(r.value))
  {
    ghost var keep: Doc -> bool := (d: Doc) => FieldsOk(src, t, tenant, q, d);
    ghost var base: Doc -> bool := (d: Doc) => BaseOk(t, tenant, q, d);
    FieldsSplit(src, t, tenant, q, keep, base);
    var docs := BaseQuery(src, folders, t, tenant, q);
    r := Narrow(src, tenant, q, engine, docs, keep, base);
  }

  method Narrow(
    src: Source, tenant: TenantId, q: Query, engine: Result<seq<Id>, Failure>, docsQuery: seq<Doc>, ghost keep: Doc -> bool, ghost base: Doc -> bool)
    returns (r: Result<seq<Doc>, Failure>)
    requires NoDup(Ids(src.rows)) && (engine.Ok? ==> NoDup(engine.value)) && docsQuery == Filter(src.rows, base)
    requires forall d {:trigger keep(d)} {:trigger base(d)} ::
               (keep(d) <==> base(d) && TagsOk(src, q, d) && CorrespondentsOk(src, q, d)) && (base(d) ==> d.tenant == tenant)
    ensures Answers(src, tenant, q, engine, keep, r)
    ensures r.Ok? ==> NoDup(Ids(r.value))
  {
    var searchText := Given(q.text);
    var filterIds: Option<set<Id>> := None;
    var order: Option<seq<Id>> := None;
    var nothing := false;

    if searchText.Some? {
      if engine.Err? {
        return Err(engine.error);
      }
      var combined := TextStage(src, tenant, searchText.value, engine.value);
      order := Some(combined);
      if combined == [] {
        NothingAnswers(src, tenant, q, engine, order, keep);
        return Ok([]);
      }
      filterIds := IntersectOptionSets(filterIds, Elems(combined));
    }

    ghost var ofText := filterIds;
    filterIds, nothing := TagStage(src, tenant, q, filterIds);
    if nothing {
      NothingAnswers(src, tenant, q, engine, order, keep);
      return Ok([]);
    }
    ghost var ofTags := filterIds;
    filterIds, nothing := CorrespondentStage(src, q, filterIds);
    if nothing {
      NothingAnswers(src, tenant, q, engine, order, keep);
      return Ok([]);
    }

    var inSet: Doc -> bool := (d: Doc) => InOption(filterIds, d.id);
    var docs := Filter(docsQuery, inSet);
    ghost var both: Doc -> bool := (d: Doc) => InHits(order, d.id) && keep(d);
    forall d | d in src.rows
      ensures both(d) <==> base(d) && inSet(d)
    {
      assert keep(d) <==> base(d) && TagsOk(src, q, d) && CorrespondentsOk(src, q, d);
      assert InOption(ofText, d.id) <==> InHits(order, d.id);
      if base(d) {
        assert d.tenant == tenant;
        assert InOption(ofTags, d.id) <==> InHits(order, d.id) && TagsOk(src, q, d);
        assert InOption(filterIds, d.id) <==> InOption(ofTags, d.id) && CorrespondentsOk(src, q, d);
      }
    }
    FilterTwice(src.rows, base, inSet, both);
    KeptIdsDistinct(src.rows, both);
    if order.Some? {
      RankedAnswers(src, tenant, q, engine, order.value, keep, docs);
      return Ok(SortByRank(docs, order.value));
    }
    FilterAgree(src.rows, both, keep);
    return Ok(docs);
  }

  // ---------- What is answered to a text ----------

  /** The engine found the document, or its title matches. */
  predicate IsHit(src: Source, tenant: TenantId, text: string, hits: seq<Id>, d: Doc) {
    d.id in hits || TitleHit(src, tenant, text, d)
  }

  /** Engine hits come first, in the order of the engine; whatever only its title found comes after them. */
  predicate InHitOrder(hits: seq<Id>, ids: seq<Id>) {
    forall i, j :: 0 <= i < j < |ids| && ids[j] in hits ==> ids[i] in hits && Precedes(hits, ids[i], ids[j])
  }

  lemma CombinedInOrder(hits: seq<Id>, titleHits: seq<Id>, keep: Id -> bool)
    ensures InHitOrder(hits, Filter(Combined(hits, titleHits), keep))
    ensures forall id :: id in Filter(Combined(hits, titleHits), keep) <==> (id in hits || id in titleHits) && keep(id)
  {
    var extra := Filter(titleHits, (id: Id) => id !in hits);
    var first, second := Filter(hits, keep), Filter(extra, keep);
    FilterConcat(hits, extra, keep);
    var ids := Filter(Combined(hits, titleHits), keep);
    assert ids == first + second;
    forall i, j | 0 <= i < j < |ids| && ids[j] in hits
      ensures ids[i] in hits && Precedes(hits, ids[i], ids[j])
    {
      assert forall x :: x in second ==> x !in hits;
      assert ids[j] !in second;
      assert ids[i] == first[i] && ids[j] == first[j];
      FilterOrder(hits, keep, i, j);
    }
    forall id
      ensures id in ids <==> (id in hits || id in titleHits) && keep(id)
    {
      assert id in ids <==> id in first || id in second;
    }
  }

  /**
   The answer to a text holds exactly the documents that meet every other field
   and were found by the engine or by their title.
   */
  lemma TextAnswersExactly(
    src: Source, tenant: TenantId, q: Query, hits: seq<Id>, keep: Doc -> bool, r: Result<seq<Doc>, Failure>)
    requires NoDup(Ids(src.rows)) && Given(q.text).Some? && Answers(src, tenant, q, Ok(hits), keep, r)
    ensures r.Ok? && InHitOrder(hits, Ids(r.value))
    ensures forall d :: d in r.value <==> d in src.rows && keep(d) && IsHit(src, tenant, Given(q.text).value, hits, d)
  {
    var text := Given(q.text).value;
    var titleHits :| IsTitleResult(src, tenant, text, titleHits)
                     && Ids(r.value) == Filter(Combined(hits, titleHits), (id: Id) => Selects(src.rows, keep, id));
    CombinedInOrder(hits, titleHits, (id: Id) => Selects(src.rows, keep, id));
    IdsMembers(r.value);
    forall d | d in src.rows
      ensures d.id in titleHits <==> TitleHit(src, tenant, text, d)
      ensures Selects(src.rows, keep, d.id) <==> keep(d)
      ensures d.id in Ids(r.value) <==> d in r.value
    {
      forall e | e in src.rows && e.id == d.id
        ensures e == d
      {
        RowIsUnique(src.rows, d, e);
      }
    }
  }

  // ---------- What the fields mean for one another ----------

  /** The listing of all documents is that of the active ones and that of the trash together, and no document is in both. */
  lemma StatusParts(src: Source, t: Table, tenant: TenantId, q: Query, d: Doc)
    requires Acyclic(t)
    ensures FieldsOk(src, t, tenant, q.(status := All), d) <==>
              FieldsOk(src, t, tenant, q.(status := Active), d) || FieldsOk(src, t, tenant, q.(status := Deleted), d)
    ensures FieldsOk(src, t, tenant, q.(status := Active), d) ==> !d.deleted
    ensures FieldsOk(src, t, tenant, q.(status := Deleted), d) ==> d.deleted
  {
  }

  /**
   Listing a folder with its descendants lists what the folder and each folder
   below it list by themselves; listing everything adds what is in no folder.
   */
  lemma FolderParts(src: Source, t: Table, tenant: TenantId, q: Query, folder: Id, d: Doc)
    requires Acyclic(t) && q.folder == Some(folder) && q.includeDescendants != Some(false)
    ensures FieldsOk(src, t, tenant, q, d) <==>
              exists x :: IsUnder(t, tenant, folder, x) && FieldsOk(src, t, tenant, q.(folder := Some(x), includeDescendants := Some(false)), d)
    ensures FieldsOk(src, t, tenant, q.(folder := None), d) <==>
              FieldsOk(src, t, tenant, q.(folder := None, includeDescendants := Some(false)), d)
              || exists x :: FieldsOk(src, t, tenant, q.(folder := Some(x), includeDescendants := Some(false)), d)
    ensures FieldsOk(src, t, tenant, q.(folder := None, includeDescendants := Some(false)), d) ==> d.folder.None?
  {
    if d.folder.Some? {
      var x := d.folder.value;
      var one := q.(folder := Some(x), includeDescendants := Some(false));
      assert FolderOk(t, tenant, one, d);
      assert FieldsOk(src, t, tenant, q.(folder := None), d) <==> FieldsOk(src, t, tenant, one, d);
      if FieldsOk(src, t, tenant, q, d) {
        UnderIsDescendant(t, tenant, folder, x);
        assert IsUnder(t, tenant, folder, x) && FieldsOk(src, t, tenant, one, d);
      }
    }
    if x :| IsUnder(t, tenant, folder, x) && FieldsOk(src, t, tenant, q.(folder := Some(x), includeDescendants := Some(false)), d) {
      UnderIsDescendant(t, tenant, folder, x);
    }
  }

  lemma UnderIsDescendant(t: Table, tenant: TenantId, a: Id, x: Id)
    requires Acyclic(t)
    ensures x in Descendants(t, tenant, a) <==> IsUnder(t, tenant, a, x)
  {
  }

  /** The parts with one more character in front. */
  function InFront(c: char, parts: seq<string>, separator: char): seq<string>
    requires parts != []
  {
    if c == separator then [""] + parts else [[c] + parts[0]] + parts[1..]
  }

  lemma SplitStep(c: char, s: string, separator: char)
    ensures Split([c] + s, separator) == InFront(c, Split(s, separator), separator)
  {
    assert ([c] + s)[1..] == s;
  }

  lemma InFrontOfConcat(c: char, a: seq<string>, b: seq<string>, separator: char)
    requires a != []
    ensures InFront(c, a + b, separator) == InFront(c, a, separator) + b
  {
  }

  lemma HeadOfConcat<T>(a: seq<T>, b: seq<T>, c: seq<T>)
    requires a != []
    ensures a + b + c == [a[0]] + (a[1..] + b + c) && a == [a[0]] + a[1..]
  {
  }

  lemma {:induction false} SplitConcat(a: string, b: string, separator: char)
    ensures Split(a + [separator] + b, separator) == Split(a, separator) + Split(b, separator)
  {
    if a == "" {
      assert a + [separator] + b == [separator] + b;
      SplitStep(separator, b, separator);
    } else {
      HeadOfConcat(a, [separator], b);
      SplitConcat(a[1..], b, separator);
      SplitStep(a[0], a[1..] + [separator] + b, separator);
      SplitStep(a[0], a[1..], separator);
      InFrontOfConcat(a[0], Split(a[1..], separator), Split(b, separator), separator);
    }
  }

  lemma {:induction false} ParseAllConcat(a: seq<string>, b: seq<string>, parse: string -> Option<Id>)
    ensures ParseAll(a + b, parse).Some? <==> ParseAll(a, parse).Some? && ParseAll(b, parse).Some?
    ensures ParseAll(a + b, parse).Some? ==> ParseAll(a + b, parse).value == ParseAll(a, parse).value + ParseAll(b, parse).value
    decreases |a|
  {
    if a == [] {
      assert a + b == b;
    } else {
      assert (a + b)[1..] == a[1..] + b;
      ParseAllConcat(a[1..], b, parse);
    }
  }

  /** A list that can be read asks for the documents linked to each of its ids; a longer list asks for more. */
  lemma ListMeansAll(links: set<(Id, Id)>, a: string, b: string, parse: string -> Option<Id>, d: Doc)
    requires ParseAll(Split(a, ','), parse).Some? && ParseAll(Split(b, ','), parse).Some?
    ensures LinkedToAll(links, a + [','] + b, parse, d) <==> LinkedToAll(links, a, parse, d) && LinkedToAll(links, b, parse, d)
  {
    SplitConcat(a, b, ',');
    ParseAllConcat(Split(a, ','), Split(b, ','), parse);
  }

  lemma OneIdMeansLinked(links: set<(Id, Id)>, list: string, parse: string -> Option<Id>, d: Doc, id: Id)
    requires ',' !in list && parse(Trim(list)) == Some(id)
    ensures LinkedToAll(links, list, parse, d) <==> (d.id, id) in links
  {
    SplitWhole(list, ',');
    assert ParseAll([list][1..], parse) == Some([]);
    assert [id] + [] == [id];
    assert ParseAll([list], parse).value == [id];
  }

  /**
   What the two lists ask for: a correspondent id for its correspondent rows, a tag
   id for its tag rows, and "none" in any case for active documents without a tag.
   */
  lemma FieldsMean(src: Source, q: Query, d: Doc, id: Id)
    ensures NamesOne(src, q.correspondents, id) ==> (CorrespondentsOk(src, q, d) <==> (d.id, id) in src.correspondentRows)
    ensures NamesOne(src, q.tags, id) && !AsksForNone(q) ==> (TagsOk(src, q, d) <==> (d.id, id) in src.tagRows)
    ensures AsksForNone(q) ==> (TagsOk(src, q, d) <==> !d.deleted && forall tag :: (d.id, tag) !in src.tagRows)
    ensures AsksForNone(q) <==> q.tags.Some? && Trim(q.tags.value) != "" && IsNone(Trim(Trim(q.tags.value)))
  {
    if NamesOne(src, q.correspondents, id) {
      OneIdMeansLinked(src.correspondentRows, Given(q.correspondents).value, src.parse, d, id);
    }
    if NamesOne(src, q.tags, id) {
      OneIdMeansLinked(src.tagRows, Given(q.tags).value, src.parse, d, id);
    }
    if AsksForNone(q) {
      assert HasLink(src.tagRows, d.id) <==> exists tag :: (d.id, tag) in src.tagRows by {
        if l :| l in src.tagRows && l.0 == d.id {
          assert (d.id, l.1) == l;
        }
      }
    }
  }

  /** The field holds one id and nothing else. */
  predicate NamesOne(src: Source, field: Option<string>, id: Id) {
    && Given(field).Some? && ',' !in Given(field).value && src.parse(Trim(Given(field).value)) == Some(id)
  }

  predicate IsNone(s: string) {
    |s| == 4 && s[0] in "nN" && s[1] in "oO" && s[2] in "nN" && s[3] in "eE"
  }

  lemma {:induction false} SplitWhole(s: string, separator: char)
    requires separator !in s
    ensures Split(s, separator) == [s]
  {
    if s != "" {
      SplitWhole(s[1..], separator);
      assert [s[0]] + s[1..] == s;
    }
  }

  // ---------- What some requests always answer ----------

  predicate AsksForNone(q: Query) {
    Given(q.tags).Some? && EqIgnoreAsciiCase(Trim(Given(q.tags).value), "none")
  }

  /** Documents without tags are looked for among the active ones only, so in the trash none is ever found. */
  lemma UntaggedInTrashIsEmpty(
    src: Source, tenant: TenantId, q: Query, engine: Result<seq<Id>, Failure>, keep: Doc -> bool, r: Result<seq<Doc>, Failure>)
    requires q.status == Deleted && AsksForNone(q)
    requires forall d: Doc :: keep(d) ==> StatusOk(q, d) && TagsOk(src, q, d)
    requires Answers(src, tenant, q, engine, keep, r)
    ensures if Given(q.text).Some? && engine.Err? then r.Err? else r == Ok([])
  {
    assert forall d: Doc :: !keep(d);
    if Given(q.text).None? {
      FilterNone(src.rows, keep);
    } else if engine.Ok? {
      var titleHits :| IsTitleResult(src, tenant, Given(q.text).value, titleHits)
                       && Ids(r.value) == Filter(Combined(engine.value, titleHits), (id: Id) => Selects(src.rows, keep, id));
      FilterNone(Combined(engine.value, titleHits), (id: Id) => Selects(src.rows, keep, id));
      assert |Ids(r.value)| == 0;
    }
  }

  /** In the trash the title search adds nothing: every document found with a text is a hit of the engine. */
  lemma TrashIsFoundByEngineOnly(
    src: Source, tenant: TenantId, q: Query, hits: seq<Id>, keep: Doc -> bool, r: Result<seq<Doc>, Failure>)
    requires q.status == Deleted && Given(q.text).Some? && NoDup(Ids(src.rows))
    requires forall d: Doc :: keep(d) ==> StatusOk(q, d)
    ensures Answers(src, tenant, q, Ok(hits), keep, r) ==> r.Ok? && forall d :: d in r.value ==> d.id in hits
  {
    if Answers(src, tenant, q, Ok(hits), keep, r) {
      var text := Given(q.text).value;
      var titleHits :| IsTitleResult(src, tenant, text, titleHits)
                       && Ids(r.value) == Filter(Combined(hits, titleHits), (id: Id) => Selects(src.rows, keep, id));
      forall d | d in r.value
        ensures d.id in hits
      {
        IdsMembers(r.value);
        assert d.id in Ids(r.value);
        var e :| e in src.rows && e.id == d.id && keep(e);
        if d.id in titleHits {
          var f :| f in src.rows && f.id == d.id && TitleHit(src, tenant, text, f);
          RowIsUnique(src.rows, e, f);
        }
      }
    }
  }

  /** A list with one part that is no id counts as no list at all. */
  lemma {:induction false} UnreadableExactly(parts: seq<string>, parse: string -> Option<Id>)
    ensures ParseAll(parts, parse).None? <==> exists p :: p in parts && parse(Trim(p)).None?
    decreases |parts|
  {
    if parts != [] {
      UnreadableExactly(parts[1..], parse);
      assert forall p :: p in parts <==> p == parts[0] || p in parts[1..];
    }
  }

  /** A correspondent list with an unreadable id answers what the request without the list does. */
  lemma UnreadableListFiltersNothing(src: Source, t: Table, tenant: TenantId, q: Query, list: string, part: string, d: Doc)
    requires Acyclic(t) && part in Split(Trim(list), ',') && src.parse(Trim(part)).None?
    ensures FieldsOk(src, t, tenant, q.(correspondents := Some(list)), d) == FieldsOk(src, t, tenant, q.(correspondents := None), d)
    ensures !EqIgnoreAsciiCase(Trim(Trim(list)), "none") ==>
              FieldsOk(src, t, tenant, q.(tags := Some(list)), d) == FieldsOk(src, t, tenant, q.(tags := None), d)
  {
    UnreadableExactly(Split(Trim(list), ','), src.parse);
  }
}
