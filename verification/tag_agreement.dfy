/**
 The server's document-tag relation (backend/src/services/tags.rs and
 backend/src/documents/tags.rs) and the client's cached tag lists, which the client
 changes by itself after each successful request
 (frontend/src/documents/DocumentsManager.ts).
*/
module TagAgreement {
  import opened Common
  import opened DocumentCache

  datatype TagError = BadRequest | NotFound

  /** One tenant's rows: documents with their "is deleted" flag, tags, and the relation. */
  datatype Rows = Rows(docs: map<Id, bool>, tags: set<Id>, links: set<(Id, Id)>)

  datatype TagOp =
    | AddTags(doc: Id, tagIds: seq<Id>)
    | RemoveTag(doc: Id, tag: Id)
    | BulkTag(docIds: seq<Id>, tagIds: seq<Id>, add: bool)

  // ---------- The server ----------

  function Pairs(docIds: set<Id>, tagIds: set<Id>): set<(Id, Id)> {
    set d, t | d in docIds && t in tagIds :: (d, t)
  }

  predicate LiveDocs(docs: map<Id, bool>, ids: set<Id>) {
    forall d :: d in ids ==> d in docs && !docs[d]
  }

  /** What a request leads to: an error and no change, or new rows. */
  function Served(r: Rows, op: TagOp): Result<Rows, TagError> {
    match op
    case AddTags(doc, tagIds) =>
      if tagIds == [] then Err(BadRequest)
      else if doc !in r.docs then Err(NotFound)
      else if !(Elems(tagIds) <= r.tags) then Err(BadRequest)
      else Ok(r.(links := r.links + Pairs({doc}, Elems(tagIds))))
    case RemoveTag(doc, tag) =>
      if (doc, tag) !in r.links then Err(NotFound)
      else Ok(r.(links := r.links - {(doc, tag)}))
    case BulkTag(docIds, tagIds, add) =>
      if docIds == [] || tagIds == [] then Err(BadRequest)
      else if !LiveDocs(r.docs, Elems(docIds)) then Err(BadRequest)
      else if !(Elems(tagIds) <= r.tags) then Err(BadRequest)
      else if add then Ok(r.(links := r.links + Pairs(Elems(docIds), Elems(tagIds))))
      else Ok(r.(links := r.links - Pairs(Elems(docIds), Elems(tagIds))))
  }

  predicate Increasing(s: seq<Id>) {
    forall i, j :: 0 <= i < j < |s| ==> s[i] < s[j]
  }

  function Insert(x: Id, s: seq<Id>): (r: seq<Id>)
    ensures forall y :: y in r <==> y in s || y == x
  {
    if s == [] || x < s[0] then [x] + s
    else if x == s[0] then s
    else [s[0]] + Insert(x, s[1..])
  }

  lemma {:induction false} InsertIncreasing(x: Id, s: seq<Id>)
    requires Increasing(s)
    ensures Increasing(Insert(x, s))
  {
    if s != [] && s[0] < x {
      InsertIncreasing(x, s[1..]);
      var rest := Insert(x, s[1..]);
      forall j | 0 <= j < |rest| ensures s[0] < rest[j] {
        assert rest[j] in rest;
      }
    }
  }

  /** sort_unstable followed by dedup. */
  function SortedDistinct(s: seq<Id>): (r: seq<Id>)
    ensures forall y :: y in r <==> y in s
  {
    if s == [] then [] else Insert(s[0], SortedDistinct(s[1..]))
  }

  lemma {:induction false} SortedDistinctIncreasing(s: seq<Id>)
    ensures Increasing(SortedDistinct(s)) && Elems(SortedDistinct(s)) == Elems(s)
  {
    if s != [] {
      SortedDistinctIncreasing(s[1..]);
      InsertIncreasing(s[0], SortedDistinct(s[1..]));
    }
  }

  lemma {:induction false} IncreasingCount(s: seq<Id>)
    requires Increasing(s)
    ensures |Elems(s)| == |s|
  {
    if s != [] {
      var last := |s| - 1;
      IncreasingCount(s[..last]);
      assert s == s[..last] + [s[last]];
      ElemsAppend(s[..last], s[last]);
    }
  }

  /** Comparing the number of rows found with the number of distinct ids finds a missing row. */
  lemma CountsMatchExactly(s: seq<Id>, rows: set<Id>)
    requires Increasing(s)
    ensures |rows * Elems(s)| == |s| <==> Elems(s) <= rows
  {
    IncreasingCount(s);
    if Elems(s) <= rows {
      assert rows * Elems(s) == Elems(s);
    } else {
      var x :| x in Elems(s) && x !in rows;
      SmallerCount(rows * Elems(s), Elems(s), x);
    }
  }

  lemma SmallerCount(a: set<Id>, b: set<Id>, x: Id)
    requires a <= b && x in b && x !in a
    ensures |a| < |b|
  {
    assert b == a + (b - a);
    assert x in b - a;
  }

  lemma ElemsAppend<T>(s: seq<T>, x: T)
    ensures Elems(s + [x]) == Elems(s) + {x}
  {
  }

  lemma Differences<T>(a: set<T>, b: set<T>)
    ensures a + b - a == b - a && a - (a + b) == {}
    ensures a - b - a == {} && a - (a - b) == a * b
    ensures b <= a ==> a * b == b
  {
  }

  lemma HitPairs(links: set<(Id, Id)>, docIds: set<Id>, tagIds: set<Id>)
    ensures (set p | p in links && p.0 in docIds && p.1 in tagIds) == links * Pairs(docIds, tagIds)
    ensures links - (set p | p in links && p.0 in docIds && p.1 in tagIds) == links - Pairs(docIds, tagIds)
  {
  }

  class TagServer {
    var docs: map<Id, bool>
    var tags: set<Id>
    var links: set<(Id, Id)>

    function State(): Rows
      reads this
    {
      Rows(docs, tags, links)
    }

    constructor (rows: Rows)
      ensures State() == rows
    {
      docs, tags, links := rows.docs, rows.tags, rows.links;
    }

    method AllTagsExist(tagIds: seq<Id>) returns (all: bool)
      requires Increasing(tagIds)
      ensures all <==> Elems(tagIds) <= tags
    {
      CountsMatchExactly(tagIds, tags);
      all := |tags * Elems(tagIds)| == |tagIds|;
    }

    method AssignToDocument(doc: Id, tagIds: seq<Id>) returns (error: Option<TagError>)
      modifies this`links
      ensures Served(old(State()), AddTags(doc, tagIds)) ==
              if error.None? then Ok(State()) else Err(error.value)
      ensures error.Some? ==> State() == old(State())
    {
      if |tagIds| == 0 {
        return Some(BadRequest);
      }
      if doc !in docs {
        return Some(NotFound);
      }
      var ids := SortedDistinct(tagIds);
      SortedDistinctIncreasing(tagIds);
      var all := AllTagsExist(ids);
      if !all {
        return Some(BadRequest);
      }
      var inserts := seq(|ids|, i requires 0 <= i < |ids| => (doc, ids[i]));
      assert Elems(inserts) == Pairs({doc}, Elems(ids)) by {
        forall p | p in Pairs({doc}, Elems(ids)) ensures p in Elems(inserts) {
          var i :| 0 <= i < |ids| && ids[i] == p.1;
          assert inserts[i] == p;
        }
      }
      links := links + Elems(inserts);
      return None;
    }

    method RemoveFromDocument(doc: Id, tag: Id) returns (error: Option<TagError>)
      modifies this`links
      ensures Served(old(State()), RemoveTag(doc, tag)) ==
              if error.None? then Ok(State()) else Err(error.value)
      ensures error.Some? ==> State() == old(State())
    {
      var deleted := |links| - |links - {(doc, tag)}|;
      links := links - {(doc, tag)};
      if deleted == 0 {
        return Some(NotFound);
      }
      return None;
    }

    /** The rows to insert for a bulk request, by two nested loops. */
    method BulkInserts(docIds: seq<Id>, tagIds: seq<Id>) returns (inserts: seq<(Id, Id)>)
      ensures Elems(inserts) == Pairs(Elems(docIds), Elems(tagIds))
      ensures |inserts| == |docIds| * |tagIds|
    {
      inserts := [];
      for i := 0 to |docIds|
        invariant Elems(inserts) == Pairs(Elems(docIds[..i]), Elems(tagIds))
        invariant |inserts| == i * |tagIds|
      {
        ghost var before := inserts;
        for j := 0 to |tagIds|
          invariant Elems(inserts) == Elems(before) + Pairs({docIds[i]}, Elems(tagIds[..j]))
          invariant |inserts| == |before| + j
        {
          assert tagIds[..j + 1] == tagIds[..j] + [tagIds[j]];
          ElemsAppend(tagIds[..j], tagIds[j]);
          ElemsAppend(inserts, (docIds[i], tagIds[j]));
          inserts := inserts + [(docIds[i], tagIds[j])];
        }
        assert tagIds[..|tagIds|] == tagIds;
        assert Elems(docIds[..i + 1]) == Elems(docIds[..i]) + {docIds[i]} by {
          assert docIds[..i + 1] == docIds[..i] + [docIds[i]];
        }
      }
      assert docIds[..|docIds|] == docIds;
    }

    /** The checks made before a bulk request changes anything. */
    method BulkRefused(ds: seq<Id>, ts: seq<Id>) returns (refused: bool)
      requires Increasing(ds) && Increasing(ts)
      ensures !refused <==> ds != [] && ts != [] && LiveDocs(docs, Elems(ds)) && Elems(ts) <= tags
    {
      if |ds| == 0 || |ts| == 0 {
        return true;
      }
      CountsMatchExactly(ds, docs.Keys);
      if |docs.Keys * Elems(ds)| != |ds| {
        return true;
      }
      if exists d :: d in docs && d in Elems(ds) && docs[d] {
        return true;
      }
      var all := AllTagsExist(ts);
      return !all;
    }

    /** The counts sent back are the rows really added or removed. */
    method BulkUpdate(docIds: seq<Id>, tagIds: seq<Id>, add: bool)
      returns (error: Option<TagError>, added: int, removed: int)
      modifies this`links
      ensures Served(old(State()), BulkTag(docIds, tagIds, add)) ==
              if error.None? then Ok(State()) else Err(error.value)
      ensures error.Some? ==> State() == old(State())
      ensures added == |links - old(links)| && removed == |old(links) - links|
    {
      added, removed := 0, 0;
      var ds, ts := SortedDistinct(docIds), SortedDistinct(tagIds);
      SortedDistinctIncreasing(docIds);
      SortedDistinctIncreasing(tagIds);
      var refused := BulkRefused(ds, ts);
      if refused {
        return Some(BadRequest), 0, 0;
      }
      error := None;
      if add {
        added := InsertLinks(ds, ts);
      } else {
        removed := DeleteLinks(ds, ts);
      }
    }

    method InsertLinks(ds: seq<Id>, ts: seq<Id>) returns (added: int)
      modifies this`links
      ensures links == old(links) + Pairs(Elems(ds), Elems(ts))
      ensures added == |links - old(links)| && old(links) - links == {}
    {
      var inserts := BulkInserts(ds, ts);
      added := |Elems(inserts) - links|;
      Differences(links, Elems(inserts));
      links := links + Elems(inserts);
    }

    method DeleteLinks(ds: seq<Id>, ts: seq<Id>) returns (removed: int)
      modifies this`links
      ensures links == old(links) - Pairs(Elems(ds), Elems(ts))
      ensures removed == |old(links) - links| && links - old(links) == {}
    {
      var hit := set p | p in links && p.0 in Elems(ds) && p.1 in Elems(ts);
      HitPairs(links, Elems(ds), Elems(ts));
      removed := |hit|;
      Differences(links, hit);
      links := links - hit;
    }
  }

  // ---------- Bulk requests and single ones ----------

  /** The documents one after another, each with all the tags. */
  function AddEach(r: Rows, docIds: seq<Id>, tagIds: seq<Id>): Result<Rows, TagError>
    decreases |docIds|
  {
    if docIds == [] then Ok(r)
    else
      match Served(r, AddTags(docIds[0], tagIds))
      case Err(e) => Err(e)
      case Ok(next) => AddEach(next, docIds[1..], tagIds)
  }

  lemma {:induction false} AddEachAdds(r: Rows, docIds: seq<Id>, tagIds: seq<Id>)
    requires tagIds != [] && Elems(docIds) <= r.docs.Keys && Elems(tagIds) <= r.tags
    ensures AddEach(r, docIds, tagIds) == Ok(r.(links := r.links + Pairs(Elems(docIds), Elems(tagIds))))
    decreases |docIds|
  {
    if docIds == [] {
      assert Pairs(Elems(docIds), Elems(tagIds)) == {};
      assert r.links + {} == r.links;
    } else {
      assert docIds == [docIds[0]] + docIds[1..];
      assert docIds[0] in Elems(docIds) && Elems(docIds[1..]) <= Elems(docIds);
      var next := r.(links := r.links + Pairs({docIds[0]}, Elems(tagIds)));
      AddEachAdds(next, docIds[1..], tagIds);
      PairsSplit(docIds, Elems(tagIds));
      assert r.links + Pairs({docIds[0]}, Elems(tagIds)) + Pairs(Elems(docIds[1..]), Elems(tagIds)) == r.links + Pairs(Elems(docIds), Elems(tagIds));
    }
  }

  lemma PairsSplit(docIds: seq<Id>, tagIds: set<Id>)
    requires docIds != []
    ensures Pairs(Elems(docIds), tagIds) == Pairs({docIds[0]}, tagIds) + Pairs(Elems(docIds[1..]), tagIds)
  {
    assert docIds == [docIds[0]] + docIds[1..];
  }

  /**
   A bulk request to add tags does what adding them to the documents one after
   another does, and is accepted exactly when that is, for documents that are not
   in the trash; single requests also accept those.
   */
  lemma BulkAddIsSingles(r: Rows, docIds: seq<Id>, tagIds: seq<Id>)
    requires docIds != [] && tagIds != []
    ensures Served(r, BulkTag(docIds, tagIds, true)).Ok? <==>
              AddEach(r, docIds, tagIds).Ok? && forall d :: d in docIds && d in r.docs ==> !r.docs[d]
    ensures Served(r, BulkTag(docIds, tagIds, true)).Ok? ==> Served(r, BulkTag(docIds, tagIds, true)) == AddEach(r, docIds, tagIds)
  {
    if Elems(docIds) <= r.docs.Keys && Elems(tagIds) <= r.tags {
      AddEachAdds(r, docIds, tagIds);
    } else {
      AddEachFails(r, docIds, tagIds);
    }
    assert forall d :: d in docIds <==> d in Elems(docIds);
  }

  lemma {:induction false} AddEachFails(r: Rows, docIds: seq<Id>, tagIds: seq<Id>)
    requires docIds != [] && tagIds != [] && !(Elems(docIds) <= r.docs.Keys && Elems(tagIds) <= r.tags)
    ensures AddEach(r, docIds, tagIds).Err?
    decreases |docIds|
  {
    if docIds[0] in r.docs && Elems(tagIds) <= r.tags {
      assert docIds == [docIds[0]] + docIds[1..];
      var next := r.(links := r.links + Pairs({docIds[0]}, Elems(tagIds)));
      assert docIds[1..] != [];
      AddEachFails(next, docIds[1..], tagIds);
    }
  }

  /** Removing takes back what adding brought: of new pairs nothing is left, and what was there before goes too. */
  lemma RemoveUndoesAdd(r: Rows, docIds: seq<Id>, tagIds: seq<Id>)
    requires Served(r, BulkTag(docIds, tagIds, true)).Ok?
    ensures var added := Served(r, BulkTag(docIds, tagIds, true)).value;
            && Served(added, BulkTag(docIds, tagIds, false)) == Served(r, BulkTag(docIds, tagIds, false))
            && (r.links !! Pairs(Elems(docIds), Elems(tagIds)) ==> Served(added, BulkTag(docIds, tagIds, false)) == Ok(r))
  {
    var pairs := Pairs(Elems(docIds), Elems(tagIds));
    assert r.links + pairs - pairs == r.links - pairs;
    if r.links !! pairs {
      assert r.links - pairs == r.links;
    }
  }

  /** A pair can be removed by itself exactly when it is there; adding it again gives back the rows. */
  lemma RemovedSingle(r: Rows, doc: Id, tag: Id)
    requires RowsSound(r)
    ensures Served(r, RemoveTag(doc, tag)).Ok? <==> (doc, tag) in r.links
    ensures Served(r, RemoveTag(doc, tag)).Ok? ==>
              var removed := Served(r, RemoveTag(doc, tag)).value;
              (doc, tag) !in removed.links && Served(removed, AddTags(doc, [tag])) == Ok(r)
  {
    if (doc, tag) in r.links {
      assert (doc, tag).0 in r.docs && (doc, tag).1 in r.tags;
      assert Elems([tag]) == {tag};
      assert Pairs({doc}, {tag}) == {(doc, tag)};
      assert r.links - {(doc, tag)} + {(doc, tag)} == r.links;
    }
  }

  // ---------- The client ----------

  function TagIds(doc: Fields): seq<Id> {
    if "tags" in doc && doc["tags"].Arr? then doc["tags"].items else []
  }

  function WithTags(current: seq<Id>, tagIds: seq<Id>): seq<Id> {
    current + Filter(tagIds, (t: Id) => t !in current)
  }

  function WithoutTags(current: seq<Id>, tagIds: seq<Id>): seq<Id> {
    Filter(current, (t: Id) => t !in tagIds)
  }

  lemma AddedAsSet(current: seq<Id>, tagIds: seq<Id>)
    ensures Elems(WithTags(current, tagIds)) == Elems(current) + Elems(tagIds)
  {
    var extra := Filter(tagIds, (t: Id) => t !in current);
    assert forall x :: x in WithTags(current, tagIds) <==> x in current || x in extra;
  }

  lemma RemovedAsSet(current: seq<Id>, tagIds: seq<Id>)
    ensures Elems(WithoutTags(current, tagIds)) == Elems(current) - Elems(tagIds)
  {
  }

  lemma {:induction false} SameLength(s: seq<Id>, keep: Id -> bool)
    ensures |Filter(s, keep)| == |s| ==> Filter(s, keep) == s
  {
    if s != [] {
      SameLength(s[1..], keep);
    }
  }

  /**
     The list keeps its order and gains only tags it did not hold. It stays free of
     duplicates exactly when the request names no new tag twice: the set of current
     tags is taken before the filter runs.
  */
  lemma AddedListExactly(current: seq<Id>, tagIds: seq<Id>)
    ensures current <= WithTags(current, tagIds)
    ensures NoDup(WithTags(current, tagIds)) <==>
              NoDup(current) && NoDup(Filter(tagIds, (t: Id) => t !in current))
  {
    var extra := Filter(tagIds, (t: Id) => t !in current);
    var next := current + extra;
    assert WithTags(current, tagIds) == next;
    if NoDup(current) && NoDup(extra) {
      NoDupConcat(current, extra);
    }
    if NoDup(next) {
      assert forall i :: 0 <= i < |current| ==> current[i] == next[i];
      assert forall i :: 0 <= i < |extra| ==> extra[i] == next[|current| + i];
    }
  }

  /** The updaters build a new array, known by the reference `ref`. */
  function AddUpdater(tagIds: seq<Id>, ref: nat): Fields -> Option<Fields> {
    (doc: Fields) => Some(doc["tags" := Arr(ref, WithTags(TagIds(doc), tagIds))])
  }

  function RemoveUpdater(tag: Id, ref: nat): Fields -> Option<Fields> {
    (doc: Fields) =>
      var next := WithoutTags(TagIds(doc), [tag]);
      Some(if |next| == |TagIds(doc)| then doc else doc["tags" := Arr(ref, next)])
  }

  function BulkMapper(docIds: seq<Id>, tagIds: seq<Id>, add: bool, ref: nat): (Id, Fields) -> Answer {
    (id: Id, doc: Fields) =>
      if id !in docIds then Undefined
      else
        var current := TagIds(doc);
        var next := if add then WithTags(current, tagIds) else WithoutTags(current, tagIds);
        if next == current then Undefined else NewObject(doc["tags" := Arr(ref, next)])
  }

  /** The cache change made after the server has answered with success. */
  function Followed(c: Contents, op: TagOp, ref: nat): Contents {
    match op
    case AddTags(doc, tagIds) => Updated(c, doc, AddUpdater(tagIds, ref))
    case RemoveTag(doc, tag) => Updated(c, doc, RemoveUpdater(tag, ref))
    case BulkTag(docIds, tagIds, add) => Mapped(c, BulkMapper(docIds, tagIds, add, ref))
  }

  datatype World = World(rows: Rows, cache: Contents, nextRef: nat)

  /** A failed request throws before the cache is touched. */
  function Step(w: World, op: TagOp): World {
    match Served(w.rows, op)
    case Err(_) => w
    case Ok(rows) => World(rows, Followed(w.cache, op, w.nextRef), w.nextRef + 1)
  }

  function Run(w: World, ops: seq<TagOp>): World
    decreases |ops|
  {
    if ops == [] then w else Run(Step(w, ops[0]), ops[1..])
  }

  function Linked(links: set<(Id, Id)>, doc: Id): set<Id> {
    set p | p in links && p.0 == doc :: p.1
  }

  /** Every cached document's tag list is, as a set, the server's relation. */
  ghost predicate Agree(w: World) {
    forall doc :: doc in w.cache ==> Elems(TagIds(w.cache[doc])) == Linked(w.rows.links, doc)
  }

  function LinksAfter(current: set<Id>, doc: Id, op: TagOp): set<Id> {
    match op
    case AddTags(d, tagIds) => if d == doc then current + Elems(tagIds) else current
    case RemoveTag(d, tag) => if d == doc then current - {tag} else current
    case BulkTag(docIds, tagIds, add) =>
      if doc !in docIds then current
      else if add then current + Elems(tagIds) else current - Elems(tagIds)
  }

  /** What a served request does to one document's tags. */
  lemma ServedOne(r: Rows, op: TagOp, doc: Id)
    requires Served(r, op).Ok?
    ensures Linked(Served(r, op).value.links, doc) == LinksAfter(Linked(r.links, doc), doc, op)
  {
    var after := Served(r, op).value.links;
    forall t ensures t in Linked(after, doc) <==> (doc, t) in after {
      if (doc, t) in after {
        assert (doc, t).0 == doc;
      }
    }
    forall t ensures t in Linked(r.links, doc) <==> (doc, t) in r.links {
      if (doc, t) in r.links {
        assert (doc, t).0 == doc;
      }
    }
  }

  /** What the client's own change does to one cached document's tags. */
  lemma FollowedOne(c: Contents, op: TagOp, ref: nat, doc: Id)
    requires doc in c
    ensures Followed(c, op, ref).Keys == c.Keys
    ensures Retagged(c[doc], Followed(c, op, ref)[doc], LinksAfter(Elems(TagIds(c[doc])), doc, op))
  {
    KeysKept(c, op, ref);
    match op
    case AddTags(d, tagIds) =>
      AddFollowed(c, d, tagIds, ref, doc);
    case RemoveTag(d, tag) =>
      RemoveFollowed(c, d, tag, ref, doc);
    case BulkTag(docIds, tagIds, add) =>
      BulkFollowed(c, docIds, tagIds, add, ref, doc);
  }

  /** Only the tag list may differ, and as a set it is `tags`. */
  ghost predicate Retagged(before: Fields, after: Fields, tags: set<Id>) {
    && Elems(TagIds(after)) == tags
    && after - {"tags"} == before - {"tags"}
  }

  lemma AddFollowed(c: Contents, d: Id, tagIds: seq<Id>, ref: nat, doc: Id)
    requires doc in c
    ensures Retagged(c[doc], Followed(c, AddTags(d, tagIds), ref)[doc], LinksAfter(Elems(TagIds(c[doc])), doc, AddTags(d, tagIds)))
  {
    AddedAsSet(TagIds(c[doc]), tagIds);
  }

  lemma RemoveFollowed(c: Contents, d: Id, tag: Id, ref: nat, doc: Id)
    requires doc in c
    ensures Retagged(c[doc], Followed(c, RemoveTag(d, tag), ref)[doc], LinksAfter(Elems(TagIds(c[doc])), doc, RemoveTag(d, tag)))
  {
    RemovedAsSet(TagIds(c[doc]), [tag]);
    SameLength(TagIds(c[doc]), (t: Id) => t !in [tag]);
  }

  lemma BulkFollowed(c: Contents, docIds: seq<Id>, tagIds: seq<Id>, add: bool, ref: nat, doc: Id)
    requires doc in c
    ensures Retagged(c[doc], Followed(c, BulkTag(docIds, tagIds, add), ref)[doc],
                     LinksAfter(Elems(TagIds(c[doc])), doc, BulkTag(docIds, tagIds, add)))
  {
    AddedAsSet(TagIds(c[doc]), tagIds);
    RemovedAsSet(TagIds(c[doc]), tagIds);
  }

  lemma StepAgrees(w: World, op: TagOp)
    requires Agree(w)
    ensures Agree(Step(w, op))
  {
    if Served(w.rows, op).Ok? {
      var after := Step(w, op);
      forall doc | doc in after.cache
        ensures Elems(TagIds(after.cache[doc])) == Linked(after.rows.links, doc)
      {
        if doc in w.cache {
          FollowedOne(w.cache, op, w.nextRef, doc);
        } else {
          KeysKept(w.cache, op, w.nextRef);
        }
        ServedOne(w.rows, op, doc);
      }
    }
  }

  lemma KeysKept(c: Contents, op: TagOp, ref: nat)
    ensures Followed(c, op, ref).Keys == c.Keys
  {
  }

  /** Any run of tag operations keeps cache and server in agreement. */
  lemma {:induction false} RunAgrees(w: World, ops: seq<TagOp>)
    requires Agree(w)
    ensures Agree(Run(w, ops))
    decreases |ops|
  {
    if ops != [] {
      StepAgrees(w, ops[0]);
      RunAgrees(Step(w, ops[0]), ops[1..]);
    }
  }

  /** Rows of other documents and rows naming unknown tags are never made. */
  ghost predicate RowsSound(r: Rows) {
    forall p :: p in r.links ==> p.0 in r.docs && p.1 in r.tags
  }

  lemma {:induction false} RunRowsSound(w: World, ops: seq<TagOp>)
    requires RowsSound(w.rows)
    ensures RowsSound(Run(w, ops).rows)
    ensures Run(w, ops).rows.docs == w.rows.docs && Run(w, ops).rows.tags == w.rows.tags
    decreases |ops|
  {
    if ops != [] {
      RunRowsSound(Step(w, ops[0]), ops[1..]);
    }
  }

  class TagClient {
    const server: TagServer
    const cache: DocumentsManager
    var nextRef: nat

    function Seen(): World
      reads this, server, cache, cache.byId
    {
      World(server.State(), cache.View(), nextRef)
    }

    constructor (server: TagServer, cache: DocumentsManager)
      ensures this.server == server && this.cache == cache
    {
      this.server, this.cache := server, cache;
      nextRef := 0;
    }

    method Add(doc: Id, tagIds: seq<Id>) returns (error: Option<TagError>)
      modifies this`nextRef, server`links, cache`byId, cache`emitScheduled
      ensures Seen() == Step(old(Seen()), AddTags(doc, tagIds))
      ensures error.None? <==> Served(old(server.State()), AddTags(doc, tagIds)).Ok?
    {
      error := server.AssignToDocument(doc, tagIds);
      if error.None? {
        var ref := nextRef;
        nextRef := nextRef + 1;
        var changed := cache.Update(doc, AddUpdater(tagIds, ref));
      }
    }

    method Remove(doc: Id, tag: Id) returns (error: Option<TagError>)
      modifies this`nextRef, server`links, cache`byId, cache`emitScheduled
      ensures Seen() == Step(old(Seen()), RemoveTag(doc, tag))
      ensures error.None? <==> Served(old(server.State()), RemoveTag(doc, tag)).Ok?
    {
      error := server.RemoveFromDocument(doc, tag);
      if error.None? {
        var ref := nextRef;
        nextRef := nextRef + 1;
        var changed := cache.Update(doc, RemoveUpdater(tag, ref));
      }
    }

    method Bulk(docIds: seq<Id>, tagIds: seq<Id>, add: bool) returns (error: Option<TagError>)
      modifies this`nextRef, server`links, cache`byId, cache`emitScheduled
      ensures Seen() == Step(old(Seen()), BulkTag(docIds, tagIds, add))
      ensures error.None? <==> Served(old(server.State()), BulkTag(docIds, tagIds, add)).Ok?
    {
      var added, removed;
      error, added, removed := server.BulkUpdate(docIds, tagIds, add);
      if error.None? {
        var ref := nextRef;
        nextRef := nextRef + 1;
        var changed := cache.MapDocuments(BulkMapper(docIds, tagIds, add, ref));
      }
    }

    method Perform(op: TagOp) returns (error: Option<TagError>)
      modifies this`nextRef, server`links, cache`byId, cache`emitScheduled
      ensures Seen() == Step(old(Seen()), op)
      ensures error.None? <==> Served(old(server.State()), op).Ok?
    {
      match op {
        case AddTags(doc, tagIds) => error := Add(doc, tagIds);
        case RemoveTag(doc, tag) => error := Remove(doc, tag);
        case BulkTag(docIds, tagIds, add) => error := Bulk(docIds, tagIds, add);
      }
    }

    method PerformAll(ops: seq<TagOp>)
      modifies this`nextRef, server`links, cache`byId, cache`emitScheduled
      ensures Seen() == Run(old(Seen()), ops)
      ensures old(Agree(Seen())) ==> Agree(Seen())
    {
      if Agree(Seen()) {
        RunAgrees(Seen(), ops);
      }
      for i := 0 to |ops|
        invariant Run(old(Seen()), ops) == Run(Seen(), ops[i..])
      {
        assert ops[i..][1..] == ops[i + 1..];
        var error := Perform(ops[i]);
      }
    }
  }
}
