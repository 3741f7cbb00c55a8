/**
 The client's document cache (frontend/src/documents/DocumentsManager.ts). A map
 handed out as a snapshot is an object of its own; an array value is known by its
 reference, as Object.is compares it.

 The cache copies its map at the first change of a call and leaves a map handed
 out before as it was; a call that changes nothing keeps the map itself, which is
 how listeners tell. The contents of the map are described by folds over the
 calls, and the fetches of `ensure` by a state machine of their own, in which
 fetches finish in any order and a fetcher may throw before its first await.
*/
module DocumentCache {
  import opened Common

  datatype Val = Prim(value: int) | Arr(ref: nat, items: seq<Id>)

  type Fields = map<string, Val>

  /** A document as it arrives; without an id it is passed through and not cached. */
  datatype RawDoc = RawDoc(id: Option<Id>, fields: Fields)

  /** A cached document: never changed after it was made. */
  class DocObject {
    const fields: Fields

    constructor (fields: Fields)
      ensures this.fields == fields
    {
      this.fields := fields;
    }
  }

  /** The JavaScript Map behind the cache and its snapshots. */
  class DocMap {
    var entries: map<Id, DocObject>

    constructor (entries: map<Id, DocObject>)
      ensures this.entries == entries
    {
      this.entries := entries;
    }
  }

  type Contents = map<Id, Fields>

  function ContentsOf(entries: map<Id, DocObject>): (c: Contents)
    ensures c.Keys == entries.Keys
  {
    map k | k in entries :: entries[k].fields
  }

  lemma PutContents(entries: map<Id, DocObject>, id: Id, object_: DocObject)
    ensures ContentsOf(entries[id := object_]) == ContentsOf(entries)[id := object_.fields]
  {
  }

  // ---------- What the operations do to the contents ----------

  function Shallow(c: Contents, doc: RawDoc): Contents {
    if doc.id.None? then c
    else c[doc.id.value := if doc.id.value in c then c[doc.id.value] + doc.fields else doc.fields]
  }

  /** The fold of shallow merges. */
  function MergeAll(c: Contents, docs: seq<RawDoc>): Contents
    decreases |docs|
  {
    if docs == [] then c else MergeAll(Shallow(c, docs[0]), docs[1..])
  }

  lemma {:induction false} MergeSnoc(c: Contents, docs: seq<RawDoc>, doc: RawDoc)
    ensures MergeAll(c, docs + [doc]) == Shallow(MergeAll(c, docs), doc)
    decreases |docs|
  {
    if docs == [] {
      assert docs + [doc] == [doc] && [doc][1..] == [];
    } else {
      assert (docs + [doc])[1..] == docs[1..] + [doc];
      MergeSnoc(Shallow(c, docs[0]), docs[1..], doc);
    }
  }

  lemma MergeStep(c: Contents, docs: seq<RawDoc>, i: nat)
    requires i < |docs|
    ensures MergeAll(c, docs[..i + 1]) == Shallow(MergeAll(c, docs[..i]), docs[i])
  {
    assert docs[..i + 1] == docs[..i] + [docs[i]];
    MergeSnoc(c, docs[..i], docs[i]);
  }

  /** What ingest hands back for a document: the cached one, or the document itself when it has no id. */
  predicate IsCanonical(c: Contents, doc: RawDoc, canonical: Fields) {
    if doc.id.None? then canonical == doc.fields
    else doc.id.value in c && canonical == c[doc.id.value]
  }

  /** Merging fields that change nothing leaves the contents as they are. */
  lemma KeptContents(c: Contents, doc: RawDoc)
    requires doc.id.Some? && doc.id.value in c && c[doc.id.value] + doc.fields == c[doc.id.value]
    ensures Shallow(c, doc) == c
  {
  }

  function Updated(c: Contents, id: Id, updater: Fields -> Option<Fields>): Contents {
    if id !in c || updater(c[id]).None? then c
    else Shallow(c, RawDoc(Some(id), c[id] + updater(c[id]).value))
  }

  /** What a mapper answers: undefined, the object it was given, null, or another object. */
  datatype Answer = Undefined | SameObject | NullAnswer | NewObject(fields: Fields)

  /** The answer is not the object itself, so it counts as a change; a null still leaves the document. */
  predicate IsChange(answer: Answer) {
    answer.NullAnswer? || answer.NewObject?
  }

  function Mapped(c: Contents, mapper: (Id, Fields) -> Answer): Contents {
    map k | k in c :: MappedOne(mapper, k, c[k])
  }

  function MappedOne(mapper: (Id, Fields) -> Answer, id: Id, fields: Fields): Fields {
    match mapper(id, fields) case NewObject(updated) => updated case _ => fields
  }

  /** The mapper changes one of these documents. */
  ghost predicate Changes(c: Contents, mapper: (Id, Fields) -> Answer, ids: set<Id>) {
    exists id :: id in ids && id in c && IsChange(mapper(id, c[id]))
  }

  lemma ChangesMore(c: Contents, mapper: (Id, Fields) -> Answer, rest: set<Id>, key: Id)
    requires rest <= c.Keys && key in rest
    ensures Changes(c, mapper, c.Keys - (rest - {key})) <==> Changes(c, mapper, c.Keys - rest) || IsChange(mapper(key, c[key]))
  {
    assert c.Keys - (rest - {key}) == (c.Keys - rest) + {key};
  }

  /** All documents but the rest have been mapped. */
  ghost predicate PartlyMapped(
    before: map<Id, DocObject>, after: map<Id, DocObject>, mapper: (Id, Fields) -> Answer, rest: set<Id>)
  {
    && after.Keys == before.Keys && rest <= before.Keys
    && (forall k :: k in rest ==> after[k] == before[k])
    && forall k :: k in after && k !in rest ==> after[k].fields == MappedOne(mapper, k, before[k].fields)
  }

  lemma MappedOneMore(
    before: map<Id, DocObject>, after: map<Id, DocObject>, mapper: (Id, Fields) -> Answer, rest: set<Id>, key: Id, object_: DocObject)
    requires PartlyMapped(before, after, mapper, rest) && key in rest
    requires object_.fields == MappedOne(mapper, key, before[key].fields)
    ensures PartlyMapped(before, after[key := object_], mapper, rest - {key})
  {
  }

  lemma MappedContents(before: map<Id, DocObject>, after: map<Id, DocObject>, mapper: (Id, Fields) -> Answer)
    requires after.Keys == before.Keys
    requires forall k :: k in after ==> after[k].fields == MappedOne(mapper, k, before[k].fields)
    ensures ContentsOf(after) == Mapped(ContentsOf(before), mapper)
  {
  }

  /** An update gives the document the fields answered, keeps its others, and touches no other document. */
  lemma UpdatedExactly(c: Contents, id: Id, updater: Fields -> Option<Fields>, field: string)
    requires id in c
    ensures var after := Updated(c, id, updater);
            && after.Keys == c.Keys && after - {id} == c - {id}
            && (updater(c[id]).None? ==> after == c)
            && (updater(c[id]).Some? ==>
                  var changes := updater(c[id]).value;
                  && (field in after[id] <==> field in changes || field in c[id])
                  && (field in changes ==> after[id][field] == changes[field])
                  && (field in c[id] && field !in changes ==> after[id][field] == c[id][field]))
  {
  }

  datatype Call =
    | IngestCall(docs: seq<RawDoc>)
    | UpdateCall(id: Id, updater: Fields -> Option<Fields>)
    | MapCall(mapper: (Id, Fields) -> Answer)
    | RemoveCall(ids: seq<Id>)

  function After(c: Contents, call: Call): Contents {
    match call
    case IngestCall(docs) => MergeAll(c, docs)
    case UpdateCall(id, updater) => Updated(c, id, updater)
    case MapCall(mapper) => Mapped(c, mapper)
    case RemoveCall(ids) => c - Elems(ids)
  }

  function AfterAll(c: Contents, calls: seq<Call>): Contents
    decreases |calls|
  {
    if calls == [] then c else AfterAll(After(c, calls[0]), calls[1..])
  }

  /** Merging documents in order keeps, per id and field, the last value given. */
  lemma {:induction false} LastValueWins(c: Contents, docs: seq<RawDoc>, id: Id, field: string)
    ensures id in MergeAll(c, docs) <==> id in c || exists i :: 0 <= i < |docs| && docs[i].id == Some(id)
    ensures id in MergeAll(c, docs) ==>
              (field in MergeAll(c, docs)[id] <==>
                 (id in c && field in c[id]) || exists i :: 0 <= i < |docs| && docs[i].id == Some(id) && field in docs[i].fields)
    ensures forall i :: 0 <= i < |docs| && docs[i].id == Some(id) && field in docs[i].fields
              && (forall j :: i < j < |docs| && docs[j].id == Some(id) ==> field !in docs[j].fields)
              ==> MergeAll(c, docs)[id][field] == docs[i].fields[field]
    decreases |docs|
  {
    if docs != [] {
      LastValueWins(Shallow(c, docs[0]), docs[1..], id, field);
      assert forall i :: 1 <= i < |docs| ==> docs[i] == docs[1..][i - 1];
      if exists j :: 1 <= j < |docs| && docs[j].id == Some(id) && field in docs[j].fields {
      } else if docs[0].id == Some(id) && field in docs[0].fields {
        UntouchedField(Shallow(c, docs[0]), docs[1..], id, field);
      }
    }
  }

  lemma {:induction false} UntouchedField(c: Contents, docs: seq<RawDoc>, id: Id, field: string)
    requires id in c && field in c[id]
    requires forall j :: 0 <= j < |docs| && docs[j].id == Some(id) ==> field !in docs[j].fields
    ensures id in MergeAll(c, docs) && field in MergeAll(c, docs)[id] && MergeAll(c, docs)[id][field] == c[id][field]
    decreases |docs|
  {
    if docs != [] {
      assert forall i :: 1 <= i < |docs| ==> docs[i] == docs[1..][i - 1];
      UntouchedField(Shallow(c, docs[0]), docs[1..], id, field);
    }
  }

  // ---------- Fetches on demand ----------

  /** The ids cached, the ids with an entry in `inflight`, and the fetches under way. */
  datatype Fetches = Fetches(cached: set<Id>, inflight: set<Id>, outstanding: multiset<Id>)

  datatype FetchStep =
    | Ensure(id: Id, hasFetcher: bool, throwsAtOnce: bool)
    | Finish(id: Id, got: Option<Id>)
    | Recache(cached: set<Id>)

  predicate Asks(f: Fetches, step: FetchStep) {
    step.Ensure? && step.id !in f.cached && step.hasFetcher && step.id !in f.inflight
  }

  /** A fetcher that throws at once: the clean-up comes before the entry is made. */
  predicate Throws(f: Fetches, step: FetchStep) {
    Asks(f, step) && step.throwsAtOnce
  }

  function NextFetches(f: Fetches, step: FetchStep): Fetches {
    match step
    case Ensure(id, _, throwsAtOnce) =>
      if !Asks(f, step) then f
      else f.(inflight := f.inflight + {id},
              outstanding := if throwsAtOnce then f.outstanding else f.outstanding + multiset{id})
    case Finish(id, got) =>
      if id !in f.outstanding then f
      else Fetches(if got.Some? then f.cached + {got.value} else f.cached,
                   f.inflight - {id}, f.outstanding - multiset{id})
    case Recache(cached) => f.(cached := cached)
  }

  function FetchRun(f: Fetches, steps: seq<FetchStep>): Fetches
    decreases |steps|
  {
    if steps == [] then f else FetchRun(NextFetches(f, steps[0]), steps[1..])
  }

  predicate NeverThrows(f: Fetches, steps: seq<FetchStep>)
    decreases |steps|
  {
    steps == [] || (!Throws(f, steps[0]) && NeverThrows(NextFetches(f, steps[0]), steps[1..]))
  }

  ghost predicate OneEach(f: Fetches) {
    forall id :: f.outstanding[id] <= 1 && (id in f.outstanding ==> id in f.inflight)
  }

  ghost predicate NoLeftovers(f: Fetches) {
    forall id :: id in f.inflight ==> id in f.outstanding
  }

  /**
     Over every run at most one fetch per id is under way. The entries in `inflight`
     are exactly the fetches under way if and only if no fetcher threw at once.
  */
  lemma {:induction false} FetchesExactly(f: Fetches, steps: seq<FetchStep>)
    requires OneEach(f) && NoLeftovers(f)
    ensures OneEach(FetchRun(f, steps))
    ensures NoLeftovers(FetchRun(f, steps)) <==> NeverThrows(f, steps)
    decreases |steps|
  {
    if steps != [] {
      var next := NextFetches(f, steps[0]);
      if Throws(f, steps[0]) {
        LeftoverStays(next, steps[1..], steps[0].id);
      } else {
        FetchesExactly(next, steps[1..]);
      }
    }
  }

  /** Asking for an uncached document starts its fetch, and the fetch that brings it back caches it and frees its id. */
  lemma FetchCompletes(f: Fetches, id: Id, hasFetcher: bool, throwsAtOnce: bool)
    requires OneEach(f)
    ensures var asked := NextFetches(f, Ensure(id, hasFetcher, throwsAtOnce));
            && (asked != f <==> id !in f.cached && id !in f.inflight && hasFetcher)
            && (asked != f && !throwsAtOnce ==>
                  && asked.outstanding[id] == 1
                  && var done := NextFetches(asked, Finish(id, Some(id)));
                  done == f.(cached := f.cached + {id}))
  {
    var asked := NextFetches(f, Ensure(id, hasFetcher, throwsAtOnce));
    if id !in f.cached && id !in f.inflight && hasFetcher {
      assert id in asked.inflight;
      assert f.outstanding[id] == 0;
      assert f.outstanding + multiset{id} - multiset{id} == f.outstanding;
      assert f.inflight + {id} - {id} == f.inflight;
    }
  }

  /** A leftover entry is never removed, so its id is never fetched again. */
  lemma {:induction false} LeftoverStays(f: Fetches, steps: seq<FetchStep>, id: Id)
    requires OneEach(f) && id in f.inflight && id !in f.outstanding
    ensures OneEach(FetchRun(f, steps))
    ensures id in FetchRun(f, steps).inflight && id !in FetchRun(f, steps).outstanding
    decreases |steps|
  {
    if steps != [] {
      LeftoverStays(NextFetches(f, steps[0]), steps[1..], id);
    }
  }

  // ---------- The manager ----------

  datatype Fetched = Failed | Empty | Document(doc: RawDoc)

  datatype EnsureResult = Nothing | Cached(fields: Fields) | Joined | Started | Threw

  class DocumentsManager {
    var byId: DocMap
    var inflight: set<Id>
    var emitScheduled: bool
    ghost var outstanding: multiset<Id>  // the fetches under way

    ghost function Requests(): Fetches
      reads this, byId
    {
      Fetches(byId.entries.Keys, inflight, outstanding)
    }

    ghost predicate Valid()
      reads this, byId
    {
      OneEach(Requests())
    }

    function View(): Contents
      reads this, byId
    {
      ContentsOf(byId.entries)
    }

    constructor ()
      ensures Valid() && View() == map[] && fresh(byId) && inflight == {} && outstanding == multiset{}
    {
      byId := new DocMap(map[]);
      inflight := {};
      emitScheduled := false;
      outstanding := multiset{};
    }

    method Emit()
      modifies this`emitScheduled
      ensures emitScheduled
    {
      if emitScheduled {
        return;
      }
      emitScheduled := true;
    }

    /** One document into the map under construction, which is copied at the first change. */
    method IngestOne(map_: DocMap, copied: bool, doc: RawDoc) returns (next: DocMap, changed: bool, canonical: Fields)
      requires !copied ==> map_ == byId
      modifies if copied then {map_} else {}
      ensures ContentsOf(next.entries) == Shallow(old(ContentsOf(map_.entries)), doc)
      ensures IsCanonical(ContentsOf(next.entries), doc, canonical)
      ensures next == map_ || fresh(next)
      ensures changed <==> copied || next != map_
      ensures copied ==> next == map_
    {
      next, changed, canonical := map_, copied, doc.fields;
      if doc.id.Some? {
        var id := doc.id.value;
        if id in next.entries {
          canonical := next.entries[id].fields + doc.fields;
        }
        if id in next.entries && next.entries[id].fields == canonical {
          KeptContents(ContentsOf(next.entries), doc);
        } else {
          if !changed {
            next := new DocMap(byId.entries);
          }
          var object_ := new DocObject(canonical);
          PutContents(next.entries, id, object_);
          next.entries := next.entries[id := object_];
          changed := true;
        }
      }
    }

    /**
     Merges the documents into the cache. A map object that was handed out is not
     in the frame: the first change copies it. `changed` is false only when the
     cache still holds the very same map.
     */
    method Ingest(docs: seq<RawDoc>) returns (canonical: seq<Fields>, changed: bool)
      modifies this`byId, this`emitScheduled
      ensures View() == MergeAll(old(View()), docs)
      ensures !changed <==> byId == old(byId)
      ensures changed ==> fresh(byId) && emitScheduled
      ensures |canonical| == |docs|
      ensures forall i :: 0 <= i < |docs| ==> IsCanonical(MergeAll(old(View()), docs[..i + 1]), docs[i], canonical[i])
    {
      canonical, changed := [], false;
      var next := byId;
      for i := 0 to |docs|
        invariant ContentsOf(next.entries) == MergeAll(old(View()), docs[..i])
        invariant if changed then fresh(next) else next == byId
        invariant byId == old(byId) && byId.entries == old(byId.entries)
        invariant |canonical| == i
        invariant forall k :: 0 <= k < i ==> IsCanonical(MergeAll(old(View()), docs[..k + 1]), docs[k], canonical[k])
      {
        MergeStep(old(View()), docs, i);
        var one;
        next, changed, one := IngestOne(next, changed, docs[i]);
        canonical := canonical + [one];
      }
      assert docs[..|docs|] == docs;
      if changed {
        byId := next;
        Emit();
      }
    }

    method Update(id: Id, updater: Fields -> Option<Fields>) returns (changed: bool)
      modifies this`byId, this`emitScheduled
      ensures View() == Updated(old(View()), id, updater)
      ensures !changed <==> byId == old(byId)
      ensures changed ==> fresh(byId)
    {
      if id !in byId.entries {
        return false;
      }
      var doc := byId.entries[id];
      var changes := updater(doc.fields);
      if changes.None? {
        return false;
      }
      var canonical;
      canonical, changed := Ingest([RawDoc(Some(id), doc.fields + changes.value)]);
    }

    /** The answer for one document, entered into the map under construction. */
    method MapOne(map_: DocMap, copied: bool, key: Id, answer: Answer) returns (next: DocMap, changed: bool, object_: DocObject)
      requires !copied ==> map_ == byId
      requires key in byId.entries && key in map_.entries && map_.entries[key] == byId.entries[key]
      modifies if copied then {map_} else {}
      ensures next.entries == old(map_.entries)[key := object_]
      ensures object_.fields == if answer.NewObject? then answer.fields else old(byId.entries[key]).fields
      ensures next == map_ || fresh(next)
      ensures changed <==> copied || next != map_
      ensures changed <==> copied || IsChange(answer)
      ensures copied ==> next == map_
    {
      next, changed, object_ := map_, copied, byId.entries[key];
      if IsChange(answer) {
        if !changed {
          next := new DocMap(byId.entries);
        }
        changed := true;
        if answer.NewObject? {
          object_ := new DocObject(answer.fields);
        }
        next.entries := next.entries[key := object_];
      } else {
        assert next.entries[key := object_] == next.entries;
      }
    }

    method MapDocuments(mapper: (Id, Fields) -> Answer) returns (changed: bool)
      modifies this`byId, this`emitScheduled
      ensures View() == Mapped(old(View()), mapper)
      ensures !changed <==> byId == old(byId)
      ensures changed <==> Changes(old(View()), mapper, old(View()).Keys)
      ensures changed ==> fresh(byId)
    {
      changed := false;
      var next := byId;
      ghost var before := View();
      var rest := byId.entries.Keys;
      while rest != {}
        invariant rest <= byId.entries.Keys && byId == old(byId) && byId.entries == old(byId.entries)
        invariant if changed then fresh(next) else next == byId
        invariant changed <==> Changes(before, mapper, before.Keys - rest)
        invariant PartlyMapped(byId.entries, next.entries, mapper, rest)
        decreases rest
      {
        var key :| key in rest;
        ghost var entries := next.entries;
        ChangesMore(before, mapper, rest, key);
        var object_;
        next, changed, object_ := MapOne(next, changed, key, mapper(key, byId.entries[key].fields));
        MappedOneMore(byId.entries, entries, mapper, rest, key, object_);
        rest := rest - {key};
      }
      assert before.Keys - rest == before.Keys;
      MappedContents(byId.entries, next.entries, mapper);
      if changed {
        byId := next;
        Emit();
      }
    }

    method Remove(ids: seq<Id>) returns (changed: bool)
      modifies this`byId, this`emitScheduled
      ensures View() == old(View()) - Elems(ids)
      ensures !changed <==> byId == old(byId)
      ensures changed ==> fresh(byId)
    {
      changed := false;
      var next := byId;
      for i := 0 to |ids|
        invariant byId == old(byId) && byId.entries == old(byId.entries)
        invariant if changed then fresh(next) else next == byId
        invariant next.entries == byId.entries - Elems(ids[..i])
      {
        assert Elems(ids[..i + 1]) == Elems(ids[..i]) + {ids[i]} by {
          assert ids[..i + 1] == ids[..i] + [ids[i]];
        }
        if ids[i] in next.entries {
          if !changed {
            next := new DocMap(byId.entries);
          }
          next.entries := next.entries - {ids[i]};
          changed := true;
        }
      }
      assert ids[..|ids|] == ids;
      if changed {
        byId := next;
        Emit();
      }
    }

    /**
     Any sequence of calls: the contents are the fold of their effects. No map
     that existed before is in the frame, so every snapshot taken earlier stays as it was.
     */
    method PerformAll(calls: seq<Call>)
      modifies this`byId, this`emitScheduled
      ensures View() == AfterAll(old(View()), calls)
      ensures byId == old(byId) || fresh(byId)
    {
      for i := 0 to |calls|
        invariant AfterAll(old(View()), calls) == AfterAll(View(), calls[i..])
        invariant byId == old(byId) || fresh(byId)
      {
        assert calls[i..][1..] == calls[i + 1..];
        var changed: bool;
        match calls[i] {
          case IngestCall(docs) =>
            var canonical;
            canonical, changed := Ingest(docs);
          case UpdateCall(id, updater) => changed := Update(id, updater);
          case MapCall(mapper) => changed := MapDocuments(mapper);
          case RemoveCall(ids) => changed := Remove(ids);
        }
      }
    }

    /** A snapshot is the map object itself; whatever calls follow, its entries stay. */
    method SnapshotThenPerform(calls: seq<Call>) returns (snapshot: DocMap)
      modifies this`byId, this`emitScheduled
      ensures snapshot == old(byId) && snapshot.entries == old(byId.entries)
      ensures View() == AfterAll(ContentsOf(snapshot.entries), calls)
    {
      snapshot := byId;
      PerformAll(calls);
    }

    /** The synchronous part of ensure(). A fetcher may also throw at once. */
    method StartEnsure(id: Id, hasFetcher: bool, throwsAtOnce: bool) returns (r: EnsureResult)
      requires Valid()
      modifies this`inflight, this`outstanding
      ensures Valid()
      ensures r == if id in old(View()) then Cached(old(View())[id])
                   else if !hasFetcher then Nothing
                   else if id in old(inflight) then Joined
                   else if throwsAtOnce then Threw
                   else Started
      ensures Requests() == NextFetches(old(Requests()), Ensure(id, hasFetcher, throwsAtOnce))
    {
      if id in byId.entries {
        return Cached(byId.entries[id].fields);
      }
      if !hasFetcher {
        return Nothing;
      }
      if id in inflight {
        return Joined;
      }
      if throwsAtOnce {
        // The cleanup runs before the promise is entered, so the entry stays.
        inflight := inflight - {id};
        inflight := inflight + {id};
        return Threw;
      }
      outstanding := outstanding + multiset{id};
      inflight := inflight + {id};
      return Started;
    }

    /** A fetch comes back; what the callers that wait for it get is null or a document, if it did not fail. */
    method FinishFetch(id: Id, fetched: Fetched) returns (r: Option<Fields>)
      requires Valid() && id in outstanding
      modifies this
      ensures Valid()
      ensures Requests() == NextFetches(old(Requests()), Finish(id, if fetched.Document? then fetched.doc.id else None))
      ensures View() == if fetched.Document? then Shallow(old(View()), fetched.doc) else old(View())
      ensures r.Some? <==> fetched.Document?
      ensures r.Some? ==> IsCanonical(View(), fetched.doc, r.value)
    {
      r := None;
      if fetched.Document? {
        var canonical, changed := Ingest([fetched.doc]);
        assert [fetched.doc][..1] == [fetched.doc];
        assert View() == Shallow(old(View()), fetched.doc);
        r := Some(canonical[0]);
      }
      outstanding := outstanding - multiset{id};
      inflight := inflight - {id};
    }
  }
}
