/**
 The plan of a document update (build_document_update_plan of
 backend/src/services/documents.rs) and what applying it twice does. A time is
 kept as chrono keeps it, where the nanoseconds of a leap second go on past a
 second; the database keeps whole microseconds and no leap seconds, and its JSON
 columns rewrite some numbers. Reading a timestamp, decoding the metadata field,
 deriving a file name and rewriting a number are parameters.
*/
module UpdatePlan {
  import opened Common
  import opened Text
  import opened Metadata

  /** Seconds from the start of 2000, and nanoseconds: below 1000000000, or up to twice that in a leap second. */
  datatype Moment = Moment(seconds: int, nanos: nat)

  datatype Document = Document(title: string, filename: string, issuedAt: Option<Moment>, metadata: Json)

  datatype MetadataUpdate = MetadataUpdate(value: Json, replace: bool)

  datatype Outside = Outside(
    parseTimestamp: string -> Option<Moment>,
    decodeMetadata: Json -> Option<MetadataUpdate>,
    retainExtension: (string, string) -> string,
    storeNumber: Num -> Num)

  datatype Changes = Changes(title: Option<string>, filename: Option<string>, issuedAt: Option<Option<Moment>>, metadata: Option<Json>)

  datatype PlanError =
    | TitleNotString | IssuedAtNotString | MetadataInvalid | TitleEmpty | IssuedAtEmpty | IssuedAtUnreadable
    | MergeRefused | NoChanges

  function Field(payload: map<string, Json>, key: string): Json {
    if key in payload then payload[key] else Null
  }

  // ---------- The plan, field by field ----------

  function TitleChange(doc: Document, payload: map<string, Json>, out: Outside): Result<(Option<string>, Option<string>), PlanError> {
    match Field(payload, "title")
    case String(raw) =>
      var trimmed := Trim(raw);
      if trimmed == "" then Err(TitleEmpty)
      else if trimmed == doc.title then Ok((None, None))
      else
        var filename := out.retainExtension(trimmed, doc.filename);
        Ok((Some(trimmed), if filename != doc.filename then Some(filename) else None))
    case Null => Ok((None, None))
    case _ => Err(TitleNotString)
  }

  function IssuedAtChange(doc: Document, payload: map<string, Json>, out: Outside): Result<Option<Option<Moment>>, PlanError> {
    if "issued_at" !in payload then Ok(None)
    else
      match payload["issued_at"]
      case Null => Ok(if doc.issuedAt.Some? then Some(None) else None)
      case String(raw) =>
        var trimmed := Trim(raw);
        if trimmed == "" then Err(IssuedAtEmpty)
        else
          (match out.parseTimestamp(trimmed)
           case None => Err(IssuedAtUnreadable)
           case Some(t) => Ok(if doc.issuedAt != Some(t) then Some(Some(t)) else None))
      case _ => Err(IssuedAtNotString)
  }

  function MetadataChange(doc: Document, payload: map<string, Json>, out: Outside): Result<Option<Json>, PlanError> {
    if Field(payload, "metadata").Null? then Ok(None)
    else
      match out.decodeMetadata(payload["metadata"])
      case None => Err(MetadataInvalid)
      case Some(update) =>
        if update.replace then Ok(if doc.metadata != update.value then Some(update.value) else None)
        else
          match MergeDocumentMetadata(doc.metadata, update.value)
          case Err(_) => Err(MergeRefused)
          case Ok(next) => Ok(if doc.metadata != next then Some(next) else None)
  }

  /** The types of all fields are looked at before any value is. */
  function Malformed(payload: map<string, Json>, out: Outside): Option<PlanError> {
    if !Field(payload, "title").Null? && !Field(payload, "title").String? then Some(TitleNotString)
    else if !Field(payload, "issued_at").Null? && !Field(payload, "issued_at").String? then Some(IssuedAtNotString)
    else if !Field(payload, "metadata").Null? && out.decodeMetadata(payload["metadata"]).None? then Some(MetadataInvalid)
    else None
  }

  function Plan(doc: Document, payload: map<string, Json>, out: Outside): Result<Changes, PlanError> {
    if Malformed(payload, out).Some? then Err(Malformed(payload, out).value)
    else
      match TitleChange(doc, payload, out)
      case Err(e) => Err(e)
      case Ok((title, filename)) =>
        match IssuedAtChange(doc, payload, out)
        case Err(e) => Err(e)
        case Ok(issuedAt) =>
          match MetadataChange(doc, payload, out)
          case Err(e) => Err(e)
          case Ok(metadata) =>
            if title.None? && issuedAt.None? && metadata.None? then Err(NoChanges)
            else Ok(Changes(title, filename, issuedAt, metadata))
  }

  /** The plan as the code builds it up: one mutable change set and a flag. */
  method BuildDocumentUpdatePlan(doc: Document, payload: map<string, Json>, out: Outside) returns (r: Result<Changes, PlanError>)
    ensures r == Plan(doc, payload, out)
  {
    var titleField, issuedField, metadataField := Field(payload, "title"), Field(payload, "issued_at"), Field(payload, "metadata");
    if !titleField.Null? && !titleField.String? {
      return Err(TitleNotString);
    }
    if !issuedField.Null? && !issuedField.String? {
      return Err(IssuedAtNotString);
    }
    var metadata: Option<MetadataUpdate> := None;
    if !metadataField.Null? {
      metadata := out.decodeMetadata(metadataField);
      if metadata.None? {
        return Err(MetadataInvalid);
      }
    }
    var changes, hasChanges := Changes(None, None, None, None), false;

    if titleField.String? {
      var trimmed := Trim(titleField.s);
      if trimmed == "" {
        return Err(TitleEmpty);
      }
      if trimmed != doc.title {
        var newFilename := out.retainExtension(trimmed, doc.filename);
        changes := changes.(title := Some(trimmed));
        if newFilename != doc.filename {
          changes := changes.(filename := Some(newFilename));
        }
        hasChanges := true;
      }
    }

    if "issued_at" in payload {
      if issuedField.Null? {
        if doc.issuedAt.Some? {
          changes := changes.(issuedAt := Some(None));
          hasChanges := true;
        }
      } else {
        var trimmed := Trim(issuedField.s);
        if trimmed == "" {
          return Err(IssuedAtEmpty);
        }
        var parsed := out.parseTimestamp(trimmed);
        if parsed.None? {
          return Err(IssuedAtUnreadable);
        }
        if doc.issuedAt != parsed {
          changes := changes.(issuedAt := Some(parsed));
          hasChanges := true;
        }
      }
    }

    if metadata.Some? {
      var next := metadata.value.value;
      if !metadata.value.replace {
        var merged := MergeMetadata(doc.metadata, metadata.value.value);
        if merged.Err? {
          return Err(MergeRefused);
        }
        next := merged.value;
      }
      if doc.metadata != next {
        changes := changes.(metadata := Some(next));
        hasChanges := true;
      }
    }

    r := if hasChanges then Ok(changes) else Err(NoChanges);
  }

  // ---------- Applying a plan ----------

  const SECOND: nat := 1_000_000_000

  function Nanos(t: Moment): int {
    t.seconds * SECOND + t.nanos
  }

  /** Whole microseconds from the start of 2000, dropping the rest towards that instant. */
  function Micros(t: Moment): int {
    if Nanos(t) >= 0 then Nanos(t) / 1000 else -(-Nanos(t) / 1000)
  }

  function FromMicros(m: int): Moment {
    Moment(m / 1_000_000, m % 1_000_000 * 1000)
  }

  function StoredTime(t: Moment): Moment {
    FromMicros(Micros(t))
  }

  /** A time the database cannot keep: in a leap second, or finer than a microsecond. */
  predicate Unstorable(t: Moment) {
    t.nanos >= SECOND || t.nanos % 1000 != 0
  }

  lemma MicrosOf(m: int)
    ensures Micros(FromMicros(m)) == m
  {
    var t := FromMicros(m);
    assert t.seconds * 1_000_000 + m % 1_000_000 == m;
    assert Nanos(t) == m * 1000;
  }

  lemma StoredTimeTwice(t: Moment)
    ensures StoredTime(StoredTime(t)) == StoredTime(t) && !Unstorable(StoredTime(t))
  {
    MicrosOf(Micros(t));
  }

  lemma StoredTimeExactly(t: Moment)
    ensures StoredTime(t) == t <==> !Unstorable(t)
  {
    if !Unstorable(t) {
      var u := t.nanos / 1000;
      assert t.nanos == u * 1000 && u < 1_000_000;
      assert Nanos(t) == (t.seconds * 1_000_000 + u) * 1000;
      assert Micros(t) == t.seconds * 1_000_000 + u;
    } else {
      StoredTimeTwice(t);
    }
  }

  function ApplyChanges(doc: Document, changes: Changes, out: Outside): Document {
    Document(
      if changes.title.Some? then changes.title.value else doc.title,
      if changes.filename.Some? then changes.filename.value else doc.filename,
      match changes.issuedAt
      case None => doc.issuedAt
      case Some(None) => None
      case Some(Some(t)) => Some(StoredTime(t)),
      if changes.metadata.Some? then StoreJson(changes.metadata.value, out.storeNumber) else doc.metadata)
  }

  /** A document as it is read from the database. */
  ghost predicate Persisted(doc: Document, out: Outside) {
    && (doc.issuedAt.Some? ==> !Unstorable(doc.issuedAt.value))
    && StoreJson(doc.metadata, out.storeNumber) == doc.metadata
  }

  /** The request sets a time the database cannot keep. */
  predicate SetsUnstorableTime(payload: map<string, Json>, out: Outside) {
    Field(payload, "issued_at").String?
    && var t := out.parseTimestamp(Trim(Field(payload, "issued_at").s));
    t.Some? && Unstorable(t.value)
  }

  /** The metadata of the request hold a number the database gives back as another. */
  predicate SetsRewrittenNumber(payload: map<string, Json>, out: Outside) {
    !Field(payload, "metadata").Null?
    && var update := out.decodeMetadata(payload["metadata"]);
    update.Some? && StoreJson(update.value.value, out.storeNumber) != update.value.value
  }

  function MetadataAfter(doc: Document, change: Option<Json>, out: Outside): Json {
    if change.Some? then StoreJson(change.value, out.storeNumber) else doc.metadata
  }

  /** Merging an update into what merging it left, once as it is and once as it is stored. */
  lemma MergedAgain(base: Json, update: Json, storeNumber: Num -> Num)
    requires StoresOnce(storeNumber) && StoreJson(base, storeNumber) == base
    ensures var stored := StoreJson(Merge(base, update), storeNumber);
            && StoreJson(stored, storeNumber) == stored
            && (Merge(stored, update) == stored <==> StoreJson(update, storeNumber) == update)
            && StoreJson(Merge(stored, update), storeNumber) == stored
  {
    var stored := StoreJson(Merge(base, update), storeNumber);
    StoreTwice(Merge(base, update), storeNumber);
    StoreMerge(base, update, storeNumber);
    StoreMerge(stored, update, storeNumber);
    MergeIdempotent(base, StoreJson(update, storeNumber));
    MergeStoredExactly(stored, update, storeNumber);
  }

  /**
   Once applied, the same metadata update is no change - exactly when its value
   comes back from the database as it is. Otherwise it is a change that leaves
   the same metadata.
   */
  lemma MetadataSettles(doc: Document, payload: map<string, Json>, out: Outside)
    requires Persisted(doc, out) && StoresOnce(out.storeNumber) && MetadataChange(doc, payload, out).Ok?
    ensures var doc' := doc.(metadata := MetadataAfter(doc, MetadataChange(doc, payload, out).value, out));
            && StoreJson(doc'.metadata, out.storeNumber) == doc'.metadata
            && MetadataChange(doc', payload, out).Ok?
            && (MetadataChange(doc', payload, out).value.None? <==> !SetsRewrittenNumber(payload, out))
            && MetadataAfter(doc', MetadataChange(doc', payload, out).value, out) == doc'.metadata
  {
    if !Field(payload, "metadata").Null? {
      var update := out.decodeMetadata(payload["metadata"]).value;
      StoreTwice(update.value, out.storeNumber);
      if !update.replace {
        MergedMetadataSettles(doc.metadata, update.value, out.storeNumber);
      }
    }
  }

  lemma MergedMetadataSettles(existing: Json, update: Json, storeNumber: Num -> Num)
    requires StoresOnce(storeNumber) && StoreJson(existing, storeNumber) == existing && MergeDocumentMetadata(existing, update).Ok?
    ensures var merged := MergeDocumentMetadata(existing, update).value;
            var kept := if existing != merged then StoreJson(merged, storeNumber) else existing;
            && StoreJson(kept, storeNumber) == kept && kept.Object?
            && (Merge(kept, update) == kept <==> StoreJson(update, storeNumber) == update)
            && StoreJson(Merge(kept, update), storeNumber) == kept
  {
    var base := if existing.Object? then existing else Object(map[]);
    assert StoreJson(Object(map[]), storeNumber).fields == map[];
    MergedAgain(base, update, storeNumber);
  }

  /**
   Sending the same valid update again is rejected with "no changes provided" if
   and only if it sets no time in a leap second or finer than a microsecond, and
   no number the database gives back as another. With such a value every
   repetition counts as a change, and leaves the document as it is.
   */
  lemma SecondUpdateRejectedExactly(doc: Document, payload: map<string, Json>, out: Outside)
    requires Persisted(doc, out) && StoresOnce(out.storeNumber) && Plan(doc, payload, out).Ok?
    ensures var doc' := ApplyChanges(doc, Plan(doc, payload, out).value, out);
            && Persisted(doc', out)
            && (Plan(doc', payload, out) == Err(NoChanges) <==>
                  !SetsUnstorableTime(payload, out) && !SetsRewrittenNumber(payload, out))
            && (SetsUnstorableTime(payload, out) || SetsRewrittenNumber(payload, out) ==>
                  Plan(doc', payload, out).Ok? && ApplyChanges(doc', Plan(doc', payload, out).value, out) == doc')
  {
    var doc' := ApplyChanges(doc, Plan(doc, payload, out).value, out);
    TitleSettles(doc, doc', payload, out);
    MetadataSettles(doc, payload, out);
    MetadataOnly(doc', doc.(metadata := doc'.metadata), payload, out);
    IssuedAtSettles(doc, doc', payload, out);
  }

  lemma MetadataOnly(d: Document, e: Document, payload: map<string, Json>, out: Outside)
    requires d.metadata == e.metadata
    ensures MetadataChange(d, payload, out) == MetadataChange(e, payload, out)
  {
  }

  lemma TitleSettles(doc: Document, doc': Document, payload: map<string, Json>, out: Outside)
    requires TitleChange(doc, payload, out).Ok?
    requires doc'.title == (if TitleChange(doc, payload, out).value.0.Some? then TitleChange(doc, payload, out).value.0.value else doc.title)
    ensures TitleChange(doc', payload, out) == Ok((None, None))
  {
  }

  function IssuedAtAfter(doc: Document, change: Option<Option<Moment>>): Option<Moment> {
    match change
    case None => doc.issuedAt
    case Some(None) => None
    case Some(Some(t)) => Some(StoredTime(t))
  }

  lemma IssuedAtSettles(doc: Document, doc': Document, payload: map<string, Json>, out: Outside)
    requires doc.issuedAt.Some? ==> !Unstorable(doc.issuedAt.value)
    requires Malformed(payload, out).None? && IssuedAtChange(doc, payload, out).Ok?
    requires doc'.issuedAt == IssuedAtAfter(doc, IssuedAtChange(doc, payload, out).value)
    ensures doc'.issuedAt.Some? ==> !Unstorable(doc'.issuedAt.value)
    ensures IssuedAtChange(doc', payload, out).Ok?
    ensures IssuedAtChange(doc', payload, out).value.None? <==> !SetsUnstorableTime(payload, out)
    ensures IssuedAtAfter(doc', IssuedAtChange(doc', payload, out).value) == doc'.issuedAt
  {
    if Field(payload, "issued_at").String? {
      var t := out.parseTimestamp(Trim(Field(payload, "issued_at").s)).value;
      StoredTimeTwice(t);
      StoredTimeExactly(t);
    }
  }

  /** The leap second at the end of 2016 is stored as the start of 2017. */
  lemma LeapSecondMoves()
    ensures var leap, next := Moment(536_543_999, SECOND), Moment(536_544_000, 0);
            StoredTime(leap) == next && Unstorable(leap) && StoredTime(next) == next
  {
    StoredTimeExactly(Moment(536_544_000, 0));
    assert Nanos(Moment(536_543_999, SECOND)) == Nanos(Moment(536_544_000, 0));
  }

  // ---------- What an accepted update leaves ----------

  function AfterUpdate(doc: Document, payload: map<string, Json>, out: Outside): Document
    requires Plan(doc, payload, out).Ok?
  {
    ApplyChanges(doc, Plan(doc, payload, out).value, out)
  }

  /** The title is the one requested, trimmed, and the file name follows it when it changes. */
  lemma TitleAfterUpdate(doc: Document, payload: map<string, Json>, out: Outside)
    requires Plan(doc, payload, out).Ok?
    ensures var doc' := AfterUpdate(doc, payload, out);
            match Field(payload, "title")
            case String(raw) =>
              && doc'.title == Trim(raw) != ""
              && doc'.filename == if Trim(raw) == doc.title then doc.filename else out.retainExtension(Trim(raw), doc.filename)
            case _ => doc'.title == doc.title && doc'.filename == doc.filename
  {
  }

  /** The time is the one requested, as the database keeps it; a null takes it away. */
  lemma IssuedAtAfterUpdate(doc: Document, payload: map<string, Json>, out: Outside)
    requires Persisted(doc, out) && Plan(doc, payload, out).Ok?
    ensures var doc' := AfterUpdate(doc, payload, out);
            && ("issued_at" !in payload ==> doc'.issuedAt == doc.issuedAt)
            && ("issued_at" in payload && payload["issued_at"].Null? ==> doc'.issuedAt.None?)
            && (Field(payload, "issued_at").String? ==>
                  var t := out.parseTimestamp(Trim(Field(payload, "issued_at").s));
                  t.Some? && doc'.issuedAt == Some(StoredTime(t.value)))
  {
    if Field(payload, "issued_at").String? {
      StoredTimeExactly(out.parseTimestamp(Trim(Field(payload, "issued_at").s)).value);
    }
  }

  /** The metadata to start a merge from. */
  function MergeBase(doc: Document): Json {
    if doc.metadata.Object? then doc.metadata else Object(map[])
  }

  /**
   The metadata are, as the database keeps them: with replace, the update alone;
   without, at every path the update's plain value if it has one there, and
   otherwise what was there before, unless the update overrides it; nothing else.
   */
  lemma MetadataAfterUpdate(doc: Document, payload: map<string, Json>, out: Outside, path: seq<string>)
    requires Persisted(doc, out) && Plan(doc, payload, out).Ok?
    ensures var after := AfterUpdate(doc, payload, out).metadata;
            if Field(payload, "metadata").Null? then after == doc.metadata
            else
              var update := out.decodeMetadata(payload["metadata"]);
              && update.Some?
              && var value := update.value.value;
              if update.value.replace then after == StoreJson(value, out.storeNumber)
              else
                && value.Object? && after.Object?
                && (Lookup(value, path).Some? && !Lookup(value, path).value.Object? ==>
                      Lookup(after, path) == Some(StoreJson(Lookup(value, path).value, out.storeNumber)))
                && (Lookup(MergeBase(doc), path).Some? && !Overrides(MergeBase(doc), value, path) ==>
                      && Lookup(after, path).Some?
                      && (Lookup(MergeBase(doc), path).value.Object? ==> ObjectAt(after, path))
                      && (!Lookup(MergeBase(doc), path).value.Object? ==> Lookup(after, path) == Lookup(MergeBase(doc), path)))
                && (Lookup(after, path).Some? ==> Lookup(MergeBase(doc), path).Some? || Lookup(value, path).Some?)
  {
    if !Field(payload, "metadata").Null? {
      var update := out.decodeMetadata(payload["metadata"]).value;
      if !update.replace {
        MergedAfterUpdate(doc, payload, out);
        MergedAtPath(MergeBase(doc), update.value, out.storeNumber, path);
      }
    }
  }

  lemma MergedAfterUpdate(doc: Document, payload: map<string, Json>, out: Outside)
    requires Persisted(doc, out) && Plan(doc, payload, out).Ok? && !Field(payload, "metadata").Null?
    requires !out.decodeMetadata(payload["metadata"]).value.replace
    ensures var value := out.decodeMetadata(payload["metadata"]).value.value;
            && value.Object? && StoreJson(MergeBase(doc), out.storeNumber) == MergeBase(doc)
            && AfterUpdate(doc, payload, out).metadata == StoreJson(Merge(MergeBase(doc), value), out.storeNumber)
  {
    assert StoreJson(Object(map[]), out.storeNumber).fields == map[];
  }

  lemma MergedAtPath(base: Json, value: Json, storeNumber: Num -> Num, path: seq<string>)
    requires base.Object? && value.Object? && StoreJson(base, storeNumber) == base
    ensures var after := StoreJson(Merge(base, value), storeNumber);
            && after.Object?
            && (Lookup(value, path).Some? && !Lookup(value, path).value.Object? ==>
                  Lookup(after, path) == Some(StoreJson(Lookup(value, path).value, storeNumber)))
            && (Lookup(base, path).Some? && !Overrides(base, value, path) ==>
                  && Lookup(after, path).Some?
                  && (Lookup(base, path).value.Object? ==> ObjectAt(after, path))
                  && (!Lookup(base, path).value.Object? ==> Lookup(after, path) == Lookup(base, path)))
            && (Lookup(after, path).Some? ==> Lookup(base, path).Some? || Lookup(value, path).Some?)
  {
    StoreLookup(Merge(base, value), path, storeNumber);
    StoreLookup(base, path, storeNumber);
    if Lookup(value, path).Some? && !Lookup(value, path).value.Object? {
      UpdateAppears(base, value, path);
    }
    if Lookup(base, path).Some? && !Overrides(base, value, path) {
      BaseIsKept(base, value, path);
    }
    if Lookup(Merge(base, value), path).Some? {
      NothingElseAppears(base, value, path);
    }
  }

  // ---------- Which updates are accepted ----------

  /** Every field is of its type and can be read. */
  predicate Readable(doc: Document, payload: map<string, Json>, out: Outside) {
    && (Field(payload, "title").Null? || (Field(payload, "title").String? && Trim(Field(payload, "title").s) != ""))
    && (Field(payload, "issued_at").Null?
        || (Field(payload, "issued_at").String? && Trim(Field(payload, "issued_at").s) != ""
            && out.parseTimestamp(Trim(Field(payload, "issued_at").s)).Some?))
    && (Field(payload, "metadata").Null?
        || (out.decodeMetadata(payload["metadata"]).Some?
            && (out.decodeMetadata(payload["metadata"]).value.replace
                || ((doc.metadata.Object? || doc.metadata.Null?) && out.decodeMetadata(payload["metadata"]).value.value.Object?))))
  }

  /** Some field asks for a value the document does not have. */
  predicate AsksForChange(doc: Document, payload: map<string, Json>, out: Outside)
    requires Readable(doc, payload, out)
  {
    || (Field(payload, "title").String? && Trim(Field(payload, "title").s) != doc.title)
    || ("issued_at" in payload && payload["issued_at"].Null? && doc.issuedAt.Some?)
    || (Field(payload, "issued_at").String? && doc.issuedAt != out.parseTimestamp(Trim(Field(payload, "issued_at").s)))
    || (!Field(payload, "metadata").Null?
        && var update := out.decodeMetadata(payload["metadata"]).value;
        doc.metadata != if update.replace then update.value else Merge(MergeBase(doc), update.value))
  }

  /** An update is accepted exactly when it can be read and asks for a change; asking for none is its own error. */
  lemma UpdateAcceptedExactly(doc: Document, payload: map<string, Json>, out: Outside)
    ensures Plan(doc, payload, out).Ok? <==> Readable(doc, payload, out) && AsksForChange(doc, payload, out)
    ensures Plan(doc, payload, out) == Err(NoChanges) <==> Readable(doc, payload, out) && !AsksForChange(doc, payload, out)
  {
  }
}
