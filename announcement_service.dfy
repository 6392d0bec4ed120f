/**
 * The storage side of `AnnouncementService` (full_backend/app/services/announcement.py):
 * the scraper's bulk upsert, the partial update of one announcement, and the query that
 * the listing endpoint builds from its search filters.
 */
module AnnouncementService {
  import opened Wrappers
  import opened Text
  import opened Models
  import opened Storage
  import opened MongoUtils

  // ---------------------------------------------------------------------------------------
  // bulk_upsert_announcements

  /**
   * The stamps a record receives before it is written, `now` standing for `datetime.utcnow()`:
   * a keyless record gets both `createdAt` and `updatedAt`; a keyed one gets `updatedAt`, and
   * `createdAt` only when it has none.
   */
  function Stamped(d: Doc, now: DateTime): (r: Doc)
    ensures r.Keys == d.Keys + {"createdAt", "updatedAt"}
    ensures r["updatedAt"] == Stamp(now)
    ensures forall f :: f in d && f != "createdAt" && f != "updatedAt" ==> r[f] == d[f]
    ensures KeyOf(d).None? || "createdAt" !in d ==> r["createdAt"] == Stamp(now)
    ensures KeyOf(d).Some? && "createdAt" in d ==> r["createdAt"] == d["createdAt"]
  {
    if KeyOf(d).None? then d["createdAt" := Stamp(now)]["updatedAt" := Stamp(now)]
    else
      var u := d["updatedAt" := Stamp(now)];
      if "createdAt" !in u then u["createdAt" := Stamp(now)] else u
  }

  /** Stamping touches no identity field, so a record keeps its key. */
  lemma {:induction false} StampingKeepsKey(d: Doc, now: DateTime)
    ensures KeyOf(Stamped(d, now)) == KeyOf(d)
  {
    var r := Stamped(d, now);
    assert Get(r, "lienDeConsultation") == Get(d, "lienDeConsultation");
    assert Get(r, "reference") == Get(d, "reference");
    assert Get(r, "datePublication") == Get(d, "datePublication");
  }

  /** The records as written: each one stamped, in order. */
  function StampedRecords(docs: seq<Doc>, now: DateTime): (r: seq<Doc>)
    ensures |r| == |docs| && forall i :: 0 <= i < |docs| ==> r[i] == Stamped(docs[i], now)
  {
    seq(|docs|, i requires 0 <= i < |docs| => Stamped(docs[i], now))
  }

  /** The two lists the batch is split into are its keyed and its keyless records, and the count is what writing them creates. */
  lemma {:induction false} SplitOperations(m: map<Key, Doc>, records: seq<Doc>, ops: seq<WriteOp>)
    requires ops == OpsFor(records)
    ensures KeyedRecords(records) == BulkOps(ops) && KeylessRecords(records) == PlainInserts(ops)
    ensures NewDocuments(m, records) == Created(m, BulkOps(ops)) + |PlainInserts(ops)|
  {
  }

  /** The loop of `bulk_upsert_announcements`: each record stamped in place, and its write operation appended. */
  method StampRecords(announcements: array<Doc>, now: DateTime) returns (operations: seq<WriteOp>)
    modifies announcements
    ensures announcements[..] == StampedRecords(old(announcements[..]), now)
    ensures operations == OpsFor(announcements[..])
  {
    operations := [];
    for i := 0 to announcements.Length
      invariant forall j :: 0 <= j < i ==> announcements[j] == Stamped(old(announcements[j]), now)
      invariant forall j :: i <= j < announcements.Length ==> announcements[j] == old(announcements[j])
      invariant operations == OpsFor(announcements[..i])
    {
      var record := announcements[i];
      StampingKeepsKey(record, now);
      announcements[i] := Stamped(record, now);
      operations := operations + [OpFor(announcements[i])];
      assert announcements[..i + 1] == announcements[..i] + [announcements[i]];
    }
    assert announcements[..announcements.Length] == announcements[..];
  }

  /**
   * `bulk_upsert_announcements(announcements)`: `0` without any write for an empty batch;
   * otherwise every record is stamped in place, keyed records are upserted, keyless ones
   * inserted, and the number of documents created is returned. `storageFails` stands for
   * the storage layer raising during the writes; the service then reports `0`.
   */
  method BulkUpsertAnnouncements(c: Collection, announcements: array<Doc>, now: DateTime, storageFails: bool)
    returns (insertedCount: nat)
    modifies c, announcements
    ensures announcements.Length == 0 ==> insertedCount == 0 && unchanged(c)
    ensures announcements[..] == StampedRecords(old(announcements[..]), now)
    ensures storageFails ==> insertedCount == 0 && unchanged(c)
    ensures !storageFails ==> c.keyed == ApplyUpserts(old(c.keyed), KeyedRecords(announcements[..]))
    ensures !storageFails ==> c.loose == old(c.loose) + KeylessRecords(announcements[..])
    ensures !storageFails ==> insertedCount == NewDocuments(old(c.keyed), announcements[..])
    ensures c.Size() == old(c.Size()) + insertedCount
  {
    if announcements.Length == 0 {
      return 0;
    }
    var operations := StampRecords(announcements, now);
    SplitOperations(c.keyed, announcements[..], operations);
    if storageFails {
      return 0;
    }
    insertedCount := WriteOperations(c, operations);
  }

  /** The writes of `bulk_upsert_announcements`: the upserts in one `bulk_write`, the rest in one `insert_many`, each skipped when it has nothing to write. */
  method WriteOperations(c: Collection, operations: seq<WriteOp>) returns (insertedCount: nat)
    modifies c
    ensures c.keyed == ApplyUpserts(old(c.keyed), BulkOps(operations))
    ensures c.loose == old(c.loose) + PlainInserts(operations)
    ensures insertedCount == Created(old(c.keyed), BulkOps(operations)) + |PlainInserts(operations)|
    ensures c.Size() == old(c.Size()) + insertedCount
  {
    var bulk := BulkOps(operations);
    var direct := PlainInserts(operations);
    insertedCount := 0;
    if bulk != [] {
      var upserted := c.BulkWrite(bulk);
      insertedCount := insertedCount + upserted;
    }
    if direct != [] {
      var ids := c.InsertMany(direct);
      insertedCount := insertedCount + ids;
    }
  }

  // ---------------------------------------------------------------------------------------
  // update_announcement

  /** The value an update gives a field of the record, `None` when it leaves it unset. */
  function GivenValue(u: AnnouncementUpdate, field: string): Option<FieldValue> {
    match field
    case "procedure" => if u.procedure.Some? then Some(FieldValue.Text(u.procedure.value)) else None
    case "categorie" => if u.categorie.Some? then Some(FieldValue.Text(u.categorie.value)) else None
    case "reference" => if u.reference.Some? then Some(FieldValue.Text(u.reference.value)) else None
    case "objet" => if u.objet.Some? then Some(FieldValue.Text(u.objet.value)) else None
    case "acheteurPublic" => if u.acheteurPublic.Some? then Some(FieldValue.Text(u.acheteurPublic.value)) else None
    case "lots" => if u.lots.Some? then Some(FieldValue.Text(u.lots.value)) else None
    case "lieuExecution" => if u.lieuExecution.Some? then Some(FieldValue.Text(u.lieuExecution.value)) else None
    case "lienDeConsultation" =>
      if u.lienDeConsultation.Some? then Some(FieldValue.Text(u.lienDeConsultation.value)) else None
    case "piecesJointes" => if u.piecesJointes.Some? then Some(Links(u.piecesJointes.value)) else None
    case "datePublication" => if u.datePublication.Some? then Some(Stamp(u.datePublication.value)) else None
    case "dateLimite" => if u.dateLimite.Some? then Some(Stamp(u.dateLimite.value)) else None
    case _ => None
  }

  /** `{k: v for k, v in update.dict(exclude_unset=True).items() if v is not None}` */
  function UpdateFields(u: AnnouncementUpdate): (r: Doc)
    ensures r.Keys <= FieldNames
    ensures forall f :: f in r <==> GivenValue(u, f).Some?
    ensures forall f :: f in r ==> r[f] == GivenValue(u, f).value
  {
    map f | f in FieldNames && GivenValue(u, f).Some? :: GivenValue(u, f).value
  }

  /** A field of the update is in the dictionary exactly when it was given, and with the value given. */
  lemma {:induction false} UpdateFieldsKeepsGivenValues(u: AnnouncementUpdate)
    ensures "objet" in UpdateFields(u) <==> u.objet.Some?
    ensures u.objet.Some? ==> UpdateFields(u)["objet"] == FieldValue.Text(u.objet.value)
    ensures "lots" in UpdateFields(u) <==> u.lots.Some?
    ensures "piecesJointes" in UpdateFields(u) <==> u.piecesJointes.Some?
    ensures u.piecesJointes.Some? ==> UpdateFields(u)["piecesJointes"] == Links(u.piecesJointes.value)
    ensures "dateLimite" in UpdateFields(u) <==> u.dateLimite.Some?
    ensures u.dateLimite.Some? ==> UpdateFields(u)["dateLimite"] == Stamp(u.dateLimite.value)
  {
  }

  /** The update is empty exactly when no field was given. */
  lemma {:induction false} UpdateFieldsEmpty(u: AnnouncementUpdate)
    ensures UpdateFields(u) == map[] <==> u == EmptyUpdate
  {
    var r := UpdateFields(u);
    if u.procedure.Some? { assert "procedure" in r; }
    else if u.categorie.Some? { assert "categorie" in r; }
    else if u.reference.Some? { assert "reference" in r; }
    else if u.objet.Some? { assert "objet" in r; }
    else if u.acheteurPublic.Some? { assert "acheteurPublic" in r; }
    else if u.lots.Some? { assert "lots" in r; }
    else if u.lieuExecution.Some? { assert "lieuExecution" in r; }
    else if u.lienDeConsultation.Some? { assert "lienDeConsultation" in r; }
    else if u.piecesJointes.Some? { assert "piecesJointes" in r; }
    else if u.datePublication.Some? { assert "datePublication" in r; }
    else if u.dateLimite.Some? { assert "dateLimite" in r; }
    else { assert r.Keys == {}; }
  }

  predicate IsHexDigit(c: char) {
    '0' <= c <= '9' || 'a' <= c <= 'f' || 'A' <= c <= 'F'
  }

  /** What `ObjectId(s)` accepts for a string: 24 hexadecimal digits. */
  predicate IsObjectId(s: string) {
    |s| == 24 && forall i :: 0 <= i < |s| ==> IsHexDigit(s[i])
  }

  /** The stored announcements by `_id`; an id is kept in lower case, as `ObjectId` reads both cases alike. */
  class DocumentsById {
    var docs: map<string, Doc>

    constructor (initial: map<string, Doc>)
      ensures docs == initial
    {
      docs := initial;
    }
  }

  /**
   * `update_announcement(id, update)`: `None` with no write when no field is given, when
   * `id` is not an `ObjectId` or when no document has that id; otherwise the given fields
   * and `updatedAt` are set on the document, which is returned.
   */
  method UpdateAnnouncement(store: DocumentsById, id: string, update: AnnouncementUpdate, now: DateTime)
    returns (r: Option<Doc>)
    modifies store
    ensures UpdateFields(update) == map[] ==> r.None? && unchanged(store)
    ensures !IsObjectId(id) ==> r.None? && unchanged(store)
    ensures Lower(id) !in old(store.docs) ==> r.None? && unchanged(store)
    ensures UpdateFields(update) != map[] && IsObjectId(id) && Lower(id) in old(store.docs) ==> r.Some?
    ensures r.Some? ==> (
      && Lower(id) in old(store.docs)
      && store.docs == old(store.docs)[Lower(id) := r.value]
      && r.value == old(store.docs)[Lower(id)] + UpdateFields(update)["updatedAt" := Stamp(now)])
  {
    var updateDict := UpdateFields(update);
    if updateDict == map[] {
      return None;
    }
    updateDict := updateDict["updatedAt" := Stamp(now)];
    if !IsObjectId(id) {
      return None;
    }
    var key := Lower(id);
    if key in store.docs {
      var updated := store.docs[key] + updateDict;
      store.docs := store.docs[key := updated];
      return Some(updated);
    }
    return None;
  }

  /** An update sets its fields and `updatedAt` and keeps every other field of the document. */
  lemma {:induction false} UpdateKeepsOtherFields(doc: Doc, u: AnnouncementUpdate, now: DateTime)
    ensures var r := doc + UpdateFields(u)["updatedAt" := Stamp(now)];
      && r["updatedAt"] == Stamp(now)
      && (forall f :: f in UpdateFields(u) ==> r[f] == UpdateFields(u)[f])
      && (forall f :: f in doc && f !in UpdateFields(u) && f != "updatedAt" ==> r[f] == doc[f])
  {
    assert "updatedAt" !in FieldNames;
  }

  // ---------------------------------------------------------------------------------------
  // get_announcements: the query

  /** `AnnouncementSearchFilters`. */
  datatype SearchFilters = SearchFilters(
    procedure: Option<string>,
    categorie: Option<string>,
    acheteurPublic: Option<string>,
    lieuExecution: Option<string>,
    datePublicationFrom: Option<DateTime>,
    datePublicationTo: Option<DateTime>,
    dateLimiteFrom: Option<DateTime>,
    dateLimiteTo: Option<DateTime>,
    search: Option<string>)

  /** A condition of the query: a case-insensitive regex, a date range, or a text search. */
  datatype Condition = RegexIgnoreCase(pattern: string) | DateRange(gte: Option<DateTime>, lte: Option<DateTime>) | TextSearch(terms: string)

  /** Python truthiness of an optional string. */
  predicate Given(s: Option<string>) {
    s.Some? && s.value != ""
  }

  /** The condition a text filter adds, if any. */
  predicate TextFilterApplied(query: map<string, Condition>, field: string, value: Option<string>) {
    && (field in query <==> Given(value))
    && (Given(value) ==> query[field] == RegexIgnoreCase(value.value))
  }

  /** The condition a date range adds, if any: a bound appears exactly when it was given. */
  predicate RangeFilterApplied(query: map<string, Condition>, field: string, from: Option<DateTime>, to: Option<DateTime>) {
    && (field in query <==> from.Some? || to.Some?)
    && (from.Some? || to.Some? ==> query[field] == DateRange(from, to))
  }

  const QueryFields := {"procedure", "categorie", "acheteurPublic", "lieuExecution", "datePublication", "dateLimite", "$text"}

  /** `if value: query[field] = {"$regex": value, "$options": "i"}` */
  method AddRegex(query: map<string, Condition>, field: string, value: Option<string>) returns (q: map<string, Condition>)
    requires field !in query
    ensures TextFilterApplied(q, field, value)
    ensures forall k :: k != field ==> (k in q <==> k in query) && (k in q ==> q[k] == query[k])
    ensures q.Keys <= query.Keys + {field}
  {
    q := query;
    if Given(value) {
      q := q[field := RegexIgnoreCase(value.value)];
    }
  }

  /** The date range of a filter: `$gte` and `$lte` each present exactly when its bound is given. */
  method AddRange(query: map<string, Condition>, field: string, from: Option<DateTime>, to: Option<DateTime>)
    returns (q: map<string, Condition>)
    requires field !in query
    ensures RangeFilterApplied(q, field, from, to)
    ensures forall k :: k != field ==> (k in q <==> k in query) && (k in q ==> q[k] == query[k])
    ensures q.Keys <= query.Keys + {field}
  {
    q := query;
    if from.Some? || to.Some? {
      var gte: Option<DateTime> := None;
      var lte: Option<DateTime> := None;
      if from.Some? {
        gte := from;
      }
      if to.Some? {
        lte := to;
      }
      q := q[field := DateRange(gte, lte)];
    }
  }

  /** The query of `get_announcements`: one condition per filter that was given, nothing else. */
  method BuildQuery(filters: Option<SearchFilters>) returns (query: map<string, Condition>)
    ensures filters.None? ==> query == map[]
    ensures query.Keys <= QueryFields
    ensures filters.Some? ==>
      var f := filters.value;
      && TextFilterApplied(query, "procedure", f.procedure)
      && TextFilterApplied(query, "categorie", f.categorie)
      && TextFilterApplied(query, "acheteurPublic", f.acheteurPublic)
      && TextFilterApplied(query, "lieuExecution", f.lieuExecution)
      && RangeFilterApplied(query, "datePublication", f.datePublicationFrom, f.datePublicationTo)
      && RangeFilterApplied(query, "dateLimite", f.dateLimiteFrom, f.dateLimiteTo)
      && ("$text" in query <==> Given(f.search))
      && (Given(f.search) ==> query["$text"] == TextSearch(f.search.value))
  {
    query := map[];
    if filters.None? {
      return;
    }
    var f := filters.value;
    query := AddRegex(query, "procedure", f.procedure);
    query := AddRegex(query, "categorie", f.categorie);
    query := AddRegex(query, "acheteurPublic", f.acheteurPublic);
    query := AddRegex(query, "lieuExecution", f.lieuExecution);
    query := AddRange(query, "datePublication", f.datePublicationFrom, f.datePublicationTo);
    query := AddRange(query, "dateLimite", f.dateLimiteFrom, f.dateLimiteTo);
    if Given(f.search) {
      query := query["$text" := TextSearch(f.search.value)];
    }
  }
}
