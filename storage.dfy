/**
 * The announcements collection as the ingestion code sees it. A record with an identity
 * key is written with an upsert whose query is that key, so at most one document answers
 * to each key; a record without one is inserted as a loose document.
 */
module Storage {
  import opened Wrappers
  import opened Models

  // ---------------------------------------------------------------------------------------
  // Identity keys

  /** The query of an upsert: the consultation link, or the reference with the publication date. */
  datatype Key = ByLink(link: FieldValue) | ByReference(reference: FieldValue, published: FieldValue)

  /** `d.get(k)`: the value under `k`, `None` when the key is missing. */
  function Get(d: Doc, k: string): FieldValue {
    if k in d then d[k] else Null
  }

  /** `d.get(k) and d[k] != "N/A"`: a value that can identify a record. */
  predicate Usable(d: Doc, k: string) {
    Truthy(Get(d, k)) && Get(d, k) != FieldValue.Text(NotAvailable)
  }

  /**
   * The identity rule shared by both ingestion paths: the consultation link when it is
   * usable, else the reference with the publication date when the reference is usable,
   * else no key.
   */
  function KeyOf(d: Doc): (r: Option<Key>)
    ensures r.None? <==> !Usable(d, "lienDeConsultation") && !Usable(d, "reference")
    ensures Usable(d, "lienDeConsultation") ==> r == Some(ByLink(Get(d, "lienDeConsultation")))
    ensures !Usable(d, "lienDeConsultation") && Usable(d, "reference") ==>
              r == Some(ByReference(Get(d, "reference"), Get(d, "datePublication")))
  {
    if Usable(d, "lienDeConsultation") then Some(ByLink(d["lienDeConsultation"]))
    else if Usable(d, "reference") then Some(ByReference(d["reference"], Get(d, "datePublication")))
    else None
  }

  /** The equality fields of an upsert's query, which a document created by the upsert carries. */
  function KeyFields(k: Key): Doc {
    match k
    case ByLink(l) => map["lienDeConsultation" := l]
    case ByReference(r, p) => map["reference" := r, "datePublication" := p]
  }

  /** The key is read from the document's own fields, so the query of a key finds the fields it was read from. */
  lemma {:induction false} KeyOfReadsKeyFields(d: Doc)
    requires KeyOf(d).Some?
    ensures forall f :: f in KeyFields(KeyOf(d).value) ==> Get(d, f) == KeyFields(KeyOf(d).value)[f]
  {
  }

  /** A document created from a keyed record answers to the record's key again. */
  lemma {:induction false} CreatedDocumentKeepsKey(d: Doc)
    requires KeyOf(d).Some?
    ensures KeyOf(KeyFields(KeyOf(d).value) + d) == KeyOf(d)
  {
    var k := KeyOf(d).value;
    var c := KeyFields(k) + d;
    assert Get(c, "lienDeConsultation") == Get(d, "lienDeConsultation");
    assert Get(c, "reference") == Get(d, "reference");
    assert Get(c, "datePublication") == Get(d, "datePublication");
  }

  // ---------------------------------------------------------------------------------------
  // Upserts

  /** `UpdateOne(key, {"$set": d}, upsert=True)`: the fields of `d` set on the matching document, or a new one. */
  function Upsert(m: map<Key, Doc>, k: Key, d: Doc): (r: map<Key, Doc>)
    ensures r.Keys == m.Keys + {k}
    ensures forall j :: j in m && j != k ==> r[j] == m[j]
    ensures forall f :: f in d ==> f in r[k] && r[k][f] == d[f]
  {
    m[k := if k in m then m[k] + d else KeyFields(k) + d]
  }

  /** A batch of upserts applied in order. */
  function ApplyUpserts(m: map<Key, Doc>, ops: seq<(Key, Doc)>): (r: map<Key, Doc>)
    ensures m.Keys <= r.Keys
    ensures forall j :: j in m && j !in OpKeys(ops) ==> r[j] == m[j]
    decreases |ops|
  {
    if ops == [] then m
    else
      OpKeysOfTail(ops);
      ApplyUpserts(Upsert(m, ops[0].0, ops[0].1), ops[1..])
  }

  /** `upserted_count`: the upserts of the batch that found no document and created one. */
  function Created(m: map<Key, Doc>, ops: seq<(Key, Doc)>): (r: nat)
    ensures r <= |ops|
    decreases |ops|
  {
    if ops == [] then 0
    else (if ops[0].0 in m then 0 else 1) + Created(Upsert(m, ops[0].0, ops[0].1), ops[1..])
  }

  function OpKeys(ops: seq<(Key, Doc)>): set<Key> {
    set i | 0 <= i < |ops| :: ops[i].0
  }

  lemma {:induction false} OpKeysOfTail(ops: seq<(Key, Doc)>)
    requires ops != []
    ensures OpKeys(ops) == {ops[0].0} + OpKeys(ops[1..])
  {
    forall k | k in OpKeys(ops) ensures k in {ops[0].0} + OpKeys(ops[1..]) {
      var i :| 0 <= i < |ops| && ops[i].0 == k;
      if i > 0 {
        assert ops[1..][i - 1] == ops[i];
      }
    }
    forall k | k in OpKeys(ops[1..]) ensures k in OpKeys(ops) {
      var i :| 0 <= i < |ops[1..]| && ops[1..][i].0 == k;
      assert ops[i + 1] == ops[1..][i];
    }
  }

  /** After a batch, exactly the keys that were there or that the batch names have a document. */
  lemma {:induction false} ApplyUpsertsKeys(m: map<Key, Doc>, ops: seq<(Key, Doc)>)
    ensures ApplyUpserts(m, ops).Keys == m.Keys + OpKeys(ops)
    decreases |ops|
  {
    if ops != [] {
      ApplyUpsertsKeys(Upsert(m, ops[0].0, ops[0].1), ops[1..]);
      OpKeysOfTail(ops);
    }
  }

  /** The reported count is the number of documents the batch added. */
  lemma {:induction false} CreatedCountsNewDocuments(m: map<Key, Doc>, ops: seq<(Key, Doc)>)
    ensures |ApplyUpserts(m, ops)| == |m| + Created(m, ops)
    decreases |ops|
  {
    if ops != [] {
      var m' := Upsert(m, ops[0].0, ops[0].1);
      CreatedCountsNewDocuments(m', ops[1..]);
      if ops[0].0 in m {
        assert m'.Keys == m.Keys;
      } else {
        assert m'.Keys == m.Keys + {ops[0].0};
      }
    }
  }

  /** The count is the number of distinct keys of the batch that had no document. */
  lemma {:induction false} CreatedIsNewKeys(m: map<Key, Doc>, ops: seq<(Key, Doc)>)
    ensures Created(m, ops) == |OpKeys(ops) - m.Keys|
  {
    CreatedCountsNewDocuments(m, ops);
    ApplyUpsertsKeys(m, ops);
    var added := OpKeys(ops) - m.Keys;
    assert m.Keys + OpKeys(ops) == m.Keys + added;
    assert m.Keys !! added;
  }

  /** A batch whose keys all have documents creates none and adds no key. */
  lemma {:induction false} KnownKeysCreateNothing(m: map<Key, Doc>, ops: seq<(Key, Doc)>)
    requires forall i :: 0 <= i < |ops| ==> ops[i].0 in m
    ensures Created(m, ops) == 0 && ApplyUpserts(m, ops).Keys == m.Keys
    decreases |ops|
  {
    if ops != [] {
      var m' := Upsert(m, ops[0].0, ops[0].1);
      assert m'.Keys == m.Keys;
      assert forall i :: 0 <= i < |ops[1..]| ==> ops[1..][i] == ops[i + 1];
      KnownKeysCreateNothing(m', ops[1..]);
    }
  }

  /** Ingesting the same keyed batch a second time creates nothing and leaves the keyed-document count unchanged. */
  lemma {:induction false} ReingestCreatesNothing(m: map<Key, Doc>, ops: seq<(Key, Doc)>)
    ensures Created(ApplyUpserts(m, ops), ops) == 0
    ensures |ApplyUpserts(ApplyUpserts(m, ops), ops)| == |ApplyUpserts(m, ops)|
  {
    ApplyUpsertsKeys(m, ops);
    var once := ApplyUpserts(m, ops);
    forall i | 0 <= i < |ops| ensures ops[i].0 in once {
      assert ops[i].0 in OpKeys(ops);
    }
    KnownKeysCreateNothing(once, ops);
  }

  /** The fields the batch sets on the document of `k`, later updates winning. */
  function Merged(ops: seq<(Key, Doc)>, k: Key): Doc
    decreases |ops|
  {
    if ops == [] then map[]
    else (if ops[0].0 == k then ops[0].1 else map[]) + Merged(ops[1..], k)
  }

  /** What the document of `k` is built on: the existing document, or the query's fields. */
  function Before(m: map<Key, Doc>, k: Key): Doc {
    if k in m then m[k] else KeyFields(k)
  }

  /** After a batch, each document is its former self (or the query's fields) with the batch's fields set on it. */
  lemma {:induction false} ApplyUpsertsValue(m: map<Key, Doc>, ops: seq<(Key, Doc)>, k: Key)
    requires k in ApplyUpserts(m, ops)
    ensures ApplyUpserts(m, ops)[k] == Before(m, k) + Merged(ops, k)
    decreases |ops|
  {
    if ops == [] {
      UnionEmpty(Before(m, k));
    } else {
      var (k0, d0) := ops[0];
      var m' := Upsert(m, k0, d0);
      ApplyUpsertsValue(m', ops[1..], k);
      var rest := Merged(ops[1..], k);
      UpsertBefore(m, k0, d0, k);
      hide Upsert;
      if k0 == k {
        UnionAssociative(Before(m, k), d0, rest);
      } else {
        assert Merged(ops, k) == map[] + rest;
        EmptyUnion(rest);
      }
    }
  }

  /** One upsert builds the document of its own key on the former one; other keys keep theirs. */
  lemma {:induction false} UpsertBefore(m: map<Key, Doc>, k0: Key, d0: Doc, k: Key)
    ensures Before(Upsert(m, k0, d0), k) == if k0 == k then Before(m, k) + d0 else Before(m, k)
  {
  }

  lemma {:induction false} UnionEmpty(a: Doc)
    ensures a + map[] == a
  {
  }

  lemma {:induction false} EmptyUnion(a: Doc)
    ensures map[] + a == a
  {
  }

  lemma {:induction false} UnionAssociative(a: Doc, b: Doc, c: Doc)
    ensures (a + b) + c == a + (b + c)
  {
  }

  /** Setting the same fields twice is setting them once. */
  lemma {:induction false} SetTwice(a: Doc, d: Doc)
    ensures (a + d) + d == a + d
  {
  }

  /** Re-ingesting a keyed batch leaves every document as the first ingestion left it. */
  lemma {:induction false} ReingestIsIdempotent(m: map<Key, Doc>, ops: seq<(Key, Doc)>)
    ensures ApplyUpserts(ApplyUpserts(m, ops), ops) == ApplyUpserts(m, ops)
  {
    var once := ApplyUpserts(m, ops);
    var twice := ApplyUpserts(once, ops);
    ApplyUpsertsKeys(m, ops);
    ApplyUpsertsKeys(once, ops);
    assert twice.Keys == once.Keys;
    forall k | k in once ensures twice[k] == once[k] {
      ApplyUpsertsValue(m, ops, k);
      ApplyUpsertsValue(once, ops, k);
      SetTwice(Before(m, k), Merged(ops, k));
    }
  }

  /** Documents whose key the batch does not name are left as they were. */
  lemma {:induction false} UntouchedKeysKept(m: map<Key, Doc>, ops: seq<(Key, Doc)>, k: Key)
    requires k in m && k !in OpKeys(ops)
    ensures k in ApplyUpserts(m, ops) && ApplyUpserts(m, ops)[k] == m[k]
    decreases |ops|
  {
    if ops != [] {
      OpKeysOfTail(ops);
      UntouchedKeysKept(Upsert(m, ops[0].0, ops[0].1), ops[1..], k);
    }
  }

  /** Two batches applied one after the other are the two batches applied as one. */
  lemma {:induction false} ApplyUpsertsAppend(m: map<Key, Doc>, a: seq<(Key, Doc)>, b: seq<(Key, Doc)>)
    ensures ApplyUpserts(m, a + b) == ApplyUpserts(ApplyUpserts(m, a), b)
    decreases |a|
  {
    if a != [] {
      assert (a + b)[0] == a[0] && (a + b)[1..] == a[1..] + b;
      ApplyUpsertsAppend(Upsert(m, a[0].0, a[0].1), a[1..], b);
    } else {
      assert a + b == b;
    }
  }

  // ---------------------------------------------------------------------------------------
  // The collection

  /** The collection: keyed documents, at most one per key, and the documents inserted without a key, in insertion order. */
  class Collection {
    var keyed: map<Key, Doc>
    var loose: seq<Doc>

    constructor ()
      ensures keyed == map[] && loose == []
    {
      keyed := map[];
      loose := [];
    }

    /** The number of documents stored. */
    function Size(): nat
      reads this
    {
      |keyed| + |loose|
    }

    /** `bulk_write` of upserts: applies them in order and reports how many documents they created. */
    method BulkWrite(ops: seq<(Key, Doc)>) returns (upserted: nat)
      modifies this
      ensures keyed == ApplyUpserts(old(keyed), ops) && loose == old(loose)
      ensures upserted == Created(old(keyed), ops)
      ensures Size() == old(Size()) + upserted
    {
      CreatedCountsNewDocuments(keyed, ops);
      upserted := Created(keyed, ops);
      keyed := ApplyUpserts(keyed, ops);
    }

    /** `insert_many`: every document stored as a new one; one id per document. */
    method InsertMany(docs: seq<Doc>) returns (insertedIds: nat)
      modifies this
      ensures keyed == old(keyed) && loose == old(loose) + docs
      ensures insertedIds == |docs|
      ensures Size() == old(Size()) + insertedIds
    {
      loose := loose + docs;
      insertedIds := |docs|;
    }
  }
}
