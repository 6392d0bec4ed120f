/**
 * `save_announcements` of mongodb_utils.py: one write operation per record (an upsert on
 * the record's identity key, or the record itself for a plain insert), the operations
 * split into the two kinds, then one bulk write and one `insert_many`.
 */
module MongoUtils {
  import opened Wrappers
  import opened Models
  import opened Storage

  /** An entry of `ops`: an `UpdateOne(query, {"$set": record}, upsert=True)`, or a record inserted as is. */
  datatype WriteOp = UpdateOne(key: Key, fields: Doc) | PlainInsert(doc: Doc)

  /** The operation the loop appends for one record. */
  function OpFor(a: Doc): (op: WriteOp)
    ensures op.UpdateOne? <==> KeyOf(a).Some?
    ensures op.UpdateOne? ==> op.key == KeyOf(a).value && op.fields == a
    ensures op.PlainInsert? ==> op.doc == a
  {
    match KeyOf(a)
    case Some(k) => UpdateOne(k, a)
    case None => PlainInsert(a)
  }

  function OpsFor(records: seq<Doc>): (ops: seq<WriteOp>)
    ensures |ops| == |records|
    ensures forall i :: 0 <= i < |records| ==> ops[i] == OpFor(records[i])
  {
    seq(|records|, i requires 0 <= i < |records| => OpFor(records[i]))
  }

  /** `bulk_ops`: the upserts, in order, as (query, update) pairs. */
  function BulkOps(ops: seq<WriteOp>): (r: seq<(Key, Doc)>)
    ensures |r| <= |ops|
    ensures (forall i :: 0 <= i < |ops| ==> ops[i].PlainInsert?) ==> r == []
    decreases |ops|
  {
    if ops == [] then []
    else (if ops[0].UpdateOne? then [(ops[0].key, ops[0].fields)] else []) + BulkOps(ops[1..])
  }

  /** `plain_inserts`: the records without a key, in order. */
  function PlainInserts(ops: seq<WriteOp>): (r: seq<Doc>)
    ensures |r| <= |ops|
    ensures (forall i :: 0 <= i < |ops| ==> ops[i].UpdateOne?) ==> r == []
    decreases |ops|
  {
    if ops == [] then []
    else (if ops[0].PlainInsert? then [ops[0].doc] else []) + PlainInserts(ops[1..])
  }

  /** Every operation lands in exactly one of the two lists, and nothing else does. */
  lemma {:induction false} PartitionComplete(ops: seq<WriteOp>)
    ensures |BulkOps(ops)| + |PlainInserts(ops)| == |ops|
    ensures forall i :: 0 <= i < |ops| && ops[i].UpdateOne? ==> (ops[i].key, ops[i].fields) in BulkOps(ops)
    ensures forall i :: 0 <= i < |ops| && ops[i].PlainInsert? ==> ops[i].doc in PlainInserts(ops)
    ensures forall p :: p in BulkOps(ops) ==> UpdateOne(p.0, p.1) in ops
    ensures forall d :: d in PlainInserts(ops) ==> PlainInsert(d) in ops
    decreases |ops|
  {
    if ops != [] {
      PartitionComplete(ops[1..]);
      forall i | 1 <= i < |ops| ensures ops[i] == ops[1..][i - 1] {
      }
    }
  }

  /** The upserts the records give: the keyed records with their keys, in order. */
  function KeyedRecords(records: seq<Doc>): (r: seq<(Key, Doc)>)
    ensures |r| <= |records|
    ensures (forall i :: 0 <= i < |records| ==> KeyOf(records[i]).None?) ==> r == []
  {
    BulkOps(OpsFor(records))
  }

  /** The records inserted without a key, in order. */
  function KeylessRecords(records: seq<Doc>): (r: seq<Doc>)
    ensures |r| <= |records|
    ensures (forall i :: 0 <= i < |records| ==> KeyOf(records[i]).Some?) ==> r == []
  {
    PlainInserts(OpsFor(records))
  }

  /** Keyed and keyless records together are the whole batch. */
  lemma {:induction false} RecordsPartitioned(records: seq<Doc>)
    ensures |KeyedRecords(records)| + |KeylessRecords(records)| == |records|
    ensures forall i :: 0 <= i < |records| && KeyOf(records[i]).None? ==> records[i] in KeylessRecords(records)
    ensures forall i :: 0 <= i < |records| && KeyOf(records[i]).Some? ==>
      (KeyOf(records[i]).value, records[i]) in KeyedRecords(records)
  {
    var ops := OpsFor(records);
    PartitionComplete(ops);
    forall i | 0 <= i < |records| ensures ops[i] == OpFor(records[i]) {
    }
  }

  lemma {:induction false} PartitionAppend(a: seq<WriteOp>, b: seq<WriteOp>)
    ensures BulkOps(a + b) == BulkOps(a) + BulkOps(b)
    ensures PlainInserts(a + b) == PlainInserts(a) + PlainInserts(b)
    decreases |a|
  {
    if a != [] {
      assert (a + b)[0] == a[0] && (a + b)[1..] == a[1..] + b;
      PartitionAppend(a[1..], b);
    } else {
      assert a + b == b;
    }
  }

  /** Splitting a concatenation of batches is concatenating their splits. */
  lemma {:induction false} RecordsAppend(a: seq<Doc>, b: seq<Doc>)
    ensures KeyedRecords(a + b) == KeyedRecords(a) + KeyedRecords(b)
    ensures KeylessRecords(a + b) == KeylessRecords(a) + KeylessRecords(b)
  {
    assert OpsFor(a + b) == OpsFor(a) + OpsFor(b);
    PartitionAppend(OpsFor(a), OpsFor(b));
  }

  /** The collection after `records` were saved, as `save_announcements` does batch by batch. */
  predicate HoldsHarvest(c: Collection, keyed: map<Key, Doc>, loose: seq<Doc>, records: seq<Doc>)
    reads c
  {
    && c.keyed == ApplyUpserts(keyed, KeyedRecords(records))
    && c.loose == loose + KeylessRecords(records)
  }

  /** Saving one more batch extends the saved records by that batch. */
  lemma {:induction false} HarvestSaved(keyed: map<Key, Doc>, loose: seq<Doc>, records: seq<Doc>, batch: seq<Doc>)
    ensures ApplyUpserts(ApplyUpserts(keyed, KeyedRecords(records)), KeyedRecords(batch))
      == ApplyUpserts(keyed, KeyedRecords(records + batch))
    ensures (loose + KeylessRecords(records)) + KeylessRecords(batch) == loose + KeylessRecords(records + batch)
  {
    RecordsAppend(records, batch);
    ApplyUpsertsAppend(keyed, KeyedRecords(records), KeyedRecords(batch));
  }

  /** What the function reports: documents the upserts created plus the records inserted plainly. */
  function NewDocuments(m: map<Key, Doc>, records: seq<Doc>): (r: nat)
    ensures |KeylessRecords(records)| <= r <= |records|
  {
    RecordsPartitioned(records);
    Created(m, KeyedRecords(records)) + |KeylessRecords(records)|
  }

  /** Saving the same batch again creates only the keyless records again. */
  lemma {:induction false} ResaveCountsOnlyKeyless(m: map<Key, Doc>, records: seq<Doc>)
    ensures NewDocuments(ApplyUpserts(m, KeyedRecords(records)), records) == |KeylessRecords(records)|
  {
    ReingestCreatesNothing(m, KeyedRecords(records));
  }

  /**
   * `save_announcements(announcements, upsert)`: `0` for an empty list; otherwise the ops
   * are built record by record, split, and written. The `upsert` flag is never read.
   */
  method SaveAnnouncements(c: Collection, announcements: seq<Doc>, upsert: bool) returns (inserted: nat)
    modifies c
    ensures announcements == [] ==> inserted == 0
    ensures c.keyed == ApplyUpserts(old(c.keyed), KeyedRecords(announcements))
    ensures c.loose == old(c.loose) + KeylessRecords(announcements)
    ensures inserted == NewDocuments(old(c.keyed), announcements)
    ensures c.Size() == old(c.Size()) + inserted
  {
    if announcements == [] {
      return 0;
    }
    var ops: seq<WriteOp> := [];
    for i := 0 to |announcements|
      invariant ops == OpsFor(announcements[..i])
    {
      ops := ops + [OpFor(announcements[i])];
    }
    assert announcements[..|announcements|] == announcements;
    var bulk := BulkOps(ops);
    var plain := PlainInserts(ops);
    inserted := 0;
    if bulk != [] {
      var upserted := c.BulkWrite(bulk);
      inserted := inserted + upserted;
    }
    if plain != [] {
      var ids := c.InsertMany(plain);
      inserted := inserted + ids;
    }
  }
}
