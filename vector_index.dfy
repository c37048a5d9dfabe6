/** The vector index the pipeline writes to: records keyed by id, where an
    upsert of an existing id replaces the record. Embedding values are
    carried opaquely. */
module VectorIndex {

  datatype Metadata = Metadata(
    documentId: string,
    filename: string,
    chunkIndex: int,
    startChar: int,
    endChar: int,
    content: string)

  datatype VectorRecord = VectorRecord(id: string, values: seq<real>, metadata: Metadata)

  /** The requests the index receives, in order. */
  datatype Call = UpsertCall(batch: seq<VectorRecord>) | DeleteCall(ids: seq<string>)

  /** The ids the records carry. */
  function Ids(recs: seq<VectorRecord>): set<string> {
    set k | 0 <= k < |recs| :: recs[k].id
  }

  lemma IdsCons(recs: seq<VectorRecord>)
    requires |recs| > 0
    ensures Ids(recs) == {recs[0].id} + Ids(recs[1..])
  {
    forall id | id in Ids(recs) ensures id in {recs[0].id} + Ids(recs[1..]) {
      var k :| 0 <= k < |recs| && recs[k].id == id;
      if k > 0 {
        assert recs[1..][k - 1] == recs[k];
      }
    }
    forall id | id in Ids(recs[1..]) ensures id in Ids(recs) {
      var k :| 0 <= k < |recs[1..]| && recs[1..][k].id == id;
      assert recs[k + 1].id == id;
    }
  }

  /** Position `k` is the last record with its id. */
  predicate LastWithId(recs: seq<VectorRecord>, k: int)
    requires 0 <= k < |recs|
  {
    forall j :: k < j < |recs| ==> recs[j].id != recs[k].id
  }

  /** The index after upserting `recs` in order. */
  function Upserted(m: map<string, VectorRecord>, recs: seq<VectorRecord>): map<string, VectorRecord>
    decreases |recs|
  {
    if |recs| == 0 then m else Upserted(m[recs[0].id := recs[0]], recs[1..])
  }

  /** The index afterwards holds the ids it held and the ids upserted. */
  lemma {:induction false} UpsertedKeys(m: map<string, VectorRecord>, recs: seq<VectorRecord>)
    ensures Upserted(m, recs).Keys == m.Keys + Ids(recs)
    decreases |recs|
  {
    if |recs| > 0 {
      UpsertedKeys(m[recs[0].id := recs[0]], recs[1..]);
      IdsCons(recs);
    }
  }

  /** Ids the records do not mention keep their record. */
  lemma {:induction false} UpsertedKeeps(m: map<string, VectorRecord>, recs: seq<VectorRecord>, id: string)
    requires id in m && id !in Ids(recs)
    ensures id in Upserted(m, recs) && Upserted(m, recs)[id] == m[id]
    decreases |recs|
  {
    if |recs| > 0 {
      assert recs[0].id in Ids(recs);
      assert id !in Ids(recs[1..]) by {
        forall k | 0 <= k < |recs[1..]| ensures recs[1..][k].id != id {
          assert recs[1..][k] == recs[k + 1];
        }
      }
      UpsertedKeeps(m[recs[0].id := recs[0]], recs[1..], id);
    }
  }

  /** For each id the last record carrying it is the one the index keeps. */
  lemma {:induction false} UpsertedLastWins(m: map<string, VectorRecord>, recs: seq<VectorRecord>, k: int)
    requires 0 <= k < |recs| && LastWithId(recs, k)
    ensures recs[k].id in Upserted(m, recs) && Upserted(m, recs)[recs[k].id] == recs[k]
    decreases |recs|
  {
    var m' := m[recs[0].id := recs[0]];
    if k == 0 {
      assert recs[0].id !in Ids(recs[1..]) by {
        forall j | 0 <= j < |recs[1..]| ensures recs[1..][j].id != recs[0].id {
          assert recs[1..][j] == recs[j + 1];
        }
      }
      UpsertedKeeps(m', recs[1..], recs[0].id);
    } else {
      assert recs[1..][k - 1] == recs[k];
      assert LastWithId(recs[1..], k - 1) by {
        forall j | k - 1 < j < |recs[1..]| ensures recs[1..][j].id != recs[k].id {
          assert recs[1..][j] == recs[j + 1];
        }
      }
      UpsertedLastWins(m', recs[1..], k - 1);
    }
  }

  /** When no two records share an id, every record ends up in the index. */
  lemma UpsertedDistinct(m: map<string, VectorRecord>, recs: seq<VectorRecord>)
    requires forall i, j :: 0 <= i < j < |recs| ==> recs[i].id != recs[j].id
    ensures forall k :: 0 <= k < |recs| ==> recs[k].id in Upserted(m, recs) && Upserted(m, recs)[recs[k].id] == recs[k]
  {
    forall k | 0 <= k < |recs|
      ensures recs[k].id in Upserted(m, recs) && Upserted(m, recs)[recs[k].id] == recs[k]
    {
      UpsertedLastWins(m, recs, k);
    }
  }

  /** Sending records in several requests has the effect of sending them in one. */
  lemma {:induction false} UpsertedConcat(m: map<string, VectorRecord>, a: seq<VectorRecord>, b: seq<VectorRecord>)
    ensures Upserted(m, a + b) == Upserted(Upserted(m, a), b)
    decreases |a|
  {
    if |a| > 0 {
      assert (a + b)[0] == a[0];
      assert (a + b)[1..] == a[1..] + b;
      UpsertedConcat(m[a[0].id := a[0]], a[1..], b);
    } else {
      assert a + b == b;
    }
  }

  /** The index after deleting `ids`. */
  function Deleted(m: map<string, VectorRecord>, ids: seq<string>): map<string, VectorRecord> {
    map id | id in m && id !in ids :: m[id]
  }

  /** Deleting drops exactly the listed ids and keeps the other records. */
  lemma DeletedEntries(m: map<string, VectorRecord>, ids: seq<string>)
    ensures Deleted(m, ids).Keys == m.Keys - set id | id in ids
    ensures forall id :: id in Deleted(m, ids) ==> Deleted(m, ids)[id] == m[id]
  {
  }

  /** Deleting every upserted id, when the index held none of them before
      the upsert, gives back the index as it was. */
  lemma DeleteUndoesUpsert(m: map<string, VectorRecord>, recs: seq<VectorRecord>, ids: seq<string>)
    requires forall k :: 0 <= k < |recs| ==> recs[k].id in ids
    requires forall id :: id in ids ==> id !in m
    ensures Deleted(Upserted(m, recs), ids) == m
  {
    var u := Upserted(m, recs);
    UpsertedKeys(m, recs);
    var r := Deleted(u, ids);
    forall id | id in m ensures id in r && r[id] == m[id] {
      assert id !in Ids(recs);
      UpsertedKeeps(m, recs, id);
    }
    assert r.Keys == m.Keys;
  }

  class Index {
    var entries: map<string, VectorRecord>
    ghost var calls: seq<Call>

    constructor ()
      ensures entries == map[] && calls == []
    {
      entries := map[];
      calls := [];
    }

    method Upsert(batch: seq<VectorRecord>)
      modifies this
      ensures entries == Upserted(old(entries), batch)
      ensures calls == old(calls) + [UpsertCall(batch)]
    {
      entries := Upserted(entries, batch);
      calls := calls + [UpsertCall(batch)];
    }

    method Delete(ids: seq<string>)
      modifies this
      ensures entries == Deleted(old(entries), ids)
      ensures calls == old(calls) + [DeleteCall(ids)]
    {
      entries := Deleted(entries, ids);
      calls := calls + [DeleteCall(ids)];
    }
  }
}
