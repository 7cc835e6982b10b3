/**
  The record-list updaters of handleRealtimeUpdate
  (src/context/DoubtContext.jsx): how one change notification from the store
  turns the previous list of doubts into the next one.
*/
module Realtime {
  import opened Seqs
  import opened Doubts

  /** A change notification: `payload.eventType` with `payload.new` or `payload.old.id`. */
  datatype Payload =
    | InsertEvent(newRecord: Doubt)
    | UpdateEvent(newRecord: Doubt)
    | DeleteEvent(oldId: DoubtId)
    | OtherEvent(eventType: string)

  /** `prev.some(doubt => doubt.id === id)`. */
  predicate HasId(s: seq<Doubt>, id: DoubtId) {
    exists i :: 0 <= i < |s| && s[i].id == id
  }

  /** The identifiers present in `s`. */
  function Ids(s: seq<Doubt>): set<DoubtId> {
    set i | 0 <= i < |s| :: s[i].id
  }

  /** The filter test of a DELETE: keep records whose id differs. */
  function IdIsNot(id: DoubtId): Doubt -> bool {
    (d: Doubt) => d.id != id
  }

  /** INSERT: prepend the new record unless one with its id is already present. */
  function InsertRecord(prev: seq<Doubt>, d: Doubt): (r: seq<Doubt>)
    ensures HasId(r, d.id)
    ensures |prev| <= |r| <= |prev| + 1 && r[|r| - |prev|..] == prev
  {
    if HasId(prev, d.id) then prev
    else
      assert ([d] + prev)[0].id == d.id;
      [d] + prev
  }

  /** UPDATE: every record with the new record's id is replaced by it. */
  function UpdateRecord(prev: seq<Doubt>, d: Doubt): (r: seq<Doubt>)
    ensures |r| == |prev|
    ensures forall i :: 0 <= i < |r| ==> r[i].id == prev[i].id && (r[i] == prev[i] || r[i] == d)
  {
    seq(|prev|, i requires 0 <= i < |prev| => if prev[i].id == d.id then d else prev[i])
  }

  /** DELETE: drop the records with the given id. */
  function DeleteRecord(prev: seq<Doubt>, id: DoubtId): (r: seq<Doubt>)
    ensures !HasId(r, id)
    ensures forall i :: 0 <= i < |r| ==> r[i] in prev
  {
    FilterMembers(prev, IdIsNot(id));
    Filter(prev, IdIsNot(id))
  }

  /** The updater passed to `setDoubts` for one payload; other event types change nothing. */
  function Apply(prev: seq<Doubt>, payload: Payload): (r: seq<Doubt>)
    ensures payload.InsertEvent? ==> HasId(r, payload.newRecord.id) && |prev| <= |r| && r[|r| - |prev|..] == prev
    ensures payload.UpdateEvent? ==> |r| == |prev|
    ensures payload.DeleteEvent? ==> !HasId(r, payload.oldId) && forall i :: 0 <= i < |r| ==> r[i] in prev
    ensures payload.OtherEvent? ==> r == prev
  {
    match payload
    case InsertEvent(d) => InsertRecord(prev, d)
    case UpdateEvent(d) => UpdateRecord(prev, d)
    case DeleteEvent(id) => DeleteRecord(prev, id)
    case OtherEvent(_) => prev
  }

  /** HasId agrees with the set of identifiers. */
  lemma HasIdIds(s: seq<Doubt>, id: DoubtId)
    ensures HasId(s, id) <==> id in Ids(s)
  {
    if id in Ids(s) {
      var i :| 0 <= i < |s| && s[i].id == id;
    }
  }

  /**
    The identifiers evolve like a set: INSERT adds the new id (and changes
    nothing when that id is already present), UPDATE keeps them, DELETE
    removes exactly the given one.
  */
  lemma ApplyIds(prev: seq<Doubt>, payload: Payload)
    ensures payload.InsertEvent? ==> Ids(Apply(prev, payload)) == Ids(prev) + {payload.newRecord.id}
    ensures payload.InsertEvent? && payload.newRecord.id in Ids(prev) ==> Apply(prev, payload) == prev
    ensures payload.InsertEvent? && payload.newRecord.id !in Ids(prev) ==> Apply(prev, payload) == [payload.newRecord] + prev
    ensures payload.UpdateEvent? ==> Ids(Apply(prev, payload)) == Ids(prev)
    ensures payload.DeleteEvent? ==> Ids(Apply(prev, payload)) == Ids(prev) - {payload.oldId}
    ensures payload.OtherEvent? ==> Apply(prev, payload) == prev
  {
    match payload
    case InsertEvent(d) =>
      HasIdIds(prev, d.id);
      if !HasId(prev, d.id) {
        PrependIds(prev, d);
      }
    case UpdateEvent(d) => UpdateIds(prev, d);
    case DeleteEvent(id) => DeleteIds(prev, id);
    case OtherEvent(_) =>
  }

  /** Prepending a record adds its id to the identifiers. */
  lemma PrependIds(prev: seq<Doubt>, d: Doubt)
    ensures Ids([d] + prev) == Ids(prev) + {d.id}
  {
    var r := [d] + prev;
    assert r[0].id == d.id;
    forall x | x in Ids(prev) ensures x in Ids(r) {
      var i :| 0 <= i < |prev| && prev[i].id == x;
      assert r[i + 1] == prev[i];
    }
    forall x | x in Ids(r) ensures x in Ids(prev) + {d.id} {
      var i :| 0 <= i < |r| && r[i].id == x;
      if i > 0 { assert r[i] == prev[i - 1]; }
    }
  }

  /** UPDATE keeps the identifiers. */
  lemma UpdateIds(prev: seq<Doubt>, d: Doubt)
    ensures Ids(UpdateRecord(prev, d)) == Ids(prev)
  {
    var r := UpdateRecord(prev, d);
    forall x | x in Ids(prev) ensures x in Ids(r) {
      var i :| 0 <= i < |prev| && prev[i].id == x;
      assert r[i].id == x;
    }
  }

  /** DELETE removes exactly the given identifier. */
  lemma DeleteIds(prev: seq<Doubt>, id: DoubtId)
    ensures Ids(DeleteRecord(prev, id)) == Ids(prev) - {id}
  {
    var r := DeleteRecord(prev, id);
    FilterMembers(prev, IdIsNot(id));
    forall x | x in Ids(prev) - {id} ensures x in Ids(r) {
      var i :| 0 <= i < |prev| && prev[i].id == x;
      assert IdIsNot(id)(prev[i]);
      var j :| 0 <= j < |r| && r[j] == prev[i];
    }
    forall x | x in Ids(r) ensures x in Ids(prev) - {id} {
      var i :| 0 <= i < |r| && r[i].id == x;
      assert IdIsNot(id)(r[i]);
      var j :| 0 <= j < |prev| && prev[j] == r[i];
    }
  }

  /** A filter of a list with unique identifiers has unique identifiers. */
  lemma {:induction false} FilterKeepsIdsUnique(s: seq<Doubt>, p: Doubt -> bool)
    requires UniqueIds(s)
    ensures UniqueIds(Filter(s, p))
    decreases |s|
  {
    if s != [] {
      FilterKeepsIdsUnique(s[1..], p);
      var rest := Filter(s[1..], p);
      FilterMembers(s[1..], p);
      if p(s[0]) {
        forall j | 0 <= j < |rest| ensures rest[j].id != s[0].id {
          var k :| 0 <= k < |s[1..]| && s[1..][k] == rest[j];
          assert s[k + 1] == rest[j];
        }
      }
    }
  }

  /** Every change keeps the identifiers unique: INSERT de-duplicates, UPDATE keeps ids, DELETE only drops. */
  lemma ApplyKeepsIdsUnique(prev: seq<Doubt>, payload: Payload)
    requires UniqueIds(prev)
    ensures UniqueIds(Apply(prev, payload))
  {
    match payload
    case InsertEvent(d) =>
      var r := Apply(prev, payload);
      if !HasId(prev, d.id) {
        forall i, j | 0 <= i < j < |r| ensures r[i].id != r[j].id {
          assert r[j] == prev[j - 1];
          if i > 0 { assert r[i] == prev[i - 1]; }
        }
      }
    case UpdateEvent(d) =>
    case DeleteEvent(id) =>
      FilterKeepsIdsUnique(prev, IdIsNot(id));
    case OtherEvent(_) =>
  }

  /**
    UPDATE replaces the records with the new record's id and leaves every
    other record where and as it was; DELETE keeps exactly the records
    whose id differs.
  */
  lemma UpdateAndDeleteScope(prev: seq<Doubt>, d: Doubt, id: DoubtId)
    ensures forall i :: 0 <= i < |prev| && prev[i].id != d.id ==> UpdateRecord(prev, d)[i] == prev[i]
    ensures forall i :: 0 <= i < |prev| && prev[i].id == d.id ==> UpdateRecord(prev, d)[i] == d
    ensures forall x :: x in DeleteRecord(prev, id) <==> x in prev && x.id != id
  {
    FilterMembers(prev, IdIsNot(id));
    forall x | x in prev && x.id != id ensures x in DeleteRecord(prev, id) {
      var i :| 0 <= i < |prev| && prev[i] == x;
      assert IdIsNot(id)(prev[i]);
    }
    forall x | x in DeleteRecord(prev, id) ensures x in prev && x.id != id {
      var r := DeleteRecord(prev, id);
      var i :| 0 <= i < |r| && r[i] == x;
      assert IdIsNot(id)(r[i]);
    }
  }
}
