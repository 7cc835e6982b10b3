/**
  The doubt record as the queue core sees it, and the record that
  createDoubt (src/context/DoubtContext.jsx) submits to the store.

  Timestamps are integers (milliseconds); `status` keeps the store's text,
  so that the "any other status" branches of the views stay expressible.
  The student identity fields and `answered_at`/`answered_by` play no part
  in ordering and are not modelled.
*/
module Doubts {
  import opened Wrappers
  import opened PriorityQueues

  type DoubtId = int

  const PendingStatus: string := "pending"
  const AnsweredStatus: string := "answered"

  datatype Doubt = Doubt(
    id: DoubtId,
    title: string,
    description: string,
    isPriority: bool,      // `is_priority`
    priority: Option<int>, // `priority`; None when the column is missing
    status: string,
    createdAt: int,        // `created_at`
    answer: string         // `answer`; "" when absent
  )

  function CreatedAt(d: Doubt): int {
    d.createdAt
  }

  function PriorityField(d: Doubt): Option<int> {
    d.priority
  }

  predicate IsPending(d: Doubt) {
    d.status == PendingStatus
  }

  predicate IsAnswered(d: Doubt) {
    d.status == AnsweredStatus
  }

  predicate IsNotPending(d: Doubt) {
    !IsPending(d)
  }

  /** Tier test: `is_priority` is set. */
  predicate IsPriority(d: Doubt) {
    d.isPriority
  }

  /** Tier test: `is_priority` is not set. */
  predicate IsGeneral(d: Doubt) {
    !d.isPriority
  }

  predicate IsPendingPriority(d: Doubt) {
    IsPending(d) && IsPriority(d)
  }

  predicate IsPendingGeneral(d: Doubt) {
    IsPending(d) && IsGeneral(d)
  }

  /** The rank the priority queue orders by: `doubt.priority || 1`. */
  function Rank(d: Doubt): int {
    DefaultPriority(d.priority)
  }

  /**
    The record createDoubt builds: pending, in the tier the student chose,
    with priority 1 for a priority doubt and 2 otherwise, stamped with the
    current time.  `id` is the identifier the store assigns on insertion.
  */
  function NewDoubt(id: DoubtId, title: string, description: string, isPriority: bool, now: int): (d: Doubt)
    ensures IsPending(d) && d.isPriority == isPriority && d.createdAt == now
    ensures d.id == id && d.title == title && d.description == description && d.answer == ""
    ensures Rank(d) == (if isPriority then 1 else 2)
  {
    Doubt(id, title, description, isPriority, Some(if isPriority then 1 else 2), PendingStatus, now, "")
  }

  /** No two records share an identifier. */
  predicate UniqueIds(s: seq<Doubt>) {
    forall i, j :: 0 <= i < j < |s| ==> s[i].id != s[j].id
  }

  /** `doubts.find(d => d.id === id)`: the first record with that id, if any. */
  function FindById(s: seq<Doubt>, id: DoubtId): (r: Option<Doubt>)
    ensures r.Some? ==> r.value in s && r.value.id == id
    ensures r.None? <==> forall i :: 0 <= i < |s| ==> s[i].id != id
    ensures r.Some? ==> exists i :: 0 <= i < |s| && s[i] == r.value && forall j :: 0 <= j < i ==> s[j].id != id
    decreases |s|
  {
    if s == [] then None
    else if s[0].id == id then Some(s[0])
    else FindById(s[1..], id)
  }

  /** With unique identifiers, looking a record up by its id finds that record. */
  lemma FindByIdUnique(s: seq<Doubt>, x: Doubt)
    requires UniqueIds(s) && x in s
    ensures FindById(s, x.id) == Some(x)
  {
    var r := FindById(s, x.id);
    var i :| 0 <= i < |s| && s[i] == x;
    var j :| 0 <= j < |s| && s[j] == r.value;
  }
}
