/**
  What updateQueues and updateStats (src/context/DoubtContext.jsx) derive
  from the list of doubts, stated as functions of that list.

  updateQueues keeps the pending doubts, sorts them oldest first, and sends
  each one, in that order, to the general queue (plain FIFO) or to the
  priority queue (ordered insert by `priority || 1`).  The functions below
  name the resulting queue contents; DoubtContext.DoubtProvider.UpdateQueues
  is proved to build exactly these, and the lemmas here say what they are.
*/
module Projection {
  import opened Wrappers
  import opened Seqs
  import opened StableOrder
  import opened PriorityQueues
  import opened Doubts
  import opened Realtime

  /** `doubts.filter(pending).sort(by created_at)`: the pending doubts, oldest first. */
  function PendingOldestFirst(doubts: seq<Doubt>): (r: seq<Doubt>)
    ensures multiset(r) == multiset(Filter(doubts, IsPending))
    ensures SortedBy(r, CreatedAt)
  {
    SortByKeySorted(Filter(doubts, IsPending), CreatedAt);
    SortByKey(Filter(doubts, IsPending), CreatedAt)
  }

  /** The general queue after updateQueues: the general-tier doubts of PendingOldestFirst, in that order. */
  function GeneralQueueOf(doubts: seq<Doubt>): (r: seq<Doubt>)
    ensures multiset(r) == multiset(Filter(doubts, IsPendingGeneral))
    ensures SortedBy(r, CreatedAt)
  {
    TierOldestFirst(doubts, IsGeneral, IsPendingGeneral);
    SortByKeySorted(Filter(doubts, IsPendingGeneral), CreatedAt);
    Filter(PendingOldestFirst(doubts), IsGeneral)
  }

  /**
    The priority queue after updateQueues: the priority-tier doubts of
    PendingOldestFirst, enqueued one by one with priority `priority || 1`.
  */
  function PriorityQueueOf(doubts: seq<Doubt>): (r: seq<Entry<Doubt>>)
    ensures SortedBy(r, PriorityOf)
    ensures |r| == |Filter(doubts, IsPendingPriority)|
  {
    TierOldestFirst(doubts, IsPriority, IsPendingPriority);
    SortByKeySorted(Ranked(Filter(PendingOldestFirst(doubts), IsPriority), PriorityField), PriorityOf);
    SortByKey(Ranked(Filter(PendingOldestFirst(doubts), IsPriority), PriorityField), PriorityOf)
  }

  /** The creation time of a queued entry's doubt. */
  function EntryCreatedAt(e: Entry<Doubt>): int {
    e.element.createdAt
  }

  /** getNextDoubt on given queue contents: the priority head, else the general head, else nothing. */
  function Next(priority: seq<Entry<Doubt>>, general: seq<Doubt>): (r: Option<Doubt>)
    ensures r.None? <==> priority == [] && general == []
    ensures priority != [] ==> r.Some? && r.value in Elements(priority)
    ensures priority != [] ==> r == Some(priority[0].element)
    ensures priority == [] && general != [] ==> r == Some(general[0])
  {
    if priority != [] then Some(priority[0].element)
    else if general != [] then Some(general[0])
    else None
  }

  /** The counters of updateStats. */
  datatype Stats = Stats(total: nat, pending: nat, answered: nat, generalPending: nat, priorityPending: nat)

  /**
    updateStats on the list `doubts`.  The counters add up: general and
    priority pending split the pending count, and pending and answered
    together never exceed the total.
  */
  function StatsOf(doubts: seq<Doubt>): (r: Stats)
    ensures r.total == |doubts|
    ensures r.generalPending + r.priorityPending == r.pending
    ensures r.pending + r.answered <= r.total
  {
    var pending := Filter(doubts, IsPending);
    FilterPartition(pending, IsGeneral, IsPriority);
    assert |multiset(Filter(pending, IsGeneral)) + multiset(Filter(pending, IsPriority))| == |multiset(pending)|;
    FilterPartition(doubts, IsPending, IsNotPending);
    assert |multiset(pending) + multiset(Filter(doubts, IsNotPending))| == |multiset(doubts)|;
    FilterFilter(doubts, IsNotPending, IsAnswered, IsAnswered);
    assert |Filter(Filter(doubts, IsNotPending), IsAnswered)| <= |Filter(doubts, IsNotPending)|;
    Stats(|doubts|, |pending|, |Filter(doubts, IsAnswered)|,
          |Filter(pending, IsGeneral)|, |Filter(pending, IsPriority)|)
  }

  /** Picking one tier out of the pending doubts oldest first is sorting that tier's pending doubts. */
  lemma TierOldestFirst(doubts: seq<Doubt>, tier: Doubt -> bool, pendingTier: Doubt -> bool)
    requires forall x :: pendingTier(x) == (IsPending(x) && tier(x))
    ensures Filter(PendingOldestFirst(doubts), tier) == SortByKey(Filter(doubts, pendingTier), CreatedAt)
  {
    FilterSortByKey(Filter(doubts, IsPending), CreatedAt, tier);
    FilterFilter(doubts, IsPending, tier, pendingTier);
  }

  /**
    The general queue holds exactly the pending general doubts, oldest first,
    and doubts created at the same instant keep their order in the list.
  */
  lemma GeneralQueueContents(doubts: seq<Doubt>)
    ensures GeneralQueueOf(doubts) == SortByKey(Filter(doubts, IsPendingGeneral), CreatedAt)
    ensures SortedBy(GeneralQueueOf(doubts), CreatedAt)
    ensures multiset(GeneralQueueOf(doubts)) == multiset(Filter(doubts, IsPendingGeneral))
    ensures forall t :: Filter(GeneralQueueOf(doubts), KeyIs(CreatedAt, t))
                     == Filter(Filter(doubts, IsPendingGeneral), KeyIs(CreatedAt, t))
  {
    var mine := Filter(doubts, IsPendingGeneral);
    TierOldestFirst(doubts, IsGeneral, IsPendingGeneral);
    SortByKeySorted(mine, CreatedAt);
    forall t {
      SortByKeyStable(mine, CreatedAt, t);
    }
  }

  /**
    The priority queue holds exactly the pending priority doubts, each with
    priority `priority || 1`, ordered by that priority and, within one
    priority, oldest first.
  */
  lemma PriorityQueueContents(doubts: seq<Doubt>)
    ensures SortedThenBy(PriorityQueueOf(doubts), PriorityOf, EntryCreatedAt)
    ensures multiset(Elements(PriorityQueueOf(doubts))) == multiset(Filter(doubts, IsPendingPriority))
    ensures forall i :: 0 <= i < |PriorityQueueOf(doubts)| ==>
              PriorityQueueOf(doubts)[i].priority == Rank(PriorityQueueOf(doubts)[i].element)
  {
    var mine := Filter(doubts, IsPendingPriority);
    var byAge := Filter(PendingOldestFirst(doubts), IsPriority);
    var ranked := Ranked(byAge, PriorityField);
    var pq := PriorityQueueOf(doubts);
    assert SortedThenBy(pq, PriorityOf, EntryCreatedAt) by {
      TierOldestFirst(doubts, IsPriority, IsPendingPriority);
      SortByKeySorted(mine, CreatedAt);
      assert SortedBy(ranked, EntryCreatedAt) by {
        forall i, j | 0 <= i < j < |ranked| ensures EntryCreatedAt(ranked[i]) <= EntryCreatedAt(ranked[j]) {
          assert CreatedAt(byAge[i]) <= CreatedAt(byAge[j]);
        }
      }
      SortByKeyThenBy(ranked, PriorityOf, EntryCreatedAt);
    }
    assert multiset(Elements(pq)) == multiset(mine) by {
      TierOldestFirst(doubts, IsPriority, IsPendingPriority);
      ElementsOfSort(ranked);
      RankedElements(byAge, PriorityField);
    }
    forall i | 0 <= i < |pq| ensures pq[i].priority == Rank(pq[i].element) {
      assert pq[i] in multiset(ranked);
      var j :| 0 <= j < |ranked| && ranked[j] == pq[i];
    }
  }

  /** Each pending doubt is in exactly one queue: the two queues together are the pending doubts. */
  lemma ProjectionPartition(doubts: seq<Doubt>)
    ensures multiset(GeneralQueueOf(doubts)) + multiset(Elements(PriorityQueueOf(doubts)))
         == multiset(Filter(doubts, IsPending))
  {
    GeneralQueueContents(doubts);
    PriorityQueueContents(doubts);
    var pending := Filter(doubts, IsPending);
    FilterFilter(doubts, IsPending, IsGeneral, IsPendingGeneral);
    FilterFilter(doubts, IsPending, IsPriority, IsPendingPriority);
    FilterPartition(pending, IsGeneral, IsPriority);
  }

  /** Membership: a doubt is in the general (priority) queue iff it is a pending general (priority) doubt of the list. */
  lemma ProjectionMembers(doubts: seq<Doubt>, x: Doubt)
    ensures x in GeneralQueueOf(doubts) <==> x in doubts && IsPendingGeneral(x)
    ensures x in Elements(PriorityQueueOf(doubts)) <==> x in doubts && IsPendingPriority(x)
  {
    GeneralQueueContents(doubts);
    PriorityQueueContents(doubts);
    assert x in GeneralQueueOf(doubts) <==> x in multiset(GeneralQueueOf(doubts));
    assert x in Elements(PriorityQueueOf(doubts)) <==> x in multiset(Elements(PriorityQueueOf(doubts)));
    FilterContains(doubts, IsPendingGeneral, x);
    FilterContains(doubts, IsPendingPriority, x);
  }

  /** The head of the priority queue is a pending priority doubt of least rank and, among those, oldest. */
  lemma PriorityHeadIsLeast(doubts: seq<Doubt>)
    requires PriorityQueueOf(doubts) != []
    ensures var head := PriorityQueueOf(doubts)[0].element;
      && head in doubts && IsPendingPriority(head)
      && forall i :: 0 <= i < |doubts| && IsPendingPriority(doubts[i]) ==>
           Rank(head) < Rank(doubts[i]) || (Rank(head) == Rank(doubts[i]) && head.createdAt <= doubts[i].createdAt)
  {
    var pq := PriorityQueueOf(doubts);
    var head := pq[0].element;
    PriorityQueueContents(doubts);
    ProjectionMembers(doubts, head);
    assert Elements(pq)[0] == head;
    forall i | 0 <= i < |doubts| && IsPendingPriority(doubts[i])
      ensures Rank(head) < Rank(doubts[i]) || (Rank(head) == Rank(doubts[i]) && head.createdAt <= doubts[i].createdAt)
    {
      ProjectionMembers(doubts, doubts[i]);
      var k :| 0 <= k < |Elements(pq)| && Elements(pq)[k] == doubts[i];
      assert pq[k].element == doubts[i];
      if k > 0 {
        assert PriorityOf(pq[0]) < PriorityOf(pq[k])
            || (PriorityOf(pq[0]) == PriorityOf(pq[k]) && EntryCreatedAt(pq[0]) <= EntryCreatedAt(pq[k]));
      }
    }
  }

  /** The priority queue is empty exactly when no doubt of the list is a pending priority doubt. */
  lemma PriorityQueueEmpty(doubts: seq<Doubt>)
    ensures PriorityQueueOf(doubts) == [] <==> forall i :: 0 <= i < |doubts| ==> !IsPendingPriority(doubts[i])
  {
    var pq := PriorityQueueOf(doubts);
    if pq != [] {
      PriorityHeadIsLeast(doubts);
      var k :| 0 <= k < |doubts| && doubts[k] == pq[0].element;
    } else {
      forall i | 0 <= i < |doubts| ensures !IsPendingPriority(doubts[i]) {
        ProjectionMembers(doubts, doubts[i]);
      }
    }
  }

  /** The head of the general queue is a pending general doubt no younger than any pending general doubt. */
  lemma GeneralHeadIsOldest(doubts: seq<Doubt>)
    requires GeneralQueueOf(doubts) != []
    ensures var head := GeneralQueueOf(doubts)[0];
      && head in doubts && IsPendingGeneral(head)
      && forall i :: 0 <= i < |doubts| && IsPendingGeneral(doubts[i]) ==> head.createdAt <= doubts[i].createdAt
  {
    var g := GeneralQueueOf(doubts);
    GeneralQueueContents(doubts);
    ProjectionMembers(doubts, g[0]);
    forall i | 0 <= i < |doubts| && IsPendingGeneral(doubts[i]) ensures g[0].createdAt <= doubts[i].createdAt {
      ProjectionMembers(doubts, doubts[i]);
      var k :| 0 <= k < |g| && g[k] == doubts[i];
      if k > 0 {
        assert CreatedAt(g[0]) <= CreatedAt(g[k]);
      }
    }
  }

  /** The general queue is empty exactly when no doubt of the list is a pending general doubt. */
  lemma GeneralQueueEmpty(doubts: seq<Doubt>)
    ensures GeneralQueueOf(doubts) == [] <==> forall i :: 0 <= i < |doubts| ==> !IsPendingGeneral(doubts[i])
  {
    var g := GeneralQueueOf(doubts);
    if g != [] {
      GeneralHeadIsOldest(doubts);
      var k :| 0 <= k < |doubts| && doubts[k] == g[0];
    } else {
      forall i | 0 <= i < |doubts| ensures !IsPendingGeneral(doubts[i]) {
        ProjectionMembers(doubts, doubts[i]);
      }
    }
  }

  /**
    getNextDoubt after updateQueues: nothing exactly when no doubt is pending;
    a pending priority doubt whenever one exists, namely one of least rank
    and, among those, oldest; otherwise the oldest pending general doubt.
  */
  lemma NextAfterProjection(doubts: seq<Doubt>)
    ensures Next(PriorityQueueOf(doubts), GeneralQueueOf(doubts)).None?
        <==> forall i :: 0 <= i < |doubts| ==> !IsPending(doubts[i])
    ensures var next := Next(PriorityQueueOf(doubts), GeneralQueueOf(doubts));
      next.Some? ==> next.value in doubts && IsPending(next.value)
    ensures var next := Next(PriorityQueueOf(doubts), GeneralQueueOf(doubts));
      (exists i :: 0 <= i < |doubts| && IsPendingPriority(doubts[i])) ==> next.Some? && next.value.isPriority
    ensures var next := Next(PriorityQueueOf(doubts), GeneralQueueOf(doubts));
      next.Some? && next.value.isPriority ==>
        forall i :: 0 <= i < |doubts| && IsPendingPriority(doubts[i]) ==>
          Rank(next.value) < Rank(doubts[i])
          || (Rank(next.value) == Rank(doubts[i]) && next.value.createdAt <= doubts[i].createdAt)
    ensures var next := Next(PriorityQueueOf(doubts), GeneralQueueOf(doubts));
      next.Some? && !next.value.isPriority ==>
        forall i :: 0 <= i < |doubts| && IsPending(doubts[i]) ==>
          !doubts[i].isPriority && next.value.createdAt <= doubts[i].createdAt
  {
    var pq, g := PriorityQueueOf(doubts), GeneralQueueOf(doubts);
    PriorityQueueEmpty(doubts);
    GeneralQueueEmpty(doubts);
    if pq != [] {
      PriorityHeadIsLeast(doubts);
    } else if g != [] {
      GeneralHeadIsOldest(doubts);
      forall i | 0 <= i < |doubts| && IsPending(doubts[i]) ensures !doubts[i].isPriority {
        assert !IsPendingPriority(doubts[i]);
      }
    } else {
      forall i | 0 <= i < |doubts| ensures !IsPending(doubts[i]) {
        assert !IsPendingPriority(doubts[i]) && !IsPendingGeneral(doubts[i]);
      }
    }
  }

  /**
    With unique identifiers, resolving the doubt getNextDoubt offers looks it
    up successfully, and the queue resolveDoubt then dequeues (chosen by the
    doubt's tier) has that very doubt at its head.
  */
  lemma NextIsHeadOfItsTier(doubts: seq<Doubt>)
    requires UniqueIds(doubts)
    ensures var pq, g := PriorityQueueOf(doubts), GeneralQueueOf(doubts);
      Next(pq, g).Some? ==>
        && FindById(doubts, Next(pq, g).value.id) == Next(pq, g)
        && (Next(pq, g).value.isPriority ==> pq != [] && pq[0].element == Next(pq, g).value)
        && (!Next(pq, g).value.isPriority ==> g != [] && g[0] == Next(pq, g).value)
  {
    var pq, g := PriorityQueueOf(doubts), GeneralQueueOf(doubts);
    var next := Next(pq, g);
    if pq != [] {
      PriorityHeadIsLeast(doubts);
      FindByIdUnique(doubts, next.value);
    } else if g != [] {
      GeneralHeadIsOldest(doubts);
      FindByIdUnique(doubts, next.value);
    }
  }

  /** Each pending counter is the length of its queue. */
  lemma StatsTally(doubts: seq<Doubt>)
    ensures StatsOf(doubts).generalPending == |GeneralQueueOf(doubts)|
    ensures StatsOf(doubts).priorityPending == |PriorityQueueOf(doubts)|
  {
    var pending := Filter(doubts, IsPending);
    TierOldestFirst(doubts, IsGeneral, IsPendingGeneral);
    TierOldestFirst(doubts, IsPriority, IsPendingPriority);
    FilterFilter(doubts, IsPending, IsGeneral, IsPendingGeneral);
    FilterFilter(doubts, IsPending, IsPriority, IsPendingPriority);
  }

  /**
    The pending and answered counters of updateStats are the numbers of
    positions of the list whose doubt has status 'pending' and 'answered'.
  */
  lemma StatsCounts(doubts: seq<Doubt>)
    ensures StatsOf(doubts).pending == |set i | 0 <= i < |doubts| && doubts[i].status == PendingStatus|
    ensures StatsOf(doubts).answered == |set i | 0 <= i < |doubts| && doubts[i].status == AnsweredStatus|
  {
    assert StatsOf(doubts).pending == |set i | 0 <= i < |doubts| && doubts[i].status == PendingStatus| by {
      FilterCount(doubts, IsPending);
      assert Positions(doubts, IsPending) == set i | 0 <= i < |doubts| && doubts[i].status == PendingStatus;
    }
    FilterCount(doubts, IsAnswered);
    assert Positions(doubts, IsAnswered) == set i | 0 <= i < |doubts| && doubts[i].status == AnsweredStatus;
  }

  /**
    The per-tier pending counters of updateStats are the numbers of
    positions of the list whose doubt is pending in that tier.
  */
  lemma StatsTierCounts(doubts: seq<Doubt>)
    ensures StatsOf(doubts).generalPending
            == |set i | 0 <= i < |doubts| && doubts[i].status == PendingStatus && !doubts[i].isPriority|
    ensures StatsOf(doubts).priorityPending
            == |set i | 0 <= i < |doubts| && doubts[i].status == PendingStatus && doubts[i].isPriority|
  {
    assert StatsOf(doubts).generalPending
        == |set i | 0 <= i < |doubts| && doubts[i].status == PendingStatus && !doubts[i].isPriority| by {
      FilterFilter(doubts, IsPending, IsGeneral, IsPendingGeneral);
      FilterCount(doubts, IsPendingGeneral);
      assert Positions(doubts, IsPendingGeneral)
          == set i | 0 <= i < |doubts| && doubts[i].status == PendingStatus && !doubts[i].isPriority;
    }
    FilterFilter(doubts, IsPending, IsPriority, IsPendingPriority);
    FilterCount(doubts, IsPendingPriority);
    assert Positions(doubts, IsPendingPriority)
        == set i | 0 <= i < |doubts| && doubts[i].status == PendingStatus && doubts[i].isPriority;
  }

  /**
    A doubt that createDoubt submits and the store then announces with a
    fresh id lands, after the list update and updateQueues, in the queue of
    the tier the student chose, and not in the other.
  */
  lemma CreatedDoubtLandsInItsTier(prev: seq<Doubt>, id: DoubtId, title: string, description: string,
                                   isPriority: bool, now: int)
    requires !HasId(prev, id)
    ensures var d := NewDoubt(id, title, description, isPriority, now);
      var next := Apply(prev, InsertEvent(d));
      && (d in GeneralQueueOf(next) <==> !isPriority)
      && (d in Elements(PriorityQueueOf(next)) <==> isPriority)
  {
    var d := NewDoubt(id, title, description, isPriority, now);
    var next := Apply(prev, InsertEvent(d));
    assert next[0] == d;
    ProjectionMembers(next, d);
  }

  /**
    One priority step of updateQueues: enqueuing the next priority doubt
    with priority `priority || 1` is inserting its entry by that priority.
  */
  lemma PriorityStep(before: seq<Doubt>, doubt: Doubt)
    ensures SortByKey(Ranked(before + [doubt], PriorityField), PriorityOf)
         == InsertByKey(SortByKey(Ranked(before, PriorityField), PriorityOf),
                        Entry(doubt, DefaultPriority(doubt.priority)), PriorityOf)
  {
    var e := Entry(doubt, DefaultPriority(doubt.priority));
    assert Ranked(before + [doubt], PriorityField) == Ranked(before, PriorityField) + [e];
    SortByKeySnoc(Ranked(before, PriorityField), e, PriorityOf);
  }

  /** Taking the head off `q`, when `q` and `rest` together make up `all`, leaves all but that head. */
  lemma DropHead<T>(q: seq<T>, rest: multiset<T>, all: multiset<T>)
    requires q != [] && multiset(q) + rest == all
    ensures multiset(q[1..]) + rest == all - multiset{q[0]}
    ensures rest + multiset(q[1..]) == all - multiset{q[0]}
  {
    assert q == [q[0]] + q[1..];
  }

  /**
    When the queues match the list, taking the head off the priority queue
    leaves exactly the other pending doubts queued.
  */
  lemma ServingPriorityHead(doubts: seq<Doubt>)
    requires PriorityQueueOf(doubts) != []
    ensures var pq, g := PriorityQueueOf(doubts), GeneralQueueOf(doubts);
      multiset(g) + multiset(Elements(pq[1..])) == multiset(Filter(doubts, IsPending)) - multiset{pq[0].element}
  {
    var pq, g := PriorityQueueOf(doubts), GeneralQueueOf(doubts);
    ProjectionPartition(doubts);
    ElementsTail(pq);
    DropHead(Elements(pq), multiset(g), multiset(Filter(doubts, IsPending)));
  }

  /**
    When the queues match the list, taking the head off the general queue
    leaves exactly the other pending doubts queued.
  */
  lemma ServingGeneralHead(doubts: seq<Doubt>)
    requires GeneralQueueOf(doubts) != []
    ensures var pq, g := PriorityQueueOf(doubts), GeneralQueueOf(doubts);
      multiset(g[1..]) + multiset(Elements(pq)) == multiset(Filter(doubts, IsPending)) - multiset{g[0]}
  {
    var pq, g := PriorityQueueOf(doubts), GeneralQueueOf(doubts);
    ProjectionPartition(doubts);
    DropHead(g, multiset(Elements(pq)), multiset(Filter(doubts, IsPending)));
  }

  /**
    The queues after a successful resolveDoubt for a doubt of the given
    tier: that tier's queue loses its head (an empty queue stays empty),
    the other queue is untouched.
  */
  function AfterResolve(priority: seq<Entry<Doubt>>, general: seq<Doubt>, isPriority: bool)
    : (r: (seq<Entry<Doubt>>, seq<Doubt>))
    ensures isPriority ==> r.1 == general && (if priority == [] then r.0 == [] else [priority[0]] + r.0 == priority)
    ensures !isPriority ==> r.0 == priority && (if general == [] then r.1 == [] else [general[0]] + r.1 == general)
  {
    if isPriority then (if priority == [] then [] else priority[1..], general)
    else (priority, if general == [] then [] else general[1..])
  }

  /**
    Resolving the head of either queue (the doubts the dashboard offers to
    resolve), while at the moment of the dequeue the queues still match a
    list with unique identifiers: the
    lookup finds that doubt, its tier selects the queue it heads, and the
    queues that resolveDoubt leaves hold exactly the other pending doubts.
  */
  lemma ResolvingAHead(doubts: seq<Doubt>, doubtId: DoubtId)
    requires UniqueIds(doubts)
    requires || (PriorityQueueOf(doubts) != [] && doubtId == PriorityQueueOf(doubts)[0].element.id)
             || (GeneralQueueOf(doubts) != [] && doubtId == GeneralQueueOf(doubts)[0].id)
    ensures var pq, g := PriorityQueueOf(doubts), GeneralQueueOf(doubts);
      && FindById(doubts, doubtId).Some?
      && var n := FindById(doubts, doubtId).value;
      && (if n.isPriority then pq != [] && pq[0].element == n else g != [] && g[0] == n)
      && var after := AfterResolve(pq, g, n.isPriority);
      multiset(after.1) + multiset(Elements(after.0)) == multiset(Filter(doubts, IsPending)) - multiset{n}
  {
    var pq, g := PriorityQueueOf(doubts), GeneralQueueOf(doubts);
    if pq != [] && doubtId == pq[0].element.id {
      PriorityHeadIsLeast(doubts);
      FindByIdUnique(doubts, pq[0].element);
      ServingPriorityHead(doubts);
    } else {
      GeneralHeadIsOldest(doubts);
      FindByIdUnique(doubts, g[0]);
      ServingGeneralHead(doubts);
    }
  }
}
