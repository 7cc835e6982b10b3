/**
  The queue state of DoubtProvider (src/context/DoubtContext.jsx).

  The provider keeps the list of doubts, one FIFO queue for general doubts
  and one priority queue for priority doubts (each created once and then
  mutated in place), the display snapshots of both queues, and the
  counters.  The effect that runs whenever the list changes (updateQueues
  followed by updateStats) is `Refresh`; after it the state is `Synced`
  with the list.  Replies of the store arrive as parameters.
*/
module DoubtContext {
  import opened Wrappers
  import opened Seqs
  import opened StableOrder
  import opened PriorityQueues
  import opened Queues
  import opened Doubts
  import opened Realtime
  import opened Projection

  /** What the store answered: `{ data }`, or `{ error }`. */
  datatype StoreReply<T> = Success(data: T) | Failure(error: string)

  /** The result object of resolveDoubt. */
  datatype ResolveOutcome =
    | Resolved              // `{ success: true, data }`
    | DoubtNotFound         // the thrown 'Doubt not found'
    | StoreFailed(error: string)

  class DoubtProvider {
    var doubts: seq<Doubt>
    const generalQueue: Queue<Doubt>
    const priorityQueue: PriorityQueue<Doubt>
    var generalQueueItems: seq<Doubt>   // the `generalQueueItems` snapshot
    var priorityQueueItems: seq<Doubt>  // the `priorityQueueItems` snapshot
    var stats: Stats

    /** The priority queue keeps its ordering invariant. */
    ghost predicate Valid()
      reads this, priorityQueue
    {
      priorityQueue.Valid()
    }

    /** Queues, snapshots and counters are the ones the current list determines. */
    ghost predicate Synced()
      reads this, generalQueue, priorityQueue
    {
      && generalQueue.items == GeneralQueueOf(doubts)
      && priorityQueue.items == PriorityQueueOf(doubts)
      && generalQueueItems == generalQueue.items
      && priorityQueueItems == Elements(priorityQueue.items)
      && stats == StatsOf(doubts)
    }

    /** An empty list, empty queues and zero counters. */
    constructor ()
      ensures Valid() && Synced()
      ensures doubts == [] && generalQueue.items == [] && priorityQueue.items == []
      ensures stats == Stats(0, 0, 0, 0, 0)
    {
      doubts := [];
      generalQueue := new Queue();
      priorityQueue := new PriorityQueue();
      generalQueueItems := [];
      priorityQueueItems := [];
      stats := Stats(0, 0, 0, 0, 0);
      assert Filter<Doubt>([], IsPending) == [];
      assert Filter<Doubt>([], IsAnswered) == [];
    }

    /**
      Empties both queues, then sends each pending doubt, oldest first, to
      the priority queue with priority `priority || 1` when it is a priority
      doubt and to the general queue otherwise; finally refreshes both
      snapshots.
    */
    method UpdateQueues()
      requires Valid()
      modifies this, generalQueue, priorityQueue
      ensures Valid()
      ensures generalQueue.items == GeneralQueueOf(doubts)
      ensures priorityQueue.items == PriorityQueueOf(doubts)
      ensures generalQueueItems == generalQueue.items
      ensures priorityQueueItems == Elements(priorityQueue.items)
      ensures doubts == old(doubts) && stats == old(stats)
    {
      generalQueue.Clear();
      priorityQueue.Clear();
      var pendingDoubts := PendingOldestFirst(doubts);
      EnqueueAll(pendingDoubts);
      generalQueueItems := generalQueue.GetItems();
      priorityQueueItems := priorityQueue.GetItems();
    }

    /**
      The loop of updateQueues, which runs on the two queues just cleared:
      each doubt of `pendingDoubts`, in order, goes to its tier's queue.
    */
    method EnqueueAll(pendingDoubts: seq<Doubt>)
      requires Valid()
      requires generalQueue.items == [] && priorityQueue.items == []
      modifies generalQueue, priorityQueue
      ensures Valid()
      ensures generalQueue.items == Filter(pendingDoubts, IsGeneral)
      ensures priorityQueue.items == SortByKey(Ranked(Filter(pendingDoubts, IsPriority), PriorityField), PriorityOf)
    {
      ghost var priorityDoubts: seq<Doubt> := [];
      for i := 0 to |pendingDoubts|
        invariant priorityQueue.Valid()
        invariant generalQueue.items == Filter(pendingDoubts[..i], IsGeneral)
        invariant priorityDoubts == Filter(pendingDoubts[..i], IsPriority)
        invariant priorityQueue.items == SortByKey(Ranked(priorityDoubts, PriorityField), PriorityOf)
      {
        var doubt := pendingDoubts[i];
        assert pendingDoubts[..i + 1] == pendingDoubts[..i] + [doubt];
        FilterSnoc(pendingDoubts[..i], doubt, IsGeneral);
        FilterSnoc(pendingDoubts[..i], doubt, IsPriority);
        if doubt.isPriority {
          PriorityStep(priorityDoubts, doubt);
          priorityDoubts := priorityDoubts + [doubt];
        }
        EnqueueByTier(doubt);
      }
      assert pendingDoubts[..|pendingDoubts|] == pendingDoubts;
    }

    /** The body of updateQueues' loop: one doubt goes to its tier's queue. */
    method EnqueueByTier(doubt: Doubt)
      requires Valid()
      modifies generalQueue, priorityQueue
      ensures Valid()
      ensures doubt.isPriority ==>
                && priorityQueue.items
                   == InsertByKey(old(priorityQueue.items), Entry(doubt, DefaultPriority(doubt.priority)), PriorityOf)
                && generalQueue.items == old(generalQueue.items)
      ensures !doubt.isPriority ==>
                generalQueue.items == old(generalQueue.items) + [doubt] && priorityQueue.items == old(priorityQueue.items)
    {
      if doubt.isPriority {
        var _ := priorityQueue.Enqueue(doubt, DefaultPriority(doubt.priority));
      } else {
        var _ := generalQueue.Enqueue(doubt);
      }
    }

    /** Recounts the list: total, pending, answered, and the pending of each tier. */
    method UpdateStats()
      modifies this
      ensures stats == StatsOf(doubts)
      ensures doubts == old(doubts)
      ensures generalQueueItems == old(generalQueueItems) && priorityQueueItems == old(priorityQueueItems)
    {
      stats := StatsOf(doubts);
    }

    /** The effect that runs whenever the list changes: updateQueues, then updateStats. */
    method Refresh()
      requires Valid()
      modifies this, generalQueue, priorityQueue
      ensures Valid() && Synced()
      ensures doubts == old(doubts)
    {
      UpdateQueues();
      UpdateStats();
    }

    /**
      loadDoubts: the rows the store returns (none when it returns no rows
      object) replace the list and the queues are rebuilt; on an error
      nothing changes.
    */
    method LoadDoubts(reply: StoreReply<Option<seq<Doubt>>>)
      requires Valid()
      modifies this, generalQueue, priorityQueue
      ensures Valid()
      ensures reply.Success? ==> Synced() && doubts == (if reply.data.Some? then reply.data.value else [])
      ensures reply.Failure? ==> doubts == old(doubts) && stats == old(stats)
      ensures reply.Failure? ==>
                && generalQueue.items == old(generalQueue.items) && priorityQueue.items == old(priorityQueue.items)
                && generalQueueItems == old(generalQueueItems) && priorityQueueItems == old(priorityQueueItems)
    {
      if reply.Failure? {
        return;
      }
      doubts := if reply.data.Some? then reply.data.value else [];
      Refresh();
    }

    /**
      handleRealtimeUpdate: the list becomes Apply(list, payload).  When the
      updater hands back the very same list (an INSERT whose id is already
      present, or an event of another type) the state is untouched;
      otherwise the list changed and the effect rebuilds queues and counters.
    */
    method HandleRealtimeUpdate(payload: Payload)
      requires Valid()
      modifies this, generalQueue, priorityQueue
      ensures Valid()
      ensures doubts == Apply(old(doubts), payload)
      ensures payload.OtherEvent? || (payload.InsertEvent? && HasId(old(doubts), payload.newRecord.id)) ==>
                && stats == old(stats)
                && generalQueue.items == old(generalQueue.items)
                && priorityQueue.items == old(priorityQueue.items)
                && generalQueueItems == old(generalQueueItems)
                && priorityQueueItems == old(priorityQueueItems)
      ensures payload.UpdateEvent? || payload.DeleteEvent? || (payload.InsertEvent? && !HasId(old(doubts), payload.newRecord.id)) ==>
                Synced()
    {
      if payload.OtherEvent? || (payload.InsertEvent? && HasId(doubts, payload.newRecord.id)) {
        return;
      }
      doubts := Apply(doubts, payload);
      Refresh();
    }

    /**
      resolveDoubt: looks the doubt up by id and fails without touching the
      queues when it is absent or when the store reports an error; on
      success it dequeues the HEAD of the queue of the doubt's tier (not
      necessarily the resolved doubt) and refreshes that queue's snapshot.
      The list itself changes later, through the store's UPDATE event.
    */
    method ResolveDoubt(doubtId: DoubtId, reply: StoreReply<Doubt>) returns (outcome: ResolveOutcome)
      requires Valid()
      modifies this, generalQueue, priorityQueue
      ensures Valid()
      ensures doubts == old(doubts) && stats == old(stats)
      ensures outcome == DoubtNotFound <==> FindById(doubts, doubtId).None?
      ensures outcome.StoreFailed? <==> FindById(doubts, doubtId).Some? && reply.Failure?
      ensures outcome.StoreFailed? ==> reply.Failure? && outcome.error == reply.error
      ensures !outcome.Resolved? ==>
                && generalQueue.items == old(generalQueue.items)
                && priorityQueue.items == old(priorityQueue.items)
                && generalQueueItems == old(generalQueueItems)
                && priorityQueueItems == old(priorityQueueItems)
      ensures outcome.Resolved? ==>
                (priorityQueue.items, generalQueue.items)
                == AfterResolve(old(priorityQueue.items), old(generalQueue.items), FindById(doubts, doubtId).value.isPriority)
      ensures outcome.Resolved? && FindById(doubts, doubtId).value.isPriority ==>
                priorityQueueItems == Elements(priorityQueue.items) && generalQueueItems == old(generalQueueItems)
      ensures outcome.Resolved? && !FindById(doubts, doubtId).value.isPriority ==>
                generalQueueItems == generalQueue.items && priorityQueueItems == old(priorityQueueItems)
    {
      var doubt := FindById(doubts, doubtId);
      if doubt.None? {
        return DoubtNotFound;
      }
      if reply.Failure? {
        return StoreFailed(reply.error);
      }
      if doubt.value.isPriority {
        var _ := priorityQueue.Dequeue();
        priorityQueueItems := priorityQueue.GetItems();
      } else {
        var _ := generalQueue.Dequeue();
        generalQueueItems := generalQueue.GetItems();
      }
      outcome := Resolved;
    }

    /** getNextDoubt: the head of the priority queue, else the head of the general queue, else nothing. */
    method GetNextDoubt() returns (next: Option<Doubt>)
      ensures next == Next(priorityQueue.items, generalQueue.items)
      ensures Synced() ==> next == Next(PriorityQueueOf(doubts), GeneralQueueOf(doubts))
    {
      var priorityEmpty := priorityQueue.IsEmpty();
      if !priorityEmpty {
        next := priorityQueue.Front();
        return;
      }
      var generalEmpty := generalQueue.IsEmpty();
      if !generalEmpty {
        next := generalQueue.Front();
        return;
      }
      next := None;
    }
  }
}
