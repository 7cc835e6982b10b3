# ClassQueue doubt queues, modelled in Dafny

ClassQueue is a classroom tool. Students post *doubts* (questions). A doubt
is either general or priority. Teachers resolve the doubts in queue order.
This project models the part of the application that decides that order,
and proves what the order is:

- `Queues.Queue`: the array-backed FIFO queue of `Queue.js`, as a class
  whose `items` field the methods update in place.
- `PriorityQueues.PriorityQueue`: the ordered-insert priority queue of
  `PriorityQueue.js`. Its `Enqueue` is the source's scanning loop with the
  `added` flag. The loop is proved to equal `StableOrder.InsertByKey`: the
  new entry goes right before the first entry whose priority is strictly
  greater. So a lower number is served first, and equal priorities are
  served first-come first-served.
- `Doubts`: the doubt record, the record `createDoubt` submits, and lookup
  by id.
- `Realtime`: how one change notification (INSERT, UPDATE, DELETE) turns
  the list of doubts into the next list.
- `Projection`: the queue contents, the next doubt and the counters that
  `DoubtProvider` derives from the list, as functions of the list. The
  lemmas here prove that each pending doubt is in exactly one queue. They
  also prove that a priority doubt always comes before a general one, and
  which doubt is offered next.
- `DoubtContext.DoubtProvider`: the provider's state as a class. It holds
  the list, the two queue objects, their display snapshots and the
  counters. Each method is proved against the `Projection` functions.
- `Timeline`, `TimeAgo`, `Decimal`, `DoubtCard`: the Timeline page's
  filtered and sorted list, the "N min ago" text, and what a doubt card
  shows.

`Seqs` (filtering) and `StableOrder` (ordered insertion and the stable
sort it induces) are generic helpers. `Array.prototype.sort` is stable
since ECMAScript 2019. Both comparator sorts of the source therefore
become `StableOrder.SortByKey`. Its key is `createdAt`, or `-createdAt`
for the Timeline's 'newest' order.

Timestamps are integers (milliseconds). `created_at` is the integer
`createdAt`. The elapsed time `now - date` is a parameter. The store's
replies (rows or an error) are parameters too. A priority that is
missing, or zero, counts as 1; the model writes `priority` as
`Option<int>`, and `PriorityQueues.DefaultPriority` applies this rule
(`p || 1`).

## Model

| member | source | states |
|---|---|---|
| Queues.Queue.constructor | src/ds-implementation/Queue.js:4-6 | a new queue is empty |
| Queues.Queue.Enqueue | src/ds-implementation/Queue.js:9-12 | appends the element at the rear and answers true |
| Queues.Queue.Dequeue | src/ds-implementation/Queue.js:15-20 | on an empty queue returns None and changes nothing; otherwise returns the head and leaves the rest, in order |
| Queues.Queue.Front | src/ds-implementation/Queue.js:23-28 | the head, or None when empty; nothing changes |
| Queues.Queue.IsEmpty | src/ds-implementation/Queue.js:31-33 | true exactly when the size is 0 |
| Queues.Queue.Size | src/ds-implementation/Queue.js:36-38 | the number of queued elements |
| Queues.Queue.Clear | src/ds-implementation/Queue.js:41-43 | the queue becomes empty |
| Queues.Queue.GetItems | src/ds-implementation/Queue.js:46-48 | a copy of the contents, head first |
| Queues.Queue.Initialize | src/ds-implementation/Queue.js:51-53 | the contents become exactly the given items, in order |
| Queues.Queue.ToArray | src/ds-implementation/Queue.js:56-58 | the same copy as GetItems |
| Queues.RunIsFifo | src/ds-implementation/Queue.js:9-20 | FIFO for any interleaving of enqueues and dequeues: what dequeues hand out, followed by what is left, is the initial contents followed by the enqueued elements in enqueue order |
| Queues.DrainYieldsContents | src/ds-implementation/Queue.js:15-20 | dequeuing once per element hands out every element, head first, and empties the queue |
| Queues.Replay | src/ds-implementation/Queue.js:9-20 | playing a run of enqueue and dequeue calls on a queue object hands out what `Run` says and leaves the contents `Run` says, so the FIFO property of RunIsFifo holds of the class itself |
| PriorityQueues.PriorityQueue.constructor | src/ds-implementation/PriorityQueue.js:3-5 | a new priority queue is empty and ordered |
| PriorityQueues.PriorityQueue.Enqueue | src/ds-implementation/PriorityQueue.js:8-24 | the scan-and-splice loop inserts the entry before the first entry of strictly greater priority, or appends it when there is none; keeps the queue ordered by priority; answers true |
| PriorityQueues.PriorityQueue.Dequeue | src/ds-implementation/PriorityQueue.js:27-32 | None on an empty queue with nothing changed; otherwise the head's element, leaving the remaining entries in order |
| PriorityQueues.PriorityQueue.Front | src/ds-implementation/PriorityQueue.js:35-40 | the head's element, or None when empty |
| PriorityQueues.PriorityQueue.IsEmpty | src/ds-implementation/PriorityQueue.js:43-45 | true exactly when there are no entries |
| PriorityQueues.PriorityQueue.Size | src/ds-implementation/PriorityQueue.js:48-50 | the number of entries |
| PriorityQueues.PriorityQueue.Clear | src/ds-implementation/PriorityQueue.js:53-55 | no entries; the ordering invariant holds |
| PriorityQueues.PriorityQueue.GetItems | src/ds-implementation/PriorityQueue.js:58-60 | the elements without their priorities, head first |
| PriorityQueues.PriorityQueue.GetItemsWithPriority | src/ds-implementation/PriorityQueue.js:63-65 | a copy of the entries with their priorities |
| PriorityQueues.PriorityQueue.Initialize | src/ds-implementation/PriorityQueue.js:68-74 | clears the queue, then enqueues each item in order with priority `item.priority \|\| 1`; the result is the stable sort by that priority |
| PriorityQueues.PriorityQueue.ToArray | src/ds-implementation/PriorityQueue.js:77-79 | the same elements as GetItems |
| PriorityQueues.DefaultPriority | src/ds-implementation/PriorityQueue.js:72 | `p \|\| 1`: a present non-zero priority is kept; a missing priority becomes 1; a priority of 0 becomes 1; the result is never 0 |
| PriorityQueues.InitializedQueue | src/ds-implementation/PriorityQueue.js:68-74 | after initialize every item is queued exactly once, entries are in priority order, and items of equal priority keep their given order |
| PriorityQueues.ElementsOfInsert | src/ds-implementation/PriorityQueue.js:8-24 | one enqueue adds exactly its element to the queued elements |
| PriorityQueues.ElementsOfSort | src/ds-implementation/PriorityQueue.js:68-74 | enqueuing a run of entries queues exactly their elements |
| StableOrder.FirstGreater | src/ds-implementation/PriorityQueue.js:12-18 | the index the scan stops at: every earlier entry has priority at most the new one, and the entry there (if any) is strictly greater |
| StableOrder.InsertByKey | src/ds-implementation/PriorityQueue.js:8-24 | the ordered insert adds the new entry and nothing else (multiset), one longer than before; where it lands is InsertByKeyPlacement |
| StableOrder.InsertByKeyPlacement | src/ds-implementation/PriorityQueue.js:12-22 | in an ordered queue the new entry lands after every entry of equal or smaller priority and before every greater one; the old entries keep their order |
| StableOrder.InsertByKeySorted | src/ds-implementation/PriorityQueue.js:8-24 | enqueuing keeps the entries ordered by priority |
| StableOrder.SortByKey | src/pages/Timeline.jsx:21-26 | the stable sort returns a permutation of its input (same multiset, same length); its order is SortByKeySorted and SortByKeyStable |
| StableOrder.SortByKeySorted | src/pages/Timeline.jsx:21-26 | the stable sort is ordered by its key |
| StableOrder.SortByKeyStable | src/context/DoubtContext.jsx:103-105 | among elements of equal key, the sorted list keeps the input order |
| StableOrder.FilterSortByKey | src/context/DoubtContext.jsx:103-117 | filtering the sorted list equals sorting the filtered list |
| Doubts.NewDoubt | src/context/DoubtContext.jsx:141-151 | the record createDoubt submits is pending, in the chosen tier, stamped with the current time, with no answer, and has priority 1 for a priority doubt and 2 otherwise |
| Doubts.FindById | src/context/DoubtContext.jsx:169-170 | like `Array.prototype.find`, the lookup returns the FIRST record of the list with that id (no earlier record has it), and nothing exactly when no record has that id |
| Doubts.FindByIdUnique | src/context/DoubtContext.jsx:169-170 | with unique ids, looking up a record's id finds that record |
| Realtime.InsertRecord | src/context/DoubtContext.jsx:82-87 | after an INSERT the id is present; the old list is kept, in order, at the end; at most one record is added |
| Realtime.UpdateRecord | src/context/DoubtContext.jsx:88-91 | an UPDATE keeps the length and the id at every position; each record is either kept or replaced by the new record |
| Realtime.DeleteRecord | src/context/DoubtContext.jsx:92-93 | after a DELETE no record has the id, and every remaining record was in the old list |
| Realtime.Apply | src/context/DoubtContext.jsx:80-95 | the updater for one payload: INSERT leaves the id present with the old list at the end; UPDATE keeps the length; DELETE leaves no record of the id and only old records; other event types leave the list as it was |
| Realtime.ApplyIds | src/context/DoubtContext.jsx:80-95 | INSERT adds the new id, leaves the list unchanged when the id is present and prepends the record otherwise; UPDATE keeps the ids; DELETE removes exactly the given id; other events change nothing |
| Realtime.ApplyKeepsIdsUnique | src/context/DoubtContext.jsx:80-95 | every change notification keeps the ids unique |
| Realtime.FilterKeepsIdsUnique | src/context/DoubtContext.jsx:92-93 | dropping records keeps the ids unique |
| Realtime.UpdateAndDeleteScope | src/context/DoubtContext.jsx:88-93 | UPDATE replaces exactly the records with the new record's id and leaves every other record in place; DELETE keeps exactly the records of other ids |
| Projection.PendingOldestFirst | src/context/DoubtContext.jsx:103-105 | the pending doubts, each as often as in the list (multiset), ordered oldest first |
| Projection.GeneralQueueOf | src/context/DoubtContext.jsx:111-119 | the general queue that updateQueues builds holds exactly the pending general doubts (multiset), oldest first |
| Projection.PriorityQueueOf | src/context/DoubtContext.jsx:111-119 | the priority queue that updateQueues builds is ordered by priority (the queue's invariant) and has one entry per pending priority doubt |
| Projection.Next | src/context/DoubtContext.jsx:197-206 | getNextDoubt on given queues: nothing exactly when both are empty; the priority queue's head element (`front()`) whenever it is non-empty; otherwise the general head |
| Projection.StatsOf | src/context/DoubtContext.jsx:126-137 | the counters of updateStats: total is the list length; generalPending + priorityPending = pending; pending + answered never exceed total |
| Projection.AfterResolve | src/context/DoubtContext.jsx:181-188 | after a successful resolve the queue of the doubt's tier loses exactly its head (an empty queue stays empty) and the other queue is untouched |
| Projection.GeneralQueueContents | src/context/DoubtContext.jsx:97-124 | the general queue holds exactly the pending general doubts, oldest first, and doubts created at the same instant keep their list order |
| Projection.PriorityQueueContents | src/context/DoubtContext.jsx:97-124 | the priority queue holds exactly the pending priority doubts, each with priority `priority \|\| 1`, ordered by that priority and then oldest first |
| Projection.TierOldestFirst | src/context/DoubtContext.jsx:103-117 | taking one tier out of the pending doubts sorted oldest first is the same as sorting that tier's pending doubts |
| Projection.ProjectionPartition | src/context/DoubtContext.jsx:111-119 | the two queues together hold each pending doubt exactly once |
| Projection.ProjectionMembers | src/context/DoubtContext.jsx:111-119 | a doubt is in the general (priority) queue exactly when it is a pending general (priority) doubt of the list |
| Projection.PriorityHeadIsLeast | src/context/DoubtContext.jsx:197-201 | the priority queue's head is a pending priority doubt of least rank and, among those, the oldest |
| Projection.PriorityQueueEmpty | src/context/DoubtContext.jsx:199 | the priority queue is empty exactly when no doubt is a pending priority doubt |
| Projection.GeneralHeadIsOldest | src/context/DoubtContext.jsx:202-204 | the general queue's head is the oldest pending general doubt |
| Projection.GeneralQueueEmpty | src/context/DoubtContext.jsx:202 | the general queue is empty exactly when no doubt is a pending general doubt |
| Projection.NextAfterProjection | src/context/DoubtContext.jsx:197-206 | getNextDoubt returns nothing exactly when no doubt is pending. Whenever a pending priority doubt exists, it returns one of least rank, oldest among those. Otherwise it returns the oldest pending general doubt |
| Projection.NextIsHeadOfItsTier | src/context/DoubtContext.jsx:166-188 | with unique ids, looking up the offered doubt finds it, and the queue its tier selects has it at the head |
| Projection.ResolvingAHead | src/context/DoubtContext.jsx:166-188 | resolving the head of either queue (with unique ids, queues in sync) dequeues exactly that doubt: the queues then hold every other pending doubt |
| Projection.ServingPriorityHead | src/context/DoubtContext.jsx:182-184 | dequeuing the priority head leaves exactly the other pending doubts queued |
| Projection.ServingGeneralHead | src/context/DoubtContext.jsx:185-187 | dequeuing the general head leaves exactly the other pending doubts queued |
| Projection.PriorityStep | src/context/DoubtContext.jsx:112-114 | one priority iteration of updateQueues inserts the doubt's entry by `priority \|\| 1` |
| Projection.StatsCounts | src/context/DoubtContext.jsx:126-137 | pending and answered are independent counts of list positions: those with status 'pending' and those with status 'answered' |
| Projection.StatsTierCounts | src/context/DoubtContext.jsx:126-137 | generalPending and priorityPending are the counts of list positions holding a pending doubt without and with `is_priority` |
| Projection.StatsTally | src/context/DoubtContext.jsx:126-137 | each pending counter equals the length of its queue: generalPending the general queue's, priorityPending the priority queue's |
| Projection.CreatedDoubtLandsInItsTier | src/context/DoubtContext.jsx:139-164 | a created doubt, once the store announces it with a fresh id, lands in the queue of the chosen tier and not in the other |
| DoubtContext.DoubtProvider.constructor | src/context/DoubtContext.jsx:23-41 | empty list, empty queues, zero counters, in sync |
| DoubtContext.DoubtProvider.UpdateQueues | src/context/DoubtContext.jsx:97-124 | clears both queues and refills them so that they equal the projections of the list; refreshes both snapshots; list and counters unchanged |
| DoubtContext.DoubtProvider.EnqueueAll | src/context/DoubtContext.jsx:111-119 | the loop over the sorted pending doubts leaves the general doubts in FIFO order and the priority doubts stably sorted by `priority \|\| 1` |
| DoubtContext.DoubtProvider.EnqueueByTier | src/context/DoubtContext.jsx:112-118 | a priority doubt is inserted into the priority queue by `priority \|\| 1`; a general doubt is appended to the general queue; the other queue is untouched |
| DoubtContext.DoubtProvider.UpdateStats | src/context/DoubtContext.jsx:126-137 | the counters become `StatsOf` of the current list, so StatsCounts and StatsTierCounts give each counter's value |
| DoubtContext.DoubtProvider.Refresh | src/context/DoubtContext.jsx:60-63 | after the effect, queues, snapshots and counters are all in sync with the list |
| DoubtContext.DoubtProvider.LoadDoubts | src/context/DoubtContext.jsx:65-78 | rows (or an empty list when none) replace the list and everything is rebuilt; on an error the list, counters, queues and display snapshots are all unchanged |
| DoubtContext.DoubtProvider.HandleRealtimeUpdate | src/context/DoubtContext.jsx:80-95 | the list becomes the updater's result. When that result is the old list (an INSERT of a present id, another event type), counters, queues and display snapshots are unchanged; otherwise the effect brings everything back in sync |
| DoubtContext.DoubtProvider.ResolveDoubt | src/context/DoubtContext.jsx:166-195 | fails with no queue change when the id is not found, or when the store errs, carrying the store's error. On success it dequeues the head of the queue chosen by the found doubt's tier and refreshes that snapshot. List and counters are unchanged |
| DoubtContext.DoubtProvider.GetNextDoubt | src/context/DoubtContext.jsx:197-206 | the priority head, else the general head, else nothing; in sync, the doubt NextAfterProjection describes |
| Decimal.Show | src/pages/Timeline.jsx:42 | the decimal text of a count is a non-empty string of digits with no leading zero |
| Decimal.ValueOfShow | src/pages/Timeline.jsx:42-44 | reading the printed count back gives the count |
| Decimal.ShowInjective | src/pages/Timeline.jsx:42-44 | different counts print differently |
| TimeAgo.Format | src/pages/Timeline.jsx:33-45 | the relative-time text is "Just now" exactly when less than a minute has passed (or the date is in the future); any other text starts with a digit and ends in " ago" |
| TimeAgo.FormatBuckets | src/pages/Timeline.jsx:33-45 | under a minute (also a future date) gives "Just now"; under an hour gives whole minutes; under a day gives whole hours; otherwise whole days; the 's' appears exactly when the count exceeds 1 |
| TimeAgo.FormatSingulars | src/components/DoubtCard.jsx:6-18 | "Just now" exactly under one minute, "1 hour ago" exactly from 60 to 119 minutes, "1 day ago" exactly from 24 to 47 hours |
| Timeline.StatusFilter | src/pages/Timeline.jsx:16-20 | the filter keeps a record exactly when: for 'answered' its status is 'answered'; for 'pending' its status is 'pending'; for any other setting always |
| Timeline.SortKey | src/pages/Timeline.jsx:21-26 | the key orders two records exactly as the comparator does: newer first for 'newest', older first for any other setting |
| Timeline.FilteredDoubts | src/pages/Timeline.jsx:15-26 | the list holds the records the filter keeps, each as often as it occurs |
| Timeline.FilteredDoubtsContents | src/pages/Timeline.jsx:15-20 | the list shows each record that passes the filter, as often as it occurs: the status 'answered' for 'answered', 'pending' for 'pending', every record for any other setting |
| Timeline.FilteredDoubtsOrder | src/pages/Timeline.jsx:21-26 | newest first for 'newest', oldest first otherwise; records created at the same instant keep their order |
| DoubtCard.PriorityBadge | src/components/DoubtCard.jsx:20-31 | a badge exactly for priority doubts, reading "Priority" |
| DoubtCard.StatusBadge | src/components/DoubtCard.jsx:33-53 | "Answered" exactly for the status 'answered'; "Pending" for every other status |
| DoubtCard.ShowsAnswer | src/components/DoubtCard.jsx:84 | the answer block appears only under an "Answered" badge and only with a non-empty answer |
| DoubtCard.ShowsResolveAction | src/components/DoubtCard.jsx:104 | the resolve button appears only on a pending doubt, under a "Pending" badge, and never beside an answer |
| DoubtCard.QueuedCards | src/components/DoubtCard.jsx:20-104 | a doubt in the priority queue shows the Priority and Pending badges; one in the general queue shows Pending and no priority badge; neither shows an answer |

## Left out

- I/O: the store client, the realtime subscription and its cleanup, and
  authentication. The store's replies are parameters, and the
  subscription's events are calls to `HandleRealtimeUpdate`.
- React mechanics: render scheduling, state batching and the `loading`
  flag. The effect on `[doubts]` is `Refresh`. The model runs it exactly
  when the updater returns a different list.
- Date parsing and the clock. `created_at` is an integer. Invalid dates
  (the `NaN` comparisons of the sort and of the time text) are not
  modelled.
- `createDoubt`'s store call and its result object. The model has the
  record it submits (`Doubts.NewDoubt`). The list changes only through the
  INSERT event, as in the source.
- The student identity fields, `answered_at` and `answered_by`. They play
  no part in ordering. The "Answered …" time on a card is therefore not
  modelled.
- The `generalDoubts` / `priorityDoubts` arrays that updateQueues fills
  are never read. They are omitted.
- DoubtContext.DoubtProvider.ResolveDoubt: the source dequeues the head of the
  tier's queue, not the doubt with the given id. The model states exactly
  that. `Projection.ResolvingAHead` proves that this removes the resolved
  doubt while that doubt is still its queue's head when the dequeue runs.
- DoubtContext.DoubtProvider.ResolveDoubt: the wait for the store between
  the lookup and the dequeue is not modelled; the model runs resolveDoubt
  as one step. In the source a realtime event can arrive during that wait
  (the store's own UPDATE for this resolution, or another teacher resolving
  the same doubt) and rebuild the queues without the resolved doubt; the
  dequeue then removes a different doubt, which is missing from the
  display until the next rebuild.
- PriorityQueues.PriorityQueue.Enqueue: the default argument
  `priority = 1` is not modelled separately. Every caller in the core
  passes a priority.
- Markup, styles and the remaining pages and components are not part of
  this model: the dashboard, the ask form, the stats card and the queue
  visualisers.
