/**
  The list the Timeline page shows (src/pages/Timeline.jsx): the doubts
  kept by the status filter, sorted by creation time in the chosen
  direction.  The comparator sorts of `Array.prototype.sort` are stable, so
  the list is StableOrder.SortByKey, with the key `-createdAt` for the
  'newest' order and `createdAt` otherwise.
*/
module Timeline {
  import opened Seqs
  import opened StableOrder
  import opened Doubts

  /** The filter callback for the `filter` setting: 'answered', 'pending', or anything else (all). */
  function StatusFilter(filter: string): (keep: Doubt -> bool)
    ensures forall d :: keep(d) <==>
      (filter == "answered" ==> d.status == "answered") && (filter == "pending" ==> d.status == "pending")
  {
    if filter == "answered" then IsAnswered
    else if filter == "pending" then IsPending
    else (d: Doubt) => true
  }

  /** The sort key for the `sortOrder` setting: newest first for 'newest', oldest first otherwise. */
  function SortKey(sortOrder: string): (key: Doubt -> int)
    ensures forall a, b :: key(a) <= key(b) <==>
      if sortOrder == "newest" then a.createdAt >= b.createdAt else a.createdAt <= b.createdAt
  {
    if sortOrder == "newest" then (d: Doubt) => -d.createdAt else CreatedAt
  }

  /** `filteredDoubts`: the records the filter keeps, each as often as it occurs, in the chosen order. */
  function FilteredDoubts(doubts: seq<Doubt>, filter: string, sortOrder: string): (r: seq<Doubt>)
    ensures multiset(r) == multiset(Filter(doubts, StatusFilter(filter)))
  {
    SortByKey(Filter(doubts, StatusFilter(filter)), SortKey(sortOrder))
  }

  /**
    The list shows exactly the records of `doubts` that pass the filter,
    each as often as in `doubts`; with a setting other than 'answered' or
    'pending' it shows all of them.
  */
  lemma FilteredDoubtsContents(doubts: seq<Doubt>, filter: string, sortOrder: string)
    ensures multiset(FilteredDoubts(doubts, filter, sortOrder)) == multiset(Filter(doubts, StatusFilter(filter)))
    ensures filter != "answered" && filter != "pending" ==>
              multiset(FilteredDoubts(doubts, filter, sortOrder)) == multiset(doubts)
    ensures forall x :: x in FilteredDoubts(doubts, filter, sortOrder) <==>
              x in doubts && (filter == "answered" ==> x.status == "answered")
                          && (filter == "pending" ==> x.status == "pending")
  {
    var kept := Filter(doubts, StatusFilter(filter));
    if filter != "answered" && filter != "pending" {
      FilterAll(doubts, StatusFilter(filter));
    }
    forall x ensures x in FilteredDoubts(doubts, filter, sortOrder) <==>
              x in doubts && (filter == "answered" ==> x.status == "answered")
                          && (filter == "pending" ==> x.status == "pending")
    {
      assert x in FilteredDoubts(doubts, filter, sortOrder) <==> x in multiset(kept);
      FilterContains(doubts, StatusFilter(filter), x);
    }
  }

  /**
    The order: newest first (creation times non-increasing) for 'newest',
    oldest first (non-decreasing) for any other setting; records created
    at the same instant keep their order in `doubts`.
  */
  lemma FilteredDoubtsOrder(doubts: seq<Doubt>, filter: string, sortOrder: string)
    ensures var r := FilteredDoubts(doubts, filter, sortOrder);
      forall i, j :: 0 <= i < j < |r| ==>
        if sortOrder == "newest" then r[i].createdAt >= r[j].createdAt else r[i].createdAt <= r[j].createdAt
    ensures forall k :: Filter(FilteredDoubts(doubts, filter, sortOrder), KeyIs(SortKey(sortOrder), k))
                     == Filter(Filter(doubts, StatusFilter(filter)), KeyIs(SortKey(sortOrder), k))
  {
    var kept := Filter(doubts, StatusFilter(filter));
    var r := FilteredDoubts(doubts, filter, sortOrder);
    SortByKeySorted(kept, SortKey(sortOrder));
    forall i, j | 0 <= i < j < |r|
      ensures if sortOrder == "newest" then r[i].createdAt >= r[j].createdAt else r[i].createdAt <= r[j].createdAt
    {
      assert SortKey(sortOrder)(r[i]) <= SortKey(sortOrder)(r[j]);
    }
    forall k {
      SortByKeyStable(kept, SortKey(sortOrder), k);
    }
  }
}
