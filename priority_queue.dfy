/**
  The ordered-insert priority queue of src/ds-implementation/PriorityQueue.js.

  `this.items` holds `{ element, priority }` records, modelled as `Entry`.
  A lower priority number is served first.  The insertion rule is
  StableOrder.InsertByKey on the entries' priorities, so the entries stay in
  non-decreasing priority order (the invariant `Valid`) and an entry goes
  after every entry of equal priority already queued.
*/
module PriorityQueues {
  import opened Wrappers
  import opened Seqs
  import opened StableOrder

  /** The record `{ element, priority }` that the queue stores. */
  datatype Entry<T> = Entry(element: T, priority: int)

  /** The ordering key of an entry. */
  function PriorityOf<T>(e: Entry<T>): int {
    e.priority
  }

  /** `p || 1`: a priority that is missing or zero counts as 1. */
  function DefaultPriority(p: Option<int>): (r: int)
    ensures r != 0
    ensures p.Some? && p.value != 0 ==> r == p.value
    ensures p.None? ==> r == 1
    ensures p == Some(0) ==> r == 1
  {
    if p.Some? && p.value != 0 then p.value else 1
  }

  /** `items.map(item => item.element)`: the queued elements, head first. */
  function Elements<T>(es: seq<Entry<T>>): (r: seq<T>)
    ensures |r| == |es|
    ensures forall i :: 0 <= i < |es| ==> r[i] == es[i].element
  {
    seq(|es|, i requires 0 <= i < |es| => es[i].element)
  }

  /** The entries that `initialize` enqueues, in order: each item with priority `item.priority || 1`. */
  function Ranked<T>(xs: seq<T>, priorityOf: T -> Option<int>): (es: seq<Entry<T>>)
    ensures |es| == |xs|
    ensures forall i :: 0 <= i < |xs| ==> es[i] == Entry(xs[i], DefaultPriority(priorityOf(xs[i])))
  {
    seq(|xs|, i requires 0 <= i < |xs| => Entry(xs[i], DefaultPriority(priorityOf(xs[i]))))
  }

  class PriorityQueue<T> {
    var items: seq<Entry<T>>

    /** The entries are in non-decreasing priority order, head first. */
    ghost predicate Valid()
      reads this
    {
      SortedBy(items, PriorityOf)
    }

    constructor ()
      ensures Valid() && items == []
    {
      items := [];
    }

    /**
      Scans for the first entry whose priority is strictly greater than
      `priority` and splices the new entry in before it; appends when there
      is none.  Always answers true.
    */
    method Enqueue(element: T, priority: int) returns (ok: bool)
      requires Valid()
      modifies this
      ensures Valid() && ok
      ensures items == InsertByKey(old(items), Entry(element, priority), PriorityOf)
    {
      var queueElement := Entry(element, priority);
      var added := false;
      var i := 0;
      while i < |items|
        invariant 0 <= i <= |items|
        invariant items == old(items)
        invariant forall j :: 0 <= j < i ==> items[j].priority <= priority
      {
        if queueElement.priority < items[i].priority {
          FirstGreaterUnique(items, priority, PriorityOf, i);
          items := items[..i] + [queueElement] + items[i..];
          added := true;
          break;
        }
        i := i + 1;
      }
      if !added {
        FirstGreaterUnique(items, priority, PriorityOf, |items|);
        items := items + [queueElement];
      }
      InsertByKeySorted(old(items), queueElement, PriorityOf);
      ok := true;
    }

    /** Removes and returns the head element, or returns None and changes nothing when empty. */
    method Dequeue() returns (head: Option<T>)
      requires Valid()
      modifies this
      ensures Valid()
      ensures old(items) == [] ==> head == None && items == old(items)
      ensures old(items) != [] ==> head == Some(old(items)[0].element) && items == old(items)[1..]
    {
      var empty := IsEmpty();
      if empty {
        return None;
      }
      head := Some(items[0].element);
      items := items[1..];
    }

    /** The head element without removing it, or None when empty. */
    method Front() returns (head: Option<T>)
      ensures head == if items == [] then None else Some(items[0].element)
    {
      var empty := IsEmpty();
      if empty {
        return None;
      }
      head := Some(items[0].element);
    }

    method IsEmpty() returns (empty: bool)
      ensures empty <==> |items| == 0
    {
      empty := |items| == 0;
    }

    method Size() returns (n: nat)
      ensures n == |items|
    {
      n := |items|;
    }

    method Clear()
      modifies this
      ensures Valid() && items == []
    {
      items := [];
    }

    /** The queued elements without their priorities, head first. */
    method GetItems() returns (elements: seq<T>)
      ensures |elements| == |items|
      ensures forall i :: 0 <= i < |items| ==> elements[i] == items[i].element
    {
      elements := Elements(items);
    }

    /** A copy of the entries with their priorities. */
    method GetItemsWithPriority() returns (entries: seq<Entry<T>>)
      ensures entries == items
    {
      entries := items;
    }

    /**
      Empties the queue, then enqueues every item of `xs` in order with
      priority `item.priority || 1`, where `priorityOf` reads an item's
      `priority` property.
    */
    method Initialize(xs: seq<T>, priorityOf: T -> Option<int>)
      modifies this
      ensures Valid()
      ensures items == SortByKey(Ranked(xs, priorityOf), PriorityOf)
    {
      items := [];
      ghost var ranked := Ranked(xs, priorityOf);
      for i := 0 to |xs|
        invariant Valid()
        invariant items == SortByKey(ranked[..i], PriorityOf)
      {
        var _ := Enqueue(xs[i], DefaultPriority(priorityOf(xs[i])));
        TakeSnoc(ranked, i);
        SortByKeySnoc(ranked[..i], ranked[i], PriorityOf);
      }
      assert ranked[..|xs|] == ranked;
    }

    /** The elements for display: the same as GetItems. */
    method ToArray() returns (elements: seq<T>)
      ensures |elements| == |items|
      ensures forall i :: 0 <= i < |items| ==> elements[i] == items[i].element
    {
      elements := GetItems();
    }
  }

  /** Elements distribute over concatenation. */
  lemma ElementsConcat<T>(a: seq<Entry<T>>, b: seq<Entry<T>>)
    ensures Elements(a + b) == Elements(a) + Elements(b)
  {
  }

  /** Dropping the head entry drops the head element. */
  lemma ElementsTail<T>(es: seq<Entry<T>>)
    requires es != []
    ensures Elements(es[1..]) == Elements(es)[1..]
  {
  }

  /** Enqueuing one entry adds exactly its element to the queued elements. */
  lemma ElementsOfInsert<T>(s: seq<Entry<T>>, e: Entry<T>)
    ensures multiset(Elements(InsertByKey(s, e, PriorityOf))) == multiset(Elements(s)) + multiset{e.element}
  {
    var n := FirstGreater(s, e.priority, PriorityOf);
    var lo, hi := s[..n], s[n..];
    assert InsertByKey(s, e, PriorityOf) == lo + [e] + hi;
    assert s == lo + hi;
    ElementsConcat(lo, hi);
    ElementsConcat(lo + [e], hi);
    ElementsConcat(lo, [e]);
    assert Elements([e]) == [e.element];
    var elo, ehi := Elements(lo), Elements(hi);
    assert Elements(InsertByKey(s, e, PriorityOf)) == elo + [e.element] + ehi;
    assert Elements(s) == elo + ehi;
    assert multiset(elo + [e.element] + ehi) == multiset(elo) + multiset{e.element} + multiset(ehi);
  }

  /** Enqueuing a run of entries queues exactly their elements. */
  lemma {:induction false} ElementsOfSort<T>(es: seq<Entry<T>>)
    ensures multiset(Elements(SortByKey(es, PriorityOf))) == multiset(Elements(es))
    decreases |es|
  {
    if es != [] {
      var init, last := es[..|es| - 1], es[|es| - 1];
      var sorted := SortByKey(init, PriorityOf);
      assert Elements(SortByKey(es, PriorityOf)) == Elements(InsertByKey(sorted, last, PriorityOf)) by {
        assert es == init + [last];
        SortByKeySnoc(init, last, PriorityOf);
      }
      assert Elements(es) == Elements(init) + [last.element] by {
        assert es == init + [last];
        ElementsConcat(init, [last]);
      }
      ElementsOfSort(init);
      ElementsOfInsert(sorted, last);
    }
  }

  /** The elements of the entries built for `initialize` are the items themselves. */
  lemma RankedElements<T>(xs: seq<T>, priorityOf: T -> Option<int>)
    ensures Elements(Ranked(xs, priorityOf)) == xs
  {
  }

  /**
    What `initialize` leaves: every item queued exactly once, in priority
    order, and items of equal priority in the order they were given.
  */
  lemma InitializedQueue<T>(xs: seq<T>, priorityOf: T -> Option<int>)
    ensures var q := SortByKey(Ranked(xs, priorityOf), PriorityOf);
      && SortedBy(q, PriorityOf)
      && multiset(Elements(q)) == multiset(xs)
      && forall k :: Filter(q, KeyIs(PriorityOf, k)) == Filter(Ranked(xs, priorityOf), KeyIs(PriorityOf, k))
  {
    var ranked := Ranked(xs, priorityOf);
    SortByKeySorted(ranked, PriorityOf);
    ElementsOfSort(ranked);
    RankedElements(xs, priorityOf);
    forall k {
      SortByKeyStable(ranked, PriorityOf, k);
    }
  }
}
