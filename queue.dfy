/**
  The array-backed FIFO queue of src/ds-implementation/Queue.js.

  The JavaScript array `this.items` is the field `items`; `push` appends to
  it, `shift` drops its head, and `clear`/`initialize` reassign it.  A result
  of `null` is `None`.
*/
module Queues {
  import opened Wrappers

  class Queue<T> {
    var items: seq<T>

    constructor ()
      ensures items == []
    {
      items := [];
    }

    /** Adds `element` at the rear; always answers true. */
    method Enqueue(element: T) returns (ok: bool)
      modifies this
      ensures ok
      ensures items == old(items) + [element]
    {
      items := items + [element];
      ok := true;
    }

    /** Removes and returns the head, or returns None and changes nothing when empty. */
    method Dequeue() returns (head: Option<T>)
      modifies this
      ensures old(items) == [] ==> head == None && items == old(items)
      ensures old(items) != [] ==> head == Some(old(items)[0]) && items == old(items)[1..]
    {
      var empty := IsEmpty();
      if empty {
        return None;
      }
      head := Some(items[0]);
      items := items[1..];
    }

    /** The head without removing it, or None when empty. */
    method Front() returns (head: Option<T>)
      ensures head == if items == [] then None else Some(items[0])
    {
      var empty := IsEmpty();
      if empty {
        return None;
      }
      head := Some(items[0]);
    }

    method IsEmpty() returns (empty: bool)
      ensures empty <==> |items| == 0
    {
      empty := |items| == 0;
    }

    method Size() returns (n: nat)
      ensures n == |items|
    {
      n := |items|;
    }

    method Clear()
      modifies this
      ensures items == []
    {
      items := [];
    }

    /** A copy of the contents, head first. */
    method GetItems() returns (copy: seq<T>)
      ensures copy == items
    {
      copy := items;
    }

    /** Replaces the contents by a copy of `xs`. */
    method Initialize(xs: seq<T>)
      modifies this
      ensures items == xs
    {
      items := xs;
    }

    /** The contents for display: the same copy as GetItems. */
    method ToArray() returns (copy: seq<T>)
      ensures copy == items
    {
      copy := GetItems();
    }
  }

  /** A call on a queue, for stating what a run of calls does. */
  datatype Call<T> = EnqueueCall(element: T) | DequeueCall

  /** One call on the contents `items`: what it returns and what it leaves. */
  function Step<T>(items: seq<T>, call: Call<T>): (Option<T>, seq<T>)
  {
    match call
    case EnqueueCall(x) => (None, items + [x])
    case DequeueCall => if items == [] then (None, items) else (Some(items[0]), items[1..])
  }

  /** The results of a run of calls on `items`, and the contents it leaves. */
  function Run<T>(items: seq<T>, calls: seq<Call<T>>): (seq<Option<T>>, seq<T>)
    decreases |calls|
  {
    if calls == [] then ([], items)
    else
      var (out, next) := Step(items, calls[0]);
      var (outs, last) := Run(next, calls[1..]);
      ([out] + outs, last)
  }

  /** The elements a run of calls adds, in call order. */
  function Enqueued<T>(calls: seq<Call<T>>): seq<T>
    decreases |calls|
  {
    if calls == [] then []
    else (if calls[0].EnqueueCall? then [calls[0].element] else []) + Enqueued(calls[1..])
  }

  /** The values that dequeues handed out, dropping the `null` results of enqueues and of empty dequeues. */
  function Served<T>(outs: seq<Option<T>>): seq<T>
    decreases |outs|
  {
    if outs == [] then []
    else (if outs[0].Some? then [outs[0].value] else []) + Served(outs[1..])
  }

  /**
    FIFO, for any interleaving of calls: what the dequeues hand out, followed
    by what is still queued, is exactly the starting contents followed by
    the enqueued elements in enqueue order.
  */
  lemma {:induction false} RunIsFifo<T>(items: seq<T>, calls: seq<Call<T>>)
    ensures Served(Run(items, calls).0) + Run(items, calls).1 == items + Enqueued(calls)
    decreases |calls|
  {
    if calls != [] {
      var (out, next) := Step(items, calls[0]);
      RunIsFifo(next, calls[1..]);
      match calls[0]
      case EnqueueCall(x) =>
        assert Served(Run(items, calls).0) == Served(Run(next, calls[1..]).0);
        assert Enqueued(calls) == [x] + Enqueued(calls[1..]);
        assert next + Enqueued(calls[1..]) == items + ([x] + Enqueued(calls[1..]));
      case DequeueCall =>
        assert Enqueued(calls) == Enqueued(calls[1..]);
        if items != [] {
          assert Served(Run(items, calls).0) == [items[0]] + Served(Run(next, calls[1..]).0);
          assert items == [items[0]] + next;
          var served, last := Served(Run(next, calls[1..]).0), Run(next, calls[1..]).1;
          assert [items[0]] + served + last == [items[0]] + (served + last);
          assert items + Enqueued(calls) == [items[0]] + (next + Enqueued(calls[1..]));
        } else {
          assert Served(Run(items, calls).0) == Served(Run(next, calls[1..]).0);
        }
    }
  }

  /** Unfolding Run on the calls from index `i` on: the call at `i`, then the rest. */
  lemma RunStep<T>(items: seq<T>, calls: seq<Call<T>>, i: nat)
    requires i < |calls|
    ensures Run(items, calls[i..]).0 == [Step(items, calls[i]).0] + Run(Step(items, calls[i]).1, calls[i + 1..]).0
    ensures Run(items, calls[i..]).1 == Run(Step(items, calls[i]).1, calls[i + 1..]).1
  {
    assert calls[i..][1..] == calls[i + 1..];
  }

  /**
    Plays `calls` on the queue object `q`, one method call each, and
    collects what each call hands out (None for an enqueue).  The object
    ends in the state `Run` describes, so RunIsFifo holds of the class.
  */
  method Replay<T>(q: Queue<T>, calls: seq<Call<T>>) returns (outs: seq<Option<T>>)
    modifies q
    ensures outs == Run(old(q.items), calls).0
    ensures q.items == Run(old(q.items), calls).1
  {
    outs := [];
    for i := 0 to |calls|
      invariant Run(old(q.items), calls).0 == outs + Run(q.items, calls[i..]).0
      invariant Run(old(q.items), calls).1 == Run(q.items, calls[i..]).1
    {
      ghost var before := q.items;
      RunStep(before, calls, i);
      var out: Option<T>;
      match calls[i] {
        case EnqueueCall(x) =>
          var _ := q.Enqueue(x);
          out := None;
        case DequeueCall =>
          out := q.Dequeue();
      }
      assert (out, q.items) == Step(before, calls[i]);
      ghost var rest := Run(q.items, calls[i + 1..]).0;
      assert outs + ([out] + rest) == (outs + [out]) + rest;
      outs := outs + [out];
    }
    assert calls[|calls|..] == [];
  }

  /** `n` dequeue calls in a row. */
  function Dequeues<T>(n: nat): (calls: seq<Call<T>>)
    ensures |calls| == n && forall i :: 0 <= i < n ==> calls[i] == DequeueCall
  {
    seq(n, _ => DequeueCall)
  }

  /** Dequeuing as many times as there are elements hands them all out, head first, and empties the queue. */
  lemma {:induction false} DrainYieldsContents<T>(items: seq<T>)
    ensures |Run(items, Dequeues(|items|)).0| == |items|
    ensures forall i :: 0 <= i < |items| ==> Run(items, Dequeues(|items|)).0[i] == Some(items[i])
    ensures Run(items, Dequeues(|items|)).1 == []
    decreases |items|
  {
    if items != [] {
      DrainYieldsContents(items[1..]);
      assert Dequeues<T>(|items|)[1..] == Dequeues(|items| - 1);
    }
  }
}
