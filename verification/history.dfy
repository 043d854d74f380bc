/**
 The bounded histories behind the graphs (`CircularQueue`): the newest
 `capacity` values pushed, newest first.
 */
module History {
  import opened Seqs

  datatype Queue<T> = Queue(capacity: nat, items: seq<T>) {
    ghost predicate Valid() {
      |items| <= capacity
    }
  }

  /** `CircularQueue::with_capacity`. */
  function Empty<T>(capacity: nat): (q: Queue<T>)
    ensures q.Valid() && q.capacity == capacity && q.items == []
  {
    Queue(capacity, [])
  }

  /** `push`: the new value goes in front; the oldest drops out once full. */
  function Push<T>(q: Queue<T>, x: T): (r: Queue<T>)
    requires q.Valid()
    ensures r.Valid() && r.capacity == q.capacity
    ensures q.capacity > 0 ==> r.items == Take([x] + q.items, q.capacity)
    ensures q.capacity == 0 ==> r == q
  {
    if q.capacity == 0 then q
    else Queue(q.capacity, Take([x] + q.items, q.capacity))
  }

  function Reverse<T>(xs: seq<T>): (r: seq<T>)
    ensures |r| == |xs|
    ensures forall i :: 0 <= i < |xs| ==> r[i] == xs[|xs| - 1 - i]
  {
    if |xs| == 0 then [] else Reverse(xs[1..]) + [xs[0]]
  }

  /** Pushing `xs` in order, one at a time. */
  function PushAll<T>(q: Queue<T>, xs: seq<T>): (r: Queue<T>)
    requires q.Valid()
    ensures r.Valid() && r.capacity == q.capacity
    decreases |xs|
  {
    if |xs| == 0 then q else PushAll(Push(q, xs[0]), xs[1..])
  }

  /** After any pushes, the queue holds the newest values pushed, newest first, up to its capacity. */
  lemma {:induction false} PushAllKeepsNewest<T>(q: Queue<T>, xs: seq<T>)
    requires q.Valid()
    ensures PushAll(q, xs).items == Take(Reverse(xs) + q.items, q.capacity)
    decreases |xs|
  {
    if |xs| == 0 {
      assert Take(q.items, q.capacity) == q.items;
    } else {
      var p := Push(q, xs[0]);
      PushAllKeepsNewest(p, xs[1..]);
      var rest := Reverse(xs[1..]);
      assert Reverse(xs) == rest + [xs[0]];
      if q.capacity == 0 {
        assert Take(rest + p.items, 0) == [];
      } else {
        var all := rest + [xs[0]] + q.items;
        assert rest + p.items == rest + Take([xs[0]] + q.items, q.capacity);
        assert Take(rest + Take([xs[0]] + q.items, q.capacity), q.capacity) == Take(all, q.capacity);
      }
    }
  }

  lemma HistoryExample()
    ensures PushAll(Empty<int>(3), [10, 20, 90, 5]).items == [5, 90, 20]
  {
    PushAllKeepsNewest(Empty<int>(3), [10, 20, 90, 5]);
    assert Reverse([10, 20, 90, 5]) == [5, 90, 20, 10];
  }
}
