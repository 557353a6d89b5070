/** MSyncAnnularQueue: a ring of nodes between `m_begin` and `m_end`.  One node always stays free,
    so a ring of capacity c holds c - 1 elements; pushing into a full ring drops the oldest.
    Every operation holds the queue's spin lock throughout, so it is one atomic step. */
module AnnularQueue {
  import opened Prelude

  /** The node after node `i`: the links that the constructor lays. */
  function Next(capacity: nat, i: nat): (next: nat)
    requires i < capacity
    ensures next < capacity
  {
    if i + 1 == capacity then 0 else i + 1
  }

  /** The node `k` links after node `i`. */
  function Along(capacity: nat, i: nat, k: nat): (node: nat)
    requires i < capacity && k <= capacity
    ensures node < capacity
  {
    if i + k < capacity then i + k else i + k - capacity
  }

  /** How many links lead from one node to another. */
  function Gap(capacity: nat, from: nat, to: nat): (gap: nat)
    requires from < capacity && to < capacity
    ensures gap < capacity && Along(capacity, from, gap) == to
  {
    if from <= to then to - from else to + capacity - from
  }

  /** The ring as a value: node contents, m_begin and m_end. */
  datatype Ring<T> = Ring(data: seq<T>, begin: nat, end: nat) {
    ghost predicate Valid() {
      begin < |data| && end < |data|
    }

    /** The elements held, oldest first. */
    ghost function Held(): (held: seq<T>)
      requires Valid()
      ensures |held| < |data|
    {
      seq(Gap(|data|, begin, end), i requires 0 <= i < Gap(|data|, begin, end) => data[Along(|data|, begin, i)])
    }

    ghost predicate Full()
      requires Valid()
    {
      |Held()| + 1 == |data|
    }
  }

  function Pushed<T>(r: Ring<T>, ele: T): (n: Ring<T>)
    requires r.begin < |r.data| && r.end < |r.data|
  {
    Ring(r.data[r.end := ele],
         if Next(|r.data|, r.end) == r.begin then Next(|r.data|, r.begin) else r.begin,
         Next(|r.data|, r.end))
  }

  function Popped<T>(r: Ring<T>): (n: Ring<T>)
    requires r.begin < |r.data| && r.end < |r.data|
  {
    if r.begin == r.end then r else r.(begin := Next(|r.data|, r.begin))
  }

  /** Pushing appends, and drops the oldest element of a full ring. */
  lemma PushedHeld<T>(r: Ring<T>, ele: T)
    requires r.Valid()
    ensures Pushed(r, ele).Valid()
    ensures Pushed(r, ele).Held() == if r.Full() then (r.Held() + [ele])[1..] else r.Held() + [ele]
  {
  }

  /** Popping drops the oldest element, if there is one. */
  lemma PoppedHeld<T>(r: Ring<T>)
    requires r.Valid()
    ensures Popped(r).Valid()
    ensures Popped(r).Held() == if r.Held() == [] then [] else r.Held()[1..]
  {
  }

  class MSyncAnnularQueue<T(0)> {
    var data: array<T>
    var begin: nat
    var end: nat

    ghost function AsRing(): Ring<T>
      reads this, data
    {
      Ring(data[..], begin, end)
    }

    ghost predicate Valid()
      reads this, data
    {
      AsRing().Valid()
    }

    constructor (capacity: nat)
      requires capacity > 0
      ensures Valid() && fresh(data) && data.Length == capacity
      ensures begin == 0 && end == 0
    {
      data := new T[capacity];
      begin, end := 0, 0;
    }

    method Push(ele: T)
      requires Valid()
      modifies this`begin, this`end, data
      ensures Valid() && AsRing() == Pushed(old(AsRing()), ele)
      ensures AsRing().Held() == if old(AsRing().Full()) then (old(AsRing().Held()) + [ele])[1..]
                                 else old(AsRing().Held()) + [ele]
    {
      PushedHeld(AsRing(), ele);
      if Next(data.Length, end) == begin {
        begin := Next(data.Length, begin);
      }
      data[end] := ele;
      end := Next(data.Length, end);
      assert data[..] == old(data[..])[old(end) := ele];
    }

    method Pop()
      requires Valid()
      modifies this`begin
      ensures Valid() && AsRing() == Popped(old(AsRing()))
      ensures AsRing().Held() == if old(AsRing().Held()) == [] then [] else old(AsRing().Held())[1..]
    {
      PoppedHeld(AsRing());
      if begin == end {
        return;
      }
      begin := Next(data.Length, begin);
    }

    /** A pointer to the oldest element, where it lies in the ring; None for null. */
    method Front() returns (node: Option<nat>)
      requires Valid()
      ensures node.None? <==> AsRing().Held() == []
      ensures node.Some? ==> node.value == begin && data[begin] == AsRing().Held()[0]
    {
      if begin == end {
        return None;
      }
      return Some(begin);
    }

    method Empty() returns (empty: bool)
      requires Valid()
      ensures empty <==> AsRing().Held() == []
    {
      empty := begin == end;
    }
  }
}
