// GenericFIFO: a first-in first-out queue over a MyArrayList; every queue of the simulation is one.

class GenericFIFO<T(==)> {
  const data: MyArrayList<T>

  /** Every element ever enqueued, and every element ever dequeued, in order. */
  ghost var Enqueued: seq<T>
  ghost var Dequeued: seq<T>
  ghost var Repr: set<object>

  /** The object invariant: what is queued is exactly what was enqueued and not yet dequeued,
      so the n-th element dequeued is the n-th element enqueued. */
  ghost predicate Valid()
    reads this, Repr
  {
    data in Repr && Repr == {this} + data.Repr && this !in data.Repr &&
    data.Valid() && Enqueued == Dequeued + data.Elements
  }

  /** The queued elements, oldest first. */
  ghost function Contents(): seq<T>
    reads data
  {
    data.Elements
  }

  constructor ()
    ensures Valid() && fresh(Repr)
    ensures Contents() == [] && Enqueued == [] && Dequeued == []
  {
    data := new MyArrayList<T>();
    Enqueued, Dequeued := [], [];
    new;
    Repr := {this} + data.Repr;
  }

  method EnQueue(x: T)
    requires Valid()
    modifies Repr
    ensures Valid() && fresh(Repr - old(Repr))
    ensures Contents() == old(Contents()) + [x]
    ensures Enqueued == old(Enqueued) + [x] && Dequeued == old(Dequeued)
  {
    data.Add(x);
    Enqueued := Enqueued + [x];
    Repr := {this} + data.Repr;
  }

  /** Removes the oldest element; an empty queue yields null and is left as it is. */
  method DeQueue() returns (r: Option<T>)
    requires Valid()
    modifies Repr
    ensures Valid() && Repr == old(Repr)
    ensures old(Contents()) == [] ==> r == None && Contents() == old(Contents()) && Dequeued == old(Dequeued)
    ensures old(Contents()) != [] ==>
      r == Some(old(Contents())[0]) && Contents() == old(Contents())[1..] &&
      Dequeued == old(Dequeued) + [r.value] && r == Some(Enqueued[|old(Dequeued)|])
    ensures Enqueued == old(Enqueued)
  {
    var empty := IsEmpty();
    if empty {
      return None;
    }
    var first := data.RemoveFirst();
    Dequeued := Dequeued + [first.value];
    r := Some(first.value);
  }

  /** The oldest element without removing it, or the exception of MyArrayList.get(0) on an empty queue. */
  method Front() returns (r: Result<T>)
    requires Valid()
    ensures Contents() != [] ==> r == Ok(Contents()[0])
    ensures Contents() == [] ==> r == IndexOutOfBounds("Invalid index")
  {
    r := data.Get(0);
  }

  method IsEmpty() returns (empty: bool)
    requires Valid()
    ensures empty <==> Contents() == []
  {
    var n := data.Size();
    empty := n == 0;
  }

  /** The number of queued elements: those enqueued minus those dequeued. */
  method Size() returns (n: nat)
    requires Valid()
    ensures n == |Contents()| == |Enqueued| - |Dequeued|
  {
    n := data.Size();
  }
}
