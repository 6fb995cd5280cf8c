// MyArrayList: the hand-written growable array that every queue and list of the simulation uses.

/** The length of the array a new or cleared list starts with. */
const InitialCapacity := 10

class MyArrayList<T(==)> {
  /** The abstract value: the stored elements, in index order. */
  ghost var Elements: seq<T>
  ghost var Repr: set<object>

  /** The backing array; a slot holding None is a Java null. */
  var data: array<Option<T>>
  var size: nat

  /** The object invariant: the first size slots hold the elements, the rest are null. */
  ghost predicate Valid()
    reads this, Repr
  {
    Repr == {this, data} &&
    InitialCapacity <= data.Length && size <= data.Length && |Elements| == size &&
    (forall i :: 0 <= i < size ==> data[i] == Some(Elements[i])) &&
    (forall i :: size <= i < data.Length ==> data[i] == None)
  }

  constructor ()
    ensures Valid() && fresh(Repr)
    ensures Elements == [] && data.Length == InitialCapacity
  {
    data := new Option<T>[InitialCapacity](_ => None);
    size := 0;
    Elements := [];
    Repr := {this, data};
  }

  /** Appends value, doubling the backing array first when it is full. */
  method Add(value: T)
    requires Valid()
    modifies Repr
    ensures Valid() && fresh(Repr - old(Repr))
    ensures Elements == old(Elements) + [value]
    ensures data.Length == if |old(Elements)| == old(data.Length) then 2 * old(data.Length) else old(data.Length)
  {
    if size == data.Length {
      Resize();
    }
    data[size] := Some(value);
    size := size + 1;
    Elements := Elements + [value];
  }

  /** Removes and returns the first element, shifting the others one slot to the left. */
  method RemoveFirst() returns (r: Result<T>)
    requires Valid()
    modifies Repr
    ensures Valid() && Repr == old(Repr) && data.Length == old(data.Length)
    ensures old(Elements) == [] ==> r == IndexOutOfBounds("List is empty") && Elements == old(Elements)
    ensures old(Elements) != [] ==> r == Ok(old(Elements)[0]) && Elements == old(Elements)[1..]
  {
    if size == 0 {
      return IndexOutOfBounds("List is empty");
    }
    var first := data[0];
    var i := 1;
    while i < size
      modifies data
      invariant 1 <= i <= size
      invariant forall k :: 0 <= k < i - 1 ==> data[k] == Some(Elements[k + 1])
      invariant forall k :: i - 1 <= k < data.Length ==> data[k] == old(data[k])
    {
      data[i - 1] := data[i];
      i := i + 1;
    }
    size := size - 1;
    data[size] := None;
    Elements := Elements[1..];
    r := Ok(first.value);
  }

  /** The element at index, or the exception thrown for an index outside [0, size). */
  method Get(index: int) returns (r: Result<T>)
    requires Valid()
    ensures 0 <= index < |Elements| ==> r == Ok(Elements[index])
    ensures !(0 <= index < |Elements|) ==> r == IndexOutOfBounds("Invalid index")
  {
    if index < 0 || index >= size {
      return IndexOutOfBounds("Invalid index");
    }
    r := Ok(data[index].value);
  }

  method Size() returns (n: nat)
    requires Valid()
    ensures n == |Elements|
  {
    n := size;
  }

  /** Replaces the backing array by one twice as long holding the same slots. */
  method Resize()
    requires Valid()
    modifies this
    ensures Valid() && fresh(data) && fresh(Repr - old(Repr))
    ensures data.Length == 2 * old(data.Length)
    ensures Elements == old(Elements) && size == old(size)
  {
    var newData := new Option<T>[data.Length * 2](_ => None);
    var i := 0;
    while i < data.Length
      modifies newData
      invariant 0 <= i <= data.Length
      invariant forall k :: 0 <= k < i ==> newData[k] == data[k]
      invariant forall k :: i <= k < newData.Length ==> newData[k] == None
    {
      newData[i] := data[i];
      i := i + 1;
    }
    data := newData;
    Repr := {this, data};
  }

  /** A linear search of the stored elements. */
  method Query(o: T) returns (found: bool)
    requires Valid()
    ensures found <==> o in Elements
  {
    var i := 0;
    while i < size
      invariant 0 <= i <= size
      invariant forall k :: 0 <= k < i ==> Elements[k] != o
    {
      if data[i].value == o {
        return true;
      }
      i := i + 1;
    }
    return false;
  }

  /** Empties the list and starts again from a fresh array of the initial capacity. */
  method Clear()
    requires Valid()
    modifies this
    ensures Valid() && fresh(data) && fresh(Repr - old(Repr))
    ensures Elements == [] && data.Length == InitialCapacity
  {
    size := 0;
    data := new Option<T>[InitialCapacity](_ => None);
    Elements := [];
    Repr := {this, data};
  }

  /** The first half of the class's own test: eleven adds, one more than the initial capacity. */
  static method SelfTestFill() returns (list: MyArrayList<int>)
    ensures list.Valid() && fresh(list.Repr)
    ensures list.Elements == [1, 2, 3, 4, 5, 6, 7, 8, 9, 10, 11]
    ensures list.data.Length == 2 * InitialCapacity
  {
    list := new MyArrayList<int>();
    list.Add(1); list.Add(2); list.Add(3); list.Add(4); list.Add(5);
    list.Add(6); list.Add(7); list.Add(8); list.Add(9); list.Add(10);
    assert list.Elements == [1, 2, 3, 4, 5, 6, 7, 8, 9, 10];
    // the eleventh add finds the array full and doubles it
    list.Add(11);
  }

  /** The class's own test: after eleven adds the size is 11 and 11 is found but 12 is not;
      after a clear the size is 0 and 3 is not found. */
  static method SelfTest() returns (count: nat, capacity: nat, has11: bool, has12: bool, countCleared: nat, has3: bool)
    ensures count == 11 && capacity == 2 * InitialCapacity && has11 && !has12
    ensures countCleared == 0 && !has3
  {
    var list := SelfTestFill();
    count := list.Size();
    capacity := list.data.Length;
    has11 := list.Query(11);
    has12 := list.Query(12);
    list.Clear();
    countCleared := list.Size();
    has3 := list.Query(3);
  }
}
