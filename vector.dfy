/** The ownership and lifecycle part of the dynamic array s21::s21_vector<T>:
    its owned buffer, live element count and allocated length, the five
    constructors, the destructor and the move assignment. */
module S21 {
  import opened Algorithms

  /** A dynamic array that exclusively owns its buffer. Slots [0, size) hold
      the live elements; slots [size, capacity) are allocated but not live.
      T(0): `new T[n]` stands for `new value_type[n]`, whose slots start out
      default-initialised with values this model does not name. */
  class Vector<T(0)> {
    var data: array?<T>
    var size: nat
    var capacity: nat

    /** The object invariant: no buffer means nothing allocated and nothing
        live; a buffer is exactly capacity long and holds the live prefix. */
    ghost predicate Valid()
      reads this
    {
      (data == null ==> size == 0 && capacity == 0) &&
      (data != null ==> data.Length == capacity && size <= capacity)
    }

    /** The live elements, in order: the view data[..size]. */
    ghost function Contents(): (s: seq<T>)
      requires Valid()
      reads this, data
      ensures |s| == size
      ensures forall i :: 0 <= i < size ==> data != null && s[i] == data[i]
    {
      if data == null then [] else data[..size]
    }

    /** s21_vector(): no buffer, nothing live, nothing allocated. */
    constructor ()
      ensures Valid()
      ensures data == null && size == 0 && capacity == 0
      ensures Contents() == []
    {
      size := 0;
      capacity := 0;
      data := null;
    }

    /** s21_vector(n): a fresh buffer of exactly n slots, all n of them live
        and equal to the element default value def. */
    constructor Sized(n: nat, def: T)
      ensures Valid() && fresh(data)
      ensures data != null && size == n && capacity == n
      ensures Contents() == Repeat(def, n)
    {
      size := n;
      capacity := n;
      data := new T[n];
      new;
      FillN(data, n, def);
    }

    /** s21_vector(const s21_vector &v): a deep copy. The fresh buffer is as
        long as v's capacity (not its size), the live elements are v's in
        the same order, and v is left as it was. */
    constructor Copy(v: Vector<T>)
      requires v.Valid()
      ensures Valid() && fresh(data)
      ensures data != null && size == v.size && capacity == v.capacity
      ensures Contents() == v.Contents()
      ensures v.Valid() && v.Contents() == old(v.Contents())
    {
      data := new T[v.capacity];
      size := v.size;
      capacity := v.capacity;
      new;
      if v.data != null {
        CopyN(v.data[..v.size], data);
      }
    }

    /** s21_vector(std::initializer_list<T>): a fresh buffer holding exactly
        the items, in order, with no spare slots. */
    constructor FromList(items: seq<T>)
      ensures Valid() && fresh(data)
      ensures data != null && size == |items| && capacity == |items|
      ensures Contents() == items
    {
      size := |items|;
      capacity := |items|;
      data := new T[|items|];
      new;
      CopyN(items, data);
    }

    /** s21_vector(s21_vector &&v): takes over v's buffer, size and capacity
        as they are, and leaves v with no buffer, size 0 and capacity 0. */
    constructor Move(v: Vector<T>)
      requires v.Valid()
      modifies v
      ensures Valid() && v.Valid()
      ensures data == old(v.data) && size == old(v.size) && capacity == old(v.capacity)
      ensures Contents() == old(v.Contents())
      ensures v.data == null && v.size == 0 && v.capacity == 0
    {
      data := v.data;
      v.data := null;
      size := v.size;
      v.size := 0;
      capacity := v.capacity;
      v.capacity := 0;
    }

    /** ~s21_vector(): releases the buffer (here: drops the reference) and
        leaves size and capacity 0. */
    method Destroy()
      modifies this
      ensures Valid()
      ensures data == null && size == 0 && capacity == 0
    {
      size := 0;
      capacity := 0;
      data := null;
    }

    /** operator=(s21_vector &&v): moving a vector into itself changes
        nothing. Otherwise this vector's own buffer is released, this vector
        takes over v's buffer, size and capacity, and v is left with no
        buffer, size 0 and capacity 0. */
    method MoveAssign(v: Vector<T>)
      requires Valid() && v.Valid()
      modifies this, v
      ensures Valid() && v.Valid()
      ensures this == v ==>
        data == old(data) && size == old(size) && capacity == old(capacity)
      ensures this != v ==>
        data == old(v.data) && size == old(v.size) && capacity == old(v.capacity) &&
        Contents() == old(v.Contents())
      ensures this != v ==> v.data == null && v.size == 0 && v.capacity == 0
    {
      if this != v {
        data := null;  // delete[] data_: the old buffer is released

        data := v.data;
        size := v.size;
        capacity := v.capacity;

        v.data := null;
        v.size := 0;
        v.capacity := 0;
      }
    }
  }

  /** Deep-copy isolation: copy v, then overwrite slot i of the copy. The
      copy then holds v's elements with slot i replaced, while v (which this
      method may not modify) still holds its own elements. */
  method CopyThenWrite<T(0)>(v: Vector<T>, i: nat, x: T) returns (w: Vector<T>)
    requires v.Valid() && i < v.size
    ensures w.Valid() && w.data != v.data
    ensures w.size == v.size && w.capacity == v.capacity
    ensures w.Contents() == v.Contents()[i := x]
    ensures v.Contents() == old(v.Contents())
  {
    w := new Vector.Copy(v);
    w.data[i] := x;
  }

  /** Move-constructing from a copy of v: the result holds v's elements in
      order with v's capacity, in a buffer of its own, and the moved-from
      copy is left empty. */
  method MoveOutOfCopy<T(0)>(v: Vector<T>) returns (w: Vector<T>, moved: Vector<T>)
    requires v.Valid()
    ensures w.Valid() && moved.Valid()
    ensures w.Contents() == v.Contents() && w.capacity == v.capacity
    ensures w.data != v.data
    ensures moved.data == null && moved.size == 0 && moved.capacity == 0
  {
    moved := new Vector.Copy(v);
    w := new Vector.Move(moved);
  }

  /** Move-assigning a copy of v onto a sized vector: the target's own
      n-slot buffer is given up, the target ends with v's elements and
      capacity, and the source of the move is left empty. */
  method MoveAssignOntoSized<T(0)>(v: Vector<T>, n: nat, def: T) returns (target: Vector<T>, source: Vector<T>)
    requires v.Valid()
    ensures target.Valid() && source.Valid() && target != source
    ensures target.Contents() == v.Contents() && target.capacity == v.capacity
    ensures source.data == null && source.size == 0 && source.capacity == 0
  {
    target := new Vector.Sized(n, def);
    source := new Vector.Copy(v);
    target.MoveAssign(source);
  }
}
