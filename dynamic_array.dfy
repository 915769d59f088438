/** util::dynamic_array<T, N>: a vector of at most N elements kept in a fixed array. */
module BoundedArrays {
  import opened Wrappers

  class BoundedArray<T(0,==)> {
    /** N, the template argument. */
    const capacity: nat
    /** arr_, of which the first `size` slots are in use. */
    const arr: array<T>
    /** size_ */
    var size: nat

    ghost predicate Valid()
      reads this
    {
      arr.Length == capacity && size <= capacity
    }

    /** The elements in use, in order. */
    ghost function Contents(): seq<T>
      reads this, arr
      requires Valid()
    {
      arr[..size]
    }

    /** The default constructor: no elements. */
    constructor (n: nat)
      ensures Valid() && fresh(arr)
      ensures capacity == n && Contents() == []
    {
      capacity := n;
      arr := new T[n];
      size := 0;
    }

    /** The initializer-list constructor: copies the list in order; the list must fit. */
    constructor FromList(n: nat, il: seq<T>)
      requires |il| <= n
      ensures Valid() && fresh(arr)
      ensures capacity == n && Contents() == il
    {
      capacity := n;
      arr := new T[n];
      size := |il|;
      new;
      for i := 0 to |il|
        modifies arr
        invariant arr[..i] == il[..i]
      {
        arr[i] := il[i];
      }
    }

    predicate Full()
      reads this, arr
      requires Valid()
      ensures Full() <==> |Contents()| == capacity
    {
      size == capacity
    }

    predicate Empty()
      reads this, arr
      requires Valid()
      ensures Empty() <==> Contents() == []
    {
      size == 0
    }

    function Size(): (n: nat)
      reads this, arr
      requires Valid()
      ensures n == |Contents()| && n <= capacity
    {
      size
    }

    /** at(i): element i when i < size_, otherwise std::out_of_range. */
    function At(i: nat): (r: Result<T>)
      reads this, arr
      requires Valid()
      ensures r.Ok? <==> i < |Contents()|
      ensures r.Ok? ==> r.value == Contents()[i]
      ensures r.Err? ==> r.error == AtOutOfRange
    {
      if i >= size then Err(AtOutOfRange) else Ok(arr[i])
    }

    /** contains(m): some element in use equals m. */
    method Contains(m: T) returns (found: bool)
      requires Valid()
      ensures found <==> m in Contents()
    {
      for i := 0 to size
        invariant m !in arr[..i]
      {
        if m == arr[i] {
          assert arr[..size][i] == m;
          return true;
        }
      }
      return false;
    }

    /** find(m): the first index holding m, or size_ when there is none. */
    method Find(m: T) returns (k: nat)
      requires Valid()
      ensures k <= |Contents()|
      ensures k < |Contents()| ==> Contents()[k] == m
      ensures forall j :: 0 <= j < k ==> Contents()[j] != m
    {
      for i := 0 to size
        invariant forall j :: 0 <= j < i ==> arr[j] != m
      {
        if m == arr[i] {
          return i;
        }
      }
      return size;
    }

    /** push_back(m): asserts there is room, then stores m at index size_. */
    method PushBack(m: T)
      requires Valid() && size < capacity
      modifies this, arr
      ensures Valid() && size == old(size) + 1
      ensures Contents() == old(Contents()) + [m]
    {
      arr[size] := m;
      size := size + 1;
    }
  }
}
