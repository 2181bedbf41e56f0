/** `m2m::Vector`: a growing array refines a sequence, and its copies are paid for by its pushes. */
module Vectors {
  const MIN_CAPACITY := 1

  class Vector<T(0)> {
    var elements: array<T>
    var size: nat
    ghost var copied: nat
    ghost var peak: nat
    ghost var pushes: nat

    function Capacity(): (n: nat)
      reads this
    {
      elements.Length
    }

    ghost predicate Valid()
      reads this
    {
      size <= Capacity() && size <= peak
    }

    ghost function Contents(): (s: seq<T>)
      requires Valid()
      reads this, elements
    {
      elements[..size]
    }

    /** Copying stays below the capacity, and the capacity below twice the peak size. */
    ghost predicate Amortized()
      reads this
    {
      copied < Capacity() <= (if 2 * peak - 1 > 1 then 2 * peak - 1 else 1) && peak <= pushes
    }

    constructor (initSize: int)
      ensures Valid() && fresh(elements) && Contents() == []
      ensures Capacity() == if initSize >= MIN_CAPACITY then initSize else MIN_CAPACITY
      ensures initSize <= MIN_CAPACITY ==> Amortized()
      ensures copied == 0 && peak == 0 && pushes == 0
    {
      var capacity := if initSize >= MIN_CAPACITY then initSize else MIN_CAPACITY;
      elements := new T[capacity];
      size := 0;
      copied, peak, pushes := 0, 0, 0;
    }

    /** `reserve`: a smaller capacity than the size is ignored. */
    method Reserve(newCapacity: int)
      requires Valid() && newCapacity >= 0
      modifies this`elements, this`copied
      ensures Valid() && Contents() == old(Contents())
      ensures if newCapacity < size then elements == old(elements) && copied == old(copied)
              else fresh(elements) && Capacity() == newCapacity && copied == old(copied) + size
    {
      if newCapacity < size {
        return;
      }
      var oldArray := elements;
      var newArray := new T[newCapacity];
      for k := 0 to size
        invariant elements == oldArray && copied == old(copied)
        invariant forall j :: 0 <= j < k ==> newArray[j] == oldArray[j]
      {
        newArray[k] := oldArray[k];
      }
      assert newArray[..size] == oldArray[..size];
      elements := newArray;
      copied := copied + size;
    }

    method PushBack(x: T)
      requires Valid()
      modifies this, elements
      ensures Valid() && Contents() == old(Contents()) + [x]
      ensures elements == old(elements) || fresh(elements)
      ensures old(Amortized()) ==> Amortized()
      ensures pushes == old(pushes) + 1
    {
      ghost var before := Contents();
      if size == elements.Length {
        Reserve(2 * elements.Length + 1);
      }
      elements[size] := x;
      size := size + 1;
      if size > peak {
        peak := size;
      }
      pushes := pushes + 1;
      assert elements[..size] == before + [x];
    }

    method PopBack()
      requires Valid() && size > 0
      modifies this`size
      ensures Valid() && Contents() == old(Contents())[..old(size) - 1]
      ensures old(Amortized()) ==> Amortized()
    {
      size := size - 1;
    }

    method Clear()
      requires Valid()
      modifies this`size
      ensures Valid() && Contents() == []
      ensures old(Amortized()) ==> Amortized()
    {
      size := 0;
    }

    /** `erase`: a position past the end is ignored. */
    method Erase(position: nat)
      requires Valid()
      modifies this`size, elements
      ensures Valid()
      ensures var s := old(Contents());
              Contents() == if position < |s| then s[..position] + s[position + 1..] else s
      ensures old(Amortized()) ==> Amortized()
    {
      if position < size {
        ghost var s := Contents();
        var k := position;
        while k + 1 < size
          invariant size == old(size) && position <= k < size
          invariant forall j :: 0 <= j < position ==> elements[j] == s[j]
          invariant forall j :: position <= j < k ==> elements[j] == s[j + 1]
          invariant forall j :: k < j < size ==> elements[j] == s[j]
        {
          elements[k] := elements[k + 1];
          k := k + 1;
        }
        size := size - 1;
        assert elements[..size] == s[..position] + s[position + 1..];
      }
    }
  }

  datatype Op<T> = Push(x: T) | Pop | Erase(position: nat) | Clear

  /** The same operations on a plain sequence; popping an empty one is not allowed. */
  function Apply<T>(s: seq<T>, op: Op<T>): (contents: seq<T>) {
    match op
    case Push(x) => s + [x]
    case Pop => if s == [] then s else s[..|s| - 1]
    case Erase(p) => if p < |s| then s[..p] + s[p + 1..] else s
    case Clear => []
  }

  function ApplyAll<T>(ops: seq<Op<T>>): (s: seq<T>)
    decreases |ops|
  {
    if ops == [] then [] else Apply(ApplyAll(ops[..|ops| - 1]), ops[|ops| - 1])
  }

  predicate NoEmptyPop<T(!new)>(ops: seq<Op<T>>) {
    forall i :: 0 <= i < |ops| && ops[i].Pop? ==> ApplyAll(ops[..i]) != []
  }

  function Pushes<T>(ops: seq<Op<T>>): (n: nat)
    decreases |ops|
  {
    if ops == [] then 0 else Pushes(ops[..|ops| - 1]) + if ops[|ops| - 1].Push? then 1 else 0
  }

  /**
   * A default vector under any operations: it holds what the sequence holds, and after `n` pushes
   * fewer than `2 * n` elements have been copied.
   */
  method Use<T(0, !new)>(ops: seq<Op<T>>) returns (v: Vector<T>)
    requires NoEmptyPop(ops)
    ensures v.Valid() && v.Contents() == ApplyAll(ops)
    ensures v.copied < v.Capacity() <= (if 2 * v.peak - 1 > 1 then 2 * v.peak - 1 else 1)
    ensures Pushes(ops) > 0 ==> v.copied < 2 * Pushes(ops)
  {
    v := new Vector(MIN_CAPACITY);
    for i := 0 to |ops|
      invariant fresh(v) && fresh(v.elements)
      invariant v.Valid() && v.Contents() == ApplyAll(ops[..i]) && v.Amortized()
      invariant v.pushes == Pushes(ops[..i])
    {
      assert ops[..i + 1][..i] == ops[..i];
      match ops[i] {
        case Push(x) => v.PushBack(x);
        case Pop => v.PopBack();
        case Erase(p) => v.Erase(p);
        case Clear => v.Clear();
      }
    }
    assert ops[..|ops|] == ops;
  }
}
