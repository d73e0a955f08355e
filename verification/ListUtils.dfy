/**
 The list functions of lib/variables/Variables.cpp.  Indices may be negative and then count from
 the end; the range tests compare the absolute value of an index with the length.
 */
module ListUtils {
  /** A list changed, left alone, or the call ended in an exception or in undefined behaviour. */
  datatype Change<T> = Done(items: seq<T>) | Ignored | OutOfRange | Undefined

  /** An element, a null pointer, or an exception. */
  datatype Access<T> = Found(item: T) | Null | Throws

  function Abs(i: int): nat { if i < 0 then -i else i }

  /** A negative index counts from the end. */
  function Normal(length: nat, index: int): int { if index < 0 then length + index else index }

  function Inserted<T>(s: seq<T>, v: T, index: int): Change<T> {
    var i := Normal(|s|, index);
    if Abs(i) > |s| then OutOfRange
    else if i < 0 then Undefined
    else Done(s[..i] + [v] + s[i..])
  }

  function Removed<T>(s: seq<T>, index: int): Change<T> {
    if Abs(index) > |s| then Ignored
    else if Normal(|s|, index) >= |s| then Undefined
    else
      var i := Normal(|s|, index);
      Done(s[..i] + s[i + 1..])
  }

  function ElementAt<T>(s: seq<T>, index: int): Access<T> {
    if Abs(index) > |s| then Null
    else if Normal(|s|, index) >= |s| then Throws
    else Found(s[Normal(|s|, index)])
  }

  function Reversed<T>(s: seq<T>): seq<T> {
    seq(|s|, k requires 0 <= k < |s| => s[|s| - 1 - k])
  }

  class ListObj<T> {
    var items: seq<T>

    constructor (items: seq<T>)
      ensures this.items == items
    {
      this.items := items;
    }

    method PushBack(v: T)
      modifies this
      ensures items == old(items) + [v]
    {
      items := items + [v];
    }

    /** The insertion behind insert_at; the position past the end is allowed. */
    method InsertAt(v: T, index: int) returns (r: Change<T>)
      modifies this
      ensures r == Inserted(old(items), v, index)
      ensures items == if r.Done? then r.items else old(items)
    {
      var tempIndex := index;
      if tempIndex < 0 {
        tempIndex := |items| + tempIndex;
      }
      if Abs(tempIndex) > |items| {
        return OutOfRange;
      }
      if tempIndex < 0 {
        return Undefined;
      }
      items := items[..tempIndex] + [v] + items[tempIndex..];
      r := Done(items);
    }

    method RemoveAt(index: int) returns (r: Change<T>)
      modifies this
      ensures r == Removed(old(items), index)
      ensures items == if r.Done? then r.items else old(items)
    {
      var tempIndex := index;
      if Abs(tempIndex) > |items| {
        return Ignored;
      }
      if tempIndex < 0 {
        tempIndex := |items| + tempIndex;
      }
      if tempIndex >= |items| {
        return Undefined;
      }
      items := items[..tempIndex] + items[tempIndex + 1..];
      r := Done(items);
    }

    method GetAt(index: int) returns (r: Access<T>)
      ensures r == ElementAt(items, index)
    {
      var tempIndex := index;
      if Abs(tempIndex) > |items| {
        return Null;
      }
      if tempIndex < 0 {
        tempIndex := |items| + tempIndex;
      }
      r := if tempIndex < |items| then Found(items[tempIndex]) else Throws;
    }

    /** Exchange the elements from both ends inwards. */
    method Reverse()
      modifies this
      ensures items == Reversed(old(items))
    {
      var n := |items|;
      var i := 0;
      while i < n / 2
        invariant 0 <= i <= n / 2 && |items| == n
        invariant forall k :: 0 <= k < i ==> items[k] == old(items)[n - 1 - k]
        invariant forall k :: i <= k < n - i ==> items[k] == old(items)[k]
        invariant forall k :: n - i <= k < n ==> items[k] == old(items)[n - 1 - k]
      {
        var left, right := items[i], items[n - 1 - i];
        items := items[i := right];
        items := items[n - 1 - i := left];
        i := i + 1;
      }
    }

    /** Append the elements of another list, one by one: ExtendTask::run. */
    method Extend(elems: seq<T>)
      modifies this
      ensures items == old(items) + elems
    {
      for i := 0 to |elems|
        invariant items == old(items) + elems[..i]
      {
        PushBack(elems[i]);
        assert elems[..i + 1] == elems[..i] + [elems[i]];
      }
      assert elems[..|elems|] == elems;
    }
  }

  // -------------------------------------------------------------------- laws

  /** What insert_at does with an index of any size: the gap between the two range errors is undefined behaviour. */
  lemma {:induction false} InsertRange<T>(s: seq<T>, v: T, index: int)
    ensures Inserted(s, v, index).Done? <==> -|s| <= index <= |s|
    ensures Inserted(s, v, index).Undefined? <==> -2 * |s| <= index < -|s|
    ensures Inserted(s, v, index).OutOfRange? <==> index < -2 * |s| || |s| < index
  {
  }

  /** Removing and reading work for the same indices, and both fail at the length itself. */
  lemma {:induction false} AccessRange<T>(s: seq<T>, index: int)
    ensures ElementAt(s, index).Found? <==> -|s| <= index < |s|
    ensures ElementAt(s, index).Found? <==> Removed(s, index).Done?
    ensures ElementAt(s, index).Throws? <==> index == |s|
    ensures Removed(s, index).Undefined? <==> index == |s|
    ensures Removed(s, index).Ignored? <==> index < -|s| || |s| < index
    ensures ElementAt(s, index).Null? <==> index < -|s| || |s| < index
  {
  }

  /** An inserted element is found at the place its index stands for, and the others around it. */
  lemma {:induction false} InsertThenGet<T>(s: seq<T>, v: T, index: int, k: nat)
    requires -|s| <= index <= |s| && k <= |s|
    ensures Inserted(s, v, index).Done?
    ensures var i := Normal(|s|, index);
            ElementAt(Inserted(s, v, index).items, k)
            == Found(if k < i then s[k] else if k == i then v else s[k - 1])
  {
  }

  /** Removing at the index of an insertion, corrected for the longer list, undoes it. */
  lemma {:induction false} InsertThenRemove<T>(s: seq<T>, v: T, index: int)
    requires -|s| <= index <= |s|
    ensures Inserted(s, v, index).Done?
    ensures Removed(Inserted(s, v, index).items, if index >= 0 then index else index - 1) == Done(s)
  {
    var i := Normal(|s|, index);
    var longer := Inserted(s, v, index).items;
    assert longer[..i] == s[..i] && longer[i + 1..] == s[i..];
    assert s[..i] + s[i..] == s;
  }

  /** Reversing exchanges counting from the front and counting from the end, and is its own inverse. */
  lemma {:induction false} ReverseSwapsEnds<T>(s: seq<T>, index: int)
    requires -|s| <= index < |s|
    ensures ElementAt(Reversed(s), index) == ElementAt(s, -index - 1)
    ensures Reversed(Reversed(s)) == s
  {
    var k := Normal(|s|, index);
    assert Reversed(s)[k] == s[|s| - 1 - k];
  }
}
