/** pkg/types/safe_list.go: the locked list and its size-limited wrapper.
    Each method body below runs under one lock of the source, except where a
    method of the limited list calls two of them. */
module SafeLists {
  import opened Collections

  /** How many items PopBackN takes from a list of `len` items. */
  function PopCount(len: nat, n: int): (count: nat)
    requires n >= 0 || len == 0
    ensures count <= len
  {
    if len == 0 then 0 else Min(len, n)
  }

  class SafeList<T> {
    /** The linked list, front first: a push goes to index 0. */
    var L: seq<T>

    /** The list as a queue, oldest item first. */
    ghost function Fifo(): (q: seq<T>)
      reads this
      ensures |q| == |L|
    {
      Reverse(L)
    }

    constructor ()
      ensures Fifo() == []
    {
      L := [];
    }

    method PushFront(v: T)
      modifies this
      ensures Fifo() == old(Fifo()) + [v]
    {
      L := [v] + L;
    }

    method PushFrontN(vs: seq<T>)
      modifies this
      ensures Fifo() == old(Fifo()) + vs
    {
      for i := 0 to |vs|
        invariant Fifo() == old(Fifo()) + vs[..i]
      {
        L := [vs[i]] + L;
      }
    }

    /** L.Remove(L.Back()), on a list that has an element. */
    method RemoveBack() returns (item: T)
      requires L != []
      modifies this
      ensures old(Fifo()) == [item] + Fifo()
    {
      ReverseLast(L);
      item := L[|L| - 1];
      L := L[..|L| - 1];
    }

    method PopBack() returns (item: Option<T>)
      modifies this
      ensures old(Fifo()) == [] ==> item == None && Fifo() == []
      ensures old(Fifo()) != [] ==> item == Some(old(Fifo())[0]) && Fifo() == old(Fifo())[1..]
    {
      if |L| == 0 {
        return None;
      }
      var v := RemoveBack();
      item := Some(v);
    }

    /** A negative count on a non-empty list would size a slice negatively, which the runtime refuses. */
    method PopBackN(n: int) returns (items: seq<T>)
      requires n >= 0 || L == []
      modifies this
      ensures var count := PopCount(|old(Fifo())|, n);
              items == old(Fifo())[..count] && Fifo() == old(Fifo())[count..]
    {
      var count := |L|;
      if count == 0 {
        return [];
      }
      if count > n {
        count := n;
      }
      items := [];
      for i := 0 to count
        invariant |L| == |old(L)| - i
        invariant old(Fifo()) == items + Fifo()
        invariant |items| == i
      {
        var item := RemoveBack();
        items := items + [item];
      }
    }

    method PopBackAll() returns (items: seq<T>)
      modifies this
      ensures items == old(Fifo()) && Fifo() == []
    {
      var count := |L|;
      if count == 0 {
        return [];
      }
      items := [];
      for i := 0 to count
        invariant |L| == count - i
        invariant old(Fifo()) == items + Fifo()
      {
        var item := RemoveBack();
        items := items + [item];
      }
    }

    method RemoveAll()
      modifies this
      ensures Fifo() == []
    {
      L := [];
    }

    method Len() returns (size: nat)
      ensures size == |Fifo()|
    {
      size := |L|;
    }
  }

  class SafeListLimited<T> {
    const maxSize: int
    const SL: SafeList<T>

    constructor (maxSize: int)
      ensures this.maxSize == maxSize && fresh(SL) && SL.Fifo() == []
    {
      this.maxSize := maxSize;
      SL := new SafeList<T>();
    }

    method PushFront(v: T) returns (ok: bool)
      modifies SL
      ensures ok == (|old(SL.Fifo())| < maxSize)
      ensures SL.Fifo() == if ok then old(SL.Fifo()) + [v] else old(SL.Fifo())
    {
      var size := SL.Len();
      if size >= maxSize {
        return false;
      }
      SL.PushFront(v);
      return true;
    }

    /** Undisturbed, the check and the push act as one step; the module Pipeline
        lets other goroutines run between them. */
    method PushFrontN(vs: seq<T>) returns (ok: bool)
      modifies SL
      ensures ok == (|old(SL.Fifo())| < maxSize)
      ensures SL.Fifo() == if ok then old(SL.Fifo()) + vs else old(SL.Fifo())
    {
      var size := SL.Len();
      if size >= maxSize {
        return false;
      }
      SL.PushFrontN(vs);
      return true;
    }

    method PopBackN(n: int) returns (items: seq<T>)
      requires n >= 0 || SL.L == []
      modifies SL
      ensures var count := PopCount(|old(SL.Fifo())|, n);
              items == old(SL.Fifo())[..count] && SL.Fifo() == old(SL.Fifo())[count..]
    {
      items := SL.PopBackN(n);
    }

    method Len() returns (size: nat)
      ensures size == |SL.Fifo()|
    {
      size := SL.Len();
    }
  }
}
