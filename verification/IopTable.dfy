/** The file descriptor table: descriptors that are not open are threaded on a free list
    through their own `data1` fields. */
module IopTable {
  import opened Basics

  /** A link of the free list: an index into the table, or `NONE` for the NULL pointer. */
  const NONE: int := -1

  ghost predicate InTable(list: seq<int>, n: nat)
  {
    forall i :: 0 <= i < |list| ==> 0 <= list[i] < n
  }

  ghost function Indices(list: seq<int>): set<int>
  {
    set i | i in list
  }

  lemma {:induction false} NoRepeatsSize(list: seq<int>)
    requires NoRepeats(list)
    ensures |Indices(list)| == |list|
  {
    if list != [] {
      var n := |list| - 1;
      NoRepeatsSize(list[..n]);
      assert list == list[..n] + [list[n]];
      assert Indices(list) == Indices(list[..n]) + {list[n]};
    }
  }

  /** The descriptors of a table of size `n`. */
  ghost function UpTo(n: nat): (r: set<int>)
    ensures |r| == n && forall i :: i in r <==> 0 <= i < n
  {
    if n == 0 then {} else UpTo(n - 1) + {n - 1}
  }

  class Table {
    const data1: array<int>
    const open: array<bool>
    var freelist: int
    ghost var list: seq<int>

    /** The links from `freelist` spell `list`: descriptors of the table, each once, and
        exactly those that are not in use. */
    ghost predicate Valid()
      reads this, data1, open
    {
      && data1.Length == open.Length
      && InTable(list, data1.Length) && NoRepeats(list)
      && freelist == (if list == [] then NONE else list[0])
      && (forall i {:trigger data1[list[i]]} :: 0 <= i < |list| ==> data1[list[i]] == Follower(list, i, NONE))
      && (forall k :: 0 <= k < open.Length ==> (open[k] <==> k !in list))
    }

    ghost function OpenSet(): set<int>
      reads this, open
    {
      set k: int | 0 <= k < open.Length && open[k]
    }

    /** `rtems_libio_init`: all descriptors in table order. */
    constructor (n: nat)
      ensures Valid() && data1.Length == n && OpenSet() == {} && list == seq(n, i => i)
    {
      data1 := new int[n];
      open := new bool[n];
      freelist := NONE;
      list := seq(n, i => i);
      new;
      for k := 0 to n
        invariant forall j :: 0 <= j < k ==> !open[j]
        invariant list == seq(n, i => i) && freelist == NONE
      {
        open[k] := false;
      }
      if n > 0 {
        freelist := 0;
        var i := 0;
        while i + 1 < n
          invariant 0 <= i < n
          invariant forall j :: 0 <= j < i ==> data1[j] == j + 1
          invariant forall j :: 0 <= j < n ==> !open[j]
          invariant list == seq(n, i => i) && freelist == 0
        {
          data1[i] := i + 1;
          i := i + 1;
        }
        data1[i] := NONE;
      }
      forall k | 0 <= k < n ensures k in list { assert list[k] == k; }
    }

    /** Takes the first descriptor off the free list. */
    method TakeFirst() returns (iop: int)
      requires Valid() && freelist != NONE
      modifies this`freelist, this`list, data1, open
      ensures Valid() && 0 <= iop < open.Length && old(list) == [iop] + list
      ensures !old(open[iop]) && open[iop] && forall k :: 0 <= k < open.Length && k != iop ==> open[k] == old(open[k])
    {
      iop := freelist;
      ghost var was := list;
      assert iop == list[0] && iop in list && data1[iop] == Follower(list, 0, NONE);
      freelist := data1[iop];
      data1[iop] := NONE;   // the descriptor is cleared
      open[iop] := true;
      list := list[1..];
      assert was == [iop] + list;
      forall i | 0 <= i < |list| ensures data1[list[i]] == Follower(list, i, NONE) {
        assert list[i] == was[i + 1] && was[0] != was[i + 1];
        assert old(data1[was[i + 1]]) == Follower(was, i + 1, NONE);
      }
      forall k | 0 <= k < open.Length ensures open[k] <==> k !in list {
        assert k in was <==> k == iop || k in list;
      }
    }

    /** `rtems_libio_allocate`: fails exactly when every descriptor is open, else opens one
        that was not. */
    method Allocate() returns (iop: int)
      requires Valid()
      modifies this`freelist, this`list, data1, open
      ensures Valid()
      ensures iop == NONE <==> old(OpenSet()) == UpTo(open.Length)
      ensures iop == NONE ==> OpenSet() == old(OpenSet())
      ensures iop != NONE ==> iop !in old(OpenSet()) && OpenSet() == old(OpenSet()) + {iop}
      ensures old(list) == (if iop == NONE then [] else [iop]) + list
    {
      iop := NONE;
      if freelist == NONE {
        assert OpenSet() == UpTo(open.Length);
      } else {
        iop := TakeFirst();
        assert iop in UpTo(open.Length) && iop !in old(OpenSet());
      }
    }

    /** `rtems_libio_free` of a descriptor in use. */
    method Free(iop: int)
      requires Valid() && iop in OpenSet()
      modifies this, data1, open
      ensures Valid() && OpenSet() == old(OpenSet()) - {iop} && list == [iop] + old(list)
    {
      ghost var was := list;
      open[iop] := false;
      data1[iop] := freelist;
      freelist := iop;
      list := [iop] + list;
      forall i | 0 <= i < |list| ensures data1[list[i]] == Follower(list, i, NONE) {
        if i > 0 {
          assert list[i] == was[i - 1] && old(data1[was[i - 1]]) == Follower(was, i - 1, NONE);
        }
      }
      forall k | 0 <= k < open.Length ensures open[k] <==> k !in list {
        assert k in list <==> k == iop || k in was;
      }
    }

    /** `open_files`: the walk along the links ends, and tells how many are open. */
    method OpenFiles() returns (count: int)
      requires Valid()
      ensures count == |OpenSet()|
    {
      var free := 0;
      var iop := freelist;
      while iop != NONE
        invariant 0 <= free <= |list|
        invariant iop == if free < |list| then list[free] else NONE
        decreases |list| - free
      {
        assert data1[list[free]] == Follower(list, free, NONE);
        free := free + 1;
        iop := data1[iop];
      }
      count := data1.Length - free;
      ghost var all := UpTo(open.Length);
      NoRepeatsSize(list);
      assert OpenSet() == all - Indices(list);
      assert Indices(list) <= all;
    }
  }
}
