/** The location functions on the heap: reference counts in the locations, the deferred
    list threaded through them, and the mount entries with their location chains. */
module LocationTable {
  import opened Basics
  import opened Locations
  import opened DeferredRelease

  class GlobalLocation {
    const id: Gid
    var referenceCount: int
    var deferredNext: GlobalLocation?
    var deferredCount: nat

    constructor (id: Gid)
      ensures this.id == id && referenceCount == 1 && deferredNext == null && deferredCount == 0
    {
      this.id := id;
      referenceCount := 1;
      deferredNext := null;
      deferredCount := 0;
    }
  }

  lemma {:induction false} CountUpAt(list: seq<Entry>, i: nat)
    requires ListOk(list) && i < |list|
    ensures CountUp(list, list[i].g) == list[i := Entry(list[i].g, list[i].count + 1)]
  {
    var g := list[i].g;
    if i > 0 {
      CountUpAt(list[1..], i - 1);
      assert CountUp(list, g) == [list[0]] + CountUp(list[1..], g);
    }
  }

  class Table {
    var locs: map<Gid, GlobalLocation>
    var head: GlobalLocation?
    var owner: map<Gid, Mid>
    var mounts: map<Mid, Mount>
    var chain: map<Mid, set<Node>>
    ghost var list: seq<GlobalLocation>
    ghost var entries: seq<Entry>
    ghost var handles: multiset<Gid>
    ghost var freed: set<Gid>
    ghost var gone: set<Mid>

    ghost function Abs(): State
      reads this`locs, this`owner, this`mounts, this`chain, this`handles, this`freed, this`gone
      reads locs.Values`referenceCount
    {
      State(map g | g in locs :: locs[g].referenceCount, owner, mounts, chain, handles, freed, gone)
    }

    ghost predicate Known(loc: GlobalLocation)
      reads this`locs
    {
      loc.id in locs && locs[loc.id] == loc
    }

    /** `head` and the links spell `list`. */
    ghost predicate Linked()
      reads this`list, this`head, list`deferredNext
    {
      && head == (if list == [] then null else list[0])
      && forall i {:trigger list[i].deferredNext} :: 0 <= i < |list| ==> list[i].deferredNext == Follower(list, i, null)
    }

    /** `entries` is what the list says. */
    ghost predicate Listed()
      reads this`list, this`entries, list`deferredCount
    {
      && |entries| == |list| && ListOk(entries)
      && forall i :: 0 <= i < |list| ==> entries[i] == Entry(list[i].id, list[i].deferredCount)
    }

    /** The list holds known locations, and exactly those with a positive deferred count. */
    ghost predicate Indexed()
      reads this`locs, this`list, locs.Values`deferredCount
    {
      && (forall g :: g in locs ==> locs[g].id == g)
      && (forall i :: 0 <= i < |list| ==> Known(list[i]))
      && (forall g :: g in locs && locs[g] !in list ==> locs[g].deferredCount == 0)
    }

    ghost predicate Valid()
      reads this, list, locs.Values
    {
      Linked() && Listed() && Indexed() && Covers(Abs(), entries, [])
    }

    method PushDeferred(loc: GlobalLocation)
      requires Linked() && Listed() && Indexed() && Known(loc) && loc.deferredCount == 0
      modifies this`head, this`list, this`entries, loc`deferredNext, loc`deferredCount
      ensures Linked() && Listed() && Indexed()
      ensures entries == Defer(old(entries), loc.id)
    {
      hide ListOk, Defer, Owed;
      ghost var was := list;
      NotListed(loc);
      DeferOwed(entries, loc.id, loc.id);
      loc.deferredCount := 1;
      loc.deferredNext := head;
      head := loc;
      list, entries := [loc] + list, [Entry(loc.id, 1)] + entries;
      forall i | 0 <= i < |list| ensures list[i].deferredNext == Follower(list, i, null) && Known(list[i]) {
        if i > 0 {
          assert list[i] == was[i - 1] && Known(was[i - 1]);
          assert old(was[i - 1].deferredNext) == Follower(was, i - 1, null);
        }
      }
      forall g | g in locs && locs[g] !in list ensures locs[g].deferredCount == 0 {
        assert list[0] == loc && forall x :: x in was ==> x in list;
      }
    }

    lemma NotListed(loc: GlobalLocation)
      requires Listed() && Indexed() && Known(loc) && loc.deferredCount == 0
      ensures loc !in list && Defer(entries, loc.id) == [Entry(loc.id, 1)] + entries
    {
      forall i | 0 <= i < |list| ensures list[i] != loc && entries[i].g != loc.id {
        assert entries[i].count >= 1 && Known(list[i]);
      }
    }

    lemma HeadListedOnce()
      requires Listed() && list != []
      ensures ListOk(entries[1..]) && forall i :: 0 < i < |list| ==> list[i] != list[0]
    {
      forall i | 0 < i < |list| ensures list[i] != list[0] {
        assert entries[i].g != entries[0].g;
      }
    }

    /** Where a location with a positive deferred count is on the list. */
    lemma Place(loc: GlobalLocation) returns (k: nat)
      requires Listed() && Indexed() && Known(loc) && loc.deferredCount != 0
      ensures k < |list| && list[k] == loc && forall i :: 0 <= i < |list| && i != k ==> list[i] != loc
      ensures var r := entries[k := Entry(loc.id, loc.deferredCount + 1)]; r == Defer(entries, loc.id) && ListOk(r)
    {
      hide CountUp;
      k :| 0 <= k < |list| && list[k] == loc;
      CountUpAt(entries, k);
      CountUpListOk(entries, loc.id);
      assert entries[k].g == loc.id;
      forall i | 0 <= i < |list| && i != k ensures list[i] != loc {
        assert entries[i].g != entries[k].g;
      }
    }

    method CountDeferred(loc: GlobalLocation)
      requires Listed() && Indexed() && Known(loc) && loc.deferredCount != 0
      modifies this`entries, loc`deferredCount
      ensures Listed() && Indexed()
      ensures entries == Defer(old(entries), loc.id)
    {
      hide ListOk, Defer;
      ghost var k := Place(loc);
      loc.deferredCount := loc.deferredCount + 1;
      entries := entries[k := Entry(loc.id, loc.deferredCount)];
    }

    /** The release of a handle inside a critical section. */
    method DeferRelease(loc: GlobalLocation)
      requires Linked() && Listed() && Indexed() && Known(loc)
      modifies this`head, this`list, this`entries, loc`deferredNext, loc`deferredCount
      ensures Linked() && Listed() && Indexed()
      ensures entries == Defer(old(entries), loc.id)
    {
      if loc.deferredCount == 0 {
        PushDeferred(loc);
      } else {
        CountDeferred(loc);
      }
    }

    /** One locked region of the drain: the head leaves the list with its count. */
    method PopDeferred() returns (current: GlobalLocation?, count: nat)
      requires Linked() && Listed() && Indexed()
      modifies this`head, this`list, this`entries, locs.Values`deferredNext, locs.Values`deferredCount
      ensures Linked() && Listed() && Indexed()
      ensures current == null <==> old(entries) == []
      ensures current == null ==> entries == []
      ensures current != null ==>
        Known(current) && old(entries)[0] == Entry(current.id, count) && entries == old(entries)[1..]
      ensures current != null ==> current.deferredNext == null && current.deferredCount == 0
    {
      current, count := head, 0;
      if current != null {
        ghost var was := list;
        assert current.deferredNext == Follower(list, 0, null);
        HeadListedOnce();
        hide ListOk;
        head := current.deferredNext;
        count := current.deferredCount;
        current.deferredNext := null;
        current.deferredCount := 0;
        list, entries := list[1..], entries[1..];
        forall i | 0 <= i < |list| ensures list[i].deferredNext == Follower(list, i, null) {
          assert list[i] == was[i + 1] && old(was[i + 1].deferredNext) == Follower(was, i + 1, null);
        }
        assert Linked();
        forall i | 0 <= i < |list| ensures entries[i] == Entry(list[i].id, list[i].deferredCount) && Known(list[i]) {
          assert list[i] == was[i + 1] && Known(was[i + 1]);
        }
        assert Listed();
        forall g | g in locs && locs[g] !in list ensures locs[g].deferredCount == 0 {
          assert locs[g] == was[0] || locs[g] !in was;
        }
      }
    }

    ghost predicate Ids()
      reads this`locs
    {
      forall g :: g in locs ==> locs[g].id == g
    }

    /** The inline readiness test: a ready entry's chain is emptied in the same region. */
    method TestReady(m: Mid) returns (ready: bool)
      requires Ids() && m in mounts && m in chain && mounts[m].root in locs
      modifies this`chain
      ensures ready == Ready(old(Abs()), m)
      ensures chain == if ready then old(chain)[m := {}] else old(chain)
    {
      ready := !mounts[m].mounted && |chain[m]| == 1 && locs[mounts[m].root].referenceCount == 1;
      if ready {
        chain := chain[m := {}];
      }
    }

    method CountDown(loc: GlobalLocation, count: nat)
      requires Ids() && Known(loc) && handles[loc.id] >= count
      modifies loc`referenceCount, this`handles
      ensures Abs() == old(Abs()).(refs := old(Abs()).refs[loc.id := old(loc.referenceCount) - count],
                                   handles := old(handles)[loc.id := old(handles)[loc.id] - count])
      ensures loc.referenceCount == old(loc.referenceCount) - count
    {
      ghost var before := Abs();
      loc.referenceCount := loc.referenceCount - count;
      handles := handles[loc.id := handles[loc.id] - count];
      assert Abs().refs == before.refs[loc.id := loc.referenceCount];
    }

    /** Takes a location without references off its chain and frees it. */
    method TakeOff(loc: GlobalLocation)
      requires Ids() && Known(loc) && loc.id in owner && owner[loc.id] in chain
      modifies this`locs, this`chain, this`freed
      ensures Ids() && locs == old(locs) - {loc.id}
      ensures var m := owner[loc.id];
              Abs() == old(Abs()).(refs := old(Abs()).refs - {loc.id}, freed := old(freed) + {loc.id},
                                   chain := old(chain)[m := old(chain)[m] - {Global(loc.id)}])
    {
      var m := owner[loc.id];
      ghost var before := Abs();
      chain := chain[m := chain[m] - {Global(loc.id)}];
      locs := locs - {loc.id};
      freed := freed + {loc.id};
      assert Abs().refs == before.refs - {loc.id};
    }

    /** Takes out an entry found ready, whose chain is already empty, and releases its mount
        point. */
    method DoUnmount(m: Mid, ghost st: State)
      requires Ids() && Inv(st) && Ready(st, m) && Abs() == st.(chain := st.chain[m := {}])
      modifies this`locs, this`mounts, this`chain, this`handles, this`freed, this`gone, locs.Values`referenceCount
      ensures Detach(st, m).owner == st.owner
      ensures Abs() == Release(Detach(st, m), st.mounts[m].point.value, 1)
      ensures Ids() && locs.Keys <= old(locs.Keys) && forall g :: g in locs ==> locs[g] == old(locs)[g]
      decreases m, 0
    {
      DetachedKeeps(st, m);
      var e := mounts[m];
      ghost var after := Detach(st, m);
      mounts := mounts - {m};
      chain := chain - {m};
      locs := locs - {e.root};
      handles := handles + multiset{e.point.value};
      gone := gone + {m};
      assert Abs().refs == after.refs;
      assert Abs().chain == after.chain;
      SameState(Abs(), after);
      assert HandleOk(after, e.point.value);
      ReleaseWithCount(locs[e.point.value], 1);
    }

    /** `rtems_filesystem_location_free` for a location whose count is zero: off the chain,
        with the removal's own test. */
    method FreeLocation(loc: GlobalLocation, ghost dropped: State)
      requires Ids() && Known(loc) && loc.id in owner && owner[loc.id] in chain && Inv(dropped)
      requires var m := owner[loc.id];
               dropped == Abs().(refs := Abs().refs - {loc.id}, freed := freed + {loc.id},
                                 chain := chain[m := chain[m] - {Global(loc.id)}])
      modifies this`locs, this`mounts, this`chain, this`handles, this`freed, this`gone, locs.Values`referenceCount
      ensures Abs() == Settled(dropped, old(owner)[loc.id])
      ensures Ids() && locs.Keys <= old(locs.Keys) && forall g :: g in locs ==> locs[g] == old(locs)[g]
      decreases if loc.id in owner then owner[loc.id] else 0, 1
    {
      var m := owner[loc.id];
      TakeOff(loc);
      assert MountOk(dropped, m) && ChainOk(dropped, m);
      var ready := TestReady(m);
      if ready {
        DoUnmount(m, dropped);
      }
    }

    /** `release_with_count`: the region that counts down and tests, then the free with its
        own removal and test, then the unmount decided by the first test. */
    method ReleaseWithCount(loc: GlobalLocation, count: nat)
      requires Ids() && Known(loc) && Inv(Abs()) && count >= 1 && handles[loc.id] >= count
      modifies this`locs, this`mounts, this`chain, this`handles, this`freed, this`gone, locs.Values`referenceCount
      ensures Abs() == Release(old(Abs()), loc.id, count)
      ensures Ids() && locs.Keys <= old(locs.Keys) && forall g :: g in locs ==> locs[g] == old(locs)[g]
      decreases if loc.id in owner then owner[loc.id] else 0, 2
    {
      hide Inv, Release, Ready, Settled;
      ghost var before := Abs();
      ghost var dropped := Drop(before, loc.id, count);
      var m := owner[loc.id];
      ReleaseSettles(before, loc.id, count);
      FirstTestFindsNothingFreed(before, loc.id, count);
      CountDown(loc, count);
      var doFree := loc.referenceCount == 0;
      ghost var counted := Abs();
      assert loc.referenceCount != 0 ==> counted == dropped;
      var doUnmount := TestReady(m);
      assert Abs() == counted.(chain := if doUnmount then counted.chain[m := {}] else counted.chain);
      assert doFree ==> !doUnmount;
      SettledIs(dropped, m);
      if doFree {
        FreeLocation(loc, dropped);
      }
      if doUnmount {
        DoUnmount(m, dropped);
      }
    }

    /** Locations that are still owed a release are alive. */
    lemma ListedAreKnown(before: map<Gid, GlobalLocation>)
      requires Ids() && Listed() && Covers(Abs(), entries, [])
      requires forall i :: 0 <= i < |list| ==> list[i].id in before && before[list[i].id] == list[i]
      requires locs.Keys <= before.Keys && forall g :: g in locs ==> locs[g] == before[g]
      requires forall g :: g in before && before[g] !in list ==> before[g].deferredCount == 0
      ensures Indexed()
    {
      forall i | 0 <= i < |list| ensures Known(list[i]) {
        OwedAt(entries, i);
        assert HandleOk(Abs(), list[i].id);
      }
    }

    /** `deferred_release`: pops and releases until the list is empty. */
    method DrainDeferred()
      requires Valid()
      modifies this, locs.Values
      ensures Valid() && entries == [] && Abs() == Drain(old(Abs()), old(entries))
      ensures locs.Keys <= old(locs.Keys) && forall g :: g in locs ==> locs[g] == old(locs)[g]
    {
      var more := true;
      while more
        invariant Valid() && Drain(Abs(), entries) == Drain(old(Abs()), old(entries))
        invariant locs.Keys <= old(locs.Keys) && forall g :: g in locs ==> locs[g] == old(locs)[g]
        invariant !more ==> entries == []
        decreases |entries|, more
      {
        more := DrainOne();
      }
    }

    /** Releases what was popped; the list that is left stays in order. */
    method ReleasePopped(current: GlobalLocation, count: nat)
      requires Linked() && Listed() && Indexed() && Known(current)
      requires Inv(Abs()) && handles[current.id] >= count >= 1 && Covers(Release(Abs(), current.id, count), entries, [])
      modifies this`locs, this`mounts, this`chain, this`handles, this`freed, this`gone, locs.Values`referenceCount
      ensures Valid() && Abs() == Release(old(Abs()), current.id, count)
      ensures locs.Keys <= old(locs.Keys) && forall g :: g in locs ==> locs[g] == old(locs)[g]
    {
      hide Drain, Release, Covers, Owed, ListOk, Inv;
      ghost var before := locs;
      ReleaseWithCount(current, count);
      assert Linked() && Listed();
      ListedAreKnown(before);
    }

    method DrainOne() returns (more: bool)
      requires Valid()
      modifies this, locs.Values
      ensures Valid() && Drain(Abs(), entries) == Drain(old(Abs()), old(entries))
      ensures locs.Keys <= old(locs.Keys) && forall g :: g in locs ==> locs[g] == old(locs)[g]
      ensures if more then |entries| < |old(entries)| else entries == [] == old(entries)
    {
      hide Drain, Release, Covers, Owed, ListOk, Inv, Linked, Listed, Indexed;
      ghost var st, todo := Abs(), entries;
      var current, count := PopDeferred();
      assert Abs() == st;
      more := current != null;
      if current != null {
        DrainStep(st, todo);
        ReleasePopped(current, count);
      }
    }
  }

  /** What a drop sets off on its mount. */
  ghost function Settled(s: State, m: Mid): State
    requires Inv(s)
  {
    if Ready(s, m) then Release(Detach(s, m), s.mounts[m].point.value, 1) else s
  }

  lemma SettledIs(s: State, m: Mid)
    requires Inv(s)
    ensures if Ready(s, m) then
              && Detach(s, m).owner == s.owner
              && Settled(s, m) == Release(Detach(s, m), s.mounts[m].point.value, 1)
            else Settled(s, m) == s
  {
  }

  lemma ReleaseSettles(st: State, g: Gid, n: nat)
    requires Inv(st) && n >= 1 && st.handles[g] >= n
    ensures g in st.refs && g in st.owner && st.owner[g] in st.mounts && st.owner[g] in st.chain
    ensures st.mounts[st.owner[g]].root in st.refs
    ensures Release(st, g, n) == Settled(Drop(st, g, n), st.owner[g])
    ensures Drop(st, g, n) == Dropped(st, g, n)
  {
    DroppedKeeps(st, g, n);
    assert LocationOk(st, g) && MountOk(st, st.owner[g]);
  }

  /** When the count reaches zero the test in the same region finds the mount not ready. */
  lemma FirstTestFindsNothingFreed(st: State, g: Gid, n: nat)
    requires Inv(st) && n >= 1 && st.handles[g] >= n && g in st.refs && g in st.owner
    ensures var left := st.refs[g] - n;
            var s := st.(refs := st.refs[g := left], handles := st.handles[g := st.handles[g] - n]);
            left == 0 ==> !Ready(s, st.owner[g])
  {
    var m := st.owner[g];
    assert LocationOk(st, g) && MountOk(st, m) && LocationOk(st, st.mounts[m].root);
    if |st.chain[m]| == 1 { SingletonOf(st.chain[m], Global(g)); }
  }
}
