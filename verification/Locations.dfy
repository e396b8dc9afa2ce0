/** Reference-counted global file-system locations and the mounts they keep alive:
    what one release does, including the unmounts it sets off. */
module Locations {
  import opened Basics

  type Gid = nat   // a global location
  type Mid = nat   // a mount table entry, numbered in the order of mounting

  /** The null location and the null mount entry. */
  const NULL_LOCATION: Gid := 0
  const NULL_MOUNT: Mid := 0

  /** A node of a mount entry's location chain: a global location, or the location of an
      open file or of a path evaluation under way. */
  datatype Node = Global(g: Gid) | Local(l: nat)

  datatype Mount = Mount(mounted: bool, root: Gid, point: Option<Gid>)

  /** `handles` is the accounting that the reference counts stand for: every pointer to a
      location that some environment, path evaluation or running release has obtained.
      The root and mount point of a mount entry are counted by the entry itself. */
  datatype State = State(
    refs: map<Gid, int>,
    owner: map<Gid, Mid>,
    mounts: map<Mid, Mount>,
    chain: map<Mid, set<Node>>,
    handles: multiset<Gid>,
    freed: set<Gid>,
    gone: set<Mid>)

  /** The mount entries that hold `g` as their mount point. */
  ghost function Kids(mounts: map<Mid, Mount>, g: Gid): set<Mid>
  {
    set m | m in mounts && mounts[m].point == Some(g)
  }

  /** The reference of a file system's root that its mount entry keeps. */
  ghost function RootShareIn(owner: map<Gid, Mid>, mounts: map<Mid, Mount>, g: Gid): nat
  {
    if g in owner && owner[g] in mounts && mounts[owner[g]].root == g then 1 else 0
  }

  ghost function RootShare(st: State, g: Gid): nat
  {
    RootShareIn(st.owner, st.mounts, g)
  }

  /** What the mount entries and the outside hold of `g`. */
  ghost function Holders(st: State, g: Gid): nat
  {
    st.handles[g] + RootShare(st, g) + |Kids(st.mounts, g)|
  }

  /** A live location: counted exactly, on its mount's chain, not freed. */
  ghost predicate LocationOk(st: State, g: Gid)
  {
    g in st.refs ==>
    && g in st.owner && st.owner[g] in st.mounts && g !in st.freed
    && st.owner[g] in st.chain && Global(g) in st.chain[st.owner[g]]
    && st.refs[g] == Holders(st, g) > 0
  }

  /** A mount entry: its root is its own, its mount point belongs to an older mount, and
      without a mount point (the root file system) it is never unmounted. */
  ghost predicate MountOk(st: State, m: Mid)
  {
    m in st.mounts ==>
    var e := st.mounts[m];
    && e.root in st.refs && e.root in st.owner && st.owner[e.root] == m && m !in st.gone
    && (e.point.Some? ==> e.point.value in st.refs && e.point.value in st.owner)
    && (e.point.Some? && m != NULL_MOUNT ==> st.owner[e.point.value] < m)
    && (e.point.None? ==> e.mounted)
    && m in st.chain
  }

  ghost predicate HandleOk(st: State, g: Gid)
  {
    st.handles[g] > 0 ==> g in st.refs
  }

  ghost predicate ChainOk(st: State, m: Mid)
  {
    m in st.chain ==>
      && m in st.mounts
      && forall g :: Global(g) in st.chain[m] ==> g in st.refs && g in st.owner && st.owner[g] == m
  }

  /** Every location's count is exactly what is held of it, its node is on its mount's
      chain, and a mount sits on a location of an older mount. */
  ghost predicate Inv(st: State)
  {
    && (forall g {:trigger LocationOk(st, g)} :: LocationOk(st, g))
    && (forall g {:trigger HandleOk(st, g)} :: HandleOk(st, g))
    && (forall m {:trigger MountOk(st, m)} :: MountOk(st, m))
    && (forall m {:trigger ChainOk(st, m)} :: ChainOk(st, m))
    && NULL_MOUNT in st.mounts && st.mounts[NULL_MOUNT].root == NULL_LOCATION
    && st.mounts[NULL_MOUNT].point == Some(NULL_LOCATION)
  }

  /** The inline test in the locked regions: unmounted, one node left, root count one. */
  predicate ReadyIn(refs: map<Gid, int>, mounts: map<Mid, Mount>, chain: map<Mid, set<Node>>, m: Mid)
  {
    && m in mounts && !mounts[m].mounted && m in chain && |chain[m]| == 1
    && mounts[m].root in refs && refs[mounts[m].root] == 1
  }

  predicate Ready(st: State, m: Mid)
  {
    ReadyIn(st.refs, st.mounts, st.chain, m)
  }

  lemma KidCounts(mounts: map<Mid, Mount>, m: Mid, g: Gid)
    requires m in mounts && mounts[m].point == Some(g)
    ensures |Kids(mounts, g)| >= 1
  {
    assert Kids(mounts, g) == (Kids(mounts, g) - {m}) + {m};
  }

  /** The null location keeps its own entry's two references. */
  lemma NullStays(st: State)
    requires Inv(st)
    ensures NULL_LOCATION in st.refs && st.refs[NULL_LOCATION] >= 2
    ensures !Ready(st, NULL_MOUNT)
  {
    KidCounts(st.mounts, NULL_MOUNT, NULL_LOCATION);
    assert LocationOk(st, NULL_LOCATION) && MountOk(st, NULL_MOUNT);
  }

  /** Takes `n` references back and, when none is left, takes the location off its chain. */
  function Dropped(st: State, g: Gid, n: nat): State
    requires g in st.refs && g in st.owner && st.owner[g] in st.chain
    requires st.handles[g] >= n
  {
    var left := st.refs[g] - n;
    var handles := st.handles[g := st.handles[g] - n];
    var m := st.owner[g];
    if left != 0 then st.(refs := st.refs[g := left], handles := handles)
    else
      st.(refs := st.refs - {g}, handles := handles, freed := st.freed + {g},
          chain := st.chain[m := st.chain[m] - {Global(g)}])
  }

  lemma DroppedKeeps(st: State, g: Gid, n: nat)
    requires Inv(st) && n >= 1 && st.handles[g] >= n
    ensures g in st.refs && g in st.owner && st.owner[g] in st.chain && Inv(Dropped(st, g, n))
  {
    assert HandleOk(st, g) && LocationOk(st, g);
    assert MountOk(st, st.owner[g]);
    var s := Dropped(st, g, n);
    forall x ensures LocationOk(s, x) && HandleOk(s, x) {
      assert LocationOk(st, x) && HandleOk(st, x);
    }
    forall m ensures MountOk(s, m) && ChainOk(s, m) {
      assert MountOk(st, m) && ChainOk(st, m);
      if m in st.mounts && st.mounts[m].point == Some(g) { KidCounts(st.mounts, m, g); }
    }
  }

  /** `Dropped`, with what it keeps. */
  function Drop(st: State, g: Gid, n: nat): (s: State)
    requires Inv(st) && n >= 1 && st.handles[g] >= n
    ensures Inv(s) && s.handles == st.handles[g := st.handles[g] - n]
    ensures s.owner == st.owner && s.mounts == st.mounts && g in st.owner
  {
    DroppedKeeps(st, g, n);
    Dropped(st, g, n)
  }

  lemma SingletonOf<T>(s: set<T>, x: T)
    requires |s| == 1 && x in s
    ensures s == {x}
  {
    assert |s - {x}| == 0;
  }

  lemma KidsWith(mounts: map<Mid, Mount>, m: Mid, e: Mount, g: Gid)
    requires m !in mounts
    ensures |Kids(mounts[m := e], g)| == |Kids(mounts, g)| + if e.point == Some(g) then 1 else 0
  {
    assert Kids(mounts[m := e], g) == if e.point == Some(g) then Kids(mounts, g) + {m} else Kids(mounts, g);
  }

  lemma KidsWithout(mounts: map<Mid, Mount>, m: Mid, g: Gid)
    requires m in mounts
    ensures |Kids(mounts - {m}, g)| == |Kids(mounts, g)| - if mounts[m].point == Some(g) then 1 else 0
  {
    assert Kids(mounts - {m}, g) == Kids(mounts, g) - {m};
  }

  /** A ready mount is held by nobody: only its own root is left of it. */
  lemma ReadyIsUnheld(st: State, m: Mid, g: Gid)
    requires Inv(st) && Ready(st, m) && g in st.refs && g in st.owner && st.owner[g] == m
    ensures g == st.mounts[m].root && st.handles[g] == 0 && |Kids(st.mounts, g)| == 0
  {
    assert MountOk(st, m) && LocationOk(st, g) && LocationOk(st, st.mounts[m].root);
    SingletonOf(st.chain[m], Global(st.mounts[m].root));
  }

  /** Takes a mount entry and its root out; the mount point's reference is now owed. */
  function Detached(st: State, m: Mid): State
    requires m in st.mounts && st.mounts[m].point.Some?
  {
    st.(refs := st.refs - {st.mounts[m].root}, mounts := st.mounts - {m}, chain := st.chain - {m},
        gone := st.gone + {m}, handles := st.handles + multiset{st.mounts[m].point.value})
  }

  lemma DetachedKeeps(st: State, m: Mid)
    requires Inv(st) && Ready(st, m)
    ensures st.mounts[m].point.Some? && m != NULL_MOUNT && Inv(Detached(st, m))
    ensures st.mounts[m].point.value in st.owner && st.owner[st.mounts[m].point.value] < m
  {
    NullStays(st);
    assert MountOk(st, m);
    var s, root := Detached(st, m), st.mounts[m].root;
    ReadyIsUnheld(st, m, root);
    forall g ensures LocationOk(s, g) && HandleOk(s, g) {
      assert LocationOk(st, g) && HandleOk(st, g);
      KidsWithout(st.mounts, m, g);
      if g in s.refs && st.owner[g] == m { ReadyIsUnheld(st, m, g); }
    }
    forall k ensures MountOk(s, k) && ChainOk(s, k) {
      assert MountOk(st, k) && ChainOk(st, k);
      if k in st.mounts && st.mounts[k].point == Some(root) { KidCounts(st.mounts, k, root); }
    }
  }

  /** `Detached`, with what it keeps. */
  function Detach(st: State, m: Mid): (s: State)
    requires Inv(st) && Ready(st, m)
    ensures Inv(s) && s.owner == st.owner && st.mounts[m].point.Some?
    ensures s.handles == st.handles + multiset{st.mounts[m].point.value}
    ensures st.mounts[m].point.value in st.owner && st.owner[st.mounts[m].point.value] < m
  {
    DetachedKeeps(st, m);
    Detached(st, m)
  }

  /** A release of `n` references: count down, free at zero, and when that leaves the mount
      unmounted and unheld, take it out and release its mount point in turn. */
  function Release(st: State, g: Gid, n: nat): (s: State)
    requires Inv(st) && n >= 1 && st.handles[g] >= n
    ensures Inv(s) && s.handles == st.handles[g := st.handles[g] - n] && s.owner == st.owner
    ensures g in st.owner && s.freed <= st.freed + st.owner.Keys
    decreases if g in st.owner then st.owner[g] else 0
  {
    var s := Drop(st, g, n);
    var m := st.owner[g];
    if Ready(s, m) then Release(Detach(s, m), s.mounts[m].point.value, 1) else s
  }

  lemma {:induction false} ReleaseIs(st: State, g: Gid, n: nat)
    requires Inv(st) && n >= 1 && st.handles[g] >= n
    ensures g in st.owner
    ensures var d, m := Drop(st, g, n), st.owner[g];
            if Ready(d, m) then
              && m in d.mounts && d.mounts[m].point.Some? && Detach(d, m).handles[d.mounts[m].point.value] >= 1
              && Release(st, g, n) == Release(Detach(d, m), d.mounts[m].point.value, 1)
            else Release(st, g, n) == d
  {
    var d := Drop(st, g, n);
    var m := st.owner[g];
    if Ready(d, m) {
      DetachedKeeps(d, m);
      assert Detach(d, m).handles == d.handles + multiset{d.mounts[m].point.value};
    }
  }

  // ---------------------------------------------------------------- order does not matter

  lemma SameState(a: State, b: State)
    requires a.refs == b.refs && a.owner == b.owner && a.mounts == b.mounts && a.chain == b.chain
    requires a.handles == b.handles && a.freed == b.freed && a.gone == b.gone
    ensures a == b
  {
  }

  ghost predicate CanRelease(st: State, g: Gid, n: nat)
  {
    Inv(st) && st.handles[g] >= n >= 1
  }

  lemma DropsCommute(st: State, g: Gid, n: nat, h: Gid, k: nat)
    requires CanRelease(st, g, n) && CanRelease(st, h, k) && g != h
    ensures Drop(Drop(st, g, n), h, k) == Drop(Drop(st, h, k), g, n)
  {
    DroppedKeeps(st, g, n);
    DroppedKeeps(st, h, k);
    var a, b := Drop(Drop(st, g, n), h, k), Drop(Drop(st, h, k), g, n);
    assert a.refs == b.refs;
    forall m | m in st.chain ensures a.chain[m] == b.chain[m] {}
    SameState(a, b);
  }

  lemma DropsAdd(st: State, g: Gid, n: nat, k: nat)
    requires Inv(st) && n >= 1 && k >= 1 && st.handles[g] >= n + k
    ensures Drop(Drop(st, g, n), g, k) == Drop(st, g, n + k)
  {
    DroppedKeeps(st, g, n);
    assert LocationOk(st, g);
    var a, b := Drop(Drop(st, g, n), g, k), Drop(st, g, n + k);
    assert a.refs == b.refs;
    SameState(a, b);
  }

  /** While some location of the mount is still held, a drop does not make it ready. */
  lemma HeldIsNotReady(st: State, g: Gid, n: nat, h: Gid)
    requires CanRelease(st, g, n) && h in st.owner && g in st.owner && st.owner[h] == st.owner[g]
    requires Drop(st, g, n).handles[h] >= 1
    ensures !Ready(Drop(st, g, n), st.owner[g])
  {
    var s := Drop(st, g, n);
    assert HandleOk(s, h);
    if Ready(s, st.owner[g]) { ReadyIsUnheld(s, st.owner[g], h); assert false; }
  }

  /** Two releases on one mount commute. */
  lemma SameMountCommutes(st: State, g: Gid, n: nat, h: Gid, k: nat)
    requires CanRelease(st, g, n) && CanRelease(st, h, k) && g != h
    requires g in st.owner && h in st.owner && st.owner[g] == st.owner[h]
    ensures Release(Release(st, g, n), h, k) == Release(Release(st, h, k), g, n)
  {
    HeldIsNotReady(st, g, n, h);
    HeldIsNotReady(st, h, k, g);
    DropsCommute(st, g, n, h, k);
  }

  /** Two releases of one location are one release of the sum. */
  lemma ReleasesAdd(st: State, g: Gid, n: nat, k: nat)
    requires Inv(st) && n >= 1 && k >= 1 && st.handles[g] >= n + k
    ensures Release(Release(st, g, n), g, k) == Release(st, g, n + k)
  {
    assert g in Drop(st, g, n).owner;
    HeldIsNotReady(st, g, n, g);
    DropsAdd(st, g, n, k);
  }

  /** A drop on another mount leaves this one as ready as it was. */
  lemma OthersUntouched(st: State, h: Gid, k: nat, m: Mid)
    requires CanRelease(st, h, k) && h in st.owner && st.owner[h] != m
    ensures Ready(Drop(st, h, k), m) == Ready(st, m)
  {
    assert MountOk(st, m);
    DroppedKeeps(st, h, k);
  }

  lemma DroppedPastDetached(st: State, m: Mid, h: Gid, k: nat)
    requires m in st.mounts && st.mounts[m].point.Some? && h in st.refs && h != st.mounts[m].root
    requires h in st.owner && st.owner[h] in st.chain && st.owner[h] != m && st.handles[h] >= k
    ensures Dropped(Detached(st, m), h, k) == Detached(Dropped(st, h, k), m)
  {
    var a, b := Dropped(Detached(st, m), h, k), Detached(Dropped(st, h, k), m);
    assert a.refs == b.refs;
    assert a.chain == b.chain;
    assert a.handles == b.handles;
    SameState(a, b);
  }

  lemma DropPastDetach(st: State, m: Mid, h: Gid, k: nat)
    requires CanRelease(st, h, k) && Ready(st, m) && h in st.owner && st.owner[h] != m
    requires Ready(Drop(st, h, k), m)
    ensures Drop(Detach(st, m), h, k) == Detach(Drop(st, h, k), m)
  {
    DroppedKeeps(st, h, k);
    assert LocationOk(st, h) && MountOk(st, m);
    hide Inv, Ready, Dropped, Detached;
    DetachedKeeps(st, m);
    DroppedPastDetached(st, m, h, k);
  }

  /** A drop on a younger mount can be moved before a release on an older one. */
  lemma {:induction false} DropPastRelease(st: State, g: Gid, n: nat, h: Gid, k: nat)
    requires CanRelease(st, g, n) && CanRelease(st, h, k)
    requires g in st.owner && h in st.owner && st.owner[g] < st.owner[h]
    ensures Drop(Release(st, g, n), h, k) == Release(Drop(st, h, k), g, n)
    decreases st.owner[g]
  {
    var s, m := Drop(st, g, n), st.owner[g];
    DropsCommute(st, g, n, h, k);
    OthersUntouched(s, h, k, m);
    if Ready(s, m) {
      DropPastDetach(s, m, h, k);
      DropPastRelease(Detach(s, m), s.mounts[m].point.value, 1, h, k);
    }
  }

  lemma DetachesCommute(st: State, m: Mid, b: Mid)
    requires Inv(st) && Ready(st, m) && Ready(st, b) && m != b
    requires Ready(Detach(st, m), b) && Ready(Detach(st, b), m)
    ensures Detach(Detach(st, m), b) == Detach(Detach(st, b), m)
  {
    assert MountOk(st, m) && MountOk(st, b);
    var x, y := Detach(Detach(st, m), b), Detach(Detach(st, b), m);
    assert x.refs == y.refs;
    assert x.mounts == y.mounts;
    assert x.chain == y.chain;
    SameState(x, y);
  }

  lemma DetachLeavesReady(st: State, m: Mid, b: Mid)
    requires Inv(st) && Ready(st, m) && m != b
    ensures Ready(Detach(st, m), b) == Ready(st, b)
  {
    assert MountOk(st, m) && MountOk(st, b);
  }

  /** Taking out a ready mount can be moved before a release, which never comes across it. */
  lemma {:induction false} DetachPastRelease(st: State, g: Gid, n: nat, b: Mid)
    requires CanRelease(st, g, n) && Ready(st, b)
    ensures Ready(Release(st, g, n), b)
    ensures Detach(Release(st, g, n), b) == Release(Detach(st, b), g, n)
    decreases if g in st.owner then st.owner[g] else 0
  {
    NotOnReady(st, g, n, b);
    var s, m := Drop(st, g, n), st.owner[g];
    OthersUntouched(st, g, n, b);
    DropPastDetach(st, b, g, n);
    DetachLeavesReady(s, b, m);
    if Ready(s, m) {
      DetachLeavesReady(s, m, b);
      DetachesCommute(s, m, b);
      DetachPastRelease(Detach(s, m), s.mounts[m].point.value, 1, b);
    }
  }

  lemma NotOnReady(st: State, g: Gid, n: nat, b: Mid)
    requires CanRelease(st, g, n) && Ready(st, b)
    ensures g in st.owner && st.owner[g] != b
  {
    assert HandleOk(st, g) && LocationOk(st, g);
    if st.owner[g] == b { ReadyIsUnheld(st, b, g); assert false; }
  }

  /** A release on a younger mount commutes with one on an older mount. */
  lemma {:induction false} ReleasesCommute(st: State, g: Gid, n: nat, h: Gid, k: nat)
    requires CanRelease(st, g, n) && CanRelease(st, h, k) && (g == h ==> st.handles[g] >= n + k)
    ensures Release(Release(st, g, n), h, k) == Release(Release(st, h, k), g, n)
    decreases (if g in st.owner then st.owner[g] else 0) + (if h in st.owner then st.owner[h] else 0)
  {
    assert Release(st, g, n).owner == Release(st, h, k).owner == st.owner;
    if g == h {
      ReleasesAdd(st, g, n, k);
      ReleasesAdd(st, g, k, n);
    } else if st.owner[g] == st.owner[h] {
      SameMountCommutes(st, g, n, h, k);
    } else if st.owner[g] < st.owner[h] {
      YoungerCommutes(st, g, n, h, k);
    } else {
      YoungerCommutes(st, h, k, g, n);
    }
  }

  lemma {:induction false} YoungerCommutes(st: State, g: Gid, n: nat, h: Gid, k: nat)
    requires CanRelease(st, g, n) && CanRelease(st, h, k) && g != h
    requires g in st.owner && h in st.owner && st.owner[g] < st.owner[h]
    ensures Release(Release(st, g, n), h, k) == Release(Release(st, h, k), g, n)
    decreases st.owner[g] + st.owner[h], 0
  {
    hide Inv, Drop, Detach, Ready, Release;
    var s, b := Drop(st, h, k), st.owner[h];
    DropPastRelease(st, g, n, h, k);
    ReleaseIs(st, h, k);
    ReleaseIs(Release(st, g, n), h, k);
    if Ready(s, b) {
      DetachPastRelease(s, g, n, b);
      ReleasesCommute(Detach(s, b), g, n, s.mounts[b].point.value, 1);
    } else {
      ReleaseLeavesYounger(s, g, n, b);
    }
  }

  lemma {:induction false} ReleaseLeavesYounger(st: State, g: Gid, n: nat, b: Mid)
    requires CanRelease(st, g, n) && g in st.owner && st.owner[g] < b
    ensures Ready(Release(st, g, n), b) == Ready(st, b)
    decreases st.owner[g]
  {
    var s, m := Drop(st, g, n), st.owner[g];
    OthersUntouched(st, g, n, b);
    if Ready(s, m) {
      DetachLeavesReady(s, m, b);
      ReleaseLeavesYounger(Detach(s, m), s.mounts[m].point.value, 1, b);
    }
  }
}
