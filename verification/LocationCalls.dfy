/** The other calls on global locations as whole steps, and their order against releases. */
module LocationCalls {
  import opened Basics
  import opened Locations
  import opened DeferredRelease

  /** What a call does to the state when it sets nothing off: it counts a location up, puts a
      new location on a mount's chain, puts a path evaluation's location on or takes it off,
      marks an entry as unmounted, or mounts a file system on a location that is held. */
  datatype Edit =
    | Count(r: Gid)
    | Create(m: Mid, g: Gid)
    | Copy(m: Mid, l: nat)
    | Remove(m: Mid, l: nat)
    | Mark(m: Mid)
    | MountAt(m: Mid, root: Gid, point: Option<Gid>)

  ghost predicate Handled(st: State, m: Mid)
  {
    exists g :: g in st.owner && st.owner[g] == m && st.handles[g] >= 1
  }

  /** The mount stays: it is mounted, or somebody has a handle on it, or it is the null one. */
  ghost predicate Firm(st: State, m: Mid)
  {
    m in st.mounts && (m == NULL_MOUNT || st.mounts[m].mounted || Handled(st, m))
  }

  /** The caller has what it needs: a location or a mount that stays, and new names. */
  ghost predicate Fits(st: State, e: Edit)
  {
    match e
    case Count(r) =>
      && r in st.refs && r in st.owner && st.owner[r] in st.mounts
      && (st.mounts[st.owner[r]].mounted || st.owner[r] == NULL_MOUNT)
    case Create(m, g) => Firm(st, m) && g !in st.owner && g !in st.freed
    case Copy(m, _) => Firm(st, m)
    case Remove(m, _) => Firm(st, m)
    case Mark(m) => m in st.mounts && m != NULL_MOUNT && st.mounts[m].point.Some? && Handled(st, m)
    case MountAt(m, root, point) =>
      && m !in st.mounts && m !in st.gone && m != NULL_MOUNT && root !in st.owner && root !in st.freed
      && (point.Some? ==> point.value in st.owner && st.owner[point.value] < m && st.handles[point.value] >= 1)
  }

  function Refs(refs: map<Gid, int>, e: Edit): map<Gid, int>
    requires e.Count? ==> e.r in refs
  {
    match e
    case Count(r) => refs[r := refs[r] + 1]
    case Create(_, g) => refs[g := 1]
    case MountAt(_, root, _) => refs[root := 1]
    case _ => refs
  }

  function Mounts(mounts: map<Mid, Mount>, e: Edit): map<Mid, Mount>
    requires e.Mark? ==> e.m in mounts
  {
    match e
    case Mark(m) => mounts[m := mounts[m].(mounted := false)]
    case MountAt(m, root, point) => mounts[m := Mount(true, root, point)]
    case _ => mounts
  }

  function Chains(chain: map<Mid, set<Node>>, e: Edit): map<Mid, set<Node>>
    requires e.Create? || e.Copy? || e.Remove? ==> e.m in chain
  {
    match e
    case Create(m, g) => chain[m := chain[m] + {Global(g)}]
    case Copy(m, l) => chain[m := chain[m] + {Local(l)}]
    case Remove(m, l) => chain[m := chain[m] - {Local(l)}]
    case MountAt(m, root, _) => chain[m := {Global(root)}]
    case _ => chain
  }

  function Handles(handles: multiset<Gid>, e: Edit): multiset<Gid>
  {
    match e
    case Count(r) => handles + multiset{r}
    case Create(_, g) => handles + multiset{g}
    case MountAt(_, _, point) => if point.Some? then handles - multiset{point.value} else handles
    case _ => handles
  }

  function Owners(owner: map<Gid, Mid>, e: Edit): map<Gid, Mid>
  {
    match e
    case Create(m, g) => owner[g := m]
    case MountAt(m, root, _) => owner[root := m]
    case _ => owner
  }

  function Edited(st: State, e: Edit): State
    requires e.Count? ==> e.r in st.refs
    requires e.Create? || e.Copy? || e.Remove? ==> e.m in st.chain
    requires e.Mark? ==> e.m in st.mounts
  {
    State(Refs(st.refs, e), Owners(st.owner, e), Mounts(st.mounts, e), Chains(st.chain, e), Handles(st.handles, e),
          st.freed, st.gone)
  }

  // ------------------------------------------------------------------ the accounts

  lemma OnChain(st: State, m: Mid)
    requires Inv(st) && m in st.mounts
    ensures m in st.chain && MountOk(st, m)
  {
    assert MountOk(st, m);
  }

  lemma CountKeeps(st: State, r: Gid)
    requires Inv(st) && r in st.refs
    ensures Inv(Edited(st, Count(r)))
  {
    var s := Edited(st, Count(r));
    forall g ensures LocationOk(s, g) && HandleOk(s, g) { assert LocationOk(st, g) && HandleOk(st, g); }
    forall m ensures MountOk(s, m) && ChainOk(s, m) { assert MountOk(st, m) && ChainOk(st, m); }
  }

  lemma NoKids(st: State, g: Gid)
    requires Inv(st) && g !in st.owner
    ensures Kids(st.mounts, g) == {} && st.handles[g] == 0 && g !in st.refs
  {
    assert LocationOk(st, g) && HandleOk(st, g);
    forall m | m in st.mounts ensures st.mounts[m].point != Some(g) { assert MountOk(st, m); }
  }

  lemma CreateKeeps(st: State, m: Mid, g: Gid)
    requires Inv(st) && m in st.mounts && m in st.chain && g !in st.owner && g !in st.freed
    ensures Inv(Edited(st, Create(m, g)))
  {
    NoKids(st, g);
    OnChain(st, m);
    var s := Edited(st, Create(m, g));
    forall x ensures LocationOk(s, x) && HandleOk(s, x) { assert LocationOk(st, x) && HandleOk(st, x); }
    forall k ensures MountOk(s, k) && ChainOk(s, k) { assert MountOk(st, k) && ChainOk(st, k); }
  }

  lemma NodeKeeps(st: State, e: Edit)
    requires Inv(st) && (e.Copy? || e.Remove?) && e.m in st.chain
    ensures Inv(Edited(st, e))
  {
    var s := Edited(st, e);
    forall g ensures LocationOk(s, g) && HandleOk(s, g) { assert LocationOk(st, g) && HandleOk(st, g); }
    forall m ensures MountOk(s, m) && ChainOk(s, m) { assert MountOk(st, m) && ChainOk(st, m); }
  }

  lemma MarkKeeps(st: State, e: Edit)
    requires Inv(st) && Fits(st, e) && e.Mark?
    ensures Inv(Edited(st, e))
  {
    var s := Edited(st, e);
    forall g ensures LocationOk(s, g) && HandleOk(s, g) {
      assert LocationOk(st, g) && HandleOk(st, g);
      assert Kids(s.mounts, g) == Kids(st.mounts, g);
    }
    forall m ensures MountOk(s, m) && ChainOk(s, m) { assert MountOk(st, m) && ChainOk(st, m); }
  }

  lemma MountKeeps(st: State, e: Edit)
    requires Inv(st) && Fits(st, e) && e.MountAt?
    ensures Inv(Edited(st, e))
  {
    var s := Edited(st, e);
    NoKids(st, e.root);
    assert ChainOk(st, e.m);
    if e.point.Some? { assert HandleOk(st, e.point.value); }
    forall g ensures LocationOk(s, g) && HandleOk(s, g) {
      assert LocationOk(st, g) && HandleOk(st, g);
      KidsWith(st.mounts, e.m, Mount(true, e.root, e.point), g);
    }
    forall m ensures MountOk(s, m) && ChainOk(s, m) { assert MountOk(st, m) && ChainOk(st, m); }
  }

  /** `Edited`, with what it keeps. */
  function Change(st: State, e: Edit): (s: State)
    requires Inv(st) && Fits(st, e)
    ensures Inv(s)
  {
    ChangeKeeps(st, e);
    Edited(st, e)
  }

  lemma ChangeKeeps(st: State, e: Edit)
    requires Inv(st) && Fits(st, e)
    ensures e.Create? || e.Copy? || e.Remove? ==> e.m in st.chain
    ensures Inv(Edited(st, e))
  {
    hide Inv, Edited, MountOk;
    match e
    case Count(r) => CountKeeps(st, r);
    case Create(m, g) => OnChain(st, m); CreateKeeps(st, m, g);
    case Copy(m, _) => OnChain(st, m); NodeKeeps(st, e);
    case Remove(m, _) => OnChain(st, m); NodeKeeps(st, e);
    case Mark(_) => MarkKeeps(st, e);
    case MountAt(_, _, _) => MountKeeps(st, e);
  }

  /** Where `obtain` leads: a location whose mount is still mounted, else the null location. */
  function Target(st: State, g: Option<Gid>): (r: Gid)
  {
    if && g.Some? && g.value in st.refs && g.value in st.owner
       && st.owner[g.value] in st.mounts && st.mounts[st.owner[g.value]].mounted
    then g.value else NULL_LOCATION
  }

  function Obtained(st: State, g: Option<Gid>): (s: State)
    requires Inv(st)
    ensures Inv(s) && s.handles == st.handles + multiset{Target(st, g)} && s.owner == st.owner && s.freed == st.freed
  {
    NullStays(st);
    CountKeeps(st, Target(st, g));
    Edited(st, Count(Target(st, g)))
  }

  /** Counting up one location changes nothing about where `obtain` leads. */
  lemma TargetAfterObtain(st: State, g: Option<Gid>, h: Option<Gid>)
    requires Inv(st)
    ensures Target(Obtained(st, g), h) == Target(st, h)
  {
    NullStays(st);
  }

  /** A fresh global location on a mount, with its first reference handed out. */
  function Created(st: State, m: Mid, g: Gid): (s: State)
    requires Inv(st) && m in st.mounts && m in st.chain && g !in st.owner && g !in st.freed
    ensures Inv(s) && s.handles == st.handles + multiset{g}
  {
    CreateKeeps(st, m, g);
    Edited(st, Create(m, g))
  }

  // ------------------------------------------------------------------ against a release

  /** `b` comes after `a` in a cascade: nothing new is there, and what is mounted stays. */
  ghost predicate Later(a: State, b: State)
  {
    && b.owner == a.owner && b.refs.Keys <= a.refs.Keys
    && a.freed <= b.freed <= a.freed + a.owner.Keys && a.gone <= b.gone <= a.gone + a.mounts.Keys
    && (forall m :: m in b.mounts ==> m in a.mounts && b.mounts[m] == a.mounts[m])
    && (forall m :: m in a.mounts ==> m in b.mounts || m in b.gone)
    && (forall g :: g in a.refs && g in a.owner ==> g in b.refs || g in b.freed || a.owner[g] in b.gone)
    && (forall m :: m in a.mounts && (a.mounts[m].mounted || m == NULL_MOUNT) ==> m in b.mounts)
  }

  lemma LaterOn(a: State, b: State, c: State)
    requires Later(a, b) && Later(b, c)
    ensures Later(a, c)
  {
  }

  lemma DropIsLater(st: State, h: Gid, n: nat)
    requires CanRelease(st, h, n)
    ensures Later(st, Drop(st, h, n))
  {
    DroppedKeeps(st, h, n);
  }

  lemma DetachIsLater(st: State, k: Mid)
    requires Inv(st) && Ready(st, k)
    ensures Later(st, Detach(st, k))
  {
    assert MountOk(st, k);
    DetachedKeeps(st, k);
  }

  lemma {:induction false} ReleaseIsLater(st: State, h: Gid, n: nat)
    requires CanRelease(st, h, n)
    ensures Later(st, Release(st, h, n))
    decreases if h in st.owner then st.owner[h] else 0
  {
    hide Inv, Drop, Detach, Release, Ready, Later;
    ReleaseIs(st, h, n);
    var s, k := Drop(st, h, n), st.owner[h];
    DropIsLater(st, h, n);
    if Ready(s, k) {
      DetachIsLater(s, k);
      LaterOn(st, s, Detach(s, k));
      ReleaseIsLater(Detach(s, k), s.mounts[k].point.value, 1);
      LaterOn(st, Detach(s, k), Release(Detach(s, k), s.mounts[k].point.value, 1));
    }
  }

  /** What fits before and behind fits in between. */
  lemma FitsBetween(a: State, b: State, c: State, e: Edit)
    requires Later(a, b) && Later(b, c) && Fits(a, e) && Fits(c, e) && c.handles <= b.handles
    ensures Fits(b, e)
  {
    forall m | Handled(c, m) ensures Handled(b, m) {
      var g :| g in c.owner && c.owner[g] == m && c.handles[g] >= 1;
      assert b.handles[g] >= 1;
    }
  }

  /** With a handle on it, a mount is not ready. */
  lemma HandledIsUnready(st: State, m: Mid)
    requires Inv(st) && Handled(st, m)
    ensures !Ready(st, m)
  {
    var g :| g in st.owner && st.owner[g] == m && st.handles[g] >= 1;
    assert HandleOk(st, g);
    if Ready(st, m) { ReadyIsUnheld(st, m, g); assert false; }
  }

  lemma FirmIsUnready(st: State, m: Mid)
    requires Inv(st) && Firm(st, m)
    ensures !Ready(st, m)
  {
    NullStays(st);
    if Handled(st, m) { HandledIsUnready(st, m); }
  }

  /** An edit changes the readiness of no mount. */
  lemma ReadyChange(st: State, k: Mid, e: Edit)
    requires Inv(st) && Fits(st, e)
    ensures Ready(Change(st, e), k) == Ready(st, k)
  {
    hide Inv;
    ChangeKeeps(st, e);
    var s := Change(st, e);
    match e
    case Count(r) => if k == st.owner[r] { CountedIsUnready(st, r); } else { OtherRoot(st, k, r); }
    case Create(m, g) => FirmIsUnready(st, m); FirmStays(st, e); FirmIsUnready(s, m); OtherMounts(st, k);
    case Copy(m, _) => FirmIsUnready(st, m); FirmStays(st, e); FirmIsUnready(s, m);
    case Remove(m, _) => FirmIsUnready(st, m); FirmStays(st, e); FirmIsUnready(s, m);
    case Mark(m) => FirmIsUnready(st, m); FirmStays(st, e); FirmIsUnready(s, m);
    case MountAt(_, _, _) => OtherMounts(st, k);
  }

  lemma CountedIsUnready(st: State, r: Gid)
    requires Inv(st) && Fits(st, Count(r))
    ensures !Ready(st, st.owner[r]) && !Ready(Change(st, Count(r)), st.owner[r])
  {
    NullStays(st);
    NullStays(Change(st, Count(r)));
  }

  lemma OtherRoot(st: State, k: Mid, r: Gid)
    requires Inv(st) && r in st.owner && st.owner[r] != k
    ensures k in st.mounts ==> st.mounts[k].root != r
  {
    assert MountOk(st, k);
  }

  lemma OtherMounts(st: State, k: Mid)
    requires Inv(st)
    ensures k in st.mounts ==> st.mounts[k].root in st.owner
  {
    assert MountOk(st, k);
  }

  lemma FirmStays(st: State, e: Edit)
    requires Inv(st) && Fits(st, e) && !e.Count? && !e.MountAt?
    ensures Firm(Change(st, e), e.m)
  {
    hide Inv;
    var s := Change(st, e);
    if Handled(st, e.m) {
      var g :| g in st.owner && st.owner[g] == e.m && st.handles[g] >= 1;
      assert g in s.owner && s.owner[g] == e.m && s.handles[g] >= 1;
    }
  }

  /** Names are new, and what is changed is there. */
  ghost predicate Names(st: State, e: Edit)
  {
    && (e.Count? ==> e.r in st.refs)
    && (e.Create? || e.Copy? || e.Remove? ==> e.m in st.chain && e.m in st.mounts)
    && (e.Mark? ==> e.m in st.mounts)
    && (e.Create? ==> e.g !in st.refs && e.g !in st.owner)
    && (e.MountAt? ==> && e.root !in st.refs && e.root !in st.owner && e.m !in st.chain && e.m !in st.mounts
                       && (e.point.Some? ==> st.handles[e.point.value] >= 1))
  }

  lemma FitsNames(st: State, e: Edit)
    requires Inv(st) && Fits(st, e)
    ensures Names(st, e)
  {
    if !e.Count? && !e.MountAt? { OnChain(st, e.m); }
    if e.Create? { NoKids(st, e.g); }
    if e.MountAt? { NoKids(st, e.root); assert ChainOk(st, e.m); }
  }

  /** What a drop needs of the state. */
  ghost predicate Droppable(st: State, h: Gid, n: nat)
  {
    h in st.refs && h in st.owner && st.owner[h] in st.chain && st.handles[h] >= n && st.refs[h] >= n
  }

  lemma StillDroppable(st: State, h: Gid, n: nat, e: Edit)
    requires Droppable(st, h, n) && Names(st, e) && Names(Dropped(st, h, n), e)
    ensures var s := Edited(st, e);
            Droppable(s, h, n) && s.owner[h] == st.owner[h] && (s.refs[h] == n <==> st.refs[h] == n)
  {
  }

  lemma RefsPast(refs: map<Gid, int>, h: Gid, n: nat, e: Edit)
    requires h in refs && (e.Count? ==> e.r in refs) && (e.Create? ==> e.g != h) && (e.MountAt? ==> e.root != h)
    ensures Refs(refs, e)[h := Refs(refs, e)[h] - n] == Refs(refs[h := refs[h] - n], e)
    ensures !(e.Count? && e.r == h) ==> Refs(refs, e) - {h} == Refs(refs - {h}, e)
  {
  }

  lemma ChainPast(chain: map<Mid, set<Node>>, h: Gid, k: Mid, e: Edit)
    requires k in chain && (e.Create? || e.Copy? || e.Remove? ==> e.m in chain) && (e.Create? ==> e.g != h)
    requires e.MountAt? ==> e.m != k
    ensures Chains(chain, e)[k := Chains(chain, e)[k] - {Global(h)}] == Chains(chain[k := chain[k] - {Global(h)}], e)
  {
    var a := Chains(chain, e)[k := Chains(chain, e)[k] - {Global(h)}];
    var b := Chains(chain[k := chain[k] - {Global(h)}], e);
    forall m | m in a && m in b ensures a[m] == b[m] {
      assert e.Create? ==> Global(e.g) != Global(h);
    }
  }

  lemma HandlesPast(handles: multiset<Gid>, h: Gid, n: nat, e: Edit)
    requires handles[h] >= n && (e.MountAt? && e.point == Some(h) ==> handles[h] >= n + 1)
    ensures Handles(handles, e)[h] >= n
    ensures Handles(handles, e)[h := Handles(handles, e)[h] - n] == Handles(handles[h := handles[h] - n], e)
  {
  }

  lemma DroppedNames(st: State, h: Gid, n: nat, e: Edit)
    requires Droppable(st, h, n) && Names(st, e) && Names(Dropped(st, h, n), e)
    ensures (e.Create? ==> e.g != h) && (e.MountAt? ==> e.root != h && e.m != st.owner[h])
    ensures st.refs[h] == n ==> !(e.Count? && e.r == h)
    ensures e.MountAt? && e.point == Some(h) ==> st.handles[h] >= n + 1
    ensures Edited(st, e).owner[h] == st.owner[h] && st.owner[h] in Edited(st, e).chain
  {
  }

  lemma DroppedEdited(st: State, h: Gid, n: nat, e: Edit)
    requires Droppable(st, h, n) && Names(st, e) && Names(Dropped(st, h, n), e)
    ensures Droppable(Edited(st, e), h, n) && Dropped(Edited(st, e), h, n) == Edited(Dropped(st, h, n), e)
  {
    hide Refs, Chains, Handles, Mounts, Owners;
    StillDroppable(st, h, n, e);
    DroppedNames(st, h, n, e);
    RefsPast(st.refs, h, n, e);
    HandlesPast(st.handles, h, n, e);
    ChainPast(st.chain, h, st.owner[h], e);
  }

  lemma RefsEnough(st: State, h: Gid)
    requires Inv(st) && h in st.refs
    ensures st.refs[h] >= st.handles[h]
  {
    assert LocationOk(st, h);
  }

  lemma DropChange(st: State, h: Gid, n: nat, e: Edit)
    requires CanRelease(st, h, n) && Fits(st, e) && Fits(Drop(st, h, n), e)
    ensures CanRelease(Change(st, e), h, n) && Drop(Change(st, e), h, n) == Change(Drop(st, h, n), e)
  {
    hide Inv, Edited, Dropped, Fits, Names;
    DroppedKeeps(st, h, n);
    ChangeKeeps(st, e);
    FitsNames(st, e);
    FitsNames(Drop(st, h, n), e);
    assert st.refs[h] >= n by { RefsEnough(st, h); }
    DroppedEdited(st, h, n, e);
  }

  lemma HandlesPastMore(handles: multiset<Gid>, p: Gid, e: Edit)
    requires e.MountAt? && e.point.Some? ==> handles[e.point.value] >= 1
    ensures Handles(handles, e) + multiset{p} == Handles(handles + multiset{p}, e)
  {
  }

  lemma MountsPast(mounts: map<Mid, Mount>, chain: map<Mid, set<Node>>, k: Mid, e: Edit)
    requires e.Mark? || e.MountAt? ==> e.m != k
    requires e.Mark? ==> e.m in mounts
    requires e.Create? || e.Copy? || e.Remove? ==> e.m in chain && e.m != k
    ensures Mounts(mounts, e) - {k} == Mounts(mounts - {k}, e) && Chains(chain, e) - {k} == Chains(chain - {k}, e)
  {
  }

  lemma DetachedEdited(st: State, k: Mid, e: Edit)
    requires k in st.mounts && st.mounts[k].point.Some? && st.mounts[k].root in st.refs
    requires Names(st, e) && Names(Detached(st, k), e)
    requires k in Edited(st, e).mounts && Edited(st, e).mounts[k] == st.mounts[k]
    ensures Detached(Edited(st, e), k) == Edited(Detached(st, k), e)
  {
    RefsPast(st.refs, st.mounts[k].root, 0, e);
    MountsPast(st.mounts, st.chain, k, e);
    HandlesPastMore(st.handles, st.mounts[k].point.value, e);
    hide Refs, Chains, Handles, Mounts, Owners;
    SameState(Detached(Edited(st, e), k), Edited(Detached(st, k), e));
  }

  lemma MountUntouched(st: State, k: Mid, e: Edit)
    requires Inv(st) && Ready(st, k) && Fits(st, e)
    ensures MountOk(st, k) && k in Change(st, e).mounts && Change(st, e).mounts[k] == st.mounts[k]
  {
    assert MountOk(st, k);
    if e.Mark? { HandledIsUnready(st, e.m); }
  }

  lemma DetachChange(st: State, k: Mid, e: Edit)
    requires Inv(st) && Ready(st, k) && Fits(st, e) && Fits(Detach(st, k), e)
    ensures Ready(Change(st, e), k) && Detach(Change(st, e), k) == Change(Detach(st, k), e)
  {
    hide Inv, Detached, Fits, Names;
    ReadyChange(st, k, e);
    DetachedKeeps(st, k);
    ChangeKeeps(st, e);
    FitsNames(st, e);
    FitsNames(Detach(st, k), e);
    assert MountOk(st, k) && Change(st, e).mounts[k] == st.mounts[k] by { MountUntouched(st, k, e); }
    DetachedEdited(st, k, e);
  }

  /** A call may as well be made before a release that is under way, with all it sets off. */
  lemma {:induction false} ChangePastRelease(st: State, h: Gid, n: nat, e: Edit)
    requires CanRelease(st, h, n) && Fits(st, e) && Fits(Release(st, h, n), e)
    ensures CanRelease(Change(st, e), h, n) && Release(Change(st, e), h, n) == Change(Release(st, h, n), e)
    decreases if h in st.owner then st.owner[h] else 0
  {
    hide Inv, Fits, Later, Drop, Detach, Release, Change, Ready;
    ReleaseIs(st, h, n);
    var s, k, f := Drop(st, h, n), st.owner[h], Release(st, h, n);
    DropIsLater(st, h, n);
    if Ready(s, k) {
      var d, point := Detach(s, k), s.mounts[k].point.value;
      DetachIsLater(s, k);
      ReleaseIsLater(d, point, 1);
      LaterOn(s, d, f);
      SameHandles(s, d, point, f);
      FitsBetween(st, s, f, e);
      FitsBetween(s, d, f, e);
      DropChange(st, h, n, e);
      DetachChange(s, k, e);
      ChangePastRelease(d, point, 1, e);
      OwnerUntouched(st, h, e);
      MountUntouched(s, k, e);
      ReleaseIs(Change(st, e), h, n);
    } else {
      DropChange(st, h, n, e);
      ReadyChange(s, k, e);
      OwnerUntouched(st, h, e);
      ReleaseIs(Change(st, e), h, n);
    }
  }

  lemma SameHandles(s: State, d: State, p: Gid, f: State)
    requires d.handles == s.handles + multiset{p} && f.handles == d.handles[p := d.handles[p] - 1]
    ensures f.handles <= s.handles && f.handles <= d.handles
  {
  }

  lemma OwnerUntouched(st: State, h: Gid, e: Edit)
    requires Inv(st) && Fits(st, e) && h in st.owner
    ensures h in Change(st, e).owner && Change(st, e).owner[h] == st.owner[h]
  {
  }

  // ------------------------------------------------------------------ a location taken off with a test

  ghost predicate Closable(st: State, m: Mid, l: nat)
  {
    m in st.mounts && m in st.chain && Local(l) in st.chain[m]
  }

  function Removed(st: State, m: Mid, l: nat): (s: State)
    requires Inv(st) && m in st.chain
    ensures Inv(s) && s.handles == st.handles && s.owner == st.owner && s.mounts == st.mounts
  {
    NodeKeeps(st, Remove(m, l));
    Edited(st, Remove(m, l))
  }

  /** `remove_from_mt_entry`: the last location that goes takes the mount out, and its mount
      point is released. */
  function Closed(st: State, m: Mid, l: nat): (s: State)
    requires Inv(st) && Closable(st, m, l)
    ensures Inv(s) && s.handles == st.handles && s.owner == st.owner
  {
    var s := Removed(st, m, l);
    if Ready(s, m) then Release(Detach(s, m), s.mounts[m].point.value, 1) else s
  }

  /** With the location on its chain beside the root, the mount is not ready. */
  lemma ClosableIsUnready(st: State, m: Mid, l: nat)
    requires Inv(st) && Closable(st, m, l)
    ensures !Ready(st, m)
  {
    assert MountOk(st, m);
    assert LocationOk(st, st.mounts[m].root);
    if |st.chain[m]| == 1 { SingletonOf(st.chain[m], Local(l)); }
  }

  lemma DropRemoved(st: State, h: Gid, n: nat, m: Mid, l: nat)
    requires CanRelease(st, h, n) && Closable(st, m, l)
    ensures Closable(Drop(st, h, n), m, l) && CanRelease(Removed(st, m, l), h, n)
    ensures Drop(Removed(st, m, l), h, n) == Removed(Drop(st, h, n), m, l)
    ensures forall k :: k != m ==> Ready(Removed(Drop(st, h, n), m, l), k) == Ready(Drop(st, h, n), k)
  {
    DroppedKeeps(st, h, n);
    RefsEnough(st, h);
    hide Inv;
    DroppedEdited(st, h, n, Remove(m, l));
  }

  lemma DetachRemoved(st: State, k: Mid, m: Mid, l: nat)
    requires Inv(st) && Ready(st, k) && Closable(st, m, l) && k != m
    ensures Closable(Detach(st, k), m, l) && Ready(Removed(st, m, l), k)
    ensures Detach(Removed(st, m, l), k) == Removed(Detach(st, k), m, l)
    ensures Ready(Removed(Detach(st, k), m, l), m) == Ready(Removed(st, m, l), m)
  {
    DetachedKeeps(st, k);
    assert MountOk(st, k);
    DetachLeavesReady(Removed(st, m, l), k, m);
    hide Inv;
    DetachedEdited(st, k, Remove(m, l));
  }

  /** A release of the state with the location taken off against one of the state with it. */
  lemma {:induction false} RemovedPastRelease(st: State, h: Gid, n: nat, m: Mid, l: nat)
    requires CanRelease(st, h, n) && Closable(st, m, l)
    ensures Closable(Release(st, h, n), m, l) && CanRelease(Removed(st, m, l), h, n)
    ensures var f := Release(st, h, n);
            if Ready(Removed(st, m, l), m) then
              Ready(Removed(f, m, l), m) && Release(Removed(st, m, l), h, n) == Removed(f, m, l)
            else
              Release(Removed(st, m, l), h, n) == Closed(f, m, l)
    decreases if h in st.owner then st.owner[h] else 0
  {
    hide Inv, Drop, Detach, Release, Removed, Ready;
    ReleaseIs(st, h, n);
    DropRemoved(st, h, n, m, l);
    var r, s, k := Removed(st, m, l), Drop(st, h, n), st.owner[h];
    ReleaseIs(r, h, n);
    ClosableIsUnready(s, m, l);
    if k == m {
      if Ready(r, m) { NotOnReady(r, h, n, m); }
    } else {
      OthersUntouched(r, h, n, m);
      if Ready(s, k) {
        DetachRemoved(s, k, m, l);
        RemovedPastRelease(Detach(s, k), s.mounts[k].point.value, 1, m, l);
      }
    }
  }

  /** Taking a location off with a test, and all that sets off, commutes with releases. */
  lemma ClosePastRelease(st: State, h: Gid, n: nat, m: Mid, l: nat)
    requires CanRelease(st, h, n) && Closable(st, m, l)
    ensures Closable(Release(st, h, n), m, l) && CanRelease(Closed(st, m, l), h, n)
    ensures Release(Closed(st, m, l), h, n) == Closed(Release(st, h, n), m, l)
  {
    hide Inv, Drop, Detach, Release, Removed;
    RemovedPastRelease(st, h, n, m, l);
    var r := Removed(st, m, l);
    if Ready(r, m) {
      var d, point := Detach(r, m), r.mounts[m].point.value;
      DetachPastRelease(r, h, n, m);
      if point == h { assert d.handles[h] >= n + 1; }
      ReleasesCommute(d, point, 1, h, n);
    }
  }
}
