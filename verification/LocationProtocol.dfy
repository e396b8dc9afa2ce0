/** The location functions as threads interleave them: every region under a lock is one
    step, and anything may happen between two regions of the same call. */
module LocationProtocol {
  import opened Basics
  import opened Locations
  import opened DeferredRelease

  /** `held`: handles in environments and path evaluations. `flying`: references that a
      running release still has to take back. `freeing`: locations whose count has reached
      zero and that still are on their chain. `unmounting`: mount entries found ready, whose
      mount point is still to be released. `frees` and `unmounts` record what was done. */
  datatype Sys = Sys(
    refs: map<Gid, int>,
    owner: map<Gid, Mid>,
    mounts: map<Mid, Mount>,
    chain: map<Mid, set<Node>>,
    held: multiset<Gid>,
    deferred: seq<Entry>,
    flying: multiset<Gid>,
    freeing: set<Gid>,
    unmounting: set<Mid>,
    frees: seq<Gid>,
    unmounts: seq<Mid>,
    next: Mid)

  ghost function RootPart(s: Sys, g: Gid): nat
  {
    RootShareIn(s.owner, s.mounts, g)
  }

  /** Everything that counts for `g`: live handles, deferred and flying releases, and what
      the mount entries keep. */
  ghost function Share(s: Sys, g: Gid): nat
  {
    s.held[g] + Owed(s.deferred, g) + s.flying[g] + RootPart(s, g) + |Kids(s.mounts, g)|
  }

  ghost predicate LocOk(s: Sys, g: Gid)
  {
    && (g in s.refs ==>
         && g in s.owner && s.owner[g] in s.mounts && s.owner[g] in s.chain && g !in s.frees
         && s.refs[g] == Share(s, g)
         && (s.refs[g] == 0 <==> g in s.freeing)
         && (s.owner[g] !in s.unmounting ==> Global(g) in s.chain[s.owner[g]])
         && (s.owner[g] in s.unmounting ==> s.mounts[s.owner[g]].root == g && s.refs[g] == 1))
    && (g !in s.refs ==> Share(s, g) == 0 && g !in s.freeing)
    && (g in s.frees ==> g in s.owner)
    && (g in s.owner && g !in s.refs ==> g in s.frees || s.owner[g] in s.unmounts)
  }

  ghost predicate EntryOk(s: Sys, m: Mid)
  {
    && (m in s.mounts ==>
         && m in s.chain && m < s.next
         && s.mounts[m].root in s.refs && s.mounts[m].root in s.owner && s.owner[s.mounts[m].root] == m
         && (s.mounts[m].point.Some? ==> s.mounts[m].point.value in s.owner)
         && (s.mounts[m].point.Some? && m != NULL_MOUNT ==> s.owner[s.mounts[m].point.value] < m)
         && (s.mounts[m].point.None? ==> s.mounts[m].mounted)
         && (m in s.unmounting ==> s.chain[m] == {} && m != NULL_MOUNT && !s.mounts[m].mounted)
         && (m in s.unmounts ==> m in s.unmounting))
    && (m in s.chain || m in s.unmounting ==> m in s.mounts)
    && (m in s.unmounting ==> m in s.unmounts)
    && (m in s.unmounts ==> m < s.next)
    && (m < s.next ==> m in s.mounts || m in s.unmounts)
  }

  ghost predicate NodesOk(s: Sys, m: Mid)
  {
    m in s.chain ==> forall g :: Global(g) in s.chain[m] ==> g in s.refs && g in s.owner && s.owner[g] == m
  }

  ghost predicate Inv(s: Sys)
  {
    && (forall g {:trigger LocOk(s, g)} :: LocOk(s, g))
    && (forall m {:trigger EntryOk(s, m)} :: EntryOk(s, m))
    && (forall m {:trigger NodesOk(s, m)} :: NodesOk(s, m))
    && NULL_MOUNT in s.mounts && s.mounts[NULL_MOUNT].root == NULL_LOCATION
    && s.mounts[NULL_MOUNT].point == Some(NULL_LOCATION)
    && ListOk(s.deferred) && NoRepeats(s.frees) && NoRepeats(s.unmounts)
  }

  /** The statically initialised null location and null mount entry. */
  const INITIAL: Sys :=
    Sys(map[NULL_LOCATION := 4], map[NULL_LOCATION := NULL_MOUNT],
        map[NULL_MOUNT := Mount(false, NULL_LOCATION, Some(NULL_LOCATION))],
        map[NULL_MOUNT := {Global(NULL_LOCATION)}],
        multiset{NULL_LOCATION, NULL_LOCATION}, [], multiset{}, {}, {}, [], [], 1)

  predicate IsReady(s: Sys, m: Mid)
  {
    ReadyIn(s.refs, s.mounts, s.chain, m)
  }

  /** The test at the end of a locked region: a ready entry's chain is emptied at once. */
  function Tested(s: Sys, m: Mid): Sys
  {
    if IsReady(s, m) then
      s.(chain := s.chain[m := {}], unmounting := s.unmounting + {m}, unmounts := s.unmounts + [m])
    else s
  }

  /** `n` references of `g` taken back; without any left the location is on its way out. */
  function Counted(s: Sys, g: Gid, n: nat): Sys
    requires g in s.refs && s.flying[g] >= n
  {
    var s1 := s.(refs := s.refs[g := s.refs[g] - n], flying := s.flying[g := s.flying[g] - n]);
    if s1.refs[g] == 0 then s1.(freeing := s1.freeing + {g}) else s1
  }

  /** `g` taken off its chain and freed. */
  function Taken(s: Sys, g: Gid): Sys
    requires g in s.owner && s.owner[g] in s.chain
  {
    var m := s.owner[g];
    s.(refs := s.refs - {g}, freeing := s.freeing - {g}, frees := s.frees + [g],
       chain := s.chain[m := s.chain[m] - {Global(g)}])
  }

  datatype Step =
    | Obtain(g: Gid)
    | ReleaseNow(g: Gid)
    | ReleaseLater(g: Gid)
    | Pop
    | CountDown(g: Gid, n: nat)
    | TakeOff(g: Gid)
    | Leave(m: Mid, enabled: bool)
    | CopyNode(m: Mid, l: nat)
    | RemoveNode(m: Mid, l: nat, test: bool)
    | NewGlobal(m: Mid, g: Gid)
    | MountAt(root: Gid, point: Option<Gid>)
    | SetUnmounted(m: Mid)

  /** What a thread must have for a step: the handle it gives up, the node it removes, a
      living location to copy from. */
  ghost predicate Enabled(s: Sys, step: Step)
  {
    match step
    case Obtain(g) =>
      && g in s.refs && g in s.owner && s.owner[g] in s.mounts
      && s.held[g] + RootPart(s, g) + |Kids(s.mounts, g)| > 0
    case ReleaseNow(g) => s.held[g] >= 1
    case ReleaseLater(g) => s.held[g] >= 1
    case Pop => s.deferred != []
    case CountDown(g, n) => g in s.refs && g in s.owner && s.flying[g] >= n >= 1
    case TakeOff(g) => g in s.freeing && g in s.refs && g in s.owner && s.owner[g] in s.chain
    case Leave(m, _) => m in s.unmounting && m in s.mounts && s.mounts[m].point.Some?
    case CopyNode(m, l) => m in s.mounts && m in s.chain && s.chain[m] != {} && Local(l) !in s.chain[m]
    case RemoveNode(m, l, _) => m in s.chain && Local(l) in s.chain[m]
    case NewGlobal(m, g) => m in s.mounts && m in s.chain && s.chain[m] != {} && g !in s.owner
    case MountAt(root, point) => root !in s.owner && (point.Some? ==> s.held[point.value] >= 1)
    case SetUnmounted(m) => m in s.mounts && m != NULL_MOUNT && s.mounts[m].point.Some?
  }

  function Next(s: Sys, step: Step): Sys
    requires Enabled(s, step)
  {
    match step
    case Obtain(g) =>
      var r := if s.mounts[s.owner[g]].mounted then g else NULL_LOCATION;
      var count := if r in s.refs then s.refs[r] else 0;
      s.(refs := s.refs[r := count + 1], held := s.held + multiset{r})
    case ReleaseNow(g) => s.(held := s.held - multiset{g}, flying := s.flying + multiset{g})
    case ReleaseLater(g) => s.(held := s.held - multiset{g}, deferred := Defer(s.deferred, g))
    case Pop =>
      var e := s.deferred[0];
      s.(deferred := s.deferred[1..], flying := s.flying[e.g := s.flying[e.g] + e.count])
    case CountDown(g, n) => Tested(Counted(s, g, n), s.owner[g])
    case TakeOff(g) => Tested(Taken(s, g), s.owner[g])
    case Leave(m, enabled) =>
      var point := s.mounts[m].point.value;
      s.(refs := s.refs - {s.mounts[m].root}, mounts := s.mounts - {m}, chain := s.chain - {m},
         unmounting := s.unmounting - {m},
         flying := if enabled then s.flying + multiset{point} else s.flying,
         deferred := if enabled then s.deferred else Defer(s.deferred, point))
    case CopyNode(m, l) => s.(chain := s.chain[m := s.chain[m] + {Local(l)}])
    case RemoveNode(m, l, test) =>
      var s1 := s.(chain := s.chain[m := s.chain[m] - {Local(l)}]);
      if test then Tested(s1, m) else s1
    case NewGlobal(m, g) =>
      s.(refs := s.refs[g := 1], owner := s.owner[g := m], held := s.held + multiset{g},
         chain := s.chain[m := s.chain[m] + {Global(g)}])
    case MountAt(root, point) =>
      s.(refs := s.refs[root := 1], owner := s.owner[root := s.next],
         mounts := s.mounts[s.next := Mount(true, root, point)], chain := s.chain[s.next := {Global(root)}],
         held := if point.Some? then s.held - multiset{point.value} else s.held, next := s.next + 1)
    case SetUnmounted(m) => s.(mounts := s.mounts[m := s.mounts[m].(mounted := false)])
  }

  lemma InitialOk()
    ensures Inv(INITIAL) && INITIAL.refs[NULL_LOCATION] == 4
  {
    var s := INITIAL;
    assert Kids(s.mounts, NULL_LOCATION) == {NULL_MOUNT};
    forall g ensures LocOk(s, g) {
      if g != NULL_LOCATION { assert Kids(s.mounts, g) == {}; }
    }
  }

  lemma NullKeepsTwo(s: Sys)
    requires Inv(s)
    ensures NULL_LOCATION in s.refs && s.refs[NULL_LOCATION] >= 2 && NULL_LOCATION !in s.freeing
    ensures !IsReady(s, NULL_MOUNT) && NULL_MOUNT !in s.unmounts
  {
    KidCounts(s.mounts, NULL_MOUNT, NULL_LOCATION);
    assert EntryOk(s, NULL_MOUNT) && LocOk(s, NULL_LOCATION);
  }

  /** A ready entry is held by nobody, so emptying its chain and marking it is safe. */
  lemma TestedKeeps(s: Sys, m: Mid)
    requires Inv(s)
    ensures Inv(Tested(s, m))
  {
    if IsReady(s, m) {
      NullKeepsTwo(s);
      assert EntryOk(s, m);
      var t, root := Tested(s, m), s.mounts[m].root;
      assert LocOk(s, root);
      SingletonOf(s.chain[m], Global(root));
      forall g ensures LocOk(t, g) {
        assert LocOk(s, g);
      }
      forall k ensures EntryOk(t, k) && NodesOk(t, k) {
        assert EntryOk(s, k) && NodesOk(s, k);
      }
    }
  }

  lemma ReleaseNowKeeps(s: Sys, g: Gid)
    requires Inv(s) && Enabled(s, ReleaseNow(g))
    ensures Inv(Next(s, ReleaseNow(g)))
  {
    var t := Next(s, ReleaseNow(g));
    forall x ensures LocOk(t, x) { assert LocOk(s, x); }
    forall m ensures EntryOk(t, m) && NodesOk(t, m) { assert EntryOk(s, m) && NodesOk(s, m); }
  }

  lemma ReleaseLaterKeeps(s: Sys, g: Gid)
    requires Inv(s) && Enabled(s, ReleaseLater(g))
    ensures Inv(Next(s, ReleaseLater(g)))
  {
    hide Defer, ListOk, Owed;
    var t := Next(s, ReleaseLater(g));
    DeferOwed(s.deferred, g, g);
    forall x ensures LocOk(t, x) {
      assert LocOk(s, x);
      DeferOwed(s.deferred, g, x);
    }
    forall m ensures EntryOk(t, m) && NodesOk(t, m) { assert EntryOk(s, m) && NodesOk(s, m); }
  }

  lemma PopKeeps(s: Sys)
    requires Inv(s) && Enabled(s, Pop)
    ensures Inv(Next(s, Pop))
  {
    var t := Next(s, Pop);
    forall x ensures LocOk(t, x) { assert LocOk(s, x); }
    forall m ensures EntryOk(t, m) && NodesOk(t, m) { assert EntryOk(s, m) && NodesOk(s, m); }
  }

  lemma ObtainKeeps(s: Sys, g: Gid)
    requires Inv(s) && Enabled(s, Obtain(g))
    ensures Inv(Next(s, Obtain(g)))
  {
    NullKeepsTwo(s);
    var t := Next(s, Obtain(g));
    assert LocOk(s, g) && EntryOk(s, s.owner[g]) && LocOk(s, NULL_LOCATION) && EntryOk(s, NULL_MOUNT);
    forall x ensures LocOk(t, x) { assert LocOk(s, x); }
    forall m ensures EntryOk(t, m) && NodesOk(t, m) { assert EntryOk(s, m) && NodesOk(s, m); }
  }

  /** One locked region never both frees its location and finds the mount ready. */
  lemma FreesOrUnmounts(s: Sys, g: Gid, n: nat)
    requires Inv(s) && Enabled(s, CountDown(g, n))
    ensures var t := Next(s, CountDown(g, n)); t.freeing == s.freeing || t.unmounts == s.unmounts
  {
    var m := s.owner[g];
    assert LocOk(s, g) && EntryOk(s, m) && LocOk(s, s.mounts[m].root);
    var s1 := s.(refs := s.refs[g := s.refs[g] - n]);
    if IsReady(s1, m) && s1.refs[g] == 0 {
      SingletonOf(s.chain[m], Global(g));
      assert false;
    }
  }

  lemma CountedKeeps(s: Sys, g: Gid, n: nat)
    requires Inv(s) && Enabled(s, CountDown(g, n))
    ensures Inv(Counted(s, g, n))
  {
    var t := Counted(s, g, n);
    assert LocOk(s, g);
    forall x ensures LocOk(t, x) { assert LocOk(s, x); }
    forall m ensures EntryOk(t, m) && NodesOk(t, m) { assert EntryOk(s, m) && NodesOk(s, m); }
  }

  lemma TakenKeeps(s: Sys, g: Gid)
    requires Inv(s) && Enabled(s, TakeOff(g))
    ensures Inv(Taken(s, g))
  {
    var t := Taken(s, g);
    assert LocOk(s, g);
    NullKeepsTwo(s);
    forall x ensures LocOk(t, x) { assert LocOk(s, x); }
    forall k ensures EntryOk(t, k) && NodesOk(t, k) { assert EntryOk(s, k) && NodesOk(s, k); }
  }

  lemma LeaveKeeps(s: Sys, m: Mid, enabled: bool)
    requires Inv(s) && Enabled(s, Leave(m, enabled))
    ensures Inv(Next(s, Leave(m, enabled)))
    ensures var t, point := Next(s, Leave(m, enabled)), s.mounts[m].point.value;
            if enabled then t.flying == s.flying + multiset{point} && t.deferred == s.deferred
            else t.flying == s.flying && Owed(t.deferred, point) == Owed(s.deferred, point) + 1
  {
    hide Defer, ListOk, Owed;
    var t, root, point := Next(s, Leave(m, enabled)), s.mounts[m].root, s.mounts[m].point.value;
    assert EntryOk(s, m) && LocOk(s, root);
    DeferOwed(s.deferred, point, point);
    forall x ensures LocOk(t, x) {
      assert LocOk(s, x);
      KidsWithout(s.mounts, m, x);
      DeferOwed(s.deferred, point, x);
    }
    forall k ensures EntryOk(t, k) && NodesOk(t, k) { assert EntryOk(s, k) && NodesOk(s, k); }
  }

  lemma NodesKeep(s: Sys, step: Step)
    requires Inv(s) && Enabled(s, step) && (step.CopyNode? || step.RemoveNode?)
    ensures Inv(Next(s, step))
  {
    var m := step.m;
    var nodes := if step.CopyNode? then s.chain[m] + {Local(step.l)} else s.chain[m] - {Local(step.l)};
    var t := s.(chain := s.chain[m := nodes]);
    forall x ensures LocOk(t, x) { assert LocOk(s, x); }
    forall k ensures EntryOk(t, k) && NodesOk(t, k) { assert EntryOk(s, k) && NodesOk(s, k); }
    TestedKeeps(t, m);
  }

  lemma NewGlobalKeeps(s: Sys, m: Mid, g: Gid)
    requires Inv(s) && Enabled(s, NewGlobal(m, g))
    ensures Inv(Next(s, NewGlobal(m, g)))
  {
    var t := Next(s, NewGlobal(m, g));
    assert LocOk(s, g) && EntryOk(s, m);
    forall x ensures LocOk(t, x) { assert LocOk(s, x); }
    forall k ensures EntryOk(t, k) && NodesOk(t, k) { assert EntryOk(s, k) && NodesOk(s, k); }
  }

  lemma MountedLocOk(s: Sys, root: Gid, point: Option<Gid>, x: Gid)
    requires Inv(s) && Enabled(s, MountAt(root, point))
    ensures LocOk(Next(s, MountAt(root, point)), x)
  {
    var m := s.next;
    assert EntryOk(s, m) && LocOk(s, root) && LocOk(s, x);
    KidsWith(s.mounts, m, Mount(true, root, point), x);
    hide Owed, Kids;
    if x in s.owner && s.owner[x] == m && x in s.refs { assert false; }
  }

  lemma MountAtKeeps(s: Sys, root: Gid, point: Option<Gid>)
    requires Inv(s) && Enabled(s, MountAt(root, point))
    ensures Inv(Next(s, MountAt(root, point)))
  {
    var t, m := Next(s, MountAt(root, point)), s.next;
    assert EntryOk(s, m) && LocOk(s, root);
    if point.Some? { assert LocOk(s, point.value) && EntryOk(s, s.owner[point.value]); }
    forall k ensures EntryOk(t, k) && NodesOk(t, k) { assert EntryOk(s, k) && NodesOk(s, k); }
    hide LocOk, EntryOk, NodesOk, ListOk;
    forall x ensures LocOk(t, x) { MountedLocOk(s, root, point, x); }
  }

  lemma SetUnmountedKeeps(s: Sys, m: Mid)
    requires Inv(s) && Enabled(s, SetUnmounted(m))
    ensures Inv(Next(s, SetUnmounted(m)))
  {
    var t := Next(s, SetUnmounted(m));
    forall x ensures LocOk(t, x) {
      assert LocOk(s, x);
      assert Kids(t.mounts, x) == Kids(s.mounts, x);
    }
    forall k ensures EntryOk(t, k) && NodesOk(t, k) { assert EntryOk(s, k) && NodesOk(s, k); }
  }

  lemma NextIsTested(s: Sys, step: Step)
    requires Enabled(s, step) && (step.CountDown? || step.TakeOff?)
    ensures step.g in s.owner && (step.CountDown? ==> step.g in s.refs && s.flying[step.g] >= step.n)
    ensures step.TakeOff? ==> s.owner[step.g] in s.chain
    ensures var s1 := if step.CountDown? then Counted(s, step.g, step.n) else Taken(s, step.g);
            Next(s, step) == Tested(s1, s.owner[step.g])
  {
  }

  /** Every step of the protocol keeps the accounts. */
  lemma StepKeeps(s: Sys, step: Step)
    requires Inv(s) && Enabled(s, step)
    ensures Inv(Next(s, step))
  {
    hide Inv, Enabled, Next;
    match step
    case Obtain(g) => ObtainKeeps(s, g);
    case ReleaseNow(g) => ReleaseNowKeeps(s, g);
    case ReleaseLater(g) => ReleaseLaterKeeps(s, g);
    case Pop => PopKeeps(s);
    case CountDown(g, n) =>
      NextIsTested(s, step);
      CountedKeeps(s, g, n);
      TestedKeeps(Counted(s, g, n), s.owner[g]);
    case TakeOff(g) =>
      NextIsTested(s, step);
      TakenKeeps(s, g);
      TestedKeeps(Taken(s, g), s.owner[g]);
    case Leave(m, enabled) => LeaveKeeps(s, m, enabled);
    case CopyNode(m, l) => NodesKeep(s, step);
    case RemoveNode(m, l, _) => NodesKeep(s, step);
    case NewGlobal(m, g) => NewGlobalKeeps(s, m, g);
    case MountAt(root, point) => MountAtKeeps(s, root, point);
    case SetUnmounted(m) => SetUnmountedKeeps(s, m);
  }

  /** The states that a run of steps can reach. */
  ghost predicate Reached(steps: seq<Step>, s: Sys)
  {
    if steps == [] then s == INITIAL
    else
      var n := |steps| - 1;
      exists before :: Reached(steps[..n], before) && Enabled(before, steps[n]) && s == Next(before, steps[n])
  }

  lemma {:induction false} ReachedOk(steps: seq<Step>, s: Sys)
    requires Reached(steps, s)
    ensures Inv(s)
  {
    if steps == [] {
      InitialOk();
    } else {
      var n := |steps| - 1;
      var before :| Reached(steps[..n], before) && Enabled(before, steps[n]) && s == Next(before, steps[n]);
      ReachedOk(steps[..n], before);
      StepKeeps(before, steps[n]);
    }
  }

  /** In every reachable state each count is exactly its live handles, deferred and flying
      releases and mount shares; a location is on the deferred list at most once, with a
      positive count, and is then alive; nothing was freed or unmounted twice; and the null
      location keeps at least two of its initial four references. */
  lemma ReachableAccounts(steps: seq<Step>, s: Sys)
    requires Reached(steps, s)
    ensures forall g :: g in s.refs ==> s.refs[g] == Share(s, g) && (s.refs[g] == 0 <==> g in s.freeing)
    ensures ListOk(s.deferred)
    ensures forall i :: 0 <= i < |s.deferred| ==>
              && s.deferred[i].g in s.refs && s.refs[s.deferred[i].g] >= s.deferred[i].count
              && s.deferred[i].g !in s.frees && s.deferred[i].g !in s.freeing
    ensures NoRepeats(s.frees) && NoRepeats(s.unmounts)
    ensures NULL_LOCATION in s.refs && s.refs[NULL_LOCATION] >= 2
    ensures NULL_LOCATION !in s.freeing && NULL_MOUNT !in s.unmounts
  {
    ReachedOk(steps, s);
    NullKeepsTwo(s);
    forall g | g in s.refs ensures s.refs[g] == Share(s, g) && (s.refs[g] == 0 <==> g in s.freeing) {
      assert LocOk(s, g);
    }
    forall i | 0 <= i < |s.deferred|
      ensures && s.deferred[i].g in s.refs && s.refs[s.deferred[i].g] >= s.deferred[i].count
              && s.deferred[i].g !in s.frees && s.deferred[i].g !in s.freeing
    {
      OwedAt(s.deferred, i);
      assert LocOk(s, s.deferred[i].g);
    }
  }

  /** In every reachable state a location that there ever was is gone exactly when it was freed
      or, as the root of a file system, left with its mount; and an entry is gone only when it
      was unmounted. */
  lemma NothingVanishes(steps: seq<Step>, s: Sys, g: Gid, m: Mid)
    requires Reached(steps, s)
    ensures g in s.refs ==> g in s.owner && g !in s.frees
    ensures g in s.owner && g !in s.refs ==> g in s.frees || s.owner[g] in s.unmounts
    ensures m < s.next ==> m in s.mounts || m in s.unmounts
  {
    ReachedOk(steps, s);
    assert LocOk(s, g) && EntryOk(s, m);
  }

  /** Moving a location copies it first, so the removal that follows finds at least the copy
      beside the root and never unmounts. */
  lemma MovingNeverUnmounts(s: Sys, m: Mid, copy: Node, l: nat)
    requires Inv(s) && Enabled(s, RemoveNode(m, l, true)) && copy != Local(l) && copy in s.chain[m]
    requires m in s.mounts ==> copy != Global(s.mounts[m].root)
    ensures Next(s, RemoveNode(m, l, true)).unmounts == s.unmounts
  {
    assert EntryOk(s, m) && LocOk(s, s.mounts[m].root);
    var left := s.chain[m] - {Local(l)};
    assert Global(s.mounts[m].root) in left;
    if |left| == 1 { SingletonOf(left, copy); assert false; }
  }
}
