/** Whole calls, one after the other, against the interleaved locked regions of all the calls:
    the regions do what the calls do in the order in which they were begun. */
module LocationOrder {
  import opened Basics
  import opened Locations
  import opened DeferredRelease
  import opened LocationCalls
  import opened LocationRefinement
  import P = LocationProtocol
  import R = LocationRuns

  // ------------------------------------------------------------------ calls in sequence

  /** A call as a whole: a release with all it sets off, `obtain`, a call that sets nothing
      off, or the removal of a location with the readiness test. */
  datatype Call = Give(g: Gid) | Obtain(g: Gid) | Make(e: Edit) | Close(m: Mid, l: nat)

  ghost predicate Can(st: State, call: Call)
  {
    Inv(st) &&
    match call
    case Give(g) => st.handles[g] >= 1
    case Obtain(_) => true
    case Make(e) => Fits(st, e)
    case Close(m, l) => Closable(st, m, l)
  }

  function Do(st: State, call: Call): (s: State)
    requires Can(st, call)
    ensures Inv(s)
  {
    match call
    case Give(g) => Release(st, g, 1)
    case Obtain(g) => Obtained(st, Some(g))
    case Make(e) => Change(st, e)
    case Close(m, l) => Closed(st, m, l)
  }

  /** The calls, one after the other, lead from `a` to `b`. */
  ghost predicate Sequential(a: State, calls: seq<Call>, b: State)
    decreases |calls|
  {
    if calls == [] then a == b
    else Can(a, calls[0]) && Sequential(Do(a, calls[0]), calls[1..], b)
  }

  // ------------------------------------------------------------------ against releases under way

  lemma {:induction false} AllIsLater(a: State, gs: seq<Gid>)
    requires Covers(a, [], gs)
    ensures Later(a, ReleaseAll(a, gs)) && ReleaseAll(a, gs).handles <= a.handles
    decreases |gs|
  {
    hide Inv, Release, Later, Covers;
    if gs == [] {
      LaterSelf(a);
    } else {
      var g, rest := gs[0], gs[1..];
      assert gs == [g] + rest;
      AllHead(a, g, rest);
      ReleaseIsLater(a, g, 1);
      AllIsLater(Release(a, g, 1), rest);
      LaterOn(a, Release(a, g, 1), ReleaseAll(a, gs));
    }
  }

  lemma LaterSelf(a: State)
    ensures Later(a, a)
  {
  }

  lemma {:induction false} ChangePastAll(a: State, gs: seq<Gid>, e: Edit)
    requires Covers(a, [], gs) && Fits(a, e) && Fits(ReleaseAll(a, gs), e)
    ensures Covers(Change(a, e), [], gs) && ReleaseAll(Change(a, e), gs) == Change(ReleaseAll(a, gs), e)
    decreases |gs|
  {
    hide Release, Later, Fits, Change;
    if gs == [] {
      assert multiset(gs) == multiset{};
    } else {
      hide Inv, Covers;
      var g, rest := gs[0], gs[1..];
      assert gs == [g] + rest;
      AllHead(a, g, rest);
      var b := Release(a, g, 1);
      ReleaseIsLater(a, g, 1);
      AllIsLater(b, rest);
      FitsBetween(a, b, ReleaseAll(b, rest), e);
      ChangePastRelease(a, g, 1, e);
      ChangePastAll(b, rest, e);
      CoversHead(Change(a, e), g, rest);
      AllHead(Change(a, e), g, rest);
    }
  }

  /** One more release in front. */
  lemma CoversHead(a: State, g: Gid, rest: seq<Gid>)
    requires CanRelease(a, g, 1) && Covers(Release(a, g, 1), [], rest)
    ensures Covers(a, [], [g] + rest)
  {
    hide Release, Inv;
    assert multiset([g] + rest) == multiset{g} + multiset(rest);
    forall x ensures a.handles[x] >= Owed([], x) + multiset([g] + rest)[x] {
      assert Release(a, g, 1).handles[x] >= Owed([], x) + multiset(rest)[x];
    }
  }

  lemma {:induction false} ClosePastAll(a: State, gs: seq<Gid>, m: Mid, l: nat)
    requires Covers(a, [], gs) && Closable(a, m, l)
    ensures Closable(ReleaseAll(a, gs), m, l) && Covers(Closed(a, m, l), [], gs)
    ensures ReleaseAll(Closed(a, m, l), gs) == Closed(ReleaseAll(a, gs), m, l)
    decreases |gs|
  {
    hide Release, Closed, Closable;
    if gs == [] {
      assert multiset(gs) == multiset{};
    } else {
      hide Inv, Covers;
      var g, rest := gs[0], gs[1..];
      assert gs == [g] + rest;
      AllHead(a, g, rest);
      ClosePastRelease(a, g, 1, m, l);
      ClosePastAll(Release(a, g, 1), rest, m, l);
      CoversHead(Closed(a, m, l), g, rest);
      AllHead(Closed(a, m, l), g, rest);
    }
  }

  /** Where the releases under way lead. */
  lemma EndIs(a: State, bag: multiset<Gid>, f: State)
    requires Ends(a, bag, f)
    ensures Inv(a) && Inv(f) && Later(a, f) && f.handles <= a.handles
    ensures forall x :: f.handles[x] == a.handles[x] - bag[x]
  {
    hide Inv, Later;
    var gs :| EndsBy(a, gs, bag, f);
    AllIsLater(a, gs);
    assert Inv(a) && Inv(f);
  }

  lemma ChangeEnds(a: State, bag: multiset<Gid>, f: State, e: Edit)
    requires Ends(a, bag, f) && Fits(a, e) && Fits(f, e)
    ensures Inv(a) && Inv(f) && Ends(Change(a, e), bag, Change(f, e))
  {
    hide Inv, Covers, ReleaseAll, Fits, Change, Later;
    var gs :| EndsBy(a, gs, bag, f);
    EndIs(a, bag, f);
    ChangePastAll(a, gs, e);
    assert EndsBy(Change(a, e), gs, bag, Change(f, e));
  }

  lemma CloseEnds(a: State, bag: multiset<Gid>, f: State, m: Mid, l: nat)
    requires Ends(a, bag, f) && Closable(a, m, l)
    ensures Inv(a) && Inv(f) && Closable(f, m, l) && Ends(Closed(a, m, l), bag, Closed(f, m, l))
  {
    hide Inv, Covers, ReleaseAll, Closable, Closed, Later;
    var gs :| EndsBy(a, gs, bag, f);
    EndIs(a, bag, f);
    ClosePastAll(a, gs, m, l);
    assert EndsBy(Closed(a, m, l), gs, bag, Closed(f, m, l));
  }

  /** A further release goes behind the ones under way. */
  lemma GiveEnds(a: State, bag: multiset<Gid>, f: State, g: Gid)
    requires Ends(a, bag, f) && f.handles[g] >= 1
    ensures CanRelease(f, g, 1) && Ends(a, bag + multiset{g}, Release(f, g, 1))
  {
    hide Inv, Release, ReleaseAll;
    var gs :| EndsBy(a, gs, bag, f);
    assert multiset([g] + gs) == bag + multiset{g};
    assert Covers(a, [], [g] + gs) by {
      forall x ensures a.handles[x] >= Owed([], x) + multiset([g] + gs)[x] {
        assert f.handles[x] == a.handles[x] - multiset(gs)[x];
      }
    }
    ReleasePastAll(a, g, gs);
    AllHead(a, g, gs);
    assert EndsBy(a, [g] + gs, bag + multiset{g}, Release(f, g, 1));
  }

  // ------------------------------------------------------------------ the regions of the other calls

  /** Somebody holds the entry: an environment or a path evaluation that goes on has a handle on
      one of its locations. */
  ghost predicate Held(s: P.Sys, m: Mid)
  {
    exists g :: g in s.owner && s.owner[g] == m && s.held[g] >= 1
  }

  /** The entry stays while the releases under way are done. */
  ghost predicate Stays(s: P.Sys, m: Mid)
  {
    m in s.mounts && (m == NULL_MOUNT || s.mounts[m].mounted || Held(s, m))
  }

  /** So does the location: it is held, or it is the root or a mount point of an entry that stays. */
  ghost predicate Kept(s: P.Sys, g: Gid)
  {
    || s.held[g] >= 1
    || exists m :: Stays(s, m) && (s.mounts[m].root == g || s.mounts[m].point == Some(g))
  }

  /** What a thread makes sure of before a step: it obtains a location by a pointer from
      something that stays, it works on the chain of a mount that stays, and it has a handle
      on the entry that it marks as unmounted. Releases, and removals with the test, need
      nothing. */
  ghost predicate Guarded(s: P.Sys, step: P.Step)
    requires P.Enabled(s, step)
  {
    match step
    case Obtain(g) => s.mounts[s.owner[g]].mounted ==> Kept(s, g)
    case CopyNode(m, _) => Stays(s, m)
    case RemoveNode(m, _, test) => test || Stays(s, m)
    case NewGlobal(m, _) => Stays(s, m)
    case SetUnmounted(m) => Held(s, m)
    case _ => true
  }

  /** The steps that are a whole call which sets nothing off. */
  predicate Edits(step: P.Step)
  {
    || step.Obtain? || step.CopyNode? || step.NewGlobal? || step.MountAt? || step.SetUnmounted?
    || (step.RemoveNode? && !step.test)
  }

  function EditOf(s: P.Sys, step: P.Step): Edit
    requires Edits(step) && (step.Obtain? ==> step.g in s.owner && s.owner[step.g] in s.mounts)
  {
    match step
    case Obtain(g) => Count(if s.mounts[s.owner[g]].mounted then g else NULL_LOCATION)
    case CopyNode(m, l) => Copy(m, l)
    case RemoveNode(m, l, _) => Remove(m, l)
    case NewGlobal(m, g) => Create(m, g)
    case MountAt(root, point) => Edit.MountAt(s.next, root, point)
    case SetUnmounted(m) => Mark(m)
  }

  /** Nothing that is on its way out stays. */
  lemma StaysIsThere(s: P.Sys, m: Mid)
    requires P.Inv(s) && Stays(s, m)
    ensures m !in s.unmounting && m in s.chain && m in Whole(s).mounts && Whole(s).mounts[m] == s.mounts[m]
  {
    assert P.EntryOk(s, m);
    if m != NULL_MOUNT && !s.mounts[m].mounted {
      var g :| g in s.owner && s.owner[g] == m && s.held[g] >= 1;
      assert P.LocOk(s, g);
      if m in s.unmounting { GoingIsUnheld(s, g); }
    }
  }

  /** What stays is still there in the end. */
  lemma StaysIsFirm(s: P.Sys, m: Mid, f: State)
    requires P.Inv(s) && Inv(f) && Later(Whole(s), f) && s.held <= f.handles && Stays(s, m)
    ensures Firm(f, m) && f.mounts[m] == s.mounts[m] && (Held(s, m) ==> Handled(f, m))
    ensures f.mounts[m].root in f.refs && (f.mounts[m].point.Some? ==> f.mounts[m].point.value in f.refs)
  {
    StaysIsThere(s, m);
    OwnerOfWhole(s);
    if Held(s, m) {
      var g :| g in s.owner && s.owner[g] == m && s.held[g] >= 1;
      assert HandleOk(f, g) && LocationOk(f, g);
      assert g in f.owner && f.owner[g] == m && f.handles[g] >= 1;
    }
    assert MountOk(f, m);
  }

  lemma KeptIsThere(s: P.Sys, g: Gid, f: State)
    requires P.Inv(s) && Inv(f) && Later(Whole(s), f) && s.held <= f.handles && Kept(s, g)
    ensures g in f.refs && g in f.owner
  {
    OwnerOfWhole(s);
    if s.held[g] >= 1 {
      assert HandleOk(f, g);
    } else {
      var m :| Stays(s, m) && (s.mounts[m].root == g || s.mounts[m].point == Some(g));
      StaysIsFirm(s, m, f);
    }
    assert LocationOk(f, g);
  }

  /** A guarded call can be made now, and behind the releases under way. */
  lemma EditFits(s: P.Sys, step: P.Step, f: State)
    requires P.Inv(s) && P.Enabled(s, step) && Edits(step) && Guarded(s, step)
    requires Inv(f) && Later(Whole(s), f) && s.held <= f.handles
    ensures Fits(f, EditOf(s, step))
  {
    OwnerOfWhole(s);
    match step
    case Obtain(g) => CountFits(s, g, f);
    case CopyNode(m, _) => StaysIsFirm(s, m, f);
    case RemoveNode(m, _, _) => StaysIsFirm(s, m, f);
    case NewGlobal(m, g) =>
      StaysIsFirm(s, m, f);
      assert P.LocOk(s, g);
    case MountAt(root, point) => MountFits(s, root, point, f);
    case SetUnmounted(m) => StaysIsFirm(s, m, f);
  }

  lemma CountFits(s: P.Sys, g: Gid, f: State)
    requires P.Inv(s) && P.Enabled(s, P.Obtain(g)) && Guarded(s, P.Obtain(g))
    requires Inv(f) && Later(Whole(s), f) && s.held <= f.handles
    ensures Fits(f, EditOf(s, P.Obtain(g)))
    ensures Target(f, Some(g)) == EditOf(s, P.Obtain(g)).r
  {
    OwnerOfWhole(s);
    NullStays(f);
    assert MountOk(f, NULL_MOUNT);
    var m := s.owner[g];
    assert P.EntryOk(s, m);
    if s.mounts[m].mounted {
      KeptIsThere(s, g, f);
      StaysIsFirm(s, m, f);
    } else if m in f.mounts {
      assert f.mounts[m] == Whole(s).mounts[m] == s.mounts[m];
    }
  }

  lemma MountFits(s: P.Sys, root: Gid, point: Option<Gid>, f: State)
    requires P.Inv(s) && P.Enabled(s, P.MountAt(root, point))
    requires Inv(f) && Later(Whole(s), f) && s.held <= f.handles
    ensures Fits(f, Edit.MountAt(s.next, root, point))
  {
    OwnerOfWhole(s);
    assert P.EntryOk(s, s.next) && P.EntryOk(s, NULL_MOUNT) && P.LocOk(s, root);
    if point.Some? {
      assert P.LocOk(s, point.value) && P.EntryOk(s, s.owner[point.value]);
      assert f.handles[point.value] >= 1;
    }
  }

  /** Such a call moves nothing that is under way. */
  lemma EditPending(s: P.Sys, step: P.Step)
    requires P.Inv(s) && P.Enabled(s, step) && Edits(step) && Guarded(s, step) && P.Inv(P.Next(s, step))
    ensures UnderWay(P.Next(s, step)) == UnderWay(s)
  {
    var t := P.Next(s, step);
    forall x ensures UnderWay(t)[x] == UnderWay(s)[x] {
      PendingIs(s, x);
      PendingIs(t, x);
      KidsMove(s, step, x);
    }
  }

  lemma KidsMove(s: P.Sys, step: P.Step, x: Gid)
    requires P.Inv(s) && P.Enabled(s, step) && Edits(step) && Guarded(s, step)
    ensures var t := P.Next(s, step);
            && |Kids(t.mounts, x)| - |Kids(t.mounts - t.unmounting, x)|
               == |Kids(s.mounts, x)| - |Kids(s.mounts - s.unmounting, x)|
            && t.deferred == s.deferred && t.flying == s.flying && t.freeing == s.freeing
  {
    var t := P.Next(s, step);
    if step.MountAt? {
      assert P.EntryOk(s, s.next);
      var e := Mount(true, step.root, step.point);
      KidsWith(s.mounts, s.next, e, x);
      KidsWith(s.mounts - s.unmounting, s.next, e, x);
      assert t.mounts - t.unmounting == (s.mounts - s.unmounting)[s.next := e];
    } else {
      assert Kids(t.mounts, x) == Kids(s.mounts, x);
      assert Kids(t.mounts - t.unmounting, x) == Kids(s.mounts - s.unmounting, x);
    }
  }

  /** Nothing that a call works on is on its way out. */
  lemma EditIsAside(s: P.Sys, step: P.Step)
    requires P.Inv(s) && P.Enabled(s, step) && Edits(step) && Guarded(s, step)
    ensures var e := EditOf(s, step);
            && (e.Count? ==> e.r in s.refs && e.r in s.owner && e.r !in s.freeing && s.owner[e.r] !in s.unmounting)
            && (e.Create? ==> e.g !in s.freeing && e.g !in s.refs)
            && (e.MountAt? ==> e.root !in s.freeing && e.root !in s.refs)
            && (!e.Count? ==> e.m !in s.unmounting)
            && (e.Create? || e.Copy? || e.Remove? ==> e.m in s.chain)
            && (e.Mark? ==> e.m in s.mounts)
  {
    match step
    case Obtain(g) =>
      P.NullKeepsTwo(s);
      assert P.LocOk(s, g) && P.EntryOk(s, s.owner[g]) && P.LocOk(s, NULL_LOCATION) && P.EntryOk(s, NULL_MOUNT);
    case CopyNode(m, _) => StaysIsThere(s, m);
    case RemoveNode(m, _, _) => StaysIsThere(s, m);
    case NewGlobal(m, g) => StaysIsThere(s, m); assert P.LocOk(s, g);
    case MountAt(root, _) => assert P.LocOk(s, root) && P.EntryOk(s, s.next);
    case SetUnmounted(m) => StaysIsThere(s, m);
  }

  /** A state of the protocol after an edit, field by field. */
  ghost predicate After(s: P.Sys, e: Edit, t: P.Sys)
    requires (e.Count? ==> e.r in s.refs) && (e.Create? || e.Copy? || e.Remove? ==> e.m in s.chain)
    requires e.Mark? ==> e.m in s.mounts
  {
    t == s.(refs := Refs(s.refs, e), owner := Owners(s.owner, e), mounts := Mounts(s.mounts, e),
            chain := Chains(s.chain, e), held := Handles(s.held, e), next := t.next)
  }

  lemma EditNext(s: P.Sys, step: P.Step)
    requires P.Enabled(s, step) && Edits(step)
    requires step.Obtain? ==> NULL_LOCATION in s.refs
    ensures var e := EditOf(s, step);
            && (e.Count? ==> e.r in s.refs) && (e.Create? || e.Copy? || e.Remove? ==> e.m in s.chain)
            && (e.Mark? ==> e.m in s.mounts) && After(s, e, P.Next(s, step))
  {
  }

  /** The locations of entries that are not on their way out. */
  ghost function Left(refs: map<Gid, int>, owner: map<Gid, Mid>, freeing: set<Gid>, going: set<Mid>): map<Gid, int>
  {
    map g | g in refs && !(g in owner && owner[g] in going) :: if g in freeing then 1 else refs[g]
  }

  lemma LeftRefs(s: P.Sys, e: Edit)
    requires e.Count? ==> e.r in s.refs && e.r in s.owner && e.r !in s.freeing && s.owner[e.r] !in s.unmounting
    requires e.Create? ==> e.g !in s.freeing && e.g !in s.refs
    requires e.MountAt? ==> e.root !in s.freeing && e.root !in s.refs
    requires e.Create? || e.MountAt? ==> e.m !in s.unmounting
    ensures e.Count? ==> e.r in Left(s.refs, s.owner, s.freeing, s.unmounting)
    ensures Left(Refs(s.refs, e), Owners(s.owner, e), s.freeing, s.unmounting)
         == Refs(Left(s.refs, s.owner, s.freeing, s.unmounting), e)
  {
  }

  lemma LeftMounts(s: P.Sys, e: Edit)
    requires !e.Count? ==> e.m !in s.unmounting
    requires e.Create? || e.Copy? || e.Remove? ==> e.m in s.chain
    requires e.Mark? ==> e.m in s.mounts
    ensures Mounts(s.mounts, e) - s.unmounting == Mounts(s.mounts - s.unmounting, e)
    ensures Chains(s.chain, e) - s.unmounting == Chains(s.chain - s.unmounting, e)
  {
  }

  lemma WholeIs(s: P.Sys)
    ensures Whole(s)
         == State(Left(s.refs, s.owner, s.freeing, s.unmounting), s.owner, s.mounts - s.unmounting,
                  s.chain - s.unmounting, s.held + UnderWay(s), set g | g in s.frees, set m | m in s.unmounts)
  {
  }

  lemma HandlesMore(held: multiset<Gid>, more: multiset<Gid>, e: Edit)
    requires e.MountAt? && e.point.Some? ==> held[e.point.value] >= 1
    ensures Handles(held + more, e) == Handles(held, e) + more
  {
  }

  lemma EditWhole(s: P.Sys, step: P.Step)
    requires P.Inv(s) && P.Enabled(s, step) && Edits(step) && Guarded(s, step)
    requires Inv(Whole(s)) && Fits(Whole(s), EditOf(s, step)) && UnderWay(P.Next(s, step)) == UnderWay(s)
    ensures Whole(P.Next(s, step)) == Change(Whole(s), EditOf(s, step))
  {
    hide UnderWay, Whole, Left, Refs, Owners, Mounts, Chains, Handles, Fits, Inv, P.Inv;
    var e, t := EditOf(s, step), P.Next(s, step);
    P.NullKeepsTwo(s);
    EditIsAside(s, step);
    EditNext(s, step);
    WholeIs(s);
    WholeIs(t);
    LeftRefs(s, e);
    LeftMounts(s, e);
    HandlesMore(s.held, UnderWay(s), e);
    hide P.Next, P.Enabled, Guarded, EditOf;
  }

  // ------------------------------------------------------------------ one step

  /** A guarded call against the releases under way. */
  lemma EditEnds(s: P.Sys, step: P.Step, f: State)
    requires P.Inv(s) && P.Enabled(s, step) && Edits(step) && Guarded(s, step) && Ends(Whole(s), UnderWay(s), f)
    ensures var t, e := P.Next(s, step), EditOf(s, step);
            && P.Inv(t) && Inv(f) && Fits(f, e) && Ends(Whole(t), UnderWay(t), Change(f, e))
            && (step.Obtain? ==> Target(f, Some(step.g)) == e.r)
  {
    hide P.Inv, P.Next, Guarded, Whole, UnderWay, Ends, Inv, Fits, Later, Change, EditOf, Target;
    P.StepKeeps(s, step);
    EndIs(Whole(s), UnderWay(s), f);
    HandlesOfWhole(s);
    assert s.held <= f.handles && s.held <= Whole(s).handles;
    LaterSelf(Whole(s));
    EditFits(s, step, Whole(s));
    EditFits(s, step, f);
    EditPending(s, step);
    EditWhole(s, step);
    ChangeEnds(Whole(s), UnderWay(s), f, EditOf(s, step));
    if step.Obtain? { CountFits(s, step.g, f); }
  }

  /** The removal of a location, without its test. */
  lemma RemovedWhole(s: P.Sys, m: Mid, l: nat)
    requires P.Inv(s) && P.Enabled(s, P.RemoveNode(m, l, true))
    ensures m !in s.unmounting && Inv(Whole(s)) && Closable(Whole(s), m, l)
    ensures var s1 := P.Next(s, P.RemoveNode(m, l, false));
            && P.Inv(s1) && UnderWay(s1) == UnderWay(s) && Whole(s1) == Removed(Whole(s), m, l)
            && s1.unmounting == s.unmounting && P.Next(s, P.RemoveNode(m, l, true)) == P.Tested(s1, m)
  {
    assert P.EntryOk(s, m);
    P.StepKeeps(s, P.RemoveNode(m, l, false));
    WholeOk(s);
    var s1 := P.Next(s, P.RemoveNode(m, l, false));
    hide P.Inv, Inv, UnderWay;
    assert UnderWay(s1) == UnderWay(s) by { SameUnderWay(s, s1); }
    SameState(Whole(s1), Removed(Whole(s), m, l));
  }

  lemma SameUnderWay(s: P.Sys, t: P.Sys)
    requires t.deferred == s.deferred && t.flying == s.flying && t.freeing == s.freeing
    requires t.unmounts == s.unmounts && t.mounts == s.mounts && t.unmounting == s.unmounting
    ensures UnderWay(t) == UnderWay(s)
  {
  }

  /** The removal with its test against the releases under way. */
  lemma CloseEndsHere(s: P.Sys, m: Mid, l: nat, f: State)
    requires P.Inv(s) && P.Enabled(s, P.RemoveNode(m, l, true)) && Ends(Whole(s), UnderWay(s), f)
    ensures var t := P.Next(s, P.RemoveNode(m, l, true));
            P.Inv(t) && Inv(f) && Closable(f, m, l) && Ends(Whole(t), UnderWay(t), Closed(f, m, l))
  {
    hide P.Inv, P.Next, Whole, UnderWay, Ends, Inv, Closable, Removed, Release, Detach, Ready, P.IsReady;
    var t := P.Next(s, P.RemoveNode(m, l, true));
    P.StepKeeps(s, P.RemoveNode(m, l, true));
    RemovedWhole(s, m, l);
    var s1 := P.Next(s, P.RemoveNode(m, l, false));
    TestedWhole(s1, m);
    CloseEnds(Whole(s), UnderWay(s), f, m, l);
    if P.IsReady(s1, m) {
      MountsOfWhole(s1, m);
      EndsBefore(Whole(t), UnderWay(s), Closed(f, m, l), s1.mounts[m].point.value);
    }
  }

  // ------------------------------------------------------------------ whole runs

  /** The call that a step begins; the other steps belong to calls that have begun before. */
  function CallOf(s: P.Sys, step: P.Step): seq<Call>
  {
    match step
    case ReleaseNow(g) => [Give(g)]
    case ReleaseLater(g) => [Give(g)]
    case Obtain(g) => [Call.Obtain(g)]
    case CopyNode(m, l) => [Make(Copy(m, l))]
    case RemoveNode(m, l, test) => [if test then Close(m, l) else Make(Remove(m, l))]
    case NewGlobal(m, g) => [Make(Create(m, g))]
    case MountAt(root, point) => [Make(Edit.MountAt(s.next, root, point))]
    case SetUnmounted(m) => [Make(Mark(m))]
    case _ => []
  }

  lemma ObtainIsChange(f: State, g: Gid)
    requires Inv(f) && Fits(f, Count(Target(f, Some(g))))
    ensures Obtained(f, Some(g)) == Change(f, Count(Target(f, Some(g))))
  {
  }

  /** One step: the calls begun so far, done one after the other, lead to where the state ends
      when everything under way is done; and so they do with the call that the step begins. */
  lemma StepIsCall(s: P.Sys, step: P.Step, f: State) returns (f': State)
    requires P.Inv(s) && P.Enabled(s, step) && Guarded(s, step) && Ends(Whole(s), UnderWay(s), f)
    ensures P.Inv(P.Next(s, step)) && Ends(Whole(P.Next(s, step)), UnderWay(P.Next(s, step)), f')
    ensures Sequential(f, CallOf(s, step), f')
  {
    hide P.Inv, P.Next, Whole, UnderWay, Ends, Inv, Fits, Closable, Release, Change, Closed;
    var t := P.Next(s, step);
    if Edits(step) {
      EditEnds(s, step, f);
      if step.Obtain? { ObtainIsChange(f, step.g); }
      f' := Change(f, EditOf(s, step));
    } else if step.RemoveNode? {
      CloseEndsHere(s, step.m, step.l, f);
      f' := Closed(f, step.m, step.l);
    } else if step.ReleaseNow? || step.ReleaseLater? {
      MoveIsQuiet(s, step);
      EndIs(Whole(s), UnderWay(s), f);
      HandlesOfWhole(s);
      GiveEnds(Whole(s), UnderWay(s), f, step.g);
      f' := Release(f, step.g, 1);
    } else {
      assert UnderWay(s) + (Handed(step) + multiset{}) == UnderWay(s);
      StepEnds(s, step, multiset{}, f);
      assert UnderWay(t) + multiset{} == UnderWay(t);
      f' := f;
    }
  }

  /** A run of guarded steps, of any calls, from one state to another. */
  ghost predicate GuardedRun(s: P.Sys, steps: seq<P.Step>, t: P.Sys)
    decreases |steps|
  {
    if steps == [] then s == t
    else P.Enabled(s, steps[0]) && Guarded(s, steps[0]) && GuardedRun(P.Next(s, steps[0]), steps[1..], t)
  }

  /** The calls in the order in which they are begun. */
  ghost function Begun(s: P.Sys, steps: seq<P.Step>, t: P.Sys): seq<Call>
    requires GuardedRun(s, steps, t)
    decreases |steps|
  {
    if steps == [] then [] else CallOf(s, steps[0]) + Begun(P.Next(s, steps[0]), steps[1..], t)
  }

  lemma OneMore(a: State, calls: seq<Call>, b: State, more: seq<Call>, c: State)
    requires |calls| <= 1 && Sequential(a, calls, b) && Sequential(b, more, c)
    ensures Sequential(a, calls + more, c)
  {
    if calls == [] {
      assert calls + more == more;
    } else {
      assert calls[1..] == [] && (calls + more)[1..] == more;
    }
  }

  lemma {:induction false} RunIsSequential(s: P.Sys, steps: seq<P.Step>, t: P.Sys, f: State) returns (f': State)
    requires P.Inv(s) && GuardedRun(s, steps, t) && Ends(Whole(s), UnderWay(s), f)
    ensures P.Inv(t) && Ends(Whole(t), UnderWay(t), f') && Sequential(f, Begun(s, steps, t), f')
    decreases |steps|
  {
    hide P.Inv, P.Next, P.Enabled, Guarded, Whole, UnderWay, Ends, CallOf;
    if steps == [] {
      f' := f;
    } else {
      var b := StepIsCall(s, steps[0], f);
      f' := RunIsSequential(P.Next(s, steps[0]), steps[1..], t, b);
      CallsAreOne(s, steps[0]);
      OneMore(f, CallOf(s, steps[0]), b, Begun(P.Next(s, steps[0]), steps[1..], t), f');
    }
  }

  lemma CallsAreOne(s: P.Sys, step: P.Step)
    ensures |CallOf(s, step)| <= 1
  {
  }

  /** However the locked regions of any calls are interleaved, as long as each thread works on
      what stays: from a state with nothing under way to a state with nothing under way, the
      regions have done what the calls do one after the other, each with all it sets off, in
      the order in which they were begun. */
  lemma GuardedRunsAreSequential(s: P.Sys, steps: seq<P.Step>, t: P.Sys)
    requires P.Inv(s) && R.Quiescent(s) && GuardedRun(s, steps, t) && R.Quiescent(t)
    ensures Sequential(Whole(s), Begun(s, steps, t), Whole(t))
    ensures Whole(t) == State(t.refs, t.owner, t.mounts, t.chain, t.held, set g | g in t.frees, set m | m in t.unmounts)
  {
    hide P.Inv, R.Quiescent, Whole, UnderWay, GuardedRun, Begun, Inv;
    WholeOk(s);
    QuiescentIsWhole(s);
    QuiescentIsWhole(t);
    var none: seq<Gid> := [];
    assert EndsBy(Whole(s), none, multiset{}, Whole(s));
    var f := RunIsSequential(s, steps, t, Whole(s));
    var gs :| EndsBy(Whole(t), gs, multiset{}, f);
    assert |multiset(gs)| == 0 && gs == [];
  }

  /** Such a run: two file systems are mounted, the second on the root of the first. */
  lemma MountingIsGuarded() returns (steps: seq<P.Step>)
    ensures |steps| == 3 && GuardedRun(P.INITIAL, steps, R.MOUNTED) && R.Quiescent(P.INITIAL) && R.Quiescent(R.MOUNTED)
  {
    hide P.Next, P.Enabled;
    R.ExampleRooted();
    R.ExampleMounted();
    steps := [P.MountAt(1, None), P.Obtain(1), P.MountAt(2, Some(1))];
    var s := P.Next(P.INITIAL, steps[0]);
    assert Guarded(P.INITIAL, steps[0]) && Guarded(R.ROOTED, steps[2]);
    assert Guarded(s, steps[1]) by { FirstMount(s); }
    assert GuardedRun(R.MOUNTED, [], R.MOUNTED);
    assert steps[1..][1..] == steps[2..] && steps[2..][1..] == [];
    assert GuardedRun(R.ROOTED, steps[2..], R.MOUNTED);
    assert GuardedRun(s, steps[1..], R.MOUNTED);
  }

  lemma FirstMount(s: P.Sys)
    requires P.Enabled(P.INITIAL, P.MountAt(1, None)) && s == P.Next(P.INITIAL, P.MountAt(1, None))
    ensures Kept(s, 1)
  {
    assert Stays(s, 1) && s.mounts[1].root == 1;
  }
}
