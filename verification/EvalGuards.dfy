/** Path evaluations against the location protocol: which of the locations that they take off
    a chain without a test can lose an unmount. */
module EvalGuards {
  import opened Basics
  import opened Locations
  import opened DeferredRelease
  import opened EvalPath
  import opened EvalPathProps
  import P = LocationProtocol
  import R = LocationRuns

  /** The mount entry of a location. */
  function EntryOf(loc: Loc): Mid
  {
    if loc.At? then loc.m else NULL_MOUNT
  }

  /** Somebody, such as a path evaluation, has a handle to a location on this one's mount. */
  ghost predicate Holds(s: P.Sys, loc: Loc)
  {
    loc.At? ==> exists g :: g in s.owner && s.owner[g] == loc.m && s.held[g] > 0
  }

  /** The locations that an evaluation takes off their chains without a test: at every restart,
      and the current one in the end. Calls such as `unmount` mark the entry of the latter. */
  ghost predicate TakesOff(c: Ctx, d: Drop)
  {
    d in c.drops || d == Drop(c.current, c.start)
  }

  /** The null entry is never lost: its own root is its mount point. */
  lemma NullIsNotLost(s: P.Sys, step: P.Step)
    requires P.Inv(s)
    ensures !R.Loses(s, step, NULL_MOUNT)
  {
    assert NULL_MOUNT in Kids(s.mounts, NULL_LOCATION);
  }

  lemma HeldIsNotLost(s: P.Sys, step: P.Step, held: Loc, loc: Loc)
    requires P.Inv(s) && Holds(s, held) && Anchors(held, loc)
    ensures !R.Loses(s, step, EntryOf(loc))
  {
    if loc.At? {
      var g :| g in s.owner && s.owner[g] == loc.m && s.held[g] > 0;
      assert R.HandleOn(s, loc.m);
    } else {
      NullIsNotLost(s, step);
    }
  }

  /** No untested step of a path evaluation loses an unmount, whatever other threads do: the
      start location that it has at that moment is on the same mount. */
  lemma EvaluationLosesNothing(w: World, path: string, flags: Flags, root: Loc, cwd: Loc, errno: Errno,
                               d: Drop, s: P.Sys, step: P.Step)
    requires w.Valid() && TakesOff(Evaluate(w, path, flags, root, cwd, errno), d)
    requires P.Inv(s) && Holds(s, d.start)
    ensures !R.Loses(s, step, EntryOf(d.current))
  {
    hide Evaluate, P.Inv, R.Loses;
    EvaluationIsAnchored(w, path, flags, root, cwd, errno);
    HeldIsNotLost(s, step, d.start, d.current);
  }

  /** The same for an evaluation with a parent, apart from the parent's own location. */
  lemma ParentEvaluationLosesNothing(w: World, path: string, flags: Flags, parentFlags: Flags, root: Loc, cwd: Loc,
                                     errno: Errno, d: Drop, s: P.Sys, step: P.Step)
    requires w.Valid() && TakesOff(EvaluateParent(w, path, flags, parentFlags, root, cwd, errno).c, d)
    requires P.Inv(s) && Holds(s, d.start)
    ensures !R.Loses(s, step, EntryOf(d.current))
  {
    hide EvaluateParent, P.Inv, R.Loses;
    ParentStaysInside(w, path, flags, parentFlags, root, cwd, errno);
    HeldIsNotLost(s, step, d.start, d.current);
  }

  /** The parent's location is on the mount of the start location that the evaluation ends
      with, or of its root location, or is null. */
  predicate ParentGuarded(r: WithParent)
  {
    EntryOf(r.parent) in {NULL_MOUNT, EntryOf(r.c.start), EntryOf(r.c.root)}
  }

  /** The handles of an evaluation when it is cleaned up, and its parent's location. */
  ghost predicate AtCleanup(s: P.Sys, r: WithParent, l: nat)
  {
    P.Inv(s) && Holds(s, r.c.start) && Holds(s, r.c.root) && P.Enabled(s, P.RemoveNode(EntryOf(r.parent), l, false))
  }

  /** A state with a handle on each of the mounts `others` and a path evaluation's location on
      the unmounted mount `p`. */
  ghost function Stranded(p: Mid, others: set<Mid>, l: nat, next: Mid): P.Sys
  {
    var all := others + {NULL_MOUNT, p};
    P.Sys(
      map g | g in all :: if g in others then 2 else if g == p then 1 else 5,
      map g | g in all :: g,
      map m | m in all :: Mount(m in others, m, if m in others then None else Some(NULL_LOCATION)),
      map m | m in all :: if m == p then {Global(p), Local(l)} else {Global(m)},
      multiset{NULL_LOCATION, NULL_LOCATION} + multiset(others), [], multiset{}, {}, {}, [], [], next)
  }

  ghost function MidsBelow(n: nat): (r: set<Mid>)
    ensures forall m: Mid :: m in r <==> m < n
  {
    if n == 0 then {} else MidsBelow(n - 1) + {n - 1}
  }

  lemma StrandedLocOk(p: Mid, others: set<Mid>, l: nat, next: Mid, g: Gid)
    requires p !in others && NULL_MOUNT !in others && p != NULL_MOUNT
    ensures P.LocOk(Stranded(p, others, l, next), g)
  {
    var s := Stranded(p, others, l, next);
    if g == NULL_LOCATION {
      assert Kids(s.mounts, g) == {NULL_MOUNT, p};
    } else {
      assert Kids(s.mounts, g) == {};
    }
  }

  lemma StrandedEntryOk(p: Mid, others: set<Mid>, l: nat, next: Mid, m: Mid)
    requires p !in others && NULL_MOUNT !in others && p != NULL_MOUNT
    requires m < next <==> m in others || m == p || m == NULL_MOUNT
    ensures P.EntryOk(Stranded(p, others, l, next), m) && P.NodesOk(Stranded(p, others, l, next), m)
  {
  }

  lemma StrandedOk(p: Mid, others: set<Mid>, l: nat, next: Mid)
    requires p !in others && NULL_MOUNT !in others && p != NULL_MOUNT
    requires forall m: Mid :: m < next <==> m in others || m == p || m == NULL_MOUNT
    ensures P.Inv(Stranded(p, others, l, next))
  {
    hide P.LocOk, P.EntryOk, P.NodesOk;
    var s := Stranded(p, others, l, next);
    forall g ensures P.LocOk(s, g) { StrandedLocOk(p, others, l, next, g); }
    forall m ensures P.EntryOk(s, m) && P.NodesOk(s, m) { StrandedEntryOk(p, others, l, next, m); }
  }

  lemma StrandedLoses(p: Mid, others: set<Mid>, l: nat, next: Mid)
    requires p !in others && NULL_MOUNT !in others && p != NULL_MOUNT
    ensures var s, step := Stranded(p, others, l, next), P.RemoveNode(p, l, false);
            P.Enabled(s, step) && R.Loses(s, step, p)
  {
    var s := Stranded(p, others, l, next);
    assert {Global(p), Local(l)} - {Local(l)} == {Global(p)};
    assert Kids(s.mounts, p) == {};
  }

  lemma StrandedHolds(p: Mid, others: set<Mid>, l: nat, next: Mid, loc: Loc)
    requires EntryOf(loc) in others + {NULL_MOUNT} && NULL_MOUNT !in others
    ensures Holds(Stranded(p, others, l, next), loc)
  {
    var s, g := Stranded(p, others, l, next), EntryOf(loc);
    assert g in s.owner && s.owner[g] == g && s.held[g] > 0;
  }

  /** `rtems_filesystem_eval_path_cleanup_with_parent` takes the parent's location off without a
      test. The handles of the evaluation rule out that this loses an unmount if and only if
      they are on the parent's mount. */
  lemma CleanupWithParentIff(w: World, path: string, flags: Flags, parentFlags: Flags, root: Loc, cwd: Loc,
                             errno: Errno, l: nat)
    requires w.Valid()
    ensures var r := EvaluateParent(w, path, flags, parentFlags, root, cwd, errno);
            ParentGuarded(r) <==>
            forall s :: AtCleanup(s, r, l) ==> !R.Loses(s, P.RemoveNode(EntryOf(r.parent), l, false), EntryOf(r.parent))
  {
    hide EvaluateParent, P.Inv, R.Loses, Holds, P.Enabled, Stranded, World.Valid;
    var r := EvaluateParent(w, path, flags, parentFlags, root, cwd, errno);
    var p, step := EntryOf(r.parent), P.RemoveNode(EntryOf(r.parent), l, false);
    if ParentGuarded(r) {
      forall s | AtCleanup(s, r, l) ensures !R.Loses(s, step, p) {
        if p == NULL_MOUNT {
          NullIsNotLost(s, step);
        } else {
          HeldIsNotLost(s, step, if EntryOf(r.c.start) == p then r.c.start else r.c.root, r.parent);
        }
      }
    } else {
      var next := p + EntryOf(r.c.start) + EntryOf(r.c.root) + 1;
      var others := MidsBelow(next) - {NULL_MOUNT, p};
      StrandedOk(p, others, l, next);
      StrandedLoses(p, others, l, next);
      StrandedHolds(p, others, l, next, r.c.start);
      StrandedHolds(p, others, l, next, r.c.root);
      assert AtCleanup(Stranded(p, others, l, next), r, l);
    }
  }
}
