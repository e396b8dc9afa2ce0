/** The interleaved locked regions against whole releases: once nothing is under way any more,
    a run of releases has done what releasing one after the other does. */
module LocationRefinement {
  import opened Basics
  import opened Locations
  import opened DeferredRelease
  import P = LocationProtocol
  import R = LocationRuns

  // ------------------------------------------------------------------ what is under way

  /** The deferred list as a bag. */
  ghost function OwedBag(list: seq<Entry>): multiset<Gid>
  {
    if list == [] then multiset{}
    else var rest := OwedBag(list[1..]); rest[list[0].g := rest[list[0].g] + list[0].count]
  }

  lemma {:induction false} OwedBagIs(list: seq<Entry>, g: Gid)
    ensures OwedBag(list)[g] == Owed(list, g)
  {
    if list != [] { OwedBagIs(list[1..], g); }
  }

  /** The mount points whose release the entries in `going` still owe. */
  ghost function Points(log: seq<Mid>, mounts: map<Mid, Mount>, going: set<Mid>): multiset<Gid>
  {
    if log == [] then multiset{}
    else
      var n := |log| - 1;
      var rest, m := Points(log[..n], mounts, going), log[n];
      if m in going && m in mounts && mounts[m].point.Some? then rest + multiset{mounts[m].point.value} else rest
  }

  ghost function GoingKids(log: seq<Mid>, mounts: map<Mid, Mount>, going: set<Mid>, g: Gid): set<Mid>
  {
    set m | m in log && m in going && m in mounts && mounts[m].point == Some(g)
  }

  lemma GoingKidsGrow(front: seq<Mid>, m: Mid, mounts: map<Mid, Mount>, going: set<Mid>, g: Gid)
    requires m !in front
    ensures var some, all := GoingKids(front, mounts, going, g), GoingKids(front + [m], mounts, going, g);
            |all| == |some| + (if m in going && m in mounts && mounts[m].point == Some(g) then 1 else 0)
  {
    var some, all := GoingKids(front, mounts, going, g), GoingKids(front + [m], mounts, going, g);
    if m in going && m in mounts && mounts[m].point == Some(g) {
      assert all == some + {m};
    } else {
      assert all == some;
    }
  }

  lemma {:induction false} PointsCount(log: seq<Mid>, mounts: map<Mid, Mount>, going: set<Mid>, g: Gid)
    requires NoRepeats(log)
    ensures Points(log, mounts, going)[g] == |GoingKids(log, mounts, going, g)|
  {
    if log == [] {
      assert GoingKids(log, mounts, going, g) == {};
    } else {
      hide GoingKids;
      var n := |log| - 1;
      var front, m := log[..n], log[n];
      assert forall i :: 0 <= i < n ==> front[i] == log[i] != m;
      PointsCount(front, mounts, going, g);
      GoingKidsGrow(front, m, mounts, going, g);
      assert log == front + [m];
    }
  }

  /** Every reference that a running call still has to take back. A location on its way out
      counts for one: taking it off its chain is what releases it. */
  ghost function UnderWay(s: P.Sys): multiset<Gid>
  {
    OwedBag(s.deferred) + s.flying + multiset(s.freeing) + Points(s.unmounts, s.mounts, s.unmounting)
  }

  /** The state without what is under way: locations whose count has reached zero still have
      their last reference, and entries found ready are gone. */
  ghost function Whole(s: P.Sys): State
  {
    State(
      map g | g in s.refs && !(g in s.owner && s.owner[g] in s.unmounting) :: if g in s.freeing then 1 else s.refs[g],
      s.owner,
      s.mounts - s.unmounting,
      s.chain - s.unmounting,
      s.held + UnderWay(s),
      set g | g in s.frees,
      set m | m in s.unmounts)
  }

  // ------------------------------------------------------------------ the invariant carries over

  lemma KidsSplit(s: P.Sys, g: Gid)
    requires P.Inv(s)
    ensures var going, staying := GoingKids(s.unmounts, s.mounts, s.unmounting, g), Kids(s.mounts - s.unmounting, g);
            |Kids(s.mounts, g)| == |going| + |staying|
  {
    hide P.Inv;
    var going := GoingKids(s.unmounts, s.mounts, s.unmounting, g);
    var staying := Kids(s.mounts - s.unmounting, g);
    forall m | m in s.unmounting ensures m in s.unmounts { EntryIsOk(s, m); }
    assert Kids(s.mounts, g) == going + staying;
    assert going !! staying;
  }

  lemma PendingIs(s: P.Sys, g: Gid)
    requires P.Inv(s)
    ensures UnderWay(s)[g] == Owed(s.deferred, g) + s.flying[g] + (if g in s.freeing then 1 else 0)
                           + (|Kids(s.mounts, g)| - |Kids(s.mounts - s.unmounting, g)|)
  {
    hide OwedBag, Owed, Points, GoingKids, Kids;
    OwedBagIs(s.deferred, g);
    PointsCount(s.unmounts, s.mounts, s.unmounting, g);
    KidsSplit(s, g);
  }

  /** A location of an entry on its way out is its root, and nobody holds it. */
  lemma GoingIsUnheld(s: P.Sys, g: Gid)
    requires P.Inv(s) && g in s.refs && g in s.owner && s.owner[g] in s.unmounting
    ensures s.held[g] == 0 && UnderWay(s)[g] == 0 && |Kids(s.mounts, g)| == 0
  {
    assert P.LocOk(s, g);
    PendingIs(s, g);
    assert Kids(s.mounts - s.unmounting, g) <= Kids(s.mounts, g);
  }

  lemma WholeLocationOk(s: P.Sys, g: Gid)
    requires P.Inv(s)
    ensures LocationOk(Whole(s), g) && HandleOk(Whole(s), g)
  {
    assert P.LocOk(s, g);
    PendingIs(s, g);
    assert Kids(s.mounts - s.unmounting, g) <= Kids(s.mounts, g);
    if g in s.refs && g in s.owner && s.owner[g] in s.unmounting { GoingIsUnheld(s, g); }
  }

  lemma WholeMountOk(s: P.Sys, m: Mid)
    requires P.Inv(s)
    ensures MountOk(Whole(s), m) && ChainOk(Whole(s), m)
  {
    assert P.EntryOk(s, m) && P.NodesOk(s, m);
    if m in s.mounts && s.mounts[m].point.Some? {
      var g := s.mounts[m].point.value;
      KidCounts(s.mounts, m, g);
      assert P.LocOk(s, g);
      if g in s.refs && g in s.owner && s.owner[g] in s.unmounting { GoingIsUnheld(s, g); }
    }
  }

  lemma WholeOk(s: P.Sys)
    requires P.Inv(s)
    ensures Inv(Whole(s))
  {
    hide LocationOk, HandleOk, MountOk, ChainOk, P.LocOk, P.NodesOk, UnderWay;
    forall g ensures LocationOk(Whole(s), g) && HandleOk(Whole(s), g) { WholeLocationOk(s, g); }
    forall m ensures MountOk(Whole(s), m) && ChainOk(Whole(s), m) { WholeMountOk(s, m); }
    assert P.EntryOk(s, NULL_MOUNT);
  }

  // ------------------------------------------------------------------ one step

  /** Steps that only move a reference from one place to another. */
  predicate Moves(step: P.Step)
  {
    step.ReleaseNow? || step.ReleaseLater? || step.Pop? || step.Leave?
  }

  function Handed(step: P.Step): multiset<Gid>
  {
    if step.ReleaseNow? || step.ReleaseLater? then multiset{step.g} else multiset{}
  }

  lemma LeaveCounts(s: P.Sys, m: Mid, enabled: bool, g: Gid)
    requires P.Inv(s) && P.Enabled(s, P.Leave(m, enabled)) && P.Inv(P.Next(s, P.Leave(m, enabled)))
    ensures UnderWay(P.Next(s, P.Leave(m, enabled)))[g] == UnderWay(s)[g]
  {
    hide UnderWay, P.Inv, Defer, ListOk, Owed;
    var t := P.Next(s, P.Leave(m, enabled));
    PendingIs(s, g);
    PendingIs(t, g);
    ListIsOk(s);
    DeferOwed(s.deferred, s.mounts[m].point.value, g);
    KidsWithout(s.mounts, m, g);
    assert t.mounts - t.unmounting == s.mounts - s.unmounting;
  }

  lemma MoveCounts(s: P.Sys, step: P.Step, g: Gid)
    requires P.Inv(s) && P.Enabled(s, step) && Moves(step) && P.Inv(P.Next(s, step))
    ensures var t := P.Next(s, step);
            t.held[g] + Handed(step)[g] == s.held[g] && UnderWay(t)[g] == UnderWay(s)[g] + Handed(step)[g]
  {
    if step.Leave? {
      hide UnderWay, P.Inv;
      LeaveCounts(s, step.m, step.enabled, g);
    } else {
      hide UnderWay, P.Inv, Defer, ListOk;
      PendingIs(s, g);
      PendingIs(P.Next(s, step), g);
      ListIsOk(s);
      if step.ReleaseLater? { DeferOwed(s.deferred, step.g, g); }
    }
  }

  lemma ListIsOk(s: P.Sys)
    requires P.Inv(s)
    ensures ListOk(s.deferred)
  {
  }

  lemma LeaveFields(s: P.Sys, m: Mid, enabled: bool)
    requires P.Inv(s) && P.Enabled(s, P.Leave(m, enabled))
    ensures var a, b := Whole(s), Whole(P.Next(s, P.Leave(m, enabled)));
            a.refs == b.refs && a.mounts == b.mounts && a.chain == b.chain
  {
    hide UnderWay, Defer;
    assert P.EntryOk(s, m);
    forall g | g in s.refs ensures g in s.owner && (s.owner[g] == m ==> s.mounts[m].root == g) {
      assert P.LocOk(s, g);
    }
  }

  lemma MoveFields(s: P.Sys, step: P.Step)
    requires P.Inv(s) && P.Enabled(s, step) && Moves(step)
    ensures var a, b := Whole(s), Whole(P.Next(s, step));
            && a.refs == b.refs && a.mounts == b.mounts && a.chain == b.chain
            && a.owner == b.owner && a.freed == b.freed && a.gone == b.gone
  {
    hide UnderWay, Defer, P.Inv;
    if step.Leave? { LeaveFields(s, step.m, step.enabled); }
  }

  lemma HandlesOfWhole(s: P.Sys)
    ensures Whole(s).handles == s.held + UnderWay(s)
  {
  }

  /** They do not change what is left when everything under way is done. */
  lemma MoveIsQuiet(s: P.Sys, step: P.Step)
    requires P.Inv(s) && P.Enabled(s, step) && Moves(step)
    ensures var t := P.Next(s, step);
            P.Inv(t) && Whole(t) == Whole(s) && UnderWay(t) == UnderWay(s) + Handed(step)
  {
    hide UnderWay, P.Inv, P.Enabled, P.Next, Whole, Handed, Moves;
    var t := P.Next(s, step);
    P.StepKeeps(s, step);
    forall g ensures t.held[g] + Handed(step)[g] == s.held[g] && UnderWay(t)[g] == UnderWay(s)[g] + Handed(step)[g] {
      MoveCounts(s, step, g);
    }
    MoveFields(s, step);
    HandlesOfWhole(s);
    HandlesOfWhole(t);
    assert s.held + UnderWay(s) == t.held + UnderWay(t);
    SameState(Whole(s), Whole(t));
  }

  /** How much of a count-down takes effect: the last reference stays until the location is
      taken off its chain. */
  function Effective(s: P.Sys, g: Gid, n: nat): int
    requires g in s.refs
  {
    if s.refs[g] == n then n - 1 else n
  }

  lemma CountedPending(s: P.Sys, g: Gid, n: nat)
    requires P.Inv(s) && P.Enabled(s, P.CountDown(g, n)) && P.Inv(P.Counted(s, g, n))
    ensures var k := Effective(s, g, n);
            && s.refs[g] >= n && UnderWay(s)[g] >= n && 0 <= k <= n && g !in s.freeing && s.owner[g] !in s.unmounting
            && UnderWay(P.Counted(s, g, n)) == UnderWay(s)[g := UnderWay(s)[g] - k]
  {
    hide UnderWay, P.Inv, Owed, ListOk;
    var t, k := P.Counted(s, g, n), Effective(s, g, n);
    LocIsOk(s, g);
    PendingIs(s, g);
    assert Kids(s.mounts - s.unmounting, g) <= Kids(s.mounts, g);
    forall x ensures UnderWay(t)[x] + (if x == g then k else 0) == UnderWay(s)[x] {
      PendingIs(s, x);
      PendingIs(t, x);
    }
    if s.owner[g] in s.unmounting { GoingIsUnheld(s, g); assert false; }
  }

  lemma CountedWhole(s: P.Sys, g: Gid, n: nat)
    requires P.Inv(s) && P.Enabled(s, P.CountDown(g, n)) && P.Inv(P.Counted(s, g, n))
    ensures var t, k := P.Counted(s, g, n), Effective(s, g, n);
            && Inv(Whole(s)) && UnderWay(s)[g] >= n && 0 <= k <= n
            && (k == 0 ==> Whole(t) == Whole(s))
            && (k > 0 ==> Whole(t) == Drop(Whole(s), g, k))
            && UnderWay(t) == UnderWay(s)[g := UnderWay(s)[g] - k]
  {
    hide UnderWay, Inv, P.Inv;
    var t, k := P.Counted(s, g, n), Effective(s, g, n);
    WholeOk(s);
    CountedPending(s, g, n);
    var a, b := Whole(s), Whole(t);
    if k > 0 {
      DroppedKeeps(a, g, k);
      var d := Drop(a, g, k);
      assert b.refs == d.refs;
      assert b.handles == d.handles;
      SameState(b, d);
    } else {
      assert b.refs == a.refs;
      assert b.handles == a.handles;
      SameState(b, a);
    }
  }

  lemma LocIsOk(s: P.Sys, g: Gid)
    requires P.Inv(s)
    ensures P.LocOk(s, g)
  {
  }

  lemma TakenWhole(s: P.Sys, g: Gid)
    requires P.Inv(s) && P.Enabled(s, P.TakeOff(g)) && P.Inv(P.Taken(s, g))
    ensures var t := P.Taken(s, g);
            && Inv(Whole(s)) && UnderWay(s)[g] >= 1 && Whole(t) == Drop(Whole(s), g, 1)
            && UnderWay(t) == UnderWay(s)[g := UnderWay(s)[g] - 1]
  {
    hide UnderWay, Inv, P.Inv;
    var t := P.Taken(s, g);
    WholeOk(s);
    LocIsOk(s, g);
    forall x ensures UnderWay(t)[x] + (if x == g then 1 else 0) == UnderWay(s)[x] {
      PendingIs(s, x);
      PendingIs(t, x);
    }
    PendingIs(s, g);
    assert Kids(s.mounts - s.unmounting, g) <= Kids(s.mounts, g);
    if s.owner[g] in s.unmounting { assert false; }
    var a, b := Whole(s), Whole(t);
    DroppedKeeps(a, g, 1);
    var d := Drop(a, g, 1);
    assert b.refs == d.refs;
    assert b.chain == d.chain;
    assert b.handles == d.handles;
    assert b.freed == d.freed;
    SameState(b, d);
  }

  /** The test at the end of a region detaches a ready entry, with its mount point to be
      released. */
  lemma TestedWhole(s: P.Sys, m: Mid)
    requires P.Inv(s) && P.Inv(P.Tested(s, m)) && m !in s.unmounting
    ensures Inv(Whole(s)) && Ready(Whole(s), m) == P.IsReady(s, m)
    ensures var t := P.Tested(s, m);
            if P.IsReady(s, m) then
              && Detach(Whole(s), m).owner == s.owner && Whole(t) == Detach(Whole(s), m)
              && UnderWay(t) == UnderWay(s) + multiset{s.mounts[m].point.value}
            else t == s
  {
    hide UnderWay, Inv, P.Inv;
    WholeOk(s);
    EntryIsOk(s, m);
    if m in s.mounts { LocIsOk(s, s.mounts[m].root); }
    if P.IsReady(s, m) {
      var t, a := P.Tested(s, m), Whole(s);
      DetachedKeeps(a, m);
      var d, point := Detach(a, m), s.mounts[m].point.value;
      forall x ensures UnderWay(t)[x] == UnderWay(s)[x] + if x == point then 1 else 0 {
        PendingIs(s, x);
        PendingIs(t, x);
        assert s.mounts - t.unmounting == (s.mounts - s.unmounting) - {m};
        KidsWithout(s.mounts - s.unmounting, m, x);
      }
      var b := Whole(t);
      forall g | g in s.refs && g in s.owner && s.owner[g] == m ensures g == s.mounts[m].root {
        LocIsOk(s, g);
        SingletonOf(s.chain[m], Global(s.mounts[m].root));
      }
      assert b.refs == d.refs;
      assert b.mounts == d.mounts;
      assert b.chain == d.chain;
      assert b.handles == d.handles;
      assert b.gone == d.gone;
      SameState(b, d);
    }
  }

  lemma EntryIsOk(s: P.Sys, m: Mid)
    requires P.Inv(s)
    ensures P.EntryOk(s, m)
  {
  }

  // ------------------------------------------------------------------ where it ends

  lemma AllHead(a: State, g: Gid, gs: seq<Gid>)
    requires Covers(a, [], [g] + gs)
    ensures Inv(a) && a.handles[g] >= 1 && Covers(Release(a, g, 1), [], gs)
    ensures ReleaseAll(a, [g] + gs) == ReleaseAll(Release(a, g, 1), gs)
  {
    hide Release, Inv;
    MoreHead(a, [], g, gs);
    assert ([g] + gs)[1..] == gs;
  }

  lemma SameCovers(a: State, gs: seq<Gid>, hs: seq<Gid>)
    requires Covers(a, [], gs) && multiset(hs) == multiset(gs)
    ensures Covers(a, [], hs)
  {
  }

  lemma Twice(a: State, g: Gid, h: Gid, gs: seq<Gid>)
    requires Covers(a, [], [g] + ([h] + gs))
    ensures Covers(a, [], [h] + ([g] + gs)) && ReleaseAll(a, [g] + ([h] + gs)) == ReleaseAll(a, [h] + ([g] + gs))
  {
    hide Release, Inv, Covers, ReleaseAll;
    assert multiset([g] + ([h] + gs)) == multiset([h] + ([g] + gs));
    SameCovers(a, [g] + ([h] + gs), [h] + ([g] + gs));
    AllHead(a, g, [h] + gs);
    AllHead(Release(a, g, 1), h, gs);
    AllHead(a, h, [g] + gs);
    AllHead(Release(a, h, 1), g, gs);
    ReleasesCommute(a, g, 1, h, 1);
  }

  lemma Regroup(h: Gid, w: seq<Gid>, g: Gid, v: seq<Gid>)
    ensures [h] + w + [g] + v == [h] + (w + [g] + v) && [h] + w + v == [h] + (w + v)
    ensures multiset([h] + ([g] + (w + v))) == multiset([h] + (w + [g] + v))
  {
  }

  /** A release may be brought to the front. */
  lemma {:induction false} ToFront(a: State, u: seq<Gid>, g: Gid, v: seq<Gid>)
    requires Covers(a, [], u + [g] + v)
    ensures Covers(a, [], [g] + (u + v)) && ReleaseAll(a, u + [g] + v) == ReleaseAll(a, [g] + (u + v))
    decreases |u|
  {
    hide Release, Inv, Covers, ReleaseAll;
    if u == [] {
      assert u + [g] + v == [g] + (u + v);
    } else {
      var h, w := u[0], u[1..];
      assert u == [h] + w;
      Regroup(h, w, g, v);
      var behind := w + v;
      AllHead(a, h, w + [g] + v);
      ToFront(Release(a, h, 1), w, g, v);
      SameCovers(a, [h] + (w + [g] + v), [h] + ([g] + behind));
      AllHead(a, h, [g] + behind);
      Twice(a, h, g, behind);
    }
  }

  /** An occurrence of `g`, and what is around it. */
  lemma Around(hs: seq<Gid>, g: Gid) returns (u: seq<Gid>, v: seq<Gid>)
    requires g in multiset(hs)
    ensures hs == u + [g] + v && multiset(hs) == multiset{g} + multiset(u + v)
  {
    var k :| 0 <= k < |hs| && hs[k] == g;
    u, v := hs[..k], hs[k + 1..];
    assert hs == u + [g] + v;
  }

  /** The order of releases does not matter. */
  lemma {:induction false} AnyOrder(a: State, gs: seq<Gid>, hs: seq<Gid>)
    requires Covers(a, [], gs) && multiset(gs) == multiset(hs)
    ensures Covers(a, [], hs) && ReleaseAll(a, gs) == ReleaseAll(a, hs)
    decreases |gs|
  {
    hide Release, Inv, Covers, ReleaseAll;
    SameCovers(a, gs, hs);
    if gs == [] {
      assert |multiset(hs)| == 0 && hs == [];
    } else {
      var g, rest := gs[0], gs[1..];
      assert gs == [g] + rest && g in multiset(gs);
      var u, v := Around(hs, g);
      var others := u + v;
      ToFront(a, u, g, v);
      AllHead(a, g, rest);
      AllHead(a, g, others);
      assert multiset(rest) == multiset(others) by {
        assert multiset(gs) == multiset{g} + multiset(rest);
      }
      AnyOrder(Release(a, g, 1), rest, others);
    }
  }

  ghost predicate EndsBy(a: State, gs: seq<Gid>, bag: multiset<Gid>, f: State)
  {
    multiset(gs) == bag && Covers(a, [], gs) && ReleaseAll(a, gs) == f
  }

  /** Releasing the references in `bag`, in any order, ends in `f`. */
  ghost predicate Ends(a: State, bag: multiset<Gid>, f: State)
  {
    exists gs: seq<Gid> :: EndsBy(a, gs, bag, f)
  }

  lemma SeqOf(bag: multiset<Gid>) returns (gs: seq<Gid>)
    ensures multiset(gs) == bag
    decreases |bag|
  {
    if bag == multiset{} {
      gs := [];
    } else {
      var g :| g in bag;
      gs := SeqOf(bag - multiset{g});
      gs := [g] + gs;
      assert multiset(gs) == multiset{g} + (bag - multiset{g});
    }
  }

  /** One reference of the bag released. */
  lemma EndsAfterOne(a: State, bag: multiset<Gid>, f: State, g: Gid)
    requires Ends(a, bag, f) && bag[g] >= 1
    ensures Inv(a) && a.handles[g] >= 1 && Ends(Release(a, g, 1), bag - multiset{g}, f)
  {
    hide Release, Inv, Covers, ReleaseAll;
    var gs :| EndsBy(a, gs, bag, f);
    var rest := SeqOf(bag - multiset{g});
    assert multiset([g] + rest) == multiset{g} + multiset(rest);
    AnyOrder(a, gs, [g] + rest);
    AllHead(a, g, rest);
    assert EndsBy(Release(a, g, 1), rest, bag - multiset{g}, f);
  }

  lemma {:induction false} EndsAfter(a: State, bag: multiset<Gid>, f: State, g: Gid, n: nat)
    requires Ends(a, bag, f) && bag[g] >= n >= 1
    ensures Inv(a) && a.handles[g] >= n && Ends(Release(a, g, n), bag[g := bag[g] - n], f)
    decreases n
  {
    hide Release, Inv, Ends;
    if n == 1 {
      EndsAfterOne(a, bag, f, g);
      assert bag - multiset{g} == bag[g := bag[g] - 1];
    } else {
      EndsAfter(a, bag, f, g, n - 1);
      var b, less := Release(a, g, n - 1), bag[g := bag[g] - (n - 1)];
      EndsAfterOne(b, less, f, g);
      assert less - multiset{g} == bag[g := bag[g] - n];
      ReleasesAdd(a, g, n - 1, 1);
    }
  }

  /** One more reference to release. */
  lemma EndsBefore(a: State, bag: multiset<Gid>, f: State, g: Gid)
    requires Inv(a) && a.handles[g] >= 1 && Ends(Release(a, g, 1), bag, f)
    ensures Ends(a, bag + multiset{g}, f)
  {
    hide Release, Inv, ReleaseAll;
    var gs :| EndsBy(Release(a, g, 1), gs, bag, f);
    assert multiset([g] + gs) == bag + multiset{g};
    assert Covers(a, [], [g] + gs) by {
      forall x ensures a.handles[x] >= Owed([], x) + multiset([g] + gs)[x] {
        assert Release(a, g, 1).handles[x] >= Owed([], x) + multiset(gs)[x];
      }
    }
    AllHead(a, g, gs);
    assert EndsBy(a, [g] + gs, bag + multiset{g}, f);
  }

  // ------------------------------------------------------------------ runs of releases

  /** The steps of releases, whatever they set off. */
  predicate Releases(step: P.Step)
  {
    Moves(step) || step.CountDown? || step.TakeOff?
  }

  /** A region that counts down or takes off, with its test, against one release. */
  lemma RegionEnds(s: P.Sys, step: P.Step, others: multiset<Gid>, f: State)
    requires P.Inv(s) && P.Enabled(s, step) && (step.CountDown? || step.TakeOff?)
    requires Ends(Whole(s), UnderWay(s) + others, f)
    ensures P.Inv(P.Next(s, step)) && Ends(Whole(P.Next(s, step)), UnderWay(P.Next(s, step)) + others, f)
    ensures P.Next(s, step).held == s.held
  {
    hide P.Inv, P.IsReady, P.Counted, P.Taken, Ends, Whole, UnderWay, Inv, Release, Ready;
    P.StepKeeps(s, step);
    P.NextIsTested(s, step);
    var g, m := step.g, s.owner[step.g];
    var s1 := if step.CountDown? then P.Counted(s, g, step.n) else P.Taken(s, g);
    var k := if step.CountDown? then Effective(s, g, step.n) else 1;
    var bag := UnderWay(s) + others;
    FirstPart(s, step);
    if k == 0 {
      FreedIsUnready(s, step);
      assert UnderWay(s1) == UnderWay(s);
    } else {
      EndsAfter(Whole(s), bag, f, g, k);
      assert bag[g := bag[g] - k] == UnderWay(s1) + others;
      TestSettles(s, step, k);
      if P.IsReady(s1, m) {
        var point := s1.mounts[m].point.value;
        EndsBefore(Whole(P.Next(s, step)), UnderWay(s1) + others, f, point);
        assert UnderWay(s1) + others + multiset{point} == UnderWay(P.Next(s, step)) + others;
      }
    }
  }

  /** The region without its test. */
  lemma FirstPart(s: P.Sys, step: P.Step)
    requires P.Inv(s) && P.Enabled(s, step) && (step.CountDown? || step.TakeOff?)
    ensures step.g in s.owner && (step.CountDown? ==> step.g in s.refs && s.flying[step.g] >= step.n)
    ensures step.TakeOff? ==> s.owner[step.g] in s.chain
    ensures var g := step.g;
            var s1 := if step.CountDown? then P.Counted(s, g, step.n) else P.Taken(s, g);
            var k := if step.CountDown? then Effective(s, g, step.n) else 1;
            && P.Inv(s1) && s1.held == s.held && Inv(Whole(s)) && 0 <= k <= UnderWay(s)[g] <= Whole(s).handles[g]
            && Whole(s1) == (if k == 0 then Whole(s) else Drop(Whole(s), g, k))
            && UnderWay(s1) == UnderWay(s)[g := UnderWay(s)[g] - k]
            && s.owner[g] !in s1.unmounting && s1.owner == s.owner
  {
    hide UnderWay, Inv, P.Inv;
    var g := step.g;
    LocIsOk(s, g);
    if step.CountDown? {
      P.CountedKeeps(s, g, step.n);
      CountedWhole(s, g, step.n);
      if s.owner[g] in s.unmounting { GoingIsUnheld(s, g); assert false; }
    } else {
      P.TakenKeeps(s, g);
      TakenWhole(s, g);
    }
  }

  /** A count that reaches zero finds its entry not ready. */
  lemma FreedIsUnready(s: P.Sys, step: P.Step)
    requires P.Inv(s) && P.Enabled(s, step) && step.CountDown? && step.g in s.refs && Effective(s, step.g, step.n) == 0
    ensures step.g in s.owner && P.Next(s, step) == P.Counted(s, step.g, step.n)
  {
    var g, m := step.g, s.owner[step.g];
    assert P.LocOk(s, g) && P.EntryOk(s, m) && P.LocOk(s, s.mounts[m].root);
    if |s.chain[m]| == 1 { SingletonOf(s.chain[m], Global(g)); }
  }

  /** The test of the region does what the release does behind its count-down. */
  lemma TestSettles(s: P.Sys, step: P.Step, k: nat)
    requires P.Inv(s) && P.Enabled(s, step) && (step.CountDown? || step.TakeOff?)
    requires step.g in s.owner && (step.CountDown? ==> step.g in s.refs && s.flying[step.g] >= step.n)
    requires step.TakeOff? ==> s.owner[step.g] in s.chain
    requires k >= 1 && k == if step.CountDown? then Effective(s, step.g, step.n) else 1
    requires Inv(Whole(s)) && Whole(s).handles[step.g] >= k
    ensures var g, m, t := step.g, s.owner[step.g], P.Next(s, step);
            var s1 := if step.CountDown? then P.Counted(s, g, step.n) else P.Taken(s, g);
            if P.IsReady(s1, m) then
              && m in s1.mounts && s1.mounts[m].point.Some? && Inv(Whole(t))
              && Whole(t).handles[s1.mounts[m].point.value] >= 1
              && Release(Whole(s), g, k) == Release(Whole(t), s1.mounts[m].point.value, 1)
              && UnderWay(t) == UnderWay(s1) + multiset{s1.mounts[m].point.value}
            else
              t == s1 && Release(Whole(s), g, k) == Whole(t)
  {
    hide UnderWay, Inv, P.Inv, Whole, P.IsReady, Ready, P.Counted, P.Taken, Drop;
    FirstPart(s, step);
    P.StepKeeps(s, step);
    P.NextIsTested(s, step);
    var g, m := step.g, s.owner[step.g];
    var s1 := if step.CountDown? then P.Counted(s, g, step.n) else P.Taken(s, g);
    TestedWhole(s1, m);
    OwnerOfWhole(s);
    ReleaseIs(Whole(s), g, k);
    if P.IsReady(s1, m) { MountsOfWhole(s1, m); }
  }

  lemma OwnerOfWhole(s: P.Sys)
    ensures Whole(s).owner == s.owner
  {
  }

  lemma MountsOfWhole(s: P.Sys, m: Mid)
    requires P.IsReady(s, m) && m !in s.unmounting
    ensures m in Whole(s).mounts && m in s.mounts && Whole(s).mounts[m] == s.mounts[m]
  {
  }

  /** A run of release steps from one state to another. */
  ghost predicate Runs(s: P.Sys, steps: seq<P.Step>, t: P.Sys)
    decreases |steps|
  {
    if steps == [] then s == t
    else Releases(steps[0]) && P.Enabled(s, steps[0]) && Runs(P.Next(s, steps[0]), steps[1..], t)
  }

  /** The releases that are asked for in a run, immediate or deferred. */
  function Asked(steps: seq<P.Step>): seq<Gid>
  {
    if steps == [] then []
    else (if steps[0].ReleaseNow? || steps[0].ReleaseLater? then [steps[0].g] else []) + Asked(steps[1..])
  }

  lemma AskedHead(steps: seq<P.Step>)
    requires steps != []
    ensures multiset(Asked(steps)) == Handed(steps[0]) + multiset(Asked(steps[1..]))
  {
  }

  /** A step of a run keeps the end. */
  lemma StepEnds(s: P.Sys, step: P.Step, rest: multiset<Gid>, f: State)
    requires P.Inv(s) && Releases(step) && P.Enabled(s, step)
    requires Ends(Whole(s), UnderWay(s) + (Handed(step) + rest), f)
    ensures var t := P.Next(s, step);
            P.Inv(t) && Ends(Whole(t), UnderWay(t) + rest, f) && s.held == t.held + Handed(step)
  {
    hide P.Inv, Ends, Whole, UnderWay, Inv, P.Next, P.Enabled;
    HeldFalls(s, step);
    if Moves(step) {
      MoveIsQuiet(s, step);
      assert UnderWay(s) + (Handed(step) + rest) == UnderWay(s) + Handed(step) + rest;
    } else {
      assert Handed(step) + rest == rest;
      RegionEnds(s, step, rest, f);
    }
  }

  lemma {:induction false} RunEnds(s: P.Sys, steps: seq<P.Step>, t: P.Sys, f: State)
    requires P.Inv(s) && Runs(s, steps, t) && Ends(Whole(s), UnderWay(s) + multiset(Asked(steps)), f)
    ensures P.Inv(t) && Ends(Whole(t), UnderWay(t), f)
    decreases |steps|
  {
    hide P.Inv, Ends, Whole, UnderWay, Inv, P.Enabled, P.Next;
    if steps == [] {
      assert UnderWay(s) + multiset(Asked(steps)) == UnderWay(s);
    } else {
      AskedHead(steps);
      StepEnds(s, steps[0], multiset(Asked(steps[1..])), f);
      RunEnds(P.Next(s, steps[0]), steps[1..], t, f);
    }
  }

  /** What is asked for in a run was held before it. */
  lemma {:induction false} AskedWasHeld(s: P.Sys, steps: seq<P.Step>, t: P.Sys)
    requires Runs(s, steps, t)
    ensures s.held == t.held + multiset(Asked(steps))
    decreases |steps|
  {
    hide P.Next, P.Enabled, Handed;
    if steps == [] {
      assert multiset(Asked(steps)) == multiset{};
    } else {
      AskedHead(steps);
      HeldFalls(s, steps[0]);
      AskedWasHeld(P.Next(s, steps[0]), steps[1..], t);
    }
  }

  lemma HeldFalls(s: P.Sys, step: P.Step)
    requires Releases(step) && P.Enabled(s, step)
    ensures s.held == P.Next(s, step).held + Handed(step)
  {
    if Moves(step) {
      hide Defer;
      assert P.Next(s, step).held == s.held - Handed(step);
    } else {
      P.NextIsTested(s, step);
      hide P.Next;
      assert P.Next(s, step).held == s.held;
    }
  }

  lemma {:induction false} NoPoints(log: seq<Mid>, mounts: map<Mid, Mount>)
    ensures Points(log, mounts, {}) == multiset{}
  {
    if log != [] { NoPoints(log[..|log| - 1], mounts); }
  }

  /** With nothing under way, the state is as it stands. */
  lemma QuiescentIsWhole(s: P.Sys)
    requires R.Quiescent(s)
    ensures UnderWay(s) == multiset{}
    ensures Whole(s) == State(s.refs, s.owner, s.mounts, s.chain, s.held, set g | g in s.frees, set m | m in s.unmounts)
  {
    NoPoints(s.unmounts, s.mounts);
    var a := Whole(s);
    assert a.refs == s.refs;
    assert a.mounts == s.mounts && a.chain == s.chain;
    assert a.handles == s.held;
  }

  /** However the locked regions of releases, deferred and immediate, are interleaved: from a
      state with nothing under way to a state with nothing under way, the counts, the freed
      locations and the mounts are those of doing the releases one after the other, each with
      everything it sets off. */
  lemma RunsAreReleases(s: P.Sys, steps: seq<P.Step>, t: P.Sys)
    requires P.Inv(s) && R.Quiescent(s) && Runs(s, steps, t) && R.Quiescent(t)
    ensures Covers(Whole(s), [], Asked(steps)) && Whole(t) == ReleaseAll(Whole(s), Asked(steps))
  {
    hide P.Inv, Inv, Runs, R.Quiescent, Whole, UnderWay;
    WholeOk(s);
    AskedWasHeld(s, steps, t);
    QuiescentIsWhole(s);
    QuiescentIsWhole(t);
    var gs := Asked(steps);
    assert Covers(Whole(s), [], gs);
    var f := ReleaseAll(Whole(s), gs);
    assert EndsBy(Whole(s), gs, multiset(gs), f);
    assert UnderWay(s) + multiset(gs) == multiset(gs);
    RunEnds(s, steps, t, f);
    var hs :| EndsBy(Whole(t), hs, multiset{}, f);
    assert |multiset(hs)| == 0 && hs == [];
  }

  /** In terms of the states themselves. */
  lemma QuiescentRunsRelease(s: P.Sys, steps: seq<P.Step>, t: P.Sys)
    requires P.Inv(s) && R.Quiescent(s) && Runs(s, steps, t) && R.Quiescent(t)
    ensures Covers(Whole(s), [], Asked(steps))
    ensures var r := ReleaseAll(Whole(s), Asked(steps));
            && t.refs == r.refs && t.mounts == r.mounts && t.chain == r.chain && t.held == r.handles
            && (set g | g in t.frees) == r.freed && (set m | m in t.unmounts) == r.gone
  {
    hide P.Inv, Runs, R.Quiescent, Whole;
    RunsAreReleases(s, steps, t);
    QuiescentIsWhole(t);
  }
}
