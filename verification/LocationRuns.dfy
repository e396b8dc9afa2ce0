/** When an unmount is lost: runs of the protocol that leave a mount entry ready for unmount
    with nobody to notice. */
module LocationRuns {
  import opened Basics
  import opened Locations
  import opened DeferredRelease
  import P = LocationProtocol

  /** Steps that can make an entry ready without testing it: taking a location of a path
      evaluation off its chain, and marking the entry as unmounted. */
  predicate Untested(step: P.Step, m: Mid)
  {
    step == P.SetUnmounted(m) || (step.RemoveNode? && step.m == m && !step.test)
  }

  lemma CountDownTests(s: P.Sys, g: Gid, n: nat, m: Mid)
    requires P.Inv(s) && P.Enabled(s, P.CountDown(g, n)) && !P.IsReady(s, m)
    ensures !P.IsReady(P.Next(s, P.CountDown(g, n)), m)
  {
    assert P.EntryOk(s, m);
  }

  lemma TakeOffTests(s: P.Sys, g: Gid, m: Mid)
    requires P.Inv(s) && P.Enabled(s, P.TakeOff(g)) && !P.IsReady(s, m)
    ensures !P.IsReady(P.Next(s, P.TakeOff(g)), m)
  {
    assert P.EntryOk(s, m);
  }

  lemma RemovalTests(s: P.Sys, k: Mid, l: nat, test: bool, m: Mid)
    requires P.Enabled(s, P.RemoveNode(k, l, test)) && !P.IsReady(s, m) && (test || k != m)
    ensures !P.IsReady(P.Next(s, P.RemoveNode(k, l, test)), m)
  {
  }

  lemma NewNodes(s: P.Sys, step: P.Step, m: Mid)
    requires P.Inv(s) && P.Enabled(s, step) && (step.CopyNode? || step.NewGlobal?) && !P.IsReady(s, m)
    ensures !P.IsReady(P.Next(s, step), m)
  {
    assert P.EntryOk(s, m) && P.NodesOk(s, m);
  }

  lemma OtherSteps(s: P.Sys, step: P.Step, m: Mid)
    requires P.Inv(s) && P.Enabled(s, step) && !P.IsReady(s, m) && step != P.SetUnmounted(m)
    requires || step.Obtain? || step.ReleaseNow? || step.ReleaseLater? || step.Pop?
             || step.Leave? || step.MountAt? || step.SetUnmounted?
    ensures !P.IsReady(P.Next(s, step), m)
  {
    hide Defer, Owed, ListOk;
    assert P.EntryOk(s, m);
    if m in s.mounts { assert P.LocOk(s, s.mounts[m].root); }
  }

  /** No other step makes an entry ready, since every other one that touches it tests it. */
  lemma ReadyOnlyUntested(s: P.Sys, step: P.Step, m: Mid)
    requires P.Inv(s) && P.Enabled(s, step) && !P.IsReady(s, m) && !Untested(step, m)
    ensures !P.IsReady(P.Next(s, step), m)
  {
    hide P.Inv, P.Enabled, P.Next, P.IsReady;
    match step
    case CountDown(g, n) => CountDownTests(s, g, n, m);
    case TakeOff(g) => TakeOffTests(s, g, m);
    case RemoveNode(k, l, test) => RemovalTests(s, k, l, test, m);
    case CopyNode(_, _) => NewNodes(s, step, m);
    case NewGlobal(_, _) => NewNodes(s, step, m);
    case _ => OtherSteps(s, step, m);
  }

  /** An entry with a handle outstanding to one of its locations is not ready. */
  lemma HeldIsUnready(s: P.Sys, m: Mid, g: Gid)
    requires P.Inv(s) && g in s.owner && s.owner[g] == m
    requires s.held[g] + Owed(s.deferred, g) + s.flying[g] > 0
    ensures !P.IsReady(s, m)
  {
    assert P.LocOk(s, g) && P.EntryOk(s, m);
    if P.IsReady(s, m) {
      var root := s.mounts[m].root;
      assert P.LocOk(s, root);
      SingletonOf(s.chain[m], Global(root));
      assert false;
    }
  }

  // ------------------------------------------------------------------ runs

  ghost predicate StepAt(states: seq<P.Sys>, steps: seq<P.Step>, i: nat)
    requires |states| == |steps| + 1 && i < |steps|
  {
    P.Enabled(states[i], steps[i]) && states[i + 1] == P.Next(states[i], steps[i])
  }

  ghost predicate IsRun(states: seq<P.Sys>, steps: seq<P.Step>)
  {
    && |states| == |steps| + 1 && states[0] == P.INITIAL
    && forall i {:trigger StepAt(states, steps, i)} :: 0 <= i < |steps| ==> StepAt(states, steps, i)
  }

  lemma {:induction false} RunOk(states: seq<P.Sys>, steps: seq<P.Step>, i: nat)
    requires IsRun(states, steps) && i < |states|
    ensures P.Inv(states[i])
  {
    hide P.Inv, P.Enabled, P.Next;
    if i == 0 {
      P.InitialOk();
    } else {
      RunOk(states, steps, i - 1);
      assert StepAt(states, steps, i - 1);
      P.StepKeeps(states[i - 1], steps[i - 1]);
    }
  }

  lemma NothingReadyAtFirst(m: Mid)
    ensures !P.IsReady(P.INITIAL, m)
  {
  }

  /** Somebody has a handle to a location of the entry, or is about to give one back. */
  ghost predicate HandleOn(s: P.Sys, m: Mid)
  {
    exists g :: g in s.owner && s.owner[g] == m && s.held[g] + Owed(s.deferred, g) + s.flying[g] > 0
  }

  /** The node that a step takes off the entry's chain. */
  function TakenOff(step: P.Step): set<Node>
  {
    if step.RemoveNode? then {Local(step.l)} else {}
  }

  /** What an untested step meets when it loses an unmount, seen before the step: the entry is
      unmounted, or is being marked so; nothing but its root and the node that is taken off is
      on its chain; nobody has a handle on it; nothing is mounted on its root; and it is not
      on its way out already. */
  ghost predicate Loses(s: P.Sys, step: P.Step, m: Mid)
  {
    && Untested(step, m) && m in s.mounts && m in s.chain && m !in s.unmounting
    && (step.SetUnmounted? || !s.mounts[m].mounted)
    && s.chain[m] - TakenOff(step) <= {Global(s.mounts[m].root)}
    && !HandleOn(s, m) && Kids(s.mounts, s.mounts[m].root) == {}
  }

  /** That is exactly when the step leaves its entry ready. */
  lemma LosesIff(s: P.Sys, step: P.Step, m: Mid)
    requires P.Inv(s) && P.Enabled(s, step) && Untested(step, m)
    ensures P.IsReady(P.Next(s, step), m) <==> Loses(s, step, m)
  {
    hide Owed, ListOk;
    var t := P.Next(s, step);
    P.StepKeeps(s, step);
    assert P.EntryOk(s, m);
    if m in s.mounts && m in s.chain {
      var root := s.mounts[m].root;
      var left := s.chain[m] - TakenOff(step);
      assert P.LocOk(s, root) && t.chain[m] == left;
      if P.IsReady(t, m) {
        SingletonOf(left, Global(root));
        forall g | g in s.owner && s.owner[g] == m ensures s.held[g] + Owed(s.deferred, g) + s.flying[g] == 0 {
          if s.held[g] + Owed(s.deferred, g) + s.flying[g] > 0 { HeldIsUnready(t, m, g); }
        }
      }
      if Loses(s, step, m) { assert left == {Global(root)}; }
    }
  }

  /** A location joins the entry's chain. */
  predicate Joins(step: P.Step, m: Mid)
  {
    (step.CopyNode? || step.NewGlobal?) && step.m == m
  }

  /** Of a ready entry only its root is left, and nobody holds it. */
  lemma ReadyIsBare(s: P.Sys, m: Mid, g: Gid)
    requires P.Inv(s) && P.IsReady(s, m)
    ensures s.chain[m] == {Global(s.mounts[m].root)} && m != NULL_MOUNT && m !in s.unmounting
    ensures g in s.owner && s.owner[g] == m ==> s.held[g] + s.flying[g] == 0 && g !in s.freeing
  {
    P.NullKeepsTwo(s);
    assert P.EntryOk(s, m) && P.LocOk(s, s.mounts[m].root) && P.LocOk(s, g);
    SingletonOf(s.chain[m], Global(s.mounts[m].root));
  }

  lemma RegionLeavesReady(s: P.Sys, step: P.Step, m: Mid)
    requires P.Inv(s) && P.Enabled(s, step) && P.IsReady(s, m) && (step.CountDown? || step.TakeOff?)
    ensures P.IsReady(P.Next(s, step), m)
  {
    ReadyIsBare(s, m, step.g);
    assert P.LocOk(s, step.g) && P.EntryOk(s, m);
    P.NextIsTested(s, step);
  }

  lemma NodeLeavesReady(s: P.Sys, step: P.Step, m: Mid)
    requires P.Inv(s) && P.Enabled(s, step) && P.IsReady(s, m)
    requires step.CopyNode? || step.RemoveNode? || step.NewGlobal?
    ensures P.IsReady(P.Next(s, step), m) <==> !Joins(step, m)
  {
    ReadyIsBare(s, m, s.mounts[m].root);
    assert P.EntryOk(s, m);
  }

  lemma OtherLeavesReady(s: P.Sys, step: P.Step, m: Mid)
    requires P.Inv(s) && P.Enabled(s, step) && P.IsReady(s, m)
    requires || step.Obtain? || step.ReleaseNow? || step.ReleaseLater? || step.Pop?
             || step.Leave? || step.MountAt? || step.SetUnmounted?
    ensures P.IsReady(P.Next(s, step), m)
  {
    ReadyIsBare(s, m, s.mounts[m].root);
    assert P.EntryOk(s, m) && P.EntryOk(s, s.next) && P.EntryOk(s, NULL_MOUNT);
    if step.Leave? { assert P.EntryOk(s, step.m); }
    hide Defer, Owed, ListOk, P.Inv;
  }

  /** An entry that is ready stays so until a location joins its chain: nobody is left who
      could do anything else with it. */
  lemma ReadyUntilJoined(s: P.Sys, step: P.Step, m: Mid)
    requires P.Inv(s) && P.Enabled(s, step) && P.IsReady(s, m)
    ensures P.IsReady(P.Next(s, step), m) <==> !Joins(step, m)
  {
    hide P.Inv, P.Enabled, P.Next, P.IsReady;
    match step
    case CountDown(_, _) => RegionLeavesReady(s, step, m);
    case TakeOff(_) => RegionLeavesReady(s, step, m);
    case CopyNode(_, _) => NodeLeavesReady(s, step, m);
    case RemoveNode(_, _, _) => NodeLeavesReady(s, step, m);
    case NewGlobal(_, _) => NodeLeavesReady(s, step, m);
    case _ => OtherLeavesReady(s, step, m);
  }

  /** No location has joined the entry's chain since step `k`. */
  ghost predicate Alone(steps: seq<P.Step>, k: nat, i: nat, m: Mid)
  {
    forall j :: k < j < i && j < |steps| ==> !Joins(steps[j], m)
  }

  /** An untested step has lost the unmount and no location has joined the entry's chain since. */
  ghost predicate Lost(states: seq<P.Sys>, steps: seq<P.Step>, i: nat, m: Mid)
    requires |states| == |steps| + 1 && i < |states|
  {
    exists k :: 0 <= k < i && Loses(states[k], steps[k], m) && Alone(steps, k, i, m)
  }

  lemma LostNext(states: seq<P.Sys>, steps: seq<P.Step>, n: nat, m: Mid)
    requires |states| == |steps| + 1 && n < |steps|
    ensures Lost(states, steps, n + 1, m) <==>
            Loses(states[n], steps[n], m) || (Lost(states, steps, n, m) && !Joins(steps[n], m))
  {
    hide Loses, Joins;
    if Loses(states[n], steps[n], m) { assert Alone(steps, n, n + 1, m); }
    if k :| 0 <= k < n && Loses(states[k], steps[k], m) && Alone(steps, k, n, m) {
      if !Joins(steps[n], m) { assert Alone(steps, k, n + 1, m); }
    }
    if k :| 0 <= k < n + 1 && Loses(states[k], steps[k], m) && Alone(steps, k, n + 1, m) {
      assert k < n ==> Alone(steps, k, n, m);
    }
  }

  /** A state of a run has an entry ready, with nobody to notice, if and only if an untested
      step has lost the unmount and no location has joined the entry's chain since. */
  lemma {:induction false} ReadyIff(states: seq<P.Sys>, steps: seq<P.Step>, i: nat, m: Mid)
    requires IsRun(states, steps) && i < |states|
    ensures P.IsReady(states[i], m) <==> Lost(states, steps, i, m)
  {
    hide P.Inv, P.Enabled, P.Next, P.IsReady;
    if i == 0 {
      NothingReadyAtFirst(m);
    } else {
      var n := i - 1;
      hide Loses, Lost;
      RunOk(states, steps, n);
      assert StepAt(states, steps, n);
      ReadyIff(states, steps, n, m);
      LostNext(states, steps, n, m);
      LostIsUntested(states[n], steps[n], m);
      if Untested(steps[n], m) {
        LosesIff(states[n], steps[n], m);
      } else if !P.IsReady(states[n], m) {
        ReadyOnlyUntested(states[n], steps[n], m);
      }
      if P.IsReady(states[n], m) { ReadyUntilJoined(states[n], steps[n], m); }
    }
  }

  lemma LostIsUntested(s: P.Sys, step: P.Step, m: Mid)
    ensures Loses(s, step, m) ==> Untested(step, m)
  {
  }

  /** No state of a run has an entry ready, so no unmount waits for somebody to notice, if and
      only if no untested step meets the condition to lose it. */
  lemma NoUnmountLostIff(states: seq<P.Sys>, steps: seq<P.Step>)
    requires IsRun(states, steps)
    ensures (forall i, m :: 0 <= i < |states| ==> !P.IsReady(states[i], m)) <==>
            (forall k, m :: 0 <= k < |steps| ==> !Loses(states[k], steps[k], m))
  {
    hide P.IsReady, Loses, Alone;
    if forall k, m :: 0 <= k < |steps| ==> !Loses(states[k], steps[k], m) {
      forall i, m | 0 <= i < |states| ensures !P.IsReady(states[i], m) { ReadyIff(states, steps, i, m); }
    }
    forall k, m | 0 <= k < |steps| && Loses(states[k], steps[k], m) ensures P.IsReady(states[k + 1], m) {
      LostIsReady(states, steps, k, m);
    }
  }

  lemma LostIsReady(states: seq<P.Sys>, steps: seq<P.Step>, k: nat, m: Mid)
    requires IsRun(states, steps) && k < |steps| && Loses(states[k], steps[k], m)
    ensures P.IsReady(states[k + 1], m)
  {
    hide P.IsReady, P.Inv;
    RunOk(states, steps, k);
    assert StepAt(states, steps, k);
    LosesIff(states[k], steps[k], m);
  }

  /** Untested steps are made while the caller has a handle on the same entry, as a path
      evaluation has its start location when it takes its current location off the chain. The
      release of that handle tests the entry. */
  ghost predicate Guarded(s: P.Sys, step: P.Step)
  {
    forall m :: Untested(step, m) ==> HandleOn(s, m)
  }

  /** A run whose untested steps are all guarded loses no unmount. */
  lemma GuardedRunsLoseNothing(states: seq<P.Sys>, steps: seq<P.Step>, i: nat, m: Mid)
    requires IsRun(states, steps) && i < |states|
    requires forall k :: 0 <= k < |steps| ==> Guarded(states[k], steps[k])
    ensures !P.IsReady(states[i], m)
  {
    hide P.IsReady, Alone, HandleOn;
    ReadyIff(states, steps, i, m);
    forall k | 0 <= k < i ensures !Loses(states[k], steps[k], m) { assert Guarded(states[k], steps[k]); }
  }

  /** Nothing is under way. */
  ghost predicate Quiescent(s: P.Sys)
  {
    s.deferred == [] && s.flying == multiset{} && s.freeing == {} && s.unmounting == {}
  }

  /** The states of an example: the root file system is mounted and its root obtained. */
  const ROOTED: P.Sys := P.INITIAL.(
    refs := map[0 := 4, 1 := 2], owner := map[0 := 0, 1 := 1],
    mounts := map[0 := Mount(false, 0, Some(0)), 1 := Mount(true, 1, None)],
    chain := map[0 := {Global(0)}, 1 := {Global(1)}], held := multiset{0, 0, 1}, next := 2)

  /** A second file system is mounted on it. */
  const MOUNTED: P.Sys := ROOTED.(
    refs := map[0 := 4, 1 := 2, 2 := 1], owner := map[0 := 0, 1 := 1, 2 := 2],
    mounts := map[0 := Mount(false, 0, Some(0)), 1 := Mount(true, 1, None), 2 := Mount(true, 2, Some(1))],
    chain := map[0 := {Global(0)}, 1 := {Global(1)}, 2 := {Global(2)}], held := multiset{0, 0}, next := 3)

  lemma ExampleRooted()
    ensures P.Enabled(P.INITIAL, P.MountAt(1, None))
    ensures var s := P.Next(P.INITIAL, P.MountAt(1, None));
            P.Enabled(s, P.Obtain(1)) && P.Next(s, P.Obtain(1)) == ROOTED
  {
    var s := P.Next(P.INITIAL, P.MountAt(1, None));
    assert s.mounts[1] == Mount(true, 1, None) && P.RootPart(s, 1) == 1;
    var t := P.Next(s, P.Obtain(1));
    assert t.refs == ROOTED.refs && t.owner == ROOTED.owner && t.mounts == ROOTED.mounts;
    assert t.chain == ROOTED.chain && t.held == ROOTED.held;
  }

  lemma ExampleMounted()
    ensures P.Enabled(ROOTED, P.MountAt(2, Some(1))) && P.Next(ROOTED, P.MountAt(2, Some(1))) == MOUNTED
  {
    var t := P.Next(ROOTED, P.MountAt(2, Some(1)));
    assert t.refs == MOUNTED.refs;
    assert t.owner == MOUNTED.owner;
    assert t.mounts == MOUNTED.mounts;
    assert t.chain == MOUNTED.chain;
    assert t.held == MOUNTED.held;
  }

  lemma ExampleLost()
    ensures P.Enabled(MOUNTED, P.CopyNode(2, 7))
    ensures var s := P.Next(MOUNTED, P.CopyNode(2, 7));
            && P.Enabled(s, P.SetUnmounted(2))
            && var t := P.Next(s, P.SetUnmounted(2));
               && P.Enabled(t, P.RemoveNode(2, 7, false))
               && Quiescent(P.Next(t, P.RemoveNode(2, 7, false))) && P.IsReady(P.Next(t, P.RemoveNode(2, 7, false)), 2)
  {
    assert {Global(2)} + {Local(7)} - {Local(7)} == {Global(2)};
  }

  /** Without the guard an unmount can be lost: a location of a path evaluation on a mounted
      file system is taken off its chain without a test, after the entry was marked as
      unmounted, by somebody without a handle on that entry. Then nothing is under way, the
      entry is ready, and nobody will test it. */
  lemma LostUnmountExample() returns (states: seq<P.Sys>, steps: seq<P.Step>)
    ensures IsRun(states, steps)
    ensures var last := states[|states| - 1]; Quiescent(last) && P.IsReady(last, 2)
  {
    hide P.Next, P.Enabled, P.IsReady, Quiescent;
    ExampleRooted();
    ExampleMounted();
    ExampleLost();
    steps := [P.MountAt(1, None), P.Obtain(1), P.MountAt(2, Some(1)), P.CopyNode(2, 7), P.SetUnmounted(2),
              P.RemoveNode(2, 7, false)];
    var s1, s4 := P.Next(P.INITIAL, steps[0]), P.Next(MOUNTED, steps[3]);
    var s5 := P.Next(s4, steps[4]);
    states := [P.INITIAL, s1, ROOTED, MOUNTED, s4, s5, P.Next(s5, steps[5])];
    forall i | 0 <= i < |steps| ensures StepAt(states, steps, i) {
      if i == 0 {} else if i == 1 {} else if i == 2 {} else if i == 3 {} else if i == 4 {}
    }
  }
}
