/** User environments: who owns the handles that `chroot` and the private-environment
    calls obtain, on every exit. */
module UserEnv {
  import opened Basics
  import opened Locations
  import opened DeferredRelease
  import opened LocationCalls

  // ------------------------------------------------------------------ what stays obtainable

  /** `s` is a later state than `st`: locations may have come and gone, none comes back, and a
      location that is left is as obtainable as it was. */
  ghost predicate Follows(st: State, s: State)
  {
    && st.owner.Keys <= s.owner.Keys
    && forall x :: x in s.refs && x in st.owner ==> x in st.refs && Target(s, Some(x)) == Target(st, Some(x))
  }

  lemma LaterFollows(st: State, s: State)
    requires Inv(s) && Later(st, s)
    ensures Follows(st, s)
  {
    forall x | x in s.refs ensures x in s.owner && s.owner[x] in s.mounts { assert LocationOk(s, x); }
  }

  lemma FollowsOn(a: State, b: State, c: State)
    requires Follows(a, b) && Follows(b, c)
    ensures Follows(a, c)
  {
  }

  lemma CreatedFollows(st: State, m: Mid, g: Gid)
    requires Inv(st) && m in st.mounts && m in st.chain && g !in st.owner && g !in st.freed
    ensures Follows(st, Created(st, m, g))
  {
  }

  lemma StillTarget(st: State, s: State, x: Gid)
    requires Follows(st, s) && x in s.refs && x in st.owner
    ensures Target(s, Some(x)) == Target(st, Some(x))
  {
  }

  /** Draining, and obtaining anything afterwards. */
  lemma ObtainFollows(st: State, list: seq<Entry>, g: Option<Gid>)
    requires Covers(st, list, [])
    ensures Follows(st, Obtained(Drain(st, list), g))
  {
    hide Inv, Target;
    var d := Drain(st, list);
    DrainFollows(st, list);
    forall x ensures Target(Obtained(d, g), Some(x)) == Target(d, Some(x)) { TargetAfterObtain(d, g, Some(x)); }
    assert Target(d, g) in d.refs by { NullStays(d); TargetIsThere(d, g); }
  }

  lemma TargetIsThere(st: State, g: Option<Gid>)
    requires NULL_LOCATION in st.refs
    ensures Target(st, g) in st.refs
  {
  }

  lemma {:induction false} DrainFollows(st: State, list: seq<Entry>)
    requires Covers(st, list, [])
    ensures Follows(st, Drain(st, list))
    decreases |list|
  {
    if list != [] {
      DrainStep(st, list);
      ReleaseIsLater(st, list[0].g, list[0].count);
      LaterFollows(st, Release(st, list[0].g, list[0].count));
      DrainFollows(Release(st, list[0].g, list[0].count), list[1..]);
    }
  }

  datatype Env = Env(root: Gid, current: Gid)

  /** Both locations of an environment can still be obtained. */
  predicate Usable(st: State, env: Env)
  {
    Target(st, Some(env.root)) != NULL_LOCATION && Target(st, Some(env.current)) != NULL_LOCATION
  }

  lemma UsableAfterObtain(st: State, g: Option<Gid>, env: Env)
    requires Inv(st)
    ensures Covers(Obtained(st, g), [], []) && Drain(Obtained(st, g), []) == Obtained(st, g)
    ensures Usable(Obtained(st, g), env) == Usable(st, env)
  {
    TargetAfterObtain(st, g, Some(env.root));
    TargetAfterObtain(st, g, Some(env.current));
  }

  lemma EmptyListOk()
    ensures ListOk([])
  {
  }

  lemma TargetIs(st: State, g: Gid)
    ensures Target(st, Some(g)) in {g, NULL_LOCATION}
  {
  }

  // ------------------------------------------------------------------ the handles of an evaluation

  /** The root and start location of a path evaluation, and the state they are held in. */
  datatype Evaluation = Evaluation(st: State, list: seq<Entry>, root: Gid, start: Gid)

  /** Both are held, and a start location that is not null can still be obtained. */
  ghost predicate Live(e: Evaluation)
  {
    Covers(e.st, e.list, [e.root, e.start]) && (e.start != NULL_LOCATION ==> Target(e.st, Some(e.start)) == e.start)
  }

  /** `set_startloc`: the root location, then the same again for an absolute path or the
      working directory for a relative one; null locations for an empty path. */
  function Started(st: State, list: seq<Entry>, env: Env, absolute: bool, empty: bool): (e: Evaluation)
    requires Covers(st, list, [])
    ensures Live(e)
  {
    var d := Drain(st, list);
    var first := if empty then None else Some(env.root);
    var root, s := Target(d, first), Obtained(d, first);
    var second := if empty then None else if absolute then Some(root) else Some(env.current);
    StartIsLive(d, first, second);
    Evaluation(Obtained(s, second), [], root, Target(s, second))
  }

  lemma StartIsLive(d: State, first: Option<Gid>, second: Option<Gid>)
    requires Inv(d)
    ensures var s := Obtained(d, first);
            Live(Evaluation(Obtained(s, second), [], Target(d, first), Target(s, second)))
  {
    hide Inv;
    var s := Obtained(d, first);
    var e := Evaluation(Obtained(s, second), [], Target(d, first), Target(s, second));
    assert multiset([e.root, e.start]) == multiset{e.root, e.start};
    TargetAfterObtain(s, second, Some(e.start));
    EmptyListOk();
  }

  /** A restart: the new start location is obtained, then the old one released. */
  function Restarted(e: Evaluation, to: Option<Gid>, enabled: bool): (r: Evaluation)
    requires Live(e)
    ensures Live(r) && r.root == e.root
  {
    RestartDrains(e, to);
    var s := Obtained(Drain(e.st, e.list), to);
    var start := Target(Drain(e.st, e.list), to);
    RestartIsLive(s, e.root, e.start, start);
    if enabled then Evaluation(Release(s, e.start, 1), [], e.root, start)
    else Evaluation(s, Defer([], e.start), e.root, start)
  }

  lemma LiveDrains(e: Evaluation)
    requires Live(e)
    ensures Covers(e.st, e.list, []) && multiset{e.root, e.start} <= Drain(e.st, e.list).handles
  {
    hide Inv, ListOk, Target, Drain, Owed;
    var both := multiset{e.root, e.start};
    assert multiset([e.root, e.start]) == both;
    assert Covers(e.st, e.list, []);
    forall g ensures both[g] <= Drain(e.st, e.list).handles[g] {
      assert e.st.handles[g] >= Owed(e.list, g) + multiset([e.root, e.start])[g];
    }
  }

  lemma RestartDrains(e: Evaluation, to: Option<Gid>)
    requires Live(e)
    ensures Covers(e.st, e.list, [])
    ensures var d := Drain(e.st, e.list);
            var s, start := Obtained(d, to), Target(d, to);
            Covers(s, [], [e.start, e.root, start]) && (start != NULL_LOCATION ==> Target(s, Some(start)) == start)
  {
    hide Inv, Target, Obtained, Drain, Live, Covers;
    LiveDrains(e);
    var d := Drain(e.st, e.list);
    var s, start := Obtained(d, to), Target(d, to);
    ThreeOf(e.start, e.root, start);
    CoversBag(s, [e.start, e.root, start]);
    TargetAfterObtain(d, to, Some(start));
    TargetTwice(d, to);
  }

  lemma ThreeOf(a: Gid, b: Gid, c: Gid)
    ensures multiset([a, b, c]) == multiset{b, a} + multiset{c} && [a, b, c] == [a] + [b, c]
  {
  }

  lemma CoversBag(st: State, gs: seq<Gid>)
    requires Inv(st) && multiset(gs) <= st.handles
    ensures Covers(st, [], gs)
  {
  }

  lemma TargetTwice(st: State, g: Option<Gid>)
    ensures Target(st, g) != NULL_LOCATION ==> Target(st, Some(Target(st, g))) == Target(st, g)
  {
  }

  lemma RestartIsLive(s: State, root: Gid, was: Gid, start: Gid)
    requires Covers(s, [], [was, root, start]) && (start != NULL_LOCATION ==> Target(s, Some(start)) == start)
    ensures Inv(s) && s.handles[was] >= 1 && Live(Evaluation(Release(s, was, 1), [], root, start))
    ensures Live(Evaluation(s, Defer([], was), root, start))
  {
    hide Inv, Release, Covers, Defer, Target, Follows, Later;
    ThreeOf(was, root, start);
    MoreHead(s, [], was, [root, start]);
    DeferCovers(s, [], was, [root, start]);
    ReleaseIsLater(s, was, 1);
    LaterFollows(s, Release(s, was, 1));
    LiveFollows(s, Release(s, was, 1), root, start);
  }

  lemma LiveFollows(st: State, s: State, root: Gid, start: Gid)
    requires Inv(st) && Follows(st, s) && Covers(s, [], [root, start])
    requires start != NULL_LOCATION ==> Target(st, Some(start)) == start
    ensures Live(Evaluation(s, [], root, start))
  {
    assert s.handles[start] >= Owed([], start) + multiset([root, start])[start];
    assert HandleOk(s, start);
  }

  /** An evaluation with any number of restarts. */
  function Evaluated(e: Evaluation, restarts: seq<Option<Gid>>, enabled: bool): (r: Evaluation)
    requires Live(e)
    ensures Live(r) && r.root == e.root
    decreases |restarts|
  {
    if restarts == [] then e else Evaluated(Restarted(e, restarts[0], enabled), restarts[1..], enabled)
  }

  /** Without restarts, the start location is the environment's root or working directory if it
      can be obtained, else null; the releases that are drained first do not matter. */
  lemma StartIs(st: State, list: seq<Entry>, env: Env, absolute: bool, empty: bool)
    requires Covers(st, list, []) && env.root in st.owner && env.current in st.owner
    requires st.handles[env.root] > Owed(list, env.root) && st.handles[env.current] > Owed(list, env.current)
    ensures Started(st, list, env, absolute, empty).start
         == if empty then NULL_LOCATION else Target(st, Some(if absolute then env.root else env.current))
    ensures Started(st, list, env, absolute, empty).root
         == if empty then NULL_LOCATION else Target(st, Some(env.root))
  {
    var d := Drain(st, list);
    TargetAfterDrain(st, list, env.root);
    TargetAfterDrain(st, list, env.current);
    hide Inv, Drain, ListOk, Owed, Covers, Obtained;
    TargetAfterObtain(d, if empty then None else Some(env.root), Some(env.current));
    TargetAfterObtain(d, if empty then None else Some(env.root), Some(Target(d, Some(env.root))));
  }

  // ------------------------------------------------------------------ what is handed back

  /** The state of the locations with the deferred list. */
  datatype Store = Store(st: State, list: seq<Entry>)

  /** `gs` are handed back one after the other: released at once with dispatching enabled, else
      owed to the deferred list, with nothing counted down, freed or unmounted. */
  ghost predicate HandsBack(a: Store, gs: seq<Gid>, enabled: bool, b: Store)
    decreases |gs|
  {
    if gs == [] then b == a
    else if enabled then
      CanRelease(a.st, gs[0], 1) && HandsBack(Store(Release(a.st, gs[0], 1), a.list), gs[1..], enabled, b)
    else
      HandsBack(Store(a.st, Defer(a.list, gs[0])), gs[1..], enabled, b)
  }

  lemma NothingBack(a: Store, enabled: bool)
    ensures HandsBack(a, [], enabled, a)
  {
  }

  lemma BackFirst(a: Store, g: Gid, b: Store, gs: seq<Gid>, enabled: bool, c: Store)
    requires HandsBack(a, [g], enabled, b) && HandsBack(b, gs, enabled, c)
    ensures HandsBack(a, [g] + gs, enabled, c)
  {
    assert [g][1..] == [] && ([g] + gs)[1..] == gs;
  }

  lemma NoTarget(st: State)
    ensures Target(st, None) == NULL_LOCATION
  {
  }

  lemma TargetAfterDrain(st: State, list: seq<Entry>, x: Gid)
    requires Covers(st, list, []) && x in st.owner && st.handles[x] > Owed(list, x)
    ensures Target(Drain(st, list), Some(x)) == Target(st, Some(x))
  {
    assert HandleOk(Drain(st, list), x);
    DrainFollows(st, list);
    StillTarget(st, Drain(st, list), x);
  }

  /** A restart moves the start location to what can be obtained, and hands the old one back. */
  lemma RestartIs(e: Evaluation, to: Option<Gid>, enabled: bool)
    requires Live(e)
    ensures var r := Restarted(e, to, enabled);
            && Covers(e.st, e.list, [])
            && HandsBack(Store(Obtained(Drain(e.st, e.list), to), []), [e.start], enabled, Store(r.st, r.list))
            && (to.None? ==> r.start == NULL_LOCATION)
            && (to.Some? && to.value in e.st.owner && e.st.handles[to.value] > Owed(e.list, to.value) ==>
                  r.start == Target(e.st, to))
  {
    hide Inv, Drain, Target, Obtained, Live, Covers, Owed, Release;
    RestartDrains(e, to);
    var d := Drain(e.st, e.list);
    RestartIsLive(Obtained(d, to), e.root, e.start, Target(d, to));
    if to.None? { NoTarget(d); }
    if to.Some? && to.value in e.st.owner && e.st.handles[to.value] > Owed(e.list, to.value) {
      TargetAfterDrain(e.st, e.list, to.value);
    }
    assert [e.start][1..] == [];
  }

  /** The two locations of an environment are obtained, after a drain. */
  ghost predicate ObtainsBoth(a: Store, env: Env, got: Env, b: Store)
  {
    Covers(a.st, a.list, []) &&
    var d := Drain(a.st, a.list);
    && got == Env(Target(d, Some(env.root)), Target(d, Some(env.current)))
    && b == Store(Obtained(Obtained(d, Some(env.root)), Some(env.current)), [])
  }

  /** What `rtems_libio_set_private_env` does to the locations: nothing if there is a private
      environment or no memory; else both global locations are obtained and, when one of them is
      null or the key cannot be set, handed back. */
  ghost predicate MakesPrivate(a: Store, global: Env, priv: Option<Env>, memory: bool, key: bool,
                               enabled: bool, b: Store)
  {
    if priv.Some? || !memory then b == a
    else
      exists got: Env, s: Store :: ObtainsBoth(a, global, got, s) &&
        if key && got.root != NULL_LOCATION && got.current != NULL_LOCATION then b == s
        else HandsBack(s, [got.current, got.root], enabled, b)
  }

  /** What entering `current` does: it is obtained once more as the root, and then the handles
      of the environment before are handed back, or on failure that of the root. */
  ghost predicate Enters(a: Store, current: Gid, directory: bool, global: Env, priv: Option<Env>, memory: bool,
                         key: bool, enabled: bool, entered: bool, b: Store)
  {
    Covers(a.st, a.list, []) &&
    var d := Drain(a.st, a.list);
    var root, o := Target(d, Some(current)), Store(Obtained(d, Some(current)), []);
    var was := if priv.Some? then priv.value else global;
    if directory && root != NULL_LOCATION then
      exists s: Store :: MakesPrivate(o, global, priv, memory, key, enabled, s)
        && HandsBack(s, if entered then [was.root, was.current] else [root], enabled, b)
    else !entered && HandsBack(o, [root], enabled, b)
  }

  /** What `transform_to_global` does for a location on mount `m`. */
  ghost predicate Transforms(a: Store, m: Mid, memory: bool, name: Gid, g: Gid, b: Store)
  {
    if memory then
      && Inv(a.st) && m in a.st.mounts && m in a.st.chain && name !in a.st.owner && name !in a.st.freed
      && g == name && b == Store(Created(a.st, m, name), a.list)
    else
      Covers(a.st, a.list, []) && g == NULL_LOCATION && b == Store(Obtained(Drain(a.st, a.list), None), [])
  }

  /** What `chroot` does behind the evaluation `e`: the new location is made and entered if the
      evaluation has found one; then the handles of the evaluation are handed back, and on
      failure that of the new location. */
  ghost predicate Chroots(e: Evaluation, found: bool, name: Gid, directory: bool, global: Env, priv: Option<Env>,
                          memory: bool, envMemory: bool, key: bool, enabled: bool, entered: bool, b: Store)
  {
    exists current: Gid, s: Store, t: Store ::
      ChrootsVia(e, found, name, directory, global, priv, memory, envMemory, key, enabled, entered, b, current, s, t)
  }

  /** `s` is the state with the new location `current`, `t` the one after it was entered. */
  ghost predicate ChrootsVia(e: Evaluation, found: bool, name: Gid, directory: bool, global: Env, priv: Option<Env>,
                             memory: bool, envMemory: bool, key: bool, enabled: bool, entered: bool, b: Store,
                             current: Gid, s: Store, t: Store)
  {
    var some := found && e.start != NULL_LOCATION;
    var m := if some && e.start in e.st.owner then e.st.owner[e.start] else NULL_MOUNT;
    && Transforms(Store(e.st, e.list), m, memory, name, current, s)
    && (memory && some ==> Enters(s, current, directory, global, priv, envMemory, key, enabled, entered, t))
    && (!(memory && some) ==> !entered && t == s)
    && HandsBack(t, [e.start, e.root] + LeftOver(current, entered), enabled, b)
  }

  function LeftOver(current: Gid, entered: bool): seq<Gid>
  {
    if entered then [] else [current]
  }

  datatype Status = Successful | NoMemory | TooMany | Unsatisfied

  function Slots(env: Env): multiset<Gid>
  {
    multiset{env.root, env.current}
  }

  class Environments {
    var st: State
    var list: seq<Entry>       // the deferred list
    var global: Env
    var priv: Option<Env>      // the calling thread's private environment

    ghost function Owned(): multiset<Gid>
      reads this
    {
      Slots(global) + if priv.Some? then Slots(priv.value) else multiset{}
    }

    ghost function Now(): Store
      reads this
    {
      Store(st, list)
    }

    ghost predicate HeldOk(others: multiset<Gid>, g: Gid)
      reads this
    {
      st.handles[g] == Owned()[g] + others[g] + Owed(list, g)
    }

    /** Every outstanding handle is in an environment, is one of `others`, or is owed to the
        deferred list: none is lost, none is counted twice. */
    ghost predicate Balanced(others: multiset<Gid>)
      reads this
    {
      Inv(st) && ListOk(list) && forall g {:trigger HeldOk(others, g)} :: HeldOk(others, g)
    }

    lemma BalancedCovers(others: multiset<Gid>)
      requires Balanced(others)
      ensures Covers(st, list, [])
    {
      forall g ensures st.handles[g] >= Owed(list, g) { assert HeldOk(others, g); }
    }

    /** `rtems_filesystem_global_location_obtain`: drains, then counts up. */
    method Obtain(g: Option<Gid>, ghost others: multiset<Gid>) returns (r: Gid)
      requires Balanced(others)
      modifies this`st, this`list
      ensures Balanced(others + multiset{r}) && list == []
      ensures st.owner == old(st).owner && st.freed <= old(st).freed + st.owner.Keys
      ensures Covers(old(st), old(list), []) && Follows(old(st), st)
      ensures var drained := Drain(old(st), old(list)); r == Target(drained, g) && st == Obtained(drained, g)
    {
      hide Inv, ListOk, Follows;
      BalancedCovers(others);
      ObtainFollows(st, list, g);
      st, list := Drain(st, list), [];
      r := Target(st, g);
      st := Obtained(st, g);
      forall x ensures HeldOk(others + multiset{r}, x) { assert old(HeldOk(others, x)); }
      assert ListOk([]) by { EmptyListOk(); }
    }

    /** A release with dispatching enabled. */
    method Release1(g: Gid, ghost others: multiset<Gid>)
      requires Balanced(others + multiset{g})
      modifies this`st
      ensures Balanced(others)
      ensures st.owner == old(st).owner && st.freed <= old(st).freed + st.owner.Keys
      ensures CanRelease(old(st), g, 1) && st == Release(old(st), g, 1) && Follows(old(st), st)
    {
      hide Inv, Release, ListOk, Owed, Follows, Later;
      assert HeldOk(others + multiset{g}, g);
      ReleaseIsLater(st, g, 1);
      LaterFollows(st, Release(st, g, 1));
      st := Release(st, g, 1);
      forall x ensures HeldOk(others, x) { assert old(HeldOk(others + multiset{g}, x)); }
    }

    /** A release inside a critical section: the handle is owed to the list from now on. */
    method ReleaseLater(g: Gid, ghost others: multiset<Gid>)
      requires Balanced(others + multiset{g})
      modifies this`list
      ensures Balanced(others) && list == Defer(old(list), g)
    {
      ghost var was := list;
      DeferOwed(list, g, g);
      list := Defer(list, g);
      forall x ensures HeldOk(others, x) {
        assert old(HeldOk(others + multiset{g}, x));
        DeferOwed(was, g, x);
      }
    }

    /** `rtems_filesystem_global_location_release`: at once with dispatching enabled, else owed
        to the deferred list. */
    method ReleaseHandle(g: Gid, enabled: bool, ghost others: multiset<Gid>)
      requires Balanced(others + multiset{g})
      modifies this`st, this`list
      ensures Balanced(others) && Follows(old(st), st)
      ensures st.owner == old(st).owner && st.freed <= old(st).freed + st.owner.Keys
      ensures enabled ==> CanRelease(old(st), g, 1) && st == Release(old(st), g, 1) && list == old(list)
      ensures !enabled ==> st == old(st) && list == Defer(old(list), g)
      ensures HandsBack(old(Now()), [g], enabled, Now())
    {
      hide Inv, Release, ListOk, Owed, Balanced, Defer;
      if enabled {
        Release1(g, others);
      } else {
        ReleaseLater(g, others);
      }
      assert [g][1..] == [];
    }

    /** Moving handles between environments and the outside keeps the balance. */
    lemma Rebalanced(before: multiset<Gid>, others: multiset<Gid>, was: multiset<Gid>)
      requires Inv(st) && ListOk(list) && was + before == Owned() + others
      requires forall g :: st.handles[g] == was[g] + before[g] + Owed(list, g)
      ensures Balanced(others)
    {
      forall g ensures HeldOk(others, g) { assert (was + before)[g] == (Owned() + others)[g]; }
    }

    /** `rtems_libio_free_user_env` on an environment that nobody uses any more. */
    method FreeUserEnv(env: Env, enabled: bool, ghost others: multiset<Gid>)
      requires Balanced(others + Slots(env))
      modifies this`st, this`list
      ensures Balanced(others) && HandsBack(old(Now()), [env.current, env.root], enabled, Now())
      ensures enabled ==>
        && CanRelease(old(st), env.current, 1) && CanRelease(Release(old(st), env.current, 1), env.root, 1)
        && st == Release(Release(old(st), env.current, 1), env.root, 1) && list == old(list)
      ensures !enabled ==> st == old(st) && list == Defer(Defer(old(list), env.current), env.root)
    {
      hide Inv, ListOk, Owed, Balanced, HandsBack, Defer, Follows;
      assert others + Slots(env) == others + multiset{env.root} + multiset{env.current};
      ghost var a := Now();
      ReleaseHandle(env.current, enabled, others + multiset{env.root});
      ghost var b := Now();
      ReleaseHandle(env.root, enabled, others);
      BackFirst(a, env.current, b, [env.root], enabled, Now());
      assert [env.current] + [env.root] == [env.current, env.root];
    }


    /** The thread's environment pointer now owns the handles of `env`. */
    method Install(env: Env, ghost others: multiset<Gid>)
      requires priv.None? && Balanced(others + Slots(env))
      modifies this`priv
      ensures Balanced(others) && priv == Some(env)
    {
      hide Inv, ListOk, Owed, Slots;
      ghost var was := Owned();
      forall g ensures st.handles[g] == was[g] + (others + Slots(env))[g] + Owed(list, g) {
        assert HeldOk(others + Slots(env), g);
      }
      priv := Some(env);
      Rebalanced(others + Slots(env), others, was);
    }

    /** The two handles of a new private environment, as the global one has them. */
    method ObtainBoth(ghost others: multiset<Gid>) returns (env: Env)
      requires Balanced(others)
      modifies this`st, this`list
      ensures Balanced(others + Slots(env)) && Covers(old(st), old(list), [])
      ensures var drained := Drain(old(st), old(list));
              env == Env(Target(drained, Some(global.root)), Target(drained, Some(global.current)))
      ensures ObtainsBoth(old(Now()), global, env, Now())
    {
      hide Inv, ListOk, Owed, Balanced, Obtained, Target, Covers, Drain;
      assert Covers(st, list, []) by { BalancedCovers(others); }
      ghost var drained := Drain(st, list);
      var root := Obtain(Some(global.root), others);
      UsableAfterObtain(drained, Some(global.root), global);
      TargetAfterObtain(drained, Some(global.root), Some(global.current));
      var current := Obtain(Some(global.current), others + multiset{root});
      env := Env(root, current);
      assert others + multiset{root} + multiset{current} == others + Slots(env);
    }

    /** `rtems_libio_set_private_env`. The two flags are whether `calloc` and
        `pthread_setspecific` succeed. A failure hands both handles back. */
    method SetPrivateEnv(memory: bool, key: bool, enabled: bool, ghost others: multiset<Gid>) returns (sc: Status)
      requires Balanced(others)
      modifies this
      ensures Balanced(others) && global == old(global)
      ensures priv == if old(priv).None? && sc == Successful then Some(global) else old(priv)
      ensures MakesPrivate(old(Now()), global, old(priv), memory, key, enabled, Now())
      ensures Covers(old(st), old(list), [])
      ensures sc == if old(priv).Some? then Successful
                    else if !memory then NoMemory
                    else if !Usable(Drain(old(st), old(list)), global) then Unsatisfied
                    else if !key then TooMany
                    else Successful
    {
      hide Inv, ListOk, Owed, Balanced, Obtained, Target, Covers, Drain, Slots, ObtainsBoth, HandsBack, Defer;
      sc := Successful;
      assert Covers(st, list, []) by { BalancedCovers(others); }
      ghost var drained := Drain(st, list);
      if priv.None? {
        if !memory {
          return NoMemory;
        }
        var env := ObtainBoth(others);
        TargetIs(drained, global.root);
        TargetIs(drained, global.current);
        if env.root != NULL_LOCATION && env.current != NULL_LOCATION {
          if key {
            Install(env, others);
          } else {
            sc := TooMany;
          }
        } else {
          sc := Unsatisfied;
        }
        if sc != Successful {
          FreeUserEnv(env, enabled, others);
        }
      }
    }

    /** `rtems_libio_use_global_env`. */
    method UseGlobalEnv(enabled: bool, ghost others: multiset<Gid>)
      requires Balanced(others)
      modifies this
      ensures Balanced(others) && priv == None && global == old(global)
      ensures old(priv).None? ==> st == old(st) && list == old(list)
      ensures old(priv).Some? && enabled ==>
        var env := old(priv).value;
        && CanRelease(old(st), env.current, 1) && CanRelease(Release(old(st), env.current, 1), env.root, 1)
        && st == Release(Release(old(st), env.current, 1), env.root, 1) && list == old(list)
      ensures old(priv).Some? && !enabled ==>
        st == old(st) && list == Defer(Defer(old(list), old(priv).value.current), old(priv).value.root)
    {
      if priv.Some? {
        var env := priv.value;
        forall g ensures st.handles[g] == Owned()[g] + others[g] + Owed(list, g) { assert HeldOk(others, g); }
        ghost var was := Owned();
        priv := None;
        Rebalanced(others, others + Slots(env), was);
        FreeUserEnv(env, enabled, others);
      }
    }

    /** `rtems_filesystem_global_location_assign`: exchange a slot's handle, release the old. */
    method AssignEnv(env: Env, old1: Gid, g: Gid, enabled: bool, ghost others: multiset<Gid>)
      requires priv.Some? && Balanced(others + multiset{g})
      requires Slots(env) + multiset{old1} == Slots(priv.value) + multiset{g}
      modifies this`st, this`list, this`priv
      ensures Balanced(others) && priv == Some(env) && HandsBack(old(Now()), [old1], enabled, Now())
    {
      hide Inv, ListOk, Owed, Slots, HandsBack;
      ghost var was := Owned();
      forall x ensures st.handles[x] == was[x] + (others + multiset{g})[x] + Owed(list, x) {
        assert HeldOk(others + multiset{g}, x);
      }
      ghost var shared := Slots(global) + others;
      assert was + (others + multiset{g}) == shared + (Slots(priv.value) + multiset{g});
      priv := Some(env);
      assert Owned() + (others + multiset{old1}) == shared + (Slots(env) + multiset{old1});
      Rebalanced(others + multiset{g}, others + multiset{old1}, was);
      ReleaseHandle(old1, enabled, others);
    }

    method AssignRoot(g: Gid, enabled: bool, ghost others: multiset<Gid>)
      requires priv.Some? && Balanced(others + multiset{g})
      modifies this`st, this`list, this`priv
      ensures Balanced(others) && priv == Some(old(priv).value.(root := g))
      ensures HandsBack(old(Now()), [old(priv).value.root], enabled, Now())
    {
      hide Inv, ListOk, Owed;
      AssignEnv(priv.value.(root := g), priv.value.root, g, enabled, others);
    }

    method AssignCurrent(g: Gid, enabled: bool, ghost others: multiset<Gid>)
      requires priv.Some? && Balanced(others + multiset{g})
      modifies this`st, this`list, this`priv
      ensures Balanced(others) && priv == Some(old(priv).value.(current := g))
      ensures HandsBack(old(Now()), [old(priv).value.current], enabled, Now())
    {
      hide Inv, ListOk, Owed;
      AssignEnv(priv.value.(current := g), priv.value.current, g, enabled, others);
    }

    /** The handles of a path evaluation: root and start location, of which the start
        location is exchanged at every restart. */
    method Evaluate(absolute: bool, empty: bool, restarts: seq<Option<Gid>>, enabled: bool, ghost others: multiset<Gid>)
      returns (root: Gid, start: Gid)
      requires Balanced(others)
      modifies this`st, this`list
      ensures Balanced(others + multiset{root} + multiset{start})
      ensures Covers(old(st), old(list), []) && Follows(old(st), st)
      ensures st.owner == old(st).owner && st.freed <= old(st).freed + st.owner.Keys
      ensures Evaluation(st, list, root, start)
           == Evaluated(Started(old(st), old(list), global, absolute, empty), restarts, enabled)
    {
      hide Inv, ListOk, Owed, Balanced, Obtained, Target, Covers, Drain, Started, Restarted, Follows, Live;
      root, start := Start(absolute, empty, others);
      ghost var begun := Evaluation(st, list, root, start);
      var i := 0;
      while i < |restarts|
        invariant i <= |restarts| && Balanced(others + multiset{root} + multiset{start})
        invariant Follows(old(st), st) && Live(Evaluation(st, list, root, start))
        invariant st.owner == old(st).owner && st.freed <= old(st).freed + st.owner.Keys
        invariant Evaluated(Evaluation(st, list, root, start), restarts[i..], enabled)
               == Evaluated(begun, restarts, enabled)
      {
        assert restarts[i..][1..] == restarts[i + 1..];
        ghost var before := st;
        start := Restart(root, start, restarts[i], enabled, others);
        FollowsOn(old(st), before, st);
        i := i + 1;
      }
    }

    /** `set_startloc`. */
    method Start(absolute: bool, empty: bool, ghost others: multiset<Gid>) returns (root: Gid, start: Gid)
      requires Balanced(others)
      modifies this`st, this`list
      ensures Balanced(others + multiset{root} + multiset{start})
      ensures Covers(old(st), old(list), []) && Follows(old(st), st)
      ensures st.owner == old(st).owner && st.freed <= old(st).freed + st.owner.Keys
      ensures Evaluation(st, list, root, start) == Started(old(st), old(list), global, absolute, empty)
    {
      hide Inv, ListOk, Owed, Balanced, Obtained, Target, Covers, Drain, Follows;
      root := Obtain(if empty then None else Some(global.root), others);
      ghost var before := st;
      var from := if empty then None else if absolute then Some(root) else Some(global.current);
      UsableAfterObtain(Drain(old(st), old(list)), if empty then None else Some(global.root), global);
      start := Obtain(from, others + multiset{root});
      FollowsOn(old(st), before, st);
    }

    /** `rtems_filesystem_eval_path_restart`. */
    method Restart(root: Gid, was: Gid, to: Option<Gid>, enabled: bool, ghost others: multiset<Gid>)
      returns (start: Gid)
      requires Balanced(others + multiset{root} + multiset{was}) && Live(Evaluation(st, list, root, was))
      modifies this`st, this`list
      ensures Balanced(others + multiset{root} + multiset{start})
      ensures Follows(old(st), st) && st.owner == old(st).owner && st.freed <= old(st).freed + st.owner.Keys
      ensures Evaluation(st, list, root, start) == Restarted(Evaluation(old(st), old(list), root, was), to, enabled)
    {
      hide Inv, ListOk, Owed, Balanced, Obtained, Target, Covers, Drain, Follows, Live, Defer, Release;
      start := Obtain(to, others + multiset{root} + multiset{was});
      ghost var before, rest := st, others + multiset{root} + multiset{start};
      assert others + multiset{root} + multiset{was} + multiset{start} == rest + multiset{was};
      ReleaseHandle(was, enabled, rest);
      FollowsOn(old(st), before, st);
    }

    /** `transform_to_global` of a location on mount `m`; `name` is the new object's name. */
    method TransformToGlobal(m: Mid, memory: bool, name: Gid, ghost others: multiset<Gid>) returns (g: Gid)
      requires Balanced(others) && name !in st.owner && name !in st.freed && m in st.mounts && m in st.chain
      modifies this`st, this`list
      ensures Balanced(others + multiset{g}) && Follows(old(st), st)
      ensures if memory then g == name && g in st.owner && st.owner[g] == m else g == NULL_LOCATION
      ensures memory && old(st).mounts[m].mounted ==> Target(st, Some(name)) == name
      ensures Transforms(old(Now()), m, memory, name, g, Now())
    {
      hide ListOk, Owed, Inv, Balanced, Drain, Covers;
      if memory {
        MakeGlobal(m, name, others);
        g := name;
      } else {
        g := Obtain(None, others);
      }
    }

    /** The new global location takes the place of the other on its mount's chain. */
    method MakeGlobal(m: Mid, name: Gid, ghost others: multiset<Gid>)
      requires Balanced(others) && name !in st.owner && name !in st.freed && m in st.mounts && m in st.chain
      modifies this`st
      ensures Balanced(others + multiset{name}) && Follows(old(st), st)
      ensures Inv(old(st)) && st == Created(old(st), m, name)
    {
      hide ListOk, Owed, Inv, Created, Follows;
      CreatedFollows(st, m, name);
      st := Created(st, m, name);
      forall x ensures HeldOk(others + multiset{name}, x) { assert old(HeldOk(others, x)); }
    }

    /** `chroot` once the path is evaluated and `current` is the new global location: the
        second handle, the directory test, the private environment and the two assignments. */
    method Enter(current: Gid, directory: bool, envMemory: bool, key: bool, enabled: bool, ghost others: multiset<Gid>)
      returns (rv: int)
      requires Balanced(others + multiset{current})
      modifies this
      ensures global == old(global) && (rv == 0 || rv == -1)
      ensures rv == 0 ==> Balanced(others) && priv == Some(Env(current, current))
      ensures rv == -1 ==> Balanced(others + multiset{current})
      ensures Covers(old(st), old(list), [])
      ensures var drained := Drain(old(st), old(list));
              rv == 0 <==> && directory && Target(drained, Some(current)) != NULL_LOCATION
                           && (old(priv).Some? || (envMemory && key && Usable(drained, global)))
      ensures rv == -1 ==> priv == old(priv)
      ensures Enters(old(Now()), current, directory, global, old(priv), envMemory, key, enabled, rv == 0, Now())
    {
      hide Inv, ListOk, Owed, Slots, Balanced, Obtained, Target, Covers, Drain, Usable, MakesPrivate, HandsBack, Defer;
      rv := 0;
      assert Covers(st, list, []) by { BalancedCovers(others + multiset{current}); }
      ghost var drained := Drain(st, list);
      ghost var both := others + multiset{current};
      var root := Obtain(Some(current), both);
      TargetIs(drained, current);
      UsableAfterObtain(drained, Some(current), global);
      ghost var made := Now();
      if directory && root != NULL_LOCATION {
        var sc := SetPrivateEnv(envMemory, key, enabled, both + multiset{root});
        made := Now();
        if sc == Successful {
          ghost var was := priv.value;
          AssignRoot(root, enabled, both);
          ghost var half := Now();
          AssignCurrent(current, enabled, others);
          BackFirst(made, was.root, half, [was.current], enabled, Now());
          assert [was.root] + [was.current] == [was.root, was.current];
        } else {
          rv := -1;
        }
      } else {
        rv := -1;
      }
      if rv != 0 {
        ReleaseHandle(root, enabled, both);
      }
    }

    /** The mount of a location that is held is there. */
    lemma HeldIsMounted(others: multiset<Gid>, g: Gid)
      requires Balanced(others + multiset{g})
      ensures g in st.owner && st.owner[g] in st.mounts && st.owner[g] in st.chain
      ensures NULL_MOUNT in st.mounts && NULL_MOUNT in st.chain
      ensures Target(st, Some(g)) == g && g != NULL_LOCATION ==> st.mounts[st.owner[g]].mounted
    {
      assert HeldOk(others + multiset{g}, g);
      assert HandleOk(st, g) && LocationOk(st, g) && MountOk(st, NULL_MOUNT);
    }

    /** A location that is held can be obtained after a drain exactly when it could before, and
        the environments are as usable as they were in any state before. */
    lemma DrainedTargets(others: multiset<Gid>, g: Gid, before: State)
      requires Balanced(others + multiset{g}) && Follows(before, st) && global.root in before.owner
      requires global.current in before.owner
      ensures Covers(st, list, []) && Target(Drain(st, list), Some(g)) == Target(st, Some(g))
      ensures Usable(Drain(st, list), global) == Usable(before, global)
    {
      hide Inv, Drain, Target, ListOk, Follows;
      BalancedCovers(others + multiset{g});
      DrainFollows(st, list);
      FollowsOn(before, st, Drain(st, list));
      forall x | x in {g, global.root, global.current} ensures x in Drain(st, list).refs && x in st.owner {
        StillThere(others + multiset{g}, x);
      }
      StillTarget(st, Drain(st, list), g);
      StillTarget(before, Drain(st, list), global.root);
      StillTarget(before, Drain(st, list), global.current);
    }

    lemma StillThere(others: multiset<Gid>, x: Gid)
      requires Balanced(others) && Covers(st, list, []) && (Owned() + others)[x] > 0
      ensures x in Drain(st, list).refs && x in st.owner
    {
      hide Drain, ListOk, Owed;
      var d := Drain(st, list);
      assert HeldOk(others, x);
      assert HandleOk(d, x) && LocationOk(d, x);
    }

    /** `chroot` for a path whose evaluation restarts at the given locations and finds a location
        or not; the location is on the mount of the evaluation's start location then. Every exit
        is balanced: what was obtained is in the private environment or released, and a failing
        call leaves the environments as they were. */
    method Chroot(absolute: bool, empty: bool, restarts: seq<Option<Gid>>, found: bool, name: Gid, directory: bool,
                  memory: bool, envMemory: bool, key: bool, enabled: bool, ghost others: multiset<Gid>)
      returns (rv: int)
      requires Balanced(others) && name !in st.owner && name !in st.freed
      modifies this
      ensures Balanced(others) && global == old(global) && (rv == 0 || rv == -1)
      ensures Covers(old(st), old(list), [])
      ensures rv == 0 <==>
        && found && memory && directory
        && Evaluated(Started(old(st), old(list), global, absolute, empty), restarts, enabled).start != NULL_LOCATION
        && (old(priv).Some? || (envMemory && key && Usable(old(st), global)))
      ensures priv == if rv == 0 then Some(Env(name, name)) else old(priv)
      ensures Chroots(Evaluated(Started(old(st), old(list), global, absolute, empty), restarts, enabled), found, name,
                      directory, global, old(priv), memory, envMemory, key, enabled, rv == 0, Now())
    {
      hide Inv, ListOk, Owed, Slots, Balanced, Obtained, Target, Covers, Drain, Usable, Created, Follows;
      hide Started, Evaluated, Transforms, Enters, HandsBack, Defer;
      GlobalIsKnown(others);
      var root, start := Evaluate(absolute, empty, restarts, enabled, others);
      ghost var ctx := others + multiset{root} + multiset{start};
      HeldIsMounted(others + multiset{root}, start);
      ghost var reached, e := st, Evaluation(st, list, root, start);
      var some := found && start != NULL_LOCATION;
      var current := TransformToGlobal(if some then st.owner[start] else NULL_MOUNT, memory, name, ctx);
      FollowsOn(old(st), reached, st);
      DrainedTargets(ctx, current, old(st));
      ghost var made := Now();
      rv := -1;
      if memory && some {
        rv := Enter(current, directory, envMemory, key, enabled, ctx);
      }
      ghost var rest := if rv == 0 then others else others + multiset{current};
      assert rest + multiset{root} + multiset{start} == if rv == 0 then ctx else ctx + multiset{current};
      ghost var entered := Now();
      CleanUp(root, start, LeftOver(current, rv == 0), enabled, rest, others);
      assert ChrootsVia(e, found, name, directory, global, old(priv), memory, envMemory, key, enabled, rv == 0, Now(),
                        current, made, entered);
    }

    /** The end of `chroot`: the handles of the evaluation, and what is left over. */
    method CleanUp(root: Gid, start: Gid, more: seq<Gid>, enabled: bool,
                   ghost rest: multiset<Gid>, ghost others: multiset<Gid>)
      requires |more| <= 1 && rest == others + multiset(more) && Balanced(rest + multiset{root} + multiset{start})
      modifies this`st, this`list
      ensures Balanced(others) && HandsBack(old(Now()), [start, root] + more, enabled, Now())
    {
      hide Inv, ListOk, Owed, Slots, Balanced, Follows, HandsBack, Defer, Release;
      ghost var a := Now();
      ReleaseHandle(start, enabled, rest + multiset{root});
      ghost var b := Now();
      ReleaseHandle(root, enabled, rest);
      ghost var c := Now();
      if |more| == 1 {
        assert more == [more[0]] && rest == others + multiset{more[0]};
        ReleaseHandle(more[0], enabled, others);
      } else {
        assert more == [] && rest == others;
        NothingBack(c, enabled);
      }
      BackFirst(b, root, c, more, enabled, Now());
      BackFirst(a, start, b, [root] + more, enabled, Now());
      assert [start] + ([root] + more) == [start, root] + more;
    }

    lemma GlobalIsKnown(others: multiset<Gid>)
      requires Balanced(others)
      ensures global.root in st.owner && global.current in st.owner && NULL_LOCATION in st.owner
    {
      assert HeldOk(others, global.root) && HeldOk(others, global.current);
      assert HandleOk(st, global.root) && HandleOk(st, global.current);
      assert LocationOk(st, global.root) && LocationOk(st, global.current) && MountOk(st, NULL_MOUNT);
    }
  }
}
