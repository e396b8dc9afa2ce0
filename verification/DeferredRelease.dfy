/** Releases made while thread dispatching is disabled are collected on a list and done
    later, in list order with their counts added up. That makes no difference. */
module DeferredRelease {
  import opened Basics
  import opened Locations

  /** An entry of the deferred list: a location and how often it was released. */
  datatype Entry = Entry(g: Gid, count: nat)

  ghost function Owed(list: seq<Entry>, g: Gid): nat
  {
    if list == [] then 0 else (if list[0].g == g then list[0].count else 0) + Owed(list[1..], g)
  }

  ghost predicate ListOk(list: seq<Entry>)
  {
    && (forall i :: 0 <= i < |list| ==> list[i].count >= 1)
    && (forall i, j :: 0 <= i < j < |list| ==> list[i].g != list[j].g)
  }

  lemma {:induction false} OwedAt(list: seq<Entry>, i: nat)
    requires i < |list| && ListOk(list)
    ensures Owed(list, list[i].g) >= list[i].count >= 1
  {
    if i > 0 { OwedAt(list[1..], i - 1); }
  }

  predicate OnList(list: seq<Entry>, g: Gid)
  {
    exists i :: 0 <= i < |list| && list[i].g == g
  }

  /** A release in a critical section: the first one puts the location at the head of the
      list, each further one counts up. */
  function Defer(list: seq<Entry>, g: Gid): seq<Entry>
  {
    if OnList(list, g) then CountUp(list, g) else [Entry(g, 1)] + list
  }

  function CountUp(list: seq<Entry>, g: Gid): (r: seq<Entry>)
    ensures |r| == |list|
  {
    if list == [] then []
    else if list[0].g == g then [Entry(g, list[0].count + 1)] + list[1..]
    else [list[0]] + CountUp(list[1..], g)
  }

  /** The outside holds everything that is still to be released. */
  ghost predicate Covers(st: State, list: seq<Entry>, more: seq<Gid>)
  {
    Inv(st) && ListOk(list) && forall g :: st.handles[g] >= Owed(list, g) + multiset(more)[g]
  }

  lemma OwedHead(list: seq<Entry>, more: seq<Gid>, st: State)
    requires list != [] && Covers(st, list, more)
    ensures st.handles[list[0].g] >= list[0].count >= 1
    ensures Covers(Release(st, list[0].g, list[0].count), list[1..], more)
  {
    assert Owed(list, list[0].g) >= list[0].count;
    var s := Release(st, list[0].g, list[0].count);
    forall g ensures s.handles[g] >= Owed(list[1..], g) + multiset(more)[g] {
      assert st.handles[g] >= Owed(list, g) + multiset(more)[g];
    }
  }

  /** The drain loop: take the head off, release it with its count, until none is left. */
  function Drain(st: State, list: seq<Entry>): (s: State)
    requires Covers(st, list, [])
    ensures Inv(s) && s.owner == st.owner
    ensures forall g :: s.handles[g] == st.handles[g] - Owed(list, g)
    ensures s.freed <= st.freed + st.owner.Keys
    decreases |list|
  {
    if list == [] then st
    else
      OwedHead(list, [], st);
      Drain(Release(st, list[0].g, list[0].count), list[1..])
  }

  lemma DrainStep(st: State, list: seq<Entry>)
    requires Covers(st, list, []) && list != []
    ensures Inv(st) && st.handles[list[0].g] >= list[0].count >= 1
    ensures Covers(Release(st, list[0].g, list[0].count), list[1..], [])
    ensures Drain(st, list) == Drain(Release(st, list[0].g, list[0].count), list[1..])
  {
    OwedHead(list, [], st);
  }

  lemma MoreHead(st: State, list: seq<Entry>, g: Gid, rest: seq<Gid>)
    requires Covers(st, list, [g] + rest)
    ensures st.handles[g] >= 1 && Covers(Release(st, g, 1), list, rest)
  {
    assert multiset([g] + rest) == multiset{g} + multiset(rest);
    assert st.handles[g] >= Owed(list, g) + multiset([g] + rest)[g];
    var s := Release(st, g, 1);
    forall x ensures s.handles[x] >= Owed(list, x) + multiset(rest)[x] {
      assert st.handles[x] >= Owed(list, x) + multiset([g] + rest)[x];
    }
  }

  /** Every release done at once. */
  function ReleaseAll(st: State, gs: seq<Gid>): (s: State)
    requires Covers(st, [], gs)
    ensures Inv(s) && s.owner == st.owner
    ensures forall g :: s.handles[g] == st.handles[g] - multiset(gs)[g]
    decreases |gs|
  {
    if gs == [] then st
    else
      assert gs == [gs[0]] + gs[1..];
      MoreHead(st, [], gs[0], gs[1..]);
      ReleaseAll(Release(st, gs[0], 1), gs[1..])
  }

  /** Counting up keeps the order of the locations. */
  lemma {:induction false} CountUpShape(list: seq<Entry>, g: Gid, i: nat)
    requires i < |list|
    ensures var r := CountUp(list, g); r[i].g == list[i].g && r[i].count >= list[i].count
  {
    if i > 0 && list[0].g != g { CountUpShape(list[1..], g, i - 1); }
  }

  lemma CountUpListOk(list: seq<Entry>, g: Gid)
    requires ListOk(list)
    ensures ListOk(CountUp(list, g))
  {
    forall i | 0 <= i < |list|
      ensures CountUp(list, g)[i].g == list[i].g && CountUp(list, g)[i].count >= list[i].count
    {
      CountUpShape(list, g, i);
    }
  }

  lemma {:induction false} CountUpOwed(list: seq<Entry>, g: Gid, x: Gid)
    requires OnList(list, g)
    ensures Owed(CountUp(list, g), x) == Owed(list, x) + if x == g then 1 else 0
  {
    CountUpTail(list, g);
    if list[0].g != g {
      CountUpOwed(list[1..], g, x);
    }
  }

  /** Deferring adds one to what is owed of the location, and keeps the list in order. */
  lemma DeferOwed(list: seq<Entry>, g: Gid, x: Gid)
    requires ListOk(list)
    ensures Owed(Defer(list, g), x) == Owed(list, x) + if x == g then 1 else 0
    ensures ListOk(Defer(list, g))
  {
    if OnList(list, g) {
      CountUpOwed(list, g, x);
      CountUpListOk(list, g);
    } else {
      assert ([Entry(g, 1)] + list)[1..] == list;
    }
  }

  lemma DeferCovers(st: State, list: seq<Entry>, g: Gid, rest: seq<Gid>)
    requires Covers(st, list, [g] + rest)
    ensures Covers(st, Defer(list, g), rest)
  {
    assert multiset([g] + rest) == multiset{g} + multiset(rest);
    DeferOwed(list, g, g);
    forall x ensures st.handles[x] >= Owed(Defer(list, g), x) + multiset(rest)[x] {
      DeferOwed(list, g, x);
      assert st.handles[x] >= Owed(list, x) + multiset([g] + rest)[x];
    }
  }

  lemma CountUpTail(list: seq<Entry>, g: Gid)
    requires OnList(list, g)
    ensures var r := CountUp(list, g);
            if list[0].g == g then r[0] == Entry(g, list[0].count + 1) && r[1..] == list[1..]
            else r[0] == list[0] && r[1..] == CountUp(list[1..], g) && OnList(list[1..], g)
  {
    if list[0].g != g {
      var i :| 0 <= i < |list| && list[i].g == g;
      assert list[1..][i - 1].g == g;
    }
  }

  /** The head of the list and a release behind it can change places. */
  lemma HeadPastRelease(st: State, list: seq<Entry>, g: Gid)
    requires list != [] && Covers(st, list, [g]) && list[0].g != g
    ensures Inv(st) && st.handles[list[0].g] >= list[0].count >= 1 && st.handles[g] >= 1
    ensures Covers(Release(st, list[0].g, list[0].count), list[1..], [g])
    ensures Release(st, list[0].g, list[0].count).handles[g] >= 1
    ensures Release(st, g, 1).handles[list[0].g] >= list[0].count
    ensures Release(Release(st, g, 1), list[0].g, list[0].count) == Release(Release(st, list[0].g, list[0].count), g, 1)
  {
    hide Release, Inv, ListOk;
    assert [g] + [] == [g];
    MoreHead(st, list, g, []);
    OwedHead(list, [g], st);
    ReleasesCommute(st, list[0].g, list[0].count, g, 1);
  }

  /** A deferred release that only counts up might as well have come first. */
  lemma {:induction false} DrainCountUp(st: State, list: seq<Entry>, g: Gid)
    requires Covers(st, list, [g]) && Covers(st, CountUp(list, g), [])
    requires OnList(list, g)
    ensures st.handles[g] >= 1 && Covers(Release(st, g, 1), list, [])
    ensures Drain(st, CountUp(list, g)) == Drain(Release(st, g, 1), list)
    decreases |list|
  {
    assert list != [];
    hide Release, Inv, ListOk, Covers, CountUp, Drain, Owed, OnList;
    assert [g] + [] == [g];
    var r, h := CountUp(list, g), list[0];
    CountUpTail(list, g);
    MoreHead(st, list, g, []);
    if h.g == g {
      CountUpHead(st, list, r, g, h.count);
    } else {
      DrainStep(st, r);
      DrainStep(Release(st, g, 1), list);
      HeadPastRelease(st, list, g);
      DrainCountUp(Release(st, h.g, h.count), list[1..], g);
    }
  }

  /** `r` is `list` with one more release of the head. */
  lemma CountUpHead(st: State, list: seq<Entry>, r: seq<Entry>, g: Gid, n: nat)
    requires Covers(st, list, [g]) && Covers(st, r, [])
    requires list != [] && list[0] == Entry(g, n) && r != [] && r[0] == Entry(g, n + 1) && r[1..] == list[1..]
    ensures st.handles[g] >= 1 && Covers(Release(st, g, 1), list, [])
    ensures Drain(st, r) == Drain(Release(st, g, 1), list)
  {
    hide Release, Inv, ListOk, Covers, Drain, Owed;
    assert [g] + [] == [g];
    MoreHead(st, list, g, []);
    DrainStep(st, r);
    DrainStep(Release(st, g, 1), list);
    ReleasesAdd(st, g, 1, n);
  }

  lemma DrainDefer(st: State, list: seq<Entry>, g: Gid)
    requires Covers(st, list, [g])
    ensures Covers(st, Defer(list, g), []) && st.handles[g] >= 1 && Covers(Release(st, g, 1), list, [])
    ensures Drain(st, Defer(list, g)) == Drain(Release(st, g, 1), list)
  {
    assert [g] + [] == [g];
    DeferCovers(st, list, g, []);
    MoreHead(st, list, g, []);
    if OnList(list, g) {
      DrainCountUp(st, list, g);
    } else {
      assert Defer(list, g)[1..] == list;
    }
  }

  /** A release can be made before or after any further ones. */
  lemma {:induction false} ReleasePastAll(st: State, g: Gid, gs: seq<Gid>)
    requires Covers(st, [], [g] + gs)
    ensures Covers(st, [], gs) && st.handles[g] >= 1 && Covers(Release(st, g, 1), [], gs)
    ensures ReleaseAll(st, gs).handles[g] >= 1
    ensures Release(ReleaseAll(st, gs), g, 1) == ReleaseAll(Release(st, g, 1), gs)
    decreases |gs|
  {
    hide Release, Inv;
    MoreHead(st, [], g, gs);
    assert multiset([g] + gs) == multiset{g} + multiset(gs);
    forall x ensures st.handles[x] >= Owed([], x) + multiset(gs)[x] {
      assert st.handles[x] >= Owed([], x) + multiset([g] + gs)[x];
    }
    assert st.handles[g] >= Owed([], g) + multiset([g] + gs)[g];
    if gs != [] {
      var h, rest := gs[0], gs[1..];
      assert gs == [h] + rest;
      assert multiset([h] + ([g] + rest)) == multiset([g] + gs);
      assert Covers(st, [], [h] + ([g] + rest));
      MoreHead(st, [], h, [g] + rest);
      ReleasePastAll(Release(st, h, 1), g, rest);
      ReleasesCommute(st, g, 1, h, 1);
    }
  }

  /** A release with dispatching enabled, or in a critical section. */
  datatype Event = Event(g: Gid, enabled: bool)

  datatype Pending = Pending(st: State, list: seq<Entry>)

  function Ids(events: seq<Event>): (gs: seq<Gid>)
    ensures |gs| == |events|
  {
    if events == [] then [] else [events[0].g] + Ids(events[1..])
  }

  /** What a run of releases leaves: the state and the deferred list. */
  function Replay(st: State, list: seq<Entry>, events: seq<Event>): (p: Pending)
    requires Covers(st, list, Ids(events))
    ensures Covers(p.st, p.list, [])
    decreases |events|
  {
    if events == [] then Pending(st, list)
    else
      var e, rest := events[0], events[1..];
      if e.enabled then
        MoreHead(st, list, e.g, Ids(rest));
        Replay(Release(st, e.g, 1), list, rest)
      else
        DeferCovers(st, list, e.g, Ids(rest));
        Replay(st, Defer(list, e.g), rest)
  }

  /** With dispatching enabled throughout nothing more is owed at the end. */
  lemma {:induction false} ReplayEnabled(st: State, list: seq<Entry>, events: seq<Event>)
    requires Covers(st, list, Ids(events)) && Covers(st, [], Ids(events))
    requires forall i :: 0 <= i < |events| ==> events[i].enabled
    ensures Replay(st, list, events) == Pending(ReleaseAll(st, Ids(events)), list)
    decreases |events|
  {
    hide Release, Inv;
    if events != [] {
      var e, rest := events[0], events[1..];
      assert Ids(events) == [e.g] + Ids(rest) && Ids(events)[1..] == Ids(rest);
      MoreHead(st, list, e.g, Ids(rest));
      MoreHead(st, [], e.g, Ids(rest));
      ReplayEnabled(Release(st, e.g, 1), list, rest);
    }
  }

  /** Without it nothing has been done to the locations. */
  lemma {:induction false} ReplayDisabled(st: State, list: seq<Entry>, events: seq<Event>)
    requires Covers(st, list, Ids(events))
    requires forall i :: 0 <= i < |events| ==> !events[i].enabled
    ensures Replay(st, list, events).st == st
    decreases |events|
  {
    hide Release, Inv, Covers, Defer;
    if events != [] {
      var e, rest := events[0], events[1..];
      assert Ids(events) == [e.g] + Ids(rest);
      DeferCovers(st, list, e.g, Ids(rest));
      ReplayDisabled(st, Defer(list, e.g), rest);
    }
  }

  /** A first deferral puts the location at the head, a further one keeps the order. */
  lemma DeferPlaces(list: seq<Entry>, g: Gid)
    ensures !OnList(list, g) ==> Defer(list, g) == [Entry(g, 1)] + list
    ensures OnList(list, g) ==>
      |Defer(list, g)| == |list| && forall i :: 0 <= i < |list| ==> Defer(list, g)[i].g == list[i].g
  {
    if OnList(list, g) {
      forall i | 0 <= i < |list| ensures Defer(list, g)[i].g == list[i].g { CountUpShape(list, g, i); }
    }
  }

  /** Deferred release refines immediate release: whatever mix of enabled and deferred
      releases is made, once the list is drained every count, every freed location and every
      mount that was taken out is the same as if each release had been done at once. */
  lemma {:induction false} DeferringMakesNoDifference(st: State, list: seq<Entry>, events: seq<Event>)
    requires Covers(st, list, Ids(events))
    ensures Covers(st, [], Ids(events)) && Covers(ReleaseAll(st, Ids(events)), list, [])
    ensures var p := Replay(st, list, events);
            Drain(p.st, p.list) == Drain(ReleaseAll(st, Ids(events)), list)
    decreases |events|
  {
    hide Release, Inv;
    if events != [] {
      var e, rest := events[0], events[1..];
      var gs := Ids(rest);
      assert Ids(events) == [e.g] + gs;
      MoreHead(st, list, e.g, gs);
      if e.enabled {
        DeferringMakesNoDifference(Release(st, e.g, 1), list, rest);
        assert Ids(events)[1..] == gs;
      } else {
        DeferredFirst(st, list, e.g, gs);
        DeferCovers(st, list, e.g, gs);
        DeferringMakesNoDifference(st, Defer(list, e.g), rest);
      }
    }
  }

  /** The step for one deferred release ahead of the releases `gs`. */
  lemma DeferredFirst(st: State, list: seq<Entry>, g: Gid, gs: seq<Gid>)
    requires Covers(st, list, [g] + gs)
    ensures Covers(st, [], gs) && Covers(ReleaseAll(st, gs), Defer(list, g), [])
    ensures Covers(st, [], [g] + gs) && Covers(ReleaseAll(st, [g] + gs), list, [])
    ensures Drain(ReleaseAll(st, gs), Defer(list, g)) == Drain(ReleaseAll(st, [g] + gs), list)
  {
    hide Release, Inv;
    ReleasePastAll(st, g, gs);
    var s := ReleaseAll(st, gs);
    assert multiset([g] + gs) == multiset{g} + multiset(gs);
    assert multiset([g]) == multiset{g};
    assert Covers(s, list, [g]) by {
      forall x ensures s.handles[x] >= Owed(list, x) + multiset([g])[x] {
        assert st.handles[x] >= Owed(list, x) + multiset([g] + gs)[x];
      }
    }
    DrainDefer(s, list, g);
    assert ([g] + gs)[1..] == gs;
  }
}
