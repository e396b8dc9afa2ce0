/** The malloc family over an abstract heap of blocks: frees made in a critical section wait
    on a chain, and allocations process the chain first. */
module MallocDeferred {
  import opened Basics

  type Ptr = nat
  const NULL: Ptr := 0

  /** The allocated blocks with their contents, and the chain of deferred frees. */
  datatype Heap = Heap(blocks: map<Ptr, seq<int>>, gc: seq<Ptr>)

  /** What the heap offers for an allocation: a block that was not allocated, at least as
      long as asked for. */
  datatype Offer = Nothing | Block(p: Ptr, bytes: seq<int>)

  ghost predicate Inv(h: Heap)
  {
    && NULL !in h.blocks
    && (forall i :: 0 <= i < |h.gc| ==> h.gc[i] in h.blocks)
    && (forall i, j :: 0 <= i < j < |h.gc| ==> h.gc[i] != h.gc[j])
  }

  /** Blocks that the program may use. */
  ghost function Live(h: Heap): set<Ptr>
  {
    h.blocks.Keys - set p | p in h.gc
  }

  ghost predicate Fits(h: Heap, offer: Offer, size: nat)
  {
    offer.Block? ==> offer.p != NULL && offer.p !in h.blocks && |offer.bytes| >= size
  }

  /** `free`: back to the heap, or onto the chain when the system state does not allow it. */
  function Freed(h: Heap, p: Ptr, ok: bool): Heap
  {
    if p == NULL then h
    else if !ok then h.(gc := h.gc + [p])
    else h.(blocks := h.blocks - {p})
  }

  /** One round of the loop that processes deferred frees. */
  function Round(h: Heap, ok: bool): Heap
    requires h.gc != []
  {
    Freed(h.(gc := h.gc[1..]), h.gc[0], ok)
  }

  /** With a good system state every round shortens the chain and returns its block. */
  lemma GoodRound(h: Heap)
    requires Inv(h) && h.gc != []
    ensures var r := Round(h, true);
            Inv(r) && r.gc == h.gc[1..] && r.blocks == h.blocks - {h.gc[0]} && Live(r) == Live(h)
  {
    var r := Round(h, true);
    assert h.gc == [h.gc[0]] + h.gc[1..];
    forall p ensures p in Live(r) <==> p in Live(h) {
      assert p in h.gc <==> p == h.gc[0] || p in h.gc[1..];
    }
  }

  function Drained(h: Heap): (r: Heap)
    requires Inv(h)
    ensures Inv(r) && r.gc == [] && r.blocks.Keys == Live(h) && Live(r) == Live(h)
    ensures forall p :: p in r.blocks ==> r.blocks[p] == h.blocks[p]
    decreases |h.gc|
  {
    if h.gc == [] then h
    else
      GoodRound(h);
      Drained(Round(h, true))
  }

  /** The first `n` rounds of the loop. */
  function Rounds(h: Heap, ok: bool, n: nat): Heap
    decreases n
  {
    if n == 0 || h.gc == [] then h
    else Rounds(Round(h, ok), ok, n - 1)
  }

  lemma {:induction false} BadRounds(h: Heap, n: nat)
    requires Inv(h) && n <= |h.gc|
    ensures Rounds(h, false, n) == h.(gc := h.gc[n..] + h.gc[..n])
    decreases n
  {
    if n == 0 {
      assert h.gc[0..] + h.gc[..0] == h.gc;
    } else {
      var r := Round(h, false);
      BadRounds(r, n - 1);
      assert r.gc[n - 1..] + r.gc[..n - 1] == h.gc[n..] + h.gc[..n];
    }
  }

  lemma {:induction false} SameLength(h: Heap, n: nat)
    requires Inv(h)
    ensures |Rounds(h, false, n).gc| == |h.gc|
    decreases n
  {
    if n > 0 && h.gc != [] {
      SameLength(Round(h, false), n - 1);
    }
  }

  lemma {:induction false} GoodRoundsDrain(h: Heap)
    requires Inv(h)
    ensures Rounds(h, true, |h.gc|) == Drained(h)
    decreases |h.gc|
  {
    hide Round, Inv, Live;
    if h.gc != [] {
      GoodRound(h);
      GoodRoundsDrain(Round(h, true));
    }
  }

  /** Processing the deferred frees ends if and only if the system state is good or nothing
      is deferred; in a bad state a full cycle of rounds leads back to where it began. */
  lemma DrainEndsIff(h: Heap, ok: bool)
    requires Inv(h)
    ensures (exists n :: Rounds(h, ok, n).gc == []) <==> ok || h.gc == []
    ensures Rounds(h, false, |h.gc|) == h
  {
    BadRounds(h, |h.gc|);
    assert h.gc[|h.gc|..] + h.gc[..|h.gc|] == h.gc;
    GoodRoundsDrain(h);
    assert Rounds(h, true, |h.gc|).gc == [];
    assert Rounds(h, ok, 0) == h;
    forall n ensures |Rounds(h, false, n).gc| == |h.gc| { SameLength(h, n); }
  }

  // ------------------------------------------------------------------ the calls

  datatype Given = Given(h: Heap, p: Ptr)

  datatype Status = Success | Invalid | NoMemory

  /** The contents survive up to the shorter of the two sizes. */
  ghost predicate SamePrefix(a: seq<int>, b: seq<int>, size: nat)
  {
    forall i :: 0 <= i < size && i < |b| ==> i < |a| && a[i] == b[i]
  }

  /** `malloc`: it processes the deferred frees before it looks at the system state. */
  function Malloced(h: Heap, size: nat, ok: bool, offer: Offer): (r: Given)
    requires Inv(h) && (ok || h.gc == [])
  {
    var d := Drained(h);
    if size == 0 || !ok || offer.Nothing? then Given(d, NULL)
    else Given(d.(blocks := d.blocks[offer.p := offer.bytes]), offer.p)
  }

  /** The aligned allocators look at the system state first. */
  function Aligned(h: Heap, ok: bool, offer: Offer): (r: Given)
    requires Inv(h)
  {
    if !ok then Given(h, NULL)
    else
      var d := Drained(h);
      if offer.Nothing? then Given(d, NULL) else Given(d.(blocks := d.blocks[offer.p := offer.bytes]), offer.p)
  }

  /** The old contents over the new block, up to the shorter of the two sizes. */
  function Copied(from: seq<int>, to: seq<int>, size: nat): (r: seq<int>)
    requires |to| >= size
    ensures |r| == |to| && SamePrefix(r, from, size)
  {
    var n := if size < |from| then size else |from|;
    from[..n] + to[n..]
  }

  /** `realloc`. `resized` is the block after a resize in place, when the heap can do that. */
  function Realloced(h: Heap, p: Ptr, size: nat, ok: bool, resized: Option<seq<int>>, offer: Offer): (r: Given)
    requires Inv(h) && p !in h.gc && Fits(Drained(h), offer, size)
  {
    if !ok then Given(h, NULL)
    else if p == NULL then Malloced(h, size, ok, offer)
    else if size == 0 then Given(Freed(h, p, ok), NULL)
    else if p !in h.blocks then Given(h, NULL)
    else if resized.Some? then Given(h.(blocks := h.blocks[p := resized.value]), p)
    else
      var m := Malloced(h, size, ok, offer);
      if m.p == NULL then m
      else
        assert p in Live(h);
        var bytes := Copied(m.h.blocks[p], m.h.blocks[m.p], size);
        Given(Freed(m.h.(blocks := m.h.blocks[m.p := bytes]), p, ok), m.p)
  }

  // ------------------------------------------------------------------ whole runs

  /** A call, with the system state in which it is made and what the heap can offer. */
  datatype Call =
    | Malloc(size: nat, ok: bool, offer: Offer)
    | MemAlign(size: nat, ok: bool, offer: Offer)
    | Free(p: Ptr, ok: bool)
    | Realloc(p: Ptr, size: nat, ok: bool, resized: Option<seq<int>>, offer: Offer)

  /** What callers and the heap must keep to: only blocks in use are given back, `malloc` is
      called in a good state or with nothing deferred, and the heap offers free blocks that
      are long enough. */
  ghost predicate Allowed(h: Heap, call: Call)
    requires Inv(h)
  {
    match call
    case Malloc(size, ok, offer) => (ok || h.gc == []) && Fits(Drained(h), offer, size)
    case MemAlign(size, _, offer) => Fits(Drained(h), offer, size)
    case Free(p, _) => p == NULL || p in Live(h)
    case Realloc(p, size, _, resized, offer) =>
      && (p == NULL || p in Live(h)) && Fits(Drained(h), offer, size)
      && (resized.Some? && p in h.blocks ==> |resized.value| >= size && SamePrefix(resized.value, h.blocks[p], size))
  }

  ghost function Done(h: Heap, call: Call): Given
    requires Inv(h) && Allowed(h, call)
  {
    match call
    case Malloc(size, ok, offer) => Malloced(h, size, ok, offer)
    case MemAlign(_, ok, offer) => Aligned(h, ok, offer)
    case Free(p, ok) => Given(Freed(h, p, ok), NULL)
    case Realloc(p, size, ok, resized, offer) => Realloced(h, p, size, ok, resized, offer)
  }

  /** The blocks in the program's hands after a call, as the C standard counts them: what it
      had, without what it gave back, with what it was given. */
  ghost function InHand(had: set<Ptr>, call: Call, got: Ptr): set<Ptr>
  {
    match call
    case Free(p, _) => had - {p}
    case Realloc(p, size, ok, _, _) =>
      if got != NULL then had - {p} + {got} else if ok && size == 0 then had - {p} else had
    case _ => had + ({got} - {NULL})
  }

  lemma FreedKeeps(h: Heap, p: Ptr, ok: bool)
    requires Inv(h) && p != NULL && p in Live(h)
    ensures Inv(Freed(h, p, ok)) && Live(Freed(h, p, ok)) == Live(h) - {p}
    ensures forall q :: q in Live(h) - {p} ==> q in Freed(h, p, ok).blocks && Freed(h, p, ok).blocks[q] == h.blocks[q]
  {
    var r := Freed(h, p, ok);
    assert forall q :: q in r.gc <==> q in h.gc || (!ok && q == p);
  }

  /** A block added to a drained heap. */
  lemma AddedKeeps(d: Heap, offer: Offer, size: nat)
    requires Inv(d) && d.gc == [] && Fits(d, offer, size) && offer.Block?
    ensures var r := d.(blocks := d.blocks[offer.p := offer.bytes]);
            Inv(r) && Live(r) == Live(d) + {offer.p} && offer.p !in Live(d)
  {
  }

  lemma MallocedKeeps(h: Heap, size: nat, ok: bool, offer: Offer)
    requires Inv(h) && (ok || h.gc == []) && Fits(Drained(h), offer, size)
    ensures var r := Malloced(h, size, ok, offer);
            && Inv(r.h) && Live(r.h) == Live(h) + ({r.p} - {NULL})
            && (r.p != NULL ==> r.p !in Live(h) && |r.h.blocks[r.p]| >= size)
            && (forall q :: q in Live(h) ==> q in r.h.blocks && r.h.blocks[q] == h.blocks[q])
  {
    hide Inv, Live;
    if offer.Block? { AddedKeeps(Drained(h), offer, size); }
  }

  /** What a call returns: the offered block, or the resized one, exactly when the state, the
      size and the heap allow it; and what is still deferred afterwards: nothing once a call
      has gone to the heap for a block, one block more after a `free` in a bad state. */
  ghost predicate Answers(h: Heap, call: Call, r: Given)
  {
    match call
    case Malloc(size, ok, offer) =>
      && (if size > 0 && ok && offer.Block? then r.p == offer.p && r.p in r.h.blocks && r.h.blocks[r.p] == offer.bytes
          else r.p == NULL)
      && r.h.gc == []
    case MemAlign(_, ok, offer) =>
      && (if ok && offer.Block? then r.p == offer.p && r.p in r.h.blocks && r.h.blocks[r.p] == offer.bytes
          else r.p == NULL)
      && (if ok then r.h.gc == [] else r.h == h)
    case Free(p, ok) => r.p == NULL && r.h.gc == if ok || p == NULL then h.gc else h.gc + [p]
    case Realloc(p, size, ok, resized, offer) =>
      if !ok then r == Given(h, NULL)
      else if size == 0 then r.p == NULL && r.h.gc == if p == NULL then [] else h.gc
      else if p != NULL && resized.Some? then r == Given(h.(blocks := h.blocks[p := resized.value]), p)
      else r.p == (if offer.Block? then offer.p else NULL) && r.h.gc == []
  }

  lemma CallAnswers(h: Heap, call: Call)
    requires Inv(h) && Allowed(h, call)
    ensures Answers(h, call, Done(h, call))
  {
  }

  /** A pointer that is not a block's is refused, and nothing changes. */
  lemma BadPointer(h: Heap, p: Ptr, size: nat, resized: Option<seq<int>>, offer: Offer)
    requires Inv(h) && p != NULL && p !in h.blocks && p !in h.gc && Fits(Drained(h), offer, size)
    ensures Freed(h, p, true) == h
    ensures size > 0 ==> forall ok :: Realloced(h, p, size, ok, resized, offer) == Given(h, NULL)
  {
    assert h.blocks - {p} == h.blocks;
  }

  /** The books after a call: what is live is exactly what the program has in hand, a block
      it is given is big enough and was not in use, no other block's contents change, and
      `realloc` keeps the contents up to the shorter size. */
  ghost predicate Books(h: Heap, call: Call, r: Given)
    requires Inv(h)
  {
    && Inv(r.h) && Live(r.h) == InHand(Live(h), call, r.p)
    && (r.p != NULL && !call.Free? ==> r.p in r.h.blocks && |r.h.blocks[r.p]| >= call.size)
    && (r.p != NULL ==> r.p !in Live(h) || (call.Realloc? && r.p == call.p))
    && (forall q :: q in Live(h) && q in Live(r.h) && q != r.p ==> r.h.blocks[q] == h.blocks[q])
    && (call.Realloc? && call.p in Live(h) && r.p != NULL ==> SamePrefix(r.h.blocks[r.p], h.blocks[call.p], call.size))
  }

  lemma ReallocKeepsBooks(h: Heap, call: Call)
    requires Inv(h) && Allowed(h, call) && call.Realloc?
    ensures Books(h, call, Done(h, call))
  {
    hide Drained;
    var Realloc(p, size, ok, resized, offer) := call;
    if ok {
      if p == NULL {
        MallocedKeeps(h, size, ok, offer);
      } else if size == 0 {
        FreedKeeps(h, p, ok);
      } else if resized.None? {
        if !offer.Block? { MallocedKeeps(h, size, ok, offer); }
      }
    }
  }

  lemma CallKeepsBooks(h: Heap, call: Call)
    requires Inv(h) && Allowed(h, call)
    ensures Books(h, call, Done(h, call))
  {
    hide Drained, Realloced;
    match call
    case Malloc(size, ok, offer) => MallocedKeeps(h, size, ok, offer);
    case MemAlign(size, ok, offer) => if ok && offer.Block? { AddedKeeps(Drained(h), offer, size); }
    case Free(p, ok) => if p != NULL { FreedKeeps(h, p, ok); }
    case Realloc(_, _, _, _, _) => ReallocKeepsBooks(h, call);
  }

  const EMPTY: Heap := Heap(map[], [])

  /** Runs of allowed calls, with what the program has in hand at their end. */
  ghost predicate Reached(calls: seq<Call>, h: Heap, had: set<Ptr>)
  {
    if calls == [] then h == EMPTY && had == {}
    else
      var n := |calls| - 1;
      exists before, mine ::
        && Reached(calls[..n], before, mine) && Inv(before) && Allowed(before, calls[n])
        && h == Done(before, calls[n]).h && had == InHand(mine, calls[n], Done(before, calls[n]).p)
  }

  /** Over every run of the four calls under changing system states, each block of the heap
      is exactly one of in the program's hands, deferred (once), or free; and processing the
      deferred frees leaves allocated exactly what the program has in hand. */
  lemma {:induction false} RunsBalance(calls: seq<Call>, h: Heap, had: set<Ptr>)
    requires Reached(calls, h, had)
    ensures Inv(h) && Live(h) == had && had !! (set p | p in h.gc) && h.blocks.Keys == had + set p | p in h.gc
    ensures Drained(h).blocks.Keys == had && Drained(h).gc == []
  {
    hide Done, Allowed, Drained, InHand;
    if calls == [] {
      assert Inv(EMPTY) && Live(EMPTY) == {};
    } else {
      var n := |calls| - 1;
      var before, mine :| Reached(calls[..n], before, mine) && Inv(before) && Allowed(before, calls[n])
        && h == Done(before, calls[n]).h && had == InHand(mine, calls[n], Done(before, calls[n]).p);
      RunsBalance(calls[..n], before, mine);
      CallKeepsBooks(before, calls[n]);
    }
  }

  // ------------------------------------------------------------------ the code

  class Allocator {
    var blocks: map<Ptr, seq<int>>
    var gc: seq<Ptr>

    ghost function Value(): Heap
      reads this
    {
      Heap(blocks, gc)
    }

    /** `free`. A bad pointer is reported and otherwise ignored; in a bad state the block's
        own memory links the chain, so it must not be on it yet. */
    method Free(p: Ptr, ok: bool)
      requires p !in gc
      modifies this
      ensures Value() == Freed(old(Value()), p, ok)
    {
      if p == NULL {
        return;
      }
      if !ok {
        gc := gc + [p];
        return;
      }
      if p in blocks {
        blocks := blocks - {p};
      }
    }

    /** `malloc_deferred_frees_process`, which needs a good state or an empty chain to end. */
    method ProcessDeferred(ok: bool)
      requires Inv(Value()) && (ok || gc == [])
      modifies this
      ensures Value() == Drained(old(Value()))
    {
      while gc != []
        invariant Inv(Value()) && (ok || gc == []) && Drained(Value()) == Drained(old(Value()))
        decreases |gc|
      {
        GoodRound(Value());
        var p := gc[0];
        gc := gc[1..];
        Free(p, ok);
      }
    }

    method Malloc(size: nat, ok: bool, offer: Offer) returns (p: Ptr)
      requires Inv(Value()) && (ok || gc == []) && Fits(Drained(Value()), offer, size)
      modifies this
      ensures Given(Value(), p) == Malloced(old(Value()), size, ok, offer)
    {
      ProcessDeferred(ok);
      p := NULL;
      if size == 0 {
        return;
      }
      if !ok {
        return;
      }
      if offer.Block? {
        p := offer.p;
        blocks := blocks[p := offer.bytes];
      }
    }

    /** `rtems_heap_allocate_aligned_with_boundary`. */
    method AllocateAligned(size: nat, ok: bool, offer: Offer) returns (p: Ptr)
      requires Inv(Value()) && Fits(Drained(Value()), offer, size)
      modifies this
      ensures Given(Value(), p) == Aligned(old(Value()), ok, offer)
    {
      p := NULL;
      if !ok {
        return;
      }
      ProcessDeferred(ok);
      if offer.Block? {
        p := offer.p;
        blocks := blocks[p := offer.bytes];
      }
    }

    /** `rtems_memalign`. `hasOut` is whether the caller gave an out pointer, `p` what it holds
        afterwards. */
    method MemAlign(hasOut: bool, size: nat, ok: bool, offer: Offer) returns (status: Status, p: Ptr)
      requires Inv(Value()) && Fits(Drained(Value()), offer, size)
      modifies this
      ensures !hasOut ==> Value() == old(Value()) && p == NULL
      ensures hasOut ==> Given(Value(), p) == Aligned(old(Value()), ok, offer)
      ensures status == if !hasOut || !ok then Invalid else if offer.Nothing? then NoMemory else Success
    {
      p := NULL;
      if !hasOut {
        return Invalid, p;
      }
      if !ok {
        return Invalid, p;
      }
      ProcessDeferred(ok);
      if offer.Nothing? {
        return NoMemory, p;
      }
      p := offer.p;
      blocks := blocks[p := offer.bytes];
      status := Success;
    }

    method Realloc(p: Ptr, size: nat, ok: bool, resized: Option<seq<int>>, offer: Offer) returns (r: Ptr)
      requires Inv(Value()) && p !in gc && Fits(Drained(Value()), offer, size)
      modifies this
      ensures Given(Value(), r) == Realloced(old(Value()), p, size, ok, resized, offer)
    {
      hide Drained, Inv;
      r := NULL;
      if !ok {
        return;
      }
      if p == NULL {
        r := Malloc(size, ok, offer);
        return;
      }
      if size == 0 {
        Free(p, ok);
        return;
      }
      if p !in blocks {
        return;
      }
      if resized.Some? {
        r := p;
        blocks := blocks[p := resized.value];
        return;
      }
      assert p in Live(Value());
      r := Malloc(size, ok, offer);
      if r != NULL {
        blocks := blocks[r := Copied(blocks[p], blocks[r], size)];
        Free(p, ok);
      }
    }
  }
}
