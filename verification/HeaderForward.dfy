/** Forwarding a packet: the time to live goes down by one and the header checksum is
    adjusted instead of computed anew. */
module HeaderForward {
  import opened InCksum

  /** The ten 16-bit fields of a header without options, as numbers. Field 4 is the time to
      live and the protocol, field 5 the checksum. */
  type Fields = fs: seq<Half> | |fs| == 10 witness [0, 0, 0, 0, 0, 0, 0, 0, 0, 0]

  function Swap(h: Half): Half
  {
    h % 0x100 * 0x100 + h / 0x100
  }

  function WordOf(a: Half, b: Half, little: bool): Word
  {
    if little then Swap(b) * 0x1_0000 + Swap(a) else a * 0x1_0000 + b
  }

  /** The 32-bit words that a big- or little-endian processor reads from network byte order. */
  function Load(fs: seq<Half>, little: bool): (ws: seq<Word>)
    requires |fs| % 2 == 0
    ensures 2 * |ws| == |fs|
  {
    if fs == [] then []
    else
      var n := |fs| - 2;
      Load(fs[..n], little) + [WordOf(fs[n], fs[n + 1], little)]
  }

  // ------------------------------------------------------------------ residues of a load

  function Residue(x: nat): nat
  {
    x % 0xffff
  }

  lemma ResidueShift(x: nat, k: nat)
    ensures Residue(x + k * 0xffff) == Residue(x)
  {
  }

  lemma ResidueAdds(a: nat, b: nat, c: nat, d: nat)
    requires Residue(a) == Residue(b) && Residue(c) == Residue(d)
    ensures Residue(a + c) == Residue(b + d)
  {
    hide Residue;
    ResidueOfSum(a, c);
    ResidueOfSum(b, d);
  }

  lemma ResidueOfSum(x: nat, y: nat)
    ensures Residue(x + y) == Residue(Residue(x) + Residue(y))
  {
    var p, q := x / 0xffff, y / 0xffff;
    assert x + y == x % 0xffff + y % 0xffff + (p + q) * 0xffff;
    ResidueShift(x % 0xffff + y % 0xffff, p + q);
  }

  /** Two totals fold alike exactly when they are congruent modulo `2^16 - 1`, and zero only
      folds like zero. */
  lemma SameFold(x: nat, y: nat)
    ensures Fold16(x) == Fold16(y) <==> Residue(x) == Residue(y) && (x == 0 <==> y == 0)
  {
    FoldIsResidue(x);
    FoldIsResidue(y);
  }

  lemma FoldIsResidue(x: nat)
    ensures Fold16(x) == if x > 0 && Residue(x) == 0 then 0xffff else Residue(x)
  {
  }

  /** What a field counts for in a loaded word: exchanging the bytes multiplies by 256. */
  function Weight(little: bool): nat
  {
    if little then 0x100 else 1
  }

  lemma WordWeighs(a: Half, b: Half, little: bool)
    ensures Residue(WordOf(a, b, little)) == Residue(Weight(little) * (a + b))
    ensures WordOf(a, b, little) == 0 <==> a + b == 0
  {
    hide Residue;
    if little {
      SwapWeighs(a);
      SwapWeighs(b);
      var x: nat, y: nat := a / 0x100, b / 0x100;
      var both: nat := Swap(a) + Swap(b);
      assert Weight(little) * (a + b) == both + (x + y) * 0xffff;
      ResidueShift(both, x + y);
      ResidueShift(both, Swap(b));
    } else {
      ResidueShift(a + b, a);
    }
  }

  lemma SwapWeighs(h: Half)
    ensures 0x100 * h == Swap(h) + h / 0x100 * 0xffff && (Swap(h) == 0 <==> h == 0)
  {
  }

  lemma TotalSnoc(ns: seq<nat>, n: nat)
    ensures Total(ns + [n]) == Total(ns) + n
  {
    assert (ns + [n])[..|ns|] == ns;
  }

  lemma WeightsAdd(u: nat, t: nat, v: nat, r: nat, little: bool)
    requires Residue(u) == Residue(Weight(little) * t) && Residue(v) == Residue(Weight(little) * r)
    ensures Residue(u + v) == Residue(Weight(little) * (t + r))
  {
    hide Residue;
    ResidueAdds(u, Weight(little) * t, v, Weight(little) * r);
  }

  /** A loaded header has the residue of its fields' sum, times 256 on a little-endian
      processor. */
  lemma {:induction false} LoadWeighs(fs: seq<Half>, little: bool)
    requires |fs| % 2 == 0
    ensures Residue(Total(Load(fs, little))) == Residue(Weight(little) * Total(fs))
    ensures Total(Load(fs, little)) == 0 <==> Total(fs) == 0
  {
    hide Residue, Weight, WordOf, Total;
    if fs == [] {
      EmptyTotals(little);
    } else {
      var n := |fs| - 2;
      var front, a, b := fs[..n], fs[n], fs[n + 1];
      LoadWeighs(front, little);
      WordWeighs(a, b, little);
      TotalOfTwo(fs);
      TotalSnoc(Load(front, little), WordOf(a, b, little));
      var x: nat, y: nat := a, b;
      WeightsAdd(Total(Load(front, little)), Total(front), WordOf(a, b, little), x + y, little);
    }
  }

  lemma EmptyTotals(little: bool)
    ensures Total([]) == Weight(little) * Total([]) == 0
  {
  }

  lemma TotalOfTwo(fs: seq<Half>)
    requires |fs| >= 2
    ensures var n := |fs| - 2; var x: nat, y: nat := fs[n], fs[n + 1]; Total(fs) == Total(fs[..n]) + (x + y)
  {
    var n := |fs| - 2;
    assert fs[..n + 1][..n] == fs[..n];
  }

  lemma {:induction false} TotalUpdate(ns: seq<nat>, i: nat, v: nat)
    requires i < |ns|
    ensures Total(ns[i := v]) + ns[i] == Total(ns) + v
  {
    var n := |ns| - 1;
    if i == n {
      assert ns[i := v][..n] == ns[..n];
    } else {
      assert ns[i := v][..n] == ns[..n][i := v];
      TotalUpdate(ns[..n], i, v);
    }
  }

  // ------------------------------------------------------------------ one hop

  function Ttl(fs: Fields): nat
  {
    fs[4] / 0x100
  }

  /** The field with the time to live (an unsigned byte) decremented. */
  function Decremented(f: Half): Half
  {
    (f / 0x100 + 0xff) % 0x100 * 0x100 + f % 0x100
  }

  function Updated(sum: Half): Half
  {
    var t := sum + 0x100;
    (t + t / 0x1_0000) % 0x1_0000
  }

  function Hop(fs: Fields): Fields
  {
    fs[4 := Decremented(fs[4])][5 := Updated(fs[5])]
  }

  /** The value of `in_cksum_hdr` on the loaded header; zero means that the header verifies. */
  function HeaderSum(fs: Fields, little: bool): nat
  {
    Checksum(Halves(Load(fs, little)))
  }

  /** Every routine computes it, on the processors it is written for. */
  lemma RoutinesCompute(fs: Fields)
    ensures HdrI386(Load(fs, true)) == HdrNios2(Load(fs, true)) == HeaderSum(fs, true)
    ensures HdrM68k(Load(fs, false)) == HdrPpc(Load(fs, false)) == HdrSparc(Load(fs, false)) == HeaderSum(fs, false)
  {
    AllVariantsAgree(Load(fs, true));
    AllVariantsAgree(Load(fs, false));
  }

  lemma HeaderSumFolds(fs: Fields, little: bool)
    ensures HeaderSum(fs, little) == 0xffff - Fold16(Total(Load(fs, little)))
  {
    OnesSumFolds(Halves(Load(fs, little)));
    HalvesFold(Load(fs, little));
  }

  /** Two headers have the same checksum value exactly when their field sums are congruent,
      and zero goes with zero: on either byte order. */
  lemma SameHeaderSum(fs: Fields, gs: Fields, little: bool)
    ensures HeaderSum(fs, little) == HeaderSum(gs, little)
       <==> Residue(Total(fs)) == Residue(Total(gs)) && (Total(fs) == 0 <==> Total(gs) == 0)
  {
    hide HeaderSum, Fold16, Residue, Weight;
    HeaderSumFolds(fs, little);
    HeaderSumFolds(gs, little);
    LoadWeighs(fs, little);
    LoadWeighs(gs, little);
    SameFold(Total(Load(fs, little)), Total(Load(gs, little)));
    WeightCancels(Total(fs), Total(gs), little);
  }

  /** A header verifies exactly when the one's complement sum of its fields is all ones,
      whatever the byte order of the processor. */
  lemma VerifiesIff(fs: Fields, little: bool)
    ensures HeaderSum(fs, little) == 0 <==> OnesSum(fs) == 0xffff
  {
    hide HeaderSum, Fold16, Residue, Weight, Total, OnesSum;
    HeaderSumFolds(fs, little);
    OnesSumFolds(fs);
    LoadWeighs(fs, little);
    FoldIsResidue(Total(Load(fs, little)));
    FoldIsResidue(Total(fs));
    WeightCancels(Total(fs), 0, little);
    assert Residue(0) == 0 by { ZeroResidue(); }
    ResidueBound(Total(fs));
    ResidueBound(Total(Load(fs, little)));
  }

  lemma ZeroResidue()
    ensures Residue(0) == 0
  {
  }

  lemma ResidueBound(x: nat)
    ensures Residue(x) < 0xffff
  {
  }

  /** 256 is its own inverse modulo `2^16 - 1`. */
  lemma WeightCancels(x: nat, y: nat, little: bool)
    ensures Residue(Weight(little) * x) == Residue(Weight(little) * y) <==> Residue(x) == Residue(y)
  {
    hide Residue;
    if little {
      ResidueShift(x, x);
      ResidueShift(y, y);
      if Residue(x) == Residue(y) { TimesRespects(x, y); }
      if Residue(0x100 * x) == Residue(0x100 * y) { TimesRespects(0x100 * x, 0x100 * y); }
    }
  }

  lemma TimesRespects(x: nat, y: nat)
    requires Residue(x) == Residue(y)
    ensures Residue(0x100 * x) == Residue(0x100 * y)
  {
    TimesResidue(x);
    TimesResidue(y);
  }

  lemma TimesResidue(x: nat)
    ensures Residue(0x100 * x) == Residue(0x100 * Residue(x))
  {
    var p, r := x / 0xffff, x % 0xffff;
    assert 0x100 * x == 0x100 * r + (0x100 * p) * 0xffff;
    ResidueShift(0x100 * r, 0x100 * p);
  }

  lemma HopTotal(fs: Fields)
    ensures Total(Hop(fs)) + fs[4] + fs[5] == Total(fs) + Decremented(fs[4]) + Updated(fs[5])
  {
    TotalUpdate(fs, 4, Decremented(fs[4]));
    TotalUpdate(fs[4 := Decremented(fs[4])], 5, Updated(fs[5]));
  }

  lemma {:induction false} TotalBounds(ns: seq<nat>, i: nat)
    requires i < |ns|
    ensures Total(ns) >= ns[i]
  {
    if i < |ns| - 1 { TotalBounds(ns[..|ns| - 1], i); }
  }

  /** A hop changes the field sum by a multiple of `2^16 - 1`, or by one too much when the
      time to live was zero and wrapped around. */
  lemma HopResidue(fs: Fields)
    ensures Total(Hop(fs)) > 0
    ensures Ttl(fs) > 0 ==> Total(fs) > 0 && Residue(Total(Hop(fs))) == Residue(Total(fs))
    ensures Ttl(fs) == 0 ==> Residue(Total(Hop(fs))) == Residue(Total(fs) + 1)
  {
    hide Residue, Total, Updated, Decremented;
    HopTotal(fs);
    TotalBounds(fs, 4);
    TotalBounds(Hop(fs), 5);
    UpdatedAdds(fs[5]);
    DecrementedIs(fs[4]);
    var t := Total(Hop(fs));
    ResidueShift(t, 1);
    ResidueShift(Total(fs) + 1, 1);
  }

  lemma UpdatedAdds(sum: Half)
    ensures Updated(sum) > 0 && (Updated(sum) == sum + 0x100 || Updated(sum) + 0xffff == sum + 0x100)
  {
  }

  lemma DecrementedIs(f: Half)
    ensures if f / 0x100 > 0 then Decremented(f) + 0x100 == f else Decremented(f) == f + 0xff00
  {
  }

  /** A hop leaves the value of `in_cksum_hdr` exactly as it was if and only if the time to
      live was not zero; so a header that verifies (value zero) verifies after the hop, and
      one that does not still does not. */
  lemma HopKeepsChecksum(fs: Fields, little: bool)
    ensures HeaderSum(Hop(fs), little) == HeaderSum(fs, little) <==> Ttl(fs) > 0
    ensures Ttl(fs) > 0 ==> Ttl(Hop(fs)) == Ttl(fs) - 1
  {
    hide HeaderSum, Total, Updated;
    HopResidue(fs);
    SameHeaderSum(Hop(fs), fs, little);
    assert Residue(Total(fs) + 1) != Residue(Total(fs));
    DecrementedIs(fs[4]);
  }

  function Hops(fs: Fields, n: nat): Fields
  {
    if n == 0 then fs else Hop(Hops(fs, n - 1))
  }

  /** Over any number of hops that the time to live allows, the checksum value stays. */
  lemma {:induction false} HopsKeepChecksum(fs: Fields, n: nat, little: bool)
    requires n <= Ttl(fs)
    ensures HeaderSum(Hops(fs, n), little) == HeaderSum(fs, little) && Ttl(Hops(fs, n)) == Ttl(fs) - n
  {
    if n > 0 {
      HopsKeepChecksum(fs, n - 1, little);
      HopKeepsChecksum(Hops(fs, n - 1), little);
    }
  }

  class Packet {
    var fields: seq<Half>

    /** `in_cksum_update`: adds 256 to the checksum field in one's complement arithmetic. */
    method UpdateChecksum()
      requires |fields| == 10
      modifies this
      ensures |fields| == 10 && fields == old(fields)[5 := EndAround(old(fields)[5], 0x100)]
      ensures fields[5] == Updated(old(fields)[5])
    {
      var tmpsum: nat := fields[5] as nat + 0x100;
      fields := fields[5 := (tmpsum + tmpsum / 0x1_0000) % 0x1_0000];
    }
  }
}
