/** The Internet checksum of a five-word IP header: five machine-specific routines and the
    definition they share, and the incremental update for a forwarded packet. */
module InCksum {

  const B16: nat := 0x1_0000
  const B32: nat := 0x1_0000_0000

  type Half = h: nat | h < 0x1_0000
  type Word = w: nat | w < 0x1_0000_0000

  // ------------------------------------------------------------------ definition

  /** One's complement addition of 16-bit numbers: the carry comes back in at the end. */
  function EndAround(a: Half, b: Half): Half
  {
    if a + b >= B16 then a + b - 0xffff else a + b
  }

  function OnesSum(hs: seq<Half>): Half
  {
    if hs == [] then 0 else EndAround(OnesSum(hs[..|hs| - 1]), hs[|hs| - 1])
  }

  /** The complement of the one's complement sum. */
  function Checksum(hs: seq<Half>): Half
  {
    0xffff - OnesSum(hs)
  }

  /** The header as a processor loads it: five 32-bit words. */
  type Header = ws: seq<Word> | |ws| == 5 witness [0, 0, 0, 0, 0]

  function High(w: Word): Half { w / 0x1_0000 }
  function Low(w: Word): Half { w % 0x1_0000 }

  function Halves(ws: seq<Word>): seq<Half>
  {
    if ws == [] then [] else Halves(ws[..|ws| - 1]) + [High(ws[|ws| - 1]), Low(ws[|ws| - 1])]
  }

  // ------------------------------------------------------------------ residues

  /** The representative of `t` modulo `2^16 - 1` that is zero only for zero. */
  function Fold16(t: nat): Half
  {
    if t == 0 then 0 else (t - 1) % 0xffff + 1
  }

  function Fold32(t: nat): Word
  {
    if t == 0 then 0 else (t - 1) % 0xffff_ffff + 1
  }

  function Total(ns: seq<nat>): nat
  {
    if ns == [] then 0 else Total(ns[..|ns| - 1]) + ns[|ns| - 1]
  }

  lemma Fold16Step(t: nat, h: Half)
    ensures EndAround(Fold16(t), h) == Fold16(t + h)
  {
  }

  lemma {:induction false} OnesSumFolds(hs: seq<Half>)
    ensures OnesSum(hs) == Fold16(Total(hs))
  {
    if hs != [] {
      var n := |hs| - 1;
      OnesSumFolds(hs[..n]);
      Fold16Step(Total(hs[..n]), hs[n]);
    }
  }

  /** A word counts for its two halves. */
  lemma {:induction false} HalvesFold(ws: seq<Word>)
    ensures Fold16(Total(Halves(ws))) == Fold16(Total(ws))
  {
    if ws != [] {
      var n := |ws| - 1;
      var w, hs := ws[n], Halves(ws[..n]);
      HalvesFold(ws[..n]);
      var both := hs + [High(w), Low(w)];
      assert both[..|both| - 1] == hs + [High(w)];
      assert (hs + [High(w)])[..|hs|] == hs;
      assert Total(both) == Total(hs) + High(w) + Low(w);
      SplitWord(Total(hs), Total(ws[..n]), w);
    }
  }

  lemma Fold16Shift(x: nat, k: nat)
    requires x > 0
    ensures Fold16(x + k * 0xffff) == Fold16(x)
  {
  }

  lemma SplitWord(a: nat, b: nat, w: Word)
    requires Fold16(a) == Fold16(b)
    ensures Fold16(a + High(w) + Low(w)) == Fold16(b + w)
  {
    hide Fold16;
    var h: nat, l: nat := High(w), Low(w);
    Fold16Step(a, h);
    Fold16Step(b, h);
    Fold16Step(a + h, l);
    Fold16Step(b + h, l);
    assert w == h + l + h * 0xffff;
    if b + h + l > 0 { Fold16Shift(b + h + l, h); }
  }

  /** Folding to 32 bits first makes no difference: `2^16 - 1` divides `2^32 - 1`. */
  lemma FoldTwice(t: nat)
    ensures Fold16(Fold32(t)) == Fold16(t)
  {
    if t > 0 {
      var q := (t - 1) / 0xffff_ffff;
      assert t - 1 == q * 0xffff_ffff + (t - 1) % 0xffff_ffff;
      assert t - 1 == (q * 0x1_0001) * 0xffff + (t - 1) % 0xffff_ffff;
    }
  }

  // ------------------------------------------------------------------ add with carry

  datatype Sum = Sum(low: Word, carry: nat)

  /** The machine's add with carry in and out. */
  function AddC(s: Sum, w: Word): (r: Sum)
    requires s.carry <= 1
    ensures r.carry <= 1
  {
    var t := s.low + w + s.carry;
    Sum(t % 0x1_0000_0000, t / 0x1_0000_0000)
  }

  function Chain(ws: seq<Word>): (s: Sum)
    ensures s.carry <= 1
  {
    if ws == [] then Sum(0, 0) else AddC(Chain(ws[..|ws| - 1]), ws[|ws| - 1])
  }

  lemma Fold32Shift(x: nat, q: nat)
    requires x > 0
    ensures Fold32(x + q * 0xffff_ffff) == Fold32(x)
  {
  }

  lemma Fold32Small(w: Word)
    ensures Fold32(w) == w
  {
  }

  /** Adding a word to a folded total, with the carry brought back in. */
  lemma Fold32Add(t: nat, w: Word)
    ensures var f := Fold32(t) + w; Fold32(t + w) == if f >= B32 then f - 0xffff_ffff else f
  {
    var f := Fold32(t) + w;
    assert Fold32(t + w) == Fold32(f) by {
      if t > 0 {
        var q := (t - 1) / 0xffff_ffff;
        assert t + w == f + q * 0xffff_ffff;
        Fold32Shift(f, q);
      }
    }
    if f >= B32 {
      Fold32Shift(f - 0xffff_ffff, 1);
      Fold32Small(f - 0xffff_ffff);
    } else {
      Fold32Small(f);
    }
  }

  lemma ChainStep(s: Sum, t: nat, w: Word)
    requires s.carry <= 1 && s.low + s.carry == Fold32(t)
    ensures AddC(s, w).low + AddC(s, w).carry == Fold32(t + w)
  {
    hide Fold32;
    Fold32Add(t, w);
  }

  /** Low word plus pending carry never exceeds `2^32 - 1`, so mopping up the last carry loses
      nothing. */
  lemma {:induction false} ChainFolds(ws: seq<Word>)
    ensures Chain(ws).low + Chain(ws).carry == Fold32(Total(ws))
  {
    if ws != [] {
      var n := |ws| - 1;
      ChainFolds(ws[..n]);
      ChainStep(Chain(ws[..n]), Total(ws[..n]), ws[n]);
    }
  }

  // ------------------------------------------------------------------ the five routines

  function RotatedHalf(w: Word): Word
  {
    w % 0x1_0000 * 0x1_0000 + w / 0x1_0000
  }

  function Not32(w: Word): Word { 0xffff_ffff - w }

  /** Adds the word to itself with its halves exchanged; the upper half of the result is the
      one's complement sum of the halves. */
  function UpperSum(w: Word): Word
  {
    (w + RotatedHalf(w)) % 0x1_0000_0000
  }

  /** i386: add, four times add with carry (the last of zero), rotate and add. */
  function HdrI386(ws: Header): nat
  {
    var s := Chain(ws);
    var sum := AddC(s, 0).low;
    Not32(UpperSum(sum)) / 0x1_0000
  }

  /** m68k: the same chain, then the halves are added and a carry is subtracted out. */
  function HdrM68k(ws: Header): nat
  {
    var sum := AddC(Chain(ws), 0).low;
    var t := sum % 0x1_0000 + sum / 0x1_0000;
    0xffff - (if t > 0xffff then t - 0xffff else t)
  }

  /** PowerPC: the rotated copy is added, the complement taken before the shift. */
  function HdrPpc(ws: Header): nat
  {
    var sum := AddC(Chain(ws), 0).low;
    Not32((sum + RotatedHalf(sum)) % 0x1_0000_0000) / 0x1_0000
  }

  /** SPARC: the last carry goes into the addition of the halves, then one more fold. */
  function HdrSparc(ws: Header): nat
  {
    var s := Chain(ws);
    var t := s.low % 0x1_0000 + s.low / 0x1_0000 + s.carry;
    Not32((t + t / 0x1_0000) % 0x1_0000_0000) % 0x1_0000
  }

  /** Nios II: 32-bit one's complement additions, each carry found by comparing. */
  function AddOnesComplement(a: Word, b: Word): Word
  {
    var sum := (a + b) % 0x1_0000_0000;
    var c := if sum < a then 1 else 0;
    (sum + c) % 0x1_0000_0000
  }

  function NiosSum(ws: seq<Word>): Word
    requires ws != []
  {
    if |ws| == 1 then ws[0] else AddOnesComplement(NiosSum(ws[..|ws| - 1]), ws[|ws| - 1])
  }

  function HdrNios2(ws: Header): nat
  {
    var half := UpperSum(NiosSum(ws)) / 0x1_0000;
    0xffff - half   // exclusive or with 0xffff
  }

  lemma HalvesSumFolds(w: Word)
    ensures var t: nat := w % 0x1_0000 + w / 0x1_0000; Fold16(w) == if t > 0xffff then t - 0xffff else t
  {
    SplitWord(0, 0, w);
  }

  lemma UpperSumFolds(w: Word)
    ensures UpperSum(w) / 0x1_0000 == Fold16(w)
  {
    hide Fold16;
    var h: nat, l: nat := w / 0x1_0000, w % 0x1_0000;
    var t := h + l;
    HalvesSumFolds(w);
    assert w + RotatedHalf(w) == t * 0x1_0000 + t;
    if t < 0x1_0000 {
      assert UpperSum(w) == t * 0x1_0000 + t;
    } else {
      assert UpperSum(w) == (t - 0x1_0000) * 0x1_0000 + t;
    }
  }

  lemma NotUpper(w: Word)
    ensures Not32(w) / 0x1_0000 == 0xffff - w / 0x1_0000
  {
  }

  lemma NiosStep(t: nat, w: Word)
    ensures AddOnesComplement(Fold32(t), w) == Fold32(t + w)
  {
    hide Fold32;
    Fold32Add(t, w);
  }

  lemma {:induction false} NiosFolds(ws: seq<Word>)
    requires ws != []
    ensures NiosSum(ws) == Fold32(Total(ws))
  {
    hide Fold32, AddOnesComplement;
    var n := |ws| - 1;
    if n == 0 {
      assert ws[..n] == [] && Total(ws) == ws[0];
      Fold32Small(ws[0]);
    } else {
      NiosFolds(ws[..n]);
      NiosStep(Total(ws[..n]), ws[n]);
    }
  }

  /** What the chain leaves once its last carry is added. */
  lemma MoppedUp(ws: seq<Word>)
    ensures AddC(Chain(ws), 0).low == Fold32(Total(ws))
    ensures Fold16(AddC(Chain(ws), 0).low) == OnesSum(Halves(ws))
  {
    hide Fold16, Chain, Total, Fold32;
    ChainFolds(ws);
    FoldTwice(Total(ws));
    HalvesFold(ws);
    OnesSumFolds(Halves(ws));
    assert Fold32(Total(ws)) < B32;
  }

  /** The carry into the addition of the halves and one fold do what the mopping up does. */
  lemma SparcFolds(low: Word, carry: nat)
    requires carry <= 1 && low + carry < B32
    ensures var t := low % 0x1_0000 + low / 0x1_0000 + carry; (t + t / 0x1_0000) % 0x1_0000 == Fold16(low + carry)
  {
    hide Fold16;
    Fold16Step(low, carry);
    HalvesSumFolds(low);
  }

  /** All five routines compute the checksum of the header's halves. */
  lemma AllVariantsAgree(ws: Header)
    ensures HdrI386(ws) == HdrM68k(ws) == HdrPpc(ws) == HdrSparc(ws) == HdrNios2(ws) == Checksum(Halves(ws))
  {
    hide Fold16, Fold32, Chain, Total, OnesSum, Halves, AddC, UpperSum, NiosSum;
    MoppedUp(ws);
    var sum := AddC(Chain(ws), 0).low;
    UpperSumFolds(sum);
    NotUpper(UpperSum(sum));
    HalvesSumFolds(sum);
    NiosFolds(ws);
    ChainFolds(ws);
    SparcIsMoppedUp(ws);
    UpperSumIs(sum);
    assert HdrPpc(ws) == HdrI386(ws);
  }

  lemma UpperSumIs(w: Word)
    ensures UpperSum(w) == (w + RotatedHalf(w)) % 0x1_0000_0000
  {
  }

  lemma NotLower(w: Word)
    ensures Not32(w) % 0x1_0000 == 0xffff - w % 0x1_0000
  {
  }

  lemma SparcIsMoppedUp(ws: Header)
    ensures HdrSparc(ws) == 0xffff - Fold16(AddC(Chain(ws), 0).low)
  {
    hide Fold16, Fold32, Chain, Total, Not32, AddC;
    MoppedUp(ws);
    ChainFolds(ws);
    var s := Chain(ws);
    SparcFolds(s.low, s.carry);
    var t := s.low % 0x1_0000 + s.low / 0x1_0000 + s.carry;
    NotLower(t + t / 0x1_0000);
  }
}
