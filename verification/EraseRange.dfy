/** Erase ranges of mmc/core/core.c: alignment to erase groups and the split at a group boundary. */
module EraseRange {
  import opened Bits

  /** What mmc_align_erase_size leaves behind: nothing to erase, or the updated from, to and the count. */
  datatype Aligned = Nothing | Range(from: nat, to: nat, nr: nat)

  /** round_up and round_down for a power of two, in 32 bits. */
  function RoundUp(x: nat, y: nat): nat
    requires y > 0
  {
    Wrap(Or(Wrap(x - 1), y - 1) + 1)
  }

  function RoundDown(x: nat, y: nat): nat
    requires 0 < y <= U32
  {
    And(x, U32 - y)
  }

  /** The bitwise path. */
  function AlignFast(size: nat, from: nat, nr: nat): Aligned
    requires 0 < size < U32
  {
    var fromNew := RoundUp(from, size);
    var rem := Wrap(fromNew - from);
    if nr <= rem then Nothing
    else
      var nrNew := RoundDown(nr - rem, size);
      if nrNew == 0 then Nothing else Range(fromNew, Wrap(fromNew + nrNew), nrNew)
  }

  /** Sectors from x up to the next multiple. */
  function Gap(x: nat, size: nat): (g: nat)
    requires size > 0
    ensures g < size
  {
    if Rem(x, size) == 0 then 0 else size - Rem(x, size)
  }

  /** The division path. */
  function AlignDivide(size: nat, from: nat, nr: nat): Aligned
    requires 0 < size < U32
  {
    var rem := Gap(from, size);
    var fromNew := Wrap(from + rem);
    if rem > 0 && nr <= rem then Nothing
    else
      var nrNew := nr - rem - Rem(nr - rem, size);
      if nrNew == 0 then Nothing else Range(fromNew, Wrap(fromNew + nrNew), nrNew)
  }

  lemma RoundUpIs(x: nat, k: nat)
    requires x < U32 && k < 32
    ensures RoundUp(x, Pow2(k)) == Wrap(x + Gap(x, Pow2(k)))
  {
    var size := Pow2(k);
    var p := Wrap(x - 1);
    OrMask(p, k);
    LowIsRem(p, k);
    if x == 0 {
      Pow2Is32();
      Pow2RemZero(32, k);
      LowIsRem(U32, k);
      RemPred(U32, size);
    } else {
      RemPred(x, size);
    }
  }

  lemma RoundDownIs(x: nat, k: nat)
    requires x < U32 && k < 32
    ensures Pow2(k) <= U32 && RoundDown(x, Pow2(k)) == x - Rem(x, Pow2(k))
  {
    Pow2Is32();
    AndHighMask(x, 32, k);
    LowIsRem(x, k);
  }

  /** The distance to a sum that has wrapped is the summand. */
  lemma WrapBack(x: nat, d: nat)
    requires x < U32 && d < U32
    ensures Wrap(Wrap(x + d) - x) == d
  {
  }

  lemma SizeIsPow2(size: nat)
    requires 0 < size < U32 && IsPowerOf2(size)
    ensures Log2(size) < 32 && size == Pow2(Log2(size))
  {
    IsPowerOf2Iff(size);
    if Log2(size) >= 32 {
      Pow2Is32();
      Pow2Monotone(32, Log2(size));
      assert false;
    }
  }

  lemma SamePath(size: nat, from: nat, nr: nat)
    requires 0 < size < U32 && from < U32
    requires RoundUp(from, size) == Wrap(from + Gap(from, size))
    requires nr > Gap(from, size) ==> RoundDown(nr - Gap(from, size), size) == nr - Gap(from, size) - Rem(nr - Gap(from, size), size)
    ensures AlignFast(size, from, nr) == AlignDivide(size, from, nr)
  {
    WrapBack(from, Gap(from, size));
  }

  /** For every 32-bit range, even one that wraps, the two paths give the same result. */
  lemma PathsAgree(size: nat, from: nat, nr: nat)
    requires 0 < size < U32 && from < U32 && nr < U32 && IsPowerOf2(size)
    ensures AlignFast(size, from, nr) == AlignDivide(size, from, nr)
  {
    SizeIsPow2(size);
    var k := Log2(size);
    RoundUpIs(from, k);
    var rem := Gap(from, size);
    if nr > rem {
      RoundDownIs(nr - rem, k);
    }
    SamePath(size, from, nr);
  }

  ghost predicate AlignedWithin(size: nat, from: nat, nr: nat, a: nat, b: nat)
    requires size > 0
  {
    from <= a < b <= from + nr && Rem(a, size) == 0 && Rem(b, size) == 0
  }

  /** Where the aligned part starts and how long it is. */
  lemma AlignEnds(size: nat, from: nat, nr: nat)
    requires size > 0 && Gap(from, size) <= nr
    ensures var start := from + Gap(from, size);
            var whole := nr - Gap(from, size) - Rem(nr - Gap(from, size), size);
            && Rem(start, size) == 0
            && Rem(whole, size) == 0
            && Rem(start + whole, size) == 0
            && from + nr < start + whole + size
  {
    RemComplete(from, size);
    RemComplete(nr - Gap(from, size), size);
    SumOfMultiples(from + Gap(from, size), nr - Gap(from, size) - Rem(nr - Gap(from, size), size), size);
  }

  /**
   Alignment finds the largest aligned sub-range: nothing when there is none, and otherwise one
   that contains every other.
   */
  lemma AlignIsLargest(size: nat, from: nat, nr: nat)
    requires 0 < size < U32 && from + nr < U32
    ensures var r := AlignDivide(size, from, nr);
            && (r.Range? ==> r.nr == r.to - r.from && AlignedWithin(size, from, nr, r.from, r.to))
            && (forall a: nat, b: nat :: AlignedWithin(size, from, nr, a, b) ==> r.Range? && r.from <= a && b <= r.to)
  {
    var r := AlignDivide(size, from, nr);
    if Gap(from, size) <= nr {
      AlignEnds(size, from, nr);
    }
    forall a: nat, b: nat | AlignedWithin(size, from, nr, a, b)
      ensures r.Range? && r.from <= a && b <= r.to
    {
      AlignContains(size, from, nr, a, b);
    }
  }

  lemma AlignContains(size: nat, from: nat, nr: nat, a: nat, b: nat)
    requires 0 < size < U32 && from + nr < U32 && AlignedWithin(size, from, nr, a, b)
    ensures var r := AlignDivide(size, from, nr);
            r.Range? && r.from <= a && b <= r.to
  {
    var start := from + Gap(from, size);
    RemComplete(from, size);
    if a < start {
      MultiplesApart(a, start, size);
      assert false;
    }
    MultiplesApart(a, b, size);
    AlignEnds(size, from, nr);
    var end := start + (nr - Gap(from, size) - Rem(nr - Gap(from, size), size));
    if b > end {
      MultiplesApart(end, b, size);
      assert false;
    }
  }

  /** mmc_align_erase_size as written, choosing its path by the bit trick. */
  method AlignEraseSize(size: nat, from: nat, to: nat, nr: nat) returns (ret: nat, from': nat, to': nat)
    requires 0 < size < U32 && from < U32 && nr < U32
    ensures var r := AlignDivide(size, from, nr);
            (ret, from', to') == if r.Range? then (r.nr, r.from, r.to) else (0, from, to)
  {
    from', to' := from, to;
    var fromNew, nrNew := from, nr;
    var bitwise := IsPowerOf2(size);
    ghost var r := AlignDivide(size, from, nr);
    assert bitwise ==> r == AlignFast(size, from, nr) by {
      if bitwise {
        PathsAgree(size, from, nr);
      }
    }
    if bitwise {
      var temp := fromNew;
      fromNew := RoundUp(temp, size);
      var rem := Wrap(fromNew - temp);
      if nrNew > rem {
        nrNew := nrNew - rem;
      } else {
        return 0, from, to;
      }
      nrNew := RoundDown(nrNew, size);
    } else {
      var rem := Rem(fromNew, size);
      if rem != 0 {
        rem := size - rem;
        fromNew := Wrap(fromNew + rem);
        if nrNew > rem {
          nrNew := nrNew - rem;
        } else {
          return 0, from, to;
        }
      }
      rem := Rem(nrNew, size);
      if rem != 0 {
        nrNew := nrNew - rem;
      }
    }
    if nrNew == 0 {
      return 0, from, to;
    }
    to' := Wrap(fromNew + nrNew);
    from' := fromNew;
    ret := nrNew;
  }

  // ----- mmc_erase -----

  /** The kinds of erase argument mmc_erase tells apart. */
  datatype Arg = Arg(erase: bool, secureErase: bool, secure: bool, trim: bool)

  datatype Card = Card(eraseSize: nat, canErase: bool, sd: bool, secureOk: bool, trimOk: bool, egBoundary: bool)

  /** The erase commands sent, each with inclusive bounds, or a refusal before any command. */
  datatype Erasure = Refused(unsupported: bool) | Commands(cmds: seq<(nat, nat)>)

  /** From the inclusive conversion on: at most two commands, the second depending on the first. */
  function Split(card: Card, arg: Arg, from: nat, to: nat, nr: nat, firstFails: bool): seq<(nat, nat)>
    requires card.eraseSize > 0
  {
    var rem := card.eraseSize - Rem(from, card.eraseSize);
    if arg.trim && card.egBoundary && nr > rem then
      if firstFails || to <= from + rem then [(from, from + rem - 1)]
      else [(from, from + rem - 1), (from + rem, to)]
    else [(from, to)]
  }

  function Erase(card: Card, arg: Arg, from: nat, nr: nat, firstFails: bool): Erasure
    requires card.eraseSize < U32 && from < U32 && nr < U32
  {
    var to := Wrap(from + nr);
    if !card.canErase || card.eraseSize == 0 || (card.sd && !arg.erase)
       || (arg.secure && !card.secureOk) || (arg.trim && !card.trimOk) then Refused(true)
    else if arg.secureErase && (Rem(from, card.eraseSize) != 0 || Rem(nr, card.eraseSize) != 0) then Refused(false)
    else
      var r := if arg.erase then AlignDivide(card.eraseSize, from, nr) else if nr == 0 then Nothing else Range(from, to, nr);
      if r.Nothing? then Commands([])
      else if r.to <= r.from then Refused(false)
      else Commands(Split(card, arg, r.from, r.to - 1, r.nr, firstFails))
  }

  predicate Covered(cmds: seq<(nat, nat)>, sector: nat) {
    exists i :: 0 <= i < |cmds| && cmds[i].0 <= sector <= cmds[i].1
  }

  predicate DisjointAndWithin(cmds: seq<(nat, nat)>, from: nat, nr: nat) {
    && (forall i :: 0 <= i < |cmds| ==> from <= cmds[i].0 <= cmds[i].1 < from + nr)
    && (forall i, j :: 0 <= i < j < |cmds| ==> cmds[i].1 < cmds[j].0)
  }

  /**
   The commands are disjoint and in range; if none fails they cover the whole range exactly when
   the split does not leave a single sector for the second command, and then that sector is all
   they miss.
   */
  lemma SplitCovers(card: Card, arg: Arg, from: nat, nr: nat)
    requires card.eraseSize > 0 && nr > 0
    ensures var cmds := Split(card, arg, from, from + nr - 1, nr, false);
            var skips := arg.trim && card.egBoundary && nr == card.eraseSize - Rem(from, card.eraseSize) + 1;
            && DisjointAndWithin(cmds, from, nr)
            && (forall s :: from <= s < from + nr - 1 ==> Covered(cmds, s))
            && (Covered(cmds, from + nr - 1) <==> !skips)
  {
    var cmds := Split(card, arg, from, from + nr - 1, nr, false);
    forall s | from <= s < from + nr - 1
      ensures Covered(cmds, s)
    {
      assert cmds[0].0 <= s <= cmds[0].1 || (|cmds| == 2 && cmds[1].0 <= s <= cmds[1].1);
    }
    var last := from + nr - 1;
    if |cmds| == 2 {
      assert cmds[1].0 <= last <= cmds[1].1;
    } else {
      assert Covered(cmds, last) <==> cmds[0].0 <= last <= cmds[0].1;
    }
  }

  /** One group's worth of sectors from the second of a group of eight: the last is never trimmed. */
  lemma LastSectorSkipped()
    ensures var card := Card(8, true, false, true, true, true);
            Erase(card, Arg(false, false, false, true), 17, 8, false) == Commands([(17, 23)])
  {
  }

  /** With the boundary flag, a trim of at most a group's worth of sectors never crosses a group boundary in one command. */
  lemma OneGroupPerTrim(card: Card, arg: Arg, from: nat, nr: nat, firstFails: bool)
    requires 0 < nr <= card.eraseSize && card.egBoundary && arg.trim
    ensures var cmds := Split(card, arg, from, from + nr - 1, nr, firstFails);
            forall i :: 0 <= i < |cmds| ==> Quot(cmds[i].0, card.eraseSize) == Quot(cmds[i].1, card.eraseSize)
  {
    var size := card.eraseSize;
    var rem := size - Rem(from, size);
    if nr > rem {
      RemShift(from, rem - 1, size);
      RemComplete(from, size);
      RemShift(from + rem, nr - rem - 1, size);
    } else {
      RemShift(from, nr - 1, size);
    }
  }
}
