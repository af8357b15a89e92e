/** How many blocks of a request go into one transfer, and the scatter list cut to fit (mmc_blk_data_prep, mmc_mrq_prep). */
module RequestShape {
  import opened Basics
  import opened Bits

  datatype Request = Request(pos: nat, sectors: nat, write: bool, fua: bool)

  /** Limits of the host, the disk and the card; quirk is the driver's multi_io_quirk. */
  datatype Limits = Limits(maxBlkCount: nat, maxBlkSize: nat, maxReqSize: nat, spi: bool, capacity: nat,
                           relWr: bool, relParamEn: bool, relSectors: nat, quirk: Option<(bool, nat) -> nat>)

  const BLKSZ: nat := 512

  /** What the callers of mmc_blk_data_prep provide. */
  ghost predicate Sane(l: Limits) {
    && l.maxBlkCount > 0
    && (l.quirk.Some? ==> forall w, b :: b > 0 ==> 1 <= l.quirk.value(w, b) <= b)
    && (l.relWr && !l.relParamEn ==> l.relSectors > 0)
  }

  /** IS_ALIGNED */
  predicate IsAligned(pos: nat, a: nat)
    requires a > 0
  {
    And(pos, a - 1) == 0
  }

  /** For a power of two the mask test is divisibility. */
  lemma AlignedIff(pos: nat, a: nat)
    requires IsPowerOf2(a)
    ensures IsAligned(pos, a) <==> pos % a == 0
  {
    IsPowerOf2Iff(a);
    AndMask(pos, Log2(a));
    ShrIsDiv(pos, Log2(a));
  }

  /** The mask test is divisibility at every sector if and only if the size is a power of two. */
  lemma AlignedTestIff(a: nat)
    requires a > 0
    ensures (forall pos: nat :: IsAligned(pos, a) <==> pos % a == 0) <==> IsPowerOf2(a)
  {
    if IsPowerOf2(a) {
      forall pos: nat
        ensures IsAligned(pos, a) <==> pos % a == 0
      {
        AlignedIff(pos, a);
      }
    } else {
      assert !IsAligned(a, a) && a % a == 0;
    }
  }

  /** For three it is not: sector 4 passes as aligned. */
  lemma AlignedMisled()
    ensures IsAligned(4, 3) && 4 % 3 != 0 && !IsPowerOf2(3)
  {
    assert And(4, 2) == 2 * And(2, 1) && And(2, 1) == 2 * And(1, 0);
    assert And(3, 2) == 2 * And(1, 1) && And(1, 1) == 2 * And(0, 0) + 1;
  }

  /** What a legacy card's reliable write of at least a block is cut down to. */
  function RelBlocks(pos: nat, relSectors: nat, blocks: nat): nat
    requires relSectors > 0
  {
    if IsAligned(pos, relSectors) && blocks >= relSectors then relSectors else 1
  }

  /** One block, or one group that starts at a multiple of its size. */
  predicate OneGroup(pos: nat, relSectors: nat, blocks: nat)
    requires relSectors > 0
  {
    blocks == 1 || (blocks == relSectors && pos % relSectors == 0)
  }

  lemma {:induction false} Log2Bounds(n: nat)
    requires n > 0
    ensures Pow2(Log2(n)) <= n < Pow2(Log2(n) + 1)
  {
    if n > 1 {
      Log2Bounds(n / 2);
    }
  }

  lemma {:induction false} BitAbove(k: nat, x: nat)
    requires x < Pow2(k)
    ensures And(Pow2(k), x) == 0
  {
    if k > 0 {
      assert Pow2(k) % 2 == 0 && Pow2(k) / 2 == Pow2(k - 1);
      BitAbove(k - 1, x / 2);
    }
  }

  /** The power of two above any other number passes for one of its multiples. */
  lemma MisledAbove(a: nat)
    requires a > 0 && !IsPowerOf2(a)
    ensures var pos := Pow2(Log2(a) + 1); IsAligned(pos, a) && pos % a != 0
  {
    var k := Log2(a);
    IsPowerOf2Iff(a);
    Log2Bounds(a);
    BitAbove(k + 1, a - 1);
    BetweenMultiples(Pow2(k + 1), a);
  }

  lemma BetweenMultiples(x: nat, a: nat)
    requires 0 < a < x < 2 * a
    ensures x % a != 0
  {
    QuotRemAre(x, a);
    assert Rem(x, a) == Rem(x - a, a) == x - a;
  }

  /** Every legacy write goes out as one block or one aligned group if and only if the group size is a power of two. */
  lemma LegacyWriteIff(relSectors: nat)
    requires relSectors > 0
    ensures (forall pos: nat, blocks: nat :: OneGroup(pos, relSectors, RelBlocks(pos, relSectors, blocks)))
            <==> IsPowerOf2(relSectors)
  {
    if IsPowerOf2(relSectors) {
      forall pos: nat, blocks: nat
        ensures OneGroup(pos, relSectors, RelBlocks(pos, relSectors, blocks))
      {
        AlignedIff(pos, relSectors);
      }
    } else {
      var pos := Pow2(Log2(relSectors) + 1);
      MisledAbove(relSectors);
      assert IsPowerOf2(1);
      assert !OneGroup(pos, relSectors, RelBlocks(pos, relSectors, relSectors));
    }
  }

  /** mmc_apply_rel_rw: an enhanced card takes any write reliably, another one block or one aligned group. */
  method ApplyRelRw(pos: nat, l: Limits, blocks0: nat) returns (blocks: nat)
    requires Sane(l) && l.relWr && blocks0 > 0
    ensures blocks == if l.relParamEn then blocks0 else RelBlocks(pos, l.relSectors, blocks0)
    ensures !l.relParamEn && IsPowerOf2(l.relSectors) ==>
              blocks == if pos % l.relSectors == 0 && blocks0 >= l.relSectors then l.relSectors else 1
  {
    blocks := blocks0;
    if !l.relParamEn {
      if IsPowerOf2(l.relSectors) {
        AlignedIff(pos, l.relSectors);
      }
      if !IsAligned(pos, l.relSectors) {
        blocks := 1;
      }
      if blocks > l.relSectors {
        blocks := l.relSectors;
      } else if blocks < l.relSectors {
        blocks := 1;
      }
    }
  }

  /** Whether the request goes out as a reliable write. */
  predicate Reliable(r: Request, l: Limits) {
    r.fua && r.write && l.relWr
  }

  /**
   The block count of mmc_blk_data_prep: something, no more than was asked for or the host can do;
   one block when multi-block transfers are off; not the last block of a card in SPI mode with
   others; and a reliable write on a legacy card is one block or one group the mask test calls
   aligned, which it is where the group size is a power of two.
   */
  method BlockCount(r: Request, l: Limits, disableMulti: bool) returns (blocks: nat)
    requires Sane(l) && r.sectors > 0
    ensures 1 <= blocks <= r.sectors && blocks <= l.maxBlkCount
    ensures disableMulti ==> blocks == 1
    ensures l.spi && !r.write && r.pos + r.sectors == l.capacity && blocks > 1 ==> r.pos + blocks < l.capacity
    ensures Reliable(r, l) && !l.relParamEn ==> blocks == 1 || (blocks == l.relSectors && IsAligned(r.pos, l.relSectors))
    ensures Reliable(r, l) && !l.relParamEn && IsPowerOf2(l.relSectors) ==> OneGroup(r.pos, l.relSectors, blocks)
    ensures !l.spi && !disableMulti && l.quirk.None? && !Reliable(r, l) ==> blocks == Min(r.sectors, l.maxBlkCount)
    ensures !l.spi && !disableMulti && l.quirk.Some? && !Reliable(r, l) && r.sectors > 1 && l.maxBlkCount > 1 ==>
              blocks == l.quirk.value(!r.write, Min(r.sectors, l.maxBlkCount))
    ensures l.spi && !disableMulti && l.quirk.None? && !Reliable(r, l) && blocks < Min(r.sectors, l.maxBlkCount) ==>
              !r.write && r.pos + r.sectors == l.capacity && blocks == Min(r.sectors, l.maxBlkCount) - 1
    ensures !disableMulti && l.quirk.None? && Reliable(r, l) && l.relParamEn ==> blocks == Min(r.sectors, l.maxBlkCount)
    ensures !disableMulti && l.quirk.None? && Reliable(r, l) && !l.relParamEn && blocks == 1 && l.relSectors > 1 ==>
              !IsAligned(r.pos, l.relSectors) || Min(r.sectors, l.maxBlkCount) < l.relSectors
  {
    blocks := r.sectors;
    if blocks > l.maxBlkCount {
      blocks := l.maxBlkCount;
    }
    if blocks > 1 {
      if l.spi && !r.write && r.pos + r.sectors == l.capacity {
        blocks := blocks - 1;
      }
      if disableMulti {
        blocks := 1;
      }
      if l.quirk.Some? {
        blocks := l.quirk.value(!r.write, blocks);
      }
    }
    if Reliable(r, l) {
      blocks := ApplyRelRw(r.pos, l, blocks);
    }
  }

  // ----- the scatter list -----

  function Total(lens: seq<nat>): nat {
    if lens == [] then 0 else lens[0] + Total(lens[1..])
  }

  lemma {:induction false} TotalSnoc(lens: seq<nat>, n: nat)
    requires n < |lens|
    ensures Total(lens[..n + 1]) == Total(lens[..n]) + lens[n]
  {
    if n == 0 {
      assert lens[..1][1..] == [];
    } else {
      assert lens[..n + 1][1..] == lens[1..][..n] && lens[..n][1..] == lens[1..][..n - 1];
      TotalSnoc(lens[1..], n - 1);
    }
  }

  /** The list cut off after size bytes: whole entries, and of the last one a nonempty part. */
  ghost predicate CutTo(lens: seq<nat>, lens': seq<nat>, n: nat, size: nat) {
    && n <= |lens| == |lens'| && Total(lens'[..n]) == size
    && (n > 0 ==> 0 < lens'[n - 1] <= lens[n - 1])
    && (forall i :: 0 <= i < |lens| && i != n - 1 ==> lens'[i] == lens[i])
  }

  /** The loop of mmc_blk_data_prep, in place on the lengths of the list. */
  method TrimList(sg: array<nat>, size: nat) returns (n: nat)
    requires (forall i :: 0 <= i < sg.Length ==> sg[i] > 0) && 0 < size <= Total(sg[..])
    modifies sg
    ensures CutTo(old(sg[..]), sg[..], n, size)
  {
    ghost var lens := sg[..];
    var dataSize: int := size;
    n := 0;
    assert lens[..0] == [];
    while n < sg.Length
      invariant n <= sg.Length && sg[..] == lens && dataSize > 0 && Total(lens[..n]) + dataSize == size
      invariant n == sg.Length ==> lens[..n] == lens
      decreases sg.Length - n
    {
      TotalSnoc(lens, n);
      dataSize := dataSize - sg[n];
      if dataSize <= 0 {
        sg[n] := sg[n] + dataSize;
        TotalSnoc(sg[..], n);
        assert sg[..][..n] == lens[..n];
        n := n + 1;
        return;
      }
      n := n + 1;
    }
  }

  function Flatten<T>(segs: seq<seq<T>>): seq<T> {
    if segs == [] then [] else segs[0] + Flatten(segs[1..])
  }

  function Lengths<T>(segs: seq<seq<T>>): seq<nat> {
    seq(|segs|, i requires 0 <= i < |segs| => |segs[i]|)
  }

  /** The first n entries, each cut to its length. */
  function Kept<T>(segs: seq<seq<T>>, lens: seq<nat>, n: nat): seq<seq<T>>
    requires n <= |segs| == |lens| && forall i :: 0 <= i < n ==> lens[i] <= |segs[i]|
  {
    seq(n, i requires 0 <= i < n => segs[i][..lens[i]])
  }

  /** What the cut list transfers is the beginning of what the request holds. */
  lemma {:induction false} CutIsPrefix<T>(segs: seq<seq<T>>, lens': seq<nat>, n: nat, size: nat)
    requires CutTo(Lengths(segs), lens', n, size)
    ensures forall i :: 0 <= i < n ==> lens'[i] <= |segs[i]|
    ensures size <= |Flatten(segs)| && Flatten(Kept(segs, lens', n)) == Flatten(segs)[..size]
    decreases n
  {
    if n > 0 {
      var kept := Kept(segs, lens', n);
      assert kept[0] == segs[0][..lens'[0]];
      assert lens'[..n][1..] == lens'[1..][..n - 1];
      assert kept[1..] == Kept(segs[1..], lens'[1..], n - 1);
      if n == 1 {
        assert kept[1..] == [] && lens'[..1][1..] == [];
        assert Flatten(kept) == kept[0] + [];
        assert Flatten(segs)[..size] == segs[0][..size];
      } else {
        assert Lengths(segs[1..]) == Lengths(segs)[1..];
        CutIsPrefix(segs[1..], lens'[1..], n - 1, size - lens'[0]);
        assert kept[0] == segs[0];
        assert Flatten(segs)[..size] == segs[0] + Flatten(segs[1..])[..size - |segs[0]|];
      }
    }
  }

  /** The checks of mmc_mrq_prep. */
  method MrqPrep(l: Limits, blocks: nat, sg: seq<nat>) returns (ret: int)
    ensures ret == if BLKSZ > l.maxBlkSize || blocks > l.maxBlkCount || blocks * BLKSZ > l.maxReqSize || Total(sg) != blocks * BLKSZ
                   then EINVAL else 0
  {
    if BLKSZ > l.maxBlkSize || blocks > l.maxBlkCount || blocks * BLKSZ > l.maxReqSize {
      return EINVAL;
    }
    var sz, i: nat := 0, 0;
    assert sg[..0] == [];
    while i < |sg|
      invariant i <= |sg| && sz == Total(sg[..i])
    {
      TotalSnoc(sg, i);
      sz := sz + sg[i];
      i := i + 1;
    }
    assert sg[..i] == sg;
    if sz != blocks * BLKSZ {
      return EINVAL;
    }
    ret := 0;
  }

  /**
   From a request to a transfer: shaped as above, the list holds exactly blocks * 512 bytes, and a
   request that keeps to the host's sizes is not turned away afterwards.
   */
  method DataPrep(r: Request, l: Limits, disableMulti: bool, sg: array<nat>) returns (blocks: nat, sgLen: nat, ret: int)
    requires Sane(l) && r.sectors > 0
    requires (forall i :: 0 <= i < sg.Length ==> sg[i] > 0) && Total(sg[..]) == r.sectors * BLKSZ
    modifies sg
    ensures 1 <= blocks <= r.sectors && CutTo(old(sg[..]), sg[..], sgLen, blocks * BLKSZ)
    ensures Reliable(r, l) && !l.relParamEn ==> blocks == 1 || (blocks == l.relSectors && IsAligned(r.pos, l.relSectors))
    ensures Reliable(r, l) && !l.relParamEn && IsPowerOf2(l.relSectors) ==> OneGroup(r.pos, l.relSectors, blocks)
    ensures BLKSZ <= l.maxBlkSize && r.sectors * BLKSZ <= l.maxReqSize ==> ret == 0
  {
    blocks := BlockCount(r, l, disableMulti);
    sgLen := sg.Length;
    assert sg[..][..sgLen] == sg[..];
    if blocks != r.sectors {
      sgLen := TrimList(sg, blocks * BLKSZ);
    }
    ret := MrqPrep(l, blocks, sg[..sgLen]);
    assert sg[..][..sgLen] == sg[..sgLen];
  }
}
