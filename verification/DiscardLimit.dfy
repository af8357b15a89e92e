/**
 The discard limit of mmc/core/core.c: a doubling search for the largest number of erase groups
 that fits a timeout budget, the conversion to sectors, and what the limit guarantees about the
 erase commands sent for a request that keeps to it.
 */
module DiscardLimit {
  import opened Basics
  import opened Bits
  import opened EraseRange

  // ----- the search -----

  /** A quantity the search accepts. */
  predicate Fits(T: nat -> nat, minQty: nat, budget: nat, q: nat) {
    q <= minQty || T(q) <= budget
  }

  ghost predicate Monotone(T: nat -> nat) {
    forall a, b :: 0 <= a <= b ==> T(a) <= T(b)
  }

  /** Half of a quantity, rounded up. */
  function Half(q: nat): nat {
    (q + 1) / 2
  }

  /**
   The 32-bit computation is exact as far as the search can look: at one group, and at any
   quantity whose upper half fits. Monotone timeouts that never reach 2^32 are a special case.
   */
  ghost predicate ExactWhileFitting(T: nat -> nat, minQty: nat, maxQty: nat, budget: nat) {
    forall q :: 0 <= q <= maxQty && (q <= 1 || Fits(T, minQty, budget, Half(q))) ==> T(q) < U32
  }

  ghost predicate IsLargestFit(T: nat -> nat, minQty: nat, maxQty: nat, budget: nat, qty: nat) {
    && qty <= maxQty
    && (qty > 0 ==> Fits(T, minQty, budget, qty))
    && (forall q :: qty < q <= maxQty ==> !Fits(T, minQty, budget, q))
  }

  /** With a monotone timeout, whatever lies below a fit fits. */
  lemma FitsBelow(T: nat -> nat, minQty: nat, budget: nat, a: nat, b: nat)
    requires Monotone(T) && a <= b && Fits(T, minQty, budget, b)
    ensures Fits(T, minQty, budget, a)
  {
  }

  /** What last holds: the true time of the quantity accepted so far. */
  ghost predicate LastIs(T: nat -> nat, minQty: nat, budget: nat, qty: nat, last: nat) {
    if qty == 0 then last == 0 else last == T(qty) && Fits(T, minQty, budget, qty)
  }

  /** The next quantity tested is at most twice the accepted one, or one more, so its time is computed exactly. */
  lemma NextTestExact(T: nat -> nat, minQty: nat, maxQty: nat, budget: nat, accepted: nat, last: nat, q: nat)
    requires Monotone(T) && ExactWhileFitting(T, minQty, maxQty, budget)
    requires LastIs(T, minQty, budget, accepted, last)
    requires accepted < q <= maxQty && (q <= accepted + 1 || q <= 2 * accepted)
    ensures T(q) < U32 && last <= T(q)
  {
    if q > 1 {
      FitsBelow(T, minQty, budget, Half(q), accepted);
    }
  }

  /**
   The search of mmc_do_calc_max_discard. timeout is what mmc_erase_timeout computes in 32 bits;
   T is the time it stands for. The search always ends, on a quantity whose computed timeout it
   accepted; and when T is monotone and small enough to be computed while it fits, that
   quantity is the largest that fits, by the true times.
   */
  method SearchQty(timeout: nat -> nat, minQty: nat, maxQty: nat, budget: nat, ghost T: nat -> nat) returns (qty: nat)
    requires maxQty < U32
    requires forall q: nat :: T(q) < U32 ==> timeout(q) == T(q)
    ensures qty <= maxQty && (qty > 0 ==> Fits(timeout, minQty, budget, qty))
    ensures Monotone(T) && ExactWhileFitting(T, minQty, maxQty, budget) ==> IsLargestFit(T, minQty, maxQty, budget, qty)
  {
    ghost var good := Monotone(T) && ExactWhileFitting(T, minQty, maxQty, budget);
    qty := 0;
    var last, again := 0, true;
    while again
      invariant qty <= maxQty
      invariant qty > 0 ==> Fits(timeout, minQty, budget, qty)
      invariant good ==> LastIs(T, minQty, budget, qty, last)
      invariant good && !again ==> IsLargestFit(T, minQty, maxQty, budget, qty)
      decreases maxQty - qty, again
    {
      var y: nat, x: nat := 0, 1;
      ghost var k := 0;
      while x != 0 && x <= maxQty && maxQty - x >= qty
        invariant k <= 32 && x == (if k == 32 then 0 else Pow2(k))
        invariant if y == 0 then x == 1 else x == 0 || x == 2 * y
        invariant qty + y <= maxQty
        invariant qty + y > 0 ==> Fits(timeout, minQty, budget, qty + y)
        invariant good ==> LastIs(T, minQty, budget, qty + y, last)
        decreases 32 - k
      {
        var t := timeout(qty + x);
        if good {
          NextTestExact(T, minQty, maxQty, budget, qty + y, last, qty + x);
        }
        if qty + x > minQty && t > budget {
          break;
        }
        if t < last {
          break;
        }
        last := t;
        y := x;
        DoublePow2(k);
        k := k + 1;
        x := Wrap(2 * x);
      }
      again := y != 0;
      if good && !again {
        assert qty + 1 <= maxQty ==> !Fits(T, minQty, budget, qty + 1);
        NothingAbove(T, minQty, maxQty, budget, qty);
      }
      qty := qty + y;
    }
  }

  lemma DoublePow2(k: nat)
    requires k < 32
    ensures Pow2(k + 1) <= U32
    ensures Wrap(2 * Pow2(k)) == if k + 1 == 32 then 0 else Pow2(k + 1)
  {
    Pow2Is32();
    Pow2Monotone(k + 1, 32);
    if k + 1 < 32 {
      Pow2Monotone(k + 2, 32);
    }
  }

  lemma NothingAbove(T: nat -> nat, minQty: nat, maxQty: nat, budget: nat, qty: nat)
    requires Monotone(T)
    requires qty + 1 <= maxQty ==> !Fits(T, minQty, budget, qty + 1)
    ensures forall q :: qty < q <= maxQty ==> !Fits(T, minQty, budget, q)
  {
    forall q | qty < q <= maxQty
      ensures !Fits(T, minQty, budget, q)
    {
      if Fits(T, minQty, budget, q) {
        FitsBelow(T, minQty, budget, qty + 1, q);
      }
    }
  }

  // ----- the timeouts of the source -----

  /**
   mmc_erase_timeout for a fixed card and argument: so much per group, an offset, and a floor.
   SD cards: the SD status values or 250 and 0, floor 1000. MMC cards: the selected base time with
   its secure multiplier, offset 0, floor 1000 for SPI hosts and 0 otherwise.
   */
  datatype Timing = Timing(perGroup: nat, offset: nat, floor: nat)

  function AtLeast(floor: nat, x: nat): nat {
    if x < floor then floor else x
  }

  /** As computed, in 32 bits at every step. */
  function ComputedTimeout(t: Timing, qty: nat): nat {
    AtLeast(t.floor, Wrap(Wrap(t.perGroup * qty) + t.offset))
  }

  /** The time it stands for. */
  function TrueTimeout(t: Timing, qty: nat): nat {
    AtLeast(t.floor, t.perGroup * qty + t.offset)
  }

  lemma TrueTimeoutGrows(t: Timing, a: nat, b: nat)
    requires a <= b
    ensures TrueTimeout(t, a) <= TrueTimeout(t, b)
    ensures b <= 2 * a ==> TrueTimeout(t, b) <= 2 * TrueTimeout(t, a)
  {
    assert t.perGroup * b == t.perGroup * a + t.perGroup * (b - a);
    if b <= 2 * a {
      assert t.perGroup * (2 * a) == t.perGroup * b + t.perGroup * (2 * a - b);
    }
  }

  /**
   The search is exact for the source's timeouts although their 32-bit products wrap for large
   quantities: it is enough that the budget stays below 2^31 and that one group and twice the
   preferred erase size can be timed in 32 bits.
   */
  lemma SourceTimeoutsSearchable(t: Timing, minQty: nat, maxQty: nat, budget: nat)
    requires TrueTimeout(t, 1) < U32 && TrueTimeout(t, 2 * minQty) < U32 && 2 * budget < U32
    ensures var T := (q: nat) => TrueTimeout(t, q);
            Monotone(T) && ExactWhileFitting(T, minQty, maxQty, budget)
    ensures forall q: nat :: TrueTimeout(t, q) < U32 ==> ComputedTimeout(t, q) == TrueTimeout(t, q)
  {
    var T := (q: nat) => TrueTimeout(t, q);
    forall a, b | 0 <= a <= b
      ensures T(a) <= T(b)
    {
      TrueTimeoutGrows(t, a, b);
    }
    forall q | 0 <= q <= maxQty && (q <= 1 || Fits(T, minQty, budget, Half(q)))
      ensures T(q) < U32
    {
      if q <= 1 {
        TrueTimeoutGrows(t, q, 1);
      } else if Half(q) <= minQty {
        TrueTimeoutGrows(t, q, 2 * minQty);
      } else {
        TrueTimeoutGrows(t, Half(q), q);
      }
    }
    forall q: nat | TrueTimeout(t, q) < U32
      ensures ComputedTimeout(t, q) == TrueTimeout(t, q)
    {
      assert 0 <= t.perGroup * q;
    }
  }

  // ----- from groups to sectors -----

  /** How mmc_do_erase counts groups: by shift, per write block on SD cards without a unit, or by division. */
  datatype Geometry = Shifted(shift: nat) | Blocks | Groups(size: nat)

  predicate GeometryOk(g: Geometry) {
    match g
    case Shifted(shift) => 1 <= shift < 32
    case Blocks => true
    case Groups(size) => 0 < size < U32
  }

  function Touched(g: Geometry, from: nat, to: nat): int
    requires GeometryOk(g)
  {
    match g
    case Shifted(shift) => Shr(to, shift) - Shr(from, shift) + 1
    case Blocks => to - from + 1
    case Groups(size) => Quot(to, size) - Quot(from, size) + 1
  }

  function MaxQty(g: Geometry): nat
    requires GeometryOk(g)
  {
    match g
    case Shifted(shift) => Shr(U32 - 1, shift)
    case Blocks => U32 - 1
    case Groups(size) => Quot(U32 - 1, size)
  }

  /** The limit in sectors and the boundary flag, from the quantity found. */
  function MaxDiscard(g: Geometry, qty: nat): (nat, bool)
    requires GeometryOk(g) && qty > 0
  {
    var q := if qty == 1 then 1 else qty - 1;
    (match g
     case Shifted(shift) => Shl(q, shift)
     case Blocks => q + 1
     case Groups(size) => q * size,
     qty == 1)
  }

  function Unit(g: Geometry): nat {
    match g
    case Shifted(shift) => Pow2(shift)
    case Blocks => 1
    case Groups(size) => size
  }

  /** n whole units further on lie n quotients further on. */
  lemma {:induction false} QuotSteps(x: nat, n: nat, m: nat)
    requires m > 0
    ensures n * m >= 0 && Quot(x + n * m, m) == Quot(x, m) + n
  {
    if n > 0 {
      QuotSteps(x, n - 1, m);
      assert n * m == (n - 1) * m + m;
      assert x + n * m - m == x + (n - 1) * m;
    }
  }

  lemma {:induction false} ShlIsProduct(q: nat, k: nat)
    ensures Shl(q, k) == q * Pow2(k)
  {
    if k > 0 {
      ShlIsProduct(q, k - 1);
      assert q * (2 * Pow2(k - 1)) == 2 * (q * Pow2(k - 1));
    }
  }

  /** All three geometries count quotients by their unit, and all limits are units. */
  lemma GeometryByUnit(g: Geometry, from: nat, to: nat, qty: nat)
    requires GeometryOk(g) && qty > 0
    ensures Touched(g, from, to) == Quot(to, Unit(g)) - Quot(from, Unit(g)) + 1
    ensures MaxQty(g) == Quot(U32 - 1, Unit(g))
    ensures !g.Blocks? ==> MaxDiscard(g, qty).0 == (if qty == 1 then 1 else qty - 1) * Unit(g)
  {
    match g
    case Shifted(shift) =>
      LowIsRem(to, shift);
      LowIsRem(from, shift);
      LowIsRem(U32 - 1, shift);
      ShlIsProduct(if qty == 1 then 1 else qty - 1, shift);
    case Blocks =>
      QuotOne(to);
      QuotOne(from);
      QuotOne(U32 - 1);
    case Groups(size) =>
  }

  /** A range of at most n units touches at most n + 1 of them. */
  lemma TouchesOneMore(from: nat, nr: nat, n: nat, m: nat)
    requires m > 0 && 1 <= nr <= n * m
    ensures Quot(from + nr - 1, m) - Quot(from, m) + 1 <= n + 1
  {
    QuotSteps(from, n, m);
    QuotMonotone(from + nr - 1, from + n * m, m);
  }

  ghost predicate KeepsTo(g: Geometry, qty: nat)
    requires GeometryOk(g) && qty > 0
  {
    forall from: nat, to: nat :: from <= to < from + MaxDiscard(g, qty).0 ==> Touched(g, from, to) <= qty
  }

  /**
   The sector limit keeps every range, wherever it starts, to the quantity found, exactly when
   that quantity is two or more, or groups are single sectors counted by division.
   */
  lemma LimitKeepsToQuantity(g: Geometry, qty: nat)
    requires GeometryOk(g) && qty > 0
    ensures KeepsTo(g, qty) <==> qty >= 2 || g == Groups(1)
  {
    var limit := MaxDiscard(g, qty).0;
    if qty >= 2 || g == Groups(1) {
      forall from: nat, to: nat | from <= to < from + limit
        ensures Touched(g, from, to) <= qty
      {
        GeometryByUnit(g, from, to, qty);
        if qty >= 2 && !g.Blocks? {
          TouchesOneMore(from, to - from + 1, qty - 1, Unit(g));
        } else if g == Groups(1) && qty == 1 {
          QuotOne(from);
        }
      }
    } else {
      CrossingRange(g);
    }
  }

  /** With room for one group only, a limit-sized range starting inside a group touches two. */
  lemma CrossingRange(g: Geometry)
    requires GeometryOk(g) && g != Groups(1)
    ensures MaxDiscard(g, 1).0 >= 1 && Touched(g, 1, MaxDiscard(g, 1).0) == 2
  {
    var limit := MaxDiscard(g, 1).0;
    GeometryByUnit(g, 1, limit, 1);
    if g.Shifted? {
      Pow2Monotone(1, g.shift);
    }
  }

  // ----- the whole way: from the limit to the commands -----

  /** The arguments of JESD84: erase, secure erase, or one of the trims and discards. */
  predicate KnownArg(arg: Arg) {
    && (if arg.erase then !arg.secureErase && !arg.trim && !arg.secure else arg.secureErase != arg.trim)
    && (arg.secureErase ==> arg.secure)
  }

  /** Which count goes with which card: by the allocation unit or by blocks for SD, by the erase size otherwise. */
  predicate CountsBy(card: Card, g: Geometry) {
    match g
    case Shifted(shift) => card.sd || card.eraseSize == Pow2(shift)
    case Blocks => card.sd
    case Groups(size) => !card.sd && card.eraseSize == size
  }

  /** A card with its geometry and the flag that goes with the quantity found for it. */
  predicate Fitting(card: Card, g: Geometry, qty: nat) {
    && GeometryOk(g) && CountsBy(card, g) && 0 < card.eraseSize < U32
    && qty > 0 && (qty == 1 ==> card.egBoundary)
  }

  /** Every command is a range, and touches no more groups than the quantity. */
  ghost predicate KeepTo(g: Geometry, qty: nat, e: Erasure)
    requires GeometryOk(g)
  {
    e.Commands? ==> forall i :: 0 <= i < |e.cmds| ==> 1 <= Touched(g, e.cmds[i].0, e.cmds[i].1) <= qty
  }

  ghost predicate AlwaysKeeps(g: Geometry, qty: nat, card: Card, arg: Arg)
    requires Fitting(card, g, qty)
  {
    forall from: nat, nr: nat, firstFails ::
      nr <= MaxDiscard(g, qty).0 && from + nr < U32 ==> KeepTo(g, qty, Erase(card, arg, from, nr, firstFails))
  }

  /** Every command stays inside the request; an erase, secure or not, is one range of whole erase sizes. */
  lemma CommandBounds(card: Card, arg: Arg, from: nat, nr: nat, firstFails: bool, i: nat)
    requires 0 < card.eraseSize < U32 && from + nr < U32 && KnownArg(arg)
    requires var e := Erase(card, arg, from, nr, firstFails); e.Commands? && i < |e.cmds|
    ensures var c := Erase(card, arg, from, nr, firstFails).cmds[i];
            && from <= c.0 <= c.1 < from + nr
            && (!arg.trim ==> Rem(c.0, card.eraseSize) == 0 && Rem(c.1 + 1 - c.0, card.eraseSize) == 0)
            && (arg.trim ==> nr > 0 && Erase(card, arg, from, nr, firstFails).cmds
                                       == Split(card, arg, from, from + nr - 1, nr, firstFails))
  {
    AlignIsLargest(card.eraseSize, from, nr);
    if arg.erase {
      var r := AlignDivide(card.eraseSize, from, nr);
      AlignEnds(card.eraseSize, from, nr);
    }
  }

  /** An aligned range of at most one group is that group. */
  lemma AlignedGroup(size: nat, from: nat, nr: nat)
    requires size > 0 && Rem(from, size) == 0 && 1 <= nr <= size
    ensures Quot(from + nr - 1, size) == Quot(from, size)
  {
    RemShift(from, nr - 1, size);
  }

  /** Part of a range touches no more than fits into so many units, crossing allowed for. */
  lemma PartTouches(g: Geometry, qty: nat, a: nat, b: nat)
    requires GeometryOk(g) && qty >= 2 && a <= b && b + 1 - a <= MaxDiscard(g, qty).0
    ensures 1 <= Touched(g, a, b) <= qty
  {
    GeometryByUnit(g, a, b, qty);
    QuotMonotone(a, b, Unit(g));
    if !g.Blocks? {
      TouchesOneMore(a, b + 1 - a, qty - 1, Unit(g));
    }
  }

  /** With quantity one and counting by the erase size, splitting or alignment keeps a command to one group. */
  lemma OneGroupCommands(g: Geometry, card: Card, arg: Arg, from: nat, nr: nat, firstFails: bool, i: nat)
    requires Fitting(card, g, 1) && !g.Blocks? && card.eraseSize == Unit(g) && KnownArg(arg)
    requires nr <= MaxDiscard(g, 1).0 && from + nr < U32
    requires var e := Erase(card, arg, from, nr, firstFails); e.Commands? && i < |e.cmds|
    ensures var c := Erase(card, arg, from, nr, firstFails).cmds[i]; Touched(g, c.0, c.1) == 1
  {
    var c := Erase(card, arg, from, nr, firstFails).cmds[i];
    CommandBounds(card, arg, from, nr, firstFails, i);
    GeometryByUnit(g, c.0, c.1, 1);
    if arg.trim {
      OneGroupPerTrim(card, arg, from, nr, firstFails);
    } else {
      AlignedGroup(Unit(g), c.0, c.1 + 1 - c.0);
    }
  }

  /** The erase size from which on an SD card keeps to a quantity of one. */
  function EnoughForOne(g: Geometry): nat {
    if g.Blocks? then 3 else Unit(g)
  }

  /** A range of whole erase sizes is no shorter than one. */
  lemma WholeIsLong(size: nat, nr: nat)
    requires size > 0 && nr > 0 && Rem(nr, size) == 0
    ensures nr >= size
  {
    MultiplesApart(0, nr, size);
  }

  lemma CommandKeeps(g: Geometry, qty: nat, card: Card, arg: Arg, from: nat, nr: nat, firstFails: bool, i: nat)
    requires Fitting(card, g, qty) && KnownArg(arg)
    requires qty >= 2 || !card.sd || card.eraseSize >= EnoughForOne(g)
    requires nr <= MaxDiscard(g, qty).0 && from + nr < U32
    requires var e := Erase(card, arg, from, nr, firstFails); e.Commands? && i < |e.cmds|
    ensures var c := Erase(card, arg, from, nr, firstFails).cmds[i]; 1 <= Touched(g, c.0, c.1) <= qty
  {
    var c := Erase(card, arg, from, nr, firstFails).cmds[i];
    CommandBounds(card, arg, from, nr, firstFails, i);
    if qty >= 2 {
      PartTouches(g, qty, c.0, c.1);
    } else {
      if card.sd {
        WholeIsLong(card.eraseSize, c.1 + 1 - c.0);
      }
      GeometryByUnit(g, c.0, c.1, 1);
      assert !g.Blocks? && card.eraseSize == Unit(g);
      OneGroupCommands(g, card, arg, from, nr, firstFails, i);
    }
  }

  lemma AlignedStays(size: nat, from: nat, nr: nat)
    requires 0 < size < U32 && Rem(from, size) == 0 && Rem(nr, size) == 0 && nr > 0 && from + nr < U32
    ensures AlignDivide(size, from, nr) == Range(from, from + nr, nr)
  {
  }

  lemma SentAsAligned(card: Card, arg: Arg, from: nat, nr: nat)
    requires 0 < card.eraseSize < U32 && card.canErase && arg.erase && KnownArg(arg) && nr > 0 && from + nr < U32
    requires AlignDivide(card.eraseSize, from, nr) == Range(from, from + nr, nr)
    ensures Erase(card, arg, from, nr, false) == Commands([(from, from + nr - 1)])
  {
    assert Split(card, arg, from, from + nr - 1, nr, false) == [(from, from + nr - 1)];
  }

  /** An erase of whole erase sizes is sent as it is. */
  lemma AlignedErase(card: Card, arg: Arg, from: nat, nr: nat)
    requires 0 < card.eraseSize < U32 && card.canErase && arg.erase && KnownArg(arg)
    requires Rem(from, card.eraseSize) == 0 && Rem(nr, card.eraseSize) == 0 && nr > 0 && from + nr < U32
    ensures Erase(card, arg, from, nr, false) == Commands([(from, from + nr - 1)])
  {
    AlignedStays(card.eraseSize, from, nr);
    SentAsAligned(card, arg, from, nr);
  }

  /** The last whole erase size that starts inside a unit, with one more if it ends with the unit. */
  lemma UnitStraddled(unit: nat, size: nat)
    requires 0 < size < unit
    ensures var from := unit - 1 - Rem(unit - 1, size);
            var nr := if from + size > unit then size else 2 * size;
            && Rem(from, size) == 0 && Rem(nr, size) == 0 && nr <= unit
            && from < unit < from + nr && Quot(from, unit) == 0 && Quot(from + nr - 1, unit) >= 1
  {
    RemComplete(unit - 1, size);
    var from := unit - 1 - Rem(unit - 1, size);
    if from + size <= unit {
      assert from + size == unit;
      if from == 0 {
        assert false;
      }
      WholeIsLong(size, from);
    }
  }

  /** A range within the limit that crosses a unit, for an SD card whose erase size is smaller than the unit. */
  lemma SdCrosses(g: Geometry, card: Card, arg: Arg) returns (from: nat, nr: nat)
    requires Fitting(card, g, 1) && card.sd && card.canErase && arg.erase && KnownArg(arg)
    requires card.eraseSize < EnoughForOne(g)
    ensures nr <= MaxDiscard(g, 1).0 && from + nr < U32
    ensures !KeepTo(g, 1, Erase(card, arg, from, nr, false))
  {
    var size := card.eraseSize;
    if g.Blocks? {
      from, nr := 0, 2;
      assert Rem(0, size) == 0 && Rem(2, size) == 0;
    } else {
      var unit := Pow2(g.shift);
      from := unit - 1 - Rem(unit - 1, size);
      nr := if from + size > unit then size else 2 * size;
      UnitStraddled(unit, size);
      GeometryByUnit(g, from, from + nr - 1, 1);
      UnitFits(g.shift);
    }
    AlignedErase(card, arg, from, nr);
    var e := Erase(card, arg, from, nr, false);
    assert Touched(g, e.cmds[0].0, e.cmds[0].1) >= 2;
  }

  lemma UnitFits(shift: nat)
    requires shift < 32
    ensures 2 * Pow2(shift) <= U32
  {
    Pow2Monotone(shift + 1, 32);
    Pow2Is32();
  }

  /**
   The limit keeps every command of every request within it to the quantity found, if and only if
   that is two or more, or the card is not an SD card, or nothing is erased by it, or the SD card
   erases in sizes no smaller than the unit it is timed by.
   */
  lemma LimitKeepsCommandsIff(g: Geometry, qty: nat, card: Card, arg: Arg)
    requires Fitting(card, g, qty) && KnownArg(arg)
    ensures AlwaysKeeps(g, qty, card, arg) <==>
            qty >= 2 || !card.sd || !card.canErase || !arg.erase || card.eraseSize >= EnoughForOne(g)
  {
    if qty >= 2 || !card.sd || !card.canErase || !arg.erase || card.eraseSize >= EnoughForOne(g) {
      forall from: nat, nr: nat, firstFails | nr <= MaxDiscard(g, qty).0 && from + nr < U32
        ensures KeepTo(g, qty, Erase(card, arg, from, nr, firstFails))
      {
        var e := Erase(card, arg, from, nr, firstFails);
        if e.Commands? {
          forall i | 0 <= i < |e.cmds|
            ensures 1 <= Touched(g, e.cmds[i].0, e.cmds[i].1) <= qty
          {
            CommandKeeps(g, qty, card, arg, from, nr, firstFails, i);
          }
        }
      }
    } else {
      var from, nr := SdCrosses(g, card, arg);
    }
  }

  /** An SD card timed by units of eight blocks with room for one: eight blocks from the second touch two units. */
  lemma SdLimitBroken()
    ensures var card := Card(1, true, true, false, false, true);
            var g := Shifted(3);
            && Fitting(card, g, 1) && MaxDiscard(g, 1) == (8, true)
            && Erase(card, Arg(true, false, false, false), 1, 8, false) == Commands([(1, 8)])
            && Touched(g, 1, 8) == 2
  {
    assert Pow2(3) == 8;
    GeometryByUnit(Shifted(3), 1, 8, 1);
    assert Rem(1, 1) == 0 && Rem(8, 1) == 0 by { QuotOne(1); QuotOne(8); }
    assert Quot(8, 8) == 1 && Quot(1, 8) == 0;
  }

  /** Under that condition every command also fits the time budget the quantity was found for. */
  lemma CommandsFitBudget(T: nat -> nat, minQty: nat, budget: nat, g: Geometry, qty: nat,
                          card: Card, arg: Arg, from: nat, nr: nat, firstFails: bool)
    requires Fitting(card, g, qty) && KnownArg(arg) && Monotone(T) && Fits(T, minQty, budget, qty)
    requires qty >= 2 || !card.sd || !card.canErase || !arg.erase || card.eraseSize >= EnoughForOne(g)
    requires nr <= MaxDiscard(g, qty).0 && from + nr < U32
    ensures var e := Erase(card, arg, from, nr, firstFails);
            e.Commands? ==>
              forall i :: 0 <= i < |e.cmds| ==>
                1 <= Touched(g, e.cmds[i].0, e.cmds[i].1) && Fits(T, minQty, budget, Touched(g, e.cmds[i].0, e.cmds[i].1))
  {
    var e := Erase(card, arg, from, nr, firstFails);
    LimitKeepsCommandsIff(g, qty, card, arg);
    assert KeepTo(g, qty, e);
    if e.Commands? {
      forall i | 0 <= i < |e.cmds|
        ensures 1 <= Touched(g, e.cmds[i].0, e.cmds[i].1)
        ensures Fits(T, minQty, budget, Touched(g, e.cmds[i].0, e.cmds[i].1))
      {
        FitsBelow(T, minQty, budget, Touched(g, e.cmds[i].0, e.cmds[i].1), qty);
      }
    }
  }

  /**
   A secure argument takes mult times as long, which no search allows for: its commands fit the budget
   when the quantity found fits a budget as many times smaller, and among counts up to it only then.
   */
  lemma SecureFitsBudget(T: nat -> nat, mult: nat, budget: nat, g: Geometry, qty: nat,
                         card: Card, arg: Arg, from: nat, nr: nat, firstFails: bool)
    requires Fitting(card, g, qty) && KnownArg(arg) && arg.secure && Monotone(T) && mult > 0
    requires nr <= MaxDiscard(g, qty).0 && from + nr < U32
    ensures (forall k :: 1 <= k <= qty ==> mult * T(k) <= budget) <==> T(qty) <= budget / mult
    ensures var e := Erase(card, arg, from, nr, firstFails);
            e.Commands? && T(qty) <= budget / mult ==>
              forall i :: 0 <= i < |e.cmds| ==>
                1 <= Touched(g, e.cmds[i].0, e.cmds[i].1) && mult * T(Touched(g, e.cmds[i].0, e.cmds[i].1)) <= budget
  {
    forall k | 1 <= k <= qty
      ensures T(qty) <= budget / mult ==> mult * T(k) <= budget
    {
      TimesFits(T(qty), mult, budget);
      TimesGrows(T(k), T(qty), mult);
    }
    TimesFits(T(qty), mult, budget);
    LimitKeepsCommandsIff(g, qty, card, arg);
    assert KeepTo(g, qty, Erase(card, arg, from, nr, firstFails));
  }

  lemma TimesFits(t: nat, mult: nat, budget: nat)
    requires mult > 0
    ensures mult * t <= budget <==> t <= budget / mult
  {
    var q := budget / mult;
    assert budget == mult * q + budget % mult;
    if t <= q {
      TimesGrows(t, q, mult);
    } else {
      TimesGrows(q + 1, t, mult);
      assert mult * (q + 1) == mult * q + mult;
    }
  }

  lemma TimesGrows(a: nat, b: nat, mult: nat)
    requires a <= b
    ensures mult * a <= mult * b
  {
    assert mult * b == mult * a + mult * (b - a);
  }

  // ----- both searches -----

  /**
   mmc_calc_max_discard from the quantities of the two searches, zero for none, on a card with group
   definition; trimQty is None where the card cannot trim.
   */
  function CalcMaxDiscard(g: Geometry, eraseSize: nat, eraseQty: nat, trimQty: Option<nat>): nat
    requires GeometryOk(g)
  {
    var maxDiscard := if eraseQty == 0 then 0 else MaxDiscard(g, eraseQty).0;
    if maxDiscard != 0 && trimQty.Some? then
      var maxTrim := if trimQty.value == 0 then 0 else MaxDiscard(g, trimQty.value).0;
      if maxTrim < maxDiscard then maxTrim else maxDiscard
    else if maxDiscard < eraseSize then 0
    else maxDiscard
  }

  /** Whether either search sets the boundary flag. */
  predicate FlagSet(eraseQty: nat, trimQty: Option<nat>) {
    eraseQty == 1 || (eraseQty != 0 && trimQty == Some(1))
  }

  /**
   A request within the common limit keeps to the budget of its own kind, erase or trim, under the
   condition above for that kind: the smaller limit and the shared flag do not get in each other's way.
   */
  lemma CalcKeepsBothBudgets(T: nat -> nat, minQty: nat, budget: nat, g: Geometry, eraseQty: nat, trimQty: Option<nat>,
                             card: Card, arg: Arg, from: nat, nr: nat, firstFails: bool)
    requires GeometryOk(g) && CountsBy(card, g) && 0 < card.eraseSize < U32
    requires FlagSet(eraseQty, trimQty) ==> card.egBoundary
    requires KnownArg(arg) && (arg.trim ==> trimQty.Some?)
    requires 0 < nr <= CalcMaxDiscard(g, card.eraseSize, eraseQty, trimQty) && from + nr < U32
    requires var qty := if arg.trim then trimQty.value else eraseQty;
             Monotone(T) && Fits(T, minQty, budget, qty) &&
             (qty >= 2 || !card.sd || !card.canErase || !arg.erase || card.eraseSize >= EnoughForOne(g))
    ensures var e := Erase(card, arg, from, nr, firstFails);
            e.Commands? ==>
              forall i :: 0 <= i < |e.cmds| ==>
                1 <= Touched(g, e.cmds[i].0, e.cmds[i].1) && Fits(T, minQty, budget, Touched(g, e.cmds[i].0, e.cmds[i].1))
  {
    var qty := if arg.trim then trimQty.value else eraseQty;
    CommandsFitBudget(T, minQty, budget, g, qty, card, arg, from, nr, firstFails);
  }
}
