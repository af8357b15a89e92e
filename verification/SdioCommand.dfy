/** The argument of IO_RW_EXTENDED (CMD53, section 5.3 of the SDIO Simplified Specification). */
module SdioCommand {
  import opened Bits

  /** What a card takes from the argument. */
  datatype Args = Args(write: bool, fn: nat, blockMode: bool, incr: bool, addr: nat, count: nat)

  /** The argument as mmc_io_rw_extended or-s it together, up to the count. */
  function Upper(write: bool, fn: nat, incr: bool, addr: nat): nat {
    var flag := if write then 0x8000_0000 else 0x0000_0000;
    var target := Or(flag, Shl(fn, 28));
    var op := Or(target, if incr then 0x0400_0000 else 0x0000_0000);
    Or(op, Shl(addr, 9))
  }

  function Encode(write: bool, fn: nat, incr: bool, addr: nat, blocks: nat, blksz: nat): nat {
    if blocks == 0 then Or(Upper(write, fn, incr, addr), if blksz == 512 then 0 else blksz)
    else Or(Upper(write, fn, incr, addr), Or(0x0800_0000, blocks))
  }

  /** The fields of the argument: write 31, function 30-28, block mode 27, op code 26, address 25-9, count 8-0. */
  function Decode(arg: nat): Args {
    Args(Low(Shr(arg, 31), 1) == 1, Low(Shr(arg, 28), 3), Low(Shr(arg, 27), 1) == 1,
         Low(Shr(arg, 26), 1) == 1, Low(Shr(arg, 9), 17), Low(arg, 9))
  }

  /** The write flag above the function number. */
  function Top(write: bool, fn: nat): nat {
    Shl(Bit(write), 3) + fn
  }

  /** The fields side by side, most significant first. */
  function Fields(top: nat, block: nat, incr: nat, addr: nat, count: nat): nat {
    Shl(Shl(Shl(Shl(top, 1) + block, 1) + incr, 17) + addr, 9) + count
  }

  lemma TopSplits(write: bool, fn: nat)
    requires fn < 8
    ensures Low(Top(write, fn), 3) == fn && Low(Shr(Top(write, fn), 3), 1) == Bit(write)
  {
    assert Pow2(3) == 8 by { Widths(); }
    JoinSplits(Bit(write), fn, 3);
    LowBounds(Bit(write), 1);
  }

  /** Each field is found where the standard puts it. */
  lemma FieldsSplit(top: nat, block: nat, incr: nat, addr: nat, count: nat)
    requires block < 2 && incr < 2 && addr < 0x20000 && count < 512
    ensures var arg := Fields(top, block, incr, addr, count);
            && Low(arg, 9) == count && Low(Shr(arg, 9), 17) == addr && Low(Shr(arg, 26), 1) == incr
            && Low(Shr(arg, 27), 1) == block && Shr(arg, 28) == top
  {
    var arg := Fields(top, block, incr, addr, count);
    assert Pow2(1) == 2 && Pow2(9) == 512 && Pow2(17) == 0x20000 by { Widths(); }
    JoinSplits(Shl(Shl(Shl(top, 1) + block, 1) + incr, 17) + addr, count, 9);
    JoinSplits(Shl(Shl(top, 1) + block, 1) + incr, addr, 17);
    JoinSplits(Shl(top, 1) + block, incr, 1);
    JoinSplits(top, block, 1);
    ShrShr(arg, 9, 17);
    ShrShr(arg, 26, 1);
    ShrShr(arg, 27, 1);
  }

  lemma Widths()
    ensures Pow2(1) == 2 && Pow2(2) == 4 && Pow2(3) == 8 && Pow2(9) == 512 && Pow2(17) == 0x20000
    ensures Pow2(26) == 0x0400_0000 && Pow2(28) == 0x1000_0000 && Pow2(31) == 0x8000_0000
  {
    assert Pow2(5) == 32;
    assert Pow2(9) == 16 * Pow2(5);
    assert Pow2(13) == 16 * Pow2(9);
    assert Pow2(17) == 16 * Pow2(13);
    assert Pow2(21) == 16 * Pow2(17);
    assert Pow2(25) == 16 * Pow2(21);
    assert Pow2(28) == 8 * Pow2(25);
    assert Pow2(31) == 8 * Pow2(28);
  }

  lemma {:induction false} FlagBit(b: bool, k: nat)
    ensures Shl(Bit(b), k) == if b then Pow2(k) else 0
  {
    if k > 0 {
      FlagBit(b, k - 1);
    }
  }

  /** A field or-ed in below everything so far. */
  lemma OrField(high: nat, field: nat, width: nat, k: nat)
    requires field < Pow2(width)
    ensures Or(Shl(high, width + k), Shl(field, k)) == Shl(Shl(high, width) + field, k)
  {
    ShlBound(field, width, k);
    OrIsSum(high, Shl(field, k), width + k);
    ShlShl(high, width, k);
    ShlAdd(Shl(high, width), field, k);
  }

  /** The same with zeros between. */
  lemma OrFieldApart(high: nat, field: nat, width: nat, gap: nat, k: nat)
    requires field < Pow2(width)
    ensures Or(Shl(high, gap + width + k), Shl(field, k)) == Shl(Shl(high, gap + width) + field, k)
  {
    Pow2Monotone(width, gap + width);
    OrField(high, field, gap + width, k);
  }

  /** Or works on high and low parts apart. */
  lemma {:induction false} OrSplit(high: nat, low: nat, high': nat, low': nat, k: nat)
    requires low < Pow2(k) && low' < Pow2(k)
    ensures Or(Shl(high, k) + low, Shl(high', k) + low') == Shl(Or(high, high'), k) + Or(low, low')
  {
    if k > 0 {
      OrSplit(high, low / 2, high', low' / 2, k - 1);
      var x, y := Shl(high, k) + low, Shl(high', k) + low';
      assert x / 2 == Shl(high, k - 1) + low / 2 && y / 2 == Shl(high', k - 1) + low' / 2;
      assert x % 2 == low % 2 && y % 2 == low' % 2;
    }
  }

  lemma WriteAndFunction(write: bool, fn: nat)
    requires fn < 8
    ensures Or(if write then 0x8000_0000 else 0x0000_0000, Shl(fn, 28)) == Shl(Top(write, fn), 28)
  {
    assert Pow2(3) == 8 && Pow2(31) == 0x8000_0000 by { Widths(); }
    FlagBit(write, 31);
    OrField(Bit(write), fn, 3, 28);
  }

  lemma OpCode(a: nat, incr: bool)
    ensures Or(Shl(a, 28), if incr then 0x0400_0000 else 0x0000_0000) == Shl(Shl(a, 2) + Bit(incr), 26)
  {
    assert Pow2(1) == 2 && Pow2(26) == 0x0400_0000 by { Widths(); }
    FlagBit(incr, 26);
    OrFieldApart(a, Bit(incr), 1, 1, 26);
  }

  lemma Address(b: nat, addr: nat)
    requires addr < 0x20000
    ensures Or(Shl(b, 26), Shl(addr, 9)) == Shl(Shl(b, 17) + addr, 9)
  {
    assert Pow2(17) == 0x20000 by { Widths(); }
    OrField(b, addr, 17, 9);
  }

  /** Everything above the count, with the block mode bit still clear. */
  lemma UpperPart(write: bool, fn: nat, incr: bool, addr: nat)
    requires fn < 8 && addr < 0x20000
    ensures Upper(write, fn, incr, addr) == Shl(Shl(Shl(Top(write, fn), 2) + Bit(incr), 17) + addr, 9)
  {
    WriteAndFunction(write, fn);
    OpCode(Top(write, fn), incr);
    Address(Shl(Top(write, fn), 2) + Bit(incr), addr);
  }

  /** Setting the clear bit under the function number. */
  lemma BlockBit(a: nat, i: nat)
    requires i < 2
    ensures Or(Shl(a, 2) + i, 2) == Shl(Shl(a, 1) + 1, 1) + i
    ensures Shl(a, 2) == Shl(Shl(a, 1) + 0, 1)
  {
    var x := Shl(a, 2) + i;
    var d := Shl(a, 1);
    assert Shl(a, 0) == a;
    assert x == 2 * d + i && d == 2 * a;
    assert x / 2 == d && x % 2 == i;
    OrIsSum(a, 1, 1);
    assert Pow2(1) == 2;
    assert Or(d, 1) == d + 1;
  }

  /** Block mode and count, or-ed together first. */
  lemma ModeAndCount(blocks: nat, k: nat)
    requires k == 26 && blocks < 512
    ensures Or(0x0800_0000, blocks) == Shl(2, k) + blocks && blocks < Pow2(k)
  {
    Widths();
    FlagBit(true, 27);
    Pow2Monotone(9, 26);
    assert Shl(2, k) == 0x0800_0000 by { ShlShl(1, 1, k); }
    OrIsSum(2, blocks, k);
  }

  lemma AddressUp(b: nat, addr: nat)
    requires addr < 0x20000
    ensures Shl(Shl(b, 17) + addr, 9) == Shl(b, 26) + Shl(addr, 9) && Shl(addr, 9) < Pow2(26)
  {
    assert Pow2(17) == 0x20000 && Pow2(9) == 512 by { Widths(); }
    ShlShl(b, 17, 9);
    ShlAdd(Shl(b, 17), addr, 9);
    ShlBound(addr, 17, 9);
  }

  /** Or-ing block mode and count under the address. */
  lemma BlockCount(b: nat, addr: nat, blocks: nat)
    requires addr < 0x20000 && blocks < 512
    ensures Or(Shl(Shl(b, 17) + addr, 9), Or(0x0800_0000, blocks)) == Shl(Shl(Or(b, 2), 17) + addr, 9) + blocks
  {
    var low := Shl(addr, 9);
    AddressUp(b, addr);
    AddressUp(Or(b, 2), addr);
    BlockCountAt(b, low, blocks, 26);
    ByteCount(addr, blocks);
  }

  lemma BlockCountAt(b: nat, low: nat, blocks: nat, k: nat)
    requires k == 26 && blocks < 512 && low < Pow2(k)
    ensures Or(Shl(b, k) + low, Or(0x0800_0000, blocks)) == Shl(Or(b, 2), k) + Or(low, blocks)
  {
    ModeAndCount(blocks, k);
    OrSplit(b, low, 2, blocks, k);
  }

  /** The count in byte mode. */
  lemma ByteCount(d: nat, count: nat)
    requires count < 512
    ensures Or(Shl(d, 9), count) == Shl(d, 9) + count
  {
    assert Pow2(9) == 512 by { Widths(); }
    OrIsSum(d, count, 9);
  }

  /** The count goes in below and, in block mode, its bit above. */
  lemma CountField(a: nat, i: nat, addr: nat, block: bool, count: nat)
    requires i < 2 && addr < 0x20000 && count < 512
    ensures Or(Shl(Shl(Shl(a, 2) + i, 17) + addr, 9), if block then Or(0x0800_0000, count) else count) ==
            Fields(a, Bit(block), i, addr, count)
  {
    BlockBit(a, i);
    if block {
      BlockCount(Shl(a, 2) + i, addr, count);
    } else {
      ByteCount(Shl(Shl(a, 2) + i, 17) + addr, count);
    }
  }

  /** What the count field holds: 512 bytes travel as 0. */
  function Count(blocks: nat, blksz: nat): nat {
    if blocks > 0 then blocks else if blksz == 512 then 0 else blksz
  }

  lemma EncodeIsFields(write: bool, fn: nat, incr: bool, addr: nat, blocks: nat, blksz: nat)
    requires fn < 8 && addr < 0x20000
    requires if blocks == 0 then 1 <= blksz <= 512 else blocks < 512
    ensures Encode(write, fn, incr, addr, blocks, blksz) ==
            Fields(Top(write, fn), Bit(blocks > 0), Bit(incr), addr, Count(blocks, blksz))
  {
    UpperPart(write, fn, incr, addr);
    CountField(Top(write, fn), Bit(incr), addr, blocks > 0, Count(blocks, blksz));
  }

  /** A card reads back exactly what was asked. */
  lemma DecodeEncode(write: bool, fn: nat, incr: bool, addr: nat, blocks: nat, blksz: nat)
    requires fn < 8 && addr < 0x20000
    requires if blocks == 0 then 1 <= blksz <= 512 else blocks < 512
    ensures Decode(Encode(write, fn, incr, addr, blocks, blksz)) ==
            Args(write, fn, blocks > 0, incr, addr, Count(blocks, blksz))
  {
    EncodeIsFields(write, fn, incr, addr, blocks, blksz);
    var arg := Fields(Top(write, fn), Bit(blocks > 0), Bit(incr), addr, Count(blocks, blksz));
    FieldsSplit(Top(write, fn), Bit(blocks > 0), Bit(incr), addr, Count(blocks, blksz));
    TopSplits(write, fn);
    ShrShr(arg, 28, 3);
  }

  /** The argument fits 32 bits. */
  lemma EncodeFits(write: bool, fn: nat, incr: bool, addr: nat, blocks: nat, blksz: nat)
    requires fn < 8 && addr < 0x20000
    requires if blocks == 0 then 1 <= blksz <= 512 else blocks < 512
    ensures Encode(write, fn, incr, addr, blocks, blksz) < U32
  {
    EncodeIsFields(write, fn, incr, addr, blocks, blksz);
    FieldsBound(Top(write, fn), Bit(blocks > 0), Bit(incr), addr, Count(blocks, blksz));
  }

  lemma FieldsBound(top: nat, block: nat, incr: nat, addr: nat, count: nat)
    requires top < 16 && block < 2 && incr < 2 && addr < 0x20000 && count < 512
    ensures Fields(top, block, incr, addr, count) < U32
  {
    var b := Shl(top, 1) + block;
    var c := Shl(b, 1) + incr;
    assert Shl(top, 0) == top && Shl(b, 0) == b;
    assert Pow2(6) == 64;
    assert Pow2(9) == 512 && Pow2(17) == 0x20000 by { Widths(); }
    ShlBound(c, 6, 17);
    ShlBound(Shl(c, 17) + addr, 23, 9);
    Pow2Is32();
  }

  /** The bytes a card moves for an argument, given the block size of the function. */
  function CardBytes(args: Args, blksize: nat): nat {
    if args.blockMode then args.count * blksize else if args.count == 0 then 512 else args.count
  }
}
