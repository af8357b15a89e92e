/** Splitting one transfer into IO_RW_EXTENDED commands (sdio_io_rw_ext_helper, mmc_io_rw_extended). */
module SdioTransfer {
  import opened Basics
  import opened Bits
  import opened SdioCommand

  type Byte = b: nat | b < 256

  /**
   What a card does with one byte sent to, or asked of, a register of one of its functions. S is
   its whole inner state, so memories, queues and registers with side effects are all covered.
   */
  datatype Device<!S> = Device(put: (S, nat, nat, Byte) -> S, get: (S, nat, nat) -> (S, Byte))

  datatype Host = Host(maxBlkSize: nat, maxBlkCount: nat, maxSegSize: nat, spi: bool)

  datatype Func = Func(num: nat, curBlksize: nat, maxBlksize: nat, multiBlock: bool, blkszForByteMode: bool, broken512: bool)

  /** A direction, a function and an op code: what all pieces of a transfer share. */
  datatype Mode = Mode(write: bool, fn: nat, incr: bool)

  function Next(mode: Mode, addr: nat, n: nat): nat {
    if mode.incr then addr + n else addr
  }

  function Move<S>(d: Device<S>, mode: Mode, s: S, addr: nat, b: Byte): (S, Byte) {
    if mode.write then (d.put(s, mode.fn, addr, b), b) else d.get(s, mode.fn, addr)
  }

  /** One unsplit copy of n bytes between buf[off..] and the card. */
  function Copy<S>(d: Device<S>, mode: Mode, s: S, addr: nat, buf: seq<Byte>, off: nat, n: nat): (r: (S, seq<Byte>))
    requires off + n <= |buf|
    ensures |r.1| == |buf|
    decreases n
  {
    if n == 0 then (s, buf)
    else
      var (s', b) := Move(d, mode, s, addr, buf[off]);
      Copy(d, mode, s', Next(mode, addr, 1), buf[off := b], off + 1, n - 1)
  }

  /** A copy in two pieces, the second where the first stopped, is one copy. */
  lemma {:induction false} CopySplit<S>(d: Device<S>, mode: Mode, s: S, addr: nat, buf: seq<Byte>, off: nat, n: nat, m: nat)
    requires off + n + m <= |buf|
    ensures var (s1, buf1) := Copy(d, mode, s, addr, buf, off, n);
            Copy(d, mode, s, addr, buf, off, n + m) == Copy(d, mode, s1, Next(mode, addr, n), buf1, off + n, m)
    decreases n
  {
    if n > 0 {
      var (s', b) := Move(d, mode, s, addr, buf[off]);
      CopySplit(d, mode, s', Next(mode, addr, 1), buf[off := b], off + 1, n - 1, m);
      assert Next(mode, Next(mode, addr, 1), n - 1) == Next(mode, addr, n);
    }
  }

  /** Only the bytes copied can change in the buffer. */
  lemma {:induction false} CopyFrame<S>(d: Device<S>, mode: Mode, s: S, addr: nat, buf: seq<Byte>, off: nat, n: nat)
    requires off + n <= |buf|
    ensures var r := Copy(d, mode, s, addr, buf, off, n).1;
            && r[..off] == buf[..off] && r[off + n..] == buf[off + n..]
            && (mode.write ==> r == buf)
    decreases n
  {
    if n > 0 {
      var (s', b) := Move(d, mode, s, addr, buf[off]);
      CopyFrame(d, mode, s', Next(mode, addr, 1), buf[off := b], off + 1, n - 1);
      var r := Copy(d, mode, s, addr, buf, off, n).1;
      assert r[..off] == r[..off + 1][..off] && buf[off := b][..off + 1][..off] == buf[..off];
      assert buf[off := b][off + n..] == buf[off + n..];
    }
  }

  // ----- scatter lists -----

  datatype Segment = Segment(off: nat, len: nat)

  /** Nonempty segments, one after the other, that make up total bytes from off. */
  predicate Partition(segs: seq<Segment>, off: nat, total: nat) {
    if segs == [] then total == 0
    else segs[0].off == off && 0 < segs[0].len <= total && Partition(segs[1..], off + segs[0].len, total - segs[0].len)
  }

  lemma {:induction false} PartitionSnoc(segs: seq<Segment>, off: nat, total: nat, len: nat)
    requires Partition(segs, off, total) && len > 0
    ensures Partition(segs + [Segment(off + total, len)], off, total + len)
  {
    var longer := segs + [Segment(off + total, len)];
    if segs != [] {
      PartitionSnoc(segs[1..], off + segs[0].len, total - segs[0].len, len);
      assert longer[1..] == segs[1..] + [Segment(off + total, len)];
    }
  }

  /** DIV_ROUND_UP(total, segSize) */
  function Segments(total: nat, segSize: nat): nat
    requires segSize > 0
  {
    Quot(total + segSize - 1, segSize)
  }

  lemma OneLess(k: nat, m: nat)
    requires k > 0
    ensures k * m == (k - 1) * m + m
    ensures k >= 2 ==> k * m >= 2 * m
  {
    if k >= 2 {
      assert k * m == (k - 2) * m + 2 * m;
    }
  }

  /** One segment less to go. */
  lemma LeftStep(k: nat, m: nat, left: int, r: nat)
    requires k > 0 && r < m && left + m - 1 == k * m + r
    ensures left - 1 == (k - 1) * m + r
    ensures if k > 1 then left > m else 0 < left <= m
  {
    OneLess(k, m);
  }

  /** The scatter list of mmc_io_rw_extended cuts the buffer into consecutive segments the host can take. */
  method Scatter(off: nat, total: nat, segSize: nat) returns (segs: seq<Segment>)
    requires segSize > 0 && total > 0
    ensures Partition(segs, off, total)
    ensures forall i :: 0 <= i < |segs| ==> segs[i].len <= segSize
    ensures |segs| == Segments(total, segSize)
  {
    var nents := Segments(total, segSize);
    ghost var r := Rem(total + segSize - 1, segSize);
    QuotRemJoin(total + segSize - 1, segSize);
    segs := [];
    var left := total;
    if nents > 1 {
      var at := off;
      for i := 0 to nents
        invariant left + segSize - 1 == (nents - i) * segSize + r
        invariant |segs| == i && at - off == total - left
        invariant Partition(segs, off, if i < nents then total - left else total)
        invariant forall j :: 0 <= j < i ==> segs[j].len <= segSize
      {
        LeftStep(nents - i, segSize, left, r);
        ghost var covered := total - left;
        PartitionSnoc(segs, off, covered, Min(segSize, left));
        segs := segs + [Segment(at, Min(segSize, left))];
        at := at + segSize;
        left := left - segSize;
      }
    } else {
      OneLess(nents, segSize);
      segs := [Segment(off, left)];
      assert Partition(segs[1..], off + left, 0);
    }
  }

  /** The host fills or empties the segments in order. */
  function Dma<S>(d: Device<S>, mode: Mode, s: S, addr: nat, buf: seq<Byte>, segs: seq<Segment>, n: nat): (r: (S, seq<Byte>))
    ensures |r.1| == |buf|
    decreases |segs|
  {
    if segs == [] || n == 0 || segs[0].off + segs[0].len > |buf| then (s, buf)
    else
      var k := Min(n, segs[0].len);
      var (s', buf') := Copy(d, mode, s, addr, buf, segs[0].off, k);
      Dma(d, mode, s', Next(mode, addr, k), buf', segs[1..], n - k)
  }

  /** However the buffer is cut up, the card sees one copy. */
  lemma {:induction false} DmaIsCopy<S>(d: Device<S>, mode: Mode, s: S, addr: nat, buf: seq<Byte>,
                                        segs: seq<Segment>, off: nat, total: nat, n: nat)
    requires Partition(segs, off, total) && n <= total && off + total <= |buf|
    ensures Dma(d, mode, s, addr, buf, segs, n) == Copy(d, mode, s, addr, buf, off, n)
    decreases |segs|
  {
    if segs != [] && n > 0 {
      var k := Min(n, segs[0].len);
      var (s', buf') := Copy(d, mode, s, addr, buf, off, k);
      if n > k {
        DmaIsCopy(d, mode, s', Next(mode, addr, k), buf', segs[1..], off + segs[0].len, total - segs[0].len, n - k);
      }
      CopySplit(d, mode, s, addr, buf, off, k, n - k);
    }
  }

  // ----- one command -----

  /**
   What the environment answers to a command: whether memory for the scatter list was found, the
   errors reported by the host, the error bits of the R5 response and, when an error is reported,
   how many bytes went through nevertheless.
   */
  datatype Reply = Reply(alloc: bool, cmdError: int, dataError: int, r5Error: bool, r5Function: bool, r5Range: bool, moved: nat)

  const ERANGE: int := -34

  function Verdict(h: Host, reply: Reply): int {
    if reply.cmdError != 0 then reply.cmdError
    else if reply.dataError != 0 then reply.dataError
    else if h.spi then 0
    else if reply.r5Error then EIO
    else if reply.r5Function then EINVAL
    else if reply.r5Range then ERANGE
    else 0
  }

  /** One call of mmc_io_rw_extended and its result. */
  datatype Attempt = Attempt(addr: nat, blocks: nat, blksz: nat, ret: int)

  function DataSize(blocks: nat, blksz: nat): nat {
    (if blocks > 0 then blocks else 1) * blksz
  }

  function Fate(h: Host, reply: Reply, addr: nat, size: nat): int
    requires h.maxSegSize > 0
  {
    if addr > 0x1FFFF then EINVAL
    else if Segments(size, h.maxSegSize) > 1 && !reply.alloc then ENOMEM
    else Verdict(h, reply)
  }

  /** The mask test on the address is a bound. */
  lemma AddressMask(addr: nat)
    requires addr < U32
    ensures And(addr, HighMask(32, 17)) != 0 <==> addr > 0x1FFFF
  {
    Pow2Is32();
    AndHighMask(addr, 32, 17);
    Widths();
    LowBounds(addr, 17);
  }

  /** What the helper may ask for in one command. */
  predicate Askable(f: Func, blocks: nat, blksz: nat) {
    && f.num <= 7
    && (if blocks == 0 then 1 <= blksz <= 512 else blocks < 512 && 0 < blksz == f.curBlksize)
  }

  /** The card takes the size the host put into its own registers from the argument alone. */
  lemma SameSize(f: Func, write: bool, incr: bool, addr: nat, blocks: nat, blksz: nat)
    requires Askable(f, blocks, blksz) && addr <= 0x1FFFF
    ensures var args := Decode(Encode(write, f.num, incr, addr, blocks, blksz));
            && Mode(args.write, args.fn, args.incr) == Mode(write, f.num, incr) && args.addr == addr
            && CardBytes(args, f.curBlksize) == DataSize(blocks, blksz)
            && 0 < DataSize(blocks, blksz)
  {
    DecodeEncode(write, f.num, incr, addr, blocks, blksz);
    if blocks > 0 {
      OneLess(blocks, blksz);
    }
  }

  class Bus<S> {
    const device: Device<S>
    const env: nat -> Reply
    const host: Host
    var state: S
    var attempts: seq<Attempt>

    constructor (device: Device<S>, env: nat -> Reply, host: Host, state: S)
      ensures this.device == device && this.env == env && this.host == host && this.state == state && attempts == []
    {
      this.device, this.env, this.host, this.state, attempts := device, env, host, state, [];
    }

    /** The bus carries out a command: the card obeys the argument, the host its scatter list. */
    method Carry(arg: nat, f: Func, segs: seq<Segment>, buf: array<Byte>, limit: nat) returns (ghost moved: nat)
      modifies `state, buf
      ensures var args := Decode(arg);
              var mode := Mode(args.write, args.fn, args.incr);
              && moved == Min(limit, CardBytes(args, f.curBlksize))
              && (state, buf[..]) == Dma(device, mode, old(state), args.addr, old(buf[..]), segs, moved)
    {
      var args := Decode(arg);
      var n := Min(limit, CardBytes(args, f.curBlksize));
      var (s, bytes) := Dma(device, Mode(args.write, args.fn, args.incr), state, args.addr, buf[..], segs, n);
      state := s;
      forall i | 0 <= i < buf.Length {
        buf[i] := bytes[i];
      }
      assert buf[..] == bytes;
      moved := n;
    }

    /** mmc_io_rw_extended: success moves all the bytes asked for, failure a prefix of them. */
    method RwExtended(f: Func, write: bool, addr: nat, incr: bool, buf: array<Byte>, off: nat, blocks: nat, blksz: nat)
      returns (ret: int, ghost moved: nat)
      requires Askable(f, blocks, blksz) && addr < U32 && host.maxSegSize > 0 && off + DataSize(blocks, blksz) <= buf.Length
      modifies this, buf
      ensures ret == Fate(host, env(old(|attempts|)), addr, DataSize(blocks, blksz))
      ensures attempts == old(attempts) + [Attempt(addr, blocks, blksz, ret)]
      ensures moved <= DataSize(blocks, blksz) && (ret == 0 ==> moved == DataSize(blocks, blksz))
      ensures (state, buf[..]) == Copy(device, Mode(write, f.num, incr), old(state), addr, old(buf[..]), off, moved)
    {
      var reply := env(|attempts|);
      moved := 0;
      AddressMask(addr);
      if And(addr, HighMask(32, 17)) != 0 {
        ret := EINVAL;
      } else {
        SameSize(f, write, incr, addr, blocks, blksz);
        var left := DataSize(blocks, blksz);
        if Segments(left, host.maxSegSize) > 1 && !reply.alloc {
          ret := ENOMEM;
        } else {
          var segs := Scatter(off, left, host.maxSegSize);
          ret := Verdict(host, reply);
          var limit := if ret == 0 then left else reply.moved;
          DmaIsCopy(device, Mode(write, f.num, incr), state, addr, buf[..], segs, off, left, Min(limit, left));
          moved := Carry(Encode(write, f.num, incr, addr, blocks, blksz), f, segs, buf, limit);
        }
      }
      attempts := attempts + [Attempt(addr, blocks, blksz, ret)];
    }

    /** sdio_max_byte_size */
    function MaxByteSize(f: Func): nat {
      var mval := if f.blkszForByteMode then Min(host.maxBlkSize, f.curBlksize) else Min(host.maxBlkSize, f.maxBlksize);
      if f.broken512 then Min(mval, 511) else Min(mval, 512)
    }

    /** The sizes a working host and function have; with a zero among them the loops would ask for nothing, forever. */
    predicate Sized(f: Func) {
      && host.maxBlkSize > 0 && host.maxBlkCount > 0 && host.maxSegSize > 0
      && 0 < f.curBlksize <= 0xFFFF && f.maxBlksize > 0
    }

    /** No attempt before the last of this call failed, and each ended as the environment had it. */
    ghost predicate Attempted(before: nat, f: Func, ret: int)
      reads this
      requires host.maxSegSize > 0
    {
      && before <= |attempts|
      && (forall k :: before <= k < |attempts| ==>
            && attempts[k].ret == Fate(host, env(k), attempts[k].addr, DataSize(attempts[k].blocks, attempts[k].blksz))
            && attempts[k].blocks <= host.maxBlkCount
            && (if attempts[k].blocks > 0 then f.multiBlock && attempts[k].blksz == f.curBlksize
                else 0 < attempts[k].blksz <= MaxByteSize(f))
            && (k < |attempts| - 1 ==> attempts[k].ret == 0))
      && (if |attempts| > before then attempts[|attempts| - 1].ret == ret else ret == 0)
    }

    /** The block count of the next command and the bytes it stands for. */
    lemma BlocksFit(remainder: nat, blksize: nat, limit: nat)
      requires 0 < blksize <= 0xFFFF && remainder >= blksize && 0 < limit <= 511
      ensures var blocks := Min(Quot(remainder, blksize), limit);
              0 < blocks && 0 < DataSize(blocks, blksize) <= remainder && DataSize(blocks, blksize) <= 511 * 0xFFFF
    {
      QuotRemJoin(remainder, blksize);
      var q := Quot(remainder, blksize);
      var blocks := Min(q, limit);
      assert blocks * blksize <= q * blksize by { Product(q - blocks, blksize); }
      OneLess(blocks, blksize);
      Product(511 - blocks, blksize);
    }

    lemma Product(a: nat, b: nat)
      ensures forall x: nat :: (x + a) * b == x * b + a * b
      ensures a * b >= 0
    {
    }

    /** The first done bytes have been copied, by attempts that all succeeded so far. */
    ghost predicate Progress(f: Func, mode: Mode, s0: S, addr0: nat, buf0: seq<Byte>, base: nat, done: nat, now: seq<Byte>, ret: int)
      reads this
      requires host.maxSegSize > 0
    {
      && done <= |buf0| && (state, now) == Copy(device, mode, s0, addr0, buf0, 0, done)
      && Attempted(base, f, ret)
    }

    /** One more command of the transfer. */
    method Piece(f: Func, mode: Mode, addr: nat, buf: array<Byte>, off: nat, blocks: nat, blksz: nat,
                 ghost s0: S, ghost addr0: nat, ghost buf0: seq<Byte>, ghost base: nat)
      returns (ret: int, ghost moved: nat)
      requires Sized(f) && Askable(f, blocks, blksz) && mode.fn == f.num && off + DataSize(blocks, blksz) <= buf.Length
      requires if blocks > 0 then f.multiBlock && blocks <= host.maxBlkCount else blksz <= MaxByteSize(f)
      requires addr == Next(mode, addr0, off) && addr < U32 && |buf0| == buf.Length
      requires Progress(f, mode, s0, addr0, buf0, base, off, buf[..], 0)
      modifies this, buf
      ensures Progress(f, mode, s0, addr0, buf0, base, off + moved, buf[..], ret) && old(attempts) <= attempts
      ensures moved <= DataSize(blocks, blksz) && (ret == 0 ==> moved == DataSize(blocks, blksz))
      ensures ret == 0 ==> addr <= 0x1FFFF
    {
      ret, moved := RwExtended(f, mode.write, addr, mode.incr, buf, off, blocks, blksz);
      CopySplit(device, mode, s0, addr0, buf0, 0, off, moved);
    }

    /**
     sdio_io_rw_ext_helper. On success the pieces make up one unsplit copy of the buffer, at the
     addresses that copy would use; on failure exactly a prefix of it took place. Only a failed
     piece, or a function number above 7, makes the whole fail.
     */
    method RwExtHelper(f: Func, write: bool, addr0: nat, incr: bool, buf: array<Byte>) returns (ret: int, ghost moved: nat)
      requires Sized(f) && addr0 < U32
      modifies this, buf
      ensures moved <= buf.Length && (ret == 0 ==> moved == buf.Length)
      ensures (state, buf[..]) == Copy(device, Mode(write, f.num, incr), old(state), addr0, old(buf[..]), 0, moved)
      ensures if f.num > 7 then ret == EINVAL && attempts == old(attempts) else Attempted(old(|attempts|), f, ret)
      ensures old(attempts) <= attempts
    {
      moved := 0;
      if f.num > 7 {
        return EINVAL, 0;
      }
      var mode := Mode(write, f.num, incr);
      ghost var s0, buf0, base := state, buf[..], |attempts|;
      var remainder := buf.Length;
      var addr := addr0;
      ret := 0;
      if f.multiBlock && remainder > MaxByteSize(f) {
        var maxBlocks := Min(host.maxBlkCount, 511);
        while remainder >= f.curBlksize
          invariant 0 <= remainder <= buf.Length && moved == buf.Length - remainder
          invariant addr == Next(mode, addr0, moved) && addr < U32
          invariant Progress(f, mode, s0, addr0, buf0, base, moved, buf[..], 0) && old(attempts) <= attempts
          decreases remainder
        {
          BlocksFit(remainder, f.curBlksize, maxBlocks);
          var blocks := Min(Quot(remainder, f.curBlksize), maxBlocks);
          var size := DataSize(blocks, f.curBlksize);
          ghost var piece: nat;
          ret, piece := Piece(f, mode, addr, buf, buf.Length - remainder, blocks, f.curBlksize, s0, addr0, buf0, base);
          moved := moved + piece;
          if ret != 0 {
            return;
          }
          remainder := remainder - size;
          addr := if incr then addr + size else addr;
        }
      }
      while remainder > 0
        invariant 0 <= remainder <= buf.Length && moved == buf.Length - remainder
        invariant addr == Next(mode, addr0, moved) && addr < U32
        invariant ret == 0 && Progress(f, mode, s0, addr0, buf0, base, moved, buf[..], 0) && old(attempts) <= attempts
        decreases remainder
      {
        var size := Min(remainder, MaxByteSize(f));
        ghost var piece: nat;
        ret, piece := Piece(f, mode, addr, buf, buf.Length - remainder, 0, size, s0, addr0, buf0, base);
        moved := moved + piece;
        if ret != 0 {
          return;
        }
        remainder := remainder - size;
        addr := if incr then addr + size else addr;
      }
    }
  }
}
