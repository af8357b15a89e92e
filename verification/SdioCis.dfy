/**
 The card information structure of an SDIO card: the tuples, what the core parses of them, and
 the walk along the chain in sdio_read_cis as a function of what the card answers.
 */
module SdioCis {
  import opened Basics

  type Byte = b: nat | b < 256
  type Errno = e: int | e != 0 witness EIO

  datatype Reading = Got(value: Byte) | Fail(err: Errno)

  /** The common structure belongs to the card, the others to a function. */
  datatype Owner = Card | Func(num: nat)

  /**
   What the surroundings answer: each register byte, whether memory is found for the tuple at an
   address and for its strings, and the SDIO version of the card.
   */
  datatype Env = Env(read: nat -> Reading, kmalloc: nat -> bool, kzalloc: nat -> bool, vsn: nat)

  const REV_1_00: nat := 0
  const REV_1_10: nat := 1
  const HZ_MSECS: nat := 1000

  /** mmc_io_rw_direct refuses addresses beyond 17 bits. */
  function Direct(env: Env, addr: nat): Reading {
    if addr > 0x1FFFF then Fail(EINVAL) else env.read(addr)
  }

  datatype Data = Bytes(bytes: seq<Byte>) | NoData(err: Errno)

  function ReadData(env: Env, at: nat, n: nat): (d: Data)
    ensures d.Bytes? ==> |d.bytes| == n
    decreases n
  {
    if n == 0 then Bytes([])
    else match Direct(env, at)
      case Fail(e) => NoData(e)
      case Got(b) => match ReadData(env, at + 1, n - 1)
        case NoData(e) => NoData(e)
        case Bytes(bs) => Bytes([b] + bs)
  }

  // ----- what the core takes from the tuples it knows -----

  datatype Info = Info(vendor: nat, device: nat, blksize: nat, maxDtr: nat, maxBlksize: nat, enableTimeout: nat,
                       strings: seq<seq<Byte>>)

  const SPEED_VAL: seq<nat> := [0, 10, 12, 13, 15, 20, 25, 30, 35, 40, 45, 50, 55, 60, 70, 80]
  const SPEED_UNIT: seq<nat> := [10000, 100000, 1000000, 10000000, 0, 0, 0, 0]

  function Word(low: Byte, high: Byte): nat {
    low + 256 * high
  }

  /** Bytes before the first one equal to b. */
  function Before(bs: seq<Byte>, b: Byte): (n: nat)
    ensures n <= |bs| && (n < |bs| ==> bs[n] == b)
  {
    if bs == [] || bs[0] == b then 0 else 1 + Before(bs[1..], b)
  }

  lemma {:induction false} BeforeMeans(bs: seq<Byte>, b: Byte)
    ensures b !in bs[..Before(bs, b)]
  {
    if bs != [] && bs[0] != b {
      BeforeMeans(bs[1..], b);
      assert bs[..Before(bs, b)] == [bs[0]] + bs[1..][..Before(bs[1..], b)];
    }
  }

  /** The null-terminated strings at the start of bs; what follows the last null is ignored. */
  function Strings(bs: seq<Byte>): seq<seq<Byte>> {
    var n := Before(bs, 0);
    if n == |bs| then [] else [bs[..n]] + Strings(bs[n + 1..])
  }

  function Joined(strings: seq<seq<Byte>>): seq<Byte> {
    if strings == [] then [] else strings[0] + [0] + Joined(strings[1..])
  }

  /** What follows the last null. */
  function Garbage(bs: seq<Byte>): seq<Byte> {
    var n := Before(bs, 0);
    if n == |bs| then bs else Garbage(bs[n + 1..])
  }

  lemma {:induction false} BeforeIs(bs: seq<Byte>, b: Byte, n: nat)
    requires n <= |bs| && b !in bs[..n] && (n < |bs| ==> bs[n] == b)
    ensures Before(bs, b) == n
    decreases n
  {
    if n > 0 {
      assert bs[0] in bs[..n];
      assert bs[1..][..n - 1] == bs[..n][1..];
      BeforeIs(bs[1..], b, n - 1);
    }
  }

  lemma StringsCut(head: seq<Byte>, rest: seq<Byte>)
    requires 0 !in head
    ensures Strings(head + [0] + rest) == [head] + Strings(rest)
    ensures Garbage(head + [0] + rest) == Garbage(rest)
  {
    var bs := head + [0] + rest;
    assert bs[..|head|] == head && bs[|head| + 1..] == rest;
    BeforeIs(bs, 0, |head|);
  }

  /** The strings are exactly the pieces between nulls: put together again they are bs up to its last null. */
  lemma {:induction false} StringsExact(bs: seq<Byte>)
    ensures bs == Joined(Strings(bs)) + Garbage(bs)
    ensures 0 !in Garbage(bs) && forall s :: s in Strings(bs) ==> 0 !in s
    decreases |bs|
  {
    var n := Before(bs, 0);
    BeforeMeans(bs, 0);
    if n < |bs| {
      var head, rest := bs[..n], bs[n + 1..];
      assert bs == head + [0] + rest;
      StringsCut(head, rest);
      StringsExact(rest);
      JoinedFirst(head, Strings(rest), Garbage(rest));
    } else {
      assert bs[..n] == bs;
    }
  }

  lemma JoinedFirst(head: seq<Byte>, strings: seq<seq<Byte>>, garbage: seq<Byte>)
    ensures Joined([head] + strings) + garbage == head + [0] + (Joined(strings) + garbage)
  {
    assert ([head] + strings)[1..] == strings;
  }

  /** TPLLV1_INFO: after two version bytes, up to 0xff. */
  function InfoField(data: seq<Byte>): seq<Byte>
    requires |data| >= 2
  {
    data[2..][..Before(data[2..], 0xff)]
  }

  /** Queued for the function driver: tuples the core does not know, or knows and does not parse. */
  predicate Unparsed(code: Byte, data: seq<Byte>) {
    || (code == 0x21 && |data| >= 2)
    || (code == 0x91 && |data| >= 2)
    || (code == 0x22 && |data| >= 1 && (data[0] !in {0x00, 0x01, 0x04} || (data[0] == 0x04 && |data| >= 8)))
    || code !in {0x15, 0x20, 0x21, 0x22, 0x91}
  }

  /** The result of cis_tpl_parse on the tuple at an address. */
  function Verdict(env: Env, owner: Owner, at: nat, code: Byte, data: seq<Byte>): int {
    var size := |data|;
    match code
    case 0x15 => if size < 3 then EINVAL else if Strings(InfoField(data)) != [] && !env.kzalloc(at) then ENOMEM else 0
    case 0x20 => if size < 4 then EINVAL else 0
    case 0x21 => if size < 2 then EINVAL else EILSEQ
    case 0x91 => if size < 2 then EINVAL else EILSEQ
    case 0x22 => if size < 1 then EINVAL else ExtensionVerdict(env, owner, data)
    case _ => ENOENT
  }

  /** A function extension goes by its first byte. */
  function ExtensionVerdict(env: Env, owner: Owner, data: seq<Byte>): int
    requires data != []
  {
    var size := |data|;
    match data[0]
    case 0x00 => if size < 4 || owner != Card then EINVAL else 0
    case 0x01 => if owner == Card || !FunceLong(env.vsn, size) then EINVAL else 0
    case 0x04 => if size < 8 then EINVAL else EILSEQ
    case _ => ENOENT
  }

  /** Long enough for its version; a 28-byte extension on a version 1.1 card passes for version 1.0. */
  predicate FunceLong(vsn: nat, size: nat) {
    size >= (if vsn == REV_1_00 then 28 else 42) || (size == 28 && vsn == REV_1_10)
  }

  /** The fields a successfully parsed tuple leaves behind. */
  function Learn(env: Env, owner: Owner, at: nat, code: Byte, data: seq<Byte>, info: Info): Info {
    if Verdict(env, owner, at, code, data) != 0 then info
    else if code == 0x15 then
      (if Strings(InfoField(data)) == [] then info else info.(strings := Strings(InfoField(data))))
    else if code == 0x20 then info.(vendor := Word(data[0], data[1]), device := Word(data[2], data[3]))
    else if data[0] == 0x00 then
      info.(blksize := Word(data[1], data[2]), maxDtr := SPEED_VAL[data[3] / 8 % 16] * SPEED_UNIT[data[3] % 8])
    else
      info.(maxBlksize := Word(data[12], data[13]),
            enableTimeout := if env.vsn > REV_1_00 && |data| != 28 then Word(data[28], data[29]) * 10 else HZ_MSECS)
  }

  lemma UnparsedVerdict(env: Env, owner: Owner, at: nat, code: Byte, data: seq<Byte>)
    ensures Unparsed(code, data) <==> Verdict(env, owner, at, code, data) in {EILSEQ, ENOENT}
  {
  }

  // ----- the chain -----

  datatype Tuple = Tuple(code: Byte, data: seq<Byte>)

  /**
   What sdio_read_cis makes of the chain from ptr on: the tuples queued, the result, and whether the
   exit taken still links in the common tuples.
   */
  datatype Walk = Walk(queued: seq<Tuple>, ret: int, link: bool, info: Info)

  function Chain(env: Env, owner: Owner, ptr: nat, info: Info): Walk
    decreases 0x20000 - Min(ptr, 0x20000)
  {
    match Direct(env, ptr)
    case Fail(e) => Walk([], e, true, info)
    case Got(code) =>
      if code == 0xff then Walk([], 0, true, info)
      else if code == 0x00 then Chain(env, owner, ptr + 1, info)
      else match Direct(env, ptr + 1)
        case Fail(e) => Walk([], e, true, info)
        case Got(size) =>
          if size == 0xff then Walk([], 0, true, info)
          else if !env.kmalloc(ptr) then Walk([], ENOMEM, false, info)
          else match ReadData(env, ptr + 2, size)
            case NoData(e) => Walk([], e, true, info)
            case Bytes(data) =>
              var ret := Verdict(env, owner, ptr, code, data);
              if ret == EILSEQ || ret == ENOENT then
                var rest := Chain(env, owner, ptr + 2 + size, info);
                rest.(queued := [Tuple(code, data)] + rest.queued)
              else if ret == 0 then Chain(env, owner, ptr + 2 + size, Learn(env, owner, ptr, code, data, info))
              else Walk([], ret, true, info)
  }

  // ----- the same chain as bytes in the card -----

  datatype Item = Null | Entry(code: Byte, data: seq<Byte>)

  function Image(item: Item): seq<Byte>
    requires item.Entry? ==> |item.data| < 255
  {
    match item
    case Null => [0x00]
    case Entry(code, data) => [code, |data|] + data
  }

  /** The card holds these bytes at an address. */
  predicate Holds(env: Env, at: nat, bytes: seq<Byte>) {
    forall i :: 0 <= i < |bytes| ==> Direct(env, at + i) == Got(bytes[i])
  }

  /** An item the walk goes past: a null, or a tuple that gets its memory and is parsed or queued. */
  predicate Passed(env: Env, owner: Owner, at: nat, item: Item) {
    match item
    case Null => true
    case Entry(code, data) =>
      && code != 0x00 && code != 0xff && |data| < 255 && env.kmalloc(at)
      && Verdict(env, owner, at, code, data) in {0, EILSEQ, ENOENT}
  }

  /** The items lie one behind the other from at to end, and the walk goes past all of them. */
  predicate LaidOut(env: Env, owner: Owner, at: nat, items: seq<Item>, end: nat)
    decreases |items|
  {
    if items == [] then at == end
    else
      && Passed(env, owner, at, items[0]) && Holds(env, at, Image(items[0]))
      && LaidOut(env, owner, at + |Image(items[0])|, items[1..], end)
  }

  /** The tuples for the function driver among the items. */
  function Queue(items: seq<Item>): seq<Tuple> {
    if items == [] then []
    else if items[0].Entry? && Unparsed(items[0].code, items[0].data) then
      [Tuple(items[0].code, items[0].data)] + Queue(items[1..])
    else Queue(items[1..])
  }

  /** Why the walk stops at an address: a terminator, or the first thing that fails. */
  predicate Stops(env: Env, owner: Owner, at: nat, ret: int, link: bool) {
    match Direct(env, at)
    case Fail(e) => ret == e && link
    case Got(code) =>
      if code == 0xff then ret == 0 && link
      else code != 0x00 && match Direct(env, at + 1)
        case Fail(e) => ret == e && link
        case Got(size) =>
          if size == 0xff then ret == 0 && link
          else if !env.kmalloc(at) then ret == ENOMEM && !link
          else match ReadData(env, at + 2, size)
            case NoData(e) => ret == e && link
            case Bytes(data) => ret == Verdict(env, owner, at, code, data) && ret !in {0, EILSEQ, ENOENT} && link
  }

  lemma {:induction false} ReadDataIff(env: Env, at: nat, bytes: seq<Byte>)
    ensures ReadData(env, at, |bytes|) == Bytes(bytes) <==> Holds(env, at, bytes)
    decreases |bytes|
  {
    if bytes != [] {
      ReadDataIff(env, at + 1, bytes[1..]);
      var rest := bytes[1..];
      if Direct(env, at) == Got(bytes[0]) && Holds(env, at + 1, rest) {
        forall i | 0 <= i < |bytes|
          ensures Direct(env, at + i) == Got(bytes[i])
        {
          assert i > 0 ==> Direct(env, at + 1 + (i - 1)) == Got(rest[i - 1]);
        }
      }
      if Holds(env, at, bytes) {
        assert Direct(env, at + 0) == Got(bytes[0]);
        forall i | 0 <= i < |rest|
          ensures Direct(env, at + 1 + i) == Got(rest[i])
        {
          assert Direct(env, at + (i + 1)) == Got(bytes[i + 1]);
        }
      }
      assert [bytes[0]] + bytes[1..] == bytes;
    }
  }

  /** A tuple is in the card just when its code, its length and its data read back. */
  lemma EntryHolds(env: Env, at: nat, code: Byte, data: seq<Byte>)
    requires |data| < 255
    ensures Holds(env, at, Image(Entry(code, data))) <==>
            Direct(env, at) == Got(code) && Direct(env, at + 1) == Got(|data|) && ReadData(env, at + 2, |data|) == Bytes(data)
  {
    var image := [code, |data|] + data;
    ReadDataIff(env, at + 2, data);
    if Holds(env, at, image) {
      assert Direct(env, at + 0) == Got(image[0]) && Direct(env, at + 1) == Got(image[1]);
      forall i | 0 <= i < |data|
        ensures Direct(env, at + 2 + i) == Got(data[i])
      {
        assert Direct(env, at + (i + 2)) == Got(image[i + 2]);
      }
    }
    if Direct(env, at) == Got(code) && Direct(env, at + 1) == Got(|data|) && Holds(env, at + 2, data) {
      forall i | 0 <= i < |image|
        ensures Direct(env, at + i) == Got(image[i])
      {
        assert i >= 2 ==> Direct(env, at + 2 + (i - 2)) == Got(data[i - 2]);
      }
    }
  }

  /** The items from ptr to where the walk stops. */
  ghost function Items(env: Env, owner: Owner, ptr: nat): (seq<Item>, nat)
    decreases 0x20000 - Min(ptr, 0x20000)
  {
    match Direct(env, ptr)
    case Fail(_) => ([], ptr)
    case Got(code) =>
      if code == 0xff then ([], ptr)
      else if code == 0x00 then
        var (rest, end) := Items(env, owner, ptr + 1);
        ([Null] + rest, end)
      else match Direct(env, ptr + 1)
        case Fail(_) => ([], ptr)
        case Got(size) =>
          if size == 0xff || !env.kmalloc(ptr) then ([], ptr)
          else match ReadData(env, ptr + 2, size)
            case NoData(_) => ([], ptr)
            case Bytes(data) =>
              if Verdict(env, owner, ptr, code, data) !in {0, EILSEQ, ENOENT} then ([], ptr)
              else
                var (rest, end) := Items(env, owner, ptr + 2 + size);
                ([Entry(code, data)] + rest, end)
  }

  function Taught(env: Env, owner: Owner, at: nat, item: Item, info: Info): Info {
    if item.Entry? && |item.data| < 255 then Learn(env, owner, at, item.code, item.data, info) else info
  }

  /** An item that is passed queues what it should, and the walk goes on behind it. */
  lemma ChainPasses(env: Env, owner: Owner, ptr: nat, info: Info, item: Item)
    requires Passed(env, owner, ptr, item) && Holds(env, ptr, Image(item))
    ensures var rest := Chain(env, owner, ptr + |Image(item)|, Taught(env, owner, ptr, item, info));
            Chain(env, owner, ptr, info) == rest.(queued := Queue([item]) + rest.queued)
  {
    match item
    case Null =>
      assert Direct(env, ptr + 0) == Got(Image(item)[0]);
    case Entry(code, data) =>
      EntryHolds(env, ptr, code, data);
      UnparsedVerdict(env, owner, ptr, code, data);
  }

  lemma ChainStops(env: Env, owner: Owner, ptr: nat, info: Info, ret: int, link: bool)
    requires Stops(env, owner, ptr, ret, link)
    ensures Chain(env, owner, ptr, info) == Walk([], ret, link, info)
  {
  }

  lemma QueueFirst(items: seq<Item>)
    requires items != []
    ensures Queue(items) == Queue([items[0]]) + Queue(items[1..])
  {
    assert [items[0]][1..] == [];
  }

  lemma {:induction false} ItemsLaidOut(env: Env, owner: Owner, ptr: nat)
    ensures LaidOut(env, owner, ptr, Items(env, owner, ptr).0, Items(env, owner, ptr).1)
    ensures Items(env, owner, Items(env, owner, ptr).1).0 == []
    decreases 0x20000 - Min(ptr, 0x20000)
  {
    var (items, end) := Items(env, owner, ptr);
    if items != [] {
      NullLaidOut(env, ptr);
      var next := ptr + |Image(items[0])|;
      if items[0].Entry? {
        EntryHolds(env, ptr, items[0].code, items[0].data);
      }
      ItemsLaidOut(env, owner, next);
      assert items[1..] == Items(env, owner, next).0;
    }
  }

  lemma NullLaidOut(env: Env, ptr: nat)
    ensures Direct(env, ptr) == Got(0x00) ==> Holds(env, ptr, Image(Null))
  {
  }

  lemma SomeStop(env: Env, owner: Owner, ptr: nat)
    requires Items(env, owner, ptr).0 == []
    ensures exists ret, link :: Stops(env, owner, ptr, ret, link)
  {
    var w := Chain(env, owner, ptr, Info(0, 0, 0, 0, 0, 0, []));
    assert Stops(env, owner, ptr, w.ret, w.link);
  }

  lemma {:induction false} ItemsMakeChain(env: Env, owner: Owner, ptr: nat, info: Info, items: seq<Item>, end: nat, ret: int, link: bool)
    requires LaidOut(env, owner, ptr, items, end) && Stops(env, owner, end, ret, link)
    ensures var w := Chain(env, owner, ptr, info);
            w.queued == Queue(items) && w.ret == ret && w.link == link
    decreases |items|
  {
    if items == [] {
      ChainStops(env, owner, ptr, info, ret, link);
    } else {
      ChainPasses(env, owner, ptr, info, items[0]);
      QueueFirst(items);
      ItemsMakeChain(env, owner, ptr + |Image(items[0])|, Taught(env, owner, ptr, items[0], info), items[1..], end, ret, link);
    }
  }

  /**
   The walk read as a statement about the card: it queues just the unknown or unparsed tuples, in
   order, of the items laid out before the first terminator or failure, and returns what stopped it.
   */
  lemma ChainExact(env: Env, owner: Owner, ptr: nat, info: Info, queued: seq<Tuple>, ret: int, link: bool)
    ensures (var w := Chain(env, owner, ptr, info); w.queued == queued && w.ret == ret && w.link == link) <==>
            exists items, end :: LaidOut(env, owner, ptr, items, end) && Stops(env, owner, end, ret, link) && queued == Queue(items)
  {
    ItemsLaidOut(env, owner, ptr);
    var (its, stop) := Items(env, owner, ptr);
    SomeStop(env, owner, stop);
    var r, l :| Stops(env, owner, stop, r, l);
    ItemsMakeChain(env, owner, ptr, info, its, stop, r, l);
    forall items, end | LaidOut(env, owner, ptr, items, end) && Stops(env, owner, end, ret, link)
      ensures var w := Chain(env, owner, ptr, info); w.queued == Queue(items) && w.ret == ret && w.link == link
    {
      ItemsMakeChain(env, owner, ptr, info, items, end, ret, link);
    }
  }
}
