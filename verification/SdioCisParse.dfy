/** The tuple parsers of sdio_cis.c, as the loops over tables and strings that they are. */
module SdioCisParse {
  import opened Basics
  import opened SdioCis

  datatype Parser = Vers1 | Manfid | Funce | FunceCommon | FunceFunc | NoParser

  datatype Tpl = Tpl(code: Byte, minSize: nat, parse: Parser)

  const CIS_TPL_LIST: seq<Tpl> :=
    [Tpl(0x15, 3, Vers1), Tpl(0x20, 4, Manfid), Tpl(0x21, 2, NoParser), Tpl(0x22, 0, Funce), Tpl(0x91, 2, NoParser)]

  const CIS_TPL_FUNCE_LIST: seq<Tpl> :=
    [Tpl(0x00, 4, FunceCommon), Tpl(0x01, 0, FunceFunc), Tpl(0x04, 1 + 1 + 6, NoParser)]

  // ----- strings -----

  lemma CutSnoc(head: seq<Byte>, rest: seq<Byte>, b: Byte)
    requires 0 !in head
    ensures Strings(head + [0] + rest + [b]) == [head] + Strings(rest + [b])
    ensures Garbage(head + [0] + rest + [b]) == Garbage(rest + [b])
  {
    assert head + [0] + rest + [b] == head + [0] + (rest + [b]);
    StringsCut(head, rest + [b]);
  }

  lemma NoStringYet(bs: seq<Byte>, b: Byte)
    requires Before(bs, 0) == |bs|
    ensures Strings(bs + [b]) == if b == 0 then [bs] else []
    ensures Garbage(bs + [b]) == if b == 0 then [] else bs + [b]
  {
    BeforeMeans(bs, 0);
    assert bs[..|bs|] == bs;
    if b == 0 {
      assert bs + [0] == bs + [0] + [];
      StringsCut(bs, []);
    } else {
      assert (bs + [b])[..|bs| + 1] == bs + [b];
      BeforeIs(bs + [b], 0, |bs| + 1);
    }
  }

  /** What StringsSnoc says. */
  ghost predicate Snoc(bs: seq<Byte>, b: Byte) {
    && Strings(bs + [b]) == (if b == 0 then Strings(bs) + [Garbage(bs)] else Strings(bs))
    && Garbage(bs + [b]) == if b == 0 then [] else Garbage(bs) + [b]
  }

  lemma SnocBehind(head: seq<Byte>, rest: seq<Byte>, b: Byte)
    requires 0 !in head && Snoc(rest, b)
    ensures Snoc(head + [0] + rest, b)
  {
    StringsCut(head, rest);
    CutSnoc(head, rest, b);
    assert [head] + (Strings(rest) + [Garbage(rest)]) == ([head] + Strings(rest)) + [Garbage(rest)];
  }

  /** One more byte ends a string, or becomes part of what follows the last null. */
  lemma {:induction false} StringsSnoc(bs: seq<Byte>, b: Byte)
    ensures Snoc(bs, b)
    decreases |bs|
  {
    var n := Before(bs, 0);
    if n < |bs| {
      StringsSnoc(bs[n + 1..], b);
      BeforeMeans(bs, 0);
      SnocBehind(bs[..n], bs[n + 1..], b);
      assert bs == bs[..n] + [0] + bs[n + 1..];
    } else {
      NoStringYet(bs, b);
    }
  }

  /** The number of strings counts the nulls. */
  lemma NullCounts(bs: seq<Byte>, b: Byte)
    ensures |Strings(bs + [b])| == |Strings(bs)| + if b == 0 then 1 else 0
  {
    StringsSnoc(bs, b);
  }

  /** A string that ends inside the field ends at the same place when the field is not looked at. */
  lemma NextString(buf: seq<Byte>, size: nat, pos: nat)
    requires pos <= size <= |buf| && Strings(buf[pos..size]) != []
    ensures var n := Before(buf[pos..], 0);
            && pos + n < size
            && Strings(buf[pos..size]) == [buf[pos..pos + n]] + Strings(buf[pos + n + 1..size])
  {
    var field := buf[pos..size];
    var n := Before(field, 0);
    var head, rest := field[..n], field[n + 1..];
    BeforeMeans(field, 0);
    assert buf[pos..][..n] == head;
    BeforeIs(buf[pos..], 0, n);
    assert head == buf[pos..pos + n] && rest == buf[pos + n + 1..size];
  }

  lemma FieldEnds(buf: seq<Byte>, i: nat)
    requires i <= |buf| && 0xff !in buf[..i] && (i < |buf| ==> buf[i] == 0xff)
    ensures Before(buf, 0xff) == i
  {
    BeforeIs(buf, 0xff, i);
  }

  lemma CountStep(buf: seq<Byte>, i: nat)
    requires i < |buf|
    ensures |Strings(buf[..i + 1])| == |Strings(buf[..i])| + if buf[i] == 0 then 1 else 0
  {
    NullCounts(buf[..i], buf[i]);
    assert buf[..i + 1] == buf[..i] + [buf[i]];
  }

  /** The first loop of cistpl_vers_1: where the field ends, and how many strings it has. */
  method CountStrings(buf: seq<Byte>) returns (nrStrings: nat, size: nat)
    ensures size == Before(buf, 0xff) && nrStrings == |Strings(buf[..size])|
  {
    nrStrings, size := 0, 0;
    while size < |buf| && buf[size] != 0xff
      invariant size <= |buf| && 0xff !in buf[..size]
      invariant nrStrings == |Strings(buf[..size])|
      decreases |buf| - size
    {
      CountStep(buf, size);
      if buf[size] == 0 {
        nrStrings := nrStrings + 1;
      }
      size := size + 1;
    }
    FieldEnds(buf, size);
  }

  /** Of the strings wanted the first have been copied; the others begin at pos. */
  ghost predicate Copied(buf: seq<Byte>, size: nat, wanted: seq<seq<Byte>>, strings: seq<seq<Byte>>, pos: nat) {
    pos <= size <= |buf| && wanted == strings + Strings(buf[pos..size])
  }

  lemma CopyStep(buf: seq<Byte>, size: nat, wanted: seq<seq<Byte>>, strings: seq<seq<Byte>>, pos: nat)
    requires Copied(buf, size, wanted, strings, pos) && |strings| < |wanted|
    ensures var n := Before(buf[pos..], 0);
            pos + n < |buf| && Copied(buf, size, wanted, strings + [buf[pos..pos + n]], pos + n + 1)
  {
    NextString(buf, size, pos);
  }

  lemma CopyStarts(buf: seq<Byte>, size: nat)
    requires size <= |buf|
    ensures Copied(buf, size, Strings(buf[..size]), [], 0)
  {
    assert buf[0..size] == buf[..size];
  }

  lemma CopyEnds(buf: seq<Byte>, size: nat, wanted: seq<seq<Byte>>, strings: seq<seq<Byte>>, pos: nat)
    requires Copied(buf, size, wanted, strings, pos) && |strings| >= |wanted|
    ensures strings == wanted
  {
  }

  /** The second loop: copy that many strings, each up to its null. */
  method CopyStrings(buf: seq<Byte>, nrStrings: nat, ghost size: nat, ghost wanted: seq<seq<Byte>>)
    returns (strings: seq<seq<Byte>>)
    requires Copied(buf, size, wanted, [], 0) && nrStrings == |wanted|
    ensures strings == wanted
  {
    strings := [];
    var pos: nat := 0;
    while |strings| < nrStrings
      invariant Copied(buf, size, wanted, strings, pos) && |strings| <= nrStrings
      decreases nrStrings - |strings|
    {
      CopyStep(buf, size, wanted, strings, pos);
      var len := Before(buf[pos..], 0);
      strings := strings + [buf[pos..pos + len]];
      pos := pos + len + 1;
    }
    CopyEnds(buf, size, wanted, strings, pos);
  }

  /** cistpl_vers_1: count the strings of the field, find room for them, copy them one by one. */
  method ParseVers1(data: seq<Byte>, memory: bool, info: Info) returns (ret: int, info': Info)
    requires |data| >= 3
    ensures var strings := Strings(InfoField(data));
            && ret == (if strings != [] && !memory then ENOMEM else 0)
            && info' == (if ret != 0 || strings == [] then info else info.(strings := strings))
  {
    var buf := data[2..];
    var nrStrings, size := CountStrings(buf);
    if nrStrings == 0 {
      return 0, info;
    }
    if !memory {
      return ENOMEM, info;
    }
    CopyStarts(buf, size);
    var strings := CopyStrings(buf, nrStrings, size, Strings(buf[..size]));
    return 0, info.(strings := strings);
  }

  // ----- tables -----

  /** The table loop of cis_tpl_parse. */
  method Find(list: seq<Tpl>, code: Byte) returns (i: nat)
    ensures i <= |list| && (i < |list| ==> list[i].code == code)
    ensures forall j :: 0 <= j < i ==> list[j].code != code
  {
    i := 0;
    while i < |list| && list[i].code != code
      invariant i <= |list| && forall j :: 0 <= j < i ==> list[j].code != code
    {
      i := i + 1;
    }
  }

  /** cis_tpl_parse on the extension table: cistpl_funce_common, cistpl_funce_func. */
  method ParseExtension(env: Env, owner: Owner, at: nat, data: seq<Byte>, info: Info) returns (ret: int, info': Info)
    requires data != []
    ensures ret == ExtensionVerdict(env, owner, data) && info' == Learn(env, owner, at, 0x22, data, info)
  {
    info' := info;
    var i := Find(CIS_TPL_FUNCE_LIST, data[0]);
    if i == |CIS_TPL_FUNCE_LIST| {
      assert data[0] !in {0x00, 0x01, 0x04} by {
        var l := CIS_TPL_FUNCE_LIST;
        assert l[0].code != data[0] && l[1].code != data[0] && l[2].code != data[0];
      }
      return ENOENT, info;
    }
    var tpl := CIS_TPL_FUNCE_LIST[i];
    if |data| < tpl.minSize {
      return EINVAL, info;
    }
    match tpl.parse
    case FunceCommon =>
      if owner != Card {
        return EINVAL, info;
      }
      ret := 0;
      info' := info.(blksize := Word(data[1], data[2]), maxDtr := SPEED_VAL[data[3] / 8 % 16] * SPEED_UNIT[data[3] % 8]);
    case FunceFunc =>
      if owner == Card {
        return EINVAL, info;
      }
      var vsn := env.vsn;
      var minSize := if vsn == REV_1_00 then 28 else 42;
      if |data| == 28 && vsn == REV_1_10 {
        vsn := REV_1_00;
      } else if |data| < minSize {
        return EINVAL, info;
      }
      ret := 0;
      info' := info.(maxBlksize := Word(data[12], data[13]));
      if vsn > REV_1_00 {
        info' := info'.(enableTimeout := Word(data[28], data[29]) * 10);
      } else {
        info' := info'.(enableTimeout := HZ_MSECS);
      }
    case _ =>
      ret := EILSEQ;
  }

  /** cis_tpl_parse on a tuple of the chain: the result, and what the card or function structure has learned. */
  method ParseTuple(env: Env, owner: Owner, at: nat, code: Byte, data: seq<Byte>, info: Info) returns (ret: int, info': Info)
    ensures ret == Verdict(env, owner, at, code, data) && info' == Learn(env, owner, at, code, data, info)
  {
    info' := info;
    var i := Find(CIS_TPL_LIST, code);
    if i == |CIS_TPL_LIST| {
      assert code !in {0x15, 0x20, 0x21, 0x22, 0x91} by {
        assert CIS_TPL_LIST[0].code != code && CIS_TPL_LIST[1].code != code && CIS_TPL_LIST[2].code != code
               && CIS_TPL_LIST[3].code != code && CIS_TPL_LIST[4].code != code;
      }
      return ENOENT, info;
    }
    var tpl := CIS_TPL_LIST[i];
    if |data| < tpl.minSize {
      return EINVAL, info;
    }
    match tpl.parse
    case Vers1 =>
      ret, info' := ParseVers1(data, env.kzalloc(at), info);
    case Manfid =>
      ret := 0;
      info' := info.(vendor := Word(data[0], data[1]), device := Word(data[2], data[3]));
    case Funce =>
      if |data| < 1 {
        return EINVAL, info;
      }
      ret, info' := ParseExtension(env, owner, at, data, info);
    case _ =>
      ret := EILSEQ;
  }
}
