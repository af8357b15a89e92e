/** Moving request data through the 64-bit buffer port of the Cavium host (do_read, do_write_request). */
module WordBuffer {
  import opened Bits

  type Byte = b: nat | b < 256

  function Flatten(segs: seq<seq<Byte>>): seq<Byte> {
    if segs == [] then [] else segs[0] + Flatten(segs[1..])
  }

  /** The number whose big-endian bytes are bs. */
  function BigEndian(bs: seq<Byte>): nat {
    if bs == [] then 0 else Shl(BigEndian(bs[..|bs| - 1]), 8) + bs[|bs| - 1]
  }

  /** Whole 64-bit words; a rest of fewer than eight bytes makes none. */
  function Pack(bs: seq<Byte>): seq<nat> {
    if |bs| < 8 then [] else [BigEndian(bs[..8])] + Pack(bs[8..])
  }

  /** Byte i of a word, counted from the most significant. */
  function ByteOf(word: nat, i: nat): Byte
    requires i < 8
  {
    LowBounds(Shr(word, 56 - 8 * i), 8);
    assert Pow2(8) == 256;
    Low(Shr(word, 56 - 8 * i), 8)
  }

  function Unpack(words: seq<nat>): (bs: seq<Byte>)
    ensures |bs| == 8 * |words|
  {
    if words == [] then [] else seq(8, i requires 0 <= i < 8 => ByteOf(words[0], i)) + Unpack(words[1..])
  }

  // ----- packing and unpacking are inverse -----

  lemma {:induction false} BigEndianJoin(a: seq<Byte>, b: seq<Byte>)
    ensures BigEndian(a + b) == Shl(BigEndian(a), 8 * |b|) + BigEndian(b)
    ensures BigEndian(b) < Pow2(8 * |b|)
  {
    if b == [] {
      assert a + b == a;
    } else {
      var front, last := b[..|b| - 1], b[|b| - 1];
      BigEndianJoin(a, front);
      assert (a + b)[..|a + b| - 1] == a + front;
      ShlAdd(Shl(BigEndian(a), 8 * |front|), BigEndian(front), 8);
      ShlShl(BigEndian(a), 8 * |front|, 8);
      ShlBound(BigEndian(front), 8 * |front|, 8);
      assert Pow2(8) == 256;
    }
  }

  lemma ByteOfBigEndian(bs: seq<Byte>, i: nat)
    requires |bs| == 8 && i < 8
    ensures ByteOf(BigEndian(bs), i) == bs[i]
  {
    var upto, rest := bs[..i + 1], bs[i + 1..];
    assert bs == upto + rest;
    BigEndianJoin(upto, rest);
    JoinSplits(BigEndian(upto), BigEndian(rest), 8 * |rest|);
    assert upto[..|upto| - 1] == bs[..i];
    assert Pow2(8) == 256;
    JoinSplits(BigEndian(bs[..i]), bs[i], 8);
  }

  /** Reading back what was written restores every byte. */
  lemma {:induction false} UnpackPack(bs: seq<Byte>)
    requires |bs| % 8 == 0
    ensures Unpack(Pack(bs)) == bs
  {
    if |bs| >= 8 {
      var head := bs[..8];
      forall i | 0 <= i < 8
        ensures ByteOf(BigEndian(head), i) == bs[i]
      {
        ByteOfBigEndian(head, i);
      }
      UnpackPack(bs[8..]);
    }
  }

  /** Packing grows by one word for every eight further bytes. */
  lemma {:induction false} PackSnoc(bs: seq<Byte>, n: nat)
    requires 8 * n + 8 <= |bs|
    ensures Pack(bs[..8 * n + 8]) == Pack(bs[..8 * n]) + [BigEndian(bs[8 * n..8 * n + 8])]
  {
    var longer, shorter := bs[..8 * n + 8], bs[..8 * n];
    if n == 0 {
      assert longer[..8] == bs[0..8] && longer[8..] == [];
    } else {
      var rest := bs[8..];
      PackSnoc(rest, n - 1);
      assert longer[..8] == shorter[..8];
      assert longer[8..] == rest[..8 * n] && shorter[8..] == rest[..8 * n - 8];
      assert rest[8 * n - 8..8 * n] == bs[8 * n..8 * n + 8];
    }
  }

  lemma {:induction false} PackIgnoresRest(bs: seq<Byte>, n: nat)
    requires 8 * n <= |bs| < 8 * n + 8
    ensures Pack(bs) == Pack(bs[..8 * n])
  {
    if n > 0 {
      assert bs[..8 * n][..8] == bs[..8];
      assert bs[..8 * n][8..] == bs[8..][..8 * (n - 1)];
      PackIgnoresRest(bs[8..], n - 1);
    }
  }

  // ----- the write loop -----

  /** The word under assembly: the bytes so far, from the top. */
  function Partial(bs: seq<Byte>): nat
    requires |bs| <= 8
  {
    Shl(BigEndian(bs), 64 - 8 * |bs|)
  }

  /** Or-ing one more byte into the word being assembled. */
  lemma ByteIn(cur: seq<Byte>, b: Byte)
    requires |cur| < 8
    ensures Or(Partial(cur), Shl(b, 56 - 8 * |cur|)) == Partial(cur + [b])
  {
    var k := 56 - 8 * |cur|;
    assert Pow2(8) == 256;
    ShlBound(b, 8, k);
    OrIsSum(BigEndian(cur), Shl(b, k), k + 8);
    ShlAdd(Shl(BigEndian(cur), 8), b, k);
    ShlShl(BigEndian(cur), 8, k);
    assert (cur + [b])[..|cur + [b]| - 1] == cur;
  }

  lemma PartialEnds(bs: seq<Byte>)
    ensures |bs| == 0 ==> Partial(bs) == 0
    ensures |bs| == 8 ==> Partial(bs) == BigEndian(bs)
  {
    ShlZero(64);
  }

  lemma {:induction false} ShlZero(k: nat)
    ensures Shl(0, k) == 0
  {
    if k > 0 {
      ShlZero(k - 1);
    }
  }

  /** What the iterator has still to deliver. */
  ghost predicate Ahead(flat: seq<Byte>, bytes: nat, seg: seq<Byte>, consumed: nat, later: seq<seq<Byte>>) {
    bytes <= |flat| && consumed <= |seg| && flat[bytes..] == seg[consumed..] + Flatten(later)
  }

  lemma Deliver(flat: seq<Byte>, bytes: nat, seg: seq<Byte>, consumed: nat, later: seq<seq<Byte>>)
    requires Ahead(flat, bytes, seg, consumed, later) && consumed < |seg|
    ensures bytes < |flat| && flat[bytes] == seg[consumed] && Ahead(flat, bytes + 1, seg, consumed + 1, later)
  {
    assert flat[bytes] == flat[bytes..][0];
    assert flat[bytes + 1..] == flat[bytes..][1..];
    assert (seg[consumed..] + Flatten(later))[1..] == seg[consumed + 1..] + Flatten(later);
  }

  /** sg_miter_next: on to the first byte of the next segment. */
  lemma NextSegment(flat: seq<Byte>, bytes: nat, seg: seq<Byte>, segs: seq<seq<Byte>>, next: nat)
    requires next < |segs| && Ahead(flat, bytes, seg, |seg|, segs[next..])
    ensures Ahead(flat, bytes, segs[next], 0, segs[next + 1..])
  {
    assert seg[|seg|..] == [];
    assert segs[next..][1..] == segs[next + 1..];
    assert segs[next][0..] == segs[next];
  }

  lemma NoSegmentLeft(flat: seq<Byte>, bytes: nat, seg: seq<Byte>)
    requires Ahead(flat, bytes, seg, |seg|, [])
    ensures bytes == |flat|
  {
    assert |flat[bytes..]| == 0;
  }

  /** One more byte in the word under assembly. */
  lemma WordGrows(flat: seq<Byte>, start: nat, bytes: nat)
    requires start <= bytes < |flat| && bytes < start + 8
    ensures Or(Partial(flat[start..bytes]), Shl(flat[bytes], 56 - 8 * (bytes - start))) == Partial(flat[start..bytes + 1])
  {
    ByteIn(flat[start..bytes], flat[bytes]);
    assert flat[start..bytes] + [flat[bytes]] == flat[start..bytes + 1];
  }

  /** The inner loop of do_write_request: bytes of this segment into the word, until one of them runs out. */
  method FillWord(seg: seq<Byte>, consumed0: nat, bytes0: nat, shift0: int, dat0: nat,
                  ghost flat: seq<Byte>, ghost later: seq<seq<Byte>>, ghost start: nat)
    returns (consumed: nat, bytes: nat, shift: int, dat: nat)
    requires Ahead(flat, bytes0, seg, consumed0, later) && start <= bytes0 <= start + 8
    requires shift0 == 56 - 8 * (bytes0 - start) && dat0 == Partial(flat[start..bytes0])
    ensures Ahead(flat, bytes, seg, consumed, later) && bytes0 <= bytes <= start + 8
    ensures shift == 56 - 8 * (bytes - start) && dat == Partial(flat[start..bytes])
    ensures consumed == |seg| || bytes == start + 8
    ensures consumed0 < |seg| && shift0 >= 0 ==> bytes > bytes0
  {
    consumed, bytes, shift, dat := consumed0, bytes0, shift0, dat0;
    while consumed < |seg| && shift >= 0
      invariant Ahead(flat, bytes, seg, consumed, later) && bytes0 <= bytes <= start + 8
      invariant shift == 56 - 8 * (bytes - start) && dat == Partial(flat[start..bytes])
      invariant bytes == bytes0 ==> consumed == consumed0 && shift == shift0
      decreases |seg| - consumed
    {
      Deliver(flat, bytes, seg, consumed, later);
      WordGrows(flat, start, bytes);
      dat := Or(dat, Shl(seg[consumed], shift));
      bytes := bytes + 1;
      consumed := consumed + 1;
      shift := shift - 8;
    }
  }

  /** The whole words among the first bytes of flat have been written; dat and shift hold the rest. */
  ghost predicate Assembling(flat: seq<Byte>, start: nat, bytes: nat, words: seq<nat>, shift: int, dat: nat) {
    && start == 8 * |words| && start <= bytes <= |flat| && bytes < start + 8
    && shift == 56 - 8 * (bytes - start) && dat == Partial(flat[start..bytes])
    && words == Pack(flat[..start])
  }

  /** A full word goes to the port and an empty one takes its place. */
  lemma WordFull(flat: seq<Byte>, start: nat, words: seq<nat>, dat: nat)
    requires start == 8 * |words| && start + 8 <= |flat| && words == Pack(flat[..start])
    requires dat == Partial(flat[start..start + 8])
    ensures Assembling(flat, start + 8, start + 8, words + [dat], 56, 0)
  {
    PackSnoc(flat, |words|);
    PartialEnds(flat[start..start + 8]);
    PartialEnds(flat[start + 8..start + 8]);
  }

  lemma AssembledWords(flat: seq<Byte>, start: nat, bytes: nat, words: seq<nat>, shift: int, dat: nat)
    requires Assembling(flat, start, bytes, words, shift, dat)
    ensures words == Pack(flat[..bytes])
  {
    PackIgnoresRest(flat[..bytes], |words|);
    assert flat[..bytes][..start] == flat[..start];
  }

  /**
   do_write_request over any segmentation: the words written are the big-endian packing of the
   bytes consumed, in order, and for whole words the bytes consumed are the first dataLen, or all
   there are.
   */
  method WriteRequest(segs: seq<seq<Byte>>, dataLen: nat) returns (words: seq<nat>, bytes: nat)
    ensures bytes <= |Flatten(segs)| && (bytes >= dataLen || bytes == |Flatten(segs)|)
    ensures words == Pack(Flatten(segs)[..bytes])
    ensures dataLen % 8 == 0 ==> bytes <= dataLen
  {
    ghost var flat, q, start := Flatten(segs), dataLen / 8, 0;
    var next: nat, seg: seq<Byte>, consumed: nat := 0, [], 0;
    var shift: int, dat: nat := 56, 0;
    words, bytes := [], 0;
    PartialEnds(flat[0..0]);
    while bytes < dataLen
      invariant next <= |segs| && Ahead(flat, bytes, seg, consumed, segs[next..])
      invariant Assembling(flat, start, bytes, words, shift, dat)
      invariant dataLen == 8 * q ==> bytes <= dataLen
      decreases |segs| - next + (|flat| - bytes)
    {
      if consumed >= |seg| {
        if next == |segs| {
          NoSegmentLeft(flat, bytes, seg);
          break;
        }
        NextSegment(flat, bytes, seg, segs, next);
        seg := segs[next];
        next := next + 1;
        consumed := 0;
      }
      consumed, bytes, shift, dat := FillWord(seg, consumed, bytes, shift, dat, flat, segs[next..], start);
      if shift < 0 {
        WordFull(flat, start, words, dat);
        words := words + [dat];
        shift := 56;
        dat := 0;
        start := bytes;
      }
    }
    AssembledWords(flat, start, bytes, words, shift, dat);
  }

  // ----- the read loop -----

  function Total(lens: seq<nat>): nat {
    if lens == [] then 0 else lens[0] + Total(lens[1..])
  }

  lemma {:induction false} UnpackAt(words: seq<nat>, k: nat, i: nat)
    requires k < |words| && i < 8
    ensures Unpack(words)[8 * k + i] == ByteOf(words[k], i)
  {
    if k > 0 {
      UnpackAt(words[1..], k - 1, i);
    }
  }

  lemma {:induction false} FlattenSnoc(segs: seq<seq<Byte>>, last: seq<Byte>)
    ensures Flatten(segs + [last]) == Flatten(segs) + last
  {
    if segs == [] {
      assert segs + [last] == [last] && [last][1..] == [];
      assert Flatten([last]) == last + [];
    } else {
      assert (segs + [last])[1..] == segs[1..] + [last];
      FlattenSnoc(segs[1..], last);
      assert segs[0] + (Flatten(segs[1..]) + last) == segs[0] + Flatten(segs[1..]) + last;
    }
  }

  /** The word last read and how much of it is still to be stored. */
  ghost predicate Draining(words: seq<nat>, bytes: nat, taken: nat, shift: int, dat: nat) {
    && bytes <= 8 * taken <= bytes + 8 && taken <= |words|
    && (shift < 0 <==> bytes == 8 * taken)
    && (shift >= 0 ==> taken > 0 && dat == words[taken - 1] && shift == 56 - 8 * (bytes - 8 * (taken - 1)))
  }

  /** The byte under the shift is the next one of the stream. */
  lemma NextByte(words: seq<nat>, bytes: nat, taken: nat, shift: int, dat: nat)
    requires Draining(words, bytes, taken, shift, dat) && shift >= 0
    ensures bytes < 8 * |words| && Low(Shr(dat, shift), 8) == Unpack(words)[bytes]
    ensures Draining(words, bytes + 1, taken, shift - 8, dat)
  {
    UnpackAt(words, taken - 1, bytes - 8 * (taken - 1));
  }

  /** The inner loop of do_read: bytes of the word into this buffer, until one of them runs out. */
  method DrainWord(length: nat, buf0: seq<Byte>, bytes0: nat, shift0: int, dat: nat,
                   ghost words: seq<nat>, ghost taken: nat, ghost before: nat)
    returns (buf: seq<Byte>, bytes: nat, shift: int)
    requires Draining(words, bytes0, taken, shift0, dat) && |buf0| <= length
    requires before <= bytes0 && buf0 == Unpack(words)[before..bytes0]
    ensures Draining(words, bytes, taken, shift, dat) && |buf| <= length
    ensures bytes0 <= bytes && buf == Unpack(words)[before..bytes]
    ensures |buf0| < length && shift0 >= 0 ==> bytes > bytes0
  {
    buf, bytes, shift := buf0, bytes0, shift0;
    while |buf| < length && shift >= 0
      invariant Draining(words, bytes, taken, shift, dat) && |buf| <= length
      invariant bytes0 <= bytes && buf == Unpack(words)[before..bytes]
      invariant bytes == bytes0 ==> shift == shift0
      decreases length - |buf|
    {
      NextByte(words, bytes, taken, shift, dat);
      buf := buf + [Low(Shr(dat, shift), 8)];
      bytes := bytes + 1;
      shift := shift - 8;
    }
  }

  /** The buffers filled so far hold the stream up to the current one. */
  ghost predicate Stored(lens: seq<nat>, next: nat, bufs: seq<seq<Byte>>, room: nat, stream: seq<Byte>, before: nat) {
    && next <= |lens| && before <= |stream| && Flatten(bufs) == stream[..before]
    && (if next == 0 then bufs == [] && room == 0 else |bufs| == next - 1 && room == lens[next - 1])
    && (forall i :: 0 <= i < |bufs| ==> |bufs[i]| == lens[i])
    && Total(lens) == before + room + Total(lens[next..])
  }

  /** The current buffer joins the finished ones; none has been opened before the first. */
  function Closed(next: nat, bufs: seq<seq<Byte>>, buf: seq<Byte>): seq<seq<Byte>> {
    if next == 0 then bufs else bufs + [buf]
  }

  lemma BufferClosed(lens: seq<nat>, next: nat, bufs: seq<seq<Byte>>, room: nat, stream: seq<Byte>, before: nat, bytes: nat)
    requires Stored(lens, next, bufs, room, stream, before) && before <= bytes <= |stream| && bytes - before <= room
    ensures var all := Closed(next, bufs, stream[before..bytes]);
            && |all| == next && Flatten(all) == stream[..bytes]
            && (next > 0 ==> |all[next - 1]| <= lens[next - 1])
            && (forall i :: 0 <= i < next - 1 ==> |all[i]| == lens[i])
  {
    if next > 0 {
      FlattenSnoc(bufs, stream[before..bytes]);
      assert stream[..before] + stream[before..bytes] == stream[..bytes];
    } else {
      assert before == bytes;
    }
  }

  /** sg_miter_next: the buffer is full and the next one is opened. */
  lemma BufferOpened(lens: seq<nat>, next: nat, bufs: seq<seq<Byte>>, room: nat, stream: seq<Byte>, before: nat, bytes: nat)
    requires Stored(lens, next, bufs, room, stream, before) && before <= bytes <= |stream| && bytes - before == room
    requires next < |lens|
    ensures Stored(lens, next + 1, Closed(next, bufs, stream[before..bytes]), lens[next], stream, bytes)
  {
    BufferClosed(lens, next, bufs, room, stream, before, bytes);
    assert lens[next..][1..] == lens[next + 1..];
  }

  /**
   do_read into buffers of the given lengths: whatever the lengths, the bytes stored are the
   unpacked words in order, each buffer but the last is full, and it ends at dataLen or the room there is.
   */
  method ReadRequest(lens: seq<nat>, dataLen: nat, words: seq<nat>) returns (bufs: seq<seq<Byte>>, bytes: nat)
    requires dataLen <= 8 * |words|
    ensures |bufs| <= |lens| && (bufs != [] ==> |bufs[|bufs| - 1]| <= lens[|bufs| - 1])
    ensures forall i :: 0 <= i < |bufs| - 1 ==> |bufs[i]| == lens[i]
    ensures bytes <= 8 * |words| && Flatten(bufs) == Unpack(words)[..bytes]
    ensures bytes >= dataLen || bytes == Total(lens)
    ensures dataLen % 8 == 0 ==> bytes <= dataLen
  {
    ghost var stream, q, before := Unpack(words), dataLen / 8, 0;
    var next: nat, length: nat := 0, 0;
    var shift: int, dat: nat, taken: nat := -1, 0, 0;
    var buf: seq<Byte> := [];
    bufs, bytes := [], 0;
    while bytes < dataLen
      invariant before <= bytes <= |stream| && |buf| <= length && buf == stream[before..bytes]
      invariant Stored(lens, next, bufs, length, stream, before)
      invariant Draining(words, bytes, taken, shift, dat)
      invariant dataLen == 8 * q ==> 8 * taken <= dataLen
      decreases |lens| - next + (|stream| - bytes)
    {
      if |buf| >= length {
        if next == |lens| {
          break;
        }
        BufferOpened(lens, next, bufs, length, stream, before, bytes);
        bufs := Closed(next, bufs, buf);
        length := lens[next];
        next := next + 1;
        buf := [];
        before := bytes;
      }
      if shift < 0 {
        dat := words[taken];
        taken := taken + 1;
        shift := 56;
      }
      buf, bytes, shift := DrainWord(length, buf, bytes, shift, dat, words, taken, before);
    }
    BufferClosed(lens, next, bufs, length, stream, before, bytes);
    bufs := Closed(next, bufs, buf);
  }

  /** Written through one segmentation and read back through any other of the same whole-word length, data is unchanged. */
  method RoundTrip(segs: seq<seq<Byte>>, lens: seq<nat>) returns (bufs: seq<seq<Byte>>)
    requires |Flatten(segs)| % 8 == 0 && Total(lens) == |Flatten(segs)|
    ensures Flatten(bufs) == Flatten(segs)
  {
    var n := |Flatten(segs)|;
    var words, sent := WriteRequest(segs, n);
    assert Flatten(segs)[..sent] == Flatten(segs);
    UnpackPack(Flatten(segs));
    var got: nat;
    bufs, got := ReadRequest(lens, n, words);
    assert Unpack(words)[..got] == Flatten(segs);
  }
}
