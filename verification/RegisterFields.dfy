/** Bit fields of card registers kept in 32-bit words, most significant word first (UNSTUFF_BITS). */
module RegisterFields {
  import opened Bits

  ghost predicate Words(ws: seq<nat>) {
    forall i :: 0 <= i < |ws| ==> ws[i] < U32
  }

  /** The number the words spell. */
  function Join(ws: seq<nat>): nat {
    if ws == [] then 0 else Shl(Join(ws[..|ws| - 1]), 32) + ws[|ws| - 1]
  }

  /** The macro's mask, in 32 bits. */
  function FieldMask(size: nat): nat
    requires size <= 32
  {
    Wrap((if size < 32 then Pow2(size) else 0) - 1)
  }

  /** The body of UNSTUFF_BITS, given the word the field starts in and the one above it. */
  function Extract(word: nat, above: nat, shft: nat, size: nat): nat
    requires shft < 32 && size <= 32
  {
    var res := Shr(word, shft);
    And(if size + shft > 32 then Or(res, Low(Shl(above, (32 - shft) % 32), 32)) else res, FieldMask(size))
  }

  /** UNSTUFF_BITS */
  function Unstuff(resp: seq<nat>, start: nat, size: nat): nat
    requires |resp| >= 4 && 1 <= size <= 32 && start + size <= 128
  {
    var off := 3 - start / 32;
    var shft := start % 32;
    Extract(resp[off], if size + shft > 32 then resp[off - 1] else 0, shft, size)
  }

  // ----- shifting joined words -----

  lemma {:induction false} ShrPart(h: nat, x: nat, k: nat, s: nat)
    requires s <= k && x < Pow2(k)
    ensures Shr(Shl(h, k) + x, s) == Shl(h, k - s) + Shr(x, s)
    ensures Shr(x, s) < Pow2(k - s)
  {
    if s > 0 {
      assert (Shl(h, k) + x) / 2 == Shl(h, k - 1) + x / 2;
      ShrPart(h, x / 2, k - 1, s - 1);
    }
  }

  /** Low bits of a joined number: from the low part alone, or with the high part's own low bits on top. */
  lemma {:induction false} LowPart(h: nat, x: nat, k: nat, size: nat)
    requires x < Pow2(k)
    ensures size <= k ==> Low(Shl(h, k) + x, size) == Low(x, size)
    ensures size >= k ==> Low(Shl(h, k) + x, size) == Shl(Low(h, size - k), k) + x
  {
    if k > 0 && size > 0 {
      var y := Shl(h, k) + x;
      assert y / 2 == Shl(h, k - 1) + x / 2 && y % 2 == x % 2;
      LowPart(h, x / 2, k - 1, size - 1);
    }
  }

  lemma {:induction false} LowLow(x: nat, a: nat, b: nat)
    requires b <= a
    ensures Low(Low(x, a), b) == Low(x, b)
  {
    if b > 0 {
      LowLow(x / 2, a - 1, b - 1);
    }
  }

  lemma {:induction false} ShrJoin(ws: seq<nat>, k: nat)
    requires Words(ws) && k <= |ws|
    ensures Shr(Join(ws), 32 * k) == Join(ws[..|ws| - k])
  {
    if k == 0 {
      assert ws[..|ws|] == ws;
    } else {
      var front := ws[..|ws| - 1];
      ShrJoin(front, k - 1);
      assert front[..|front| - (k - 1)] == ws[..|ws| - k];
      Pow2Is32();
      JoinSplits(Join(front), ws[|ws| - 1], 32);
      ShrShr(Join(ws), 32, 32 * (k - 1));
    }
  }

  lemma MaskIs(size: nat)
    requires 1 <= size <= 32
    ensures FieldMask(size) == Pow2(size) - 1
  {
    Pow2Is32();
    Pow2Monotone(size, 32);
    if size < 32 {
      Pow2Monotone(size + 1, 32);
    }
  }

  /** A field of two joined words, read from the low word and, when it spills over, the one above. */
  lemma FieldOfTwo(high: nat, above: nat, word: nat, s: nat, size: nat)
    requires word < Pow2(32) && s < 32 && 1 <= size <= 32
    requires size + s > 32 ==> above == Low(high, 32)
    ensures Extract(word, above, s, size) == Low(Shr(Shl(high, 32) + word, s), size)
  {
    ShrPart(high, word, 32, s);
    if size + s <= 32 {
      InnerField(high, above, word, s, size);
    } else {
      ExtractSpilled(word, above, s, size);
      SpilledField(high, above, Shr(word, s), s, size);
    }
  }

  /** A field within one word. */
  lemma InnerField(high: nat, above: nat, word: nat, s: nat, size: nat)
    requires word < Pow2(32) && size + s <= 32 && 1 <= size && Shr(word, s) < Pow2(32 - s)
    ensures Extract(word, above, s, size) == Low(Shl(high, 32 - s) + Shr(word, s), size)
  {
    ExtractInner(word, above, s, size);
    AndMask(Shr(word, s), size);
    LowPart(high, Shr(word, s), 32 - s, size);
  }

  lemma ExtractInner(word: nat, above: nat, s: nat, size: nat)
    requires 1 <= size && size + s <= 32
    ensures Extract(word, above, s, size) == And(Shr(word, s), Pow2(size) - 1)
  {
    MaskIs(size);
  }

  lemma ExtractSpilled(word: nat, above: nat, s: nat, size: nat)
    requires s < 32 && 1 <= size <= 32 && size + s > 32
    ensures Extract(word, above, s, size) == And(Or(Shr(word, s), Low(Shl(above, 32 - s), 32)), Pow2(size) - 1)
  {
    MaskIs(size);
    assert (32 - s) % 32 == 32 - s;
  }

  /** What the macro or-s together of a field that spills over. */
  lemma SpillJoined(above: nat, x: nat, s: nat, k: nat)
    requires 0 < s < 32 && k == 32 - s && x < Pow2(k)
    ensures Or(x, Low(Shl(above, k), 32)) == Shl(Low(above, s), k) + x
  {
    LowPart(above, 0, k, 32);
    OrCommutes(x, Shl(Low(above, s), k));
    OrIsSum(Low(above, s), x, k);
  }

  lemma SpilledField(high: nat, above: nat, x: nat, s: nat, size: nat)
    requires 0 < s < 32 && 32 - s <= size <= 32 && x < Pow2(32 - s) && above == Low(high, 32)
    ensures And(Or(x, Low(Shl(above, 32 - s), 32)), Pow2(size) - 1) == Low(Shl(high, 32 - s) + x, size)
  {
    var k := 32 - s;
    SpillJoined(above, x, s, k);
    AndMask(Shl(Low(above, s), k) + x, size);
    SpilledLow(high, above, x, s, k, 32, size);
  }

  /** The low bits of a joined number only need the low bits of its high part. */
  lemma SpilledLow(high: nat, above: nat, x: nat, s: nat, k: nat, width: nat, size: nat)
    requires k + s == width && k <= size <= width && x < Pow2(k) && above == Low(high, width)
    ensures Low(Shl(Low(above, s), k) + x, size) == Low(Shl(high, k) + x, size)
  {
    LowPart(Low(above, s), x, k, size);
    LowPart(high, x, k, size);
    LowLow(above, s, size - k);
    LowLow(high, width, size - k);
  }

  lemma {:induction false} OrCommutes(x: nat, y: nat)
    ensures Or(x, y) == Or(y, x)
  {
    if x != 0 && y != 0 {
      OrCommutes(x / 2, y / 2);
    }
  }

  // ----- main results -----

  /** The macro reads bits start .. start + size of the 128-bit register; size 31 overflows a C int and is not used. */
  lemma UnstuffIsField(resp: seq<nat>, start: nat, size: nat)
    requires |resp| == 4 && Words(resp) && 1 <= size <= 32 && size != 31 && start + size <= 128
    ensures Unstuff(resp, start, size) == Low(Shr(Join(resp), start), size)
  {
    var w, s := start / 32, start % 32;
    assert start == 32 * w + s;
    var high := RegisterShifted(resp, w, s);
    FieldOfTwo(high, if size + s > 32 then resp[3 - w - 1] else 0, resp[3 - w], s, size);
  }

  /** The shifted register is two joined words, shifted by less than a word. */
  lemma RegisterShifted(resp: seq<nat>, w: nat, s: nat) returns (high: nat)
    requires |resp| == 4 && Words(resp) && w < 4
    ensures Shr(Join(resp), 32 * w + s) == Shr(Shl(high, 32) + resp[3 - w], s)
    ensures resp[3 - w] < Pow2(32) && (w < 3 ==> resp[3 - w - 1] == Low(high, 32))
  {
    WordAt(resp, w);
    ShrShr(Join(resp), 32 * w, s);
    high := Join(resp[..3 - w]);
    Pow2Is32();
  }

  /** The register shifted down by whole words, and the word above the one it then ends in. */
  lemma WordAt(resp: seq<nat>, w: nat)
    requires |resp| == 4 && Words(resp) && w < 4
    ensures Shr(Join(resp), 32 * w) == Shl(Join(resp[..3 - w]), 32) + resp[3 - w]
    ensures w < 3 ==> resp[3 - w - 1] == Low(Join(resp[..3 - w]), 32)
  {
    ShrJoin(resp, w);
    var top := resp[..4 - w];
    assert top[..|top| - 1] == resp[..3 - w];
    if w < 3 {
      var front := resp[..3 - w];
      Pow2Is32();
      JoinSplits(Join(front[..|front| - 1]), resp[3 - w - 1], 32);
    }
  }

  /** The same, in division and remainder. */
  lemma UnstuffIsQuotient(resp: seq<nat>, start: nat, size: nat)
    requires |resp| == 4 && Words(resp) && 1 <= size <= 32 && size != 31 && start + size <= 128
    ensures Unstuff(resp, start, size) == (Join(resp) / Pow2(start)) % Pow2(size)
  {
    UnstuffIsField(resp, start, size);
    ShrIsDiv(Join(resp), start);
    ShrIsDiv(Shr(Join(resp), start), size);
  }

  /** With 384 subtracted, the macro on the leading four words reads the field of the 512-bit SD status. */
  lemma UnstuffReadsSdStatus(raw: seq<nat>, start: nat, size: nat)
    requires |raw| == 16 && Words(raw) && 1 <= size <= 32 && size != 31 && 384 <= start && start + size <= 512
    ensures Unstuff(raw, start - 384, size) == Low(Shr(Join(raw), start), size)
  {
    var lead := raw[..4];
    UnstuffIsField(lead, start - 384, size);
    ShrJoin(raw, 12);
    assert raw[..|raw| - 12] == lead;
    ShrShr(Join(raw), 384, start - 384);
  }
}
