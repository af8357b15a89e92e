/** Placement of the transfer descriptors (cqhci_host_alloc_tdl, get_trans_desc). */
module CqDescriptors {
  import opened CqEngine
  import opened CqRuns

  /** Offset of a tag's transfer descriptors from trans_desc_base. */
  function TransDescOffset(descLen: nat, maxSegs: nat, tag: nat): nat {
    descLen * maxSegs * tag
  }

  /** data_size: room for one tag fewer than there are slots. */
  function TransDescArea(descLen: nat, maxSegs: nat): nat {
    descLen * maxSegs * (NUM_SLOTS - 1)
  }

  lemma BlocksInOrder(block: nat, i: nat, j: nat)
    requires i < j
    ensures block * i + block <= block * j
  {
    assert block * j == block * (i + 1) + block * (j - i - 1);
  }

  /** Two tags never share a transfer-descriptor byte. */
  lemma DescriptorsDisjoint(descLen: nat, maxSegs: nat, i: nat, j: nat)
    requires i < j
    ensures TransDescOffset(descLen, maxSegs, i) + descLen * maxSegs <= TransDescOffset(descLen, maxSegs, j)
  {
    BlocksInOrder(descLen * maxSegs, i, j);
  }

  /** The area holds the descriptors of every data tag exactly when slot 31 is set aside for direct commands. */
  lemma DescriptorsFit(descLen: nat, maxSegs: nat, dcmd: bool)
    requires descLen > 0 && maxSegs > 0
    ensures (forall tag :: 0 <= tag < CqeDepth(dcmd) ==>
               TransDescOffset(descLen, maxSegs, tag) + descLen * maxSegs <= TransDescArea(descLen, maxSegs))
            <==> dcmd
  {
    var block := descLen * maxSegs;
    assert block > 0;
    if dcmd {
      forall tag | 0 <= tag < CqeDepth(dcmd)
        ensures TransDescOffset(descLen, maxSegs, tag) + block <= TransDescArea(descLen, maxSegs)
      {
        DescriptorsDisjoint(descLen, maxSegs, tag, NUM_SLOTS - 1);
      }
    } else {
      var tag := NUM_SLOTS - 1;
      assert TransDescOffset(descLen, maxSegs, tag) + block > TransDescArea(descLen, maxSegs);
    }
  }
}
