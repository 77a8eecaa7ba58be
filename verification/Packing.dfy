/** Descriptor table entries: 32-bit fields in memory against descriptors as the
    engine builds them. */
module Packing {
  import opened DmaSpec
  import opened DmaInvariant

  // struct dma_desc_entry without its reserved words
  datatype Entry = Entry(srcLow: bv32, srcHigh: bv32, destLow: bv32, destHigh: bv32, ctl: bv32)

  /** set_read_desc and set_write_desc. */
  function Pack(src: bv64, dest: bv64, len: bv32, id: bv32): Entry {
    Entry((src & 0xFFFF_FFFF) as bv32, (src >> 32) as bv32, (dest & 0xFFFF_FFFF) as bv32, (dest >> 32) as bv32,
          len | (id << 18))
  }

  function Join(low: bv32, high: bv32): bv64 { ((high as bv64) << 32) | low as bv64 }

  /** What the controller reads: an 18-bit length below a 14-bit id. */
  function Length(e: Entry): bv32 { e.ctl & 0x3_FFFF }

  function Id(e: Entry): bv32 { e.ctl >> 18 }

  predicate Fits(len: bv32, id: bv32) { len < 0x4_0000 && id < 0x4000 }

  lemma JoinSplit(a: bv64)
    ensures Join((a & 0xFFFF_FFFF) as bv32, (a >> 32) as bv32) == a
  {}

  /** The addresses always come back. Length and id come back exactly when the
      length fits 18 bits and the id 14. */
  lemma PackExact(src: bv64, dest: bv64, len: bv32, id: bv32)
    ensures var e := Pack(src, dest, len, id);
            Join(e.srcLow, e.srcHigh) == src && Join(e.destLow, e.destHigh) == dest &&
            (Length(e) == len && Id(e) == id <==> Fits(len, id))
  {
    JoinSplit(src);
    JoinSplit(dest);
    hide Join;
  }

  /** Different descriptors make different entries. */
  lemma PackUnique(src: bv64, dest: bv64, len: bv32, id: bv32, src': bv64, dest': bv64, len': bv32, id': bv32)
    requires Fits(len, id) && Fits(len', id') && Pack(src, dest, len, id) == Pack(src', dest', len', id')
    ensures src == src' && dest == dest' && len == len' && id == id'
  {
    PackExact(src, dest, len, id);
    PackExact(src', dest', len', id');
    hide Pack, Join, Length, Id;
  }

  /** Every descriptor of a tiling batch is inside these limits: its length is at
      most a page of words, its id below the table size. */
  lemma TileFits(pt: PageTable, reading: bool, d: Desc, host: nat, device: nat)
    requires Tile(pt, reading, d, host, device) && d.id < TABLE
    ensures d.words <= PAGE / 4 && Fits(d.words as bv32, d.id as bv32)
  {}

}
