/** Copying a range of device memory through a buffer of B bytes, block after
    block from the lowest address: exactly when it is a correct copy. */
module CopyBlock {
  import opened DmaMemory

  /** One block: read into the buffer, then written. */
  function OneBlock(d: Mem, src: nat, dst: nat, n: nat): Mem { Copied(d, dst, d, src, n) }

  function Blocks(d: Mem, src: nat, dst: nat, size: nat, B: nat): Mem
    requires B > 0
    decreases size
  {
    if size <= B then OneBlock(d, src, dst, size)
    else Blocks(OneBlock(d, src, dst, B), src + B, dst + B, size - B, B)
  }

  ghost predicate SameBytes(d: Mem, d': Mem) { forall a: nat :: d(a) == d'(a) }

  /** The destination ends up with the old source, everything else unchanged. */
  ghost predicate Right(d: Mem, src: nat, dst: nat, size: nat, B: nat)
    requires B > 0
  {
    SameBytes(Blocks(d, src, dst, size, B), Copied(d, dst, d, src, size))
  }

  /** Contents that agree are copied to contents that agree. */
  lemma {:induction false} BlocksSame(d: Mem, d': Mem, src: nat, dst: nat, size: nat, B: nat)
    requires B > 0 && SameBytes(d, d')
    ensures SameBytes(Blocks(d, src, dst, size, B), Blocks(d', src, dst, size, B))
    decreases size
  {
    if size > B { BlocksSame(OneBlock(d, src, dst, B), OneBlock(d', src, dst, B), src + B, dst + B, size - B, B); }
  }

  lemma {:induction false} BlocksRight(d: Mem, src: nat, dst: nat, size: nat, B: nat)
    requires B > 0 && (dst <= src || src + size <= dst || size <= B)
    ensures Right(d, src, dst, size, B)
    decreases size
  {
    if size > B {
      var d1 := OneBlock(d, src, dst, B);
      BlocksRight(d1, src + B, dst + B, size - B, B);
      forall a: nat ensures Copied(d1, dst + B, d1, src + B, size - B)(a) == Copied(d, dst, d, src, size)(a) {}
    }
  }

  lemma {:induction false} BlocksFrame(d: Mem, src: nat, dst: nat, size: nat, B: nat, a: nat)
    requires B > 0 && (a < dst || dst + size <= a)
    ensures Blocks(d, src, dst, size, B)(a) == d(a)
    decreases size
  {
    if size > B { BlocksFrame(OneBlock(d, src, dst, B), src + B, dst + B, size - B, B, a); }
  }

  /** A source byte below the destination arrives as it is. */
  lemma {:induction false} BlocksBelow(d: Mem, src: nat, dst: nat, size: nat, B: nat, x: nat)
    requires B > 0 && src <= x < src + size && x < dst
    ensures Blocks(d, src, dst, size, B)(dst + (x - src)) == d(x)
    decreases size
  {
    if size > B {
      var d1 := OneBlock(d, src, dst, B);
      if x - src < B {
        BlocksFrame(d1, src + B, dst + B, size - B, B, dst + (x - src));
      } else {
        BlocksBelow(d1, src + B, dst + B, size - B, B, x);
        assert dst + B + (x - (src + B)) == dst + (x - src);
      }
    }
  }

  function Step(x: nat): Mem { (a: nat) => if a >= x then 1 else 0 }

  /** With a destination inside the source and more than one block, some contents
      are copied wrongly: the first block overwrites a byte still to be read. */
  lemma BlocksWrong(src: nat, dst: nat, size: nat, B: nat)
    requires B > 0 && src < dst < src + size && size > B
    ensures exists d: Mem :: !Right(d, src, dst, size, B)
  {
    var x := if dst < src + B then src + B else dst;
    var d := Step(x);
    var d1 := OneBlock(d, src, dst, B);
    assert d1(x) == d(src + (x - dst)) == 0;
    BlocksBelow(d1, src + B, dst + B, size - B, B, x);
    var y := dst + (x - src);
    assert dst + B + (x - (src + B)) == y;
    assert Blocks(d, src, dst, size, B)(y) == 0;
    assert Copied(d, dst, d, src, size)(y) == d(x) == 1;
    assert !Right(d, src, dst, size, B);
  }

  /** copy_block copies every memory correctly exactly when the destination does
      not start inside the source, or one block is enough. */
  lemma CopyBlockExact(src: nat, dst: nat, size: nat, B: nat)
    requires B > 0
    ensures (forall d: Mem :: Right(d, src, dst, size, B)) <==> (dst <= src || src + size <= dst || size <= B)
  {
    if dst <= src || src + size <= dst || size <= B {
      forall d: Mem ensures Right(d, src, dst, size, B) { BlocksRight(d, src, dst, size, B); }
    } else {
      BlocksWrong(src, dst, size, B);
    }
  }
}
