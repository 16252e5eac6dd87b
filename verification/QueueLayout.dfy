/** The shape of a shared-memory queue: a 32-byte header followed by `depth` slots of `width` bytes. */
module QueueLayout {
  import opened Wrappers

  type Byte = n: int | 0 <= n < 256
  type U32 = n: int | 0 <= n < 0x1_0000_0000
  type Token = seq<Byte>

  const HEADER_SIZE: nat := 32
  const ISIZE_MAX: nat := 0x7FFF_FFFF_FFFF_FFFF

  datatype Layout = Layout(depth: nat, width: nat, byteLen: nat) {
    /** Every layout that `New` hands out. */
    ghost predicate Valid() {
      && 1 <= depth
      && 1 <= width
      && byteLen == HEADER_SIZE + depth * width
    }

    /** First byte of the slot that the monotone counter value `index` names. */
    function SlotStart(index: nat): (start: nat)
      requires 1 <= depth
    {
      HEADER_SIZE + (index % depth) * width
    }
  }

  /** `None` is the source's InvalidInput: an empty shape, or one past the largest slice length. */
  function New(depth: U32, width: U32): (r: Option<Layout>)
    ensures r.Some? <==> 1 <= depth && 1 <= width && HEADER_SIZE + depth * width <= ISIZE_MAX
    ensures r.Some? ==> r.value.Valid() && r.value.depth == depth && r.value.width == width
  {
    if depth == 0 || width == 0 then None
    else
      var len := depth * width + HEADER_SIZE;
      if len > ISIZE_MAX then None else Some(Layout(depth, width, len))
  }

  lemma {:induction false} RowBefore(a: nat, b: nat, width: nat)
    requires a < b
    ensures a * width + width <= b * width
    decreases b
  {
    assert b * width == (b - 1) * width + width;
    if a < b - 1 {
      RowBefore(a, b - 1, width);
    }
  }

  /** Every slot lies inside the mapping and after the header. */
  lemma SlotInBounds(l: Layout, i: nat)
    requires l.Valid()
    ensures HEADER_SIZE <= l.SlotStart(i) && l.SlotStart(i) + l.width <= l.byteLen
  {
    RowBefore(i % l.depth, l.depth, l.width);
  }

  lemma ModOfNear(i: nat, j: nat, depth: nat)
    requires 1 <= depth
    requires i < j < i + depth
    ensures i % depth != j % depth
  {
    var q := j / depth - i / depth;
    assert j - i == depth * q + (j % depth - i % depth);
    if q >= 1 {
      assert depth * (q - 1) >= 0;
    }
  }

  /** Counter values less than `depth` apart name slots that share no byte. */
  lemma SlotsDisjoint(l: Layout, i: nat, j: nat)
    requires l.Valid()
    requires i < j < i + l.depth
    ensures l.SlotStart(i) + l.width <= l.SlotStart(j) || l.SlotStart(j) + l.width <= l.SlotStart(i)
  {
    ModOfNear(i, j, l.depth);
    if i % l.depth < j % l.depth {
      RowBefore(i % l.depth, j % l.depth, l.width);
    } else {
      RowBefore(j % l.depth, i % l.depth, l.width);
    }
  }
}
