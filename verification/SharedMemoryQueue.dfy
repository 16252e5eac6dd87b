/** The queue as each process holds it: the mapped bytes and the two counters, updated in place. */
module SharedMemoryQueues {
  import opened Wrappers
  import opened QueueLayout

  datatype PushResult = Pushed(fullAfter: bool) | QueueFull | WrongSize

  /** The bytes of the slot that counter value `i` names. */
  ghost function Slot(l: Layout, mem: seq<Byte>, i: nat): (t: Token)
    requires l.Valid() && |mem| == l.byteLen
    ensures |t| == l.width
  {
    SlotInBounds(l, i);
    mem[l.SlotStart(i)..l.SlotStart(i) + l.width]
  }

  ghost function WithSlot(l: Layout, mem: seq<Byte>, i: nat, data: Token): (mem': seq<Byte>)
    requires l.Valid() && |mem| == l.byteLen && |data| == l.width
    ensures |mem'| == |mem|
  {
    SlotInBounds(l, i);
    mem[..l.SlotStart(i)] + data + mem[l.SlotStart(i) + l.width..]
  }

  lemma OverwriteElsewhere(mem: seq<Byte>, a: nat, data: seq<Byte>, b: nat)
    requires a + |data| <= |mem| && b + |data| <= |mem|
    ensures var mem' := mem[..a] + data + mem[a + |data|..];
            && |mem'| == |mem|
            && mem'[a..a + |data|] == data
            && (a + |data| <= b || b + |data| <= a ==> mem'[b..b + |data|] == mem[b..b + |data|])
  {
  }

  lemma WithSlotAt(l: Layout, mem: seq<Byte>, i: nat, data: Token, j: nat)
    requires l.Valid() && |mem| == l.byteLen && |data| == l.width
    requires j <= i < j + l.depth
    ensures Slot(l, WithSlot(l, mem, i, data), j) == if i == j then data else Slot(l, mem, j)
  {
    SlotInBounds(l, i);
    SlotInBounds(l, j);
    OverwriteElsewhere(mem, l.SlotStart(i), data, l.SlotStart(j));
    if j < i {
      SlotsDisjoint(l, j, i);
    }
  }

  /** The `n` tokens from counter value `head` on. */
  ghost function Window(l: Layout, mem: seq<Byte>, head: nat, n: nat): (q: seq<Token>)
    requires l.Valid() && |mem| == l.byteLen
    ensures |q| == n
  {
    seq(n, k requires 0 <= k => Slot(l, mem, head + k))
  }

  lemma WindowGrows(l: Layout, mem: seq<Byte>, head: nat, n: nat, data: Token)
    requires l.Valid() && |mem| == l.byteLen && |data| == l.width && n < l.depth
    ensures Window(l, WithSlot(l, mem, head + n, data), head, n + 1) == Window(l, mem, head, n) + [data]
  {
    var mem' := WithSlot(l, mem, head + n, data);
    forall k | 0 <= k < n + 1
      ensures Window(l, mem', head, n + 1)[k] == (Window(l, mem, head, n) + [data])[k]
    {
      WithSlotAt(l, mem, head + n, data, head + k);
    }
  }

  method CopyFromSlice(a: array<Byte>, start: nat, data: seq<Byte>)
    requires start + |data| <= a.Length
    modifies a
    ensures a[..] == old(a[..start]) + data + old(a[start + |data|..])
  {
    for k := 0 to |data|
      invariant forall i :: 0 <= i < a.Length ==> a[i] == if start <= i < start + k then data[i - start] else old(a[i])
    {
      a[start + k] := data[k];
    }
    assert a[..] == old(a[..start]) + data + old(a[start + |data|..]);
  }

  class SharedMemoryQueue {
    const l: Layout
    const mem: array<Byte>
    var head: nat
    var tail: nat

    ghost predicate Valid()
      reads this, mem
    {
      && l.Valid()
      && mem.Length == l.byteLen
      && head <= tail <= head + l.depth
    }

    /** The tokens in the queue, oldest first. */
    ghost function Contents(): (q: seq<Token>)
      requires Valid()
      reads this, mem
    {
      Window(l, mem[..], head, tail - head)
    }

    constructor (layout: Layout)
      requires layout.Valid()
      ensures Valid() && Contents() == [] && l == layout && fresh(mem)
    {
      l := layout;
      mem := new Byte[layout.byteLen](_ => 0);
      head, tail := 0, 0;
    }

    method IsFull() returns (full: bool)
      requires Valid()
      ensures full <==> |Contents()| == l.depth
    {
      full := tail - head >= l.depth;
    }

    method IsEmpty() returns (empty: bool)
      requires Valid()
      ensures empty <==> Contents() == []
    {
      empty := tail == head;
    }

    method TryPushCheckFull(data: Token) returns (r: PushResult)
      requires Valid()
      modifies this`tail, mem
      ensures Valid()
      ensures r == if |old(Contents())| == l.depth then QueueFull
                   else if |data| != l.width then WrongSize
                   else Pushed(|Contents()| == l.depth)
      ensures Contents() == if r.Pushed? then old(Contents()) + [data] else old(Contents())
    {
      if tail - head >= l.depth {
        return QueueFull;
      }
      if |data| != l.width {
        return WrongSize;
      }
      SlotInBounds(l, tail);
      CopyFromSlice(mem, l.SlotStart(tail), data);
      WindowGrows(l, old(mem[..]), head, tail - head, data);
      tail := tail + 1;
      r := Pushed(tail - head >= l.depth);
    }

    /** `Some(head)` and the front token in the first `width` bytes of `buf`, or `None` and `buf` untouched. */
    method ReadFront(buf: array<Byte>) returns (r: Option<nat>)
      requires Valid() && buf != mem
      modifies buf
      ensures Valid() && Contents() == old(Contents())
      ensures r.Some? <==> Contents() != [] && buf.Length >= l.width
      ensures r == None ==> buf[..] == old(buf[..])
      ensures r.Some? ==> r.value == head && buf[..] == Contents()[0] + old(buf[l.width..])
    {
      if tail == head {
        return None;
      }
      if buf.Length < l.width {
        return None;
      }
      SlotInBounds(l, head);
      CopyFromSlice(buf, 0, mem[l.SlotStart(head)..l.SlotStart(head) + l.width]);
      assert mem[..] == old(mem[..]);
      assert Contents()[0] == Slot(l, mem[..], head);
      assert buf[..] == Contents()[0] + old(buf[..])[l.width..];
      r := Some(head);
    }

    method PopInto(buf: array<Byte>) returns (ok: bool)
      requires Valid() && buf != mem
      modifies this`head, buf
      ensures Valid()
      ensures ok <==> old(Contents()) != [] && buf.Length >= l.width
      ensures !ok ==> Contents() == old(Contents()) && buf[..] == old(buf[..])
      ensures ok ==> Contents() == old(Contents())[1..] && buf[..] == old(Contents())[0] + old(buf[l.width..])
    {
      var front := ReadFront(buf);
      if front.None? {
        return false;
      }
      ghost var q := Contents();
      head := front.value + 1;
      assert Contents() == q[1..];
      ok := true;
    }

    method PeekInto(buf: array<Byte>) returns (ok: bool)
      requires Valid() && buf != mem
      modifies buf
      ensures Valid() && Contents() == old(Contents())
      ensures ok <==> Contents() != [] && buf.Length >= l.width
      ensures !ok ==> buf[..] == old(buf[..])
      ensures ok ==> buf[..] == Contents()[0] + old(buf[l.width..])
    {
      var front := ReadFront(buf);
      ok := front.Some?;
    }
  }
}
