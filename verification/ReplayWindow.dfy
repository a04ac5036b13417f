// The anti-replay filter of section 2 of RFC 6479: the window is a ring of
// bitmap blocks, moved forward a block at a time so that no bit is ever
// shifted. The shape (bits in a block, blocks in the ring) is a parameter.
module ReplayWindow {
  import opened Arithmetic

  datatype Shape = Shape(bits: nat, blocks: nat) {
    predicate Valid() {
      bits > 0 && blocks >= 2
    }

    // One block of the ring is always partly in the future.
    function Size(): nat
      requires Valid()
    {
      (blocks - 1) * bits
    }
  }

  datatype Filter = Filter(last: nat, ring: seq<seq<bool>>)

  function EmptyBlock(shape: Shape): (block: seq<bool>)
    ensures |block| == shape.bits
  {
    seq(shape.bits, _ => false)
  }

  function NewFilter(shape: Shape): Filter {
    Filter(0, seq(shape.blocks, _ => EmptyBlock(shape)))
  }

  predicate WellShaped(shape: Shape, f: Filter) {
    && shape.Valid()
    && |f.ring| == shape.blocks
    && forall s :: 0 <= s < |f.ring| ==> |f.ring[s]| == shape.bits
  }

  predicate Bit(shape: Shape, f: Filter, c: nat)
    requires WellShaped(shape, f)
  {
    f.ring[c / shape.bits % shape.blocks][c % shape.bits]
  }

  // ----- what the ring stands for -----

  // The highest counter accepted so far, and all the accepted ones.
  datatype Window = Window(last: nat, seen: set<nat>)

  const FRESH := Window(0, {})

  predicate Admits(shape: Shape, w: Window, c: nat, limit: nat)
    requires shape.Valid()
  {
    && c < limit
    && c !in w.seen
    && (c > w.last || w.last - c <= shape.Size())
  }

  function Record(w: Window, c: nat): Window {
    Window(if c > w.last then c else w.last, w.seen + {c})
  }

  // Blocks the ring still has room for.
  predicate Live(shape: Shape, last: nat, c: nat)
    requires shape.Valid()
  {
    c / shape.bits <= last / shape.bits < c / shape.bits + shape.blocks
  }

  ghost predicate Refines(shape: Shape, f: Filter, w: Window) {
    && WellShaped(shape, f)
    && f.last == w.last
    && (forall c :: c in w.seen ==> c <= w.last)
    && (forall c: nat :: Live(shape, f.last, c) ==> (Bit(shape, f, c) <==> c in w.seen))
  }

  lemma NewFilterRefines(shape: Shape)
    requires shape.Valid()
    ensures Refines(shape, NewFilter(shape), FRESH)
  {
  }

  lemma InWindowIsLive(shape: Shape, last: nat, c: nat)
    requires shape.Valid() && c <= last && last - c <= shape.Size()
    ensures Live(shape, last, c)
  {
    DivideMonotone(c, last, shape.bits);
    DivideMonotone(last, c + (shape.blocks - 1) * shape.bits, shape.bits);
    DivideShift(c, shape.blocks - 1, shape.bits);
  }

  // The window is as wide as the ring allows: for a greater width some counter
  // inside it would have lost its block.
  lemma WidestWindow(shape: Shape, width: nat)
    requires shape.Valid()
    ensures (forall last: nat, c: nat :: c <= last && last - c <= width ==> Live(shape, last, c))
       <==> width <= (shape.blocks - 1) * shape.bits
  {
    if width <= (shape.blocks - 1) * shape.bits {
      forall last: nat, c: nat | c <= last && last - c <= width ensures Live(shape, last, c) {
        InWindowIsLive(shape, last, c);
      }
    } else {
      // The first counter of block `blocks`, and the last of block 0.
      var last, c := shape.blocks * shape.bits, shape.bits - 1;
      assert last == (shape.blocks - 1) * shape.bits + shape.bits;
      assert (shape.blocks - 1) * shape.bits >= 0;
      DivideProduct(shape.blocks, 0, shape.bits);
      assert !Live(shape, last, c);
    }
  }

  // ----- the algorithm -----

  // Ring slots of the blocks in (from, to] are empty; the others are as in f.
  ghost predicate Cleared(shape: Shape, f: Filter, ring: seq<seq<bool>>, from: nat, to: nat)
    requires WellShaped(shape, f)
  {
    && |ring| == shape.blocks
    && (forall s :: 0 <= s < shape.blocks ==> ring[s] == EmptyBlock(shape) || ring[s] == f.ring[s])
    && (forall b: nat :: from < b <= to ==> ring[b % shape.blocks] == EmptyBlock(shape))
    && (forall b: nat :: b <= from && to < b + shape.blocks ==> ring[b % shape.blocks] == f.ring[b % shape.blocks])
  }

  lemma ClearedStep(shape: Shape, f: Filter, ring: seq<seq<bool>>, from: nat, i: nat)
    requires WellShaped(shape, f) && from <= i < from + shape.blocks && Cleared(shape, f, ring, from, i)
    ensures Cleared(shape, f, ring[(i + 1) % shape.blocks := EmptyBlock(shape)], from, i + 1)
  {
    var slot := (i + 1) % shape.blocks;
    var next := ring[slot := EmptyBlock(shape)];
    forall b: nat | from < b <= i + 1
      ensures next[b % shape.blocks] == EmptyBlock(shape)
    {
    }
    forall b: nat | b <= from && i + 1 < b + shape.blocks
      ensures next[b % shape.blocks] == f.ring[b % shape.blocks]
    {
      ResiduesDiffer(b, i + 1, shape.blocks);
    }
  }

  lemma ClearedStart(shape: Shape, f: Filter, from: nat)
    requires WellShaped(shape, f)
    ensures Cleared(shape, f, f.ring, from, from)
  {
  }

  method ClearBlocks(shape: Shape, f: Filter, from: nat, to: nat) returns (ring: seq<seq<bool>>)
    requires WellShaped(shape, f) && from <= to <= from + shape.blocks
    ensures Cleared(shape, f, ring, from, to)
  {
    ring := f.ring;
    ClearedStart(shape, f, from);
    var i := from;
    while i < to
      invariant from <= i <= to
      invariant Cleared(shape, f, ring, from, i)
    {
      ClearedStep(shape, f, ring, from, i);
      i := i + 1;
      ring := ring[i % shape.blocks := EmptyBlock(shape)];
    }
  }

  // Check a counter and mark it. A refused counter leaves the filter as it was.
  method ValidateCounter(shape: Shape, f: Filter, counter: nat, limit: nat, ghost w: Window)
      returns (g: Filter, ok: bool)
    requires Refines(shape, f, w)
    ensures ok <==> Admits(shape, w, counter, limit)
    ensures ok <==> && counter < limit && counter !in w.seen
                    && (counter > w.last || w.last - counter <= (shape.blocks - 1) * shape.bits)
    ensures Refines(shape, g, if ok then Record(w, counter) else w)
    ensures !ok ==> g == f
  {
    g := f;
    if counter >= limit {
      return f, false;
    }
    if counter > f.last {
      g := MoveForward(shape, f, counter, w);
    } else if f.last - counter > shape.Size() {
      return f, false;
    } else {
      InWindowIsLive(shape, f.last, counter);
    }
    ghost var moved := Window(g.last, w.seen);
    assert Refines(shape, g, moved) && Live(shape, g.last, counter);
    var slot, bit := counter / shape.bits % shape.blocks, counter % shape.bits;
    var block := g.ring[slot];
    ok := !block[bit];
    MarkBit(shape, g, moved, counter);
    if !ok {
      assert block[bit := true] == block && g.ring[slot := block] == g.ring;
    }
    g := g.(ring := g.ring[slot := block[bit := true]]);
  }

  method MoveForward(shape: Shape, f: Filter, counter: nat, ghost w: Window) returns (g: Filter)
    requires Refines(shape, f, w) && counter > f.last
    ensures Refines(shape, g, Window(counter, w.seen)) && Live(shape, counter, counter)
  {
    var current := f.last / shape.bits;
    DivideMonotone(f.last, counter, shape.bits);
    var diff := counter / shape.bits - current;
    if diff > shape.blocks {
      diff := shape.blocks;
    }
    var ring := ClearBlocks(shape, f, current, current + diff);
    g := Filter(counter, ring);
    forall c: nat | Live(shape, counter, c) ensures Bit(shape, g, c) <==> c in w.seen {
      MovedBit(shape, f, w, ring, counter, c);
    }
  }

  lemma MovedBit(shape: Shape, f: Filter, w: Window, ring: seq<seq<bool>>, counter: nat, c: nat)
    requires Refines(shape, f, w) && counter > f.last && Live(shape, counter, c)
    requires f.last / shape.bits <= counter / shape.bits
    requires var current := f.last / shape.bits;
             var diff := counter / shape.bits - current;
             Cleared(shape, f, ring, current, current + if diff > shape.blocks then shape.blocks else diff)
    ensures WellShaped(shape, Filter(counter, ring))
    ensures Bit(shape, Filter(counter, ring), c) <==> c in w.seen
  {
    var current, b := f.last / shape.bits, c / shape.bits;
    var diff := counter / shape.bits - current;
    var to := current + if diff > shape.blocks then shape.blocks else diff;
    if b <= current {
      OldBit(shape, f, w, ring, to, c);
    } else {
      NewBlockCleared(shape, f, ring, current, to, b);
      AheadIsUnseen(shape, f, w, c);
    }
  }

  lemma OldBit(shape: Shape, f: Filter, w: Window, ring: seq<seq<bool>>, to: nat, c: nat)
    requires Refines(shape, f, w) && f.last / shape.bits <= to && Cleared(shape, f, ring, f.last / shape.bits, to)
    requires c / shape.bits <= f.last / shape.bits && to < c / shape.bits + shape.blocks
    ensures ring[c / shape.bits % shape.blocks][c % shape.bits] <==> c in w.seen
  {
    assert Live(shape, f.last, c);
    assert Bit(shape, f, c) <==> c in w.seen;
  }

  lemma AheadIsUnseen(shape: Shape, f: Filter, w: Window, c: nat)
    requires Refines(shape, f, w) && c / shape.bits > f.last / shape.bits
    ensures c !in w.seen
  {
    if c <= f.last {
      DivideMonotone(c, f.last, shape.bits);
    }
  }

  // A block ahead of the old position found its slot cleared: either it was
  // walked over, or the walk went once around the ring.
  lemma NewBlockCleared(shape: Shape, f: Filter, ring: seq<seq<bool>>, from: nat, to: nat, b: nat)
    requires WellShaped(shape, f) && Cleared(shape, f, ring, from, to)
    requires from < b && (b <= to || to == from + shape.blocks)
    ensures ring[b % shape.blocks] == EmptyBlock(shape)
  {
    if b > to {
      var ahead := b - from - 1;
      var q := ahead / shape.blocks;
      var j := b - q * shape.blocks;
      assert ahead == q * shape.blocks + ahead % shape.blocks;
      assert from < j <= to;
      ResidueShift(b, q, shape.blocks);
      assert ring[j % shape.blocks] == EmptyBlock(shape);
    }
  }

  lemma MarkBit(shape: Shape, f: Filter, w: Window, counter: nat)
    requires Refines(shape, f, w) && counter <= f.last && Live(shape, f.last, counter)
    ensures var slot, bit := counter / shape.bits % shape.blocks, counter % shape.bits;
            Refines(shape, f.(ring := f.ring[slot := f.ring[slot][bit := true]]), w.(seen := w.seen + {counter}))
  {
    var slot, bit := counter / shape.bits % shape.blocks, counter % shape.bits;
    var g := f.(ring := f.ring[slot := f.ring[slot][bit := true]]);
    forall c: nat | Live(shape, f.last, c) ensures Bit(shape, g, c) <==> c in w.seen + {counter} {
      if c != counter && c / shape.bits % shape.blocks == slot && c % shape.bits == bit {
        SameCell(shape, f.last, c, counter);
      }
      assert Bit(shape, f, c) <==> c in w.seen;
    }
  }

  // Live counters with one cell between them are one counter.
  lemma SameCell(shape: Shape, last: nat, c: nat, d: nat)
    requires shape.Valid() && Live(shape, last, c) && Live(shape, last, d)
    requires c / shape.bits % shape.blocks == d / shape.bits % shape.blocks
    requires c % shape.bits == d % shape.bits
    ensures c == d
  {
    var b, e := c / shape.bits, d / shape.bits;
    if b < e {
      ResiduesDiffer(b, e, shape.blocks);
    } else if e < b {
      ResiduesDiffer(e, b, shape.blocks);
    }
    assert c == b * shape.bits + c % shape.bits && d == e * shape.bits + d % shape.bits;
  }
}
