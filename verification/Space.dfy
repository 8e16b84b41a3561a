/**
 * The pages each chip can still take, and how evenly the round robin uses them up: as long as only
 * requests and foreground GC write, the chips run out together. So it can be said exactly when a page
 * write and foreground GC succeed.
 */
module Space {
  import opened Common
  import opened Geometry
  import opened FtlState
  import opened Mapping
  import opened Filling
  import opened Gc
  import opened RoundRobin

  // ---- pages a chip can take -----------------------------------------------------------------------------------

  /** The free pages of the active block and of the free blocks. */
  function Avail(s: State, c: ChipId): int
    requires Shape(s) && ValidChip(s.g, c)
  {
    assert Listed(s.g, s.chips[c]);
    (if s.chips[c].act.Some? then s.blks[BlkId(c, s.chips[c].act.value)].nrFreePgs else 0)
    + |s.chips[c].free| * s.g.pages
  }

  /** A chip can allocate a page if and only if it has one. */
  lemma AllocIff(s: State, c: ChipId)
    requires Fillable(s) && Shape(s) && ValidChip(s.g, c)
    ensures CanAlloc(s, c) <==> Avail(s, c) > 0
    ensures Avail(s, c) >= 0
  {
    assert Takes(s.g, c, s.chips[c], s.blks);
    hide BlksShape, DiskShape, L2pShape, NamedBelow, Takes;
    if s.chips[c].free != [] { assert |s.chips[c].free| * s.g.pages >= 1 * s.g.pages; }
  }

  lemma OneLess(n: nat, p: nat)
    requires n > 0
    ensures n * p == p + (n - 1) * p
  {
  }

  /** Opening a free block takes no page. */
  lemma OpenAvail(s: State, c: ChipId, x: ChipId)
    requires Fillable(s) && Shape(s) && ValidChip(s.g, c) && CanAlloc(s, c) && ValidChip(s.g, x)
    ensures Shape(Open(s, c)) && Open(s, c).g == s.g && Avail(Open(s, c), x) == Avail(s, x)
  {
    OpenFillable(s, c);
    assert Takes(s.g, c, s.chips[c], s.blks);
    hide BlksShape, DiskShape, L2pShape, NamedBelow;
    if s.chips[c].act.None? {
      assert s.chips[c].free[0] in s.chips[c].free;
      OneLess(|s.chips[c].free|, s.g.pages);
    }
  }

  /** Mapping a page takes one from the block it is in. */
  lemma MapAvail(s: State, m: State, c: ChipId, d: BlkId, x: ChipId)
    requires Shape(s) && Shape(m) && MapFrame(s, m, d, 1) && ValidChip(s.g, x) && ValidChip(s.g, c) && ValidBlk(s.g, d)
    requires d.c == c && s.chips[c].act == Some(d.no)
    ensures Avail(m, x) == Avail(s, x) - if x == c then 1 else 0
  {
    hide DiskShape, L2pShape;
    assert Listed(s.g, s.chips[x]);
  }

  /** update_act_blk takes none. */
  lemma CloseAvail(m: State, c: ChipId, x: ChipId)
    requires Shape(m) && ValidChip(m.g, c) && ValidChip(m.g, x) && m.chips[c].act.Some?
    requires forall y :: y in m.chips[c].free ==> Fresh(m.g, m.blks[BlkId(c, y)])
    requires Shape(UpdateActBlk(m, c))
    ensures UpdateActBlk(m, c).g == m.g && Avail(UpdateActBlk(m, c), x) == Avail(m, x)
  {
    hide DiskShape, L2pShape;
    assert Listed(m.g, m.chips[c]);
    if m.chips[c].free != [] {
      assert m.chips[c].free[0] in m.chips[c].free;
      OneLess(|m.chips[c].free|, m.g.pages);
    }
  }

  lemma LoadedOpen(s: State, c: ChipId, data: seq<Data>, x: ChipId)
    requires Fillable(s) && Shape(s) && ValidChip(s.g, c) && CanAlloc(s, c) && |data| == s.g.slots && ValidChip(s.g, x)
    ensures Avail(Loaded(s, c, data), x) == Avail(s, x)
    ensures Loaded(s, c, data).chips[c].act == Some(Target(s, c).0.no)
  {
    OpenAvail(s, c, x);
    OpenFillable(s, c);
    hide BlksShape, DiskShape, L2pShape, NamedBelow, Takes, Open;
  }

  /** A page program takes one page from its chip, whatever LPAs it maps. */
  lemma FillAvail(s: State, c: ChipId, lpas: seq<nat>, data: seq<Data>, x: ChipId)
    requires CanFill(s, c, lpas, data) && Shape(s) && ValidChip(s.g, x)
    ensures var r := ProgramPage(s, c, lpas, data);
            Shape(r) && r.g == s.g && r.mru == c && Avail(r, x) == Avail(s, x) - if x == c then 1 else 0
  {
    hide Mapped, BlksShape, DiskShape, L2pShape, NamedBelow, Takes, Placed, Loaded, Target, Avail, Listed, Written,
         View;
    FillOk(s, c, lpas, data);
    MappedFrame(s, c, lpas, data);
    MappedChips(s, c, lpas, data);
    LoadedOpen(s, c, data, x);
    var m := Mapped(s, c, lpas, data);
    MapAvail(Loaded(s, c, data), m, c, Target(s, c).0, x);
    AvailOf(m, c, x);
    CloseAvail(m.(mru := c), c, x);
  }

  lemma AvailOf(m: State, c: ChipId, x: ChipId)
    requires Shape(m) && ValidChip(m.g, c) && ValidChip(m.g, x)
    ensures Shape(m.(mru := c)) && Avail(m.(mru := c), x) == Avail(m, x)
  {
    hide BlksShape, DiskShape, L2pShape;
  }

  // ---- the order in which blocks are written -------------------------------------------------------------------

  /** The blocks of a chip that can still take pages, in the order in which they will. */
  function WriteQueue(ch: Chip): seq<nat> {
    (if ch.act.Some? then [ch.act.value] else []) + ch.free
  }

  /** update_act_blk takes the block off the queue when it is full, and the next one is then active at once. */
  lemma QueueClosed(m: State, c: ChipId)
    requires Shape(m) && ValidChip(m.g, c) && m.chips[c].act.Some?
    ensures var ch, ch', d := m.chips[c], UpdateActBlk(m, c).chips[c], m.chips[c].act.value;
            && c in UpdateActBlk(m, c).chips && d < m.g.blocks && (ch'.act.None? <==> WriteQueue(ch') == [])
            && if m.blks[BlkId(c, d)].nrFreePgs == 0
               then WriteQueue(ch') == WriteQueue(ch)[1..] && ch'.used == ch.used + [d]
               else ch' == ch
  {
    assert Listed(m.g, m.chips[c]);
    if m.chips[c].free != [] { assert [m.chips[c].free[0]] + m.chips[c].free[1..] == m.chips[c].free; }
  }

  lemma QueueOpen(s: State, c: ChipId)
    requires Fillable(s) && Shape(s) && ValidChip(s.g, c) && CanAlloc(s, c)
    ensures var q := WriteQueue(s.chips[c]);
            && q != [] && Target(s, c).0.no == q[0] && Open(s, c).chips[c].act == Some(q[0])
            && Open(s, c).chips[c].free == q[1..] && WriteQueue(Open(s, c).chips[c]) == q
  {
    hide BlksShape, DiskShape, L2pShape, NamedBelow, Takes;
    var ch := s.chips[c];
    if ch.act.None? { assert [ch.free[0]] + ch.free[1..] == ch.free; }
  }

  /**
   * A chip writes its blocks one after the other, each until it is full: a page goes to the first block of the queue,
   * which leaves it for the used list with its last page. While a block is left one is active.
   */
  lemma QueueAdvances(s: State, c: ChipId, lpas: seq<nat>, data: seq<Data>)
    requires CanFill(s, c, lpas, data) && Shape(s)
    ensures var q, r := WriteQueue(s.chips[c]), ProgramPage(s, c, lpas, data);
            && q != [] && Target(s, c).0 == BlkId(c, q[0]) && ValidBlk(s.g, BlkId(c, q[0])) && c in r.chips
            && (r.chips[c].act.None? <==> WriteQueue(r.chips[c]) == [])
            && if s.blks[BlkId(c, q[0])].nrFreePgs == 1
               then WriteQueue(r.chips[c]) == q[1..] && q[0] in r.chips[c].used
               else WriteQueue(r.chips[c]) == q
  {
    hide Mapped, BlksShape, DiskShape, L2pShape, NamedBelow, Takes, Placed, Loaded, Target, Listed, Written, View, Open,
         UpdateActBlk;
    var m := Mapped(s, c, lpas, data);
    QueueOpen(s, c);
    MappedFrame(s, c, lpas, data);
    MappedChips(s, c, lpas, data);
    MappedSupply(s, c, lpas, data);
    QueueClosed(m.(mru := c), c);
  }

  /** Mapping takes the page from its block and leaves the queue alone. */
  lemma MappedSupply(s: State, c: ChipId, lpas: seq<nat>, data: seq<Data>)
    requires CanFill(s, c, lpas, data) && Shape(s)
    ensures var m, d := Mapped(s, c, lpas, data), Target(s, c).0;
            && Shape(m.(mru := c)) && m.g == s.g && m.blks[d].nrFreePgs == s.blks[d].nrFreePgs - 1
            && WriteQueue(m.chips[c]) == WriteQueue(Open(s, c).chips[c])
  {
    hide Mapped, DiskShape, L2pShape, NamedBelow, Takes, Placed, Target, Listed, Open;
    MappedFrame(s, c, lpas, data);
    MappedChips(s, c, lpas, data);
    QueueOpen(s, c);
  }

  // ---- balance -------------------------------------------------------------------------------------------------

  /** n pages are left, and each chip has as many of them as it has turns among the next n. */
  ghost predicate Balanced(s: State, n: nat)
    requires Shape(s)
  {
    forall c :: ValidChip(s.g, c) ==> Avail(s, c) == TurnsOf(s.g, s.mru, c, n)
  }

  /** As long as pages are left, the chip whose turn it is has one. */
  lemma BalancedAlloc(s: State, n: nat)
    requires Fillable(s) && Shape(s) && Balanced(s, n)
    ensures ValidChip(s.g, NextChip(s.g, s.mru))
    ensures CanAlloc(s, NextChip(s.g, s.mru)) <==> n > 0
  {
    NextIsValid(s);
    hide Shape, Fillable, Avail, NextChip, CanAlloc;
    AllocIff(s, NextChip(s.g, s.mru));
  }

  /** A page program on the chip whose turn it is leaves the rest balanced. */
  lemma FillBalanced(s: State, lpas: seq<nat>, data: seq<Data>, n: nat)
    requires Shape(s) && Balanced(s, n) && n > 0 && ValidChip(s.g, NextChip(s.g, s.mru))
    requires CanFill(s, NextChip(s.g, s.mru), lpas, data)
    ensures var r := ProgramPage(s, NextChip(s.g, s.mru), lpas, data); Shape(r) && r.g == s.g && Balanced(r, n - 1)
  {
    var c := NextChip(s.g, s.mru);
    FillAvail(s, c, lpas, data, c);
    hide Shape, CanFill, Avail, NextChip, ProgramPage;
    forall x | ValidChip(s.g, x)
      ensures Avail(ProgramPage(s, c, lpas, data), x) == TurnsOf(s.g, c, x, n - 1)
    {
      FillAvail(s, c, lpas, data, x);
    }
  }

  /** How many pages `left` entries fill. */
  function PagesFor(left: int, slots: nat): (r: nat)
    decreases left
  {
    if left <= 0 || slots == 0 then 0 else 1 + PagesFor(left - slots, slots)
  }

  lemma PadBalanced(s: State, pos: nat, left: int, n: nat)
    requires CanFillNext(s, pos, left) && Shape(s) && Balanced(s, n)
    ensures Shape(Pad(s, pos, left)) && Balanced(Pad(s, pos, left), n)
  {
    hide BlksShape, DiskShape, L2pShape, Fillable;
    forall c | ValidChip(s.g, c) ensures Avail(Pad(s, pos, left), c) == Avail(s, c) { }
  }

  lemma NextBalanced(s: State, pos: nat, left: int, n: nat)
    requires CanFillNext(s, pos, left) && Shape(s) && Balanced(s, n) && n > 0
    ensures Shape(ProgNext(s, pos, left)) && Balanced(ProgNext(s, pos, left), n - 1)
  {
    hide Shape, Fillable, Balanced, Chunk, ProgramPage, NextChip, Padded, CanAlloc;
    PadBalanced(s, pos, left, n);
    PadFillable(s, pos, left);
    NextIsValid(s);
    FillBalanced(Pad(s, pos, left), Chunk(s.g, s.lpaBuf, pos, left), s.dataBuf[pos..pos + s.g.slots], n);
  }

  /** Programming the buffers succeeds if and only if there are pages enough, and leaves the rest balanced. */
  lemma {:induction false} ProgBalanced(s: State, pos: nat, left: int, n: nat)
    requires Fillable(s) && Shape(s) && ProgRoom(s, pos, left) && Balanced(s, n)
    ensures var r, k := Prog(s, pos, left), PagesFor(left, s.g.slots);
            && (r.1 <==> k <= n)
            && (r.1 ==> Shape(r.0) && r.0.g == s.g && Balanced(r.0, n - k))
    decreases left
  {
    hide BlksShape, DiskShape, ChipsShape, L2pShape, NamedBelow, Takes, ProgNext, View, Balanced, Written;
    NextIsValid(s);
    RoomIsRoomy(s, pos, left);
    BalancedAlloc(s, n);
    if left > 0 && n > 0 {
      NextBalanced(s, pos, left, n);
      FillNextOk(s, pos, left);
      ProgBalanced(ProgNext(s, pos, left), pos + s.g.slots, left - s.g.slots, n - 1);
    }
  }

  // ---- GC and dirt blocks --------------------------------------------------------------------------------------

  /** A GC slot that is taken stays taken, and a chip with a dirt block keeps one. */
  ghost predicate KeepsStock(s: State, r: State)
    requires Shape(s) && Shape(r) && r.g == s.g
  {
    forall c :: ValidChip(s.g, c) ==>
      (s.chips[c].gc.Some? ==> r.chips[c].gc.Some?) && (s.chips[c].dirt != [] ==> r.chips[c].dirt != [])
  }

  lemma StockTrans(s: State, m: State, r: State)
    requires Shape(s) && Shape(m) && Shape(r) && m.g == s.g && r.g == s.g && KeepsStock(s, m) && KeepsStock(m, r)
    ensures KeepsStock(s, r)
  {
    hide BlksShape, DiskShape, L2pShape, Listed;
  }

  lemma SlotStock(s: State, lpa: nat, x: Addr)
    requires Shape(s) && ValidAddr(s.g, x)
    ensures KeepsStock(s, Invalidate(s, lpa)) && KeepsStock(s, MapSlot(s, lpa, x))
  {
    hide BlksShape, DiskShape, L2pShape, Listed, BlksWithout, LastLive;
  }

  lemma {:induction false} PageStock(s: State, lpas: seq<nat>, d: BlkId, pg: nat, ofs: nat)
    requires Shape(s) && ValidBlk(s.g, d) && pg < s.g.pages && |lpas| == s.g.slots && ofs <= s.g.slots
    ensures KeepsStock(s, MapPage(s, lpas, d, pg, ofs))
    decreases s.g.slots - ofs
  {
    if ofs < s.g.slots {
      var s1 := MapSlot(s, lpas[ofs], Addr(d, pg, ofs));
      SlotStock(s, lpas[ofs], Addr(d, pg, ofs));
      hide Shape, KeepsStock, MapSlot;
      PageStock(s1, lpas, d, pg, ofs + 1);
      StockTrans(s, s1, MapPage(s, lpas, d, pg, ofs));
    } else {
      hide BlksShape, DiskShape, L2pShape, Listed;
    }
  }

  lemma LoadedStock(s: State, c: ChipId, data: seq<Data>)
    requires Fillable(s) && Shape(s) && ValidChip(s.g, c) && CanAlloc(s, c) && |data| == s.g.slots
    ensures KeepsStock(s, Loaded(s, c, data))
  {
    OpenFillable(s, c);
    hide BlksShape, DiskShape, L2pShape, Listed, NamedBelow, Takes;
  }

  lemma ClosedStock(m: State, c: ChipId)
    requires Shape(m) && ValidChip(m.g, c) && m.chips[c].act.Some? && Shape(UpdateActBlk(m.(mru := c), c))
    ensures UpdateActBlk(m.(mru := c), c).g == m.g && KeepsStock(m, UpdateActBlk(m.(mru := c), c))
  {
    hide BlksShape, DiskShape, L2pShape, Listed;
  }

  lemma FillStock(s: State, c: ChipId, lpas: seq<nat>, data: seq<Data>)
    requires CanFill(s, c, lpas, data) && Shape(s)
    ensures var r := ProgramPage(s, c, lpas, data); Shape(r) && r.g == s.g && KeepsStock(s, r)
  {
    FillOk(s, c, lpas, data);
    hide BlksShape, DiskShape, L2pShape, NamedBelow, Takes, Placed, Loaded, Target, Listed, Written, View, KeepsStock,
         MapPage;
    MappedFrame(s, c, lpas, data);
    LoadedStock(s, c, data);
    var m := Mapped(s, c, lpas, data);
    PageStock(Loaded(s, c, data), lpas, Target(s, c).0, Target(s, c).1, 0);
    StockTrans(s, Loaded(s, c, data), m);
    ClosedStock(m, c);
    StockTrans(s, m, ProgramPage(s, c, lpas, data));
  }

  lemma PadStock(s: State, pos: nat, left: int)
    requires Shape(s) && pos + s.g.slots <= |s.lpaBuf| && Shape(Pad(s, pos, left))
    ensures KeepsStock(s, Pad(s, pos, left))
  {
    hide BlksShape, DiskShape, L2pShape, Listed, Padded;
  }

  lemma NextStock(s: State, pos: nat, left: int)
    requires CanFillNext(s, pos, left) && Shape(s)
    ensures var r := ProgNext(s, pos, left); Shape(r) && r.g == s.g && KeepsStock(s, r)
  {
    hide Shape, Fillable, Chunk, ProgramPage, NextChip, Padded, CanAlloc, KeepsStock;
    PadFillable(s, pos, left);
    NextIsValid(s);
    PadStock(s, pos, left);
    FillStock(Pad(s, pos, left), NextChip(s.g, s.mru), Chunk(s.g, s.lpaBuf, pos, left),
              s.dataBuf[pos..pos + s.g.slots]);
    StockTrans(s, Pad(s, pos, left), ProgNext(s, pos, left));
  }

  lemma SameStock(s: State)
    requires Shape(s)
    ensures KeepsStock(s, s)
  {
    hide BlksShape, DiskShape, L2pShape, Listed;
  }

  lemma {:induction false} ProgStock(s: State, pos: nat, left: int)
    requires Fillable(s) && Shape(s) && ProgRoom(s, pos, left)
    ensures var r := Prog(s, pos, left).0; Shape(r) && r.g == s.g && KeepsStock(s, r)
    decreases left
  {
    hide BlksShape, DiskShape, ChipsShape, L2pShape, NamedBelow, Takes, ProgNext, View, KeepsStock, Written;
    NextIsValid(s);
    RoomIsRoomy(s, pos, left);
    SameStock(s);
    if left > 0 && CanAlloc(s, NextChip(s.g, s.mru)) {
      NextStock(s, pos, left);
      FillNextOk(s, pos, left);
      ProgStock(ProgNext(s, pos, left), pos + s.g.slots, left - s.g.slots);
      StockTrans(s, ProgNext(s, pos, left), Prog(s, pos, left).0);
    }
  }
}
