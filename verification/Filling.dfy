/**
 * Programming one page - alloc_new_page, vdevice_write, map_logical_to_physical, set_prev_bus_chip and
 * update_act_blk in the order every caller uses them - and what it does whatever LPAs it is given.
 */
module Filling {
  import opened Common
  import opened Geometry
  import opened Blocks
  import opened FtlState
  import opened Mapping

  // ---- transitions ---------------------------------------------------------------------------------------------

  /** alloc_new_page succeeds: the chip has an active block or a free one. */
  predicate CanAlloc(s: State, c: ChipId)
    requires c in s.chips
  {
    s.chips[c].act.Some? || s.chips[c].free != []
  }

  /** The head of the free list becomes the active block. */
  function TakeFree(ch: Chip): Chip
    requires ch.free != []
  {
    ch.(free := ch.free[1..], nrFree := ch.nrFree - 1, act := Some(ch.free[0]))
  }

  /** alloc_new_page, where it succeeds. */
  function Open(s: State, c: ChipId): State
    requires c in s.chips && CanAlloc(s, c)
  {
    if s.chips[c].act.Some? then s else s.(chips := s.chips[c := TakeFree(s.chips[c])])
  }

  /** vdevice_write */
  function WriteDisk(s: State, d: BlkId, pg: nat, data: seq<Data>): State
    requires Shape(s) && ValidBlk(s.g, d) && pg < s.g.pages
  {
    s.(disk := s.disk[d := s.disk[d][pg := data]])
  }

  /** The full active block joins the used list. */
  function Retired(ch: Chip): Chip
    requires ch.act.Some?
  {
    ch.(used := ch.used + [ch.act.value], nrUsed := ch.nrUsed + 1, act := None)
  }

  /** update_act_blk, once the active block is full. */
  function Advance(ch: Chip): Chip
    requires ch.act.Some?
  {
    var ch1 := Retired(ch);
    if ch.free == [] then ch1 else TakeFree(ch1)
  }

  function UpdateActBlk(s: State, c: ChipId): State
    requires Shape(s) && ValidChip(s.g, c) && s.chips[c].act.Some?
  {
    if s.blks[BlkId(c, s.chips[c].act.value)].nrFreePgs == 0
    then s.(chips := s.chips[c := Advance(s.chips[c])])
    else s
  }

  /** The victim cache of background GC is as before. */
  ghost predicate SameVictims(s: State, s': State) {
    forall c :: ValidChip(s.g, c) && c in s.chips && c in s'.chips ==>
      s'.chips[c].vic == s.chips[c].vic && s'.chips[c].firstPg == s.chips[c].firstPg
  }

  lemma SameVictimsTrans(s: State, m: State, r: State)
    requires Shape(s) && Shape(m) && Shape(r) && m.g == s.g && r.g == s.g && SameVictims(s, m) && SameVictims(m, r)
    ensures SameVictims(s, r)
  {
    hide BlksShape, DiskShape, L2pShape, Listed;
  }

  // ---- vdevice_write -------------------------------------------------------------------------------------------

  lemma ViewElsewhere(g: Geo, disk: map<BlkId, seq<seq<Data>>>, l2p: map<nat, Addr>, d: BlkId, pg: nat, data: seq<Data>)
    requires DiskShape(g, disk) && L2pShape(g, l2p) && ValidBlk(g, d) && pg < g.pages && |data| == g.slots
    requires forall lpa :: lpa in l2p ==> l2p[lpa].b != d || l2p[lpa].pg != pg
    requires DiskShape(g, disk[d := disk[d][pg := data]])
    ensures ViewOf(g, disk[d := disk[d][pg := data]], l2p) == ViewOf(g, disk, l2p)
  {
  }

  lemma WriteDiskShape(s: State, d: BlkId, pg: nat, data: seq<Data>)
    requires Shape(s) && ValidBlk(s.g, d) && pg < s.g.pages && |data| == s.g.slots
    ensures Shape(WriteDisk(s, d, pg, data))
  {
  }

  // ---- map_logical_to_physical, seen by a reader ---------------------------------------------------------------

  /** The map v after lpas[ofs..] (padding aside) are written with data[ofs..], in order. */
  function Written(v: map<nat, Data>, lpas: seq<nat>, data: seq<Data>, ofs: nat): map<nat, Data>
    requires ofs <= |lpas| == |data|
    decreases |lpas| - ofs
  {
    if ofs == |lpas| then v
    else Written(if lpas[ofs] != PAGE_UNMAPPED then v[lpas[ofs] := data[ofs]] else v, lpas, data, ofs + 1)
  }

  /** Pointing the table at the slots of a page that holds `data` writes `data`. */
  lemma {:induction false} PlacedView(g: Geo, disk: map<BlkId, seq<seq<Data>>>, l2p: map<nat, Addr>,
                                      lpas: seq<nat>, d: BlkId, pg: nat, ofs: nat)
    requires DiskShape(g, disk) && L2pShape(g, l2p) && ValidBlk(g, d) && pg < g.pages
    requires |lpas| == g.slots && ofs <= g.slots
    ensures L2pShape(g, Placed(l2p, lpas, d, pg, ofs))
    ensures ViewOf(g, disk, Placed(l2p, lpas, d, pg, ofs)) == Written(ViewOf(g, disk, l2p), lpas, disk[d][pg], ofs)
    decreases g.slots - ofs
  {
    if ofs < g.slots {
      var l2p' := if lpas[ofs] != PAGE_UNMAPPED then l2p[lpas[ofs] := Addr(d, pg, ofs)] else l2p;
      PlacedView(g, disk, l2p', lpas, d, pg, ofs + 1);
      if lpas[ofs] != PAGE_UNMAPPED {
        assert ViewOf(g, disk, l2p') == ViewOf(g, disk, l2p)[lpas[ofs] := disk[d][pg][ofs]];
      }
    }
  }

  /** Writing back what is already there changes nothing. */
  lemma {:induction false} WrittenBack(v: map<nat, Data>, lpas: seq<nat>, data: seq<Data>, ofs: nat)
    requires ofs <= |lpas| == |data|
    requires forall i :: ofs <= i < |lpas| && lpas[i] != PAGE_UNMAPPED ==> lpas[i] in v && v[lpas[i]] == data[i]
    ensures Written(v, lpas, data, ofs) == v
    decreases |lpas| - ofs
  {
    if ofs < |lpas| {
      assert lpas[ofs] != PAGE_UNMAPPED ==> v[lpas[ofs] := data[ofs]] == v;
      WrittenBack(v, lpas, data, ofs + 1);
    }
  }

  /** An LPA that is not written keeps what it had. */
  lemma {:induction false} WrittenMiss(v: map<nat, Data>, lpas: seq<nat>, data: seq<Data>, ofs: nat, x: nat)
    requires ofs <= |lpas| == |data| && x !in lpas[ofs..]
    ensures (x in Written(v, lpas, data, ofs) <==> x in v) && (x in v ==> Written(v, lpas, data, ofs)[x] == v[x])
    decreases |lpas| - ofs
  {
    if ofs < |lpas| {
      assert lpas[ofs..] == [lpas[ofs]] + lpas[ofs + 1..];
      WrittenMiss(if lpas[ofs] != PAGE_UNMAPPED then v[lpas[ofs] := data[ofs]] else v, lpas, data, ofs + 1, x);
    }
  }

  /** Of several writes to an LPA the last one counts. */
  lemma {:induction false} WrittenLast(v: map<nat, Data>, lpas: seq<nat>, data: seq<Data>, ofs: nat, p: nat)
    requires ofs <= p < |lpas| == |data| && lpas[p] != PAGE_UNMAPPED && lpas[p] !in lpas[p + 1..]
    ensures lpas[p] in Written(v, lpas, data, ofs) && Written(v, lpas, data, ofs)[lpas[p]] == data[p]
    decreases |lpas| - ofs
  {
    var v' := if lpas[ofs] != PAGE_UNMAPPED then v[lpas[ofs] := data[ofs]] else v;
    if ofs == p { WrittenMiss(v', lpas, data, ofs + 1, lpas[p]); } else { WrittenLast(v', lpas, data, ofs + 1, p); }
  }

  /** With distinct LPAs the order of the writes does not matter. */
  lemma {:induction false} WrittenAt(v: map<nat, Data>, lpas: seq<nat>, data: seq<Data>, ofs: nat)
    requires ofs <= |lpas| == |data|
    requires forall i, j :: ofs <= i < j < |lpas| && lpas[j] != PAGE_UNMAPPED ==> lpas[i] != lpas[j]
    ensures var w := Written(v, lpas, data, ofs);
            && (forall i :: ofs <= i < |lpas| && lpas[i] != PAGE_UNMAPPED ==> lpas[i] in w && w[lpas[i]] == data[i])
            && (forall x :: x !in lpas[ofs..] || x == PAGE_UNMAPPED ==>
                (x in w <==> x in v) && (x in w ==> w[x] == v[x]))
    decreases |lpas| - ofs
  {
    if ofs < |lpas| {
      var v' := if lpas[ofs] != PAGE_UNMAPPED then v[lpas[ofs] := data[ofs]] else v;
      WrittenAt(v', lpas, data, ofs + 1);
      assert lpas[ofs] != PAGE_UNMAPPED ==> lpas[ofs] !in lpas[ofs + 1..];
      assert lpas[ofs..] == [lpas[ofs]] + lpas[ofs + 1..];
    }
  }

  // ---- states in which pages can be programmed -----------------------------------------------------------------

  /** The active block has a free page, and the free blocks are fresh, listed once and not active. */
  ghost predicate Takes(g: Geo, c: ChipId, ch: Chip, blks: map<BlkId, Block>)
    requires ValidChip(g, c) && Listed(g, ch) && BlksShape(g, blks)
  {
    && (ch.act.Some? ==> 0 < blks[BlkId(c, ch.act.value)].nrFreePgs <= g.pages && ch.act.value !in ch.free)
    && NoDup(ch.free) && (forall x :: x in ch.free ==> Fresh(g, blks[BlkId(c, x)]))
  }

  /** Every table entry names a page below the write point of its block. */
  ghost predicate NamedBelow(g: Geo, l2p: map<nat, Addr>, blks: map<BlkId, Block>)
    requires BlksShape(g, blks) && L2pShape(g, l2p)
  {
    forall lpa :: lpa in l2p ==> l2p[lpa].pg < g.pages - blks[l2p[lpa].b].nrFreePgs
  }

  /** As much of the invariant as programming a page needs; it survives pages of any LPAs. */
  ghost predicate Fillable(s: State) {
    && Shape(s) && NamedBelow(s.g, s.l2p, s.blks)
    && forall c :: ValidChip(s.g, c) ==> Takes(s.g, c, s.chips[c], s.blks)
  }

  /** What a page program needs: a page to write to, and a page's worth of LPAs and data. */
  ghost predicate CanFill(s: State, c: ChipId, lpas: seq<nat>, data: seq<Data>) {
    Fillable(s) && ValidChip(s.g, c) && CanAlloc(s, c) && |lpas| == |data| == s.g.slots
  }

  lemma OpenFillable(s: State, c: ChipId)
    requires Fillable(s) && ValidChip(s.g, c) && CanAlloc(s, c)
    ensures Fillable(Open(s, c)) && Open(s, c).chips[c].act.Some?
    ensures Open(s, c) == s.(chips := s.chips[c := Open(s, c).chips[c]])
  {
    assert Takes(s.g, c, s.chips[c], s.blks);
    if s.chips[c].act.None? { HeadAndTail(s.chips[c].free); }
    hide BlksShape, DiskShape, L2pShape;
  }

  /** The block and page alloc_new_page hands out. */
  ghost function Target(s: State, c: ChipId): (r: (BlkId, nat))
    requires Fillable(s) && ValidChip(s.g, c) && CanAlloc(s, c)
    ensures ValidBlk(s.g, r.0) && r.0.c == c && r.1 < s.g.pages
    ensures s.blks[r.0].nrFreePgs > 0 && r.1 == s.g.pages - s.blks[r.0].nrFreePgs
    ensures Open(s, c).chips[c].act == Some(r.0.no)
  {
    OpenFillable(s, c);
    var d := BlkId(c, Open(s, c).chips[c].act.value);
    (d, s.g.pages - s.blks[d].nrFreePgs)
  }

  /** The state after alloc_new_page and vdevice_write. */
  ghost function Loaded(s: State, c: ChipId, data: seq<Data>): (r: State)
    requires Fillable(s) && ValidChip(s.g, c) && CanAlloc(s, c) && |data| == s.g.slots
    ensures Shape(r) && r.g == s.g && r.l2p == s.l2p && r.blks == s.blks
  {
    OpenFillable(s, c);
    var (d, pg) := Target(s, c);
    WriteDiskShape(Open(s, c), d, pg, data);
    WriteDisk(Open(s, c), d, pg, data)
  }

  /** The state once the page is mapped as well. */
  ghost function Mapped(s: State, c: ChipId, lpas: seq<nat>, data: seq<Data>): (r: State)
    requires CanFill(s, c, lpas, data)
    ensures Shape(r) && r.g == s.g
  {
    var (d, pg) := Target(s, c);
    MapPage(Loaded(s, c, data), lpas, d, pg, 0)
  }

  /** alloc_new_page, vdevice_write, map_logical_to_physical, set_prev_bus_chip, update_act_blk */
  ghost function ProgramPage(s: State, c: ChipId, lpas: seq<nat>, data: seq<Data>): State
    requires CanFill(s, c, lpas, data)
  {
    MappedFrame(s, c, lpas, data);
    UpdateActBlk(Mapped(s, c, lpas, data).(mru := c), c)
  }

  // ---- what it does --------------------------------------------------------------------------------------------

  /** What mapping slots of block d leaves alone whatever the LPAs are; d loses n of its free pages. */
  ghost predicate MapFrame(s: State, r: State, d: BlkId, n: int)
    requires Shape(s) && Shape(r)
  {
    && r.g == s.g && r.disk == s.disk && r.mru == s.mru
    && r.lpaBuf == s.lpaBuf && r.dataBuf == s.dataBuf && r.nrCopy == s.nrCopy && SameOpen(s.g, s.chips, r.chips)
    && forall b :: ValidBlk(s.g, b) ==> r.blks[b].nrFreePgs == s.blks[b].nrFreePgs - if b == d then n else 0
  }

  lemma InvalidateFrame(s: State, lpa: nat, d: BlkId)
    requires Shape(s)
    ensures MapFrame(s, Invalidate(s, lpa), d, 0) && Invalidate(s, lpa).l2p == s.l2p - {lpa}
  {
    if lpa !in s.l2p { assert s.l2p - {lpa} == s.l2p; }
    hide BlksShape, DiskShape;
  }

  lemma RecordFrame(s: State, lpa: nat, x: Addr)
    requires Shape(s) && ValidAddr(s.g, x)
    ensures MapFrame(s, Record(s, lpa, x), x.b, if x.lp == s.g.slots - 1 then 1 else 0)
  {
  }

  lemma MapSlotFrame(s: State, lpa: nat, x: Addr)
    requires Shape(s) && ValidAddr(s.g, x)
    ensures MapFrame(s, MapSlot(s, lpa, x), x.b, if x.lp == s.g.slots - 1 then 1 else 0)
    ensures MapSlot(s, lpa, x).l2p == if lpa != PAGE_UNMAPPED then s.l2p[lpa := x] else s.l2p
  {
    var s1 := if lpa != PAGE_UNMAPPED then Invalidate(s, lpa) else s;
    InvalidateFrame(s, lpa, x.b);
    RecordFrame(s1, lpa, x);
    PutAfterDrop(s.l2p, lpa, x);
    hide Shape, Invalidate;
  }

  lemma {:induction false} MapPageFrame(s: State, lpas: seq<nat>, d: BlkId, pg: nat, ofs: nat)
    requires Shape(s) && ValidBlk(s.g, d) && pg < s.g.pages && |lpas| == s.g.slots && ofs <= s.g.slots
    ensures var r := MapPage(s, lpas, d, pg, ofs);
            MapFrame(s, r, d, if ofs < s.g.slots then 1 else 0) && r.l2p == Placed(s.l2p, lpas, d, pg, ofs)
    decreases s.g.slots - ofs
  {
    hide Shape, MapSlot;
    if ofs < s.g.slots {
      MapSlotFrame(s, lpas[ofs], Addr(d, pg, ofs));
      MapPageFrame(MapSlot(s, lpas[ofs], Addr(d, pg, ofs)), lpas, d, pg, ofs + 1);
    }
  }

  /** A GC slot that is taken stays taken by its block. */
  ghost predicate SameGc(s: State, r: State)
    requires Shape(s) && Shape(r) && r.g == s.g
  {
    forall c :: ValidChip(s.g, c) && s.chips[c].gc.Some? ==> r.chips[c].gc == s.chips[c].gc
  }

  lemma {:induction false} MapPageGc(s: State, lpas: seq<nat>, d: BlkId, pg: nat, ofs: nat)
    requires Shape(s) && ValidBlk(s.g, d) && pg < s.g.pages && |lpas| == s.g.slots && ofs <= s.g.slots
    ensures SameGc(s, MapPage(s, lpas, d, pg, ofs))
    decreases s.g.slots - ofs
  {
    hide BlksShape, DiskShape, L2pShape, Listed, BlksWithout, LastLive, ProgramSlot;
    if ofs < s.g.slots {
      MapPageGc(MapSlot(s, lpas[ofs], Addr(d, pg, ofs)), lpas, d, pg, ofs + 1);
    }
  }

  lemma MappedFrame(s: State, c: ChipId, lpas: seq<nat>, data: seq<Data>)
    requires CanFill(s, c, lpas, data)
    ensures var r, d := Mapped(s, c, lpas, data), Target(s, c).0;
            && MapFrame(Loaded(s, c, data), r, d, 1) && r.l2p == Placed(s.l2p, lpas, d, Target(s, c).1, 0)
            && r.chips[c].act == Some(d.no)
  {
    hide BlksShape, DiskShape, L2pShape, Listed, Takes, Placed;
    OpenFillable(s, c);
    MapPageFrame(Loaded(s, c, data), lpas, Target(s, c).0, Target(s, c).1, 0);
  }

  /** A page no table entry names takes data unseen. */
  lemma LoadedView(s: State, c: ChipId, data: seq<Data>)
    requires Fillable(s) && ValidChip(s.g, c) && CanAlloc(s, c) && |data| == s.g.slots
    ensures View(Loaded(s, c, data)) == View(s) && Loaded(s, c, data).disk[Target(s, c).0][Target(s, c).1] == data
  {
    OpenFillable(s, c);
    WriteDiskShape(Open(s, c), Target(s, c).0, Target(s, c).1, data);
    ViewElsewhere(s.g, s.disk, s.l2p, Target(s, c).0, Target(s, c).1, data);
    hide BlksShape, ChipsShape, Takes, ViewOf;
  }

  lemma MappedView(s: State, c: ChipId, lpas: seq<nat>, data: seq<Data>)
    requires CanFill(s, c, lpas, data)
    ensures View(Mapped(s, c, lpas, data)) == Written(View(s), lpas, data, 0)
  {
    hide Fillable, Placed, Written, ViewOf, Target, Loaded, Mapped, SameOpen;
    var l, d, pg := Loaded(s, c, data), Target(s, c).0, Target(s, c).1;
    LoadedView(s, c, data);
    MappedFrame(s, c, lpas, data);
    PlacedView(s.g, l.disk, s.l2p, lpas, d, pg, 0);
  }

  /** Every entry after mapping a page is an old one or names that page. */
  lemma {:induction false} PlacedFrom(l2p: map<nat, Addr>, lpas: seq<nat>, d: BlkId, pg: nat, ofs: nat)
    requires ofs <= |lpas|
    ensures forall x :: x in Placed(l2p, lpas, d, pg, ofs) ==>
              var a := Placed(l2p, lpas, d, pg, ofs)[x]; (a.b == d && a.pg == pg) || (x in l2p && l2p[x] == a)
    decreases |lpas| - ofs
  {
    if ofs < |lpas| {
      PlacedFrom(if lpas[ofs] != PAGE_UNMAPPED then l2p[lpas[ofs] := Addr(d, pg, ofs)] else l2p, lpas, d, pg, ofs + 1);
    }
  }

  lemma MappedNames(s: State, c: ChipId, lpas: seq<nat>, data: seq<Data>)
    requires CanFill(s, c, lpas, data)
    ensures NamedBelow(s.g, Mapped(s, c, lpas, data).l2p, Mapped(s, c, lpas, data).blks)
  {
    hide Placed, Mapped, Target, SameOpen, Takes, DiskShape, ChipsShape;
    MappedFrame(s, c, lpas, data);
    PlacedFrom(s.l2p, lpas, Target(s, c).0, Target(s, c).1, 0);
  }

  /** A chip keeps taking pages when its lists stay and its free and active blocks keep their free pages. */
  lemma TakesAfter(g: Geo, c: ChipId, ch: Chip, ch': Chip, blks: map<BlkId, Block>, blks': map<BlkId, Block>)
    requires ValidChip(g, c) && Listed(g, ch) && Listed(g, ch') && BlksShape(g, blks) && BlksShape(g, blks')
    requires Takes(g, c, ch, blks) && ch'.act == ch.act && ch'.free == ch.free
    requires forall x :: x < g.blocks && (x in ch.free || ch.act == Some(x)) ==>
               blks'[BlkId(c, x)].nrFreePgs == blks[BlkId(c, x)].nrFreePgs
    ensures Takes(g, c, ch', blks')
  {
  }

  /** update_act_blk leaves the chip able to take pages. */
  lemma UpdatedTakes(g: Geo, c: ChipId, ch: Chip, blks: map<BlkId, Block>)
    requires Sane(g) && ValidChip(g, c) && Listed(g, ch) && BlksShape(g, blks) && ch.act.Some?
    requires ch.act.value !in ch.free
    requires NoDup(ch.free) && (forall x :: x in ch.free ==> Fresh(g, blks[BlkId(c, x)]))
    requires 0 <= blks[BlkId(c, ch.act.value)].nrFreePgs <= g.pages
    ensures var ch' := if blks[BlkId(c, ch.act.value)].nrFreePgs == 0 then Advance(ch) else ch;
            Listed(g, ch') && Takes(g, c, ch', blks)
  {
    if ch.free != [] { HeadAndTail(ch.free); }
  }

  /** What programming a page does whatever its LPAs are. */
  ghost predicate Filled(s: State, r: State, c: ChipId, lpas: seq<nat>, data: seq<Data>)
    requires Shape(s) && |lpas| == |data|
  {
    && Fillable(r) && r.g == s.g && r.mru == c && r.lpaBuf == s.lpaBuf && r.dataBuf == s.dataBuf && r.nrCopy == s.nrCopy
    && View(r) == Written(View(s), lpas, data, 0)
    && (forall x :: ValidChip(s.g, x) && x != c ==>
        r.chips[x].act == s.chips[x].act && r.chips[x].free == s.chips[x].free)
  }

  /**
   * Opening and mapping leave the other chips' active slots and free lists alone, and chip c as update_act_blk
   * wants it.
   */
  lemma MappedChips(s: State, c: ChipId, lpas: seq<nat>, data: seq<Data>)
    requires CanFill(s, c, lpas, data)
    ensures var m, o := Mapped(s, c, lpas, data), Open(s, c);
            && (forall x :: ValidChip(s.g, x) && x != c ==>
                  && m.chips[x].act == s.chips[x].act && m.chips[x].free == s.chips[x].free
                  && Takes(s.g, x, m.chips[x], m.blks))
            && m.chips[c].act == Some(Target(s, c).0.no) && m.chips[c].free == o.chips[c].free
            && m.chips[c].act.value !in m.chips[c].free && NoDup(m.chips[c].free)
            && (forall x :: x in m.chips[c].free ==> Fresh(s.g, m.blks[BlkId(c, x)]))
            && 0 <= m.blks[Target(s, c).0].nrFreePgs <= s.g.pages
  {
    hide Mapped, BlksShape, DiskShape, L2pShape, NamedBelow, Placed;
    var m, o, d := Mapped(s, c, lpas, data), Open(s, c), Target(s, c).0;
    OpenFillable(s, c);
    MappedFrame(s, c, lpas, data);
    assert Takes(s.g, c, o.chips[c], s.blks);
    hide Open;
    forall x | ValidChip(s.g, x) && x != c ensures Takes(s.g, x, m.chips[x], m.blks) {
      TakesAfter(s.g, x, s.chips[x], m.chips[x], s.blks, m.blks);
    }
  }

  lemma FillOk(s: State, c: ChipId, lpas: seq<nat>, data: seq<Data>)
    requires CanFill(s, c, lpas, data)
    ensures Filled(s, ProgramPage(s, c, lpas, data), c, lpas, data)
    ensures SameVictims(s, ProgramPage(s, c, lpas, data))
  {
    hide Mapped, BlksShape, DiskShape, L2pShape, NamedBelow, Placed, Target, ViewOf, Written, Takes, Open, Advance;
    var m := Mapped(s, c, lpas, data);
    MappedFrame(s, c, lpas, data);
    MappedView(s, c, lpas, data);
    MappedNames(s, c, lpas, data);
    MappedChips(s, c, lpas, data);
    MappedVictims(s, c, lpas, data);
    UpdatedTakes(s.g, c, m.chips[c], m.blks);
    AdvanceVictim(m.chips[c]);
  }

  lemma AdvanceVictim(ch: Chip)
    requires ch.act.Some?
    ensures Advance(ch).vic == ch.vic && Advance(ch).firstPg == ch.firstPg
  {
  }

  lemma MappedVictims(s: State, c: ChipId, lpas: seq<nat>, data: seq<Data>)
    requires CanFill(s, c, lpas, data)
    ensures SameVictims(s, Mapped(s, c, lpas, data))
    ensures var m := Mapped(s, c, lpas, data); m.lpaBuf == s.lpaBuf && m.dataBuf == s.dataBuf && m.nrCopy == s.nrCopy
  {
    hide Mapped, Placed, Takes, NamedBelow;
    MappedFrame(s, c, lpas, data);
  }
}
