/**
 * The metadata transitions of page_mapping_function.rs as functions on the state, and the proof
 * that each keeps the FTL invariant.
 */
module Mapping {
  import opened Common
  import opened Geometry
  import opened Blocks
  import opened FtlState

  // ---- transitions ---------------------------------------------------------------------------------------------

  /** What invalidate_lpg does to the chip when block `no` has just lost its last live page. */
  function Retire(ch: Chip, no: nat): Chip {
    var ch1 := ch.(used := Remove(ch.used, no), nrUsed := ch.nrUsed - 1);
    if ch.gc.None? then ch1.(gc := Some(no))
    else ch1.(dirt := ch.dirt + [no], nrDirt := ch.nrDirt + 1)
  }

  /** Invalidating this slot makes its page, and with it the whole block, dead. */
  predicate LastLive(g: Geo, b: Block, p: nat, i: nat)
    requires BlockShape(g, b) && p < g.pages && i < g.slots
  {
    var b' := InvalidateSlot(g, b, p, i);
    b'.pages[p].nrInvalidLps == g.slots && b'.nrInvalidPgs == g.pages
  }

  /** The block table after the slot at `a` turned INVALID. */
  function BlksWithout(g: Geo, blks: map<BlkId, Block>, a: Addr): map<BlkId, Block>
    requires BlksShape(g, blks) && ValidAddr(g, a)
  {
    blks[a.b := InvalidateSlot(g, blks[a.b], a.pg, a.lp)]
  }

  function ChipsWithout(g: Geo, chips: map<ChipId, Chip>, blks: map<BlkId, Block>, a: Addr): map<ChipId, Chip>
    requires BlksShape(g, blks) && ChipsShape(g, chips) && ValidAddr(g, a)
  {
    if LastLive(g, blks[a.b], a.pg, a.lp) then chips[a.b.c := Retire(chips[a.b.c], a.b.no)] else chips
  }

  /** invalidate_lpg */
  function Invalidate(s: State, lpa: nat): (r: State)
    requires Shape(s)
    ensures Shape(r) && r.g == s.g
  {
    if lpa !in s.l2p then s else
      var a := s.l2p[lpa];
      RetireListed(s.g, s.chips[a.b.c], a.b.no);
      s.(blks := BlksWithout(s.g, s.blks, a), chips := ChipsWithout(s.g, s.chips, s.blks, a), l2p := s.l2p - {lpa})
  }

  /** The part of __map_logical_to_physical that follows invalidate_lpg. */
  function Record(s: State, lpa: nat, x: Addr): (r: State)
    requires Shape(s) && ValidAddr(s.g, x)
    ensures Shape(r) && r.g == s.g
  {
    s.(blks := s.blks[x.b := ProgramSlot(s.g, s.blks[x.b], x.pg, x.lp, lpa)],
       l2p := if lpa != PAGE_UNMAPPED then s.l2p[lpa := x] else s.l2p)
  }

  /** __map_logical_to_physical */
  function MapSlot(s: State, lpa: nat, x: Addr): (r: State)
    requires Shape(s) && ValidAddr(s.g, x)
    ensures Shape(r) && r.g == s.g
  {
    Record(if lpa != PAGE_UNMAPPED then Invalidate(s, lpa) else s, lpa, x)
  }

  /** map_logical_to_physical, from slot `ofs` on. */
  function MapPage(s: State, lpas: seq<nat>, d: BlkId, pg: nat, ofs: nat): (r: State)
    requires Shape(s) && ValidBlk(s.g, d) && pg < s.g.pages && |lpas| == s.g.slots && ofs <= s.g.slots
    ensures Shape(r) && r.g == s.g
    decreases s.g.slots - ofs
  {
    if ofs == s.g.slots then s
    else MapPage(MapSlot(s, lpas[ofs], Addr(d, pg, ofs)), lpas, d, pg, ofs + 1)
  }

  // ---- invalidate_lpg keeps the invariant ----------------------------------------------------------------------

  /** A dead block only changes owner. */
  lemma RetireOwners(g: Geo, ch: Chip, no: nat)
    requires Partition(g, ch) && no in ch.used
    ensures Partition(g, Retire(ch, no))
  {
    hide Below;
    RemoveMultiset(ch.used, no);
    var ch' := Retire(ch, no);
    assert multiset(ch.used) == multiset(ch'.used) + multiset{no};
    if ch.gc.Some? { assert multiset(ch'.dirt) == multiset(ch.dirt) + multiset{no}; }
    assert Owners(ch') == Owners(ch);
  }

  lemma RetireListed(g: Geo, ch: Chip, no: nat)
    requires Listed(g, ch) && no < g.blocks
    ensures Listed(g, Retire(ch, no))
  {
    RemoveKeeps(ch.used, no);
  }

  /** The block an invalidation empties is on the used list: it is not open, and it was not dead before. */
  lemma EmptiedIsUsed(g: Geo, c: ChipId, ch: Chip, blks: map<BlkId, Block>, cur: Option<BlkId>, k: nat, no: nat)
    requires Sane(g) && ValidChip(g, c) && no < g.blocks && Listed(g, ch) && BlksShape(g, blks)
    requires BlksOk(g, blks, cur, k) && Partition(g, ch) && Roles(g, c, ch, blks, cur)
    requires var b := blks[BlkId(c, no)]; b.nrValidLps > 0 && b.nrFreePgs == 0
    requires cur.Some? ==> cur.value in blks && blks[cur.value].nrFreePgs > 0
    ensures no in ch.used
  {
    OneOwner(g, ch, no);
  }

  /** The block the slot is in held something live, so it is neither dirt nor the GC block. */
  lemma RolesKept(g: Geo, c: ChipId, ch: Chip, blks: map<BlkId, Block>, cur: Option<BlkId>, a: Addr)
    requires ValidChip(g, c) && Listed(g, ch) && BlksShape(g, blks) && ValidAddr(g, a)
    requires Roles(g, c, ch, blks, cur) && blks[a.b].nrValidLps > 0
    requires !(c == a.b.c && LastLive(g, blks[a.b], a.pg, a.lp))
    ensures BlksShape(g, BlksWithout(g, blks, a)) && Roles(g, c, ch, BlksWithout(g, blks, a), cur)
  {
    BlksWithoutSlots(g, blks, a);
    hide BlksShape, Listed;
    var b' := InvalidateSlot(g, blks[a.b], a.pg, a.lp);
    assert b'.nrFreePgs == blks[a.b].nrFreePgs;
    if c == a.b.c && a.b.no in ch.used { assert InUse(g, b'); }
  }

  lemma RolesRetired(g: Geo, c: ChipId, ch: Chip, blks: map<BlkId, Block>, cur: Option<BlkId>, a: Addr)
    requires ValidChip(g, c) && Listed(g, ch) && BlksShape(g, blks) && ValidAddr(g, a) && Partition(g, ch)
    requires Roles(g, c, ch, blks, cur) && c == a.b.c && a.b.no in ch.used
    requires NothingLive(InvalidateSlot(g, blks[a.b], a.pg, a.lp))
    ensures var ch' := Retire(ch, a.b.no);
            && Partition(g, ch') && Listed(g, ch') && BlksShape(g, BlksWithout(g, blks, a))
            && Roles(g, c, ch', BlksWithout(g, blks, a), cur)
  {
    hide Partition, BlksShape, InvalidateSlot, StatusAt, LpaAt;
    RetireOwners(g, ch, a.b.no);
    RetireListed(g, ch, a.b.no);
    RemoveKeeps(ch.used, a.b.no);
    OneOwner(g, Retire(ch, a.b.no), a.b.no);
    BlksWithoutSlots(g, blks, a);
  }

  lemma RolesAfterInvalidate(g: Geo, c: ChipId, ch: Chip, blks: map<BlkId, Block>, cur: Option<BlkId>, a: Addr)
    requires ValidChip(g, c) && Listed(g, ch) && BlksShape(g, blks) && ValidAddr(g, a)
    requires Partition(g, ch) && Roles(g, c, ch, blks, cur)
    requires blks[a.b].nrValidLps > 0
    requires LastLive(g, blks[a.b], a.pg, a.lp) && c == a.b.c ==>
               a.b.no in ch.used && NothingLive(InvalidateSlot(g, blks[a.b], a.pg, a.lp))
    ensures BlksShape(g, BlksWithout(g, blks, a))
    ensures var ch' := if c == a.b.c && LastLive(g, blks[a.b], a.pg, a.lp) then Retire(ch, a.b.no) else ch;
            Partition(g, ch') && Listed(g, ch') && Roles(g, c, ch', BlksWithout(g, blks, a), cur)
  {
    hide Roles, Partition, Listed, InvalidateSlot, Retire;
    if c == a.b.c && LastLive(g, blks[a.b], a.pg, a.lp) {
      RolesRetired(g, c, ch, blks, cur, a);
    } else {
      RolesKept(g, c, ch, blks, cur, a);
    }
  }

  /** Only slot `a` changes, to INVALID. */
  ghost predicate OnlyInvalidated(g: Geo, blks: map<BlkId, Block>, blks': map<BlkId, Block>, a: Addr)
    requires BlksShape(g, blks) && BlksShape(g, blks')
  {
    forall x :: ValidAddr(g, x) ==>
      && StatusAt(g, blks', x) == (if x == a then Invalid else StatusAt(g, blks, x))
      && LpaAt(g, blks', x) == LpaAt(g, blks, x)
  }

  ghost predicate SameWritePoints(g: Geo, blks: map<BlkId, Block>, blks': map<BlkId, Block>)
    requires BlksShape(g, blks) && BlksShape(g, blks')
  {
    forall b :: ValidBlk(g, b) ==> blks'[b].nrFreePgs == blks[b].nrFreePgs
  }

  lemma BlksWithoutSlots(g: Geo, blks: map<BlkId, Block>, a: Addr)
    requires BlksShape(g, blks) && ValidAddr(g, a)
    ensures BlksShape(g, BlksWithout(g, blks, a))
    ensures OnlyInvalidated(g, blks, BlksWithout(g, blks, a), a)
    ensures SameWritePoints(g, blks, BlksWithout(g, blks, a))
  {
  }

  lemma BijectAfterInvalidate(g: Geo, l2p: map<nat, Addr>, blks: map<BlkId, Block>, blks': map<BlkId, Block>, lpa: nat)
    requires BlksShape(g, blks) && BlksShape(g, blks') && Biject(g, l2p, blks) && lpa in l2p
    requires OnlyInvalidated(g, blks, blks', l2p[lpa])
    ensures Biject(g, l2p - {lpa}, blks')
  {
  }

  lemma BlksOkAfterInvalidate(g: Geo, blks: map<BlkId, Block>, cur: Option<BlkId>, k: nat, a: Addr)
    requires Sane(g) && BlksShape(g, blks) && BlksOk(g, blks, cur, k)
    requires ValidAddr(g, a) && StatusAt(g, blks, a) == Valid
    requires cur == Some(a.b) ==> k == 0 || a.pg != g.pages - blks[a.b].nrFreePgs
    ensures BlksOk(g, BlksWithout(g, blks, a), cur, k)
  {
    var n := if cur == Some(a.b) then k else 0;
    ValidSlotBelow(g, blks[a.b], n, a.pg, a.lp);
    InvalidateSlotOk(g, blks[a.b], n, a.pg, a.lp);
  }

  lemma ChipsOkAfterInvalidate(g: Geo, chips: map<ChipId, Chip>, blks: map<BlkId, Block>,
                               cur: Option<BlkId>, k: nat, a: Addr)
    requires Sane(g) && BlksShape(g, blks) && BlksOk(g, blks, cur, k)
    requires ChipsShape(g, chips) && ChipsOk(g, chips, blks, cur)
    requires cur.Some? ==> cur.value in blks && blks[cur.value].nrFreePgs > 0
    requires ValidAddr(g, a) && StatusAt(g, blks, a) == Valid
    requires cur == Some(a.b) ==> k == 0 || a.pg != g.pages - blks[a.b].nrFreePgs
    ensures ChipsShape(g, ChipsWithout(g, chips, blks, a)) && BlksShape(g, BlksWithout(g, blks, a))
    ensures ChipsOk(g, ChipsWithout(g, chips, blks, a), BlksWithout(g, blks, a), cur)
  {
    hide Roles, Partition, PagesAt, CountsExact;
    var n := if cur == Some(a.b) then k else 0;
    ValidSlotBelow(g, blks[a.b], n, a.pg, a.lp);
    InvalidateSlotOk(g, blks[a.b], n, a.pg, a.lp);
    BlksWithoutSlots(g, blks, a);
    if LastLive(g, blks[a.b], a.pg, a.lp) {
      LastLiveBlock(g, InvalidateSlot(g, blks[a.b], a.pg, a.lp), n);
      EmptiedIsUsed(g, a.b.c, chips[a.b.c], blks, cur, k, a.b.no);
    }
    forall c | ValidChip(g, c)
      ensures var ch := ChipsWithout(g, chips, blks, a)[c];
              Listed(g, ch) && Partition(g, ch) && Roles(g, c, ch, BlksWithout(g, blks, a), cur)
    {
      RolesAfterInvalidate(g, c, chips[c], blks, cur, a);
    }
  }

  /** The active slot, the free list and the victim cache are as before. */
  ghost predicate SameOpen(g: Geo, chips: map<ChipId, Chip>, chips': map<ChipId, Chip>)
    requires ChipsShape(g, chips) && ChipsShape(g, chips')
  {
    forall c :: ValidChip(g, c) ==>
      var ch, ch' := chips[c], chips'[c];
      ch'.act == ch.act && ch'.free == ch.free && ch'.vic == ch.vic && ch'.firstPg == ch.firstPg
  }

  lemma ChipsWithoutOpen(g: Geo, chips: map<ChipId, Chip>, blks: map<BlkId, Block>, cur: Option<BlkId>, a: Addr)
    requires BlksShape(g, blks) && ChipsShape(g, chips) && ValidAddr(g, a)
    requires ChipsShape(g, ChipsWithout(g, chips, blks, a)) && CurActive(g, chips, cur)
    ensures SameOpen(g, chips, ChipsWithout(g, chips, blks, a))
    ensures CurActive(g, ChipsWithout(g, chips, blks, a), cur)
  {
  }

  /** invalidate_lpg keeps the whole invariant, also in the middle of a page program. */
  lemma InvalidateOk(s: State, cur: Option<BlkId>, k: nat, lpa: nat)
    requires InvAt(s, cur, k)
    requires cur.Some? ==> s.blks[cur.value].nrFreePgs > 0
    requires lpa in s.l2p && cur == Some(s.l2p[lpa].b) ==>
               k == 0 || s.l2p[lpa].pg != s.g.pages - s.blks[s.l2p[lpa].b].nrFreePgs
    ensures var s' := Invalidate(s, lpa);
            && InvAt(s', cur, k)
            && s' == s.(l2p := s.l2p - {lpa}, blks := s'.blks, chips := s'.chips)
            && SameWritePoints(s.g, s.blks, s'.blks) && SameOpen(s.g, s.chips, s'.chips)
            && (lpa in s.l2p ==> OnlyInvalidated(s.g, s.blks, s'.blks, s.l2p[lpa]))
            && (lpa !in s.l2p ==> s' == s)
  {
    if lpa in s.l2p {
      var a := s.l2p[lpa];
      assert ValidAddr(s.g, a) && StatusAt(s.g, s.blks, a) == Valid;
      BlksOkAfterInvalidate(s.g, s.blks, cur, k, a);
      ChipsOkAfterInvalidate(s.g, s.chips, s.blks, cur, k, a);
      BlksWithoutSlots(s.g, s.blks, a);
      ChipsWithoutOpen(s.g, s.chips, s.blks, cur, a);
      BijectAfterInvalidate(s.g, s.l2p, s.blks, BlksWithout(s.g, s.blks, a), lpa);
      assert L2pShape(s.g, s.l2p - {lpa});
    } else {
      assert s.l2p - {lpa} == s.l2p;
    }
  }

  // ---- invalidate_lpg, exactly ---------------------------------------------------------------------------------

  /**
   * Block `no` has left the used list, for the GC slot if that was empty and otherwise for the end of the dirt
   * list.
   */
  ghost predicate RetiredTo(ch: Chip, ch': Chip, no: nat) {
    && DroppedFrom(ch.used, no, ch'.used) && ch'.nrUsed == ch.nrUsed - 1
    && ch' == if ch.gc.None? then ch.(used := ch'.used, nrUsed := ch'.nrUsed, gc := Some(no))
              else ch.(used := ch'.used, nrUsed := ch'.nrUsed, dirt := ch.dirt + [no], nrDirt := ch.nrDirt + 1)
  }

  /** The slot is the last live one of a block with no free page exactly when the block is dead without it. */
  lemma LastLiveExact(g: Geo, b: Block, p: nat, i: nat)
    requires Sane(g) && BlockAt(g, b, 0) && p < g.pages && i < g.slots && b.pages[p].status[i] == Valid
    ensures LastLive(g, b, p, i) <==> b.nrFreePgs == 0 && b.nrValidLps == 1
  {
    ValidSlotBelow(g, b, 0, p, i);
    InvalidateSlotOk(g, b, 0, p, i);
    var b' := InvalidateSlot(g, b, p, i);
    if LastLive(g, b, p, i) { LastLiveBlock(g, b', 0); }
    if b.nrFreePgs == 0 && b.nrValidLps == 1 {
      NoValidAllDead(g, b');
      BoundedCard(DeadPages(b', g.slots), g.pages);
      assert p in Below(g.pages);
    }
  }

  /**
   * invalidate_lpg changes the lists of a chip exactly when it takes the last live slot of a block that has no free
   * page: this block then goes to the GC slot or to the end of the dirt list.
   */
  lemma RetiresExact(s: State, lpa: nat)
    requires Inv(s) && lpa in s.l2p
    ensures var a, r := s.l2p[lpa], Invalidate(s, lpa);
            && ValidAddr(s.g, a)
            && (forall c :: ValidChip(s.g, c) && c != a.b.c ==> r.chips[c] == s.chips[c])
            && if s.blks[a.b].nrFreePgs == 0 && s.blks[a.b].nrValidLps == 1
               then RetiredTo(s.chips[a.b.c], r.chips[a.b.c], a.b.no)
               else r.chips[a.b.c] == s.chips[a.b.c]
  {
    hide InvAt, DiskShape, Listed, LastLive, BlockAt, Retire, RetiredTo;
    LosesLast(s, lpa);
    if LastLive(s.g, s.blks[s.l2p[lpa].b], s.l2p[lpa].pg, s.l2p[lpa].lp) {
      RetireExact(s.chips[s.l2p[lpa].b.c], s.l2p[lpa].b.no);
    }
  }

  lemma LosesLast(s: State, lpa: nat)
    requires Inv(s) && lpa in s.l2p
    ensures var a := s.l2p[lpa];
            && Shape(s) && ValidAddr(s.g, a)
            && (LastLive(s.g, s.blks[a.b], a.pg, a.lp) <==>
                  s.blks[a.b].nrFreePgs == 0 && s.blks[a.b].nrValidLps == 1)
            && (LastLive(s.g, s.blks[a.b], a.pg, a.lp) ==> a.b.no in s.chips[a.b.c].used)
  {
    hide LastLive, Partition, Roles;
    var a := s.l2p[lpa];
    assert ValidAddr(s.g, a) && StatusAt(s.g, s.blks, a) == Valid && BlockAt(s.g, s.blks[a.b], 0);
    hide BlksOk, Biject, BlockAt;
    LastLiveExact(s.g, s.blks[a.b], a.pg, a.lp);
    if LastLive(s.g, s.blks[a.b], a.pg, a.lp) { LastIsUsed(s, a.b); }
  }

  lemma LastIsUsed(s: State, b: BlkId)
    requires Inv(s) && ValidBlk(s.g, b) && s.blks[b].nrFreePgs == 0 && s.blks[b].nrValidLps == 1
    ensures b.no in s.chips[b.c].used
  {
    hide Partition, Roles, BlksOk;
    EmptiedIsUsed(s.g, b.c, s.chips[b.c], s.blks, None, 0, b.no);
  }

  lemma RetireExact(ch: Chip, no: nat)
    requires no in ch.used
    ensures RetiredTo(ch, Retire(ch, no), no)
  {
    RemoveExact(ch.used, no);
  }

  // ---- __map_logical_to_physical keeps the invariant -----------------------------------------------------------

  function BlksWith(g: Geo, blks: map<BlkId, Block>, x: Addr, lpa: nat): map<BlkId, Block>
    requires BlksShape(g, blks) && ValidAddr(g, x)
  {
    blks[x.b := ProgramSlot(g, blks[x.b], x.pg, x.lp, lpa)]
  }

  /** The slot the write point of block d is at, with k slots of the page done. */
  function WritePoint(g: Geo, blks: map<BlkId, Block>, d: BlkId, k: nat): Addr
    requires BlksShape(g, blks) && ValidBlk(g, d) && 0 < blks[d].nrFreePgs <= g.pages
  {
    Addr(d, g.pages - blks[d].nrFreePgs, k)
  }

  ghost predicate OnlyProgrammed(g: Geo, blks: map<BlkId, Block>, blks': map<BlkId, Block>, x: Addr, lpa: nat)
    requires BlksShape(g, blks) && BlksShape(g, blks') && ValidAddr(g, x)
  {
    && (forall y :: ValidAddr(g, y) && y != x ==>
          StatusAt(g, blks', y) == StatusAt(g, blks, y) && LpaAt(g, blks', y) == LpaAt(g, blks, y))
    && StatusAt(g, blks', x) == (if lpa != PAGE_UNMAPPED then Valid else Invalid)
    && LpaAt(g, blks', x) == lpa
    && (forall b :: ValidBlk(g, b) && b != x.b ==> blks'[b] == blks[b])
  }

  lemma BlksWithSlots(g: Geo, blks: map<BlkId, Block>, x: Addr, lpa: nat)
    requires BlksShape(g, blks) && ValidAddr(g, x)
    ensures BlksShape(g, BlksWith(g, blks, x, lpa)) && OnlyProgrammed(g, blks, BlksWith(g, blks, x, lpa), x, lpa)
  {
  }

  lemma BlksOkAfterProgram(g: Geo, blks: map<BlkId, Block>, d: BlkId, k: nat, lpa: nat)
    requires Sane(g) && BlksShape(g, blks) && ValidBlk(g, d) && BlksOk(g, blks, Some(d), k)
    requires blks[d].nrFreePgs > 0 && k < g.slots && (k == 0 ==> lpa != PAGE_UNMAPPED)
    ensures blks[d].nrFreePgs <= g.pages && StatusAt(g, blks, WritePoint(g, blks, d, k)) == Free
    ensures BlksOk(g, BlksWith(g, blks, WritePoint(g, blks, d, k), lpa), Some(d), if k == g.slots - 1 then 0 else k + 1)
  {
    assert BlockAt(g, blks[d], k);
    ProgramSlotOk(g, blks[d], k, lpa);
    var p := g.pages - blks[d].nrFreePgs;
    assert PageAt(blks[d].pages[p], g.slots, k);
  }

  lemma BijectAfterProgram(g: Geo, l2p: map<nat, Addr>, blks: map<BlkId, Block>, blks': map<BlkId, Block>,
                           x: Addr, lpa: nat)
    requires BlksShape(g, blks) && BlksShape(g, blks') && Biject(g, l2p, blks) && ValidAddr(g, x)
    requires StatusAt(g, blks, x) == Free && OnlyProgrammed(g, blks, blks', x, lpa)
    requires lpa != PAGE_UNMAPPED ==> lpa !in l2p && lpa < g.entries
    ensures Biject(g, if lpa != PAGE_UNMAPPED then l2p[lpa := x] else l2p, blks')
  {
  }

  lemma RolesAfterProgram(g: Geo, c: ChipId, ch: Chip, blks: map<BlkId, Block>, blks': map<BlkId, Block>, d: BlkId)
    requires ValidChip(g, c) && Listed(g, ch) && BlksShape(g, blks) && BlksShape(g, blks')
    requires Partition(g, ch) && Roles(g, c, ch, blks, Some(d)) && (c == d.c ==> ch.act == Some(d.no))
    requires forall b :: ValidBlk(g, b) && b != d ==> blks'[b] == blks[b]
    ensures Roles(g, c, ch, blks', Some(d))
  {
    OneOwner(g, ch, d.no);
  }

  lemma ChipsOkAfterProgram(g: Geo, chips: map<ChipId, Chip>, blks: map<BlkId, Block>, blks': map<BlkId, Block>,
                            d: BlkId)
    requires ChipsShape(g, chips) && BlksShape(g, blks) && BlksShape(g, blks')
    requires ChipsOk(g, chips, blks, Some(d)) && CurActive(g, chips, Some(d))
    requires forall b :: ValidBlk(g, b) && b != d ==> blks'[b] == blks[b]
    ensures ChipsOk(g, chips, blks', Some(d))
  {
    forall c | ValidChip(g, c) ensures Roles(g, c, chips[c], blks', Some(d)) {
      RolesAfterProgram(g, c, chips[c], blks, blks', d);
    }
  }

  lemma RecordOk(s: State, d: BlkId, k: nat, lpa: nat)
    requires InvAt(s, Some(d), k) && s.blks[d].nrFreePgs > 0 && k < s.g.slots
    requires k == 0 ==> lpa != PAGE_UNMAPPED
    requires lpa != PAGE_UNMAPPED ==> lpa !in s.l2p && lpa < s.g.entries
    ensures s.blks[d].nrFreePgs <= s.g.pages
    ensures var x := WritePoint(s.g, s.blks, d, k);
            var s' := Record(s, lpa, x);
            && InvAt(s', Some(d), if k == s.g.slots - 1 then 0 else k + 1)
            && OnlyProgrammed(s.g, s.blks, s'.blks, x, lpa)
            && s'.blks[d].nrFreePgs == s.blks[d].nrFreePgs - if k == s.g.slots - 1 then 1 else 0
  {
    BlksOkAfterProgram(s.g, s.blks, d, k, lpa);
    var x := WritePoint(s.g, s.blks, d, k);
    BlksWithSlots(s.g, s.blks, x, lpa);
    BijectAfterProgram(s.g, s.l2p, s.blks, BlksWith(s.g, s.blks, x, lpa), x, lpa);
    ChipsOkAfterProgram(s.g, s.chips, s.blks, BlksWith(s.g, s.blks, x, lpa), d);
  }

  /** Slots 0..k of the page being programmed record lpas[..k]. */
  ghost predicate Recorded(s: State, d: BlkId, pg: nat, k: nat, lpas: seq<nat>)
    requires Shape(s) && ValidBlk(s.g, d) && pg < s.g.pages && k <= |lpas| && k <= s.g.slots
  {
    forall y :: ValidAddr(s.g, y) && y.b == d && y.pg == pg && y.lp < k ==> LpaAt(s.g, s.blks, y) == lpas[y.lp]
  }

  /** Outside block d, no slot becomes VALID, records something else, or is reopened. */
  ghost predicate Shrinks(g: Geo, blks: map<BlkId, Block>, blks': map<BlkId, Block>, d: BlkId)
    requires BlksShape(g, blks) && BlksShape(g, blks')
  {
    && (forall y :: ValidAddr(g, y) && y.b != d ==>
          && LpaAt(g, blks', y) == LpaAt(g, blks, y)
          && (StatusAt(g, blks', y) == Valid ==> StatusAt(g, blks, y) == Valid))
    && (forall b :: ValidBlk(g, b) && b != d ==> blks'[b].nrFreePgs == blks[b].nrFreePgs)
  }

  /** What the caller of map_logical_to_physical passes: in-range LPAs, all different, padding not first. */
  ghost predicate LpasOk(g: Geo, lpas: seq<nat>) {
    && |lpas| == g.slots && g.slots > 0 && lpas[0] != PAGE_UNMAPPED
    && (forall i :: 0 <= i < |lpas| ==> lpas[i] == PAGE_UNMAPPED || lpas[i] < g.entries)
    && (forall i, j :: 0 <= i < j < |lpas| && lpas[j] != PAGE_UNMAPPED ==> lpas[i] != lpas[j])
  }

  /** In the middle of map_logical_to_physical: the first k of `lpas` are in page `pg` of the open block d. */
  ghost predicate InFlight(s: State, d: BlkId, pg: nat, k: nat, lpas: seq<nat>) {
    && InvAt(s, Some(d), k) && ValidBlk(s.g, d) && k < s.g.slots && |lpas| == s.g.slots && LpasOk(s.g, lpas)
    && s.blks[d].nrFreePgs > 0 && pg == s.g.pages - s.blks[d].nrFreePgs
    && Recorded(s, d, pg, k, lpas)
  }

  /** The page being programmed does not hold the LPA about to be programmed. */
  lemma NotInFlight(s: State, d: BlkId, pg: nat, k: nat, lpas: seq<nat>)
    requires InFlight(s, d, pg, k, lpas) && lpas[k] in s.l2p && lpas[k] != PAGE_UNMAPPED
    ensures !(s.l2p[lpas[k]].b == d && s.l2p[lpas[k]].pg == pg)
  {
    var a := s.l2p[lpas[k]];
    assert StatusAt(s.g, s.blks, a) == Valid && LpaAt(s.g, s.blks, a) == lpas[k];
    assert PageAt(s.blks[d].pages[pg], s.g.slots, k);
  }

  /**
   * What mapping slots of a page of block d leaves alone: data, cursor, buffers, the open blocks of
   * every chip; and outside d no slot becomes VALID.
   */
  ghost predicate Frame(s: State, s': State, d: BlkId)
    requires Shape(s) && Shape(s')
  {
    && s'.g == s.g && s'.disk == s.disk && s'.mru == s.mru
    && s'.lpaBuf == s.lpaBuf && s'.dataBuf == s.dataBuf && s'.nrCopy == s.nrCopy
    && Shrinks(s.g, s.blks, s'.blks, d) && SameOpen(s.g, s.chips, s'.chips)
  }

  lemma FrameTrans(s: State, s1: State, s2: State, d: BlkId)
    requires Shape(s) && Shape(s1) && Shape(s2) && Frame(s, s1, d) && Frame(s1, s2, d)
    ensures Frame(s, s2, d)
  {
  }

  lemma MapSlotFirst(s: State, d: BlkId, pg: nat, k: nat, lpas: seq<nat>)
    requires InFlight(s, d, pg, k, lpas) && lpas[k] != PAGE_UNMAPPED
    ensures var s1 := Invalidate(s, lpas[k]);
            && InFlight(s1, d, pg, k, lpas) && s1.l2p == s.l2p - {lpas[k]} && Frame(s, s1, d)
            && s1.blks[d].nrFreePgs == s.blks[d].nrFreePgs
  {
    hide BlksOk, Biject, ChipsOk, LpasOk;
    if lpas[k] in s.l2p { NotInFlight(s, d, pg, k, lpas); }
    InvalidateOk(s, Some(d), k, lpas[k]);
  }

  /** Slot k is done: either the page goes on, or it is complete and the write point has moved past it. */
  ghost predicate PageStep(s: State, s': State, d: BlkId, pg: nat, k: nat, lpas: seq<nat>)
    requires Shape(s) && ValidBlk(s.g, d)
  {
    && (k < s.g.slots - 1 ==> InFlight(s', d, pg, k + 1, lpas))
    && (k >= s.g.slots - 1 ==> InvAt(s', Some(d), 0) && s'.blks[d].nrFreePgs == s.blks[d].nrFreePgs - 1)
  }

  /** One call of __map_logical_to_physical at the write point. */
  ghost predicate SlotMapped(s: State, s': State, d: BlkId, pg: nat, k: nat, lpas: seq<nat>)
    requires Shape(s) && Shape(s') && ValidBlk(s.g, d) && k < |lpas|
  {
    && Frame(s, s', d) && PageStep(s, s', d, pg, k, lpas)
    && s'.l2p == if lpas[k] != PAGE_UNMAPPED then s.l2p[lpas[k] := Addr(d, pg, k)] else s.l2p
  }

  lemma MapSlotSecond(s: State, d: BlkId, pg: nat, k: nat, lpas: seq<nat>)
    requires InFlight(s, d, pg, k, lpas)
    requires lpas[k] != PAGE_UNMAPPED ==> lpas[k] !in s.l2p
    ensures SlotMapped(s, Record(s, lpas[k], Addr(d, pg, k)), d, pg, k, lpas)
  {
    hide BlksOk, Biject, ChipsOk;
    RecordOk(s, d, k, lpas[k]);
    assert OnlyProgrammed(s.g, s.blks, Record(s, lpas[k], Addr(d, pg, k)).blks, Addr(d, pg, k), lpas[k]);
  }

  lemma SlotMappedAfter(s: State, s1: State, s2: State, d: BlkId, pg: nat, k: nat, lpas: seq<nat>)
    requires Shape(s) && Shape(s1) && Shape(s2) && ValidBlk(s.g, d) && k < |lpas| && lpas[k] != PAGE_UNMAPPED
    requires Frame(s, s1, d) && s1.l2p == s.l2p - {lpas[k]} && s1.blks[d].nrFreePgs == s.blks[d].nrFreePgs
    requires SlotMapped(s1, s2, d, pg, k, lpas)
    ensures SlotMapped(s, s2, d, pg, k, lpas)
  {
    hide Shape, InvAt;
    FrameTrans(s, s1, s2, d);
    PutAfterDrop(s.l2p, lpas[k], Addr(d, pg, k));
  }

  lemma MapSlotReal(s: State, d: BlkId, pg: nat, k: nat, lpas: seq<nat>)
    requires InFlight(s, d, pg, k, lpas) && lpas[k] != PAGE_UNMAPPED
    ensures SlotMapped(s, MapSlot(s, lpas[k], Addr(d, pg, k)), d, pg, k, lpas)
  {
    assert Shape(s);
    hide InvAt, Shape, LpasOk, Recorded, Frame, PageStep, SlotMapped, Invalidate, Record;
    MapSlotFirst(s, d, pg, k, lpas);
    var s1 := Invalidate(s, lpas[k]);
    MapSlotSecond(s1, d, pg, k, lpas);
    SlotMappedAfter(s, s1, Record(s1, lpas[k], Addr(d, pg, k)), d, pg, k, lpas);
  }

  lemma MapSlotOk(s: State, d: BlkId, pg: nat, k: nat, lpas: seq<nat>)
    requires InFlight(s, d, pg, k, lpas)
    ensures SlotMapped(s, MapSlot(s, lpas[k], Addr(d, pg, k)), d, pg, k, lpas)
  {
    if lpas[k] != PAGE_UNMAPPED {
      MapSlotReal(s, d, pg, k, lpas);
    } else {
      MapSlotSecond(s, d, pg, k, lpas);
    }
  }

  /** The table after slots ofs.. of the page are mapped. */
  function Placed(l2p: map<nat, Addr>, lpas: seq<nat>, d: BlkId, pg: nat, ofs: nat): map<nat, Addr>
    requires ofs <= |lpas|
    decreases |lpas| - ofs
  {
    if ofs == |lpas| then l2p
    else Placed(if lpas[ofs] != PAGE_UNMAPPED then l2p[lpas[ofs] := Addr(d, pg, ofs)] else l2p, lpas, d, pg, ofs + 1)
  }

  /** map_logical_to_physical: the page is complete, the invariant holds, and exactly its LPAs moved. */
  lemma {:induction false} MapPageOk(s: State, d: BlkId, pg: nat, k: nat, lpas: seq<nat>)
    requires InFlight(s, d, pg, k, lpas)
    ensures var s' := MapPage(s, lpas, d, pg, k);
            && InvAt(s', Some(d), 0) && s'.blks[d].nrFreePgs == s.blks[d].nrFreePgs - 1
            && Frame(s, s', d) && s'.l2p == Placed(s.l2p, lpas, d, pg, k)
    decreases s.g.slots - k
  {
    hide BlksOk, Biject, ChipsOk, Recorded, Shrinks, SameOpen, CurActive;
    MapSlotOk(s, d, pg, k, lpas);
    var s1 := MapSlot(s, lpas[k], Addr(d, pg, k));
    if k < s.g.slots - 1 {
      MapPageOk(s1, d, pg, k + 1, lpas);
      FrameTrans(s, s1, MapPage(s1, lpas, d, pg, k + 1), d);
    }
  }

  /** Each LPA of the page is mapped to its own slot of it; every other entry is as before. */
  lemma {:induction false} PlacedAt(l2p: map<nat, Addr>, lpas: seq<nat>, d: BlkId, pg: nat, ofs: nat)
    requires ofs <= |lpas|
    requires forall i, j :: ofs <= i < j < |lpas| && lpas[j] != PAGE_UNMAPPED ==> lpas[i] != lpas[j]
    ensures var m := Placed(l2p, lpas, d, pg, ofs);
            && (forall i :: ofs <= i < |lpas| && lpas[i] != PAGE_UNMAPPED ==>
                  lpas[i] in m && m[lpas[i]] == Addr(d, pg, i))
            && (forall x :: x !in lpas[ofs..] || x == PAGE_UNMAPPED ==>
                (x in m <==> x in l2p) && (x in m ==> m[x] == l2p[x]))
    decreases |lpas| - ofs
  {
    if ofs < |lpas| {
      var l2p' := if lpas[ofs] != PAGE_UNMAPPED then l2p[lpas[ofs] := Addr(d, pg, ofs)] else l2p;
      PlacedAt(l2p', lpas, d, pg, ofs + 1);
      assert lpas[ofs] != PAGE_UNMAPPED ==> lpas[ofs] !in lpas[ofs + 1..];
      assert lpas[ofs..] == [lpas[ofs]] + lpas[ofs + 1..];
    }
  }
}
