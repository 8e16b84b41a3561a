/** Programming a page of good LPAs keeps the invariant, step by step. */
module Program {
  import opened Common
  import opened Geometry
  import opened Blocks
  import opened FtlState
  import opened Mapping
  import opened Filling

  // ---- alloc_new_page ------------------------------------------------------------------------------------------

  lemma TakeFreeOk(g: Geo, c: ChipId, ch: Chip, blks: map<BlkId, Block>)
    requires Sane(g) && ValidChip(g, c) && Listed(g, ch) && BlksShape(g, blks)
    requires Partition(g, ch) && Roles(g, c, ch, blks, None) && ch.act.None? && ch.free != []
    ensures Listed(g, TakeFree(ch)) && Partition(g, TakeFree(ch)) && Roles(g, c, TakeFree(ch), blks, None)
  {
    hide Below;
    HeadAndTail(ch.free);
    assert Owners(TakeFree(ch)) == Owners(ch);
  }

  /** The active block has a free page. */
  lemma ActiveHasRoom(s: State, c: ChipId)
    requires Inv(s) && ValidChip(s.g, c) && s.chips[c].act.Some?
    ensures s.chips[c].act.value < s.g.blocks
    ensures 0 < s.blks[BlkId(c, s.chips[c].act.value)].nrFreePgs <= s.g.pages
  {
    hide Partition, Biject, PagesAt, CountsExact;
    assert Listed(s.g, s.chips[c]);
    assert BlockAt(s.g, s.blks[BlkId(c, s.chips[c].act.value)], 0);
  }

  /** alloc_new_page keeps the invariant and leaves an active block; nothing but the chip changes. */
  lemma OpenOk(s: State, c: ChipId)
    requires Inv(s) && ValidChip(s.g, c) && CanAlloc(s, c)
    ensures var s' := Open(s, c);
            Inv(s') && s' == s.(chips := s'.chips) && s'.chips[c].act.Some? && SameVictims(s, s')
  {
    hide Partition, BlockAt, Biject, Roles, Listed;
    if s.chips[c].act.None? {
      TakeFreeOk(s.g, c, s.chips[c], s.blks);
      SetChip(s.g, s.chips, s.blks, None, c, TakeFree(s.chips[c]));
    }
  }

  // ---- vdevice_write -------------------------------------------------------------------------------------------

  lemma NextPageFree(s: State, d: BlkId)
    requires Inv(s) && ValidBlk(s.g, d) && 0 < s.blks[d].nrFreePgs <= s.g.pages
    ensures BlksShape(s.g, s.blks) && PageAt(s.blks[d].pages[s.g.pages - s.blks[d].nrFreePgs], s.g.slots, 0)
  {
    hide ChipsOk, Biject;
    assert BlockAt(s.g, s.blks[d], 0);
  }

  lemma PageUnnamed(s: State, d: BlkId)
    requires Inv(s) && ValidBlk(s.g, d) && 0 < s.blks[d].nrFreePgs <= s.g.pages
    ensures forall lpa :: lpa in s.l2p ==>
              s.l2p[lpa].b != d || s.l2p[lpa].pg != s.g.pages - s.blks[d].nrFreePgs
  {
    hide ChipsOk, BlksOk;
    NextPageFree(s, d);
    var pg := s.g.pages - s.blks[d].nrFreePgs;
    forall lpa | lpa in s.l2p ensures s.l2p[lpa].b != d || s.l2p[lpa].pg != pg {
      assert StatusAt(s.g, s.blks, s.l2p[lpa]) == Valid;
    }
  }

  /** The active block may be named as the one being programmed. */
  lemma StartPage(s: State, d: BlkId)
    requires Inv(s) && ValidBlk(s.g, d) && s.chips[d.c].act == Some(d.no)
    ensures InvAt(s, Some(d), 0)
  {
    hide Partition, BlockAt, Biject;
  }

  /** Data for a page no table entry names does not show. */
  lemma UnnamedWrite(s: State, d: BlkId, pg: nat, data: seq<Data>)
    requires Shape(s) && ValidBlk(s.g, d) && pg < s.g.pages && |data| == s.g.slots
    requires forall lpa :: lpa in s.l2p ==> s.l2p[lpa].b != d || s.l2p[lpa].pg != pg
    ensures Shape(WriteDisk(s, d, pg, data)) && View(WriteDisk(s, d, pg, data)) == View(s)
  {
    WriteDiskShape(s, d, pg, data);
    hide BlksShape, ChipsShape, ViewOf;
    ViewElsewhere(s.g, s.disk, s.l2p, d, pg, data);
  }

  lemma StartWritten(s: State, d: BlkId, pg: nat, data: seq<Data>)
    requires Inv(s) && Shape(s) && ValidBlk(s.g, d) && pg < s.g.pages && |data| == s.g.slots
    requires s.chips[d.c].act == Some(d.no) && Shape(WriteDisk(s, d, pg, data))
    ensures InvAt(WriteDisk(s, d, pg, data), Some(d), 0)
  {
    StartPage(s, d);
    hide BlksOk, Biject, ChipsOk, BlksShape, ChipsShape, L2pShape;
  }

  lemma WriteUnseen(s: State, d: BlkId, data: seq<Data>)
    requires Inv(s) && Shape(s) && ValidBlk(s.g, d) && 0 < s.blks[d].nrFreePgs <= s.g.pages && |data| == s.g.slots
    requires s.chips[d.c].act == Some(d.no)
    ensures var s' := WriteDisk(s, d, s.g.pages - s.blks[d].nrFreePgs, data);
            InvAt(s', Some(d), 0) && Shape(s') && View(s') == View(s)
  {
    hide InvAt, DiskShape, ChipsShape, L2pShape, View, WriteDisk;
    var pg := s.g.pages - s.blks[d].nrFreePgs;
    PageUnnamed(s, d);
    UnnamedWrite(s, d, pg, data);
    StartWritten(s, d, pg, data);
  }

  /** Data for a page no slot of which is VALID does not show in the view. */
  lemma WriteDiskOk(s: State, d: BlkId, data: seq<Data>)
    requires Inv(s) && ValidBlk(s.g, d) && 0 < s.blks[d].nrFreePgs <= s.g.pages && |data| == s.g.slots
    requires s.chips[d.c].act == Some(d.no)
    ensures var s' := WriteDisk(s, d, s.g.pages - s.blks[d].nrFreePgs, data);
            InvAt(s', Some(d), 0) && View(s') == View(s)
  {
    hide InvAt, View, WriteDisk;
    InvShape(s);
    WriteUnseen(s, d, data);
  }

  // ---- update_act_blk ------------------------------------------------------------------------------------------

  lemma RetiredOk(g: Geo, c: ChipId, ch: Chip, blks: map<BlkId, Block>)
    requires ValidChip(g, c) && Listed(g, ch) && BlksShape(g, blks) && ch.act.Some?
    requires var d := BlkId(c, ch.act.value); Partition(g, ch) && Roles(g, c, ch, blks, Some(d)) && InUse(g, blks[d])
    ensures Listed(g, Retired(ch)) && Partition(g, Retired(ch)) && Roles(g, c, Retired(ch), blks, None)
  {
    RetiredOwners(g, ch);
    hide Partition, Owners, BlksShape;
  }

  lemma RetiredOwners(g: Geo, ch: Chip)
    requires ch.act.Some? && Partition(g, ch)
    ensures Partition(g, Retired(ch))
  {
    assert multiset(ch.used + [ch.act.value]) == multiset(ch.used) + multiset{ch.act.value};
    assert Owners(Retired(ch)) == Owners(ch);
  }

  lemma AdvanceOk(g: Geo, c: ChipId, ch: Chip, blks: map<BlkId, Block>)
    requires Sane(g) && ValidChip(g, c) && Listed(g, ch) && BlksShape(g, blks) && ch.act.Some?
    requires var d := BlkId(c, ch.act.value); Partition(g, ch) && Roles(g, c, ch, blks, Some(d)) && InUse(g, blks[d])
    ensures Listed(g, Advance(ch)) && Partition(g, Advance(ch)) && Roles(g, c, Advance(ch), blks, None)
  {
    hide Partition, Roles, Listed;
    RetiredOk(g, c, ch, blks);
    if ch.free != [] { TakeFreeOk(g, c, Retired(ch), blks); }
  }

  /** A block just completed still holds its last page's first slot, so it is not dead. */
  lemma FullActiveInUse(s: State, d: BlkId)
    requires InvAt(s, Some(d), 0) && s.blks[d].nrFreePgs == 0 && s.blks[d].nrValidLps > 0
    ensures InUse(s.g, s.blks[d])
  {
    var b := s.blks[d];
    assert BlockAt(s.g, b, 0);
    BoundedCard(DeadPages(b, s.g.slots), s.g.pages);
    if b.nrInvalidPgs == s.g.pages { LastLiveBlock(s.g, b, 0); }
  }

  /** update_act_blk ends the page program: the invariant between operations holds again. */
  lemma UpdateActBlkOk(s: State, d: BlkId)
    requires InvAt(s, Some(d), 0) && s.blks[d].nrValidLps > 0
    ensures var s' := UpdateActBlk(s, d.c);
            Inv(s') && s' == s.(chips := s'.chips) && SameVictims(s, s')
  {
    hide Partition, BlockAt, Biject, Roles, Listed;
    BlksOkIdle(s.g, s.blks, Some(d), None);
    if s.blks[d].nrFreePgs == 0 {
      FullActiveInUse(s, d);
      AdvanceOk(s.g, d.c, s.chips[d.c], s.blks);
      SetChip(s.g, s.chips, s.blks, Some(d), d.c, Advance(s.chips[d.c]));
    } else {
      StillOpen(s, d);
    }
  }

  lemma StillOpen(s: State, d: BlkId)
    requires InvAt(s, Some(d), 0) && s.blks[d].nrFreePgs != 0
    ensures Inv(s)
  {
    hide Partition, Biject;
    assert BlockAt(s.g, s.blks[d], 0);
  }

  // ---- one page program ----------------------------------------------------------------------------------------

  /** The LPAs to be programmed are good ones, and the invariant holds. */
  ghost predicate CanProgram(s: State, c: ChipId, lpas: seq<nat>, data: seq<Data>) {
    CanFill(s, c, lpas, data) && Inv(s) && LpasOk(s.g, lpas)
  }

  lemma FreeOnce(g: Geo, ch: Chip)
    requires Partition(g, ch)
    ensures NoDup(ch.free) && (ch.act.Some? ==> ch.act.value !in ch.free)
  {
    if ch.act.Some? { OneOwner(g, ch, ch.act.value); }
    assert multiset(ch.free) <= Owners(ch);
    NoDupBag(ch.free, Owners(ch));
  }

  lemma ChipTakes(s: State, c: ChipId)
    requires Inv(s) && ValidChip(s.g, c)
    ensures Listed(s.g, s.chips[c]) && Takes(s.g, c, s.chips[c], s.blks)
  {
    if s.chips[c].act.Some? { ActiveHasRoom(s, c); }
    hide BlksOk, Biject;
    FreeOnce(s.g, s.chips[c]);
  }

  /** A VALID slot lies below the write point of its block. */
  lemma NamesAreBelow(s: State)
    requires Inv(s)
    ensures NamedBelow(s.g, s.l2p, s.blks)
  {
    hide ChipsOk, CountsExact;
    forall lpa | lpa in s.l2p ensures s.l2p[lpa].pg < s.g.pages - s.blks[s.l2p[lpa].b].nrFreePgs {
      var a := s.l2p[lpa];
      assert StatusAt(s.g, s.blks, a) == Valid && BlockAt(s.g, s.blks[a.b], 0);
      assert PageAt(s.blks[a.b].pages[a.pg], s.g.slots,
                    Programmed(s.g.slots, s.g.pages - s.blks[a.b].nrFreePgs, 0, a.pg));
    }
  }

  /** The invariant allows pages to be programmed. */
  lemma InvFillable(s: State)
    requires Inv(s)
    ensures Fillable(s)
  {
    hide BlksOk, Biject, ChipsOk, Takes, NamedBelow;
    NamesAreBelow(s);
    forall c | ValidChip(s.g, c) ensures Takes(s.g, c, s.chips[c], s.blks) { ChipTakes(s, c); }
  }

  /**
   * Program discipline: the page handed out is the first that is not programmed. Every slot of it and of
   * the pages after it is FREE, and no slot of the pages before it is.
   */
  lemma TargetIsNext(s: State, c: ChipId)
    requires Inv(s) && ValidChip(s.g, c) && CanAlloc(s, c)
    ensures Fillable(s)
    ensures var (d, pg) := Target(s, c);
            forall a :: ValidAddr(s.g, a) && a.b == d ==> (StatusAt(s.g, s.blks, a) == Free <==> pg <= a.pg)
  {
    InvFillable(s);
    var (d, pg) := Target(s, c);
    hide Biject, ChipsOk, CountsExact;
    assert BlockAt(s.g, s.blks[d], 0);
    forall a | ValidAddr(s.g, a) && a.b == d ensures StatusAt(s.g, s.blks, a) == Free <==> pg <= a.pg {
      assert PageAt(s.blks[d].pages[a.pg], s.g.slots, Programmed(s.g.slots, pg, 0, a.pg));
    }
  }

  lemma MruIrrelevant(s: State, cur: Option<BlkId>, c: ChipId)
    requires InvAt(s, cur, 0) && ValidChip(s.g, c)
    ensures InvAt(s.(mru := c), cur, 0)
  {
    hide BlksOk, Biject, ChipsOk, BlksShape, DiskShape, ChipsShape, L2pShape;
  }

  lemma InFlightStart(s: State, d: BlkId, pg: nat, lpas: seq<nat>)
    requires InvAt(s, Some(d), 0) && LpasOk(s.g, lpas)
    requires s.blks[d].nrFreePgs > 0 && pg == s.g.pages - s.blks[d].nrFreePgs
    requires pg < s.g.pages
    ensures InFlight(s, d, pg, 0, lpas)
  {
    hide BlksOk, Biject, ChipsOk;
  }

  lemma LoadedOk(s: State, c: ChipId, data: seq<Data>)
    requires Inv(s) && Fillable(s) && ValidChip(s.g, c) && CanAlloc(s, c) && |data| == s.g.slots
    ensures InvAt(Loaded(s, c, data), Some(Target(s, c).0), 0)
    ensures View(Loaded(s, c, data)) == View(s)
  {
    hide BlksOk, Biject, ChipsOk;
    OpenOk(s, c);
    WriteDiskOk(Open(s, c), Target(s, c).0, data);
  }

  lemma MappedOk(s: State, c: ChipId, lpas: seq<nat>, data: seq<Data>)
    requires CanProgram(s, c, lpas, data)
    ensures var s', d, pg := Mapped(s, c, lpas, data), Target(s, c).0, Target(s, c).1;
            && InvAt(s', Some(d), 0) && s'.blks[d].nrValidLps > 0
            && s'.l2p == Placed(s.l2p, lpas, d, pg, 0)
            && Frame(Loaded(s, c, data), s', d)
  {
    var s2, d, pg := Loaded(s, c, data), Target(s, c).0, Target(s, c).1;
    hide BlksOk, Biject, ChipsOk, Shape, Placed, Loaded, Target, Frame;
    LoadedOk(s, c, data);
    InFlightStart(s2, d, pg, lpas);
    MapPageOk(s2, d, pg, 0, lpas);
    PlacedAt(s.l2p, lpas, d, pg, 0);
    HoldsValid(MapPage(s2, lpas, d, pg, 0), d, lpas[0]);
  }

  /** A block some LPA is mapped into holds a counted VALID slot. */
  lemma HoldsValid(s: State, d: BlkId, lpa: nat)
    requires InvAt(s, Some(d), 0) && lpa in s.l2p && s.l2p[lpa].b == d
    ensures s.blks[d].nrValidLps > 0
  {
    var a := s.l2p[lpa];
    assert StatusAt(s.g, s.blks, a) == Valid;
    hide ChipsOk, Biject;
    assert BlockAt(s.g, s.blks[d], 0);
    ValidSlotBelow(s.g, s.blks[d], 0, a.pg, a.lp);
  }

  /** Fully programmed blocks stay so, and their slots keep their LPA and never become VALID. */
  ghost predicate Sealed(s: State, s': State)
    requires Shape(s) && Shape(s') && s'.g == s.g
  {
    forall b :: ValidBlk(s.g, b) && s.blks[b].nrFreePgs == 0 ==>
      && s'.blks[b].nrFreePgs == 0
      && forall p, i :: 0 <= p < s.g.pages && 0 <= i < s.g.slots ==>
           && LpaAt(s.g, s'.blks, Addr(b, p, i)) == LpaAt(s.g, s.blks, Addr(b, p, i))
           && (StatusAt(s.g, s'.blks, Addr(b, p, i)) == Valid ==> StatusAt(s.g, s.blks, Addr(b, p, i)) == Valid)
  }

  lemma ProgramPageView(s: State, c: ChipId, lpas: seq<nat>, data: seq<Data>)
    requires CanProgram(s, c, lpas, data)
    ensures View(Mapped(s, c, lpas, data)) == Written(View(s), lpas, data, 0)
  {
    var s2, d, pg := Loaded(s, c, data), Target(s, c).0, Target(s, c).1;
    assert s2.disk[d][pg] == data;
    hide BlksOk, Biject, ChipsOk, Placed, Written, ViewOf, Target, Loaded, Mapped;
    LoadedOk(s, c, data);
    MappedOk(s, c, lpas, data);
    PlacedView(s.g, s2.disk, s.l2p, lpas, d, pg, 0);
  }

  lemma ProgramPageSealed(s: State, c: ChipId, lpas: seq<nat>, data: seq<Data>)
    requires CanProgram(s, c, lpas, data)
    ensures Sealed(s, Mapped(s, c, lpas, data))
  {
    hide BlksOk, Biject, ChipsOk, Placed, Written, ViewOf, Target, Loaded, Mapped, InvAt;
    MappedOk(s, c, lpas, data);
    hide SameOpen;
  }

  /** The LPAs are now mapped into blocks that were not fully programmed before. */
  ghost predicate WentTo(s: State, r: State, lpas: seq<nat>)
    requires Shape(s)
  {
    forall i :: 0 <= i < |lpas| && lpas[i] != PAGE_UNMAPPED ==>
      lpas[i] in r.l2p && ValidBlk(s.g, r.l2p[lpas[i]].b) && s.blks[r.l2p[lpas[i]].b].nrFreePgs > 0
  }

  /** What the flash shows after a page program, where the LPAs went, and what stays. */
  ghost predicate Programmed1(s: State, r: State, c: ChipId, lpas: seq<nat>, data: seq<Data>)
    requires Shape(s) && Shape(r) && |lpas| == |data|
  {
    && r.g == s.g && r.mru == c && r.lpaBuf == s.lpaBuf && r.dataBuf == s.dataBuf && r.nrCopy == s.nrCopy
    && View(r) == Written(View(s), lpas, data, 0)
    && WentTo(s, r, lpas) && Sealed(s, r) && SameVictims(s, r)
  }

  lemma MappedRest(s: State, c: ChipId, lpas: seq<nat>, data: seq<Data>)
    requires CanProgram(s, c, lpas, data)
    ensures var r := Mapped(s, c, lpas, data);
            && r.lpaBuf == s.lpaBuf && r.dataBuf == s.dataBuf && r.nrCopy == s.nrCopy && SameVictims(s, r)
    ensures WentTo(s, Mapped(s, c, lpas, data), lpas)
  {
    hide BlksOk, Biject, ChipsOk, Placed, Shrinks, Mapped, InvAt;
    OpenOk(s, c);
    MappedOk(s, c, lpas, data);
    PlacedAt(s.l2p, lpas, Target(s, c).0, Target(s, c).1, 0);
  }

  /** Updating the cursor and one chip record after the mapping. */
  lemma CloseProgram(s: State, s': State, r: State, c: ChipId, lpas: seq<nat>, data: seq<Data>)
    requires Shape(s) && Shape(s') && Shape(r) && |lpas| == |data| && s'.g == s.g
    requires r == s'.(mru := c, chips := r.chips) && SameVictims(s'.(mru := c), r)
    requires s'.lpaBuf == s.lpaBuf && s'.dataBuf == s.dataBuf && s'.nrCopy == s.nrCopy && SameVictims(s, s')
    requires View(s') == Written(View(s), lpas, data, 0) && Sealed(s, s') && WentTo(s, s', lpas)
    ensures Programmed1(s, r, c, lpas, data)
  {
    hide Written, ViewOf;
  }

  lemma ProgramPageOk(s: State, c: ChipId, lpas: seq<nat>, data: seq<Data>)
    requires CanProgram(s, c, lpas, data)
    ensures Inv(ProgramPage(s, c, lpas, data)) && Programmed1(s, ProgramPage(s, c, lpas, data), c, lpas, data)
  {
    var s', d := Mapped(s, c, lpas, data), Target(s, c).0;
    hide BlksOk, Biject, ChipsOk, Placed, Written, View, Frame, Mapped, Shape, UpdateActBlk, WentTo, Sealed,
         Programmed1, SameVictims;
    MappedOk(s, c, lpas, data);
    MappedRest(s, c, lpas, data);
    ProgramPageView(s, c, lpas, data);
    ProgramPageSealed(s, c, lpas, data);
    MruIrrelevant(s', Some(d), c);
    UpdateActBlkOk(s'.(mru := c), d);
    CloseProgram(s, s', ProgramPage(s, c, lpas, data), c, lpas, data);
  }
}
