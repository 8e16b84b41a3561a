/**
 * Erasing a GC block: prepare_act_blks of foreground GC, and the proof that a block that is erased
 * holds nothing live.
 */
module Erase {
  import opened Common
  import opened Geometry
  import opened Blocks
  import opened FtlState

  /** vdevice_erase, init_blk_inf and inc_bers_cnt on one block. */
  function EraseBlk(s: State, b: BlkId): State
    requires Shape(s) && ValidBlk(s.g, b)
  {
    s.(blks := s.blks[b := FreeBlock(s.g, s.blks[b].nrErase + 1)],
       disk := s.disk[b := ErasedImage(s.g)])
  }

  function ErasedImage(g: Geo): seq<seq<Data>> {
    seq(g.pages, _ => seq(g.slots, _ => ERASED))
  }

  /** No slot of the block is VALID and no table entry points into it. */
  ghost predicate SafeToErase(s: State, b: BlkId)
    requires Shape(s) && ValidBlk(s.g, b)
  {
    && (forall p, i :: 0 <= p < s.g.pages && 0 <= i < s.g.slots ==> StatusAt(s.g, s.blks, Addr(b, p, i)) != Valid)
    && (forall lpa :: lpa in s.l2p ==> s.l2p[lpa].b != b)
  }

  /** Whatever block sits in a GC slot or on a dirt list can be erased without loss. */
  lemma EraseSafety(s: State, c: ChipId, no: nat)
    requires Inv(s) && ValidChip(s.g, c) && (s.chips[c].gc == Some(no) || no in s.chips[c].dirt)
    ensures no < s.g.blocks && SafeToErase(s, BlkId(c, no))
  {
    var b := BlkId(c, no);
    assert Listed(s.g, s.chips[c]) && Roles(s.g, c, s.chips[c], s.blks, None);
    assert BlockAt(s.g, s.blks[b], 0);
    DeadBlockUnnamed(s, b);
  }

  lemma DeadBlockUnnamed(s: State, b: BlkId)
    requires Inv(s) && ValidBlk(s.g, b) && NothingLive(s.blks[b])
    ensures SafeToErase(s, b)
  {
    hide ChipsOk, PagesAt;
    assert BlockAt(s.g, s.blks[b], 0);
    forall p, i | 0 <= p < s.g.pages && 0 <= i < s.g.slots ensures StatusAt(s.g, s.blks, Addr(b, p, i)) != Valid {
      assert BlockSlots(s.g, s.blks[b], Valid) == {};
      assert (p, i) !in BlockSlots(s.g, s.blks[b], Valid);
    }
    forall lpa | lpa in s.l2p ensures s.l2p[lpa].b != b {
      assert StatusAt(s.g, s.blks, s.l2p[lpa]) == Valid;
    }
  }

  lemma EraseShape(s: State, b: BlkId)
    requires Shape(s) && ValidBlk(s.g, b)
    ensures Shape(EraseBlk(s, b))
  {
  }

  lemma EraseBiject(s: State, b: BlkId)
    requires Shape(s) && ValidBlk(s.g, b) && Biject(s.g, s.l2p, s.blks) && SafeToErase(s, b)
    requires BlksShape(s.g, EraseBlk(s, b).blks)
    ensures Biject(s.g, s.l2p, EraseBlk(s, b).blks)
  {
    var s' := EraseBlk(s, b);
    forall a | ValidAddr(s.g, a)
      ensures a.b == b ==> StatusAt(s.g, s'.blks, a) == Free && StatusAt(s.g, s.blks, a) != Valid
      ensures a.b != b ==> StatusAt(s.g, s'.blks, a) == StatusAt(s.g, s.blks, a)
      ensures a.b != b ==> LpaAt(s.g, s'.blks, a) == LpaAt(s.g, s.blks, a)
    {
      assert a == Addr(a.b, a.pg, a.lp);
    }
  }

  lemma EraseView(s: State, b: BlkId)
    requires Shape(s) && ValidBlk(s.g, b) && SafeToErase(s, b) && Shape(EraseBlk(s, b))
    ensures View(EraseBlk(s, b)) == View(s)
  {
  }

  lemma EraseBlksOk(g: Geo, blks: map<BlkId, Block>, b: BlkId, n: nat)
    requires Sane(g) && BlksOk(g, blks, None, 0) && ValidBlk(g, b)
    ensures BlksOk(g, blks[b := FreeBlock(g, n)], None, 0)
  {
    FreeBlockOk(g, n);
    hide BlockAt;
  }

  lemma EraseRoles(g: Geo, c: ChipId, ch: Chip, blks: map<BlkId, Block>, b: BlkId, n: nat)
    requires Sane(g) && ValidChip(g, c) && Listed(g, ch) && BlksShape(g, blks) && ValidBlk(g, b)
    requires BlksShape(g, blks[b := FreeBlock(g, n)])
    requires Partition(g, ch) && Roles(g, c, ch, blks, None) && (c == b.c ==> ch.gc == Some(b.no))
    ensures Roles(g, c, ch, blks[b := FreeBlock(g, n)], None)
  {
    OneOwner(g, ch, b.no);
  }

  lemma EraseChipsOk(g: Geo, chips: map<ChipId, Chip>, blks: map<BlkId, Block>, b: BlkId, n: nat)
    requires Sane(g) && ChipsShape(g, chips) && BlksShape(g, blks) && ChipsOk(g, chips, blks, None)
    requires ValidBlk(g, b) && chips[b.c].gc == Some(b.no) && BlksShape(g, blks[b := FreeBlock(g, n)])
    ensures ChipsOk(g, chips, blks[b := FreeBlock(g, n)], None)
  {
    hide Partition, Listed, Roles, BlksShape, FreeBlock;
    forall x | ValidChip(g, x) ensures Partition(g, chips[x])
      && Roles(g, x, chips[x], blks[b := FreeBlock(g, n)], None) {
      EraseRoles(g, x, chips[x], blks, b, n);
    }
  }

  lemma EraseInv(s: State, b: BlkId)
    requires Inv(s) && ValidBlk(s.g, b) && s.chips[b.c].gc == Some(b.no) && SafeToErase(s, b) && Shape(EraseBlk(s, b))
    ensures Inv(EraseBlk(s, b))
  {
    hide BlksOk, Biject, ChipsOk;
    var n := s.blks[b].nrErase + 1;
    EraseBlksOk(s.g, s.blks, b, n);
    EraseBiject(s, b);
    EraseChipsOk(s.g, s.chips, s.blks, b, n);
  }

  /** Erasing the GC block of a chip keeps the invariant and what the flash shows. */
  lemma EraseOk(s: State, c: ChipId)
    requires Inv(s) && ValidChip(s.g, c) && s.chips[c].gc.Some?
    ensures s.chips[c].gc.value < s.g.blocks
    ensures var s' := EraseBlk(s, BlkId(c, s.chips[c].gc.value)); Inv(s') && View(s') == View(s)
  {
    hide BlksOk, Biject, ChipsOk, SafeToErase, FreeBlock, ErasedImage, EraseBlk, View;
    EraseSafety(s, c, s.chips[c].gc.value);
    var b := BlkId(c, s.chips[c].gc.value);
    EraseShape(s, b);
    EraseView(s, b);
    EraseInv(s, b);
  }

  // ---- prepare_act_blks ----------------------------------------------------------------------------------------

  /** The GC block becomes the active block. */
  function Promote(ch: Chip): Chip {
    ch.(act := ch.gc, gc := None)
  }

  lemma PromoteOk(g: Geo, c: ChipId, ch: Chip, blks: map<BlkId, Block>)
    requires Sane(g) && ValidChip(g, c) && Listed(g, ch) && BlksShape(g, blks)
    requires Partition(g, ch) && Roles(g, c, ch, blks, None) && ch.act.None? && ch.gc.Some?
    requires blks[BlkId(c, ch.gc.value)].nrFreePgs > 0
    ensures Listed(g, Promote(ch)) && Partition(g, Promote(ch)) && Roles(g, c, Promote(ch), blks, None)
  {
    assert Owners(Promote(ch)) == Owners(ch);
  }

  /** The body of prepare_act_blks on a chip without an active block. */
  function EraseAndPromote(s: State, c: ChipId): State
    requires Shape(s) && ValidChip(s.g, c) && s.chips[c].gc.Some?
  {
    EraseBlk(s, BlkId(c, s.chips[c].gc.value)).(chips := s.chips[c := Promote(s.chips[c])])
  }

  /** Everything foreground GC keeps: the invariant, the geometry, the buffers and what the flash shows. */
  ghost predicate Kept(s: State, s': State) {
    && Inv(s) && Inv(s') && s'.g == s.g && s'.lpaBuf == s.lpaBuf && s'.dataBuf == s.dataBuf
    && View(s') == View(s)
  }

  lemma OneChip(s: State, c: ChipId)
    requires Inv(s) && ValidChip(s.g, c)
    ensures Listed(s.g, s.chips[c]) && Partition(s.g, s.chips[c]) && Roles(s.g, c, s.chips[c], s.blks, None)
  {
    hide Partition, Roles, BlksOk, Biject;
  }

  lemma PromoteInv(s: State, c: ChipId)
    requires Inv(s) && ValidChip(s.g, c) && s.chips[c].act.None? && s.chips[c].gc.Some?
    requires s.chips[c].gc.value < s.g.blocks && s.blks[BlkId(c, s.chips[c].gc.value)].nrFreePgs > 0
    ensures Inv(s.(chips := s.chips[c := Promote(s.chips[c])]))
  {
    hide BlksOk, Biject, ChipsOk, Partition, Listed, Roles;
    OneChip(s, c);
    PromoteOk(s.g, c, s.chips[c], s.blks);
    SetChip(s.g, s.chips, s.blks, None, c, Promote(s.chips[c]));
  }

  lemma EraseAndPromoteOk(s: State, c: ChipId)
    requires Inv(s) && ValidChip(s.g, c) && s.chips[c].act.None? && s.chips[c].gc.Some?
    ensures Kept(s, EraseAndPromote(s, c))
  {
    hide BlksOk, Biject, ChipsOk, ViewOf;
    EraseOk(s, c);
    PromoteInv(EraseBlk(s, BlkId(c, s.chips[c].gc.value)), c);
  }

  /**
   * prepare_act_blks from (chip, bus) on, chip by chip and bus within chip: every chip without an
   * active block gets its erased GC block as one, or the pass stops with -1.
   */
  ghost function Prepare(s: State, bus: nat, chip: nat): (r: (State, bool))
    requires Inv(s) && bus <= s.g.buses && chip <= s.g.chips
    ensures Kept(s, r.0) && r.0.nrCopy == s.nrCopy
    decreases s.g.chips - chip, s.g.buses - bus
  {
    var c := ChipId(bus, chip);
    if chip == s.g.chips then (s, true)
    else if bus == s.g.buses then Prepare(s, 0, chip + 1)
    else if s.chips[c].act.Some? then Prepare(s, bus + 1, chip)
    else if s.chips[c].gc.None? then (s, false)
    else EraseAndPromoteOk(s, c); Prepare(EraseAndPromote(s, c), bus + 1, chip)
  }

  // ---- when it succeeds, and what it leaves --------------------------------------------------------------------

  /** Chip c comes before (chip, bus) in the chip-by-chip loop. */
  predicate Passed(c: ChipId, bus: nat, chip: nat) { c.chip < chip || (c.chip == chip && c.bus < bus) }

  /** The chip and its blocks are as they were. */
  ghost predicate Untouched(s: State, r: State, c: ChipId)
    requires Shape(s) && Shape(r) && r.g == s.g && ValidChip(s.g, c)
  {
    r.chips[c] == s.chips[c]
    && forall no: nat :: no < s.g.blocks ==> r.blks[BlkId(c, no)] == s.blks[BlkId(c, no)]
                                             && r.disk[BlkId(c, no)] == s.disk[BlkId(c, no)]
  }

  /** Block b has been erased once more. */
  ghost predicate Blank(s: State, r: State, b: BlkId)
    requires Shape(s) && Shape(r) && r.g == s.g && ValidBlk(s.g, b)
  {
    && r.blks[b].nrFreePgs == s.g.pages && r.blks[b].nrErase == s.blks[b].nrErase + 1
    && r.disk[b] == ErasedImage(s.g)
    && forall p, i :: 0 <= p < s.g.pages && 0 <= i < s.g.slots ==> StatusAt(s.g, r.blks, Addr(b, p, i)) == Free
  }

  /** The erased image is all ones. */
  lemma ErasedBytes(g: Geo, p: nat, i: nat, k: nat)
    requires p < g.pages && i < g.slots && k < 4096
    ensures |ErasedImage(g)| == g.pages && |ErasedImage(g)[p]| == g.slots && |ErasedImage(g)[p][i].bytes| == 4096
    ensures ErasedImage(g)[p][i].bytes[k] == 0xFF
  {
  }

  /** A chip with an active block is left alone; any other gets its GC block, erased, as active block. */
  ghost predicate Readied(s: State, r: State, c: ChipId)
    requires Shape(s) && Shape(r) && r.g == s.g && ValidChip(s.g, c)
  {
    if s.chips[c].act.Some? then Untouched(s, r, c)
    else
      && s.chips[c].gc.Some? && s.chips[c].gc.value < s.g.blocks
      && r.chips[c] == s.chips[c].(act := s.chips[c].gc, gc := None)
      && Blank(s, r, BlkId(c, s.chips[c].gc.value))
      && forall no: nat :: no < s.g.blocks && no != s.chips[c].gc.value ==>
           r.blks[BlkId(c, no)] == s.blks[BlkId(c, no)] && r.disk[BlkId(c, no)] == s.disk[BlkId(c, no)]
  }

  /** What a pass from (chip, bus) on does. */
  ghost predicate ReadiedFrom(s: State, r: (State, bool), bus: nat, chip: nat)
    requires Shape(s) && Shape(r.0)
  {
    && r.0 == s.(blks := r.0.blks, chips := r.0.chips, disk := r.0.disk)
    && (r.1 <==> forall c :: ValidChip(s.g, c) && !Passed(c, bus, chip) ==> s.chips[c].act.Some? || s.chips[c].gc.Some?)
    && (forall c :: ValidChip(s.g, c) && Passed(c, bus, chip) ==> Untouched(s, r.0, c))
    && (r.1 ==> forall c :: ValidChip(s.g, c) && !Passed(c, bus, chip) ==> Readied(s, r.0, c))
  }

  lemma PromotedOne(s: State, c: ChipId)
    requires Inv(s) && Shape(s) && ValidChip(s.g, c) && s.chips[c].act.None? && s.chips[c].gc.Some?
    requires Shape(EraseAndPromote(s, c))
    ensures var r := EraseAndPromote(s, c);
            && r.g == s.g && r == s.(blks := r.blks, chips := r.chips, disk := r.disk) && Readied(s, r, c)
            && forall x :: ValidChip(s.g, x) && x != c ==> Untouched(s, r, x)
  {
    hide InvAt, ErasedImage;
  }

  /** Chip d has been dealt with, and the pass goes on from the next. */
  lemma ReadiedOn(s: State, s1: State, r: (State, bool), d: ChipId)
    requires Shape(s) && Shape(s1) && Shape(r.0) && ValidChip(s.g, d)
    requires s1.g == s.g && s1 == s.(blks := s1.blks, chips := s1.chips, disk := s1.disk)
    requires s.chips[d].act.Some? || s.chips[d].gc.Some?
    requires Readied(s, s1, d) && forall x :: ValidChip(s.g, x) && x != d ==> Untouched(s, s1, x)
    requires ReadiedFrom(s1, r, d.bus + 1, d.chip)
    ensures ReadiedFrom(s, r, d.bus, d.chip)
  {
    hide BlksShape, DiskShape, Listed, L2pShape, Blank;
    assert Passed(d, d.bus + 1, d.chip) && Untouched(s1, r.0, d);
    forall c | ValidChip(s.g, c) && c != d
      ensures s1.chips[c] == s.chips[c] && (Passed(c, d.bus + 1, d.chip) <==> Passed(c, d.bus, d.chip))
      ensures Untouched(s1, r.0, c) ==> Untouched(s, r.0, c)
      ensures r.1 && Readied(s1, r.0, c) ==> Readied(s, r.0, c)
    {
      assert Untouched(s, s1, c);
      CarriedOver(s, s1, r.0, c);
    }
    ReadiedKept(s, s1, r.0, d);
  }

  lemma CarriedOver(s: State, s1: State, r: State, c: ChipId)
    requires Shape(s) && Shape(s1) && Shape(r) && s1.g == s.g && r.g == s.g && ValidChip(s.g, c)
    requires Untouched(s, s1, c)
    ensures Untouched(s1, r, c) ==> Untouched(s, r, c)
    ensures Readied(s1, r, c) ==> Readied(s, r, c)
  {
    hide DiskShape, L2pShape;
  }

  lemma ReadiedKept(s: State, s1: State, r: State, c: ChipId)
    requires Shape(s) && Shape(s1) && Shape(r) && s1.g == s.g && r.g == s.g && ValidChip(s.g, c)
    requires Readied(s, s1, c) && Untouched(s1, r, c)
    ensures Readied(s, r, c)
  {
    hide DiskShape, L2pShape;
  }

  lemma ReadiedAfter(s: State, c: ChipId, r: (State, bool))
    requires Inv(s) && Shape(s) && Shape(r.0) && ValidChip(s.g, c) && s.chips[c].act.None? && s.chips[c].gc.Some?
    requires Shape(EraseAndPromote(s, c)) && ReadiedFrom(EraseAndPromote(s, c), r, c.bus + 1, c.chip)
    ensures ReadiedFrom(s, r, c.bus, c.chip)
  {
    PromotedOne(s, c);
    hide InvAt, Shape, EraseAndPromote, Readied, Untouched, ReadiedFrom;
    ReadiedOn(s, EraseAndPromote(s, c), r, c);
  }

  lemma ReadiedSkip(s: State, c: ChipId, r: (State, bool))
    requires Shape(s) && Shape(r.0) && ValidChip(s.g, c) && s.chips[c].act.Some?
    requires ReadiedFrom(s, r, c.bus + 1, c.chip)
    ensures ReadiedFrom(s, r, c.bus, c.chip)
  {
    hide BlksShape, DiskShape, L2pShape, Listed, ReadiedFrom;
    ReadiedOn(s, s, r, c);
  }

  lemma ReadiedWrap(s: State, chip: nat, r: (State, bool))
    requires Shape(s) && Shape(r.0) && ReadiedFrom(s, r, 0, chip + 1)
    ensures ReadiedFrom(s, r, s.g.buses, chip)
  {
    assert forall x :: ValidChip(s.g, x) ==> (Passed(x, s.g.buses, chip) <==> Passed(x, 0, chip + 1));
    hide Shape, Untouched, Readied;
  }

  lemma ReadiedStop(s: State, c: ChipId, chip: nat)
    requires Shape(s)
    ensures ValidChip(s.g, c) && s.chips[c].act.None? && s.chips[c].gc.None? ==>
              ReadiedFrom(s, (s, false), c.bus, c.chip)
    ensures chip == s.g.chips ==> forall bus :: ReadiedFrom(s, (s, true), bus, chip)
  {
    hide BlksShape, DiskShape, L2pShape, Listed;
    if ValidChip(s.g, c) { assert !Passed(c, c.bus, c.chip); }
  }

  lemma {:induction false} PrepareFrom(s: State, bus: nat, chip: nat)
    requires Inv(s) && Shape(s) && bus <= s.g.buses && chip <= s.g.chips
    ensures Shape(Prepare(s, bus, chip).0) && ReadiedFrom(s, Prepare(s, bus, chip), bus, chip)
    decreases s.g.chips - chip, s.g.buses - bus
  {
    hide InvAt, View, EraseAndPromote, BlksShape, DiskShape, L2pShape, Listed, ReadiedFrom;
    var c := ChipId(bus, chip);
    ReadiedStop(s, c, chip);
    if chip < s.g.chips {
      if bus == s.g.buses {
        PrepareFrom(s, 0, chip + 1);
        ReadiedWrap(s, chip, Prepare(s, bus, chip));
      } else if s.chips[c].act.Some? {
        PrepareFrom(s, bus + 1, chip);
        ReadiedSkip(s, c, Prepare(s, bus, chip));
      } else if s.chips[c].gc.Some? {
        EraseAndPromoteOk(s, c);
        InvShape(EraseAndPromote(s, c));
        PrepareFrom(EraseAndPromote(s, c), bus + 1, chip);
        ReadiedAfter(s, c, Prepare(s, bus, chip));
      }
    }
  }

  /**
   * prepare_act_blks returns 0 if and only if every chip has an active or a GC block. Then a chip that had an
   * active block is as it was, and any other has its GC block as active block, erased, and an empty GC slot.
   */
  lemma PrepareExact(s: State)
    requires Inv(s)
    ensures Shape(s)
    ensures var r := Prepare(s, 0, 0);
            && Shape(r.0) && r.0 == s.(blks := r.0.blks, chips := r.0.chips, disk := r.0.disk)
            && (r.1 <==> forall c :: ValidChip(s.g, c) ==> s.chips[c].act.Some? || s.chips[c].gc.Some?)
            && (r.1 ==> forall c :: ValidChip(s.g, c) ==> Readied(s, r.0, c))
  {
    InvShape(s);
    hide InvAt, Shape, Readied;
    PrepareFrom(s, 0, 0);
    assert forall c: ChipId :: !Passed(c, 0, 0);
  }
}
