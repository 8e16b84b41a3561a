/**
 * The state of the flash translation layer, its invariant, and what a reader of the flash sees.
 */
module FtlState {
  import opened Common
  import opened Geometry
  import opened Blocks

  /** One logical page of data; the erased page is all 0xff. */
  datatype Data = Data(bytes: seq<bv8>)

  const LOGICAL_PAGE_SIZE: nat := 4096
  const ERASED: Data := Data(seq(LOGICAL_PAGE_SIZE, _ => 0xFF))

  /**
   * What is kept per chip: the block lists of flash_chip with their counts, and the chip's entry
   * of act_blks, gc_blks, vic_blks and first_valid_pg.
   */
  datatype Chip = Chip(free: seq<nat>, used: seq<nat>, dirt: seq<nat>,
                       nrFree: int, nrUsed: int, nrDirt: int,
                       act: Option<nat>, gc: Option<nat>, vic: Option<nat>, firstPg: nat)

  /** lpaBuf, dataBuf and nrCopy are lpas_to_copy, data_to_copy and nr_pgs_to_copy of the GC manager. */
  datatype State = State(g: Geo, l2p: map<nat, Addr>, blks: map<BlkId, Block>, chips: map<ChipId, Chip>,
                         disk: map<BlkId, seq<seq<Data>>>, mru: ChipId,
                         lpaBuf: seq<nat>, dataBuf: seq<Data>, nrCopy: nat)

  // ---- shape: every index used by the transitions is in range --------------------------------------------------

  ghost predicate BlksShape(g: Geo, blks: map<BlkId, Block>) {
    forall b :: ValidBlk(g, b) ==> b in blks && BlockShape(g, blks[b])
  }

  predicate ImageShape(g: Geo, image: seq<seq<Data>>) {
    |image| == g.pages && forall p :: 0 <= p < |image| ==> |image[p]| == g.slots
  }

  ghost predicate DiskShape(g: Geo, disk: map<BlkId, seq<seq<Data>>>) {
    forall b :: ValidBlk(g, b) ==> b in disk && ImageShape(g, disk[b])
  }

  ghost predicate Listed(g: Geo, ch: Chip) {
    && (forall x :: x in ch.free || x in ch.used || x in ch.dirt ==> x < g.blocks)
    && (ch.act.Some? ==> ch.act.value < g.blocks)
    && (ch.gc.Some? ==> ch.gc.value < g.blocks)
    && (ch.vic.Some? ==> ch.vic.value < g.blocks) && ch.firstPg <= g.pages
  }

  ghost predicate ChipsShape(g: Geo, chips: map<ChipId, Chip>) {
    forall c :: ValidChip(g, c) ==> c in chips && Listed(g, chips[c])
  }

  ghost predicate L2pShape(g: Geo, l2p: map<nat, Addr>) {
    forall lpa :: lpa in l2p ==> ValidAddr(g, l2p[lpa])
  }

  ghost predicate Shape(s: State) {
    && Sane(s.g) && ValidChip(s.g, s.mru)
    && BlksShape(s.g, s.blks) && DiskShape(s.g, s.disk) && ChipsShape(s.g, s.chips) && L2pShape(s.g, s.l2p)
  }

  // ---- lookups -------------------------------------------------------------------------------------------------

  function StatusAt(g: Geo, blks: map<BlkId, Block>, a: Addr): Status
    requires BlksShape(g, blks) && ValidAddr(g, a)
  {
    blks[a.b].pages[a.pg].status[a.lp]
  }

  function LpaAt(g: Geo, blks: map<BlkId, Block>, a: Addr): nat
    requires BlksShape(g, blks) && ValidAddr(g, a)
  {
    blks[a.b].pages[a.pg].lpa[a.lp]
  }

  function DataAt(g: Geo, disk: map<BlkId, seq<seq<Data>>>, a: Addr): Data
    requires DiskShape(g, disk) && ValidAddr(g, a)
  {
    disk[a.b][a.pg][a.lp]
  }

  /** The data a table names on a disk. */
  ghost function ViewOf(g: Geo, disk: map<BlkId, seq<seq<Data>>>, l2p: map<nat, Addr>): map<nat, Data>
    requires DiskShape(g, disk) && L2pShape(g, l2p)
  {
    map lpa | lpa in l2p :: DataAt(g, disk, l2p[lpa])
  }

  /** What the flash holds for each mapped logical page. */
  ghost function View(s: State): map<nat, Data>
    requires Shape(s)
  {
    ViewOf(s.g, s.disk, s.l2p)
  }

  // ---- invariant -----------------------------------------------------------------------------------------------

  /** Block `cur` has k slots of its next page programmed; every other block is between pages. */
  ghost predicate BlksOk(g: Geo, blks: map<BlkId, Block>, cur: Option<BlkId>, k: nat) {
    forall b :: ValidBlk(g, b) ==> b in blks && BlockAt(g, blks[b], if cur == Some(b) then k else 0)
  }

  /** L2P and P2L are inverse: a slot is VALID exactly when the table maps the page it records to it. */
  ghost predicate Biject(g: Geo, l2p: map<nat, Addr>, blks: map<BlkId, Block>)
    requires BlksShape(g, blks)
  {
    && (forall lpa :: lpa in l2p ==>
          && lpa < g.entries && ValidAddr(g, l2p[lpa])
          && StatusAt(g, blks, l2p[lpa]) == Valid && LpaAt(g, blks, l2p[lpa]) == lpa)
    && (forall a :: ValidAddr(g, a) && StatusAt(g, blks, a) == Valid ==>
          LpaAt(g, blks, a) in l2p && l2p[LpaAt(g, blks, a)] == a)
  }

  function OptBag(x: Option<nat>): multiset<nat> {
    if x.Some? then multiset{x.value} else multiset{}
  }

  /** All owners of a chip's blocks, counted with multiplicity. */
  ghost function Owners(ch: Chip): multiset<nat> {
    multiset(ch.free) + multiset(ch.used) + multiset(ch.dirt) + OptBag(ch.act) + OptBag(ch.gc)
  }

  /** Free list, used list, dirt list, active slot and GC slot partition the chip; list counts are exact. */
  ghost predicate Partition(g: Geo, ch: Chip) {
    && Owners(ch) == multiset(Below(g.blocks))
    && ch.nrFree == |ch.free| && ch.nrUsed == |ch.used| && ch.nrDirt == |ch.dirt|
  }

  predicate Fresh(g: Geo, b: Block) { b.nrFreePgs == g.pages }
  predicate NothingLive(b: Block) { b.nrValidLps == 0 }
  predicate InUse(g: Geo, b: Block) { b.nrFreePgs == 0 && b.nrInvalidPgs < g.pages }

  /** What each owner promises about its blocks. Only `cur` may be an active block without a free page. */
  ghost predicate Roles(g: Geo, c: ChipId, ch: Chip, blks: map<BlkId, Block>, cur: Option<BlkId>)
    requires ValidChip(g, c) && Listed(g, ch) && BlksShape(g, blks)
  {
    && (forall x :: x in ch.free ==> Fresh(g, blks[BlkId(c, x)]))
    && (forall x :: x in ch.used ==> InUse(g, blks[BlkId(c, x)]))
    && (forall x :: x in ch.dirt ==> NothingLive(blks[BlkId(c, x)]))
    && (ch.gc.Some? ==> NothingLive(blks[BlkId(c, ch.gc.value)]))
    && (ch.act.Some? ==> cur == Some(BlkId(c, ch.act.value)) || blks[BlkId(c, ch.act.value)].nrFreePgs > 0)
  }

  ghost predicate ChipsOk(g: Geo, chips: map<ChipId, Chip>, blks: map<BlkId, Block>, cur: Option<BlkId>)
    requires ChipsShape(g, chips) && BlksShape(g, blks)
  {
    forall c :: ValidChip(g, c) ==> Partition(g, chips[c]) && Roles(g, c, chips[c], blks, cur)
  }

  /** The block being programmed is the active block of its chip. */
  ghost predicate CurActive(g: Geo, chips: map<ChipId, Chip>, cur: Option<BlkId>)
    requires ChipsShape(g, chips)
  {
    cur.Some? ==> ValidBlk(g, cur.value) && chips[cur.value.c].act == Some(cur.value.no)
  }

  /** The FTL invariant with k slots of a page of block `cur` programmed. */
  ghost predicate InvAt(s: State, cur: Option<BlkId>, k: nat) {
    && Shape(s) && BlksOk(s.g, s.blks, cur, k) && Biject(s.g, s.l2p, s.blks)
    && ChipsOk(s.g, s.chips, s.blks, cur) && CurActive(s.g, s.chips, cur)
  }

  /** The FTL invariant between operations. */
  ghost predicate Inv(s: State) { InvAt(s, None, 0) }

  // ---- consequences --------------------------------------------------------------------------------------------

  lemma InvShape(s: State)
    requires Inv(s)
    ensures Shape(s) && Sane(s.g)
  {
    hide BlksOk, Biject, ChipsOk;
  }

  /** The owners exclude one another. */
  lemma OneOwner(g: Geo, ch: Chip, x: nat)
    requires Partition(g, ch)
    ensures x in ch.used ==> x < g.blocks && x !in ch.free && x !in ch.dirt && ch.act != Some(x) && ch.gc != Some(x)
    ensures x in ch.free ==> x < g.blocks && x !in ch.used && x !in ch.dirt && ch.act != Some(x) && ch.gc != Some(x)
    ensures x in ch.dirt ==> x < g.blocks && x !in ch.used && x !in ch.free && ch.act != Some(x) && ch.gc != Some(x)
    ensures ch.act == Some(x) ==> x < g.blocks && ch.gc != Some(x)
    ensures ch.gc == Some(x) ==> x < g.blocks && ch.act != Some(x)
    ensures x < g.blocks ==> x in ch.used || x in ch.free || x in ch.dirt || ch.act == Some(x) || ch.gc == Some(x)
  {
    var m := Owners(ch);
    assert m[x] == multiset(ch.free)[x] + multiset(ch.used)[x] + multiset(ch.dirt)[x]
                 + OptBag(ch.act)[x] + OptBag(ch.gc)[x];
    assert m[x] == if x in Below(g.blocks) then 1 else 0;
    assert x in ch.used <==> multiset(ch.used)[x] > 0;
    assert x in ch.free <==> multiset(ch.free)[x] > 0;
    assert x in ch.dirt <==> multiset(ch.dirt)[x] > 0;
  }

  /** Replacing the record of one chip, the chip of `cur` if any, and closing `cur`. */
  lemma SetChip(g: Geo, chips: map<ChipId, Chip>, blks: map<BlkId, Block>, cur: Option<BlkId>, c: ChipId, ch: Chip)
    requires ChipsShape(g, chips) && BlksShape(g, blks) && ChipsOk(g, chips, blks, cur) && ValidChip(g, c)
    requires cur.Some? ==> cur.value.c == c
    requires Listed(g, ch) && Partition(g, ch) && Roles(g, c, ch, blks, None)
    ensures ChipsShape(g, chips[c := ch]) && ChipsOk(g, chips[c := ch], blks, None)
  {
    hide Partition, Listed;
    forall x | ValidChip(g, x) ensures Partition(g, chips[c := ch][x]) && Roles(g, x, chips[c := ch][x], blks, None) {
    }
  }

  /** No block is being programmed: naming one whose page count is not zero makes no difference. */
  lemma BlksOkIdle(g: Geo, blks: map<BlkId, Block>, cur: Option<BlkId>, cur': Option<BlkId>)
    requires BlksOk(g, blks, cur, 0)
    ensures BlksOk(g, blks, cur', 0)
  {
    hide BlockAt;
  }
}
