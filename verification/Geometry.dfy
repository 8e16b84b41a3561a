/**
 * The flash geometry and the addresses in it (libflashbench.h, constants.rs, vdevice.rs).
 * Every size is symbolic; Fits says which geometries the packed physical address can hold.
 */
module Geometry {

  /** (u32)PAGE_UNMAPPED */
  const PAGE_UNMAPPED: nat := 0xFFFF_FFFF

  const BUS_UNIT: nat := 0x1000_0000   // 1 << 28
  const CHIP_UNIT: nat := 0x100_0000   // 1 << 24
  const BLOCK_UNIT: nat := 0x1000      // 1 << 12

  /** buses, chips per bus, blocks per chip, pages per block, logical pages (slots) per page, L2P entries */
  datatype Geo = Geo(buses: nat, chips: nat, blocks: nat, pages: nat, slots: nat, entries: nat)

  datatype ChipId = ChipId(bus: nat, chip: nat)
  datatype BlkId = BlkId(c: ChipId, no: nat)
  datatype Addr = Addr(b: BlkId, pg: nat, lp: nat)

  /** The field widths of the packed address (4, 4, 12 and 12 bits), all-ones kept out. */
  predicate Fits(g: Geo) {
    && 1 <= g.buses <= 16 && 1 <= g.chips <= 16 && 1 <= g.blocks <= 4096
    && 1 <= g.pages && 1 <= g.slots && g.pages * g.slots <= 4096
    && !(g.buses == 16 && g.chips == 16 && g.blocks == 4096 && g.pages * g.slots == 4096)
    && g.entries <= PAGE_UNMAPPED
  }

  /** No size is zero: all the FTL needs of its geometry apart from the packing. */
  predicate Sane(g: Geo) {
    1 <= g.buses && 1 <= g.chips && 1 <= g.blocks && 1 <= g.pages && 1 <= g.slots && g.entries <= PAGE_UNMAPPED
  }

  /** One bus, two chips of 171 blocks of 192 pages of four slots, 90 percent of them mapped: rust/src/constants.rs. */
  const FLASHBENCH: Geo := Geo(1, 2, 171, 192, 4, 236390)

  lemma FlashbenchFits()
    ensures Fits(FLASHBENCH) && FLASHBENCH.entries == 2 * 171 * 192 * 4 * 90 / 100
  {
  }

  predicate ValidChip(g: Geo, c: ChipId) { c.bus < g.buses && c.chip < g.chips }
  predicate ValidBlk(g: Geo, b: BlkId) { ValidChip(g, b.c) && b.no < g.blocks }
  predicate ValidAddr(g: Geo, a: Addr) { ValidBlk(g, a.b) && a.pg < g.pages && a.lp < g.slots }

  /**
   * convert_to_physical_address(bus, chip, blk, pg << LP_PAGE_SHIFT | ofs). The fields are in
   * range and do not overlap, so each shift is a product and each `|` a sum.
   */
  function Pack(g: Geo, a: Addr): nat {
    a.b.c.bus * BUS_UNIT + a.b.c.chip * CHIP_UNIT + a.b.no * BLOCK_UNIT + (a.pg * g.slots + a.lp)
  }

  /** convert_to_ssd_layout, followed by the split of the page field by LP_PAGE_SHIFT and LP_PAGE_MASK. */
  function Unpack(g: Geo, u: nat): Addr
    requires g.slots > 0
  {
    var page := u % BLOCK_UNIT;
    Addr(BlkId(ChipId(u / BUS_UNIT % 16, u / CHIP_UNIT % 16), u / BLOCK_UNIT % 4096),
         page / g.slots, page % g.slots)
  }

  lemma SlotField(g: Geo, pg: nat, lp: nat)
    requires pg < g.pages && lp < g.slots
    ensures pg * g.slots + lp < g.pages * g.slots
    ensures (pg * g.slots + lp) / g.slots == pg && (pg * g.slots + lp) % g.slots == lp
  {
    assert (pg + 1) * g.slots <= g.pages * g.slots;
    DivMod(pg * g.slots + lp, g.slots, pg, lp);
  }

  lemma DivMod(n: nat, d: nat, q: nat, r: nat)
    requires d > 0 && r < d && n == q * d + r
    ensures n / d == q && n % d == r
  {
    var q', r' := n / d, n % d;
    assert n == q' * d + r';
    assert q' < q ==> (q' + 1) * d <= q * d;
    assert q' > q ==> (q + 1) * d <= q' * d;
  }

  /** The packed address gives back every field, and is never the unmapped mark. */
  lemma PackRoundTrip(g: Geo, a: Addr)
    requires Fits(g) && ValidAddr(g, a)
    ensures Unpack(g, Pack(g, a)) == a
    ensures Pack(g, a) < PAGE_UNMAPPED
  {
    SlotField(g, a.pg, a.lp);
    var f := a.pg * g.slots + a.lp;
    PackFields(a.b.c.bus, a.b.c.chip, a.b.no, f);
  }

  lemma PackFields(bus: nat, chip: nat, no: nat, f: nat)
    requires bus < 16 && chip < 16 && no < 4096 && f < 4096
    ensures var u := bus * BUS_UNIT + chip * CHIP_UNIT + no * BLOCK_UNIT + f;
            && u % BLOCK_UNIT == f && u / BLOCK_UNIT % 4096 == no
            && u / CHIP_UNIT % 16 == chip && u / BUS_UNIT % 16 == bus
            && u <= PAGE_UNMAPPED
            && (u == PAGE_UNMAPPED <==> bus == 15 && chip == 15 && no == 4095 && f == 4095)
  {
    var u := bus * BUS_UNIT + chip * CHIP_UNIT + no * BLOCK_UNIT + f;
    DivMod(u, BLOCK_UNIT, bus * 0x1_0000 + chip * 0x1000 + no, f);
    DivMod(bus * 0x1_0000 + chip * 0x1000 + no, 4096, bus * 16 + chip, no);
    DivMod(u, CHIP_UNIT, bus * 16 + chip, no * BLOCK_UNIT + f);
    DivMod(bus * 16 + chip, 16, bus, chip);
    DivMod(u, BUS_UNIT, bus, chip * CHIP_UNIT + no * BLOCK_UNIT + f);
  }

  /** get_next_bus_chip: the chip after `c`, bus first. */
  function NextChip(g: Geo, c: ChipId): ChipId
    requires g.buses > 0 && g.chips > 0
  {
    if c.bus == g.buses - 1 then ChipId(0, if c.chip == g.chips - 1 then 0 else c.chip + 1)
    else ChipId(c.bus + 1, c.chip)
  }
}
