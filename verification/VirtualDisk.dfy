/**
 * Where the pages of a bus lie in its memory (create_vdevice): why a disk can be seen as one image per
 * block. Extents of different pages do not meet, and an erase covers the pages of its block and no other byte.
 */
module VirtualDisk {
  import opened Geometry

  const PHYSICAL_PAGE_SIZE: nat := 16384

  /** The number of a page on its bus. */
  function PageNo(g: Geo, chip: nat, blk: nat, pg: nat): nat {
    (chip * g.blocks + blk) * g.pages + pg
  }

  /** ptr_data of the page, relative to the memory of its bus. */
  function Offset(g: Geo, chip: nat, blk: nat, pg: nat): nat {
    (chip * g.blocks * g.pages + blk * g.pages + pg) * PHYSICAL_PAGE_SIZE
  }

  lemma OffsetIsPageNo(g: Geo, chip: nat, blk: nat, pg: nat)
    ensures Offset(g, chip, blk, pg) == PageNo(g, chip, blk, pg) * PHYSICAL_PAGE_SIZE
  {
    assert (chip * g.blocks + blk) * g.pages == chip * g.blocks * g.pages + blk * g.pages;
  }

  /** Pages are numbered without gaps or repetition. */
  lemma PageNoInjective(g: Geo, chip: nat, blk: nat, pg: nat, chip': nat, blk': nat, pg': nat)
    requires blk < g.blocks && pg < g.pages && blk' < g.blocks && pg' < g.pages
    requires PageNo(g, chip, blk, pg) == PageNo(g, chip', blk', pg')
    ensures chip == chip' && blk == blk' && pg == pg'
  {
    var b, b' := chip * g.blocks + blk, chip' * g.blocks + blk';
    DivMod(PageNo(g, chip, blk, pg), g.pages, b, pg);
    DivMod(PageNo(g, chip', blk', pg'), g.pages, b', pg');
    DivMod(b, g.blocks, chip, blk);
    DivMod(b', g.blocks, chip', blk');
  }

  /** Byte x of the bus memory lies in the page. */
  predicate InPage(g: Geo, chip: nat, blk: nat, pg: nat, x: nat) {
    Offset(g, chip, blk, pg) <= x < Offset(g, chip, blk, pg) + PHYSICAL_PAGE_SIZE
  }

  /** Byte x is overwritten by vdevice_erase of the block. */
  predicate InErase(g: Geo, chip: nat, blk: nat, x: nat) {
    Offset(g, chip, blk, 0) <= x < Offset(g, chip, blk, 0) + g.pages * PHYSICAL_PAGE_SIZE
  }

  lemma PageOfByte(g: Geo, chip: nat, blk: nat, pg: nat, x: nat)
    ensures InPage(g, chip, blk, pg, x) <==> x / PHYSICAL_PAGE_SIZE == PageNo(g, chip, blk, pg)
  {
    OffsetIsPageNo(g, chip, blk, pg);
  }

  /** No byte belongs to two pages. */
  lemma PagesApart(g: Geo, chip: nat, blk: nat, pg: nat, chip': nat, blk': nat, pg': nat, x: nat)
    requires blk < g.blocks && pg < g.pages && blk' < g.blocks && pg' < g.pages
    requires InPage(g, chip, blk, pg, x) && InPage(g, chip', blk', pg', x)
    ensures chip == chip' && blk == blk' && pg == pg'
  {
    PageOfByte(g, chip, blk, pg, x);
    PageOfByte(g, chip', blk', pg', x);
    PageNoInjective(g, chip, blk, pg, chip', blk', pg');
  }

  /** The bytes vdevice_erase overwrites are exactly those of the pages of its block. */
  lemma EraseExact(g: Geo, chip: nat, blk: nat, x: nat)
    requires blk < g.blocks
    ensures InErase(g, chip, blk, x) <==> exists pg :: 0 <= pg < g.pages && InPage(g, chip, blk, pg, x)
  {
    OffsetIsPageNo(g, chip, blk, 0);
    var first := PageNo(g, chip, blk, 0);
    var n := x / PHYSICAL_PAGE_SIZE;
    assert InErase(g, chip, blk, x) <==> first <= n < first + g.pages;
    if InErase(g, chip, blk, x) {
      PageOfByte(g, chip, blk, n - first, x);
    }
    if pg :| 0 <= pg < g.pages && InPage(g, chip, blk, pg, x) {
      PageOfByte(g, chip, blk, pg, x);
    }
  }
}
