/**
 * One flash block: its pages, the status of every slot, and the counters kept beside them
 * (ssd_info.c, and the block-local part of page_mapping_function.rs).
 */
module Blocks {
  import opened Common
  import opened Geometry

  datatype Status = Free | Valid | Invalid

  datatype Page = Page(status: seq<Status>, lpa: seq<nat>, nrInvalidLps: int)

  datatype Block = Block(pages: seq<Page>, nrValidPgs: int, nrInvalidPgs: int, nrFreePgs: int,
                         nrValidLps: int, nrInvalidLps: int, nrErase: nat)

  predicate PageShape(p: Page, slots: nat) { |p.status| == |p.lpa| == slots }

  predicate BlockShape(g: Geo, b: Block) {
    |b.pages| == g.pages && forall p :: 0 <= p < |b.pages| ==> PageShape(b.pages[p], g.slots)
  }

  // ---- recounts ------------------------------------------------------------------------------------------------

  ghost function SlotsIn(p: Page, x: Status): set<nat> {
    set i: nat | i < |p.status| && p.status[i] == x
  }

  ghost function BlockSlots(g: Geo, b: Block, x: Status): set<(nat, nat)>
    requires BlockShape(g, b)
  {
    set q | q in Grid(g.pages, g.slots) && b.pages[q.0].status[q.1] == x
  }

  ghost function DeadPages(b: Block, slots: nat): set<nat> {
    set p: nat | p < |b.pages| && b.pages[p].nrInvalidLps == slots
  }

  // ---- invariant -----------------------------------------------------------------------------------------------

  /** A page whose first n slots are programmed, its invalid count exact. */
  ghost predicate PageAt(p: Page, slots: nat, n: nat) {
    && PageShape(p, slots)
    && (forall i :: 0 <= i < slots ==> (p.status[i] == Free <==> n <= i))
    && p.nrInvalidLps == |SlotsIn(p, Invalid)|
  }

  /** How many slots of page p are programmed when the write point is page w, slot k. */
  function Programmed(slots: nat, w: int, k: nat, p: int): nat {
    if p < w then slots else if p == w then k else 0
  }

  /** Programming is in page order: pages below w are full, page w has k slots done, the rest are free. */
  ghost predicate PagesAt(g: Geo, b: Block, w: int, k: nat) {
    && BlockShape(g, b)
    && forall p :: 0 <= p < g.pages ==> PageAt(b.pages[p], g.slots, Programmed(g.slots, w, k, p))
  }

  /** Every block counter equals its recount. */
  ghost predicate CountsExact(g: Geo, b: Block)
    requires BlockShape(g, b)
  {
    && b.nrValidLps == |BlockSlots(g, b, Valid)|
    && b.nrInvalidLps == |BlockSlots(g, b, Invalid)|
    && b.nrInvalidPgs == |DeadPages(b, g.slots)|
    && b.nrValidPgs + b.nrInvalidPgs + b.nrFreePgs == g.pages
  }

  /**
   * The block invariant with k slots of the page being programmed already done (k == 0 between
   * page programs).
   */
  ghost predicate BlockAt(g: Geo, b: Block, k: nat) {
    && 0 <= b.nrFreePgs <= g.pages
    && PagesAt(g, b, g.pages - b.nrFreePgs, k)
    && (k > 0 ==> k < g.slots && 0 < b.nrFreePgs && b.pages[g.pages - b.nrFreePgs].status[0] == Valid)
    && CountsExact(g, b)
  }

  // ---- the block-local part of each transition -----------------------------------------------------------------

  /** invalidate_lpg, as far as the block goes. */
  function InvalidateSlot(g: Geo, b: Block, p: nat, i: nat): Block
    requires BlockShape(g, b) && p < g.pages && i < g.slots
  {
    var pg := b.pages[p];
    var pg' := pg.(status := pg.status[i := Invalid], nrInvalidLps := pg.nrInvalidLps + 1);
    var b' := b.(pages := b.pages[p := pg'],
                 nrInvalidLps := b.nrInvalidLps + 1, nrValidLps := b.nrValidLps - 1);
    if pg'.nrInvalidLps == g.slots
    then b'.(nrValidPgs := b.nrValidPgs - 1, nrInvalidPgs := b.nrInvalidPgs + 1)
    else b'
  }

  /** __map_logical_to_physical after invalidate_lpg, as far as the destination block goes. */
  function ProgramSlot(g: Geo, b: Block, p: nat, i: nat, lpa: nat): Block
    requires BlockShape(g, b) && p < g.pages && i < g.slots
  {
    var pg := b.pages[p];
    var pg' := if lpa != PAGE_UNMAPPED
               then pg.(status := pg.status[i := Valid], lpa := pg.lpa[i := lpa])
               else pg.(status := pg.status[i := Invalid], lpa := pg.lpa[i := lpa],
                        nrInvalidLps := pg.nrInvalidLps + 1);
    var b' := if lpa != PAGE_UNMAPPED
              then b.(pages := b.pages[p := pg'], nrValidLps := b.nrValidLps + 1)
              else b.(pages := b.pages[p := pg'], nrInvalidLps := b.nrInvalidLps + 1);
    if i == g.slots - 1
    then b'.(nrValidPgs := b'.nrValidPgs + 1, nrFreePgs := b'.nrFreePgs - 1)
    else b'
  }

  function FreePage(slots: nat): Page {
    Page(seq(slots, _ => Free), seq(slots, _ => PAGE_UNMAPPED), 0)
  }

  /** create_ssd_info and init_blk_inf leave the same block, up to the erase count. */
  function FreeBlock(g: Geo, nrErase: nat): Block {
    Block(seq(g.pages, _ => FreePage(g.slots)), 0, 0, g.pages, 0, 0, nrErase)
  }

  // ---- lemmas --------------------------------------------------------------------------------------------------

  lemma FreeBlockOk(g: Geo, n: nat)
    requires Sane(g)
    ensures BlockAt(g, FreeBlock(g, n), 0)
  {
    var b := FreeBlock(g, n);
    forall p | 0 <= p < g.pages ensures PageAt(b.pages[p], g.slots, 0) {
      assert SlotsIn(b.pages[p], Invalid) == {};
    }
    assert BlockSlots(g, b, Valid) == {} && BlockSlots(g, b, Invalid) == {};
    assert DeadPages(b, g.slots) == {};
  }

  /** A page is dead exactly when every slot is invalid. */
  lemma DeadPage(p: Page, slots: nat)
    requires PageShape(p, slots) && p.nrInvalidLps == |SlotsIn(p, Invalid)|
    ensures 0 <= p.nrInvalidLps <= slots
    ensures p.nrInvalidLps == slots <==> forall i :: 0 <= i < slots ==> p.status[i] == Invalid
  {
    BoundedCard(SlotsIn(p, Invalid), slots);
    if p.nrInvalidLps == slots {
      forall i | 0 <= i < slots ensures p.status[i] == Invalid { assert i in Below(slots); }
    }
    if forall i :: 0 <= i < slots ==> p.status[i] == Invalid {
      assert SlotsIn(p, Invalid) == Below(slots);
    }
  }

  lemma PageSlotChange(p: Page, p': Page, slots: nat, n: nat, n': nat, i: nat, x: Status)
    requires PageAt(p, slots, n) && i < slots && x != Free && PageShape(p', slots)
    requires p'.status == p.status[i := x] && p.status[i] != Invalid
    requires p'.nrInvalidLps == p.nrInvalidLps + if x == Invalid then 1 else 0
    requires if p.status[i] == Free then i == n && n' == n + 1 else n' == n
    ensures PageAt(p', slots, n')
  {
    assert SlotsIn(p', Invalid) == if x == Invalid then SlotsIn(p, Invalid) + {i} else SlotsIn(p, Invalid);
  }

  /** Slot i of page p of b' turns into x; nothing else in the pages differs from b. */
  ghost predicate SlotChanged(g: Geo, b: Block, b': Block, p: nat, i: nat, x: Status) {
    && BlockShape(g, b) && BlockShape(g, b') && p < g.pages && i < g.slots
    && b'.pages == b.pages[p := b'.pages[p]] && b'.pages[p].status == b.pages[p].status[i := x]
    && b.pages[p].status[i] != x
  }

  lemma SlotSetsChange(g: Geo, b: Block, b': Block, p: nat, i: nat, x: Status, y: Status)
    requires SlotChanged(g, b, b', p, i, x)
    ensures |BlockSlots(g, b', y)|
         == |BlockSlots(g, b, y)| + (if y == x then 1 else 0) - (if y == b.pages[p].status[i] then 1 else 0)
  {
    var s, s' := BlockSlots(g, b, y), BlockSlots(g, b', y);
    assert forall q :: q in Grid(g.pages, g.slots) && q != (p, i) ==> (q in s <==> q in s') by {
      forall q | q in Grid(g.pages, g.slots) && q != (p, i)
        ensures b'.pages[q.0].status[q.1] == b.pages[q.0].status[q.1]
      {
        if q.0 == p { assert q.1 != i; }
      }
    }
    OnePairApart(s, s', (p, i));
  }

  lemma OnePairApart(s: set<(nat, nat)>, s': set<(nat, nat)>, x: (nat, nat))
    requires forall q :: q != x ==> (q in s <==> q in s')
    ensures |s'| == |s| + (if x in s' then 1 else 0) - (if x in s then 1 else 0)
  {
    assert s - {x} == s' - {x};
    assert |s - {x}| == |s| - if x in s then 1 else 0;
    assert |s' - {x}| == |s'| - if x in s' then 1 else 0;
  }

  lemma DeadPagesChange(g: Geo, b: Block, b': Block, p: nat, i: nat, x: Status)
    requires SlotChanged(g, b, b', p, i, x)
    requires b.pages[p].nrInvalidLps != g.slots
    ensures |DeadPages(b', g.slots)|
         == |DeadPages(b, g.slots)| + if b'.pages[p].nrInvalidLps == g.slots then 1 else 0
  {
    assert DeadPages(b', g.slots) ==
      if b'.pages[p].nrInvalidLps == g.slots then DeadPages(b, g.slots) + {p} else DeadPages(b, g.slots);
  }

  lemma InvalidateSlotPages(g: Geo, b: Block, w: int, k: nat, p: nat, i: nat)
    requires PagesAt(g, b, w, k) && p < w && p < g.pages && i < g.slots && b.pages[p].status[i] == Valid
    ensures PagesAt(g, InvalidateSlot(g, b, p, i), w, k)
  {
    PageSlotChange(b.pages[p], InvalidateSlot(g, b, p, i).pages[p], g.slots, g.slots, g.slots, i, Invalid);
  }

  /** InvalidateSlot changes one valid slot below the write point and keeps every counter exact. */
  lemma InvalidateSlotOk(g: Geo, b: Block, k: nat, p: nat, i: nat)
    requires Sane(g) && BlockAt(g, b, k)
    requires p < g.pages - b.nrFreePgs && i < g.slots && b.pages[p].status[i] == Valid
    ensures BlockAt(g, InvalidateSlot(g, b, p, i), k)
  {
    hide SlotsIn;
    var b' := InvalidateSlot(g, b, p, i);
    InvalidateSlotPages(g, b, g.pages - b.nrFreePgs, k, p, i);
    SlotSetsChange(g, b, b', p, i, Invalid, Invalid);
    SlotSetsChange(g, b, b', p, i, Invalid, Valid);
    DeadPage(b.pages[p], g.slots);
    DeadPagesChange(g, b, b', p, i, Invalid);
  }

  lemma ProgramSlotPages(g: Geo, b: Block, w: nat, k: nat, lpa: nat)
    requires PagesAt(g, b, w, k) && w < g.pages && k < g.slots
    ensures var b' := ProgramSlot(g, b, w, k, lpa);
            if k == g.slots - 1 then PagesAt(g, b', w + 1, 0) else PagesAt(g, b', w, k + 1)
  {
    PageSlotChange(b.pages[w], ProgramSlot(g, b, w, k, lpa).pages[w], g.slots, k, k + 1, k,
                   if lpa != PAGE_UNMAPPED then Valid else Invalid);
  }

  lemma ProgramSlotCounts(g: Geo, b: Block, w: nat, k: nat, lpa: nat)
    requires PagesAt(g, b, w, k) && CountsExact(g, b) && w < g.pages && k < g.slots
    requires k == 0 ==> lpa != PAGE_UNMAPPED
    requires k > 0 ==> b.pages[w].status[0] == Valid
    ensures var b' := ProgramSlot(g, b, w, k, lpa);
            BlockShape(g, b') && CountsExact(g, b') && b'.pages[w].status[0] == Valid
  {
    var b' := ProgramSlot(g, b, w, k, lpa);
    var x := if lpa != PAGE_UNMAPPED then Valid else Invalid;
    ProgramSlotPages(g, b, w, k, lpa);
    assert PageAt(b.pages[w], g.slots, k) && PageAt(b'.pages[w], g.slots, k + 1);
    hide SlotsIn, PagesAt;
    SlotSetsChange(g, b, b', w, k, x, Invalid);
    SlotSetsChange(g, b, b', w, k, x, Valid);
    DeadPage(b.pages[w], g.slots);
    DeadPage(b'.pages[w], g.slots);
    DeadPagesChange(g, b, b', w, k, x);
  }

  /** ProgramSlot advances the write point by one slot and keeps every counter exact. */
  lemma ProgramSlotOk(g: Geo, b: Block, k: nat, lpa: nat)
    requires Sane(g) && BlockAt(g, b, k) && 0 < b.nrFreePgs && k < g.slots
    requires k == 0 ==> lpa != PAGE_UNMAPPED
    ensures var b' := ProgramSlot(g, b, g.pages - b.nrFreePgs, k, lpa);
            BlockAt(g, b', if k == g.slots - 1 then 0 else k + 1)
  {
    hide CountsExact, PageAt;
    ProgramSlotPages(g, b, g.pages - b.nrFreePgs, k, lpa);
    ProgramSlotCounts(g, b, g.pages - b.nrFreePgs, k, lpa);
  }

  /** A VALID slot outside the page being programmed lies below the write point and is counted. */
  lemma ValidSlotBelow(g: Geo, b: Block, k: nat, p: nat, i: nat)
    requires BlockAt(g, b, k) && p < g.pages && i < g.slots && b.pages[p].status[i] == Valid
    requires k == 0 || p != g.pages - b.nrFreePgs
    ensures p < g.pages - b.nrFreePgs
    ensures b.nrValidLps > 0 && b.nrValidPgs > 0
  {
    var w := g.pages - b.nrFreePgs;
    assert PageAt(b.pages[p], g.slots, Programmed(g.slots, w, k, p));
    assert (p, i) in BlockSlots(g, b, Valid);
    DeadPage(b.pages[p], g.slots);
    forall q | q in DeadPages(b, g.slots) ensures q < w && q != p {
      DeadPage(b.pages[q], g.slots);
      assert PageAt(b.pages[q], g.slots, Programmed(g.slots, w, k, q));
      assert b.pages[q].status[g.slots - 1] == Invalid;
    }
    BoundedCard(DeadPages(b, g.slots) + {p}, w);
  }

  /** All pages dead: the block is fully programmed, not in the middle of a page, and holds nothing live. */
  lemma LastLiveBlock(g: Geo, b: Block, k: nat)
    requires Sane(g) && BlockAt(g, b, k) && b.nrInvalidPgs == g.pages
    ensures k == 0 && b.nrFreePgs == 0 && b.nrValidLps == 0
  {
    BoundedCard(DeadPages(b, g.slots), g.pages);
    forall p: nat, i: nat | p < g.pages && i < g.slots ensures b.pages[p].status[i] == Invalid {
      assert p in Below(g.pages);
      DeadPage(b.pages[p], g.slots);
    }
    assert BlockSlots(g, b, Valid) == {};
    assert b.pages[g.pages - 1].status[0] != Free;
  }

  /** A fully programmed block without a valid slot has only dead pages. */
  lemma NoValidAllDead(g: Geo, b: Block)
    requires Sane(g) && BlockAt(g, b, 0) && b.nrFreePgs == 0 && b.nrValidLps == 0
    ensures b.nrInvalidPgs == g.pages
  {
    forall p: nat | p < g.pages ensures p in DeadPages(b, g.slots) {
      DeadPage(b.pages[p], g.slots);
      forall i | 0 <= i < g.slots ensures b.pages[p].status[i] == Invalid {
        assert (p, i) !in BlockSlots(g, b, Valid);
      }
    }
    assert DeadPages(b, g.slots) == Below(g.pages);
    BelowCard(g.pages);
  }
}
