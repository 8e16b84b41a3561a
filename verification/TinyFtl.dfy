/**
 * The FTL at its smallest: one chip with three blocks of two pages of one slot. What single operations do
 * to it, as far as the run of Rollback needs them.
 */
module TinyFtl {
  import opened Common
  import opened Geometry
  import opened Blocks
  import opened FtlState
  import opened Mapping
  import opened Filling
  import opened Program
  import opened Erase
  import opened Victims
  import opened Copying
  import opened Gc
  import opened RoundRobin
  import opened BackgroundGc
  import opened StaleVictim
  import opened Requests

  const TINY: Geo := Geo(1, 1, 3, 2, 1, 4)
  const C0: ChipId := ChipId(0, 0)

  function Blk(i: nat): BlkId { BlkId(C0, i) }
  function At(i: nat, p: nat): Addr { Addr(Blk(i), p, 0) }

  /** All there is to say of the FTL state: the chip record, the table and the free pages of each block. */
  ghost predicate Conf(s: State, ch: Chip, l2p: map<nat, Addr>, fr: seq<int>) {
    && Ready(s) && Shape(s) && s.g == TINY && |fr| == 3 && s.chips[C0] == ch && s.l2p == l2p
    && forall i: nat :: i < 3 ==> s.blks[Blk(i)].nrFreePgs == fr[i]
  }

  lemma OnlyChip(s: State, ch: Chip, l2p: map<nat, Addr>, fr: seq<int>)
    requires Conf(s, ch, l2p, fr)
    ensures s.mru == C0 && NextChip(TINY, C0) == C0 && NextOf(s) == C0
    ensures forall c :: ValidChip(TINY, c) ==> c == C0
  {
    hide Ready, BlksShape, DiskShape, ChipsShape, L2pShape;
  }

  // ---- the blocks, from the invariant --------------------------------------------------------------------------

  /** A page is free from the write point on; below it, it is VALID if mapped and dead if not. */
  lemma PageFacts(s: State, ch: Chip, l2p: map<nat, Addr>, fr: seq<int>, i: nat, p: nat)
    requires Conf(s, ch, l2p, fr) && i < 3 && p < 2
    ensures 0 <= fr[i] <= 2
    ensures StatusAt(TINY, s.blks, At(i, p)) ==
              if p >= 2 - fr[i] then Free else if exists x :: x in l2p && l2p[x] == At(i, p) then Valid else Invalid
    ensures s.blks[Blk(i)].pages[p].nrInvalidLps == if StatusAt(TINY, s.blks, At(i, p)) == Invalid then 1 else 0
  {
    assert Biject(s.g, s.l2p, s.blks);
    assert BlockAt(s.g, s.blks[Blk(i)], 0);
    var pg := s.blks[Blk(i)].pages[p];
    assert PageAt(pg, 1, Programmed(1, 2 - fr[i], 0, p));
    hide ChipsOk, BlksOk, PagesAt, CountsExact, BlockAt;
    assert SlotsIn(pg, Invalid) == if pg.status[0] == Invalid then {0} else {};
    if StatusAt(s.g, s.blks, At(i, p)) == Valid { assert l2p[LpaAt(s.g, s.blks, At(i, p))] == At(i, p); }
  }

  lemma DeadSum(b: Block)
    requires BlockShape(TINY, b) && b.nrInvalidPgs == |DeadPages(b, 1)|
    requires 0 <= b.pages[0].nrInvalidLps <= 1 && 0 <= b.pages[1].nrInvalidLps <= 1
    ensures b.nrInvalidPgs == b.pages[0].nrInvalidLps + b.pages[1].nrInvalidLps
  {
    var d := DeadPages(b, 1);
    assert forall p :: p in d <==> (p == 0 || p == 1) && b.pages[p].nrInvalidLps == 1;
    hide BlockShape, DeadPages;
    if b.pages[0].nrInvalidLps == 1 {
      if b.pages[1].nrInvalidLps == 1 { assert d == {0, 1}; } else { assert d == {0}; }
    } else {
      if b.pages[1].nrInvalidLps == 1 { assert d == {1}; } else { assert d == {}; }
    }
  }

  lemma ExactCounts(s: State, i: nat)
    requires Inv(s) && Shape(s) && s.g == TINY && i < 3
    ensures BlockShape(TINY, s.blks[Blk(i)]) && s.blks[Blk(i)].nrInvalidPgs == |DeadPages(s.blks[Blk(i)], 1)|
  {
    assert BlockAt(s.g, s.blks[Blk(i)], 0);
  }

  /** The dead pages of a block, counted. */
  lemma DeadCount(s: State, ch: Chip, l2p: map<nat, Addr>, fr: seq<int>, i: nat)
    requires Conf(s, ch, l2p, fr) && i < 3
    ensures s.blks[Blk(i)].nrInvalidPgs == s.blks[Blk(i)].pages[0].nrInvalidLps + s.blks[Blk(i)].pages[1].nrInvalidLps
  {
    hide InvAt, DiskShape, ChipsShape, L2pShape, StatusAt, DeadPages;
    ExactCounts(s, i);
    PageFacts(s, ch, l2p, fr, i, 0);
    PageFacts(s, ch, l2p, fr, i, 1);
    DeadSum(s.blks[Blk(i)]);
  }

  // ---- a page write --------------------------------------------------------------------------------------------

  /** The chip after a page has been programmed into its active block, which had n free pages. */
  function Filled1(ch: Chip, n: int): Chip
    requires ch.act.Some?
  {
    if n == 1 then Advance(ch) else ch
  }

  /** Mapping one new LPA in a page of one slot touches no chip record. */
  lemma OneSlot(s: State, x: nat, d: BlkId, pg: nat)
    requires Shape(s) && s.g == TINY && ValidBlk(s.g, d) && pg < 2 && x !in s.l2p
    ensures MapPage(s, [x], d, pg, 0).chips == s.chips
  {
    var r := MapSlot(s, x, Addr(d, pg, 0));
    assert r.chips == s.chips;
    hide Shape, MapSlot;
    assert MapPage(r, [x], d, pg, 1) == r;
  }

  lemma WriteStep(s: State, ch: Chip, l2p: map<nat, Addr>, fr: seq<int>, x: nat, v: Data, a: nat)
    requires Conf(s, ch, l2p, fr) && x < 4 && x !in l2p && ch.act == Some(a) && a < 3 && ch.gc.Some?
    ensures LpasOk(s.g, [x]) && 0 < fr[a] <= 2
    ensures var r := MakeWrite(s, [x], [v]);
            && r.1 && Conf(r.0, Filled1(ch, fr[a]), l2p[x := At(a, 2 - fr[a])], fr[a := fr[a] - 1])
            && View(r.0) == View(s)[x := v] && r.0.lpaBuf == s.lpaBuf && r.0.dataBuf == s.dataBuf
  {
    hide InvAt, BlksShape, DiskShape, L2pShape, Listed, View, BufSize, Fillable, ProgramPage, MakeWrite, Filled1;
    OnlyChip(s, ch, l2p, fr);
    InvFillable(s);
    ActiveHasRoom(s, C0);
    WriteIs(s, x, v);
    ProgramStep(s, fr, x, v, a);
  }

  lemma WriteIs(s: State, x: nat, v: Data)
    requires Ready(s) && Shape(s) && Fillable(s) && s.g == TINY && x < 4
    requires s.chips[C0].act.Some? && s.chips[C0].gc.Some? && NextOf(s) == C0
    ensures LpasOk(s.g, [x]) && CanFill(s, C0, [x], [v])
    ensures MakeWrite(s, [x], [v]) == (ProgramPage(s, C0, [x], [v]), true)
  {
    hide InvAt, BlksShape, DiskShape, ChipsShape, L2pShape, View, BufSize, Fillable, Fgc, ProgramPage;
  }

  /** The page goes to the active block, at its first free page. */
  lemma TargetStep(s: State, a: nat)
    requires Fillable(s) && s.g == TINY && C0 in s.chips && s.chips[C0].act == Some(a) && a < 3 && Blk(a) in s.blks
    requires 0 < s.blks[Blk(a)].nrFreePgs <= 2
    ensures Open(s, C0) == s && Target(s, C0) == (Blk(a), 2 - s.blks[Blk(a)].nrFreePgs)
  {
    hide Fillable;
  }

  lemma MappedStep(s: State, x: nat, v: Data, a: nat)
    requires CanFill(s, C0, [x], [v]) && s.g == TINY && x < 4 && x !in s.l2p && s.chips[C0].act == Some(a) && a < 3
    requires 0 < s.blks[Blk(a)].nrFreePgs <= 2
    ensures var m := Mapped(s, C0, [x], [v]);
            && m.chips == s.chips && m.l2p == s.l2p[x := At(a, 2 - s.blks[Blk(a)].nrFreePgs)]
            && forall i: nat :: i < 3 ==>
                 m.blks[Blk(i)].nrFreePgs == s.blks[Blk(i)].nrFreePgs - if i == a then 1 else 0
  {
    TargetStep(s, a);
    hide BlksShape, DiskShape, ChipsShape, L2pShape, NamedBelow, Takes, MapPage;
    MappedFrame(s, C0, [x], [v]);
    var p := 2 - s.blks[Blk(a)].nrFreePgs;
    OneSlot(Loaded(s, C0, [v]), x, Blk(a), p);
    assert Placed(s.l2p, [x], Blk(a), p, 0) == s.l2p[x := At(a, p)];
  }

  lemma ClosedStep(s: State, m: State, a: nat, fr: seq<int>)
    requires Shape(m) && m.g == TINY && |fr| == 3 && a < 3 && m.chips[C0].act == Some(a)
    requires forall i: nat :: i < 3 ==> m.blks[Blk(i)].nrFreePgs == fr[i] - if i == a then 1 else 0
    ensures var r := UpdateActBlk(m.(mru := C0), C0);
            && r.chips[C0] == Filled1(m.chips[C0], fr[a]) && r.l2p == m.l2p && r.g == TINY
            && (forall i: nat :: i < 3 ==> r.blks[Blk(i)].nrFreePgs == fr[a := fr[a] - 1][i])
  {
    hide BlksShape, DiskShape, ChipsShape, L2pShape, Advance;
  }

  lemma WrittenOne(m: map<nat, Data>, x: nat, v: Data)
    requires x != PAGE_UNMAPPED
    ensures Written(m, [x], [v], 0) == m[x := v]
  {
  }

  /** LPA x is at the next page of the active block a, with data v. */
  ghost predicate HasProgrammed(s: State, r: State, fr: seq<int>, x: nat, v: Data, a: nat)
    requires Shape(s) && s.g == TINY && s.chips[C0].act.Some? && |fr| == 3 && a < 3
  {
    && Shape(r) && r.g == TINY && r.chips[C0] == Filled1(s.chips[C0], fr[a])
    && 0 < fr[a] <= 2 && r.l2p == s.l2p[x := At(a, 2 - fr[a])]
    && (forall i: nat :: i < 3 ==> r.blks[Blk(i)].nrFreePgs == fr[a := fr[a] - 1][i])
    && View(r) == View(s)[x := v] && r.lpaBuf == s.lpaBuf && r.dataBuf == s.dataBuf
  }

  lemma ProgramStep(s: State, fr: seq<int>, x: nat, v: Data, a: nat)
    requires CanFill(s, C0, [x], [v]) && s.g == TINY && x < 4 && x !in s.l2p && s.chips[C0].act == Some(a) && a < 3
    requires |fr| == 3 && (forall i: nat :: i < 3 ==> s.blks[Blk(i)].nrFreePgs == fr[i]) && 0 < fr[a] <= 2
    ensures Shape(s) && HasProgrammed(s, ProgramPage(s, C0, [x], [v]), fr, x, v, a)
  {
    hide BlksShape, DiskShape, L2pShape, Listed, NamedBelow, Takes, View, Mapped, Written, Filled1, UpdateActBlk,
         Placed;
    FillOk(s, C0, [x], [v]);
    MappedFrame(s, C0, [x], [v]);
    MappedStep(s, x, v, a);
    ClosedStep(s, Mapped(s, C0, [x], [v]), a, fr);
    WrittenOne(View(s), x, v);
  }

  // ---- dropping a page -----------------------------------------------------------------------------------------

  lemma DropNone(s: State, x: nat)
    requires Shape(s) && x !in s.l2p
    ensures InvalidateAll(s, [x]) == s
  {
    hide Shape;
    assert InvalidateAll(s, [x]) == InvalidateAll(s, [x][1..]);
  }

  lemma DropIs(s: State, x: nat)
    requires Shape(s)
    ensures InvalidateAll(s, [x]) == Invalidate(s, x)
  {
    hide Shape, Invalidate;
    assert [x][1..] == [];
    assert InvalidateAll(s, [x]) == InvalidateAll(Invalidate(s, x), [x][1..]);
  }

  lemma DropChips(s: State, x: nat, i: nat, p: nat)
    requires Shape(s) && s.g == TINY && x in s.l2p && i < 3 && p < 2 && s.l2p[x] == At(i, p)
    requires !LastLive(s.g, s.blks[Blk(i)], p, 0)
    ensures var r := Invalidate(s, x);
            && r.chips == s.chips && r.lpaBuf == s.lpaBuf && r.dataBuf == s.dataBuf
            && forall k: nat :: k < 3 ==> r.blks[Blk(k)].nrFreePgs == s.blks[Blk(k)].nrFreePgs
  {
    InvalidateFrame(s, x, Blk(i));
    hide BlksShape, DiskShape, L2pShape, Listed, LastLive;
  }

  /** Dropping a page of a block that is not full leaves the chip record alone. */
  lemma DropStep(s: State, ch: Chip, l2p: map<nat, Addr>, fr: seq<int>, x: nat, i: nat, p: nat)
    requires Conf(s, ch, l2p, fr) && x in l2p && i < 3 && p < 2 && l2p[x] == At(i, p) && fr[i] > 0
    ensures var r := InvalidateAll(s, [x]);
            && Conf(r, ch, l2p - {x}, fr) && View(r) == View(s) - {x} && r.lpaBuf == s.lpaBuf && r.dataBuf == s.dataBuf
  {
    DropIs(s, x);
    NotLast(s, ch, l2p, fr, i, p);
    DropChips(s, x, i, p);
    hide InvAt, BlksShape, DiskShape, L2pShape, View, Listed, Invalidate, InvalidateAll, BufSize;
    InvalidateView(s, x);
    InvShape(Invalidate(s, x));
  }

  lemma NotLast(s: State, ch: Chip, l2p: map<nat, Addr>, fr: seq<int>, i: nat, p: nat)
    requires Conf(s, ch, l2p, fr) && i < 3 && p < 2 && fr[i] > 0
    requires exists x :: x in l2p && l2p[x] == At(i, p)
    ensures !LastLive(s.g, s.blks[Blk(i)], p, 0)
  {
    PageFacts(s, ch, l2p, fr, i, p);
    PageFacts(s, ch, l2p, fr, i, 1);
    DeadCount(s, ch, l2p, fr, i);
    PageFacts(s, ch, l2p, fr, i, 0);
    hide Ready, DiskShape, ChipsShape, L2pShape;
  }

  // ---- background GC that recycles -----------------------------------------------------------------------------

  lemma RecycleStep(s: State, ch: Chip, l2p: map<nat, Addr>, fr: seq<int>, k: nat)
    requires Conf(s, ch, l2p, fr) && ch.act.None? && ch.gc == Some(k) && k < 3
    ensures var r := Bgc(s).0;
            Conf(r, Recycle(ch), l2p, fr[k := 2]) && View(r) == View(s) && r.lpaBuf == s.lpaBuf
              && r.dataBuf == s.dataBuf && Bgc(s).1
  {
    OnlyChip(s, ch, l2p, fr);
    hide InvAt, DiskShape, L2pShape, Listed, View, BufSize, Recycle, ErasedImage, Bgc, EraseAndRecycle;
    EraseAndRecycleOk(s, C0);
    RecycleIs(s, k);
    InvShape(EraseAndRecycle(s, C0));
    RecycledParts(s, k);
  }

  lemma RecycledParts(s: State, k: nat)
    requires Shape(s) && s.g == TINY && s.chips[C0].gc == Some(k) && k < 3
    ensures var r := EraseAndRecycle(s, C0);
            && r.g == TINY && C0 in r.chips && r.chips[C0] == Recycle(s.chips[C0]) && r.l2p == s.l2p
            && r.lpaBuf == s.lpaBuf && r.dataBuf == s.dataBuf
            && forall i: nat :: i < 3 ==>
                 Blk(i) in r.blks && r.blks[Blk(i)].nrFreePgs == if i == k then 2 else s.blks[Blk(i)].nrFreePgs
  {
    hide DiskShape, L2pShape, Listed, Recycle, ErasedImage;
  }

  lemma RecycleIs(s: State, k: nat)
    requires Ready(s) && Shape(s) && s.g == TINY && s.mru == C0 && NextChip(TINY, C0) == C0
    requires s.chips[C0].act.None? && s.chips[C0].gc == Some(k) && k < 3
    ensures Bgc(s) == (EraseAndRecycle(s, C0), true)
  {
    EraseAndRecycleOk(s, C0);
    hide InvAt, BlksShape, DiskShape, ChipsShape, L2pShape, View, BufSize, EraseAndRecycle, BgcChosen, BgcCopied,
         BgcMoved, UpdateGc;
    assert NumChips(TINY) == 1;
    assert BgcPrepare(s, 1) == BgcPrepare(EraseAndRecycle(s, C0), 0);
  }

  // ---- background GC that moves pages --------------------------------------------------------------------------

  /** The choice of victims is the choice for the one chip. */
  lemma ChosenOne(s: State)
    requires Ready(s) && Shape(s) && s.g == TINY && BgcPick(s, C0).ok
    ensures BgcChosen(s).1 && C0 in BgcChosen(s).0.chips
    ensures BgcChosen(s).0.chips[C0] == s.chips[C0].(vic := BgcPick(s, C0).vic, firstPg := BgcPick(s, C0).pg)
    ensures BgcChosen(s).0 == s.(chips := BgcChosen(s).0.chips, nrCopy := 0)
  {
    hide InvAt, BlksShape, DiskShape, L2pShape, Listed, View, BufSize, BgcPick, AllGood;
    BufIrrelevant(s, s.lpaBuf, s.dataBuf, 0);
    var s0 := s.(nrCopy := 0);
    BgcPickWith(s, s0, C0);
    BgcChooseInv(s0, C0);
    var s1 := BgcChoose(s0, C0).0;
    assert BgcSetVictims(s1, 1, 0) == (s1, true);
    assert BgcSetVictims(s1, 0, 1) == BgcSetVictims(s1, 1, 0);
    assert BgcSetVictims(s0, 0, 0) == BgcSetVictims(s1, 0, 1);
  }

  /** Block 0 is used, its first page dead and its second live: it is chosen, and read from its second page on. */
  lemma PickFirst(s: State, ch: Chip, l2p: map<nat, Addr>, fr: seq<int>)
    requires Conf(s, ch, l2p, fr) && ch.used == [0] && ch.vic.None? && ch.nrDirt + ch.nrFree < BGC_TH_NR_BLKS
    requires fr[0] == 0 && (forall x :: x in l2p ==> l2p[x] != At(0, 0)) && exists x :: x in l2p && l2p[x] == At(0, 1)
    ensures BgcPick(s, C0) == Pick(Some(0), 1, true)
  {
    PageFacts(s, ch, l2p, fr, 0, 0);
    PageFacts(s, ch, l2p, fr, 0, 1);
    SomeInvalid(s, ch, l2p, fr);
    hide Ready, BlksShape, DiskShape, ChipsShape, L2pShape, StatusAt, BgcPick;
    PickIs(s);
  }

  lemma PickIs(s: State)
    requires Shape(s) && s.g == TINY && s.chips[C0].used == [0] && s.chips[C0].vic.None?
    requires s.chips[C0].nrDirt + s.chips[C0].nrFree < BGC_TH_NR_BLKS
    requires var b := s.blks[Blk(0)]; b.nrInvalidLps > 0 && b.pages[0].nrInvalidLps == 1 && b.pages[1].nrInvalidLps == 0
    ensures BgcPick(s, C0) == Pick(Some(0), 1, true)
  {
    var r := MostInvalid(s, C0, s.chips[C0].used, 0, None, 0);
    assert s.chips[C0].used[0] == 0 && NrInvalid(s, C0, 0) > 0;
    assert r == Some(0);
    FirstIsSecond(s.blks[Blk(0)], 0);
    hide MostInvalid, FirstValidPg, DiskShape, L2pShape, BlksShape;
  }

  lemma FirstIsSecond(b: Block, q: nat)
    requires BlockShape(TINY, b) && b.pages[1].nrInvalidLps == 0 && (q == 1 || (q == 0 && b.pages[0].nrInvalidLps == 1))
    ensures FirstValidPg(TINY, b, q) == 1
  {
  }

  lemma SomeInvalid(s: State, ch: Chip, l2p: map<nat, Addr>, fr: seq<int>)
    requires Conf(s, ch, l2p, fr) && StatusAt(TINY, s.blks, At(0, 0)) == Invalid
    ensures s.blks[Blk(0)].nrInvalidLps > 0
  {
    assert BlockAt(s.g, s.blks[Blk(0)], 0);
    hide BlksOk, ChipsOk, Biject, PagesAt;
    assert (0, 0) in BlockSlots(s.g, s.blks[Blk(0)], Invalid);
  }

  /** One chip: the read pass reads its cursor page, once. */
  lemma ReadOneChip(v: State, r: State)
    requires Inv(v) && Shape(v) && CursorsOk(v) && v.g == TINY && v.mru == C0 && ReadDone(v, r, 1, 0, 0)
    ensures ReadResult(v, r, C0, TurnLive(v, C0), TurnCount(v, C0), if StaleAt(v, C0) then 0 else TurnCount(v, C0),
                       StaleAt(v, C0), 0, 0)
  {
    assert NextChip(TINY, C0) == C0 && Turn(TINY, C0, 1) == NextChip(TINY, Turn(TINY, C0, 0));
    hide InvAt, Shape, CursorsOk, TurnLive, TurnCount, ReadResult, StaleAt, ReadAddrs, ReadCount, GoodCount, HasStale,
         Turn, NextChip;
    TurnsAfter(v, C0, 1);
    NoTurns(v);
    assert TurnLive(v, C0) + [] == TurnLive(v, C0);
  }

  lemma NoTurns(v: State)
    requires Shape(v) && CursorsOk(v) && ValidChip(v.g, C0)
    ensures ReadAddrs(v, C0, 0) == [] && ReadCount(v, C0, 0) == 0 && GoodCount(v, C0, 0) == 0 && !HasStale(v, C0, 0)
  {
    hide Shape, CursorsOk;
  }

  lemma CopiedOne(s: State)
    requires Ready(s) && Shape(s) && s.g == TINY && s.mru == C0 && BgcChosen(s).1 && BgcChosen(s).0.mru == C0
    ensures var v := BgcChosen(s).0;
            && Inv(v) && Shape(v) && CursorsOk(v) && v.g == TINY
            && ReadResult(v, BgcCopied(s), C0, TurnLive(v, C0), TurnCount(v, C0),
                          if StaleAt(v, C0) then 0 else TurnCount(v, C0), StaleAt(v, C0), 0, 0)
  {
    var v := BgcChosen(s).0;
    InvShape(v);
    GoodCursors(v);
    StartReading(v);
    BgcReadExact(v, 1, 0, 0);
    hide InvAt, Shape, CursorsOk, View, BufSize, BgcChosen, AllGood, TurnLive, TurnCount, ReadResult, StaleAt, BgcRead,
         ReadDone, CanRead;
    assert NumChips(TINY) == 1;
    ReadOneChip(v, BgcCopied(s));
  }

  /** Block 0 is full and its one live page, of LPA 1, is the last thing mapped; block 2 is active and empty. */
  function BeforeMove(q: nat): Chip { Chip([], [0], [], 0, 1, 0, Some(2), Some(1), None, q) }

  /** LPA 1 has moved to block 2, and block 0, dead, waits on the dirt list - still cached as the victim. */
  function AfterMove(): Chip { Chip([], [], [0], 0, 0, 1, Some(2), Some(1), Some(0), 1) }

  lemma LiveThere(s: State, ch: Chip, fr: seq<int>)
    requires Conf(s, ch, map[1 := At(0, 1)], fr) && fr[0] == 0
    ensures StatusAt(TINY, s.blks, At(0, 1)) == Valid && LpaAt(TINY, s.blks, At(0, 1)) == 1
    ensures PageLive(TINY, s.blks, Blk(0), 1, 0) == [At(0, 1)]
    ensures LastLive(TINY, s.blks[Blk(0)], 1, 0)
    ensures 1 in View(s) && View(s)[1] == DataAt(TINY, s.disk, At(0, 1))
  {
    assert map[1 := At(0, 1)][1] == At(0, 1);
    PageFacts(s, ch, map[1 := At(0, 1)], fr, 0, 0);
    PageFacts(s, ch, map[1 := At(0, 1)], fr, 0, 1);
    DeadCount(s, ch, map[1 := At(0, 1)], fr, 0);
    assert Biject(s.g, s.l2p, s.blks);
    hide BlksOk, ChipsOk;
    assert PageLive(TINY, s.blks, Blk(0), 1, 1) == [];
  }

  lemma MovePick(s: State, q: nat)
    requires Conf(s, BeforeMove(q), map[1 := At(0, 1)], [0, 2, 2])
    ensures BgcPick(s, C0) == Pick(Some(0), 1, true)
  {
    hide Conf;
    assert map[1 := At(0, 1)][1] == At(0, 1);
    PickFirst(s, BeforeMove(q), map[1 := At(0, 1)], [0, 2, 2]);
  }

  /** The victim's cursor is on the page of LPA 1. */
  lemma MoveChosen(s: State, q: nat)
    requires Conf(s, BeforeMove(q), map[1 := At(0, 1)], [0, 2, 2])
    ensures Shape(s) && s.mru == C0 && BgcChosen(s).1
    ensures var v := BgcChosen(s).0;
            && v == s.(chips := v.chips, nrCopy := 0) && Ready(v) && AllGood(v) && C0 in v.chips
            && v.chips[C0] == BeforeMove(q).(vic := Some(0), firstPg := 1)
  {
    hide InvAt, BlksShape, DiskShape, L2pShape, Listed, View, BufSize, BgcChosen, AllGood, Fillable, BgcPick;
    MovePick(s, q);
    ChosenOne(s);
  }

  /** The page of LPA 1 is in the buffers when programming starts. */
  lemma MoveCopied(s: State, q: nat)
    requires Conf(s, BeforeMove(q), map[1 := At(0, 1)], [0, 2, 2]) && |s.lpaBuf| > 0 && |s.dataBuf| > 0
    ensures 1 in View(s) && BgcChosen(s).1 && BgcSafe(s)
    ensures var r := BgcCopied(s);
            && Shape(r) && r.mru == C0 && r.nrCopy == 1 && C0 in r.chips
            && r.chips[C0] == BeforeMove(q).(vic := Some(0), firstPg := 1)
            && r.g == s.g && r.blks == s.blks && r.l2p == s.l2p && |r.lpaBuf| == |s.lpaBuf|
            && |r.dataBuf| == |s.dataBuf|
            && r.lpaBuf[0] == 1 && r.dataBuf[0] == View(s)[1]
  {
    LiveThere(s, BeforeMove(q), [0, 2, 2]);
    MoveChosen(s, q);
    OnlyChip(s, BeforeMove(q), map[1 := At(0, 1)], [0, 2, 2]);
    hide InvAt, BlksShape, DiskShape, L2pShape, Listed, View, BufSize, BgcChosen, BgcCopied, AllGood, Fillable,
         ProgRoom, StillShows, BgcPick, StatusAt, LpaAt, DataAt, PageLive, NrToRead;
    CopiedOne(s);
    var v := BgcChosen(s).0;
    TurnOk(v, C0);
    ReadyShape(s);
    assert !StaleAt(v, C0) && NoneStale(v);
    assert TurnLive(v, C0) == [At(0, 1)];
    InvShape(BgcCopied(s));
    ReadFirst(v, BgcCopied(s));
  }

  lemma ReadFirst(v: State, r: State)
    requires Shape(v) && v.g == TINY && |v.lpaBuf| > 0 && |v.dataBuf| > 0
    requires ReadResult(v, r, C0, [At(0, 1)], 1, 1, false, 0, 0)
    ensures |r.lpaBuf| == |v.lpaBuf| && |r.dataBuf| == |v.dataBuf|
    ensures r.lpaBuf[0] == LpaAt(TINY, v.blks, At(0, 1)) && r.dataBuf[0] == DataAt(TINY, v.disk, At(0, 1))
  {
    var l := [At(0, 1)];
    assert LpasOf(v.g, v.blks, l)[0] == LpaAt(TINY, v.blks, At(0, 1));
    assert DataOf(v.g, v.disk, l)[0] == DataAt(TINY, v.disk, At(0, 1));
    hide Shape, LpaAt, DataAt;
    assert r.dataBuf[0 + 0] == DataOf(v.g, v.disk, l)[0];
  }

  /** Moving the last live page of block 0 puts the block on the dirt list. */
  lemma MovedChip(s: State)
    requires Shape(s) && s.g == TINY && s.l2p == map[1 := At(0, 1)] && LastLive(TINY, s.blks[Blk(0)], 1, 0)
    requires s.chips[C0] == BeforeMove(0).(vic := Some(0), firstPg := 1)
    ensures MapPage(s, [1], Blk(2), 0, 0).chips[C0] == AfterMove()
  {
    var x := At(2, 0);
    assert Remove([0], 0) == [];
    assert s.l2p[1] == At(0, 1);
    assert Invalidate(s, 1).chips[C0] == Retire(s.chips[C0], 0) == AfterMove();
    var r := MapSlot(s, 1, x);
    assert r.chips == Invalidate(s, 1).chips;
    hide Shape, MapSlot, Invalidate;
    assert MapPage(r, [1], Blk(2), 0, 1) == r;
  }

  /** Shape and contents of the state the page of LPA 1 is programmed in. */
  ghost predicate Moving(s: State) {
    && Fillable(s) && Shape(s) && s.g == TINY && s.mru == C0 && s.l2p == map[1 := At(0, 1)]
    && LastLive(TINY, s.blks[Blk(0)], 1, 0)
    && s.chips[C0] == BeforeMove(0).(vic := Some(0), firstPg := 1)
    && s.blks[Blk(0)].nrFreePgs == 0 && s.blks[Blk(1)].nrFreePgs == 2 && s.blks[Blk(2)].nrFreePgs == 2
  }

  ghost predicate HasMoved(r: State) {
    && Shape(r) && r.g == TINY && r.l2p == map[1 := At(2, 0)] && r.chips[C0] == AfterMove()
    && r.blks[Blk(0)].nrFreePgs == 0 && r.blks[Blk(1)].nrFreePgs == 2 && r.blks[Blk(2)].nrFreePgs == 1
  }

  lemma ProgramMove(s: State, v: Data)
    requires Moving(s)
    ensures CanFill(s, C0, [1], [v]) && HasMoved(ProgramPage(s, C0, [1], [v]))
  {
    FillOk(s, C0, [1], [v]);
    MappedFrame(s, C0, [1], [v]);
    TargetStep(s, 2);
    MovedChip(Loaded(s, C0, [v]));
    assert Placed(map[1 := At(0, 1)], [1], Blk(2), 0, 0) == map[1 := At(2, 0)];
    hide BlksShape, DiskShape, ChipsShape, L2pShape, NamedBelow, Takes, MapPage, View, LastLive, Placed;
  }

  lemma ProgMove(r: State)
    requires Moving(r) && ProgRoom(r, 0, 1) && |r.lpaBuf| > 0 && |r.dataBuf| > 0 && r.lpaBuf[0] == 1
    ensures var m := Prog(r, 0, 1);
            m.1 && HasMoved(m.0) && |m.0.lpaBuf| > 0 && |m.0.dataBuf| > 0 && m.0.lpaBuf[0] == 1
              && m.0.dataBuf[0] == r.dataBuf[0]
  {
    assert NextChip(TINY, C0) == C0;
    RoomIsRoomy(r, 0, 1);
    PadOne(r);
    ProgramMove(r, r.dataBuf[0]);
    FillOk(r, C0, [1], [r.dataBuf[0]]);
    ProgAfter(r, 0, 1);
    hide Fillable, Shape, View, ProgramPage, ProgNext, LastLive, WholePages;
  }

  lemma PadOne(r: State)
    requires r.g == TINY && |r.lpaBuf| > 0 && |r.dataBuf| > 0 && r.lpaBuf[0] == 1
    ensures Pad(r, 0, 1) == r && Chunk(r.g, r.lpaBuf, 0, 1) == [1] && r.dataBuf[0..1] == [r.dataBuf[0]]
  {
    assert Padded(r.g, r.lpaBuf, 0, 1) == r.lpaBuf;
  }

  lemma BufsThere(s: State)
    requires Ready(s) && s.g == TINY
    ensures |s.lpaBuf| > 0 && |s.dataBuf| > 0
  {
    hide InvAt;
  }

  lemma NothingToRefill(m: State)
    requires Shape(m) && m.g == TINY && m.chips[C0].gc.Some?
    ensures UpdateGc(m, 0, 0) == (m, true)
  {
    hide BlksShape, DiskShape, L2pShape, Listed;
    assert UpdateGc(m, 1, 0) == (m, true);
    assert UpdateGc(m, 0, 1) == UpdateGc(m, 1, 0);
    assert UpdateGc(m, 0, 0) == UpdateGc(m, 0, 1);
  }

  lemma IsMoving(s: State, r: State)
    requires Conf(s, BeforeMove(0), map[1 := At(0, 1)], [0, 2, 2])
    requires Fillable(r) && Shape(r) && r.g == TINY && r.mru == C0 && r.l2p == s.l2p && r.blks == s.blks
    requires r.chips[C0] == BeforeMove(0).(vic := Some(0), firstPg := 1)
    ensures Moving(r)
  {
    LiveThere(s, BeforeMove(0), [0, 2, 2]);
    hide Ready, Fillable, BlksShape, DiskShape, ChipsShape, L2pShape, LastLive, View, StatusAt, LpaAt;
    var fr := [0, 2, 2];
    assert s.blks[Blk(0)].nrFreePgs == fr[0] && s.blks[Blk(1)].nrFreePgs == fr[1] && s.blks[Blk(2)].nrFreePgs == fr[2];
  }

  /** Background GC moves LPA 1; its data stays in the copy buffers. */
  lemma MoveStep(s: State)
    requires Conf(s, BeforeMove(0), map[1 := At(0, 1)], [0, 2, 2])
    ensures var r := Bgc(s).0;
            && Conf(r, AfterMove(), map[1 := At(2, 0)], [0, 2, 1]) && View(r) == View(s) && 1 in View(s)
            && |r.lpaBuf| > 0 && |r.dataBuf| > 0 && r.lpaBuf[0] == 1 && r.dataBuf[0] == View(s)[1] && Bgc(s).1
  {
    BufsThere(s);
    MoveCopied(s, 0);
    OnlyChip(s, BeforeMove(0), map[1 := At(0, 1)], [0, 2, 2]);
    IsMoving(s, BgcCopied(s));
    hide InvAt, BlksShape, DiskShape, L2pShape, Listed, View, BufSize, BgcChosen, BgcCopied, BgcMoved, UpdateGc, Prog,
         Fillable, Bgc, StillShows, ProgRoom, Moving, BgcSafe;
    ProgMove(BgcCopied(s));
    BgcCases(s);
    MovedIs1(s);
    NothingToRefill(BgcMoved(s).0);
    BgcKeeps(s);
    InvShape(Bgc(s).0);
    ConfOf(Bgc(s).0);
    ShowsSame(s, Bgc(s).0);
  }

  lemma ConfOf(r: State)
    requires Ready(r) && HasMoved(r)
    ensures Conf(r, AfterMove(), map[1 := At(2, 0)], [0, 2, 1])
  {
    hide Ready, BlksShape, DiskShape, L2pShape, Listed;
  }

  lemma ShowsSame(s: State, r: State)
    requires StillShows(s, r)
    ensures Shape(s) && Shape(r) && View(r) == View(s)
  {
    InvShape(s);
    InvShape(r);
    hide InvAt, View;
  }

  // ---- the round that goes wrong -------------------------------------------------------------------------------

  /** The cached victim is block 0, erased since; its cursor is on its second page. */
  ghost predicate Bad(s: State, ch: Chip, l2p: map<nat, Addr>, fr: seq<int>) {
    && Conf(s, ch, l2p, fr) && ch.act == Some(0) && ch.vic == Some(0) && ch.firstPg == 1 && fr[0] == 2
    && ch.nrDirt + ch.nrFree < BGC_TH_NR_BLKS
  }

  lemma PickStale(s: State, ch: Chip, l2p: map<nat, Addr>, fr: seq<int>)
    requires Bad(s, ch, l2p, fr)
    ensures BgcPick(s, C0) == Pick(Some(0), 1, true)
  {
    PageFacts(s, ch, l2p, fr, 0, 1);
    FirstIsSecond(s.blks[Blk(0)], 1);
    hide Ready, BlksShape, DiskShape, L2pShape, FirstValidPg, StatusAt;
  }

  /** The read pass counts one slot and copies none: the first entry of the buffers is as it was. */
  lemma StaleCopied(s: State, ch: Chip, l2p: map<nat, Addr>, fr: seq<int>)
    requires Bad(s, ch, l2p, fr) && |s.lpaBuf| > 0 && |s.dataBuf| > 0
    ensures BgcChosen(s).1
    ensures var r := BgcCopied(s);
            && Shape(r) && r.g == TINY && r.mru == C0 && r.nrCopy == 1 && HasRoom(r)
            && |r.lpaBuf| == |s.lpaBuf| && |r.dataBuf| == |s.dataBuf| && r.lpaBuf[0] == s.lpaBuf[0]
            && r.dataBuf[0] == s.dataBuf[0]
  {
    OnlyChip(s, ch, l2p, fr);
    PickStale(s, ch, l2p, fr);
    hide InvAt, BlksShape, DiskShape, L2pShape, Listed, View, BufSize, BgcChosen, BgcCopied, AllGood, TurnLive,
         TurnCount, Fillable, ProgRoom, StillShows, BgcPick;
    ChosenOne(s);
    CopiedOne(s);
    var v := BgcChosen(s).0;
    assert StaleAt(v, C0);
    TurnOk(v, C0);
    InvShape(BgcCopied(s));
    OverEmpty(v.lpaBuf, 0);
  }

  /** Block 0 is active and has both its pages free. */
  ghost predicate HasRoom(r: State) {
    C0 in r.chips && r.chips[C0].act == Some(0) && Blk(0) in r.blks && r.blks[Blk(0)].nrFreePgs == 2
  }

  lemma StillActive(s: State, x: nat, v: Data)
    requires CanFill(s, C0, [x], [v]) && s.g == TINY && HasRoom(s)
    ensures C0 in ProgramPage(s, C0, [x], [v]).chips && ProgramPage(s, C0, [x], [v]).chips[C0].act.Some?
  {
    TargetStep(s, 0);
    hide BlksShape, DiskShape, L2pShape, Listed, NamedBelow, Takes, Mapped, Placed;
    MappedFrame(s, C0, [x], [v]);
  }

  /** After one more page the chip still has an active block, so there is nothing to refill from. */
  lemma SuppliedRefills(m: State)
    requires Shape(m) && m.g == TINY && m.chips[C0].act.Some?
    ensures UpdateGc(m, 0, 0).1
  {
    hide BlksShape, DiskShape, L2pShape, Listed, View;
    if m.chips[C0].gc.Some? {
      NothingToRefill(m);
    } else if m.chips[C0].dirt != [] {
      RefillShape(m, C0);
      var r := RefillGc(m, C0);
      assert UpdateGc(r, 1, 0).1;
      assert UpdateGc(r, 0, 1) == UpdateGc(r, 1, 0);
    } else {
      assert UpdateGc(m, 1, 0).1;
      assert UpdateGc(m, 0, 1) == UpdateGc(m, 1, 0);
    }
  }

  lemma StaleStep(s: State, ch: Chip, l2p: map<nat, Addr>, fr: seq<int>)
    requires Bad(s, ch, l2p, fr) && |s.lpaBuf| > 0 && |s.dataBuf| > 0 && s.lpaBuf[0] == 1
    ensures Shape(Bgc(s).0) && Shows(View(Bgc(s).0), 1, s.dataBuf[0]) && Bgc(s).1
  {
    OnlyChip(s, ch, l2p, fr);
    StaleCopied(s, ch, l2p, fr);
    StaleHits(BgcCopied(s));
    hide InvAt, BlksShape, DiskShape, L2pShape, Listed, View, BufSize, BgcChosen, BgcCopied, BgcMoved, UpdateGc, Prog,
         Fillable, Shows, Bgc, StillShows, ProgRoom;
    BgcCases(s);
    MovedIs1(s);
    UpdatedView(BgcMoved(s).0);
    SuppliedRefills(BgcMoved(s).0);
  }

  lemma MovedIs1(s: State)
    requires Ready(s) && BgcChosen(s).1
    ensures BgcMoved(s) == Prog(BgcCopied(s), 0, BgcCopied(s).nrCopy)
  {
    hide InvAt, Shape, View, BufSize, BgcChosen, BgcCopied, Prog, Fillable, ProgRoom;
  }

  lemma StaleFills(r: State)
    requires Fillable(r) && Shape(r) && ProgRoom(r, 0, r.nrCopy) && r.g == TINY && r.mru == C0 && r.nrCopy == 1
    requires HasRoom(r) && |r.lpaBuf| > 0 && |r.dataBuf| > 0 && r.lpaBuf[0] == 1
    ensures var m := Prog(r, 0, 1); m.1 && Shape(m.0) && m.0.g == TINY && C0 in m.0.chips && m.0.chips[C0].act.Some?
  {
    assert NextChip(TINY, C0) == C0;
    RoomIsRoomy(r, 0, 1);
    PadOne(r);
    hide Shape, View, ProgramPage, WholePages, NamedBelow, Takes;
    assert CanFill(r, C0, [1], [r.dataBuf[0]]);
    StillActive(r, 1, r.dataBuf[0]);
    FillOk(r, C0, [1], [r.dataBuf[0]]);
    ProgAfter(r, 0, 1);
  }

  /** One entry is programmed, whatever it is. */
  lemma StaleHits(r: State)
    requires Fillable(r) && Shape(r) && ProgRoom(r, 0, r.nrCopy) && r.g == TINY && r.mru == C0 && r.nrCopy == 1
    requires HasRoom(r) && |r.lpaBuf| > 0 && |r.dataBuf| > 0 && r.lpaBuf[0] == 1
    ensures var m := Prog(r, 0, 1);
            && m.1 && Shape(m.0) && m.0.g == TINY && Shows(View(m.0), 1, r.dataBuf[0])
            && C0 in m.0.chips && m.0.chips[C0].act.Some?
  {
    hide Fillable, Shape, View, Prog, ProgRoom, Shows;
    StaleFills(r);
    StaleShows(r);
  }

  lemma StaleShows(r: State)
    requires Fillable(r) && Shape(r) && ProgRoom(r, 0, 1) && r.g == TINY && r.mru == C0 && HasRoom(r)
    requires |r.lpaBuf| > 0 && |r.dataBuf| > 0 && r.lpaBuf[0] == 1
    ensures Shape(Prog(r, 0, 1).0) && Shows(View(Prog(r, 0, 1).0), 1, r.dataBuf[0])
  {
    FirstTaker(r);
    assert NextChip(TINY, C0) == C0 && NumChips(TINY) == 1;
    hide Fillable, BlksShape, DiskShape, ChipsShape, L2pShape, View, Prog, Takers, ProgRoom, Shows;
    ProgHits(r, 0, 1, 0, 0);
  }
}
