/**
 * Background GC makes progress: each round that moves pages empties the page at the cursor of every
 * victim, so that a victim is given up, with nothing live in it, after at most as many rounds as it has pages.
 */
module BgcProgress {
  import opened Common
  import opened Geometry
  import opened Blocks
  import opened FtlState
  import opened Filling
  import opened Erase
  import opened Victims
  import opened Copying
  import opened Gc
  import opened RoundRobin
  import opened BackgroundGc
  import opened StaleVictim
  import opened VictimCache

  /** The block of the chip's victim. */
  function VictimBlk(s: State, c: ChipId): BlkId
    requires c in s.chips && s.chips[c].vic.Some?
  {
    BlkId(c, s.chips[c].vic.value)
  }

  /** Background GC moved pages and returned 0, chip c having had a victim. */
  ghost predicate MovedOn(s: State, c: ChipId) {
    && Ready(s) && Shape(s) && VictimsIntact(s) && s.chips[s.mru].act.Some? && BgcChosen(s).1 && Bgc(s).1
    && ValidChip(s.g, c) && c in BgcChosen(s).0.chips && BgcChosen(s).0.chips[c].vic.Some?
  }

  lemma ReadInBuffer(v: State, r: State, a: Addr)
    requires Inv(v) && Shape(v) && CursorsOk(v) && BgcRest(v, r) && NoneStale(v) && a in Read(v)
    ensures ValidAddr(v.g, a) && 0 < r.nrCopy <= |r.lpaBuf| && LpaAt(v.g, r.blks, a) in r.lpaBuf[0..r.nrCopy]
  {
    hide InvAt, Shape, CursorsOk, View, NumChips, NoneStale, Read, LpaAt, StatusAt, Good, ValidAddr;
    var i :| 0 <= i < |Read(v)| && Read(v)[i] == a;
    assert r.lpaBuf[0..r.nrCopy][i] == r.lpaBuf[i];
  }

  /** The live slots at the cursor are in the buffers when programming starts. */
  lemma CursorWaits(v: State, r: State, c: ChipId, a: Addr)
    requires Inv(v) && Shape(v) && CursorsOk(v) && BgcRest(v, r) && NoneStale(v) && ValidChip(v.g, c)
    requires v.chips[c].vic.Some?
    requires ValidAddr(v.g, a) && a.b == VictimBlk(v, c) && a.pg == v.chips[c].firstPg
    requires StatusAt(v.g, v.blks, a) == Valid
    ensures 0 < r.nrCopy <= |r.lpaBuf| && LpaAt(v.g, r.blks, a) in r.lpaBuf[0..r.nrCopy]
  {
    hide InvAt, Shape, CursorsOk, View, NumChips, NoneStale, Read, LpaAt, StatusAt, TurnLive, Good, ValidAddr, BgcRest;
    AtCursor(v, c, a);
    ReadsAll(v, a);
    ReadInBuffer(v, r, a);
  }

  lemma AtCursor(v: State, c: ChipId, a: Addr)
    requires Shape(v) && CursorsOk(v) && ValidChip(v.g, c) && v.chips[c].vic.Some?
    requires ValidAddr(v.g, a) && a.b == VictimBlk(v, c) && a.pg == v.chips[c].firstPg
    requires StatusAt(v.g, v.blks, a) == Valid
    ensures a in TurnLive(v, c)
  {
    PageLiveOk(v.g, v.blks, VictimBlk(v, c), v.chips[c].firstPg, 0);
  }

  lemma ReadsAll(v: State, a: Addr)
    requires Inv(v) && Shape(v) && CursorsOk(v) && ValidAddr(v.g, a) && a in TurnLive(v, a.b.c)
    ensures a in Read(v)
  {
    ShapeParts(v);
    hide InvAt, Shape, CursorsOk, NumChips, TurnLive;
    IndexBound(v.g, v.mru);
    RoundVisits(v.g, v.mru, a.b.c, 0);
    ReadAddrsMember(v, v.mru, NumChips(v.g), a);
  }

  /** A page that is not dead of a fully programmed block holds something live. */
  lemma CursorHolds(v: State, c: ChipId)
    requires Inv(v) && Shape(v) && AllGood(v) && VictimsIntact(v) && ValidChip(v.g, c) && v.chips[c].vic.Some?
    ensures CursorsOk(v) && CursorLive(v, c) != [] && ValidBlk(v.g, VictimBlk(v, c))
    ensures v.blks[VictimBlk(v, c)].nrFreePgs == 0
    ensures var a := CursorLive(v, c)[0];
            ValidAddr(v.g, a) && a.b == VictimBlk(v, c) && a.pg == v.chips[c].firstPg
              && StatusAt(v.g, v.blks, a) == Valid
  {
    GoodCursors(v);
    assert GoodVictim(v, c);
    CountMatchesCopy(v, c);
    PageLiveOk(v.g, v.blks, VictimBlk(v, c), v.chips[c].firstPg, 0);
    assert CursorLive(v, c)[0] in CursorLive(v, c);
    hide InvAt;
  }

  /** When programming starts, the page at the cursor and every page with nothing live wait to be empty. */
  lemma WaitsToDrain(v: State, r: State, c: ChipId, pg: nat)
    requires Inv(v) && Shape(v) && AllGood(v) && VictimsIntact(v) && ValidChip(v.g, c) && v.chips[c].vic.Some?
    requires CursorsOk(v) && NoneStale(v) && BgcRest(v, r) && ReadyToProg(r, 0, r.nrCopy)
    requires pg == v.chips[c].firstPg || Drained(v, VictimBlk(v, c), pg)
    ensures r.nrCopy > 0 && Draining(r, VictimBlk(v, c), pg, 0, r.nrCopy)
  {
    CursorHolds(v, c);
    CursorWaits(v, r, c, CursorLive(v, c)[0]);
    var b := VictimBlk(v, c);
    hide BlksOk, Biject, ChipsOk, View, NoneStale, AllGood, CursorsOk, Good, CopiedUpTo, Copied, CursorLive, NumChips,
         VictimsIntact, BlksShape, DiskShape, ChipsShape, L2pShape, Read;
    forall a | ValidAddr(v.g, a) && a.b == b && a.pg == pg && StatusAt(v.g, r.blks, a) == Valid
      ensures LpaAt(v.g, r.blks, a) in r.lpaBuf[0..r.nrCopy]
    {
      CursorWaits(v, r, c, a);
    }
  }

  lemma DrainedKept(s: State, r: State, b: BlkId, pg: nat)
    requires Drained(s, b, pg) && Inv(r) && r.g == s.g && r.blks == s.blks
    ensures Drained(r, b, pg)
  {
    hide BlksOk, Biject, ChipsOk;
  }

  /**
   * One round that moves pages: afterwards the page that was at the cursor of a victim holds nothing live,
   * and a page of the victim that held nothing live still holds nothing.
   */
  lemma BgcDrains(s: State, c: ChipId, pg: nat)
    requires MovedOn(s, c)
    requires pg == BgcChosen(s).0.chips[c].firstPg || Drained(s, VictimBlk(BgcChosen(s).0, c), pg)
    ensures Drained(Bgc(s).0, VictimBlk(BgcChosen(s).0, c), pg)
  {
    var v, r := BgcChosen(s).0, BgcCopied(s);
    ChosenParts(s);
    if Drained(s, VictimBlk(v, c), pg) { DrainedKept(s, v, VictimBlk(v, c), pg); }
    CopiedIntact(s);
    BgcRested(s);
    WaitsToDrain(v, r, c, pg);
    hide InvAt, Shape, View, BufSize, BgcChosen, BgcCopied, AllGood, VictimsIntact, CursorsOk, NoneStale, Good,
         StillShows, Fillable, ReadyToProg, Prog, Draining, Drained, UpdateGc, BgcRest;
    ProgDrains(r, 0, r.nrCopy, VictimBlk(v, c), pg);
    RefillDrained(BgcMoved(s).0, VictimBlk(v, c), pg);
  }

  lemma RefillDrained(m: State, b: BlkId, pg: nat)
    requires Drained(m, b, pg)
    ensures Shape(m) && Drained(UpdateGc(m, 0, 0).0, b, pg)
  {
    InvShape(m);
    hide BlksOk, Biject, ChipsOk, View, UpdateGc, BlksShape, DiskShape, ChipsShape, L2pShape;
    UpdateGcKeeps(m, 0, 0);
    UpdateGcOk(m, 0, 0);
    DrainedKept(m, UpdateGc(m, 0, 0).0, b, pg);
  }

  lemma ChosenParts(s: State)
    requires Ready(s) && Shape(s) && VictimsIntact(s) && BgcChosen(s).1
    ensures var v := BgcChosen(s).0;
            && Inv(v) && Shape(v) && VictimsIntact(v) && AllGood(v) && CursorsOk(v) && NoneStale(v)
            && v.g == s.g && v.blks == s.blks && v == s.(chips := v.chips, nrCopy := 0)
  {
    BgcChosenIntact(s);
    IntactNotStale(BgcChosen(s).0);
    hide InvAt, View, BufSize, AllGood, VictimsIntact, BlksShape, DiskShape, ChipsShape, L2pShape, BgcSetVictims;
    BufIrrelevant(s, s.lpaBuf, s.dataBuf, 0);
    BgcSetVictimsOk(s.(nrCopy := 0), 0, 0);
  }

  // ---- the cursor moves on -------------------------------------------------------------------------------------

  lemma RefillSameVictims(s: State, c: ChipId)
    requires Shape(s) && ValidChip(s.g, c) && s.chips[c].dirt != []
    ensures Shape(RefillGc(s, c)) && RefillGc(s, c).g == s.g && SameVictims(s, RefillGc(s, c))
  {
    hide BlksShape, DiskShape, L2pShape, Listed, View;
    RefillShape(s, c);
  }

  lemma {:induction false} UpdateGcSameVictims(s: State, bus: nat, chip: nat)
    requires Shape(s) && bus <= s.g.buses && chip <= s.g.chips
    ensures Shape(UpdateGc(s, bus, chip).0) && UpdateGc(s, bus, chip).0.g == s.g
    ensures SameVictims(s, UpdateGc(s, bus, chip).0)
    decreases s.g.buses - bus, s.g.chips - chip
  {
    hide BlksShape, DiskShape, L2pShape, Listed, View, RefillGc;
    var c := ChipId(bus, chip);
    if bus < s.g.buses {
      if chip == s.g.chips {
        UpdateGcSameVictims(s, bus + 1, 0);
      } else if s.chips[c].gc.None? && s.chips[c].dirt != [] {
        RefillSameVictims(s, c);
        UpdateGcSameVictims(RefillGc(s, c), bus, chip + 1);
        hide SameVictims;
        SameVictimsTrans(s, RefillGc(s, c), UpdateGc(s, bus, chip).0);
      } else if Supplied(s.chips[c]) {
        UpdateGcSameVictims(s, bus, chip + 1);
      }
    }
  }

  lemma MovedVictims(v: State, r: State)
    requires Inv(v) && Shape(v) && CursorsOk(v) && BgcRest(v, r) && Fillable(r) && ProgRoom(r, 0, r.nrCopy)
    ensures var m := Prog(r, 0, r.nrCopy).0;
            Shape(m) && SameVictims(v, m) && Shape(UpdateGc(m, 0, 0).0) && UpdateGc(m, 0, 0).0.g == v.g
              && SameVictims(v, UpdateGc(m, 0, 0).0)
  {
    hide InvAt, CursorsOk, BlksShape, DiskShape, L2pShape, Listed, View, Prog, UpdateGc, CopiedUpTo, NumChips, Good,
         NoneStale, ProgRoom;
    ProgFills(r, 0, r.nrCopy);
    var m := Prog(r, 0, r.nrCopy).0;
    UpdateGcSameVictims(m, 0, 0);
    UpdateGcOk(m, 0, 0);
    SameVictimsTrans(v, m, UpdateGc(m, 0, 0).0);
  }

  /** Then the copied pages were programmed and the GC slots refilled. */
  lemma MovedOnIs(s: State, c: ChipId)
    requires MovedOn(s, c)
    ensures Shape(BgcMoved(s).0) && Bgc(s) == UpdateGc(BgcMoved(s).0, 0, 0)
  {
    hide InvAt, Shape, View, BufSize, BgcChosen, BgcCopied, BgcMoved, AllGood, VictimsIntact, StillShows, Fillable,
         UpdateGc, ProgRoom, Bgc;
    WaitsNonempty(s, c);
    BgcCases(s);
  }

  /** The victim and its cursor are as chosen. */
  lemma BgcSameVictims(s: State, c: ChipId)
    requires MovedOn(s, c)
    ensures Shape(Bgc(s).0) && Bgc(s).0.g == s.g
    ensures Bgc(s).0.chips[c].vic == BgcChosen(s).0.chips[c].vic
    ensures Bgc(s).0.chips[c].firstPg == BgcChosen(s).0.chips[c].firstPg
  {
    hide InvAt, BlksShape, DiskShape, L2pShape, Listed, View, BufSize, BgcChosen, BgcCopied, AllGood, VictimsIntact,
         CursorsOk, NoneStale, Good, StillShows, Fillable, Prog, UpdateGc, BgcRest, NumChips, Bgc;
    ChosenParts(s);
    BgcRested(s);
    MovedVictims(BgcChosen(s).0, BgcCopied(s));
    MovedOnIs(s, c);
  }

  lemma WaitsNonempty(s: State, c: ChipId)
    requires MovedOn(s, c)
    ensures BgcCopied(s).nrCopy > 0
  {
    var v := BgcChosen(s).0;
    ChosenParts(s);
    BgcRested(s);
    CursorHolds(v, c);
    hide InvAt, Shape, View, BufSize, BgcChosen, BgcCopied, AllGood, VictimsIntact, CursorsOk, NoneStale, Good,
         StillShows, BgcRest;
    CursorWaits(v, BgcCopied(s), c, CursorLive(v, c)[0]);
  }

  lemma FullPage(s: State, b: BlkId, pg: nat)
    requires Inv(s) && Shape(s) && ValidBlk(s.g, b) && s.blks[b].nrFreePgs == 0 && pg < s.g.pages
    ensures forall i :: 0 <= i < s.g.slots ==> StatusAt(s.g, s.blks, Addr(b, pg, i)) != Free
    ensures s.blks[b].pages[pg].nrInvalidLps >= s.g.slots <==>
              forall i :: 0 <= i < s.g.slots ==> StatusAt(s.g, s.blks, Addr(b, pg, i)) == Invalid
  {
    var p := s.blks[b].pages[pg];
    assert BlockAt(s.g, s.blks[b], 0);
    assert PageAt(p, s.g.slots, s.g.slots);
    hide InvAt, BlksShape, DiskShape, ChipsShape, L2pShape, PagesAt, CountsExact, BlockAt, SlotsIn;
    DeadPage(p, s.g.slots);
    assert forall i: nat :: i < s.g.slots ==> p.status[i] == StatusAt(s.g, s.blks, Addr(b, pg, i));
  }

  /** A page of a fully programmed block holds nothing live exactly when it is dead. */
  lemma DrainedIsDead(s: State, b: BlkId, pg: nat)
    requires Inv(s) && Shape(s) && ValidBlk(s.g, b) && s.blks[b].nrFreePgs == 0 && pg < s.g.pages
    ensures Drained(s, b, pg) <==> s.blks[b].pages[pg].nrInvalidLps >= s.g.slots
  {
    hide InvAt, BlksShape, DiskShape, ChipsShape, L2pShape, StatusAt;
    FullPage(s, b, pg);
    assert forall a :: ValidAddr(s.g, a) && a.b == b && a.pg == pg ==> a == Addr(b, pg, a.lp);
    if Drained(s, b, pg) {
      forall i | 0 <= i < s.g.slots ensures StatusAt(s.g, s.blks, Addr(b, pg, i)) == Invalid {
        assert ValidAddr(s.g, Addr(b, pg, i));
      }
    }
  }

  lemma DrainedMoves(r: State, b: BlkId, pg: nat)
    requires Drained(r, b, pg) && Shape(r) && pg < r.g.pages
    ensures Inv(r) && ValidBlk(r.g, b) && r.blks[b].nrFreePgs == 0 && FirstValidPg(r.g, r.blks[b], pg) > pg
  {
    hide BlksOk, Biject, ChipsOk, DiskShape, L2pShape;
    DrainedIsDead(r, b, pg);
  }

  /**
   * One round of background GC that moves pages leaves the cursor of every victim before a page still to be read,
   * or none.
   */
  lemma BgcAdvances(s: State, c: ChipId)
    requires MovedOn(s, c)
    ensures var b, pg, r := VictimBlk(BgcChosen(s).0, c), BgcChosen(s).0.chips[c].firstPg, Bgc(s).0;
            && Inv(r) && Shape(r) && r.g == s.g && ValidBlk(s.g, b) && pg < s.g.pages && r.blks[b].nrFreePgs == 0
            && r.chips[c].vic == Some(b.no) && r.chips[c].firstPg == pg
            && FirstValidPg(s.g, r.blks[b], pg) > pg
  {
    hide InvAt, Shape, View, BufSize, BgcChosen, Bgc, AllGood, VictimsIntact, CursorsOk, NoneStale, StillShows, Drained,
         FirstValidPg;
    ChosenParts(s);
    CursorHolds(BgcChosen(s).0, c);
    BgcSameVictims(s, c);
    var pg := BgcChosen(s).0.chips[c].firstPg;
    BgcDrains(s, c, pg);
    DrainedMoves(Bgc(s).0, VictimBlk(BgcChosen(s).0, c), pg);
  }

  // ---- rounds --------------------------------------------------------------------------------------------------

  /** The victim chip c has in the round, and the page its cursor is on. */
  ghost function VictimOf(s: State, c: ChipId): nat
    requires MovedOn(s, c)
  {
    BgcChosen(s).0.chips[c].vic.value
  }

  ghost function CursorOf(s: State, c: ChipId): nat
    requires MovedOn(s, c)
  {
    BgcChosen(s).0.chips[c].firstPg
  }

  /** n rounds of background GC in a row move pages of block x of chip c. */
  ghost predicate Rounds(s: State, n: nat, c: ChipId, x: nat)
    decreases n
  {
    n > 0 ==> MovedOn(s, c) && VictimOf(s, c) == x && Rounds(Bgc(s).0, n - 1, c, x)
  }

  ghost function After(s: State, n: nat, c: ChipId, x: nat): State
    requires Rounds(s, n, c, x)
    decreases n
  {
    if n == 0 then s else After(Bgc(s).0, n - 1, c, x)
  }

  /** The pages of block b below pg hold nothing live. */
  ghost predicate EmptyBelow(s: State, b: BlkId, pg: nat) {
    forall p :: 0 <= p < pg ==> Drained(s, b, p)
  }

  lemma DrainsAt(s: State, c: ChipId, p: nat)
    requires MovedOn(s, c) && (p == CursorOf(s, c) || Drained(s, BlkId(c, VictimOf(s, c)), p))
    ensures Drained(Bgc(s).0, BlkId(c, VictimOf(s, c)), p)
  {
    BgcDrains(s, c, p);
  }

  lemma RoundDrains(s: State, c: ChipId, x: nat)
    requires MovedOn(s, c) && VictimOf(s, c) == x
    requires EmptyBelow(s, BlkId(c, x), CursorOf(s, c))
    ensures EmptyBelow(Bgc(s).0, BlkId(c, x), CursorOf(s, c) + 1)
  {
    forall p | 0 <= p < CursorOf(s, c) + 1 ensures Drained(Bgc(s).0, BlkId(c, x), p) { DrainsAt(s, c, p); }
    hide MovedOn, Bgc, BgcChosen, Drained;
  }

  /** A block kept as a victim is not chosen afresh: all its pages would be dead. */
  lemma KeptVictim(r: State, c: ChipId, x: nat, pg: nat)
    requires Inv(r) && Shape(r) && ValidChip(r.g, c) && x < r.g.blocks && r.blks[BlkId(c, x)].nrFreePgs == 0
    requires pg < r.g.pages
    requires r.chips[c].vic == Some(x) && r.chips[c].firstPg == pg && BgcPick(r, c).vic == Some(x)
    requires EmptyBelow(r, BlkId(c, x), pg + 1) && FirstValidPg(r.g, r.blks[BlkId(c, x)], pg) > pg
    ensures BgcPick(r, c).pg > pg && EmptyBelow(r, BlkId(c, x), BgcPick(r, c).pg)
  {
    var b, q := BlkId(c, x), FirstValidPg(r.g, r.blks[BlkId(c, x)], pg);
    forall p | 0 <= p < q ensures Drained(r, b, p) && r.blks[b].pages[p].nrInvalidLps >= r.g.slots {
      DrainedIsDead(r, b, p);
    }
    hide BlksOk, Biject, ChipsOk, DiskShape, L2pShape, Drained;
    if q == r.g.pages && x in r.chips[c].used { UsedHasPage(r, c, x); }
  }

  lemma NextCursor(s: State, c: ChipId, x: nat)
    requires MovedOn(s, c) && VictimOf(s, c) == x
    requires MovedOn(Bgc(s).0, c) && VictimOf(Bgc(s).0, c) == x
    requires EmptyBelow(Bgc(s).0, BlkId(c, x), CursorOf(s, c) + 1)
    ensures var pg := CursorOf(Bgc(s).0, c);
            pg > CursorOf(s, c) && EmptyBelow(Bgc(s).0, BlkId(c, x), pg)
  {
    BgcAdvances(s, c);
    var r := Bgc(s).0;
    hide InvAt, Shape, View, BufSize, BgcChosen, Bgc, AllGood, VictimsIntact, Drained, BgcPick, FirstValidPg,
         StillShows, EmptyBelow;
    ChosenAt(r, c);
    KeptVictim(r, c, x, CursorOf(s, c));
  }

  lemma AfterMore(s: State, n: nat, c: ChipId, x: nat)
    requires Rounds(s, n, c, x) && n > 0
    ensures MovedOn(s, c) && VictimOf(s, c) == x
    ensures Rounds(Bgc(s).0, n - 1, c, x) && After(s, n, c, x) == After(Bgc(s).0, n - 1, c, x)
    ensures n == 1 ==> After(s, n, c, x) == Bgc(s).0
    ensures n > 1 ==> MovedOn(Bgc(s).0, c) && VictimOf(Bgc(s).0, c) == x
  {
    hide MovedOn, Bgc, BgcChosen, VictimOf, CursorOf;
  }

  lemma CursorBound(s: State, c: ChipId)
    requires MovedOn(s, c)
    ensures CursorOf(s, c) < s.g.pages && Ready(s) && Bgc(s).0.g == s.g
  {
    BgcAdvances(s, c);
  }

  lemma EmptyLess(s: State, b: BlkId, pg: nat, pg': nat)
    requires EmptyBelow(s, b, pg) && pg' <= pg
    ensures EmptyBelow(s, b, pg')
  {
  }

  /**
   * Rounds of background GC that keep moving pages of one block: each of them empties a page, so that there
   * are at most as many as pages from the first cursor on, and after n of them n more pages hold nothing live.
   */
  lemma {:induction false} RoundsEmpty(s: State, n: nat, c: ChipId, x: nat)
    requires Rounds(s, n, c, x) && n > 0 && MovedOn(s, c)
    requires EmptyBelow(s, BlkId(c, x), CursorOf(s, c))
    ensures CursorOf(s, c) + n <= s.g.pages
    ensures EmptyBelow(After(s, n, c, x), BlkId(c, x), CursorOf(s, c) + n)
    decreases n
  {
    hide MovedOn, Bgc, BgcChosen, Rounds, After, EmptyBelow, VictimOf, CursorOf;
    AfterMore(s, n, c, x);
    CursorBound(s, c);
    RoundDrains(s, c, x);
    if n > 1 {
      NextCursor(s, c, x);
      RoundsEmpty(Bgc(s).0, n - 1, c, x);
      EmptyLess(After(s, n, c, x), BlkId(c, x), CursorOf(Bgc(s).0, c) + n - 1, CursorOf(s, c) + n);
    }
  }

  // ---- the end of a victim -------------------------------------------------------------------------------------

  /** The page the cursor of chip c was on in the last of the n rounds. */
  ghost function LastCursor(s: State, n: nat, c: ChipId, x: nat): nat
    requires Rounds(s, n, c, x) && n > 0
    decreases n
  {
    if n == 1 then CursorOf(s, c) else LastCursor(Bgc(s).0, n - 1, c, x)
  }

  lemma LastMore(s: State, n: nat, c: ChipId, x: nat)
    requires Rounds(s, n, c, x) && n > 0
    ensures MovedOn(s, c) && (n == 1 ==> LastCursor(s, n, c, x) == CursorOf(s, c))
    ensures n > 1 ==> Rounds(Bgc(s).0, n - 1, c, x) && LastCursor(s, n, c, x) == LastCursor(Bgc(s).0, n - 1, c, x)
  {
    hide MovedOn, Bgc, BgcChosen, VictimOf, CursorOf;
  }

  /** The block is fully programmed and no page up to pg holds anything live. */
  ghost predicate SweptTo(r: State, b: BlkId, pg: nat) {
    && Inv(r) && Shape(r) && ValidBlk(r.g, b) && pg < r.g.pages && r.blks[b].nrFreePgs == 0
    && EmptyBelow(r, b, pg + 1)
  }

  lemma RoundSweeps(s: State, c: ChipId, x: nat)
    requires MovedOn(s, c) && VictimOf(s, c) == x && EmptyBelow(s, BlkId(c, x), CursorOf(s, c))
    ensures SweptTo(Bgc(s).0, BlkId(c, x), CursorOf(s, c)) && Bgc(s).0.g == s.g && Shape(Bgc(s).0)
    ensures FirstValidPg(s.g, Bgc(s).0.blks[BlkId(c, x)], CursorOf(s, c)) > CursorOf(s, c)
  {
    RoundDrains(s, c, x);
    BgcAdvances(s, c);
    hide MovedOn, Bgc, BgcChosen, EmptyBelow, InvAt, Shape;
  }

  /** After n rounds no page up to the last cursor holds anything live, dead pages skipped on the way included. */
  lemma {:induction false} RoundsReach(s: State, n: nat, c: ChipId, x: nat)
    requires Rounds(s, n, c, x) && n > 0 && MovedOn(s, c) && EmptyBelow(s, BlkId(c, x), CursorOf(s, c))
    ensures After(s, n, c, x).g == s.g && SweptTo(After(s, n, c, x), BlkId(c, x), LastCursor(s, n, c, x))
    decreases n
  {
    hide MovedOn, Bgc, BgcChosen, Rounds, After, EmptyBelow, VictimOf, CursorOf, SweptTo, LastCursor;
    AfterMore(s, n, c, x);
    LastMore(s, n, c, x);
    CursorBound(s, c);
    RoundSweeps(s, c, x);
    if n > 1 {
      RoundDrains(s, c, x);
      NextCursor(s, c, x);
      RoundsReach(Bgc(s).0, n - 1, c, x);
    }
  }

  lemma SweptAll(r: State, b: BlkId, pg: nat)
    requires SweptTo(r, b, pg) && FirstValidPg(r.g, r.blks[b], pg) == r.g.pages
    ensures Reclaimed(r, b)
  {
    forall p | 0 <= p < r.g.pages ensures Drained(r, b, p) {
      if p >= pg { DrainedIsDead(r, b, p); }
    }
    hide InvAt, BlksShape, DiskShape, ChipsShape, L2pShape, Drained;
    DrainedOwner(r, b);
  }

  lemma ReclaimedIsDead(r: State, b: BlkId, pg: nat)
    requires SweptTo(r, b, pg) && Reclaimed(r, b)
    ensures FirstValidPg(r.g, r.blks[b], pg) == r.g.pages
  {
    DeadBlockUnnamed(r, b);
    var p := FirstValidPg(r.g, r.blks[b], pg);
    assert forall a :: ValidAddr(r.g, a) && a.b == b && a.pg == p ==> StatusAt(r.g, r.blks, a) != Valid;
    hide InvAt, BlksShape, DiskShape, ChipsShape, L2pShape;
    if p < r.g.pages { DrainedIsDead(r, b, p); }
  }

  /**
   * Rounds of background GC on one victim, however many dead pages its cursor skips: there are at most as
   * many as pages from the first cursor on, and after them the block is reclaimed if and only if no page
   * behind the last cursor holds anything live.
   */
  lemma RoundsReclaim(s: State, n: nat, c: ChipId, x: nat)
    requires Rounds(s, n, c, x) && n > 0 && MovedOn(s, c) && EmptyBelow(s, BlkId(c, x), CursorOf(s, c))
    ensures CursorOf(s, c) + n <= s.g.pages
    ensures var r, b, pg := After(s, n, c, x), BlkId(c, x), LastCursor(s, n, c, x);
            && Shape(r) && r.g == s.g && ValidBlk(r.g, b) && pg < r.g.pages
            && (Reclaimed(r, b) <==> FirstValidPg(r.g, r.blks[b], pg) == r.g.pages)
  {
    RoundsEmpty(s, n, c, x);
    RoundsReach(s, n, c, x);
    var r, b, pg := After(s, n, c, x), BlkId(c, x), LastCursor(s, n, c, x);
    hide MovedOn, Bgc, BgcChosen, Rounds, After, Drained, InvAt, Shape, VictimOf, CursorOf, LastCursor, Reclaimed;
    if FirstValidPg(r.g, r.blks[b], pg) == r.g.pages { SweptAll(r, b, pg); }
    if Reclaimed(r, b) { ReclaimedIsDead(r, b, pg); }
  }

  /** The pages of a full block before the first that is not dead hold nothing live. */
  lemma SkippedEmpty(s: State, b: BlkId, pg: nat)
    requires Inv(s) && Shape(s) && ValidBlk(s.g, b) && s.blks[b].nrFreePgs == 0
    requires pg == FirstValidPg(s.g, s.blks[b], 0)
    ensures EmptyBelow(s, b, pg)
  {
    forall p | 0 <= p < pg ensures Drained(s, b, p) { DrainedIsDead(s, b, p); }
  }

  lemma FreshPg(s: State, c: ChipId)
    requires Ready(s) && Shape(s) && ValidChip(s.g, c) && BgcChosen(s).1
    requires BgcPick(s, c).vic.Some? && BgcPick(s, c).vic != s.chips[c].vic
    ensures BgcPick(s, c).pg == FirstValidPg(s.g, s.blks[BlkId(c, BgcPick(s, c).vic.value)], 0)
  {
  }

  /** A victim chosen in this round has nothing live before its cursor. */
  lemma FreshSwept(s: State, c: ChipId)
    requires MovedOn(s, c) && s.chips[c].vic != Some(VictimOf(s, c))
    ensures EmptyBelow(s, BlkId(c, VictimOf(s, c)), CursorOf(s, c))
  {
    hide InvAt, Shape, View, BufSize, BgcChosen, Bgc, AllGood, VictimsIntact, CursorsOk, NoneStale, StillShows, Drained,
         BgcPick, EmptyBelow, FirstValidPg;
    ChosenParts(s);
    CursorHolds(BgcChosen(s).0, c);
    ChosenAt(s, c);
    FreshPg(s, c);
    SkippedEmpty(s, BlkId(c, VictimOf(s, c)), CursorOf(s, c));
  }

  /** n rounds of background GC in a row move pages on chip c, of whatever victim. */
  ghost predicate Moving(s: State, n: nat, c: ChipId)
    decreases n
  {
    n > 0 ==> MovedOn(s, c) && Moving(Bgc(s).0, n - 1, c)
  }

  /** A page of the block from pg on holds something live. */
  ghost predicate LiveFromPage(r: State, b: BlkId, pg: nat) {
    Shape(r) && ValidBlk(r.g, b) && pg <= r.g.pages && FirstValidPg(r.g, r.blks[b], pg) < r.g.pages
  }

  lemma PickStays(r: State, c: ChipId, x: nat, pg: nat)
    requires LiveFromPage(r, BlkId(c, x), pg) && r.chips[c].vic == Some(x) && r.chips[c].firstPg == pg
    requires BgcPick(r, c).vic.Some?
    ensures BgcPick(r, c).vic == Some(x)
  {
  }

  /** As long as something behind the cursor is live and pages are moved, the victim is kept. */
  lemma VictimStays(s: State, c: ChipId, x: nat)
    requires MovedOn(s, c) && VictimOf(s, c) == x && Ready(s) && MovedOn(Bgc(s).0, c)
    requires LiveFromPage(Bgc(s).0, BlkId(c, x), CursorOf(s, c))
    ensures VictimOf(Bgc(s).0, c) == x
  {
    BgcSameVictims(s, c);
    var r := Bgc(s).0;
    hide InvAt, Shape, View, BufSize, Bgc, BgcChosen, AllGood, VictimsIntact, FirstValidPg, StillShows, LiveFromPage,
         BgcPick;
    ChosenAt(r, c);
    PickStays(r, c, x, CursorOf(s, c));
  }

  lemma RoundFirst(s: State, k: nat, c: ChipId, x: nat)
    requires MovedOn(s, c) && VictimOf(s, c) == x && Rounds(Bgc(s).0, k, c, x)
    ensures Rounds(s, k + 1, c, x) && After(s, k + 1, c, x) == After(Bgc(s).0, k, c, x)
  {
    hide MovedOn, Bgc, BgcChosen, VictimOf, CursorOf;
  }

  /** A round on a swept victim reclaims it, or leaves something live behind the cursor. */
  lemma RoundEnds(s: State, c: ChipId, x: nat)
    requires MovedOn(s, c) && VictimOf(s, c) == x && EmptyBelow(s, BlkId(c, x), CursorOf(s, c))
    ensures Reclaimed(Bgc(s).0, BlkId(c, x))
            || (CursorOf(s, c) + 1 < s.g.pages && LiveFromPage(Bgc(s).0, BlkId(c, x), CursorOf(s, c)))
  {
    RoundSweeps(s, c, x);
    hide MovedOn, Bgc, BgcChosen, EmptyBelow, VictimOf, CursorOf, Reclaimed, FirstValidPg, InvAt, Shape;
    var r, pg := Bgc(s).0, CursorOf(s, c);
    if FirstValidPg(r.g, r.blks[BlkId(c, x)], pg) == r.g.pages { SweptAll(r, BlkId(c, x), pg); }
  }

  /** A swept victim with something live behind the cursor goes on to the next page. */
  lemma SweepsOn(s: State, c: ChipId, x: nat)
    requires MovedOn(s, c) && VictimOf(s, c) == x && MovedOn(Bgc(s).0, c)
    requires EmptyBelow(s, BlkId(c, x), CursorOf(s, c)) && LiveFromPage(Bgc(s).0, BlkId(c, x), CursorOf(s, c))
    ensures var r := Bgc(s).0;
            VictimOf(r, c) == x && CursorOf(r, c) > CursorOf(s, c) && EmptyBelow(r, BlkId(c, x), CursorOf(r, c))
  {
    CursorBound(s, c);
    hide MovedOn, Bgc, BgcChosen, EmptyBelow, VictimOf, CursorOf, LiveFromPage;
    RoundDrains(s, c, x);
    VictimStays(s, c, x);
    NextCursor(s, c, x);
  }

  /**
   * Every victim comes to an end: while rounds of background GC move pages on its chip it stays the victim,
   * and after at most as many rounds as it has pages from its cursor on it is reclaimed.
   */
  lemma {:induction false} VictimEnds(s: State, n: nat, c: ChipId) returns (k: nat)
    requires n > 0 && Moving(s, n, c) && MovedOn(s, c) && EmptyBelow(s, BlkId(c, VictimOf(s, c)), CursorOf(s, c))
    requires CursorOf(s, c) + n >= s.g.pages
    ensures var x := VictimOf(s, c); 0 < k <= n && Rounds(s, k, c, x) && Reclaimed(After(s, k, c, x), BlkId(c, x))
    decreases n
  {
    var x := VictimOf(s, c);
    hide MovedOn, Bgc, BgcChosen, EmptyBelow, VictimOf, CursorOf, Reclaimed, LiveFromPage;
    CursorBound(s, c);
    RoundEnds(s, c, x);
    k := 0;
    if !Reclaimed(Bgc(s).0, BlkId(c, x)) {
      SweepsOn(s, c, x);
      k := VictimEnds(Bgc(s).0, n - 1, c);
    }
    RoundFirst(s, k, c, x);
    k := k + 1;
  }

  lemma {:induction false} AfterSame(s: State, n: nat, c: ChipId, x: nat)
    requires Rounds(s, n, c, x)
    ensures After(s, n, c, x).g == s.g
    decreases n
  {
    if n > 0 {
      AfterMore(s, n, c, x);
      BgcSameVictims(s, c);
      hide MovedOn, Bgc, BgcChosen, Rounds, After, VictimOf, CursorOf;
      AfterSame(Bgc(s).0, n - 1, c, x);
    }
  }
}
