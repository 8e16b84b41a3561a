/**
 * The victim cache of background GC: what keeps every cached victim as fully programmed as when it was
 * chosen, what spoils it, and that background GC with an intact cache is safe.
 */
module VictimCache {
  import opened Common
  import opened Geometry
  import opened Blocks
  import opened FtlState
  import opened Mapping
  import opened Filling
  import opened Program
  import opened Erase
  import opened Victims
  import opened Copying
  import opened Gc
  import opened RoundRobin
  import opened BackgroundGc
  import opened StaleVictim
  import opened Requests

  /** Every cached victim is as fully programmed as when it was chosen: it has not been erased since. */
  ghost predicate VictimsIntact(s: State)
    requires Shape(s)
  {
    forall c :: ValidChip(s.g, c) && s.chips[c].vic.Some? ==>
      s.chips[c].vic.value < s.g.blocks && s.blks[BlkId(c, s.chips[c].vic.value)].nrFreePgs == 0
  }

  // ---- programming and invalidating keep the cache -------------------------------------------------------------

  lemma SealedKeeps(s: State, r: State)
    requires Shape(s) && Shape(r) && r.g == s.g && Sealed(s, r) && SameVictims(s, r) && VictimsIntact(s)
    ensures VictimsIntact(r)
  {
    hide DiskShape, L2pShape;
    forall c | ValidChip(s.g, c) && r.chips[c].vic.Some?
      ensures r.chips[c].vic.value < s.g.blocks && r.blks[BlkId(c, r.chips[c].vic.value)].nrFreePgs == 0
    {
      assert s.chips[c].vic == r.chips[c].vic;
    }
  }

  /** Programming a page never spoils the cache. */
  lemma ProgramKeepsCache(s: State, c: ChipId, lpas: seq<nat>, data: seq<Data>)
    requires CanProgram(s, c, lpas, data) && VictimsIntact(s)
    ensures Inv(ProgramPage(s, c, lpas, data)) && VictimsIntact(ProgramPage(s, c, lpas, data))
  {
    ProgramPageOk(s, c, lpas, data);
    InvShape(ProgramPage(s, c, lpas, data));
    hide InvAt, Shape, View, LpasOk, ProgramPage, WentTo, Sealed, SameVictims, VictimsIntact, Fillable;
    SealedKeeps(s, ProgramPage(s, c, lpas, data));
  }

  /** Nor does invalidating one. */
  lemma DropKeepsCache(s: State, lpa: nat)
    requires Inv(s) && VictimsIntact(s)
    ensures VictimsIntact(Invalidate(s, lpa))
  {
    hide BlksOk, Biject, ChipsOk;
    InvalidateOk(s, None, 0, lpa);
  }

  lemma {:induction false} DropAllKeepsCache(s: State, lpas: seq<nat>)
    requires Ready(s) && Shape(s) && VictimsIntact(s)
    ensures VictimsIntact(InvalidateAll(s, lpas))
    decreases |lpas|
  {
    hide InvAt, View, BufSize, Invalidate, VictimsIntact, BlksShape, DiskShape, ChipsShape, L2pShape;
    if lpas != [] {
      InvalidateView(s, lpas[0]);
      DropKeepsCache(s, lpas[0]);
      DropAllKeepsCache(Invalidate(s, lpas[0]), lpas[1..]);
    }
  }

  lemma ProgNextKeepsCache(s: State, pos: nat, left: int)
    requires CanProgNext(s, pos, left) && VictimsIntact(s)
    ensures Inv(ProgNext(s, pos, left)) && VictimsIntact(ProgNext(s, pos, left))
  {
    hide InvAt, View, LpasOk, Chunk, Padded, ProgramPage, Copied, BlksShape, DiskShape, ChipsShape, L2pShape,
         NamedBelow, Takes;
    PadOk(s, pos, left);
    assert VictimsIntact(Pad(s, pos, left));
    hide VictimsIntact;
    ProgramKeepsCache(Pad(s, pos, left), NextChip(s.g, s.mru), Chunk(s.g, s.lpaBuf, pos, left),
                      s.dataBuf[pos..pos + s.g.slots]);
  }

  lemma {:induction false} ProgKeepsCache(s: State, pos: nat, left: int)
    requires ReadyToProg(s, pos, left) && Shape(s) && VictimsIntact(s)
    ensures Fillable(s) && Shape(Prog(s, pos, left).0) && VictimsIntact(Prog(s, pos, left).0)
    decreases left
  {
    hide InvAt, Shape, View, Copied, ProgNext, Fillable, VictimsIntact, NextChip;
    InvFillable(s);
    NextIsValid(s);
    RoomIsRoomy(s, pos, left);
    if left > 0 && CanAlloc(s, NextChip(s.g, s.mru)) {
      ProgNextOk(s, pos, left);
      ProgNextKeepsCache(s, pos, left);
      InvShape(ProgNext(s, pos, left));
      ProgKeepsCache(ProgNext(s, pos, left), pos + s.g.slots, left - s.g.slots);
    }
  }

  lemma {:induction false} UpdateGcKeepsCache(s: State, bus: nat, chip: nat)
    requires Shape(s) && VictimsIntact(s) && bus <= s.g.buses && chip <= s.g.chips
    ensures Shape(UpdateGc(s, bus, chip).0) && VictimsIntact(UpdateGc(s, bus, chip).0)
    decreases s.g.buses - bus, s.g.chips - chip
  {
    hide BlksShape, DiskShape, L2pShape, Listed, View;
    var c := ChipId(bus, chip);
    if bus < s.g.buses {
      if chip == s.g.chips {
        UpdateGcKeepsCache(s, bus + 1, 0);
      } else if s.chips[c].gc.None? && s.chips[c].dirt != [] {
        RefillShape(s, c);
        UpdateGcKeepsCache(RefillGc(s, c), bus, chip + 1);
      } else if Supplied(s.chips[c]) {
        UpdateGcKeepsCache(s, bus, chip + 1);
      }
    }
  }

  // ---- erasing -------------------------------------------------------------------------------------------------

  /** The victim cache after a GC block is erased on chip c and the chip's other fields change. */
  lemma CacheAfterErase(s: State, r: State, c: ChipId)
    requires Shape(s) && Shape(r) && r.g == s.g && ValidChip(s.g, c) && VictimsIntact(s)
    requires s.chips[c].gc.Some? && s.chips[c].gc.value < s.g.blocks
    requires r.blks == EraseBlk(s, BlkId(c, s.chips[c].gc.value)).blks
    requires forall x :: ValidChip(s.g, x) ==> r.chips[x].vic == s.chips[x].vic
    ensures VictimsIntact(r) <==> s.chips[c].vic != s.chips[c].gc
  {
    var b := BlkId(c, s.chips[c].gc.value);
    assert r.blks[b].nrFreePgs == s.g.pages;
    assert forall y :: ValidBlk(s.g, y) && y != b ==> r.blks[y] == s.blks[y];
  }

  /**
   * What spoils the cache, exactly: erasing a GC block, in background or foreground GC, leaves the cached
   * victims intact if and only if the block is not itself still cached as the victim of its chip.
   */
  lemma EraseAndCache(s: State, c: ChipId)
    requires Inv(s) && ValidChip(s.g, c) && s.chips[c].gc.Some? && VictimsIntact(s)
    ensures Shape(EraseAndRecycle(s, c)) && Shape(EraseAndPromote(s, c))
    ensures VictimsIntact(EraseAndRecycle(s, c)) <==> s.chips[c].vic != s.chips[c].gc
    ensures VictimsIntact(EraseAndPromote(s, c)) <==> s.chips[c].vic != s.chips[c].gc
  {
    hide BlksOk, Biject, ChipsOk, View, VictimsIntact, FreeBlock, ErasedImage;
    EraseAndRecycleOk(s, c);
    EraseOk(s, c);
    OneChip(s, c);
    CacheAfterErase(s, EraseAndRecycle(s, c), c);
    CacheAfterErase(s, EraseAndPromote(s, c), c);
  }

  // ---- foreground GC restores the cache ------------------------------------------------------------------------

  /** Foreground GC that returns 0 leaves the cache intact, whatever it was before. */
  lemma FgcRestoresCache(s: State)
    requires Ready(s) && Fgc(s).1
    ensures Shape(Fgc(s).0) && VictimsIntact(Fgc(s).0)
  {
    hide BlksOk, Biject, ChipsOk, View, BufSize, Chosen, LiveFrom, Collect, Prog, UpdateGc, Fillable, DiskShape,
         L2pShape;
    var s3 := ReadVictims(Chosen(s).0);
    assert VictimsIntact(s3);
    hide VictimsIntact;
    BufWhole(s3);
    ProgKeepsCache(s3, 0, s3.nrCopy);
    UpdateGcKeepsCache(Moved(s).0, 0, 0);
  }

  lemma WriteNextKeepsCache(s: State, lpas: seq<nat>, data: seq<Data>)
    requires Ready(s) && Shape(s) && VictimsIntact(s) && LpasOk(s.g, lpas) && |data| == s.g.slots
    ensures Shape(WriteNext(s, lpas, data).0) && VictimsIntact(WriteNext(s, lpas, data).0)
  {
    hide InvAt, BlksShape, DiskShape, ChipsShape, L2pShape, View, BufSize, ProgramPage, Written, WentTo, Sealed,
         Fillable, VictimsIntact;
    NextIsValid(s);
    InvFillable(s);
    InvShape(WriteNext(s, lpas, data).0);
    if CanAlloc(s, NextChip(s.g, s.mru)) {
      ProgramKeepsCache(s, NextChip(s.g, s.mru), lpas, data);
    }
  }

  /** A page write that succeeds keeps the cache intact, foreground GC included. */
  lemma MakeWriteKeepsCache(s: State, lpas: seq<nat>, data: seq<Data>)
    requires Ready(s) && Shape(s) && VictimsIntact(s) && LpasOk(s.g, lpas) && |data| == s.g.slots
    requires MakeWrite(s, lpas, data).1
    ensures Shape(MakeWrite(s, lpas, data).0) && VictimsIntact(MakeWrite(s, lpas, data).0)
  {
    hide InvAt, BlksShape, DiskShape, ChipsShape, L2pShape, View, BufSize, Fgc, LpasOk, Written, WriteNext,
         VictimsIntact;
    NextIsValid(s);
    var c := NextChip(s.g, s.mru);
    if FgcNeeded(s.chips[c]) { FgcRestoresCache(s); }
    var s1 := if FgcNeeded(s.chips[c]) then Fgc(s).0 else s;
    if CanAlloc(s1, NextOf(s1)) {
      WriteNextKeepsCache(s1, lpas, data);
    } else {
      FgcRestoresCache(s1);
      WriteNextKeepsCache(Fgc(s1).0, lpas, data);
    }
  }

  // ---- background GC -------------------------------------------------------------------------------------------

  lemma BgcPickIntact(s: State, c: ChipId)
    requires Inv(s) && Shape(s) && ValidChip(s.g, c) && VictimsIntact(s)
    ensures BgcPick(s, c).vic.Some? ==>
              BgcPick(s, c).vic.value < s.g.blocks && s.blks[BlkId(c, BgcPick(s, c).vic.value)].nrFreePgs == 0
  {
    hide BlksOk, Biject, ChipsOk, DiskShape, L2pShape;
    assert Listed(s.g, s.chips[c]);
    var r := BgcPick(s, c);
    if r.vic.Some? && r.vic.value in s.chips[c].used { UsedHasPage(s, c, r.vic.value); }
  }

  lemma BgcChooseIntact(s: State, c: ChipId)
    requires Inv(s) && Shape(s) && ValidChip(s.g, c) && VictimsIntact(s)
    ensures Inv(BgcChoose(s, c).0) && BgcChoose(s, c).0.g == s.g && Shape(BgcChoose(s, c).0)
    ensures VictimsIntact(BgcChoose(s, c).0)
  {
    hide BlksOk, Biject, ChipsOk, BgcPick, View, DiskShape, L2pShape;
    BgcChooseInv(s, c);
    BgcPickIntact(s, c);
  }

  lemma {:induction false} BgcSetVictimsIntact(s: State, bus: nat, chip: nat)
    requires Inv(s) && Shape(s) && VictimsIntact(s) && bus <= s.g.buses && chip <= s.g.chips
    ensures Shape(BgcSetVictims(s, bus, chip).0) && VictimsIntact(BgcSetVictims(s, bus, chip).0)
    decreases s.g.buses - bus, s.g.chips - chip
  {
    hide InvAt, Shape, View, BgcChoose, VictimsIntact, StillShows;
    if bus < s.g.buses {
      if chip == s.g.chips {
        BgcSetVictimsIntact(s, bus + 1, 0);
      } else {
        BgcChooseIntact(s, ChipId(bus, chip));
        if BgcChoose(s, ChipId(bus, chip)).1 { BgcSetVictimsIntact(BgcChoose(s, ChipId(bus, chip)).0, bus, chip + 1); }
      }
    }
  }

  lemma BgcChosenIntact(s: State)
    requires Ready(s) && Shape(s) && VictimsIntact(s)
    ensures Shape(BgcChosen(s).0) && VictimsIntact(BgcChosen(s).0)
  {
    assert VictimsIntact(s.(nrCopy := 0));
    hide InvAt, View, BufSize, BgcSetVictims, AllGood, VictimsIntact, BlksShape, DiskShape, ChipsShape, L2pShape;
    BufIrrelevant(s, s.lpaBuf, s.dataBuf, 0);
    BgcSetVictimsIntact(s.(nrCopy := 0), 0, 0);
  }

  lemma IntactNotStale(v: State)
    requires Shape(v) && AllGood(v) && VictimsIntact(v)
    ensures CursorsOk(v) && NoneStale(v)
  {
    GoodCursors(v);
    hide BlksShape, DiskShape, L2pShape, Listed;
    forall c | ValidChip(v.g, c) ensures !StaleAt(v, c) { assert GoodVictim(v, c); }
  }

  /** With an intact cache background GC is safe. */
  lemma IntactIsSafe(s: State)
    requires Ready(s) && Shape(s) && VictimsIntact(s)
    ensures BgcSafe(s)
  {
    ReadyShape(s);
    BgcChosenIntact(s);
    hide InvAt, Shape, View, BufSize, BgcChosen, AllGood, VictimsIntact, CursorsOk, NoneStale, Good, StopsBy,
         StillShows;
    if BgcChosen(s).1 { IntactNotStale(BgcChosen(s).0); }
  }

  /** Moving pages keeps the cache intact, whatever background GC returns. */
  lemma BgcCopyKeepsCache(s: State)
    requires Ready(s) && Shape(s) && VictimsIntact(s) && s.chips[s.mru].act.Some?
    ensures Shape(Bgc(s).0) && VictimsIntact(Bgc(s).0)
  {
    hide InvAt, BlksShape, DiskShape, ChipsShape, L2pShape, View, BufSize, BgcChosen, BgcCopied, BgcMoved, UpdateGc,
         VictimsIntact, StillShows, Fillable, ReadyToProg, AllGood, ProgRoom;
    BgcChosenIntact(s);
    if BgcChosen(s).1 {
      CopiedIntact(s);
      MovedIntact(s);
      UpdateGcKeepsCache(BgcMoved(s).0, 0, 0);
    }
  }

  lemma CopiedIntact(s: State)
    requires Ready(s) && BgcChosen(s).1 && Shape(BgcChosen(s).0) && VictimsIntact(BgcChosen(s).0)
    ensures Shape(BgcCopied(s)) && VictimsIntact(BgcCopied(s)) && ReadyToProg(BgcCopied(s), 0, BgcCopied(s).nrCopy)
  {
    var v, r := BgcChosen(s).0, BgcCopied(s);
    BgcRested(s);
    IntactNotStale(v);
    hide InvAt, BlksShape, DiskShape, ChipsShape, L2pShape, View, BufSize, BgcChosen, BgcCopied, AllGood, CursorsOk,
         NoneStale, Good, StillShows, Fillable, ProgRoom, Copied;
  }

  lemma MovedIntact(s: State)
    requires Ready(s) && BgcChosen(s).1 && Shape(BgcChosen(s).0) && VictimsIntact(BgcChosen(s).0)
    ensures Shape(BgcMoved(s).0) && VictimsIntact(BgcMoved(s).0)
  {
    hide InvAt, Shape, View, BufSize, BgcChosen, BgcCopied, VictimsIntact, StillShows, Fillable, ReadyToProg, Prog;
    CopiedIntact(s);
    ProgKeepsCache(BgcCopied(s), 0, BgcCopied(s).nrCopy);
  }

  /** The GC block of the chip, about to be erased, is still cached as its victim. */
  predicate Endangered(ch: Chip) { ch.gc.Some? && ch.vic == ch.gc }

  lemma RecycledCache(s: State, c: ChipId)
    requires Inv(s) && Shape(s) && ValidChip(s.g, c) && s.chips[c].gc.Some? && VictimsIntact(s)
    requires !Endangered(s.chips[c])
    ensures var s1 := EraseAndRecycle(s, c);
            Inv(s1) && Shape(s1) && VictimsIntact(s1) && s1.g == s.g && s1.mru == c
            && forall x :: ValidChip(s.g, x) && x != c ==> s1.chips[x] == s.chips[x]
  {
    hide BlksOk, Biject, ChipsOk, View, VictimsIntact, FreeBlock, ErasedImage;
    EraseAndCache(s, c);
    EraseAndRecycleOk(s, c);
  }

  /** Recycling keeps the cache intact, whatever it returns, if no GC block is still cached. */
  lemma {:induction false} PrepareKeepsCache(s: State, left: nat)
    requires Inv(s) && Shape(s) && VictimsIntact(s) && left <= NumChips(s.g)
    requires forall x :: ValidChip(s.g, x) && Visited(s.g, s.mru, x, left) ==> !Endangered(s.chips[x])
    ensures Shape(BgcPrepare(s, left).0) && VictimsIntact(BgcPrepare(s, left).0)
    decreases left
  {
    hide InvAt, View, EraseAndRecycle, VictimsIntact, NumChips, StillShows, Endangered, BlksShape, DiskShape, L2pShape,
         Listed, NextChip;
    NextIsValid(s);
    var c := NextChip(s.g, s.mru);
    if left > 0 && s.chips[c].gc.Some? {
      RecycledCache(s, c);
      RoundVisits(s.g, c, c, left - 1);
      PrepareKeepsCache(EraseAndRecycle(s, c), left - 1);
    }
  }

  /** The cached victim of the chip has been erased. */
  ghost predicate Spoilt(s: State, x: ChipId)
    requires Shape(s) && ValidChip(s.g, x)
  {
    s.chips[x].vic.Some? && s.chips[x].vic.value < s.g.blocks && s.blks[BlkId(x, s.chips[x].vic.value)].nrFreePgs != 0
  }

  lemma SpoiltTurn(s: State, c: ChipId, x: ChipId)
    requires Inv(s) && Shape(s) && ValidChip(s.g, c) && ValidChip(s.g, x) && s.chips[c].gc.Some?
    ensures Inv(EraseAndRecycle(s, c)) && Shape(EraseAndRecycle(s, c))
    ensures x != c && Spoilt(s, x) ==> Spoilt(EraseAndRecycle(s, c), x)
    ensures x != c ==> EraseAndRecycle(s, c).chips[x] == s.chips[x]
    ensures x == c && Endangered(s.chips[c]) ==> Spoilt(EraseAndRecycle(s, c), x)
  {
    hide BlksOk, Biject, ChipsOk, View;
    EraseAndRecycleOk(s, c);
    OneChip(s, c);
  }

  /** A GC block still cached is erased on its chip's turn, and the cached victim stays erased. */
  lemma {:induction false} PrepareSpoils(s: State, left: nat, x: ChipId)
    requires Inv(s) && Shape(s) && ValidChip(s.g, x) && left <= NumChips(s.g) && BgcPrepare(s, left).1
    requires if Visited(s.g, s.mru, x, left) then Endangered(s.chips[x]) else Spoilt(s, x)
    ensures Shape(BgcPrepare(s, left).0) && BgcPrepare(s, left).0.g == s.g && Spoilt(BgcPrepare(s, left).0, x)
    decreases left
  {
    hide InvAt, View, EraseAndRecycle, NumChips, StillShows, Endangered, Spoilt, BlksShape, DiskShape, L2pShape, Listed,
         NextChip;
    NextIsValid(s);
    if left > 0 {
      AfterRecycle(s, left);
      var c := NextChip(s.g, s.mru);
      SpoiltTurn(s, c, x);
      if x == c { RoundVisits(s.g, c, c, left - 1); }
      PrepareSpoils(EraseAndRecycle(s, c), left - 1, x);
    }
  }

  /** No GC block is still cached as its chip's victim. */
  ghost predicate NoneEndangered(s: State)
    requires Shape(s)
  {
    forall x :: ValidChip(s.g, x) ==> !Endangered(s.chips[x])
  }

  lemma PreparedIntact(s: State)
    requires Inv(s) && Shape(s) && VictimsIntact(s) && NoneEndangered(s)
    ensures Shape(BgcPrepare(s, NumChips(s.g)).0) && VictimsIntact(BgcPrepare(s, NumChips(s.g)).0)
  {
    hide InvAt, BlksShape, DiskShape, L2pShape, Listed, VictimsIntact, View, BgcPrepare, StillShows, NumChips,
         Endangered;
    PrepareKeepsCache(s, NumChips(s.g));
  }

  lemma PreparedSpoilt(s: State)
    requires Inv(s) && Shape(s) && BgcPrepare(s, NumChips(s.g)).1 && !NoneEndangered(s)
    ensures Shape(BgcPrepare(s, NumChips(s.g)).0) && !VictimsIntact(BgcPrepare(s, NumChips(s.g)).0)
  {
    hide InvAt, BlksShape, DiskShape, L2pShape, Listed, View, BgcPrepare, StillShows, NumChips, Endangered;
    var x :| ValidChip(s.g, x) && Endangered(s.chips[x]);
    IndexBound(s.g, s.mru);
    RoundVisits(s.g, s.mru, x, 0);
    PrepareSpoils(s, NumChips(s.g), x);
  }

  /**
   * Background GC that recycles GC blocks, with an intact cache, leaves it intact if no GC block is still
   * cached as its chip's victim; and when it returns 0, only then.
   */
  lemma BgcPrepareCache(s: State)
    requires Ready(s) && Shape(s) && VictimsIntact(s) && s.chips[s.mru].act.None?
    ensures Shape(Bgc(s).0)
    ensures NoneEndangered(s) ==> VictimsIntact(Bgc(s).0)
    ensures Bgc(s).1 ==> (VictimsIntact(Bgc(s).0) <==> NoneEndangered(s))
  {
    hide InvAt, BlksShape, DiskShape, ChipsShape, L2pShape, View, BufSize, BgcPrepare, StillShows, NumChips,
         VictimsIntact, NoneEndangered, BgcChosen, BgcCopied, BgcMoved, UpdateGc, Fillable;
    BgcShape(s);
    if NoneEndangered(s) { PreparedIntact(s); } else if Bgc(s).1 { PreparedSpoilt(s); }
  }

  /** With an intact cache, background GC that erases no cached victim is safe and keeps the cache intact. */
  lemma BgcKeepsCache(s: State)
    requires Ready(s) && Shape(s) && VictimsIntact(s) && (s.chips[s.mru].act.Some? || NoneEndangered(s))
    ensures BgcSafe(s) && Shape(Bgc(s).0) && VictimsIntact(Bgc(s).0)
  {
    hide InvAt, BlksShape, DiskShape, L2pShape, Listed, View, BufSize, VictimsIntact, NoneEndangered, Bgc, BgcSafe;
    IntactIsSafe(s);
    if s.chips[s.mru].act.Some? { BgcCopyKeepsCache(s); } else { BgcPrepareCache(s); }
  }

  // ---- an erased victim, whatever the geometry -----------------------------------------------------------------

  /** After a successful choice the chip has what fb_bgc_set_vic_blks decides for it. */
  lemma {:induction false} ChoiceAt(s: State, bus: nat, chip: nat, c: ChipId)
    requires Inv(s) && Shape(s) && bus <= s.g.buses && chip <= s.g.chips && ValidChip(s.g, c)
    requires BgcSetVictims(s, bus, chip).1
    ensures var r := BgcSetVictims(s, bus, chip).0;
            && c in r.chips
            && r.chips[c] == if Before(c, bus, chip) then s.chips[c]
                             else s.chips[c].(vic := BgcPick(s, c).vic, firstPg := BgcPick(s, c).pg)
    decreases s.g.buses - bus, s.g.chips - chip
  {
    hide InvAt, View, BlksShape, DiskShape, L2pShape, Listed, BgcPick;
    if bus < s.g.buses {
      if chip == s.g.chips {
        ChoiceAt(s, bus + 1, 0, c);
      } else {
        var d := ChipId(bus, chip);
        BgcChooseInv(s, d);
        var s1 := BgcChoose(s, d).0;
        InvShape(s1);
        ChoiceAt(s1, bus, chip + 1, c);
        if c != d { BgcPickWith(s, s1, c); }
      }
    }
  }

  lemma ChosenAt(s: State, c: ChipId)
    requires Ready(s) && Shape(s) && ValidChip(s.g, c) && BgcChosen(s).1
    ensures c in BgcChosen(s).0.chips
    ensures BgcChosen(s).0.chips[c] == s.chips[c].(vic := BgcPick(s, c).vic, firstPg := BgcPick(s, c).pg)
  {
    hide InvAt, View, BufSize, AllGood, BlksShape, DiskShape, L2pShape, Listed, BgcSetVictims, BgcPick;
    BufIrrelevant(s, s.lpaBuf, s.dataBuf, 0);
    ChoiceAt(s.(nrCopy := 0), 0, 0, c);
    BgcPickWith(s, s.(nrCopy := 0), c);
  }

  /** The victim cached for chip c has been erased, and the chip is still in need of one. */
  ghost predicate ErasedVictim(s: State, c: ChipId)
    requires Shape(s)
  {
    && ValidChip(s.g, c) && s.chips[c].vic.Some? && s.chips[c].vic.value < s.g.blocks && s.chips[c].firstPg < s.g.pages
    && s.chips[c].nrDirt + s.chips[c].nrFree < BGC_TH_NR_BLKS
    && s.blks[BlkId(c, s.chips[c].vic.value)].nrFreePgs == s.g.pages
  }

  lemma FreePageCounts(s: State, b: BlkId, pg: nat)
    requires Inv(s) && Shape(s) && ValidBlk(s.g, b) && pg < s.g.pages && s.blks[b].nrFreePgs == s.g.pages
    ensures s.blks[b].pages[pg].nrInvalidLps == 0 < s.g.slots
  {
    hide Biject, ChipsOk;
    assert BlockAt(s.g, s.blks[b], 0);
    assert PageAt(s.blks[b].pages[pg], s.g.slots, 0);
    hide BlksOk, PagesAt, CountsExact, BlockAt;
    assert SlotsIn(s.blks[b].pages[pg], Invalid) == {};
  }

  /** It is kept, cursor and all. */
  lemma ErasedIsKept(s: State, c: ChipId)
    requires Inv(s) && Shape(s) && ErasedVictim(s, c)
    ensures BgcPick(s, c) == Pick(s.chips[c].vic, s.chips[c].firstPg, true)
  {
    FreePageCounts(s, BlkId(c, s.chips[c].vic.value), s.chips[c].firstPg);
    hide InvAt, DiskShape, L2pShape;
  }

  lemma ErasedIsStale(s: State, c: ChipId)
    requires Ready(s) && Shape(s) && ErasedVictim(s, c) && BgcChosen(s).1
    ensures var v := BgcChosen(s).0; Shape(v) && CursorsOk(v) && !NoneStale(v)
  {
    ReadyShape(s);
    hide InvAt, View, BufSize, BgcChosen, AllGood, BgcPick, DiskShape, L2pShape;
    ChosenOnly(s);
    ChosenAt(s, c);
    ErasedIsKept(s, c);
    assert StaleAt(BgcChosen(s).0, c);
  }

  /**
   * On every geometry: once a cached victim has been erased, and as long as its chip needs a victim, background
   * GC that copies is unsafe, unless it runs out of pages before the first slot not copied.
   */
  lemma ErasedIsUnsafe(s: State, c: ChipId)
    requires Ready(s) && Shape(s) && ErasedVictim(s, c) && s.chips[s.mru].act.Some? && BgcChosen(s).1
    ensures Shape(BgcChosen(s).0) && CursorsOk(BgcChosen(s).0)
    ensures BgcSafe(s) <==> StopsBy(BgcChosen(s).0, Good(BgcChosen(s).0))
  {
    hide InvAt, Shape, View, BufSize, BgcChosen, AllGood, CursorsOk, Good, NoneStale, StopsBy, StillShows, ErasedVictim;
    ErasedIsStale(s, c);
  }
}
