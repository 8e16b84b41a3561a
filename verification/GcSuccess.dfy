/**
 * When foreground GC returns 0, and what it has then reclaimed on every chip.
 */
module GcSuccess {
  import opened Common
  import opened Geometry
  import opened FtlState
  import opened Filling
  import opened Erase
  import opened Victims
  import opened Copying
  import opened Gc
  import opened Space

  // ---- steps 1 and 2 -------------------------------------------------------------------------------------------

  /** A used block of the chip has an invalid slot. */
  ghost predicate HasDead(s: State, c: ChipId)
    requires Shape(s) && ValidChip(s.g, c)
  {
    exists x :: x in s.chips[c].used && x < s.g.blocks && s.blks[BlkId(c, x)].nrInvalidLps > 0
  }

  /** Both blocks are there, or one of them and something to get the other from. */
  ghost predicate Recoverable(s: State, c: ChipId)
    requires Shape(s) && ValidChip(s.g, c)
  {
    || (s.chips[c].act.Some? && s.chips[c].gc.Some?)
    || ((s.chips[c].act.Some? || s.chips[c].gc.Some?) && (s.chips[c].dirt != [] || HasDead(s, c)))
  }

  /** The used blocks are as they were when the chips have been readied. */
  lemma UsedUntouched(s: State, p: State, c: ChipId, x: nat)
    requires Inv(s) && Shape(s) && Shape(p) && p.g == s.g && ValidChip(s.g, c) && Readied(s, p, c)
    requires x in s.chips[c].used
    ensures x < s.g.blocks && p.blks[BlkId(c, x)] == s.blks[BlkId(c, x)]
  {
    hide BlksOk, Biject;
    OneChip(s, c);
    OneOwner(s.g, s.chips[c], x);
    hide DiskShape, L2pShape, Blank, Partition, Roles;
  }

  lemma DeadAfter(s: State, p: State, c: ChipId, x: nat)
    requires Inv(s) && Shape(s) && Shape(p) && p.g == s.g && ValidChip(s.g, c) && Readied(s, p, c)
    ensures p.chips[c].used == s.chips[c].used && p.chips[c].dirt == s.chips[c].dirt
    ensures MostDead(p, c, x) ==> MostDead(s, c, x)
    ensures HasDead(p, c) <==> HasDead(s, c)
  {
    forall y | y in s.chips[c].used ensures y < s.g.blocks && p.blks[BlkId(c, y)] == s.blks[BlkId(c, y)] {
      UsedUntouched(s, p, c, y);
    }
    hide InvAt, DiskShape, L2pShape, Blank, Listed;
  }

  lemma FindableAfter(s: State, p: State, c: ChipId)
    requires Inv(s) && Shape(s) && Shape(p) && p.g == s.g && ValidChip(s.g, c) && Readied(s, p, c)
    ensures Findable(p, c) <==> Recoverable(s, c)
  {
    DeadAfter(s, p, c, 0);
    hide InvAt, DiskShape, L2pShape, Blank, Listed;
  }

  /** What the first two steps choose. */
  ghost predicate WellChosen(s: State, v: State, c: ChipId)
    requires Shape(s) && Shape(v) && v.g == s.g && ValidChip(s.g, c)
  {
    if s.chips[c].act.Some? && s.chips[c].gc.Some? then v.chips[c] == s.chips[c].(vic := None)
    else
      && v.chips[c].act.Some? && v.chips[c].gc.None? && v.chips[c].dirt == s.chips[c].dirt
      && v.chips[c].used == s.chips[c].used && v.chips[c].free == s.chips[c].free
      && if s.chips[c].dirt != [] then v.chips[c].vic.None?
         else v.chips[c].vic.Some? && MostDead(s, c, v.chips[c].vic.value)
  }

  lemma AssignedWell(s: State, p: State, v: State, c: ChipId)
    requires Inv(s) && Shape(s) && Shape(p) && Shape(v) && p.g == s.g && v.g == s.g && ValidChip(s.g, c)
    requires Readied(s, p, c) && Assigned(p, c, v.chips[c])
    ensures WellChosen(s, v, c)
  {
    if v.chips[c].vic.Some? { DeadAfter(s, p, c, v.chips[c].vic.value); }
    hide InvAt, DiskShape, L2pShape, Blank, Listed, MostDead;
  }

  /**
   * Blocks for every chip and victims for those that need one are found if and only if every chip has both its
   * blocks, or one of them and a dirt block or a used block with an invalid slot.
   */
  lemma ChosenExact(s: State)
    requires Ready(s)
    ensures Shape(s) && Shape(Chosen(s).0) && Chosen(s).0.g == s.g
    ensures Chosen(s).1 <==> forall c :: ValidChip(s.g, c) ==> Recoverable(s, c)
    ensures Chosen(s).1 ==> forall c :: ValidChip(s.g, c) ==> WellChosen(s, Chosen(s).0, c)
  {
    var s0 := s.(nrCopy := 0);
    BufIrrelevant(s, s.lpaBuf, s.dataBuf, 0);
    InvShape(s);
    InvShape(Chosen(s).0);
    var p := Prepare(s0, 0, 0);
    hide InvAt, BlksShape, DiskShape, L2pShape, Listed, View, BufSize, LiveFrom, Readied, Findable, Assigned,
         Recoverable, WellChosen, Prepare, SetVictims, VictimOk;
    PrepareExact(s0);
    ChosenUnready(s, s0);
    if p.1 {
      SetVictimsExact(p.0);
      ChosenReady(s, s0, p.0, SetVictims(p.0, 0, 0));
    }
  }

  lemma ChosenUnready(s: State, s0: State)
    requires Shape(s) && Shape(s0) && s0 == s.(nrCopy := 0)
    ensures (exists c :: ValidChip(s.g, c) && !(s0.chips[c].act.Some? || s0.chips[c].gc.Some?)) ==>
              exists c :: ValidChip(s.g, c) && !Recoverable(s, c)
  {
    hide BlksShape, DiskShape, L2pShape, Listed;
    if c :| ValidChip(s.g, c) && !(s0.chips[c].act.Some? || s0.chips[c].gc.Some?) { assert !Recoverable(s, c); }
  }

  lemma ChosenReady(s: State, s0: State, p: State, v: (State, bool))
    requires Inv(s) && Shape(s) && s0 == s.(nrCopy := 0) && Inv(s0) && Shape(s0) && Shape(p) && p.g == s.g
    requires Shape(v.0) && v.0.g == s.g
    requires forall c :: ValidChip(s.g, c) ==> Readied(s0, p, c)
    requires v.1 <==> forall c :: ValidChip(s.g, c) ==> Findable(p, c)
    requires v.1 ==> forall c :: ValidChip(s.g, c) ==> Assigned(p, c, v.0.chips[c])
    ensures v.1 <==> forall c :: ValidChip(s.g, c) ==> Recoverable(s, c)
    ensures v.1 ==> forall c :: ValidChip(s.g, c) ==> WellChosen(s, v.0, c)
  {
    hide InvAt, BlksShape, DiskShape, L2pShape, Listed, Readied, Findable, Assigned, Recoverable, WellChosen;
    forall c | ValidChip(s.g, c)
      ensures Findable(p, c) <==> Recoverable(s, c)
      ensures v.1 ==> WellChosen(s, v.0, c)
    {
      FindableAfter(s0, p, c);
      if v.1 { AssignedWell(s0, p, v.0, c); }
      CopyCountIrrelevant(s, s0, v.0, c);
    }
  }

  lemma CopyCountIrrelevant(s: State, s0: State, v: State, c: ChipId)
    requires Shape(s) && Shape(s0) && s0 == s.(nrCopy := 0) && Shape(v) && v.g == s.g && ValidChip(s.g, c)
    ensures Recoverable(s0, c) <==> Recoverable(s, c)
    ensures WellChosen(s0, v, c) <==> WellChosen(s, v, c)
  {
    hide BlksShape, DiskShape, L2pShape, Listed;
  }

  /** A chip without active block has its erased GC block as one; the cursor of the round robin does not move. */
  lemma ChosenFresh(s: State, c: ChipId)
    requires Ready(s) && Shape(s) && Chosen(s).1 && ValidChip(s.g, c) && s.chips[c].act.None? && s.chips[c].gc.Some?
    ensures var v := Chosen(s).0;
            && Shape(v) && v.g == s.g && v.mru == s.mru && v.chips[c].act == s.chips[c].gc
            && v.chips[c].free == s.chips[c].free && s.chips[c].gc.value < s.g.blocks
            && v.blks[BlkId(c, s.chips[c].gc.value)].nrFreePgs == s.g.pages
  {
    var s0 := s.(nrCopy := 0);
    BufIrrelevant(s, s.lpaBuf, s.dataBuf, 0);
    InvShape(Chosen(s).0);
    var p := Prepare(s0, 0, 0);
    hide InvAt, BlksShape, DiskShape, L2pShape, Listed, View, BufSize, LiveFrom, Prepare, SetVictims, VictimOk,
         MostDead, Findable;
    PrepareExact(s0);
    SetVictimsExact(p.0);
    assert Readied(s0, p.0, c) && Assigned(p.0, c, Chosen(s).0.chips[c]);
  }

  /** Used blocks are as they were. */
  lemma ChosenUsed(s: State, c: ChipId, x: nat)
    requires Ready(s) && Shape(s) && Chosen(s).1 && ValidChip(s.g, c) && x in s.chips[c].used
    ensures Shape(Chosen(s).0) && Chosen(s).0.g == s.g && x < s.g.blocks
    ensures Chosen(s).0.blks[BlkId(c, x)] == s.blks[BlkId(c, x)]
  {
    var s0 := s.(nrCopy := 0);
    BufIrrelevant(s, s.lpaBuf, s.dataBuf, 0);
    InvShape(Chosen(s).0);
    var p := Prepare(s0, 0, 0);
    hide InvAt, BlksShape, DiskShape, L2pShape, Listed, View, BufSize, LiveFrom, Prepare, SetVictims, VictimOk, Readied,
         Findable, Assigned;
    PrepareExact(s0);
    SetVictimsExact(p.0);
    UsedUntouched(s0, p.0, c, x);
  }

  // ---- the whole of it -----------------------------------------------------------------------------------------

  /** Reading the victims moves no block. */
  lemma ReadKeeps(v: State)
    requires Ready(v)
    ensures var r := ReadVictims(v); r == v.(lpaBuf := r.lpaBuf, dataBuf := r.dataBuf)
  {
    hide InvAt, View, BufSize, LiveFrom, Collect, Copied;
    ReadVictimsOk(v);
  }

  /** What programming starts from and ends with. */
  lemma MovedIsProg(s: State)
    requires Ready(s) && Chosen(s).1
    ensures var r := ReadVictims(Chosen(s).0);
            && Fillable(r) && Shape(r) && ProgRoom(r, 0, r.nrCopy) && Moved(s) == Prog(r, 0, r.nrCopy)
  {
    var r := ReadVictims(Chosen(s).0);
    BufWhole(r);
    hide InvAt, View, BufSize, LiveFrom, Collect, Chosen, Prog, Fillable;
    ProgGood(r, 0, r.nrCopy);
    InvShape(r);
  }

  lemma VictimDrained(s: State, c: ChipId, x: nat)
    requires Ready(s) && Shape(s) && Chosen(s).1 && Moved(s).1 && ValidChip(s.g, c) && x < s.g.blocks
    requires c in Chosen(s).0.chips && Chosen(s).0.chips[c].vic == Some(x)
    ensures Reclaimed(Moved(s).0, BlkId(c, x))
    ensures forall pg :: 0 <= pg < s.g.pages ==> Drained(Moved(s).0, BlkId(c, x), pg)
  {
    hide InvAt, BlksShape, DiskShape, ChipsShape, L2pShape, View, BufSize, Chosen, Moved, Drained;
    forall pg | 0 <= pg < s.g.pages ensures Drained(Moved(s).0, BlkId(c, x), pg) { MovedDrains(s, BlkId(c, x), pg); }
    DrainedOwner(Moved(s).0, BlkId(c, x));
  }

  lemma StockKept(s: State, v: State, r: State, m: State, c: ChipId)
    requires Shape(s) && Shape(v) && Shape(r) && Shape(m) && v.g == s.g && r.g == s.g && m.g == s.g && ValidChip(s.g, c)
    requires WellChosen(s, v, c) && r.chips == v.chips && KeepsStock(r, m) && v.chips[c].vic.None?
    ensures m.chips[c].gc.Some? || m.chips[c].dirt != []
  {
    hide BlksShape, DiskShape, L2pShape, Listed;
  }

  lemma MovedStock(s: State)
    requires Ready(s) && Chosen(s).1
    ensures Shape(Chosen(s).0) && Shape(ReadVictims(Chosen(s).0)) && Shape(Moved(s).0) && Moved(s).0.g == s.g
    ensures var v, r := Chosen(s).0, ReadVictims(Chosen(s).0);
            r.chips == v.chips && r.g == s.g && v.g == s.g && KeepsStock(r, Moved(s).0)
  {
    hide InvAt, Shape, View, BufSize, LiveFrom, Collect, Chosen, Moved, Prog, Fillable, ReadVictims, KeepsStock;
    var v, r := Chosen(s).0, ReadVictims(Chosen(s).0);
    ReadKeeps(v);
    MovedIsProg(s);
    InvShape(v);
    ProgStock(r, 0, r.nrCopy);
  }

  lemma StockAfterMove(s: State, c: ChipId)
    requires Ready(s) && Shape(s) && Chosen(s).1 && Moved(s).1 && ValidChip(s.g, c)
    ensures Shape(Moved(s).0) && Moved(s).0.g == s.g && c in Moved(s).0.chips
    ensures Moved(s).0.chips[c].gc.Some? || Moved(s).0.chips[c].dirt != []
  {
    hide InvAt, BlksShape, DiskShape, L2pShape, View, BufSize, Chosen, Moved, Recoverable, WellChosen, ReadVictims,
         KeepsStock;
    ChosenExact(s);
    MovedStock(s);
    var v := Chosen(s).0;
    if v.chips[c].vic.Some? {
      assert Listed(v.g, v.chips[c]);
      VictimDrained(s, c, v.chips[c].vic.value);
    } else {
      StockKept(s, v, ReadVictims(v), Moved(s).0, c);
    }
  }

  lemma RefillsAll(m: State)
    requires Shape(m) && forall c :: ValidChip(m.g, c) ==> m.chips[c].gc.Some? || m.chips[c].dirt != []
    ensures var r := UpdateGc(m, 0, 0);
            r.1 && Shape(r.0) && r.0.g == m.g && forall c :: ValidChip(m.g, c) ==> r.0.chips[c].gc.Some?
  {
    hide BlksShape, DiskShape, L2pShape, Listed, UpdateGc;
    UpdateGcExact(m);
  }

  lemma FgcParts(s: State)
    requires Ready(s)
    ensures !Chosen(s).1 ==> Fgc(s) == Chosen(s)
    ensures Chosen(s).1 && !Moved(s).1 ==> Fgc(s) == Moved(s)
    ensures Chosen(s).1 && Moved(s).1 ==> Shape(Moved(s).0) && Fgc(s) == UpdateGc(Moved(s).0, 0, 0)
  {
    hide InvAt, View, BufSize, Chosen, Moved, UpdateGc;
    if Chosen(s).1 { InvShape(Moved(s).0); }
  }

  /** Foreground GC returns 0 if and only if its first four steps do; every chip has a GC block again. */
  lemma FgcExact(s: State)
    requires Ready(s)
    ensures Fgc(s).1 <==> Chosen(s).1 && Moved(s).1
    ensures Shape(Fgc(s).0) && Fgc(s).0.g == s.g
    ensures Fgc(s).1 ==> forall c :: ValidChip(s.g, c) ==> Fgc(s).0.chips[c].gc.Some?
  {
    hide InvAt, Shape, View, BufSize, Chosen, Moved, UpdateGc, Fgc;
    InvShape(s);
    InvShape(Fgc(s).0);
    FgcParts(s);
    if Chosen(s).1 && Moved(s).1 {
      MovedStock(s);
      forall c | ValidChip(s.g, c)
        ensures c in Moved(s).0.chips && (Moved(s).0.chips[c].gc.Some? || Moved(s).0.chips[c].dirt != [])
      {
        StockAfterMove(s, c);
      }
      RefillsAll(Moved(s).0);
    }
  }

  /**
   * Where foreground GC that returns 0 reclaims: on every chip that lacked one of its two blocks and had no dirt
   * block, a used block with the most invalid slots.
   */
  lemma FgcReclaimsWhere(s: State, c: ChipId)
    requires Ready(s) && Shape(s) && Fgc(s).1 && ValidChip(s.g, c)
    requires (s.chips[c].act.None? || s.chips[c].gc.None?) && s.chips[c].dirt == []
    ensures exists x :: MostDead(s, c, x) && Reclaimed(Fgc(s).0, BlkId(c, x))
  {
    FgcExact(s);
    ChosenExact(s);
    var v := Chosen(s).0;
    hide InvAt, BlksShape, DiskShape, L2pShape, View, BufSize, Chosen, Moved, Recoverable, MostDead, Fgc, Reclaimed;
    assert WellChosen(s, v, c) && Listed(v.g, v.chips[c]);
    var x := v.chips[c].vic.value;
    ReclaimedAtEnd(s, BlkId(c, x));
    assert MostDead(s, c, x);
  }

  lemma ReclaimedAtEnd(s: State, b: BlkId)
    requires Ready(s) && Fgc(s).1 && Chosen(s).1 && ValidBlk(s.g, b) && b.c in Chosen(s).0.chips
    requires Chosen(s).0.chips[b.c].vic == Some(b.no)
    ensures Reclaimed(Fgc(s).0, b)
  {
    InvShape(Fgc(s).0);
    hide InvAt, View, BufSize, Chosen, Fgc;
    FgcReclaims(s);
  }
}
