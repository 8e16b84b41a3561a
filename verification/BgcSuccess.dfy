/**
 * When the passes of background GC return 0, and exactly what they leave on every chip.
 */
module BgcSuccess {
  import opened Common
  import opened Geometry
  import opened FtlState
  import opened Filling
  import opened Erase
  import opened Victims
  import opened Copying
  import opened Gc
  import opened RoundRobin
  import opened BackgroundGc
  import opened StaleVictim
  import opened VictimCache
  import opened GcSuccess

  // ---- fb_bgc_prepare_act_blks ---------------------------------------------------------------------------------

  /**
   * The GC block has become the active block if there was none, the last free block otherwise, and the first dirt
   * block, if there is one, has taken its place.
   */
  predicate RecycledTo(ch: Chip, ch': Chip) {
    && ch.gc.Some?
    && ch' == (if ch.act.None? then ch.(act := ch.gc) else ch.(free := ch.free + [ch.gc.value],
                                                               nrFree := ch.nrFree + 1))
              .(gc := if ch.dirt == [] then None else Some(ch.dirt[0]),
                dirt := if ch.dirt == [] then [] else ch.dirt[1..],
                nrDirt := if ch.dirt == [] then ch.nrDirt else ch.nrDirt - 1)
  }

  lemma RecycleIs(ch: Chip)
    requires ch.gc.Some?
    ensures RecycledTo(ch, Recycle(ch))
  {
  }

  /** The blocks of the chip are as they were but for its GC block, which has been erased. */
  ghost predicate GcErased(s: State, r: State, c: ChipId)
    requires Shape(s) && Shape(r) && r.g == s.g && ValidChip(s.g, c)
  {
    && s.chips[c].gc.Some? && s.chips[c].gc.value < s.g.blocks && Blank(s, r, BlkId(c, s.chips[c].gc.value))
    && forall no: nat :: no < s.g.blocks && no != s.chips[c].gc.value ==>
         r.blks[BlkId(c, no)] == s.blks[BlkId(c, no)] && r.disk[BlkId(c, no)] == s.disk[BlkId(c, no)]
  }

  ghost predicate SameBlks(s: State, r: State, c: ChipId)
    requires Shape(s) && Shape(r) && r.g == s.g && ValidChip(s.g, c)
  {
    forall no: nat :: no < s.g.blocks ==>
      r.blks[BlkId(c, no)] == s.blks[BlkId(c, no)] && r.disk[BlkId(c, no)] == s.disk[BlkId(c, no)]
  }

  lemma RecycledOne(s: State, c: ChipId, x: ChipId)
    requires Inv(s) && Shape(s) && ValidChip(s.g, c) && s.chips[c].gc.Some? && ValidChip(s.g, x)
    requires Shape(EraseAndRecycle(s, c))
    ensures var r := EraseAndRecycle(s, c);
            r.g == s.g && if x == c then GcErased(s, r, x) else SameBlks(s, r, x) && r.chips[x] == s.chips[x]
  {
    hide InvAt, ErasedImage, Recycle;
  }

  lemma SameThenErased(s: State, m: State, r: State, x: ChipId)
    requires Shape(s) && Shape(m) && Shape(r) && m.g == s.g && r.g == s.g && ValidChip(s.g, x)
    ensures SameBlks(s, m, x) && SameBlks(m, r, x) ==> SameBlks(s, r, x)
    ensures SameBlks(s, m, x) && m.chips[x] == s.chips[x] && GcErased(m, r, x) ==> GcErased(s, r, x)
    ensures GcErased(s, m, x) && SameBlks(m, r, x) ==> GcErased(s, r, x)
  {
    hide DiskShape, L2pShape;
  }

  /** One chip in the pass. */
  lemma {:induction false} RecycledAt(s: State, left: nat, x: ChipId)
    requires Inv(s) && Shape(s) && left <= NumChips(s.g) && BgcPrepare(s, left).1 && ValidChip(s.g, x)
    ensures var r := BgcPrepare(s, left).0;
            Shape(r) && r.g == s.g && if Visited(s.g, s.mru, x, left) then GcErased(s, r, x) else SameBlks(s, r, x)
    decreases left
  {
    hide InvAt, BlksShape, DiskShape, L2pShape, Listed, NumChips, EraseAndRecycle, Recycle, BgcPrepare, GcErased,
         SameBlks, View;
    InvShape(BgcPrepare(s, left).0);
    if left == 0 {
      PrepareDone(s);
      Unchanged(s, x);
    } else {
      AfterRecycle(s, left);
      var c := NextChip(s.g, s.mru);
      var s1 := EraseAndRecycle(s, c);
      InvShape(s1);
      RecycledAt(s1, left - 1, x);
      RecycledOne(s, c, x);
      SameThenErased(s, s1, BgcPrepare(s, left).0, x);
      if c == x { RoundVisits(s.g, c, c, left - 1); }
    }
  }

  lemma Unchanged(s: State, x: ChipId)
    requires Shape(s) && ValidChip(s.g, x)
    ensures SameBlks(s, s, x)
  {
  }

  lemma RecycleStep(s: State, c: ChipId)
    requires Inv(s) && Shape(s) && ValidChip(s.g, c) && s.chips[c].gc.Some?
    ensures var s1 := EraseAndRecycle(s, c);
            Inv(s1) && Shape(s1) && s1.g == s.g && s1.mru == c && s1.chips == s.chips[c := Recycle(s.chips[c])]
  {
    hide InvAt, View, Recycle;
    EraseAndRecycleOk(s, c);
    InvShape(EraseAndRecycle(s, c));
  }

  lemma PrepareStep(s: State, left: nat)
    requires Inv(s) && Shape(s) && left > 0
    ensures var c := NextChip(s.g, s.mru);
            && ValidChip(s.g, c)
            && (s.chips[c].gc.None? ==> !BgcPrepare(s, left).1)
            && (s.chips[c].gc.Some? ==>
                  Inv(EraseAndRecycle(s, c)) && BgcPrepare(s, left) == BgcPrepare(EraseAndRecycle(s, c), left - 1))
  {
    hide InvAt, View, NextChip, Recycle, BlksShape, DiskShape, L2pShape, Listed, EraseAndRecycle;
    NextIsValid(s);
    var c := NextChip(s.g, s.mru);
    if s.chips[c].gc.Some? { RecycleStep(s, c); }
  }

  lemma {:induction false} PrepareWhen(s: State, left: nat)
    requires Inv(s) && Shape(s) && left <= NumChips(s.g)
    ensures BgcPrepare(s, left).1 <==>
              forall x :: ValidChip(s.g, x) && Visited(s.g, s.mru, x, left) ==> s.chips[x].gc.Some?
    decreases left
  {
    hide InvAt, BlksShape, DiskShape, L2pShape, Listed, NumChips, EraseAndRecycle, Recycle, BgcPrepare, View, NextChip;
    if left == 0 {
      PrepareTrue(s);
    } else {
      PrepareStep(s, left);
      var c := NextChip(s.g, s.mru);
      assert Visited(s.g, s.mru, c, left);
      if s.chips[c].gc.Some? {
        var s1 := EraseAndRecycle(s, c);
        RecycleStep(s, c);
        PrepareWhen(s1, left - 1);
        RoundVisits(s.g, c, c, left - 1);
        forall x | ValidChip(s.g, x)
          ensures Visited(s.g, s.mru, x, left) <==> x == c || Visited(s.g, c, x, left - 1)
          ensures Visited(s.g, c, x, left - 1) ==> s1.chips[x] == s.chips[x] {
        }
      }
    }
  }

  lemma PrepareTrue(s: State)
    requires Inv(s)
    ensures BgcPrepare(s, 0).1
  {
  }

  /**
   * fb_bgc_prepare_act_blks returns 0 if and only if every chip has a GC block; then each of these blocks has been
   * erased once and put to use, and everything else is as it was.
   */
  lemma BgcPrepareWhen(s: State)
    requires Inv(s) && Shape(s)
    ensures var r := BgcPrepare(s, NumChips(s.g));
            && (r.1 <==> forall c :: ValidChip(s.g, c) ==> s.chips[c].gc.Some?)
            && (r.1 ==> Shape(r.0) && r.0.g == s.g && r.0.mru == s.mru
                        && forall c :: ValidChip(s.g, c) ==>
                             RecycledTo(s.chips[c], r.0.chips[c]) && GcErased(s, r.0, c))
  {
    hide InvAt, BlksShape, DiskShape, L2pShape, Listed, NumChips, Recycle, BgcPrepare, View, GcErased, RecycledTo;
    var r := BgcPrepare(s, NumChips(s.g));
    PrepareWhen(s, NumChips(s.g));
    ShapeMru(s);
    forall c | ValidChip(s.g, c) ensures Visited(s.g, s.mru, c, NumChips(s.g)) { OneRound(s.g, s.mru, c); }
    if r.1 {
      BgcPrepareExact(s);
      InvShape(r.0);
      forall c | ValidChip(s.g, c)
        ensures r.0.g == s.g && RecycledTo(s.chips[c], r.0.chips[c]) && GcErased(s, r.0, c)
      {
        RecycleIs(s.chips[c]);
        RecycledAt(s, NumChips(s.g), c);
      }
      RecycledAt(s, NumChips(s.g), s.mru);
    }
  }

  lemma ShapeMru(s: State)
    requires Shape(s)
    ensures Sane(s.g) && ValidChip(s.g, s.mru)
  {
  }

  lemma OneRound(g: Geo, c: ChipId, x: ChipId)
    requires Sane(g) && ValidChip(g, c) && ValidChip(g, x)
    ensures Visited(g, c, x, NumChips(g))
  {
    IndexBound(g, c);
    RoundVisits(g, c, x, 0);
  }

  // ---- fb_bgc_set_vic_blks -------------------------------------------------------------------------------------

  /** The cached victim has a page from its cursor on that is not dead. */
  ghost predicate HasMore(s: State, c: ChipId)
    requires Shape(s) && ValidChip(s.g, c)
  {
    && s.chips[c].vic.Some? && s.chips[c].vic.value < s.g.blocks
    && exists p :: s.chips[c].firstPg <= p < s.g.pages
         && s.blks[BlkId(c, s.chips[c].vic.value)].pages[p].nrInvalidLps < s.g.slots
  }

  /** Page ch.firstPg of the victim is the first from page `from` on that is not dead. */
  ghost predicate AtFirst(s: State, c: ChipId, ch: Chip, from: nat)
    requires Shape(s) && ValidChip(s.g, c) && ch.vic.Some? && ch.vic.value < s.g.blocks
  {
    && from <= ch.firstPg < s.g.pages
    && var b := s.blks[BlkId(c, ch.vic.value)];
       && b.pages[ch.firstPg].nrInvalidLps < s.g.slots
       && forall p :: from <= p < ch.firstPg ==> b.pages[p].nrInvalidLps >= s.g.slots
  }

  /**
   * With 14 dirt and free blocks or more a chip has no victim; otherwise it keeps the cached one while there is
   * something to read, and else gets a used block with the most invalid slots.
   */
  ghost predicate BgcAssigned(s: State, c: ChipId, ch: Chip)
    requires Shape(s) && ValidChip(s.g, c)
  {
    var was := s.chips[c];
    && ch == was.(vic := ch.vic, firstPg := ch.firstPg)
    && if was.nrDirt + was.nrFree >= 14 then ch.vic == None && ch.firstPg == 0
       else if HasMore(s, c) then ch.vic == was.vic && AtFirst(s, c, ch, was.firstPg)
       else ch.vic.Some? && MostDead(s, c, ch.vic.value) && AtFirst(s, c, ch, 0)
  }

  ghost predicate BgcFindable(s: State, c: ChipId)
    requires Shape(s) && ValidChip(s.g, c)
  {
    s.chips[c].nrDirt + s.chips[c].nrFree >= 14 || HasMore(s, c) || HasDead(s, c)
  }

  lemma FreshExact(s: State, c: ChipId, pg: nat)
    requires Inv(s) && Shape(s) && ValidChip(s.g, c) && pg <= s.g.pages
    ensures var r := FreshPick(s, c, pg);
            && (r.ok <==> HasDead(s, c)) && (r.ok <==> r.vic.Some?)
            && (r.ok ==> MostDead(s, c, r.vic.value)
                         && AtFirst(s, c, s.chips[c].(vic := r.vic, firstPg := r.pg), 0))
  {
    assert Listed(s.g, s.chips[c]) && forall j :: 0 <= j < |s.chips[c].used| ==> s.chips[c].used[j] in s.chips[c].used;
    var u := s.chips[c].used;
    assert forall j :: 0 <= j < |u| ==> NrInvalid(s, c, u[j]) == s.blks[BlkId(c, u[j])].nrInvalidLps;
    var r := FreshPick(s, c, pg);
    if r.vic.Some? { UsedLives(s, c, r.vic.value); }
    hide InvAt, DiskShape, L2pShape;
  }

  lemma MoreExact(s: State, c: ChipId)
    requires Shape(s) && ValidChip(s.g, c) && s.chips[c].vic.Some?
    ensures s.chips[c].vic.value < s.g.blocks && s.chips[c].firstPg <= s.g.pages
    ensures var pg := FirstValidPg(s.g, s.blks[BlkId(c, s.chips[c].vic.value)], s.chips[c].firstPg);
            && (HasMore(s, c) <==> pg < s.g.pages)
            && (pg < s.g.pages ==> AtFirst(s, c, s.chips[c].(firstPg := pg), s.chips[c].firstPg))
  {
    hide DiskShape, L2pShape;
    assert Listed(s.g, s.chips[c]);
  }

  lemma BgcPickExact(s: State, c: ChipId)
    requires Inv(s) && Shape(s) && ValidChip(s.g, c)
    ensures BgcPick(s, c).ok <==> BgcFindable(s, c)
    ensures BgcPick(s, c).ok ==>
              BgcAssigned(s, c, s.chips[c].(vic := BgcPick(s, c).vic, firstPg := BgcPick(s, c).pg))
  {
    hide InvAt, BlksShape, DiskShape, L2pShape, MostDead, HasDead, HasMore, FreshPick, FirstValidPg;
    var ch := s.chips[c];
    assert Listed(s.g, ch);
    FreshExact(s, c, ch.firstPg);
    FreshExact(s, c, s.g.pages);
    if ch.vic.Some? { MoreExact(s, c); } else { assert !HasMore(s, c) by { NoMore(s, c); } }
  }

  lemma NoMore(s: State, c: ChipId)
    requires Shape(s) && ValidChip(s.g, c) && s.chips[c].vic.None?
    ensures !HasMore(s, c)
  {
  }

  /** From (bus, chip) on the pass fails exactly at the first chip that has nothing to give. */
  lemma {:induction false} PickedWhen(s: State, bus: nat, chip: nat)
    requires Inv(s) && Shape(s) && bus <= s.g.buses && chip <= s.g.chips
    ensures BgcSetVictims(s, bus, chip).1 <==>
              forall c :: ValidChip(s.g, c) && !Before(c, bus, chip) ==> BgcPick(s, c).ok
    decreases s.g.buses - bus, s.g.chips - chip
  {
    hide InvAt, View, BlksShape, DiskShape, L2pShape, Listed, BgcPick, BgcChoose;
    var d := ChipId(bus, chip);
    if bus < s.g.buses {
      if chip == s.g.chips {
        PickedWhen(s, bus + 1, 0);
        assert forall x :: ValidChip(s.g, x) ==> (Before(x, bus, chip) <==> Before(x, bus + 1, 0));
      } else {
        assert !Before(d, bus, chip) && Before(d, bus, chip + 1);
        PickedOne(s, d);
        if BgcChoose(s, d).1 {
          var s1 := BgcChoose(s, d).0;
          PickedWhen(s1, bus, chip + 1);
          forall x | ValidChip(s.g, x) && x != d
            ensures BgcPick(s1, x) == BgcPick(s, x) && (Before(x, bus, chip) <==> Before(x, bus, chip + 1)) {
            BgcPickWith(s, s1, x);
          }
        }
      }
    }
  }

  lemma PickedOne(s: State, d: ChipId)
    requires Inv(s) && Shape(s) && ValidChip(s.g, d)
    ensures var r := BgcChoose(s, d);
            && Inv(r.0) && Shape(r.0) && r.0 == s.(chips := s.chips[d := r.0.chips[d]]) && (r.1 <==> BgcPick(s, d).ok)
  {
    hide InvAt, View, BgcPick;
    BgcChooseInv(s, d);
    InvShape(BgcChoose(s, d).0);
  }

  /**
   * fb_bgc_set_vic_blks returns 0 if and only if every chip has enough blocks already, something left to read in its
   * cached victim, or a used block with an invalid slot. Then every chip has been given the victim it should have,
   * and nothing has been changed but the victims, their cursors and the page count.
   */
  lemma BgcChosenExact(s: State)
    requires Ready(s) && Shape(s)
    ensures var r := BgcChosen(s);
            && (r.1 <==> forall c :: ValidChip(s.g, c) ==> BgcFindable(s, c))
            && Shape(r.0) && r.0 == s.(nrCopy := 0, chips := r.0.chips)
            && (r.1 ==> forall c :: ValidChip(s.g, c) ==> BgcAssigned(s, c, r.0.chips[c]))
  {
    hide InvAt, View, BufSize, AllGood, BlksShape, DiskShape, Listed, L2pShape, BgcSetVictims, BgcPick, BgcAssigned,
         BgcFindable;
    InvShape(BgcChosen(s).0);
    var s0 := s.(nrCopy := 0);
    BufIrrelevant(s, s.lpaBuf, s.dataBuf, 0);
    PickedWhen(s0, 0, 0);
    ChosenOnly(s);
    forall c | ValidChip(s.g, c)
      ensures c in s.chips && c in s0.chips && BgcPick(s0, c) == BgcPick(s, c) && !Before(c, 0, 0)
      ensures BgcPick(s, c).ok <==> BgcFindable(s, c)
      ensures BgcChosen(s).1 ==> c in BgcChosen(s).0.chips && BgcAssigned(s, c, BgcChosen(s).0.chips[c])
    {
      PickAgain(s, s0, c);
      BgcPickExact(s, c);
      if BgcChosen(s).1 { ChosenAt(s, c); }
    }
  }

  lemma PickAgain(s: State, s0: State, c: ChipId)
    requires Shape(s) && ValidChip(s.g, c) && s0 == s.(nrCopy := 0)
    ensures Shape(s0) && BgcPick(s0, c) == BgcPick(s, c)
  {
    hide BgcPick;
    BgcPickWith(s, s0, c);
  }

  // ---- trigger_bg_gc -------------------------------------------------------------------------------------------

  /** There is nothing to copy, or all of it is written and every chip has a block the GC slot has or can take. */
  ghost predicate Moves(s: State)
    requires Ready(s) && BgcChosen(s).1
  {
    hide InvAt, Shape, View, BufSize, BgcChosen, BgcCopied, BgcMoved;
    BgcCopied(s).nrCopy == 0 || (BgcMoved(s).1 && forall c :: ValidChip(s.g, c) ==> Endowed(BgcMoved(s).0, c))
  }

  /** The chip has a GC block, an active one or a dirt one. */
  predicate Endowed(s: State, c: ChipId) {
    c in s.chips && (s.chips[c].gc.Some? || s.chips[c].act.Some? || s.chips[c].dirt != [])
  }

  /**
   * trigger_bg_gc returns 0 if and only if, with no active block on the chip last written, every chip has a GC block
   * to recycle; and otherwise, if victims are found where they are needed and the pages copied can be written.
   */
  lemma BgcExact(s: State)
    requires Ready(s) && Shape(s)
    ensures s.chips[s.mru].act.None? ==> (Bgc(s).1 <==> forall c :: ValidChip(s.g, c) ==> s.chips[c].gc.Some?)
    ensures s.chips[s.mru].act.Some? ==> (Bgc(s).1 <==> BgcChosen(s).1 && Moves(s))
  {
    hide InvAt, BlksShape, DiskShape, L2pShape, Listed, View, BufSize, BgcPrepare, BgcChosen, BgcCopied, BgcMoved,
         UpdateGc, AllGood, Fillable, StillShows, ProgRoom, Bgc;
    BgcCases(s);
    if s.chips[s.mru].act.None? {
      BgcPrepareWhen(s);
    } else if BgcChosen(s).1 {
      RefillOf(s);
    }
  }

  lemma RefillOf(s: State)
    requires Ready(s) && BgcChosen(s).1
    ensures Shape(BgcMoved(s).0) && BgcMoved(s).0.g == s.g
    ensures UpdateGc(BgcMoved(s).0, 0, 0).1 <==> forall c :: ValidChip(s.g, c) ==> Endowed(BgcMoved(s).0, c)
  {
    hide InvAt, BlksShape, DiskShape, L2pShape, Listed, View, BufSize, BgcChosen, BgcCopied, BgcMoved, UpdateGc,
         AllGood, Fillable, StillShows, ProgRoom;
    MovedShape(s);
    UpdateGcExact(BgcMoved(s).0);
  }
}
