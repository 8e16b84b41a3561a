/**
 * When a page write returns 0 and when -1: in general in terms of foreground GC, and for the states that
 * requests and foreground GC lead to in terms of the chips alone.
 */
module WriteSuccess {
  import opened Geometry
  import opened FtlState
  import opened Mapping
  import opened Filling
  import opened Program
  import opened Victims
  import opened Copying
  import opened Gc
  import opened RoundRobin
  import opened Requests
  import opened Space
  import opened GcSuccess

  // ---- in general ----------------------------------------------------------------------------------------------

  /** The chip whose turn it is has neither an active nor a free block. */
  predicate Stuck(s: State)
    requires Shape(s)
  {
    s.chips[NextOf(s)].act.None? && s.chips[NextOf(s)].free == []
  }

  /** The chip whose turn it is has neither a GC nor a free block. */
  predicate Starved(s: State)
    requires Shape(s)
  {
    s.chips[NextOf(s)].gc.None? && s.chips[NextOf(s)].free == []
  }

  /** Foreground GC returned -1, or left the chip whose turn it is without a block to write to. */
  ghost predicate GcInVain(s: State)
    requires Ready(s)
  {
    InvShape(Fgc(s).0);
    !Fgc(s).1 || Stuck(Fgc(s).0)
  }

  lemma NextOfIs(s: State)
    requires Shape(s)
    ensures NextOf(s) == NextChip(s.g, s.mru) && ValidChip(s.g, NextOf(s)) && NextOf(s) in s.chips
    ensures Stuck(s) <==> !CanAlloc(s, NextOf(s))
    ensures Starved(s) <==> FgcNeeded(s.chips[NextOf(s)])
  {
    hide BlksShape, DiskShape, L2pShape, Listed;
  }

  lemma NextParts(s: State, lpas: seq<nat>, data: seq<Data>)
    requires Ready(s) && Shape(s) && LpasOk(s.g, lpas) && |data| == s.g.slots
    ensures WriteNext(s, lpas, data).1 <==> !Stuck(s)
  {
    hide InvAt, Shape, View, BufSize, ProgramPage, Written, LpasOk, CanAlloc, Stuck, NextChip, Fillable;
    NextOfIs(s);
    InvFillable(s);
  }

  lemma CollectParts(s: State, lpas: seq<nat>, data: seq<Data>)
    requires Ready(s) && Shape(s) && LpasOk(s.g, lpas) && |data| == s.g.slots
    ensures CollectAndWrite(s, lpas, data).1 <==> !GcInVain(s)
  {
    hide InvAt, Shape, View, BufSize, Fgc, Written, LpasOk, Stuck, WriteNext;
    InvShape(Fgc(s).0);
    if Fgc(s).1 { NextParts(Fgc(s).0, lpas, data); }
  }

  lemma MakeParts(s: State, lpas: seq<nat>, data: seq<Data>)
    requires Ready(s) && Shape(s) && LpasOk(s.g, lpas) && |data| == s.g.slots
    ensures var s1 := if Starved(s) then Fgc(s).0 else s;
            && Shape(s1) && Ready(s1) && LpasOk(s1.g, lpas)
            && (MakeWrite(s, lpas, data) == if Starved(s) && !Fgc(s).1 then Fgc(s)
                                            else if Stuck(s1) then CollectAndWrite(s1, lpas, data)
                                            else WriteNext(s1, lpas, data))
  {
    hide InvAt, Shape, View, BufSize, Fgc, Written, LpasOk, Stuck, Starved, WriteNext, CollectAndWrite, NextChip,
         CanAlloc, FgcNeeded;
    InvShape(Fgc(s).0);
    NextOfIs(s);
    NextOfIs(Fgc(s).0);
  }

  /**
   * A page write fails if and only if the foreground GC it needs is in vain: once at the start if the chip whose turn
   * it is has neither a GC nor a free block, and once more if there is then no block to write to.
   */
  lemma WriteFails(s: State, lpas: seq<nat>, data: seq<Data>)
    requires Ready(s) && Shape(s) && LpasOk(s.g, lpas) && |data| == s.g.slots
    ensures var s1 := if Starved(s) then Fgc(s).0 else s;
            && Shape(s1) && Ready(s1)
            && (!MakeWrite(s, lpas, data).1 <==> (Starved(s) && !Fgc(s).1) || (Stuck(s1) && GcInVain(s1)))
  {
    hide Ready, Shape, View, Fgc, MakeWrite, Written, LpasOk, Stuck, Starved, WriteNext, CollectAndWrite, GcInVain;
    MakeParts(s, lpas, data);
    var s1 := if Starved(s) then Fgc(s).0 else s;
    NextParts(s1, lpas, data);
    CollectParts(s1, lpas, data);
  }

  /** With a block to write to, and a GC or a free block beside it, nothing is collected. */
  lemma WriteDirect(s: State, lpas: seq<nat>, data: seq<Data>)
    requires Ready(s) && Shape(s) && LpasOk(s.g, lpas) && |data| == s.g.slots && !Stuck(s) && !Starved(s)
    ensures CanFill(s, NextOf(s), lpas, data)
    ensures MakeWrite(s, lpas, data) == (ProgramPage(s, NextOf(s), lpas, data), true)
  {
    hide InvAt, Shape, View, BufSize, Fgc, MakeWrite, ProgramPage, Written, LpasOk, Stuck, Starved, NextChip, CanAlloc,
         Fillable, CollectAndWrite;
    MakeParts(s, lpas, data);
    NextOfIs(s);
    InvFillable(s);
    SlotsOf(s.g, lpas);
  }

  lemma SlotsOf(g: Geo, lpas: seq<nat>)
    requires LpasOk(g, lpas)
    ensures |lpas| == g.slots
  {
  }

  // ---- in the states requests and foreground GC lead to --------------------------------------------------------

  /** Every chip has its GC block. */
  ghost predicate AllGc(s: State)
    requires Shape(s)
  {
    forall c :: ValidChip(s.g, c) ==> s.chips[c].gc.Some?
  }

  lemma NotStarved(s: State, n: nat)
    requires Ready(s) && Shape(s) && AllGc(s) && Balanced(s, n)
    ensures !Starved(s) && (Stuck(s) <==> n == 0)
  {
    NextIsValid(s);
    InvFillable(s);
    BalancedAlloc(s, n);
    hide InvAt, BlksShape, DiskShape, L2pShape, Listed, Fillable, Balanced, Avail;
  }

  lemma GcKept(s: State, r: State)
    requires Shape(s) && Shape(r) && r.g == s.g && KeepsStock(s, r) && AllGc(s)
    ensures AllGc(r)
  {
    hide BlksShape, DiskShape, L2pShape, Listed;
  }

  /** As long as pages are left a page write succeeds, and the rest stays balanced. */
  lemma WriteWithRoom(s: State, lpas: seq<nat>, data: seq<Data>, n: nat)
    requires Ready(s) && Shape(s) && LpasOk(s.g, lpas) && |data| == s.g.slots
    requires AllGc(s) && Balanced(s, n) && n > 0
    ensures var r := MakeWrite(s, lpas, data);
            r.1 && Shape(r.0) && r.0.g == s.g && AllGc(r.0) && Balanced(r.0, n - 1)
  {
    hide InvAt, Shape, View, BufSize, MakeWrite, ProgramPage, Written, LpasOk, CanFill, AllGc, Balanced, KeepsStock,
         Stuck, Starved;
    NotStarved(s, n);
    WriteDirect(s, lpas, data);
    NextOfIs(s);
    FillBalanced(s, lpas, data, n);
    FillStock(s, NextOf(s), lpas, data);
    GcKept(s, MakeWrite(s, lpas, data).0);
  }

  /** Balanced with no page left: no chip has an active or a free block. */
  lemma AllSpent(s: State, c: ChipId)
    requires Inv(s) && Shape(s) && Balanced(s, 0) && ValidChip(s.g, c)
    ensures s.chips[c].act.None? && s.chips[c].free == []
  {
    InvFillable(s);
    AllocIff(s, c);
    assert Avail(s, c) == 0;
    hide InvAt, BlksShape, DiskShape, L2pShape, Listed, Fillable, Balanced, Avail;
  }

  lemma SpentRecoverable(s: State)
    requires Ready(s) && Shape(s) && AllGc(s) && Balanced(s, 0)
    ensures Chosen(s).1 <==> forall c :: ValidChip(s.g, c) ==> s.chips[c].dirt != [] || HasDead(s, c)
  {
    hide InvAt, BlksShape, DiskShape, L2pShape, Listed, View, BufSize, Chosen, HasDead, Balanced, WellChosen;
    ChosenExact(s);
    forall c | ValidChip(s.g, c) ensures s.chips[c].act.None? { AllSpent(s, c); }
  }

  /** The pages of one block on every chip. */
  function OneBlockEach(g: Geo): nat { NumChips(g) * g.pages }

  lemma EntriesOf(g: Geo)
    ensures BufSize(g) == OneBlockEach(g) * g.slots
  {
    Associate(NumChips(g), g.pages, g.slots);
  }

  lemma Associate(a: nat, b: nat, c: nat)
    ensures a * (b * c) == (a * b) * c
  {
  }

  /** Then every chip has a whole block to take pages into. */
  lemma FreshAvail(s: State, c: ChipId)
    requires Ready(s) && Shape(s) && AllGc(s) && Balanced(s, 0) && Chosen(s).1 && ValidChip(s.g, c)
    ensures var v := Chosen(s).0;
            Shape(v) && v.g == s.g && v.mru == s.mru && Avail(v, c) == s.g.pages
  {
    AllSpent(s, c);
    assert s.chips[c].gc.Some?;
    hide InvAt, BlksShape, DiskShape, L2pShape, View, BufSize, Chosen, HasDead, Balanced, AllGc;
    ChosenFresh(s, c);
  }

  lemma FreshBalanced(s: State)
    requires Ready(s) && Shape(s) && AllGc(s) && Balanced(s, 0) && Chosen(s).1
    ensures Shape(Chosen(s).0) && Chosen(s).0.g == s.g && Balanced(Chosen(s).0, OneBlockEach(s.g))
  {
    hide InvAt, Shape, View, BufSize, Chosen, HasDead, AllGc, Avail;
    InvShape(Chosen(s).0);
    ShapeSane(s);
    FreshAvail(s, s.mru);
    forall c | ValidChip(s.g, c)
      ensures Avail(Chosen(s).0, c) == TurnsOf(s.g, s.mru, c, OneBlockEach(s.g))
    {
      FreshAvail(s, c);
      TurnsInRounds(s.g, s.mru, c, s.g.pages);
    }
  }

  lemma ShapeSane(s: State)
    requires Shape(s)
    ensures Sane(s.g) && ValidChip(s.g, s.mru)
  {
  }

  lemma {:induction false} PagesForBound(left: int, slots: nat, k: nat)
    requires slots > 0 && left <= k * slots
    ensures PagesFor(left, slots) <= k
    decreases k
  {
    if left > 0 {
      OneLess(k, slots);
      PagesForBound(left - slots, slots, k - 1);
    }
  }

  /** What is to be copied always fits a block on every chip. */
  lemma CopiesFit(s: State)
    requires Ready(s) && Chosen(s).1
    ensures s.g.slots > 0 && PagesFor(Chosen(s).0.nrCopy, s.g.slots) <= OneBlockEach(s.g)
  {
    var v := Chosen(s).0;
    InvShape(s);
    ShapeSane(s);
    hide InvAt, Shape, View, Chosen, LiveFrom, Collect, Copied, BufSize, OneBlockEach;
    CollectCount(v);
    CollectFits(v);
    EntriesOf(s.g);
    PagesForBound(v.nrCopy, s.g.slots, OneBlockEach(s.g));
  }

  lemma ReadBalanced(v: State, n: nat)
    requires Ready(v) && Shape(v) && Balanced(v, n)
    ensures Shape(ReadVictims(v)) && ReadVictims(v).g == v.g && ReadVictims(v).nrCopy == v.nrCopy
    ensures Balanced(ReadVictims(v), n)
  {
    hide InvAt, BlksShape, DiskShape, L2pShape, View, BufSize, LiveFrom, ReadVictims;
    ReadKeeps(v);
    InvShape(ReadVictims(v));
    forall c | ValidChip(v.g, c) ensures Avail(ReadVictims(v), c) == Avail(v, c) { }
  }

  lemma RefillBalanced(m: State, n: nat)
    requires Shape(m) && Balanced(m, n) && UpdateGc(m, 0, 0).1
    ensures var r := UpdateGc(m, 0, 0).0; Shape(r) && r.g == m.g && Balanced(r, n)
  {
    hide BlksShape, DiskShape, L2pShape, UpdateGc;
    UpdateGcExact(m);
    var r := UpdateGc(m, 0, 0).0;
    forall c | ValidChip(m.g, c) ensures Avail(r, c) == Avail(m, c) { assert GcRefilled(m.chips[c], r.chips[c]); }
  }

  /** The pages left when foreground GC has moved what is live in its victims. */
  ghost function LeftAfter(s: State): int
    requires Ready(s)
  {
    OneBlockEach(s.g) - PagesFor(Chosen(s).0.nrCopy, s.g.slots)
  }

  lemma SpentMoves(s: State)
    requires Ready(s) && Shape(s) && AllGc(s) && Balanced(s, 0) && Chosen(s).1
    ensures Moved(s).1 && Shape(Moved(s).0) && Moved(s).0.g == s.g && LeftAfter(s) >= 0
    ensures Balanced(Moved(s).0, LeftAfter(s))
  {
    hide InvAt, Shape, View, BufSize, Chosen, Moved, Prog, Fillable, ReadVictims, LiveFrom, Collect, Balanced, AllGc,
         OneBlockEach, PagesFor;
    FreshBalanced(s);
    CopiesFit(s);
    var v := Chosen(s).0;
    ReadBalanced(v, OneBlockEach(s.g));
    MovedIsProg(s);
    ProgBalanced(ReadVictims(v), 0, v.nrCopy, OneBlockEach(s.g));
  }

  /**
   * With all chips out of pages foreground GC returns 0 if and only if each of them has a dirt block or a used block
   * with an invalid slot; then every chip has its GC block again, and the rest is balanced.
   */
  lemma FgcWhenSpent(s: State)
    requires Ready(s) && Shape(s) && AllGc(s) && Balanced(s, 0)
    ensures Fgc(s).1 <==> forall c :: ValidChip(s.g, c) ==> s.chips[c].dirt != [] || HasDead(s, c)
    ensures Fgc(s).1 ==>
              var r := Fgc(s).0; Shape(r) && r.g == s.g && AllGc(r) && LeftAfter(s) >= 0 && Balanced(r, LeftAfter(s))
  {
    hide InvAt, Shape, View, BufSize, Chosen, Moved, UpdateGc, Fgc, HasDead, Balanced, LeftAfter;
    SpentRecoverable(s);
    FgcExact(s);
    if Chosen(s).1 {
      SpentMoves(s);
      FgcParts(s);
      RefillBalanced(Moved(s).0, LeftAfter(s));
    }
  }

  /**
   * With all chips out of pages a page write succeeds if and only if each of them has a dirt block or a used block
   * with an invalid slot, and what is live in the victims leaves a page.
   */
  lemma WriteWhenSpent(s: State, lpas: seq<nat>, data: seq<Data>)
    requires Ready(s) && Shape(s) && LpasOk(s.g, lpas) && |data| == s.g.slots && AllGc(s) && Balanced(s, 0)
    ensures MakeWrite(s, lpas, data).1 <==>
              && (forall c :: ValidChip(s.g, c) ==> s.chips[c].dirt != [] || HasDead(s, c))
              && LeftAfter(s) > 0
    ensures MakeWrite(s, lpas, data).1 ==>
              var r := MakeWrite(s, lpas, data).0;
              Shape(r) && r.g == s.g && AllGc(r) && Balanced(r, LeftAfter(s) - 1)
  {
    hide Ready, Shape, View, Fgc, MakeWrite, Written, LpasOk, Stuck, Starved, WriteNext, CollectAndWrite, GcInVain,
         HasDead, Balanced, LeftAfter, AllGc;
    NotStarved(s, 0);
    FgcWhenSpent(s);
    WriteFails(s, lpas, data);
    VainIff(s);
    if Fgc(s).1 {
      NotStarved(Fgc(s).0, LeftAfter(s));
      if LeftAfter(s) > 0 {
        SpentIs(s, lpas, data);
        WriteWithRoom(Fgc(s).0, lpas, data, LeftAfter(s));
      }
    }
  }

  lemma VainIff(s: State)
    requires Ready(s)
    ensures Shape(Fgc(s).0) && (GcInVain(s) <==> !Fgc(s).1 || Stuck(Fgc(s).0))
  {
    hide InvAt, Shape, View, Fgc, Stuck;
    InvShape(Fgc(s).0);
  }

  /** After a successful foreground GC the write goes on as it would from there. */
  lemma SpentIs(s: State, lpas: seq<nat>, data: seq<Data>)
    requires Ready(s) && Shape(s) && LpasOk(s.g, lpas) && |data| == s.g.slots && !Starved(s) && Stuck(s)
    requires Fgc(s).1 && Shape(Fgc(s).0) && !Starved(Fgc(s).0) && !Stuck(Fgc(s).0)
    ensures MakeWrite(s, lpas, data) == MakeWrite(Fgc(s).0, lpas, data)
  {
    hide InvAt, Shape, View, BufSize, Fgc, MakeWrite, Written, LpasOk, Stuck, Starved, WriteNext;
    MakeParts(s, lpas, data);
    MakeParts(Fgc(s).0, lpas, data);
  }
}
