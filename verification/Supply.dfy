/**
 * A device whose mapping table is small enough for its chips never runs out of space: no request fails, over
 * every run of writes and discards, as long as background GC does not interfere.
 */
module Supply {
  import opened Common
  import opened Geometry
  import opened Blocks
  import opened FtlState
  import opened Mapping
  import opened Filling
  import opened Erase
  import opened Victims
  import opened Copying
  import opened Gc
  import opened RoundRobin
  import opened Requests
  import opened Counts
  import opened WriteBuffer
  import opened Device
  import opened Interleaving
  import opened Space
  import opened GcSuccess
  import opened WriteSuccess

  // ---- a table that fits ---------------------------------------------------------------------------------------

  /**
   * The table is smaller than a chip without its GC block, and than the flash without a block of every chip and
   * nearly a page of each block of one.
   */
  predicate Ample(g: Geo) {
    && g.blocks >= 2 && g.entries < (g.blocks - 1) * (g.pages * g.slots)
    && g.entries < (g.blocks - 1) * (AllButAPage(g) + 1)
  }

  /** A block's worth of slots on every chip, less a page. */
  function AllButAPage(g: Geo): int { (OneBlockEach(g) - 1) * g.slots }

  /** With two chips or more it is the first bound that counts. */
  lemma AmpleIff(g: Geo)
    requires Sane(g) && g.blocks >= 2 && NumChips(g) >= 2
    ensures Ample(g) <==> g.entries < (g.blocks - 1) * (g.pages * g.slots)
  {
    AtLeastTwice(NumChips(g), g.pages, g.slots);
    Scaled(g.blocks - 1, g.pages * g.slots, AllButAPage(g) + 1);
  }

  lemma AtLeastTwice(n: nat, p: nat, s: nat)
    requires n >= 2 && p >= 1
    ensures p * s <= (n * p - 1) * s
  {
    assert n * p >= p + 1;
    assert (n * p - 1 - p) * s >= 0;
  }

  lemma Scaled(n: nat, x: int, y: int)
    requires x <= y
    ensures n * x <= n * y
  {
  }

  // ---- mapped pages, block by block ----------------------------------------------------------------------------

  /** Every slot of a full block is VALID or INVALID. */
  lemma FullCounts(s: State, b: BlkId)
    requires Inv(s) && Shape(s) && ValidBlk(s.g, b) && s.blks[b].nrFreePgs == 0
    ensures s.blks[b].nrValidLps + s.blks[b].nrInvalidLps == s.g.pages * s.g.slots
  {
    hide Biject, ChipsOk;
    var blk := s.blks[b];
    assert BlockAt(s.g, blk, 0);
    var v, i, all := BlockSlots(s.g, blk, Valid), BlockSlots(s.g, blk, Invalid), Grid(s.g.pages, s.g.slots);
    forall q | q in all ensures q in v || q in i {
      assert PageAt(blk.pages[q.0], s.g.slots, s.g.slots);
      assert blk.pages[q.0].status[q.1] != Free;
    }
    hide InvAt, BlockAt, PagesAt, CountsExact, BlksShape, DiskShape, ChipsShape, L2pShape;
    GridCard(s.g.pages, s.g.slots);
    DisjointUnion(v, i, all);
  }

  /** The mapped slots in the blocks of a list. */
  ghost function MappedIn(s: State, c: ChipId, l: seq<nat>): (r: set<Addr>)
    ensures forall a :: a in r <==> a in s.l2p.Values && a.b.c == c && a.b.no in l
  {
    set a | a in s.l2p.Values && a.b.c == c && a.b.no in l
  }

  lemma BlockIn(s: State, c: ChipId, x: nat)
    requires Inv(s) && Shape(s) && ValidChip(s.g, c) && x < s.g.blocks
    ensures |MappedIn(s, c, [x])| == s.blks[BlkId(c, x)].nrValidLps
  {
    hide InvAt, DiskShape, ChipsShape, L2pShape, AddrsOf, BlockSlots, MappedIn;
    var q := AddrsOf(BlkId(c, x), BlockSlots(s.g, s.blks[BlkId(c, x)], Valid));
    BlockCard(s, BlkId(c, x));
    forall a ensures a in q <==> a in MappedIn(s, c, [x]) { BlockMapped(s, BlkId(c, x), a); }
    assert q == MappedIn(s, c, [x]);
  }

  lemma SplitIn(s: State, c: ChipId, l: seq<nat>)
    requires l != [] && l[0] !in l[1..]
    ensures |MappedIn(s, c, l)| == |MappedIn(s, c, [l[0]])| + |MappedIn(s, c, l[1..])|
  {
    hide MappedIn;
    assert forall x :: x in l <==> x in [l[0]] || x in l[1..];
    DisjointUnion(MappedIn(s, c, [l[0]]), MappedIn(s, c, l[1..]), MappedIn(s, c, l));
  }

  /** Blocks with v VALID slots or more each hold as many mapped pages each. */
  lemma {:induction false} ManyMapped(s: State, c: ChipId, l: seq<nat>, v: nat)
    requires Inv(s) && Shape(s) && ValidChip(s.g, c) && NoDup(l)
    requires forall x :: x in l ==> x < s.g.blocks && s.blks[BlkId(c, x)].nrValidLps >= v
    ensures |MappedIn(s, c, l)| >= |l| * v
    decreases |l|
  {
    hide InvAt, DiskShape, ChipsShape, L2pShape, MappedIn;
    if l == [] {
    } else {
      HeadAndTail(l);
      assert l[0] in l && forall x :: x in l[1..] ==> x in l;
      BlockIn(s, c, l[0]);
      ManyMapped(s, c, l[1..], v);
      SplitIn(s, c, l);
      OneLess(|l|, v);
    }
  }

  /** A chip that has nothing but its GC block and used blocks has one used block less than blocks. */
  lemma AllUsed(g: Geo, ch: Chip)
    requires Partition(g, ch) && ch.act.None? && ch.free == [] && ch.dirt == [] && ch.gc.Some? && g.blocks > 0
    ensures |ch.used| == g.blocks - 1 && NoDup(ch.used)
  {
    BelowCard(g.blocks);
    assert Owners(ch) == multiset(ch.used) + multiset{ch.gc.value};
    assert |Owners(ch)| == |ch.used| + 1;
    assert |multiset(Below(g.blocks))| == g.blocks;
    NoDupBag(ch.used, Owners(ch));
  }

  lemma SpentUsed(s: State, c: ChipId)
    requires Ready(s) && Shape(s) && AllGc(s) && Balanced(s, 0) && ValidChip(s.g, c) && s.chips[c].dirt == []
    ensures |s.chips[c].used| == s.g.blocks - 1 && NoDup(s.chips[c].used)
  {
    AllSpent(s, c);
    assert s.chips[c].gc.Some?;
    ShapeSane(s);
    hide InvAt, BlksShape, DiskShape, ChipsShape, L2pShape, View, BufSize, Balanced, AllGc, AllButAPage, Partition,
         Roles;
    OneChip(s, c);
    AllUsed(s.g, s.chips[c]);
  }

  // ---- something to collect on every chip ----------------------------------------------------------------------

  /** With an ample geometry a chip out of pages that has no dirt block has a used one with an invalid slot. */
  lemma SomeDead(s: State, c: ChipId)
    requires Ready(s) && Shape(s) && AllGc(s) && Balanced(s, 0) && ValidChip(s.g, c) && Ample(s.g)
    requires s.chips[c].dirt == []
    ensures HasDead(s, c)
  {
    hide InvAt, DiskShape, L2pShape, View, BufSize, Balanced, AllGc, AllButAPage, HasDead, MappedIn;
    SpentUsed(s, c);
    var u := s.chips[c].used;
    TooMany(s, c, u);
    if !HasDead(s, c) {
      forall x | x in u ensures x < s.g.blocks && s.blks[BlkId(c, x)].nrValidLps >= s.g.pages * s.g.slots {
        UsedFull(s, c, x);
      }
      ManyMapped(s, c, u, s.g.pages * s.g.slots);
    }
  }

  lemma UsedFull(s: State, c: ChipId, x: nat)
    requires Inv(s) && Shape(s) && ValidChip(s.g, c) && x in s.chips[c].used && !HasDead(s, c)
    ensures x < s.g.blocks && s.blks[BlkId(c, x)].nrValidLps >= s.g.pages * s.g.slots
  {
    UsedLives(s, c, x);
    FullCounts(s, BlkId(c, x));
    hide InvAt, DiskShape, L2pShape;
  }

  lemma TooMany(s: State, c: ChipId, l: seq<nat>)
    requires Inv(s) && Shape(s)
    ensures |MappedIn(s, c, l)| <= s.g.entries
  {
    MappedCard(s);
    SubsetCard(MappedIn(s, c, l), s.l2p.Values);
    hide BlksOk, ChipsOk, BlksShape, DiskShape, ChipsShape;
    assert forall x :: x in s.l2p.Keys ==> x < s.g.entries;
    BoundedCard(s.l2p.Keys, s.g.entries);
  }

  // ---- and a page left after collecting it ---------------------------------------------------------------------

  lemma LiveOfVictim(v: State, c: ChipId)
    requires Inv(v) && Shape(v) && ValidChip(v.g, c)
    ensures v.chips[c].vic.None? ==> |LiveOn(v, c)| == 0
    ensures v.chips[c].vic.Some? ==>
              (v.chips[c].vic.value < v.g.blocks
               && |LiveOn(v, c)| == v.blks[BlkId(c, v.chips[c].vic.value)].nrValidLps)
  {
    hide InvAt, BlksShape, DiskShape, L2pShape;
    assert Listed(v.g, v.chips[c]);
    LiveOnCard(v, c);
  }

  /** The mapped slots of the chip. */
  ghost function MappedOf(s: State, c: ChipId): set<Addr> { set a | a in s.l2p.Values && a.b.c == c }

  /** No used block has fewer live slots than the one with the most invalid ones. */
  lemma LivelierUsed(s: State, c: ChipId, x: nat, y: nat)
    requires Inv(s) && Shape(s) && ValidChip(s.g, c) && MostDead(s, c, x) && y in s.chips[c].used
    ensures x < s.g.blocks && y < s.g.blocks
    ensures 0 <= s.blks[BlkId(c, x)].nrValidLps <= s.blks[BlkId(c, y)].nrValidLps
  {
    UsedLives(s, c, x);
    UsedLives(s, c, y);
    FullCounts(s, BlkId(c, x));
    FullCounts(s, BlkId(c, y));
    hide InvAt, DiskShape, L2pShape;
  }

  /** So the chip holds as many mapped pages as its victim has live slots, for every block but one. */
  lemma VictimShare(s: State, c: ChipId)
    requires Ready(s) && Shape(s) && Chosen(s).1 && ValidChip(s.g, c) && AllGc(s) && Balanced(s, 0)
    ensures var v := Chosen(s).0; Shape(v) && v.g == s.g && (s.g.blocks - 1) * |LiveOn(v, c)| <= |MappedOf(v, c)|
  {
    hide InvAt, BlksShape, DiskShape, L2pShape, Listed, View, BufSize, Chosen, Balanced, MostDead, Recoverable, LiveOn,
         MappedOf, AllGc;
    var v := Chosen(s).0;
    AllSpent(s, c);
    ChosenExact(s);
    assert WellChosen(s, v, c);
    LiveOfVictim(v, c);
    if v.chips[c].vic.Some? {
      SpentUsed(s, c);
      UsedShare(s, c, v.chips[c].vic.value);
    }
  }

  lemma UsedShare(s: State, c: ChipId, x: nat)
    requires Ready(s) && Shape(s) && Chosen(s).1 && ValidChip(s.g, c) && MostDead(s, c, x) && NoDup(s.chips[c].used)
    ensures var v := Chosen(s).0;
            && Shape(v) && v.g == s.g && x < s.g.blocks
            && |s.chips[c].used| * v.blks[BlkId(c, x)].nrValidLps <= |MappedOf(v, c)|
  {
    hide InvAt, DiskShape, L2pShape, Listed, View, BufSize, Chosen, MappedIn;
    var v, u := Chosen(s).0, s.chips[c].used;
    ChosenUsed(s, c, x);
    LivelierUsed(s, c, x, x);
    forall y | y in u
      ensures y < s.g.blocks && v.blks[BlkId(c, y)].nrValidLps >= s.blks[BlkId(c, x)].nrValidLps {
      ChosenUsed(s, c, y);
      LivelierUsed(s, c, x, y);
    }
    ManyMapped(v, c, u, v.blks[BlkId(c, x)].nrValidLps);
    SubsetCard(MappedIn(v, c, u), MappedOf(v, c));
  }

  /** Summed over the chips. */
  lemma {:induction false} SharesAdd(v: State, bus: nat, chip: nat, m: nat)
    requires Inv(v) && Shape(v) && bus <= v.g.buses && chip <= v.g.chips
    requires forall c :: ValidChip(v.g, c) ==> m * |LiveOn(v, c)| <= |MappedOf(v, c)|
    ensures m * |LiveFrom(v, bus, chip)| <= |SlotsFrom(v, bus, chip, 0)|
    decreases v.g.buses - bus, v.g.chips - chip
  {
    hide InvAt, Shape, LiveOn, MappedOf, SlotsFrom;
    if bus < v.g.buses {
      if chip == v.g.chips {
        NoneLeft(v, bus, chip, 0);
        SharesAdd(v, bus + 1, 0, m);
      } else {
        SharesAdd(v, bus, chip + 1, m);
        LiveFromSplit(v, bus, chip);
        ChipSplit(v, bus, chip);
        Times(m, |LiveOn(v, ChipId(bus, chip))|, |LiveFrom(v, bus, chip + 1)|);
      }
    }
  }

  lemma Times(m: nat, a: nat, b: nat)
    ensures m * (a + b) == m * a + m * b
  {
  }

  lemma ChipSplit(v: State, bus: nat, chip: nat)
    requires Shape(v)
    ensures |SlotsFrom(v, bus, chip, 0)| == |MappedOf(v, ChipId(bus, chip))| + |SlotsFrom(v, bus, chip + 1, 0)|
  {
    hide Shape;
    DisjointUnion(MappedOf(v, ChipId(bus, chip)), SlotsFrom(v, bus, chip + 1, 0), SlotsFrom(v, bus, chip, 0));
  }

  lemma AllMapped(v: State)
    requires Inv(v) && Shape(v)
    ensures |SlotsFrom(v, 0, 0, 0)| <= v.g.entries
  {
    MappedCard(v);
    SubsetCard(SlotsFrom(v, 0, 0, 0), v.l2p.Values);
    hide BlksOk, ChipsOk, BlksShape, DiskShape, ChipsShape;
    assert forall x :: x in v.l2p.Keys ==> x < v.g.entries;
    BoundedCard(v.l2p.Keys, v.g.entries);
  }

  /** With an ample geometry what is live in the victims leaves a page. */
  lemma LeavesAPage(s: State)
    requires Ready(s) && Shape(s) && Chosen(s).1 && AllGc(s) && Balanced(s, 0) && Ample(s.g)
    ensures LeftAfter(s) > 0
  {
    hide InvAt, Shape, View, BufSize, Chosen, Balanced, AllButAPage, LiveOn, MappedOf, LiveFrom, NumChips, AllGc,
         PagesFor, OneBlockEach, SlotsFrom;
    var v, m := Chosen(s).0, s.g.blocks - 1;
    InvShape(v);
    ShapeSane(s);
    forall c | ValidChip(s.g, c) ensures m * |LiveOn(v, c)| <= |MappedOf(v, c)| { VictimShare(s, c); }
    SharesAdd(v, 0, 0, m);
    AllMapped(v);
    FewLive(s.g, v.nrCopy);
  }

  lemma FewLive(g: Geo, n: nat)
    requires Sane(g) && Ample(g) && (g.blocks - 1) * n <= g.entries
    ensures PagesFor(n, g.slots) < OneBlockEach(g)
  {
    hide PagesFor;
    if n >= AllButAPage(g) + 1 { Scaled(g.blocks - 1, AllButAPage(g) + 1, n); }
    Positive(NumChips(g), g.pages);
    PagesForBound(n, g.slots, OneBlockEach(g) - 1);
  }

  lemma Positive(a: nat, b: nat)
    requires a > 0 && b > 0
    ensures a * b > 0
  {
  }

  // ---- requests ------------------------------------------------------------------------------------------------

  /** What requests and foreground GC keep: a GC block on every chip, and the pages left spread evenly. */
  ghost predicate Steady(s: State)
    requires Shape(s)
  {
    AllGc(s) && exists n: nat :: Balanced(s, n)
  }

  lemma SpentHasAll(s: State)
    requires Ready(s) && Shape(s) && AllGc(s) && Balanced(s, 0) && Ample(s.g)
    ensures forall c :: ValidChip(s.g, c) ==> s.chips[c].dirt != [] || HasDead(s, c)
  {
    hide InvAt, BlksShape, DiskShape, L2pShape, View, BufSize, Balanced, AllGc, HasDead, Ample;
    ShapeSane(s);
    forall c | ValidChip(s.g, c) && s.chips[c].dirt == [] ensures HasDead(s, c) { SomeDead(s, c); }
  }

  /** Every page write succeeds. */
  lemma WriteSucceeds(s: State, lpas: seq<nat>, data: seq<Data>)
    requires Ready(s) && Shape(s) && Steady(s) && Ample(s.g) && LpasOk(s.g, lpas) && |data| == s.g.slots
    ensures var r := MakeWrite(s, lpas, data); r.1 && Shape(r.0) && r.0.g == s.g && Steady(r.0)
  {
    hide Ready, Shape, View, MakeWrite, Written, LpasOk, Balanced, AllGc, HasDead, Ample, LeftAfter;
    var n: nat :| Balanced(s, n);
    if n > 0 {
      WriteWithRoom(s, lpas, data, n);
    } else {
      SpentHasAll(s);
      SpentRecoverable(s);
      LeavesAPage(s);
      WriteWhenSpent(s, lpas, data);
    }
  }

  lemma DropAvail(s: State, lpa: nat, c: ChipId)
    requires Shape(s) && ValidChip(s.g, c)
    ensures Avail(Invalidate(s, lpa), c) == Avail(s, c) && Invalidate(s, lpa).mru == s.mru
  {
    InvalidateFrame(s, lpa, BlkId(c, 0));
    assert Listed(s.g, s.chips[c]);
    hide DiskShape, L2pShape, Invalidate;
  }

  lemma DropSteady(s: State, lpa: nat)
    requires Shape(s) && Steady(s)
    ensures Steady(Invalidate(s, lpa))
  {
    hide Shape, Invalidate, KeepsStock, AllGc, Avail;
    var n: nat :| Balanced(s, n);
    var r := Invalidate(s, lpa);
    ShapeSane(s);
    DropAvail(s, lpa, s.mru);
    SlotStock(s, lpa, Addr(BlkId(s.mru, 0), 0, 0));
    GcKept(s, r);
    forall c | ValidChip(s.g, c) ensures Avail(r, c) == Avail(s, c) { DropAvail(s, lpa, c); }
    assert Balanced(r, n);
  }

  lemma {:induction false} DropAllSteady(s: State, lpas: seq<nat>)
    requires Shape(s) && Steady(s)
    ensures Steady(InvalidateAll(s, lpas))
    decreases |lpas|
  {
    hide Shape, Steady, Invalidate;
    if lpas != [] {
      DropSteady(s, lpas[0]);
      DropAllSteady(Invalidate(s, lpas[0]), lpas[1..]);
    }
  }

  // ---- the device ----------------------------------------------------------------------------------------------

  /** The device is in order, has room for what may come, and no request has failed. */
  ghost predicate Secure(m: Machine) {
    MachineOk(m) && Shape(m.d.s) && Steady(m.d.s) && Ample(m.d.s.g) && !m.ph.Failed?
  }

  lemma StartedSupplied(m: Machine)
    requires Secure(m) && m.ph.Started?
    ensures Step(m).ph.Flashed? && Shape(Step(m).d.s) && Steady(Step(m).d.s)
  {
    hide Ready, Shape, Lists, WriteBuffer.Index, View, Contents, WritingLpas, MakeWrite, LpasOk, OutLpas, OutData,
         Steady, Ample;
    OutLpasOk(m.d);
    WriteSucceeds(m.d.s, OutLpas(m.d.w), OutData(m.d.w));
  }

  ghost predicate StaysSteady(r: Machine) { !r.ph.Failed? && Shape(r.d.s) && Steady(r.d.s) }

  lemma DiscardingSupplied(m: Machine)
    requires Secure(m) && m.ph.Discarding?
    ensures StaysSteady(Step(m))
  {
    var l := m.ph.rest;
    hide MachineOk, Step, Steady, Ample, Shape;
    DiscardStep(m);
    DropAllSteady(m.d.s, l[..Min(|l|, NR_MAX_LPAS_DISCARD)]);
  }

  lemma DiscardStep(m: Machine)
    requires MachineOk(m) && m.ph.Discarding? && Shape(m.d.s)
    ensures !Step(m).ph.Failed?
    ensures var l := m.ph.rest;
            Step(m).d.s == if l == [] then m.d.s else InvalidateAll(m.d.s, l[..Min(|l|, NR_MAX_LPAS_DISCARD)])
  {
    hide MachineOk, InvalidateAll, Shape, Program1, Put, StartWriting, RmWritten, WithPage;
  }

  lemma DroppingSupplied(m: Machine)
    requires Secure(m) && m.ph.Dropping?
    ensures StaysSteady(Step(m))
  {
    hide MachineOk, InvalidateAll, Steady, Ample;
    DropAllSteady(m.d.s, m.ph.lpas);
    hide Shape;
  }

  lemma OtherSupplied(m: Machine)
    requires Secure(m) && (m.ph.Putting? || m.ph.Flushing? || m.ph.Flashed?)
    ensures !Step(m).ph.Failed? && Step(m).d.s == m.d.s
  {
    hide Ready, Shape, WbInv, View, Contents, WritingLpas, Put, StartWriting, RmWritten, Steady, Ample;
  }

  lemma StepSupplied(m: Machine)
    requires Secure(m) && !Resting(m)
    ensures Secure(Step(m))
  {
    StepSound(m);
    hide MachineOk, Step, Shape, Steady, Ample, Agrees;
    match m.ph {
      case Dropping(_, _) => DroppingSupplied(m);
      case Started(_, _, _) => StartedSupplied(m);
      case Discarding(_) => DiscardingSupplied(m);
      case _ => OtherSupplied(m);
    }
  }

  lemma EventSupplied(m: Machine, e: Event)
    requires Secure(m) && Enabled(m, e) && !e.Background?
    ensures MachineOk(Apply(m, e)) && Secure(Apply(m, e))
  {
    EventSound(m, e);
    hide MachineOk, Step, Shape, Steady, Ample, Agrees, RmAll, DiscardLpas, WbInv, Ready;
    if e.Go? { StepSupplied(m); }
  }

  /** Over every run of writes and discards without background GC no request fails. */
  lemma {:induction false} RunSupplied(m: Machine, es: seq<Event>)
    requires Secure(m) && RunOk(m, es) && forall i :: 0 <= i < |es| ==> !es[i].Background?
    ensures Secure(Run(m, es))
    decreases |es|
  {
    hide Apply, Shape, Steady, Ample, Agrees, MachineOk, Enabled, Secure;
    if es != [] {
      SuppliedOk(m);
      assert !es[0].Background? && forall i :: 0 <= i < |es| - 1 ==> es[1..][i] == es[i + 1];
      RunUnfold(m, es);
      EventSupplied(m, es[0]);
      RunSupplied(Apply(m, es[0]), es[1..]);
    }
  }

  lemma SuppliedOk(m: Machine)
    requires Secure(m)
    ensures MachineOk(m)
  {
    hide MachineOk, Shape, Steady;
  }

  lemma RunUnfold(m: Machine, es: seq<Event>)
    requires MachineOk(m) && RunOk(m, es) && es != []
    ensures Enabled(m, es[0]) && MachineOk(Apply(m, es[0])) && RunOk(Apply(m, es[0]), es[1..])
    ensures Run(m, es) == Run(Apply(m, es[0]), es[1..])
  {
    hide Apply, MachineOk, Enabled, Agrees;
    EventSound(m, es[0]);
  }

  // ---- from a new device on ------------------------------------------------------------------------------------

  lemma InitAvail(g: Geo, disk: map<BlkId, seq<seq<Data>>>, lpaBuf: seq<nat>, dataBuf: seq<Data>, c: ChipId)
    requires Sane(g) && g.blocks >= 2 && ValidChip(g, c) && Shape(InitState(g, disk, lpaBuf, dataBuf))
    ensures var s := InitState(g, disk, lpaBuf, dataBuf);
            s.g == g && s.chips[c].gc.Some? && Avail(s, c) == (g.blocks - 1) * g.pages
  {
    var s := InitState(g, disk, lpaBuf, dataBuf);
    assert s.chips[c] == InitChip(g);
    InitLists(g);
    assert Listed(g, s.chips[c]);
    hide DiskShape, L2pShape, InitChip, ChipSet;
    assert BlkId(c, 0) in BlkSet(g);
    assert s.blks[BlkId(c, 0)] == FreeBlock(g, 0);
    OneLess(g.blocks - 1, g.pages);
  }

  lemma InitLists(g: Geo)
    requires g.blocks >= 2
    ensures var ch := InitChip(g); ch.act == Some(0) && ch.gc == Some(1) && |ch.free| == g.blocks - 2
  {
    assert Upto(g.blocks)[0] == 0 && Upto(g.blocks)[1] == 1;
  }

  lemma InitSteady(g: Geo, disk: map<BlkId, seq<seq<Data>>>, lpaBuf: seq<nat>, dataBuf: seq<Data>)
    requires Sane(g) && g.blocks >= 2 && Shape(InitState(g, disk, lpaBuf, dataBuf))
    ensures InitState(g, disk, lpaBuf, dataBuf).g == g && Steady(InitState(g, disk, lpaBuf, dataBuf))
  {
    hide Shape, InitState, Avail, NumChips;
    var s := InitState(g, disk, lpaBuf, dataBuf);
    ShapeSane(s);
    InitCursor(g, disk, lpaBuf, dataBuf);
    var m := (g.blocks - 1) * g.pages;
    forall c | ValidChip(g, c) ensures c in s.chips && s.chips[c].gc.Some? && Avail(s, c) == m {
      InitAvail(g, disk, lpaBuf, dataBuf, c);
      InChips(s, c);
    }
    forall c | ValidChip(g, c) ensures TurnsOf(g, s.mru, c, NumChips(g) * m) == m {
      TurnsInRounds(g, s.mru, c, m);
    }
    assert Balanced(s, NumChips(g) * m);
  }

  lemma InChips(s: State, c: ChipId)
    requires Shape(s) && ValidChip(s.g, c)
    ensures c in s.chips
  {
  }

  /** The first page goes to block 0 of chip 0 of bus 0. */
  lemma InitCursor(g: Geo, disk: map<BlkId, seq<seq<Data>>>, lpaBuf: seq<nat>, dataBuf: seq<Data>)
    requires Sane(g) && g.blocks >= 2
    ensures var s := InitState(g, disk, lpaBuf, dataBuf);
            && s.g == g && ValidChip(g, s.mru) && NextChip(g, s.mru) == ChipId(0, 0) && ChipId(0, 0) in s.chips
            && s.chips[ChipId(0, 0)].act == Some(0)
  {
    hide InitChip;
    InitLists(g);
    assert ChipId(0, 0) in ChipSet(g);
  }

  /**
   * A new device whose mapping table is ample for its chips never fails a request: whatever is written and
   * discarded, without background GC, err stays clear, and at rest a read returns what the requests ask for.
   */
  lemma NeverFails(g: Geo, disk: map<BlkId, seq<seq<Data>>>, lpaBuf: seq<nat>, dataBuf: seq<Data>, n: nat,
                   es: seq<Event>, lpa: nat)
    requires Sane(g) && Ample(g) && DiskShape(g, disk) && n >= g.slots
    requires |lpaBuf| == BufSize(g) && |dataBuf| >= BufSize(g)
    requires var m := Machine(InitDev(g, disk, lpaBuf, dataBuf, n), Idle); MachineOk(m) && RunOk(m, es)
    requires forall i :: 0 <= i < |es| ==> !es[i].Background?
    ensures forall i :: 0 <= i < |es| && es[i].Write? ==> |es[i].lpas| == |es[i].data|
    ensures var r := Run(Machine(InitDev(g, disk, lpaBuf, dataBuf, n), Idle), es);
            && MachineOk(r) && Shape(r.d.s) && Numbers(r.d.w) && !r.ph.Failed?
            && (r.ph.Idle? ==>
                  var a := Wanted(map[], es);
                  ReadReq(r.d, lpa) == Served(if lpa in a then Some(a[lpa]) else None))
  {
    hide MachineOk, InitState, InitWb, Steady, Run, RunOk, Wanted, ReadReq, BufSize, Agrees, AllButAPage;
    var m := Machine(InitDev(g, disk, lpaBuf, dataBuf, n), Idle);
    InitAgrees(g, disk, lpaBuf, dataBuf, n);
    MachineReady(m);
    ReadySane(m.d.s);
    InitSteady(g, disk, lpaBuf, dataBuf);
    RunSupplied(m, es);
    RunRefines(m, map[], es);
    SecureRun(Run(m, es));
    if Run(m, es).ph.Idle? { RunReads(m, map[], es, lpa); }
  }

  lemma SecureRun(r: Machine)
    requires Secure(r)
    ensures MachineOk(r) && Shape(r.d.s) && Numbers(r.d.w) && !r.ph.Failed?
  {
    hide Ready, Shape, Lists, WriteBuffer.Index, View, Contents, WritingLpas, Steady, Ample;
  }

  /**
   * A chip of the repository's size with a table of 90 percent of it is ample; its two chips with one table are
   * not.
   */
  lemma AmpleSizes()
    ensures Ample(Geo(1, 1, FLASHBENCH.blocks, FLASHBENCH.pages, FLASHBENCH.slots, FLASHBENCH.entries / 2))
    ensures !Ample(FLASHBENCH)
  {
  }
}
