/**
 * Choosing victim blocks and reading their live pages (set_vic_blks and get_valid_pgs_in_vic_blks).
 */
module Victims {
  import opened Common
  import opened Geometry
  import opened Blocks
  import opened FtlState
  import opened Erase

  // ---- find_first_valid_pg -------------------------------------------------------------------------------------

  /** The first page from `pg` on that is not dead, or the page count if there is none. */
  function FirstValidPg(g: Geo, b: Block, pg: nat): (r: nat)
    requires BlockShape(g, b) && pg <= g.pages
    ensures pg <= r <= g.pages
    ensures forall p :: pg <= p < r ==> b.pages[p].nrInvalidLps >= g.slots
    ensures r < g.pages ==> b.pages[r].nrInvalidLps < g.slots
    decreases g.pages - pg
  {
    if pg == g.pages || b.pages[pg].nrInvalidLps < g.slots then pg else FirstValidPg(g, b, pg + 1)
  }

  // ---- select_vic_blk_from_used, select_vic_blk_greedy ---------------------------------------------------------

  function NrInvalid(s: State, c: ChipId, x: nat): int
    requires Shape(s) && ValidChip(s.g, c) && x < s.g.blocks
  {
    s.blks[BlkId(c, x)].nrInvalidLps
  }

  /** The scan of the used list: a block with the most invalid slots, provided it has one. */
  function MostInvalid(s: State, c: ChipId, l: seq<nat>, i: nat, best: Option<nat>, most: int): (r: Option<nat>)
    requires Shape(s) && ValidChip(s.g, c) && i <= |l| && (forall j :: 0 <= j < |l| ==> l[j] < s.g.blocks)
    requires if best.None? then most == 0 else best.value in l && 0 < most == NrInvalid(s, c, best.value)
    requires forall j :: 0 <= j < i ==> NrInvalid(s, c, l[j]) <= most
    ensures r.Some? ==> r.value in l && NrInvalid(s, c, r.value) > 0
    ensures r.Some? ==> forall j :: 0 <= j < |l| ==> NrInvalid(s, c, l[j]) <= NrInvalid(s, c, r.value)
    ensures r.None? ==> forall j :: 0 <= j < |l| ==> NrInvalid(s, c, l[j]) <= 0
    decreases |l| - i
  {
    if i == |l| then best
    else if NrInvalid(s, c, l[i]) > most then MostInvalid(s, c, l, i + 1, Some(l[i]), NrInvalid(s, c, l[i]))
    else MostInvalid(s, c, l, i + 1, best, most)
  }

  /** select_vic_blk_greedy: the first dirt block, else the used block with the most invalid slots. */
  function Greedy(s: State, c: ChipId): (r: Option<nat>)
    requires Shape(s) && ValidChip(s.g, c)
    ensures r.Some? ==> r.value in s.chips[c].dirt || r.value in s.chips[c].used
  {
    var ch := s.chips[c];
    assert Listed(s.g, ch) && forall j :: 0 <= j < |ch.used| ==> ch.used[j] in ch.used;
    if ch.dirt != [] then Some(ch.dirt[0]) else MostInvalid(s, c, ch.used, 0, None, 0)
  }

  // ---- set_vic_blks --------------------------------------------------------------------------------------------

  /** The body of set_vic_blks for one chip; None is the error return. */
  function ChooseVictim(s: State, c: ChipId): Option<State>
    requires Shape(s) && ValidChip(s.g, c)
  {
    var ch := s.chips[c];
    if ch.gc.Some? && ch.act.Some? then Some(s.(chips := s.chips[c := ch.(vic := None)]))
    else match Greedy(s, c)
      case None => None
      case Some(x) =>
        var n := s.blks[BlkId(c, x)].nrValidLps;
        if n <= 0 then Some(s.(chips := s.chips[c := ch.(vic := None)]))
        else Some(s.(chips := s.chips[c := ch.(vic := Some(x), firstPg := FirstValidPg(s.g, s.blks[BlkId(c, x)], 0))],
                     nrCopy := s.nrCopy + n))
  }

  /** (bus, chip) comes before the current point of the bus-by-bus loop. */
  predicate Before(c: ChipId, bus: nat, chip: nat) { c.bus < bus || (c.bus == bus && c.chip < chip) }

  /** A chosen victim is a used block: fully programmed, with something live in it. */
  ghost predicate VictimOk(s: State, c: ChipId)
    requires Shape(s) && ValidChip(s.g, c)
  {
    s.chips[c].vic.Some? ==>
      s.chips[c].vic.value in s.chips[c].used && s.blks[BlkId(c, s.chips[c].vic.value)].nrFreePgs == 0
  }

  /** Victims may be chosen freely: the rest of the invariant does not look at them. */
  lemma VictimIrrelevant(s: State, c: ChipId, v: Option<nat>, pg: nat, n: nat)
    requires Inv(s) && ValidChip(s.g, c) && (v.Some? ==> v.value < s.g.blocks) && pg <= s.g.pages
    ensures var s' := s.(chips := s.chips[c := s.chips[c].(vic := v, firstPg := pg)], nrCopy := n);
            Inv(s') && View(s') == View(s)
  {
    hide BlksOk, Biject, ChipsOk, ViewOf;
    OneChip(s, c);
    SetChip(s.g, s.chips, s.blks, None, c, s.chips[c].(vic := v, firstPg := pg));
  }

  /** The live count the block table keeps for the victim of a chip. */
  ghost function NrLive(s: State, c: ChipId): int
    requires Shape(s) && ValidChip(s.g, c)
  {
    assert Listed(s.g, s.chips[c]);
    if s.chips[c].vic.None? then 0 else s.blks[BlkId(c, s.chips[c].vic.value)].nrValidLps
  }

  lemma ChooseVictimOk(s: State, c: ChipId)
    requires Inv(s) && ValidChip(s.g, c) && ChooseVictim(s, c).Some?
    ensures var s' := ChooseVictim(s, c).value;
            && Kept(s, s') && s' == s.(chips := s.chips[c := s'.chips[c]], nrCopy := s'.nrCopy) && VictimOk(s', c)
            && s'.nrCopy == s.nrCopy + NrLive(s', c)
  {
    hide BlksOk, Biject, ChipsOk, View, Partition;
    OneChip(s, c);
    var s' := ChooseVictim(s, c).value;
    VictimIrrelevant(s, c, s'.chips[c].vic, s'.chips[c].firstPg, s'.nrCopy);
  }

  /** set_vic_blks from (bus, chip) on, bus by bus. */
  ghost function SetVictims(s: State, bus: nat, chip: nat): (r: (State, bool))
    requires Inv(s) && bus <= s.g.buses && chip <= s.g.chips
    ensures Kept(s, r.0)
    decreases s.g.buses - bus, s.g.chips - chip
  {
    hide BlksOk, Biject, ChipsOk, View, VictimOk, DiskShape;
    if bus == s.g.buses then (s, true)
    else if chip == s.g.chips then SetVictims(s, bus + 1, 0)
    else match ChooseVictim(s, ChipId(bus, chip))
      case None => (s, false)
      case Some(s1) => ChooseVictimOk(s, ChipId(bus, chip)); SetVictims(s1, bus, chip + 1)
  }

  /** The pass touches only the chips still to come, and gives each of them a proper victim or none. */
  ghost predicate VictimsSet(s: State, r: (State, bool), bus: nat, chip: nat)
    requires Shape(s) && Shape(r.0)
  {
    && r.0 == s.(chips := r.0.chips, nrCopy := r.0.nrCopy)
    && (forall c :: ValidChip(s.g, c) && Before(c, bus, chip) ==> r.0.chips[c] == s.chips[c])
    && (r.1 ==> forall c :: ValidChip(s.g, c) && !Before(c, bus, chip) ==> VictimOk(r.0, c))
  }

  lemma VictimsSetStep(s: State, s1: State, r: (State, bool), bus: nat, chip: nat)
    requires Shape(s) && Shape(s1) && Shape(r.0) && ValidChip(s.g, ChipId(bus, chip))
    requires s1.g == s.g
    requires s1 == s.(chips := s.chips[ChipId(bus, chip) := s1.chips[ChipId(bus, chip)]], nrCopy := s1.nrCopy)
    requires VictimOk(s1, ChipId(bus, chip)) && VictimsSet(s1, r, bus, chip + 1)
    ensures VictimsSet(s, r, bus, chip)
  {
    hide BlksShape, DiskShape, L2pShape, Listed;
    assert VictimOk(r.0, ChipId(bus, chip));
    forall c | ValidChip(s.g, c) && Before(c, bus, chip) ensures r.0.chips[c] == s.chips[c] {
      assert s1.chips[c] == s.chips[c];
    }
  }

  lemma {:induction false} SetVictimsOk(s: State, bus: nat, chip: nat)
    requires Inv(s) && bus <= s.g.buses && chip <= s.g.chips
    ensures VictimsSet(s, SetVictims(s, bus, chip), bus, chip)
    decreases s.g.buses - bus, s.g.chips - chip
  {
    hide BlksOk, Biject, ChipsOk, View, DiskShape, ChooseVictim, VictimOk;
    if bus < s.g.buses {
      if chip == s.g.chips {
        SetVictimsOk(s, bus + 1, 0);
      } else if ChooseVictim(s, ChipId(bus, chip)).Some? {
        var s1 := ChooseVictim(s, ChipId(bus, chip)).value;
        ChooseVictimOk(s, ChipId(bus, chip));
        SetVictimsOk(s1, bus, chip + 1);
        VictimsSetStep(s, s1, SetVictims(s, bus, chip), bus, chip);
      }
    }
  }

  // ---- which victims are chosen --------------------------------------------------------------------------------

  /** Used block x of the chip has an invalid slot, and no used block has more. */
  ghost predicate MostDead(s: State, c: ChipId, x: nat)
    requires Shape(s) && ValidChip(s.g, c)
  {
    && x in s.chips[c].used && x < s.g.blocks && s.blks[BlkId(c, x)].nrInvalidLps > 0
    && forall y :: y in s.chips[c].used && y < s.g.blocks ==>
         s.blks[BlkId(c, y)].nrInvalidLps <= s.blks[BlkId(c, x)].nrInvalidLps
  }

  /** The chip needs no victim, or there is one. */
  ghost predicate Findable(s: State, c: ChipId)
    requires Shape(s) && ValidChip(s.g, c)
  {
    || (s.chips[c].gc.Some? && s.chips[c].act.Some?) || s.chips[c].dirt != []
    || exists x :: x in s.chips[c].used && x < s.g.blocks && s.blks[BlkId(c, x)].nrInvalidLps > 0
  }

  /**
   * A chip with both a GC and an active block, or with a dirt block, ends without victim; any other with a used
   * block with the most invalid slots, the cursor on its first page that is not dead.
   */
  ghost predicate Assigned(s: State, c: ChipId, ch: Chip)
    requires Shape(s) && ValidChip(s.g, c)
  {
    if (s.chips[c].gc.Some? && s.chips[c].act.Some?) || s.chips[c].dirt != [] then ch == s.chips[c].(vic := None)
    else
      && ch == s.chips[c].(vic := ch.vic, firstPg := ch.firstPg) && ch.vic.Some? && MostDead(s, c, ch.vic.value)
      && ch.firstPg < s.g.pages
      && var b := s.blks[BlkId(c, ch.vic.value)];
         && b.pages[ch.firstPg].nrInvalidLps < s.g.slots
         && forall p :: 0 <= p < ch.firstPg ==> b.pages[p].nrInvalidLps >= s.g.slots
  }

  /** A used block holds something live. */
  lemma UsedLives(s: State, c: ChipId, x: nat)
    requires Inv(s) && Shape(s) && ValidChip(s.g, c) && x in s.chips[c].used
    ensures x < s.g.blocks && s.blks[BlkId(c, x)].nrValidLps > 0 && s.blks[BlkId(c, x)].nrFreePgs == 0
    ensures exists p :: 0 <= p < s.g.pages && s.blks[BlkId(c, x)].pages[p].nrInvalidLps < s.g.slots
  {
    hide Biject, Partition;
    OneChip(s, c);
    assert Listed(s.g, s.chips[c]);
    var b := s.blks[BlkId(c, x)];
    assert BlockAt(s.g, b, 0);
    hide BlksOk, ChipsOk, Listed, Roles;
    if b.nrValidLps == 0 { NoValidAllDead(s.g, b); }
    if forall p :: 0 <= p < s.g.pages ==> b.pages[p].nrInvalidLps >= s.g.slots { DeadEverywhere(s.g, b); }
  }

  lemma DeadEverywhere(g: Geo, b: Block)
    requires Sane(g) && BlockAt(g, b, 0) && forall p :: 0 <= p < g.pages ==> b.pages[p].nrInvalidLps >= g.slots
    ensures b.nrInvalidPgs == g.pages
  {
    forall p: nat | p < g.pages ensures p in DeadPages(b, g.slots) {
      assert PageAt(b.pages[p], g.slots, Programmed(g.slots, g.pages - b.nrFreePgs, 0, p));
      DeadPage(b.pages[p], g.slots);
    }
    assert DeadPages(b, g.slots) == Below(g.pages);
    BelowCard(g.pages);
  }

  lemma DirtIsDead(s: State, c: ChipId)
    requires Inv(s) && Shape(s) && ValidChip(s.g, c) && s.chips[c].dirt != []
    ensures s.chips[c].dirt[0] < s.g.blocks && s.blks[BlkId(c, s.chips[c].dirt[0])].nrValidLps <= 0
  {
    hide BlksOk, Biject, Partition;
    OneChip(s, c);
    assert s.chips[c].dirt[0] in s.chips[c].dirt;
  }

  lemma ScanMostDead(s: State, c: ChipId)
    requires Shape(s) && ValidChip(s.g, c) && s.chips[c].dirt == []
    ensures Greedy(s, c).Some? ==> MostDead(s, c, Greedy(s, c).value)
    ensures Greedy(s, c).None? ==>
              forall x :: x in s.chips[c].used && x < s.g.blocks ==> s.blks[BlkId(c, x)].nrInvalidLps <= 0
  {
    hide DiskShape, L2pShape;
    assert Listed(s.g, s.chips[c]);
    var u := s.chips[c].used;
    assert forall j :: 0 <= j < |u| ==> u[j] in u;
    assert forall j :: 0 <= j < |u| ==> NrInvalid(s, c, u[j]) == s.blks[BlkId(c, u[j])].nrInvalidLps;
  }

  lemma MostDeadIsUsed(s: State, c: ChipId, x: nat)
    requires Shape(s) && ValidChip(s.g, c) && MostDead(s, c, x)
    ensures x in s.chips[c].used && x < s.g.blocks && s.blks[BlkId(c, x)].nrInvalidLps > 0
  {
  }

  lemma ChoiceExact(s: State, c: ChipId)
    requires Inv(s) && Shape(s) && ValidChip(s.g, c)
    ensures ChooseVictim(s, c).Some? <==> Findable(s, c)
    ensures ChooseVictim(s, c).Some? ==>
              c in ChooseVictim(s, c).value.chips && Assigned(s, c, ChooseVictim(s, c).value.chips[c])
  {
    hide InvAt, DiskShape, L2pShape, MostInvalid, MostDead;
    if s.chips[c].dirt != [] {
      DirtIsDead(s, c);
    } else {
      ScanMostDead(s, c);
      if Greedy(s, c).Some? {
        MostDeadIsUsed(s, c, Greedy(s, c).value);
        UsedLives(s, c, Greedy(s, c).value);
      }
    }
  }

  /** What a pass from (bus, chip) on does. */
  ghost predicate AssignedFrom(s: State, r: (State, bool), bus: nat, chip: nat)
    requires Shape(s) && Shape(r.0) && r.0.g == s.g
  {
    && (r.1 <==> forall c :: ValidChip(s.g, c) && !Before(c, bus, chip) ==> Findable(s, c))
    && (r.1 ==> forall c :: ValidChip(s.g, c) && !Before(c, bus, chip) ==> Assigned(s, c, r.0.chips[c]))
  }

  lemma AssignedOn(s: State, s1: State, r: (State, bool), d: ChipId)
    requires Shape(s) && Shape(s1) && Shape(r.0) && ValidChip(s.g, d) && r.0.g == s.g && s1.g == s.g
    requires s1 == s.(chips := s.chips[d := s1.chips[d]], nrCopy := s1.nrCopy) && Findable(s, d)
    requires Assigned(s, d, s1.chips[d]) && AssignedFrom(s1, r, d.bus, d.chip + 1) && r.0.chips[d] == s1.chips[d]
    ensures AssignedFrom(s, r, d.bus, d.chip)
  {
    hide BlksShape, DiskShape, L2pShape, Listed, MostDead;
    forall c | ValidChip(s.g, c) && c != d
      ensures Before(c, d.bus, d.chip + 1) <==> Before(c, d.bus, d.chip)
      ensures (Findable(s1, c) <==> Findable(s, c)) && (Assigned(s1, c, r.0.chips[c]) ==> Assigned(s, c, r.0.chips[c]))
    {
      OtherChip(s, s1, d, c, r.0.chips[c]);
    }
  }

  lemma OtherChip(s: State, s1: State, d: ChipId, c: ChipId, ch: Chip)
    requires Shape(s) && Shape(s1) && s1.g == s.g && ValidChip(s.g, d) && ValidChip(s.g, c) && c != d
    requires s1 == s.(chips := s.chips[d := s1.chips[d]], nrCopy := s1.nrCopy)
    ensures (Findable(s1, c) <==> Findable(s, c)) && (Assigned(s1, c, ch) ==> Assigned(s, c, ch))
  {
    hide DiskShape, L2pShape, Listed;
    assert s1.chips[c] == s.chips[c];
  }

  lemma {:induction false} SetVictimsFrom(s: State, bus: nat, chip: nat)
    requires Inv(s) && Shape(s) && bus <= s.g.buses && chip <= s.g.chips
    ensures Shape(SetVictims(s, bus, chip).0) && AssignedFrom(s, SetVictims(s, bus, chip), bus, chip)
    decreases s.g.buses - bus, s.g.chips - chip
  {
    hide InvAt, View, BlksShape, DiskShape, L2pShape, Listed, ChooseVictim, VictimOk, Findable, Assigned;
    InvShape(SetVictims(s, bus, chip).0);
    var c := ChipId(bus, chip);
    if bus == s.g.buses {
    } else if chip == s.g.chips {
      SetVictimsFrom(s, bus + 1, 0);
    } else {
      ChoiceExact(s, c);
      if ChooseVictim(s, c).Some? {
        var s1 := ChooseVictim(s, c).value;
        ChooseVictimOk(s, c);
        InvShape(s1);
        SetVictimsFrom(s1, bus, chip + 1);
        SetVictimsOk(s1, bus, chip + 1);
        assert Before(c, bus, chip + 1);
        AssignedOn(s, s1, SetVictims(s, bus, chip), c);
      } else {
        assert !Before(c, bus, chip);
      }
    }
  }

  /**
   * set_vic_blks returns 0 if and only if every chip has both a GC and an active block, or a dirt block, or a used
   * block with an invalid slot; then every chip has the victim it should have, and nothing else has changed.
   */
  lemma SetVictimsExact(s: State)
    requires Inv(s)
    ensures Shape(s)
    ensures var r := SetVictims(s, 0, 0);
            && Shape(r.0) && r.0 == s.(chips := r.0.chips, nrCopy := r.0.nrCopy)
            && (r.1 <==> forall c :: ValidChip(s.g, c) ==> Findable(s, c))
            && (r.1 ==> forall c :: ValidChip(s.g, c) ==> Assigned(s, c, r.0.chips[c]))
  {
    InvShape(s);
    hide InvAt, BlksShape, DiskShape, L2pShape, Listed, Findable, Assigned, SetVictims, VictimOk;
    SetVictimsFrom(s, 0, 0);
    SetVictimsOk(s, 0, 0);
    assert forall c: ChipId :: !Before(c, 0, 0);
  }

  // ---- the live slots of the victims ---------------------------------------------------------------------------

  /** A VALID slot of the victim of its chip. */
  ghost predicate LiveVictim(s: State, a: Addr)
    requires Shape(s)
  {
    ValidAddr(s.g, a) && s.chips[a.b.c].vic == Some(a.b.no) && StatusAt(s.g, s.blks, a) == Valid
  }

  ghost function AddrsOf(b: BlkId, s: set<(nat, nat)>): set<Addr> {
    set q | q in s :: Addr(b, q.0, q.1)
  }

  lemma {:induction false} AddrsCard(b: BlkId, s: set<(nat, nat)>)
    ensures |AddrsOf(b, s)| == |s|
    decreases s
  {
    if s != {} {
      var q :| q in s;
      AddrsCard(b, s - {q});
      assert AddrsOf(b, s) == AddrsOf(b, s - {q}) + {Addr(b, q.0, q.1)};
    }
  }

  lemma AddrsMember(b: BlkId, s: set<(nat, nat)>, a: Addr)
    ensures a in AddrsOf(b, s) <==> a.b == b && (a.pg, a.lp) in s
  {
    if a.b == b && (a.pg, a.lp) in s {
      var q := (a.pg, a.lp);
      assert a == Addr(b, q.0, q.1);
    }
  }

  /** The live slots of one chip's victim. */
  ghost function LiveOn(s: State, c: ChipId): set<Addr>
    requires Shape(s) && ValidChip(s.g, c)
  {
    if s.chips[c].vic.None? then {}
    else
      assert Listed(s.g, s.chips[c]);
      var b := BlkId(c, s.chips[c].vic.value);
      AddrsOf(b, BlockSlots(s.g, s.blks[b], Valid))
  }

  lemma LiveOnMember(s: State, c: ChipId, a: Addr)
    requires Shape(s) && ValidChip(s.g, c)
    ensures a in LiveOn(s, c) <==> LiveVictim(s, a) && a.b.c == c
  {
    if s.chips[c].vic.Some? {
      assert Listed(s.g, s.chips[c]);
      var b := BlkId(c, s.chips[c].vic.value);
      AddrsMember(b, BlockSlots(s.g, s.blks[b], Valid), a);
    }
  }

  /** The live slots of the victims of the chips from (bus, chip) on. */
  ghost function LiveFrom(s: State, bus: nat, chip: nat): set<Addr>
    requires Shape(s) && bus <= s.g.buses && chip <= s.g.chips
    decreases s.g.buses - bus, s.g.chips - chip
  {
    if bus == s.g.buses then {}
    else if chip == s.g.chips then LiveFrom(s, bus + 1, 0)
    else LiveOn(s, ChipId(bus, chip)) + LiveFrom(s, bus, chip + 1)
  }

  lemma {:induction false} LiveFromMember(s: State, bus: nat, chip: nat, a: Addr)
    requires Shape(s) && bus <= s.g.buses && chip <= s.g.chips
    ensures a in LiveFrom(s, bus, chip) <==> LiveVictim(s, a) && !Before(a.b.c, bus, chip)
    decreases s.g.buses - bus, s.g.chips - chip
  {
    hide Shape;
    if bus < s.g.buses {
      if chip == s.g.chips {
        LiveFromMember(s, bus + 1, 0, a);
      } else {
        LiveOnMember(s, ChipId(bus, chip), a);
        LiveFromMember(s, bus, chip + 1, a);
        assert a.b.c == ChipId(bus, chip) <==> a.b.c.bus == bus && a.b.c.chip == chip;
      }
    }
  }

  lemma LiveFromSplit(s: State, bus: nat, chip: nat)
    requires Shape(s) && bus < s.g.buses && chip < s.g.chips
    ensures |LiveFrom(s, bus, chip)| == |LiveOn(s, ChipId(bus, chip))| + |LiveFrom(s, bus, chip + 1)|
  {
    hide BlksShape, DiskShape, ChipsShape, L2pShape;
    var c := ChipId(bus, chip);
    forall a ensures !(a in LiveOn(s, c) && a in LiveFrom(s, bus, chip + 1)) {
      LiveOnMember(s, c, a);
      LiveFromMember(s, bus, chip + 1, a);
    }
    assert LiveOn(s, c) !! LiveFrom(s, bus, chip + 1);
  }

  lemma LiveOnCard(s: State, c: ChipId)
    requires Inv(s) && ValidChip(s.g, c)
    ensures |LiveOn(s, c)| == NrLive(s, c)
  {
    assert Listed(s.g, s.chips[c]);
    if s.chips[c].vic.Some? {
      var b := BlkId(c, s.chips[c].vic.value);
      assert BlockAt(s.g, s.blks[b], 0);
      AddrsCard(b, BlockSlots(s.g, s.blks[b], Valid));
    }
  }

  lemma CountStep(s: State, s1: State, r: State, bus: nat, chip: nat)
    requires Inv(r) && Shape(s1) && s1.g == r.g && bus < r.g.buses && chip < r.g.chips && r.blks == s1.blks
    requires var c := ChipId(bus, chip);
             && r.chips[c] == s1.chips[c]
             && s1.nrCopy == s.nrCopy + NrLive(s1, c) && r.nrCopy == s1.nrCopy + |LiveFrom(r, bus, chip + 1)|
    ensures r.nrCopy == s.nrCopy + |LiveFrom(r, bus, chip)|
  {
    hide BlksOk, Biject, ChipsOk;
    LiveFromSplit(r, bus, chip);
    LiveOnCard(r, ChipId(bus, chip));
  }

  /** nr_pgs_to_copy grows by exactly the number of live victim slots. */
  lemma {:induction false} SetVictimsCount(s: State, bus: nat, chip: nat)
    requires Inv(s) && bus <= s.g.buses && chip <= s.g.chips
    ensures var r := SetVictims(s, bus, chip);
            r.1 ==> r.0.nrCopy == s.nrCopy + |LiveFrom(r.0, bus, chip)|
    decreases s.g.buses - bus, s.g.chips - chip
  {
    hide BlksOk, Biject, ChipsOk, View, Shape, ChooseVictim, VictimOk, NrLive, LiveOn;
    if bus < s.g.buses {
      if chip == s.g.chips {
        SetVictimsCount(s, bus + 1, 0);
      } else if ChooseVictim(s, ChipId(bus, chip)).Some? {
        var s1 := ChooseVictim(s, ChipId(bus, chip)).value;
        ChooseVictimOk(s, ChipId(bus, chip));
        SetVictimsCount(s1, bus, chip + 1);
        SetVictimsOk(s1, bus, chip + 1);
        if SetVictims(s, bus, chip).1 { CountStep(s, s1, SetVictims(s, bus, chip).0, bus, chip); }
      }
    }
  }

}
