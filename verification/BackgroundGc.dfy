/**
 * Background garbage collection (trigger_bg_gc and the fb_bgc_* steps).
 */
module BackgroundGc {
  import opened Common
  import opened Geometry
  import opened Blocks
  import opened FtlState
  import opened Filling
  import opened Program
  import opened Erase
  import opened Victims
  import opened Copying
  import opened Gc
  import opened RoundRobin

  /** BGC_TH_NR_BLKS */
  const BGC_TH_NR_BLKS: int := 14

  // ---- fb_bgc_prepare_act_blks ---------------------------------------------------------------------------------

  /** The erased GC block becomes the active block or a free one; the first dirt block takes its place. */
  function Recycle(ch: Chip): Chip
    requires ch.gc.Some?
  {
    var ch1 := if ch.act.None? then Promote(ch)
               else ch.(free := ch.free + [ch.gc.value], nrFree := ch.nrFree + 1, gc := None);
    if ch1.dirt == [] then ch1 else TakeDirt(ch1)
  }

  lemma FreedOk(g: Geo, c: ChipId, ch: Chip, blks: map<BlkId, Block>)
    requires ValidChip(g, c) && Listed(g, ch) && BlksShape(g, blks) && ch.gc.Some?
    requires Partition(g, ch) && Roles(g, c, ch, blks, None) && Fresh(g, blks[BlkId(c, ch.gc.value)])
    ensures var ch1 := ch.(free := ch.free + [ch.gc.value], nrFree := ch.nrFree + 1, gc := None);
            Listed(g, ch1) && Partition(g, ch1) && Roles(g, c, ch1, blks, None)
  {
    var ch1 := ch.(free := ch.free + [ch.gc.value], nrFree := ch.nrFree + 1, gc := None);
    assert multiset(ch1.free) == multiset(ch.free) + multiset{ch.gc.value};
    assert Owners(ch1) == Owners(ch);
  }

  lemma RecycleOk(g: Geo, c: ChipId, ch: Chip, blks: map<BlkId, Block>)
    requires Sane(g) && ValidChip(g, c) && Listed(g, ch) && BlksShape(g, blks) && ch.gc.Some?
    requires Partition(g, ch) && Roles(g, c, ch, blks, None) && Fresh(g, blks[BlkId(c, ch.gc.value)])
    ensures Listed(g, Recycle(ch)) && Partition(g, Recycle(ch)) && Roles(g, c, Recycle(ch), blks, None)
  {
    hide Listed, Partition, Roles;
    var ch1 := if ch.act.None? then Promote(ch)
               else ch.(free := ch.free + [ch.gc.value], nrFree := ch.nrFree + 1, gc := None);
    assert Listed(g, ch1) && Partition(g, ch1) && Roles(g, c, ch1, blks, None) by {
      if ch.act.None? { PromoteOk(g, c, ch, blks); } else { FreedOk(g, c, ch, blks); }
    }
    if ch1.dirt != [] { TakeDirtOk(g, c, ch1, blks); }
  }

  /** One turn of fb_bgc_prepare_act_blks on a chip with a GC block. */
  function EraseAndRecycle(s: State, c: ChipId): State
    requires Shape(s) && ValidChip(s.g, c) && s.chips[c].gc.Some?
  {
    EraseBlk(s, BlkId(c, s.chips[c].gc.value)).(chips := s.chips[c := Recycle(s.chips[c])], mru := c)
  }

  lemma RecycleInv(s: State, c: ChipId)
    requires Inv(s) && ValidChip(s.g, c) && s.chips[c].gc.Some?
    requires s.chips[c].gc.value < s.g.blocks && Fresh(s.g, s.blks[BlkId(c, s.chips[c].gc.value)])
    ensures Inv(s.(chips := s.chips[c := Recycle(s.chips[c])], mru := c))
  {
    hide BlksOk, Biject, ChipsOk, Partition, Listed, Roles;
    OneChip(s, c);
    RecycleOk(s.g, c, s.chips[c], s.blks);
    SetChip(s.g, s.chips, s.blks, None, c, Recycle(s.chips[c]));
  }

  lemma EraseAndRecycleOk(s: State, c: ChipId)
    requires Inv(s) && ValidChip(s.g, c) && s.chips[c].gc.Some?
    ensures StillShows(s, EraseAndRecycle(s, c))
  {
    hide BlksOk, Biject, ChipsOk, ViewOf;
    EraseOk(s, c);
    RecycleInv(EraseBlk(s, BlkId(c, s.chips[c].gc.value)), c);
  }

  /** fb_bgc_prepare_act_blks with `left` turns to go. */
  ghost function BgcPrepare(s: State, left: nat): (r: (State, bool))
    requires Inv(s)
    ensures StillShows(s, r.0)
    decreases left
  {
    hide BlksOk, Biject, ChipsOk, View;
    NextIsValid(s);
    var c := NextChip(s.g, s.mru);
    if left == 0 then (s, true)
    else if s.chips[c].gc.None? then (s, false)
    else EraseAndRecycleOk(s, c); BgcPrepare(EraseAndRecycle(s, c), left - 1)
  }

  // ---- fb_bgc_set_vic_blks -------------------------------------------------------------------------------------

  function WithVictim(s: State, c: ChipId, v: Option<nat>, pg: nat): State
    requires c in s.chips
  {
    s.(chips := s.chips[c := s.chips[c].(vic := v, firstPg := pg)])
  }

  /** A victim, its first page to read, and whether one was found where one was needed. */
  datatype Pick = Pick(vic: Option<nat>, pg: nat, ok: bool)

  /** A victim chosen afresh from the used list; the error return leaves none. */
  function FreshPick(s: State, c: ChipId, pg: nat): (r: Pick)
    requires Shape(s) && ValidChip(s.g, c) && pg <= s.g.pages
    ensures r.pg <= s.g.pages && (r.vic.Some? ==> r.vic.value < s.g.blocks && r.vic.value in s.chips[c].used)
    ensures r.vic.Some? ==> r.pg == FirstValidPg(s.g, s.blks[BlkId(c, r.vic.value)], 0)
  {
    assert Listed(s.g, s.chips[c]) && forall j :: 0 <= j < |s.chips[c].used| ==> s.chips[c].used[j] in s.chips[c].used;
    match MostInvalid(s, c, s.chips[c].used, 0, None, 0)
    case None => Pick(None, pg, false)
    case Some(x) => Pick(Some(x), FirstValidPg(s.g, s.blks[BlkId(c, x)], 0), true)
  }

  /** What fb_bgc_set_vic_blks decides for one chip. */
  function BgcPick(s: State, c: ChipId): (r: Pick)
    requires Shape(s) && ValidChip(s.g, c)
    ensures r.pg <= s.g.pages && (r.vic.Some? ==> r.vic.value < s.g.blocks)
  {
    assert Listed(s.g, s.chips[c]);
    var ch := s.chips[c];
    if ch.nrDirt + ch.nrFree >= BGC_TH_NR_BLKS then Pick(None, 0, true)
    else if ch.vic.None? then FreshPick(s, c, ch.firstPg)
    else
      var pg := FirstValidPg(s.g, s.blks[BlkId(c, ch.vic.value)], ch.firstPg);
      if pg == s.g.pages then FreshPick(s, c, pg) else Pick(ch.vic, pg, true)
  }

  /** The body of fb_bgc_set_vic_blks for one chip. */
  function BgcChoose(s: State, c: ChipId): (State, bool)
    requires Shape(s) && ValidChip(s.g, c)
  {
    (WithVictim(s, c, BgcPick(s, c).vic, BgcPick(s, c).pg), BgcPick(s, c).ok)
  }

  /** A used block has a page that is not dead, so a victim chosen from the used list can be read. */
  lemma UsedHasPage(s: State, c: ChipId, x: nat)
    requires Inv(s) && ValidChip(s.g, c) && x in s.chips[c].used
    ensures x < s.g.blocks && s.blks[BlkId(c, x)].nrFreePgs == 0
    ensures FirstValidPg(s.g, s.blks[BlkId(c, x)], 0) < s.g.pages
  {
    hide Biject, Partition, PagesAt;
    OneChip(s, c);
    assert Listed(s.g, s.chips[c]);
    var b := s.blks[BlkId(c, x)];
    assert BlockAt(s.g, b, 0);
    if FirstValidPg(s.g, b, 0) == s.g.pages { DeadEverywhere(s.g, b); }
  }

  lemma BgcChooseInv(s: State, c: ChipId)
    requires Inv(s) && ValidChip(s.g, c)
    ensures var s' := BgcChoose(s, c).0;
            StillShows(s, s') && s' == s.(chips := s.chips[c := s'.chips[c]]) && s'.nrCopy == s.nrCopy
  {
    hide BlksOk, Biject, ChipsOk, View, BgcPick;
    VictimIrrelevant(s, c, BgcPick(s, c).vic, BgcPick(s, c).pg, s.nrCopy);
  }

  /** Page pg of block v of the chip can be read: it is not dead. */
  ghost predicate GoodPick(s: State, c: ChipId, v: Option<nat>, pg: nat)
    requires Shape(s) && ValidChip(s.g, c)
  {
    v.Some? ==> v.value < s.g.blocks && pg < s.g.pages && s.blks[BlkId(c, v.value)].pages[pg].nrInvalidLps < s.g.slots
  }

  /** A victim kept or chosen has a page to read. */
  lemma BgcPickGood(s: State, c: ChipId)
    requires Inv(s) && ValidChip(s.g, c) && BgcPick(s, c).ok
    ensures GoodPick(s, c, BgcPick(s, c).vic, BgcPick(s, c).pg)
  {
    hide BlksOk, Biject, ChipsOk, DiskShape, L2pShape;
    assert Listed(s.g, s.chips[c]);
    var r := BgcPick(s, c);
    if r.vic.Some? && r.vic.value in s.chips[c].used { UsedHasPage(s, c, r.vic.value); }
  }

  /** fb_bgc_set_vic_blks from (bus, chip) on, bus by bus. */
  ghost function BgcSetVictims(s: State, bus: nat, chip: nat): (r: (State, bool))
    requires Inv(s) && bus <= s.g.buses && chip <= s.g.chips
    ensures StillShows(s, r.0)
    decreases s.g.buses - bus, s.g.chips - chip
  {
    hide BlksOk, Biject, ChipsOk, View, DiskShape;
    if bus == s.g.buses then (s, true)
    else if chip == s.g.chips then BgcSetVictims(s, bus + 1, 0)
    else
      var s1 := BgcChoose(s, ChipId(bus, chip));
      BgcChooseInv(s, ChipId(bus, chip));
      if !s1.1 then s1 else BgcSetVictims(s1.0, bus, chip + 1)
  }

  /** The victim of the chip, if any, can be read at its cursor. */
  ghost predicate GoodVictim(s: State, c: ChipId)
    requires Shape(s) && ValidChip(s.g, c)
  {
    GoodPick(s, c, s.chips[c].vic, s.chips[c].firstPg)
  }

  /** Only the chips still to come are touched; on success each of them has a readable victim or none. */
  ghost predicate VictimsGood(s: State, r: (State, bool), bus: nat, chip: nat)
    requires Shape(s) && Shape(r.0)
  {
    && r.0 == s.(chips := r.0.chips)
    && (forall c :: ValidChip(s.g, c) && Before(c, bus, chip) ==> r.0.chips[c] == s.chips[c])
    && (r.1 ==> forall c :: ValidChip(s.g, c) && !Before(c, bus, chip) ==> GoodVictim(r.0, c))
  }

  lemma VictimsGoodStep(s: State, s1: State, r: (State, bool), bus: nat, chip: nat)
    requires Shape(s) && Shape(s1) && Shape(r.0) && ValidChip(s.g, ChipId(bus, chip))
    requires VictimsGood(s1, r, bus, chip + 1)
    requires s1 == s.(chips := s1.chips) && GoodVictim(s1, ChipId(bus, chip))
    requires forall c :: ValidChip(s.g, c) && c != ChipId(bus, chip) ==> s1.chips[c] == s.chips[c]
    ensures VictimsGood(s, r, bus, chip)
  {
    hide DiskShape, L2pShape, Listed;
    forall c | ValidChip(s.g, c) && Before(c, bus, chip) ensures r.0.chips[c] == s.chips[c] {
      assert s1.chips[c] == s.chips[c];
    }
    assert Before(ChipId(bus, chip), bus, chip + 1);
    assert GoodVictim(r.0, ChipId(bus, chip));
  }

  lemma BgcChooseGood(s: State, c: ChipId)
    requires Inv(s) && ValidChip(s.g, c) && BgcChoose(s, c).1
    ensures Shape(BgcChoose(s, c).0) && BgcChoose(s, c).0.g == s.g && GoodVictim(BgcChoose(s, c).0, c)
  {
    hide BlksOk, Biject, ChipsOk, BgcPick, View;
    BgcChooseInv(s, c);
    BgcPickGood(s, c);
  }

  lemma {:induction false} BgcSetVictimsOk(s: State, bus: nat, chip: nat)
    requires Inv(s) && bus <= s.g.buses && chip <= s.g.chips
    ensures VictimsGood(s, BgcSetVictims(s, bus, chip), bus, chip)
    decreases s.g.buses - bus, s.g.chips - chip
  {
    hide BlksOk, Biject, ChipsOk, View, BlksShape, DiskShape, Listed, L2pShape, BgcChoose, GoodVictim;
    var c := ChipId(bus, chip);
    if bus == s.g.buses {
    } else if chip == s.g.chips {
      BgcSetVictimsOk(s, bus + 1, 0);
    } else {
      BgcChooseInv(s, c);
      if BgcChoose(s, c).1 {
        var s1 := BgcChoose(s, c).0;
        BgcChooseGood(s, c);
        BgcSetVictimsOk(s1, bus, chip + 1);
        VictimsGoodStep(s, s1, BgcSetVictims(s, bus, chip), bus, chip);
      }
    }
  }

  // ---- fb_bgc_read_valid_pgs -----------------------------------------------------------------------------------

  function Over<T>(buf: seq<T>, pos: nat, vals: seq<T>): (r: seq<T>)
    requires pos + |vals| <= |buf|
    ensures |r| == |buf|
  {
    buf[..pos] + vals + buf[pos + |vals|..]
  }

  /** From cur on there is room for `left` more pages. */
  predicate RoomFor(left: nat, cur: nat, slots: nat, len: nat) {
    if left == 0 then cur <= len else RoomFor(left - 1, cur + slots, slots, len)
  }

  lemma {:induction false} RoomMonotone(left: nat, cur: nat, cur': nat, slots: nat, len: nat)
    requires RoomFor(left, cur, slots, len) && cur' <= cur
    ensures RoomFor(left, cur', slots, len)
    ensures left > 0 ==> cur' + slots <= len
  {
    if left > 0 { RoomMonotone(left - 1, cur + slots, cur' + slots, slots, len); }
    if left > 1 { RoomMonotone(left - 1, cur + slots, cur + slots, slots, len); }
  }

  lemma {:induction false} RoomProduct(left: nat, cur: nat, slots: nat, len: nat)
    requires cur + left * slots <= len
    ensures RoomFor(left, cur, slots, len)
  {
    if left > 0 {
      Distribute(left - 1, slots);
      RoomProduct(left - 1, cur + slots, slots, len);
    }
  }

  /** The cursor of every victim is on a page. */
  ghost predicate CursorsOk(s: State)
    requires Shape(s)
  {
    forall c :: ValidChip(s.g, c) && s.chips[c].vic.Some? ==>
      s.chips[c].vic.value < s.g.blocks && s.chips[c].firstPg < s.g.pages
  }

  /** nr_pgs_to_read: the slots of the page at the cursor that are not INVALID. */
  function NrToRead(s: State, c: ChipId): int
    requires Shape(s) && ValidChip(s.g, c) && s.chips[c].vic.Some? && s.chips[c].vic.value < s.g.blocks
    requires s.chips[c].firstPg < s.g.pages
  {
    s.g.slots - s.blks[BlkId(c, s.chips[c].vic.value)].pages[s.chips[c].firstPg].nrInvalidLps
  }

  /** The slots of that page that are VALID, the ones whose LPA and data are really copied. */
  function CursorLive(s: State, c: ChipId): seq<Addr>
    requires Shape(s) && ValidChip(s.g, c) && s.chips[c].vic.Some? && s.chips[c].vic.value < s.g.blocks
    requires s.chips[c].firstPg < s.g.pages
  {
    PageLive(s.g, s.blks, BlkId(c, s.chips[c].vic.value), s.chips[c].firstPg, 0)
  }

  // ---- what is counted and what is copied ----------------------------------------------------------------------

  lemma {:induction false} PageLiveCard(g: Geo, blks: map<BlkId, Block>, b: BlkId, pg: nat, lp: nat, rest: set<nat>)
    requires BlksShape(g, blks) && ValidBlk(g, b) && pg < g.pages && lp <= g.slots
    requires forall i :: i in rest <==> lp <= i < g.slots && StatusAt(g, blks, Addr(b, pg, i)) == Valid
    ensures |PageLive(g, blks, b, pg, lp)| == |rest|
    decreases g.slots - lp
  {
    if lp == g.slots {
      assert rest == {};
    } else {
      PageLiveCard(g, blks, b, pg, lp + 1, rest - {lp});
    }
  }

  /** A page's VALID and INVALID slots together are its programmed slots. */
  lemma ValidPlusInvalid(p: Page, slots: nat, n: nat)
    requires PageAt(p, slots, n) && n <= slots
    ensures |SlotsIn(p, Valid)| + p.nrInvalidLps == n
  {
    var v, x := SlotsIn(p, Valid), SlotsIn(p, Invalid);
    forall i: nat ensures i in Below(n) <==> i in v || i in x {
      if i < n { assert p.status[i] != Free; }
    }
    DisjointUnion(v, x, Below(n));
    BelowCard(n);
  }

  lemma LiveOfPage(s: State, c: ChipId)
    requires Inv(s) && CursorsOk(s) && ValidChip(s.g, c) && s.chips[c].vic.Some?
    ensures var p := s.blks[BlkId(c, s.chips[c].vic.value)].pages[s.chips[c].firstPg];
            |CursorLive(s, c)| == |SlotsIn(p, Valid)|
  {
    hide BlksOk, Biject, ChipsOk;
    var b, pg := BlkId(c, s.chips[c].vic.value), s.chips[c].firstPg;
    var p := s.blks[b].pages[pg];
    assert forall i: nat :: i < s.g.slots ==> p.status[i] == StatusAt(s.g, s.blks, Addr(b, pg, i));
    PageLiveCard(s.g, s.blks, b, pg, 0, SlotsIn(p, Valid));
  }

  /**
   * The count and the copy agree exactly when the page at the cursor has no FREE slot. A victim that
   * was erased after it was chosen has FREE slots; then more pages are counted than LPAs recorded.
   */
  lemma CountMatchesCopy(s: State, c: ChipId)
    requires Inv(s) && CursorsOk(s) && ValidChip(s.g, c) && s.chips[c].vic.Some?
    ensures |CursorLive(s, c)| <= NrToRead(s, c) <= s.g.slots
    ensures NrToRead(s, c) == |CursorLive(s, c)| <==>
              s.chips[c].firstPg < s.g.pages - s.blks[BlkId(c, s.chips[c].vic.value)].nrFreePgs
  {
    hide Biject, ChipsOk;
    var b, pg := BlkId(c, s.chips[c].vic.value), s.chips[c].firstPg;
    assert BlockAt(s.g, s.blks[b], 0);
    LiveOfPage(s, c);
    var w := s.g.pages - s.blks[b].nrFreePgs;
    var n := Programmed(s.g.slots, w, 0, pg);
    assert PageAt(s.blks[b].pages[pg], s.g.slots, n);
    hide BlksOk, PagesAt, CountsExact, PageAt;
    ValidPlusInvalid(s.blks[b].pages[pg], s.g.slots, n);
    DeadPage(s.blks[b].pages[pg], s.g.slots);
  }

  // ---- the read pass -------------------------------------------------------------------------------------------

  /** The buffers can take whole pages at both cursors for `left` more turns. */
  ghost predicate ReadRoom(s: State, left: nat, lcur: nat, dcur: nat)
    requires Shape(s)
  {
    RoomFor(left, lcur, s.g.slots, |s.lpaBuf|) && RoomFor(left, dcur, s.g.slots, |s.dataBuf|)
  }

  /** One page copied: LPAs at lcur, data at dcur, and the count raised by what should have been there. */
  ghost function ReadOne(s: State, c: ChipId, lcur: nat, dcur: nat): (r: State)
    requires Inv(s) && CursorsOk(s) && ValidChip(s.g, c) && s.chips[c].vic.Some?
    requires lcur + s.g.slots <= |s.lpaBuf| && dcur + s.g.slots <= |s.dataBuf|
    ensures StillShows(s, r) && r.chips == s.chips && r.blks == s.blks
  {
    hide BlksOk, Biject, ChipsOk, View;
    CountMatchesCopy(s, c);
    CursorLiveOk(s, c);
    var l := CursorLive(s, c);
    var lpaBuf, dataBuf := Over(s.lpaBuf, lcur, LpasOf(s.g, s.blks, l)), Over(s.dataBuf, dcur, DataOf(s.g, s.disk, l));
    BufIrrelevant(s, lpaBuf, dataBuf, s.nrCopy + NrToRead(s, c));
    MruIrrelevant(s.(lpaBuf := lpaBuf, dataBuf := dataBuf, nrCopy := s.nrCopy + NrToRead(s, c)), None, c);
    s.(lpaBuf := lpaBuf, dataBuf := dataBuf, nrCopy := s.nrCopy + NrToRead(s, c), mru := c)
  }

  lemma CursorLiveOk(s: State, c: ChipId)
    requires Shape(s) && CursorsOk(s) && ValidChip(s.g, c) && s.chips[c].vic.Some?
    ensures NoDup(CursorLive(s, c))
    ensures forall i :: 0 <= i < |CursorLive(s, c)| ==>
              var a := CursorLive(s, c)[i]; ValidAddr(s.g, a) && a.b.c == c && StatusAt(s.g, s.blks, a) == Valid
  {
    var l := CursorLive(s, c);
    PageLiveOk(s.g, s.blks, BlkId(c, s.chips[c].vic.value), s.chips[c].firstPg, 0);
    assert forall i :: 0 <= i < |l| ==> l[i] in l;
  }

  /** The victim of every chip, if any, can be read. */
  ghost predicate AllGood(s: State)
    requires Shape(s)
  {
    forall c :: ValidChip(s.g, c) ==> GoodVictim(s, c)
  }

  lemma GoodCursors(s: State)
    requires Shape(s) && AllGood(s)
    ensures CursorsOk(s)
  {
    hide BlksShape, DiskShape, L2pShape, Listed;
    forall x | ValidChip(s.g, x) && s.chips[x].vic.Some?
      ensures s.chips[x].vic.value < s.g.blocks && s.chips[x].firstPg < s.g.pages
    {
      assert GoodVictim(s, x);
    }
  }

  /** The pass can start: the error return and the buffers stay within bounds whatever the victims are. */
  ghost predicate CanRead(s: State, left: nat, lcur: nat, dcur: nat) {
    Inv(s) && CursorsOk(s) && ReadRoom(s, left, lcur, dcur)
  }

  lemma CanReadNext(s: State, left: nat, lcur: nat, dcur: nat)
    requires CanRead(s, left, lcur, dcur) && left > 0
    ensures var c := NextChip(s.g, s.mru);
            && Shape(s) && ValidChip(s.g, c) && lcur + s.g.slots <= |s.lpaBuf| && dcur + s.g.slots <= |s.dataBuf|
            && (s.chips[c].vic.Some? ==> |CursorLive(s, c)| <= NrToRead(s, c))
            && (s.chips[c].vic.None? ==> CanRead(s.(mru := c), left - 1, lcur, dcur) && StillShows(s, s.(mru := c)))
            && (s.chips[c].vic.Some? && NrToRead(s, c) > 0 ==>
                  CanRead(ReadOne(s, c, lcur, dcur), left - 1, lcur + |CursorLive(s, c)|, dcur + NrToRead(s, c)))
  {
    NextIsValid(s);
    var c := NextChip(s.g, s.mru);
    hide BlksOk, Biject, ChipsOk, ViewOf, ReadOne, NrToRead, CursorLive;
    RoomMonotone(left, lcur, lcur, s.g.slots, |s.lpaBuf|);
    RoomMonotone(left, dcur, dcur, s.g.slots, |s.dataBuf|);
    MruIrrelevant(s, None, c);
    RoomMonotone(left - 1, lcur + s.g.slots, lcur, s.g.slots, |s.lpaBuf|);
    RoomMonotone(left - 1, dcur + s.g.slots, dcur, s.g.slots, |s.dataBuf|);
    if s.chips[c].vic.Some? {
      CountMatchesCopy(s, c);
    }
    if s.chips[c].vic.Some? && NrToRead(s, c) > 0 {
      RoomMonotone(left - 1, lcur + s.g.slots, lcur + |CursorLive(s, c)|, s.g.slots, |s.lpaBuf|);
      RoomMonotone(left - 1, dcur + s.g.slots, dcur + NrToRead(s, c), s.g.slots, |s.dataBuf|);
    }
  }

  /** The state and the two buffer cursors after one turn, or the error return. */
  datatype Turned = Stop | On(s: State, lcur: nat, dcur: nat)

  /** One turn of fb_bgc_read_valid_pgs. */
  ghost function ReadTurn(s: State, left: nat, lcur: nat, dcur: nat): (r: Turned)
    requires CanRead(s, left, lcur, dcur) && left > 0
  {
    hide InvAt, View, ReadOne, ReadRoom, NrToRead, CursorLive, StillShows;
    CanReadNext(s, left, lcur, dcur);
    var c := NextChip(s.g, s.mru);
    if s.chips[c].vic.None? then On(s.(mru := c), lcur, dcur)
    else if NrToRead(s, c) == 0 then Stop
    else On(ReadOne(s, c, lcur, dcur), lcur + |CursorLive(s, c)|, dcur + NrToRead(s, c))
  }

  lemma ReadTurnOk(s: State, left: nat, lcur: nat, dcur: nat)
    requires CanRead(s, left, lcur, dcur) && left > 0
    ensures var r := ReadTurn(s, left, lcur, dcur);
            r.On? ==> CanRead(r.s, left - 1, r.lcur, r.dcur) && StillShows(s, r.s)
  {
    hide InvAt, View, ReadOne, ReadRoom, NrToRead, CursorLive, StillShows;
    CanReadNext(s, left, lcur, dcur);
  }

  /** fb_bgc_read_valid_pgs with `left` turns to go and the two buffer cursors. */
  ghost function BgcRead(s: State, left: nat, lcur: nat, dcur: nat): (r: (State, bool))
    requires CanRead(s, left, lcur, dcur)
    ensures StillShows(s, r.0)
    decreases left
  {
    hide StillShows, CanRead, ReadTurn;
    ShowsItself(s, left, lcur, dcur);
    if left == 0 then (s, true)
    else ReadTurnOk(s, left, lcur, dcur); match ReadTurn(s, left, lcur, dcur)
      case Stop => (s, false)
      case On(s1, l1, d1) =>
        ShowsTrans(s, s1, BgcRead(s1, left - 1, l1, d1).0);
        BgcRead(s1, left - 1, l1, d1)
  }

  lemma ShowsItself(s: State, left: nat, lcur: nat, dcur: nat)
    requires CanRead(s, left, lcur, dcur)
    ensures StillShows(s, s)
  {
    hide InvAt, View;
  }

  lemma ShowsTrans(s: State, s1: State, s2: State)
    requires StillShows(s, s1) && StillShows(s1, s2)
    ensures StillShows(s, s2)
  {
    hide InvAt, View;
  }

  // ---- what the pass reads -------------------------------------------------------------------------------------

  /** The page at the cursor of the chip is free: the victim was erased after it was chosen. */
  predicate StaleAt(s: State, c: ChipId)
    requires Shape(s) && CursorsOk(s) && ValidChip(s.g, c)
  {
    s.chips[c].vic.Some? && s.chips[c].firstPg >= s.g.pages - s.blks[BlkId(c, s.chips[c].vic.value)].nrFreePgs
  }

  /** The slots copied on the turn of chip c, and the number counted. */
  function TurnLive(s: State, c: ChipId): seq<Addr>
    requires Shape(s) && CursorsOk(s) && ValidChip(s.g, c)
  {
    if s.chips[c].vic.None? then [] else CursorLive(s, c)
  }

  function TurnCount(s: State, c: ChipId): int
    requires Shape(s) && CursorsOk(s) && ValidChip(s.g, c)
  {
    if s.chips[c].vic.None? then 0 else NrToRead(s, c)
  }

  /** The slots copied in the `left` turns after chip c, in order. */
  function ReadAddrs(s: State, c: ChipId, left: nat): seq<Addr>
    requires Shape(s) && CursorsOk(s) && ValidChip(s.g, c)
    decreases left
  {
    if left == 0 then [] else TurnLive(s, NextChip(s.g, c)) + ReadAddrs(s, NextChip(s.g, c), left - 1)
  }

  /** How many slots these turns count. */
  function ReadCount(s: State, c: ChipId, left: nat): int
    requires Shape(s) && CursorsOk(s) && ValidChip(s.g, c)
    decreases left
  {
    if left == 0 then 0 else TurnCount(s, NextChip(s.g, c)) + ReadCount(s, NextChip(s.g, c), left - 1)
  }

  /** One of these turns is on a chip with a free page at its cursor. */
  predicate HasStale(s: State, c: ChipId, left: nat)
    requires Shape(s) && CursorsOk(s) && ValidChip(s.g, c)
    decreases left
  {
    left > 0 && (StaleAt(s, NextChip(s.g, c)) || HasStale(s, NextChip(s.g, c), left - 1))
  }

  /** How many slots are counted before the first such turn. */
  function GoodCount(s: State, c: ChipId, left: nat): int
    requires Shape(s) && CursorsOk(s) && ValidChip(s.g, c)
    decreases left
  {
    if left == 0 || StaleAt(s, NextChip(s.g, c)) then 0
    else TurnCount(s, NextChip(s.g, c)) + GoodCount(s, NextChip(s.g, c), left - 1)
  }

  /** On a free page nothing is copied and a page's worth counted; on any other as many are copied as counted. */
  lemma TurnOk(s: State, c: ChipId)
    requires Inv(s) && CursorsOk(s) && ValidChip(s.g, c)
    ensures |TurnLive(s, c)| <= TurnCount(s, c) <= s.g.slots
    ensures if StaleAt(s, c) then TurnLive(s, c) == [] && TurnCount(s, c) == s.g.slots > 0
            else |TurnLive(s, c)| == TurnCount(s, c)
    ensures NoDup(TurnLive(s, c))
    ensures forall i :: 0 <= i < |TurnLive(s, c)| ==>
              var a := TurnLive(s, c)[i]; ValidAddr(s.g, a) && a.b.c == c && StatusAt(s.g, s.blks, a) == Valid
  {
    if s.chips[c].vic.Some? {
      CountMatchesCopy(s, c);
      CursorLiveOk(s, c);
      if StaleAt(s, c) { FreeAtCursor(s, c); }
    }
    hide BlksOk, Biject, ChipsOk, CursorLive, NrToRead;
  }

  lemma FreeAtCursor(s: State, c: ChipId)
    requires Inv(s) && CursorsOk(s) && ValidChip(s.g, c) && StaleAt(s, c)
    ensures CursorLive(s, c) == [] && NrToRead(s, c) == s.g.slots > 0
  {
    hide Biject, ChipsOk;
    var b, pg := BlkId(c, s.chips[c].vic.value), s.chips[c].firstPg;
    assert BlockAt(s.g, s.blks[b], 0);
    assert PageAt(s.blks[b].pages[pg], s.g.slots, 0);
    LiveOfPage(s, c);
    hide BlksOk, PagesAt, CountsExact, BlockAt;
    var p := s.blks[b].pages[pg];
    assert SlotsIn(p, Invalid) == {} && SlotsIn(p, Valid) == {};
  }

  /** One turn, in the same words for a chip with and without a victim. */
  lemma TurnIs(s: State, left: nat, lcur: nat, dcur: nat)
    requires CanRead(s, left, lcur, dcur) && AllGood(s) && left > 0
    ensures var c := NextChip(s.g, s.mru);
            && ValidChip(s.g, c) && |TurnLive(s, c)| <= TurnCount(s, c) <= s.g.slots
            && lcur + s.g.slots <= |s.lpaBuf| && dcur + s.g.slots <= |s.dataBuf|
            && (forall i :: 0 <= i < |TurnLive(s, c)| ==> ValidAddr(s.g, TurnLive(s, c)[i]))
            && ReadTurn(s, left, lcur, dcur)
               == On(Turned1(s, c, lcur, dcur), lcur + |TurnLive(s, c)|, dcur + TurnCount(s, c))
  {
    NextIsValid(s);
    CanReadNext(s, left, lcur, dcur);
    var c := NextChip(s.g, s.mru);
    TurnOk(s, c);
    assert GoodVictim(s, c);
    hide InvAt, View, CursorLive, LpasOf, DataOf, AllGood, StillShows, ReadRoom, NextChip;
    if s.chips[c].vic.None? {
      assert TurnLive(s, c) == [] && TurnCount(s, c) == 0;
      OverNone(s, c, lcur, dcur);
    }
  }

  /** The state after a turn on chip c. */
  ghost function Turned1(s: State, c: ChipId, lcur: nat, dcur: nat): State
    requires Shape(s) && CursorsOk(s) && ValidChip(s.g, c)
    requires forall i :: 0 <= i < |TurnLive(s, c)| ==> ValidAddr(s.g, TurnLive(s, c)[i])
    requires |TurnLive(s, c)| <= TurnCount(s, c)
    requires lcur + |TurnLive(s, c)| <= |s.lpaBuf| && dcur + |TurnLive(s, c)| <= |s.dataBuf|
  {
    s.(lpaBuf := Over(s.lpaBuf, lcur, LpasOf(s.g, s.blks, TurnLive(s, c))),
       dataBuf := Over(s.dataBuf, dcur, DataOf(s.g, s.disk, TurnLive(s, c))),
       nrCopy := s.nrCopy + TurnCount(s, c), mru := c)
  }

  lemma OverNone(s: State, c: ChipId, lcur: nat, dcur: nat)
    requires Shape(s) && CursorsOk(s) && ValidChip(s.g, c) && TurnLive(s, c) == [] && TurnCount(s, c) == 0
    requires lcur <= |s.lpaBuf| && dcur <= |s.dataBuf|
    ensures Turned1(s, c, lcur, dcur) == s.(mru := c)
  {
    assert LpasOf(s.g, s.blks, []) == [] && DataOf(s.g, s.disk, []) == [];
    assert Over(s.lpaBuf, lcur, []) == s.lpaBuf && Over(s.dataBuf, dcur, []) == s.dataBuf;
  }

  /** The turns do not depend on the buffers or the cursor. */
  lemma {:induction false} SameTurns(s: State, s1: State, c: ChipId, left: nat)
    requires Shape(s) && CursorsOk(s) && Shape(s1) && CursorsOk(s1) && ValidChip(s.g, c)
    requires s1.g == s.g && s1.blks == s.blks && s1.chips == s.chips
    ensures ReadAddrs(s1, c, left) == ReadAddrs(s, c, left) && ReadCount(s1, c, left) == ReadCount(s, c, left)
    ensures HasStale(s1, c, left) == HasStale(s, c, left) && GoodCount(s1, c, left) == GoodCount(s, c, left)
    decreases left
  {
    if left > 0 { SameTurns(s, s1, NextChip(s.g, c), left - 1); }
    hide Shape, CursorsOk;
  }

  /** Counts are natural, bounded, and agree with what is copied unless a turn is on a free page. */
  lemma {:induction false} TurnsOk(s: State, c: ChipId, left: nat)
    requires Inv(s) && CursorsOk(s) && ValidChip(s.g, c)
    ensures 0 <= GoodCount(s, c, left) <= |ReadAddrs(s, c, left)| <= ReadCount(s, c, left) <= left * s.g.slots
    ensures if HasStale(s, c, left) then GoodCount(s, c, left) < ReadCount(s, c, left)
            else GoodCount(s, c, left) == |ReadAddrs(s, c, left)| == ReadCount(s, c, left)
    ensures forall i :: 0 <= i < |ReadAddrs(s, c, left)| ==>
              var a := ReadAddrs(s, c, left)[i]; ValidAddr(s.g, a) && StatusAt(s.g, s.blks, a) == Valid
    decreases left
  {
    hide InvAt, TurnLive, TurnCount, StaleAt, StatusAt;
    if left > 0 {
      ChipAfter(s, c);
      TurnOk(s, NextChip(s.g, c));
      TurnsOk(s, NextChip(s.g, c), left - 1);
      Distribute(left - 1, s.g.slots);
    }
  }

  lemma ChipAfter(s: State, c: ChipId)
    requires Inv(s) && ValidChip(s.g, c)
    ensures ValidChip(s.g, NextChip(s.g, c))
  {
  }

  /**
   * The data buffer after the pass, which was `old`: from dcur on, n of the values read; what was below
   * dcur, and - if a turn was on a free page - what was right after those n, is as before.
   */
  predicate DataRead(was: seq<Data>, buf: seq<Data>, vals: seq<Data>, dcur: nat, n: int, stale: bool) {
    && |buf| == |was| && 0 <= n <= |vals| && dcur + n <= |was|
    && (forall i :: 0 <= i < dcur ==> buf[i] == was[i])
    && (forall i :: 0 <= i < n ==> buf[dcur + i] == vals[i])
    && (stale ==> dcur + n < |was| && buf[dcur + n] == was[dcur + n])
  }

  lemma DataReadOn(was: seq<Data>, mid: seq<Data>, buf: seq<Data>, x: seq<Data>, vals: seq<Data>, dcur: nat, n: int,
                   stale: bool)
    requires dcur + |x| <= |was| && mid == Over(was, dcur, x) && DataRead(mid, buf, vals, dcur + |x|, n, stale)
    ensures DataRead(was, buf, x + vals, dcur, |x| + n, stale)
  {
    assert forall i :: 0 <= i < |x| ==> mid[dcur + i] == x[i];
    forall i | 0 <= i < |x| + n ensures buf[dcur + i] == (x + vals)[i] {
      if i >= |x| { assert buf[dcur + |x| + (i - |x|)] == vals[i - |x|]; }
    }
  }

  lemma DataReadStale(was: seq<Data>, buf: seq<Data>, vals: seq<Data>, dcur: nat, k: nat, n: int, stale: bool)
    requires k > 0 && DataRead(was, buf, vals, dcur + k, n, stale)
    ensures DataRead(was, buf, vals, dcur, 0, true)
  {
  }

  lemma OverOver<T>(buf: seq<T>, pos: nat, x: seq<T>, y: seq<T>)
    requires pos + |x| + |y| <= |buf|
    ensures Over(Over(buf, pos, x), pos + |x|, y) == Over(buf, pos, x + y)
  {
  }

  lemma LpasOfAppend(g: Geo, blks: map<BlkId, Block>, l: seq<Addr>, q: seq<Addr>)
    requires BlksShape(g, blks) && (forall i :: 0 <= i < |l| ==> ValidAddr(g, l[i]))
    requires (forall i :: 0 <= i < |q| ==> ValidAddr(g, q[i]))
    ensures forall i :: 0 <= i < |l + q| ==> ValidAddr(g, (l + q)[i])
    ensures LpasOf(g, blks, l + q) == LpasOf(g, blks, l) + LpasOf(g, blks, q)
  {
  }

  lemma DataOfAppend(g: Geo, disk: map<BlkId, seq<seq<Data>>>, l: seq<Addr>, q: seq<Addr>)
    requires DiskShape(g, disk) && (forall i :: 0 <= i < |l| ==> ValidAddr(g, l[i]))
    requires (forall i :: 0 <= i < |q| ==> ValidAddr(g, q[i]))
    ensures forall i :: 0 <= i < |l + q| ==> ValidAddr(g, (l + q)[i])
    ensures DataOf(g, disk, l + q) == DataOf(g, disk, l) + DataOf(g, disk, q)
  {
  }

  /**
   * What reading the slots l and counting cnt does from the two buffer cursors on, with the cursor of the
   * round left on chip c; the first n slots counted come before any turn on a free page.
   */
  ghost predicate ReadResult(s: State, r: State, c: ChipId, l: seq<Addr>, cnt: int, n: int, stale: bool, lcur: nat,
                             dcur: nat)
    requires BlksShape(s.g, s.blks) && DiskShape(s.g, s.disk)
  {
    && (forall i :: 0 <= i < |l| ==> ValidAddr(s.g, l[i])) && lcur + |l| <= |s.lpaBuf|
    && r == s.(mru := c, nrCopy := r.nrCopy, lpaBuf := r.lpaBuf, dataBuf := r.dataBuf)
    && r.nrCopy == s.nrCopy + cnt && r.lpaBuf == Over(s.lpaBuf, lcur, LpasOf(s.g, s.blks, l))
    && DataRead(s.dataBuf, r.dataBuf, DataOf(s.g, s.disk, l), dcur, n, stale)
  }

  /** One turn, reading x, and then the rest of the pass. */
  lemma ReadResultOn(s: State, s1: State, r: State, c: ChipId, x: seq<Addr>, q: seq<Addr>, k: int, cnt: int, n: int,
                     stale: bool, lcur: nat, dcur: nat)
    requires BlksShape(s.g, s.blks) && DiskShape(s.g, s.disk)
    requires (forall i :: 0 <= i < |x| ==> ValidAddr(s.g, x[i])) && |x| <= k
    requires lcur + |x| <= |s.lpaBuf| && dcur + |x| <= |s.dataBuf|
    requires s1 == s.(mru := s1.mru, nrCopy := s1.nrCopy, lpaBuf := Over(s.lpaBuf, lcur, LpasOf(s.g, s.blks, x)),
                      dataBuf := Over(s.dataBuf, dcur, DataOf(s.g, s.disk, x)))
    requires s1.nrCopy == s.nrCopy + k && ReadResult(s1, r, c, q, cnt, n, stale, lcur + |x|, dcur + k)
    ensures |x| == k ==> ReadResult(s, r, c, x + q, k + cnt, k + n, stale, lcur, dcur)
    ensures x == [] && k > 0 ==> ReadResult(s, r, c, x + q, k + cnt, 0, true, lcur, dcur)
  {
    hide BlksShape, DiskShape, LpasOf, DataOf, Over, DataRead, ValidAddr;
    LpasOfAppend(s.g, s.blks, x, q);
    DataOfAppend(s.g, s.disk, x, q);
    OverOver(s.lpaBuf, lcur, LpasOf(s.g, s.blks, x), LpasOf(s.g, s.blks, q));
    if |x| == k {
      DataReadOn(s.dataBuf, s1.dataBuf, r.dataBuf, DataOf(s.g, s.disk, x), DataOf(s.g, s.disk, q), dcur, n, stale);
    }
    if x == [] && k > 0 {
      OverEmpty(s.dataBuf, dcur);
      assert DataOf(s.g, s.disk, x) == [];
      DataReadStale(s.dataBuf, r.dataBuf, DataOf(s.g, s.disk, q), dcur, k, n, stale);
      assert x + q == q;
    }
  }

  /** What `left` turns of the pass do, from the two buffer cursors on. */
  ghost predicate ReadDone(s: State, r: State, left: nat, lcur: nat, dcur: nat)
    requires Shape(s) && CursorsOk(s)
  {
    ReadResult(s, r, Turn(s.g, s.mru, left), ReadAddrs(s, s.mru, left), ReadCount(s, s.mru, left),
               GoodCount(s, s.mru, left), HasStale(s, s.mru, left), lcur, dcur)
  }

  /** The first of the turns, and the rest. */
  lemma TurnsAfter(s: State, c: ChipId, left: nat)
    requires Shape(s) && CursorsOk(s) && left > 0 && ValidChip(s.g, c)
    ensures var d := NextChip(s.g, c);
            && ValidChip(s.g, d) && ReadAddrs(s, c, left) == TurnLive(s, d) + ReadAddrs(s, d, left - 1)
            && ReadCount(s, c, left) == TurnCount(s, d) + ReadCount(s, d, left - 1)
            && GoodCount(s, c, left) == (if StaleAt(s, d) then 0 else TurnCount(s, d) + GoodCount(s, d, left - 1))
            && HasStale(s, c, left) == (StaleAt(s, d) || HasStale(s, d, left - 1))
  {
  }

  /** On chip c's turn the slots TurnLive are read and TurnCount are counted. */
  ghost predicate TookTurn(s: State, s1: State, c: ChipId, lcur: nat, dcur: nat)
    requires Shape(s) && CursorsOk(s) && ValidChip(s.g, c)
  {
    && |TurnLive(s, c)| <= TurnCount(s, c)
    && lcur + |TurnLive(s, c)| <= |s.lpaBuf| && dcur + |TurnLive(s, c)| <= |s.dataBuf|
    && (forall i :: 0 <= i < |TurnLive(s, c)| ==> ValidAddr(s.g, TurnLive(s, c)[i]))
    && s1 == Turned1(s, c, lcur, dcur) && Shape(s1) && CursorsOk(s1)
  }

  lemma RestDone(s: State, s1: State, r: State, c: ChipId, left: nat, lcur: nat, dcur: nat)
    requires Shape(s) && CursorsOk(s) && left > 0 && c == NextChip(s.g, s.mru) && ValidChip(s.g, c)
    requires Shape(s1) && CursorsOk(s1) && s1.mru == c && s1.g == s.g && s1.blks == s.blks && s1.chips == s.chips
    requires ReadDone(s1, r, left - 1, lcur, dcur)
    ensures ReadResult(s1, r, Turn(s.g, s.mru, left), ReadAddrs(s, c, left - 1), ReadCount(s, c, left - 1),
                       GoodCount(s, c, left - 1), HasStale(s, c, left - 1), lcur, dcur)
  {
    hide Shape, CursorsOk, ReadResult, ReadAddrs, ReadCount, GoodCount, HasStale, Turn, NextChip;
    ShapeParts(s);
    ShapeParts(s1);
    TurnShift(s.g, s.mru, left - 1);
    SameTurns(s, s1, c, left - 1);
  }

  lemma ReadDoneNext(s: State, s1: State, r: State, c: ChipId, left: nat, lcur: nat, dcur: nat)
    requires Inv(s) && Shape(s) && CursorsOk(s) && left > 0 && c == NextChip(s.g, s.mru) && ValidChip(s.g, c)
    requires TookTurn(s, s1, c, lcur, dcur)
    requires ReadDone(s1, r, left - 1, lcur + |TurnLive(s, c)|, dcur + TurnCount(s, c))
    ensures ReadDone(s, r, left, lcur, dcur)
  {
    hide InvAt, Shape, CursorsOk, LpasOf, DataOf, Over, TurnLive, TurnCount, NextChip, ReadResult, StaleAt, ReadAddrs,
         ReadCount, GoodCount, HasStale, ValidAddr, Turn;
    RestDone(s, s1, r, c, left, lcur + |TurnLive(s, c)|, dcur + TurnCount(s, c));
    ShapeParts(s);
    TurnsAfter(s, s.mru, left);
    TurnOk(s, c);
    ReadResultOn(s, s1, r, Turn(s.g, s.mru, left), TurnLive(s, c), ReadAddrs(s, c, left - 1), TurnCount(s, c),
                 ReadCount(s, c, left - 1), GoodCount(s, c, left - 1), HasStale(s, c, left - 1), lcur, dcur);
  }

  lemma ShapeParts(s: State)
    requires Shape(s)
    ensures Sane(s.g) && ValidChip(s.g, s.mru) && BlksShape(s.g, s.blks) && DiskShape(s.g, s.disk)
  {
  }

  lemma OverEmpty<T>(buf: seq<T>, pos: nat)
    requires pos <= |buf|
    ensures Over(buf, pos, []) == buf
  {
  }

  lemma ReadNothing(s: State, lcur: nat, dcur: nat)
    requires CanRead(s, 0, lcur, dcur)
    ensures ReadDone(s, s, 0, lcur, dcur)
  {
    InvShape(s);
    hide InvAt, View;
    assert LpasOf(s.g, s.blks, []) == [];
    OverEmpty(s.lpaBuf, lcur);
  }

  lemma StillGood(s: State, r: State)
    requires Shape(s) && AllGood(s) && Shape(r) && r.g == s.g && r.blks == s.blks && r.chips == s.chips
    ensures AllGood(r)
  {
    hide Shape;
    forall c | ValidChip(s.g, c) ensures GoodVictim(r, c) { assert GoodVictim(s, c); }
  }

  /**
   * The read pass succeeds; it counts and copies what its turns say, and leaves the cursor that many
   * turns further on.
   */
  lemma {:induction false} BgcReadExact(s: State, left: nat, lcur: nat, dcur: nat)
    requires CanRead(s, left, lcur, dcur) && AllGood(s)
    ensures var r := BgcRead(s, left, lcur, dcur); r.1 && ReadDone(s, r.0, left, lcur, dcur)
    decreases left
  {
    hide InvAt, Shape, View, CursorsOk, StillShows, TurnLive, TurnCount, NextChip, Over, ReadRoom, AllGood, ReadDone,
         LpasOf, DataOf;
    if left == 0 {
      ReadNothing(s, lcur, dcur);
    } else {
      InvShape(s);
      TurnIs(s, left, lcur, dcur);
      ReadTurnOk(s, left, lcur, dcur);
      var c := NextChip(s.g, s.mru);
      var s1 := Turned1(s, c, lcur, dcur);
      InvShape(s1);
      StillGood(s, s1);
      BgcReadExact(s1, left - 1, lcur + |TurnLive(s, c)|, dcur + TurnCount(s, c));
      ReadDoneNext(s, s1, BgcRead(s, left, lcur, dcur).0, c, left, lcur, dcur);
    }
  }

  lemma OnItsChip(s: State, c: ChipId)
    requires Inv(s) && CursorsOk(s) && ValidChip(s.g, c)
    ensures NoDup(TurnLive(s, c)) && forall a :: a in TurnLive(s, c) ==> a.b.c == c
  {
    TurnOk(s, c);
    hide InvAt, TurnLive, TurnCount, StatusAt;
    forall a | a in TurnLive(s, c) ensures a.b.c == c {
      var i :| 0 <= i < |TurnLive(s, c)| && TurnLive(s, c)[i] == a;
    }
  }

  /** The slots these turns copy are the live ones at the cursors of the chips visited. */
  lemma {:induction false} ReadAddrsMember(s: State, c: ChipId, left: nat, a: Addr)
    requires Inv(s) && Shape(s) && CursorsOk(s) && ValidChip(s.g, c)
    ensures a in ReadAddrs(s, c, left) <==>
              ValidChip(s.g, a.b.c) && Visited(s.g, c, a.b.c, left) && a in TurnLive(s, a.b.c)
    decreases left
  {
    hide InvAt, Shape, CursorsOk, TurnLive;
    if left > 0 {
      ShapeParts(s);
      ChipIsNext(s.g, c);
      hide NextChip, ValidChip;
      OnItsChip(s, NextChip(s.g, c));
      ReadAddrsMember(s, NextChip(s.g, c), left - 1, a);
    }
  }

  lemma NotCopiedAgain(s: State, c: ChipId, left: nat)
    requires Inv(s) && Shape(s) && CursorsOk(s) && ValidChip(s.g, c) && left < NumChips(s.g)
    requires NoDup(ReadAddrs(s, c, left))
    ensures NoDup(TurnLive(s, c) + ReadAddrs(s, c, left))
  {
    ShapeParts(s);
    hide InvAt, Shape, CursorsOk, TurnLive, NumChips, ReadAddrs, ValidChip, NoDup;
    OnItsChip(s, c);
    RoundVisits(s.g, c, c, left);
    forall a | a in TurnLive(s, c) ensures a !in ReadAddrs(s, c, left) { ReadAddrsMember(s, c, left, a); }
    NoDupAppend(TurnLive(s, c), ReadAddrs(s, c, left));
  }

  lemma {:induction false} ReadAddrsOnce(s: State, c: ChipId, left: nat)
    requires Inv(s) && Shape(s) && CursorsOk(s) && ValidChip(s.g, c) && left <= NumChips(s.g)
    ensures NoDup(ReadAddrs(s, c, left))
    decreases left
  {
    hide InvAt, Shape, CursorsOk, TurnLive, NumChips, NextChip, ReadAddrs, ReadCount, GoodCount, HasStale, StaleAt,
         NoDup, ValidChip;
    if left == 0 {
      NoneCopied(s, c);
    } else {
      TurnsAfter(s, c, left);
      ShapeParts(s);
      ReadAddrsOnce(s, NextChip(s.g, c), left - 1);
      NotCopiedAgain(s, NextChip(s.g, c), left - 1);
    }
  }

  lemma NoneCopied(s: State, c: ChipId)
    requires Shape(s) && CursorsOk(s) && ValidChip(s.g, c)
    ensures NoDup(ReadAddrs(s, c, 0))
  {
  }

  /** One of the turns of a whole round is on a free page exactly when some chip has one at its cursor. */
  lemma {:induction false} HasStaleVisited(s: State, c: ChipId, left: nat)
    requires Shape(s) && CursorsOk(s) && ValidChip(s.g, c)
    ensures HasStale(s, c, left) <==> exists x :: ValidChip(s.g, x) && Visited(s.g, c, x, left) && StaleAt(s, x)
    decreases left
  {
    hide Shape, CursorsOk, StaleAt;
    ShapeParts(s);
    if left > 0 {
      ChipIsNext(s.g, c);
      HasStaleVisited(s, NextChip(s.g, c), left - 1);
    }
  }

  lemma ChipIsNext(g: Geo, c: ChipId)
    requires Sane(g) && ValidChip(g, c)
    ensures ValidChip(g, NextChip(g, c))
  {
  }

  /**
   * fb_bgc_read_valid_pgs over all chips: it succeeds, the cursor is back, the live slots at the victims'
   * cursors are copied, each of them once, and nr_pgs_to_copy grows by what the turns count.
   */
  lemma BgcReadAll(s: State)
    requires CanRead(s, NumChips(s.g), 0, 0) && AllGood(s)
    ensures var r, l := BgcRead(s, NumChips(s.g), 0, 0), ReadAddrs(s, s.mru, NumChips(s.g));
            && r.1 && r.0.mru == s.mru && ReadDone(s, r.0, NumChips(s.g), 0, 0)
            && r.0.nrCopy == s.nrCopy + ReadCount(s, s.mru, NumChips(s.g))
            && NoDup(l) && (forall a :: a in l <==> ValidChip(s.g, a.b.c) && a in TurnLive(s, a.b.c))
            && ((forall c :: ValidChip(s.g, c) ==> !StaleAt(s, c)) <==> !HasStale(s, s.mru, NumChips(s.g)))
            && (!HasStale(s, s.mru, NumChips(s.g)) ==> r.0.nrCopy == s.nrCopy + |l|)
  {
    var n := NumChips(s.g);
    BgcReadExact(s, n, 0, 0);
    InvShape(s);
    hide InvAt, Shape, CursorsOk, View, StillShows, TurnLive, TurnCount, NextChip, StaleAt, AllGood, CanRead, ReadRoom,
         NumChips, LpasOf, DataOf, Over, DataRead;
    GoodCursors(s);
    ShapeParts(s);
    FullRound(s.g, s.mru, s.mru);
    ReadAddrsOnce(s, s.mru, n);
    TurnsOk(s, s.mru, n);
    HasStaleVisited(s, s.mru, n);
    IndexBound(s.g, s.mru);
    forall x | ValidChip(s.g, x) ensures Visited(s.g, s.mru, x, n) { RoundVisits(s.g, s.mru, x, 0); }
    forall a ensures a in ReadAddrs(s, s.mru, n) <==> ValidChip(s.g, a.b.c) && a in TurnLive(s, a.b.c) {
      ReadAddrsMember(s, s.mru, n, a);
    }
  }

  // ---- trigger_bg_gc -------------------------------------------------------------------------------------------

  lemma ChipsFit(g: Geo)
    requires Sane(g)
    ensures NumChips(g) * g.slots <= BufSize(g)
  {
    var n := g.buses * g.chips;
    assert g.slots <= g.pages * g.slots;
    assert n * g.slots <= n * (g.pages * g.slots);
  }

  /** The victims fb_bgc_set_vic_blks settled on, and whether it succeeded. */
  ghost function BgcChosen(s: State): (r: (State, bool))
    requires Ready(s)
    ensures Ready(r.0) && StillShows(s, r.0) && r.0.nrCopy == 0 && (r.1 ==> AllGood(r.0))
  {
    hide BlksOk, Biject, ChipsOk, View, BufSize, GoodVictim;
    BufIrrelevant(s, s.lpaBuf, s.dataBuf, 0);
    BgcSetVictimsOk(s.(nrCopy := 0), 0, 0);
    BgcSetVictims(s.(nrCopy := 0), 0, 0)
  }

  /** The victims of a successful fb_bgc_set_vic_blks can be read, starting with empty buffers. */
  lemma StartReading(s: State)
    requires Ready(s) && AllGood(s)
    ensures CanRead(s, NumChips(s.g), 0, 0)
  {
    hide BlksOk, Biject, ChipsOk, View, AllGood;
    GoodCursors(s);
    ChipsFit(s.g);
    RoomProduct(NumChips(s.g), 0, s.g.slots, |s.lpaBuf|);
    RoomProduct(NumChips(s.g), 0, s.g.slots, |s.dataBuf|);
  }

  /** What was counted is in the buffers, which are whole pages long. */
  lemma CopiedRoom(v: State)
    requires Ready(v) && AllGood(v) && v.nrCopy == 0
    ensures CanRead(v, NumChips(v.g), 0, 0)
    ensures var r := BgcRead(v, NumChips(v.g), 0, 0).0;
            Ready(r) && StillShows(v, r) && Fillable(r) && ProgRoom(r, 0, r.nrCopy)
  {
    hide BlksOk, Biject, ChipsOk, View, BufSize, AllGood, Fillable, ReadAddrs, ReadCount, GoodCount, HasStale, DataRead,
         Turn;
    StartReading(v);
    BgcReadExact(v, NumChips(v.g), 0, 0);
    TurnsOk(v, v.mru, NumChips(v.g));
    ChipsFit(v.g);
    var r := BgcRead(v, NumChips(v.g), 0, 0).0;
    BufWhole(r);
    InvFillable(r);
  }

  /** The state once the pages at the cursors are copied. */
  ghost function BgcCopied(s: State): (r: State)
    requires Ready(s) && BgcChosen(s).1
    ensures Ready(r) && StillShows(s, r) && Fillable(r) && ProgRoom(r, 0, r.nrCopy)
  {
    hide BlksOk, Biject, ChipsOk, View, BufSize, AllGood, CursorsOk, BgcChosen, Fillable;
    var v := BgcChosen(s).0;
    CopiedRoom(v);
    BgcRead(v, NumChips(v.g), 0, 0).0
  }

  /** The state once the copied pages are written elsewhere. */
  ghost function BgcMoved(s: State): (State, bool)
    requires Ready(s) && BgcChosen(s).1
  {
    hide BlksOk, Biject, ChipsOk, View, BufSize, BgcCopied;
    Prog(BgcCopied(s), 0, BgcCopied(s).nrCopy)
  }

  /**
   * trigger_bg_gc: without an active block on the chip last written, the GC blocks of all chips are
   * recycled; otherwise one page of each victim is moved.
   */
  ghost function Bgc(s: State): (State, bool)
    requires Ready(s)
  {
    hide BlksOk, Biject, ChipsOk, View, BufSize, BgcChosen, BgcCopied, BgcMoved, Fillable, Prog;
    if s.chips[s.mru].act.None? then BgcPrepare(s, NumChips(s.g))
    else if !BgcChosen(s).1 then BgcChosen(s)
    else if BgcCopied(s).nrCopy == 0 then (BgcCopied(s), true)
    else if !BgcMoved(s).1 then BgcMoved(s)
    else MovedShape(s); UpdateGc(BgcMoved(s).0, 0, 0)
  }

  lemma MovedShape(s: State)
    requires Ready(s) && BgcChosen(s).1
    ensures Shape(BgcMoved(s).0) && BgcMoved(s).0.g == s.g
  {
    hide BlksOk, Biject, ChipsOk, View, BufSize, BgcCopied, Prog;
    ProgFills(BgcCopied(s), 0, BgcCopied(s).nrCopy);
  }

  /** Background GC case by case. */
  lemma BgcCases(s: State)
    requires Ready(s)
    ensures Shape(s) && s.mru in s.chips
    ensures s.chips[s.mru].act.None? ==> Bgc(s) == BgcPrepare(s, NumChips(s.g))
    ensures s.chips[s.mru].act.Some? && !BgcChosen(s).1 ==> Bgc(s) == BgcChosen(s)
    ensures s.chips[s.mru].act.Some? && BgcChosen(s).1 ==>
              && Shape(BgcMoved(s).0) && BgcMoved(s).0.g == s.g
              && (BgcCopied(s).nrCopy == 0 ==> Bgc(s) == (BgcCopied(s), true))
              && (BgcCopied(s).nrCopy > 0 ==>
                    Bgc(s) == if BgcMoved(s).1 then UpdateGc(BgcMoved(s).0, 0, 0) else BgcMoved(s))
  {
    InvShape(s);
    hide InvAt, BlksShape, DiskShape, ChipsShape, L2pShape, View, BufSize, BgcPrepare, BgcChosen, BgcCopied, BgcMoved,
         UpdateGc, AllGood, Fillable, StillShows, ProgRoom;
    if BgcChosen(s).1 { MovedShape(s); }
  }

  // ---- the round robin of the background passes ----------------------------------------------------------------

  lemma AfterRecycle(s: State, left: nat)
    requires Inv(s) && left > 0 && BgcPrepare(s, left).1
    ensures var c := NextChip(s.g, s.mru);
            && Shape(s) && ValidChip(s.g, c) && s.chips[c].gc.Some?
            && var s1 := EraseAndRecycle(s, c);
               && Inv(s1) && s1.g == s.g && s1.mru == c && s1.chips == s.chips[c := Recycle(s.chips[c])]
               && BgcPrepare(s, left) == BgcPrepare(s1, left - 1)
  {
    NextIsValid(s);
    hide BlksOk, Biject, ChipsOk, View, NextChip, Recycle;
    EraseAndRecycleOk(s, NextChip(s.g, s.mru));
  }

  lemma PrepareDone(s: State)
    requires Inv(s)
    ensures BgcPrepare(s, 0).0 == s
  {
  }

  /** One chip in the pass: recycled on its turn, and not touched on any other. */
  lemma {:induction false} BgcPrepareAt(s: State, left: nat, x: ChipId)
    requires Inv(s) && left <= NumChips(s.g) && BgcPrepare(s, left).1 && ValidChip(s.g, x)
    ensures Visited(s.g, s.mru, x, left) ==> s.chips[x].gc.Some?
    ensures BgcPrepare(s, left).0.chips[x] == if Visited(s.g, s.mru, x, left) then Recycle(s.chips[x]) else s.chips[x]
    decreases left
  {
    hide InvAt, NumChips, EraseAndRecycle, Recycle, StillShows, BgcPrepare;
    if left == 0 {
      PrepareDone(s);
    } else {
      AfterRecycle(s, left);
      var c := NextChip(s.g, s.mru);
      BgcPrepareAt(EraseAndRecycle(s, c), left - 1, x);
      if c == x { RoundVisits(s.g, c, c, left - 1); }
    }
  }

  lemma {:induction false} BgcPrepareCursor(s: State, left: nat)
    requires Inv(s) && BgcPrepare(s, left).1
    ensures BgcPrepare(s, left).0.mru == Turn(s.g, s.mru, left)
    decreases left
  {
    hide InvAt, EraseAndRecycle, Recycle, StillShows, BgcPrepare;
    if left == 0 {
      PrepareDone(s);
    } else {
      AfterRecycle(s, left);
      BgcPrepareCursor(EraseAndRecycle(s, NextChip(s.g, s.mru)), left - 1);
      TurnShift(s.g, s.mru, left - 1);
    }
  }

  /** A successful fb_bgc_prepare_act_blks recycles the GC block of every chip exactly once, and the cursor is back. */
  lemma BgcPrepareExact(s: State)
    requires Inv(s) && BgcPrepare(s, NumChips(s.g)).1
    ensures var r := BgcPrepare(s, NumChips(s.g)).0;
            && r.mru == s.mru
            && forall c :: ValidChip(s.g, c) ==> s.chips[c].gc.Some? && r.chips[c] == Recycle(s.chips[c])
  {
    hide BlksOk, Biject, ChipsOk, View, Recycle, BgcPrepare;
    BgcPrepareCursor(s, NumChips(s.g));
    IndexBound(s.g, s.mru);
    FullRound(s.g, s.mru, s.mru);
    forall c | ValidChip(s.g, c)
      ensures s.chips[c].gc.Some? && BgcPrepare(s, NumChips(s.g)).0.chips[c] == Recycle(s.chips[c])
    {
      BgcPrepareAt(s, NumChips(s.g), c);
      RoundVisits(s.g, s.mru, c, 0);
    }
  }
}
