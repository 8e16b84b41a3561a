/**
 * The FTL as the source has it: one object updated in place, its mapping table an array of packed
 * addresses and the copy buffers of the GC manager arrays. Every method is tied to the transition
 * functions of the other modules through S(), the state the object stands for.
 */
module Ftl {
  import opened Common
  import opened Geometry
  import opened Blocks
  import opened FtlState
  import opened Mapping
  import opened Filling
  import opened Program
  import opened Erase
  import opened Victims
  import opened Copying
  import opened Gc
  import opened RoundRobin
  import opened BackgroundGc
  import opened StaleVictim
  import opened Requests
  import opened OperationQueue

  /** The table a mapping array stands for. */
  ghost function TableOf(g: Geo, a: seq<nat>): (r: map<nat, Addr>)
    requires g.slots > 0
    ensures forall i: nat :: i in r <==> i < |a| && a[i] != PAGE_UNMAPPED
    ensures forall i :: i in r ==> r[i] == Unpack(g, a[i])
  {
    map i: nat | i < |a| && a[i] != PAGE_UNMAPPED :: Unpack(g, a[i])
  }

  /** Every entry is the unmapped mark or the packed form of a slot of the device. */
  ghost predicate Packed(g: Geo, a: seq<nat>) {
    forall i :: 0 <= i < |a| && a[i] != PAGE_UNMAPPED ==>
      a[i] < PAGE_UNMAPPED && g.slots > 0 && ValidAddr(g, Unpack(g, a[i]))
  }

  lemma TableSet(g: Geo, a: seq<nat>, i: nat, x: Addr)
    requires Fits(g) && ValidAddr(g, x) && i < |a| && Packed(g, a)
    ensures var a' := a[i := Pack(g, x)]; Packed(g, a') && TableOf(g, a') == TableOf(g, a)[i := x]
  {
    hide Unpack, Pack;
    PackRoundTrip(g, x);
  }

  lemma TableReset(g: Geo, a: seq<nat>, i: nat)
    requires g.slots > 0 && i < |a| && Packed(g, a)
    ensures var a' := a[i := PAGE_UNMAPPED]; Packed(g, a') && TableOf(g, a') == TableOf(g, a) - {i}
  {
    hide Unpack;
  }

  /** The slots of a page whose bit is set, from slot lp on. */
  function Marked(b: BlkId, pg: nat, bits: seq<bool>, lp: nat): (r: seq<Addr>)
    requires lp <= |bits|
    ensures forall i :: 0 <= i < |r| ==> r[i].b == b && r[i].pg == pg && r[i].lp < |bits|
    decreases |bits| - lp
  {
    if lp == |bits| then [] else (if bits[lp] then [Addr(b, pg, lp)] else []) + Marked(b, pg, bits, lp + 1)
  }

  lemma {:induction false} MarkedLive(g: Geo, blks: map<BlkId, Block>, b: BlkId, pg: nat, bits: seq<bool>, lp: nat)
    requires BlksShape(g, blks) && ValidBlk(g, b) && pg < g.pages && |bits| == g.slots && lp <= g.slots
    requires forall i :: 0 <= i < g.slots ==> (bits[i] <==> StatusAt(g, blks, Addr(b, pg, i)) == Valid)
    ensures Marked(b, pg, bits, lp) == PageLive(g, blks, b, pg, lp)
    decreases g.slots - lp
  {
    if lp < g.slots { MarkedLive(g, blks, b, pg, bits, lp + 1); }
  }

  lemma DataOfEmpty(g: Geo, disk: map<BlkId, seq<seq<Data>>>)
    requires DiskShape(g, disk)
    ensures DataOf(g, disk, []) == []
  {
  }

  lemma DataOfSnoc(g: Geo, disk: map<BlkId, seq<seq<Data>>>, l: seq<Addr>, a: Addr)
    requires DiskShape(g, disk) && ValidAddr(g, a) && forall i :: 0 <= i < |l| ==> ValidAddr(g, l[i])
    ensures forall i :: 0 <= i < |l + [a]| ==> ValidAddr(g, (l + [a])[i])
    ensures DataOf(g, disk, l + [a]) == DataOf(g, disk, l) + [DataAt(g, disk, a)]
  {
  }

  lemma LpasOfEmpty(g: Geo, blks: map<BlkId, Block>)
    requires BlksShape(g, blks)
    ensures LpasOf(g, blks, []) == []
  {
  }

  lemma LpasOfSnoc(g: Geo, blks: map<BlkId, Block>, l: seq<Addr>, a: Addr)
    requires BlksShape(g, blks) && ValidAddr(g, a) && forall i :: 0 <= i < |l| ==> ValidAddr(g, l[i])
    ensures forall i :: 0 <= i < |l + [a]| ==> ValidAddr(g, (l + [a])[i])
    ensures LpasOf(g, blks, l + [a]) == LpasOf(g, blks, l) + [LpaAt(g, blks, a)]
  {
  }

  lemma OverSnoc<T>(buf: seq<T>, pos: nat, vals: seq<T>, x: T)
    requires pos + |vals| < |buf|
    ensures Over(buf, pos, vals)[pos + |vals| := x] == Over(buf, pos, vals + [x])
  {
  }

  /** The pages read so far are in the destination from pos on. */
  ghost predicate HasRead(g: Geo, disk: map<BlkId, seq<seq<Data>>>, buf: seq<Data>, pos: nat, done: seq<Addr>,
                          dest: seq<Data>)
    requires DiskShape(g, disk) && pos + |done| <= |buf|
  {
    (forall i :: 0 <= i < |done| ==> ValidAddr(g, done[i])) && dest == Over(buf, pos, DataOf(g, disk, done))
  }

  lemma HasReadNone(g: Geo, disk: map<BlkId, seq<seq<Data>>>, buf: seq<Data>, pos: nat)
    requires DiskShape(g, disk) && pos <= |buf|
    ensures HasRead(g, disk, buf, pos, [], buf)
  {
    OverEmpty(buf, pos);
    DataOfEmpty(g, disk);
  }

  lemma HasReadAll(g: Geo, disk: map<BlkId, seq<seq<Data>>>, buf: seq<Data>, pos: nat, done: seq<Addr>, dest: seq<Data>)
    requires DiskShape(g, disk) && pos + |done| <= |buf| && HasRead(g, disk, buf, pos, done, dest)
    ensures forall i :: 0 <= i < |done| ==> ValidAddr(g, done[i])
    ensures dest == Over(buf, pos, DataOf(g, disk, done))
  {
  }

  lemma HasReadNext(g: Geo, disk: map<BlkId, seq<seq<Data>>>, buf: seq<Data>, pos: nat, done: seq<Addr>, a: Addr,
                    dest: seq<Data>)
    requires DiskShape(g, disk) && ValidAddr(g, a) && pos + |done| < |buf| == |dest|
    requires HasRead(g, disk, buf, pos, done, dest)
    ensures HasRead(g, disk, buf, pos, done + [a], dest[pos + |done| := DataAt(g, disk, a)])
  {
    DataOfSnoc(g, disk, done, a);
    OverSnoc(buf, pos, DataOf(g, disk, done), DataAt(g, disk, a));
  }

  /** In a fully programmed block the slots of a page that are not INVALID are the VALID ones. */
  lemma NotInvalidIsLive(s: State, b: BlkId, pg: nat)
    requires Inv(s) && ValidBlk(s.g, b) && s.blks[b].nrFreePgs == 0 && pg < s.g.pages
    ensures |PageLive(s.g, s.blks, b, pg, 0)| == s.g.slots - s.blks[b].pages[pg].nrInvalidLps
  {
    hide Biject, ChipsOk;
    var p := s.blks[b].pages[pg];
    assert BlockAt(s.g, s.blks[b], 0);
    assert PageAt(p, s.g.slots, s.g.slots);
    assert forall i: nat :: i < s.g.slots ==> p.status[i] == StatusAt(s.g, s.blks, Addr(b, pg, i));
    hide BlksOk, PagesAt, CountsExact, BlockAt, PageAt;
    PageLiveCard(s.g, s.blks, b, pg, 0, SlotsIn(p, Valid));
    ValidPlusInvalid(p, s.g.slots, s.g.slots);
  }

  /** Reading more slots after `done`. */
  lemma CopyOutMore(s: State, done: seq<Addr>, l: seq<Addr>)
    requires Shape(s) && (forall i :: 0 <= i < |done| ==> ValidAddr(s.g, done[i]))
    requires (forall i :: 0 <= i < |l| ==> ValidAddr(s.g, l[i]))
    requires |done| + |l| <= |s.lpaBuf| && |done| + |l| <= |s.dataBuf|
    ensures forall i :: 0 <= i < |done + l| ==> ValidAddr(s.g, (done + l)[i])
    ensures var r := CopyOut(s, done);
            CopyOut(s, done + l) == r.(lpaBuf := Over(r.lpaBuf, |done|, LpasOf(s.g, s.blks, l)),
                                       dataBuf := Over(r.dataBuf, |done|, DataOf(s.g, s.disk, l)))
  {
    var r, q := CopyOut(s, done), CopyOut(s, done + l);
    hide Shape;
    assert q.lpaBuf == Over(r.lpaBuf, |done|, LpasOf(s.g, s.blks, l));
    assert q.dataBuf == Over(r.dataBuf, |done|, DataOf(s.g, s.disk, l));
  }

  /** `done` has been read and the rest of the pass from (pg, chip, bus) on is still to come. */
  ghost predicate ReadSoFar(s: State, done: seq<Addr>, pg: nat, chip: nat, bus: nat) {
    && Shape(s) && pg <= s.g.pages && chip <= s.g.chips && bus <= s.g.buses
    && done + Collect(s, pg, chip, bus) == Collect(s, 0, 0, 0)
    && (forall i :: 0 <= i < |done| ==> ValidAddr(s.g, done[i]))
    && |Collect(s, 0, 0, 0)| <= |s.lpaBuf| && |Collect(s, 0, 0, 0)| <= |s.dataBuf|
  }

  lemma ReadSoFarNext(s: State, done: seq<Addr>, pg: nat, chip: nat, bus: nat)
    requires ReadSoFar(s, done, pg, chip, bus) && pg < s.g.pages
    ensures chip == s.g.chips ==> ReadSoFar(s, done, pg + 1, 0, 0)
    ensures chip < s.g.chips && bus == s.g.buses ==> ReadSoFar(s, done, pg, chip + 1, 0)
    ensures chip < s.g.chips && bus < s.g.buses ==>
              var l := ChipPage(s, pg, ChipId(bus, chip));
              && |done| + |l| <= |s.lpaBuf| && |done| + |l| <= |s.dataBuf|
              && ReadSoFar(s, done + l, pg, chip, bus + 1)
  {
    if chip < s.g.chips && bus < s.g.buses {
      var l := ChipPage(s, pg, ChipId(bus, chip));
      ChipPageOk(s, pg, ChipId(bus, chip));
      hide Shape, ChipPage;
      assert done + (l + Collect(s, pg, chip, bus + 1)) == (done + l) + Collect(s, pg, chip, bus + 1);
      forall i | 0 <= i < |done + l| ensures ValidAddr(s.g, (done + l)[i]) {
        if i >= |done| { assert l[i - |done|] in l; }
      }
    }
  }

  /** create_ssd_info: every block of every chip is free. */
  method CreateBlocks(g: Geo) returns (blks: map<BlkId, Block>)
    ensures forall b :: b in blks <==> ValidBlk(g, b)
    ensures forall b :: b in blks ==> blks[b] == FreeBlock(g, 0)
  {
    blks := map[];
    var bus := 0;
    while bus < g.buses
      invariant 0 <= bus <= g.buses
      invariant forall b :: b in blks <==> ValidBlk(g, b) && b.c.bus < bus
      invariant forall b :: b in blks ==> blks[b] == FreeBlock(g, 0)
    {
      var chip := 0;
      while chip < g.chips
        invariant 0 <= chip <= g.chips
        invariant forall b :: b in blks <==> ValidBlk(g, b) && Before(b.c, bus, chip)
        invariant forall b :: b in blks ==> blks[b] == FreeBlock(g, 0)
      {
        var no := 0;
        while no < g.blocks
          invariant 0 <= no <= g.blocks
          invariant forall b :: b in blks <==>
                   ValidBlk(g, b) && (Before(b.c, bus, chip) || (b.c == ChipId(bus, chip) && b.no < no))
          invariant forall b :: b in blks ==> blks[b] == FreeBlock(g, 0)
        {
          blks := blks[BlkId(ChipId(bus, chip), no) := FreeBlock(g, 0)];
          no := no + 1;
        }
        chip := chip + 1;
      }
      bus := bus + 1;
    }
  }

  /** One chip as create_ssd_info, create_act_blk_mngr and create_gc_mngr leave it. */
  method CreateChip(g: Geo) returns (ch: Chip)
    requires g.blocks >= 2
    ensures ch == InitChip(g)
  {
    ch := Chip([], [], [], 0, 0, 0, None, None, None, 0);
    var no := 0;
    while no < g.blocks
      invariant 0 <= no <= g.blocks && ch == Chip(Upto(no), [], [], no, 0, 0, None, None, None, 0)
    {
      ch := ch.(free := ch.free + [no], nrFree := ch.nrFree + 1);
      no := no + 1;
    }
    var x := ch.free[0];
    RemoveHead(ch.free);
    ch := ch.(free := Remove(ch.free, x), nrFree := ch.nrFree - 1);
    ch := ch.(act := Some(x));
    var y := ch.free[0];
    RemoveHead(ch.free);
    ch := ch.(free := Remove(ch.free, y), nrFree := ch.nrFree - 1);
    ch := ch.(gc := Some(y));
  }

  method CreateChips(g: Geo) returns (chips: map<ChipId, Chip>)
    requires g.blocks >= 2
    ensures forall c :: c in chips <==> ValidChip(g, c)
    ensures forall c :: c in chips ==> chips[c] == InitChip(g)
  {
    chips := map[];
    var bus := 0;
    while bus < g.buses
      invariant 0 <= bus <= g.buses
      invariant forall c :: c in chips <==> ValidChip(g, c) && c.bus < bus
      invariant forall c :: c in chips ==> chips[c] == InitChip(g)
    {
      var chip := 0;
      while chip < g.chips
        invariant 0 <= chip <= g.chips
        invariant forall c :: c in chips <==> ValidChip(g, c) && Before(c, bus, chip)
        invariant forall c :: c in chips ==> chips[c] == InitChip(g)
      {
        var ch := CreateChip(g);
        chips := chips[ChipId(bus, chip) := ch];
        chip := chip + 1;
      }
      bus := bus + 1;
    }
  }

  lemma CreatedIsInit(s: State)
    requires s.g.blocks >= 2 && s.g.buses > 0 && s.g.chips > 0
    requires (forall b :: b in s.blks <==> ValidBlk(s.g, b)) && forall b :: b in s.blks ==>
             s.blks[b] == FreeBlock(s.g, 0)
    requires (forall c :: c in s.chips <==> ValidChip(s.g, c)) && forall c :: c in s.chips ==>
             s.chips[c] == InitChip(s.g)
    requires s.l2p == map[] && s.mru == ChipId(s.g.buses - 1, s.g.chips - 1) && s.nrCopy == 0
    ensures s == InitState(s.g, s.disk, s.lpaBuf, s.dataBuf)
  {
    hide FreeBlock, InitChip, BlkSet, ChipSet;
    var r := InitState(s.g, s.disk, s.lpaBuf, s.dataBuf);
    assert s.blks == r.blks && s.chips == r.chips;
  }

  lemma NothingPacked(g: Geo, a: seq<nat>)
    requires Fits(g) && forall i :: 0 <= i < |a| ==> a[i] == PAGE_UNMAPPED
    ensures Sane(g) && Packed(g, a) && TableOf(g, a) == map[]
  {
  }

  lemma CreatedOk(s: State)
    requires Sane(s.g) && s.g.blocks >= 2 && DiskShape(s.g, s.disk)
    requires (forall b :: b in s.blks <==> ValidBlk(s.g, b)) && forall b :: b in s.blks ==>
             s.blks[b] == FreeBlock(s.g, 0)
    requires (forall c :: c in s.chips <==> ValidChip(s.g, c)) && forall c :: c in s.chips ==>
             s.chips[c] == InitChip(s.g)
    requires s.l2p == map[] && s.mru == ChipId(s.g.buses - 1, s.g.chips - 1) && s.nrCopy == 0
    requires |s.lpaBuf| == BufSize(s.g) && |s.dataBuf| >= BufSize(s.g)
    ensures s == InitState(s.g, s.disk, s.lpaBuf, s.dataBuf) && Ready(s) && Shape(s) && View(s) == map[]
  {
    hide FreeBlock, InitChip, BlkSet, ChipSet, InvAt, View, InitState, BufSize, DiskShape;
    CreatedIsInit(s);
    InitOk(s.g, s.disk, s.lpaBuf, s.dataBuf);
    InvShape(s);
  }

  class Ftl {
    const g: Geo
    const mappings: array<nat>       // L2P: packed addresses
    const lpasToCopy: array<nat>
    const dataToCopy: array<Data>
    var blks: map<BlkId, Block>
    var chips: map<ChipId, Chip>
    var disk: map<BlkId, seq<seq<Data>>>
    var mru: ChipId
    var nrPgsToCopy: nat
    var ops: seq<(ChipId, Operation)>   // what has been issued to the bus controllers, in order

    ghost predicate Valid()
      reads this, mappings, lpasToCopy, dataToCopy
    {
      && Fits(g) && mappings.Length == g.entries && mappings != lpasToCopy
      && Packed(g, mappings[..]) && Shape(S())
    }

    /** The state this object stands for. */
    ghost function S(): (r: State)
      requires g.slots > 0
      reads this, mappings, lpasToCopy, dataToCopy
    {
      State(g, TableOf(g, mappings[..]), blks, chips, disk, mru, lpasToCopy[..], dataToCopy[..], nrPgsToCopy)
    }

    /** A new device: nothing mapped, everything free but one active and one GC block on every chip. */
    constructor (g: Geo, disk: map<BlkId, seq<seq<Data>>>)
      requires Fits(g) && g.blocks >= 2 && DiskShape(g, disk)
      ensures Valid() && fresh(mappings) && fresh(lpasToCopy) && fresh(dataToCopy) && this.g == g && ops == []
      ensures S() == InitState(g, disk, lpasToCopy[..], dataToCopy[..]) && Ready(S()) && View(S()) == map[]
    {
      this.g := g;
      mappings := new nat[g.entries](_ => PAGE_UNMAPPED);
      lpasToCopy := new nat[BufSize(g)];
      dataToCopy := new Data[4 * BufSize(g)];
      this.disk := disk;
      mru := ChipId(g.buses - 1, g.chips - 1);
      nrPgsToCopy := 0;
      ops := [];
      var b, c := map[], map[];
      b := CreateBlocks(g);
      c := CreateChips(g);
      blks, chips := b, c;
      new;
      hide BufSize, FreeBlock, InitChip, Ready, View, InitState, DiskShape, Shape, Fits, TableOf, Packed;
      NothingPacked(g, mappings[..]);
      assert TableOf(g, mappings[..]) == map[];
      CreatedOk(S());
    }

    // ---- page_mapping_function.rs ------------------------------------------------------------------------------

    /** reset_used_blk, then the block becomes the GC block or joins the dirt list. */
    method RetireBlock(c: ChipId, no: nat)
      requires Valid() && ValidChip(g, c) && no < g.blocks
      modifies this`chips
      ensures Valid() && S() == old(S()).(chips := old(chips)[c := Retire(old(chips)[c], no)])
    {
      var ch := chips[c];
      RetireListed(g, ch, no);
      ch := ch.(used := Remove(ch.used, no), nrUsed := ch.nrUsed - 1);
      if ch.gc.None? {
        ch := ch.(gc := Some(no));
      } else {
        ch := ch.(dirt := ch.dirt + [no], nrDirt := ch.nrDirt + 1);
      }
      chips := chips[c := ch];
    }

    /** The page and block counters of invalidate_lpg; `dead` says that no live page is left in the block. */
    method MarkInvalid(a: Addr) returns (dead: bool)
      requires Valid() && ValidAddr(g, a)
      modifies this`blks
      ensures blks == BlksWithout(g, old(blks), a) && dead == LastLive(g, old(blks)[a.b], a.pg, a.lp)
    {
      var blk := blks[a.b];
      var page := blk.pages[a.pg];
      page := page.(status := page.status[a.lp := Invalid]);
      blk := blk.(nrInvalidLps := blk.nrInvalidLps + 1);
      blk := blk.(nrValidLps := blk.nrValidLps - 1);
      page := page.(nrInvalidLps := page.nrInvalidLps + 1);
      dead := false;
      if page.nrInvalidLps == g.slots {
        blk := blk.(nrValidPgs := blk.nrValidPgs - 1);
        blk := blk.(nrInvalidPgs := blk.nrInvalidPgs + 1);
        dead := blk.nrInvalidPgs == g.pages;
      }
      blks := blks[a.b := blk.(pages := blk.pages[a.pg := page])];
    }

    /** invalidate_lpg: the slot the LPA is mapped to becomes INVALID; the packed address it had is returned. */
    method InvalidateLpg(lpa: nat) returns (ppa: nat)
      requires Valid() && lpa < g.entries
      modifies this`blks, this`chips, mappings
      ensures Valid() && S() == Invalidate(old(S()), lpa)
      ensures ppa == old(mappings[lpa])
    {
      ppa := mappings[lpa];
      if ppa != PAGE_UNMAPPED {
        var a := Unpack(g, ppa);
        assert a == S().l2p[lpa];
        var dead := MarkInvalid(a);
        if dead {
          RetireBlock(a.b.c, a.b.no);
        }
        TableReset(g, mappings[..], lpa);
        mappings[lpa] := PAGE_UNMAPPED;
        assert mappings[..] == old(mappings[..])[lpa := PAGE_UNMAPPED];
      }
    }

    /** __map_logical_to_physical */
    method MapOne(lpa: nat, x: Addr)
      requires Valid() && ValidAddr(g, x) && (lpa < g.entries || lpa == PAGE_UNMAPPED)
      modifies this`blks, this`chips, mappings
      ensures Valid() && S() == MapSlot(old(S()), lpa, x)
    {
      if lpa != PAGE_UNMAPPED {
        var _ := InvalidateLpg(lpa);
      }
      RecordSlot(lpa, x);
    }

    /** The part of __map_logical_to_physical that follows invalidate_lpg. */
    method RecordSlot(lpa: nat, x: Addr)
      requires Valid() && ValidAddr(g, x) && (lpa < g.entries || lpa == PAGE_UNMAPPED)
      modifies this`blks, mappings
      ensures Valid() && S() == Record(old(S()), lpa, x)
    {
      var blk := blks[x.b];
      var page := blk.pages[x.pg];
      if lpa != PAGE_UNMAPPED {
        blk := blk.(nrValidLps := blk.nrValidLps + 1);
        page := page.(status := page.status[x.lp := Blocks.Valid]);
        TableSet(g, mappings[..], lpa, x);
        mappings[lpa] := Pack(g, x);
        assert mappings[..] == old(mappings[..])[lpa := Pack(g, x)];
      } else {
        blk := blk.(nrInvalidLps := blk.nrInvalidLps + 1);
        page := page.(nrInvalidLps := page.nrInvalidLps + 1);
        page := page.(status := page.status[x.lp := Invalid]);
      }
      page := page.(lpa := page.lpa[x.lp := lpa]);
      if x.lp == g.slots - 1 {
        blk := blk.(nrValidPgs := blk.nrValidPgs + 1);
        blk := blk.(nrFreePgs := blk.nrFreePgs - 1);
      }
      blks := blks[x.b := blk.(pages := blk.pages[x.pg := page])];
    }

    /** map_logical_to_physical */
    method MapLogicalToPhysical(lpas: seq<nat>, d: BlkId, pg: nat)
      requires Valid() && ValidBlk(g, d) && pg < g.pages && |lpas| == g.slots
      requires forall i :: 0 <= i < |lpas| ==> lpas[i] < g.entries || lpas[i] == PAGE_UNMAPPED
      modifies this`blks, this`chips, mappings
      ensures Valid() && S() == MapPage(old(S()), lpas, d, pg, 0)
    {
      hide MapSlot, Packed, Shape, TableOf;
      var lp := 0;
      while lp < g.slots
        invariant 0 <= lp <= g.slots && Valid()
        invariant MapPage(S(), lpas, d, pg, lp) == MapPage(old(S()), lpas, d, pg, 0)
      {
        MapOne(lpas[lp], Addr(d, pg, lp));
        lp := lp + 1;
      }
    }

    /** alloc_new_page */
    method AllocNewPage(c: ChipId) returns (ok: bool, blk: nat, pg: int)
      requires Valid() && Fillable(S()) && ValidChip(g, c)
      modifies this`chips
      ensures Valid() && ok == CanAlloc(old(S()), c)
      ensures ok ==> S() == Open(old(S()), c) && (BlkId(c, blk), pg) == Target(old(S()), c)
      ensures !ok ==> S() == old(S())
    {
      hide BlksShape, DiskShape, ChipsShape, L2pShape, NamedBelow, Takes, Packed, Target;
      blk, pg := 0, 0;
      NextIsListed(S(), c);
      var ch := chips[c];
      ghost var s0 := S();
      if ch.act.None? {
        if ch.free == [] {
          return false, 0, 0;
        }
        OpenFillable(s0, c);
        var x := ch.free[0];
        ch := ch.(free := ch.free[1..], nrFree := ch.nrFree - 1);
        ch := ch.(act := Some(x));
        chips := chips[c := ch];
      }
      assert S() == Open(s0, c);
      TargetIs(s0, c);
      blk := ch.act.value;
      pg := g.pages - blks[BlkId(c, blk)].nrFreePgs;
      ok := true;
    }

    /** vdevice_write */
    method VdeviceWrite(d: BlkId, pg: nat, data: seq<Data>)
      requires Valid() && ValidBlk(g, d) && pg < g.pages && |data| == g.slots
      modifies this`disk, this`ops
      ensures Valid() && S() == WriteDisk(old(S()), d, pg, data)
      ensures ops == old(ops) + [(d.c, Operation(OP_PROG, None))]
    {
      WriteDiskShape(S(), d, pg, data);
      disk := disk[d := disk[d][pg := data]];
      ops := ops + [(d.c, Operation(OP_PROG, None))];
    }

    /** update_act_blk */
    method UpdateActiveBlk(c: ChipId)
      requires Valid() && ValidChip(g, c) && chips[c].act.Some?
      requires Shape(UpdateActBlk(S(), c))
      modifies this`chips
      ensures Valid() && S() == UpdateActBlk(old(S()), c)
    {
      var ch := chips[c];
      if blks[BlkId(c, ch.act.value)].nrFreePgs == 0 {
        ch := ch.(used := ch.used + [ch.act.value], nrUsed := ch.nrUsed + 1);
        if ch.free != [] {
          var x := ch.free[0];
          ch := ch.(free := ch.free[1..], nrFree := ch.nrFree - 1);
          ch := ch.(act := Some(x));
        } else {
          ch := ch.(act := None);
        }
        chips := chips[c := ch];
      }
    }

    /** get_next_bus_chip */
    method GetNextBusChip() returns (c: ChipId)
      requires Valid()
      ensures c == NextChip(g, mru) && ValidChip(g, c)
    {
      if mru.bus == g.buses - 1 {
        c := ChipId(0, if mru.chip == g.chips - 1 then 0 else mru.chip + 1);
      } else {
        c := ChipId(mru.bus + 1, mru.chip);
      }
    }

    /** The rest of a page program once a page is allocated: data, mapping, cursor, active block. */
    method FillPage(c: ChipId, blk: nat, pg: nat, lpas: seq<nat>, data: seq<Data>, ghost s0: State)
      requires Valid() && CanFill(s0, c, lpas, data) && InRange(g, lpas)
      requires S() == Open(s0, c) && (BlkId(c, blk), pg) == Target(s0, c)
      modifies this`blks, this`chips, this`disk, this`mru, this`ops, mappings
      ensures Valid() && S() == ProgramPage(s0, c, lpas, data)
      ensures ops == old(ops) + [(c, Operation(OP_PROG, None))]
    {
      hide Fillable, CanAlloc, MapPage, WriteDisk, UpdateActBlk;
      VdeviceWrite(BlkId(c, blk), pg, data);
      assert S() == Loaded(s0, c, data);
      MapLogicalToPhysical(lpas, BlkId(c, blk), pg);
      assert S() == Mapped(s0, c, lpas, data);
      mru := c;
      ProgrammedActive(s0, c, lpas, data);
      UpdateActiveBlk(c);
    }

    // ---- erasing -----------------------------------------------------------------------------------------------

    /** init_blk_inf: every page and slot is reset. */
    method InitBlkInf(b0: Block) returns (b: Block)
      requires Valid() && BlockShape(g, b0)
      ensures b == FreeBlock(g, b0.nrErase)
    {
      b := b0.(nrFreePgs := g.pages, nrValidPgs := 0, nrInvalidPgs := 0, nrValidLps := 0, nrInvalidLps := 0);
      var pg := 0;
      while pg < g.pages
        invariant 0 <= pg <= g.pages && |b.pages| == g.pages
        invariant b == b0.(nrFreePgs := g.pages, nrValidPgs := 0, nrInvalidPgs := 0, nrValidLps := 0,
                           nrInvalidLps := 0, pages := b.pages)
        invariant forall p :: 0 <= p < pg ==> b.pages[p] == FreePage(g.slots)
        invariant forall p :: pg <= p < g.pages ==> b.pages[p] == b0.pages[p]
      {
        var page := b.pages[pg].(nrInvalidLps := 0);
        var lp := 0;
        while lp < g.slots
          invariant 0 <= lp <= g.slots && PageShape(page, g.slots) && page.nrInvalidLps == 0
          invariant forall i :: 0 <= i < lp ==> page.lpa[i] == PAGE_UNMAPPED && page.status[i] == Free
        {
          page := page.(lpa := page.lpa[lp := PAGE_UNMAPPED]);
          page := page.(status := page.status[lp := Free]);
          lp := lp + 1;
        }
        assert page == FreePage(g.slots);
        b := b.(pages := b.pages[pg := page]);
        pg := pg + 1;
      }
      assert b.pages == FreeBlock(g, b0.nrErase).pages;
    }

    /** vdevice_erase, init_blk_inf and inc_bers_cnt on one block. */
    method EraseBlock(b: BlkId)
      requires Valid() && ValidBlk(g, b)
      modifies this`blks, this`disk, this`ops
      ensures Valid() && S() == EraseBlk(old(S()), b)
      ensures ops == old(ops) + [(b.c, Operation(OP_BERS, None))]
    {
      EraseShape(S(), b);
      disk := disk[b := ErasedImage(g)];
      ops := ops + [(b.c, Operation(OP_BERS, None))];
      var blk := InitBlkInf(blks[b]);
      blks := blks[b := blk.(nrErase := blk.nrErase + 1)];
    }

    // ---- gc_page_mapping.rs: foreground ------------------------------------------------------------------------

    /** prepare_act_blks */
    method PrepareActBlks() returns (ok: bool)
      requires Valid() && Inv(S())
      modifies this`blks, this`chips, this`disk, this`ops
      ensures Valid() && (S(), ok) == Prepare(old(S()), 0, 0)
    {
      hide InvAt, Kept, View, Packed, EraseAndPromote, BlksShape, DiskShape, L2pShape, Listed;
      var chip := 0;
      while chip < g.chips
        invariant 0 <= chip <= g.chips && Valid() && Inv(S())
        invariant Prepare(S(), 0, chip) == Prepare(old(S()), 0, 0)
      {
        var bus := 0;
        while bus < g.buses
          invariant 0 <= bus <= g.buses && Valid() && Inv(S())
          invariant Prepare(S(), bus, chip) == Prepare(old(S()), 0, 0)
        {
          var c := ChipId(bus, chip);
          if chips[c].act.None? {
            if chips[c].gc.None? {
              return false;
            }
            PromoteOnTurn(c);
          }
          bus := bus + 1;
        }
        chip := chip + 1;
      }
      ok := true;
    }

    /** The body of prepare_act_blks on a chip without an active block. */
    method PromoteOnTurn(c: ChipId)
      requires Valid() && Inv(S()) && ValidChip(g, c) && chips[c].act.None? && chips[c].gc.Some?
      modifies this`blks, this`chips, this`disk, this`ops
      ensures Valid() && Inv(S()) && S() == EraseAndPromote(old(S()), c)
    {
      hide InvAt, View, Packed, BlksShape, DiskShape, L2pShape, FreeBlock, ErasedImage;
      ghost var s0 := S();
      EraseAndPromoteOk(s0, c);
      InvShape(EraseAndPromote(s0, c));
      var x := chips[c].gc.value;
      assert x < g.blocks by { assert Listed(g, s0.chips[c]); }
      EraseBlock(BlkId(c, x));
      var ch := chips[c];
      ch := ch.(act := Some(x));
      ch := ch.(gc := None);
      chips := chips[c := ch];
      assert S() == EraseAndPromote(s0, c);
    }

    /** find_first_valid_pg */
    method FindFirstValidPg(b: BlkId, start: nat) returns (pg: nat)
      requires Valid() && ValidBlk(g, b) && start <= g.pages
      ensures pg == FirstValidPg(g, blks[b], start)
    {
      hide Packed;
      pg := start;
      while pg < g.pages
        invariant start <= pg <= g.pages
        invariant FirstValidPg(g, blks[b], start) == FirstValidPg(g, blks[b], pg)
      {
        if blks[b].pages[pg].nrInvalidLps < g.slots {
          break;
        }
        pg := pg + 1;
      }
    }

    /** select_vic_blk_from_used: the walk along the used list. */
    method SelectVicBlkFromUsed(c: ChipId) returns (vic: Option<nat>)
      requires Valid() && ValidChip(g, c)
      ensures forall j :: 0 <= j < |chips[c].used| ==> chips[c].used[j] < g.blocks
      ensures vic == MostInvalid(S(), c, chips[c].used, 0, None, 0)
    {
      hide Packed, DiskShape, L2pShape;
      var l := chips[c].used;
      assert Listed(g, chips[c]) && forall j :: 0 <= j < |l| ==> l[j] in l;
      var i, most := 0, 0;
      vic := None;
      while i < |l|
        invariant 0 <= i <= |l|
        invariant if vic.None? then most == 0 else vic.value in l && 0 < most == NrInvalid(S(), c, vic.value)
        invariant forall j :: 0 <= j < i ==> NrInvalid(S(), c, l[j]) <= most
        invariant MostInvalid(S(), c, l, i, vic, most) == MostInvalid(S(), c, l, 0, None, 0)
      {
        var n := blks[BlkId(c, l[i])].nrInvalidLps;
        if n > most {
          most := n;
          vic := Some(l[i]);
        }
        i := i + 1;
      }
    }

    /** select_vic_blk_greedy */
    method SelectVicBlkGreedy(c: ChipId) returns (vic: Option<nat>)
      requires Valid() && ValidChip(g, c)
      ensures vic == Greedy(S(), c)
    {
      hide Packed, MostInvalid;
      if chips[c].dirt != [] {
        return Some(chips[c].dirt[0]);
      }
      vic := SelectVicBlkFromUsed(c);
    }

    /** set_vic_blks */
    method SetVicBlks() returns (ok: bool)
      requires Valid() && Inv(S())
      modifies this`chips, this`nrPgsToCopy
      ensures Valid() && (S(), ok) == SetVictims(old(S()), 0, 0)
    {
      hide InvAt, Kept, View, Packed, BlksShape, DiskShape, L2pShape, Listed, ChooseVictim;
      var bus := 0;
      while bus < g.buses
        invariant 0 <= bus <= g.buses && Valid() && Inv(S())
        invariant SetVictims(S(), bus, 0) == SetVictims(old(S()), 0, 0)
      {
        var chip := 0;
        while chip < g.chips
          invariant 0 <= chip <= g.chips && Valid() && Inv(S())
          invariant SetVictims(S(), bus, chip) == SetVictims(old(S()), 0, 0)
        {
          var found := SetVicBlk(ChipId(bus, chip));
          if !found {
            return false;
          }
          chip := chip + 1;
        }
        bus := bus + 1;
      }
      ok := true;
    }

    /** The body of set_vic_blks for one chip. */
    method SetVicBlk(c: ChipId) returns (ok: bool)
      requires Valid() && Inv(S()) && ValidChip(g, c)
      modifies this`chips, this`nrPgsToCopy
      ensures Valid() && Inv(S()) && ok == ChooseVictim(old(S()), c).Some?
      ensures S() == if ok then ChooseVictim(old(S()), c).value else old(S())
    {
      hide InvAt, Packed, View, Greedy, FirstValidPg, DiskShape, L2pShape, VictimOk;
      ghost var s0 := S();
      var ch := chips[c];
      var vic := None;
      if !(ch.gc.Some? && ch.act.Some?) {
        vic := SelectVicBlkGreedy(c);
        if vic.None? {
          return false;
        }
        assert vic.value < g.blocks by { assert Listed(g, s0.chips[c]); }
        var n := blks[BlkId(c, vic.value)].nrValidLps;
        if n <= 0 {
          vic := None;
        } else {
          nrPgsToCopy := nrPgsToCopy + n;
          var pg := FindFirstValidPg(BlkId(c, vic.value), 0);
          ch := ch.(firstPg := pg);
        }
      }
      chips := chips[c := ch.(vic := vic)];
      ok := true;
      assert Some(S()) == ChooseVictim(s0, c);
      ChooseVictimOk(s0, c);
    }

    // ---- reading live pages ------------------------------------------------------------------------------------

    /** vdevice_read: the logical pages whose bit is set are packed into the destination from `pos` on. */
    method VdeviceRead(b: BlkId, pg: nat, bits: array<bool>, dest: array<Data>, pos: nat, bio: Option<nat>)
      requires Valid() && ValidBlk(g, b) && pg < g.pages && bits.Length == g.slots
      requires pos + |Marked(b, pg, bits[..], 0)| <= dest.Length
      modifies dest, this`ops
      ensures dest[..] == Over(old(dest[..]), pos, DataOf(g, disk, Marked(b, pg, bits[..], 0)))
      ensures ops == old(ops) + [(b.c, Operation(OP_READ, bio))]
    {
      hide Packed, BlksShape, DiskShape, ChipsShape, L2pShape, Over, DataOf, HasRead;
      ghost var all, done, buf := Marked(b, pg, bits[..], 0), [], dest[..];
      var lp, cur := 0, pos;
      HasReadNone(g, disk, buf, pos);
      while lp < g.slots
        invariant 0 <= lp <= g.slots && cur == pos + |done| && ops == old(ops)
        invariant done + Marked(b, pg, bits[..], lp) == all && HasRead(g, disk, buf, pos, done, dest[..])
      {
        if bits[lp] {
          HasReadNext(g, disk, buf, pos, done, Addr(b, pg, lp), dest[..]);
          done := done + [Addr(b, pg, lp)];
          dest[cur] := DataAt(g, disk, Addr(b, pg, lp));
          cur := cur + 1;
        }
        lp := lp + 1;
      }
      assert done + [] == done;
      HasReadAll(g, disk, buf, pos, done, dest[..]);
      ops := ops + [(b.c, Operation(OP_READ, bio))];
    }

    /** The LPAs of the live slots of a page, and their data, are appended to the copy buffers at lcur and dcur. */
    method CopyPage(b: BlkId, pg: nat, lcur: nat, dcur: nat) returns (n: nat)
      requires Valid() && ValidBlk(g, b) && pg < g.pages
      requires lcur + |PageLive(g, blks, b, pg, 0)| <= lpasToCopy.Length
      requires dcur + |PageLive(g, blks, b, pg, 0)| <= dataToCopy.Length
      modifies this`ops, lpasToCopy, dataToCopy
      ensures Valid() && n == |PageLive(g, blks, b, pg, 0)|
      ensures var l := PageLive(g, blks, b, pg, 0);
              && (forall i :: 0 <= i < |l| ==> ValidAddr(g, l[i]))
              && S() == old(S()).(lpaBuf := Over(old(S()).lpaBuf, lcur, LpasOf(g, blks, l)),
                                  dataBuf := Over(old(S()).dataBuf, dcur, DataOf(g, disk, l)))
    {
      PageLiveOk(g, blks, b, pg, 0);
      ghost var l := PageLive(g, blks, b, pg, 0);
      assert forall i :: 0 <= i < |l| ==> l[i] in l;
      var bits := new bool[g.slots];
      n := RecordLpas(b, pg, bits, lcur);
      MarkedLive(g, blks, b, pg, bits[..], 0);
      VdeviceRead(b, pg, bits, dataToCopy, dcur, None);
    }

    /** The loop over the slots of the page: LPAs of VALID slots are appended, and their bits set. */
    method RecordLpas(b: BlkId, pg: nat, bits: array<bool>, lcur: nat) returns (n: nat)
      requires Valid() && ValidBlk(g, b) && pg < g.pages && bits.Length == g.slots
      requires lcur + |PageLive(g, blks, b, pg, 0)| <= lpasToCopy.Length
      modifies lpasToCopy, bits
      ensures var l := PageLive(g, blks, b, pg, 0);
              && n == |l| && (forall i :: 0 <= i < |l| ==> ValidAddr(g, l[i]))
              && lpasToCopy[..] == Over(old(lpasToCopy[..]), lcur, LpasOf(g, blks, l))
      ensures forall i :: 0 <= i < g.slots ==> (bits[i] <==> StatusAt(g, blks, Addr(b, pg, i)) == Blocks.Valid)
    {
      hide Packed, DiskShape, ChipsShape, L2pShape, Over, LpasOf;
      ghost var all, done, buf := PageLive(g, blks, b, pg, 0), [], lpasToCopy[..];
      var lp := 0;
      n := 0;
      OverEmpty(buf, lcur);
      LpasOfEmpty(g, blks);
      while lp < g.slots
        invariant 0 <= lp <= g.slots && BlksShape(g, blks) && n == |done|
        invariant done + PageLive(g, blks, b, pg, lp) == all && (forall i :: 0 <= i < |done| ==> ValidAddr(g, done[i]))
        invariant lpasToCopy[..] == Over(buf, lcur, LpasOf(g, blks, done))
        invariant forall i :: 0 <= i < lp ==> (bits[i] <==> StatusAt(g, blks, Addr(b, pg, i)) == Blocks.Valid)
      {
        if blks[b].pages[pg].status[lp] == Blocks.Valid {
          var x := blks[b].pages[pg].lpa[lp];
          OverSnoc(buf, lcur, LpasOf(g, blks, done), x);
          LpasOfSnoc(g, blks, done, Addr(b, pg, lp));
          done := done + [Addr(b, pg, lp)];
          lpasToCopy[lcur + n] := x;
          bits[lp] := true;
          n := n + 1;
        } else {
          bits[lp] := false;
        }
        lp := lp + 1;
      }
      assert done + [] == done;
    }

    /** The innermost body of get_valid_pgs_in_vic_blks: k LPAs recorded, nr pages read. */
    method ReadVictimPage(pg: nat, c: ChipId, lcur: nat, dcur: nat, ghost s0: State, ghost done: seq<Addr>)
      returns (k: nat, nr: int)
      requires Valid() && Inv(s0) && s0.g == g && ValidChip(g, c) && pg < g.pages && VictimOk(s0, c)
      requires forall i :: 0 <= i < |done| ==> ValidAddr(g, done[i])
      requires |done| + |ChipPage(s0, pg, c)| <= |s0.lpaBuf| && |done| + |ChipPage(s0, pg, c)| <= |s0.dataBuf|
      requires S() == CopyOut(s0, done) && lcur == dcur == |done|
      modifies this`ops, lpasToCopy, dataToCopy
      ensures Valid() && k == nr == |ChipPage(s0, pg, c)|
      ensures forall i :: 0 <= i < |done + ChipPage(s0, pg, c)| ==> ValidAddr(g, (done + ChipPage(s0, pg, c))[i])
      ensures S() == CopyOut(s0, done + ChipPage(s0, pg, c))
    {
      hide BlksOk, Biject, ChipsOk, Over, LpasOf, DataOf, PageLive, Packed;
      ghost var l := ChipPage(s0, pg, c);
      k, nr := 0, 0;
      assert S().blks == s0.blks && S().chips == s0.chips;
      var vic := chips[c].vic;
      if vic.Some? {
        assert vic.value < g.blocks by { assert Listed(g, chips[c]); }
        var b := BlkId(c, vic.value);
        NotInvalidIsLive(s0, b, pg);
        assert l == PageLive(g, blks, b, pg, 0);
        nr := g.slots - blks[b].pages[pg].nrInvalidLps;
        if nr > 0 {
          k := CopyPage(b, pg, lcur, dcur);
          CopyOutMore(s0, done, l);
        } else {
          assert done + l == done;
        }
      } else {
        assert done + l == done;
      }
    }

    /**
     * get_valid_pgs_in_vic_blks. The outer loop makes exactly one pass - none if there is nothing to copy -
     * and reads exactly nr_pgs_to_copy pages.
     */
    method GetValidPgsInVicBlks()
      requires Valid() && Ready(S()) && nrPgsToCopy == |LiveFrom(S(), 0, 0)|
      requires forall c :: ValidChip(g, c) ==> VictimOk(S(), c)
      modifies this`ops, lpasToCopy, dataToCopy
      ensures Valid() && S() == ReadVictims(old(S()))
    {
      hide InvAt, View, LiveFrom, Collect, ChipPage, CopyOut, VictimOk, Packed, BufSize, Copied;
      ghost var s0, done: seq<Addr> := S(), [];
      StartReadSoFar(s0);
      var nrRead, lcur, dcur := 0, 0, 0;
      while nrPgsToCopy > nrRead
        invariant Valid() && ReadSoFar(s0, [], 0, 0, 0)
        invariant nrRead == lcur == dcur == |done| <= nrPgsToCopy && (done == [] || done == Collect(s0, 0, 0, 0))
        invariant ReadSoFar(s0, done, 0, 0, 0) || nrRead == nrPgsToCopy
        invariant (forall i :: 0 <= i < |done| ==> ValidAddr(g, done[i])) && S() == CopyOut(s0, done)
        decreases nrPgsToCopy - nrRead
      {
        var pg := 0;
        while pg < g.pages
          invariant 0 <= pg <= g.pages && Valid() && nrRead == lcur == dcur == |done|
          invariant ReadSoFar(s0, done, pg, 0, 0) && S() == CopyOut(s0, done)
        {
          var chip := 0;
          while chip < g.chips
            invariant 0 <= chip <= g.chips && Valid() && nrRead == lcur == dcur == |done|
            invariant ReadSoFar(s0, done, pg, chip, 0) && S() == CopyOut(s0, done)
          {
            var bus := 0;
            while bus < g.buses
              invariant 0 <= bus <= g.buses && Valid() && nrRead == lcur == dcur == |done|
              invariant ReadSoFar(s0, done, pg, chip, bus) && S() == CopyOut(s0, done)
            {
              ReadSoFarNext(s0, done, pg, chip, bus);
              var k, nr := ReadVictimPage(pg, ChipId(bus, chip), lcur, dcur, s0, done);
              done := done + ChipPage(s0, pg, ChipId(bus, chip));
              lcur, dcur, nrRead := lcur + k, dcur + nr, nrRead + nr;
              bus := bus + 1;
            }
            ReadSoFarNext(s0, done, pg, chip, bus);
            chip := chip + 1;
          }
          ReadSoFarNext(s0, done, pg, chip, 0);
          pg := pg + 1;
        }
        WholePass(s0, done);
      }
    }

    // ---- writing them back -------------------------------------------------------------------------------------

    /** The rest of the last page's LPAs are set to the unmapped mark. */
    method PadLpas(pos: nat, left: int)
      requires Valid() && 0 < left && pos + g.slots <= lpasToCopy.Length
      modifies lpasToCopy
      ensures Valid() && S() == Pad(old(S()), pos, left)
    {
      hide Packed, BlksShape, DiskShape, ChipsShape, L2pShape;
      if left < g.slots {
        var lp := left;
        while lp < g.slots
          invariant left <= lp <= g.slots
          invariant forall i :: 0 <= i < lpasToCopy.Length ==>
                      lpasToCopy[i] == if pos + left <= i < pos + lp then PAGE_UNMAPPED else old(lpasToCopy[i])
        {
          lpasToCopy[pos + lp] := PAGE_UNMAPPED;
          lp := lp + 1;
        }
      }
      assert lpasToCopy[..] == Padded(g, old(lpasToCopy[..]), pos, left);
    }

    /** The body of prog_valid_pgs_to_gc_blks. */
    method ProgNextPage(pos: nat, left: int) returns (ok: bool)
      requires Valid() && Fillable(S()) && ProgRoom(S(), pos, left) && InTable(S(), pos, left) && left > 0
      modifies this`blks, this`chips, this`disk, this`mru, this`ops, mappings, lpasToCopy
      ensures Valid() && ok == CanFillNext(old(S()), pos, left)
      ensures S() == if ok then ProgNext(old(S()), pos, left) else old(S())
    {
      hide Fillable, View, Packed, WholePages, Shape, Padded, Chunk, ProgramPage, Target, Open, InRange, ProgNext,
           InTable;
      ghost var s := S();
      RoomIsRoomy(s, pos, left);
      var c := GetNextBusChip();
      var blk: nat, pg: int;
      ok, blk, pg := AllocNewPage(c);
      if ok {
        NextChunk(s, pos, left);
        PadFillable(s, pos, left);
        ProgNextIs(s, pos, left);
        PadOpens(s, c, pos, left);
        PadLpas(pos, left);
        assert lpasToCopy[pos..pos + g.slots] == Chunk(g, s.lpaBuf, pos, left);
        assert dataToCopy[..] == s.dataBuf;
        FillPage(c, blk, pg, lpasToCopy[pos..pos + g.slots], dataToCopy[pos..pos + g.slots], Pad(s, pos, left));
      }
    }

    /** prog_valid_pgs_to_gc_blks, as long as the LPAs it uses have entries in the mapping array. */
    method ProgValidPgsToGcBlks() returns (ok: bool)
      requires Valid() && Fillable(S()) && ProgRoom(S(), 0, nrPgsToCopy) && InTable(S(), 0, nrPgsToCopy)
      modifies this`blks, this`chips, this`disk, this`mru, this`ops, mappings, lpasToCopy
      ensures Valid() && (S(), ok) == Prog(old(S()), 0, old(nrPgsToCopy))
    {
      hide Shape, Packed, TableOf, Fillable, ProgRoom, ProgNext, InTable, Prog;
      var left: int := nrPgsToCopy;
      var pos: nat := 0;
      ghost var r := Prog(S(), 0, left);
      while left > 0
        invariant Valid() && Fillable(S()) && ProgRoom(S(), pos, left) && InTable(S(), pos, left)
        invariant Prog(S(), pos, left) == r
        decreases left
      {
        ghost var s := S();
        ProgUnroll(s, pos, left);
        var done := ProgNextPage(pos, left);
        if !done {
          return false;
        }
        pos := pos + g.slots;
        left := left - g.slots;
      }
      ProgUnroll(S(), pos, left);
      ok := true;
    }

    /** update_gc_blks */
    method UpdateGcBlks() returns (ok: bool)
      requires Valid()
      modifies this`chips
      ensures Valid() && (S(), ok) == UpdateGc(old(S()), 0, 0)
    {
      hide Packed, BlksShape, DiskShape, L2pShape, Listed, View;
      ghost var r := UpdateGc(S(), 0, 0);
      var bus := 0;
      while bus < g.buses
        invariant 0 <= bus <= g.buses && Valid() && UpdateGc(S(), bus, 0) == r
      {
        var chip := 0;
        while chip < g.chips
          invariant 0 <= chip <= g.chips && Valid() && UpdateGc(S(), bus, chip) == r
        {
          var c := ChipId(bus, chip);
          if chips[c].gc.None? {
            if chips[c].dirt == [] {
              if chips[c].act.None? {
                return false;
              }
            } else {
              RefillGcBlk(c);
            }
          }
          chip := chip + 1;
        }
        bus := bus + 1;
      }
      ok := true;
    }

    /** reset_dirt_blk on the first dirt block, which becomes the GC block. */
    method RefillGcBlk(c: ChipId)
      requires Valid() && ValidChip(g, c) && chips[c].gc.None? && chips[c].dirt != []
      modifies this`chips
      ensures Valid() && S() == RefillGc(old(S()), c)
    {
      RefillShape(S(), c);
      hide Packed, View, BlksShape, DiskShape, L2pShape;
      var ch := chips[c];
      var x := ch.dirt[0];
      RemoveHead(ch.dirt);
      ch := ch.(dirt := Remove(ch.dirt, x), nrDirt := ch.nrDirt - 1);
      chips := chips[c := ch.(gc := Some(x))];
    }

    /** trigger_gc_page_mapping */
    method TriggerGc() returns (ok: bool)
      requires Valid() && Ready(S())
      modifies this`blks, this`chips, this`disk, this`mru, this`nrPgsToCopy, this`ops, mappings, lpasToCopy, dataToCopy
      ensures Valid() && (S(), ok) == Fgc(old(S()))
      ensures Ready(S()) && View(S()) == View(old(S()))
    {
      hide Shape, Packed, TableOf, InvAt, View, BufSize, Prepare, SetVictims, ReadVictims, Prog, UpdateGc, LiveFrom,
           VictimOk, Copied, Collect, Fillable, InTable, ProgRoom;
      ghost var s := S();
      BufIrrelevant(s, s.lpaBuf, s.dataBuf, 0);
      nrPgsToCopy := 0;
      InvShape(S());
      ok := PrepareActBlks();
      if ok {
        ok := SetVicBlks();
      }
      assert (S(), ok) == Chosen(s);
      if !ok {
        return;
      }
      GetValidPgsInVicBlks();
      ReadIsReady(S());
      CopiedInTable(S(), 0, nrPgsToCopy);
      ok := ProgValidPgsToGcBlks();
      assert (S(), ok) == Moved(s);
      if ok {
        ok := UpdateGcBlks();
      }
    }

    // ---- gc_page_mapping.rs: background ------------------------------------------------------------------------

    /** fb_bgc_prepare_act_blks */
    method BgcPrepareActBlks() returns (ok: bool)
      requires Valid() && Inv(S())
      modifies this`blks, this`chips, this`disk, this`mru, this`ops
      ensures Valid() && (S(), ok) == BgcPrepare(old(S()), NumChips(g))
    {
      hide InvAt, StillShows, View, Packed, EraseAndRecycle, BlksShape, DiskShape, L2pShape, Listed;
      ghost var r := BgcPrepare(S(), NumChips(g));
      var i := 0;
      while i < g.buses * g.chips
        invariant 0 <= i <= NumChips(g) && Valid() && Inv(S()) && BgcPrepare(S(), NumChips(g) - i) == r
      {
        var c := GetNextBusChip();
        if chips[c].gc.None? {
          return false;
        }
        RecycleOnTurn(c);
        i := i + 1;
      }
      ok := true;
    }

    /** The body of fb_bgc_prepare_act_blks. */
    method RecycleOnTurn(c: ChipId)
      requires Valid() && Inv(S()) && ValidChip(g, c) && chips[c].gc.Some?
      modifies this`blks, this`chips, this`disk, this`mru, this`ops
      ensures Valid() && Inv(S()) && S() == EraseAndRecycle(old(S()), c)
    {
      hide InvAt, View, Packed, BlksShape, DiskShape, L2pShape, FreeBlock, ErasedImage, Recycle;
      ghost var s0 := S();
      var x := chips[c].gc.value;
      assert x < g.blocks by { assert Listed(g, s0.chips[c]); }
      EraseBlock(BlkId(c, x));
      var ch := RecycledChip(chips[c], x);
      chips := chips[c := ch];
      mru := c;
      assert S() == EraseAndRecycle(s0, c);
      EraseAndRecycleOk(s0, c);
      InvShape(S());
    }

    /** The lists of fb_bgc_prepare_act_blks: the erased block becomes active or free, a dirt block the GC block. */
    static method RecycledChip(ch0: Chip, x: nat) returns (ch: Chip)
      requires ch0.gc == Some(x)
      ensures ch == Recycle(ch0)
    {
      ch := ch0;
      if ch.act.None? {
        ch := ch.(act := Some(x));
      } else {
        ch := ch.(free := ch.free + [x], nrFree := ch.nrFree + 1);
      }
      if ch.dirt != [] {
        var y := ch.dirt[0];
        RemoveHead(ch.dirt);
        ch := ch.(dirt := Remove(ch.dirt, y), nrDirt := ch.nrDirt - 1);
        ch := ch.(gc := Some(y));
      } else {
        ch := ch.(gc := None);
      }
    }

    /** fb_bgc_set_vic_blks */
    method BgcSetVicBlks() returns (ok: bool)
      requires Valid() && Inv(S())
      modifies this`chips
      ensures Valid() && (S(), ok) == BgcSetVictims(old(S()), 0, 0)
    {
      hide InvAt, StillShows, View, Packed, BlksShape, DiskShape, L2pShape, Listed, BgcChoose;
      ghost var r := BgcSetVictims(S(), 0, 0);
      var bus := 0;
      while bus < g.buses
        invariant 0 <= bus <= g.buses && Valid() && Inv(S()) && BgcSetVictims(S(), bus, 0) == r
      {
        var chip := 0;
        while chip < g.chips
          invariant 0 <= chip <= g.chips && Valid() && Inv(S()) && BgcSetVictims(S(), bus, chip) == r
        {
          var found := BgcSetVicBlk(ChipId(bus, chip));
          if !found {
            return false;
          }
          chip := chip + 1;
        }
        bus := bus + 1;
      }
      ok := true;
    }

    /** What fb_bgc_set_vic_blks decides for one chip. */
    method BgcPickVicBlk(c: ChipId) returns (vic: Option<nat>, pg: nat, ok: bool)
      requires Valid() && ValidChip(g, c)
      ensures Pick(vic, pg, ok) == BgcPick(S(), c)
    {
      hide Packed, MostInvalid, FirstValidPg, DiskShape, L2pShape;
      assert Listed(g, chips[c]);
      vic, pg, ok := chips[c].vic, chips[c].firstPg, true;
      if chips[c].nrDirt + chips[c].nrFree < BGC_TH_NR_BLKS {
        if vic.Some? {
          pg := FindFirstValidPg(BlkId(c, vic.value), pg);
          if pg == g.pages {
            vic := None;
          }
        }
        if vic.None? {
          vic := SelectVicBlkFromUsed(c);
          if vic.Some? {
            assert vic.value in chips[c].used;
            pg := FindFirstValidPg(BlkId(c, vic.value), 0);
          } else {
            ok := false;
          }
        }
      } else {
        vic := None;
        pg := 0;
      }
    }

    /** The body of fb_bgc_set_vic_blks for one chip. */
    method BgcSetVicBlk(c: ChipId) returns (ok: bool)
      requires Valid() && Inv(S()) && ValidChip(g, c)
      modifies this`chips
      ensures Valid() && Inv(S()) && (S(), ok) == BgcChoose(old(S()), c)
    {
      hide InvAt, Packed, View, BgcPick, DiskShape, L2pShape;
      ghost var s0 := S();
      BgcChooseInv(s0, c);
      var vic, pg, done := BgcPickVicBlk(c);
      ok := done;
      chips := chips[c := chips[c].(vic := vic, firstPg := pg)];
    }

    /** The body of fb_bgc_read_valid_pgs: the buffer cursors afterwards. */
    method BgcReadTurn(lcur: nat, dcur: nat, ghost left: nat) returns (ok: bool, lcur': nat, dcur': nat)
      requires Valid() && CanRead(S(), left, lcur, dcur) && left > 0
      modifies this`mru, this`nrPgsToCopy, this`ops, lpasToCopy, dataToCopy
      ensures Valid()
      ensures var r := ReadTurn(old(S()), left, lcur, dcur);
              if ok then r == On(S(), lcur', dcur') else r.Stop? && S() == old(S())
    {
      ghost var s0 := S();
      CanReadNext(s0, left, lcur, dcur);
      hide InvAt, View, Packed, Over, LpasOf, DataOf, PageLive, ReadRoom, DiskShape, L2pShape;
      var c := GetNextBusChip();
      ok, lcur', dcur' := true, lcur, dcur;
      if chips[c].vic.Some? {
        var b, pg := BlkId(c, chips[c].vic.value), chips[c].firstPg;
        var nr := g.slots - blks[b].pages[pg].nrInvalidLps;
        if nr == 0 {
          return false, lcur, dcur;
        }
        CountMatchesCopy(s0, c);
        assert CursorLive(s0, c) == PageLive(g, blks, b, pg, 0);
        nrPgsToCopy := nrPgsToCopy + nr;
        var k := CopyPage(b, pg, lcur, dcur);
        lcur', dcur' := lcur + k, dcur + nr;
      }
      mru := c;
    }

    /** fb_bgc_read_valid_pgs */
    method BgcReadValidPgs() returns (ok: bool)
      requires Valid() && CanRead(S(), NumChips(g), 0, 0)
      modifies this`mru, this`nrPgsToCopy, this`ops, lpasToCopy, dataToCopy
      ensures Valid() && (S(), ok) == BgcRead(old(S()), NumChips(g), 0, 0)
    {
      hide Shape, Packed, TableOf, CanRead, ReadTurn, StillShows;
      ghost var r := BgcRead(S(), NumChips(g), 0, 0);
      var i := 0;
      var lcur: nat, dcur: nat := 0, 0;
      while i < g.buses * g.chips
        invariant 0 <= i <= NumChips(g) && Valid()
        invariant CanRead(S(), NumChips(g) - i, lcur, dcur) && BgcRead(S(), NumChips(g) - i, lcur, dcur) == r
      {
        ghost var left := NumChips(g) - i;
        ReadTurnOk(S(), left, lcur, dcur);
        var done, l, d := BgcReadTurn(lcur, dcur, left);
        if !done {
          return false;
        }
        lcur, dcur := l, d;
        i := i + 1;
      }
      ok := true;
    }

    /**
     * trigger_bg_gc. Outside the guard it programs what the copy buffers held before, so that these must then
     * hold LPAs the mapping array has entries for.
     */
    method TriggerBgGc() returns (ok: bool)
      requires Valid() && BgcAllowed(S())
      modifies this`blks, this`chips, this`disk, this`mru, this`nrPgsToCopy, this`ops, mappings, lpasToCopy, dataToCopy
      ensures Valid() && (S(), ok) == Bgc(old(S()))
      ensures old(BgcSafe(S())) ==> Ready(S()) && View(S()) == View(old(S()))
    {
      ghost var s := S();
      BgcCases(s);
      if BgcSafe(s) { SafeShows(s); }
      hide Shape, Packed, TableOf, InvAt, View, BgcPrepare, BgcSetVictims, BgcChosen, BgcCopied, BgcMoved, UpdateGc,
           BgcSafe, InRange, Bgc, StillShows, AllGood, Fillable, ProgRoom, BufSize;
      if chips[mru].act.None? {
        ok := BgcPrepareActBlks();
      } else {
        ok := BgcCopyPages();
      }
    }

    /** trigger_bg_gc with an active block on the chip last written. */
    method BgcCopyPages() returns (ok: bool)
      requires Valid() && BgcAllowed(S()) && chips[mru].act.Some?
      modifies this`blks, this`chips, this`disk, this`mru, this`nrPgsToCopy, this`ops, mappings, lpasToCopy, dataToCopy
      ensures Valid() && (S(), ok) == Bgc(old(S()))
    {
      hide BlksShape, DiskShape, ChipsShape, L2pShape, Packed, TableOf, InvAt, View, BgcSetVictims, BgcChosen,
           BgcCopied, BgcMoved, UpdateGc, BgcSafe, InRange, Bgc, StillShows, AllGood, Fillable, ProgRoom, BufSize,
           BgcRead, Prog, CanRead, NumChips;
      ghost var s := S();
      BgcCases(s);
      nrPgsToCopy := 0;
      StartChoice(s);
      ok := BgcSetVicBlks();
      if ok {
        ok := BgcMovePages(s);
      }
    }

    /** The rest of trigger_bg_gc once victims are chosen. */
    method BgcMovePages(ghost s: State) returns (ok: bool)
      requires Valid() && BgcAllowed(s) && Shape(s) && s.chips[s.mru].act.Some?
      requires BgcChosen(s) == (S(), true)
      modifies this`blks, this`chips, this`disk, this`mru, this`nrPgsToCopy, this`ops, mappings, lpasToCopy, dataToCopy
      ensures Valid() && (S(), ok) == Bgc(s)
    {
      hide Shape, Packed, TableOf, InvAt, View, BufSize, BgcRead, Prog, UpdateGc, BgcChosen, BgcCopied, BgcMoved,
           CanRead, BgcAllowed, InTable, Fillable, ProgRoom, Bgc;
      BgcCases(s);
      StartCopy(s);
      ok := BgcReadValidPgs();
      if nrPgsToCopy == 0 {
        return;
      }
      ok := ProgValidPgsToGcBlks();
      MovedIs(s);
      if ok {
        ok := UpdateGcBlks();
      }
    }

    // ---- ftl_algorithm_page_mapping.c --------------------------------------------------------------------------

    /** is_fgc_needed: both loops look at the chip they were given, whatever their indices. */
    method IsFgcNeeded(c: ChipId) returns (needed: bool)
      requires Valid() && ValidChip(g, c)
      ensures needed == FgcNeeded(chips[c])
    {
      hide Packed, BlksShape, DiskShape, L2pShape;
      var chip := c.chip;
      while chip < g.chips
        invariant c.chip <= chip <= g.chips && (chip > c.chip ==> !FgcNeeded(chips[c]))
      {
        var bus := c.bus;
        while bus < g.buses
          invariant c.bus <= bus <= g.buses && (bus > c.bus || chip > c.chip ==> !FgcNeeded(chips[c]))
        {
          if chips[c].gc.None? && chips[c].free == [] {
            return true;
          }
          bus := bus + 1;
        }
        chip := chip + 1;
      }
      needed := false;
    }

    /** The last part of make_write_request_page_mapping: allocate on the chip whose turn it is, and write. */
    method WriteOnNext(lpas: seq<nat>, data: seq<Data>) returns (ok: bool)
      requires Valid() && Ready(S()) && LpasOk(g, lpas) && |data| == g.slots
      modifies this`blks, this`chips, this`disk, this`mru, this`ops, mappings
      ensures Valid() && (S(), ok) == WriteNext(old(S()), lpas, data)
      ensures ok == CanAlloc(old(S()), NextOf(old(S())))
    {
      hide InvAt, View, Packed, BufSize, ProgramPage, LpasOk, Written, Target, Open, DiskShape, L2pShape, Fillable,
           InRange;
      ghost var s := S();
      InvFillable(s);
      LpasInRange(g, lpas);
      var c := GetNextBusChip();
      var blk: nat, pg: int;
      ok, blk, pg := AllocNewPage(c);
      if ok {
        FillPage(c, blk, pg, lpas, data, s);
      }
    }

    /** make_write_request_page_mapping */
    method MakeWriteRequest(lpas: seq<nat>, data: seq<Data>) returns (ok: bool)
      requires Valid() && Ready(S()) && LpasOk(g, lpas) && |data| == g.slots
      modifies this`blks, this`chips, this`disk, this`mru, this`nrPgsToCopy, this`ops, mappings, lpasToCopy, dataToCopy
      ensures Valid() && (S(), ok) == MakeWrite(old(S()), lpas, data)
      ensures Ready(S()) && View(S()) == if ok then Written(old(View(S())), lpas, data, 0) else old(View(S()))
    {
      hide InvAt, View, Packed, BufSize, LpasOk, Written, WriteNext, Fgc, BlksShape, DiskShape, L2pShape;
      ghost var s := S();
      var c := GetNextBusChip();
      var needed := IsFgcNeeded(c);
      if needed {
        ok := TriggerGc();
        if !ok {
          return;
        }
      }
      ghost var s1 := S();
      ok := WriteOnNext(lpas, data);
      if !ok {
        WriteNextFails(s1, lpas, data);
        ok := TriggerGc();
        if ok {
          ok := WriteOnNext(lpas, data);
        }
      }
    }

    /** _fb_del_invalidate_pgs on the first n entries of a list. */
    method DelInvalidatePgs(n: nat, lpas: seq<nat>)
      requires Valid() && n <= |lpas| && forall i :: 0 <= i < n ==> lpas[i] < g.entries
      modifies this`blks, this`chips, mappings
      ensures Valid() && S() == InvalidateAll(old(S()), lpas[..n])
    {
      hide Packed, Shape, Invalidate;
      var i := 0;
      assert lpas[..n][0..] == lpas[..n];
      while i < n
        invariant 0 <= i <= n && Valid()
        invariant InvalidateAll(S(), lpas[..n][i..]) == InvalidateAll(old(S()), lpas[..n])
      {
        assert lpas[..n][i..][0] == lpas[i] && lpas[..n][i..][1..] == lpas[..n][i + 1..];
        var _ := InvalidateLpg(lpas[i]);
        i := i + 1;
      }
    }

    /**
     * get_mapped_physical_address and the read of make_read_request_page_mapping: the data comes at once, and
     * a read that carries the bio is queued on the chip.
     */
    method MakeReadRequest(lpa: nat, bio: nat) returns (r: Option<Data>)
      requires Valid()
      modifies this`ops
      ensures r == if lpa in S().l2p then Some(DataAt(g, disk, S().l2p[lpa])) else None
      ensures ops == old(ops) + if lpa in S().l2p then [(S().l2p[lpa].b.c, Operation(OP_READ, Some(bio)))] else []
    {
      if lpa >= g.entries || mappings[lpa] == PAGE_UNMAPPED {
        return None;
      }
      var a := Unpack(g, mappings[lpa]);
      assert a == S().l2p[lpa];
      var bits := new bool[g.slots](i => i == a.lp);
      var page := new Data[1](i => ERASED);
      OneMarked(a.b, a.pg, bits[..], a.lp, 0);
      VdeviceRead(a.b, a.pg, bits, page, 0, Some(bio));
      assert page[..] == DataOf(g, disk, [a]);
      r := Some(page[0]);
    }
  }

  lemma NextIsListed(s: State, c: ChipId)
    requires Shape(s) && ValidChip(s.g, c)
    ensures c in s.chips && Listed(s.g, s.chips[c])
  {
  }

  lemma TargetIs(s: State, c: ChipId)
    requires Fillable(s) && ValidChip(s.g, c) && CanAlloc(s, c)
    ensures Open(s, c).chips[c].act.Some? && BlkId(c, Open(s, c).chips[c].act.value) in s.blks
    ensures var d := BlkId(c, Open(s, c).chips[c].act.value); Target(s, c) == (d, s.g.pages - s.blks[d].nrFreePgs)
  {
    OpenFillable(s, c);
  }

  /** One iteration of the program loop. */
  lemma ProgUnroll(s: State, pos: nat, left: int)
    requires Fillable(s) && ProgRoom(s, pos, left) && InTable(s, pos, left)
    ensures left <= 0 ==> Prog(s, pos, left) == (s, true)
    ensures left > 0 && !CanFillNext(s, pos, left) ==> Prog(s, pos, left) == (s, false)
    ensures left > 0 && CanFillNext(s, pos, left) ==>
              var r := ProgNext(s, pos, left);
              && Fillable(r) && ProgRoom(r, pos + s.g.slots, left - s.g.slots)
              && InTable(r, pos + s.g.slots, left - s.g.slots)
              && Prog(s, pos, left) == Prog(r, pos + s.g.slots, left - s.g.slots)
  {
    hide BlksShape, DiskShape, ChipsShape, L2pShape, NamedBelow, Takes, ProgNext, View, InRange;
    RoomIsRoomy(s, pos, left);
    if left > 0 && CanFillNext(s, pos, left) { ProgAfter(s, pos, left); }
  }

  lemma NextChunk(s: State, pos: nat, left: int)
    requires CanFillNext(s, pos, left) && ProgRoom(s, pos, left) && InTable(s, pos, left)
    ensures InRange(s.g, Chunk(s.g, s.lpaBuf, pos, left))
  {
    hide BlksShape, DiskShape, ChipsShape, L2pShape, NamedBelow, Takes, ProgNext, View, InRange;
    RoomIsRoomy(s, pos, left);
  }

  lemma ProgNextIs(s: State, pos: nat, left: int)
    requires CanFillNext(s, pos, left)
    requires CanFill(Pad(s, pos, left), NextChip(s.g, s.mru), Chunk(s.g, s.lpaBuf, pos, left),
                     s.dataBuf[pos..pos + s.g.slots])
    ensures ProgNext(s, pos, left)
            == ProgramPage(Pad(s, pos, left), NextChip(s.g, s.mru), Chunk(s.g, s.lpaBuf, pos, left),
                           s.dataBuf[pos..pos + s.g.slots])
  {
    hide Fillable, Shape, View, ProgramPage, NextChip, Chunk, Padded, CanFill, CanAlloc;
  }

  lemma ReadIsReady(s: State)
    requires Ready(s) && Copied(s, 0, s.nrCopy)
    ensures ReadyToProg(s, 0, s.nrCopy) && Fillable(s) && ProgRoom(s, 0, s.nrCopy)
  {
    hide InvAt, BufSize, View, Fillable;
    InvShape(s);
    BufWhole(s);
    InvFillable(s);
  }

  lemma StartChoice(s: State)
    requires Ready(s)
    ensures Inv(s.(nrCopy := 0)) && Shape(s.(nrCopy := 0)) && BgcSetVictims(s.(nrCopy := 0), 0, 0) == BgcChosen(s)
  {
    hide InvAt, BufSize, View, AllGood, BgcSetVictims;
    BufIrrelevant(s, s.lpaBuf, s.dataBuf, 0);
    InvShape(s.(nrCopy := 0));
  }

  /** The read pass of background GC can start, succeeds, and leaves what can be programmed. */
  lemma StartCopy(s: State)
    requires BgcAllowed(s) && Shape(s) && s.chips[s.mru].act.Some? && BgcChosen(s).1
    ensures var v := BgcChosen(s).0;
            CanRead(v, NumChips(v.g), 0, 0) && BgcRead(v, NumChips(v.g), 0, 0) == (BgcCopied(s), true)
    ensures var r := BgcCopied(s); Fillable(r) && ProgRoom(r, 0, r.nrCopy) && InTable(r, 0, r.nrCopy)
  {
    BgcInTable(s);
    StartReading(BgcChosen(s).0);
    BgcReadExact(BgcChosen(s).0, NumChips(s.g), 0, 0);
    hide InvAt, Shape, BufSize, View, AllGood, CanRead, BgcChosen, BgcRead, InTable, ProgRoom, Fillable, BgcSafe,
         InRange;
  }

  /** What a reader may rely on under the guard. */
  lemma SafeShows(s: State)
    requires Ready(s) && BgcSafe(s)
    ensures Shape(s) && Ready(Bgc(s).0) && Shape(Bgc(s).0) && View(Bgc(s).0) == View(s)
  {
    hide InvAt, View, BufSize, Bgc, BgcSafe;
    InvShape(s);
    BgcKeeps(s);
    InvShape(Bgc(s).0);
  }

  lemma MovedIs(s: State)
    requires Ready(s) && BgcChosen(s).1
    ensures Shape(BgcMoved(s).0) && Prog(BgcCopied(s), 0, BgcCopied(s).nrCopy) == BgcMoved(s)
  {
    hide InvAt, BlksShape, DiskShape, ChipsShape, L2pShape, BufSize, View, BgcChosen, BgcCopied, Prog, Fillable,
         ProgRoom;
    MovedShape(s);
  }

  /** Padding the buffer and opening a block do not get in each other's way. */
  lemma PadOpens(s: State, c: ChipId, pos: nat, left: int)
    requires CanFillNext(s, pos, left) && c == NextChip(s.g, s.mru)
    ensures var s1 := Pad(s, pos, left);
            && Fillable(s1) && ValidChip(s.g, c) && CanAlloc(s1, c)
            && Open(s1, c) == Pad(Open(s, c), pos, left) && Target(s1, c) == Target(s, c)
            && s1.lpaBuf[pos..pos + s.g.slots] == Chunk(s.g, s.lpaBuf, pos, left)
  {
    PadFillable(s, pos, left);
    hide BlksShape, DiskShape, L2pShape, NamedBelow, Takes, View;
  }

  /** When there is no page on the chip whose turn it is, nothing happens. */
  lemma WriteNextFails(s: State, lpas: seq<nat>, data: seq<Data>)
    requires Ready(s) && LpasOk(s.g, lpas) && |data| == s.g.slots
    requires Shape(s) && !CanAlloc(s, NextOf(s))
    ensures WriteNext(s, lpas, data) == (s, false)
  {
    hide InvAt, View, BufSize, LpasOk, ProgramPage, Written;
  }

  lemma {:induction false} OneMarked(b: BlkId, pg: nat, bits: seq<bool>, k: nat, lp: nat)
    requires lp <= |bits| && k < |bits| && forall i :: 0 <= i < |bits| ==> (bits[i] <==> i == k)
    ensures Marked(b, pg, bits, lp) == if lp <= k then [Addr(b, pg, k)] else []
    decreases |bits| - lp
  {
    if lp < |bits| { OneMarked(b, pg, bits, k, lp + 1); }
  }

  lemma StartReadSoFar(s: State)
    requires Ready(s)
    ensures ReadSoFar(s, [], 0, 0, 0) && |Collect(s, 0, 0, 0)| == |LiveFrom(s, 0, 0)| && CopyOut(s, []) == s
  {
    hide BlksOk, Biject, ChipsOk, View, Collect, LiveFrom, BufSize;
    ReadVictimsOk(s);
    assert [] + Collect(s, 0, 0, 0) == Collect(s, 0, 0, 0);
    assert CopyOut(s, []).lpaBuf == s.lpaBuf && CopyOut(s, []).dataBuf == s.dataBuf;
  }

  lemma WholePass(s: State, done: seq<Addr>)
    requires ReadSoFar(s, done, s.g.pages, 0, 0)
    ensures done == Collect(s, 0, 0, 0)
  {
    assert done + [] == done;
  }

  lemma LpasInRange(g: Geo, lpas: seq<nat>)
    requires LpasOk(g, lpas)
    ensures |lpas| == g.slots && InRange(g, lpas)
  {
  }

  /** Once the page is mapped its block is still the active one. */
  lemma ProgrammedActive(s: State, c: ChipId, lpas: seq<nat>, data: seq<Data>)
    requires CanFill(s, c, lpas, data)
    ensures var r := Mapped(s, c, lpas, data).(mru := c);
            Shape(r) && ValidChip(s.g, c) && r.chips[c].act.Some? && Shape(UpdateActBlk(r, c))
  {
    MappedFrame(s, c, lpas, data);
    FillOk(s, c, lpas, data);
    hide Mapped, UpdateActBlk, BlksShape, DiskShape, ChipsShape, L2pShape, NamedBelow, Takes, View, Placed;
  }
}
