/**
 * The FTL side of requests (ftl_algorithm_page_mapping.c): the initial state, a page write with
 * foreground GC on demand, and invalidation of a list of LPAs.
 */
module Requests {
  import opened Common
  import opened Geometry
  import opened Blocks
  import opened FtlState
  import opened Mapping
  import opened Filling
  import opened Program
  import opened Copying
  import opened Gc

  // ---- the initial state ---------------------------------------------------------------------------------------

  /** create_gc_mngr: the head of the free list becomes the GC block. */
  function TakeGc(ch: Chip): Chip
    requires ch.free != []
  {
    ch.(free := ch.free[1..], nrFree := ch.nrFree - 1, gc := Some(ch.free[0]))
  }

  /** A chip after create_ssd_info. */
  function AllFree(g: Geo): Chip { Chip(Upto(g.blocks), [], [], g.blocks, 0, 0, None, None, None, 0) }

  /** A chip after create_ssd_info, create_act_blk_mngr and create_gc_mngr. */
  function InitChip(g: Geo): Chip
    requires g.blocks >= 2
  {
    TakeGc(TakeFree(AllFree(g)))
  }

  ghost function ChipSet(g: Geo): (r: set<ChipId>)
    ensures forall c :: c in r <==> ValidChip(g, c)
  {
    var r := set q | q in Grid(g.buses, g.chips) :: ChipId(q.0, q.1);
    assert forall c: ChipId :: ValidChip(g, c) ==>
        (c.bus, c.chip) in Grid(g.buses, g.chips) && c == ChipId((c.bus, c.chip).0, (c.bus, c.chip).1);
    r
  }

  ghost function BlkSet(g: Geo): (r: set<BlkId>)
    ensures forall b :: b in r <==> ValidBlk(g, b)
  {
    set c, no | c in ChipSet(g) && no in Below(g.blocks) :: BlkId(c, no)
  }

  /** Everything free, nothing mapped, one active and one GC block on every chip. */
  ghost function InitState(g: Geo, disk: map<BlkId, seq<seq<Data>>>, lpaBuf: seq<nat>, dataBuf: seq<Data>): State
    requires g.blocks >= 2 && g.buses > 0 && g.chips > 0
  {
    State(g, map[], map b | b in BlkSet(g) :: FreeBlock(g, 0), map c | c in ChipSet(g) :: InitChip(g),
          disk, ChipId(g.buses - 1, g.chips - 1), lpaBuf, dataBuf, 0)
  }

  lemma AllFreeOk(g: Geo, c: ChipId, blks: map<BlkId, Block>)
    requires ValidChip(g, c) && BlksShape(g, blks) && forall b :: ValidBlk(g, b) ==> Fresh(g, blks[b])
    ensures Listed(g, AllFree(g)) && Partition(g, AllFree(g)) && Roles(g, c, AllFree(g), blks, None)
  {
    UptoBag(g.blocks);
  }

  lemma TakeGcOk(g: Geo, c: ChipId, ch: Chip, blks: map<BlkId, Block>)
    requires ValidChip(g, c) && Listed(g, ch) && BlksShape(g, blks) && ch.free != [] && ch.gc.None?
    requires forall b :: ValidBlk(g, b) ==> NothingLive(blks[b])
    requires Partition(g, ch) && Roles(g, c, ch, blks, None)
    ensures Listed(g, TakeGc(ch)) && Partition(g, TakeGc(ch)) && Roles(g, c, TakeGc(ch), blks, None)
  {
    hide Below;
    HeadAndTail(ch.free);
    assert Owners(TakeGc(ch)) == Owners(ch);
  }

  lemma InitChipOk(g: Geo, c: ChipId, blks: map<BlkId, Block>)
    requires Sane(g) && g.blocks >= 2 && ValidChip(g, c) && BlksShape(g, blks)
    requires forall b :: ValidBlk(g, b) ==> Fresh(g, blks[b]) && NothingLive(blks[b])
    ensures Listed(g, InitChip(g)) && Partition(g, InitChip(g)) && Roles(g, c, InitChip(g), blks, None)
  {
    hide Listed, Partition, Roles, Fresh, NothingLive;
    AllFreeOk(g, c, blks);
    TakeFreeOk(g, c, AllFree(g), blks);
    TakeGcOk(g, c, TakeFree(AllFree(g)), blks);
  }

  lemma InitChips(g: Geo, chips: map<ChipId, Chip>, blks: map<BlkId, Block>)
    requires Sane(g) && g.blocks >= 2 && BlksShape(g, blks)
    requires forall b :: ValidBlk(g, b) ==> Fresh(g, blks[b]) && NothingLive(blks[b])
    requires chips == map c | c in ChipSet(g) :: InitChip(g)
    ensures ChipsShape(g, chips) && ChipsOk(g, chips, blks, None)
  {
    hide Listed, Partition, Roles, InitChip, ChipSet;
    forall c | ValidChip(g, c)
      ensures c in chips && Listed(g, chips[c]) && Partition(g, chips[c]) && Roles(g, c, chips[c], blks, None)
    {
      InitChipOk(g, c, blks);
    }
  }

  /** The initial state satisfies the invariant and shows an empty flash. */
  lemma InitOk(g: Geo, disk: map<BlkId, seq<seq<Data>>>, lpaBuf: seq<nat>, dataBuf: seq<Data>)
    requires Sane(g) && g.blocks >= 2 && DiskShape(g, disk)
    requires |lpaBuf| == BufSize(g) && |dataBuf| >= BufSize(g)
    ensures Ready(InitState(g, disk, lpaBuf, dataBuf)) && View(InitState(g, disk, lpaBuf, dataBuf)) == map[]
  {
    hide BufSize, InitChip, ChipsOk, BlksOk, FreeBlock, Biject, BlksShape, ChipsShape, DiskShape, ChipSet, BlkSet;
    var s := InitState(g, disk, lpaBuf, dataBuf);
    InitBlks(g, s.blks);
    InitChips(g, s.chips, s.blks);
    NothingMapped(g, s.blks);
  }

  lemma NothingMapped(g: Geo, blks: map<BlkId, Block>)
    requires BlksShape(g, blks) && forall a :: ValidAddr(g, a) ==> StatusAt(g, blks, a) == Free
    ensures Biject(g, map[], blks) && L2pShape(g, map[])
  {
  }

  lemma InitBlks(g: Geo, blks: map<BlkId, Block>)
    requires Sane(g)
    requires blks == map b | b in BlkSet(g) :: FreeBlock(g, 0)
    ensures BlksShape(g, blks) && BlksOk(g, blks, None, 0)
    ensures forall b :: ValidBlk(g, b) ==> Fresh(g, blks[b]) && NothingLive(blks[b])
    ensures forall a :: ValidAddr(g, a) ==> StatusAt(g, blks, a) == Free
  {
    FreeBlockOk(g, 0);
    hide BlockAt, BlkSet;
  }

  // ---- make_write_request_page_mapping -------------------------------------------------------------------------

  /** is_fgc_needed: its loops look at the one chip it is given, whatever their indices. */
  predicate FgcNeeded(ch: Chip) { ch.gc.None? && ch.free == [] }

  /** The write itself, on the chip whose turn it is. */
  ghost function WriteNext(s: State, lpas: seq<nat>, data: seq<Data>): (r: (State, bool))
    requires Ready(s) && LpasOk(s.g, lpas) && |data| == s.g.slots
    ensures Ready(r.0) && r.0.g == s.g
    ensures View(r.0) == if r.1 then Written(View(s), lpas, data, 0) else View(s)
  {
    hide BlksOk, Biject, ChipsOk, ViewOf, BufSize, ProgramPage, LpasOk, Written, WentTo, Sealed, Fillable;
    NextIsValid(s);
    InvFillable(s);
    if CanAlloc(s, NextChip(s.g, s.mru)) then
      ProgramPageOk(s, NextChip(s.g, s.mru), lpas, data);
      (ProgramPage(s, NextChip(s.g, s.mru), lpas, data), true)
    else (s, false)
  }

  /** The write after an allocation failed: foreground GC, then one more attempt. */
  ghost function CollectAndWrite(s: State, lpas: seq<nat>, data: seq<Data>): (r: (State, bool))
    requires Ready(s) && LpasOk(s.g, lpas) && |data| == s.g.slots
    ensures Ready(r.0) && r.0.g == s.g
    ensures View(r.0) == if r.1 then Written(View(s), lpas, data, 0) else View(s)
  {
    hide BlksOk, Biject, ChipsOk, View, BufSize, Fgc, LpasOk, Written;
    if !Fgc(s).1 then Fgc(s) else WriteNext(Fgc(s).0, lpas, data)
  }

  /** make_write_request_page_mapping: the state afterwards, and whether it returned 0. */
  ghost function MakeWrite(s: State, lpas: seq<nat>, data: seq<Data>): (r: (State, bool))
    requires Ready(s) && LpasOk(s.g, lpas) && |data| == s.g.slots
    ensures Ready(r.0) && r.0.g == s.g
    ensures View(r.0) == if r.1 then Written(View(s), lpas, data, 0) else View(s)
  {
    hide BlksOk, Biject, ChipsOk, View, BufSize, Fgc, LpasOk, Written, WriteNext, CollectAndWrite;
    NextIsValid(s);
    var c := NextChip(s.g, s.mru);
    if FgcNeeded(s.chips[c]) && !Fgc(s).1 then Fgc(s)
    else
      var s1 := if FgcNeeded(s.chips[c]) then Fgc(s).0 else s;
      if CanAlloc(s1, NextOf(s1)) then WriteNext(s1, lpas, data) else CollectAndWrite(s1, lpas, data)
  }

  function NextOf(s: State): (c: ChipId)
    requires Shape(s)
    ensures ValidChip(s.g, c) && c in s.chips
  {
    NextIsValid(s);
    NextChip(s.g, s.mru)
  }

  // ---- _fb_del_invalidate_pgs ----------------------------------------------------------------------------------

  /** Invalidating the LPAs of a list, one after the other. */
  function InvalidateAll(s: State, lpas: seq<nat>): (r: State)
    requires Shape(s)
    ensures Shape(r) && r.g == s.g
    decreases |lpas|
  {
    if lpas == [] then s else InvalidateAll(Invalidate(s, lpas[0]), lpas[1..])
  }

  lemma InvalidateNone(s: State)
    requires Shape(s)
    ensures InvalidateAll(s, []) == s
  {
  }

  lemma InvalidateView(s: State, lpa: nat)
    requires Ready(s)
    ensures Ready(Invalidate(s, lpa)) && View(Invalidate(s, lpa)) == View(s) - {lpa}
    ensures Invalidate(s, lpa).l2p == s.l2p - {lpa}
  {
    hide BlksOk, Biject, ChipsOk, BufSize, Invalidate, SameWritePoints, OnlyInvalidated, SameOpen;
    InvalidateOk(s, None, 0, lpa);
  }

  /** Exactly the listed LPAs disappear from the flash. */
  lemma {:induction false} InvalidateAllOk(s: State, lpas: seq<nat>)
    requires Ready(s)
    ensures Ready(InvalidateAll(s, lpas)) && View(InvalidateAll(s, lpas)) == View(s) - SeqSet(lpas)
    decreases |lpas|
  {
    hide BlksOk, Biject, ChipsOk, BufSize, Invalidate, ViewOf;
    if lpas == [] {
      assert SeqSet(lpas) == {};
      assert View(s) - {} == View(s);
    } else {
      InvalidateView(s, lpas[0]);
      InvalidateAllOk(Invalidate(s, lpas[0]), lpas[1..]);
      SeqSetCons(lpas);
      assert View(s) - SeqSet(lpas) == View(s) - {lpas[0]} - SeqSet(lpas[1..]);
    }
  }

  lemma SeqSetCons<T>(l: seq<T>)
    requires l != []
    ensures SeqSet(l) == {l[0]} + SeqSet(l[1..])
  {
    forall x ensures x in SeqSet(l) <==> x == l[0] || x in SeqSet(l[1..]) {
      if x in SeqSet(l) {
        var i :| 0 <= i < |l| && l[i] == x;
        if i > 0 { assert l[1..][i - 1] == x; }
      }
      if x in SeqSet(l[1..]) {
        var i :| 0 <= i < |l[1..]| && l[1..][i] == x;
        assert l[i + 1] == x;
      }
    }
  }
}
