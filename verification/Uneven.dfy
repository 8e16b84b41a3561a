/**
 * What happens when the mapping table is not ample: a device whose chips share a table larger than one
 * of them fails a write, however much of the flash is free of live data. The pages that get on one chip
 * are never written again, so that there is nothing to collect on it when the chips run out of pages.
 */
module Uneven {
  import opened Common
  import opened Geometry
  import opened Blocks
  import opened FtlState
  import opened Mapping
  import opened Filling
  import opened Copying
  import opened Counts
  import opened Gc
  import opened GcSuccess
  import opened Requests
  import opened WriteBuffer
  import opened Device
  import opened Interleaving
  import opened Overlap
  import opened Capacity
  import opened Space
  import opened WriteSuccess
  import opened Supply

  // ---- a chip without invalid slots ----------------------------------------------------------------------------

  /** Nothing on the chip can be collected. */
  ghost predicate Clean(s: FtlState.State, x: ChipId)
    requires Shape(s) && ValidChip(s.g, x)
  {
    s.chips[x].dirt == [] && forall y: nat :: y < s.g.blocks ==> s.blks[BlkId(x, y)].nrInvalidLps == 0
  }

  /** None of the LPAs is mapped on the chip. */
  ghost predicate Off(s: FtlState.State, x: ChipId, q: set<nat>) {
    forall l :: l in q && l in s.l2p ==> s.l2p[l].b.c != x
  }

  lemma InvalidateClean(s: FtlState.State, lpa: nat, x: ChipId)
    requires Shape(s) && ValidChip(s.g, x) && Clean(s, x) && Off(s, x, {lpa})
    ensures Clean(Invalidate(s, lpa), x)
  {
    hide DiskShape, Listed;
  }

  lemma MapSlotClean(s: FtlState.State, lpa: nat, a: Addr, x: ChipId)
    requires Shape(s) && ValidChip(s.g, x) && Clean(s, x) && Off(s, x, {lpa}) && lpa != PAGE_UNMAPPED
    requires ValidAddr(s.g, a)
    ensures Clean(MapSlot(s, lpa, a), x)
  {
    InvalidateClean(s, lpa, x);
    hide DiskShape, L2pShape, Listed, Invalidate;
  }

  /** Distinct LPAs, none of them padding and none mapped on the chip. */
  ghost predicate Harmless(s: FtlState.State, x: ChipId, lpas: seq<nat>) {
    NoDup(lpas) && PAGE_UNMAPPED !in lpas && Off(s, x, SeqSet(lpas))
  }

  lemma {:induction false} MapPageClean(s: FtlState.State, lpas: seq<nat>, d: BlkId, pg: nat, ofs: nat, x: ChipId)
    requires Shape(s) && ValidBlk(s.g, d) && pg < s.g.pages && |lpas| == s.g.slots && ofs <= s.g.slots
    requires ValidChip(s.g, x) && Clean(s, x) && Harmless(s, x, lpas[ofs..])
    ensures Clean(MapPage(s, lpas, d, pg, ofs), x)
    decreases s.g.slots - ofs
  {
    hide Shape, Clean, MapSlot;
    if ofs < s.g.slots {
      var l, a := lpas[ofs..], Addr(d, pg, ofs);
      assert l[0] == lpas[ofs] && l[1..] == lpas[ofs + 1..] && lpas[ofs] in SeqSet(l);
      MapSlotClean(s, lpas[ofs], a, x);
      MapSlotFrame(s, lpas[ofs], a);
      forall y | y in SeqSet(l[1..]) ensures y in SeqSet(l) && y != l[0] {
        var i :| 0 <= i < |l[1..]| && l[1..][i] == y;
        assert l[i + 1] == y;
      }
      assert PAGE_UNMAPPED !in l[1..];
      MapPageClean(MapSlot(s, lpas[ofs], a), lpas, d, pg, ofs + 1, x);
    }
  }

  /** What is mapped on the chip was mapped there, or has been written. */
  ghost predicate OnlyNew(s: FtlState.State, r: FtlState.State, x: ChipId, q: set<nat>) {
    forall l :: l in r.l2p && r.l2p[l].b.c == x ==> l in q || (l in s.l2p && s.l2p[l].b.c == x)
  }

  lemma {:induction false} PlacedNew(l2p: map<nat, Addr>, lpas: seq<nat>, d: BlkId, pg: nat, ofs: nat, y: nat)
    requires ofs <= |lpas| && y !in lpas
    ensures y in Placed(l2p, lpas, d, pg, ofs) <==> y in l2p
    ensures y in l2p ==> Placed(l2p, lpas, d, pg, ofs)[y] == l2p[y]
    decreases |lpas| - ofs
  {
    if ofs < |lpas| {
      PlacedNew(if lpas[ofs] != PAGE_UNMAPPED then l2p[lpas[ofs] := Addr(d, pg, ofs)] else l2p, lpas, d, pg, ofs + 1,
                y);
    }
  }

  /** The other entries of the table are as before. */
  ghost predicate SameElse(s: FtlState.State, r: FtlState.State, lpas: seq<nat>) {
    forall y: nat :: y !in lpas ==> (y in r.l2p <==> y in s.l2p) && (y in s.l2p ==> r.l2p[y] == s.l2p[y])
  }

  lemma OpenClean(s: FtlState.State, c: ChipId, data: seq<Data>, x: ChipId)
    requires Fillable(s) && Shape(s) && ValidChip(s.g, c) && CanAlloc(s, c) && |data| == s.g.slots
    requires ValidChip(s.g, x) && Clean(s, x)
    ensures Clean(Loaded(s, c, data), x)
  {
    OpenFillable(s, c);
    hide BlksShape, DiskShape, L2pShape, NamedBelow, Takes;
  }

  lemma CloseClean(m: FtlState.State, c: ChipId, x: ChipId)
    requires Shape(m) && ValidChip(m.g, c) && ValidChip(m.g, x) && m.chips[c].act.Some? && Clean(m, x)
    requires Shape(m.(mru := c)) && Shape(UpdateActBlk(m.(mru := c), c))
    ensures UpdateActBlk(m.(mru := c), c).g == m.g && Clean(UpdateActBlk(m.(mru := c), c), x)
    ensures UpdateActBlk(m.(mru := c), c).l2p == m.l2p
  {
    hide BlksShape, DiskShape, L2pShape, Listed;
  }

  lemma HarmlessStill(s: FtlState.State, l: FtlState.State, x: ChipId, lpas: seq<nat>)
    requires Harmless(s, x, lpas) && l.l2p == s.l2p
    ensures Harmless(l, x, lpas)
  {
  }

  lemma MappedClean(s: FtlState.State, c: ChipId, lpas: seq<nat>, data: seq<Data>, x: ChipId)
    requires CanFill(s, c, lpas, data) && Shape(s) && ValidChip(s.g, x) && Clean(s, x) && Harmless(s, x, lpas)
    ensures Clean(Mapped(s, c, lpas, data), x)
  {
    hide Shape, NamedBelow, Takes, Loaded, Target, Clean, Harmless, MapPage;
    OpenClean(s, c, data, x);
    HarmlessStill(s, Loaded(s, c, data), x, lpas);
    assert lpas[0..] == lpas;
    MapPageClean(Loaded(s, c, data), lpas, Target(s, c).0, Target(s, c).1, 0, x);
  }

  /** Programming a page of LPAs mapped elsewhere or nowhere leaves the chip clean. */
  lemma ProgramClean(s: FtlState.State, c: ChipId, lpas: seq<nat>, data: seq<Data>, x: ChipId)
    requires CanFill(s, c, lpas, data) && Shape(s) && ValidChip(s.g, x) && Clean(s, x) && Harmless(s, x, lpas)
    ensures var r := ProgramPage(s, c, lpas, data);
            Shape(r) && r.g == s.g && Clean(r, x) && SameElse(s, r, lpas)
  {
    hide Mapped, BlksShape, DiskShape, ChipsShape, L2pShape, NamedBelow, Takes, Placed, Loaded, Target, Clean, Listed,
         Written, View, Harmless, UpdateActBlk, MapPage;
    var m, d, pg := Mapped(s, c, lpas, data), Target(s, c).0, Target(s, c).1;
    FillOk(s, c, lpas, data);
    MappedFrame(s, c, lpas, data);
    MappedClean(s, c, lpas, data, x);
    CloseClean(m, c, x);
    forall y: nat | y !in lpas
      ensures (y in m.l2p <==> y in s.l2p) && (y in s.l2p ==> m.l2p[y] == s.l2p[y]) {
      PlacedNew(s.l2p, lpas, d, pg, 0, y);
    }
  }

  // ---- page writes ---------------------------------------------------------------------------------------------

  /** The chip is clean, and n pages are left, spread evenly. */
  ghost predicate Doomed(s: FtlState.State, x: ChipId, n: nat) {
    Ready(s) && Shape(s) && ValidChip(s.g, x) && AllGc(s) && Balanced(s, n) && Clean(s, x)
  }

  lemma DoomedShape(s: FtlState.State, x: ChipId, n: nat)
    requires Doomed(s, x, n)
    ensures Ready(s) && Shape(s) && ValidChip(s.g, x)
  {
    hide InvAt, Shape, AllGc, Balanced, Clean, BufSize;
  }

  lemma CleanHasNone(s: FtlState.State, x: ChipId)
    requires Shape(s) && ValidChip(s.g, x) && Clean(s, x)
    ensures s.chips[x].dirt == [] && !HasDead(s, x)
  {
    hide DiskShape, L2pShape;
  }

  /** A page write of LPAs mapped elsewhere succeeds if and only if a page is left, whatever foreground GC does. */
  lemma DoomedWrite(s: FtlState.State, lpas: seq<nat>, data: seq<Data>, x: ChipId, n: nat)
    requires Doomed(s, x, n) && LpasOk(s.g, lpas) && |data| == s.g.slots && Harmless(s, x, lpas)
    ensures var r := MakeWrite(s, lpas, data);
            && (r.1 <==> n > 0)
            && (n > 0 ==> Doomed(r.0, x, n - 1) && r.0.g == s.g && SameElse(s, r.0, lpas))
  {
    hide InvAt, Shape, View, BufSize, MakeWrite, ProgramPage, Written, LpasOk, CanFill, AllGc, Balanced, Stuck, Starved,
         Harmless, HasDead, LeftAfter, SameElse, Clean;
    if n > 0 {
      WriteWithRoom(s, lpas, data, n);
      NotStarved(s, n);
      WriteDirect(s, lpas, data);
      NextOfIs(s);
      ProgramClean(s, NextOf(s), lpas, data, x);
    } else {
      CleanHasNone(s, x);
      WriteWhenSpent(s, lpas, data);
    }
  }

  lemma DropDoomed(s: FtlState.State, lpa: nat, x: ChipId, n: nat)
    requires Doomed(s, x, n) && Off(s, x, {lpa})
    ensures Doomed(Invalidate(s, lpa), x, n) && Invalidate(s, lpa).l2p == s.l2p - {lpa} && Invalidate(s, lpa).g == s.g
  {
    hide InvAt, Shape, View, BufSize, AllGc, KeepsStock, Clean, Invalidate, Avail;
    var r := Invalidate(s, lpa);
    ShapeSane(s);
    InvalidateView(s, lpa);
    InvShape(r);
    InvalidateFrame(s, lpa, BlkId(x, 0));
    SlotStock(s, lpa, Addr(BlkId(x, 0), 0, 0));
    GcKept(s, r);
    InvalidateClean(s, lpa, x);
    DropAvail(s, lpa, x);
    forall c | ValidChip(s.g, c) ensures Avail(r, c) == Avail(s, c) { DropAvail(s, lpa, c); }
  }

  lemma {:induction false} DropAllDoomed(s: FtlState.State, lpas: seq<nat>, x: ChipId, n: nat)
    requires Doomed(s, x, n) && Off(s, x, SeqSet(lpas))
    ensures var r := InvalidateAll(s, lpas); Doomed(r, x, n) && OnlyNew(s, r, x, {}) && r.g == s.g
    decreases |lpas|
  {
    DoomedShape(s, x, n);
    hide Doomed, Invalidate, Shape;
    if lpas != [] {
      assert lpas[0] in SeqSet(lpas);
      DropDoomed(s, lpas[0], x, n);
      forall y | y in SeqSet(lpas[1..]) ensures y in SeqSet(lpas) {
        var i :| 0 <= i < |lpas[1..]| && lpas[1..][i] == y;
        assert lpas[i + 1] == y;
      }
      DropAllDoomed(Invalidate(s, lpas[0]), lpas[1..], x, n);
    }
  }

  // ---- a flush -------------------------------------------------------------------------------------------------

  /** The LPAs of a page handed to the FTL are buffered ones. */
  lemma FirstHarmless(d: Dev, x: ChipId)
    requires DevInv(d) && |d.w.buf| >= d.s.g.slots && Off(d.s, x, d.w.hash.Keys)
    ensures var l := FirstLpas(d.w, d.s.g.slots);
            LpasOk(d.s.g, l) && Harmless(d.s, x, l) && forall y :: y in l ==> y in d.w.hash.Keys
  {
    FlushLpasOk(d);
    FirstPagesOk(d.w, d.s.g.slots);
    RealLpas(d);
    hide Ready, Lists, WriteBuffer.Index, FirstLpas, Contents;
    var l := FirstLpas(d.w, d.s.g.slots);
    forall y | y in SeqSet(l) ensures y in d.w.hash.Keys { var i :| 0 <= i < |l| && l[i] == y; }
  }

  /** A round of the flush succeeds if and only if a page is left. */
  lemma DoomedRound(d: Dev, x: ChipId, n: nat)
    requires DevInv(d) && !d.err && |d.w.buf| >= d.s.g.slots && Doomed(d.s, x, n) && Off(d.s, x, d.w.hash.Keys)
    ensures var r := FlushOnce(d);
            && (r.1 <==> n > 0)
            && (n > 0 ==> Doomed(r.0.s, x, n - 1) && r.0.w.hash.Keys <= d.w.hash.Keys
                          && Off(r.0.s, x, r.0.w.hash.Keys) && OnlyNew(d.s, r.0.s, x, d.w.hash.Keys))
  {
    hide Ready, Shape, Lists, WriteBuffer.Index, LpasOk, MakeWrite, View, Contents, Doomed, Harmless, FirstLpas,
         StartWriting, RmWritten;
    var l := FirstLpas(d.w, d.s.g.slots);
    ReadySane(d.s);
    FirstHarmless(d, x);
    DoomedWrite(d.s, l, FirstData(d.w, d.s.g.slots), x, n);
    if n > 0 { RoundKeys(d); }
  }

  /** The LPAs that stay in the buffer are those not handed out. */
  lemma RoundKeys(d: Dev)
    requires DevInv(d) && !d.err && |d.w.buf| >= d.s.g.slots && FlushOnce(d).1
    ensures forall y :: y in FlushOnce(d).0.w.hash <==> y in d.w.hash && y !in FirstLpas(d.w, d.s.g.slots)
  {
    SomeFlushed(d);
    var w2 := RmWritten(StartWriting(d.w, d.s.g.slots));
    ContentsKeys(d.w);
    ContentsKeys(w2);
    ReadySane(d.s);
    FlushLpasOk(d);
    hide Ready, Shape, Lists, WriteBuffer.Index, LpasOk, MakeWrite, View, Contents, FirstLpas, StartWriting, RmWritten;
    var l := FirstLpas(d.w, d.s.g.slots);
    assert w2.hash.Keys == d.w.hash.Keys - SeqSet(l);
    forall y ensures y in SeqSet(l) <==> y in l { }
  }

  /** So a flush of k pages succeeds if and only if k are left. */
  lemma {:induction false} DoomedFlush(d: Dev, x: ChipId, n: nat, k: nat)
    requires DevInv(d) && !d.err && |d.w.buf| == k * d.s.g.slots && Doomed(d.s, x, n) && Off(d.s, x, d.w.hash.Keys)
    ensures Flush(d).1 <==> n >= k
    ensures n >= k ==> Doomed(Flush(d).0.s, x, n - k) && OnlyNew(d.s, Flush(d).0.s, x, d.w.hash.Keys)
    decreases k
  {
    hide Ready, Shape, Lists, WriteBuffer.Index, View, Contents, FlushOnce, Doomed;
    ReadySane(d.s);
    if k > 0 {
      Distribute(k - 1, d.s.g.slots);
      DoomedRound(d, x, n);
      if n > 0 {
        FlushOnceErr(d);
        DoomedFlush(FlushOnce(d).0, x, n - 1, k - 1);
      }
    }
  }

  // ---- a request -----------------------------------------------------------------------------------------------

  /** The buffer is full, k flash pages of it, and holds nothing that is mapped on the chip. */
  ghost predicate Poised(d: Dev, x: ChipId, n: nat, k: nat) {
    && DevInv(d) && !d.err && d.w.free == [] && |d.w.nodes| == k * d.s.g.slots && k > 0
    && Doomed(d.s, x, n) && Off(d.s, x, d.w.hash.Keys)
  }

  /** A write of a new page into a full buffer flushes it first. */
  lemma FlushesFirst(d: Dev, lpas: seq<nat>, data: seq<Data>)
    requires DevInv(d) && !d.err && Writable(d.s.g, lpas, data) && lpas != [] && lpas[0] !in d.w.hash && d.w.free == []
    ensures DevInv(Flush(d).0) && Flush(d).0.s.g == d.s.g && (!Flush(d).1 ==> Flush(d).0.err)
    ensures PutAll(d, lpas, data, 0) == if Flush(d).1 then PutAll(Flush(d).0, lpas, data, 0) else Flush(d).0
  {
    hide Ready, Lists, WriteBuffer.Index, Seen, Flush, WithPage, Contents, Put;
    PutOk(d.w, lpas[0], data[0]);
    RetrySucceeds(d, lpas[0], data[0]);
  }

  /** The pages of a write can be buffered anew: they are distinct, neither buffered nor mapped on the chip. */
  ghost predicate Anew(d: Dev, x: ChipId, lpas: seq<nat>, data: seq<Data>) {
    && Writable(d.s.g, lpas, data) && NoDup(lpas) && |lpas| == |d.w.nodes|
    && Off(d.s, x, SeqSet(lpas)) && forall l :: l in lpas ==> l !in d.w.hash
  }

  lemma FlushedPoised(d: Dev, x: ChipId, n: nat, k: nat, lpas: seq<nat>, data: seq<Data>)
    requires Poised(d, x, n, k) && Anew(d, x, lpas, data)
    ensures Flush(d).1 <==> n >= k
    ensures n >= k ==> var r := PutAll(Flush(d).0, lpas, data, 0); Poised(r, x, n - k, k) && |r.w.nodes| == |d.w.nodes|
  {
    hide Ready, Shape, Lists, WriteBuffer.Index, View, Contents, Flush, Doomed, PutAll;
    ReadySane(d.s);
    FullBuffer(d);
    WholeProduct(k, d.s.g.slots);
    DoomedFlush(d, x, n, k);
    if n >= k {
      var f := Flush(d).0;
      FlushKeys(d);
      PutAllFits(f, lpas, data, 0);
      assert lpas[0..] == lpas;
      SetOf(lpas);
    }
  }

  lemma SetOf(l: seq<nat>)
    ensures forall y :: y in SeqSet(l) <==> y in l
  {
  }

  lemma DroppedPoised(d: Dev, x: ChipId, n: nat, k: nat, lpas: seq<nat>, data: seq<Data>)
    requires Poised(d, x, n, k) && Anew(d, x, lpas, data)
    ensures Shape(d.s)
    ensures var d1 := d.(s := InvalidateAll(d.s, lpas));
            Poised(d1, x, n, k) && Anew(d1, x, lpas, data) && d1.s.g == d.s.g
  {
    hide Ready, Shape, Lists, WriteBuffer.Index, View, Contents, Flush, Doomed, PutAll;
    DoomedShape(d.s, x, n);
    InvalidatedSeen(d, lpas);
    DropAllDoomed(d.s, lpas, x, n);
  }

  /** Such a write fails if and only if fewer than k pages are left, and otherwise it leaves k pages less. */
  lemma DoomedRequest(d: Dev, x: ChipId, n: nat, k: nat, lpas: seq<nat>, data: seq<Data>)
    requires Poised(d, x, n, k) && Anew(d, x, lpas, data)
    ensures var r := WriteReq(d, lpas, data);
            (r.err <==> n < k) && (n >= k ==> Poised(r, x, n - k, k) && |r.w.nodes| == |d.w.nodes|)
  {
    DroppedPoised(d, x, n, k, lpas, data);
    var d1 := d.(s := InvalidateAll(d.s, lpas));
    FlushedPoised(d1, x, n, k, lpas, data);
    hide Ready, Shape, Lists, WriteBuffer.Index, View, Contents, Flush, Doomed, PutAll, InvalidateAll, Off, NoDup;
    Positive(d, k);
    FlushesFirst(d1, lpas, data);
  }

  lemma Positive(d: Dev, k: nat)
    requires DevOk(d) && |d.w.nodes| == k * d.s.g.slots && k > 0
    ensures |d.w.nodes| > 0
  {
    ReadySane(d.s);
    hide Ready, Lists, WriteBuffer.Index;
    Distribute(k - 1, d.s.g.slots);
  }

  // ---- enough pages to choose from -----------------------------------------------------------------------------

  ghost function OnChip(s: FtlState.State, x: ChipId): set<nat> { set l | l in s.l2p && s.l2p[l].b.c == x }

  lemma {:induction false} FewIn(s: FtlState.State, x: ChipId, l: seq<nat>)
    requires Inv(s) && Shape(s) && ValidChip(s.g, x) && NoDup(l) && forall i :: 0 <= i < |l| ==> l[i] < s.g.blocks
    ensures |MappedIn(s, x, l)| <= |l| * BlockRoom(s.g)
    decreases |l|
  {
    hide InvAt, Shape, MappedIn, BlockRoom;
    if l == [] {
      assert MappedIn(s, x, l) == {};
    } else {
      SplitIn(s, x, l);
      BlockIn(s, x, l[0]);
      BlockFits(s, BlkId(x, l[0]));
      FewIn(s, x, l[1..]);
      OneMore(|l| - 1, BlockRoom(s.g));
    }
  }

  /** The blocks of a chip but for one. */
  lemma OtherBlocks(n: nat, no: nat) returns (l: seq<nat>)
    requires no < n
    ensures |l| == n - 1 && NoDup(l) && (forall i :: 0 <= i < |l| ==> l[i] < n)
    ensures forall y: nat :: y in l <==> y < n && y != no
  {
    l := Upto(n)[..no] + Upto(n)[no + 1..];
    forall y: nat ensures y in l <==> y < n && y != no {
      if y < no { assert l[y] == y; }
      if no < y < n { assert l[y - 1] == y; }
    }
  }

  lemma OneToOne(s: FtlState.State)
    requires Inv(s)
    ensures forall y, z :: y in s.l2p && z in s.l2p && y != z ==> s.l2p[y] != s.l2p[z]
  {
    hide BlksOk, ChipsOk;
  }

  /** The part of the table that names the chip. */
  ghost function ChipTable(s: FtlState.State, x: ChipId): (m: map<nat, Addr>)
    ensures m.Keys == OnChip(s, x)
  {
    map l | l in OnChip(s, x) :: s.l2p[l]
  }

  lemma ChipTableOk(s: FtlState.State, x: ChipId, a: Addr)
    ensures a in ChipTable(s, x).Values <==> a in s.l2p.Values && a.b.c == x
  {
    if a in s.l2p.Values && a.b.c == x {
      var l :| l in s.l2p && s.l2p[l] == a;
      assert l in ChipTable(s, x) && ChipTable(s, x)[l] == a;
    }
  }

  lemma MappedOn(s: FtlState.State, x: ChipId)
    requires Inv(s)
    ensures |ChipTable(s, x).Values| == |OnChip(s, x)|
  {
    OneToOne(s);
    hide InvAt;
    InjectiveCard(ChipTable(s, x));
  }

  /** What is mapped on a chip is in the blocks other than its GC block. */
  lemma OnChipFew(s: FtlState.State, x: ChipId)
    requires Inv(s) && Shape(s) && ValidChip(s.g, x) && s.chips[x].gc.Some?
    ensures |OnChip(s, x)| <= (s.g.blocks - 1) * BlockRoom(s.g)
  {
    GcEmpty(s, x);
    hide InvAt, BlksShape, DiskShape, L2pShape, Listed, BlockRoom, OnChip, MappedIn;
    FewElsewhere(s, x, s.chips[x].gc.value);
  }

  lemma FewElsewhere(s: FtlState.State, x: ChipId, no: nat)
    requires Inv(s) && Shape(s) && ValidChip(s.g, x) && no < s.g.blocks && MappedIn(s, x, [no]) == {}
    ensures |OnChip(s, x)| <= (s.g.blocks - 1) * BlockRoom(s.g)
  {
    hide InvAt, Shape, BlockRoom, OnChip, MappedIn, ChipTable;
    var l := OtherBlocks(s.g.blocks, no);
    FewIn(s, x, l);
    SameSlots(s, x, l, no);
    MappedOn(s, x);
  }

  lemma SameSlots(s: FtlState.State, x: ChipId, l: seq<nat>, no: nat)
    requires Shape(s) && MappedIn(s, x, [no]) == {} && (forall y: nat :: y in l <==> y < s.g.blocks && y != no)
    ensures ChipTable(s, x).Values == MappedIn(s, x, l)
  {
    hide BlksShape, DiskShape, ChipsShape, ChipTable;
    forall a ensures a in ChipTable(s, x).Values <==> a in MappedIn(s, x, l) {
      ChipTableOk(s, x, a);
      assert a in s.l2p.Values && a.b.c == x && a.b.no in [no] <==> a in MappedIn(s, x, [no]);
      assert a in s.l2p.Values ==> a.b.no < s.g.blocks;
    }
  }

  lemma GcEmpty(s: FtlState.State, x: ChipId)
    requires Inv(s) && Shape(s) && ValidChip(s.g, x) && s.chips[x].gc.Some?
    ensures s.chips[x].gc.value < s.g.blocks && MappedIn(s, x, [s.chips[x].gc.value]) == {}
  {
    hide BlksOk, Biject, Partition, BlksShape, DiskShape, L2pShape, MappedIn;
    assert Listed(s.g, s.chips[x]) && Roles(s.g, x, s.chips[x], s.blks, None);
    BlockIn(s, x, s.chips[x].gc.value);
  }

  /** Distinct numbers below n that avoid a set. */
  lemma {:induction false} Choose(n: nat, avoid: set<nat>, count: nat) returns (l: seq<nat>)
    requires |avoid| + count <= n
    ensures |l| == count && NoDup(l) && forall y :: y in l ==> y < n && y !in avoid
    decreases count
  {
    l := [];
    if count > 0 {
      BelowCard(n);
      if forall y :: y in Below(n) ==> y in avoid { SubsetCard(Below(n), avoid); }
      var y :| y in Below(n) && y !in avoid;
      assert |avoid + {y}| == |avoid| + 1;
      var r := Choose(n, avoid + {y}, count - 1);
      assert forall i :: 0 <= i < |r| ==> r[i] in r;
      l := [y] + r;
    }
  }

  // ---- a run that fails ----------------------------------------------------------------------------------------

  /** A write request: its LPAs and their data. */
  datatype Req = Req(lpas: seq<nat>, data: seq<Data>)

  ghost predicate AllWritable(g: Geo, reqs: seq<Req>) {
    forall i :: 0 <= i < |reqs| ==> Writable(g, reqs[i].lpas, reqs[i].data)
  }

  /** The device after the requests, one after the other. */
  ghost function Writes(d: Dev, reqs: seq<Req>): (r: Dev)
    requires DevInv(d) && AllWritable(d.s.g, reqs)
    ensures DevInv(r)
    decreases |reqs|
  {
    hide DevInv, WriteReq, Writable;
    if reqs == [] then d else Writes(WriteReq(d, reqs[0].lpas, reqs[0].data), reqs[1..])
  }

  lemma WritesMore(d: Dev, q: Req, reqs: seq<Req>)
    requires DevInv(d) && Writable(d.s.g, q.lpas, q.data) && AllWritable(d.s.g, reqs)
    ensures AllWritable(d.s.g, [q] + reqs)
    ensures Writes(d, [q] + reqs) == Writes(WriteReq(d, q.lpas, q.data), reqs)
  {
    hide DevInv, WriteReq, Writable;
    assert ([q] + reqs)[1..] == reqs;
  }

  /** The table is larger than a chip without its GC block, by what the buffer holds twice. */
  predicate Crowded(g: Geo, nodes: nat) { g.blocks >= 2 && (g.blocks - 1) * BlockRoom(g) + 2 * nodes <= g.entries }

  /** Pages for the next request: distinct, not buffered, and not mapped on the chip. */
  lemma NextPages(d: Dev, x: ChipId, n: nat, k: nat, v: Data) returns (q: Req)
    requires Poised(d, x, n, k) && Crowded(d.s.g, |d.w.nodes|)
    ensures Anew(d, x, q.lpas, q.data)
  {
    hide Ready, Shape, WbInv, Doomed, OnChip, BlockRoom;
    FewAvoided(d, x, n);
    var lpas := Choose(d.s.g.entries, OnChip(d.s, x) + d.w.hash.Keys, |d.w.nodes|);
    q := Req(lpas, Same1(v, |lpas|));
    OffChip(d.s, x, lpas);
    assert forall i :: 0 <= i < |lpas| ==> lpas[i] in lpas;
  }

  lemma OffChip(s: FtlState.State, x: ChipId, lpas: seq<nat>)
    requires forall y :: y in lpas ==> y !in OnChip(s, x)
    ensures Off(s, x, SeqSet(lpas))
  {
    SetOf(lpas);
  }

  lemma FewAvoided(d: Dev, x: ChipId, n: nat)
    requires DevInv(d) && Doomed(d.s, x, n)
    ensures d.s.g.blocks >= 1 ==>
              |OnChip(d.s, x) + d.w.hash.Keys| <= (d.s.g.blocks - 1) * BlockRoom(d.s.g) + |d.w.nodes|
  {
    hide Ready, WbInv, Doomed, OnChip, BlockRoom;
    DoomedFew(d.s, x, n);
    BufferedKeys(d.w);
    UnionCard(OnChip(d.s, x), d.w.hash.Keys);
  }

  lemma DoomedFew(s: FtlState.State, x: ChipId, n: nat)
    requires Doomed(s, x, n)
    ensures s.g.blocks >= 1 ==> |OnChip(s, x)| <= (s.g.blocks - 1) * BlockRoom(s.g)
  {
    DoomedGc(s, x, n);
    hide InvAt, Shape, Doomed, OnChip, BlockRoom;
    OnChipFew(s, x);
  }

  lemma UnionCard(a: set<nat>, b: set<nat>)
    ensures |a + b| <= |a| + |b|
  {
    assert a + b == a + (b - a) && |b - a| <= |b| by { SubsetCard(b - a, b); }
  }

  lemma DoomedGc(s: FtlState.State, x: ChipId, n: nat)
    requires Doomed(s, x, n)
    ensures Inv(s) && Shape(s) && ValidChip(s.g, x) && s.chips[x].gc.Some?
  {
    hide InvAt, BlksShape, DiskShape, L2pShape, Listed, Balanced, Clean, BufSize;
  }

  lemma BufferedKeys(w: Wb)
    requires WbInv(w)
    ensures |w.hash.Keys| <= |w.nodes|
  {
    BufferedFits(w);
  }

  lemma PoisedOk(d: Dev, x: ChipId, n: nat, k: nat)
    requires Poised(d, x, n, k)
    ensures DevInv(d) && k > 0
  {
    hide Ready, WbInv, Doomed;
  }

  lemma AnewSize(d: Dev, x: ChipId, lpas: seq<nat>, data: seq<Data>)
    requires Anew(d, x, lpas, data)
    ensures Writable(d.s.g, lpas, data) && |lpas| == |d.w.nodes|
  {
  }

  /** Write requests of m pages each, one of which fails. */
  ghost predicate Failing(d: Dev, m: nat, reqs: seq<Req>)
    requires DevInv(d)
  {
    && AllWritable(d.s.g, reqs) && (forall i :: 0 <= i < |reqs| ==> |reqs[i].lpas| == m) && Writes(d, reqs).err
  }

  lemma FailedNow(d: Dev, m: nat)
    requires DevInv(d) && d.err
    ensures Failing(d, m, [])
  {
    hide DevInv;
  }

  lemma FailingMore(d: Dev, m: nat, q: Req, reqs: seq<Req>)
    requires DevInv(d) && Writable(d.s.g, q.lpas, q.data) && |q.lpas| == m
    requires Failing(WriteReq(d, q.lpas, q.data), m, reqs)
    ensures Failing(d, m, [q] + reqs)
  {
    hide DevInv, WriteReq, Writable, Writes;
    WritesMore(d, q, reqs);
  }

  /** One more request of such pages. */
  lemma DryStep(d: Dev, x: ChipId, n: nat, k: nat, v: Data) returns (q: Req)
    requires Poised(d, x, n, k) && Crowded(d.s.g, |d.w.nodes|)
    ensures DevInv(d) && k > 0 && Writable(d.s.g, q.lpas, q.data) && |q.lpas| == |d.w.nodes|
    ensures var r := WriteReq(d, q.lpas, q.data);
            if n < k then r.err else Poised(r, x, n - k, k) && r.s.g == d.s.g && |r.w.nodes| == |d.w.nodes|
  {
    PoisedOk(d, x, n, k);
    hide DevInv, Poised, Anew, Crowded, WriteReq, Writable;
    q := NextPages(d, x, n, k, v);
    AnewSize(d, x, q.lpas, q.data);
    DoomedRequest(d, x, n, k, q.lpas, q.data);
  }

  /** From there on writes of such pages succeed until the chips are out of pages; then one fails. */
  lemma {:induction false} RunsDry(d: Dev, x: ChipId, n: nat, k: nat, v: Data) returns (reqs: seq<Req>)
    requires Poised(d, x, n, k) && Crowded(d.s.g, |d.w.nodes|)
    ensures DevInv(d) && Failing(d, |d.w.nodes|, reqs)
    decreases n
  {
    hide DevInv, Poised, Crowded, WriteReq, Writable, Failing;
    var q := DryStep(d, x, n, k, v);
    if n < k {
      FailedNow(WriteReq(d, q.lpas, q.data), |d.w.nodes|);
      reqs := [];
    } else {
      reqs := RunsDry(WriteReq(d, q.lpas, q.data), x, n - k, k, v);
    }
    FailingMore(d, |d.w.nodes|, q, reqs);
    reqs := [q] + reqs;
  }

  // ---- from a new device on ------------------------------------------------------------------------------------

  lemma InitClean(g: Geo, disk: map<BlkId, seq<seq<Data>>>, lpaBuf: seq<nat>, dataBuf: seq<Data>, x: ChipId)
    requires Sane(g) && g.blocks >= 2 && ValidChip(g, x) && Shape(InitState(g, disk, lpaBuf, dataBuf))
    ensures var s := InitState(g, disk, lpaBuf, dataBuf); s.g == g && Clean(s, x)
  {
    var s := InitState(g, disk, lpaBuf, dataBuf);
    hide DiskShape, L2pShape, Listed, ChipSet, FreePage;
    assert s.chips[x] == InitChip(g);
    forall y: nat | y < g.blocks ensures s.blks[BlkId(x, y)] == FreeBlock(g, 0) { assert BlkId(x, y) in BlkSet(g); }
  }

  lemma FillsBuffer(d: Dev, x: ChipId, n: nat, k: nat, lpas: seq<nat>, data: seq<Data>)
    requires DevInv(d) && !d.err && Doomed(d.s, x, n) && d.w.hash == map[] && d.s.l2p == map[] && k > 0
    requires |d.w.free| == |d.w.nodes| == k * d.s.g.slots
    requires Writable(d.s.g, lpas, data) && NoDup(lpas) && |lpas| == |d.w.nodes|
    ensures var r := WriteReq(d, lpas, data); Poised(r, x, n, k) && |r.w.nodes| == |d.w.nodes|
  {
    hide Ready, Lists, WriteBuffer.Index, WriteReq, Doomed;
    FirstWrite(d, lpas, data);
  }

  /** The first request fills the buffer of a new device. */
  lemma FirstPoised(g: Geo, disk: map<BlkId, seq<seq<Data>>>, lpaBuf: seq<nat>, dataBuf: seq<Data>, k: nat, x: ChipId,
                    v: Data) returns (n: nat, q: Req)
    requires Sane(g) && g.blocks >= 2 && DiskShape(g, disk) && k > 0 && ValidChip(g, x) && k * g.slots >= g.slots
    requires |lpaBuf| == BufSize(g) && |dataBuf| >= BufSize(g)
    requires k * g.slots <= g.entries
    ensures Writable(g, q.lpas, q.data) && |q.lpas| == k * g.slots
    ensures var d := InitDev(g, disk, lpaBuf, dataBuf, k * g.slots);
            && DevInv(d) && !d.err && d.s.g == g
            && var r := WriteReq(d, q.lpas, q.data); Poised(r, x, n, k) && r.s.g == g && |r.w.nodes| == k * g.slots
  {
    hide Ready, Lists, WriteBuffer.Index, WriteReq, InitState, InitWb, Balanced, AllGc, Clean, Plenty, Shape, BufSize,
         Sane;
    var d := InitDev(g, disk, lpaBuf, dataBuf, k * g.slots);
    NewDevice(g, disk, lpaBuf, dataBuf, k * g.slots);
    InitSteady(g, disk, lpaBuf, dataBuf);
    InitClean(g, disk, lpaBuf, dataBuf, x);
    n :| Balanced(d.s, n);
    PagesApart(0, k * g.slots);
    q := Req(Pages(0, k * g.slots), Same1(v, k * g.slots));
    FillsBuffer(d, x, n, k, q.lpas, q.data);
  }

  lemma FailedRefuses(d: Dev, m: nat, reqs: seq<Req>)
    requires DevInv(d) && Failing(d, m, reqs)
    ensures Refuses(Writes(d, reqs))
  {
    hide DevInv, Writes, Writable, Refuses;
    ErrRefuses(Writes(d, reqs));
  }

  lemma FailsAfter(d: Dev, m: nat, q: Req, x: ChipId, n: nat, k: nat, v: Data) returns (reqs: seq<Req>)
    requires DevInv(d) && Writable(d.s.g, q.lpas, q.data) && |q.lpas| == m && Crowded(d.s.g, m)
    requires var r := WriteReq(d, q.lpas, q.data); Poised(r, x, n, k) && |r.w.nodes| == m
    ensures Failing(d, m, reqs) && Refuses(Writes(d, reqs))
  {
    hide DevInv, WriteReq, Writes, Poised, Crowded, Failing, Writable, Refuses;
    reqs := RunsDry(WriteReq(d, q.lpas, q.data), x, n, k, v);
    FailingMore(d, m, q, reqs);
    reqs := [q] + reqs;
    FailedRefuses(d, m, reqs);
  }

  /**
   * A device whose table is larger than one of its chips fails a write sooner or later: there are write requests, each
   * no larger than the buffer, that lead a new device to the error state, in which nothing more is served.
   */
  lemma CrowdedFails(g: Geo, disk: map<BlkId, seq<seq<Data>>>, lpaBuf: seq<nat>, dataBuf: seq<Data>, k: nat, v: Data)
    returns (reqs: seq<Req>)
    requires Sane(g) && DiskShape(g, disk) && |lpaBuf| == BufSize(g) && |dataBuf| >= BufSize(g)
    requires k > 0 && Crowded(g, k * g.slots)
    ensures var d := InitDev(g, disk, lpaBuf, dataBuf, k * g.slots);
            DevInv(d) && !d.err && d.s.g == g && Failing(d, k * g.slots, reqs) && Refuses(Writes(d, reqs))
  {
    hide InitDev, DevInv, WriteReq, BufSize, Writes, Poised, BlockRoom, Failing, Shape, DiskShape, Writable, Refuses;
    Distribute(k - 1, g.slots);
    var d := InitDev(g, disk, lpaBuf, dataBuf, k * g.slots);
    var n, q := FirstPoised(g, disk, lpaBuf, dataBuf, k, ChipId(0, 0), v);
    reqs := FailsAfter(d, k * g.slots, q, ChipId(0, 0), n, k, v);
  }

  /**
   * The repository's device is of this kind, although its table has a tenth fewer entries than its flash has slots.
   */
  lemma FlashbenchFails(disk: map<BlkId, seq<seq<Data>>>, lpaBuf: seq<nat>, dataBuf: seq<Data>, v: Data)
    returns (reqs: seq<Req>)
    requires DiskShape(FLASHBENCH, disk) && |lpaBuf| == BufSize(FLASHBENCH) && |dataBuf| >= BufSize(FLASHBENCH)
    ensures 10 * FLASHBENCH.entries <= 9 * FlashRoom(FLASHBENCH)
    ensures var d := InitDev(FLASHBENCH, disk, lpaBuf, dataBuf, NUM_PAGES_IN_WRITE_BUFFER);
            && DevInv(d) && !d.err && d.s.g == FLASHBENCH && Failing(d, NUM_PAGES_IN_WRITE_BUFFER, reqs)
            && Refuses(Writes(d, reqs))
  {
    hide Refuses, Writes, Failing, InitDev, DevInv;
    reqs := CrowdedFails(FLASHBENCH, disk, lpaBuf, dataBuf, 2, v);
  }
}
