/**
 * When is a page both buffered and on the flash between requests? A write drops its pages from the
 * flash first, so one would think never. But a page the buffer already held can be flushed by the same
 * write, before its turn, and then be buffered anew. This module says exactly when that happens.
 */
module Overlap {
  import opened Common
  import opened Geometry
  import opened FtlState
  import opened Mapping
  import opened Filling
  import opened Program
  import opened Copying
  import opened Gc
  import opened Requests
  import opened WriteBuffer
  import opened Device
  import opened Interleaving

  /** No page is both buffered and mapped. */
  ghost predicate Apart(d: Dev) { d.w.hash.Keys !! d.s.l2p.Keys }

  // ---- the request in terms of key sets ------------------------------------------------------------------------

  /** The buffered and the mapped LPAs after pages i.. of a write, when every flush empties a buffer of `cap` pages. */
  ghost function Keys(buf: set<nat>, flash: set<nat>, room: nat, cap: nat, lpas: seq<nat>, i: nat): (set<nat>, set<nat>)
    requires i <= |lpas| && cap > 0
    decreases |lpas| - i
  {
    if i == |lpas| then (buf, flash)
    else if lpas[i] in buf then Keys(buf, flash, room, cap, lpas, i + 1)
    else if room == 0 then Keys({lpas[i]}, flash + buf, cap - 1, cap, lpas, i + 1)
    else Keys(buf + {lpas[i]}, flash, room - 1, cap, lpas, i + 1)
  }

  /** The number of the last page of the write that overflows the buffer, `last` if none from i on does. */
  ghost function LastOverflow(buf: set<nat>, room: nat, cap: nat, lpas: seq<nat>, i: nat, last: nat): nat
    requires i <= |lpas| && cap > 0
    decreases |lpas| - i
  {
    if i == |lpas| then last
    else if lpas[i] in buf then LastOverflow(buf, room, cap, lpas, i + 1, last)
    else if room == 0 then LastOverflow({lpas[i]}, cap - 1, cap, lpas, i + 1, i)
    else LastOverflow(buf + {lpas[i]}, room - 1, cap, lpas, i + 1, last)
  }

  /** After an overflow at page p: the buffer holds pages p..i, so what clashes in the end was on the flash then. */
  lemma {:induction false} AfterOverflow(buf: set<nat>, flash: set<nat>, room: nat, cap: nat, lpas: seq<nat>, i: nat,
                                         p: nat)
    requires p <= i <= |lpas| && cap > 0 && NoDup(lpas) && buf == SeqSet(lpas[p..i])
    ensures var (b, f) := Keys(buf, flash, room, cap, lpas, i);
            var q := LastOverflow(buf, room, cap, lpas, i, p);
            && p <= q <= |lpas|
            && (b !! f <==> forall j :: q <= j < |lpas| ==> lpas[j] !in flash)
    decreases |lpas| - i
  {
    if i == |lpas| {
      assert forall j :: p <= j < i ==> lpas[p..i][j - p] == lpas[j];
    } else {
      assert lpas[p..i + 1] == lpas[p..i] + [lpas[i]];
      SeqSetSnoc(lpas[p..i], lpas[i]);
      assert lpas[i] !in buf;
      if room == 0 {
        assert lpas[i..i + 1] == [lpas[i]];
        AfterOverflow({lpas[i]}, flash + buf, cap - 1, cap, lpas, i + 1, i);
      } else {
        AfterOverflow(buf + {lpas[i]}, flash, room - 1, cap, lpas, i + 1, p);
      }
    }
  }

  lemma SeqSetSnoc(l: seq<nat>, x: nat)
    ensures SeqSet(l + [x]) == SeqSet(l) + {x}
  {
    forall y ensures y in SeqSet(l + [x]) <==> y in SeqSet(l) + {x} {
      assert y in SeqSet(l + [x]) <==> y in l + [x];
      assert y in SeqSet(l) <==> y in l;
    }
  }

  /** Up to the first overflow nothing clashes; then what clashes in the end was buffered at the start. */
  lemma {:induction false} UntilOverflow(start: set<nat>, flash: set<nat>, room: nat, cap: nat, lpas: seq<nat>, i: nat)
    requires i <= |lpas| && cap > 0 && NoDup(lpas)
    requires start !! flash && forall j :: 0 <= j < |lpas| ==> lpas[j] !in flash
    ensures var buf := start + SeqSet(lpas[..i]);
            var (b, f) := Keys(buf, flash, room, cap, lpas, i);
            var q := LastOverflow(buf, room, cap, lpas, i, |lpas|);
            b !! f <==> forall j :: q <= j < |lpas| ==> lpas[j] !in start
    decreases |lpas| - i
  {
    var buf := start + SeqSet(lpas[..i]);
    assert forall x :: x in SeqSet(lpas[..i]) ==> exists j :: 0 <= j < i && lpas[j] == x;
    if i < |lpas| {
      assert lpas[..i + 1] == lpas[..i] + [lpas[i]];
      SeqSetSnoc(lpas[..i], lpas[i]);
      if lpas[i] in buf || room > 0 {
        assert buf + {lpas[i]} == start + SeqSet(lpas[..i + 1]);
        assert lpas[i] in buf ==> buf + {lpas[i]} == buf;
        UntilOverflow(start, flash, if lpas[i] in buf then room else room - 1, cap, lpas, i + 1);
      } else {
        assert lpas[i..i + 1] == [lpas[i]];
        AfterOverflow({lpas[i]}, flash + buf, cap - 1, cap, lpas, i + 1, i);
        assert forall j :: i <= j < |lpas| ==> (lpas[j] in flash + buf <==> lpas[j] in start);
      }
    }
  }

  // ---- the device does just that -------------------------------------------------------------------------------

  /** A successful flush of whole pages leaves an empty buffer and everything it held on the flash. */
  lemma FlushKeys(d: Dev)
    requires DevInv(d) && !d.err && Flush(d).1 && WholePages(|d.w.buf|, d.s.g.slots)
    ensures var r := Flush(d).0;
            r.w.hash.Keys == {} && |r.w.free| == |d.w.nodes| && r.s.l2p.Keys == d.s.l2p.Keys + d.w.hash.Keys
  {
    FlushWhole(d);
    hide Flush, Ready, Lists, Index, View, Contents, FlushOnce;
    NothingBuffered(Flush(d).0.w);
    SameSeenKeys(d, Flush(d).0);
  }

  lemma SameSeenKeys(d: Dev, r: Dev)
    requires DevOk(d) && DevOk(r) && Seen(r) == Seen(d) && r.w.hash.Keys == {}
    ensures r.s.l2p.Keys == d.s.l2p.Keys + d.w.hash.Keys
  {
    hide Ready, Lists, Index;
    ContentsKeys(d.w);
    ContentsKeys(r.w);
    ViewKeys(d.s);
    ViewKeys(r.s);
    hide View, Contents;
    assert Seen(r).Keys == r.s.l2p.Keys;
    assert Seen(d).Keys == d.s.l2p.Keys + d.w.hash.Keys;
  }

  lemma ViewKeys(s: FtlState.State)
    requires Ready(s)
    ensures Shape(s) && View(s).Keys == s.l2p.Keys
  {
    hide BlksOk, Biject, ChipsOk;
  }

  lemma NothingBuffered(w: Wb)
    requires WbInv(w) && w.buf == [] && w.writing == []
    ensures w.hash.Keys == {} && |w.free| == |w.nodes|
  {
    OneList(w, 0);
    hide Lists;
  }

  lemma {:induction false} FlushWhole(d: Dev)
    requires DevInv(d) && !d.err && Flush(d).1 && WholePages(|d.w.buf|, d.s.g.slots)
    ensures Flush(d).0.w.buf == [] && Flush(d).0.w.writing == []
    decreases |d.w.buf|
  {
    hide Ready, Lists, Index, Seen, FlushOnce;
    if |d.w.buf| >= d.s.g.slots && FlushOnce(d).1 {
      ReadySane(d.s);
      FlushWhole(FlushOnce(d).0);
    }
  }

  /** Everything is buffered when the buffer is full. */
  lemma FullBuffer(d: Dev)
    requires DevInv(d) && !d.err && d.w.free == []
    ensures |d.w.buf| == |d.w.nodes|
  {
    OneList(d.w, 0);
    hide Ready, Lists, Index;
  }

  lemma PutKeys(w: Wb, lpa: nat, data: Data)
    requires WbInv(w) && Put(w, lpa, data).Some?
    ensures var r := Put(w, lpa, data).value;
            r.hash.Keys == w.hash.Keys + {lpa} && |r.free| == (if lpa in w.hash then |w.free| else |w.free| - 1)
  {
    hide Lists;
  }

  /** The loop of make_request moves keys as Keys says. */
  lemma {:induction false} PutAllKeys(d: Dev, lpas: seq<nat>, data: seq<Data>, i: nat)
    requires DevInv(d) && !d.err && Writable(d.s.g, lpas, data) && i <= |lpas|
    requires |d.w.nodes| > 0 && WholePages(|d.w.nodes|, d.s.g.slots)
    ensures var r := PutAll(d, lpas, data, i);
            !r.err ==> (r.w.hash.Keys, r.s.l2p.Keys)
                       == Keys(d.w.hash.Keys, d.s.l2p.Keys, |d.w.free|, |d.w.nodes|, lpas, i)
    decreases |lpas| - i, d.w.free == []
  {
    hide Ready, Lists, Index, Seen, Flush, WithPage, Put, Contents;
    if i < |lpas| {
      PutOk(d.w, lpas[i], data[i]);
      if Put(d.w, lpas[i], data[i]).Some? {
        PutSeen(d, lpas[i], data[i]);
        PutErr(d, lpas[i], data[i]);
        PutKeys(d.w, lpas[i], data[i]);
        assert lpas[i] in d.w.hash ==> d.w.hash.Keys + {lpas[i]} == d.w.hash.Keys;
        PutAllKeys(WithPage(d, lpas[i], data[i]), lpas, data, i + 1);
      } else {
        RetrySucceeds(d, lpas[i], data[i]);
        FullBuffer(d);
        if Flush(d).1 {
          FlushKeys(d);
          assert {} + {lpas[i]} == {lpas[i]};
          PutAllKeys(Flush(d).0, lpas, data, i);
        }
      }
    }
  }

  // ---- the theorem ---------------------------------------------------------------------------------------------

  /** The pages that a write leaves both buffered and mapped are looked for from this one on. */
  ghost function From(d: Dev, lpas: seq<nat>): nat
    requires |d.w.nodes| > 0
  {
    LastOverflow(d.w.hash.Keys, |d.w.free|, |d.w.nodes|, lpas, 0, |lpas|)
  }

  lemma DroppedKeys(d: Dev, lpas: seq<nat>)
    requires DevInv(d)
    ensures Ready(d.s) && InvalidateAll(d.s, lpas).l2p.Keys == d.s.l2p.Keys - SeqSet(lpas)
  {
    hide Lists, Index, Ready, InvalidateAll;
    ReadySane(d.s);
    InvalidateAllOk(d.s, lpas);
    ViewKeys(d.s);
    ViewKeys(InvalidateAll(d.s, lpas));
    hide View;
    assert View(InvalidateAll(d.s, lpas)).Keys == View(d.s).Keys - SeqSet(lpas);
  }

  /**
   * A successful write of distinct pages leaves no page both buffered and mapped if and only if none of
   * its pages from the last overflow of the buffer on was buffered before. In particular a write that
   * overflows nothing never does. The buffer holds a whole number of flash pages.
   */
  lemma ApartAfterWrite(d: Dev, lpas: seq<nat>, data: seq<Data>)
    requires DevInv(d) && !d.err && Apart(d) && Writable(d.s.g, lpas, data) && NoDup(lpas)
    requires |d.w.nodes| > 0 && WholePages(|d.w.nodes|, d.s.g.slots)
    requires !WriteReq(d, lpas, data).err
    ensures Apart(WriteReq(d, lpas, data)) <==> forall j :: From(d, lpas) <= j < |lpas| ==> lpas[j] !in d.w.hash
  {
    hide Ready, Lists, Index, Contents, PutAll, Keys, LastOverflow, View;
    ReadySane(d.s);
    InvalidatedSeen(d, lpas);
    DroppedKeys(d, lpas);
    var d1 := d.(s := InvalidateAll(d.s, lpas));
    InvalidateAllOk(d.s, lpas);
    PutAllKeys(d1, lpas, data, 0);
    var start := d.w.hash.Keys;
    assert start + SeqSet(lpas[..0]) == start;
    forall j | 0 <= j < |lpas| ensures lpas[j] !in d1.s.l2p.Keys { assert lpas[j] in SeqSet(lpas); }
    UntilOverflow(start, d1.s.l2p.Keys, |d.w.free|, |d.w.nodes|, lpas, 0);
  }

  // ---- a write that does leave such a page ---------------------------------------------------------------------

  /** Distinct new pages that fit go to the buffer and nowhere else. */
  lemma {:induction false} PutAllFits(d: Dev, lpas: seq<nat>, data: seq<Data>, i: nat)
    requires DevInv(d) && !d.err && Writable(d.s.g, lpas, data) && i <= |lpas| && NoDup(lpas)
    requires |lpas| - i <= |d.w.free| && forall j :: i <= j < |lpas| ==> lpas[j] !in d.w.hash
    ensures var r := PutAll(d, lpas, data, i);
            && !r.err && r.s == d.s && r.w.hash.Keys == d.w.hash.Keys + SeqSet(lpas[i..])
            && |r.w.free| == |d.w.free| - (|lpas| - i) && |r.w.nodes| == |d.w.nodes|
    decreases |lpas| - i
  {
    hide Ready, Lists, Index, Seen, Flush, WithPage, Put, Contents;
    if i < |lpas| {
      PutOk(d.w, lpas[i], data[i]);
      PutSeen(d, lpas[i], data[i]);
      PutErr(d, lpas[i], data[i]);
      PutKeys(d.w, lpas[i], data[i]);
      PutAllFits(WithPage(d, lpas[i], data[i]), lpas, data, i + 1);
      SeqSetCons(lpas[i..]);
      assert lpas[i..][1..] == lpas[i + 1..];
    } else {
      assert SeqSet(lpas[i..]) == {};
    }
  }

  /** Invalidating pages that are not mapped does nothing. */
  lemma {:induction false} NothingToDrop(s: FtlState.State, lpas: seq<nat>)
    requires Shape(s) && forall x :: x in lpas ==> x !in s.l2p
    ensures InvalidateAll(s, lpas) == s
    decreases |lpas|
  {
    hide Shape;
    if lpas != [] { NothingToDrop(s, lpas[1..]); }
  }

  /** Every chip has a GC block, and an active block with room for m pages. */
  ghost predicate Plenty(s: FtlState.State, m: nat)
    requires Shape(s)
  {
    forall c :: ValidChip(s.g, c) ==> HasPlenty(s, c, m)
  }

  ghost predicate HasPlenty(s: FtlState.State, c: ChipId, m: nat)
    requires Shape(s) && ValidChip(s.g, c)
  {
    s.chips[c].gc.Some? && s.chips[c].act.Some? && s.blks[BlkId(c, s.chips[c].act.value)].nrFreePgs >= m
  }

  /** Loading and mapping a page cost one free page of the block written, and no GC slot. */
  lemma FramePlenty(s: FtlState.State, l: FtlState.State, r: FtlState.State, d: BlkId, m: nat)
    requires Shape(s) && Shape(l) && Shape(r) && Plenty(s, m + 1) && l == s.(disk := l.disk) && r.g == s.g
    requires MapFrame(l, r, d, 1) && SameGc(l, r)
    ensures Plenty(r, m)
  {
    hide DiskShape, L2pShape;
    forall c | ValidChip(s.g, c) ensures HasPlenty(r, c, m) {
      assert HasPlenty(s, c, m + 1) && Listed(s.g, s.chips[c]) && l.chips[c] == s.chips[c];
    }
  }

  lemma LoadedIs(s: FtlState.State, c: ChipId, data: seq<Data>)
    requires Fillable(s) && ValidChip(s.g, c) && CanAlloc(s, c) && |data| == s.g.slots && s.chips[c].act.Some?
    ensures Loaded(s, c, data) == s.(disk := Loaded(s, c, data).disk)
  {
    hide Fillable;
  }

  lemma MappedPlenty(s: FtlState.State, c: ChipId, lpas: seq<nat>, data: seq<Data>, m: nat)
    requires CanFill(s, c, lpas, data) && Plenty(s, m + 1)
    ensures var r := Mapped(s, c, lpas, data);
            && Shape(r) && r.g == s.g && Plenty(r, m) && ValidChip(s.g, c) && r.chips[c].act == Some(Target(s, c).0.no)
            && Target(s, c).0.c == c
  {
    MappedFrame(s, c, lpas, data);
    assert HasPlenty(s, c, m + 1);
    hide BlksShape, DiskShape, L2pShape, NamedBelow, Takes, Placed, MapPage, View, Listed, Loaded, SameGc, MapFrame,
         Plenty;
    MapPageGc(Loaded(s, c, data), lpas, Target(s, c).0, Target(s, c).1, 0);
    LoadedIs(s, c, data);
    FramePlenty(s, Loaded(s, c, data), Mapped(s, c, lpas, data), Target(s, c).0, m);
  }

  lemma ProgramPlenty(s: FtlState.State, c: ChipId, lpas: seq<nat>, data: seq<Data>, m: nat)
    requires CanFill(s, c, lpas, data) && Plenty(s, m + 1) && m > 0
    ensures Shape(ProgramPage(s, c, lpas, data)) && ProgramPage(s, c, lpas, data).g == s.g
    ensures Plenty(ProgramPage(s, c, lpas, data), m)
  {
    hide BlksShape, DiskShape, L2pShape, NamedBelow, Takes, Mapped, View, Listed;
    FillOk(s, c, lpas, data);
    MappedPlenty(s, c, lpas, data, m);
    assert ProgramPage(s, c, lpas, data) == Mapped(s, c, lpas, data).(mru := c);
  }

  /** While there is room, a page write succeeds without garbage collection. */
  lemma MakeWriteWorks(s: FtlState.State, lpas: seq<nat>, data: seq<Data>, m: nat)
    requires Ready(s) && LpasOk(s.g, lpas) && |data| == s.g.slots && Shape(s) && Plenty(s, m) && m > 0
    ensures var r := MakeWrite(s, lpas, data); r.1 && Shape(r.0) && (m > 1 ==> Plenty(r.0, m - 1))
  {
    hide InvAt, BlksShape, DiskShape, L2pShape, Listed, View, BufSize, Fgc, Written, ProgramPage, Fillable;
    NextIsValid(s);
    InvFillable(s);
    InvShape(MakeWrite(s, lpas, data).0);
    if m > 1 { ProgramPlenty(s, NextChip(s.g, s.mru), lpas, data, m - 1); }
  }

  lemma FlushOnceWorks(d: Dev, m: nat)
    requires DevInv(d) && !d.err && |d.w.buf| >= d.s.g.slots && Shape(d.s) && Plenty(d.s, m) && m > 0
    ensures FlushOnce(d).1 && Shape(FlushOnce(d).0.s) && (m > 1 ==> Plenty(FlushOnce(d).0.s, m - 1))
  {
    hide Ready, Lists, Index, LpasOk, MakeWrite, View, Contents, Plenty, Shape;
    ReadySane(d.s);
    FlushLpasOk(d);
    MakeWriteWorks(d.s, FirstLpas(d.w, d.s.g.slots), FirstData(d.w, d.s.g.slots), m);
  }

  /** n pages are at most m flash pages. */
  predicate AtMost(n: nat, slots: nat, m: nat)
    decreases m
  {
    n < slots || (m > 0 && AtMost(n - slots, slots, m - 1))
  }

  lemma {:induction false} AtMostProduct(slots: nat, k: nat, m: nat)
    requires slots > 0 && k <= m
    ensures AtMost(k * slots, slots, m)
    decreases k
  {
    if k > 0 {
      Distribute(k - 1, slots);
      AtMostProduct(slots, k - 1, m - 1);
    }
  }

  /** A flush of at most m flash pages succeeds while every chip has room for them all. */
  lemma {:induction false} FlushWorks(d: Dev, m: nat)
    requires DevInv(d) && !d.err && Shape(d.s) && AtMost(|d.w.buf|, d.s.g.slots, m) && (m > 0 ==> Plenty(d.s, m))
    ensures Flush(d).1
    decreases m
  {
    hide Ready, Shape, Lists, Index, View, Contents, FlushOnce, Plenty;
    if |d.w.buf| >= d.s.g.slots {
      FlushOnceWorks(d, m);
      FlushWorks(FlushOnce(d).0, m - 1);
    }
  }

  /** A full buffer, and a write of new pages that overflows it at its first page: it succeeds. */
  lemma OverflowAtFirst(d: Dev, lpas: seq<nat>, data: seq<Data>, m: nat)
    requires DevInv(d) && !d.err && Writable(d.s.g, lpas, data) && NoDup(lpas) && 0 < |lpas| <= |d.w.nodes|
    requires lpas[0] !in d.w.hash && d.w.free == [] && WholePages(|d.w.nodes|, d.s.g.slots)
    requires Shape(d.s) && m > 0 && Plenty(d.s, m) && AtMost(|d.w.nodes|, d.s.g.slots, m)
    ensures !PutAll(d, lpas, data, 0).err
  {
    hide Ready, Lists, Index, Flush, Put, Seen, Plenty, Shape, WholePages, AtMost;
    PutOk(d.w, lpas[0], data[0]);
    FullBuffer(d);
    FlushWorks(d, m);
    FlushKeys(d);
    PutAllFits(Flush(d).0, lpas, data, 0);
    RetrySucceeds(d, lpas[0], data[0]);
  }

  /** A write of new pages that fit, on a device that has none of them. */
  lemma FirstWrite(d: Dev, lpas: seq<nat>, data: seq<Data>)
    requires DevInv(d) && !d.err && Writable(d.s.g, lpas, data) && NoDup(lpas) && |lpas| <= |d.w.free|
    requires forall x :: x in lpas ==> x !in d.w.hash && x !in d.s.l2p
    ensures var r := WriteReq(d, lpas, data);
            && !r.err && r.s == d.s && r.w.hash.Keys == d.w.hash.Keys + SeqSet(lpas)
            && |r.w.free| == |d.w.free| - |lpas| && |r.w.nodes| == |d.w.nodes|
  {
    hide Ready, Lists, Index, PutAll, Seen;
    ReadySane(d.s);
    NothingToDrop(d.s, lpas);
    PutAllFits(d, lpas, data, 0);
    assert lpas[0..] == lpas;
  }

  lemma NewDevice(g: Geo, disk: map<BlkId, seq<seq<Data>>>, lpaBuf: seq<nat>, dataBuf: seq<Data>, n: nat)
    requires Sane(g) && g.blocks >= 2 && DiskShape(g, disk) && n >= g.slots
    requires |lpaBuf| == BufSize(g) && |dataBuf| >= BufSize(g)
    ensures var d := InitDev(g, disk, lpaBuf, dataBuf, n);
            && DevInv(d) && !d.err && d.s.g == g && d.w.hash == map[] && d.s.l2p == map[]
            && |d.w.free| == |d.w.nodes| == n && Shape(d.s) && Plenty(d.s, g.pages)
  {
    hide Ready, View, Lists, Index, BlksShape, DiskShape, L2pShape, Listed;
    InitAgrees(g, disk, lpaBuf, dataBuf, n);
    var d := InitDev(g, disk, lpaBuf, dataBuf, n);
    ReadySane(d.s);
    InitChipTakes(g);
  }

  lemma InitChipTakes(g: Geo)
    requires g.blocks >= 2
    ensures InitChip(g).act == Some(0) && InitChip(g).gc == Some(1)
  {
  }

  /** Pages first, first + 1, ... of a request, and a page of data for each. */
  function Pages(first: nat, n: nat): (r: seq<nat>)
    ensures |r| == n && forall i :: 0 <= i < n ==> r[i] == first + i
  {
    seq(n, i => first + i)
  }

  function Same1(x: Data, n: nat): (r: seq<Data>)
    ensures |r| == n
  {
    seq(n, _ => x)
  }

  /** A write of n pages from page `first` on. */
  ghost function WritePages(d: Dev, first: nat, n: nat, x: Data): (r: Dev)
    requires DevInv(d) && first + n <= d.s.g.entries
    ensures DevInv(r) && r.s.g == d.s.g
  {
    WriteReq(d, Pages(first, n), Same1(x, n))
  }

  lemma PagesApart(first: nat, n: nat)
    ensures NoDup(Pages(first, n)) && forall x :: x in SeqSet(Pages(first, n)) <==> first <= x < first + n
  {
    var l := Pages(first, n);
    forall x ensures x in SeqSet(l) <==> first <= x < first + n {
      if first <= x < first + n { assert l[x - first] == x; }
    }
  }

  /**
   * With a buffer of k flash pages, two slots at least: pages 1 to k * slots are written, then pages 0 and 1.
   * Page 0 overflows the buffer, so the others go to the flash; then page 1 is buffered again, and its old
   * copy stays mapped.
   */
  lemma PageInBothPlaces(g: Geo, disk: map<BlkId, seq<seq<Data>>>, lpaBuf: seq<nat>, dataBuf: seq<Data>, k: nat,
                         x: Data)
    requires Sane(g) && g.blocks >= 2 && DiskShape(g, disk) && |lpaBuf| == BufSize(g) && |dataBuf| >= BufSize(g)
    requires 0 < k <= g.pages && 2 <= k * g.slots < g.entries
    ensures var d := InitDev(g, disk, lpaBuf, dataBuf, k * g.slots);
            && DevInv(d) && d.s.g == g && Apart(d) && Apart(WritePages(d, 1, k * g.slots, x))
            && var r := WritePages(WritePages(d, 1, k * g.slots, x), 0, 2, x); !r.err && !Apart(r)
  {
    hide InitDev, DevInv, WriteReq, BufSize, Plenty;
    var n := k * g.slots;
    Distribute(k - 1, g.slots);
    NewDevice(g, disk, lpaBuf, dataBuf, n);
    var d := InitDev(g, disk, lpaBuf, dataBuf, n);
    PagesApart(1, n);
    FirstWrite(d, Pages(1, n), Same1(x, n));
    WholeProduct(k, g.slots);
    AtMostProduct(g.slots, k, g.pages);
    SecondWrite(WritePages(d, 1, n, x), n, x);
  }

  lemma SecondWrite(d: Dev, n: nat, x: Data)
    requires DevInv(d) && !d.err && 2 <= n < d.s.g.entries && |d.w.nodes| == n && d.w.free == []
    requires (forall y :: y in d.w.hash <==> 1 <= y < 1 + n) && d.s.l2p == map[]
    requires WholePages(n, d.s.g.slots) && Shape(d.s) && Plenty(d.s, d.s.g.pages) && AtMost(n, d.s.g.slots, d.s.g.pages)
    ensures !WritePages(d, 0, 2, x).err && !Apart(WritePages(d, 0, 2, x))
  {
    hide Ready, Lists, Index, PutAll, Seen, Plenty, WholePages, AtMost;
    var l := Pages(0, 2);
    PagesApart(0, 2);
    NothingToDrop(d.s, l);
    ReadySane(d.s);
    OverflowAtFirst(d, l, Same1(x, 2), d.s.g.pages);
    ApartAfterWrite(d, l, Same1(x, 2));
    var b := d.w.hash.Keys;
    assert LastOverflow(b, 0, n, l, 0, 2) == LastOverflow({l[0]}, n - 1, n, l, 1, 0);
    assert LastOverflow({l[0]}, n - 1, n, l, 1, 0) == LastOverflow({l[0]} + {l[1]}, n - 2, n, l, 2, 0) == 0;
    assert From(d, l) == 0 && l[1] in d.w.hash;
  }

  /** NR_LP_IN_PP * NUM_CHIPS */
  const NUM_PAGES_IN_WRITE_BUFFER: nat := FLASHBENCH.slots * (FLASHBENCH.buses * FLASHBENCH.chips)

  /** In particular at the sizes of the repository: two pages of four slots in the buffer. */
  lemma FlashbenchOverlap(disk: map<BlkId, seq<seq<Data>>>, lpaBuf: seq<nat>, dataBuf: seq<Data>, x: Data)
    requires DiskShape(FLASHBENCH, disk) && |lpaBuf| == BufSize(FLASHBENCH) && |dataBuf| >= BufSize(FLASHBENCH)
    ensures var d := InitDev(FLASHBENCH, disk, lpaBuf, dataBuf, NUM_PAGES_IN_WRITE_BUFFER);
            && DevInv(d) && d.s.g == FLASHBENCH && Apart(d) && Apart(WritePages(d, 1, 8, x))
            && !Apart(WritePages(WritePages(d, 1, 8, x), 0, 2, x))
  {
    PageInBothPlaces(FLASHBENCH, disk, lpaBuf, dataBuf, 2, x);
  }
}
