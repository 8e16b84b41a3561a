/**
 * A run in which background GC brings back old data: a small device with a one-page buffer, from its
 * initial state through six writes and four rounds of background GC.
 */
module Rollback {
  import opened Common
  import opened Geometry
  import opened FtlState
  import opened Mapping
  import opened Copying
  import opened Gc
  import opened BackgroundGc
  import opened StaleVictim
  import opened Requests
  import opened WriteBuffer
  import opened Device
  import opened Interleaving
  import opened TinyFtl

  // ---- requests through a one-page buffer ----------------------------------------------------------------------

  /** The buffer has one node and holds the page y with data w. */
  ghost predicate Holds1(d: Dev, y: nat, w: Data) {
    DevInv(d) && !d.err && d.s.g == TINY && |d.w.nodes| == 1 && Numbers(d.w) && Contents(d.w) == map[y := w]
  }

  lemma OneBuffered(w: Wb, y: nat, v: Data)
    requires WbInv(w) && |w.nodes| == 1 && w.writing == [] && Contents(w) == map[y := v]
    ensures w.free == [] && |w.buf| == 1 && w.hash.Keys == {y} && FirstLpas(w, 1) == [y] && FirstData(w, 1) == [v]
  {
    ContentsKeys(w);
    assert Contents(w).Keys == {y};
    var n := w.hash[y];
    OneList(w, n);
    FirstPagesOk(w, 1);
    hide Lists, Index, Contents;
    assert w.buf[0] in w.buf;
  }

  /** The flash write of page y succeeds. */
  ghost predicate Wrote(s: State, y: nat, w: Data, s2: State) {
    Ready(s) && s.g == TINY && y < 4 && LpasOk(s.g, [y]) && MakeWrite(s, [y], [w]) == (s2, true)
  }

  /** A write request for page x. */
  ghost predicate Requested(d: Dev, x: nat, v: Data, r: Dev) {
    DevInv(d) && d.s.g == TINY && x < 4 && Writable(d.s.g, [x], [v]) && r == WriteReq(d, [x], [v])
  }

  /** What flushing leaves. */
  ghost predicate Emptied(r: (Dev, bool), s2: State) {
    && r.1 && r.0.s == s2 && DevInv(r.0) && !r.0.err && r.0.s.g == TINY && |r.0.w.nodes| == 1
    && Numbers(r.0.w) && Contents(r.0.w) == map[] && r.0.w.free != [] && r.0.w.buf == []
  }

  lemma FlushOnceIs(d: Dev, y: nat, w: Data, s2: State)
    requires Holds1(d, y, w) && Wrote(d.s, y, w, s2) && |d.w.buf| == 1 && FirstLpas(d.w, 1) == [y]
    requires FirstData(d.w, 1) == [w]
    ensures FlushOnce(d).1 && FlushOnce(d).0.s == s2
  {
    hide Ready, Lists, Index, Contents, View, MakeWrite, LpasOk, FirstLpas, FirstData, RmWritten, StartWriting;
    FlushLpasOk(d);
    SomeFlushed(d);
  }

  lemma NothingLeft(w: Wb)
    requires WbInv(w) && w.buf == [] && w.writing == [] && |w.nodes| == 1
    ensures Numbers(w) && Contents(w) == map[] && w.free != []
  {
    OneList(w, 0);
    hide Lists;
  }

  lemma FlushedOnce(d: Dev, y: nat, w: Data, s2: State)
    requires Holds1(d, y, w) && Wrote(d.s, y, w, s2) && |d.w.buf| == 1
    ensures Emptied(FlushOnce(d), s2)
  {
    OneBuffered(d.w, y, w);
    hide Ready, Lists, Index, Contents, View, FirstLpas, FirstData, FlushOnce, Seen, Wrote;
    FlushOnceIs(d, y, w, s2);
    NothingLeft(FlushOnce(d).0.w);
  }

  /** Flushing the one page. */
  lemma FlushOne(d: Dev, y: nat, w: Data, s2: State)
    requires Holds1(d, y, w) && Wrote(d.s, y, w, s2)
    ensures Emptied(Flush(d), s2)
  {
    OneBuffered(d.w, y, w);
    hide Ready, Lists, Index, Contents, View, FirstLpas, FirstData, FlushOnce, Seen, Wrote, Emptied;
    FlushedOnce(d, y, w, s2);
    FlushEnds(d, s2);
  }

  lemma FlushEnds(d: Dev, s2: State)
    requires DevInv(d) && !d.err && d.s.g == TINY && |d.w.buf| == 1 && Emptied(FlushOnce(d), s2)
    ensures Flush(d) == FlushOnce(d)
  {
    hide Ready, Lists, Index, Contents, View, FlushOnce, Seen;
    assert Flush(FlushOnce(d).0) == (FlushOnce(d).0, true);
  }

  lemma PutOne(d: Dev, x: nat, v: Data)
    requires DevInv(d) && !d.err && d.s.g == TINY && |d.w.nodes| == 1 && Numbers(d.w) && Contents(d.w) == map[]
    requires d.w.free != []
    requires x < 4 && Writable(d.s.g, [x], [v])
    ensures var r := PutAll(d, [x], [v], 0); r.s == d.s && Holds1(r, x, v)
  {
    hide Ready, Lists, Index, Contents, View, Flush, Put;
    PutOk(d.w, x, v);
    PutSeen(d, x, v);
    PutErr(d, x, v);
    var r := WithPage(d, x, v);
    assert PutAll(r, [x], [v], 1) == r;
    assert map[][x := v] == map[x := v];
  }

  lemma SwapPuts(d: Dev, x: nat, v: Data)
    requires DevInv(d) && !d.err && Writable(d.s.g, [x], [v]) && Put(d.w, x, v).None? && Flush(d).1
    ensures PutAll(d, [x], [v], 0) == PutAll(Flush(d).0, [x], [v], 0)
  {
    hide Ready, Lists, Index, Contents, View, Seen, Flush, Put;
    RetrySucceeds(d, x, v);
  }

  lemma SwapAll(d: Dev, x: nat, v: Data, y: nat, w: Data, s2: State)
    requires Holds1(d, y, w) && x != y && x < 4 && Wrote(d.s, y, w, s2) && Writable(d.s.g, [x], [v])
    ensures var r := PutAll(d, [x], [v], 0); r.s == s2 && Holds1(r, x, v)
  {
    OneBuffered(d.w, y, w);
    hide Ready, Lists, Index, Contents, View, FlushOnce, Seen, Flush, Put, PutAll, Wrote, FirstLpas, FirstData;
    PutOk(d.w, x, v);
    FlushOne(d, y, w, s2);
    PutOne(Flush(d).0, x, v);
    SwapPuts(d, x, v);
  }

  /** A write of another page flushes the one that is buffered, and is then buffered itself. */
  lemma SwapPage(d: Dev, x: nat, v: Data, y: nat, w: Data, s1: State, s2: State) returns (r: Dev)
    requires Holds1(d, y, w) && x != y && x < 4 && Shape(d.s) && s1 == InvalidateAll(d.s, [x]) && Wrote(s1, y, w, s2)
    ensures Requested(d, x, v, r) && r.s == s2 && Holds1(r, x, v)
  {
    hide Ready, Shape, Lists, Index, Contents, View, InvalidateAll, Seen, PutAll, Wrote;
    InvalidatedSeen(d, [x]);
    assert Writable(d.s.g, [x], [v]);
    SwapAll(d.(s := s1), x, v, y, w, s2);
    r := WriteReq(d, [x], [v]);
  }

  /** The first write of all: there is room in the buffer. */
  lemma FirstPage(d: Dev, x: nat, v: Data) returns (r: Dev)
    requires DevInv(d) && !d.err && d.s.g == TINY && |d.w.nodes| == 1 && Numbers(d.w) && Contents(d.w) == map[]
    requires d.w.free != []
    requires x < 4 && Shape(d.s) && x !in d.s.l2p
    ensures Requested(d, x, v, r) && r.s == d.s && Holds1(r, x, v)
  {
    hide Ready, Shape, Lists, Index, Contents, View, InvalidateAll, Seen, PutAll;
    DropNone(d.s, x);
    assert Writable(d.s.g, [x], [v]);
    PutOne(d, x, v);
    r := WriteReq(d, [x], [v]);
  }

  // ---- single steps of the device ------------------------------------------------------------------------------

  /** A round of background GC that returns 0. */
  ghost predicate Collected(d: Dev, r: Dev) {
    DevOk(d) && r == d.(s := Bgc(d.s).0) && Bgc(d.s).1
  }

  /** The chip, the table, the free pages of the blocks, what the flash shows, and the one page in the buffer. */
  ghost predicate Pic(d: Dev, ch: Chip, l2p: map<nat, Addr>, fr: seq<int>, m: map<nat, Data>, y: nat, w: Data) {
    Holds1(d, y, w) && Conf(d.s, ch, l2p, fr) && View(d.s) == m && y < 4
  }

  ghost predicate SameBufs(s: State, r: State) { r.lpaBuf == s.lpaBuf && r.dataBuf == s.dataBuf }

  /** A write of a page that is not mapped. */
  lemma WriteOn(d: Dev, ch: Chip, l2p: map<nat, Addr>, fr: seq<int>, m: map<nat, Data>, x: nat, v: Data, y: nat,
                w: Data, a: nat)
    returns (r: Dev)
    requires |fr| == 3 && a < 3 && ch.act == Some(a) && ch.gc.Some? && x !in l2p && x < 4 && x != y && y !in l2p
    requires Pic(d, ch, l2p, fr, m, y, w)
    ensures Pic(r, Filled1(ch, fr[a]), l2p[y := At(a, 2 - fr[a])], fr[a := fr[a] - 1], m[y := w], x, v)
    ensures Requested(d, x, v, r) && SameBufs(d.s, r.s)
  {
    hide Ready, Shape, Lists, Index, View, InvalidateAll, MakeWrite, Holds1, Requested, Filled1;
    DropNone(d.s, x);
    WriteStep(d.s, ch, l2p, fr, y, w, a);
    r := SwapPage(d, x, v, y, w, d.s, MakeWrite(d.s, [y], [w]).0);
  }

  /** m without x, and with y mapped to v. */
  function Put1<V>(m: map<nat, V>, x: nat, y: nat, v: V): map<nat, V> { (m - {x})[y := v] }

  /** A write of a page mapped in a block that is not full: the old copy is dropped first. */
  lemma WriteOver(d: Dev, ch: Chip, l2p: map<nat, Addr>, fr: seq<int>, m: map<nat, Data>, x: nat, v: Data, y: nat,
                  w: Data, a: nat,
                  i: nat, p: nat)
    returns (r: Dev)
    requires |fr| == 3 && a < 3 && ch.act == Some(a) && ch.gc.Some? && x in l2p && x < 4 && x != y && y !in l2p
    requires i < 3 && p < 2 && l2p[x] == At(i, p) && fr[i] > 0
    requires Pic(d, ch, l2p, fr, m, y, w)
    ensures Pic(r, Filled1(ch, fr[a]), Put1(l2p, x, y, At(a, 2 - fr[a])), fr[a := fr[a] - 1], Put1(m, x, y, w), x, v)
    ensures Requested(d, x, v, r) && SameBufs(d.s, r.s)
  {
    hide Ready, Shape, Lists, Index, View, InvalidateAll, MakeWrite, Holds1, Requested, Filled1;
    DropStep(d.s, ch, l2p, fr, x, i, p);
    var s1 := InvalidateAll(d.s, [x]);
    WriteStep(s1, ch, l2p - {x}, fr, y, w, a);
    r := SwapPage(d, x, v, y, w, s1, MakeWrite(s1, [y], [w]).0);
  }

  lemma Regarded(d: Dev, y: nat, w: Data, s: State)
    requires Holds1(d, y, w) && Ready(s) && s.g == TINY
    ensures Holds1(d.(s := s), y, w)
  {
    hide Ready, Lists, Index, Contents;
  }

  /** A round of background GC that recycles GC blocks. */
  lemma RecycleOn(d: Dev, ch: Chip, l2p: map<nat, Addr>, fr: seq<int>, m: map<nat, Data>, y: nat, w: Data, k: nat)
    returns (r: Dev)
    requires |fr| == 3 && ch.act.None? && ch.gc == Some(k) && k < 3 && Pic(d, ch, l2p, fr, m, y, w)
    ensures Collected(d, r) && Pic(r, Recycle(ch), l2p, fr[k := 2], m, y, w) && SameBufs(d.s, r.s)
  {
    RecycleStep(d.s, ch, l2p, fr, k);
    hide Ready, Shape, Lists, Index, View, Bgc, Recycle, Contents;
    r := d.(s := Bgc(d.s).0);
    Regarded(d, y, w, r.s);
  }

  /** The round that moves LPA 1 and leaves its data in the copy buffers. */
  lemma MoveOn(d: Dev, y: nat, w: Data, b: Data) returns (r: Dev)
    requires Pic(d, BeforeMove(0), map[1 := At(0, 1)], [0, 2, 2], map[1 := b], y, w)
    ensures Collected(d, r) && Pic(r, AfterMove(), map[1 := At(2, 0)], [0, 2, 1], map[1 := b], y, w) && Left(r.s, b)
  {
    hide Ready, Shape, Lists, Index, View, Bgc, Contents;
    MoveStep(d.s);
    r := d.(s := Bgc(d.s).0);
    Regarded(d, y, w, r.s);
  }

  /** The copy buffers start with LPA 1 and data b. */
  ghost predicate Left(s: State, b: Data) {
    |s.lpaBuf| > 0 && |s.dataBuf| > 0 && s.lpaBuf[0] == 1 && s.dataBuf[0] == b
  }

  lemma Start(disk: map<BlkId, seq<seq<Data>>>, lpaBuf: seq<nat>, dataBuf: seq<Data>, x: nat, v: Data)
    returns (d: Dev, r: Dev)
    requires DiskShape(TINY, disk) && |lpaBuf| == BufSize(TINY) && |dataBuf| >= BufSize(TINY) && x < 4
    ensures d == InitDev(TINY, disk, lpaBuf, dataBuf, 1) && Requested(d, x, v, r)
    ensures Pic(r, Chip([2], [], [], 1, 0, 0, Some(0), Some(1), None, 0), map[], [2, 2, 2], map[], x, v)
  {
    d := InitDev(TINY, disk, lpaBuf, dataBuf, 1);
    InitAgrees(TINY, disk, lpaBuf, dataBuf, 1);
    InitOk(TINY, disk, lpaBuf, dataBuf);
    InitWbOk(1);
    InitPic(disk, lpaBuf, dataBuf);
    hide Ready, Lists, Index, View, InitState, Contents, Seen, Agrees, Conf;
    NothingLeft(d.w);
    r := FirstPage(d, x, v);
  }

  lemma InitBlocks(disk: map<BlkId, seq<seq<Data>>>, lpaBuf: seq<nat>, dataBuf: seq<Data>, i: nat)
    requires i < 3
    ensures var s := InitState(TINY, disk, lpaBuf, dataBuf); Blk(i) in s.blks && s.blks[Blk(i)].nrFreePgs == 2
  {
    hide InitChip, ChipSet;
    assert ValidBlk(TINY, Blk(i));
  }

  lemma TinyChip()
    ensures InitChip(TINY) == Chip([2], [], [], 1, 0, 0, Some(0), Some(1), None, 0)
  {
    assert Upto(3) == [0, 1, 2];
  }

  lemma InitPic(disk: map<BlkId, seq<seq<Data>>>, lpaBuf: seq<nat>, dataBuf: seq<Data>)
    requires Ready(InitState(TINY, disk, lpaBuf, dataBuf))
    ensures Conf(InitState(TINY, disk, lpaBuf, dataBuf), Chip([2], [], [], 1, 0, 0, Some(0), Some(1), None, 0), map[],
                 [2, 2, 2])
  {
    var s := InitState(TINY, disk, lpaBuf, dataBuf);
    InvShape(s);
    TinyChip();
    hide Ready, BlksShape, DiskShape, L2pShape, Listed, InitChip, BlkSet;
    assert C0 in ChipSet(TINY);
    forall i: nat | i < 3 ensures s.blks[Blk(i)].nrFreePgs == 2 { InitBlocks(disk, lpaBuf, dataBuf, i); }
  }

  /**
   * Three writes and a round of background GC: the first two pages go to block 0, the first is written
   * again, and the second is moved.
   */
  lemma Opening(disk: map<BlkId, seq<seq<Data>>>, lpaBuf: seq<nat>, dataBuf: seq<Data>, a0: Data, b0: Data, a1: Data)
    returns (ds: seq<Dev>)
    requires DiskShape(TINY, disk) && |lpaBuf| == BufSize(TINY) && |dataBuf| >= BufSize(TINY)
    ensures |ds| == 5 && ds[0] == InitDev(TINY, disk, lpaBuf, dataBuf, 1)
    ensures Requested(ds[0], 0, a0, ds[1]) && Requested(ds[1], 1, b0, ds[2]) && Requested(ds[2], 0, a1, ds[3])
    ensures Collected(ds[3], ds[4])
    ensures Pic(ds[4], AfterMove(), map[1 := At(2, 0)], [0, 2, 1], map[1 := b0], 0, a1) && Left(ds[4].s, b0)
  {
    hide Pic, Requested, Collected, Left, InitDev;
    var ch := Chip([2], [], [], 1, 0, 0, Some(0), Some(1), None, 0);
    var d0, d1 := Start(disk, lpaBuf, dataBuf, 0, a0);
    var d2 := WriteOn(d1, ch, map[], [2, 2, 2], map[], 1, b0, 0, a0, 0);
    assert map[][0 := At(0, 0)] == map[0 := At(0, 0)] && map[][0 := a0] == map[0 := a0]
        && [2, 2, 2][0 := 1] == [1, 2, 2];
    var d3 := WriteOver(d2, ch, map[0 := At(0, 0)], [1, 2, 2], map[0 := a0], 0, a1, 1, b0, 0, 0, 0);
    assert Put1(map[0 := At(0, 0)], 0, 1, At(0, 1)) == map[1 := At(0, 1)]
        && Put1(map[0 := a0], 0, 1, b0) == map[1 := b0];
    assert [1, 2, 2][0 := 0] == [0, 2, 2] && Filled1(ch, 1) == BeforeMove(0);
    var d4 := MoveOn(d3, 0, a1, b0);
    ds := [d0, d1, d2, d3, d4];
  }

  /**
   * The second page is written again, with data b1, and so are two others; GC blocks are recycled twice,
   * the second time the block still cached as the victim.
   */
  lemma Closing(d4: Dev, b0: Data, a1: Data, b1: Data, c: Data, e: Data) returns (ds: seq<Dev>)
    requires Pic(d4, AfterMove(), map[1 := At(2, 0)], [0, 2, 1], map[1 := b0], 0, a1) && Left(d4.s, b0)
    ensures |ds| == 5 && Requested(d4, 1, b1, ds[0]) && Collected(ds[0], ds[1])
    ensures Requested(ds[1], 2, c, ds[2]) && Requested(ds[2], 3, e, ds[3]) && Collected(ds[3], ds[4])
    ensures Left(ds[4].s, b0)
    ensures Pic(ds[4], Chip([], [2, 1], [], 0, 2, 0, Some(0), None, Some(0), 1),
                map[0 := At(2, 1), 1 := At(1, 0), 2 := At(1, 1)],
                [2, 0, 0], map[0 := a1, 1 := b1, 2 := c], 3, e)
  {
    hide Pic, Requested, Collected;
    var d5 := WriteOver(d4, AfterMove(), map[1 := At(2, 0)], [0, 2, 1], map[1 := b0], 1, b1, 0, a1, 2, 2, 0);
    var ch5 := Chip([], [2], [0], 0, 1, 1, None, Some(1), Some(0), 1);
    assert Filled1(AfterMove(), 1) == ch5 && [0, 2, 1][2 := 0] == [0, 2, 0];
    assert Put1(map[1 := At(2, 0)], 1, 0, At(2, 1)) == map[0 := At(2, 1)]
        && Put1(map[1 := b0], 1, 0, a1) == map[0 := a1];
    var d6 := RecycleOn(d5, ch5, map[0 := At(2, 1)], [0, 2, 0], map[0 := a1], 1, b1, 1);
    var ch6 := Chip([], [2], [], 0, 1, 0, Some(1), Some(0), Some(0), 1);
    assert Recycle(ch5) == ch6 && [0, 2, 0][1 := 2] == [0, 2, 0];
    var rest := ClosingWrites(d6, a1, b1, c, e);
    ds := [d5, d6] + rest;
  }

  lemma ClosingWrites(d6: Dev, a1: Data, b1: Data, c: Data, e: Data) returns (ds: seq<Dev>)
    requires Pic(d6, Chip([], [2], [], 0, 1, 0, Some(1), Some(0), Some(0), 1), map[0 := At(2, 1)], [0, 2, 0],
                 map[0 := a1], 1, b1)
    ensures |ds| == 3 && Requested(d6, 2, c, ds[0]) && Requested(ds[0], 3, e, ds[1]) && Collected(ds[1], ds[2])
    ensures SameBufs(d6.s, ds[2].s)
    ensures Pic(ds[2], Chip([], [2, 1], [], 0, 2, 0, Some(0), None, Some(0), 1),
                map[0 := At(2, 1), 1 := At(1, 0), 2 := At(1, 1)],
                [2, 0, 0], map[0 := a1, 1 := b1, 2 := c], 3, e)
  {
    hide Pic, Requested, Collected;
    var ch6 := Chip([], [2], [], 0, 1, 0, Some(1), Some(0), Some(0), 1);
    var d7 := WriteOn(d6, ch6, map[0 := At(2, 1)], [0, 2, 0], map[0 := a1], 2, c, 1, b1, 1);
    assert map[0 := At(2, 1)][1 := At(1, 0)] == map[0 := At(2, 1), 1 := At(1, 0)]
        && map[0 := a1][1 := b1] == map[0 := a1, 1 := b1];
    assert [0, 2, 0][1 := 1] == [0, 1, 0];
    var d8 := WriteOn(d7, ch6, map[0 := At(2, 1), 1 := At(1, 0)], [0, 1, 0], map[0 := a1, 1 := b1], 3, e, 2, c, 1);
    var ch8 := Chip([], [2, 1], [], 0, 2, 0, None, Some(0), Some(0), 1);
    assert Filled1(ch6, 1) == ch8 && [0, 1, 0][1 := 0] == [0, 0, 0];
    var l2p, m := map[0 := At(2, 1), 1 := At(1, 0), 2 := At(1, 1)], map[0 := a1, 1 := b1, 2 := c];
    assert map[0 := At(2, 1), 1 := At(1, 0)][2 := At(1, 1)] == l2p && map[0 := a1, 1 := b1][2 := c] == m;
    var d9 := RecycleOn(d8, ch8, l2p, [0, 0, 0], m, 3, e, 0);
    assert Recycle(ch8) == Chip([], [2, 1], [], 0, 2, 0, Some(0), None, Some(0), 1) && [0, 0, 0][0 := 2] == [2, 0, 0];
    ds := [d7, d8, d9];
  }

  /** Background GC with block 0 cached as the victim, erased since, programs what the copy buffers still hold. */
  lemma StaleOn(d: Dev, ch: Chip, l2p: map<nat, Addr>, fr: seq<int>, m: map<nat, Data>, y: nat, w: Data, b0: Data)
    returns (r: Dev)
    requires Pic(d, ch, l2p, fr, m, y, w) && Bad(d.s, ch, l2p, fr) && Left(d.s, b0) && y != 1 && 1 in m
    ensures Collected(d, r) && ReadsAs(d, 1, m[1]) && ReadsAs(r, 1, b0) && !d.err && !r.err
  {
    hide Ready, Lists, WriteBuffer.Index, Bgc, View, Contents, Bad, ReadsAs, BlksShape, DiskShape, ChipsShape, L2pShape;
    StaleStep(d.s, ch, l2p, fr);
    BgcShape(d.s);
    r := d.(s := Bgc(d.s).0);
    NotBuffered(d, 1, m[1]);
    NotBuffered(r, 1, b0);
  }

  lemma LastRound(d: Dev, a1: Data, b0: Data, b1: Data, c: Data, e: Data) returns (r: Dev)
    requires Pic(d, Chip([], [2, 1], [], 0, 2, 0, Some(0), None, Some(0), 1),
                 map[0 := At(2, 1), 1 := At(1, 0), 2 := At(1, 1)],
                 [2, 0, 0], map[0 := a1, 1 := b1, 2 := c], 3, e)
    requires Left(d.s, b0)
    ensures Collected(d, r) && ReadsAs(d, 1, b1) && ReadsAs(r, 1, b0) && !d.err && !r.err
  {
    hide Conf, Collected, ReadsAs, Holds1, Left;
    r := StaleOn(d, Chip([], [2, 1], [], 0, 2, 0, Some(0), None, Some(0), 1),
                 map[0 := At(2, 1), 1 := At(1, 0), 2 := At(1, 1)],
                 [2, 0, 0], map[0 := a1, 1 := b1, 2 := c], 3, e, b0);
  }

  /** A read of page x returns y. */
  ghost predicate ReadsAs(d: Dev, x: nat, y: Data) {
    Shape(d.s) && Numbers(d.w) && ReadReq(d, x) == Served(Some(y))
  }

  lemma NotBuffered(d: Dev, x: nat, y: Data)
    requires Shape(d.s) && Numbers(d.w) && x < d.s.g.entries && x !in Contents(d.w) && Shows(View(d.s), x, y) && !d.err
    ensures ReadsAs(d, x, y)
  {
    hide BlksShape, ChipsShape, DiskShape;
  }

  /**
   * Background GC can bring back old data. Six writes and four rounds of background GC from the initial
   * state, all of which succeed: before the last round a read of page 1 returns b1, after it the data b0 it
   * replaced.
   */
  lemma RollsBack(disk: map<BlkId, seq<seq<Data>>>, lpaBuf: seq<nat>, dataBuf: seq<Data>,
                  a0: Data, b0: Data, a1: Data, b1: Data, c: Data, e: Data)
    returns (ds: seq<Dev>)
    requires DiskShape(TINY, disk) && |lpaBuf| == BufSize(TINY) && |dataBuf| >= BufSize(TINY)
    ensures |ds| == 11 && ds[0] == InitDev(TINY, disk, lpaBuf, dataBuf, 1)
    ensures Requested(ds[0], 0, a0, ds[1]) && Requested(ds[1], 1, b0, ds[2]) && Requested(ds[2], 0, a1, ds[3])
    ensures Collected(ds[3], ds[4]) && Requested(ds[4], 1, b1, ds[5]) && Collected(ds[5], ds[6])
    ensures Requested(ds[6], 2, c, ds[7]) && Requested(ds[7], 3, e, ds[8]) && Collected(ds[8], ds[9])
    ensures Collected(ds[9], ds[10]) && ReadsAs(ds[9], 1, b1) && ReadsAs(ds[10], 1, b0)
    ensures !ds[9].err && !ds[10].err
  {
    hide Pic, Requested, Collected, Left, InitDev, ReadsAs;
    var first := Opening(disk, lpaBuf, dataBuf, a0, b0, a1);
    var second := Closing(first[4], b0, a1, b1, c, e);
    var last := LastRound(second[4], a1, b0, b1, c, e);
    ds := first + second + [last];
  }
}
