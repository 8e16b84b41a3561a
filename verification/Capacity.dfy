/**
 * How much the device holds: never more pages than the flash has slots and the buffer has nodes. So a write
 * that would leave more must fail - and from then on everything is refused.
 */
module Capacity {
  import opened Common
  import opened Geometry
  import opened Blocks
  import opened FtlState
  import opened Copying
  import opened Counts
  import opened Gc
  import opened Requests
  import opened WriteBuffer
  import opened Device
  import opened Interleaving
  import opened Overlap

  // ---- slots of the flash --------------------------------------------------------------------------------------

  /** The slots of a block, of a chip, of a bus, and of the whole flash. */
  function BlockRoom(g: Geo): nat { g.pages * g.slots }
  function ChipRoom(g: Geo): nat { g.blocks * BlockRoom(g) }
  function BusRoom(g: Geo): nat { g.chips * ChipRoom(g) }
  function FlashRoom(g: Geo): nat { g.buses * BusRoom(g) }

  lemma BlockFits(s: State, b: BlkId)
    requires Inv(s) && Shape(s) && ValidBlk(s.g, b)
    ensures s.blks[b].nrValidLps <= BlockRoom(s.g)
  {
    hide Biject, ChipsOk, PagesAt;
    assert BlockAt(s.g, s.blks[b], 0);
    GridCard(s.g.pages, s.g.slots);
    SubsetCard(BlockSlots(s.g, s.blks[b], Valid), Grid(s.g.pages, s.g.slots));
  }

  lemma {:induction false} ChipFits(s: State, bus: nat, chip: nat, no: nat)
    requires Inv(s) && Shape(s) && bus < s.g.buses && chip < s.g.chips && no <= s.g.blocks
    ensures TotalValid(s, bus, chip, no) <= (s.g.blocks - no) * BlockRoom(s.g) + TotalValid(s, bus, chip + 1, 0)
    decreases s.g.blocks - no
  {
    hide InvAt, Shape, BlockRoom;
    if no < s.g.blocks {
      BlockFits(s, BlkId(ChipId(bus, chip), no));
      ChipFits(s, bus, chip, no + 1);
      OneMore(s.g.blocks - no - 1, BlockRoom(s.g));
    }
  }

  lemma OneMore(n: nat, x: nat)
    ensures (n + 1) * x == n * x + x
  {
  }

  lemma {:induction false} BusFits(s: State, bus: nat, chip: nat)
    requires Inv(s) && Shape(s) && bus < s.g.buses && chip <= s.g.chips
    ensures TotalValid(s, bus, chip, 0) <= (s.g.chips - chip) * ChipRoom(s.g) + TotalValid(s, bus + 1, 0, 0)
    decreases s.g.chips - chip
  {
    hide InvAt, Shape, BlockRoom;
    if chip < s.g.chips {
      ChipFits(s, bus, chip, 0);
      BusFits(s, bus, chip + 1);
      OneMore(s.g.chips - chip - 1, ChipRoom(s.g));
    }
  }

  lemma {:induction false} AllFits(s: State, bus: nat)
    requires Inv(s) && Shape(s) && bus <= s.g.buses
    ensures TotalValid(s, bus, 0, 0) <= (s.g.buses - bus) * BusRoom(s.g)
    decreases s.g.buses - bus
  {
    hide InvAt, Shape, ChipRoom;
    if bus < s.g.buses {
      BusFits(s, bus, 0);
      AllFits(s, bus + 1);
      OneMore(s.g.buses - bus - 1, BusRoom(s.g));
    }
  }

  /** No more pages are mapped than the flash has slots. */
  lemma MappedFits(s: State)
    requires Inv(s) && Shape(s)
    ensures |s.l2p| <= FlashRoom(s.g)
  {
    hide InvAt, Shape, BusRoom, TotalValid;
    ValidEqualsMapped(s);
    AllFits(s, 0);
  }

  // ---- the device ----------------------------------------------------------------------------------------------

  /** No more pages are buffered than there are nodes. */
  lemma BufferedFits(w: Wb)
    requires WbInv(w)
    ensures |w.hash| <= |w.nodes|
  {
    hide Lists;
    assert forall x, y :: x in w.hash && y in w.hash && x != y ==> w.hash[x] != w.hash[y];
    InjectiveCard(w.hash);
    BoundedCard(w.hash.Values, |w.nodes|);
  }

  /** Flash and buffer together. */
  lemma SeenFits(d: Dev)
    requires DevOk(d)
    ensures |Seen(d)| <= FlashRoom(d.s.g) + |d.w.nodes|
  {
    hide InvAt, Lists, Index, FlashRoom;
    ReadySane(d.s);
    MappedFits(d.s);
    BufferedFits(d.w);
    ContentsKeys(d.w);
    ViewKeys(d.s);
    hide Shape, View, Contents, Numbers;
    KeysCard(View(d.s), Contents(d.w));
  }

  lemma KeysCard(v: map<nat, Data>, b: map<nat, Data>)
    ensures |v + b| <= |v.Keys| + |b.Keys|
  {
    assert (v + b).Keys == v.Keys + b.Keys;
  }

  lemma PutIntoKeys(m: map<nat, Data>, lpas: seq<nat>, data: seq<Data>)
    requires |lpas| == |data|
    ensures PutInto(m, lpas, data, 0).Keys == m.Keys + SeqSet(lpas)
  {
    assert lpas[0..] == lpas;
    forall x ensures x in PutInto(m, lpas, data, 0).Keys <==> x in m.Keys + SeqSet(lpas) {
      PutIntoAt(m, lpas, data, 0, x);
    }
  }

  /** A write that would leave more pages than there is room for fails. */
  lemma NoRoomFails(d: Dev, lpas: seq<nat>, data: seq<Data>)
    requires DevInv(d) && Writable(d.s.g, lpas, data)
    requires |Seen(d).Keys + SeqSet(lpas)| > FlashRoom(d.s.g) + |d.w.nodes|
    ensures WriteReq(d, lpas, data).err
  {
    hide Ready, WbInv, Seen, WriteReq, FlashRoom;
    WriteReqOk(d, lpas, data);
    PutIntoKeys(Seen(d), lpas, data);
    SeenFits(WriteReq(d, lpas, data));
    WriteNodes(d, lpas, data);
  }

  lemma {:induction false} PutAllNodes(d: Dev, lpas: seq<nat>, data: seq<Data>, i: nat)
    requires DevInv(d) && !d.err && Writable(d.s.g, lpas, data) && i <= |lpas|
    ensures |PutAll(d, lpas, data, i).w.nodes| == |d.w.nodes|
    decreases |lpas| - i, d.w.free == []
  {
    hide Ready, Lists, Index, Seen, Flush, WithPage;
    if i < |lpas| {
      PutOk(d.w, lpas[i], data[i]);
      if Put(d.w, lpas[i], data[i]).Some? {
        PutSeen(d, lpas[i], data[i]);
        PutErr(d, lpas[i], data[i]);
        PutAllNodes(WithPage(d, lpas[i], data[i]), lpas, data, i + 1);
      } else {
        RetrySucceeds(d, lpas[i], data[i]);
        if Flush(d).1 { PutAllNodes(Flush(d).0, lpas, data, i); }
      }
    }
  }

  lemma WriteNodes(d: Dev, lpas: seq<nat>, data: seq<Data>)
    requires DevInv(d) && Writable(d.s.g, lpas, data)
    ensures |WriteReq(d, lpas, data).w.nodes| == |d.w.nodes|
  {
    hide Ready, Lists, Index, Seen, PutAll, Contents, View;
    if !d.err {
      ReadySane(d.s);
      InvalidatedSeen(d, lpas);
      PutAllNodes(d.(s := InvalidateAll(d.s, lpas)), lpas, data, 0);
    }
  }

  /** In particular a write of more pages than there is room for, whatever is stored already. */
  lemma TooManyFails(d: Dev, lpas: seq<nat>, data: seq<Data>)
    requires DevInv(d) && Writable(d.s.g, lpas, data) && |SeqSet(lpas)| > FlashRoom(d.s.g) + |d.w.nodes|
    ensures WriteReq(d, lpas, data).err
  {
    hide Ready, WbInv, Seen, WriteReq, FlashRoom;
    SubsetCard(SeqSet(lpas), Seen(d).Keys + SeqSet(lpas));
    NoRoomFails(d, lpas, data);
  }

  lemma PagesCard(n: nat)
    ensures |SeqSet(Pages(0, n))| == n
  {
    PagesApart(0, n);
    assert SeqSet(Pages(0, n)) == Below(n) by {
      forall x: nat ensures x in SeqSet(Pages(0, n)) <==> x in Below(n) {
        if x < n { assert Pages(0, n)[x] == x; }
      }
    }
    BelowCard(n);
  }

  /**
   * A write fails on a new device: with a mapping table that is large enough, write one page more than flash
   * and buffer hold. No request is served after that.
   */
  lemma FullDeviceFails(g: Geo, disk: map<BlkId, seq<seq<Data>>>, lpaBuf: seq<nat>, dataBuf: seq<Data>, n: nat, x: Data)
    requires Sane(g) && g.blocks >= 2 && DiskShape(g, disk) && n >= g.slots
    requires |lpaBuf| == BufSize(g) && |dataBuf| >= BufSize(g) && FlashRoom(g) + n < g.entries
    ensures var d := InitDev(g, disk, lpaBuf, dataBuf, n);
            && DevInv(d) && !d.err && d.s.g == g
            && Refuses(WritePages(d, 0, FlashRoom(g) + n + 1, x))
  {
    hide InitDev, DevInv, WriteReq, BufSize, FlashRoom;
    NewDevice(g, disk, lpaBuf, dataBuf, n);
    var d, m := InitDev(g, disk, lpaBuf, dataBuf, n), FlashRoom(g) + n + 1;
    PagesCard(m);
    TooManyFails(d, Pages(0, m), Same1(x, m));
    ErrRefuses(WritePages(d, 0, m, x));
  }

  /** Reads are refused, and writes and discards change nothing. */
  ghost predicate Refuses(r: Dev) {
    && DevInv(r) && Shape(r.s) && Numbers(r.w)
    && (forall lpa :: ReadReq(r, lpa) == Refused)
    && (forall lpas, data :: Writable(r.s.g, lpas, data) ==> WriteReq(r, lpas, data) == r)
    && (forall sec, k :: DiscardReq(r, sec, k) == r)
  }

  lemma ErrRefuses(r: Dev)
    requires DevInv(r) && r.err
    ensures Refuses(r)
  {
    ReadySane(r.s);
    hide Ready, Lists, Index, Shape;
  }
}
