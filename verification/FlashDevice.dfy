/**
 * The device object (fb_context_t) and its request loops. Every request is tied to the request
 * functions of Device through D(), the device the object stands for.
 */
module FlashDevice {
  import opened Common
  import opened Geometry
  import opened FtlState
  import opened Mapping
  import opened Filling
  import opened Gc
  import opened BackgroundGc
  import opened StaleVictim
  import opened Requests
  import opened WriteBuffer
  import opened Device
  import opened Interleaving
  import opened OperationQueue
  import opened F = Ftl
  import P = PageBuffer

  class FlashDevice {
    const ftl: F.Ftl
    const wb: P.PageBuffer
    const lpas: array<nat>            // the LPAs of the page being flushed
    const pgBuf: array<Data>          // its data
    const lpasToDiscard: array<nat>
    var err: bool

    ghost predicate Valid()
      reads this, ftl, wb, ftl.mappings, ftl.lpasToCopy, ftl.dataToCopy
    {
      && ftl.Valid() && DevOk(D())
      && lpas.Length == pgBuf.Length == ftl.g.slots && lpasToDiscard.Length == NR_MAX_LPAS_DISCARD
      && lpas != ftl.mappings && lpas != ftl.lpasToCopy && lpasToDiscard != ftl.mappings
      && lpasToDiscard != ftl.lpasToCopy
      && lpas != lpasToDiscard && pgBuf != ftl.dataToCopy
    }

    /** The device this object stands for. */
    ghost function D(): Dev
      requires ftl.g.slots > 0
      reads this, ftl, wb, ftl.mappings, ftl.lpasToCopy, ftl.dataToCopy
    {
      Dev(ftl.S(), wb.W(), err)
    }

    /** A new device of geometry g with a buffer of n pages. */
    constructor (g: Geo, disk: map<BlkId, seq<seq<Data>>>, n: nat)
      requires Fits(g) && g.blocks >= 2 && DiskShape(g, disk) && n >= g.slots
      ensures Valid() && DevInv(D()) && !err && Seen(D()) == map[]
    {
      ftl := new F.Ftl(g, disk);
      wb := new P.PageBuffer(n);
      lpas := new nat[g.slots];
      pgBuf := new Data[g.slots];
      lpasToDiscard := new nat[NR_MAX_LPAS_DISCARD];
      err := false;
      new;
      hide Ready, WbInv, View, Contents, InitState, InitWb, Shape, Packed, TableOf;
      InitSizes(g, disk, ftl.lpasToCopy[..], ftl.dataToCopy[..], n);
      EmptyAgrees(D());
    }

    // ---- ftl_algorithm_page_mapping.c: fb_wb_flush -------------------------------------------------------------

    /** The body of fb_wb_flush: a page's worth is written and leaves the buffer, if there is one. */
    method FlushPage() returns (got: bool, ok: bool)
      requires Valid() && DevInv(D()) && !err
      modifies ftl, wb, ftl.mappings, ftl.lpasToCopy, ftl.dataToCopy, lpas, pgBuf
      ensures Valid() && got == (|old(D()).w.buf| >= old(D()).s.g.slots)
      ensures if got then ok == FlushOnce(old(D())).1 && D().(err := !ok) == FlushOnce(old(D())).0 else D() == old(D())
    {
      hide Ready, Lists, Index, View, Contents, LpasOk, MakeWrite, FirstLpas, FirstData, StartWriting, RmWritten,
           Packed, Shape, Written;
      ghost var d := D();
      got := wb.GetPgsToWrite(ftl.g.slots, lpas, pgBuf);
      ok := true;
      if got {
        FlushLpasOk(d);
        SomeFlushed(d);
        assert lpas[..] == lpas[..ftl.g.slots] && pgBuf[..] == pgBuf[..ftl.g.slots];
        ok := ftl.MakeWriteRequest(lpas[..], pgBuf[..]);
        if ok {
          wb.RmWrittenPgs();
        }
        assert D().(err := !ok) == FlushOnce(d).0;
      }
    }

    /** fb_wb_flush; on failure the caller sets err. */
    method WbFlush() returns (ok: bool)
      requires Valid() && DevInv(D()) && !err
      modifies ftl, wb, ftl.mappings, ftl.lpasToCopy, ftl.dataToCopy, lpas, pgBuf
      ensures Valid() && ok == Flush(old(D())).1 && D().(err := !ok) == Flush(old(D())).0
    {
      hide DevOk, FlushOnce, Seen, Shape, Packed, TableOf;
      ghost var r := Flush(D());
      while true
        invariant Valid() && DevInv(D()) && !err && Flush(D()) == r
        decreases |wb.buf|
      {
        var got, done := FlushPage();
        if !got {
          return true;
        }
        if !done {
          return false;
        }
      }
    }

    // ---- main.c: make_request ----------------------------------------------------------------------------------

    /**
     * A write: the old pages are invalidated, then every page is put, with a flush and a retry when it does not
     * fit. The bio ends without an error code even when the write fails or is refused.
     */
    method WriteRequest(lpas: seq<nat>, data: seq<Data>) returns (biError: int)
      requires Valid() && DevInv(D()) && Writable(ftl.g, lpas, data)
      modifies this`err, ftl, wb, ftl.mappings, ftl.lpasToCopy, ftl.dataToCopy, this.lpas, pgBuf
      ensures Valid() && DevInv(D()) && D() == WriteReq(old(D()), lpas, data)
      ensures !err ==> Seen(D()) == PutInto(Seen(old(D())), lpas, data, 0)
      ensures biError == 0
    {
      hide Ready, WbInv, Seen, Flush, Shape, Packed, TableOf, InvalidateAll, View, Contents;
      var retValue := 0;
      biError := retValue;
      if err {
        return;
      }
      ghost var d := D();
      WriteReqOk(d, lpas, data);
      InvalidatedSeen(d, lpas);
      assert lpas[..|lpas|] == lpas;
      ftl.DelInvalidatePgs(|lpas|, lpas);
      PutPages(lpas, data);
    }

    /** The body of the loop over the pages: put the page, or flush; a failed flush sets err. */
    method PutOrFlush(lpa: nat, data: Data) returns (done: bool)
      requires Valid() && DevInv(D()) && !err && lpa < ftl.g.entries
      modifies this`err, ftl, wb, ftl.mappings, ftl.lpasToCopy, ftl.dataToCopy, lpas, pgBuf
      ensures Valid() && DevInv(D()) && WbInv(old(D()).w) && done == Put(old(D()).w, lpa, data).Some?
      ensures D() == if done then WithPage(old(D()), lpa, data) else Flush(old(D())).0
      ensures err == (!done && !Flush(old(D())).1) && (!done && !err ==> old(wb.free) == [] != wb.free)
    {
      hide Ready, Lists, Index, Seen, Flush, Shape, Packed, TableOf, Put;
      ghost var d := D();
      PutOk(d.w, lpa, data);
      done := wb.PutPg(lpa, data);
      if done {
        PutSeen(d, lpa, data);
        PutErr(d, lpa, data);
      } else {
        RetrySucceeds(d, lpa, data);
        var flushed := WbFlush();
        err := !flushed;
      }
    }

    /** The loop over the pages. */
    method PutPages(lpas: seq<nat>, data: seq<Data>)
      requires Valid() && DevInv(D()) && !err && Writable(ftl.g, lpas, data)
      modifies this`err, ftl, wb, ftl.mappings, ftl.lpasToCopy, ftl.dataToCopy, this.lpas, pgBuf
      ensures Valid() && DevInv(D()) && D() == PutAll(old(D()), lpas, data, 0)
    {
      hide DevOk, Seen, Flush, Shape, Packed, TableOf, Put, WithPage, WbInv;
      ghost var r := PutAll(D(), lpas, data, 0);
      var loop := 0;
      while loop < |lpas|
        invariant 0 <= loop <= |lpas| && Valid() && DevInv(D()) && !err && PutAll(D(), lpas, data, loop) == r
        decreases |lpas| - loop, wb.free == []
      {
        var done := PutOrFlush(lpas[loop], data[loop]);
        if err {
          return;
        }
        if !done {
          loop := loop - 1;
        }
        loop := loop + 1;
      }
    }

    // ---- make_discard_request_page_mapping ---------------------------------------------------------------------

    /** The sector arithmetic of a discard: its first page and how many there are. */
    method DiscardBounds(sec: nat, n: nat) returns (first: nat, count: nat)
      ensures LpasFrom(first, count) == DiscardLpas(sec, n)
      ensures count > 0 ==> 8 * (first + count) <= sec + n
    {
      var secStart := (sec + 7) / 8 * 8;
      var secEnd := (sec + n) / 8 * 8;
      first := secStart / 8;
      count := if secStart < secEnd then (secEnd - secStart) / 8 else 0;
      assert first == (sec + 7) / 8;
      assert count > 0 ==> first + count == (sec + n) / 8;
    }

    /** A discard: make_discard_request_page_mapping, refused without an error code once err is set. */
    method DiscardRequest(sec: nat, n: nat) returns (biError: int)
      requires Valid() && DevInv(D()) && sec + n <= 8 * ftl.g.entries
      modifies ftl, wb, ftl.mappings, lpasToDiscard
      ensures Valid() && DevInv(D()) && D() == DiscardReq(old(D()), sec, n) && biError == 0
    {
      hide Ready, WbInv, Shape, Packed, TableOf, RmAll, InvalidateBatched, View, Contents, DiscardLpas, LpasFrom;
      var retValue := 0;
      biError := retValue;
      if err {
        return;
      }
      DiscardReqOk(D(), sec, n);
      ghost var r := DiscardReq(D(), sec, n);
      var first, count := DiscardBounds(sec, n);
      RemoveBuffered(first, count);
      DropMapped(first, count);
      assert D() == r;
    }

    /** Its first loop: the pages leave the buffer. */
    method RemoveBuffered(first: nat, count: nat)
      requires WbInv(wb.W())
      modifies wb
      ensures WbInv(wb.W()) && wb.W() == RmAll(old(wb.W()), LpasFrom(first, count))
    {
      hide WbInv, LpasFrom, RmBuf, Contents;
      ghost var l := LpasFrom(first, count);
      var i := 0;
      assert l[0..] == l;
      while i < count
        invariant 0 <= i <= count && WbInv(wb.W()) && RmAll(wb.W(), l[i..]) == RmAll(old(wb.W()), l)
      {
        assert l[i..][0] == first + i && l[i..][1..] == l[i + 1..];
        wb.RmBufPg(first + i);
        i := i + 1;
      }
      assert l[i..] == [];
    }

    /** Its second loop: the pages are invalidated in batches of at most NR_MAX_LPAS_DISCARD. */
    method DropMapped(first: nat, count: nat)
      requires ftl.Valid() && lpasToDiscard.Length == NR_MAX_LPAS_DISCARD
      requires lpasToDiscard != ftl.mappings && lpasToDiscard != ftl.lpasToCopy
      requires count > 0 ==> first + count <= ftl.g.entries
      modifies ftl, ftl.mappings, lpasToDiscard
      ensures ftl.Valid() && ftl.S() == InvalidateBatched(old(ftl.S()), LpasFrom(first, count), 0, [])
    {
      hide Packed, TableOf, LpasFrom, InvalidateAll, BlksShape, DiskShape, ChipsShape;
      ghost var l := LpasFrom(first, count);
      ghost var r := InvalidateBatched(ftl.S(), l, 0, []);
      var bio, i := 0, 0;
      while i < count
        invariant 0 <= i <= count && 0 <= bio < NR_MAX_LPAS_DISCARD && ftl.Valid()
        invariant forall k :: 0 <= k < bio ==> lpasToDiscard[k] < ftl.g.entries
        invariant InvalidateBatched(ftl.S(), l, i, lpasToDiscard[..bio]) == r
      {
        ghost var batch := lpasToDiscard[..bio];
        lpasToDiscard[bio] := first + i;
        assert lpasToDiscard[..bio + 1] == batch + [l[i]];
        assert lpasToDiscard[..][..bio + 1] == lpasToDiscard[..bio + 1] && lpasToDiscard[..0] == [];
        if bio == NR_MAX_LPAS_DISCARD - 1 {
          ftl.DelInvalidatePgs(NR_MAX_LPAS_DISCARD, lpasToDiscard[..]);
          bio := 0;
        } else {
          bio := bio + 1;
        }
        i := i + 1;
      }
      assert lpasToDiscard[..][..bio] == lpasToDiscard[..bio];
      InvalidateNone(ftl.S());
      if bio != 0 {
        ftl.DelInvalidatePgs(bio, lpasToDiscard[..]);
      }
    }

    // ---- reads and background GC -------------------------------------------------------------------------------

    /**
     * One page of a read: fb_build_bio looks in the buffer, make_read_request_page_mapping on the flash. Once
     * err is set the read is refused, without an error code.
     */
    method ReadRequest(lpa: nat, bio: nat) returns (r: Reply, biError: int)
      requires Valid()
      modifies ftl`ops
      ensures Valid() && D() == old(D()) && biError == 0
      ensures r == if err then Refused else Served(if lpa in Seen(D()) then Some(Seen(D())[lpa]) else None)
      ensures err || lpa in Contents(D().w) || lpa !in Seen(D()) ==> ftl.ops == old(ftl.ops)
      ensures !err && lpa !in Contents(D().w) && lpa in Seen(D()) ==>
                exists c :: ftl.ops == old(ftl.ops) + [(c, Operation(OP_READ, Some(bio)))]
    {
      hide Ready, Lists, Index;
      var retValue := 0;
      biError := retValue;
      if err {
        return Refused, retValue;
      }
      ReadSeen(D(), lpa);
      var data := wb.GetPgData(lpa);
      if data.None? {
        data := ftl.MakeReadRequest(lpa, bio);
      }
      r := Served(data);
    }

    /** One run of background GC; nothing a reader sees changes. */
    method BackgroundGc() returns (ok: bool)
      requires Valid() && BgcSafe(ftl.S())
      modifies ftl, ftl.mappings, ftl.lpasToCopy, ftl.dataToCopy
      ensures Valid() && Seen(D()) == Seen(old(D())) && D() == old(D()).(s := Bgc(old(ftl.S())).0)
    {
      hide Ready, WbInv, Shape, Packed, TableOf, View, Contents, Bgc, BgcSafe;
      ok := ftl.TriggerBgGc();
    }
  }

  lemma InitSizes(g: Geo, disk: map<BlkId, seq<seq<Data>>>, lpaBuf: seq<nat>, dataBuf: seq<Data>, n: nat)
    requires g.blocks >= 2 && g.buses > 0 && g.chips > 0
    ensures InitState(g, disk, lpaBuf, dataBuf).g == g
    ensures var w := InitWb(n); |w.nodes| == n && w.writing == [] && w.hash == map[]
  {
  }

  lemma ReadSeen(d: Dev, lpa: nat)
    requires DevOk(d)
    ensures Shape(d.s)
    ensures lpa in Seen(d) <==> lpa in Contents(d.w) || lpa in d.s.l2p
    ensures lpa in Contents(d.w) ==> Seen(d)[lpa] == Contents(d.w)[lpa]
    ensures lpa !in Contents(d.w) && lpa in d.s.l2p ==> Seen(d)[lpa] == DataAt(d.s.g, d.s.disk, d.s.l2p[lpa])
  {
    hide WbInv, BlksOk, Biject, ChipsOk;
    assert Numbers(d.w) by { DevNumbers(d); }
  }

  lemma DevNumbers(d: Dev)
    requires DevOk(d)
    ensures Numbers(d.w)
  {
    hide Ready, Lists, Index;
  }
}
