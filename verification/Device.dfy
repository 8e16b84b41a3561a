/**
 * The whole device: write buffer in front, FTL behind. What a reader sees is a plain map from LPA
 * to data, and every request and every garbage collection is an update of that map or leaves it alone.
 */
module Device {
  import opened Common
  import opened Geometry
  import opened FtlState
  import opened Mapping
  import opened Filling
  import opened Gc
  import opened Requests
  import opened WriteBuffer

  /** fb_context_t */
  datatype Dev = Dev(s: State, w: Wb, err: bool)

  /** FTL and buffer are in order and the buffered LPAs are in range. */
  ghost predicate DevOk(d: Dev) {
    && Ready(d.s) && WbInv(d.w) && |d.w.nodes| >= d.s.g.slots
    && (forall lpa :: lpa in d.w.hash ==> lpa < d.s.g.entries)
  }

  /** The device invariant; only a failed flush leaves pages under writing, and it sets err. */
  ghost predicate DevInv(d: Dev) {
    DevOk(d) && (d.err || d.w.writing == [])
  }

  /** What a reader sees: the buffer first, then the flash. */
  ghost function Seen(d: Dev): map<nat, Data>
    requires DevOk(d)
  {
    View(d.s) + Contents(d.w)
  }

  // ---- fb_wb_flush ---------------------------------------------------------------------------------------------

  /** The LPAs handed to the FTL are good ones. */
  lemma FlushLpasOk(d: Dev)
    requires DevInv(d) && |d.w.buf| >= d.s.g.slots
    ensures LpasOk(d.s.g, FirstLpas(d.w, d.s.g.slots))
  {
    hide Ready, Index, Lists;
    assert Sane(d.s.g) by { ReadySane(d.s); }
    FirstPagesOk(d.w, d.s.g.slots);
    var l := FirstLpas(d.w, d.s.g.slots);
    forall i | 0 <= i < |l| ensures l[i] < d.s.g.entries && l[i] != PAGE_UNMAPPED {
      assert l[i] in d.w.hash;
    }
  }

  lemma ReadySane(s: State)
    requires Ready(s)
    ensures Sane(s.g) && Shape(s)
  {
    hide BlksOk, Biject, ChipsOk;
  }

  /** The LPAs under writing after fb_get_pgs_to_write are exactly those handed out. */
  lemma WritingIsFirst(w: Wb, n: nat)
    requires WbInv(w) && w.writing == [] && n <= |w.buf|
    ensures Numbers(StartWriting(w, n)) && WritingLpas(StartWriting(w, n)) == SeqSet(FirstLpas(w, n))
  {
    hide Lists, Index;
    StartWritingOk(w, n);
    var r, l := StartWriting(w, n), FirstLpas(w, n);
    forall x ensures x in WritingLpas(r) <==> x in SeqSet(l) {
      if x in WritingLpas(r) {
        var y :| y in r.writing && r.nodes[y].lpa == x;
        var i :| 0 <= i < n && w.buf[i] == y;
        assert l[i] == x;
      }
      if x in SeqSet(l) {
        var i :| 0 <= i < |l| && l[i] == x;
        assert r.writing[i] in r.writing && r.nodes[r.writing[i]].lpa == x;
      }
    }
  }

  /** Writing pages through to the flash and then dropping them from the buffer does not show. */
  lemma WriteThrough(v: map<nat, Data>, b: map<nat, Data>, lpas: seq<nat>, data: seq<Data>)
    requires |lpas| == |data| && NoDup(lpas)
    requires forall i :: 0 <= i < |lpas| ==> lpas[i] != PAGE_UNMAPPED && lpas[i] in b && b[lpas[i]] == data[i]
    ensures Written(v, lpas, data, 0) + (b - SeqSet(lpas)) == v + b
  {
    hide Written;
    WrittenAt(v, lpas, data, 0);
    var w := Written(v, lpas, data, 0);
    assert lpas[0..] == lpas;
    forall x ensures x in w + (b - SeqSet(lpas)) <==> x in v + b {
      if x in SeqSet(lpas) { assert x in lpas; }
    }
    forall x | x in v + b ensures (w + (b - SeqSet(lpas)))[x] == (v + b)[x] {
      if x in SeqSet(lpas) {
        var i :| 0 <= i < |lpas| && lpas[i] == x;
      }
    }
  }

  lemma SomeFlushed(d: Dev)
    requires DevInv(d) && !d.err && |d.w.buf| >= d.s.g.slots
    ensures var n := d.s.g.slots; var w1 := StartWriting(d.w, n);
            && WbInv(w1) && |w1.nodes| == |d.w.nodes| && Contents(w1) == Contents(d.w) && w1.hash == d.w.hash
            && WbInv(RmWritten(w1)) && RmWritten(w1).writing == [] && RmWritten(w1).buf == d.w.buf[n..]
            && |RmWritten(w1).nodes| == |d.w.nodes|
            && Contents(RmWritten(w1)) == Contents(d.w) - SeqSet(FirstLpas(d.w, n))
  {
    hide Ready, Lists, Index, Contents, WritingLpas;
    StartWritingOk(d.w, d.s.g.slots);
    WritingIsFirst(d.w, d.s.g.slots);
    RmWrittenOk(StartWriting(d.w, d.s.g.slots));
  }

  lemma ContentsKeys(w: Wb)
    requires Numbers(w)
    ensures Contents(w).Keys == w.hash.Keys
  {
  }

  /**
   * One round of fb_wb_flush. When the write fails the pages stay under writing, and make_request
   * sets err; the model sets it here.
   */
  ghost function FlushOnce(d: Dev): (r: (Dev, bool))
    requires DevInv(d) && !d.err && |d.w.buf| >= d.s.g.slots
    ensures DevInv(r.0) && r.0.s.g == d.s.g && |r.0.w.nodes| == |d.w.nodes|
    ensures r.1 ==> !r.0.err && r.0.w.buf == d.w.buf[d.s.g.slots..]
  {
    hide Ready, Lists, Index, Contents, LpasOk, Written, View;
    FlushLpasOk(d);
    SomeFlushed(d);
    var w1 := StartWriting(d.w, d.s.g.slots);
    ContentsKeys(d.w); ContentsKeys(RmWritten(w1));
    ReadySane(d.s);
    var m := MakeWrite(d.s, FirstLpas(d.w, d.s.g.slots), FirstData(d.w, d.s.g.slots));
    if m.1 then (Dev(m.0, RmWritten(w1), false), true) else (Dev(m.0, w1, true), false)
  }

  lemma FlushOnceSeen(d: Dev)
    requires DevInv(d) && !d.err && |d.w.buf| >= d.s.g.slots
    ensures Seen(FlushOnce(d).0) == Seen(d)
  {
    hide Ready, Lists, Index, Contents, LpasOk, Written, View, MakeWrite;
    var l, data := FirstLpas(d.w, d.s.g.slots), FirstData(d.w, d.s.g.slots);
    FlushLpasOk(d);
    SomeFlushed(d);
    FirstPagesOk(d.w, d.s.g.slots);
    RealLpas(d);
    ReadySane(d.s);
    WriteThrough(View(d.s), Contents(d.w), l, data);
  }

  lemma RealLpas(d: Dev)
    requires DevInv(d) && |d.w.buf| >= d.s.g.slots
    ensures var l := FirstLpas(d.w, d.s.g.slots);
            forall i :: 0 <= i < |l| ==> l[i] != PAGE_UNMAPPED && l[i] in Contents(d.w)
  {
    hide Ready, Index, Lists;
    ReadySane(d.s);
    FirstPagesOk(d.w, d.s.g.slots);
    ContentsKeys(d.w);
    var l := FirstLpas(d.w, d.s.g.slots);
    forall i | 0 <= i < |l| ensures l[i] != PAGE_UNMAPPED { assert l[i] in d.w.hash; }
  }

  /**
   * fb_wb_flush: full pages are written until fewer than a page's worth is buffered. It never changes
   * what a reader sees, and when it succeeds it leaves a short buffer and nothing under writing.
   */
  ghost function Flush(d: Dev): (r: (Dev, bool))
    requires DevInv(d) && !d.err
    ensures DevInv(r.0) && Seen(r.0) == Seen(d) && r.0.s.g == d.s.g && |r.0.w.nodes| == |d.w.nodes|
    ensures r.1 ==> !r.0.err && |r.0.w.buf| < d.s.g.slots
    ensures !r.1 ==> r.0.err
    decreases |d.w.buf|
  {
    hide Ready, Lists, Index, Seen, FlushOnce;
    if |d.w.buf| < d.s.g.slots then (d, true)
    else
      ReadySane(d.s);
      FlushOnceSeen(d);
      FlushOnceErr(d);
      if FlushOnce(d).1 then Flush(FlushOnce(d).0) else FlushOnce(d)
  }

  lemma FlushOnceErr(d: Dev)
    requires DevInv(d) && !d.err && |d.w.buf| >= d.s.g.slots
    ensures FlushOnce(d).1 <==> !FlushOnce(d).0.err
  {
    hide Ready, Lists, Index, MakeWrite;
  }

  // ---- make_request: write -------------------------------------------------------------------------------------

  /** The buffer after one successful fb_put_pg. */
  function WithPage(d: Dev, lpa: nat, data: Data): Dev
    requires WbInv(d.w) && Put(d.w, lpa, data).Some?
  {
    d.(w := Put(d.w, lpa, data).value)
  }

  lemma PutSeen(d: Dev, lpa: nat, data: Data)
    requires DevInv(d) && !d.err && lpa < d.s.g.entries && Put(d.w, lpa, data).Some?
    ensures var r := WithPage(d, lpa, data);
            DevInv(r) && Seen(r) == Seen(d)[lpa := data] && |r.w.nodes| == |d.w.nodes|
  {
    hide Ready, Lists, Index, Contents, View, Put;
    ReadySane(d.s);
    PutOk(d.w, lpa, data);
    PutShape(d.w, lpa, data);
  }

  lemma PutShape(w: Wb, lpa: nat, data: Data)
    requires WbInv(w) && Put(w, lpa, data).Some?
    ensures |Put(w, lpa, data).value.nodes| == |w.nodes|
    ensures w.writing == [] ==> Put(w, lpa, data).value.writing == []
  {
  }

  /** When a put fails and the flush succeeds, a node is free: the retry will succeed. */
  lemma RetrySucceeds(d: Dev, lpa: nat, data: Data)
    requires DevInv(d) && !d.err && Put(d.w, lpa, data).None?
    ensures Flush(d).1 ==> Flush(d).0.w.free != []
  {
    ReadySane(d.s);
    OneList(Flush(d).0.w, 0);
    hide Ready, Index, Flush;
  }

  /** The LPAs of a write request, and the map it asks for. */
  ghost predicate Writable(g: Geo, lpas: seq<nat>, data: seq<Data>) {
    |lpas| == |data| && forall i :: 0 <= i < |lpas| ==> lpas[i] < g.entries
  }

  /** m after the pages i.. of the request, in order. */
  function PutInto(m: map<nat, Data>, lpas: seq<nat>, data: seq<Data>, i: nat): map<nat, Data>
    requires i <= |lpas| == |data|
    decreases |lpas| - i
  {
    if i == |lpas| then m else PutInto(m[lpas[i] := data[i]], lpas, data, i + 1)
  }

  /**
   * The loop of make_request over the pages of a write, from page i on: put, or flush and try the
   * same page again. It ends because the retry after a successful flush cannot fail.
   */
  ghost function PutAll(d: Dev, lpas: seq<nat>, data: seq<Data>, i: nat): (r: Dev)
    requires DevInv(d) && !d.err && Writable(d.s.g, lpas, data) && i <= |lpas|
    ensures DevInv(r) && r.s.g == d.s.g
    ensures !r.err ==> Seen(r) == PutInto(Seen(d), lpas, data, i)
    ensures r.err ==> forall x :: x !in lpas ==>
            (x in Seen(r) <==> x in Seen(d)) && (x in Seen(r) ==> Seen(r)[x] == Seen(d)[x])
    decreases |lpas| - i, d.w.free == []
  {
    hide Ready, Lists, Index, Seen, Flush, WithPage;
    if i == |lpas| then d
    else
      PutOk(d.w, lpas[i], data[i]);
      if Put(d.w, lpas[i], data[i]).Some? then
        PutSeen(d, lpas[i], data[i]);
        PutErr(d, lpas[i], data[i]);
        PutAll(WithPage(d, lpas[i], data[i]), lpas, data, i + 1)
      else
        RetrySucceeds(d, lpas[i], data[i]);
        if Flush(d).1 then PutAll(Flush(d).0, lpas, data, i) else Flush(d).0
  }

  lemma PutErr(d: Dev, lpa: nat, data: Data)
    requires WbInv(d.w) && Put(d.w, lpa, data).Some?
    ensures WithPage(d, lpa, data) == d.(w := Put(d.w, lpa, data).value)
  {
  }

  /** make_request for a write: invalidate the old pages on flash, then put every page into the buffer. */
  ghost function WriteReq(d: Dev, lpas: seq<nat>, data: seq<Data>): (r: Dev)
    requires DevInv(d) && Writable(d.s.g, lpas, data)
    ensures DevInv(r) && r.s.g == d.s.g
  {
    hide Ready, Lists, Index, Contents;
    if d.err then d
    else
      ReadySane(d.s);
      InvalidateAllOk(d.s, lpas);
      PutAll(d.(s := InvalidateAll(d.s, lpas)), lpas, data, 0)
  }

  /** The map a write asks for: the last page given for an LPA counts, all others stay. */
  lemma {:induction false} PutIntoAt(m: map<nat, Data>, lpas: seq<nat>, data: seq<Data>, i: nat, x: nat)
    requires i <= |lpas| == |data|
    ensures var r := PutInto(m, lpas, data, i);
            && (x in r <==> x in m || x in lpas[i..])
            && (x !in lpas[i..] && x in m ==> r[x] == m[x])
            && (forall k :: i <= k < |lpas| && lpas[k] == x && (forall j :: k < j < |lpas| ==> lpas[j] != x) ==>
                  r[x] == data[k])
    decreases |lpas| - i
  {
    if i < |lpas| {
      PutIntoAt(m[lpas[i] := data[i]], lpas, data, i + 1, x);
      assert lpas[i..] == [lpas[i]] + lpas[i + 1..];
    }
  }

  /** Whatever the old map held for the LPAs of the request does not matter. */
  lemma {:induction false} PutIntoAgree(m1: map<nat, Data>, m2: map<nat, Data>, lpas: seq<nat>, data: seq<Data>, i: nat)
    requires i <= |lpas| == |data|
    requires forall x :: x !in lpas[i..] ==> (x in m1 <==> x in m2) && (x in m1 ==> m1[x] == m2[x])
    ensures PutInto(m1, lpas, data, i) == PutInto(m2, lpas, data, i)
    decreases |lpas| - i
  {
    if i < |lpas| {
      var n1, n2 := m1[lpas[i] := data[i]], m2[lpas[i] := data[i]];
      assert lpas[i..] == [lpas[i]] + lpas[i + 1..];
      PutIntoAgree(n1, n2, lpas, data, i + 1);
    } else {
      assert m1 == m2;
    }
  }

  lemma InvalidatedSeen(d: Dev, lpas: seq<nat>)
    requires DevInv(d)
    ensures var d1 := d.(s := InvalidateAll(d.s, lpas));
            && DevInv(d1) && Seen(d1) == (View(d.s) - SeqSet(lpas)) + Contents(d.w)
  {
    hide Ready, Lists, Index, Contents, ViewOf;
    ReadySane(d.s);
    InvalidateAllOk(d.s, lpas);
  }

  /**
   * A write request updates the map exactly at its LPAs. If it fails for want of space, every other
   * LPA still reads as before.
   */
  lemma WriteReqOk(d: Dev, lpas: seq<nat>, data: seq<Data>)
    requires DevInv(d) && Writable(d.s.g, lpas, data)
    ensures var r := WriteReq(d, lpas, data);
            && (!r.err ==> Seen(r) == PutInto(Seen(d), lpas, data, 0))
            && (forall x :: x !in lpas ==>
                  (x in Seen(r) <==> x in Seen(d)) && (x in Seen(r) ==> Seen(r)[x] == Seen(d)[x]))
  {
    hide Ready, Lists, Index, PutAll, Put;
    if !d.err {
      ReadySane(d.s);
      InvalidatedSeen(d, lpas);
      var d1 := d.(s := InvalidateAll(d.s, lpas));
      hide Contents, View;
      forall x | x !in lpas ensures (x in Seen(d1) <==> x in Seen(d)) && (x in Seen(d1) ==> Seen(d1)[x] == Seen(d)[x]) {
        assert x !in SeqSet(lpas);
      }
      assert lpas[0..] == lpas;
      PutIntoAgree(Seen(d1), Seen(d), lpas, data, 0);
      if !WriteReq(d, lpas, data).err {
        forall x | x !in lpas
          ensures (x in Seen(WriteReq(d, lpas, data)) <==> x in Seen(d))
          ensures x in Seen(d) ==> Seen(WriteReq(d, lpas, data))[x] == Seen(d)[x]
        {
          PutIntoAt(Seen(d), lpas, data, 0, x);
        }
      }
    }
  }

  // ---- make_request: discard -----------------------------------------------------------------------------------

  const NR_MAX_LPAS_DISCARD: nat := 2048

  /** The first and one past the last logical page (8 sectors each) a discard of n sectors from `sec` acts on. */
  function DiscardRange(sec: nat, n: nat): (nat, nat) {
    ((sec + 7) / 8, (sec + n) / 8)
  }

  /** first_lpn + i for every i below nr_lps. */
  function LpasFrom(first: nat, count: nat): (r: seq<nat>)
    ensures |r| == count && forall i :: 0 <= i < count ==> r[i] == first + i
  {
    if count == 0 then [] else LpasFrom(first, count - 1) + [first + count - 1]
  }

  lemma {:induction false} LpasFromMember(first: nat, count: nat, x: nat)
    ensures x in LpasFrom(first, count) <==> first <= x < first + count
  {
    if count > 0 { LpasFromMember(first, count - 1, x); }
  }

  function DiscardLpas(sec: nat, n: nat): seq<nat> {
    var (first, last) := DiscardRange(sec, n);
    if first < last then LpasFrom(first, last - first) else []
  }

  /** Exactly the pages that lie wholly inside the sectors. */
  lemma DiscardExact(sec: nat, n: nat, x: nat)
    ensures x in DiscardLpas(sec, n) <==> sec <= 8 * x && 8 * x + 8 <= sec + n
  {
    var (first, last) := DiscardRange(sec, n);
    if first < last { LpasFromMember(first, last - first, x); }
  }

  /** The first loop: the pages leave the buffer. */
  ghost function RmAll(w: Wb, lpas: seq<nat>): (r: Wb)
    requires WbInv(w)
    ensures WbInv(r) && Contents(r) == Contents(w) - SeqSet(lpas)
    ensures |r.nodes| == |w.nodes| && (w.writing == [] ==> r.writing == []) && r.hash.Keys <= w.hash.Keys
    decreases |lpas|
  {
    hide Lists, Index, Contents, RmBuf;
    if lpas == [] then
      assert SeqSet(lpas) == {};
      RemoveTwice(Contents(w), 0, {});
      w
    else
      RmBufOk(w, lpas[0]);
      RmBufShape(w, lpas[0]);
      SeqSetCons(lpas);
      RemoveTwice(Contents(w), lpas[0], SeqSet(lpas[1..]));
      RmAll(RmBuf(w, lpas[0]), lpas[1..])
  }

  lemma RmBufShape(w: Wb, lpa: nat)
    requires WbInv(w)
    ensures var r := RmBuf(w, lpa);
            |r.nodes| == |w.nodes| && (w.writing == [] ==> r.writing == []) && r.hash.Keys <= w.hash.Keys
  {
  }

  /** The second loop: LPAs are invalidated in batches of NR_MAX_LPAS_DISCARD, the last one shorter. */
  function InvalidateBatched(s: State, lpas: seq<nat>, i: nat, batch: seq<nat>): State
    requires Shape(s) && i <= |lpas| && |batch| < NR_MAX_LPAS_DISCARD
    decreases |lpas| - i
  {
    if i == |lpas| then InvalidateAll(s, batch)
    else
      var b := batch + [lpas[i]];
      if |b| == NR_MAX_LPAS_DISCARD then InvalidateBatched(InvalidateAll(s, b), lpas, i + 1, [])
      else InvalidateBatched(s, lpas, i + 1, b)
  }

  lemma {:induction false} InvalidateAppend(s: State, a: seq<nat>, b: seq<nat>)
    requires Shape(s)
    ensures InvalidateAll(s, a + b) == InvalidateAll(InvalidateAll(s, a), b)
    decreases |a|
  {
    hide Shape, Invalidate;
    if a == [] {
      assert a + b == b;
    } else {
      assert (a + b)[0] == a[0] && (a + b)[1..] == a[1..] + b;
      InvalidateAppend(Invalidate(s, a[0]), a[1..], b);
    }
  }

  /** However long the list is, batching it makes no difference. */
  lemma {:induction false} BatchedOk(s: State, lpas: seq<nat>, i: nat, batch: seq<nat>)
    requires Shape(s) && i <= |lpas| && |batch| < NR_MAX_LPAS_DISCARD
    ensures InvalidateBatched(s, lpas, i, batch) == InvalidateAll(s, batch + lpas[i..])
    decreases |lpas| - i
  {
    hide Shape, InvalidateAll;
    if i == |lpas| {
      assert batch + lpas[i..] == batch;
    } else {
      var b := batch + [lpas[i]];
      assert batch + lpas[i..] == b + lpas[i + 1..];
      if |b| == NR_MAX_LPAS_DISCARD {
        BatchedOk(InvalidateAll(s, b), lpas, i + 1, []);
        assert [] + lpas[i + 1..] == lpas[i + 1..];
        InvalidateAppend(s, b, lpas[i + 1..]);
      } else {
        BatchedOk(s, lpas, i + 1, b);
      }
    }
  }

  /** make_discard_request_page_mapping */
  ghost function DiscardReq(d: Dev, sec: nat, n: nat): Dev
    requires DevInv(d)
  {
    if d.err then d
    else
      ReadySane(d.s);
      d.(w := RmAll(d.w, DiscardLpas(sec, n)), s := InvalidateBatched(d.s, DiscardLpas(sec, n), 0, []))
  }

  /** A discard erases exactly the pages that lie wholly inside its sectors. */
  lemma DiscardReqOk(d: Dev, sec: nat, n: nat)
    requires DevInv(d)
    ensures var r := DiscardReq(d, sec, n);
            && DevInv(r) && r.s.g == d.s.g && r.err == d.err
            && (!d.err ==> forall x: nat ::
                  && (x in Seen(r) <==> x in Seen(d) && !(sec <= 8 * x && 8 * x + 8 <= sec + n))
                  && (x in Seen(r) ==> Seen(r)[x] == Seen(d)[x]))
  {
    hide Ready, Lists, Index, Contents, InvalidateAll, InvalidateBatched, DiscardLpas, View;
    if !d.err {
      var l := DiscardLpas(sec, n);
      ReadySane(d.s);
      BatchedOk(d.s, l, 0, []);
      assert [] + l[0..] == l;
      InvalidateAllOk(d.s, l);
      forall x: nat ensures x in SeqSet(l) <==> sec <= 8 * x && 8 * x + 8 <= sec + n { DiscardExact(sec, n, x); }
    }
  }

  // ---- make_request: read --------------------------------------------------------------------------------------

  /** What a read finds for a page: the buffered copy, else the mapped one, else nothing. */
  function ReadPage(d: Dev, lpa: nat): Option<Data>
    requires Shape(d.s) && Numbers(d.w)
  {
    if lpa in d.w.hash then Some(d.w.nodes[d.w.hash[lpa]].data)
    else if lpa >= d.s.g.entries || lpa !in d.s.l2p then None
    else Some(DataAt(d.s.g, d.s.disk, d.s.l2p[lpa]))
  }

  /** Reads return the map, inside the address range and out. */
  lemma ReadPageOk(d: Dev, lpa: nat)
    requires DevOk(d)
    ensures Shape(d.s) && Numbers(d.w)
    ensures ReadPage(d, lpa) == if lpa in Seen(d) then Some(Seen(d)[lpa]) else None
  {
    hide BlksOk, ChipsOk, Lists, Index;
  }

  /** What make_request does with a read of one page: once err is set it refuses, otherwise it looks the page up. */
  datatype Reply = Refused | Served(data: Option<Data>)

  function ReadReq(d: Dev, lpa: nat): Reply
    requires Shape(d.s) && Numbers(d.w)
  {
    if d.err then Refused else Served(ReadPage(d, lpa))
  }
}
