/**
 * The write-back buffer (write_buffer.c): three lists over a fixed set of nodes, and a hash index
 * from LPA to node.
 */
module WriteBuffer {
  import opened Common
  import opened Geometry
  import opened FtlState

  /** fb_wb_pg_t; wflag says that the page is being written out. */
  datatype Node = Node(lpa: nat, data: Data, wflag: bool)

  /** fb_wb; list entries are node numbers. */
  datatype Wb = Wb(nodes: seq<Node>, free: seq<nat>, buf: seq<nat>, writing: seq<nat>,
                   hash: map<nat, nat>, nrEntries: int)

  // ---- invariant -----------------------------------------------------------------------------------------------

  predicate AllBelow(s: seq<nat>, n: nat) { forall i :: 0 <= i < |s| ==> s[i] < n }

  ghost predicate Numbers(w: Wb) {
    && AllBelow(w.free, |w.nodes|) && AllBelow(w.buf, |w.nodes|) && AllBelow(w.writing, |w.nodes|)
    && (forall lpa :: lpa in w.hash ==> w.hash[lpa] < |w.nodes|)
  }

  /** Every node is in exactly one of the three lists. */
  ghost predicate Lists(w: Wb) {
    multiset(w.free) + multiset(w.buf) + multiset(w.writing) == multiset(Below(|w.nodes|))
  }

  /** Node x is the one the index names for its LPA. */
  predicate Indexed(w: Wb, x: nat)
    requires x < |w.nodes|
  {
    w.nodes[x].lpa in w.hash && w.hash[w.nodes[x].lpa] == x
  }

  /** The index and the lists agree, wflag telling the list. */
  ghost predicate Index(w: Wb)
    requires Numbers(w)
  {
    && (forall x :: x in w.buf ==> Indexed(w, x) && !w.nodes[x].wflag)
    && (forall x :: x in w.writing ==> Indexed(w, x) && w.nodes[x].wflag)
    && (forall x :: x in w.free ==> !w.nodes[x].wflag)
    && (forall lpa :: lpa in w.hash ==>
          w.nodes[w.hash[lpa]].lpa == lpa && (w.hash[lpa] in w.buf || w.hash[lpa] in w.writing))
  }

  ghost predicate WbInv(w: Wb) {
    Numbers(w) && Lists(w) && Index(w) && w.nrEntries == |w.buf|
  }

  /** What a reader finds in the buffer. */
  ghost function Contents(w: Wb): map<nat, Data>
    requires Numbers(w)
  {
    map lpa | lpa in w.hash :: w.nodes[w.hash[lpa]].data
  }

  /** The lists exclude one another, and no node is lost. */
  lemma OneList(w: Wb, x: nat)
    requires Lists(w)
    ensures x in w.free ==> x !in w.buf && x !in w.writing
    ensures x in w.buf ==> x !in w.writing
    ensures x < |w.nodes| <==> x in w.free || x in w.buf || x in w.writing
    ensures |w.free| + |w.buf| + |w.writing| == |w.nodes|
  {
    var m := multiset(w.free) + multiset(w.buf) + multiset(w.writing);
    assert m[x] == multiset(w.free)[x] + multiset(w.buf)[x] + multiset(w.writing)[x];
    assert m[x] == if x in Below(|w.nodes|) then 1 else 0;
    assert x in w.free <==> multiset(w.free)[x] > 0;
    assert x in w.buf <==> multiset(w.buf)[x] > 0;
    assert x in w.writing <==> multiset(w.writing)[x] > 0;
    BelowCard(|w.nodes|);
    assert |m| == |w.free| + |w.buf| + |w.writing|;
  }

  // ---- fb_put_pg -----------------------------------------------------------------------------------------------

  /** Node x holds `data` and goes to the end of the buffered list. */
  function Buffered(w: Wb, x: nat, data: Data): Wb
    requires x < |w.nodes|
  {
    w.(nodes := w.nodes[x := w.nodes[x].(data := data)], buf := w.buf + [x], nrEntries := w.nrEntries + 1)
  }

  /** A node from the free list takes a new LPA. */
  function Claim(w: Wb, lpa: nat): Wb
    requires w.free != [] && w.free[0] < |w.nodes|
  {
    var x := w.free[0];
    w.(free := w.free[1..], nodes := w.nodes[x := w.nodes[x].(lpa := lpa)], hash := w.hash[lpa := x])
  }

  /** A node leaves the list it is on, to be put back with new data. */
  function Detach(w: Wb, x: nat): Wb
    requires x < |w.nodes|
  {
    if w.nodes[x].wflag then w.(writing := Remove(w.writing, x), nodes := w.nodes[x := w.nodes[x].(wflag := false)])
    else w.(buf := Remove(w.buf, x), nrEntries := w.nrEntries - 1)
  }

  /** fb_put_pg; None is the error return. */
  function Put(w: Wb, lpa: nat, data: Data): Option<Wb>
    requires Numbers(w)
  {
    if lpa in w.hash then Some(Buffered(Detach(w, w.hash[lpa]), w.hash[lpa], data))
    else if w.free == [] then None
    else Some(Buffered(Claim(w, lpa), w.free[0], data))
  }

  // ---- fb_get_pgs_to_write -------------------------------------------------------------------------------------

  /** The first buffered page moves to the writing list. */
  function StartOne(w: Wb): Wb
    requires w.buf != [] && w.buf[0] < |w.nodes|
  {
    var x := w.buf[0];
    w.(buf := w.buf[1..], nrEntries := w.nrEntries - 1, writing := w.writing + [x],
       nodes := w.nodes[x := w.nodes[x].(wflag := true)])
  }

  /** The loop of fb_get_pgs_to_write. */
  function StartWriting(w: Wb, n: nat): (r: Wb)
    requires Numbers(w) && n <= |w.buf|
    ensures Numbers(r)
    decreases n
  {
    if n == 0 then w else StartWriting(StartOne(w), n - 1)
  }

  // ---- a node between two lists --------------------------------------------------------------------------------

  /** Node x is on no list; everything else is as the invariant has it, and the index still names x. */
  ghost predicate Loose(w: Wb, x: nat) {
    && Numbers(w) && x < |w.nodes| && w.nrEntries == |w.buf| && Indexed(w, x) && !w.nodes[x].wflag
    && multiset(w.free) + multiset(w.buf) + multiset(w.writing) == multiset(Below(|w.nodes|)) - multiset{x}
    && (forall y :: y in w.buf ==> Indexed(w, y) && !w.nodes[y].wflag)
    && (forall y :: y in w.writing ==> Indexed(w, y) && w.nodes[y].wflag)
    && (forall y :: y in w.free ==> !w.nodes[y].wflag)
    && (forall lpa :: lpa in w.hash ==>
          && w.nodes[w.hash[lpa]].lpa == lpa
          && (w.hash[lpa] == x || w.hash[lpa] in w.buf || w.hash[lpa] in w.writing))
  }

  lemma LooseNowhere(w: Wb, x: nat)
    requires Loose(w, x)
    ensures x !in w.free && x !in w.buf && x !in w.writing
  {
    var m := multiset(w.free) + multiset(w.buf) + multiset(w.writing);
    assert m[x] == multiset(w.free)[x] + multiset(w.buf)[x] + multiset(w.writing)[x];
    assert m[x] == 0;
  }

  lemma DetachBag(w: Wb, x: nat)
    requires WbInv(w) && (x in w.buf || x in w.writing)
    ensures x < |w.nodes| && w.nodes[x].wflag == (x in w.writing)
    ensures var r := Detach(w, x);
            && multiset(r.free) + multiset(r.buf) + multiset(r.writing) == multiset(Below(|w.nodes|)) - multiset{x}
            && r.nrEntries == |r.buf| && x !in r.buf && x !in r.writing
  {
    OneList(w, x);
    hide Below;
    if x in w.buf { RemoveMultiset(w.buf, x); } else { RemoveMultiset(w.writing, x); }
    hide Numbers, Index;
    var r := Detach(w, x);
    var m := multiset(r.free) + multiset(r.buf) + multiset(r.writing);
    assert m == multiset(Below(|w.nodes|)) - multiset{x};
    assert m[x] == multiset(r.free)[x] + multiset(r.buf)[x] + multiset(r.writing)[x];
    assert multiset(Below(|w.nodes|))[x] <= 1;
  }

  lemma DetachNumbers(w: Wb, x: nat)
    requires Numbers(w) && x < |w.nodes|
    ensures var r := Detach(w, x);
            && Numbers(r) && Contents(r) == Contents(w) && r.hash == w.hash && r.free == w.free
            && (forall y :: y in r.buf ==> y in w.buf) && (forall y :: y in w.buf && y != x ==> y in r.buf)
            && (forall y :: y in r.writing ==> y in w.writing)
            && (forall y :: y in w.writing && y != x ==> y in r.writing)
  {
    RemoveBelow(w.buf, x, |w.nodes|);
    RemoveBelow(w.writing, x, |w.nodes|);
  }

  lemma DetachOk(w: Wb, x: nat)
    requires WbInv(w) && (x in w.buf || x in w.writing)
    ensures x < |w.nodes| && Loose(Detach(w, x), x) && Contents(Detach(w, x)) == Contents(w)
    ensures Detach(w, x).hash == w.hash && Detach(w, x).free == w.free && Detach(w, x).nodes[x].lpa == w.nodes[x].lpa
  {
    hide Below, Lists, NoDup, Contents;
    DetachBag(w, x);
    OneList(w, x);
    DetachNumbers(w, x);
  }

  lemma RemoveBelow(s: seq<nat>, x: nat, n: nat)
    requires AllBelow(s, n)
    ensures AllBelow(Remove(s, x), n)
    ensures forall y :: y in Remove(s, x) ==> y in s
    ensures forall y :: y in s && y != x ==> y in Remove(s, x)
  {
    RemoveKeeps(s, x);
    assert forall i :: 0 <= i < |Remove(s, x)| ==> Remove(s, x)[i] in Remove(s, x);
  }

  lemma ClaimLists(w: Wb)
    requires WbInv(w) && w.free != []
    ensures w.free[0] < |w.nodes| && w.free[0] !in w.free[1..] && w.free[0] !in w.buf && w.free[0] !in w.writing
    ensures multiset(w.free[1..]) + multiset(w.buf) + multiset(w.writing)
            == multiset(Below(|w.nodes|)) - multiset{w.free[0]}
  {
    var x := w.free[0];
    OneList(w, x);
    var m := multiset(w.free[1..]) + multiset(w.buf) + multiset(w.writing);
    assert w.free == [x] + w.free[1..];
    assert multiset(w.free) == multiset{x} + multiset(w.free[1..]);
    assert m + multiset{x} == multiset(Below(|w.nodes|));
    assert multiset(Below(|w.nodes|))[x] <= 1;
    assert m[x] == multiset(w.free[1..])[x] + multiset(w.buf)[x] + multiset(w.writing)[x];
  }

  lemma ClaimOk(w: Wb, lpa: nat)
    requires WbInv(w) && lpa !in w.hash && w.free != []
    ensures w.free[0] < |w.nodes| && Loose(Claim(w, lpa), w.free[0])
    ensures Claim(w, lpa).nodes[w.free[0]].lpa == lpa && Claim(w, lpa).hash == w.hash[lpa := w.free[0]]
  {
    hide Lists, Below;
    ClaimLists(w);
    assert w.free[0] in w.free;
  }

  lemma ClaimContents(w: Wb, lpa: nat, data: Data)
    requires WbInv(w) && lpa !in w.hash && w.free != [] && w.free[0] < |w.nodes| && Loose(Claim(w, lpa), w.free[0])
    ensures Contents(Claim(w, lpa))[lpa := data] == Contents(w)[lpa := data]
  {
    OneList(w, w.free[0]);
    hide Lists;
    assert forall y :: y in w.hash ==> w.hash[y] != w.free[0];
  }

  lemma BufferedOk(w: Wb, x: nat, data: Data)
    requires Loose(w, x)
    ensures var r := Buffered(w, x, data);
            WbInv(r) && Contents(r) == Contents(w)[w.nodes[x].lpa := data] && r.buf == w.buf + [x]
  {
    LooseNowhere(w, x);
    assert x in Below(|w.nodes|);
    hide Below;
    assert multiset(w.buf + [x]) == multiset(w.buf) + multiset{x};
    var r := Buffered(w, x, data);
    assert multiset(r.free) + multiset(r.buf) + multiset(r.writing)
        == multiset(w.free) + multiset(w.buf) + multiset(w.writing) + multiset{x};
  }

  /** The loose node is dropped from the index and becomes free. */
  function Freed(w: Wb, x: nat): Wb
    requires x < |w.nodes|
  {
    w.(hash := w.hash - {w.nodes[x].lpa}, free := w.free + [x])
  }

  lemma FreedOk(w: Wb, x: nat)
    requires Loose(w, x)
    ensures var r := Freed(w, x); WbInv(r) && Contents(r) == Contents(w) - {w.nodes[x].lpa}
  {
    LooseNowhere(w, x);
    assert x in Below(|w.nodes|);
    hide Below;
    assert multiset(w.free + [x]) == multiset(w.free) + multiset{x};
    var r := Freed(w, x);
    assert multiset(r.free) + multiset(r.buf) + multiset(r.writing)
        == multiset(w.free) + multiset(w.buf) + multiset(w.writing) + multiset{x};
  }

  // ---- fb_rm_written_pgs, fb_rm_buf_pg -------------------------------------------------------------------------

  /** Node x leaves its list and the index for the free list. */
  function Release(w: Wb, x: nat): Wb
    requires x < |w.nodes|
  {
    Freed(Detach(w, x), x)
  }

  lemma ReleaseOk(w: Wb, x: nat)
    requires WbInv(w) && (x in w.buf || x in w.writing)
    ensures x < |w.nodes|
    ensures WbInv(Release(w, x)) && Contents(Release(w, x)) == Contents(w) - {w.nodes[x].lpa}
  {
    DetachOk(w, x);
    hide Loose, WbInv;
    FreedOk(Detach(w, x), x);
  }

  lemma ReleaseHead(w: Wb)
    requires WbInv(w) && w.writing != []
    ensures w.writing[0] < |w.nodes|
    ensures var r := Release(w, w.writing[0]);
            WbInv(r) && r.writing == w.writing[1..] && r.buf == w.buf && |r.nodes| == |w.nodes|
            && Contents(r) == Contents(w) - {w.nodes[w.writing[0]].lpa}
  {
    assert w.writing[0] in w.writing;
    ReleaseOk(w, w.writing[0]);
    hide Lists;
  }

  /** fb_rm_written_pgs */
  ghost function RmWritten(w: Wb): (r: Wb)
    requires WbInv(w)
    ensures WbInv(r) && r.writing == [] && r.buf == w.buf && |r.nodes| == |w.nodes|
    decreases |w.writing|
  {
    if w.writing == [] then w
    else
      ReleaseHead(w);
      RmWritten(Release(w, w.writing[0]))
  }

  /** fb_rm_buf_pg */
  function RmBuf(w: Wb, lpa: nat): Wb
    requires Numbers(w)
  {
    if lpa in w.hash then Release(w, w.hash[lpa]) else w
  }

  // ---- what each operation is for ------------------------------------------------------------------------------

  /**
   * fb_put_pg fails exactly when the LPA is new and no node is free; otherwise the buffer shows the
   * new data, at the end of the buffered list, and nothing else changes.
   */
  lemma PutOk(w: Wb, lpa: nat, data: Data)
    requires WbInv(w)
    ensures Put(w, lpa, data).None? <==> lpa !in w.hash && w.free == []
    ensures Put(w, lpa, data).Some? ==>
              var r := Put(w, lpa, data).value;
              WbInv(r) && Contents(r) == Contents(w)[lpa := data] && r.hash.Keys == w.hash.Keys + {lpa}
  {
    hide Loose, Lists, Detach, Claim, Contents;
    if lpa in w.hash {
      DetachOk(w, w.hash[lpa]);
      BufferedOk(Detach(w, w.hash[lpa]), w.hash[lpa], data);
    } else if w.free != [] {
      ClaimOk(w, lpa);
      ClaimContents(w, lpa, data);
      BufferedOk(Claim(w, lpa), w.free[0], data);
    }
  }

  /**
   * Where fb_put_pg leaves the page: at the end of the buffered list, in the node it had, which leaves the list it was
   * on, or in the first free node. The other nodes and their order are as before.
   */
  lemma PutOrder(w: Wb, lpa: nat, data: Data)
    requires WbInv(w) && Put(w, lpa, data).Some?
    ensures var r := Put(w, lpa, data).value;
            && r.buf != [] && WroteNode(w, r, r.buf[|r.buf| - 1], lpa, data)
            && if lpa !in w.hash
               then r.buf == w.buf + [w.free[0]] && r.free == w.free[1..] && r.writing == w.writing
               else var x := w.hash[lpa];
                    && r.free == w.free
                    && if x in w.writing then r.buf == w.buf + [x] && DroppedFrom(w.writing, x, r.writing)
                       else r.writing == w.writing && r.buf[|r.buf| - 1] == x
                            && DroppedFrom(w.buf, x, r.buf[..|r.buf| - 1])
  {
    if lpa in w.hash {
      var x := w.hash[lpa];
      OneList(w, x);
      if x in w.writing { RemoveExact(w.writing, x); } else { RemoveExact(w.buf, x); }
      var r := Put(w, lpa, data).value;
      assert r.buf[..|r.buf| - 1] == Detach(w, x).buf;
    } else {
      assert w.free[0] in w.free;
    }
    hide Lists, DroppedFrom, Remove;
  }

  /** Node x now holds the page, not under writing; the other nodes are as they were. */
  ghost predicate WroteNode(w: Wb, r: Wb, x: nat, lpa: nat, data: Data) {
    x < |w.nodes| && r.nodes == w.nodes[x := Node(lpa, data, false)] && lpa in r.hash && r.hash[lpa] == x
  }

  /** The buffered nodes are all different, and so are the LPAs they hold. */
  lemma BufDistinct(w: Wb)
    requires WbInv(w)
    ensures NoDup(w.buf)
    ensures forall i, j :: 0 <= i < j < |w.buf| ==> w.nodes[w.buf[i]].lpa != w.nodes[w.buf[j]].lpa
  {
    var m := multiset(w.free) + multiset(w.buf) + multiset(w.writing);
    assert multiset(w.buf) <= m;
    NoDupBag(w.buf, m);
    forall i, j | 0 <= i < j < |w.buf| ensures w.nodes[w.buf[i]].lpa != w.nodes[w.buf[j]].lpa {
      assert Indexed(w, w.buf[i]) && Indexed(w, w.buf[j]);
    }
  }

  lemma StartOneLists(w: Wb)
    requires WbInv(w) && w.buf != []
    ensures Lists(StartOne(w)) && w.buf[0] !in w.buf[1..] && w.buf[0] !in w.writing && w.buf[0] !in w.free
  {
    var x := w.buf[0];
    OneList(w, x);
    BufDistinct(w);
    hide Below;
    assert w.buf == [x] + w.buf[1..];
    assert multiset(w.buf) == multiset{x} + multiset(w.buf[1..]);
    assert multiset(w.writing + [x]) == multiset(w.writing) + multiset{x};
  }

  lemma StartOneOk(w: Wb)
    requires WbInv(w) && w.buf != []
    ensures var r := StartOne(w);
            && WbInv(r) && Contents(r) == Contents(w) && r.hash == w.hash && r.free == w.free && SameLpas(w, r)
  {
    hide Lists;
    StartOneLists(w);
  }

  /** The nodes keep their LPAs. */
  ghost predicate SameLpas(w: Wb, r: Wb) {
    |r.nodes| == |w.nodes| && forall x :: 0 <= x < |w.nodes| ==> r.nodes[x].lpa == w.nodes[x].lpa
  }

  /** The LPAs and data fb_get_pgs_to_write hands out. */
  function FirstLpas(w: Wb, n: nat): (r: seq<nat>)
    requires Numbers(w) && n <= |w.buf|
    ensures |r| == n
  {
    seq(n, i requires 0 <= i < n => w.nodes[w.buf[i]].lpa)
  }

  function FirstData(w: Wb, n: nat): (r: seq<Data>)
    requires Numbers(w) && n <= |w.buf|
    ensures |r| == n
  {
    seq(n, i requires 0 <= i < n => w.nodes[w.buf[i]].data)
  }

  /** Pages under writing are still read from the buffer, and are handed out distinct with their data. */
  lemma {:induction false} StartWritingOk(w: Wb, n: nat)
    requires WbInv(w) && n <= |w.buf|
    ensures var r := StartWriting(w, n);
            && WbInv(r) && Contents(r) == Contents(w) && r.hash == w.hash && SameLpas(w, r)
            && r.buf == w.buf[n..] && r.writing == w.writing + w.buf[..n] && r.free == w.free
    decreases n
  {
    hide Lists, Index, Contents;
    if n > 0 {
      StartOneOk(w);
      StartWritingOk(StartOne(w), n - 1);
      assert w.buf[1..][n - 1..] == w.buf[n..] && [w.buf[0]] + w.buf[1..][..n - 1] == w.buf[..n];
    }
  }

  lemma FirstPagesOk(w: Wb, n: nat)
    requires WbInv(w) && n <= |w.buf|
    ensures NoDup(FirstLpas(w, n))
    ensures forall i :: 0 <= i < n ==>
              FirstLpas(w, n)[i] in w.hash && FirstData(w, n)[i] == Contents(w)[FirstLpas(w, n)[i]]
  {
    BufDistinct(w);
    forall i | 0 <= i < n
      ensures FirstLpas(w, n)[i] in w.hash && FirstData(w, n)[i] == Contents(w)[FirstLpas(w, n)[i]]
    {
      assert w.buf[i] in w.buf && Indexed(w, w.buf[i]);
    }
  }

  /** The LPAs of the pages under writing. */
  ghost function WritingLpas(w: Wb): set<nat>
    requires Numbers(w)
  {
    set x | x in w.writing :: w.nodes[x].lpa
  }

  lemma WritingHead(w: Wb)
    requires WbInv(w) && w.writing != []
    ensures w.writing[0] < |w.nodes| && Numbers(Release(w, w.writing[0]))
    ensures WritingLpas(w) == {w.nodes[w.writing[0]].lpa} + WritingLpas(Release(w, w.writing[0]))
  {
    var x := w.writing[0];
    ReleaseHead(w);
    hide Lists;
    assert w.writing == [x] + w.writing[1..];
    assert forall y :: 0 <= y < |w.nodes| ==> Release(w, x).nodes[y].lpa == w.nodes[y].lpa;
  }

  /** fb_rm_written_pgs drops exactly the pages still marked as being written. */
  lemma {:induction false} RmWrittenOk(w: Wb)
    requires WbInv(w)
    ensures Contents(RmWritten(w)) == Contents(w) - WritingLpas(w)
    decreases |w.writing|
  {
    hide Lists, Index, Contents, Release;
    if w.writing != [] {
      ReleaseHead(w);
      WritingHead(w);
      hide WritingLpas;
      RmWrittenOk(Release(w, w.writing[0]));
      RemoveTwice(Contents(w), w.nodes[w.writing[0]].lpa, WritingLpas(Release(w, w.writing[0])));
    } else {
      assert WritingLpas(w) == {};
    }
  }

  lemma RemoveTwice<K, V>(m: map<K, V>, x: K, s: set<K>)
    ensures m - {x} - s == m - ({x} + s) && m - {} == m
  {
  }

  lemma RewriteNotWriting(w: Wb, lpa: nat, data: Data)
    requires WbInv(w) && Put(w, lpa, data).Some? && WbInv(Put(w, lpa, data).value)
    ensures lpa !in WritingLpas(Put(w, lpa, data).value)
  {
    var r := Put(w, lpa, data).value;
    var x := r.buf[|r.buf| - 1];
    assert x in r.buf && r.nodes[x].lpa == lpa;
    OneList(r, x);
    hide Lists, Put;
    forall y | y in r.writing ensures r.nodes[y].lpa != lpa { assert Indexed(r, y); }
  }

  /** A page rewritten while it is being written out survives fb_rm_written_pgs. */
  lemma RewriteSurvives(w: Wb, lpa: nat, data: Data)
    requires WbInv(w) && Put(w, lpa, data).Some?
    ensures var r := Put(w, lpa, data).value;
            && WbInv(r) && lpa in Contents(RmWritten(r)) && Contents(RmWritten(r))[lpa] == data
  {
    hide Lists, Index, Contents, Put, WritingLpas;
    PutOk(w, lpa, data);
    RewriteNotWriting(w, lpa, data);
    RmWrittenOk(Put(w, lpa, data).value);
  }

  /** fb_rm_buf_pg */
  lemma RmBufOk(w: Wb, lpa: nat)
    requires WbInv(w)
    ensures WbInv(RmBuf(w, lpa)) && Contents(RmBuf(w, lpa)) == Contents(w) - {lpa}
  {
    if lpa in w.hash { ReleaseOk(w, w.hash[lpa]); } else { assert Contents(w) - {lpa} == Contents(w); }
  }

  // ---- the start -----------------------------------------------------------------------------------------------

  /** fb_create_write_buffer */
  function InitWb(n: nat): Wb {
    Wb(seq(n, _ => Node(PAGE_UNMAPPED, ERASED, false)), Upto(n), [], [], map[], 0)
  }

  lemma InitWbOk(n: nat)
    ensures WbInv(InitWb(n)) && Contents(InitWb(n)) == map[]
  {
    UptoBag(n);
  }
}
