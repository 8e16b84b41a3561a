/**
 * The write buffer as the source has it: nodes moved between three lists in place. Every method is
 * tied to the buffer functions of WriteBuffer through W(), the buffer the object stands for.
 */
module PageBuffer {
  import opened Common
  import opened Geometry
  import opened FtlState
  import opened WriteBuffer

  class PageBuffer {
    var nodes: seq<Node>
    var free: seq<nat>
    var buf: seq<nat>
    var writing: seq<nat>
    var hash: map<nat, nat>
    var nrEntries: int

    ghost function W(): Wb
      reads this
    {
      Wb(nodes, free, buf, writing, hash, nrEntries)
    }

    /** fb_create_write_buffer */
    constructor (n: nat)
      ensures W() == InitWb(n) && WbInv(W()) && Contents(W()) == map[]
    {
      nodes, free, buf, writing, hash, nrEntries := [], [], [], [], map[], 0;
      new;
      var i := 0;
      while i < n
        invariant 0 <= i <= n && W() == Wb(nodes, Upto(i), [], [], map[], 0)
        invariant nodes == seq(i, _ => Node(PAGE_UNMAPPED, ERASED, false))
      {
        nodes := nodes + [Node(PAGE_UNMAPPED, ERASED, false)];
        free := free + [i];
        i := i + 1;
      }
      InitWbOk(n);
    }

    /** fb_get_pg_data */
    method GetPgData(lpa: nat) returns (r: Option<Data>)
      requires WbInv(W())
      ensures r == if lpa in Contents(W()) then Some(Contents(W())[lpa]) else None
    {
      r := if lpa in hash then Some(nodes[hash[lpa]].data) else None;
    }

    /** Node x leaves the list its wflag says it is on. */
    method DetachNode(x: nat)
      requires x < |nodes|
      modifies this
      ensures W() == Detach(old(W()), x)
    {
      if nodes[x].wflag {
        writing := Remove(writing, x);
        nodes := nodes[x := nodes[x].(wflag := false)];
      } else {
        buf := Remove(buf, x);
        nrEntries := nrEntries - 1;
      }
    }

    /** A node from the free list takes a new LPA. */
    method ClaimNode(lpa: nat) returns (x: nat)
      requires Numbers(W()) && free != []
      modifies this
      ensures x == old(free[0]) && x < |old(nodes)| && W() == Claim(old(W()), lpa)
    {
      x := free[0];
      RemoveHead(free);
      free := Remove(free, x);
      nodes := nodes[x := nodes[x].(lpa := lpa)];
      hash := hash[lpa := x];
    }

    /** fb_put_pg */
    method PutPg(lpa: nat, data: Data) returns (ok: bool)
      requires WbInv(W())
      modifies this
      ensures WbInv(W()) && ok == Put(old(W()), lpa, data).Some?
      ensures W() == if ok then Put(old(W()), lpa, data).value else old(W())
    {
      PutOk(W(), lpa, data);
      hide Lists, Index, Contents, Claim, Detach;
      var x;
      if lpa !in hash {
        if free == [] {
          return false;
        }
        x := ClaimNode(lpa);
      } else {
        x := hash[lpa];
        DetachNode(x);
      }
      assert x < |nodes| by { ClaimOrDetach(old(W()), lpa); }
      nodes := nodes[x := nodes[x].(data := data)];
      buf := buf + [x];
      nrEntries := nrEntries + 1;
      ok := true;
    }

    /** The first buffered page moves to the writing list. */
    method StartNode() returns (x: nat)
      requires WbInv(W()) && buf != []
      modifies this
      ensures WbInv(W()) && W() == StartOne(old(W())) && x == old(buf[0]) && x < |nodes|
    {
      StartOneOk(W());
      hide Lists, Index, Contents;
      x := buf[0];
      RemoveHead(buf);
      buf := Remove(buf, x);
      nrEntries := nrEntries - 1;
      writing := writing + [x];
      nodes := nodes[x := nodes[x].(wflag := true)];
    }

    /** fb_get_pgs_to_write */
    method GetPgsToWrite(n: nat, lpas: array<nat>, dest: array<Data>) returns (ok: bool)
      requires WbInv(W()) && lpas.Length >= n && dest.Length >= n
      modifies this, lpas, dest
      ensures WbInv(W()) && ok == (n <= |old(buf)|)
      ensures ok ==> W() == StartWriting(old(W()), n)
      ensures ok ==> lpas[..n] == FirstLpas(old(W()), n) && dest[..n] == FirstData(old(W()), n)
      ensures !ok ==> W() == old(W())
    {
      hide Lists, Index, StartOne;
      ghost var w0 := W();
      HandedFirst(w0);
      if nrEntries < n {
        return false;
      }
      var i := 0;
      while i < n
        invariant 0 <= i <= n && WbInv(W()) && Handed(w0, W(), i)
        invariant i <= |w0.buf| && StartWriting(W(), n - i) == StartWriting(w0, n)
        invariant forall j :: 0 <= j < i ==> lpas[j] == w0.nodes[w0.buf[j]].lpa && dest[j] == w0.nodes[w0.buf[j]].data
      {
        HandedNext(w0, W(), i);
        var x := StartNode();
        dest[i] := nodes[x].data;
        lpas[i] := nodes[x].lpa;
        i := i + 1;
      }
      ok := true;
    }

    /** fb_rm_written_pgs */
    method RmWrittenPgs()
      requires WbInv(W())
      modifies this
      ensures WbInv(W()) && W() == RmWritten(old(W()))
    {
      hide Lists, Index, Contents;
      ghost var r := RmWritten(W());
      while writing != []
        invariant WbInv(W()) && RmWritten(W()) == r
        decreases |writing|
      {
        ReleaseHead(W());
        var x := writing[0];
        ReleaseNode(x);
      }
    }

    /** A node of the buffered or the writing list goes back to the free list. */
    method ReleaseNode(x: nat)
      requires WbInv(W()) && (x in buf || x in writing) && x < |nodes|
      modifies this
      ensures WbInv(W()) && W() == Release(old(W()), x)
    {
      ReleaseOk(W(), x);
      hide Lists, Index, Contents;
      DetachNode(x);
      hash := hash - {nodes[x].lpa};
      free := free + [x];
    }

    /** fb_rm_buf_pg */
    method RmBufPg(lpa: nat)
      requires WbInv(W())
      modifies this
      ensures WbInv(W()) && W() == RmBuf(old(W()), lpa)
    {
      if lpa in hash {
        ReleaseNode(hash[lpa]);
      }
    }
  }

  /** The first i buffered pages of w have been handed out: the others are still there, no LPA or data has changed. */
  ghost predicate Handed(w: Wb, r: Wb, i: nat) {
    && i <= |w.buf| && r.buf == w.buf[i..] && |r.nodes| == |w.nodes|
    && forall x :: 0 <= x < |w.nodes| ==> r.nodes[x].lpa == w.nodes[x].lpa && r.nodes[x].data == w.nodes[x].data
  }

  /** Neither way of getting a node changes how many there are. */
  lemma ClaimOrDetach(w: Wb, lpa: nat)
    requires Numbers(w)
    ensures lpa in w.hash ==> |Detach(w, w.hash[lpa]).nodes| == |w.nodes|
    ensures lpa !in w.hash && w.free != [] ==> |Claim(w, lpa).nodes| == |w.nodes|
  {
  }

  lemma HandedFirst(w: Wb)
    requires WbInv(w)
    ensures Handed(w, w, 0) && Numbers(w) && w.nrEntries == |w.buf|
  {
  }

  lemma HandedNext(w: Wb, r: Wb, i: nat)
    requires WbInv(w) && WbInv(r) && Handed(w, r, i) && i < |w.buf|
    ensures Numbers(w) && Numbers(r) && r.buf != [] && r.buf[0] == w.buf[i] < |r.nodes| && Handed(w, StartOne(r), i + 1)
    ensures StartOne(r).nodes[r.buf[0]].lpa == w.nodes[w.buf[i]].lpa
    ensures StartOne(r).nodes[r.buf[0]].data == w.nodes[w.buf[i]].data
  {
    hide Lists, Index;
  }
}
