/**
 * The two views of a request are one: run to its end without background GC in between, the steps of
 * Interleaving compute what the request functions of Device say.
 */
module Settling {
  import opened Common
  import opened FtlState
  import opened Mapping
  import opened Filling
  import opened Gc
  import opened Requests
  import opened WriteBuffer
  import opened Device
  import opened Interleaving

  /** The request thread runs until no request is in progress. */
  ghost function Settle(m: Machine): Machine
    requires MachineOk(m)
    decreases Rank(m).0, Rank(m).1, Rank(m).2
  {
    hide MachineOk, Step, Rank;
    if Resting(m) then m else StepLowers(m); Settle(Step(m))
  }

  /** What fb_get_pgs_to_write hands out is what is then on the writing list. */
  lemma OutIsFirst(w: Wb, n: nat)
    requires WbInv(w) && w.writing == [] && n <= |w.buf|
    ensures var r := StartWriting(w, n);
            WbInv(r) && OutLpas(r) == FirstLpas(w, n) && OutData(r) == FirstData(w, n) && |r.writing| == n
  {
    StartWritingOk(w, n);
    StartData(w, n);
    var r := StartWriting(w, n);
    hide Lists, Index, Contents;
    assert r.writing == w.buf[..n];
    assert OutLpas(r) == FirstLpas(w, n);
    assert OutData(r) == FirstData(w, n);
  }

  lemma {:induction false} StartData(w: Wb, n: nat)
    requires WbInv(w) && n <= |w.buf|
    ensures |StartWriting(w, n).nodes| == |w.nodes|
    ensures forall x :: 0 <= x < |w.nodes| ==> StartWriting(w, n).nodes[x].data == w.nodes[x].data
    decreases n
  {
    if n > 0 {
      StartOneOk(w);
      hide Lists, Index, Contents;
      StartData(StartOne(w), n - 1);
    }
  }

  lemma SettleStep(m: Machine)
    requires MachineOk(m) && !Resting(m)
    ensures MachineOk(Step(m)) && Settle(m) == Settle(Step(m))
  {
    hide MachineOk, Step;
    StepLowers(m);
  }

  lemma FlushingStarts(m: Machine)
    requires MachineOk(m) && m.ph.Flushing? && |m.d.w.buf| >= m.d.s.g.slots
    ensures DevInv(m.d) && Step(m).ph.Started?
  {
    hide Ready, WbInv, StartWriting;
  }

  /** Three steps make one round of the flush. */
  lemma RoundSettles(d: Dev, lpas: seq<nat>, data: seq<Data>, i: nat)
    requires MachineOk(Machine(d, Flushing(lpas, data, i))) && |d.w.buf| >= d.s.g.slots
    ensures DevInv(d)
    ensures var r := if FlushOnce(d).1 then Machine(FlushOnce(d).0, Flushing(lpas, data, i))
                     else Machine(FlushOnce(d).0, Failed(SeqSet(lpas)));
            MachineOk(r) && Settle(Machine(d, Flushing(lpas, data, i))) == Settle(r)
  {
    hide MachineOk, Step, Settle, FlushOnce, DevOk;
    var m := Machine(d, Flushing(lpas, data, i));
    FlushingInv(d, lpas, data, i);
    FlushingStarts(m);
    SettleStep(m);
    SettleStep(Step(m));
    RoundSteps(m, Step(m), Step(Step(m)));
    if FlushOnce(d).1 { SettleStep(Step(Step(m))); }
  }

  lemma RoundSteps(m0: Machine, m1: Machine, m2: Machine)
    requires MachineOk(m0) && m0.ph.Flushing? && DevInv(m0.d) && !m0.d.err && |m0.d.w.buf| >= m0.d.s.g.slots
    requires m1 == Step(m0)
    requires MachineOk(m1) && m1.ph.Started?
    requires m2 == Step(m1)
    requires MachineOk(m2)
    ensures FlushOnce(m0.d).1 ==> m2.ph.Flashed? && Step(m2) == Machine(FlushOnce(m0.d).0, m0.ph)
    ensures !FlushOnce(m0.d).1 ==> m2 == Machine(FlushOnce(m0.d).0, Failed(SeqSet(m0.ph.lpas)))
  {
    hide Ready, Lists, Index, Contents, View, MakeWrite, Written, LpasOk, WritingLpas;
    OutIsFirst(m0.d.w, m0.d.s.g.slots);
  }

  /** The flush of a page that does not fit, from the head of its loop on. */
  lemma {:induction false} FlushSettles(d: Dev, lpas: seq<nat>, data: seq<Data>, i: nat)
    requires MachineOk(Machine(d, Flushing(lpas, data, i)))
    ensures DevInv(d) && !d.err
    ensures var r := Machine(Flush(d).0, if Flush(d).1 then Putting(lpas, data, i) else Failed(SeqSet(lpas)));
            MachineOk(r) && Settle(Machine(d, Flushing(lpas, data, i))) == Settle(r)
    decreases |d.w.buf|
  {
    FlushingInv(d, lpas, data, i);
    hide MachineOk, Settle, FlushOnce, DevOk, Seen;
    if |d.w.buf| < d.s.g.slots {
      SettleStep(Machine(d, Flushing(lpas, data, i)));
    } else {
      RoundSettles(d, lpas, data, i);
      if FlushOnce(d).1 { FlushSettles(FlushOnce(d).0, lpas, data, i); }
    }
  }

  lemma FlushingInv(d: Dev, lpas: seq<nat>, data: seq<Data>, i: nat)
    requires MachineOk(Machine(d, Flushing(lpas, data, i)))
    ensures DevInv(d) && !d.err && d.s.g.slots > 0
  {
    hide Ready, WbInv;
    ReadySane(d.s);
  }

  /** One turn of the loop over the pages: the page is put, or the buffer is flushed for it. */
  lemma PutTurn(d: Dev, lpas: seq<nat>, data: seq<Data>, i: nat)
    requires DevInv(d) && !d.err && Writable(d.s.g, lpas, data) && i < |lpas| && WbInv(d.w)
    ensures Put(d.w, lpas[i], data[i]).Some? ==>
              var d1 := WithPage(d, lpas[i], data[i]);
              && DevInv(d1) && !d1.err && d1.s.g == d.s.g && PutAll(d, lpas, data, i) == PutAll(d1, lpas, data, i + 1)
    ensures Put(d.w, lpas[i], data[i]).None? ==>
              && d.w.free == [] && (!Flush(d).1 ==> PutAll(d, lpas, data, i) == Flush(d).0)
              && (Flush(d).1 ==>
                    Flush(d).0.w.free != [] && PutAll(d, lpas, data, i) == PutAll(Flush(d).0, lpas, data, i))
  {
    hide Ready, Lists, Index, Seen, Flush, WithPage, Put;
    PutOk(d.w, lpas[i], data[i]);
    if Put(d.w, lpas[i], data[i]).Some? {
      PutSeen(d, lpas[i], data[i]);
      PutErr(d, lpas[i], data[i]);
    } else {
      RetrySucceeds(d, lpas[i], data[i]);
    }
  }

  /** The loop over the pages. */
  lemma {:induction false} PutSettles(d: Dev, lpas: seq<nat>, data: seq<Data>, i: nat)
    requires MachineOk(Machine(d, Putting(lpas, data, i)))
    ensures DevInv(d) && !d.err && Writable(d.s.g, lpas, data) && i <= |lpas|
    ensures Settle(Machine(d, Putting(lpas, data, i))).d == PutAll(d, lpas, data, i)
    decreases |lpas| - i, d.w.free == []
  {
    hide MachineOk, Settle, Flush, Seen, Put, WithPage, WbInv, Step, PutAll, DevInv, Writable;
    PuttingInv(d, lpas, data, i);
    if i == |lpas| {
      PutEnds(d, lpas, data);
    } else {
      SettleStep(Machine(d, Putting(lpas, data, i)));
      PuttingStep(d, lpas, data, i);
      PutTurn(d, lpas, data, i);
      if Put(d.w, lpas[i], data[i]).Some? {
        PutSettles(WithPage(d, lpas[i], data[i]), lpas, data, i + 1);
      } else {
        FlushSettles(d, lpas, data, i);
        if Flush(d).1 {
          PutSettles(Flush(d).0, lpas, data, i);
        } else {
          SettleRest(Machine(Flush(d).0, Failed(SeqSet(lpas))));
        }
      }
    }
  }

  lemma PutEnds(d: Dev, lpas: seq<nat>, data: seq<Data>)
    requires MachineOk(Machine(d, Putting(lpas, data, |lpas|)))
    ensures DevInv(d) && !d.err && Writable(d.s.g, lpas, data)
    ensures Settle(Machine(d, Putting(lpas, data, |lpas|))).d == PutAll(d, lpas, data, |lpas|) == d
  {
    PuttingInv(d, lpas, data, |lpas|);
    var m := Machine(d, Putting(lpas, data, |lpas|));
    SettleStep(m);
    PuttingStep(d, lpas, data, |lpas|);
    hide MachineOk, Settle, Step, DevInv, Seen;
    SettleRest(Step(m));
  }

  lemma PuttingStep(d: Dev, lpas: seq<nat>, data: seq<Data>, i: nat)
    requires MachineOk(Machine(d, Putting(lpas, data, i))) && WbInv(d.w) && i <= |lpas| == |data|
    ensures Step(Machine(d, Putting(lpas, data, i))) ==
              if i == |lpas| then Machine(d, Idle)
              else if Put(d.w, lpas[i], data[i]).Some?
              then Machine(WithPage(d, lpas[i], data[i]), Putting(lpas, data, i + 1))
              else Machine(d, Flushing(lpas, data, i))
  {
    hide Ready, Lists, Index, WithPage;
  }

  lemma SettleRest(m: Machine)
    requires MachineOk(m) && Resting(m)
    ensures Settle(m) == m
  {
    hide MachineOk;
  }

  lemma PuttingInv(d: Dev, lpas: seq<nat>, data: seq<Data>, i: nat)
    requires MachineOk(Machine(d, Putting(lpas, data, i)))
    ensures DevInv(d) && !d.err && Writable(d.s.g, lpas, data) && i <= |lpas| == |data| && WbInv(d.w) && Numbers(d.w)
  {
    hide Ready, Lists, Index;
  }

  /** A write request, run to its end alone, is WriteReq. */
  lemma WriteSettles(d: Dev, lpas: seq<nat>, data: seq<Data>)
    requires MachineOk(Machine(d, Dropping(lpas, data)))
    ensures DevInv(d) && Writable(d.s.g, lpas, data)
    ensures Settle(Machine(d, Dropping(lpas, data))).d == WriteReq(d, lpas, data)
  {
    DroppingInv(d, lpas, data);
    hide MachineOk, Settle, PutAll, DevOk, Seen;
    SettleStep(Machine(d, Dropping(lpas, data)));
    PutSettles(d.(s := InvalidateAll(d.s, lpas)), lpas, data, 0);
  }

  lemma DroppingInv(d: Dev, lpas: seq<nat>, data: seq<Data>)
    requires MachineOk(Machine(d, Dropping(lpas, data)))
    ensures DevInv(d) && !d.err && Writable(d.s.g, lpas, data) && Shape(d.s)
  {
    hide Ready, WbInv;
    ReadySane(d.s);
  }

  lemma DiscardingStep(d: Dev, rest: seq<nat>)
    requires MachineOk(Machine(d, Discarding(rest)))
    ensures Shape(d.s)
    ensures rest == [] ==> Step(Machine(d, Discarding(rest))) == Machine(d, Idle)
    ensures rest != [] ==>
              exists k: nat :: 0 < k <= |rest| && rest[..k] + rest[k..] == rest
                && Step(Machine(d, Discarding(rest)))
                   == Machine(d.(s := InvalidateAll(d.s, rest[..k])), Discarding(rest[k..]))
  {
    hide Ready, WbInv;
    ReadySane(d.s);
    if rest != [] {
      var k := Min(|rest|, NR_MAX_LPAS_DISCARD);
      assert rest[..k] + rest[k..] == rest;
    }
  }

  /** The batches of a discard, run to their end, invalidate the whole list. */
  lemma {:induction false} DiscardSettles(d: Dev, rest: seq<nat>)
    requires MachineOk(Machine(d, Discarding(rest)))
    ensures Shape(d.s) && Settle(Machine(d, Discarding(rest))).d == d.(s := InvalidateAll(d.s, rest))
    decreases |rest|
  {
    hide MachineOk, Settle, Step, InvalidateAll, Shape;
    var m := Machine(d, Discarding(rest));
    SettleStep(m);
    DiscardingStep(d, rest);
    if rest == [] {
      SettleRest(Step(m));
      InvalidateNone(d.s);
    } else {
      var k: nat :| 0 < k <= |rest| && rest[..k] + rest[k..] == rest
                    && Step(m) == Machine(d.(s := InvalidateAll(d.s, rest[..k])), Discarding(rest[k..]));
      DiscardSettles(d.(s := InvalidateAll(d.s, rest[..k])), rest[k..]);
      InvalidateAppend(d.s, rest[..k], rest[k..]);
    }
  }

  /** A discard request, run to its end alone, is DiscardReq. */
  lemma DiscardAlone(d: Dev, sec: nat, n: nat)
    requires MachineOk(Machine(d, Idle))
    ensures DevInv(d) && MachineOk(Apply(Machine(d, Idle), Discard(sec, n)))
    ensures Settle(Apply(Machine(d, Idle), Discard(sec, n))).d == DiscardReq(d, sec, n)
  {
    hide Ready, Lists, Index, Seen, Settle, RmAll, InvalidateBatched, InvalidateAll, DiscardLpas;
    ReadySane(d.s);
    var l := DiscardLpas(sec, n);
    DiscardArrives(Machine(d, Idle), sec, n);
    DiscardSettles(d.(w := RmAll(d.w, l)), l);
    BatchedOk(d.s, l, 0, []);
    assert [] + l[0..] == l;
  }
}
