/**
 * The device at the granularity of its locks: the request thread takes one step per region guarded by
 * the mapping lock or the buffer lock, and background GC may run between any two of these steps.
 */
module Interleaving {
  import opened Common
  import opened Geometry
  import opened FtlState
  import opened Mapping
  import opened Filling
  import opened Copying
  import opened Gc
  import opened BackgroundGc
  import opened StaleVictim
  import opened Requests
  import opened WriteBuffer
  import opened Device

  /** Where the request thread is. */
  datatype Phase =
    | Idle
    | Failed(lost: set<nat>)                             // err is set: the pages of the failed and all later requests
    | Dropping(lpas: seq<nat>, data: seq<Data>)          // a write, before fb_del_invalid_data
    | Putting(lpas: seq<nat>, data: seq<Data>, i: nat)   // before fb_put_pg of page i
    | Flushing(lpas: seq<nat>, data: seq<Data>, i: nat)  // page i did not fit: at the head of the flush loop
    | Started(lpas: seq<nat>, data: seq<Data>, i: nat)   // after fb_get_pgs_to_write
    | Flashed(lpas: seq<nat>, data: seq<Data>, i: nat)   // after make_write_request_page_mapping
    | Discarding(rest: seq<nat>)                         // a discard, its pages gone from the buffer

  datatype Machine = Machine(d: Dev, ph: Phase)

  /** A request arrives, the request thread takes a step, or background GC runs. */
  datatype Event = Write(lpas: seq<nat>, data: seq<Data>) | Discard(sec: nat, n: nat) | Go | Background

  // ---- the pages under writing ---------------------------------------------------------------------------------

  function OutLpas(w: Wb): (r: seq<nat>)
    requires Numbers(w)
    ensures |r| == |w.writing|
  {
    seq(|w.writing|, i requires 0 <= i < |w.writing| => w.nodes[w.writing[i]].lpa)
  }

  function OutData(w: Wb): (r: seq<Data>)
    requires Numbers(w)
    ensures |r| == |w.writing|
  {
    seq(|w.writing|, i requires 0 <= i < |w.writing| => w.nodes[w.writing[i]].data)
  }

  /** What fb_get_pgs_to_write hands to the FTL is what is then on the writing list, all different. */
  lemma OutOk(w: Wb)
    requires WbInv(w)
    ensures NoDup(OutLpas(w)) && WritingLpas(w) == SeqSet(OutLpas(w))
    ensures forall i :: 0 <= i < |w.writing| ==>
              OutLpas(w)[i] in w.hash && OutData(w)[i] == Contents(w)[OutLpas(w)[i]]
  {
    var m := multiset(w.free) + multiset(w.buf) + multiset(w.writing);
    NoDupBag(w.writing, m);
    hide Lists;
    var l := OutLpas(w);
    forall i | 0 <= i < |l|
      ensures l[i] in w.hash && OutData(w)[i] == Contents(w)[l[i]] && w.hash[l[i]] == w.writing[i]
    {
      assert w.writing[i] in w.writing;
    }
    forall x ensures x in WritingLpas(w) <==> x in SeqSet(l) {
      if x in WritingLpas(w) {
        var y :| y in w.writing && w.nodes[y].lpa == x;
        var i :| 0 <= i < |w.writing| && w.writing[i] == y;
        assert l[i] == x;
      }
      if x in SeqSet(l) {
        var i :| 0 <= i < |l| && l[i] == x;
        assert w.writing[i] in w.writing;
      }
    }
  }

  /** The pages under writing are on the flash, with the data the buffer has. */
  ghost predicate OnFlash(d: Dev)
    requires DevOk(d)
  {
    forall x :: x in WritingLpas(d.w) && x in d.w.hash ==> x in View(d.s) && View(d.s)[x] == Contents(d.w)[x]
  }

  // ---- the machine ---------------------------------------------------------------------------------------------

  ghost predicate InWrite(d: Dev, lpas: seq<nat>, data: seq<Data>, i: nat) {
    !d.err && Writable(d.s.g, lpas, data) && i <= |lpas|
  }

  ghost predicate MachineOk(m: Machine) {
    DevOk(m.d) &&
    match m.ph
    case Idle => !m.d.err && m.d.w.writing == []
    case Failed(_) => m.d.err
    case Dropping(lpas, data) => InWrite(m.d, lpas, data, 0) && m.d.w.writing == []
    case Putting(lpas, data, i) => InWrite(m.d, lpas, data, i) && m.d.w.writing == []
    case Flushing(lpas, data, i) => InWrite(m.d, lpas, data, i) && m.d.w.writing == [] && i < |lpas|
    case Started(lpas, data, i) => InWrite(m.d, lpas, data, i) && |m.d.w.writing| == m.d.s.g.slots && i < |lpas|
    case Flashed(lpas, data, i) => InWrite(m.d, lpas, data, i) && OnFlash(m.d) && i < |lpas|
    case Discarding(rest) => !m.d.err && m.d.w.writing == [] && forall x :: x in rest ==> x !in m.d.w.hash
  }

  /** No request is in progress. */
  predicate Resting(m: Machine) { m.ph.Idle? || m.ph.Failed? }

  ghost predicate Enabled(m: Machine, e: Event)
    requires MachineOk(m)
  {
    match e
    case Write(lpas, data) => Resting(m) && Writable(m.d.s.g, lpas, data)
    case Discard(_, _) => Resting(m)
    case Go => !Resting(m)
    case Background => BgcSafe(m.d.s)
  }

  /** The map the completed requests and the one in progress ask for. */
  ghost function Goal(a: map<nat, Data>, e: Event): map<nat, Data>
    requires e.Write? ==> |e.lpas| == |e.data|
  {
    match e
    case Write(lpas, data) => PutInto(a, lpas, data, 0)
    case Discard(sec, n) => a - SeqSet(DiscardLpas(sec, n))
    case Go => a
    case Background => a
  }

  /** Two maps agree outside a set of keys. */
  ghost predicate Same(v: map<nat, Data>, a: map<nat, Data>, lost: set<nat>) {
    forall x: nat :: x !in lost ==> (x in v <==> x in a) && (x in v ==> v[x] == a[x])
  }

  /** What is visible now, completed by what the request in progress has still to do, is the map a. */
  ghost predicate Agrees(m: Machine, a: map<nat, Data>)
    requires MachineOk(m)
  {
    match m.ph
    case Idle => Seen(m.d) == a
    case Failed(lost) => Same(Seen(m.d), a, lost)
    case Dropping(lpas, data) => PutInto(Seen(m.d), lpas, data, 0) == a
    case Putting(lpas, data, i) => PutInto(Seen(m.d), lpas, data, i) == a
    case Flushing(lpas, data, i) => PutInto(Seen(m.d), lpas, data, i) == a
    case Started(lpas, data, i) => PutInto(Seen(m.d), lpas, data, i) == a
    case Flashed(lpas, data, i) => PutInto(Seen(m.d), lpas, data, i) == a
    case Discarding(rest) => Seen(m.d) - SeqSet(rest) == a
  }

  // ---- the steps -----------------------------------------------------------------------------------------------

  /** What make_write_request_page_mapping is given fits it. */
  lemma OutLpasOk(d: Dev)
    requires DevOk(d) && |d.w.writing| == d.s.g.slots
    ensures LpasOk(d.s.g, OutLpas(d.w)) && |OutData(d.w)| == d.s.g.slots
  {
    hide Ready, Index, Lists;
    assert Sane(d.s.g) by { ReadySane(d.s); }
    OutOk(d.w);
    var l := OutLpas(d.w);
    forall i | 0 <= i < |l| ensures l[i] < d.s.g.entries && l[i] != PAGE_UNMAPPED {
      assert l[i] in d.w.hash;
    }
  }

  /** The flash program of a flush. */
  ghost function Program1(d: Dev, lpas: seq<nat>, data: seq<Data>, i: nat): Machine
    requires DevOk(d) && |d.w.writing| == d.s.g.slots
  {
    OutLpasOk(d);
    var r := MakeWrite(d.s, OutLpas(d.w), OutData(d.w));
    if r.1 then Machine(d.(s := r.0), Flashed(lpas, data, i))
    else Machine(d.(s := r.0, err := true), Failed(SeqSet(lpas)))
  }

  function Min(a: nat, b: nat): nat { if a < b then a else b }

  /** One locked region of the request thread. */
  ghost function Step(m: Machine): Machine
    requires MachineOk(m) && !Resting(m)
  {
    ReadySane(m.d.s);
    var d := m.d;
    match m.ph
    case Dropping(lpas, data) => Machine(d.(s := InvalidateAll(d.s, lpas)), Putting(lpas, data, 0))
    case Putting(lpas, data, i) =>
      if i == |lpas| then Machine(d, Idle)
      else if Put(d.w, lpas[i], data[i]).Some? then Machine(WithPage(d, lpas[i], data[i]), Putting(lpas, data, i + 1))
      else Machine(d, Flushing(lpas, data, i))
    case Flushing(lpas, data, i) =>
      if |d.w.buf| < d.s.g.slots then Machine(d, Putting(lpas, data, i))
      else Machine(d.(w := StartWriting(d.w, d.s.g.slots)), Started(lpas, data, i))
    case Started(lpas, data, i) => Program1(d, lpas, data, i)
    case Flashed(lpas, data, i) => Machine(d.(w := RmWritten(d.w)), Flushing(lpas, data, i))
    case Discarding(rest) =>
      if rest == [] then Machine(d, Idle)
      else
        var k := Min(|rest|, NR_MAX_LPAS_DISCARD);
        Machine(d.(s := InvalidateAll(d.s, rest[..k])), Discarding(rest[k..]))
  }

  ghost function Apply(m: Machine, e: Event): Machine
    requires MachineOk(m) && Enabled(m, e)
  {
    ReadySane(m.d.s);
    match e
    case Write(lpas, data) =>
      if m.ph.Failed? then m.(ph := Failed(m.ph.lost + SeqSet(lpas))) else m.(ph := Dropping(lpas, data))
    case Discard(sec, n) =>
      if m.ph.Failed? then m.(ph := Failed(m.ph.lost + SeqSet(DiscardLpas(sec, n))))
      else Machine(m.d.(w := RmAll(m.d.w, DiscardLpas(sec, n))), Discarding(DiscardLpas(sec, n)))
    case Go => Step(m)
    case Background => m.(d := m.d.(s := Bgc(m.d.s).0))
  }

  /**
   * A step from m to r keeps the machine in order and brings what is visible no nearer and no further from its
   * goal.
   */
  ghost predicate Sound(m: Machine, r: Machine) {
    MachineOk(m) && MachineOk(r) && r.d.s.g == m.d.s.g && forall a :: Agrees(m, a) ==> Agrees(r, a)
  }

  lemma DroppingSound(m: Machine)
    requires MachineOk(m) && m.ph.Dropping?
    ensures Sound(m, Step(m))
  {
    hide Ready, Lists, Index, Contents, View, InvalidateAll;
    ReadySane(m.d.s);
    var l := m.ph.lpas;
    InvalidatedSeen(m.d, l);
    var d1 := m.d.(s := InvalidateAll(m.d.s, l));
    assert l[0..] == l;
    forall x | x !in l ensures (x in Seen(d1) <==> x in Seen(m.d)) && (x in Seen(d1) ==> Seen(d1)[x] == Seen(m.d)[x]) {
      assert x !in SeqSet(l);
    }
    PutIntoAgree(Seen(d1), Seen(m.d), l, m.ph.data, 0);
  }

  lemma PuttingSound(m: Machine)
    requires MachineOk(m) && m.ph.Putting?
    ensures Sound(m, Step(m))
  {
    hide Ready, Lists, Index, Seen, WithPage;
    var l, x, i := m.ph.lpas, m.ph.data, m.ph.i;
    if i < |l| {
      if Put(m.d.w, l[i], x[i]).Some? {
        PutSeen(m.d, l[i], x[i]);
        PutErr(m.d, l[i], x[i]);
      }
    }
  }

  lemma FlushingSound(m: Machine)
    requires MachineOk(m) && m.ph.Flushing?
    ensures Sound(m, Step(m))
  {
    hide Ready, Lists, Index, Contents, View;
    ReadySane(m.d.s);
    if |m.d.w.buf| >= m.d.s.g.slots { StartWritingOk(m.d.w, m.d.s.g.slots); }
  }

  /** Writing pages the buffer holds does not show, and puts them on the flash. */
  lemma WrittenBehind(v: map<nat, Data>, b: map<nat, Data>, lpas: seq<nat>, data: seq<Data>)
    requires |lpas| == |data| && NoDup(lpas)
    requires forall i :: 0 <= i < |lpas| ==> lpas[i] != PAGE_UNMAPPED && lpas[i] in b && b[lpas[i]] == data[i]
    ensures Written(v, lpas, data, 0) + b == v + b
    ensures forall x :: x in SeqSet(lpas) ==> x in Written(v, lpas, data, 0) && Written(v, lpas, data, 0)[x] == b[x]
  {
    hide Written;
    WrittenAt(v, lpas, data, 0);
    assert lpas[0..] == lpas;
  }

  lemma StartedShows(d: Dev)
    requires DevOk(d) && |d.w.writing| == d.s.g.slots
    ensures LpasOk(d.s.g, OutLpas(d.w))
    ensures var v := Written(View(d.s), OutLpas(d.w), OutData(d.w), 0);
            && v + Contents(d.w) == View(d.s) + Contents(d.w)
            && forall x :: x in WritingLpas(d.w) && x in d.w.hash ==> x in v && v[x] == Contents(d.w)[x]
  {
    OutLpasOk(d);
    OutOk(d.w);
    hide Ready, Lists, Index, View, Written, OutLpas, OutData;
    ContentsKeys(d.w);
    WrittenBehind(View(d.s), Contents(d.w), OutLpas(d.w), OutData(d.w));
  }

  /** A write that is not finished has not touched any page outside it. */
  lemma PutIntoSame(v: map<nat, Data>, lpas: seq<nat>, data: seq<Data>, i: nat)
    requires i <= |lpas| == |data|
    ensures Same(v, PutInto(v, lpas, data, i), SeqSet(lpas))
  {
    forall x: nat | x !in SeqSet(lpas)
      ensures (x in v <==> x in PutInto(v, lpas, data, i)) && (x in v ==> v[x] == PutInto(v, lpas, data, i)[x])
    {
      PutIntoAt(v, lpas, data, i, x);
      assert x !in lpas[i..];
    }
  }

  lemma StartedSound(m: Machine)
    requires MachineOk(m) && m.ph.Started?
    ensures Sound(m, Step(m))
  {
    hide Ready, Lists, Index, Contents, View, MakeWrite, Written, LpasOk, OutLpas, OutData, WritingLpas, Same;
    StartedShows(m.d);
    PutIntoSame(Seen(m.d), m.ph.lpas, m.ph.data, m.ph.i);
  }

  /** Dropping from the buffer what the flash has as well does not show. */
  lemma DropsBehind(v: map<nat, Data>, b: map<nat, Data>, p: set<nat>)
    requires forall x :: x in p && x in b ==> x in v && v[x] == b[x]
    ensures v + (b - p) == v + b
  {
  }

  lemma FlashedSound(m: Machine)
    requires MachineOk(m) && m.ph.Flashed?
    ensures Sound(m, Step(m))
  {
    hide Ready, Lists, Index, View, WritingLpas;
    RmWrittenOk(m.d.w);
    ContentsKeys(m.d.w);
    ContentsKeys(RmWritten(m.d.w));
    ReadySane(m.d.s);
    hide Contents, RmWritten, View;
    DropsBehind(View(m.d.s), Contents(m.d.w), WritingLpas(m.d.w));
  }

  lemma DiscardingSound(m: Machine)
    requires MachineOk(m) && m.ph.Discarding?
    ensures Sound(m, Step(m))
  {
    hide Ready, Lists, Index, View, InvalidateAll;
    ReadySane(m.d.s);
    var rest := m.ph.rest;
    if rest != [] {
      var k := Min(|rest|, NR_MAX_LPAS_DISCARD);
      InvalidateAllOk(m.d.s, rest[..k]);
      SplitSet(rest, k);
      ContentsKeys(m.d.w);
      hide Contents;
      DropsApart(View(m.d.s), Contents(m.d.w), SeqSet(rest[..k]), SeqSet(rest[k..]));
    } else {
      assert SeqSet(rest) == {};
    }
  }

  lemma SplitSet(l: seq<nat>, k: nat)
    requires k <= |l|
    ensures SeqSet(l) == SeqSet(l[..k]) + SeqSet(l[k..])
    ensures forall x :: x in SeqSet(l[..k]) ==> x in l
    ensures forall x :: x in l[k..] ==> x in l
  {
    forall x ensures x in SeqSet(l) <==> x in SeqSet(l[..k]) || x in SeqSet(l[k..]) {
      assert x in SeqSet(l) <==> x in l;
      assert x in SeqSet(l[..k]) <==> x in l[..k];
      assert x in SeqSet(l[k..]) <==> x in l[k..];
      assert l == l[..k] + l[k..];
    }
  }

  lemma DropsApart(v: map<nat, Data>, b: map<nat, Data>, p: set<nat>, q: set<nat>)
    requires p !! b.Keys
    ensures (v - p + b) - q == (v + b) - (p + q)
  {
  }

  /** Only the view of the flash matters to a request in progress. */
  lemma SameViewSound(m: Machine, s1: State)
    requires MachineOk(m) && Ready(s1) && s1.g == m.d.s.g && View(s1) == View(m.d.s)
    ensures Sound(m, m.(d := m.d.(s := s1)))
  {
    hide Ready, WbInv, Contents, View, WritingLpas;
    ReadySane(m.d.s);
  }

  /** Background GC, wherever in a request it comes, does not show. */
  lemma BackgroundSound(m: Machine)
    requires MachineOk(m) && Enabled(m, Background)
    ensures Sound(m, Apply(m, Background))
  {
    hide Ready, WbInv, View, Contents, Bgc, BgcSafe, WritingLpas, MachineOk, Sound, DevOk, InvAt, Shape;
    MachineReady(m);
    ReadySane(m.d.s);
    BgcKeeps(m.d.s);
    InvShape(Bgc(m.d.s).0);
    SameViewSound(m, Bgc(m.d.s).0);
  }

  lemma MachineReady(m: Machine)
    requires MachineOk(m)
    ensures Ready(m.d.s)
  {
    hide Ready, WbInv, WritingLpas, View, Contents;
  }

  // ---- arriving requests ---------------------------------------------------------------------------------------

  /** A step from m to r that takes every map m agrees with to what event e makes of it. */
  ghost predicate Follows(m: Machine, e: Event, r: Machine)
    requires e.Write? ==> |e.lpas| == |e.data|
  {
    MachineOk(m) && MachineOk(r) && r.d.s.g == m.d.s.g && (m.d.err ==> r.d.err)
    && forall a :: Agrees(m, a) ==> Agrees(r, Goal(a, e))
  }

  lemma StepSound(m: Machine)
    requires MachineOk(m) && !Resting(m)
    ensures Sound(m, Step(m))
  {
    hide MachineOk, Sound, Step;
    match m.ph {
      case Dropping(_, _) => DroppingSound(m);
      case Putting(_, _, _) => PuttingSound(m);
      case Flushing(_, _, _) => FlushingSound(m);
      case Started(_, _, _) => StartedSound(m);
      case Flashed(_, _, _) => FlashedSound(m);
      case Discarding(_) => DiscardingSound(m);
    }
  }

  lemma DiscardArrives(m: Machine, sec: nat, n: nat)
    requires MachineOk(m) && Resting(m)
    ensures Follows(m, Discard(sec, n), Apply(m, Discard(sec, n)))
  {
    hide Ready, Lists, Index, View, DiscardLpas, RmAll;
    if m.ph.Idle? {
      ReadySane(m.d.s);
      var l := DiscardLpas(sec, n);
      var w1 := RmAll(m.d.w, l);
      ContentsKeys(m.d.w);
      ContentsKeys(w1);
      assert forall x :: x in SeqSet(l) <==> x in l;
      hide Contents;
      DropsOver(View(m.d.s), Contents(m.d.w), SeqSet(l));
    }
  }

  lemma DropsOver(v: map<nat, Data>, b: map<nat, Data>, p: set<nat>)
    ensures (v + (b - p)) - p == (v + b) - p
  {
  }

  lemma EventSound(m: Machine, e: Event)
    requires MachineOk(m) && Enabled(m, e)
    ensures Follows(m, e, Apply(m, e))
  {
    hide MachineOk, Step, Ready, WbInv, Bgc, BgcSafe, Agrees, PutInto;
    match e {
      case Write(lpas, data) => WriteArrives(m, lpas, data);
      case Discard(sec, n) => DiscardArrives(m, sec, n);
      case Go => StepSound(m); StepErr(m);
      case Background => BackgroundSound(m);
    }
  }

  lemma WriteArrives(m: Machine, lpas: seq<nat>, data: seq<Data>)
    requires MachineOk(m) && Resting(m) && Writable(m.d.s.g, lpas, data)
    ensures Follows(m, Write(lpas, data), Apply(m, Write(lpas, data)))
  {
    hide Ready, Lists, Index, Seen;
    if m.ph.Failed? {
      forall a: map<nat, Data> ensures Same(a, PutInto(a, lpas, data, 0), SeqSet(lpas)) {
        PutIntoSame(a, lpas, data, 0);
      }
    }
  }

  lemma StepErr(m: Machine)
    requires MachineOk(m) && !Resting(m)
    ensures !m.d.err
  {
    hide Ready, WbInv;
  }

  // ---- runs ----------------------------------------------------------------------------------------------------

  /** Every event of the run can happen when its turn comes. */
  ghost predicate RunOk(m: Machine, es: seq<Event>)
    requires MachineOk(m)
    decreases |es|
  {
    es != [] ==> Enabled(m, es[0]) && (EventSound(m, es[0]); RunOk(Apply(m, es[0]), es[1..]))
  }

  ghost function Run(m: Machine, es: seq<Event>): Machine
    requires MachineOk(m) && RunOk(m, es)
    decreases |es|
  {
    if es == [] then m else EventSound(m, es[0]); Run(Apply(m, es[0]), es[1..])
  }

  /** The plain map after the requests of the run, whatever happens in between. */
  ghost function Wanted(a: map<nat, Data>, es: seq<Event>): map<nat, Data>
    requires forall i :: 0 <= i < |es| && es[i].Write? ==> |es[i].lpas| == |es[i].data|
    decreases |es|
  {
    if es == [] then a else Wanted(Goal(a, es[0]), es[1..])
  }

  /**
   * Refinement over whole runs: requests of any length, cut into locked regions, with background GC
   * between any two of them. The invariant always holds, and whenever no request is in progress buffer and
   * flash together hold exactly the map the requests so far ask for - after a failed write, outside the
   * pages of that write and of the requests refused since.
   */
  lemma {:induction false} RunRefines(m: Machine, a: map<nat, Data>, es: seq<Event>)
    requires MachineOk(m) && Agrees(m, a) && RunOk(m, es)
    ensures forall i :: 0 <= i < |es| && es[i].Write? ==> |es[i].lpas| == |es[i].data|
    ensures MachineOk(Run(m, es)) && Agrees(Run(m, es), Wanted(a, es))
    ensures Run(m, es).ph.Idle? ==> Seen(Run(m, es).d) == Wanted(a, es)
    ensures Run(m, es).ph.Failed? ==> Same(Seen(Run(m, es).d), Wanted(a, es), Run(m, es).ph.lost)
    decreases |es|
  {
    hide MachineOk, Apply, Seen;
    if es != [] {
      EventSound(m, es[0]);
      RunRefines(Apply(m, es[0]), Goal(a, es[0]), es[1..]);
      assert forall i :: 0 < i < |es| ==> es[i] == es[1..][i - 1];
    }
  }

  /**
   * Whenever no request is in progress, a read is served if and only if no write has failed so far, and then
   * returns what the requests ask for.
   */
  lemma RunReads(m: Machine, a: map<nat, Data>, es: seq<Event>, lpa: nat)
    requires MachineOk(m) && Agrees(m, a) && RunOk(m, es) && Resting(Run(m, es))
    ensures forall i :: 0 <= i < |es| && es[i].Write? ==> |es[i].lpas| == |es[i].data|
    ensures MachineOk(Run(m, es)) && Shape(Run(m, es).d.s) && Numbers(Run(m, es).d.w)
    ensures ReadReq(Run(m, es).d, lpa).Served? <==> Run(m, es).ph.Idle?
    ensures Run(m, es).ph.Idle? ==>
              ReadReq(Run(m, es).d, lpa) == Served(if lpa in Wanted(a, es) then Some(Wanted(a, es)[lpa]) else None)
  {
    hide Ready, WbInv, View, Contents, ReadPage, Agrees, WritingLpas;
    RunRefines(m, a, es);
    ReadPageOk(Run(m, es).d, lpa);
  }

  // ---- the start -----------------------------------------------------------------------------------------------

  /** The device as fb_init leaves it. */
  ghost function InitDev(g: Geo, disk: map<BlkId, seq<seq<Data>>>, lpaBuf: seq<nat>, dataBuf: seq<Data>, n: nat): Dev
    requires g.blocks >= 2 && g.buses > 0 && g.chips > 0
  {
    Dev(InitState(g, disk, lpaBuf, dataBuf), InitWb(n), false)
  }

  /** A new device is in order and shows the empty map, whatever its memory holds. */
  lemma InitAgrees(g: Geo, disk: map<BlkId, seq<seq<Data>>>, lpaBuf: seq<nat>, dataBuf: seq<Data>, n: nat)
    requires Sane(g) && g.blocks >= 2 && DiskShape(g, disk) && n >= g.slots
    requires |lpaBuf| == BufSize(g) && |dataBuf| >= BufSize(g)
    ensures var m := Machine(InitDev(g, disk, lpaBuf, dataBuf, n), Idle); MachineOk(m) && Agrees(m, map[])
  {
    hide Ready, View, WbInv, Contents, MachineOk, Agrees;
    InitOk(g, disk, lpaBuf, dataBuf);
    InitWbOk(n);
    EmptyAgrees(InitDev(g, disk, lpaBuf, dataBuf, n));
  }

  lemma EmptyAgrees(d: Dev)
    requires Ready(d.s) && View(d.s) == map[] && WbInv(d.w) && Contents(d.w) == map[] && d.w.hash == map[]
    requires |d.w.nodes| >= d.s.g.slots && d.w.writing == [] && !d.err
    ensures MachineOk(Machine(d, Idle)) && Agrees(Machine(d, Idle), map[])
  {
    hide Ready, View, WbInv, Contents, WritingLpas;
  }

  // ---- every request ends --------------------------------------------------------------------------------------

  /** Pages still to put; how far the current page is; how much of the flush is left. */
  ghost function Rank(m: Machine): (nat, nat, nat)
    requires MachineOk(m)
  {
    match m.ph
    case Idle => (0, 0, 0)
    case Failed(_) => (0, 0, 0)
    case Dropping(lpas, _) => (|lpas| + 2, 0, 0)
    case Putting(lpas, data, i) =>
      (|lpas| - i + 1, if i < |lpas| && Put(m.d.w, lpas[i], data[i]).None? then 3 else 1, 0)
    case Flushing(lpas, _, i) => (|lpas| - i + 1, 2, 3 * |m.d.w.buf|)
    case Started(lpas, _, i) => (|lpas| - i + 1, 2, 3 * |m.d.w.buf| + 2)
    case Flashed(lpas, _, i) => (|lpas| - i + 1, 2, 3 * |m.d.w.buf| + 1)
    case Discarding(rest) => (|rest| + 1, 0, 0)
  }

  predicate Lower(a: (nat, nat, nat), b: (nat, nat, nat)) {
    a.0 < b.0 || (a.0 == b.0 && (a.1 < b.1 || (a.1 == b.1 && a.2 < b.2)))
  }

  /** A short buffer with nothing under writing leaves a free node. */
  lemma ShortHasFree(d: Dev)
    requires DevOk(d) && d.w.writing == [] && |d.w.buf| < d.s.g.slots
    ensures d.w.free != []
  {
    OneList(d.w, 0);
    hide Ready, Index, Lists;
  }

  /**
   * Every step of the request thread brings its request nearer to its end - the retry after a flush
   * included - and background GC does not set it back, so every request ends.
   */
  lemma RequestsEnd(m: Machine)
    requires MachineOk(m)
    ensures !Resting(m) ==> MachineOk(Step(m)) && Lower(Rank(Step(m)), Rank(m))
    ensures Enabled(m, Background) ==> MachineOk(Apply(m, Background)) && Rank(Apply(m, Background)) == Rank(m)
  {
    hide Step, Rank, Agrees, Bgc, Ready, WbInv, BgcSafe;
    if !Resting(m) { StepLowers(m); }
    if Enabled(m, Background) {
      BackgroundSound(m);
      MachineReady(m);
      BackgroundRank(m, Bgc(m.d.s).0);
    }
  }

  lemma PuttingLowers(m: Machine)
    requires MachineOk(m) && m.ph.Putting? && MachineOk(Step(m))
    ensures Lower(Rank(Step(m)), Rank(m))
  {
    hide Ready, Lists, Index, View, Contents, Put, WithPage;
  }

  lemma FlushingLowers(m: Machine)
    requires MachineOk(m) && m.ph.Flushing? && MachineOk(Step(m))
    ensures Lower(Rank(Step(m)), Rank(m))
  {
    hide Ready, Lists, Index, View, Contents, WritingLpas, StartWriting;
    ReadySane(m.d.s);
    if |m.d.w.buf| < m.d.s.g.slots { ShortHasFree(m.d); } else { StartWritingOk(m.d.w, m.d.s.g.slots); }
  }

  lemma OtherLowers(m: Machine)
    requires MachineOk(m) && (m.ph.Dropping? || m.ph.Started? || m.ph.Flashed? || m.ph.Discarding?)
    requires MachineOk(Step(m))
    ensures Lower(Rank(Step(m)), Rank(m))
  {
    hide Ready, Lists, Index, View, Contents, InvalidateAll, MakeWrite, Put, WritingLpas;
  }

  lemma StepLowers(m: Machine)
    requires MachineOk(m) && !Resting(m)
    ensures MachineOk(Step(m)) && Lower(Rank(Step(m)), Rank(m))
  {
    StepSound(m);
    hide MachineOk, Step, Rank, Agrees;
    match m.ph {
      case Putting(_, _, _) => PuttingLowers(m);
      case Flushing(_, _, _) => FlushingLowers(m);
      case _ => OtherLowers(m);
    }
  }

  /** Background GC leaves the phase and the buffer alone. */
  lemma BackgroundRank(m: Machine, s1: State)
    requires MachineOk(m) && MachineOk(m.(d := m.d.(s := s1)))
    ensures Rank(m.(d := m.d.(s := s1))) == Rank(m)
  {
    hide Ready, WbInv, Put, WritingLpas, View;
  }
}
