/**
 * Runs in which background GC is always safe: what an event of the machine does to the victim cache, so
 * that the guard of background GC need not be checked but follows from how the run went.
 */
module CacheRuns {
  import opened Geometry
  import opened FtlState
  import opened Mapping
  import opened Copying
  import opened Gc
  import opened BackgroundGc
  import opened StaleVictim
  import opened VictimCache
  import opened Requests
  import opened WriteBuffer
  import opened Device
  import opened Interleaving

  /** The cached victims of the device are intact. */
  ghost predicate CacheOk(m: Machine)
    requires MachineOk(m)
  {
    MachineReady(m);
    InvShape(m.d.s);
    VictimsIntact(m.d.s)
  }

  /**
   * The event is one that keeps the cache: a step of the request thread that does not make its request
   * fail, a request that arrives, or background GC that erases no block still cached as a victim.
   */
  ghost predicate Gentle(m: Machine, e: Event)
    requires MachineOk(m)
  {
    MachineReady(m);
    InvShape(m.d.s);
    match e
    case Write(lpas, data) => Resting(m) && Writable(m.d.s.g, lpas, data)
    case Discard(_, _) => Resting(m)
    case Go => !Resting(m) && !Step(m).ph.Failed?
    case Background => m.d.s.chips[m.d.s.mru].act.Some? || NoneEndangered(m.d.s)
  }

  lemma DroppingKeepsCache(m: Machine)
    requires MachineOk(m) && CacheOk(m) && m.ph.Dropping? && MachineOk(Step(m))
    ensures CacheOk(Step(m))
  {
    MachineReady(m);
    InvShape(m.d.s);
    hide Ready, InvAt, Shape, WbInv, View, Contents, WritingLpas, VictimsIntact, InvalidateAll;
    DropAllKeepsCache(m.d.s, m.ph.lpas);
  }

  lemma StartedKeepsCache(m: Machine)
    requires MachineOk(m) && CacheOk(m) && m.ph.Started? && MachineOk(Step(m)) && !Step(m).ph.Failed?
    ensures CacheOk(Step(m))
  {
    MachineReady(m);
    InvShape(m.d.s);
    hide Ready, InvAt, Shape, WbInv, View, Contents, WritingLpas, VictimsIntact, MakeWrite, LpasOk, OutLpas, OutData;
    OutLpasOk(m.d);
    MakeWriteKeepsCache(m.d.s, OutLpas(m.d.w), OutData(m.d.w));
  }

  lemma DiscardingKeepsCache(m: Machine)
    requires MachineOk(m) && CacheOk(m) && m.ph.Discarding? && MachineOk(Step(m))
    ensures CacheOk(Step(m))
  {
    var l := m.ph.rest;
    MachineReady(m);
    InvShape(m.d.s);
    hide MachineOk, InvAt, Shape, View, VictimsIntact, InvalidateAll;
    DropAllKeepsCache(m.d.s, l[..Min(|l|, NR_MAX_LPAS_DISCARD)]);
    hide Ready;
    assert Step(m).d.s == if l == [] then m.d.s else InvalidateAll(m.d.s, l[..Min(|l|, NR_MAX_LPAS_DISCARD)]);
  }

  lemma OtherKeepsCache(m: Machine)
    requires MachineOk(m) && CacheOk(m) && (m.ph.Putting? || m.ph.Flushing? || m.ph.Flashed?) && MachineOk(Step(m))
    ensures CacheOk(Step(m))
  {
    hide Ready, InvAt, Shape, WbInv, View, Contents, WritingLpas, VictimsIntact, Put, StartWriting, RmWritten;
  }

  lemma StepKeepsCache(m: Machine)
    requires MachineOk(m) && CacheOk(m) && !Resting(m) && !Step(m).ph.Failed?
    ensures MachineOk(Step(m)) && CacheOk(Step(m))
  {
    StepSound(m);
    hide MachineOk, Step, CacheOk;
    match m.ph {
      case Dropping(_, _) => DroppingKeepsCache(m);
      case Started(_, _, _) => StartedKeepsCache(m);
      case Discarding(_) => DiscardingKeepsCache(m);
      case _ => OtherKeepsCache(m);
    }
  }

  lemma SoundOk(m: Machine, r: Machine)
    requires Sound(m, r)
    ensures MachineOk(r)
  {
    hide MachineOk, Agrees;
  }

  lemma GentleBgc(m: Machine)
    requires MachineOk(m) && CacheOk(m) && Gentle(m, Background)
    ensures Ready(m.d.s) && BgcSafe(m.d.s) && Shape(Bgc(m.d.s).0) && VictimsIntact(Bgc(m.d.s).0)
  {
    MachineReady(m);
    InvShape(m.d.s);
    BgcKeepsCache(m.d.s);
    hide MachineOk, Ready, InvAt, Shape, VictimsIntact, Bgc, BgcSafe, NoneEndangered, Step;
  }

  /** Background GC under the guard, when it erases no cached victim. */
  lemma BackgroundKeepsCache(m: Machine)
    requires MachineOk(m) && CacheOk(m) && Gentle(m, Background)
    ensures Enabled(m, Background) && MachineOk(Apply(m, Background)) && CacheOk(Apply(m, Background))
  {
    hide MachineOk, Ready, InvAt, Shape, VictimsIntact, Bgc, BgcSafe, NoneEndangered, Step, Sound, Gentle;
    GentleBgc(m);
    BackgroundSound(m);
    SoundOk(m, Apply(m, Background));
  }

  /** Such an event can happen whenever the cache is intact, and leaves it intact. */
  lemma GentleKeepsCache(m: Machine, e: Event)
    requires MachineOk(m) && CacheOk(m) && Gentle(m, e)
    ensures Enabled(m, e) && MachineOk(Apply(m, e)) && CacheOk(Apply(m, e))
  {
    match e {
      case Go => StepKeepsCache(m);
      case Background => BackgroundKeepsCache(m);
      case Write(_, _) => EventSound(m, e);
      case Discard(_, _) => EventSound(m, e);
    }
    hide MachineOk, Step, Ready, WbInv, Bgc, BgcSafe, VictimsIntact, RmAll;
  }

  /** Every event of the run is such a one when its turn comes. */
  ghost predicate GentleRun(m: Machine, es: seq<Event>)
    requires MachineOk(m) && CacheOk(m)
    decreases |es|
  {
    es != [] ==> Gentle(m, es[0]) && (GentleKeepsCache(m, es[0]); GentleRun(Apply(m, es[0]), es[1..]))
  }

  /** In such a run the guard of background GC holds whenever background GC comes, and the cache ends up intact. */
  lemma {:induction false} GentleRunOk(m: Machine, es: seq<Event>)
    requires MachineOk(m) && CacheOk(m) && GentleRun(m, es)
    ensures RunOk(m, es) && MachineOk(Run(m, es)) && CacheOk(Run(m, es))
    decreases |es|
  {
    hide MachineOk, Apply, CacheOk, Gentle;
    if es != [] {
      GentleKeepsCache(m, es[0]);
      GentleRunOk(Apply(m, es[0]), es[1..]);
    }
  }

  /** A new device has no cached victims. */
  lemma InitCacheOk(g: Geo, disk: map<BlkId, seq<seq<Data>>>, lpaBuf: seq<nat>, dataBuf: seq<Data>, n: nat)
    requires Sane(g) && g.blocks >= 2 && DiskShape(g, disk) && n >= g.slots
    requires |lpaBuf| == BufSize(g) && |dataBuf| >= BufSize(g)
    ensures var m := Machine(InitDev(g, disk, lpaBuf, dataBuf, n), Idle); MachineOk(m) && CacheOk(m)
  {
    InitAgrees(g, disk, lpaBuf, dataBuf, n);
    hide InvAt, WbInv, View, Contents, WritingLpas, BlksShape, DiskShape, L2pShape, MachineOk;
  }
}
