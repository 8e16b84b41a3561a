/**
 * The bus controller of one bus: a queue and a busy slot per chip, and the two phases of its thread.
 * Times are the u32 microsecond clock, which wraps around.
 */
module BusController {
  import opened Common
  import opened OperationQueue

  const CLOCK: nat := 0x1_0000_0000

  /** fb_chip_busy_t */
  datatype Slot = Slot(wakeup: nat, issue: nat, bio: Option<nat>)

  const IDLE_SLOT: Slot := Slot(0, 0, None)

  /** operation_time (rust/src/vdevice.rs) */
  function OperationTime(k: Kind): nat {
    match k
    case OP_READ => 80
    case OP_PROG => 800
    case OP_PLOCK => 5000
    case OP_BLOCK => 100
    case OP_BERS => 100
  }

  /** is_acquired */
  predicate IsAcquired(b: Slot) { b.wakeup != 0 || b.issue != 0 }

  /** acquire_busy_lock */
  function Acquire(now: nat, op: Operation): Slot {
    Slot((now + OperationTime(op.kind)) % CLOCK, now, op.bio)
  }

  /** The condition of phase 1. */
  predicate Due(b: Slot, now: nat) { b.wakeup > 0 && b.wakeup <= now }

  /** However the clock stands, a slot just taken counts as taken: its two times are never both zero. */
  lemma TakenIsSeen(now: nat, op: Operation)
    requires now < CLOCK
    ensures IsAcquired(Acquire(now, op))
  {
  }

  /** A taken slot is never released exactly when its wakeup time wraps around to zero. */
  lemma NeverDue(now: nat, op: Operation)
    requires now < CLOCK
    ensures (forall t :: 0 <= t < CLOCK ==> !Due(Acquire(now, op), t)) <==> now + OperationTime(op.kind) == CLOCK
  {
    var w := (now + OperationTime(op.kind)) % CLOCK;
    if now + OperationTime(op.kind) != CLOCK {
      assert w != 0 && Due(Acquire(now, op), w);
    }
  }

  /** A slot is due from its wakeup time on; one that wraps around is due that much earlier, or never. */
  lemma DueExact(now: nat, op: Operation, t: nat)
    requires now < CLOCK && t < CLOCK
    ensures var w := now + OperationTime(op.kind);
            Due(Acquire(now, op), t) <==> if w < CLOCK then w <= t else w > CLOCK && w - CLOCK <= t
  {
    assert OperationTime(op.kind) < CLOCK;
  }

  /** In microseconds: a read takes 80, a program 800, a lock of a page 5000, a lock of a block and an erase 100. */
  lemma DueTimes(now: nat, bio: Option<nat>, t: nat)
    requires now < 0x1_0000_0000 - 5000 && t < 0x1_0000_0000
    ensures Due(Acquire(now, Operation(OP_READ, bio)), t) <==> now + 80 <= t
    ensures Due(Acquire(now, Operation(OP_PROG, bio)), t) <==> now + 800 <= t
    ensures Due(Acquire(now, Operation(OP_PLOCK, bio)), t) <==> now + 5000 <= t
    ensures Due(Acquire(now, Operation(OP_BLOCK, bio)), t) <==> now + 100 <= t
    ensures Due(Acquire(now, Operation(OP_BERS, bio)), t) <==> now + 100 <= t
  {
    DueExact(now, Operation(OP_READ, bio), t);
  }

  // ---- one chip, over whole runs -------------------------------------------------------------------------------

  /**
   * A chip: its queue and slot, and the history of what was issued, how much was started and how much finished, and
   * what the clock showed then.
   */
  datatype Port = Port(queue: seq<Operation>, slot: Slot, issued: seq<Operation>, started: nat, finished: nat,
                       starts: seq<nat>, ends: seq<nat>)

  const NEW_PORT: Port := Port([], IDLE_SLOT, [], 0, 0, [], [])

  /** The request thread queues an operation, phase 1 looks at the clock, phase 2 looks at the clock. */
  datatype Tick = Put(op: Operation) | Phase1(now: nat) | Phase2(now: nat)

  function Serve(p: Port, t: Tick): Port {
    match t
    case Put(op) => p.(queue := p.queue + [op], issued := p.issued + [op])
    case Phase1(now) =>
      if Due(p.slot, now) then p.(slot := IDLE_SLOT, finished := p.finished + 1, ends := p.ends + [now]) else p
    case Phase2(now) =>
      if p.queue == [] || IsAcquired(p.slot) then p
      else p.(slot := Acquire(now, p.queue[0]), queue := p.queue[1..], started := p.started + 1,
              starts := p.starts + [now])
  }

  function ServeAll(p: Port, ts: seq<Tick>): Port
    decreases |ts|
  {
    if ts == [] then p else ServeAll(Serve(p, ts[0]), ts[1..])
  }

  predicate Clocked(t: Tick) {
    match t
    case Put(_) => true
    case Phase1(now) => now < CLOCK
    case Phase2(now) => now < CLOCK
  }

  /**
   * The queue holds what was issued and not started; operations start and finish in the order of issue;
   * at most one is in flight, and the slot is taken exactly while one is and holds its bio.
   */
  predicate InOrder(p: Port) {
    && p.finished <= p.started <= p.finished + 1 && p.started <= |p.issued|
    && p.queue == p.issued[p.started..]
    && (IsAcquired(p.slot) <==> p.started == p.finished + 1)
    && p.slot.bio == if p.started == p.finished then None else p.issued[p.finished].bio
  }

  lemma ServeInOrder(p: Port, t: Tick)
    requires InOrder(p) && Clocked(t)
    ensures InOrder(Serve(p, t)) && p.issued <= Serve(p, t).issued
  {
    match t {
      case Put(op) => assert (p.issued + [op])[p.started..] == p.issued[p.started..] + [op];
      case Phase1(now) =>
      case Phase2(now) =>
        if p.queue != [] && !IsAcquired(p.slot) {
          TakenIsSeen(now, p.queue[0]);
          assert p.issued[p.started..][1..] == p.issued[p.started + 1..];
        }
    }
  }

  /** First in, first out, one at a time, over every run and every clock. */
  lemma {:induction false} RunInOrder(p: Port, ts: seq<Tick>)
    requires InOrder(p) && forall i :: 0 <= i < |ts| ==> Clocked(ts[i])
    ensures InOrder(ServeAll(p, ts))
    decreases |ts|
  {
    if ts != [] {
      ServeInOrder(p, ts[0]);
      RunInOrder(Serve(p, ts[0]), ts[1..]);
    }
  }

  // ---- operations take their time ------------------------------------------------------------------------------

  /** When operation i of the port wakes up: its start plus its time, on the wrapping clock. */
  function Wakeup(p: Port, i: nat): nat
    requires i < |p.issued| && i < |p.starts|
  {
    (p.starts[i] + OperationTime(p.issued[i].kind)) % CLOCK
  }

  /**
   * Every finished operation was seen to finish at a clock reading not before its wakeup time, and the slot has the
   * times of the operation in flight.
   */
  ghost predicate Timely(p: Port) {
    && |p.starts| == p.started && |p.ends| == p.finished && p.finished <= p.started <= |p.issued|
    && (forall i :: 0 <= i < p.finished ==> 0 < Wakeup(p, i) <= p.ends[i])
    && (p.started > p.finished ==> p.slot.issue == p.starts[p.finished] && p.slot.wakeup == Wakeup(p, p.finished))
  }

  lemma ServeTimely(p: Port, t: Tick)
    requires InOrder(p) && Timely(p) && Clocked(t)
    ensures Timely(Serve(p, t))
  {
    hide OperationTime;
    var q := Serve(p, t);
    ServeInOrder(p, t);
    forall i | 0 <= i < p.started && i < q.started
      ensures i < |q.issued| && i < |q.starts| && Wakeup(q, i) == Wakeup(p, i) {
      assert q.issued[i] == p.issued[i] && q.starts[i] == p.starts[i];
    }
    if t.Phase2? && p.queue != [] && !IsAcquired(p.slot) { assert p.queue[0] == p.issued[p.started]; }
  }

  /** Over every run: no operation finishes at a reading of the clock before its start plus its time. */
  lemma {:induction false} RunTimely(p: Port, ts: seq<Tick>)
    requires InOrder(p) && Timely(p) && forall i :: 0 <= i < |ts| ==> Clocked(ts[i])
    ensures Timely(ServeAll(p, ts))
    decreases |ts|
  {
    if ts != [] {
      ServeInOrder(p, ts[0]);
      ServeTimely(p, ts[0]);
      RunTimely(Serve(p, ts[0]), ts[1..]);
    }
  }

  /** Phase 1 finishes the operation in flight if and only if its time is over; phase 2 starts one if it can. */
  lemma ServeExact(p: Port, now: nat)
    requires InOrder(p) && Timely(p) && now < CLOCK
    ensures Serve(p, Phase1(now)).finished == p.finished
            + if p.started > p.finished && 0 < Wakeup(p, p.finished) <= now then 1 else 0
    ensures Serve(p, Phase2(now)).started == p.started + if p.queue != [] && p.started == p.finished then 1 else 0
  {
    hide OperationTime;
  }

  /** The readings of passes far enough apart, from x on, the clock not wrapping around. */
  predicate Spaced(x: nat, times: seq<nat>)
    decreases |times|
  {
    times == [] || (x + 5000 <= times[0] && times[0] + 5000 < CLOCK && Spaced(times[0], times[1..]))
  }

  /** A pass at each of these readings. */
  function PassesAt(p: Port, times: seq<nat>): Port
    decreases |times|
  {
    if times == [] then p else PassesAt(Serve(Serve(p, Phase1(times[0])), Phase2(times[0])), times[1..])
  }

  /** With an operation in flight since x, one pass per queued operation and one more finish everything. */
  lemma {:induction false} Drains(p: Port, x: nat, times: seq<nat>)
    requires InOrder(p) && Timely(p) && p.started == p.finished + 1 && p.starts[p.finished] == x && x + 5000 < CLOCK
    requires Spaced(x, times) && |times| == |p.queue| + 1
    ensures var r := PassesAt(p, times); r.queue == [] && r.finished == |r.issued| && r.issued == p.issued
    decreases |times|
  {
    var q := Serve(p, Phase1(times[0]));
    var r := Serve(q, Phase2(times[0]));
    ServeInOrder(p, Phase1(times[0]));
    ServeTimely(p, Phase1(times[0]));
    ServeInOrder(q, Phase2(times[0]));
    ServeTimely(q, Phase2(times[0]));
    assert 0 < Wakeup(p, p.finished) <= times[0];
    assert q.finished == q.started;
    if p.queue != [] {
      Drains(r, times[0], times[1..]);
    } else {
      assert PassesAt(r, times[1..]) == r;
    }
  }

  // ---- what a pass of the thread finishes ----------------------------------------------------------------------

  /** The bio of the operation that finishes when p becomes q, if one does and a bio waits for it. */
  function FinishedBio(p: Port, q: Port): seq<nat>
    requires InOrder(p)
  {
    if q.finished == p.finished + 1 && p.started > p.finished && p.issued[p.finished].bio.Some?
    then [p.issued[p.finished].bio.value] else []
  }

  /** These bios on the first n chips, in chip order. */
  function FinishedBios(ps: seq<Port>, qs: seq<Port>, n: nat): seq<nat>
    requires n <= |ps| == |qs| && forall c :: 0 <= c < |ps| ==> InOrder(ps[c])
  {
    if n == 0 then [] else FinishedBios(ps, qs, n - 1) + FinishedBio(ps[n - 1], qs[n - 1])
  }

  /** A slot that is due holds the bio of the operation that finishes; one that is not changes nothing. */
  lemma DueFinishes(p: Port, now: nat)
    requires InOrder(p)
    ensures var q := Serve(p, Phase1(now));
            if Due(p.slot, now) then FinishedBio(p, q) == if p.slot.bio.Some? then [p.slot.bio.value] else []
            else q == p && FinishedBio(p, q) == []
  {
  }

  /** Phase 1 on every chip. */
  function Phase1All(ps: seq<Port>, now: nat): (r: seq<Port>)
    ensures |r| == |ps| && forall c :: 0 <= c < |ps| ==> r[c] == Serve(ps[c], Phase1(now))
  {
    seq(|ps|, c requires 0 <= c < |ps| => Serve(ps[c], Phase1(now)))
  }

  // ---- the thread ----------------------------------------------------------------------------------------------

  class BusController {
    const slots: array<Slot>            // chip_busies
    const max: nat                      // num_max_entries
    var queues: seq<seq<Operation>>     // ptr_opr_queue, each as the sequence it refines
    ghost var ports: seq<Port>          // the same, with the history of each chip

    ghost predicate Valid()
      reads this, slots
    {
      && |queues| == |ports| == slots.Length
      && forall c :: 0 <= c < |ports| ==>
           InOrder(ports[c]) && Timely(ports[c]) && ports[c].queue == queues[c] && ports[c].slot == slots[c]
             && |queues[c]| <= max
    }

    /** create_bus_controller */
    constructor (chips: nat, max: nat)
      ensures Valid() && slots.Length == chips && fresh(slots) && this.max == max
      ensures forall c :: 0 <= c < chips ==> ports[c] == NEW_PORT
    {
      slots := new Slot[chips](_ => IDLE_SLOT);
      queues := seq(chips, _ => []);
      ports := seq(chips, _ => NEW_PORT);
      this.max := max;
    }

    /** fb_issue_operation, once opr_queue_put_entry finds room. */
    method IssueOperation(chip: nat, op: Operation)
      requires Valid() && chip < slots.Length && |queues[chip]| < max
      modifies this
      ensures Valid() && ports == old(ports)[chip := Serve(old(ports[chip]), Put(op))]
    {
      ServeInOrder(ports[chip], Put(op));
      ServeTimely(ports[chip], Put(op));
      queues := queues[chip := queues[chip] + [op]];
      ports := ports[chip := Serve(ports[chip], Put(op))];
    }

    /** release_busy_lock, up to the bio whose count is lowered, if any. */
    method ReleaseBusyLock(chip: nat, now: nat) returns (bio: Option<nat>)
      requires Valid() && chip < slots.Length && now < CLOCK && Due(slots[chip], now)
      modifies slots, this`ports
      ensures Valid() && ports == old(ports)[chip := Serve(old(ports[chip]), Phase1(now))]
      ensures bio == old(slots[chip].bio)
    {
      hide Acquire;
      ServeInOrder(ports[chip], Phase1(now));
      ServeTimely(ports[chip], Phase1(now));
      var busy := slots[chip].(wakeup := 0, issue := 0);
      bio := busy.bio;
      slots[chip] := busy.(bio := None);
      ports := ports[chip := Serve(ports[chip], Phase1(now))];
    }

    /**
     * Phase 1 of fb_bus_ctrl_thread: every slot whose time has come is freed. `done` lists the bios whose
     * count is then lowered, in chip order: those of the operations that finish.
     */
    method ReleaseDue(now: nat) returns (done: seq<nat>)
      requires Valid() && now < CLOCK
      modifies slots, this`ports
      ensures Valid() && ports == Phase1All(old(ports), now)
      ensures done == FinishedBios(old(ports), ports, |ports|)
    {
      hide InOrder, Timely, Serve, FinishedBio;
      done := [];
      var chip := 0;
      ghost var ps, qs := ports, Phase1All(ports, now);
      while chip < slots.Length
        invariant 0 <= chip <= slots.Length == |ps| && Valid()
        invariant forall c :: 0 <= c < chip ==> ports[c] == qs[c]
        invariant forall c :: chip <= c < slots.Length ==> ports[c] == ps[c]
        invariant done == FinishedBios(ps, qs, chip)
      {
        DueFinishes(ports[chip], now);
        if slots[chip].wakeup > 0 && slots[chip].wakeup <= now {
          var bio := ReleaseBusyLock(chip, now);
          if bio.Some? {
            done := done + [bio.value];
          }
        }
        chip := chip + 1;
      }
    }

    /**
     * Phase 2: every idle chip with work takes its oldest operation; the clock is read anew for each.
     * No taken slot is overwritten.
     */
    method IssueNext(clock: seq<nat>)
      requires Valid() && |clock| == slots.Length && forall c :: 0 <= c < |clock| ==> clock[c] < CLOCK
      modifies this`queues, this`ports, slots
      ensures Valid() && forall c :: 0 <= c < slots.Length ==> ports[c] == Serve(old(ports[c]), Phase2(clock[c]))
    {
      ghost var ps := ports;
      var chip := 0;
      while chip < slots.Length
        invariant 0 <= chip <= slots.Length && Valid()
        invariant forall c :: chip <= c < slots.Length ==> ports[c] == ps[c]
        invariant forall c :: 0 <= c < chip ==> ports[c] == Serve(ps[c], Phase2(clock[c]))
      {
        ServeInOrder(ports[chip], Phase2(clock[chip]));
        ServeTimely(ports[chip], Phase2(clock[chip]));
        if !(|queues[chip]| == 0 || IsAcquired(slots[chip])) {
          var op := queues[chip][0];
          var busy := slots[chip].(issue := clock[chip]);
          busy := busy.(wakeup := (clock[chip] + OperationTime(op.kind)) % CLOCK);
          slots[chip] := busy.(bio := op.bio);
          queues := queues[chip := queues[chip][1..]];
        }
        ports := ports[chip := Serve(ports[chip], Phase2(clock[chip]))];
        chip := chip + 1;
      }
    }

    /** One pass of fb_bus_ctrl_thread: on every chip a look at the clock in phase 1, and one in phase 2. */
    method Pass(now: nat, clock: seq<nat>) returns (done: seq<nat>)
      requires Valid() && now < CLOCK
      requires |clock| == slots.Length && forall c :: 0 <= c < |clock| ==> clock[c] < CLOCK
      modifies this`queues, this`ports, slots
      ensures Valid()
      ensures forall c :: 0 <= c < slots.Length ==>
                ports[c] == ServeAll(old(ports[c]), [Phase1(now), Phase2(clock[c])])
      ensures done == FinishedBios(old(ports), Phase1All(old(ports), now), slots.Length)
    {
      done := ReleaseDue(now);
      IssueNext(clock);
      forall c | 0 <= c < slots.Length
        ensures ports[c] == ServeAll(old(ports[c]), [Phase1(now), Phase2(clock[c])])
      {
        TwoTicks(old(ports[c]), Phase1(now), Phase2(clock[c]));
      }
    }
  }

  lemma TwoTicks(p: Port, s: Tick, t: Tick)
    ensures ServeAll(p, [s, t]) == Serve(Serve(p, s), t)
  {
    assert [s, t][1..] == [t] && [t][1..] == [];
    assert ServeAll(Serve(p, s), [t]) == ServeAll(Serve(Serve(p, s), t), []);
  }
}
