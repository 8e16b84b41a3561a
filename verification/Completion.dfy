/**
 * Completing a read: the request thread hands pages to the chips' queues, the bus threads work them
 * off, and whoever brings the request count to zero ends the block I/O. A state machine whose runs are
 * all interleavings of these threads.
 */
module Completion {
  import opened Common

  /** Whether the count has reached zero, and whether bio_endio and the release of the memory have followed. */
  datatype Stage = Live | Ending | Freed

  /** fb_bio_t: its request count, the loop iterations of make_request still to come, and how often it was ended. */
  datatype Bio = Bio(count: int, left: int, stage: Stage, ended: nat)

  /**
   * One chip: its queue, the operation in its busy slot, and whether that operation is still at the head
   * of the queue, between acquire_busy_lock and opr_queue_remove_first. An operation is named by its bio.
   */
  datatype Lane = Lane(queue: seq<Option<nat>>, busy: Option<Option<nat>>, taken: bool)

  datatype Sys = Sys(lanes: seq<Lane>, bios: map<nat, Bio>, cap: nat)

  datatype Event =
    | Submit(b: nat, n: nat)     // fb_build_bio found n pages that are not buffered
    | Issue(b: nat, c: nat)      // a mapped page: copied, and its read put into the queue of chip c
    | Unmapped(b: nat)           // an unmapped page: the request thread lowers the count itself
    | Other(c: nat)              // a program, an erase or a GC read is queued
    | Acquire(c: nat)            // acquire_busy_lock
    | RemoveHead(c: nat)         // opr_queue_remove_first
    | Release(c: nat)            // release_busy_lock, up to dec_bio_req_count
    | Complete(b: nat)           // bio_endio and the release of the memory

  // ---- references to a bio -------------------------------------------------------------------------------------

  /** How many operations of the chip, queued or in flight, are for bio b. */
  ghost function Refs(l: Lane, b: nat): nat {
    multiset(l.queue)[Some(b)] + if l.busy == Some(Some(b)) && !l.taken then 1 else 0
  }

  ghost function Total(lanes: seq<Lane>, b: nat): nat {
    if lanes == [] then 0 else Refs(lanes[0], b) + Total(lanes[1..], b)
  }

  lemma {:induction false} TotalUpdate(lanes: seq<Lane>, c: nat, l: Lane, b: nat)
    requires c < |lanes|
    ensures Total(lanes[c := l], b) == Total(lanes, b) - Refs(lanes[c], b) + Refs(l, b)
    ensures Refs(lanes[c], b) <= Total(lanes, b)
  {
    var r := lanes[c := l];
    if c == 0 {
      assert r[1..] == lanes[1..];
    } else {
      assert r[1..] == lanes[1..][c - 1 := l];
      TotalUpdate(lanes[1..], c - 1, l, b);
    }
  }

  // ---- the machine ---------------------------------------------------------------------------------------------

  predicate Enabled(s: Sys, e: Event) {
    match e
    case Submit(b, _) => b !in s.bios
    case Issue(b, c) => b in s.bios && s.bios[b].left > 0 && c < |s.lanes| && |s.lanes[c].queue| < s.cap
    case Unmapped(b) => b in s.bios && s.bios[b].left > 0
    case Other(c) => c < |s.lanes| && |s.lanes[c].queue| < s.cap
    case Acquire(c) => c < |s.lanes| && s.lanes[c].queue != [] && s.lanes[c].busy.None?
    case RemoveHead(c) => c < |s.lanes| && s.lanes[c].taken && s.lanes[c].queue != []
    case Release(c) => c < |s.lanes| && s.lanes[c].busy.Some? && !s.lanes[c].taken
    case Complete(b) => b in s.bios && s.bios[b].stage == Ending
  }

  /** dec_bio_req_count: the thread that gets zero is the one to end the bio. */
  function Dec(x: Bio): Bio {
    x.(count := x.count - 1, stage := if x.count - 1 == 0 then Ending else x.stage)
  }

  /** The bio an event reads or writes. */
  function Touches(s: Sys, e: Event): Option<nat>
    requires Enabled(s, e)
  {
    match e
    case Issue(b, _) => Some(b)
    case Unmapped(b) => Some(b)
    case Complete(b) => Some(b)
    case Release(c) => s.lanes[c].busy.value
    case Submit(_, _) => None
    case Other(_) => None
    case Acquire(_) => None
    case RemoveHead(_) => None
  }

  function SetLane(s: Sys, c: nat, l: Lane): Sys
    requires c < |s.lanes|
  {
    s.(lanes := s.lanes[c := l])
  }

  function Step(s: Sys, e: Event): Sys
    requires Enabled(s, e)
    requires Touches(s, e).Some? ==> Touches(s, e).value in s.bios
  {
    match e
    case Submit(b, n) => s.(bios := s.bios[b := if n == 0 then Bio(0, 0, Freed, 1) else Bio(n, n, Live, 0)])
    case Issue(b, c) =>
      var l, x := s.lanes[c], s.bios[b];
      SetLane(s, c, l.(queue := l.queue + [Some(b)])).(bios := s.bios[b := x.(left := x.left - 1)])
    case Unmapped(b) => s.(bios := s.bios[b := Dec(s.bios[b].(left := s.bios[b].left - 1))])
    case Other(c) => SetLane(s, c, s.lanes[c].(queue := s.lanes[c].queue + [None]))
    case Acquire(c) => SetLane(s, c, s.lanes[c].(busy := Some(s.lanes[c].queue[0]), taken := true))
    case RemoveHead(c) => SetLane(s, c, s.lanes[c].(queue := s.lanes[c].queue[1..], taken := false))
    case Release(c) =>
      var s1 := SetLane(s, c, s.lanes[c].(busy := None));
      if s.lanes[c].busy.value.None? then s1
      else var b := s.lanes[c].busy.value.value; s1.(bios := s.bios[b := Dec(s.bios[b])])
    case Complete(b) => s.(bios := s.bios[b := s.bios[b].(stage := Freed, ended := s.bios[b].ended + 1)])
  }

  // ---- the invariant -------------------------------------------------------------------------------------------

  /** The count of a live bio is its unprocessed pages plus its queued and its in-flight operations. */
  ghost predicate BioOk(x: Bio, refs: nat) {
    match x.stage
    case Live => x.left >= 0 && x.count == x.left + refs && x.count > 0 && x.ended == 0
    case Ending => x.left == 0 && x.count == 0 && refs == 0 && x.ended == 0
    case Freed => x.left == 0 && x.count == 0 && refs == 0 && x.ended == 1
  }

  predicate LaneOk(l: Lane) { l.taken ==> l.queue != [] && l.busy == Some(l.queue[0]) }

  ghost predicate Inv(s: Sys) {
    && (forall c :: 0 <= c < |s.lanes| ==> LaneOk(s.lanes[c]))
    && (forall b :: b in s.bios ==> BioOk(s.bios[b], Total(s.lanes, b)))
    && (forall b :: b !in s.bios ==> Total(s.lanes, b) == 0)
  }

  /** No thread ever touches a bio that has been freed: every event that uses one finds it alive. */
  lemma NeverAfterFree(s: Sys, e: Event)
    requires Inv(s) && Enabled(s, e) && Touches(s, e).Some?
    ensures Touches(s, e).value in s.bios && s.bios[Touches(s, e).value].stage != Freed
  {
    var b := Touches(s, e).value;
    if e.Release? { TotalUpdate(s.lanes, e.c, s.lanes[e.c], b); }
  }

  /** The references of every bio change by what the event does to its chip. */
  lemma RefsAfter(s: Sys, c: nat, l: Lane)
    requires c < |s.lanes|
    ensures forall b :: Total(s.lanes[c := l], b) == Total(s.lanes, b) - Refs(s.lanes[c], b) + Refs(l, b)
  {
    forall b: nat ensures Total(s.lanes[c := l], b) == Total(s.lanes, b) - Refs(s.lanes[c], b) + Refs(l, b) {
      TotalUpdate(s.lanes, c, l, b);
    }
  }

  lemma QueueRefs(q: seq<Option<nat>>, x: Option<nat>)
    ensures forall b: nat :: multiset(q + [x])[Some(b)] == multiset(q)[Some(b)] + if x == Some(b) then 1 else 0
    ensures q != [] ==> forall b: nat ::
            multiset(q)[Some(b)] == multiset(q[1..])[Some(b)] + if q[0] == Some(b) then 1 else 0
  {
    assert multiset(q + [x]) == multiset(q) + multiset{x};
    if q != [] { HeadAndTail(q); }
  }

  /** Moving an operation along its chip changes no reference. */
  lemma MoveKeeps(s: Sys, c: nat, l: Lane)
    requires Inv(s) && c < |s.lanes| && LaneOk(l) && forall b :: Refs(l, b) == Refs(s.lanes[c], b)
    ensures Inv(SetLane(s, c, l))
  {
    hide Total, Refs;
    RefsAfter(s, c, l);
  }

  /** An operation for bio b joins or leaves a chip, and the record of b changes with it. */
  lemma BioMoves(s: Sys, c: nat, l: Lane, b: nat, d: int, x: Bio)
    requires Inv(s) && c < |s.lanes| && LaneOk(l) && b in s.bios
    requires forall y :: Refs(l, y) == Refs(s.lanes[c], y) + if y == b then d else 0
    requires Total(s.lanes, b) + d >= 0 && BioOk(x, Total(s.lanes, b) + d)
    ensures Inv(SetLane(s, c, l).(bios := s.bios[b := x]))
  {
    hide Total, Refs, BioOk, LaneOk;
    RefsAfter(s, c, l);
  }

  lemma IssueKeeps(s: Sys, b: nat, c: nat)
    requires Inv(s) && Enabled(s, Issue(b, c))
    ensures Inv(Step(s, Issue(b, c)))
  {
    hide Total;
    var l := s.lanes[c].(queue := s.lanes[c].queue + [Some(b)]);
    QueueRefs(s.lanes[c].queue, Some(b));
    assert LaneOk(l);
    hide LaneOk;
    BioMoves(s, c, l, b, 1, s.bios[b].(left := s.bios[b].left - 1));
  }

  lemma ReleaseKeeps(s: Sys, c: nat)
    requires Inv(s) && Enabled(s, Release(c)) && (s.lanes[c].busy.value.Some? ==> s.lanes[c].busy.value.value in s.bios)
    ensures Inv(Step(s, Release(c)))
  {
    hide Total;
    var l, op := s.lanes[c].(busy := None), s.lanes[c].busy.value;
    if op.Some? {
      NeverAfterFree(s, Release(c));
      TotalUpdate(s.lanes, c, l, op.value);
      BioMoves(s, c, l, op.value, -1, Dec(s.bios[op.value]));
    } else {
      MoveKeeps(s, c, l);
    }
  }

  lemma QueueKeeps(s: Sys, e: Event)
    requires Inv(s) && Enabled(s, e) && (e.Other? || e.Acquire? || e.RemoveHead?)
    ensures Inv(Step(s, e))
  {
    hide Total, BioOk;
    var l, q := s.lanes[e.c], s.lanes[e.c].queue;
    QueueRefs(q, None);
    if e.Other? {
      MoveKeeps(s, e.c, l.(queue := q + [None]));
    } else if e.Acquire? {
      MoveKeeps(s, e.c, l.(busy := Some(q[0]), taken := true));
    } else {
      MoveKeeps(s, e.c, l.(queue := q[1..], taken := false));
    }
  }

  lemma StepKeeps(s: Sys, e: Event)
    requires Inv(s) && Enabled(s, e)
    ensures Touches(s, e).Some? ==> Touches(s, e).value in s.bios
    ensures Inv(Step(s, e))
  {
    if Touches(s, e).Some? { NeverAfterFree(s, e); }
    match e {
      case Issue(b, c) => IssueKeeps(s, b, c);
      case Release(c) => ReleaseKeeps(s, c);
      case Submit(_, _) => hide Total;
      case Unmapped(_) => hide Total;
      case Complete(_) => hide Total;
      case _ => QueueKeeps(s, e);
    }
  }

  // ---- runs ----------------------------------------------------------------------------------------------------

  ghost predicate RunOk(s: Sys, es: seq<Event>)
    requires Inv(s)
    decreases |es|
  {
    es != [] ==> Enabled(s, es[0]) && (StepKeeps(s, es[0]); RunOk(Step(s, es[0]), es[1..]))
  }

  ghost function Run(s: Sys, es: seq<Event>): Sys
    requires Inv(s) && RunOk(s, es)
    decreases |es|
  {
    if es == [] then s else StepKeeps(s, es[0]); Run(Step(s, es[0]), es[1..])
  }

  /** Chips with empty queues, nothing in flight and no bio. */
  predicate Fresh(s: Sys) {
    s.bios == map[] && forall c :: 0 <= c < |s.lanes| ==> s.lanes[c] == Lane([], None, false)
  }

  lemma {:induction false} FreshTotal(lanes: seq<Lane>, b: nat)
    requires forall c :: 0 <= c < |lanes| ==> lanes[c] == Lane([], None, false)
    ensures Total(lanes, b) == 0
  {
    if lanes != [] { FreshTotal(lanes[1..], b); }
  }

  lemma FreshOk(s: Sys)
    requires Fresh(s)
    ensures Inv(s)
  {
    forall b: nat ensures Total(s.lanes, b) == 0 { FreshTotal(s.lanes, b); }
  }

  lemma {:induction false} RunKeeps(s: Sys, es: seq<Event>)
    requires Inv(s) && RunOk(s, es)
    ensures Inv(Run(s, es))
    decreases |es|
  {
    hide Inv, Step, Enabled;
    if es != [] {
      StepKeeps(s, es[0]);
      RunKeeps(Step(s, es[0]), es[1..]);
    }
  }

  /**
   * Exactly once, over every interleaving: no block I/O is ended twice; one that is ended has no page
   * unprocessed and no operation queued or in flight; and once nothing is left to do it has been ended.
   */
  lemma ExactlyOnce(s: Sys, es: seq<Event>, b: nat)
    requires Fresh(s) && (FreshOk(s); RunOk(s, es))
    ensures var r := (FreshOk(s); Run(s, es));
            b in r.bios ==>
              && r.bios[b].ended <= 1
              && (r.bios[b].ended == 1 ==> r.bios[b].left == 0 && Total(r.lanes, b) == 0)
              && (r.bios[b].left == 0 && Total(r.lanes, b) == 0 ==> r.bios[b].ended == 1 || Enabled(r, Complete(b)))
  {
    FreshOk(s);
    RunKeeps(s, es);
  }

  // ---- progress ------------------------------------------------------------------------------------------------

  /** The events of the bus threads and of whoever ends a bio; the others bring in new work. */
  predicate Serves(e: Event) { e.Acquire? || e.RemoveHead? || e.Release? || e.Complete? }

  /** What a chip has left to do. */
  function LaneWork(l: Lane): int {
    4 * |l.queue| + if l.busy.None? then 0 else if l.taken then -1 else 2
  }

  function WorkLeft(lanes: seq<Lane>): int {
    if lanes == [] then 0 else LaneWork(lanes[0]) + WorkLeft(lanes[1..])
  }

  ghost function EndingBios(s: Sys): set<nat> { set b | b in s.bios && s.bios[b].stage == Ending }

  ghost function Rank(s: Sys): int { WorkLeft(s.lanes) + |EndingBios(s)| }

  lemma {:induction false} WorkUpdate(lanes: seq<Lane>, c: nat, l: Lane)
    requires c < |lanes|
    ensures WorkLeft(lanes[c := l]) == WorkLeft(lanes) - LaneWork(lanes[c]) + LaneWork(l)
  {
    if c == 0 {
      assert lanes[c := l][1..] == lanes[1..];
    } else {
      assert lanes[c := l][1..] == lanes[1..][c - 1 := l];
      WorkUpdate(lanes[1..], c - 1, l);
    }
  }

  lemma {:induction false} WorkNatural(lanes: seq<Lane>)
    requires forall c :: 0 <= c < |lanes| ==> LaneOk(lanes[c])
    ensures WorkLeft(lanes) >= 0
  {
    if lanes != [] {
      assert LaneOk(lanes[0]);
      WorkNatural(lanes[1..]);
    }
  }

  /** At most one more bio is to be ended, the one whose record changed. */
  lemma EndingAfter(s: Sys, r: Sys, b: nat)
    requires forall x :: x != b ==> (x in EndingBios(r) <==> x in EndingBios(s))
    ensures |EndingBios(r)| == |EndingBios(s)| + (if b in EndingBios(r) then 1 else 0) - if b in EndingBios(s) then 1
            else 0
  {
    var e, e' := EndingBios(s), EndingBios(r);
    assert e - {b} == e' - {b};
    assert |e - {b}| == |e| - if b in e then 1 else 0;
    assert |e' - {b}| == |e'| - if b in e' then 1 else 0;
  }

  /** Every event of the serving threads brings the end nearer. */
  lemma ServeSteps(s: Sys, e: Event)
    requires Inv(s) && Enabled(s, e) && Serves(e) && (Touches(s, e).Some? ==> Touches(s, e).value in s.bios)
    ensures 0 <= Rank(Step(s, e)) < Rank(s)
  {
    StepKeeps(s, e);
    RankNatural(Step(s, e));
    ServeLane(s, e);
    ServeBio(s, e);
  }

  /** The chip of the event has less to do; a release may leave a bio to be ended. */
  lemma ServeLane(s: Sys, e: Event)
    requires Inv(s) && Enabled(s, e) && Serves(e) && (Touches(s, e).Some? ==> Touches(s, e).value in s.bios)
    ensures WorkLeft(Step(s, e).lanes)
         <= WorkLeft(s.lanes) - if e.Complete? then 0 else if e.Release? then 2 else 1
  {
    hide Total, BioOk, WorkLeft;
    if !e.Complete? { WorkUpdate(s.lanes, e.c, Step(s, e).lanes[e.c]); }
  }

  lemma ServeBio(s: Sys, e: Event)
    requires Inv(s) && Enabled(s, e) && Serves(e) && (Touches(s, e).Some? ==> Touches(s, e).value in s.bios)
    ensures |EndingBios(Step(s, e))|
         <= |EndingBios(s)| + if e.Complete? then -1 else if e.Release? then 1 else 0
  {
    hide Total, BioOk, LaneOk;
    var r := Step(s, e);
    if Touches(s, e).Some? { EndingAfter(s, r, Touches(s, e).value); } else { assert EndingBios(r) == EndingBios(s); }
  }

  /** The serving threads, left alone, stop: a run of their events is no longer than the work there is. */
  lemma {:induction false} ServingEnds(s: Sys, es: seq<Event>)
    requires Inv(s) && RunOk(s, es) && forall i :: 0 <= i < |es| ==> Serves(es[i])
    ensures |es| <= Rank(s)
    decreases |es|
  {
    WorkNatural(s.lanes);
    hide Inv, Step, Enabled, Rank, WorkLeft;
    if es != [] {
      StepKeeps(s, es[0]);
      ServeSteps(s, es[0]);
      ServingEnds(Step(s, es[0]), es[1..]);
    } else {
      RankNatural(s);
    }
  }

  lemma RankNatural(s: Sys)
    requires Inv(s)
    ensures Rank(s) >= 0
  {
    WorkNatural(s.lanes);
  }

  /** Where they stop nothing is queued or in flight and no bio waits to be ended: there is no deadlock. */
  lemma NeverStuck(s: Sys)
    requires Inv(s) && forall e :: Serves(e) ==> !Enabled(s, e)
    ensures forall c :: 0 <= c < |s.lanes| ==> s.lanes[c].queue == [] && s.lanes[c].busy.None?
    ensures forall b :: b in s.bios ==> s.bios[b].stage != Ending
  {
    hide Total, BioOk;
    forall c | 0 <= c < |s.lanes| ensures s.lanes[c].queue == [] && s.lanes[c].busy.None? {
      assert LaneOk(s.lanes[c]) && !Enabled(s, Acquire(c)) && !Enabled(s, RemoveHead(c)) && !Enabled(s, Release(c));
    }
    forall b | b in s.bios ensures s.bios[b].stage != Ending { assert !Enabled(s, Complete(b)); }
  }

  lemma {:induction false} NoRefs(lanes: seq<Lane>, b: nat)
    requires forall c :: 0 <= c < |lanes| ==> lanes[c].queue == [] && lanes[c].busy.None?
    ensures Total(lanes, b) == 0
  {
    if lanes != [] { NoRefs(lanes[1..], b); }
  }

  /**
   * Every read is answered: once the serving threads have nothing more to do, each block I/O whose pages have all
   * been handed out has been ended, exactly once.
   */
  lemma AllEnded(s: Sys, es: seq<Event>)
    requires Fresh(s) && (FreshOk(s); RunOk(s, es))
    requires forall e :: Serves(e) ==> !Enabled((FreshOk(s); Run(s, es)), e)
    ensures var r := (FreshOk(s); Run(s, es));
            forall b :: b in r.bios && r.bios[b].left == 0 ==> r.bios[b].ended == 1
  {
    FreshOk(s);
    RunKeeps(s, es);
    var r := Run(s, es);
    hide Run, RunOk, Total;
    NeverStuck(r);
    forall b | b in r.bios && r.bios[b].left == 0 ensures r.bios[b].ended == 1 {
      NoRefs(r.lanes, b);
    }
  }
}
