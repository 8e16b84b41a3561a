/**
 * When background GC keeps what the flash shows. A cached victim may have been erased since it was
 * chosen; its page at the cursor is then free, the read pass counts slots it does not copy, and the
 * program step writes whatever the copy buffers held before. The guard below says exactly when that
 * cannot show.
 */
module StaleVictim {
  import opened Common
  import opened Geometry
  import opened Blocks
  import opened FtlState
  import opened Filling
  import opened Program
  import opened Victims
  import opened Copying
  import opened Gc
  import opened RoundRobin
  import opened BackgroundGc

  // ---- programming whatever the buffers hold -------------------------------------------------------------------

  /** Two maps agree at x. */
  predicate SameAt(v: map<nat, Data>, w: map<nat, Data>, x: nat) {
    (x in v <==> x in w) && (x in v ==> v[x] == w[x])
  }

  /** A page can be allocated on each of the next k chips in turn. */
  ghost predicate Takers(s: State, k: nat)
    requires Shape(s)
  {
    forall i :: 1 <= i <= k ==> CanAlloc(s, Turn(s.g, s.mru, i))
  }

  lemma RestKept(s: State, r: State, pos: nat, left: int, i: int)
    requires Shape(s) && Roomy(s, pos, left) && left > 0 && FilledNext(s, r, pos, left)
    requires pos + s.g.slots <= i < |s.lpaBuf|
    ensures r.lpaBuf[i] == s.lpaBuf[i]
  {
    assert r.lpaBuf[pos + s.g.slots..][i - pos - s.g.slots] == s.lpaBuf[pos + s.g.slots..][i - pos - s.g.slots];
  }

  /** An LPA that is not in the buffers keeps its data. */
  lemma {:induction false} ProgMisses(s: State, pos: nat, left: int, x: nat)
    requires Fillable(s) && ProgRoom(s, pos, left) && x != PAGE_UNMAPPED
    requires forall i :: pos <= i < pos + left ==> s.lpaBuf[i] != x
    ensures Shape(Prog(s, pos, left).0) && SameAt(View(Prog(s, pos, left).0), View(s), x)
    decreases left
  {
    hide Shape, Fillable, ProgNext, View, FilledNext, Written, NextChip;
    ProgFills(s, pos, left);
    FillableShape(s);
    FillableShape(Prog(s, pos, left).0);
    NextIsValid(s);
    RoomIsRoomy(s, pos, left);
    if left > 0 && CanAlloc(s, NextChip(s.g, s.mru)) {
      MissesNext(s, pos, left, x);
      ProgMisses(ProgNext(s, pos, left), pos + s.g.slots, left - s.g.slots, x);
    }
  }

  lemma FillableShape(s: State)
    requires Fillable(s)
    ensures Shape(s) && Sane(s.g) && ValidChip(s.g, s.mru)
  {
  }

  lemma MissesNext(s: State, pos: nat, left: int, x: nat)
    requires CanFillNext(s, pos, left) && ProgRoom(s, pos, left) && x != PAGE_UNMAPPED
    requires forall i :: pos <= i < pos + left ==> s.lpaBuf[i] != x
    ensures var r := ProgNext(s, pos, left);
            && Fillable(r) && ProgRoom(r, pos + s.g.slots, left - s.g.slots) && SameAt(View(r), View(s), x)
            && forall i :: pos + s.g.slots <= i < pos + left ==> r.lpaBuf[i] != x
  {
    hide Fillable, View, ProgNext, Written, NextChip;
    FillNextOk(s, pos, left);
    FillableShape(s);
    var l := Chunk(s.g, s.lpaBuf, pos, left);
    assert l[0..] == l;
    WrittenMiss(View(s), l, s.dataBuf[pos..pos + s.g.slots], 0, x);
    forall i | pos + s.g.slots <= i < pos + left ensures ProgNext(s, pos, left).lpaBuf[i] != x {
      RestKept(s, ProgNext(s, pos, left), pos, left, i);
    }
  }

  lemma FirstTaker(s: State)
    requires Shape(s)
    ensures NextChip(s.g, s.mru) in s.chips && (CanAlloc(s, NextChip(s.g, s.mru)) <==> Takers(s, 1))
  {
    assert Turn(s.g, s.mru, 1) == NextChip(s.g, Turn(s.g, s.mru, 0));
    assert Takers(s, 1) ==> CanAlloc(s, Turn(s.g, s.mru, 1));
  }

  /** The chips after the next one take pages as before. */
  lemma TakersNext(s: State, r: State, k: nat)
    requires Shape(s) && Shape(r) && Takers(s, k + 1) && k < NumChips(s.g) && r.g == s.g
    requires r.mru == NextChip(s.g, s.mru)
    requires forall x :: ValidChip(s.g, x) && x != r.mru ==>
             r.chips[x].act == s.chips[x].act && r.chips[x].free == s.chips[x].free
    ensures Takers(r, k)
  {
    hide BlksShape, DiskShape, L2pShape, Listed, NumChips;
    forall i | 1 <= i <= k ensures CanAlloc(r, Turn(r.g, r.mru, i)) {
      TurnShift(s.g, s.mru, i);
      TurnsDiffer(s.g, s.mru, 1, i + 1);
      assert Turn(s.g, s.mru, 1) == NextChip(s.g, Turn(s.g, s.mru, 0));
      assert CanAlloc(s, Turn(s.g, s.mru, i + 1));
    }
  }

  /** Entry p is in the k-th chunk from pos on. */
  predicate InChunk(p: nat, pos: nat, slots: nat, k: nat)
    decreases k
  {
    if k == 0 then pos <= p < pos + slots else pos + slots <= p && InChunk(p, pos + slots, slots, k - 1)
  }

  lemma {:induction false} InChunkOf(p: nat, pos: nat, slots: nat, k: nat)
    requires pos + k * slots <= p < pos + k * slots + slots
    ensures InChunk(p, pos, slots, k)
    decreases k
  {
    if k > 0 {
      Distribute(k - 1, slots);
      InChunkOf(p, pos + slots, slots, k - 1);
    }
  }

  lemma ProgAfter(s: State, pos: nat, left: int)
    requires CanFillNext(s, pos, left) && ProgRoom(s, pos, left)
    ensures var r := ProgNext(s, pos, left);
            && Fillable(r) && r.g == s.g && ProgRoom(r, pos + s.g.slots, left - s.g.slots) && r.dataBuf == s.dataBuf
            && Prog(s, pos, left) == Prog(r, pos + s.g.slots, left - s.g.slots)
  {
    hide BlksShape, DiskShape, ChipsShape, L2pShape, NamedBelow, Takes, ProgNext, View;
    NextIsValid(s);
    RoomIsRoomy(s, pos, left);
    FillNextOk(s, pos, left);
  }

  lemma HitsNow(s: State, pos: nat, left: int, p: nat)
    requires CanFillNext(s, pos, left) && ProgRoom(s, pos, left) && FilledNext(s, ProgNext(s, pos, left), pos, left)
    requires pos <= p < pos + s.g.slots && p < pos + left
    requires s.lpaBuf[p] != PAGE_UNMAPPED && forall i :: p < i < pos + left ==> s.lpaBuf[i] != s.lpaBuf[p]
    ensures var r := ProgNext(s, pos, left);
            && ProgRoom(r, pos + s.g.slots, left - s.g.slots)
            && s.lpaBuf[p] in View(r) && View(r)[s.lpaBuf[p]] == s.dataBuf[p]
            && forall i :: pos + s.g.slots <= i < pos + left ==> r.lpaBuf[i] != s.lpaBuf[p]
  {
    hide Fillable, View, ProgNext, Written, NextChip;
    FillableShape(s);
    var l := Chunk(s.g, s.lpaBuf, pos, left);
    assert l[p - pos] == s.lpaBuf[p];
    WrittenLast(View(s), l, s.dataBuf[pos..pos + s.g.slots], 0, p - pos);
    forall i | pos + s.g.slots <= i < pos + left ensures ProgNext(s, pos, left).lpaBuf[i] != s.lpaBuf[p] {
      RestKept(s, ProgNext(s, pos, left), pos, left, i);
    }
  }

  lemma HitsLater(s: State, r: State, pos: nat, left: int, k: nat, p: nat)
    requires Shape(s) && Fillable(r) && Roomy(s, pos, left) && left > 0 && FilledNext(s, r, pos, left)
    requires ProgRoom(s, pos, left)
    requires 0 < k < NumChips(s.g) && Takers(s, k + 1) && pos + s.g.slots <= p < pos + left
    requires forall i :: p < i < pos + left ==> s.lpaBuf[i] != s.lpaBuf[p]
    ensures Shape(r) && Takers(r, k) && ProgRoom(r, pos + s.g.slots, left - s.g.slots)
    ensures r.lpaBuf[p] == s.lpaBuf[p] && forall i :: p < i < pos + left ==> r.lpaBuf[i] != s.lpaBuf[p]
  {
    FillableShape(r);
    hide Shape, Fillable, View, Written;
    TakersNext(s, r, k);
    hide Takers;
    RestKept(s, r, pos, left, p);
    forall i | p < i < pos + left ensures r.lpaBuf[i] != s.lpaBuf[p] { RestKept(s, r, pos, left, i); }
  }

  /** Entry p is the last one for its LPA. */
  ghost predicate LastEntry(s: State, pos: nat, left: int, p: nat) {
    && p < pos + left <= |s.lpaBuf| && p < |s.dataBuf| && s.lpaBuf[p] != PAGE_UNMAPPED
    && forall i :: p < i < pos + left ==> s.lpaBuf[i] != s.lpaBuf[p]
  }

  /** The flash shows y for x. */
  predicate Shows(v: map<nat, Data>, x: nat, y: Data) { x in v && v[x] == y }

  lemma HitsFirst(s: State, pos: nat, left: int, p: nat)
    requires CanFillNext(s, pos, left) && ProgRoom(s, pos, left) && LastEntry(s, pos, left, p)
    requires pos <= p < pos + s.g.slots
    ensures Shape(Prog(s, pos, left).0) && Shows(View(Prog(s, pos, left).0), s.lpaBuf[p], s.dataBuf[p])
  {
    hide Shape, Fillable, ProgNext, View, FilledNext, Written, NextChip, Prog, CanAlloc, ProgRoom, Roomy;
    ProgAfter(s, pos, left);
    FillNextOk(s, pos, left);
    HitsNow(s, pos, left, p);
    FillableShape(ProgNext(s, pos, left));
    ProgMisses(ProgNext(s, pos, left), pos + s.g.slots, left - s.g.slots, s.lpaBuf[p]);
  }

  lemma HitsRest(s: State, pos: nat, left: int, k: nat, p: nat)
    requires CanFillNext(s, pos, left) && ProgRoom(s, pos, left) && LastEntry(s, pos, left, p) && pos + s.g.slots <= p
    requires Shape(s) && 0 < k < NumChips(s.g) && Takers(s, k + 1)
    ensures var r := ProgNext(s, pos, left);
            && Fillable(r) && Shape(r) && r.g == s.g && ProgRoom(r, pos + s.g.slots, left - s.g.slots) && Takers(r, k)
            && LastEntry(r, pos + s.g.slots, left - s.g.slots, p) && r.lpaBuf[p] == s.lpaBuf[p]
            && r.dataBuf == s.dataBuf
            && Prog(s, pos, left) == Prog(r, pos + s.g.slots, left - s.g.slots)
  {
    hide Shape, Fillable, ProgNext, View, Written, NextChip, Prog, CanAlloc, ProgRoom, Roomy, Takers;
    ProgAfter(s, pos, left);
    FillNextOk(s, pos, left);
    HitsLater(s, ProgNext(s, pos, left), pos, left, k, p);
  }

  /** Entry p, in chunk k, is the last for its LPA, and a page can be had for every chunk up to k. */
  ghost predicate WillHit(s: State, pos: nat, left: int, k: nat, p: nat) {
    && Fillable(s) && Shape(s) && ProgRoom(s, pos, left) && k < NumChips(s.g) && Takers(s, k + 1)
    && InChunk(p, pos, s.g.slots, k) && LastEntry(s, pos, left, p)
  }

  ghost predicate DoesHit(s: State, pos: nat, left: int, p: nat)
    requires Fillable(s) && ProgRoom(s, pos, left) && LastEntry(s, pos, left, p)
  {
    Shape(Prog(s, pos, left).0) && Shows(View(Prog(s, pos, left).0), s.lpaBuf[p], s.dataBuf[p])
  }

  lemma HitsAfter(s: State, pos: nat, left: int, k: nat, p: nat)
    requires WillHit(s, pos, left, k, p) && k > 0
    ensures CanFillNext(s, pos, left)
    ensures var r := ProgNext(s, pos, left);
            && WillHit(r, pos + s.g.slots, left - s.g.slots, k - 1, p)
            && (DoesHit(r, pos + s.g.slots, left - s.g.slots, p) ==> DoesHit(s, pos, left, p))
  {
    CanFillFirst(s, pos, left, k, p);
    hide Shape, Fillable, ProgNext, View, NextChip, NumChips, Prog, Takers, LastEntry, ProgRoom, CanFillNext, Shows;
    HitsRest(s, pos, left, k, p);
  }

  /** Then what the entry says is what the flash shows for its LPA afterwards. */
  lemma {:induction false} ProgHits(s: State, pos: nat, left: int, k: nat, p: nat)
    requires WillHit(s, pos, left, k, p)
    ensures DoesHit(s, pos, left, p)
    decreases k
  {
    hide Shape, Fillable, ProgNext, View, NextChip, NumChips, Prog, Takers, LastEntry, ProgRoom, CanFillNext, Shows;
    if k == 0 {
      CanFillFirst(s, pos, left, k, p);
      HitsFirst(s, pos, left, p);
    } else {
      HitsAfter(s, pos, left, k, p);
      ProgHits(ProgNext(s, pos, left), pos + s.g.slots, left - s.g.slots, k - 1, p);
    }
  }

  lemma CanFillFirst(s: State, pos: nat, left: int, k: nat, p: nat)
    requires Fillable(s) && Shape(s) && ProgRoom(s, pos, left) && Takers(s, k + 1) && pos <= p
    requires LastEntry(s, pos, left, p)
    ensures CanFillNext(s, pos, left)
  {
    FirstTaker(s);
    assert Takers(s, 1);
    hide Shape, Fillable, Takers;
    RoomIsRoomy(s, pos, left);
  }

  /** Whole chunks do not depend on how many entries come after them. */
  lemma SameChunk(s: State, pos: nat, left: int, left': int)
    requires CanFillNext(s, pos, left) && CanFillNext(s, pos, left') && left >= s.g.slots && left' >= s.g.slots
    ensures ProgNext(s, pos, left) == ProgNext(s, pos, left')
  {
    hide Fillable, ProgramPage, NextChip;
    assert Chunk(s.g, s.lpaBuf, pos, left) == Chunk(s.g, s.lpaBuf, pos, left');
  }

  /** m entries are k whole chunks. */
  predicate Chunks(m: nat, slots: nat, k: nat)
    decreases k
  {
    if k == 0 then m == 0 else slots <= m && Chunks(m - slots, slots, k - 1)
  }

  lemma {:induction false} ChunksProduct(slots: nat, k: nat)
    ensures Chunks(k * slots, slots, k)
    decreases k
  {
    if k > 0 {
      Distribute(k - 1, slots);
      ChunksProduct(slots, k - 1);
    }
  }

  /** If the first k chunks are good and one of the next k + 1 chips has no page, the program step stops unseen. */
  lemma {:induction false} ProgStops(s: State, pos: nat, left: int, k: nat, m: nat)
    requires Fillable(s) && ProgRoom(s, pos, left) && Chunks(m, s.g.slots, k) && ReadyToProg(s, pos, m) && left > m
    requires Shape(s) && !Takers(s, k + 1) && k < NumChips(s.g)
    ensures !Prog(s, pos, left).1 && StillShows(s, Prog(s, pos, left).0)
    decreases k
  {
    hide InvAt, Shape, Fillable, ProgNext, View, FilledNext, NextChip, NumChips, Copied;
    FillableShape(s);
    NextIsValid(s);
    RoomIsRoomy(s, pos, left);
    if CanAlloc(s, NextChip(s.g, s.mru)) {
      StopsLater(s, pos, left, k, m);
      ProgStops(ProgNext(s, pos, left), pos + s.g.slots, left - s.g.slots, k - 1, m - s.g.slots);
    }
  }

  lemma StopsLater(s: State, pos: nat, left: int, k: nat, m: nat)
    requires CanFillNext(s, pos, left) && ProgRoom(s, pos, left) && Chunks(m, s.g.slots, k) && ReadyToProg(s, pos, m)
    requires left > m
    requires Shape(s) && !Takers(s, k + 1) && k < NumChips(s.g)
    ensures k > 0 && m >= s.g.slots
    ensures var r := ProgNext(s, pos, left);
            && StillShows(s, r) && Fillable(r) && Shape(r) && ProgRoom(r, pos + s.g.slots, left - s.g.slots)
            && Chunks(m - s.g.slots, r.g.slots, k - 1) && ReadyToProg(r, pos + s.g.slots, m - s.g.slots)
            && !Takers(r, k)
  {
    hide InvAt, Fillable, ProgNext, View, Copied, BlksShape, DiskShape, ChipsShape, L2pShape;
    FirstTaker(s);
    SameChunk(s, pos, left, m);
    ProgNextOk(s, pos, m);
    FillNextOk(s, pos, left);
    var r := ProgNext(s, pos, left);
    FillableShape(r);
    if Takers(r, k) { TakersBefore(s, r, k); }
  }

  lemma TakersBefore(s: State, r: State, k: nat)
    requires Shape(s) && Shape(r) && Takers(r, k) && k < NumChips(s.g) && r.g == s.g && r.mru == NextChip(s.g, s.mru)
    requires CanAlloc(s, NextChip(s.g, s.mru))
    requires forall x :: ValidChip(s.g, x) && x != r.mru ==>
             r.chips[x].act == s.chips[x].act && r.chips[x].free == s.chips[x].free
    ensures Takers(s, k + 1)
  {
    hide BlksShape, DiskShape, L2pShape, Listed, NumChips;
    forall i | 1 <= i <= k + 1 ensures CanAlloc(s, Turn(s.g, s.mru, i)) {
      assert Turn(s.g, s.mru, 1) == NextChip(s.g, Turn(s.g, s.mru, 0));
      if i > 1 {
        TurnShift(s.g, s.mru, i - 1);
        TurnsDiffer(s.g, s.mru, 1, i);
        assert CanAlloc(r, Turn(r.g, r.mru, i - 1));
      }
    }
  }

  // ---- what background GC has copied ---------------------------------------------------------------------------

  /** How many slots the read pass counts before the first turn on a free page, the victims being chosen. */
  ghost function Good(v: State): nat
    requires Inv(v) && Shape(v) && CursorsOk(v)
  {
    TurnsOk(v, v.mru, NumChips(v.g));
    GoodCount(v, v.mru, NumChips(v.g))
  }

  /** No victim has a free page at its cursor. */
  ghost predicate NoneStale(v: State)
    requires Shape(v) && CursorsOk(v)
  {
    forall c :: ValidChip(v.g, c) ==> !StaleAt(v, c)
  }

  /**
   * After the read pass: the first n entries are different mapped LPAs with their data, entries up to
   * |l| are different mapped LPAs, and entry n's data - if a victim was stale - was there before.
   */
  ghost predicate CopiedUpTo(v: State, r: State, l: seq<Addr>, n: int)
    requires Shape(v) && Shape(r)
  {
    && 0 <= n <= |l| <= |v.lpaBuf| == |r.lpaBuf| && |r.dataBuf| == |v.dataBuf| && |v.lpaBuf| <= |v.dataBuf|
    && Copied(r, 0, n)
    && (forall i :: 0 <= i < |l| ==>
          ValidAddr(v.g, l[i]) && r.lpaBuf[i] == LpaAt(v.g, v.blks, l[i]) && r.lpaBuf[i] in v.l2p)
    && (forall i, j :: 0 <= i < j < |l| ==> r.lpaBuf[i] != r.lpaBuf[j])
    && (forall i :: |l| <= i < |v.lpaBuf| ==> r.lpaBuf[i] == v.lpaBuf[i])
  }

  lemma MappedThere(v: State, a: Addr)
    requires Inv(v) && Shape(v) && ValidAddr(v.g, a) && StatusAt(v.g, v.blks, a) == Valid
    ensures LpaAt(v.g, v.blks, a) in v.l2p && v.l2p[LpaAt(v.g, v.blks, a)] == a
    ensures LpaAt(v.g, v.blks, a) < v.g.entries
  {
    hide BlksOk, ChipsOk;
  }

  lemma ReadLpa(v: State, r: State, c: ChipId, l: seq<Addr>, cnt: int, n: int, stale: bool, i: nat)
    requires Inv(v) && Shape(v) && ReadResult(v, r, c, l, cnt, n, stale, 0, 0) && i < |l|
    requires StatusAt(v.g, v.blks, l[i]) == Valid
    ensures r.lpaBuf[i] == LpaAt(v.g, v.blks, l[i]) && r.lpaBuf[i] in v.l2p && v.l2p[r.lpaBuf[i]] == l[i]
  {
    MappedThere(v, l[i]);
    hide InvAt, BlksShape, DiskShape, ChipsShape, L2pShape, ValidAddr, DataOf;
    assert LpasOf(v.g, v.blks, l)[i] == LpaAt(v.g, v.blks, l[i]);
  }

  lemma ReadEntry(v: State, r: State, c: ChipId, l: seq<Addr>, cnt: int, n: int, stale: bool, i: nat)
    requires Inv(v) && Shape(v) && Shape(r) && ReadResult(v, r, c, l, cnt, n, stale, 0, 0) && i < |l|
    requires StatusAt(v.g, v.blks, l[i]) == Valid
    ensures r.lpaBuf[i] == LpaAt(v.g, v.blks, l[i]) && r.lpaBuf[i] in v.l2p && v.l2p[r.lpaBuf[i]] == l[i]
    ensures i < n ==> r.lpaBuf[i] in View(r) && r.dataBuf[i] == View(r)[r.lpaBuf[i]]
  {
    hide InvAt, BlksShape, DiskShape, ChipsShape, L2pShape, ValidAddr, LpasOf, LpaAt;
    ReadLpa(v, r, c, l, cnt, n, stale, i);
    if i < n { assert r.dataBuf[0 + i] == DataOf(v.g, v.disk, l)[i] == DataAt(v.g, v.disk, l[i]); }
  }

  lemma ReadIsCopied(v: State, r: State, c: ChipId, l: seq<Addr>, cnt: int, n: int, stale: bool)
    requires Inv(v) && Shape(v) && Shape(r) && NoDup(l) && ReadResult(v, r, c, l, cnt, n, stale, 0, 0)
    requires |v.lpaBuf| <= |v.dataBuf|
    requires forall i :: 0 <= i < |l| ==> ValidAddr(v.g, l[i]) && StatusAt(v.g, v.blks, l[i]) == Valid
    ensures CopiedUpTo(v, r, l, n)
  {
    forall i | 0 <= i < |l|
      ensures r.lpaBuf[i] == LpaAt(v.g, v.blks, l[i]) && r.lpaBuf[i] in v.l2p && v.l2p[r.lpaBuf[i]] == l[i]
      ensures i < n ==> r.lpaBuf[i] in View(r) && r.dataBuf[i] == View(r)[r.lpaBuf[i]]
    {
      ReadEntry(v, r, c, l, cnt, n, stale, i);
    }
    hide InvAt, Shape, View, ValidAddr, LpasOf, DataOf, LpaAt;
    forall i, j | 0 <= i < j < |l| ensures r.lpaBuf[i] != r.lpaBuf[j] { assert l[i] != l[j]; }
  }

  /** The slots background GC copies, the victims being chosen. */
  ghost function Read(v: State): seq<Addr>
    requires Shape(v) && CursorsOk(v)
  {
    ReadAddrs(v, v.mru, NumChips(v.g))
  }

  /** The state after the read pass of background GC, with v the one before. */
  ghost predicate BgcRest(v: State, r: State)
    requires Inv(v) && Shape(v) && CursorsOk(v)
  {
    && Shape(r) && r == v.(lpaBuf := r.lpaBuf, dataBuf := r.dataBuf, nrCopy := r.nrCopy)
    && CopiedUpTo(v, r, Read(v), Good(v)) && |Read(v)| <= r.nrCopy <= |r.lpaBuf|
    && r.nrCopy <= NumChips(v.g) * v.g.slots
    && if NoneStale(v) then Good(v) == r.nrCopy else Good(v) < r.nrCopy && r.dataBuf[Good(v)] == v.dataBuf[Good(v)]
  }

  lemma ReadRest(v: State)
    requires Ready(v) && AllGood(v) && v.nrCopy == 0
    ensures Shape(v) && CursorsOk(v) && CanRead(v, NumChips(v.g), 0, 0)
    ensures BgcRest(v, BgcRead(v, NumChips(v.g), 0, 0).0)
  {
    InvShape(v);
    CopiedRoom(v);
    hide InvAt, Shape, View, CursorsOk, StillShows, AllGood, CanRead, NumChips, Fillable, ReadAddrs, ReadCount,
         GoodCount, HasStale, StaleAt, TurnLive, LpasOf, DataOf, Over, DataRead, CopiedUpTo, WholePages, BufSize;
    var n, l, r := NumChips(v.g), Read(v), BgcRead(v, NumChips(v.g), 0, 0).0;
    BgcReadAll(v);
    TurnsOk(v, v.mru, n);
    InvShape(r);
    ReadIsCopied(v, r, v.mru, l, ReadCount(v, v.mru, n), Good(v), HasStale(v, v.mru, n));
    if !NoneStale(v) { StaleData(v, r, l, n); }
  }

  lemma StaleData(v: State, r: State, l: seq<Addr>, n: nat)
    requires Shape(v) && CursorsOk(v) && HasStale(v, v.mru, n) && ReadDone(v, r, n, 0, 0)
    requires 0 <= GoodCount(v, v.mru, n)
    ensures |r.dataBuf| == |v.dataBuf| && GoodCount(v, v.mru, n) < |v.dataBuf|
    ensures r.dataBuf[GoodCount(v, v.mru, n)] == v.dataBuf[GoodCount(v, v.mru, n)]
  {
    hide Shape, CursorsOk, ReadAddrs, ReadCount, GoodCount, HasStale;
  }

  // ---- the guard -----------------------------------------------------------------------------------------------

  /** The chunk entry p is in. */
  function ChunkNo(p: nat, slots: nat): nat
    requires slots > 0
  {
    p / slots
  }

  lemma ChunkBounds(p: nat, slots: nat, n: nat) returns (m: nat)
    requires slots > 0 && p < n * slots
    ensures var k := ChunkNo(p, slots); k < n && m <= p && Chunks(m, slots, k) && InChunk(p, 0, slots, k)
  {
    var k := p / slots;
    m := k * slots;
    assert p == m + p % slots;
    assert k >= n ==> m >= n * slots;
    ChunksProduct(slots, k);
    InChunkOf(p, 0, slots, k);
  }

  /** A page cannot be had for one of the chunks up to the one with entry p. */
  ghost predicate StopsBy(v: State, p: nat)
    requires Shape(v)
  {
    !Takers(v, ChunkNo(p, v.g.slots) + 1)
  }

  /**
   * Background GC shows nothing new: there is no active block on the chip last written, so that no page
   * is moved; or no victim can be chosen; or every victim left after the choice has its page at the cursor
   * programmed; or a page cannot be had before the first chunk with a slot that was counted but not copied.
   */
  ghost predicate BgcSafe(s: State)
    requires Ready(s)
  {
    ReadyShape(s);
    || s.chips[s.mru].act.None?
    || !BgcChosen(s).1
    || NoneStale(BgcChosen(s).0)
    || StopsBy(BgcChosen(s).0, Good(BgcChosen(s).0))
  }

  lemma ReadyShape(s: State)
    requires Ready(s)
    ensures Shape(s) && s.mru in s.chips && Shape(BgcChosen(s).0)
    ensures BgcChosen(s).1 ==> CursorsOk(BgcChosen(s).0)
  {
    hide BlksOk, Biject, ChipsOk, View, BufSize, BgcChosen, AllGood, CursorsOk, StillShows;
    InvShape(BgcChosen(s).0);
    if BgcChosen(s).1 { GoodCursors(BgcChosen(s).0); }
  }

  // ---- the guard suffices --------------------------------------------------------------------------------------

  lemma BgcRested(s: State)
    requires Ready(s) && BgcChosen(s).1
    ensures var v := BgcChosen(s).0; Shape(v) && CursorsOk(v) && BgcRest(v, BgcCopied(s))
  {
    hide BlksOk, Biject, ChipsOk, View, BufSize, BgcChosen, AllGood, CursorsOk, BgcRest;
    ReadRest(BgcChosen(s).0);
  }

  lemma CopiedLess(r: State, n: nat, m: nat)
    requires Shape(r) && Copied(r, 0, n) && m <= n
    ensures Copied(r, 0, m)
  {
    hide Shape, View;
  }

  lemma TakersSame(v: State, r: State, k: nat)
    requires Shape(v) && Shape(r) && r.g == v.g && r.mru == v.mru && r.chips == v.chips
    ensures Takers(r, k) <==> Takers(v, k)
  {
    hide BlksShape, DiskShape, L2pShape, Listed;
  }

  lemma NoneStaleKeeps(v: State, r: State)
    requires Inv(v) && Shape(v) && CursorsOk(v) && Inv(r) && Fillable(r) && ProgRoom(r, 0, r.nrCopy) && BgcRest(v, r)
    requires NoneStale(v)
    ensures StillShows(r, Prog(r, 0, r.nrCopy).0)
  {
    hide InvAt, Shape, View, CursorsOk, Good, Prog, Fillable, Copied, WholePages, NumChips, NoneStale, StillShows;
    ProgGood(r, 0, r.nrCopy);
  }

  lemma StopKeeps(v: State, r: State)
    requires Inv(v) && Shape(v) && CursorsOk(v) && Inv(r) && Fillable(r) && ProgRoom(r, 0, r.nrCopy) && BgcRest(v, r)
    requires !NoneStale(v) && StopsBy(v, Good(v))
    ensures StillShows(r, Prog(r, 0, r.nrCopy).0)
  {
    ShapeParts(v);
    hide InvAt, Shape, View, CursorsOk, Good, Prog, Fillable, Takers, Copied, WholePages, NumChips, NoneStale,
         StillShows, InChunk, ChunkNo, Chunks;
    var m := ChunkBounds(Good(v), v.g.slots, NumChips(v.g));
    CopiedLess(r, Good(v), m);
    TakersSame(v, r, ChunkNo(Good(v), v.g.slots) + 1);
    ProgStops(r, 0, r.nrCopy, ChunkNo(Good(v), v.g.slots), m);
  }

  /** Under the guard the program step keeps what the flash shows. */
  lemma MovedKeeps(s: State)
    requires Ready(s) && BgcChosen(s).1 && Shape(s) && s.chips[s.mru].act.Some? && BgcSafe(s)
    ensures StillShows(BgcCopied(s), BgcMoved(s).0)
  {
    ReadyShape(s);
    BgcRested(s);
    hide InvAt, BlksShape, DiskShape, ChipsShape, L2pShape, View, BufSize, BgcChosen, BgcCopied, AllGood, CursorsOk,
         Good, Prog, Fillable, NoneStale, StopsBy, ProgRoom, BgcRest;
    if NoneStale(BgcChosen(s).0) {
      NoneStaleKeeps(BgcChosen(s).0, BgcCopied(s));
    } else {
      StopKeeps(BgcChosen(s).0, BgcCopied(s));
    }
  }

  lemma ReadyKept(s: State, r: State)
    requires Ready(s) && StillShows(s, r)
    ensures Ready(r)
  {
    hide InvAt, View, BufSize;
  }

  lemma UpdatedShows(s: State, m: State)
    requires StillShows(s, m)
    ensures Shape(m) && StillShows(s, UpdateGc(m, 0, 0).0)
  {
    hide BlksOk, Biject, ChipsOk, View, UpdateGc;
    InvShape(m);
    UpdateGcKeeps(m, 0, 0);
  }

  /** Background GC under the guard never changes what the flash shows, whatever it returns. */
  lemma BgcKeeps(s: State)
    requires Ready(s) && BgcSafe(s)
    ensures Ready(Bgc(s).0) && StillShows(s, Bgc(s).0)
  {
    hide InvAt, Shape, View, BufSize, BgcChosen, BgcCopied, BgcMoved, AllGood, Fillable, ProgRoom, UpdateGc, BgcPrepare,
         BgcSafe, StillShows, Bgc;
    BgcCases(s);
    if s.chips[s.mru].act.Some? && BgcChosen(s).1 {
      MovedKeeps(s);
      ShowsTrans(s, BgcCopied(s), BgcMoved(s).0);
      UpdatedShows(s, BgcMoved(s).0);
    }
    ReadyKept(s, Bgc(s).0);
  }

  // ---- and it is necessary -------------------------------------------------------------------------------------

  /** The state with other contents in the copy buffers. */
  function WithBufs(s: State, l: seq<nat>, d: seq<Data>): State { s.(lpaBuf := l, dataBuf := d) }

  /** Entries the mapping table has room for, and padding. */
  predicate InRange(g: Geo, l: seq<nat>) {
    forall i :: 0 <= i < |l| ==> l[i] < g.entries || l[i] == PAGE_UNMAPPED
  }

  predicate BufsFit(s: State, l: seq<nat>, d: seq<Data>) {
    |l| == |s.lpaBuf| && |d| == |s.dataBuf| && InRange(s.g, l)
  }

  lemma ReadyWith(s: State, l: seq<nat>, d: seq<Data>)
    requires Ready(s) && |l| == |s.lpaBuf| && |d| == |s.dataBuf|
    ensures Ready(WithBufs(s, l, d)) && View(WithBufs(s, l, d)) == View(s)
  {
    hide InvAt, View, BufSize;
    BufIrrelevant(s, l, d, s.nrCopy);
  }

  lemma BgcShape(s: State)
    requires Ready(s)
    ensures Shape(Bgc(s).0) && Bgc(s).0.g == s.g
  {
    hide InvAt, BlksShape, DiskShape, ChipsShape, L2pShape, View, BufSize, BgcChosen, BgcCopied, BgcMoved, UpdateGc,
         BgcPrepare, Fillable, AllGood, ProgRoom, Bgc;
    BgcCases(s);
    if s.chips[s.mru].act.None? {
      InvShape(BgcPrepare(s, NumChips(s.g)).0);
    } else if BgcChosen(s).1 {
      InvShape(BgcCopied(s));
      UpdateGcOk(BgcMoved(s).0, 0, 0);
    } else {
      InvShape(BgcChosen(s).0);
    }
  }

  /** With these contents in the copy buffers background GC shows nothing new. */
  ghost predicate KeepsWith(s: State, l: seq<nat>, d: seq<Data>)
    requires Ready(s)
  {
    BufsFit(s, l, d) ==> (
      ReadyWith(s, l, d);
      BgcShape(WithBufs(s, l, d));
      InvShape(s);
      View(Bgc(WithBufs(s, l, d)).0) == View(s))
  }

  lemma {:induction false} MostInvalidWith(s: State, s1: State, c: ChipId, l: seq<nat>, i: nat, best: Option<nat>,
                                           most: int)
    requires Shape(s) && Shape(s1) && s1.g == s.g && s1.blks == s.blks
    requires ValidChip(s.g, c) && i <= |l| && (forall j :: 0 <= j < |l| ==> l[j] < s.g.blocks)
    requires if best.None? then most == 0 else best.value in l && 0 < most == NrInvalid(s, c, best.value)
    requires forall j :: 0 <= j < i ==> NrInvalid(s, c, l[j]) <= most
    requires forall x :: 0 <= x < s.g.blocks ==> NrInvalid(s1, c, x) == NrInvalid(s, c, x)
    ensures MostInvalid(s1, c, l, i, best, most) == MostInvalid(s, c, l, i, best, most)
    decreases |l| - i
  {
    hide Shape, NrInvalid;
    if i < |l| {
      if NrInvalid(s, c, l[i]) > most {
        MostInvalidWith(s, s1, c, l, i + 1, Some(l[i]), NrInvalid(s, c, l[i]));
      } else {
        MostInvalidWith(s, s1, c, l, i + 1, best, most);
      }
    }
  }

  lemma BgcPickWith(s: State, s1: State, c: ChipId)
    requires Shape(s) && Shape(s1) && s1.g == s.g && s1.blks == s.blks && ValidChip(s.g, c) && s1.chips[c] == s.chips[c]
    ensures BgcPick(s1, c) == BgcPick(s, c)
  {
    assert Listed(s.g, s.chips[c]) && forall j :: 0 <= j < |s.chips[c].used| ==> s.chips[c].used[j] in s.chips[c].used;
    MostInvalidWith(s, s1, c, s.chips[c].used, 0, None, 0);
    hide MostInvalid, FirstValidPg, DiskShape, L2pShape;
  }

  lemma {:induction false} BgcSetVictimsWith(s: State, l: seq<nat>, d: seq<Data>, bus: nat, chip: nat)
    requires Inv(s) && Inv(WithBufs(s, l, d)) && bus <= s.g.buses && chip <= s.g.chips
    ensures var r := BgcSetVictims(s, bus, chip);
            BgcSetVictims(WithBufs(s, l, d), bus, chip) == (WithBufs(r.0, l, d), r.1)
    decreases s.g.buses - bus, s.g.chips - chip
  {
    hide InvAt, View, BlksShape, DiskShape, ChipsShape, L2pShape, BgcPick;
    if bus < s.g.buses {
      if chip == s.g.chips {
        BgcSetVictimsWith(s, l, d, bus + 1, 0);
      } else {
        var c := ChipId(bus, chip);
        InvShape(s);
        InvShape(WithBufs(s, l, d));
        BgcPickWith(s, WithBufs(s, l, d), c);
        BgcChooseInv(s, c);
        BgcChooseInv(WithBufs(s, l, d), c);
        assert BgcChoose(WithBufs(s, l, d), c).0 == WithBufs(BgcChoose(s, c).0, l, d);
        BgcSetVictimsWith(BgcChoose(s, c).0, l, d, bus, chip + 1);
      }
    }
  }

  /** The choice of victims does not look at the buffers. */
  lemma BgcChosenWith(s: State, l: seq<nat>, d: seq<Data>)
    requires Ready(s) && |l| == |s.lpaBuf| && |d| == |s.dataBuf|
    ensures Ready(WithBufs(s, l, d))
    ensures BgcChosen(WithBufs(s, l, d)) == (WithBufs(BgcChosen(s).0, l, d), BgcChosen(s).1)
  {
    hide InvAt, View, BufSize, BgcSetVictims, AllGood;
    ReadyWith(s, l, d);
    BufIrrelevant(s, s.lpaBuf, s.dataBuf, 0);
    BufIrrelevant(s, l, d, 0);
    BgcSetVictimsWith(s.(nrCopy := 0), l, d, 0, 0);
  }

  // ---- contents that show --------------------------------------------------------------------------------------

  /** Padding throughout, but for LPA 0 at entry p. */
  function JunkLpas(n: nat, p: nat): (r: seq<nat>)
    ensures |r| == n && forall i :: 0 <= i < n ==> r[i] == if i == p then 0 else PAGE_UNMAPPED
  {
    seq(n, i => if i == p then 0 else PAGE_UNMAPPED)
  }

  function JunkData(n: nat, w: Data): (r: seq<Data>)
    ensures |r| == n && forall i :: 0 <= i < n ==> r[i] == w
  {
    seq(n, _ => w)
  }

  /** Some data other than what v has at x. */
  function OtherData(v: map<nat, Data>, x: nat): (w: Data)
    ensures x in v ==> v[x] != w
  {
    if x in v && v[x].bytes == [] then Data([0]) else Data([])
  }

  /** The LPA that entry p holds after the read pass, over junk. */
  ghost function HitLpa(v: State, p: nat): nat
    requires Shape(v) && CursorsOk(v)
  {
    if p < |Read(v)| && ValidAddr(v.g, Read(v)[p]) then LpaAt(v.g, v.blks, Read(v)[p]) else 0
  }

  /** Over junk, entry p of a buffer whose first n entries are different LPAs is the last for its LPA. */
  lemma OverJunk(buf: seq<nat>, n: nat, p: nat, cnt: nat)
    requires n <= |buf| && p < cnt <= |buf| && (forall i, j :: 0 <= i < j < n ==> buf[i] != buf[j])
    requires forall i :: 0 <= i < n ==> buf[i] != PAGE_UNMAPPED
    requires forall i :: n <= i < |buf| ==> buf[i] == JunkLpas(|buf|, p)[i]
    ensures buf[p] != PAGE_UNMAPPED && (p >= n ==> buf[p] == 0)
    ensures forall i :: p < i < cnt ==> buf[i] != buf[p]
  {
    forall i | p < i < cnt ensures buf[i] != buf[p] {
      if i >= n { assert buf[i] == JunkLpas(|buf|, p)[i] == PAGE_UNMAPPED; }
    }
  }

  /** With junk in the buffers the first slot counted but not copied is the last entry for its LPA. */
  lemma JunkIsLast(v: State, r: State, p: nat, w: Data)
    requires Inv(v) && Shape(v) && CursorsOk(v) && BgcRest(v, r) && !NoneStale(v) && p == Good(v)
    requires v.lpaBuf == JunkLpas(|v.lpaBuf|, p) && v.dataBuf == JunkData(|v.dataBuf|, w)
    ensures LastEntry(r, 0, r.nrCopy, p) && r.lpaBuf[p] == HitLpa(v, p) && r.dataBuf[p] == w
  {
    hide InvAt, Shape, View, CursorsOk, Copied, NumChips, NoneStale, Good, ReadAddrs, Read, LpaAt, ValidAddr, JunkLpas;
    forall i | 0 <= i < |Read(v)| ensures r.lpaBuf[i] != PAGE_UNMAPPED { LpaReal(v, r.lpaBuf[i]); }
    OverJunk(r.lpaBuf, |Read(v)|, p, r.nrCopy);
  }

  lemma LpaReal(v: State, x: nat)
    requires Inv(v) && Shape(v) && x in v.l2p
    ensures x < v.g.entries && x != PAGE_UNMAPPED
  {
    hide BlksOk, ChipsOk;
  }

  /** What the program step then shows for that LPA. */
  lemma JunkShows(v: State, r: State, p: nat, w: Data)
    requires Inv(v) && Shape(v) && CursorsOk(v) && BgcRest(v, r) && !NoneStale(v) && p == Good(v) && !StopsBy(v, p)
    requires v.lpaBuf == JunkLpas(|v.lpaBuf|, p) && v.dataBuf == JunkData(|v.dataBuf|, w)
    requires Inv(r) && Fillable(r) && ProgRoom(r, 0, r.nrCopy)
    ensures Shape(Prog(r, 0, r.nrCopy).0) && Shows(View(Prog(r, 0, r.nrCopy).0), HitLpa(v, p), w)
  {
    ShapeParts(v);
    hide InvAt, Shape, View, CursorsOk, Good, Prog, Fillable, Takers, Copied, WholePages, NumChips, NoneStale, InChunk,
         ChunkNo, Chunks, LastEntry, HitLpa, Shows;
    JunkIsLast(v, r, p, w);
    var _ := ChunkBounds(p, v.g.slots, NumChips(v.g));
    TakersSame(v, r, ChunkNo(p, v.g.slots) + 1);
    ProgHits(r, 0, r.nrCopy, ChunkNo(p, v.g.slots), p);
  }

  /** Nothing the guard looks at depends on the buffers. */
  lemma SameGuard(v: State, r: State)
    requires Inv(v) && Shape(v) && CursorsOk(v) && Inv(r) && Shape(r)
    requires r == v.(lpaBuf := r.lpaBuf, dataBuf := r.dataBuf)
    ensures CursorsOk(r) && Good(r) == Good(v) && NoneStale(r) == NoneStale(v)
    ensures forall p: nat :: StopsBy(r, p) == StopsBy(v, p) && HitLpa(r, p) == HitLpa(v, p)
  {
    hide InvAt, BlksShape, DiskShape, L2pShape, Listed, NumChips, ChunkNo;
    SameTurns(v, r, v.mru, NumChips(v.g));
    forall p: nat ensures StopsBy(r, p) == StopsBy(v, p) { TakersSame(v, r, ChunkNo(p, v.g.slots) + 1); }
    hide Takers, GoodCount, ReadAddrs;
    forall c | ValidChip(v.g, c) ensures StaleAt(r, c) == StaleAt(v, c) {}
  }

  lemma GuardWith(s: State, l: seq<nat>, d: seq<Data>)
    requires Ready(s) && |l| == |s.lpaBuf| && |d| == |s.dataBuf|
    ensures Ready(WithBufs(s, l, d)) && (BgcSafe(WithBufs(s, l, d)) <==> BgcSafe(s))
  {
    var s1 := WithBufs(s, l, d);
    ReadyWith(s, l, d);
    BgcChosenWith(s, l, d);
    ReadyShape(s);
    ReadyShape(s1);
    hide InvAt, BlksShape, DiskShape, ChipsShape, L2pShape, View, BufSize, BgcChosen, AllGood, CursorsOk, Good,
         NoneStale, StopsBy, StillShows;
    if BgcChosen(s).1 { SameGuard(BgcChosen(s).0, BgcChosen(s1).0); }
  }

  lemma JunkMoved(s: State, p: nat, w: Data)
    requires Ready(s) && !BgcSafe(s) && s.lpaBuf == JunkLpas(|s.lpaBuf|, p) && s.dataBuf == JunkData(|s.dataBuf|, w)
    requires BgcChosen(s).1 && Shape(BgcChosen(s).0) && CursorsOk(BgcChosen(s).0)
    requires BgcChosen(s).0.lpaBuf == s.lpaBuf && BgcChosen(s).0.dataBuf == s.dataBuf && p == Good(BgcChosen(s).0)
    ensures BgcCopied(s).nrCopy > 0
    ensures Shape(BgcMoved(s).0) && Shows(View(BgcMoved(s).0), HitLpa(BgcChosen(s).0, p), w)
  {
    var v := BgcChosen(s).0;
    ReadyShape(s);
    BgcRested(s);
    hide InvAt, Shape, View, BufSize, BgcChosen, BgcCopied, AllGood, CursorsOk, Good, NoneStale, StopsBy, StillShows,
         HitLpa, Shows, Prog, Fillable, ProgRoom, CopiedUpTo, NumChips;
    JunkShows(v, BgcCopied(s), p, w);
  }

  lemma UpdatedView(m: State)
    requires Shape(m)
    ensures Shape(UpdateGc(m, 0, 0).0) && View(UpdateGc(m, 0, 0).0) == View(m)
  {
    hide BlksShape, DiskShape, ChipsShape, L2pShape, View, UpdateGc;
    UpdateGcOk(m, 0, 0);
  }

  /** Outside the guard victims are chosen, and if anything is counted it is programmed. */
  lemma UnsafeMoves(s: State)
    requires Ready(s) && !BgcSafe(s)
    ensures BgcChosen(s).1 && Shape(BgcMoved(s).0)
    ensures BgcCopied(s).nrCopy > 0 ==> Bgc(s) == BgcMoved(s) || Bgc(s) == UpdateGc(BgcMoved(s).0, 0, 0)
  {
    ReadyShape(s);
    hide InvAt, BlksShape, DiskShape, ChipsShape, L2pShape, View, BufSize, BgcChosen, BgcCopied, BgcMoved, UpdateGc,
         AllGood, CursorsOk, Good, NoneStale, StopsBy, Fillable, StillShows, ProgRoom, Bgc;
    BgcCases(s);
  }

  lemma JunkBgc(s: State, p: nat, w: Data)
    requires Ready(s) && !BgcSafe(s) && s.lpaBuf == JunkLpas(|s.lpaBuf|, p) && s.dataBuf == JunkData(|s.dataBuf|, w)
    requires BgcChosen(s).1 && Shape(BgcChosen(s).0) && CursorsOk(BgcChosen(s).0)
    requires BgcChosen(s).0.lpaBuf == s.lpaBuf && BgcChosen(s).0.dataBuf == s.dataBuf && p == Good(BgcChosen(s).0)
    ensures Shape(Bgc(s).0) && Shows(View(Bgc(s).0), HitLpa(BgcChosen(s).0, p), w)
  {
    UnsafeMoves(s);
    hide InvAt, Shape, View, BufSize, BgcChosen, BgcCopied, BgcMoved, UpdateGc, AllGood, CursorsOk, Good, NoneStale,
         StopsBy, HitLpa, Shows, StillShows, BgcSafe, Bgc, JunkLpas, JunkData, Fillable;
    JunkMoved(s, p, w);
    UpdatedView(BgcMoved(s).0);
  }

  /** What background GC shows outside the guard, with junk in the buffers. */
  lemma UnsafeShows(s: State, w: Data)
    requires Ready(s) && !BgcSafe(s)
    ensures BgcChosen(s).1 && Shape(BgcChosen(s).0) && CursorsOk(BgcChosen(s).0)
    ensures var v := BgcChosen(s).0;
            var s1 := WithBufs(s, JunkLpas(|s.lpaBuf|, Good(v)), JunkData(|s.dataBuf|, w));
            Ready(s1) && Shape(Bgc(s1).0) && Shows(View(Bgc(s1).0), HitLpa(v, Good(v)), w)
  {
    ReadyShape(s);
    var v := BgcChosen(s).0;
    var l, d := JunkLpas(|s.lpaBuf|, Good(v)), JunkData(|s.dataBuf|, w);
    var s1 := WithBufs(s, l, d);
    GuardWith(s, l, d);
    BgcChosenWith(s, l, d);
    ReadyShape(s1);
    hide InvAt, Shape, View, BufSize, BgcChosen, Bgc, BgcSafe, AllGood, CursorsOk, Good, NoneStale, StopsBy, StillShows,
         HitLpa, Shows;
    SameGuard(v, BgcChosen(s1).0);
    JunkBgc(s1, Good(v), w);
  }

  /**
   * The guard is exact: background GC keeps what the flash shows for every content of its copy buffers
   * if and only if the guard holds.
   */
  lemma BgcSafeExact(s: State)
    requires Ready(s) && s.g.entries > 0
    ensures BgcSafe(s) <==> forall l, d :: KeepsWith(s, l, d)
  {
    if BgcSafe(s) {
      forall l, d ensures KeepsWith(s, l, d) { SafeKeepsWith(s, l, d); }
    } else {
      UnsafeFails(s);
    }
  }

  lemma SafeKeepsWith(s: State, l: seq<nat>, d: seq<Data>)
    requires Ready(s) && BgcSafe(s)
    ensures KeepsWith(s, l, d)
  {
    if BufsFit(s, l, d) {
      ReadyWith(s, l, d);
      GuardWith(s, l, d);
      BgcKeeps(WithBufs(s, l, d));
    }
    hide InvAt, View, BufSize, Bgc, BgcSafe, InRange;
  }

  lemma ShowsOther(s: State, l: seq<nat>, d: seq<Data>, x: nat, w: Data)
    requires Ready(s) && Shape(s) && Ready(WithBufs(s, l, d)) && Shape(Bgc(WithBufs(s, l, d)).0)
    requires |l| == |s.lpaBuf| && |d| == |s.dataBuf| && InRange(s.g, l)
    requires Shows(View(Bgc(WithBufs(s, l, d)).0), x, w) && w == OtherData(View(s), x)
    ensures !KeepsWith(s, l, d)
  {
    hide InvAt, Shape, View, BufSize, Bgc, InRange, OtherData;
  }

  lemma UnsafeFails(s: State)
    requires Ready(s) && !BgcSafe(s) && s.g.entries > 0
    ensures exists l, d :: !KeepsWith(s, l, d)
  {
    InvShape(s);
    hide InvAt, Shape, View, BufSize, BgcChosen, Bgc, BgcSafe, AllGood, CursorsOk, Good, StillShows, HitLpa, OtherData,
         KeepsWith, JunkLpas, JunkData;
    UnsafeShows(s, Data([]));
    var v := BgcChosen(s).0;
    var w := OtherData(View(s), HitLpa(v, Good(v)));
    UnsafeShows(s, w);
    var l, d := JunkLpas(|s.lpaBuf|, Good(v)), JunkData(|s.dataBuf|, w);
    ShowsOther(s, l, d, HitLpa(v, Good(v)), w);
  }

  // ---- within the mapping table --------------------------------------------------------------------------------

  /** Every LPA the program step uses, whatever it returns, has an entry in the mapping table. */
  ghost predicate InTable(s: State, pos: nat, left: int)
    requires Fillable(s) && ProgRoom(s, pos, left)
    decreases left
  {
    hide BlksShape, DiskShape, ChipsShape, L2pShape, NamedBelow, Takes, ProgNext, View;
    NextIsValid(s);
    RoomIsRoomy(s, pos, left);
    left > 0 && CanAlloc(s, NextChip(s.g, s.mru)) ==>
      && InRange(s.g, Chunk(s.g, s.lpaBuf, pos, left))
      && (FillNextOk(s, pos, left); InTable(ProgNext(s, pos, left), pos + s.g.slots, left - s.g.slots))
  }

  lemma CopiedInRange(s: State, pos: nat, left: int)
    requires Inv(s) && left > 0 && Copied(s, pos, left) && pos + s.g.slots <= |s.lpaBuf|
    ensures InRange(s.g, Chunk(s.g, s.lpaBuf, pos, left))
  {
    CopiedReal(s, pos, left);
  }

  lemma {:induction false} CopiedInTable(s: State, pos: nat, left: int)
    requires ReadyToProg(s, pos, left)
    ensures Fillable(s) && InTable(s, pos, left)
    decreases left
  {
    hide InvAt, Shape, View, Copied, ProgNext, Fillable, InRange, NextChip;
    InvShape(s);
    InvFillable(s);
    NextIsValid(s);
    RoomIsRoomy(s, pos, left);
    if left > 0 && CanAlloc(s, NextChip(s.g, s.mru)) {
      CopiedInRange(s, pos, left);
      ProgNextOk(s, pos, left);
      CopiedInTable(ProgNext(s, pos, left), pos + s.g.slots, left - s.g.slots);
    }
  }

  /** The entries from pos on are in range. */
  ghost predicate RestInRange(s: State, pos: nat) {
    forall i :: pos <= i < |s.lpaBuf| ==> s.lpaBuf[i] < s.g.entries || s.lpaBuf[i] == PAGE_UNMAPPED
  }

  lemma RangeNext(s: State, pos: nat, left: int)
    requires CanFillNext(s, pos, left) && ProgRoom(s, pos, left) && RestInRange(s, pos)
    ensures InRange(s.g, Chunk(s.g, s.lpaBuf, pos, left))
    ensures Fillable(ProgNext(s, pos, left)) && ProgRoom(ProgNext(s, pos, left), pos + s.g.slots, left - s.g.slots)
    ensures RestInRange(ProgNext(s, pos, left), pos + s.g.slots)
  {
    var r := ProgNext(s, pos, left);
    ProgAfter(s, pos, left);
    FillNextOk(s, pos, left);
    FillableShape(s);
    hide Fillable, View, ProgNext, Written, NextChip, Shape;
    forall i | pos + s.g.slots <= i < |r.lpaBuf| ensures r.lpaBuf[i] == s.lpaBuf[i] { RestKept(s, r, pos, left, i); }
  }

  lemma {:induction false} RangeInTable(s: State, pos: nat, left: int)
    requires Fillable(s) && ProgRoom(s, pos, left) && RestInRange(s, pos)
    ensures InTable(s, pos, left)
    decreases left
  {
    hide BlksShape, DiskShape, ChipsShape, L2pShape, NamedBelow, Takes, ProgNext, View, InRange, RestInRange;
    NextIsValid(s);
    RoomIsRoomy(s, pos, left);
    if left > 0 && CanAlloc(s, NextChip(s.g, s.mru)) {
      RangeNext(s, pos, left);
      RangeInTable(ProgNext(s, pos, left), pos + s.g.slots, left - s.g.slots);
    }
  }

  lemma {:induction false} StopsInTable(s: State, pos: nat, left: int, k: nat, m: nat)
    requires Fillable(s) && ProgRoom(s, pos, left) && Chunks(m, s.g.slots, k) && ReadyToProg(s, pos, m) && left > m
    requires Shape(s) && !Takers(s, k + 1) && k < NumChips(s.g)
    ensures InTable(s, pos, left)
    decreases k
  {
    hide InvAt, Shape, Fillable, ProgNext, View, FilledNext, NextChip, NumChips, Copied, InRange;
    FillableShape(s);
    NextIsValid(s);
    RoomIsRoomy(s, pos, left);
    if CanAlloc(s, NextChip(s.g, s.mru)) {
      StopsLater(s, pos, left, k, m);
      CopiedInRange(s, pos, m);
      WholeChunk(s, pos, left, m);
      StopsInTable(ProgNext(s, pos, left), pos + s.g.slots, left - s.g.slots, k - 1, m - s.g.slots);
    }
  }

  lemma WholeChunk(s: State, pos: nat, left: int, left': int)
    requires pos + s.g.slots <= |s.lpaBuf| && left >= s.g.slots && left' >= s.g.slots
    ensures Chunk(s.g, s.lpaBuf, pos, left) == Chunk(s.g, s.lpaBuf, pos, left')
  {
  }

  /** Choosing victims changes nothing but the chip records and the count. */
  lemma ChosenOnly(s: State)
    requires Ready(s)
    ensures BgcChosen(s).0 == s.(chips := BgcChosen(s).0.chips, nrCopy := 0)
  {
    hide InvAt, View, BufSize, BgcSetVictims, AllGood;
    BufIrrelevant(s, s.lpaBuf, s.dataBuf, 0);
    BgcSetVictimsOk(s.(nrCopy := 0), 0, 0);
  }

  /** The guard holds, or at least the buffers hold nothing outside the mapping table. */
  ghost predicate BgcAllowed(s: State) {
    Ready(s) && (BgcSafe(s) || InRange(s.g, s.lpaBuf))
  }

  /** Under the guard, or with no junk in the buffers, background GC stays within the mapping table. */
  lemma BgcInTable(s: State)
    requires BgcAllowed(s) && BgcChosen(s).1 && Shape(s) && s.chips[s.mru].act.Some?
    ensures InTable(BgcCopied(s), 0, BgcCopied(s).nrCopy)
  {
    hide InvAt, BlksShape, DiskShape, ChipsShape, L2pShape, View, BufSize, BgcChosen, BgcCopied, AllGood, CursorsOk,
         Good, Fillable, NoneStale, StopsBy, ProgRoom, BgcRest, InTable, InRange, StillShows;
    ReadyShape(s);
    BgcRested(s);
    ChosenOnly(s);
    RestInTable(BgcChosen(s).0, BgcCopied(s), InRange(s.g, s.lpaBuf));
  }

  lemma RestInTable(v: State, r: State, range: bool)
    requires Inv(v) && Shape(v) && CursorsOk(v) && Inv(r) && Fillable(r) && ProgRoom(r, 0, r.nrCopy) && BgcRest(v, r)
    requires NoneStale(v) || StopsBy(v, Good(v)) || range
    requires range ==> InRange(v.g, v.lpaBuf)
    ensures InTable(r, 0, r.nrCopy)
  {
    ShapeParts(v);
    hide InvAt, Shape, View, CursorsOk, Good, Fillable, Takers, Copied, WholePages, NumChips, NoneStale, InChunk,
         ChunkNo, Chunks, InTable;
    if NoneStale(v) {
      CopiedInTable(r, 0, r.nrCopy);
    } else if StopsBy(v, Good(v)) {
      var m := ChunkBounds(Good(v), v.g.slots, NumChips(v.g));
      CopiedLess(r, Good(v), m);
      TakersSame(v, r, ChunkNo(Good(v), v.g.slots) + 1);
      StopsInTable(r, 0, r.nrCopy, ChunkNo(Good(v), v.g.slots), m);
    } else {
      forall i | 0 <= i < |r.lpaBuf| ensures r.lpaBuf[i] < r.g.entries || r.lpaBuf[i] == PAGE_UNMAPPED {
        if i < |Read(v)| { LpaReal(v, r.lpaBuf[i]); }
      }
      RangeInTable(r, 0, r.nrCopy);
    }
  }
}
