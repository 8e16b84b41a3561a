/**
 * Foreground garbage collection (trigger_gc_page_mapping): programming the copied pages, refilling the
 * GC slots, and the two theorems - it never changes what the flash shows, and when it reports success
 * it has really reclaimed every victim.
 */
module Gc {
  import opened Common
  import opened Geometry
  import opened Blocks
  import opened FtlState
  import opened Mapping
  import opened Filling
  import opened Program
  import opened Erase
  import opened Victims
  import opened Copying

  // ---- prog_valid_pgs_to_gc_blks -------------------------------------------------------------------------------

  /** The LPA chunk at pos, its tail padded with the unmapped mark when fewer than a page's worth are left. */
  function Chunk(g: Geo, buf: seq<nat>, pos: nat, left: int): (r: seq<nat>)
    requires pos + g.slots <= |buf|
    ensures |r| == g.slots
  {
    seq(g.slots, i requires 0 <= i < g.slots => if i < left then buf[pos + i] else PAGE_UNMAPPED)
  }

  /** The padding is written into lpas_to_copy itself. */
  function Padded(g: Geo, buf: seq<nat>, pos: nat, left: int): (r: seq<nat>)
    requires pos + g.slots <= |buf|
    ensures |r| == |buf| && r[pos + g.slots..] == buf[pos + g.slots..]
  {
    buf[..pos] + Chunk(g, buf, pos, left) + buf[pos + g.slots..]
  }

  /** The buffers are long enough for whole pages up to the last of the `left` entries. */
  predicate Roomy(s: State, pos: nat, left: int)
  {
    left > 0 ==> pos + s.g.slots <= |s.lpaBuf| && pos + s.g.slots <= |s.dataBuf|
  }

  /** n entries are a whole number of pages. */
  predicate WholePages(n: nat, slots: nat)
    decreases n
  {
    n == 0 || (0 < slots <= n && WholePages(n - slots, slots))
  }

  lemma {:induction false} WholeProduct(k: nat, slots: nat)
    requires slots > 0
    ensures WholePages(k * slots, slots)
  {
    if k > 0 {
      WholeProduct(k - 1, slots);
      Distribute(k - 1, slots);
    }
  }

  /** `left` entries from pos on are in the buffers, which are whole pages long from there. */
  predicate ProgRoom(s: State, pos: nat, left: int) {
    && pos <= |s.lpaBuf| <= |s.dataBuf| && WholePages(|s.lpaBuf| - pos, s.g.slots)
    && (left > 0 ==> pos + left <= |s.lpaBuf|)
  }

  /** Entries pos.. of the buffers are ready to be programmed. */
  ghost predicate ReadyToProg(s: State, pos: nat, left: int) {
    Inv(s) && ProgRoom(s, pos, left) && (left > 0 ==> Copied(s, pos, left))
  }

  lemma RoomIsRoomy(s: State, pos: nat, left: int)
    requires ProgRoom(s, pos, left)
    ensures Roomy(s, pos, left)
  {
  }

  /** One iteration: the next chip in turn, the padded chunk and its data, whatever LPAs they name. */
  ghost predicate CanFillNext(s: State, pos: nat, left: int) {
    Fillable(s) && left > 0 && Roomy(s, pos, left) && CanAlloc(s, NextChip(s.g, s.mru))
  }

  ghost predicate CanProgNext(s: State, pos: nat, left: int) {
    CanFillNext(s, pos, left) && ReadyToProg(s, pos, left)
  }

  lemma NextIsValid(s: State)
    requires Shape(s)
    ensures ValidChip(s.g, NextChip(s.g, s.mru)) && NextChip(s.g, s.mru) in s.chips
  {
  }

  /** Copied LPAs are real ones. */
  lemma CopiedReal(s: State, pos: nat, n: nat)
    requires Inv(s) && Copied(s, pos, n)
    ensures forall i :: pos <= i < pos + n ==> s.lpaBuf[i] < s.g.entries && s.lpaBuf[i] != PAGE_UNMAPPED
  {
    hide BlksOk, ChipsOk;
    forall i | pos <= i < pos + n ensures s.lpaBuf[i] < s.g.entries { assert s.lpaBuf[i] in s.l2p; }
  }

  lemma ChunkLpas(g: Geo, buf: seq<nat>, pos: nat, left: int)
    requires Sane(g) && left > 0 && pos + left <= |buf| && pos + g.slots <= |buf|
    requires forall i :: pos <= i < pos + left ==> buf[i] < g.entries && buf[i] != PAGE_UNMAPPED
    requires forall i, j :: pos <= i < j < pos + left ==> buf[i] != buf[j]
    ensures LpasOk(g, Chunk(g, buf, pos, left))
  {
    var l := Chunk(g, buf, pos, left);
    forall i, j | 0 <= i < j < |l| && l[j] != PAGE_UNMAPPED ensures l[i] != l[j] {
      assert buf[pos + i] != buf[pos + j];
    }
  }

  lemma ChunkData(g: Geo, v: map<nat, Data>, buf: seq<nat>, data: seq<Data>, pos: nat, left: int)
    requires left > 0 && pos + left <= |buf| && pos + g.slots <= |buf| && pos + left <= |data|
    requires pos + g.slots <= |data|
    requires forall i :: pos <= i < pos + left ==> buf[i] in v && data[i] == v[buf[i]]
    ensures var l := Chunk(g, buf, pos, left);
            forall i :: 0 <= i < |l| && l[i] != PAGE_UNMAPPED ==> l[i] in v && v[l[i]] == data[pos..pos + g.slots][i]
  {
  }

  function Pad(s: State, pos: nat, left: int): State
    requires pos + s.g.slots <= |s.lpaBuf|
  {
    s.(lpaBuf := Padded(s.g, s.lpaBuf, pos, left))
  }

  lemma PadFillable(s: State, pos: nat, left: int)
    requires CanFillNext(s, pos, left)
    ensures CanFill(Pad(s, pos, left), NextChip(s.g, s.mru), Chunk(s.g, s.lpaBuf, pos, left),
                    s.dataBuf[pos..pos + s.g.slots])
    ensures Shape(s) && Shape(Pad(s, pos, left)) && View(Pad(s, pos, left)) == View(s)
  {
    NextIsValid(s);
    hide BlksShape, DiskShape, ChipsShape, L2pShape, NamedBelow, Takes, ViewOf, Padded;
  }

  lemma PadOk(s: State, pos: nat, left: int)
    requires CanProgNext(s, pos, left)
    ensures var s1 := Pad(s, pos, left);
            && Inv(s1) && View(s1) == View(s)
            && CanProgram(s1, NextChip(s.g, s.mru), Chunk(s.g, s.lpaBuf, pos, left), s.dataBuf[pos..pos + s.g.slots])
  {
    PadFillable(s, pos, left);
    hide BlksOk, Biject, ChipsOk, View, LpasOk, Chunk, Padded, CanFill;
    BufIrrelevant(s, Pad(s, pos, left).lpaBuf, s.dataBuf, s.nrCopy);
    CopiedReal(s, pos, left);
    ChunkLpas(s.g, s.lpaBuf, pos, left);
  }

  ghost function ProgNext(s: State, pos: nat, left: int): State
    requires CanFillNext(s, pos, left)
  {
    PadFillable(s, pos, left);
    ProgramPage(Pad(s, pos, left), NextChip(s.g, s.mru), Chunk(s.g, s.lpaBuf, pos, left),
                s.dataBuf[pos..pos + s.g.slots])
  }

  /** What one iteration does whatever the chunk holds. */
  ghost predicate FilledNext(s: State, r: State, pos: nat, left: int)
    requires Shape(s) && Roomy(s, pos, left) && left > 0
  {
    && Fillable(r) && r.g == s.g && r.mru == NextChip(s.g, s.mru) && r.dataBuf == s.dataBuf && r.nrCopy == s.nrCopy
    && |r.lpaBuf| == |s.lpaBuf| && r.lpaBuf[pos + s.g.slots..] == s.lpaBuf[pos + s.g.slots..]
    && View(r) == Written(View(s), Chunk(s.g, s.lpaBuf, pos, left), s.dataBuf[pos..pos + s.g.slots], 0)
    && (forall x :: ValidChip(s.g, x) && x != r.mru ==>
        r.chips[x].act == s.chips[x].act && r.chips[x].free == s.chips[x].free)
  }

  lemma FilledPadded(s: State, r: State, pos: nat, left: int)
    requires Shape(s) && Roomy(s, pos, left) && left > 0 && Shape(Pad(s, pos, left))
    requires View(Pad(s, pos, left)) == View(s)
    requires Filled(Pad(s, pos, left), r, NextChip(s.g, s.mru), Chunk(s.g, s.lpaBuf, pos, left),
                    s.dataBuf[pos..pos + s.g.slots])
    ensures FilledNext(s, r, pos, left)
  {
    hide Shape, Fillable, View, Written, Chunk, NextChip, Padded;
  }

  lemma FillNextOk(s: State, pos: nat, left: int)
    requires CanFillNext(s, pos, left)
    ensures FilledNext(s, ProgNext(s, pos, left), pos, left)
    ensures SameVictims(s, ProgNext(s, pos, left))
  {
    hide Fillable, View, Written, Chunk, ProgramPage, NextChip, Padded, CanAlloc, FilledNext, Filled;
    PadFillable(s, pos, left);
    FillOk(Pad(s, pos, left), NextChip(s.g, s.mru), Chunk(s.g, s.lpaBuf, pos, left), s.dataBuf[pos..pos + s.g.slots]);
    FilledPadded(s, ProgNext(s, pos, left), pos, left);
  }

  /** What programming copied pages keeps on every path, the error path included. */
  ghost predicate StillShows(s: State, s': State) {
    Inv(s) && Inv(s') && s'.g == s.g && View(s') == View(s) && |s'.lpaBuf| == |s.lpaBuf| && |s'.dataBuf| == |s.dataBuf|
  }

  /** Programming copied pages shows nothing new, and the rest of the buffers stays ready. */
  lemma ProgNextOk(s: State, pos: nat, left: int)
    requires CanProgNext(s, pos, left)
    ensures var r := ProgNext(s, pos, left);
            StillShows(s, r) && r.dataBuf == s.dataBuf && ReadyToProg(r, pos + s.g.slots, left - s.g.slots)
  {
    hide BlksOk, Biject, ChipsOk, View, LpasOk, Chunk, Padded, ProgramPage, Sealed, WentTo, SameVictims;
    var s1, c, l, d := Pad(s, pos, left), NextChip(s.g, s.mru), Chunk(s.g, s.lpaBuf, pos, left),
        s.dataBuf[pos..pos + s.g.slots];
    PadOk(s, pos, left);
    ProgramPageOk(s1, c, l, d);
    ChunkData(s.g, View(s), s.lpaBuf, s.dataBuf, pos, left);
    WrittenBack(View(s), l, d, 0);
    StillCopied(s, ProgNext(s, pos, left), pos, left);
  }

  lemma StillCopied(s: State, r: State, pos: nat, left: int)
    requires ReadyToProg(s, pos, left) && left > 0 && Inv(r) && r.g == s.g && Roomy(s, pos, left)
    requires View(r) == View(s) && r.dataBuf == s.dataBuf && |r.lpaBuf| == |s.lpaBuf|
    requires r.lpaBuf[pos + s.g.slots..] == s.lpaBuf[pos + s.g.slots..]
    ensures ReadyToProg(r, pos + s.g.slots, left - s.g.slots)
  {
    hide BlksOk, Biject, ChipsOk, View;
    var p := pos + s.g.slots;
    forall i | p <= i < |s.lpaBuf| ensures r.lpaBuf[i] == s.lpaBuf[i] {
      assert r.lpaBuf[i] == r.lpaBuf[p..][i - p] && s.lpaBuf[i] == s.lpaBuf[p..][i - p];
    }
  }

  /** Every live slot of page pg of block b is among the buffer entries still to be programmed. */
  ghost predicate Pending(s: State, b: BlkId, pg: nat, pos: nat, left: int)
    requires Shape(s) && ValidBlk(s.g, b) && (left > 0 ==> pos + left <= |s.lpaBuf|)
  {
    forall a :: ValidAddr(s.g, a) && a.b == b && a.pg == pg && StatusAt(s.g, s.blks, a) == Valid ==>
      left > 0 && LpaAt(s.g, s.blks, a) in s.lpaBuf[pos..pos + left]
  }

  /** What one programmed chunk means for the fully programmed block b. */
  ghost predicate ChunkLeft(s: State, r: State, pos: nat, left: int, b: BlkId)
    requires Shape(s) && Shape(r) && ValidBlk(s.g, b)
  {
    && r.g == s.g && Sealed(s, r) && s.blks[b].nrFreePgs == 0
    && pos + s.g.slots <= |s.lpaBuf| == |r.lpaBuf|
    && r.lpaBuf[pos + s.g.slots..] == s.lpaBuf[pos + s.g.slots..]
    && (forall j :: pos <= j < pos + s.g.slots && j < pos + left ==>
          s.lpaBuf[j] in r.l2p && r.l2p[s.lpaBuf[j]].b != b)
  }

  lemma LeavesBlock(s: State, s1: State, r: State, l: seq<nat>, pos: nat, left: int, b: BlkId)
    requires Shape(s) && Shape(r) && ValidBlk(s.g, b) && s.blks[b].nrFreePgs == 0 && pos + s.g.slots <= |s.lpaBuf|
    requires s1 == s.(lpaBuf := r.lpaBuf) && r.g == s.g && Sealed(s1, r) && WentTo(s1, r, l)
    requires |r.lpaBuf| == |s.lpaBuf| && r.lpaBuf[pos + s.g.slots..] == s.lpaBuf[pos + s.g.slots..]
    requires |l| == s.g.slots
    requires forall j :: pos <= j < pos + s.g.slots && j < pos + left ==> l[j - pos] == s.lpaBuf[j] != PAGE_UNMAPPED
    ensures ChunkLeft(s, r, pos, left, b)
  {
    assert Sealed(s, r);
    hide Sealed;
    forall j | pos <= j < pos + s.g.slots && j < pos + left
      ensures s.lpaBuf[j] in r.l2p && r.l2p[s.lpaBuf[j]].b != b
    {
      assert l[j - pos] == s.lpaBuf[j];
    }
  }

  lemma ProgNextLeaves(s: State, pos: nat, left: int, b: BlkId)
    requires CanProgNext(s, pos, left) && ValidBlk(s.g, b) && s.blks[b].nrFreePgs == 0
    ensures Inv(ProgNext(s, pos, left)) && ChunkLeft(s, ProgNext(s, pos, left), pos, left, b)
  {
    hide BlksOk, Biject, ChipsOk, View, LpasOk, ProgramPage, SameVictims, Sealed, WentTo, Padded, Copied, ChunkLeft,
         CanFill;
    var l := Chunk(s.g, s.lpaBuf, pos, left);
    PadOk(s, pos, left);
    ProgramPageOk(Pad(s, pos, left), NextChip(s.g, s.mru), l, s.dataBuf[pos..pos + s.g.slots]);
    CopiedReal(s, pos, left);
    LeavesBlock(s, Pad(s, pos, left), ProgNext(s, pos, left), l, pos, left, b);
  }

  lemma StillPending(s: State, r: State, pos: nat, left: int, b: BlkId, pg: nat, a: Addr)
    requires Shape(s) && Shape(r) && ValidBlk(s.g, b) && left > 0 && pos + left <= |s.lpaBuf|
    requires ChunkLeft(s, r, pos, left, b) && Pending(s, b, pg, pos, left) && Biject(r.g, r.l2p, r.blks)
    requires ValidAddr(s.g, a) && a.b == b && a.pg == pg && StatusAt(s.g, r.blks, a) == Valid
    ensures left > s.g.slots && LpaAt(s.g, r.blks, a) in r.lpaBuf[pos + s.g.slots..pos + left]
  {
    assert a == Addr(b, a.pg, a.lp);
    assert LpaAt(s.g, r.blks, a) == LpaAt(s.g, s.blks, a) && r.l2p[LpaAt(s.g, r.blks, a)] == a;
    var p := pos + s.g.slots;
    var j :| pos <= j < pos + left && s.lpaBuf[j] == LpaAt(s.g, s.blks, a);
    assert j >= p;
    assert r.lpaBuf[p..][j - p] == r.lpaBuf[j] && s.lpaBuf[p..][j - p] == s.lpaBuf[j];
    assert r.lpaBuf[p..pos + left][j - p] == s.lpaBuf[j];
  }

  lemma PendingAfter(s: State, r: State, pos: nat, left: int, b: BlkId, pg: nat)
    requires Shape(s) && Shape(r) && ValidBlk(s.g, b) && left > 0 && pos + left <= |s.lpaBuf|
    requires ChunkLeft(s, r, pos, left, b) && Pending(s, b, pg, pos, left) && Biject(r.g, r.l2p, r.blks)
    ensures r.blks[b].nrFreePgs == 0
    ensures Pending(r, b, pg, pos + s.g.slots, left - s.g.slots)
  {
    forall a | ValidAddr(s.g, a) && a.b == b && a.pg == pg && StatusAt(s.g, r.blks, a) == Valid
      ensures left > s.g.slots && LpaAt(s.g, r.blks, a) in r.lpaBuf[pos + s.g.slots..pos + left]
    {
      StillPending(s, r, pos, left, b, pg, a);
    }
  }

  /** Block b is fully programmed, and what is still live in its page pg waits in the buffers. */
  ghost predicate Draining(s: State, b: BlkId, pg: nat, pos: nat, left: int) {
    && ReadyToProg(s, pos, left) && ValidBlk(s.g, b) && s.blks[b].nrFreePgs == 0 && Pending(s, b, pg, pos, left)
  }

  lemma DrainingNext(s: State, pos: nat, left: int, b: BlkId, pg: nat)
    requires CanProgNext(s, pos, left) && Draining(s, b, pg, pos, left)
    ensures s.g.slots > 0
    ensures Draining(ProgNext(s, pos, left), b, pg, pos + s.g.slots, left - s.g.slots)
  {
    ProgNextOk(s, pos, left);
    ProgNextLeaves(s, pos, left, b);
    hide BlksOk, ChipsOk, ProgNext, Biject, ChunkLeft, Pending, View, Fillable;
    PendingAfter(s, ProgNext(s, pos, left), pos, left, b, pg);
  }

  /** Block b is fully programmed and page pg of it holds nothing live. */
  ghost predicate Drained(s: State, b: BlkId, pg: nat) {
    && Inv(s) && ValidBlk(s.g, b) && s.blks[b].nrFreePgs == 0
    && forall a :: ValidAddr(s.g, a) && a.b == b && a.pg == pg ==> StatusAt(s.g, s.blks, a) != Valid
  }

  lemma NothingPending(s: State, b: BlkId, pg: nat, pos: nat, left: int)
    requires Draining(s, b, pg, pos, left) && left <= 0
    ensures Drained(s, b, pg)
  {
    hide BlksOk, ChipsOk, Biject;
  }

  /**
   * prog_valid_pgs_to_gc_blks from buffer position pos on, with `left` entries to go: the state
   * afterwards, and whether it returned 0. It programs whatever LPAs the buffers hold.
   */
  ghost function Prog(s: State, pos: nat, left: int): (State, bool)
    requires Fillable(s) && ProgRoom(s, pos, left)
    decreases left
  {
    hide BlksShape, DiskShape, ChipsShape, L2pShape, NamedBelow, Takes, ProgNext, View;
    NextIsValid(s);
    RoomIsRoomy(s, pos, left);
    if left <= 0 then (s, true)
    else if !CanAlloc(s, NextChip(s.g, s.mru)) then (s, false)
    else FillNextOk(s, pos, left); Prog(ProgNext(s, pos, left), pos + s.g.slots, left - s.g.slots)
  }

  /** What programming keeps whatever the buffers hold. */
  lemma {:induction false} ProgFills(s: State, pos: nat, left: int)
    requires Fillable(s) && ProgRoom(s, pos, left)
    ensures var r := Prog(s, pos, left).0;
            && Fillable(r) && r.g == s.g && r.dataBuf == s.dataBuf && |r.lpaBuf| == |s.lpaBuf| && SameVictims(s, r)
    decreases left
  {
    hide BlksShape, DiskShape, L2pShape, Listed, NamedBelow, Takes, ProgNext, View, Written, Chunk, NextChip;
    NextIsValid(s);
    RoomIsRoomy(s, pos, left);
    if left > 0 && CanAlloc(s, NextChip(s.g, s.mru)) {
      var s1 := ProgNext(s, pos, left);
      FillNextOk(s, pos, left);
      ProgFills(s1, pos + s.g.slots, left - s.g.slots);
      hide SameVictims;
      SameVictimsTrans(s, s1, Prog(s, pos, left).0);
    }
  }

  /** Programming copied pages keeps what the flash shows, whatever it returns. */
  lemma {:induction false} ProgGood(s: State, pos: nat, left: int)
    requires ReadyToProg(s, pos, left)
    ensures Fillable(s) && StillShows(s, Prog(s, pos, left).0)
    decreases left
  {
    hide BlksOk, Biject, ChipsOk, View, Copied, ProgNext, Fillable;
    InvFillable(s);
    NextIsValid(s);
    RoomIsRoomy(s, pos, left);
    if left > 0 && CanAlloc(s, NextChip(s.g, s.mru)) {
      ProgNextOk(s, pos, left);
      ProgGood(ProgNext(s, pos, left), pos + s.g.slots, left - s.g.slots);
    }
  }

  /** If it returns 0, a page all of whose live LPAs were waiting in the buffers holds nothing live any more. */
  lemma {:induction false} ProgDrains(s: State, pos: nat, left: int, b: BlkId, pg: nat)
    requires Fillable(s) && Draining(s, b, pg, pos, left) && Prog(s, pos, left).1
    ensures Drained(Prog(s, pos, left).0, b, pg)
    decreases left
  {
    hide BlksOk, Biject, ChipsOk, View, Copied, ProgNext, Pending, Drained, Fillable;
    NextIsValid(s);
    RoomIsRoomy(s, pos, left);
    if left <= 0 {
      NothingPending(s, b, pg, pos, left);
    } else {
      DrainingNext(s, pos, left, b, pg);
      InvFillable(ProgNext(s, pos, left));
      ProgDrains(ProgNext(s, pos, left), pos + s.g.slots, left - s.g.slots, b, pg);
    }
  }

  // ---- update_gc_blks ------------------------------------------------------------------------------------------

  /** The first dirt block becomes the GC block. */
  function TakeDirt(ch: Chip): Chip
    requires ch.dirt != []
  {
    ch.(dirt := ch.dirt[1..], nrDirt := ch.nrDirt - 1, gc := Some(ch.dirt[0]))
  }

  lemma TakeDirtOk(g: Geo, c: ChipId, ch: Chip, blks: map<BlkId, Block>)
    requires Sane(g) && ValidChip(g, c) && Listed(g, ch) && BlksShape(g, blks)
    requires Partition(g, ch) && Roles(g, c, ch, blks, None) && ch.gc.None? && ch.dirt != []
    ensures Listed(g, TakeDirt(ch)) && Partition(g, TakeDirt(ch)) && Roles(g, c, TakeDirt(ch), blks, None)
  {
    hide Below;
    HeadAndTail(ch.dirt);
    assert Owners(TakeDirt(ch)) == Owners(ch);
  }

  function RefillGc(s: State, c: ChipId): State
    requires c in s.chips && s.chips[c].dirt != []
  {
    s.(chips := s.chips[c := TakeDirt(s.chips[c])])
  }

  lemma RefillGcOk(s: State, c: ChipId)
    requires Inv(s) && ValidChip(s.g, c) && s.chips[c].gc.None? && s.chips[c].dirt != []
    ensures Inv(RefillGc(s, c)) && View(RefillGc(s, c)) == View(s)
  {
    hide BlksOk, Biject, ChipsOk, ViewOf, Partition, Listed, Roles;
    OneChip(s, c);
    TakeDirtOk(s.g, c, s.chips[c], s.blks);
    SetChip(s.g, s.chips, s.blks, None, c, TakeDirt(s.chips[c]));
  }

  /** The chip can go on: it has a block to write to or a block to erase. */
  predicate Supplied(ch: Chip) { ch.gc.Some? || ch.act.Some? }

  lemma RefillShape(s: State, c: ChipId)
    requires Shape(s) && ValidChip(s.g, c) && s.chips[c].dirt != []
    ensures Shape(RefillGc(s, c)) && View(RefillGc(s, c)) == View(s)
  {
    HeadAndTail(s.chips[c].dirt);
    hide BlksShape, DiskShape, L2pShape, ViewOf;
  }

  /** update_gc_blks from (bus, chip) on, bus by bus. */
  ghost function UpdateGc(s: State, bus: nat, chip: nat): (State, bool)
    requires Shape(s) && bus <= s.g.buses && chip <= s.g.chips
    decreases s.g.buses - bus, s.g.chips - chip
  {
    hide BlksShape, DiskShape, L2pShape, Listed, View;
    var c := ChipId(bus, chip);
    if bus == s.g.buses then (s, true)
    else if chip == s.g.chips then UpdateGc(s, bus + 1, 0)
    else if s.chips[c].gc.Some? then UpdateGc(s, bus, chip + 1)
    else if s.chips[c].dirt == [] then if s.chips[c].act.None? then (s, false) else UpdateGc(s, bus, chip + 1)
    else RefillShape(s, c); UpdateGc(RefillGc(s, c), bus, chip + 1)
  }

  lemma {:induction false} UpdateGcKeeps(s: State, bus: nat, chip: nat)
    requires Inv(s) && bus <= s.g.buses && chip <= s.g.chips
    ensures StillShows(s, UpdateGc(s, bus, chip).0)
    decreases s.g.buses - bus, s.g.chips - chip
  {
    hide BlksOk, Biject, ChipsOk, View, BlksShape, DiskShape, L2pShape, Listed;
    var c := ChipId(bus, chip);
    if bus < s.g.buses {
      if chip == s.g.chips {
        UpdateGcKeeps(s, bus + 1, 0);
      } else if s.chips[c].gc.None? && s.chips[c].dirt != [] {
        RefillGcOk(s, c);
        UpdateGcKeeps(RefillGc(s, c), bus, chip + 1);
      } else if Supplied(s.chips[c]) {
        UpdateGcKeeps(s, bus, chip + 1);
      }
    }
  }

  /** Only the chips still to come are touched, and on success each of them can go on. */
  ghost predicate Refilled(s: State, r: (State, bool), bus: nat, chip: nat)
    requires Shape(s) && Shape(r.0)
  {
    && r.0 == s.(chips := r.0.chips)
    && (forall c :: ValidChip(s.g, c) && Before(c, bus, chip) ==> r.0.chips[c] == s.chips[c])
    && (r.1 ==> forall c :: ValidChip(s.g, c) && !Before(c, bus, chip) ==> Supplied(r.0.chips[c]))
  }

  lemma RefilledStep(s: State, s1: State, r: (State, bool), bus: nat, chip: nat)
    requires Shape(s) && Shape(s1) && Shape(r.0) && ValidChip(s.g, ChipId(bus, chip)) && Refilled(s1, r, bus, chip + 1)
    requires s1 == s.(chips := s1.chips) && Supplied(s1.chips[ChipId(bus, chip)])
    requires forall c :: ValidChip(s.g, c) && c != ChipId(bus, chip) ==> s1.chips[c] == s.chips[c]
    ensures Refilled(s, r, bus, chip)
  {
    hide BlksShape, DiskShape, L2pShape, Listed;
    forall c | ValidChip(s.g, c) && Before(c, bus, chip) ensures r.0.chips[c] == s.chips[c] {
      assert s1.chips[c] == s.chips[c];
    }
    assert Before(ChipId(bus, chip), bus, chip + 1);
  }

  lemma {:induction false} UpdateGcOk(s: State, bus: nat, chip: nat)
    requires Shape(s) && bus <= s.g.buses && chip <= s.g.chips
    ensures Shape(UpdateGc(s, bus, chip).0) && View(UpdateGc(s, bus, chip).0) == View(s)
    ensures Refilled(s, UpdateGc(s, bus, chip), bus, chip)
    decreases s.g.buses - bus, s.g.chips - chip
  {
    hide View, BlksShape, DiskShape, Listed, L2pShape;
    var c := ChipId(bus, chip);
    if bus == s.g.buses {
    } else if chip == s.g.chips {
      UpdateGcOk(s, bus + 1, 0);
    } else if s.chips[c].gc.None? && s.chips[c].dirt != [] {
      RefillShape(s, c);
      UpdateGcOk(RefillGc(s, c), bus, chip + 1);
      RefilledStep(s, RefillGc(s, c), UpdateGc(s, bus, chip), bus, chip);
    } else if Supplied(s.chips[c]) {
      UpdateGcOk(s, bus, chip + 1);
      RefilledStep(s, s, UpdateGc(s, bus, chip), bus, chip);
    }
  }

  /** An empty GC slot takes the first dirt block, if there is one; nothing else changes. */
  predicate GcRefilled(ch: Chip, ch': Chip) {
    if ch.gc.None? && ch.dirt != []
    then ch' == ch.(gc := Some(ch.dirt[0]), dirt := ch.dirt[1..], nrDirt := ch.nrDirt - 1)
    else ch' == ch
  }

  /** What a pass from (bus, chip) on does. */
  ghost predicate RefilledFrom(s: State, r: (State, bool), bus: nat, chip: nat)
    requires Shape(s) && Shape(r.0)
  {
    && r.0 == s.(chips := r.0.chips)
    && (r.1 <==> forall c :: ValidChip(s.g, c) && !Before(c, bus, chip) ==>
          s.chips[c].gc.Some? || s.chips[c].act.Some? || s.chips[c].dirt != [])
    && (forall c :: ValidChip(s.g, c) && Before(c, bus, chip) ==> r.0.chips[c] == s.chips[c])
    && (r.1 ==> forall c :: ValidChip(s.g, c) && !Before(c, bus, chip) ==> GcRefilled(s.chips[c], r.0.chips[c]))
  }

  lemma RefilledOn(s: State, s1: State, r: (State, bool), d: ChipId)
    requires Shape(s) && Shape(s1) && Shape(r.0) && ValidChip(s.g, d) && RefilledFrom(s1, r, d.bus, d.chip + 1)
    requires s1.g == s.g && s1 == s.(chips := s.chips[d := s1.chips[d]]) && GcRefilled(s.chips[d], s1.chips[d])
    requires s.chips[d].gc.Some? || s.chips[d].act.Some? || s.chips[d].dirt != []
    ensures RefilledFrom(s, r, d.bus, d.chip)
  {
    hide BlksShape, DiskShape, L2pShape, Listed;
    assert Before(d, d.bus, d.chip + 1) && r.0.chips[d] == s1.chips[d];
    forall c | ValidChip(s.g, c) && c != d
      ensures c in s.chips && c in s1.chips && s1.chips[c] == s.chips[c]
      ensures Before(c, d.bus, d.chip + 1) <==> Before(c, d.bus, d.chip)
    {
    }
  }

  lemma {:induction false} UpdateGcFrom(s: State, bus: nat, chip: nat)
    requires Shape(s) && bus <= s.g.buses && chip <= s.g.chips
    ensures Shape(UpdateGc(s, bus, chip).0) && RefilledFrom(s, UpdateGc(s, bus, chip), bus, chip)
    decreases s.g.buses - bus, s.g.chips - chip
  {
    hide View, BlksShape, DiskShape, Listed, L2pShape, RefilledFrom;
    var c := ChipId(bus, chip);
    RefilledStop(s, c);
    if bus == s.g.buses {
    } else if chip == s.g.chips {
      UpdateGcFrom(s, bus + 1, 0);
      RefilledWrap(s, UpdateGc(s, bus, chip), bus);
    } else if s.chips[c].gc.None? && s.chips[c].dirt != [] {
      RefillShape(s, c);
      UpdateGcFrom(RefillGc(s, c), bus, chip + 1);
      RefilledOn(s, RefillGc(s, c), UpdateGc(s, bus, chip), c);
    } else if s.chips[c].gc.Some? || s.chips[c].act.Some? {
      UpdateGcFrom(s, bus, chip + 1);
      RefilledOn(s, s, UpdateGc(s, bus, chip), c);
    }
  }

  lemma RefilledStop(s: State, c: ChipId)
    requires Shape(s)
    ensures c.bus == s.g.buses ==> RefilledFrom(s, (s, true), c.bus, c.chip)
    ensures ValidChip(s.g, c) && s.chips[c].gc.None? && s.chips[c].act.None? && s.chips[c].dirt == [] ==>
              RefilledFrom(s, (s, false), c.bus, c.chip)
  {
    hide BlksShape, DiskShape, L2pShape, Listed;
    assert !Before(c, c.bus, c.chip);
  }

  lemma RefilledWrap(s: State, r: (State, bool), bus: nat)
    requires Shape(s) && Shape(r.0) && RefilledFrom(s, r, bus + 1, 0)
    ensures RefilledFrom(s, r, bus, s.g.chips)
  {
    assert forall x :: ValidChip(s.g, x) ==> (Before(x, bus, s.g.chips) <==> Before(x, bus + 1, 0));
    hide BlksShape, DiskShape, L2pShape, Listed;
  }

  /**
   * update_gc_blks returns 0 if and only if every chip has a GC, an active or a dirt block. Then every empty GC
   * slot has been given the first block of its chip's dirt list, if there is one, and nothing else has changed.
   */
  lemma UpdateGcExact(s: State)
    requires Shape(s)
    ensures var r := UpdateGc(s, 0, 0);
            && Shape(r.0) && r.0 == s.(chips := r.0.chips)
            && (r.1 <==> forall c :: ValidChip(s.g, c) ==>
                  s.chips[c].gc.Some? || s.chips[c].act.Some? || s.chips[c].dirt != [])
            && (r.1 ==> forall c :: ValidChip(s.g, c) ==> GcRefilled(s.chips[c], r.0.chips[c]))
  {
    hide BlksShape, DiskShape, L2pShape, Listed, UpdateGc, GcRefilled;
    UpdateGcFrom(s, 0, 0);
    assert forall c: ChipId :: !Before(c, 0, 0);
  }

  // ---- trigger_gc_page_mapping ---------------------------------------------------------------------------------

  /** The invariant, with the copy buffers sized as create_gc_mngr sizes them. */
  ghost predicate Ready(s: State) { Inv(s) && BufShape(s) }

  /** get_valid_pgs_in_vic_blks: one pass over the victims. */
  ghost function ReadVictims(s: State): (r: State)
    requires Ready(s)
    ensures Ready(r) && StillShows(s, r)
    ensures |Collect(s, 0, 0, 0)| == |LiveFrom(s, 0, 0)| && Copied(r, 0, |Collect(s, 0, 0, 0)|)
  {
    ReadVictimsOk(s);
    CopyOut(s, Collect(s, 0, 0, 0))
  }

  lemma ReadVictimsOk(s: State)
    requires Ready(s)
    ensures var l := Collect(s, 0, 0, 0);
            && |l| == |LiveFrom(s, 0, 0)| && |l| <= |s.lpaBuf| && |l| <= |s.dataBuf|
            && (forall i :: 0 <= i < |l| ==> LiveVictim(s, l[i]))
            && Inv(CopyOut(s, l)) && View(CopyOut(s, l)) == View(s) && Copied(CopyOut(s, l), 0, |l|)
  {
    hide BlksOk, Biject, ChipsOk, View, Copied, Collect, LiveFrom, BufSize;
    var l := Collect(s, 0, 0, 0);
    CollectCount(s);
    CollectFits(s);
    forall i | 0 <= i < |l| ensures LiveVictim(s, l[i]) { assert l[i] in l; }
    CopyOutOk(s, l);
  }

  lemma BufWhole(s: State)
    requires BufShape(s) && Sane(s.g)
    ensures WholePages(|s.lpaBuf|, s.g.slots)
  {
    var k := s.g.buses * s.g.chips * s.g.pages;
    assert (s.g.buses * s.g.chips) * (s.g.pages * s.g.slots) == k * s.g.slots;
    WholeProduct(k, s.g.slots);
  }

  /** The state once victims are chosen (steps 1 and 2), and whether both steps succeeded. */
  ghost function Chosen(s: State): (r: (State, bool))
    requires Ready(s)
    ensures Ready(r.0) && StillShows(s, r.0)
    ensures r.1 ==> r.0.nrCopy == |LiveFrom(r.0, 0, 0)| && forall c :: ValidChip(s.g, c) ==> VictimOk(r.0, c)
  {
    hide BlksOk, Biject, ChipsOk, View, LiveFrom, VictimOk, BufSize;
    var s0 := s.(nrCopy := 0);
    BufIrrelevant(s, s.lpaBuf, s.dataBuf, 0);
    var p := Prepare(s0, 0, 0);
    if !p.1 then p
    else SetVictimsOk(p.0, 0, 0); SetVictimsCount(p.0, 0, 0); SetVictims(p.0, 0, 0)
  }

  /** The state once the victims' live pages have been written elsewhere (steps 3 and 4). */
  ghost function Moved(s: State): (r: (State, bool))
    requires Ready(s) && Chosen(s).1
    ensures StillShows(s, r.0)
  {
    hide BlksOk, Biject, ChipsOk, View, LiveFrom, Collect, BufSize, Fillable, Prog;
    var s3 := ReadVictims(Chosen(s).0);
    BufWhole(s3);
    ProgGood(s3, 0, s3.nrCopy);
    Prog(s3, 0, s3.nrCopy)
  }

  /** trigger_gc_page_mapping: the state afterwards, and whether it returned 0. */
  ghost function Fgc(s: State): (r: (State, bool))
    requires Ready(s)
    ensures StillShows(s, r.0) && Ready(r.0)
  {
    hide BlksOk, Biject, ChipsOk, View, LiveFrom, BufSize, Chosen, Moved, UpdateGc;
    if !Chosen(s).1 then Chosen(s)
    else if !Moved(s).1 then Moved(s)
    else UpdateGcKeeps(Moved(s).0, 0, 0); UpdateGc(Moved(s).0, 0, 0)
  }

  // ---- a successful foreground GC really reclaims --------------------------------------------------------------

  /** The block holds nothing live and waits to be erased, off the used list. */
  ghost predicate Reclaimed(r: State, b: BlkId) {
    && b in r.blks && b.c in r.chips && NothingLive(r.blks[b]) && b.no !in r.chips[b.c].used
    && (r.chips[b.c].gc == Some(b.no) || b.no in r.chips[b.c].dirt)
  }

  /** A block all of whose pages are drained has left the used list for the GC slot or the dirt list of its chip. */
  lemma DrainedOwner(s: State, b: BlkId)
    requires forall pg :: 0 <= pg < s.g.pages ==> Drained(s, b, pg)
    requires s.g.pages > 0
    ensures ValidBlk(s.g, b) && b.c in s.chips && b in s.blks
    ensures NothingLive(s.blks[b]) && b.no !in s.chips[b.c].used
    ensures s.chips[b.c].gc == Some(b.no) || b.no in s.chips[b.c].dirt
  {
    assert Drained(s, b, 0);
    hide Biject, Partition, PagesAt;
    OneChip(s, b.c);
    assert BlockAt(s.g, s.blks[b], 0);
    var q := BlockSlots(s.g, s.blks[b], Valid);
    forall x | x in Grid(s.g.pages, s.g.slots) ensures x !in q {
      assert Drained(s, b, x.0);
      assert StatusAt(s.g, s.blks, Addr(b, x.0, x.1)) != Valid;
    }
    assert q == {};
    NoValidAllDead(s.g, s.blks[b]);
    OneOwner(s.g, s.chips[b.c], b.no);
  }

  /** All live slots of a chosen victim are in the buffers when programming starts. */
  lemma VictimDraining(s: State, b: BlkId, pg: nat)
    requires Ready(s) && s.nrCopy == |LiveFrom(s, 0, 0)| && ValidBlk(s.g, b)
    requires VictimOk(s, b.c) && s.chips[b.c].vic == Some(b.no)
    ensures Draining(ReadVictims(s), b, pg, 0, ReadVictims(s).nrCopy)
  {
    hide BlksOk, Biject, ChipsOk, View, BufSize, LiveFrom, Collect;
    var l := Collect(s, 0, 0, 0);
    ReadVictimsOk(s);
    CollectCount(s);
    CopyOutOk(s, l);
    BufWhole(ReadVictims(s));
    forall a | ValidAddr(s.g, a) && a.b == b && StatusAt(s.g, s.blks, a) == Valid
      ensures LpaAt(s.g, s.blks, a) in CopyOut(s, l).lpaBuf[0..|l|]
    {
      assert LiveVictim(s, a) && a in l;
      var i :| 0 <= i < |l| && l[i] == a;
      assert CopyOut(s, l).lpaBuf[0..|l|][i] == CopyOut(s, l).lpaBuf[i];
    }
  }

  lemma MovedDrains(s: State, b: BlkId, pg: nat)
    requires Ready(s) && Chosen(s).1 && Moved(s).1 && ValidBlk(s.g, b)
    requires Chosen(s).0.chips[b.c].vic == Some(b.no)
    ensures Drained(Moved(s).0, b, pg)
  {
    hide BlksOk, Biject, ChipsOk, View, BufSize, LiveFrom, Collect, Chosen, Prog, Draining, Drained, Copied, Fillable;
    var s3 := ReadVictims(Chosen(s).0);
    VictimDraining(Chosen(s).0, b, pg);
    BufWhole(s3);
    ProgGood(s3, 0, s3.nrCopy);
    ProgDrains(s3, 0, s3.nrCopy, b, pg);
  }

  lemma RefilledDrained(m: State, r: State, b: BlkId, pg: nat)
    requires Drained(m, b, pg) && Inv(r) && r == m.(chips := r.chips)
    ensures Drained(r, b, pg)
  {
    hide BlksOk, Biject, ChipsOk;
  }

  /** Foreground GC never changes what the flash shows, whether it returns 0 or -1. */
  lemma FgcPreserves(s: State)
    requires Ready(s)
    ensures var s' := Fgc(s).0; Ready(s') && s'.l2p.Keys == s.l2p.Keys && View(s') == View(s)
  {
    hide BlksOk, Biject, ChipsOk, Fgc;
    assert View(Fgc(s).0).Keys == Fgc(s).0.l2p.Keys;
    assert View(s).Keys == s.l2p.Keys;
  }

  /**
   * Foreground GC that returns 0 has reclaimed every victim it chose: nothing in it is live, it is off
   * the used list and waits in the GC slot or on the dirt list; and every chip has a GC or an active block.
   */
  lemma FgcReclaims(s: State)
    requires Ready(s) && Fgc(s).1
    ensures Chosen(s).1
    ensures forall b :: ValidBlk(s.g, b) && Chosen(s).0.chips[b.c].vic == Some(b.no) ==>
              var r := Fgc(s).0;
              && NothingLive(r.blks[b]) && b.no !in r.chips[b.c].used
              && (r.chips[b.c].gc == Some(b.no) || b.no in r.chips[b.c].dirt)
    ensures forall c :: ValidChip(s.g, c) ==> Supplied(Fgc(s).0.chips[c])
  {
    hide BlksOk, Biject, ChipsOk, View, BufSize, Chosen, Moved, UpdateGc;
    var m, r := Moved(s).0, Fgc(s).0;
    UpdateGcOk(m, 0, 0);
    forall b | ValidBlk(s.g, b) && Chosen(s).0.chips[b.c].vic == Some(b.no)
      ensures NothingLive(r.blks[b]) && b.no !in r.chips[b.c].used
      ensures r.chips[b.c].gc == Some(b.no) || b.no in r.chips[b.c].dirt
    {
      forall pg | 0 <= pg < s.g.pages ensures Drained(r, b, pg) {
        MovedDrains(s, b, pg);
        RefilledDrained(m, r, b, pg);
      }
      InvShape(s);
      DrainedOwner(r, b);
    }
  }
}
