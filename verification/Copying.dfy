/**
 * Reading the live pages of the victims into the copy buffers (get_valid_pgs_in_vic_blks).
 */
module Copying {
  import opened Common
  import opened Geometry
  import opened Blocks
  import opened FtlState
  import opened Victims

  // ---- the order in which slots are read -----------------------------------------------------------------------

  /** The VALID slots of one page from slot `lp` on. */
  function PageLive(g: Geo, blks: map<BlkId, Block>, b: BlkId, pg: nat, lp: nat): seq<Addr>
    requires BlksShape(g, blks) && ValidBlk(g, b) && pg < g.pages && lp <= g.slots
    decreases g.slots - lp
  {
    if lp == g.slots then []
    else
      (if StatusAt(g, blks, Addr(b, pg, lp)) == Valid then [Addr(b, pg, lp)] else [])
      + PageLive(g, blks, b, pg, lp + 1)
  }

  /** The live slots of page pg of the victim of chip c. */
  function ChipPage(s: State, pg: nat, c: ChipId): seq<Addr>
    requires Shape(s) && ValidChip(s.g, c) && pg < s.g.pages
  {
    assert Listed(s.g, s.chips[c]);
    if s.chips[c].vic.None? then [] else PageLive(s.g, s.blks, BlkId(c, s.chips[c].vic.value), pg, 0)
  }

  /** The pass of get_valid_pgs_in_vic_blks from (pg, chip, bus) on: page by page across all victims. */
  function Collect(s: State, pg: nat, chip: nat, bus: nat): seq<Addr>
    requires Shape(s) && pg <= s.g.pages && chip <= s.g.chips && bus <= s.g.buses
    decreases s.g.pages - pg, s.g.chips - chip, s.g.buses - bus
  {
    if pg == s.g.pages then []
    else if chip == s.g.chips then Collect(s, pg + 1, 0, 0)
    else if bus == s.g.buses then Collect(s, pg, chip + 1, 0)
    else ChipPage(s, pg, ChipId(bus, chip)) + Collect(s, pg, chip, bus + 1)
  }

  /** Slot a is still to be read at (pg, chip, bus). */
  predicate Ahead(a: Addr, pg: nat, chip: nat, bus: nat) {
    || a.pg > pg
    || (a.pg == pg && (a.b.c.chip > chip || (a.b.c.chip == chip && a.b.c.bus >= bus)))
  }

  lemma {:induction false} PageLiveOk(g: Geo, blks: map<BlkId, Block>, b: BlkId, pg: nat, lp: nat)
    requires BlksShape(g, blks) && ValidBlk(g, b) && pg < g.pages && lp <= g.slots
    ensures NoDup(PageLive(g, blks, b, pg, lp))
    ensures forall a :: a in PageLive(g, blks, b, pg, lp) <==>
              ValidAddr(g, a) && a.b == b && a.pg == pg && lp <= a.lp && StatusAt(g, blks, a) == Valid
    decreases g.slots - lp
  {
    if lp < g.slots {
      PageLiveOk(g, blks, b, pg, lp + 1);
      forall a | ValidAddr(g, a) && a.b == b && a.pg == pg && a.lp == lp ensures a == Addr(b, pg, lp) {}
    }
  }

  lemma ChipPageOk(s: State, pg: nat, c: ChipId)
    requires Shape(s) && ValidChip(s.g, c) && pg < s.g.pages
    ensures NoDup(ChipPage(s, pg, c))
    ensures forall a :: a in ChipPage(s, pg, c) <==> LiveVictim(s, a) && a.b.c == c && a.pg == pg
  {
    assert Listed(s.g, s.chips[c]);
    if s.chips[c].vic.Some? {
      var b := BlkId(c, s.chips[c].vic.value);
      PageLiveOk(s.g, s.blks, b, pg, 0);
      forall a | ValidAddr(s.g, a) && a.b.c == c && s.chips[c].vic == Some(a.b.no) ensures a.b == b {}
    }
  }

  lemma NoDupAppend<T>(a: seq<T>, b: seq<T>)
    requires NoDup(a) && NoDup(b) && forall x :: x in a ==> x !in b
    ensures NoDup(a + b)
  {
    forall i, j | 0 <= i < j < |a + b| ensures (a + b)[i] != (a + b)[j] {
      if i < |a| <= j { assert a[i] in a && b[j - |a|] in b; }
    }
  }

  /** From any point on, the pass reads exactly the live victim slots still ahead. */
  lemma {:induction false} CollectMember(s: State, pg: nat, chip: nat, bus: nat, a: Addr)
    requires Shape(s) && pg <= s.g.pages && chip <= s.g.chips && bus <= s.g.buses
    ensures a in Collect(s, pg, chip, bus) <==> LiveVictim(s, a) && Ahead(a, pg, chip, bus)
    decreases s.g.pages - pg, s.g.chips - chip, s.g.buses - bus
  {
    hide StatusAt, Shape;
    if pg < s.g.pages {
      if chip == s.g.chips {
        CollectMember(s, pg + 1, 0, 0, a);
      } else if bus == s.g.buses {
        CollectMember(s, pg, chip + 1, 0, a);
      } else {
        CollectMember(s, pg, chip, bus + 1, a);
        ChipPageOk(s, pg, ChipId(bus, chip));
        assert a.b.c == ChipId(bus, chip) <==> a.b.c.bus == bus && a.b.c.chip == chip;
      }
    }
  }

  lemma NotReadAgain(s: State, pg: nat, chip: nat, bus: nat)
    requires Shape(s) && pg < s.g.pages && chip < s.g.chips && bus < s.g.buses
    ensures NoDup(ChipPage(s, pg, ChipId(bus, chip)))
    ensures forall x :: x in ChipPage(s, pg, ChipId(bus, chip)) ==> x !in Collect(s, pg, chip, bus + 1)
  {
    hide Shape, StatusAt, Collect, ChipPage;
    ChipPageOk(s, pg, ChipId(bus, chip));
    forall x | x in ChipPage(s, pg, ChipId(bus, chip)) ensures x !in Collect(s, pg, chip, bus + 1) {
      CollectMember(s, pg, chip, bus + 1, x);
    }
  }

  /** No slot is read twice. */
  lemma {:induction false} CollectNoDup(s: State, pg: nat, chip: nat, bus: nat)
    requires Shape(s) && pg <= s.g.pages && chip <= s.g.chips && bus <= s.g.buses
    ensures NoDup(Collect(s, pg, chip, bus))
    decreases s.g.pages - pg, s.g.chips - chip, s.g.buses - bus
  {
    hide StatusAt, Shape, ChipPage;
    if pg < s.g.pages {
      if chip == s.g.chips {
        CollectNoDup(s, pg + 1, 0, 0);
      } else if bus == s.g.buses {
        CollectNoDup(s, pg, chip + 1, 0);
      } else {
        CollectNoDup(s, pg, chip, bus + 1);
        NotReadAgain(s, pg, chip, bus);
        NoDupAppend(ChipPage(s, pg, ChipId(bus, chip)), Collect(s, pg, chip, bus + 1));
      }
    }
  }

  /** One pass reads exactly as many slots as set_vic_blks counted. */
  lemma CollectCount(s: State)
    requires Shape(s)
    ensures |Collect(s, 0, 0, 0)| == |LiveFrom(s, 0, 0)|
    ensures NoDup(Collect(s, 0, 0, 0))
    ensures forall a :: a in Collect(s, 0, 0, 0) <==> LiveVictim(s, a)
  {
    var l := Collect(s, 0, 0, 0);
    CollectNoDup(s, 0, 0, 0);
    NoDupCard(l);
    forall a ensures a in l <==> LiveVictim(s, a)
             ensures a in SeqSet(l) <==> a in LiveFrom(s, 0, 0)
    {
      CollectMember(s, 0, 0, 0, a);
      LiveFromMember(s, 0, 0, a);
      assert a in SeqSet(l) <==> a in l;
    }
    assert SeqSet(l) == LiveFrom(s, 0, 0);
  }

  // ---- the copy buffers hold it all ----------------------------------------------------------------------------

  /** NUM_CHIPS * NUM_PAGES_PER_BLOCK * NR_LP_IN_PP, the length of lpas_to_copy. */
  function BufSize(g: Geo): nat { (g.buses * g.chips) * (g.pages * g.slots) }

  /** data_to_copy is sized with an extra factor (the size of a u32), so it is at least as long. */
  ghost predicate BufShape(s: State) {
    |s.lpaBuf| == BufSize(s.g) && |s.dataBuf| >= BufSize(s.g)
  }

  lemma LiveOnBound(s: State, c: ChipId)
    requires Shape(s) && ValidChip(s.g, c)
    ensures |LiveOn(s, c)| <= s.g.pages * s.g.slots
  {
    if s.chips[c].vic.Some? {
      assert Listed(s.g, s.chips[c]);
      var b := BlkId(c, s.chips[c].vic.value);
      var q := BlockSlots(s.g, s.blks[b], Valid);
      AddrsCard(b, q);
      GridCard(s.g.pages, s.g.slots);
      SubsetCard(q, Grid(s.g.pages, s.g.slots));
    }
  }

  lemma {:induction false} LiveBound(s: State, bus: nat, chip: nat, m: nat)
    requires Shape(s) && bus <= s.g.buses && chip <= s.g.chips
    requires forall c :: ValidChip(s.g, c) ==> |LiveOn(s, c)| <= m
    ensures |LiveFrom(s, bus, chip)| <= ChipsLeft(s.g, bus, chip) * m
    decreases s.g.buses - bus, s.g.chips - chip
  {
    hide Shape, LiveOn;
    if bus < s.g.buses {
      if chip == s.g.chips {
        LiveBound(s, bus + 1, 0, m);
      } else {
        LiveBound(s, bus, chip + 1, m);
        LiveFromSplit(s, bus, chip);
        Distribute(ChipsLeft(s.g, bus, chip + 1), m);
      }
    }
  }

  lemma Distribute(n: nat, k: nat)
    ensures n * k + k == (n + 1) * k
  {
  }

  function ChipsLeft(g: Geo, bus: nat, chip: nat): nat
    requires bus <= g.buses && chip <= g.chips
    decreases g.buses - bus, g.chips - chip
  {
    if bus == g.buses then 0 else if chip == g.chips then ChipsLeft(g, bus + 1, 0) else 1 + ChipsLeft(g, bus, chip + 1)
  }

  lemma {:induction false} AllChips(g: Geo, bus: nat, chip: nat)
    requires bus <= g.buses && chip <= g.chips && (bus == g.buses ==> chip == 0)
    ensures ChipsLeft(g, bus, chip) == (g.buses - bus) * g.chips - chip
    decreases g.buses - bus, g.chips - chip
  {
    if bus < g.buses {
      if chip == g.chips {
        AllChips(g, bus + 1, 0);
        Distribute(g.buses - bus - 1, g.chips);
      } else {
        AllChips(g, bus, chip + 1);
      }
    }
  }

  /** What is read fits the buffers. */
  lemma CollectFits(s: State)
    requires Shape(s)
    ensures |Collect(s, 0, 0, 0)| <= BufSize(s.g)
  {
    CollectCount(s);
    forall c | ValidChip(s.g, c) ensures |LiveOn(s, c)| <= s.g.pages * s.g.slots { LiveOnBound(s, c); }
    LiveBound(s, 0, 0, s.g.pages * s.g.slots);
    AllChips(s.g, 0, 0);
  }

  // ---- filling the buffers -------------------------------------------------------------------------------------

  function LpasOf(g: Geo, blks: map<BlkId, Block>, l: seq<Addr>): (r: seq<nat>)
    requires BlksShape(g, blks) && forall i :: 0 <= i < |l| ==> ValidAddr(g, l[i])
    ensures |r| == |l|
  {
    seq(|l|, i requires 0 <= i < |l| => LpaAt(g, blks, l[i]))
  }

  function DataOf(g: Geo, disk: map<BlkId, seq<seq<Data>>>, l: seq<Addr>): (r: seq<Data>)
    requires DiskShape(g, disk) && forall i :: 0 <= i < |l| ==> ValidAddr(g, l[i])
    ensures |r| == |l|
  {
    seq(|l|, i requires 0 <= i < |l| => DataAt(g, disk, l[i]))
  }

  /** The buffers after the slots `l` have been read into them. */
  function CopyOut(s: State, l: seq<Addr>): State
    requires Shape(s) && (forall i :: 0 <= i < |l| ==> ValidAddr(s.g, l[i]))
    requires |l| <= |s.lpaBuf| && |l| <= |s.dataBuf|
  {
    s.(lpaBuf := LpasOf(s.g, s.blks, l) + s.lpaBuf[|l|..], dataBuf := DataOf(s.g, s.disk, l) + s.dataBuf[|l|..])
  }

  /** Entries pos.. of the buffers name mapped LPAs, all different, with the data the flash shows for them. */
  ghost predicate Copied(s: State, pos: nat, n: nat)
    requires Shape(s)
  {
    && pos + n <= |s.lpaBuf| && pos + n <= |s.dataBuf|
    && (forall i :: pos <= i < pos + n ==> s.lpaBuf[i] in View(s) && s.dataBuf[i] == View(s)[s.lpaBuf[i]])
    && (forall i, j :: pos <= i < j < pos + n ==> s.lpaBuf[i] != s.lpaBuf[j])
  }

  lemma BufIrrelevant(s: State, lpaBuf: seq<nat>, dataBuf: seq<Data>, n: nat)
    requires Inv(s)
    ensures var s' := s.(lpaBuf := lpaBuf, dataBuf := dataBuf, nrCopy := n); Inv(s') && View(s') == View(s)
  {
    hide BlksOk, Biject, ChipsOk, ViewOf;
  }

  lemma ReadSlot(s: State, l: seq<Addr>, i: nat)
    requires Shape(s) && Biject(s.g, s.l2p, s.blks) && |l| <= |s.lpaBuf| && |l| <= |s.dataBuf| && i < |l|
    requires forall i :: 0 <= i < |l| ==> ValidAddr(s.g, l[i]) && StatusAt(s.g, s.blks, l[i]) == Valid
    ensures var s' := CopyOut(s, l);
            && s'.lpaBuf[i] in s.l2p && s.l2p[s'.lpaBuf[i]] == l[i]
            && s'.dataBuf[i] == ViewOf(s.g, s.disk, s.l2p)[s'.lpaBuf[i]]
  {
  }

  /** VALID slots, none twice, are read as different LPAs with the data the flash shows. */
  lemma CopyOutOk(s: State, l: seq<Addr>)
    requires Inv(s) && NoDup(l) && |l| <= |s.lpaBuf| && |l| <= |s.dataBuf|
    requires forall i :: 0 <= i < |l| ==> ValidAddr(s.g, l[i]) && StatusAt(s.g, s.blks, l[i]) == Valid
    ensures Inv(CopyOut(s, l)) && View(CopyOut(s, l)) == View(s)
    ensures Copied(CopyOut(s, l), 0, |l|)
    ensures forall i :: 0 <= i < |l| ==> CopyOut(s, l).lpaBuf[i] in s.l2p && s.l2p[CopyOut(s, l).lpaBuf[i]] == l[i]
  {
    hide BlksOk, ChipsOk, Biject, LpasOf, DataOf;
    var s' := CopyOut(s, l);
    BufIrrelevant(s, s'.lpaBuf, s'.dataBuf, s.nrCopy);
    forall i | 0 <= i < |l|
      ensures s'.lpaBuf[i] in s.l2p && s.l2p[s'.lpaBuf[i]] == l[i] && s'.dataBuf[i] == View(s)[s'.lpaBuf[i]]
    {
      ReadSlot(s, l, i);
    }
  }
}
