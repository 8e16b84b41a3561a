/**
 * The block counters taken together: the valid logical pages counted over all blocks are exactly the
 * mapped logical pages.
 */
module Counts {
  import opened Common
  import opened Geometry
  import opened Blocks
  import opened FtlState
  import opened Victims

  /** Blocks still to be counted at (bus, chip, no). */
  predicate Later(b: BlkId, bus: nat, chip: nat, no: nat) {
    || b.c.bus > bus
    || (b.c.bus == bus && (b.c.chip > chip || (b.c.chip == chip && b.no >= no)))
  }

  /** The sum of nr_valid_lps over the blocks from (bus, chip, no) on. */
  ghost function TotalValid(s: State, bus: nat, chip: nat, no: nat): int
    requires Shape(s) && bus <= s.g.buses && chip <= s.g.chips && no <= s.g.blocks
    decreases s.g.buses - bus, s.g.chips - chip, s.g.blocks - no
  {
    if bus == s.g.buses then 0
    else if chip == s.g.chips then TotalValid(s, bus + 1, 0, 0)
    else if no == s.g.blocks then TotalValid(s, bus, chip + 1, 0)
    else s.blks[BlkId(ChipId(bus, chip), no)].nrValidLps + TotalValid(s, bus, chip, no + 1)
  }

  /** The mapped slots among those blocks. */
  ghost function SlotsFrom(s: State, bus: nat, chip: nat, no: nat): (r: set<Addr>)
    requires Shape(s)
    ensures forall a :: a in r <==> a in s.l2p.Values && Later(a.b, bus, chip, no)
  {
    set a | a in s.l2p.Values && Later(a.b, bus, chip, no)
  }

  /** The VALID slots of a block are the mapped ones. */
  lemma BlockMapped(s: State, b: BlkId, a: Addr)
    requires Inv(s) && ValidBlk(s.g, b)
    ensures a in AddrsOf(b, BlockSlots(s.g, s.blks[b], Valid)) <==> a in s.l2p.Values && a.b == b
  {
    hide BlksOk, ChipsOk;
    AddrsMember(b, BlockSlots(s.g, s.blks[b], Valid), a);
    if a in s.l2p.Values && a.b == b {
      var lpa :| lpa in s.l2p && s.l2p[lpa] == a;
      assert StatusAt(s.g, s.blks, a) == Valid;
    }
    if a.b == b && (a.pg, a.lp) in BlockSlots(s.g, s.blks[b], Valid) {
      assert ValidAddr(s.g, a) && StatusAt(s.g, s.blks, a) == Valid;
      assert LpaAt(s.g, s.blks, a) in s.l2p;
    }
  }

  lemma BlockCard(s: State, b: BlkId)
    requires Inv(s) && ValidBlk(s.g, b)
    ensures |AddrsOf(b, BlockSlots(s.g, s.blks[b], Valid))| == s.blks[b].nrValidLps
  {
    hide Biject, ChipsOk, PagesAt;
    assert BlockAt(s.g, s.blks[b], 0);
    AddrsCard(b, BlockSlots(s.g, s.blks[b], Valid));
  }

  lemma CountBlock(s: State, b: BlkId, bus: nat, chip: nat, no: nat)
    requires Inv(s) && ValidBlk(s.g, b) && b == BlkId(ChipId(bus, chip), no)
    ensures |SlotsFrom(s, bus, chip, no)| == s.blks[b].nrValidLps + |SlotsFrom(s, bus, chip, no + 1)|
  {
    hide BlksOk, Biject, ChipsOk, AddrsOf, BlockSlots, SlotsFrom;
    BlockCard(s, b);
    var q := AddrsOf(b, BlockSlots(s.g, s.blks[b], Valid));
    forall a ensures a in q <==> a in s.l2p.Values && a.b == b { BlockMapped(s, b, a); }
    hide Shape;
    DisjointUnion(q, SlotsFrom(s, bus, chip, no + 1), SlotsFrom(s, bus, chip, no));
  }

  lemma NoneLeft(s: State, bus: nat, chip: nat, no: nat)
    requires Inv(s) && bus <= s.g.buses && chip <= s.g.chips && no <= s.g.blocks
    ensures bus == s.g.buses ==> SlotsFrom(s, bus, chip, no) == {}
    ensures bus < s.g.buses && chip == s.g.chips ==> SlotsFrom(s, bus, chip, no) == SlotsFrom(s, bus + 1, 0, 0)
    ensures bus < s.g.buses && chip < s.g.chips && no == s.g.blocks ==>
            SlotsFrom(s, bus, chip, no) == SlotsFrom(s, bus, chip + 1, 0)
  {
    hide BlksOk, Biject, ChipsOk;
    forall a | a in s.l2p.Values ensures ValidAddr(s.g, a) {
      var lpa :| lpa in s.l2p && s.l2p[lpa] == a;
    }
  }

  lemma {:induction false} CountAll(s: State, bus: nat, chip: nat, no: nat)
    requires Inv(s) && bus <= s.g.buses && chip <= s.g.chips && no <= s.g.blocks
    ensures TotalValid(s, bus, chip, no) == |SlotsFrom(s, bus, chip, no)|
    decreases s.g.buses - bus, s.g.chips - chip, s.g.blocks - no
  {
    hide BlksOk, Biject, ChipsOk, SlotsFrom;
    NoneLeft(s, bus, chip, no);
    if bus < s.g.buses {
      if chip == s.g.chips {
        CountAll(s, bus + 1, 0, 0);
      } else if no == s.g.blocks {
        CountAll(s, bus, chip + 1, 0);
      } else {
        CountBlock(s, BlkId(ChipId(bus, chip), no), bus, chip, no);
        CountAll(s, bus, chip, no + 1);
      }
    }
  }

  lemma {:induction false} InjectiveCard<K, V>(m: map<K, V>)
    requires forall x, y :: x in m && y in m && x != y ==> m[x] != m[y]
    ensures |m.Values| == |m|
    decreases m.Keys
  {
    if m == map[] {
      assert m.Values == {};
    } else {
      var x :| x in m;
      var m1 := m - {x};
      InjectiveCard(m1);
      forall v ensures v in m.Values <==> v in m1.Values || v == m[x] {
        if v in m.Values { var y :| y in m && m[y] == v; if y != x { assert y in m1 && m1[y] == v; } }
        if v in m1.Values { var y :| y in m1 && m1[y] == v; assert y in m; }
      }
      assert m.Values == m1.Values + {m[x]};
      assert m.Keys == m1.Keys + {x};
    }
  }

  lemma MappedCard(s: State)
    requires Inv(s)
    ensures |s.l2p.Values| == |s.l2p|
  {
    hide BlksOk, ChipsOk;
    assert forall x, y :: x in s.l2p && y in s.l2p && x != y ==> s.l2p[x] != s.l2p[y];
    hide Biject;
    InjectiveCard(s.l2p);
  }

  /** Summed over all blocks, the valid logical pages are the mapped logical pages. */
  lemma ValidEqualsMapped(s: State)
    requires Inv(s)
    ensures TotalValid(s, 0, 0, 0) == |s.l2p|
  {
    hide BlksOk, Biject, ChipsOk, TotalValid;
    CountAll(s, 0, 0, 0);
    MappedCard(s);
    assert SlotsFrom(s, 0, 0, 0) == s.l2p.Values;
  }
}
