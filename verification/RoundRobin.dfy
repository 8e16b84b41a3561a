/**
 * The round robin over chips (get_next_bus_chip): NUM_CHIPS turns visit every chip exactly once and
 * end where they started.
 */
module RoundRobin {
  import opened Geometry

  function NumChips(g: Geo): nat { g.buses * g.chips }

  /** The position of a chip in the round: bus within chip. */
  function Index(g: Geo, c: ChipId): nat { c.chip * g.buses + c.bus }

  /** The chip i turns after c. */
  function Turn(g: Geo, c: ChipId, i: nat): (r: ChipId)
    requires Sane(g) && ValidChip(g, c)
    ensures ValidChip(g, r)
  {
    if i == 0 then c else NextChip(g, Turn(g, c, i - 1))
  }

  lemma IndexBound(g: Geo, c: ChipId)
    requires ValidChip(g, c)
    ensures Index(g, c) < NumChips(g)
  {
    Rows(c.chip, g.chips, g.buses);
  }

  /** A row of n more still fits. */
  lemma Rows(a: nat, b: nat, n: nat)
    requires a < b
    ensures a * n + n <= b * n
  {
    var d := b - a - 1;
    assert b * n == (a + 1 + d) * n == a * n + n + d * n;
  }

  lemma IndexInjective(g: Geo, c: ChipId, d: ChipId)
    requires Sane(g) && ValidChip(g, c) && ValidChip(g, d) && Index(g, c) == Index(g, d)
    ensures c == d
  {
    DivMod(Index(g, c), g.buses, c.chip, c.bus);
    DivMod(Index(g, d), g.buses, d.chip, d.bus);
  }

  lemma NextIndex(g: Geo, c: ChipId)
    requires Sane(g) && ValidChip(g, c)
    ensures Index(g, NextChip(g, c)) == if Index(g, c) == NumChips(g) - 1 then 0 else Index(g, c) + 1
  {
    if c.bus == g.buses - 1 {
      assert Index(g, c) == (c.chip + 1) * g.buses - 1;
      if c.chip < g.chips - 1 { Rows(c.chip, g.chips - 1, g.buses); }
      assert (g.chips - 1) * g.buses + g.buses == NumChips(g);
    } else {
      Rows(c.chip, g.chips, g.buses);
    }
  }

  lemma {:induction false} TurnIndex(g: Geo, c: ChipId, i: nat)
    requires Sane(g) && ValidChip(g, c) && i <= NumChips(g)
    ensures var k := Index(g, c) + i;
            Index(g, Turn(g, c, i)) == if k < NumChips(g) then k else k - NumChips(g)
  {
    IndexBound(g, c);
    if i > 0 {
      TurnIndex(g, c, i - 1);
      NextIndex(g, Turn(g, c, i - 1));
    }
  }

  /** Within one round no chip has two turns. */
  lemma TurnsDiffer(g: Geo, c: ChipId, i: nat, j: nat)
    requires Sane(g) && ValidChip(g, c) && i < j <= NumChips(g) && j - i < NumChips(g)
    ensures Turn(g, c, i) != Turn(g, c, j)
  {
    TurnIndex(g, c, i);
    TurnIndex(g, c, j);
  }

  /** NUM_CHIPS turns come back to the start, and give every chip exactly one turn. */
  lemma FullRound(g: Geo, c: ChipId, x: ChipId)
    requires Sane(g) && ValidChip(g, c) && ValidChip(g, x)
    ensures Turn(g, c, NumChips(g)) == c
    ensures exists i :: 1 <= i <= NumChips(g) && Turn(g, c, i) == x
    ensures forall i, j :: 1 <= i < j <= NumChips(g) ==> Turn(g, c, i) != Turn(g, c, j)
  {
    IndexBound(g, c);
    IndexBound(g, x);
    TurnIndex(g, c, NumChips(g));
    IndexInjective(g, Turn(g, c, NumChips(g)), c);
    var k := if Index(g, x) > Index(g, c) then Index(g, x) - Index(g, c)
             else Index(g, x) + NumChips(g) - Index(g, c);
    TurnIndex(g, c, k);
    IndexInjective(g, Turn(g, c, k), x);
    forall i, j | 1 <= i < j <= NumChips(g) ensures Turn(g, c, i) != Turn(g, c, j) {
      TurnsDiffer(g, c, i, j);
    }
  }

  /** Turns can be counted from the next chip on. */
  lemma {:induction false} TurnShift(g: Geo, c: ChipId, i: nat)
    requires Sane(g) && ValidChip(g, c)
    ensures Turn(g, NextChip(g, c), i) == Turn(g, c, i + 1)
  {
    if i > 0 { TurnShift(g, c, i - 1); }
  }

  /** Chip x has a turn among the `left` turns after c. */
  predicate Visited(g: Geo, c: ChipId, x: ChipId, left: nat)
    requires Sane(g) && ValidChip(g, c)
    decreases left
  {
    left > 0 && (NextChip(g, c) == x || Visited(g, NextChip(g, c), x, left - 1))
  }

  /** How many turns after c it is x's turn. */
  function Wait(g: Geo, c: ChipId, x: ChipId): int {
    if Index(g, x) > Index(g, c) then Index(g, x) - Index(g, c) else Index(g, x) + NumChips(g) - Index(g, c)
  }

  lemma {:induction false} VisitedByThen(g: Geo, c: ChipId, x: ChipId, left: nat)
    requires Sane(g) && ValidChip(g, c) && ValidChip(g, x) && left <= NumChips(g)
    ensures Visited(g, c, x, left) <==> Wait(g, c, x) <= left
    decreases left
  {
    IndexBound(g, c);
    IndexBound(g, x);
    if left > 0 {
      var d := NextChip(g, c);
      NextIndex(g, c);
      VisitedByThen(g, d, x, left - 1);
      if Index(g, d) == Index(g, x) { IndexInjective(g, d, x); }
    }
  }

  /** In one round every chip is visited, and after its turn it is not visited again. */
  lemma RoundVisits(g: Geo, c: ChipId, x: ChipId, left: nat)
    requires Sane(g) && ValidChip(g, c) && ValidChip(g, x) && left < NumChips(g)
    ensures Visited(g, c, x, NumChips(g)) && !Visited(g, x, x, left)
  {
    IndexBound(g, c);
    IndexBound(g, x);
    VisitedByThen(g, c, x, NumChips(g));
    VisitedByThen(g, x, x, left);
  }

  // ---- how many turns a chip has -------------------------------------------------------------------------------

  /** The turns chip x has among the n turns after c. */
  function TurnsOf(g: Geo, c: ChipId, x: ChipId, n: nat): (r: nat)
    requires Sane(g) && ValidChip(g, c)
    decreases n
  {
    if n == 0 then 0 else (if NextChip(g, c) == x then 1 else 0) + TurnsOf(g, NextChip(g, c), x, n - 1)
  }

  lemma {:induction false} TurnsOnce(g: Geo, c: ChipId, x: ChipId, n: nat)
    requires Sane(g) && ValidChip(g, c) && ValidChip(g, x) && n <= NumChips(g)
    ensures TurnsOf(g, c, x, n) == if Visited(g, c, x, n) then 1 else 0
    decreases n
  {
    hide NumChips, NextChip;
    NextIsValidChip(g, c);
    if n > 0 {
      TurnsOnce(g, NextChip(g, c), x, n - 1);
      if NextChip(g, c) == x { RoundVisits(g, x, x, n - 1); }
    }
  }

  lemma NextIsValidChip(g: Geo, c: ChipId)
    requires Sane(g) && ValidChip(g, c)
    ensures ValidChip(g, NextChip(g, c))
  {
  }

  lemma {:induction false} TurnsSplit(g: Geo, c: ChipId, x: ChipId, m: nat, n: nat)
    requires Sane(g) && ValidChip(g, c)
    ensures TurnsOf(g, c, x, m + n) == TurnsOf(g, c, x, m) + TurnsOf(g, Turn(g, c, m), x, n)
    decreases m
  {
    hide NextChip;
    NextIsValidChip(g, c);
    if m > 0 {
      TurnsSplit(g, NextChip(g, c), x, m - 1, n);
      TurnShift(g, c, m - 1);
    }
  }

  /** In m rounds every chip has m turns. */
  lemma {:induction false} TurnsInRounds(g: Geo, c: ChipId, x: ChipId, m: nat)
    requires Sane(g) && ValidChip(g, c) && ValidChip(g, x)
    ensures TurnsOf(g, c, x, NumChips(g) * m) == m
    decreases m
  {
    hide NextChip, NumChips;
    if m > 0 {
      TurnsInRounds(g, c, x, m - 1);
      assert NumChips(g) * m == NumChips(g) + NumChips(g) * (m - 1);
      TurnsSplit(g, c, x, NumChips(g), NumChips(g) * (m - 1));
      FullRound(g, c, x);
      IndexBound(g, c);
      RoundVisits(g, c, x, 0);
      TurnsOnce(g, c, x, NumChips(g));
    }
  }
}
