/**
  How the main kernel's workgroups find their work, and why the host launches enough of them
  although it cannot know the per-expert counts.
*/
module MoeDispatch {
  import opened Arith
  import opened MoeShape

  /** The numbers both the host and the kernel derive the launch from. */
  datatype Grid = Grid(m: nat, nExpert: nat, pairs: nat, tileRows: nat, tileCols: nat)
  {
    ghost predicate Valid() {
      m > 0 && 0 < nExpert < 0xFFFF_FFFF && pairs > 0 && tileRows > 0 && tileCols > 0
    }
  }

  function GridOf(c: Shape): (g: Grid)
    requires c.Valid()
    ensures g.Valid()
  {
    MulLe(1, c.wgM, c.tileM);
    MulLe(1, c.wgN, c.tileN);
    MulLe(1, c.nUsed, c.nTokens);
    Grid(c.m, c.nExpert, c.Pairs(), c.TileRows(), c.TileCols())
  }

  /** One workgroup's share: a tile of an expert's output. */
  datatype Tile = Tile(expert: nat, row: nat, col: nat)

  function RowTiles(g: Grid): (n: nat)
    requires g.Valid()
    ensures n > 0
  {
    CeilDivCounts(g.m, g.tileRows, 0);
    CeilDiv(g.m, g.tileRows)
  }

  function ColTiles(g: Grid, count: nat): (n: nat)
    requires g.Valid()
  {
    CeilDiv(count, g.tileCols)
  }

  /** Workgroups that belong to experts before `e`. */
  function WgBefore(g: Grid, counts: seq<nat>, e: nat): (n: nat)
    requires g.Valid() && e <= |counts|
  {
    if e == 0 then 0 else WgBefore(g, counts, e - 1) + RowTiles(g) * ColTiles(g, counts[e - 1])
  }

  ghost predicate IsTile(g: Grid, counts: seq<nat>, t: Tile)
    requires g.Valid()
  {
    t.expert < |counts| && t.row < RowTiles(g) && t.col < ColTiles(g, counts[t.expert])
  }

  /** The linear workgroup id that computes tile `t`. */
  function LinearOf(g: Grid, counts: seq<nat>, t: Tile): nat
    requires g.Valid() && t.expert <= |counts|
  {
    WgBefore(g, counts, t.expert) + (t.col * RowTiles(g) + t.row)
  }

  lemma {:induction false} WgBeforeGrows(g: Grid, counts: seq<nat>, a: nat, b: nat)
    requires g.Valid() && a <= b <= |counts|
    ensures WgBefore(g, counts, a) <= WgBefore(g, counts, b)
    decreases b
  {
    if a < b {
      WgBeforeGrows(g, counts, a, b - 1);
      MulLe(0, RowTiles(g), ColTiles(g, counts[b - 1]));
    }
  }

  /** A tile's id falls in its expert's stretch of ids. */
  lemma LinearInStretch(g: Grid, counts: seq<nat>, t: Tile)
    requires g.Valid() && IsTile(g, counts, t)
    ensures WgBefore(g, counts, t.expert) <= LinearOf(g, counts, t) < WgBefore(g, counts, t.expert + 1)
    ensures LinearOf(g, counts, t) < WgBefore(g, counts, |counts|)
  {
    RowMajorBound(t.col, t.row, ColTiles(g, counts[t.expert]), RowTiles(g));
    WgBeforeGrows(g, counts, t.expert + 1, |counts|);
  }

  lemma StretchesDisjoint(g: Grid, counts: seq<nat>, e: nat, f: nat, id: nat)
    requires g.Valid() && e < |counts| && f < |counts|
    requires WgBefore(g, counts, e) <= id < WgBefore(g, counts, e + 1)
    requires WgBefore(g, counts, f) <= id < WgBefore(g, counts, f + 1)
    ensures e == f
  {
    if e < f {
      WgBeforeGrows(g, counts, e + 1, f);
    } else if f < e {
      WgBeforeGrows(g, counts, f + 1, e);
    }
  }

  /** No two tiles share a workgroup id. */
  lemma TilesHaveOwnIds(g: Grid, counts: seq<nat>, t: Tile, u: Tile)
    requires g.Valid() && IsTile(g, counts, t) && IsTile(g, counts, u)
    requires LinearOf(g, counts, t) == LinearOf(g, counts, u)
    ensures t == u
  {
    LinearInStretch(g, counts, t);
    LinearInStretch(g, counts, u);
    StretchesDisjoint(g, counts, t.expert, u.expert, LinearOf(g, counts, t));
    RowMajorUnique(t.col, t.row, u.col, u.row, RowTiles(g));
  }

  /** The tile at an offset inside an expert's stretch. */
  function TileAtOffset(g: Grid, e: nat, inBatch: nat): Tile
    requires g.Valid()
  {
    Tile(e, inBatch % RowTiles(g), inBatch / RowTiles(g))
  }

  lemma OffsetIsTile(g: Grid, counts: seq<nat>, e: nat, id: nat)
    requires g.Valid() && e < |counts|
    requires WgBefore(g, counts, e) <= id < WgBefore(g, counts, e + 1)
    ensures IsTile(g, counts, TileAtOffset(g, e, id - WgBefore(g, counts, e)))
    ensures LinearOf(g, counts, TileAtOffset(g, e, id - WgBefore(g, counts, e))) == id
  {
    var inBatch := id - WgBefore(g, counts, e);
    DivModOf(inBatch, RowTiles(g));
    DivBound(inBatch, RowTiles(g), ColTiles(g, counts[e]));
  }

  lemma {:induction false} StretchOfId(g: Grid, counts: seq<nat>, id: nat, n: nat) returns (e: nat)
    requires g.Valid() && n <= |counts| && id < WgBefore(g, counts, n)
    ensures e < n && WgBefore(g, counts, e) <= id < WgBefore(g, counts, e + 1)
  {
    if id < WgBefore(g, counts, n - 1) {
      e := StretchOfId(g, counts, id, n - 1);
    } else {
      e := n - 1;
    }
  }

  /** Ids below the total are not idle: each one is some tile's. */
  lemma TileOfId(g: Grid, counts: seq<nat>, id: nat) returns (t: Tile)
    requires g.Valid() && id < WgBefore(g, counts, |counts|)
    ensures IsTile(g, counts, t) && LinearOf(g, counts, t) == id
  {
    var e := StretchOfId(g, counts, id, |counts|);
    OffsetIsTile(g, counts, e, id);
    t := TileAtOffset(g, e, id - WgBefore(g, counts, e));
  }

  /** The kernel's search for the expert in whose stretch an id falls. */
  method FindExpert(g: Grid, counts: seq<nat>, id: nat) returns (expertIdx: nat, wgInBatch: nat)
    requires g.Valid() && |counts| == g.nExpert
    ensures expertIdx == 0xFFFF_FFFF <==> id >= WgBefore(g, counts, g.nExpert)
    ensures expertIdx != 0xFFFF_FFFF ==>
              expertIdx < g.nExpert && WgBefore(g, counts, expertIdx) <= id < WgBefore(g, counts, expertIdx + 1)
              && wgInBatch == id - WgBefore(g, counts, expertIdx)
    ensures expertIdx == 0xFFFF_FFFF ==> wgInBatch == 0
  {
    expertIdx, wgInBatch := 0xFFFF_FFFF, 0;
    var wgSum := 0;
    var wgMCount := RowTiles(g);
    for i := 0 to g.nExpert
      invariant wgSum == WgBefore(g, counts, i) <= id
      invariant expertIdx == 0xFFFF_FFFF && wgInBatch == 0
    {
      var wgPerMatrix := wgMCount * ColTiles(g, counts[i]);
      assert WgBefore(g, counts, i + 1) == wgSum + wgPerMatrix;
      if wgSum <= id && id < wgSum + wgPerMatrix {
        expertIdx, wgInBatch := i, id - wgSum;
        WgBeforeGrows(g, counts, i + 1, g.nExpert);
        break;
      }
      wgSum := wgSum + wgPerMatrix;
    }
  }

  /**
    A workgroup's place. The sentinel comes back exactly for ids past the last expert's stretch;
    every other id is led to the one tile whose id it is.
   */
  method FindTile(g: Grid, counts: seq<nat>, id: nat) returns (expertIdx: nat, row: nat, col: nat)
    requires g.Valid() && |counts| == g.nExpert
    ensures expertIdx == 0xFFFF_FFFF <==> id >= WgBefore(g, counts, g.nExpert)
    ensures expertIdx != 0xFFFF_FFFF ==>
              IsTile(g, counts, Tile(expertIdx, row, col)) && LinearOf(g, counts, Tile(expertIdx, row, col)) == id
  {
    hide WgBefore, LinearOf, IsTile, RowTiles;
    var wgInBatch;
    expertIdx, wgInBatch := FindExpert(g, counts, id);
    row, col := wgInBatch % RowTiles(g), wgInBatch / RowTiles(g);
    if expertIdx != 0xFFFF_FFFF {
      OffsetIsTile(g, counts, expertIdx, id);
      assert Tile(expertIdx, row, col) == TileAtOffset(g, expertIdx, wgInBatch);
    } else {
      DivModOf(wgInBatch, RowTiles(g));
    }
  }

  // ----- the host's bound -----

  /** What the host launches: it knows the number of pairs but not how they spread over experts. */
  function HostWorkgroups(g: Grid): nat
    requires g.Valid()
  {
    var active := if g.nExpert < g.pairs then g.nExpert else g.pairs;
    RowTiles(g) * (CeilDiv(g.pairs, g.tileCols) + active)
  }

  function PrefixSum(s: seq<nat>, n: nat): nat
    requires n <= |s|
  {
    if n == 0 then 0 else PrefixSum(s, n - 1) + s[n - 1]
  }

  function ActiveIn(s: seq<nat>, n: nat): (active: nat)
    requires n <= |s|
    ensures active <= n
  {
    if n == 0 then 0 else ActiveIn(s, n - 1) + if s[n - 1] > 0 then 1 else 0
  }

  lemma {:induction false} ActiveAtMostSum(s: seq<nat>, n: nat)
    requires n <= |s|
    ensures ActiveIn(s, n) <= PrefixSum(s, n)
  {
    if n > 0 {
      ActiveAtMostSum(s, n - 1);
    }
  }

  lemma {:induction false} PrefixSumHead(s: seq<nat>, n: nat)
    requires 0 < n <= |s|
    ensures PrefixSum(s, n) == s[0] + PrefixSum(s[1..], n - 1)
  {
    if n > 1 {
      PrefixSumHead(s, n - 1);
    }
  }

  lemma {:induction false} PrefixSumIsSum(s: seq<nat>)
    ensures PrefixSum(s, |s|) == Sum(s)
  {
    if s != [] {
      PrefixSumHead(s, |s|);
      PrefixSumIsSum(s[1..]);
    }
  }

  lemma CeilOfPositive(count: nat, t: nat)
    requires t > 0 && count > 0
    ensures CeilDiv(count, t) == (count - 1) / t + 1
  {
    DivModOf(count - 1, t);
    MulDistr((count - 1) / t, 1, t);
    DivModUnique(count + t - 1, (count - 1) / t + 1, (count - 1) % t, t);
  }

  lemma CeilOfZero(t: nat)
    requires t > 0
    ensures CeilDiv(0, t) == 0
  {
  }

  lemma CeilAfterFloor(sum: nat, count: nat, t: nat)
    requires t > 0
    ensures sum / t + CeilDiv(count, t) <= (sum + count) / t + if count > 0 then 1 else 0
  {
    if count > 0 {
      CeilOfPositive(count, t);
      DivModOf(sum, t);
      DivModOf(count - 1, t);
      MulDistr(sum / t, (count - 1) / t, t);
      DivAtLeast(sum + count, sum / t + (count - 1) / t, t);
    } else {
      CeilOfZero(t);
    }
  }

  /** Column tiles of the first `n` experts, for column tiles of `t`. */
  function ColTilesBefore(counts: seq<nat>, t: nat, n: nat): nat
    requires t > 0 && n <= |counts|
  {
    if n == 0 then 0 else ColTilesBefore(counts, t, n - 1) + CeilDiv(counts[n - 1], t)
  }

  lemma {:induction false} WgBeforeIsProduct(g: Grid, counts: seq<nat>, n: nat)
    requires g.Valid() && n <= |counts|
    ensures WgBefore(g, counts, n) == RowTiles(g) * ColTilesBefore(counts, g.tileCols, n)
  {
    if n > 0 {
      WgBeforeIsProduct(g, counts, n - 1);
      MulDistr(ColTilesBefore(counts, g.tileCols, n - 1), ColTiles(g, counts[n - 1]), RowTiles(g));
    }
  }

  /** Splitting the pairs over experts costs at most one partly filled column tile per active expert. */
  lemma {:induction false} SplitCost(counts: seq<nat>, t: nat, n: nat)
    requires t > 0 && n <= |counts|
    ensures ColTilesBefore(counts, t, n) <= PrefixSum(counts, n) / t + ActiveIn(counts, n)
  {
    if n == 0 {
      DivModUnique(0, 0, 0, t);
    } else {
      SplitCost(counts, t, n - 1);
      CeilAfterFloor(PrefixSum(counts, n - 1), counts[n - 1], t);
    }
  }

  lemma FloorAtMostCeil(a: nat, t: nat)
    requires t > 0
    ensures a / t <= CeilDiv(a, t)
  {
  }

  /** However the pairs spread over the experts, the host's launch has a workgroup for every tile. */
  lemma HostLaunchesEveryTile(g: Grid, counts: seq<nat>)
    requires g.Valid() && |counts| == g.nExpert && Sum(counts) == g.pairs
    ensures WgBefore(g, counts, g.nExpert) <= HostWorkgroups(g)
  {
    var t, n := g.tileCols, g.nExpert;
    WgBeforeIsProduct(g, counts, n);
    SplitCost(counts, t, n);
    PrefixSumIsSum(counts);
    ActiveAtMostSum(counts, n);
    FloorAtMostCeil(g.pairs, t);
    var active := if g.nExpert < g.pairs then g.nExpert else g.pairs;
    assert ColTilesBefore(counts, t, n) <= CeilDiv(g.pairs, t) + active;
    MulLeft(RowTiles(g), ColTilesBefore(counts, t, n), CeilDiv(g.pairs, t) + active);
  }

  lemma CeilSplits(a: nat, b: nat, t: nat)
    requires t > 0
    ensures CeilDiv(a + b, t) <= CeilDiv(a, t) + CeilDiv(b, t)
  {
    var p, q := CeilDiv(a, t), CeilDiv(b, t);
    CeilDivCounts(a, t, p);
    CeilDivCounts(b, t, q);
    MulDistr(p, q, t);
    CeilDivCounts(a + b, t, p + q);
  }

  lemma {:induction false} NoFewerTiles(counts: seq<nat>, t: nat, n: nat)
    requires t > 0 && n <= |counts|
    ensures CeilDiv(PrefixSum(counts, n), t) <= ColTilesBefore(counts, t, n)
  {
    if n == 0 {
      CeilOfZero(t);
    } else {
      NoFewerTiles(counts, t, n - 1);
      CeilSplits(PrefixSum(counts, n - 1), counts[n - 1], t);
    }
  }

  /** ... and at most a column of tiles too many for each expert that may be active. */
  lemma HostWastesLittle(g: Grid, counts: seq<nat>)
    requires g.Valid() && |counts| == g.nExpert && Sum(counts) == g.pairs
    ensures HostWorkgroups(g) <= WgBefore(g, counts, g.nExpert) + RowTiles(g) * (if g.nExpert < g.pairs then g.nExpert else g.pairs)
  {
    var t, n := g.tileCols, g.nExpert;
    var active := if g.nExpert < g.pairs then g.nExpert else g.pairs;
    WgBeforeIsProduct(g, counts, n);
    PrefixSumIsSum(counts);
    NoFewerTiles(counts, t, n);
    MulLeft(RowTiles(g), CeilDiv(g.pairs, t), ColTilesBefore(counts, t, n));
    MulDistr(CeilDiv(g.pairs, t), active, RowTiles(g));
  }

  /** An expert with no pairs costs no workgroup. */
  lemma IdleExpertIsFree(g: Grid, counts: seq<nat>, e: nat)
    requires g.Valid() && e < |counts| && counts[e] == 0
    ensures WgBefore(g, counts, e + 1) == WgBefore(g, counts, e)
  {
    CeilDivCounts(0, g.tileCols, 0);
  }
}
