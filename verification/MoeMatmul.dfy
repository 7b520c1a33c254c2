/**
  What the main kernel of `MUL_MAT_ID` works on: the operands, the naive product every output cell
  should hold, the cells of a tile each thread owns, and the one place each output cell is stored from.

  Numbers are exact.
*/
module MoeMatmul {
  import opened Arith
  import opened MoeShape
  import opened MoeGather
  import opened MoeDispatch

  /** The operands, with their offsets and strides in elements, and where the output starts. */
  datatype Operands = Operands(
    src0: seq<real>, offset0: nat, stride01: nat, stride02: nat,
    src1: seq<real>, offset1: nat, stride11: nat, stride12: nat,
    offsetDst: nat)
  {
    function Cell0(e: nat, row: nat, k: nat): nat { offset0 + e * stride02 + row * stride01 + k }
    function Cell1(token: nat, lane: nat, k: nat): nat { offset1 + token * stride12 + lane * stride11 + k }

    function Weight(e: nat, row: nat, k: nat): real {
      if Cell0(e, row, k) < |src0| then src0[Cell0(e, row, k)] else 0.0
    }

    function Activation(token: nat, lane: nat, k: nat): real {
      if Cell1(token, lane, k) < |src1| then src1[Cell1(token, lane, k)] else 0.0
    }

    /** The operand tensors lie inside their buffers. */
    ghost predicate Fits(c: Shape) {
      && (forall e: nat, row: nat, k: nat {:trigger Cell0(e, row, k)} ::
            e < c.nExpert && row < c.m && k < c.k ==> Cell0(e, row, k) < |src0|)
      && (forall token: nat, lane: nat, k: nat {:trigger Cell1(token, lane, k)} ::
            token < c.nTokens && lane < c.bNe1 && k < c.k ==> Cell1(token, lane, k) < |src1|)
    }
  }

  /** Activations repeat over slots when the token has fewer rows of them than slots. */
  function LaneOf(c: Shape, slot: nat): (lane: nat)
    requires c.bNe1 > 0
    ensures lane < c.bNe1
  {
    slot % c.bNe1
  }

  /** The first `n` terms of expert `e`'s row times the activations of (token, slot). */
  function Dot(c: Shape, d: Operands, e: nat, row: nat, token: nat, slot: nat, n: nat): real
    requires c.bNe1 > 0
  {
    if n == 0 then 0.0
    else Dot(c, d, e, row, token, slot, n - 1) + d.Weight(e, row, n - 1) * d.Activation(token, LaneOf(c, slot), n - 1)
  }

  /** The naive product: what one token's slot should hold in one row. */
  function Naive(c: Shape, r: Routing, d: Operands, row: nat, slot: nat, token: nat): real
    requires c.bNe1 > 0
  {
    if r.At(token, slot) < 0 then 0.0 else Dot(c, d, r.At(token, slot), row, token, slot, c.k)
  }

  function DstCell(c: Shape, d: Operands, row: nat, slot: nat, token: nat): nat {
    d.offsetDst + (token * c.nUsed + slot) * c.m + row
  }

  lemma DstCellUnique(c: Shape, d: Operands, row: nat, slot: nat, token: nat, row': nat, slot': nat, token': nat)
    requires row < c.m && row' < c.m && slot < c.nUsed && slot' < c.nUsed
    requires DstCell(c, d, row, slot, token) == DstCell(c, d, row', slot', token')
    ensures row == row' && slot == slot' && token == token'
  {
    RowMajorUnique(token * c.nUsed + slot, row, token' * c.nUsed + slot', row', c.m);
    RowMajorUnique(token, slot, token', slot', c.nUsed);
  }

  lemma DstCellInBounds(c: Shape, d: Operands, row: nat, slot: nat, token: nat)
    requires row < c.m && slot < c.nUsed && token < c.nTokens
    ensures d.offsetDst <= DstCell(c, d, row, slot, token) < d.offsetDst + c.Pairs() * c.m
  {
    RowMajorBound(token, slot, c.nTokens, c.nUsed);
    RowMajorBound(token * c.nUsed + slot, row, c.Pairs(), c.m);
  }

  // ----- which thread owns which cell of a tile -----

  function LocalM(c: Shape, th: nat): nat
    requires c.wgM > 0
  {
    th % c.wgM
  }

  function LocalN(c: Shape, th: nat): nat
    requires c.wgM > 0
  {
    th / c.wgM
  }

  /** Row and column inside a tile of a thread's `tm`-th row and `tn`-th column. */
  function TileRow(c: Shape, th: nat, tm: nat): nat
    requires c.wgM > 0
  {
    LocalM(c, th) * c.tileM + tm
  }

  function TileCol(c: Shape, th: nat, tn: nat): nat
    requires c.wgM > 0
  {
    LocalN(c, th) * c.tileN + tn
  }

  lemma TileCellInBounds(c: Shape, th: nat, tn: nat, tm: nat)
    requires c.Valid() && th < c.Threads() && tn < c.tileN && tm < c.tileM
    ensures TileRow(c, th, tm) < c.TileRows() && TileCol(c, th, tn) < c.TileCols()
  {
    DivBound(th, c.wgM, c.wgN);
    RowMajorBound(LocalM(c, th), tm, c.wgM, c.tileM);
    RowMajorBound(LocalN(c, th), tn, c.wgN, c.tileN);
  }

  /** Every cell of a tile belongs to one thread. */
  lemma TileCellOwned(c: Shape, a: nat, b: nat) returns (th: nat, tn: nat, tm: nat)
    requires c.Valid() && a < c.TileRows() && b < c.TileCols()
    ensures th < c.Threads() && tn < c.tileN && tm < c.tileM
    ensures TileRow(c, th, tm) == a && TileCol(c, th, tn) == b
  {
    tm, tn := a % c.tileM, b % c.tileN;
    var lm, ln := a / c.tileM, b / c.tileN;
    DivModOf(a, c.tileM);
    DivModOf(b, c.tileN);
    DivBound(a, c.tileM, c.wgM);
    DivBound(b, c.tileN, c.wgN);
    th := ln * c.wgM + lm;
    RowMajorBound(ln, lm, c.wgN, c.wgM);
    DivModUnique(th, ln, lm, c.wgM);
  }

  lemma TileCellOwner(c: Shape, th: nat, tn: nat, tm: nat, th': nat, tn': nat, tm': nat)
    requires c.Valid() && tn < c.tileN && tm < c.tileM && tn' < c.tileN && tm' < c.tileM
    requires TileRow(c, th, tm) == TileRow(c, th', tm') && TileCol(c, th, tn) == TileCol(c, th', tn')
    ensures th == th' && tn == tn' && tm == tm'
  {
    RowMajorUnique(LocalM(c, th), tm, LocalM(c, th'), tm', c.tileM);
    RowMajorUnique(LocalN(c, th), tn, LocalN(c, th'), tn', c.tileN);
    DivModOf(th, c.wgM);
    DivModOf(th', c.wgM);
  }

  /** What the gather kernel left behind. */
  datatype Lists = Lists(used: seq<nat>, tokens: seq<nat>, counts: seq<nat>)

  function SlotAt(c: Shape, g: Lists, e: nat, n: nat): nat {
    if RegionCell(c, e, n) < |g.used| then g.used[RegionCell(c, e, n)] else 0
  }

  function TokenAt(c: Shape, g: Lists, e: nat, n: nat): nat {
    if RegionCell(c, e, n) < |g.tokens| then g.tokens[RegionCell(c, e, n)] else 0
  }

  ghost predicate ListsOk(c: Shape, r: Routing, g: Lists) {
    && c.Valid() && r.Valid(c) && Gathered(c, r, g.used, g.tokens, g.counts)
    && |g.counts| == c.nExpert && IdsOk(c, r, g)
  }

  ghost predicate IdsOk(c: Shape, r: Routing, g: Lists) {
    forall e: nat, n: nat {:trigger SlotAt(c, g, e, n)} {:trigger TokenAt(c, g, e, n)} ::
      e < c.nExpert && e < |g.counts| && n < g.counts[e] ==>
        && RegionCell(c, e, n) < |g.used| && RegionCell(c, e, n) < |g.tokens|
        && SlotAt(c, g, e, n) < c.nUsed && TokenAt(c, g, e, n) < c.nTokens
        && r.At(TokenAt(c, g, e, n), SlotAt(c, g, e, n)) == e
  }

  lemma GatheredIds(c: Shape, r: Routing, g: Lists)
    requires c.Valid() && r.Valid(c) && Gathered(c, r, g.used, g.tokens, g.counts)
    ensures ListsOk(c, r, g)
  {
    forall e: nat, n: nat | e < c.nExpert && n < g.counts[e]
      ensures RegionCell(c, e, n) < |g.used| && RegionCell(c, e, n) < |g.tokens|
      ensures SlotAt(c, g, e, n) < c.nUsed && TokenAt(c, g, e, n) < c.nTokens
      ensures r.At(TokenAt(c, g, e, n), SlotAt(c, g, e, n)) == e
    {
      assert RegionGathered(c, r, g.used, g.tokens, g.counts[e], e);
    }
  }

  /** Global row, and position in the expert's list, of a cell of a tile. */
  function RowOf(c: Shape, t: Tile, a: nat): nat { t.row * c.TileRows() + a }
  function ColOf(c: Shape, t: Tile, b: nat): nat { t.col * c.TileCols() + b }

  /** Tile `t` writes output cell (row, slot, token) from its cell (a, b). */
  ghost predicate Hits(c: Shape, g: Lists, t: Tile, a: nat, b: nat, row: nat, slot: nat, token: nat) {
    && t.expert < |g.counts| && a < c.TileRows() && b < c.TileCols()
    && RowOf(c, t, a) == row < c.m && ColOf(c, t, b) < g.counts[t.expert]
    && SlotAt(c, g, t.expert, ColOf(c, t, b)) == slot && TokenAt(c, g, t.expert, ColOf(c, t, b)) == token
  }

  ghost predicate TileHits(c: Shape, g: Lists, t: Tile, row: nat, slot: nat, token: nat) {
    exists a: nat, b: nat :: Hits(c, g, t, a, b, row, slot, token)
  }

  lemma SplitByTile(total: nat, x: nat, w: nat) returns (i: nat, y: nat)
    requires w > 0 && x < total
    ensures i < CeilDiv(total, w) && y < w && i * w + y == x
  {
    i, y := x / w, x % w;
    DivModOf(x, w);
    CeilDivCounts(total, w, i);
  }

  /** Every output cell is written by some tile... */
  lemma EveryCellHasATile(c: Shape, r: Routing, g: Lists, row: nat, slot: nat, token: nat) returns (t: Tile, a: nat, b: nat)
    requires ListsOk(c, r, g) && row < c.m && slot < c.nUsed && token < c.nTokens
    ensures IsTile(GridOf(c), g.counts, t) && Hits(c, g, t, a, b, row, slot, token)
  {
    var grid := GridOf(c);
    var e: nat := r.At(token, slot);
    assert RegionGathered(c, r, g.used, g.tokens, g.counts[e], e);
    var n: nat :| n < g.counts[e] && g.used[RegionCell(c, e, n)] == slot && g.tokens[RegionCell(c, e, n)] == token;
    var i, j;
    i, a := SplitByTile(c.m, row, grid.tileRows);
    j, b := SplitByTile(g.counts[e], n, grid.tileCols);
    t := Tile(e, i, j);
    assert SlotAt(c, g, e, n) == slot;
  }

  /** ... and by no other, nor from another cell of that tile. */
  lemma NoCellHasTwoTiles(c: Shape, r: Routing, g: Lists, t: Tile, a: nat, b: nat, t': Tile, a': nat, b': nat,
                          row: nat, slot: nat, token: nat)
    requires ListsOk(c, r, g)
    requires Hits(c, g, t, a, b, row, slot, token) && Hits(c, g, t', a', b', row, slot, token)
    ensures t == t' && a == a' && b == b'
  {
    assert t.expert == r.At(token, slot) == t'.expert;
    var e, n, n' := t.expert, ColOf(c, t, b), ColOf(c, t', b');
    assert RegionGathered(c, r, g.used, g.tokens, g.counts[e], e);
    assert g.tokens[RegionCell(c, e, n)] == g.tokens[RegionCell(c, e, n')];
    RowMajorUnique(t.row, a, t'.row, a', c.TileRows());
    RowMajorUnique(t.col, b, t'.col, b', c.TileCols());
  }

  lemma HitInTile(c: Shape, g: Lists, t: Tile, a: nat, b: nat, row: nat, slot: nat, token: nat)
    requires Hits(c, g, t, a, b, row, slot, token)
    ensures a < c.TileRows() && b < c.TileCols()
  {
  }

  /**
    Each output cell is stored exactly once over the whole dispatch: one workgroup id below the
    number of tiles, and in it one thread with one pair of accumulator indices, owns it.
   */
  lemma EachCellHasOneWriter(c: Shape, r: Routing, g: Lists, row: nat, slot: nat, token: nat)
      returns (id: nat, t: Tile, th: nat, tn: nat, tm: nat)
    requires ListsOk(c, r, g) && row < c.m && slot < c.nUsed && token < c.nTokens
    ensures IsTile(GridOf(c), g.counts, t) && LinearOf(GridOf(c), g.counts, t) == id < WgBefore(GridOf(c), g.counts, c.nExpert)
    ensures th < c.Threads() && tn < c.tileN && tm < c.tileM
    ensures Hits(c, g, t, TileRow(c, th, tm), TileCol(c, th, tn), row, slot, token)
    ensures forall t': Tile, th': nat, tn': nat, tm': nat ::
              && IsTile(GridOf(c), g.counts, t') && th' < c.Threads() && tn' < c.tileN && tm' < c.tileM
              && Hits(c, g, t', TileRow(c, th', tm'), TileCol(c, th', tn'), row, slot, token)
              ==> LinearOf(GridOf(c), g.counts, t') == id && th' == th && tn' == tn && tm' == tm
  {
    hide Hits, LinearOf, WgBefore, TileRow, TileCol, GridOf, IdsOk, RowTiles, ColTiles;
    var a, b;
    t, a, b := EveryCellHasATile(c, r, g, row, slot, token);
    HitInTile(c, g, t, a, b, row, slot, token);
    th, tn, tm := TileCellOwned(c, a, b);
    id := LinearOf(GridOf(c), g.counts, t);
    LinearInStretch(GridOf(c), g.counts, t);
    forall t': Tile, th': nat, tn': nat, tm': nat
      | && IsTile(GridOf(c), g.counts, t') && th' < c.Threads() && tn' < c.tileN && tm' < c.tileM
        && Hits(c, g, t', TileRow(c, th', tm'), TileCol(c, th', tn'), row, slot, token)
      ensures LinearOf(GridOf(c), g.counts, t') == id && th' == th && tn' == tn && tm' == tm
    {
      NoCellHasTwoTiles(c, r, g, t, a, b, t', TileRow(c, th', tm'), TileCol(c, th', tn'), row, slot, token);
      TileCellOwner(c, th, tn, tm, th', tn', tm');
    }
  }
}
