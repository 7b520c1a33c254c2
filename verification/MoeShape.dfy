/** Sizes and routing table shared by the two `MUL_MAT_ID` kernels and their host dispatch. */
module MoeShape {
  import opened Arith

  /** Tensor sizes, tile constants and the gather workgroup size. */
  datatype Shape = Shape(
    m: nat, k: nat, nExpert: nat, nUsed: nat, nTokens: nat, bNe1: nat,
    tileM: nat, tileN: nat, tileK: nat, wgM: nat, wgN: nat, gatherSize: nat)
  {
    /** Tensor extents are at least one and fit the kernels' 32-bit parameters; tiles are not empty. */
    ghost predicate Valid() {
      && m > 0 && nUsed > 0 && nTokens > 0 && bNe1 > 0
      && 0 < nExpert < 0xFFFF_FFFF
      && tileM > 0 && tileN > 0 && tileK > 0 && wgM > 0 && wgN > 0 && gatherSize > 0
    }

    /** Number of (slot, token) pairs the router produced. */
    function Pairs(): nat { nUsed * nTokens }

    function TileRows(): nat { wgM * tileM }
    function TileCols(): nat { wgN * tileN }
    function Threads(): nat { wgM * wgN }
  }

  /** The router's output: which expert each slot of each token uses, in a strided buffer. */
  datatype Routing = Routing(cells: seq<int>, offset: nat, stride: nat)
  {
    function CellOf(token: nat, slot: nat): nat { offset + token * stride + slot }

    function At(token: nat, slot: nat): int {
      if CellOf(token, slot) < |cells| then cells[CellOf(token, slot)] else -1
    }

    /** Every id names an expert, and no token uses an expert in two of its slots. */
    ghost predicate Valid(c: Shape) {
      && (forall token: nat, slot: nat :: token < c.nTokens && slot < c.nUsed ==>
            CellOf(token, slot) < |cells| && 0 <= At(token, slot) < c.nExpert)
      && (forall token: nat, slot: nat, other: nat ::
            token < c.nTokens && slot < c.nUsed && other < c.nUsed && slot != other ==>
            At(token, slot) != At(token, other))
    }

    /** The expert of the i-th pair, in the order the gather kernel scans pairs. */
    function ExpertOf(c: Shape, i: nat): int
      requires c.nUsed > 0
    {
      At(TokenOf(c, i), SlotOf(c, i))
    }
  }

  function TokenOf(c: Shape, i: nat): nat
    requires c.nUsed > 0
  {
    i / c.nUsed
  }

  function SlotOf(c: Shape, i: nat): nat
    requires c.nUsed > 0
  {
    i % c.nUsed
  }

  function PairAt(c: Shape, token: nat, slot: nat): nat { token * c.nUsed + slot }

  lemma PairInRange(c: Shape, i: nat)
    requires c.nUsed > 0 && i < c.Pairs()
    ensures TokenOf(c, i) < c.nTokens && SlotOf(c, i) < c.nUsed
    ensures i == PairAt(c, TokenOf(c, i), SlotOf(c, i))
  {
  }

  lemma PairOf(c: Shape, token: nat, slot: nat)
    requires token < c.nTokens && slot < c.nUsed
    ensures PairAt(c, token, slot) < c.Pairs()
    ensures TokenOf(c, PairAt(c, token, slot)) == token && SlotOf(c, PairAt(c, token, slot)) == slot
  {
    RowMajorBound(token, slot, c.nTokens, c.nUsed);
    DivModUnique(token * c.nUsed + slot, token, slot, c.nUsed);
  }

  /** Cell of position `p` in expert `e`'s region of a gathered buffer. */
  function RegionCell(c: Shape, e: nat, p: nat): nat { e * c.nTokens + p }

  /**
    What the gather kernel owes the main kernel: per expert, its region lists exactly the
    (slot, token) pairs routed to it, each once, and stays inside its `nTokens` cells.
   */
  ghost predicate Gathered(c: Shape, r: Routing, used: seq<nat>, tokens: seq<nat>, counts: seq<nat>) {
    && |used| == |tokens| == c.nExpert * c.nTokens && |counts| == c.nExpert
    && (forall e: nat :: e < c.nExpert ==> RegionGathered(c, r, used, tokens, counts[e], e))
  }

  ghost predicate RegionGathered(c: Shape, r: Routing, used: seq<nat>, tokens: seq<nat>, count: nat, e: nat) {
    && count <= c.nTokens
    && (forall p: nat {:trigger RegionCell(c, e, p)} :: p < count ==> RegionCell(c, e, p) < |used| && RegionCell(c, e, p) < |tokens|)
    && (forall p: nat {:trigger RegionCell(c, e, p)} :: p < count ==>
          && used[RegionCell(c, e, p)] < c.nUsed
          && tokens[RegionCell(c, e, p)] < c.nTokens
          && r.At(tokens[RegionCell(c, e, p)], used[RegionCell(c, e, p)]) == e)
    && (forall p: nat, q: nat {:trigger RegionCell(c, e, p), RegionCell(c, e, q)} :: p < q < count ==>
          tokens[RegionCell(c, e, p)] != tokens[RegionCell(c, e, q)])
    && (forall token: nat, slot: nat {:trigger r.At(token, slot)} ::
          token < c.nTokens && slot < c.nUsed && r.At(token, slot) == e ==>
          exists p: nat {:trigger RegionCell(c, e, p)} :: p < count
            && used[RegionCell(c, e, p)] == slot && tokens[RegionCell(c, e, p)] == token)
  }
}
