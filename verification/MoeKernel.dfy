/**
  The main kernel of `MUL_MAT_ID` and the whole dispatch, as loops that threads run side by side.

  Between two barriers any thread whose loop is not over may take its next iteration, and the stores of
  all workgroups may reach the output in any order.
 */
module MoeKernel {
  import opened Arith
  import opened MoeShape
  import opened MoeDispatch
  import opened MoeMatmul
  import opened MoeResult
  import opened MoeThreads
  import MoeGather

  // ----- staging one k-step in workgroup memory -----

  function Size0(c: Shape): nat { c.TileRows() * c.tileK }
  function Size1(c: Shape): nat { c.TileCols() * c.tileK }

  /** Where staging puts the operand of tile row (or column) `a` at step `kk`. */
  function Staged(c: Shape, a: nat, kk: nat): nat { a * c.tileK + kk }

  /** The tile row (or column) and step staged in a cell. */
  function StageRow(c: Shape, cell: nat): nat
    requires c.tileK > 0
  {
    cell / c.tileK
  }

  function StageStep(c: Shape, cell: nat): nat
    requires c.tileK > 0
  {
    cell % c.tileK
  }

  lemma StagedCell(c: Shape, a: nat, kk: nat, h: nat)
    requires kk < c.tileK && a < h
    ensures Staged(c, a, kk) < h * c.tileK
    ensures StageRow(c, Staged(c, a, kk)) == a && StageStep(c, Staged(c, a, kk)) == kk
  {
    RowMajorBound(a, kk, h, c.tileK);
    DivModUnique(Staged(c, a, kk), a, kk, c.tileK);
  }

  /** The zero-padded weight tile. */
  function Want0(c: Shape, d: Operands, t: Tile, kOuter: nat, cell: nat): real
    requires c.tileK > 0
  {
    var row, k := RowOf(c, t, StageRow(c, cell)), kOuter + StageStep(c, cell);
    if row < c.m && k < c.k then d.Weight(t.expert, row, k) else 0.0
  }

  /** The zero-padded activation tile, through the gathered lists. */
  function Want1(c: Shape, d: Operands, g: Lists, t: Tile, kOuter: nat, cell: nat): real
    requires c.tileK > 0 && c.bNe1 > 0 && t.expert < |g.counts|
  {
    var n, k := ColOf(c, t, StageRow(c, cell)), kOuter + StageStep(c, cell);
    if n < g.counts[t.expert] && k < c.k
    then d.Activation(TokenAt(c, g, t.expert, n), LaneOf(c, SlotAt(c, g, t.expert, n)), k)
    else 0.0
  }

  ghost predicate InTile(c: Shape, g: Lists, t: Tile) {
    c.Valid() && IsTile(GridOf(c), g.counts, t) && |g.counts| == c.nExpert
  }

  lemma SomeThread(c: Shape, g: Lists, t: Tile)
    requires InTile(c, g, t)
    ensures c.Threads() > 0 && t.expert < c.nExpert == |g.counts| && c.Valid()
  {
    MulLe(1, c.wgM, c.wgN);
  }

  /** Columns left in the expert's list from the tile's first one on. */
  function RestOf(c: Shape, g: Lists, t: Tile): (rest: nat)
    requires c.Valid() && IsTile(GridOf(c), g.counts, t)
    ensures forall b: nat {:trigger ColOf(c, t, b)} :: b < rest <==> ColOf(c, t, b) < g.counts[t.expert]
  {
    CeilDivCounts(g.counts[t.expert], GridOf(c).tileCols, t.col);
    g.counts[t.expert] - t.col * c.TileCols()
  }

  lemma SizesArePositive(c: Shape)
    ensures Size0(c) >= 0 && Size1(c) >= 0
  {
  }

  /** The workgroup's copy of its tile's slice of the expert's list. */
  ghost predicate SliceLoaded(c: Shape, g: Lists, t: Tile, slots: seq<nat>, tokens: seq<nat>)
    requires InTile(c, g, t)
  {
    && |slots| == |tokens| == c.TileCols()
    && (forall b: nat {:trigger ColOf(c, t, b)} :: b < c.TileCols() && ColOf(c, t, b) < g.counts[t.expert] ==>
          slots[b] == SlotAt(c, g, t.expert, ColOf(c, t, b)) && tokens[b] == TokenAt(c, g, t.expert, ColOf(c, t, b)))
  }

  /**
    Up to the first barrier the threads copy the tile's slice of the expert's list, each its own stride of
    it. Each of the two stores of an iteration is a turn of its own.
   */
  method LoadGathered(c: Shape, r: Routing, g: Lists, t: Tile) returns (slots: seq<nat>, tokens: seq<nat>)
    requires ListsOk(c, r, g) && InTile(c, g, t)
    ensures SliceLoaded(c, g, t, slots, tokens)
  {
    hide ColOf, SlotAt, TokenAt, Lane, Taken, Turn, Todo, IdsOk, Gathered, IsTile;
    SomeThread(c, g, t);
    var total, width, count := c.Threads(), c.TileCols(), g.counts[t.expert];
    var sharedSlots, sharedTokens := new nat[width], new nat[width];
    var toSlots: seq<nat>, toTokens: seq<nat> := Starts(total), Starts(total);
    ghost var rest := RestOf(c, g, t);
    StartsAreStrided(total);
    while exists th :: 0 <= th < total && toTokens[th] < width && ColOf(c, t, toTokens[th]) < count
      invariant |toSlots| == |toTokens| == total && Strided(toSlots) && Strided(toTokens)
      invariant forall th :: 0 <= th < total ==> toTokens[th] <= toSlots[th]
      invariant forall b: nat {:trigger Taken(toSlots, b)} :: b < width && ColOf(c, t, b) < count && Taken(toSlots, b) ==>
                  sharedSlots[b] == SlotAt(c, g, t.expert, ColOf(c, t, b))
      invariant forall b: nat {:trigger Taken(toTokens, b)} :: b < width && ColOf(c, t, b) < count && Taken(toTokens, b) ==>
                  sharedTokens[b] == TokenAt(c, g, t.expert, ColOf(c, t, b))
      decreases Todo(toSlots, width) + Todo(toTokens, width)
    {
      var th :| 0 <= th < total && toTokens[th] < width && ColOf(c, t, toTokens[th]) < count;
      var i := toTokens[th];
      TurnAt(toSlots, th);
      TurnAt(toTokens, th);
      if toSlots[th] == i {
        sharedSlots[i] := SlotAt(c, g, t.expert, ColOf(c, t, i));
        TurnTakesOne(toSlots, th);
        TurnLowersTodo(toSlots, width, th);
        toSlots := Turn(toSlots, th);
      } else {
        sharedTokens[i] := TokenAt(c, g, t.expert, ColOf(c, t, i));
        StridesApart(toTokens, toSlots, th);
        TurnTakesOne(toTokens, th);
        TurnLowersTodo(toTokens, width, th);
        toTokens := Turn(toTokens, th);
      }
    }
    slots, tokens := sharedSlots[..], sharedTokens[..];
    var mine := if rest < width then rest else width;
    forall th | 0 <= th < total
      ensures toTokens[th] >= mine
    {
      assert toTokens[th] < rest <==> ColOf(c, t, toTokens[th]) < count;
    }
    AllTaken(toSlots, mine);
    AllTaken(toTokens, mine);
    forall b: nat {:trigger ColOf(c, t, b)} | b < width && ColOf(c, t, b) < count
      ensures Taken(toSlots, b) && Taken(toTokens, b)
    {
    }
  }

  /** One iteration of `init_shmem_src0`: the value for one cell of the weight tile. */
  method StagedWeight(c: Shape, d: Operands, t: Tile, kOuter: nat, cell: nat) returns (v: real)
    requires c.Valid() && d.Fits(c) && t.expert < c.nExpert
    ensures v == Want0(c, d, t, kOuter, cell)
  {
    var row, k := RowOf(c, t, StageRow(c, cell)), kOuter + StageStep(c, cell);
    v := 0.0;
    if row < c.m && k < c.k {
      assert d.Cell0(t.expert, row, k) < |d.src0|;
      v := d.src0[d.Cell0(t.expert, row, k)];
    }
  }

  /** One iteration of `init_shmem_id_src1`: a gathered activation, or padding. */
  method StagedActivation(c: Shape, r: Routing, d: Operands, g: Lists, t: Tile, rest: nat, kOuter: nat, cell: nat,
                          slots: seq<nat>, tokens: seq<nat>) returns (v: real)
    requires ListsOk(c, r, g) && d.Fits(c) && InTile(c, g, t) && SliceLoaded(c, g, t, slots, tokens)
    requires forall b: nat {:trigger ColOf(c, t, b)} :: b < rest <==> ColOf(c, t, b) < g.counts[t.expert]
    requires cell < Size1(c)
    ensures v == Want1(c, d, g, t, kOuter, cell)
  {
    var tileN, tileK := StageRow(c, cell), StageStep(c, cell);
    DivBound(cell, c.tileK, c.TileCols());
    v := 0.0;
    assert tileN < rest <==> ColOf(c, t, tileN) < g.counts[t.expert];
    if tileN < rest {
      var k := kOuter + tileK;
      var lane, token := LaneOf(c, slots[tileN]), tokens[tileN];
      if k < c.k {
        assert d.Cell1(token, lane, k) < |d.src1|;
        v := d.src1[d.Cell1(token, lane, k)];
      }
    }
  }

  ghost predicate StagedOk(c: Shape, d: Operands, g: Lists, t: Tile, kOuter: nat, sh: seq<real>)
    requires InTile(c, g, t)
  {
    && |sh| == Size0(c) + Size1(c)
    && (forall cell: nat {:trigger Want0(c, d, t, kOuter, cell)} :: cell < Size0(c) ==> sh[cell] == Want0(c, d, t, kOuter, cell))
    && (forall cell: nat {:trigger Want1(c, d, g, t, kOuter, cell)} :: cell < Size1(c) ==> sh[Size0(c) + cell] == Want1(c, d, g, t, kOuter, cell))
  }

  /**
    Between two barriers the threads stage one k-step: each first its stride of the weight tile and then
    its stride of the activation tile, while others may be in either. However they take turns, both
    padded tiles are complete at the barrier.
   */
  method Stage(c: Shape, r: Routing, d: Operands, g: Lists, t: Tile, rest: nat, kOuter: nat,
               slots: seq<nat>, tokens: seq<nat>, shmem: array<real>)
    requires InTile(c, g, t) && ListsOk(c, r, g) && d.Fits(c) && SliceLoaded(c, g, t, slots, tokens)
    requires forall b: nat {:trigger ColOf(c, t, b)} :: b < rest <==> ColOf(c, t, b) < g.counts[t.expert]
    requires shmem.Length == Size0(c) + Size1(c)
    modifies shmem
    ensures StagedOk(c, d, g, t, kOuter, shmem[..])
  {
    hide Want0, Want1, Lane, Taken, Turn, Todo, Shape.TileRows, Shape.TileCols, SliceLoaded, InTile, ListsOk, Operands.Fits;
    var total, size0, size1 := c.Threads(), Size0(c), Size1(c);
    var next0: seq<nat>, next1: seq<nat> := Starts(total), Starts(total);
    SomeThread(c, g, t);
    StartsAreStrided(total);
    while exists th :: 0 <= th < total && (next0[th] < size0 || next1[th] < size1)
      invariant |next0| == |next1| == total && Strided(next0) && Strided(next1)
      invariant forall cell: nat {:trigger Taken(next0, cell)} :: cell < size0 && Taken(next0, cell) ==>
                  shmem[cell] == Want0(c, d, t, kOuter, cell)
      invariant forall cell: nat {:trigger Taken(next1, cell)} :: cell < size1 && Taken(next1, cell) ==>
                  shmem[size0 + cell] == Want1(c, d, g, t, kOuter, cell)
      decreases Todo(next0, size0) + Todo(next1, size1)
    {
      var th :| 0 <= th < total && (next0[th] < size0 || next1[th] < size1);
      if next0[th] < size0 {
        var i := next0[th];
        shmem[i] := StagedWeight(c, d, t, kOuter, i);
        TurnTakesOne(next0, th);
        TurnLowersTodo(next0, size0, th);
        next0 := Turn(next0, th);
      } else {
        var i := next1[th];
        shmem[size0 + i] := StagedActivation(c, r, d, g, t, rest, kOuter, i, slots, tokens);
        TurnTakesOne(next1, th);
        TurnLowersTodo(next1, size1, th);
        next1 := Turn(next1, th);
      }
    }
    AllTaken(next0, size0);
    AllTaken(next1, size1);
    forall cell: nat {:trigger Want0(c, d, t, kOuter, cell)} | cell < size0
      ensures shmem[cell] == Want0(c, d, t, kOuter, cell)
    {
      assert Taken(next0, cell);
    }
    forall cell: nat {:trigger Want1(c, d, g, t, kOuter, cell)} | cell < size1
      ensures shmem[size0 + cell] == Want1(c, d, g, t, kOuter, cell)
    {
      assert Taken(next1, cell);
    }
  }

  // ----- multiplying what is staged -----

  function Get(sh: seq<real>, i: nat): real { if i < |sh| then sh[i] else 0.0 }

  /** The first `k` terms of the dot product for cell (a, b) of a tile. */
  function CellDot(c: Shape, d: Operands, g: Lists, t: Tile, a: nat, b: nat, k: nat): real
    requires c.bNe1 > 0
  {
    var n := ColOf(c, t, b);
    Dot(c, d, t.expert, RowOf(c, t, a), TokenAt(c, g, t.expert, n), SlotAt(c, g, t.expert, n), k)
  }

  /** The n-th staged operands are the next term of the dot product. */
  lemma StagedTerm(c: Shape, d: Operands, g: Lists, t: Tile, kOuter: nat, sh: seq<real>, a: nat, b: nat, n: nat)
    requires InTile(c, g, t) && StagedOk(c, d, g, t, kOuter, sh)
    requires a < c.TileRows() && RowOf(c, t, a) < c.m && b < c.TileCols() && ColOf(c, t, b) < g.counts[t.expert]
    requires n < c.tileK && kOuter + n < c.k
    ensures Get(sh, Staged(c, a, n)) == d.Weight(t.expert, RowOf(c, t, a), kOuter + n)
    ensures Get(sh, Size0(c) + Staged(c, b, n)) ==
            d.Activation(TokenAt(c, g, t.expert, ColOf(c, t, b)), LaneOf(c, SlotAt(c, g, t.expert, ColOf(c, t, b))), kOuter + n)
  {
    StagedCell(c, a, n, c.TileRows());
    StagedCell(c, b, n, c.TileCols());
    assert sh[Staged(c, a, n)] == Want0(c, d, t, kOuter, Staged(c, a, n));
    assert sh[Size0(c) + Staged(c, b, n)] == Want1(c, d, g, t, kOuter, Staged(c, b, n));
  }

  /** The accumulators of one thread. */
  type Registers = seq<seq<real>>

  ghost predicate Sized(c: Shape, acc: Registers) {
    |acc| == c.tileN && forall tn :: 0 <= tn < c.tileN ==> |acc[tn]| == c.tileM
  }

  /** The product thread `th` adds to accumulator (tn, tm) at inner step `kInner`. */
  function Term(c: Shape, sh: seq<real>, th: nat, kInner: nat, tn: nat, tm: nat): real
    requires c.wgM > 0
  {
    Get(sh, Staged(c, TileRow(c, th, tm), kInner)) * Get(sh, Size0(c) + Staged(c, TileCol(c, th, tn), kInner))
  }

  lemma StagedInBounds(c: Shape, th: nat, kInner: nat, tn: nat, tm: nat)
    requires c.Valid() && th < c.Threads() && kInner < c.tileK && tn < c.tileN && tm < c.tileM
    ensures Staged(c, TileRow(c, th, tm), kInner) < Size0(c)
    ensures Staged(c, TileCol(c, th, tn), kInner) < Size1(c)
  {
    TileCellInBounds(c, th, tn, tm);
    StagedCell(c, TileRow(c, th, tm), kInner, c.TileRows());
    StagedCell(c, TileCol(c, th, tn), kInner, c.TileCols());
  }

  /** The weights a thread reads into registers before it walks its columns. */
  method LoadWeights(c: Shape, th: nat, kInner: nat, shmem: array<real>) returns (weights: seq<real>)
    requires c.Valid() && th < c.Threads() && kInner < c.tileK && shmem.Length == Size0(c) + Size1(c)
    ensures |weights| == c.tileM
    ensures forall tm: nat :: tm < c.tileM ==> weights[tm] == Get(shmem[..], Staged(c, TileRow(c, th, tm), kInner))
  {
    weights := [];
    for tm := 0 to c.tileM
      invariant |weights| == tm
      invariant forall w: nat :: w < tm ==> weights[w] == Get(shmem[..], Staged(c, TileRow(c, th, w), kInner))
    {
      StagedInBounds(c, th, kInner, 0, tm);
      weights := weights + [shmem[Staged(c, TileRow(c, th, tm), kInner)]];
    }
  }

  /** Each accumulator of column `tn` has got the product of its row and column at step `kInner`. */
  ghost predicate Multiplied(c: Shape, sh: seq<real>, th: nat, kInner: nat, tn: nat, acc: seq<real>, now: seq<real>)
    requires c.wgM > 0
  {
    |acc| == |now| == c.tileM && forall tm: nat :: tm < c.tileM ==> now[tm] == acc[tm] + Term(c, sh, th, kInner, tn, tm)
  }

  /** One inner step of a thread: the outer product of a weight column and an activation column. */
  method MultiplyStep(c: Shape, th: nat, kInner: nat, shmem: array<real>, acc: Registers) returns (now: Registers)
    requires c.Valid() && th < c.Threads() && kInner < c.tileK
    requires shmem.Length == Size0(c) + Size1(c) && Sized(c, acc)
    ensures Sized(c, now)
    ensures forall tn: nat :: tn < c.tileN ==> Multiplied(c, shmem[..], th, kInner, tn, acc[tn], now[tn])
  {
    hide Term, Multiplied, Staged, TileRow, TileCol, Size0, Size1;
    SizesArePositive(c);
    var weights := LoadWeights(c, th, kInner, shmem);
    now := acc;
    for tn := 0 to c.tileN
      invariant Sized(c, now) && forall v :: tn <= v < c.tileN ==> now[v] == acc[v]
      invariant forall v: nat :: v < tn ==> Multiplied(c, shmem[..], th, kInner, v, acc[v], now[v])
    {
      StagedInBounds(c, th, kInner, tn, 0);
      var activation := shmem[Size0(c) + Staged(c, TileCol(c, th, tn), kInner)];
      var column := MultiplyColumn(c, th, kInner, tn, shmem[..], weights, activation, acc[tn]);
      now := now[tn := column];
    }
  }

  method MultiplyColumn(c: Shape, th: nat, kInner: nat, tn: nat, ghost sh: seq<real>, weights: seq<real>, activation: real,
                        acc: seq<real>) returns (now: seq<real>)
    requires c.Valid() && |weights| == |acc| == c.tileM
    requires forall tm: nat :: tm < c.tileM ==> weights[tm] == Get(sh, Staged(c, TileRow(c, th, tm), kInner))
    requires activation == Get(sh, Size0(c) + Staged(c, TileCol(c, th, tn), kInner))
    ensures |now| == c.tileM && Multiplied(c, sh, th, kInner, tn, acc, now)
  {
    now := acc;
    for tm := 0 to c.tileM
      invariant |now| == c.tileM && forall w :: tm <= w < c.tileM ==> now[w] == acc[w]
      invariant forall w: nat :: w < tm ==> now[w] == acc[w] + Term(c, sh, th, kInner, tn, w)
    {
      assert weights[tm] * activation == Term(c, sh, th, kInner, tn, tm);
      now := now[tm := now[tm] + weights[tm] * activation];
    }
  }

  /** Accumulators of cells that exist hold the first `k` terms of their dot products. */
  ghost predicate AccOk(c: Shape, d: Operands, g: Lists, t: Tile, th: nat, acc: Registers, k: nat)
    requires InTile(c, g, t)
  {
    && Sized(c, acc)
    && (forall tn: nat, tm: nat :: tn < c.tileN && tm < c.tileM ==> AccCellOk(c, d, g, t, th, tn, tm, acc[tn][tm], k))
  }

  ghost predicate AccCellOk(c: Shape, d: Operands, g: Lists, t: Tile, th: nat, tn: nat, tm: nat, value: real, k: nat)
    requires InTile(c, g, t)
  {
    RowOf(c, t, TileRow(c, th, tm)) < c.m && ColOf(c, t, TileCol(c, th, tn)) < g.counts[t.expert] ==>
      value == CellDot(c, d, g, t, TileRow(c, th, tm), TileCol(c, th, tn), k)
  }
  /** An inner step continues each dot product exactly where the thread's previous step stopped. */
  lemma InnerStepContinuesDot(c: Shape, d: Operands, g: Lists, t: Tile, kOuter: nat, sh: seq<real>, th: nat, kInner: nat,
                              acc: Registers, now: Registers)
    requires InTile(c, g, t) && StagedOk(c, d, g, t, kOuter, sh)
    requires th < c.Threads() && kInner < c.tileK && kOuter + kInner < c.k
    requires AccOk(c, d, g, t, th, acc, kOuter + kInner) && Sized(c, now)
    requires forall tn: nat :: tn < c.tileN ==> Multiplied(c, sh, th, kInner, tn, acc[tn], now[tn])
    ensures AccOk(c, d, g, t, th, now, kOuter + kInner + 1)
  {
    hide StagedOk, RowOf, ColOf, SlotAt, TokenAt, Staged, LaneOf, Get, Operands.Weight, Operands.Activation;
    forall tn: nat, tm: nat | tn < c.tileN && tm < c.tileM
      ensures AccCellOk(c, d, g, t, th, tn, tm, now[tn][tm], kOuter + kInner + 1)
    {
      var a, b := TileRow(c, th, tm), TileCol(c, th, tn);
      assert AccCellOk(c, d, g, t, th, tn, tm, acc[tn][tm], kOuter + kInner);
      assert Multiplied(c, sh, th, kInner, tn, acc[tn], now[tn]);
      TileCellInBounds(c, th, tn, tm);
      if RowOf(c, t, a) < c.m && ColOf(c, t, b) < g.counts[t.expert] {
        StagedTerm(c, d, g, t, kOuter, sh, a, b, kInner);
      }
    }
  }

  /** Between the next two barriers the threads multiply what is staged, each at its own pace. */
  method Multiply(c: Shape, d: Operands, g: Lists, t: Tile, kOuter: nat, shmem: array<real>, acc: array<Registers>) returns (k: nat)
    requires InTile(c, g, t) && acc.Length == c.Threads() && kOuter < c.k
    requires StagedOk(c, d, g, t, kOuter, shmem[..])
    requires forall th: nat :: th < c.Threads() ==> AccOk(c, d, g, t, th, acc[th], kOuter)
    modifies acc
    ensures k == if c.k - kOuter < c.tileK then c.k else kOuter + c.tileK
    ensures forall th: nat :: th < c.Threads() ==> AccOk(c, d, g, t, th, acc[th], k)
  {
    hide AccOk, StagedOk, InTile, Multiplied;
    var total := c.Threads();
    var kEnd := if c.tileK < c.k - kOuter then c.tileK else c.k - kOuter;
    k := kOuter + kEnd;
    var kInner: seq<nat> := Zeros(total);
    SomeThread(c, g, t);
    StagedSize(c, d, g, t, kOuter, shmem[..]);
    while exists th :: 0 <= th < total && kInner[th] < kEnd
      invariant |kInner| == total
      invariant forall th: nat :: th < total ==> kInner[th] <= kEnd && AccOk(c, d, g, t, th, acc[th], kOuter + kInner[th])
      decreases Todo(kInner, kEnd)
    {
      var th :| 0 <= th < total && kInner[th] < kEnd;
      AccSized(c, d, g, t, th, acc[th], kOuter + kInner[th]);
      var now := MultiplyStep(c, th, kInner[th], shmem, acc[th]);
      InnerStepContinuesDot(c, d, g, t, kOuter, shmem[..], th, kInner[th], acc[th], now);
      acc[th] := now;
      StepLowersTodo(kInner, kEnd, th, kInner[th] + 1);
      kInner := kInner[th := kInner[th] + 1];
    }
  }

  lemma StagedSize(c: Shape, d: Operands, g: Lists, t: Tile, kOuter: nat, sh: seq<real>)
    requires InTile(c, g, t) && StagedOk(c, d, g, t, kOuter, sh)
    ensures |sh| == Size0(c) + Size1(c)
  {
  }

  lemma AccSized(c: Shape, d: Operands, g: Lists, t: Tile, th: nat, acc: Registers, k: nat)
    requires InTile(c, g, t) && AccOk(c, d, g, t, th, acc, k)
    ensures Sized(c, acc)
  {
  }

  // ----- a workgroup up to its stores -----

  /** What a workgroup has worked out when its threads start to store. */
  datatype Workgroup = Idle | Working(tile: Tile, slots: seq<nat>, tokens: seq<nat>, acc: seq<Registers>)

  /** The workgroup with this id has its tile, its slice of the list, and every thread the whole dot products. */
  ghost predicate Computed(c: Shape, d: Operands, g: Lists, id: nat, w: Workgroup)
    requires c.Valid() && |g.counts| == c.nExpert
  {
    match w
    case Idle => id >= WgBefore(GridOf(c), g.counts, c.nExpert)
    case Working(t, slots, tokens, acc) =>
      && IsTile(GridOf(c), g.counts, t) && LinearOf(GridOf(c), g.counts, t) == id
      && SliceLoaded(c, g, t, slots, tokens) && |acc| == c.Threads()
      && (forall th: nat :: th < c.Threads() ==> AccOk(c, d, g, t, th, acc[th], c.k))
  }

  /** The body of a workgroup that has found its tile, up to its stores: stage and multiply per k-step. */
  method Accumulate(c: Shape, r: Routing, d: Operands, g: Lists, t: Tile) returns (slots: seq<nat>, tokens: seq<nat>, acc: seq<Registers>)
    requires ListsOk(c, r, g) && d.Fits(c) && InTile(c, g, t)
    ensures SliceLoaded(c, g, t, slots, tokens) && |acc| == c.Threads()
    ensures forall th: nat :: th < c.Threads() ==> AccOk(c, d, g, t, th, acc[th], c.k)
  {
    hide SliceLoaded, StagedOk, ListsOk, IsTile;
    SomeThread(c, g, t);
    SizesArePositive(c);
    var rest := RestOf(c, g, t);
    slots, tokens := LoadGathered(c, r, g, t);
    var shmem := new real[Size0(c) + Size1(c)];
    var zeros := seq(c.tileN, tn => seq(c.tileM, tm => 0.0));
    var sums := new Registers[c.Threads()](th => zeros);
    forall th: nat | th < c.Threads()
      ensures AccOk(c, d, g, t, th, zeros, 0)
    {
    }
    var kOuter: nat := 0;
    while kOuter < c.k
      invariant kOuter <= c.k
      invariant forall th: nat :: th < c.Threads() ==> AccOk(c, d, g, t, th, sums[th], kOuter)
      decreases c.k - kOuter
    {
      Stage(c, r, d, g, t, rest, kOuter, slots, tokens, shmem);
      kOuter := Multiply(c, d, g, t, kOuter, shmem, sums);
    }
    acc := sums[..];
  }

  /**
    One workgroup up to its stores. It touches no memory but its own, so what other workgroups do
    meanwhile makes no difference. Past the last tile it has nothing to do.
   */
  method RunWorkgroup(c: Shape, r: Routing, d: Operands, g: Lists, id: nat) returns (w: Workgroup)
    requires ListsOk(c, r, g) && d.Fits(c)
    ensures Computed(c, d, g, id, w)
  {
    hide AccOk, SliceLoaded;
    var grid := GridOf(c);
    var expertIdx, row, col := FindTile(grid, g.counts, id);
    if expertIdx == 0xFFFF_FFFF {
      return Idle;
    }
    var t := Tile(expertIdx, row, col);
    var slots, tokens, acc := Accumulate(c, r, d, g, t);
    return Working(t, slots, tokens, acc);
  }

  method RunWorkgroups(c: Shape, r: Routing, d: Operands, g: Lists, launched: nat) returns (groups: seq<Workgroup>)
    requires ListsOk(c, r, g) && d.Fits(c)
    ensures |groups| == launched && forall i: nat :: i < launched ==> Computed(c, d, g, i, groups[i])
  {
    hide Computed;
    groups := [];
    for id := 0 to launched
      invariant |groups| == id && forall i: nat :: i < id ==> Computed(c, d, g, i, groups[i])
    {
      var w := RunWorkgroup(c, r, d, g, id);
      groups := groups + [w];
    }
  }

  // ----- storing -----

  /** Output cells changed only where the tile owns them, and then to the naive product. */
  ghost predicate Kept(c: Shape, r: Routing, d: Operands, g: Lists, t: Tile, before: seq<real>, after: seq<real>)
    requires c.Valid()
  {
    && |before| == |after|
    && (forall row: nat, slot: nat, token: nat {:trigger DstCell(c, d, row, slot, token)} ::
          row < c.m && slot < c.nUsed && token < c.nTokens ==>
            || Get(after, DstCell(c, d, row, slot, token)) == Get(before, DstCell(c, d, row, slot, token))
            || (TileHits(c, g, t, row, slot, token) && Get(after, DstCell(c, d, row, slot, token)) == Naive(c, r, d, row, slot, token)))
    && (forall i :: 0 <= i < |before| && (i < d.offsetDst || i >= d.offsetDst + c.Pairs() * c.m) ==> after[i] == before[i])
  }

  ghost predicate CellDone(c: Shape, r: Routing, d: Operands, g: Lists, t: Tile, a: nat, b: nat, after: seq<real>)
    requires c.Valid() && t.expert < |g.counts|
  {
    var row, n := RowOf(c, t, a), ColOf(c, t, b);
    row < c.m && n < g.counts[t.expert] ==>
      var slot, token := SlotAt(c, g, t.expert, n), TokenAt(c, g, t.expert, n);
      Get(after, DstCell(c, d, row, slot, token)) == Naive(c, r, d, row, slot, token)
  }

  lemma StoreIsKept(c: Shape, r: Routing, d: Operands, g: Lists, t: Tile, a: nat, b: nat, before: seq<real>, value: real)
    requires ListsOk(c, r, g) && InTile(c, g, t) && |before| >= d.offsetDst + c.Pairs() * c.m
    requires a < c.TileRows() && b < c.TileCols() && RowOf(c, t, a) < c.m && ColOf(c, t, b) < g.counts[t.expert]
    requires value == CellDot(c, d, g, t, a, b, c.k)
    ensures var n := ColOf(c, t, b);
            var cell := DstCell(c, d, RowOf(c, t, a), SlotAt(c, g, t.expert, n), TokenAt(c, g, t.expert, n));
            cell < |before| && Kept(c, r, d, g, t, before, before[cell := value]) && CellDone(c, r, d, g, t, a, b, before[cell := value])
  {
    var row, n := RowOf(c, t, a), ColOf(c, t, b);
    var slot, token := SlotAt(c, g, t.expert, n), TokenAt(c, g, t.expert, n);
    var cell := DstCell(c, d, row, slot, token);
    DstCellInBounds(c, d, row, slot, token);
    assert Hits(c, g, t, a, b, row, slot, token);
    forall row': nat, slot': nat, token': nat {:trigger DstCell(c, d, row', slot', token')}
      | row' < c.m && slot' < c.nUsed && token' < c.nTokens && DstCell(c, d, row', slot', token') == cell
      ensures row' == row && slot' == slot && token' == token
    {
      DstCellUnique(c, d, row, slot, token, row', slot', token');
    }
  }

  lemma DoneStays(c: Shape, r: Routing, d: Operands, g: Lists, t: Tile, a: nat, b: nat, u: Tile, y: seq<real>, z: seq<real>)
    requires ListsOk(c, r, g) && InTile(c, g, t) && Kept(c, r, d, g, u, y, z) && CellDone(c, r, d, g, t, a, b, y)
    ensures CellDone(c, r, d, g, t, a, b, z)
  {
  }
  /** One turn of the last loops: thread `th` stores its accumulator (tn, tm), if the tile has that cell. */
  method StoreCell(c: Shape, r: Routing, d: Operands, g: Lists, w: Workgroup, th: nat, tn: nat, tm: nat, dst: array<real>)
    requires ListsOk(c, r, g) && dst.Length >= d.offsetDst + c.Pairs() * c.m
    requires w.Working? && InTile(c, g, w.tile) && SliceLoaded(c, g, w.tile, w.slots, w.tokens)
    requires th < c.Threads() == |w.acc| && tn < c.tileN && tm < c.tileM && AccOk(c, d, g, w.tile, th, w.acc[th], c.k)
    modifies dst
    ensures Kept(c, r, d, g, w.tile, old(dst[..]), dst[..])
    ensures CellDone(c, r, d, g, w.tile, TileRow(c, th, tm), TileCol(c, th, tn), dst[..])
  {
    hide Kept, CellDone, Naive;
    var t, a, b := w.tile, TileRow(c, th, tm), TileCol(c, th, tn);
    TileCellInBounds(c, th, tn, tm);
    assert AccCellOk(c, d, g, t, th, tn, tm, w.acc[th][tn][tm], c.k);
    ghost var before := dst[..];
    if ColOf(c, t, b) < g.counts[t.expert] && RowOf(c, t, a) < c.m {
      var slot, token := w.slots[b], w.tokens[b];
      StoreIsKept(c, r, d, g, t, a, b, before, w.acc[th][tn][tm]);
      dst[DstCell(c, d, RowOf(c, t, a), slot, token)] := w.acc[th][tn][tm];
      assert dst[..] == before[DstCell(c, d, RowOf(c, t, a), slot, token) := w.acc[th][tn][tm]];
    } else {
      NothingStored(c, r, d, g, t, a, b, before);
    }
  }

  lemma NothingStored(c: Shape, r: Routing, d: Operands, g: Lists, t: Tile, a: nat, b: nat, now: seq<real>)
    requires InTile(c, g, t) && !(ColOf(c, t, b) < g.counts[t.expert] && RowOf(c, t, a) < c.m)
    ensures Kept(c, r, d, g, t, now, now) && CellDone(c, r, d, g, t, a, b, now)
  {
  }

  // ----- the dispatch -----

  /** Every output cell holds the naive product, and nothing else in the buffer changed. */
  ghost predicate AllNaive(c: Shape, r: Routing, d: Operands, before: seq<real>, after: seq<real>)
    requires c.Valid()
  {
    && |before| == |after|
    && (forall row: nat, slot: nat, token: nat {:trigger DstCell(c, d, row, slot, token)} ::
          row < c.m && slot < c.nUsed && token < c.nTokens ==>
            Get(after, DstCell(c, d, row, slot, token)) == Naive(c, r, d, row, slot, token))
    && (forall i :: 0 <= i < |before| && (i < d.offsetDst || i >= d.offsetDst + c.Pairs() * c.m) ==> after[i] == before[i])
  }
  /** A store some thread of some workgroup has to make. */
  datatype Store = Store(id: nat, th: nat, tn: nat, tm: nat)

  predicate IsStore(c: Shape, groups: seq<Workgroup>, s: Store) {
    s.id < |groups| && groups[s.id].Working? && s.th < c.Threads() && s.tn < c.tileN && s.tm < c.tileM
  }

  function Stores(c: Shape, groups: seq<Workgroup>): (stores: set<Store>)
    ensures forall s :: s in stores <==> IsStore(c, groups, s)
  {
    set id: nat, th: nat, tn: nat, tm: nat
      | id < |groups| && th < c.Threads() && tn < c.tileN && tm < c.tileM && IsStore(c, groups, Store(id, th, tn, tm))
      :: Store(id, th, tn, tm)
  }

  /** The store has been made, and nothing has destroyed it. */
  ghost predicate StoreDone(c: Shape, r: Routing, d: Operands, g: Lists, groups: seq<Workgroup>, s: Store, now: seq<real>)
    requires c.Valid() && IsStore(c, groups, s)
  {
    groups[s.id].tile.expert < |g.counts|
    && CellDone(c, r, d, g, groups[s.id].tile, TileRow(c, s.th, s.tm), TileCol(c, s.th, s.tn), now)
  }

  /** All stores but the pending ones are made, and nothing but the output has changed. */
  ghost predicate Written(c: Shape, r: Routing, d: Operands, g: Lists, groups: seq<Workgroup>, pending: set<Store>,
                          start: seq<real>, now: seq<real>)
    requires c.Valid()
  {
    && pending <= Stores(c, groups) && |start| == |now|
    && (forall s :: s in Stores(c, groups) && s !in pending ==> StoreDone(c, r, d, g, groups, s, now))
    && (forall i :: 0 <= i < |now| && (i < d.offsetDst || i >= d.offsetDst + c.Pairs() * c.m) ==> now[i] == start[i])
  }

  /** A store destroys none of the others. */
  lemma StoreWrites(c: Shape, r: Routing, d: Operands, g: Lists, groups: seq<Workgroup>, pending: set<Store>, s: Store,
                    start: seq<real>, before: seq<real>, now: seq<real>)
    requires ListsOk(c, r, g) && forall i: nat :: i < |groups| ==> Computed(c, d, g, i, groups[i])
    requires Written(c, r, d, g, groups, pending, start, before) && s in pending
    requires InTile(c, g, groups[s.id].tile) && Kept(c, r, d, g, groups[s.id].tile, before, now)
    requires CellDone(c, r, d, g, groups[s.id].tile, TileRow(c, s.th, s.tm), TileCol(c, s.th, s.tn), now)
    ensures Written(c, r, d, g, groups, pending - {s}, start, now)
  {
    hide CellDone, AccOk, SliceLoaded, Naive, LinearOf, WgBefore, IdsOk, TileRow, TileCol, Gathered;
    forall u | u in Stores(c, groups) && u !in pending - {s}
      ensures StoreDone(c, r, d, g, groups, u, now)
    {
      assert Computed(c, d, g, u.id, groups[u.id]);
      if u != s {
        assert StoreDone(c, r, d, g, groups, u, before);
        DoneStays(c, r, d, g, groups[u.id].tile, TileRow(c, u.th, u.tm), TileCol(c, u.th, u.tn), groups[s.id].tile, before, now);
      }
    }
  }

  /**
    The main kernel's launch. The stores of all threads of all workgroups are made in any order. With at
    least as many workgroups as there are tiles, the output is the naive product.
   */
  method Launch(c: Shape, r: Routing, d: Operands, g: Lists, launched: nat, dst: array<real>)
    requires ListsOk(c, r, g) && d.Fits(c) && dst.Length >= d.offsetDst + c.Pairs() * c.m
    requires launched >= WgBefore(GridOf(c), g.counts, c.nExpert)
    modifies dst
    ensures AllNaive(c, r, d, old(dst[..]), dst[..])
  {
    hide CellDone, AccOk, SliceLoaded, Naive, LinearOf, WgBefore, IdsOk, Kept, TileRow, TileCol, Gathered, StoresCell;
    var groups := RunWorkgroups(c, r, d, g, launched);
    var pending := Stores(c, groups);
    while pending != {}
      invariant Written(c, r, d, g, groups, pending, old(dst[..]), dst[..])
      decreases |pending|
    {
      var s :| s in pending;
      ghost var before := dst[..];
      assert Computed(c, d, g, s.id, groups[s.id]) && InTile(c, g, groups[s.id].tile);
      StoreCell(c, r, d, g, groups[s.id], s.th, s.tn, s.tm, dst);
      StoreWrites(c, r, d, g, groups, pending, s, old(dst[..]), before, dst[..]);
      pending := pending - {s};
    }
    forall row: nat, slot: nat, token: nat {:trigger DstCell(c, d, row, slot, token)} | row < c.m && slot < c.nUsed && token < c.nTokens
      ensures Get(dst[..], DstCell(c, d, row, slot, token)) == Naive(c, r, d, row, slot, token)
    {
      var s := WhoStores(c, r, d, g, groups, row, slot, token);
      StoredIsNaive(c, r, d, g, groups, s, row, slot, token, dst[..]);
    }
  }

  ghost predicate StoresCell(c: Shape, g: Lists, groups: seq<Workgroup>, s: Store, row: nat, slot: nat, token: nat)
    requires c.Valid()
  {
    IsStore(c, groups, s) && Hits(c, g, groups[s.id].tile, TileRow(c, s.th, s.tm), TileCol(c, s.th, s.tn), row, slot, token)
  }

  /** Every output cell has a store. */
  lemma WhoStores(c: Shape, r: Routing, d: Operands, g: Lists, groups: seq<Workgroup>, row: nat, slot: nat, token: nat) returns (s: Store)
    requires ListsOk(c, r, g) && row < c.m && slot < c.nUsed && token < c.nTokens
    requires |groups| >= WgBefore(GridOf(c), g.counts, c.nExpert)
    requires forall i: nat :: i < |groups| ==> Computed(c, d, g, i, groups[i])
    ensures StoresCell(c, g, groups, s, row, slot, token)
  {
    hide Hits, LinearOf, WgBefore, TileRow, TileCol, GridOf, IdsOk, RowTiles, ColTiles, AccOk, SliceLoaded;
    var id, t, th, tn, tm := EachCellHasOneWriter(c, r, g, row, slot, token);
    assert Computed(c, d, g, id, groups[id]);
    TilesHaveOwnIds(GridOf(c), g.counts, t, groups[id].tile);
    s := Store(id, th, tn, tm);
  }

  lemma StoredIsNaive(c: Shape, r: Routing, d: Operands, g: Lists, groups: seq<Workgroup>, s: Store,
                      row: nat, slot: nat, token: nat, now: seq<real>)
    requires c.Valid() && StoresCell(c, g, groups, s, row, slot, token)
    requires forall u :: u in Stores(c, groups) ==> StoreDone(c, r, d, g, groups, u, now)
    ensures Get(now, DstCell(c, d, row, slot, token)) == Naive(c, r, d, row, slot, token)
  {
    assert StoreDone(c, r, d, g, groups, s, now);
  }

  /**
    `MUL_MAT_ID`: the gather launch, then the main launch with at least the number of workgroups
    the host computed. For every shape, routing and scheduling, the output is the naive product.
   */
  method MulMatId(c: Shape, r: Routing, d: Operands, maxPerDim: nat, counters: seq<nat>, launched: nat,
                  used: array<nat>, tokens: array<nat>, counts: array<nat>, dst: array<real>)
    requires c.Valid() && r.Valid(c) && d.Fits(c) && maxPerDim > 0
    requires |counters| == MoeGather.GatherLaunch(c, maxPerDim).0 * MoeGather.GatherLaunch(c, maxPerDim).1
    requires used.Length == tokens.Length == c.nExpert * c.nTokens && counts.Length == c.nExpert
    requires used != tokens && used != counts && tokens != counts
    requires launched >= HostWorkgroups(GridOf(c)) && dst.Length >= d.offsetDst + c.Pairs() * c.m
    modifies used, tokens, counts, dst
    ensures AllNaive(c, r, d, old(dst[..]), dst[..])
    ensures forall row: nat, token: nat, lane: nat, turn: nat :: CellIs(c, r, d, dst[..], row, token, lane, turn)
  {
    MoeGather.Gather(c, r, maxPerDim, counters, used, tokens, counts);
    var g := Lists(used[..], tokens[..], counts[..]);
    GatheredIds(c, r, g);
    HostLaunchesEveryTile(GridOf(c), g.counts);
    Launch(c, r, d, g, launched, dst);
    forall row: nat, token: nat, lane: nat, turn: nat
      ensures CellIs(c, r, d, dst[..], row, token, lane, turn)
    {
      NaiveIsProduct(c, r, d, dst[..], row, token, lane, turn);
    }
  }
}
