/**
  Integer facts shared by the models: division, rounding up, sums of sequences, powers of two and
  the size of a duplicate-free sequence.
*/
module Arith {

  /** The `CEIL_DIV` the host and the kernels spell `(a + b - 1) / b`. */
  function CeilDiv(a: nat, b: nat): (q: nat)
    requires b > 0
  {
    (a + b - 1) / b
  }

  lemma MulLe(a: int, b: int, c: int)
    requires a <= b && 0 <= c
    ensures a * c <= b * c
  {
  }

  lemma MulLeft(c: int, a: int, b: int)
    requires a <= b && 0 <= c
    ensures c * a <= c * b
  {
  }

  /** Quotient and remainder are the only way to split a number along a divisor. */
  lemma DivModUnique(n: int, q: int, r: int, d: int)
    requires 0 <= r < d && n == q * d + r
    ensures n / d == q && n % d == r
  {
    var e := n / d - q;
    assert n == (n / d) * d + n % d;
    assert e * d == r - n % d;
    if e >= 1 {
      MulLe(1, e, d);
      assert false;
    } else if e <= -1 {
      MulLe(e, -1, d);
      assert false;
    }
  }

  /** Rows of a row-major table never overlap. */
  lemma RowMajorUnique(i: int, j: int, i': int, j': int, w: int)
    requires 0 <= j < w && 0 <= j' < w && i * w + j == i' * w + j'
    ensures i == i' && j == j'
  {
    DivModUnique(i * w + j, i, j, w);
    DivModUnique(i' * w + j', i', j', w);
  }

  lemma RowMajorBound(i: int, j: int, h: int, w: int)
    requires 0 <= i < h && 0 <= j < w
    ensures 0 <= i * w + j < h * w
  {
    MulLe(i + 1, h, w);
    MulLe(0, i, w);
  }

  lemma DivModOf(n: nat, d: nat)
    requires d > 0
    ensures n == (n / d) * d + n % d && 0 <= n % d < d && 0 <= n / d <= n
  {
    if n / d > n {
      MulLe(n + 1, n / d, d);
      MulLe(1, d, n + 1);
      assert false;
    }
  }

  lemma DivBound(n: nat, d: nat, h: nat)
    requires d > 0 && n < h * d
    ensures n / d < h
  {
  }

  /** Which of `d` strided threads handles index `i`. */
  function Lane(i: nat, d: nat): (t: nat)
    requires d > 0
    ensures t < d
  {
    i % d
  }

  lemma MulDistr(a: int, b: int, c: int)
    ensures (a + b) * c == a * c + b * c && c * (a + b) == c * a + c * b
  {
  }

  lemma DivAtLeast(n: nat, q: nat, d: nat)
    requires d > 0 && q * d <= n
    ensures q <= n / d
  {
    DivModOf(n, d);
    if n / d < q {
      MulLe(n / d + 1, q, d);
      assert false;
    }
  }

  /** A thread that strides by `d` meets exactly one of its indices in every window of `d`. */
  lemma StrideUnique(i: nat, j: nat, d: nat)
    requires 0 < d && Lane(i, d) == Lane(j, d) && i <= j < i + d
    ensures i == j
  {
    assert i == (i / d) * d + i % d;
    assert j == (j / d) * d + j % d;
    var e := j / d - i / d;
    assert e * d == j - i;
    if e >= 1 {
      MulLe(1, e, d);
      assert false;
    } else if e <= -1 {
      MulLe(e, -1, d);
      assert false;
    }
  }

  lemma StrideNext(i: nat, d: nat)
    requires 0 < d
    ensures Lane(i + d, d) == Lane(i, d)
  {
    DivModUnique(i + d, i / d + 1, i % d, d);
  }

  lemma LaneOfStart(t: nat, i: nat, d: nat)
    requires t < d
    ensures Lane(t, d) == t
    ensures i <= t && Lane(i, d) == t ==> i == t
  {
  }

  /** `CeilDiv(a, b)` counts the multiples of `b` below `a`. */
  lemma CeilDivCounts(a: nat, b: nat, j: nat)
    requires b > 0
    ensures j < CeilDiv(a, b) <==> j * b < a
  {
    var q := CeilDiv(a, b);
    DivModOf(a + b - 1, b);
    if j < q {
      MulLe(j + 1, q, b);
    } else {
      MulLe(q, j, b);
    }
  }

  function Sum(s: seq<nat>): (total: nat) {
    if s == [] then 0 else s[0] + Sum(s[1..])
  }

  lemma {:induction false} SumUpdate(s: seq<nat>, i: nat, v: nat)
    requires i < |s|
    ensures Sum(s[i := v]) == Sum(s) - s[i] + v
  {
    if i == 0 {
      assert s[i := v][1..] == s[1..];
    } else {
      assert s[i := v][1..] == s[1..][i - 1 := v];
      SumUpdate(s[1..], i - 1, v);
    }
  }

  lemma {:induction false} SumZero(s: seq<nat>)
    requires forall i :: 0 <= i < |s| ==> s[i] == 0
    ensures Sum(s) == 0
  {
    if s != [] {
      SumZero(s[1..]);
    }
  }

  ghost predicate Distinct<T>(s: seq<T>) {
    forall i, j :: 0 <= i < j < |s| ==> s[i] != s[j]
  }

  ghost function ToSet<T>(s: seq<T>): set<T> {
    set i | 0 <= i < |s| :: s[i]
  }

  lemma {:induction false} DistinctSize<T>(s: seq<T>)
    requires Distinct(s)
    ensures |ToSet(s)| == |s|
  {
    if s == [] {
      assert ToSet(s) == {};
    } else {
      var head, last := s[..|s| - 1], s[|s| - 1];
      DistinctSize(head);
      assert last !in ToSet(head);
      ToSetSnoc(head, last);
      assert s == head + [last];
    }
  }

  lemma ToSetSnoc<T>(s: seq<T>, x: T)
    ensures ToSet(s + [x]) == ToSet(s) + {x}
  {
    var t := s + [x];
    assert forall i :: 0 <= i < |s| ==> t[i] == s[i];
    assert t[|s|] == x;
  }

  function Below(n: nat): (s: set<nat>)
    ensures forall i :: i in s <==> 0 <= i < n
    ensures |s| == n
  {
    if n == 0 then {} else Below(n - 1) + {n - 1}
  }

  lemma {:induction false} SubsetSize<T>(a: set<T>, b: set<T>)
    requires a <= b
    ensures |a| <= |b|
  {
    if a != {} {
      var x :| x in a;
      SubsetSize(a - {x}, b - {x});
    }
  }

  function Pow2(n: nat): (p: nat)
    ensures p >= 1
  {
    if n == 0 then 1 else 2 * Pow2(n - 1)
  }
}
