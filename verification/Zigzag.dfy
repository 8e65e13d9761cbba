/** The order in which codeword bits are placed, ISO/IEC 18004:2015 section 7.7.3. */
module Zigzag {
  import opened Common

  datatype Cell = Cell(x: int, y: int)

  lemma DistinctAppend<T>(a: seq<T>, b: seq<T>)
    requires Distinct(a) && Distinct(b) && forall t :: t in a ==> t !in b
    ensures Distinct(a + b)
  {
    forall i, j | 0 <= i < j < |a + b| ensures (a + b)[i] != (a + b)[j] {
      if i < |a| && |a| <= j { assert a[i] in a && b[j - |a|] in b; }
    }
  }

  /** The right column of pass p: the pairs run from the right edge, and the timing column 6 is skipped. */
  function RightOf(n: nat, p: nat): int {
    if n - 1 - 2 * p > 6 then n - 1 - 2 * p else n - 2 - 2 * p
  }

  /** ((right + 1) & 2) == 0. */
  predicate Upward(right: int) { (right + 1) / 2 % 2 == 0 }

  function RowOf(n: nat, right: int, vert: nat): int {
    if Upward(right) then n - 1 - vert else vert
  }

  /** The first `rows` rows of a column pair. */
  function PairPath(n: nat, right: int, rows: nat): (s: seq<Cell>)
    decreases rows
  {
    if rows == 0 then []
    else
      var y := RowOf(n, right, rows - 1);
      PairPath(n, right, rows - 1) + [Cell(right, y), Cell(right - 1, y)]
  }

  function Path(n: nat, passes: nat): seq<Cell>
    decreases passes
  {
    if passes == 0 then [] else Path(n, passes - 1) + PairPath(n, RightOf(n, passes - 1), n)
  }

  /** The whole zigzag over a symbol of n by n modules. */
  function Whole(n: nat): seq<Cell> { Path(n, n / 2) }

  predicate InRows(n: nat, right: int, rows: nat, y: int) {
    if Upward(right) then n - rows <= y < n else 0 <= y < rows
  }

  lemma {:induction false} PairPathIs(n: nat, right: int, rows: nat)
    requires rows <= n
    ensures Distinct(PairPath(n, right, rows))
    ensures forall c: Cell :: c in PairPath(n, right, rows) <==>
      c.x in {right, right - 1} && InRows(n, right, rows, c.y)
    decreases rows
  {
    if rows > 0 {
      PairPathIs(n, right, rows - 1);
      var y := RowOf(n, right, rows - 1);
      DistinctAppend(PairPath(n, right, rows - 1), [Cell(right, y), Cell(right - 1, y)]);
    }
  }

  /** The columns covered by the first passes. */
  predicate InPasses(n: nat, passes: nat, x: int) {
    && x < n && x != 6
    && (if n - 1 - 2 * passes >= 6 then x > n - 1 - 2 * passes else x >= n - 1 - 2 * passes)
  }

  /** The module is in the columns of pass p. */
  predicate InPair(n: nat, p: nat, x: int) { x == RightOf(n, p) || x == RightOf(n, p) - 1 }

  lemma PassCovers(n: nat, p: nat, x: int)
    requires n % 2 == 1 && n >= 7 && p < n / 2
    ensures InPasses(n, p + 1, x) <==> InPasses(n, p, x) || InPair(n, p, x)
    ensures !(InPasses(n, p, x) && InPair(n, p, x))
    ensures !InPasses(n, 0, x)
  {}

  lemma PassIs(n: nat, p: nat)
    ensures Distinct(PairPath(n, RightOf(n, p), n))
    ensures forall c: Cell :: c in PairPath(n, RightOf(n, p), n) <==> InPair(n, p, c.x) && 0 <= c.y < n
  {
    PairPathIs(n, RightOf(n, p), n);
    hide RightOf, PairPath, Distinct;
  }

  lemma PathNext(n: nat, p: nat)
    ensures Path(n, p + 1) == Path(n, p) + PairPath(n, RightOf(n, p), n)
  {}

  lemma {:induction false} PathIs(n: nat, passes: nat)
    requires n % 2 == 1 && n >= 7 && passes <= n / 2
    ensures Distinct(Path(n, passes))
    ensures forall c: Cell :: c in Path(n, passes) <==> InPasses(n, passes, c.x) && 0 <= c.y < n
    decreases passes
  {
    if passes == 0 {
      hide RightOf, PairPath, InPasses;
      forall x ensures !InPasses(n, 0, x) { PassCovers(n, 0, x); }
    } else {
      hide *;
      var p := passes - 1;
      PathIs(n, p);
      PassIs(n, p);
      PathNext(n, p);
      forall c: Cell
        ensures c in PairPath(n, RightOf(n, p), n) ==> c !in Path(n, p)
        ensures c in Path(n, passes) <==> InPasses(n, passes, c.x) && 0 <= c.y < n
      {
        PassCovers(n, p, c.x);
      }
      DistinctAppend(Path(n, p), PairPath(n, RightOf(n, p), n));
    }
  }

  /** On any odd side of at least 7 the zigzag visits every module outside column 6 exactly once. */
  lemma WholeIs(n: nat)
    requires n % 2 == 1 && n >= 7
    ensures Distinct(Whole(n))
    ensures forall c: Cell :: c in Whole(n) <==> 0 <= c.x < n && c.x != 6 && 0 <= c.y < n
  {
    PathIs(n, n / 2);
  }

  // The order of the visit.

  lemma {:induction false} PairPathLength(n: nat, right: int, rows: nat)
    ensures |PairPath(n, right, rows)| == 2 * rows
    decreases rows
  {
    if rows > 0 { PairPathLength(n, right, rows - 1); }
  }

  lemma {:induction false} PairPathAt(n: nat, right: int, rows: nat, r: nat, j: nat)
    requires r < rows && j < 2
    ensures 2 * r + j < |PairPath(n, right, rows)|
    ensures PairPath(n, right, rows)[2 * r + j] == Cell(right - j, RowOf(n, right, r))
    decreases rows
  {
    PairPathLength(n, right, rows - 1);
    if r < rows - 1 { PairPathAt(n, right, rows - 1, r, j); }
  }

  lemma {:induction false} PathLength(n: nat, passes: nat)
    ensures |Path(n, passes)| == 2 * n * passes
    decreases passes
  {
    hide RightOf, PairPath;
    if passes > 0 {
      PathLength(n, passes - 1);
      PairPathLength(n, RightOf(n, passes - 1), n);
      assert 2 * n * passes == 2 * n * (passes - 1) + 2 * n;
    }
  }

  lemma {:induction false} PathAt(n: nat, passes: nat, p: nat, i: nat)
    requires p < passes && i < 2 * n
    ensures 2 * n * p + i < |Path(n, passes)| && i < |PairPath(n, RightOf(n, p), n)|
    ensures Path(n, passes)[2 * n * p + i] == PairPath(n, RightOf(n, p), n)[i]
    decreases passes
  {
    hide RightOf, PairPath;
    PathLength(n, passes - 1);
    if p < passes - 1 { PathAt(n, passes - 1, p, i); } else { PairPathLength(n, RightOf(n, p), n); }
  }

  /** The side of a symbol leaves 1 when divided by 4, so the direction alternates, across the skipped column too. */
  lemma UpwardAlternates(n: nat, p: nat)
    requires n % 4 == 1 && p < n / 2
    ensures Upward(RightOf(n, p)) <==> p % 2 == 0
  {}

  /** The order: pairs of columns from the right edge with column 6 left out, the first pair upward and each next
      one the other way, in each row the right module before the left. */
  lemma WholeAt(n: nat, p: nat, r: nat, j: nat)
    requires n % 4 == 1 && n >= 7 && p < n / 2 && r < n && j < 2
    ensures |Whole(n)| == n * (n - 1)
    ensures var i := 2 * (p * n + r) + j;
      && 0 <= i < n * (n - 1)
      && Whole(n)[i].x == (if n - 1 - 2 * p > 6 then n - 1 - 2 * p else n - 2 - 2 * p) - j
      && Whole(n)[i].y == if p % 2 == 0 then n - 1 - r else r
  {
    hide Path, PairPath, Upward;
    var i, right := 2 * r + j, RightOf(n, p);
    PathLength(n, n / 2);
    PathAt(n, n / 2, p, i);
    PairPathAt(n, right, n, r, j);
    UpwardAlternates(n, p);
    Positions(n, p, r, j);
  }

  lemma Positions(n: nat, p: nat, r: nat, j: nat)
    requires n % 2 == 1
    ensures 2 * n * (n / 2) == n * (n - 1) && 2 * (p * n + r) + j == 2 * n * p + (2 * r + j)
  {
    assert n / 2 * 2 == n - 1;
    assert 2 * n * (n / 2) == n * (n / 2 * 2);
  }
}
