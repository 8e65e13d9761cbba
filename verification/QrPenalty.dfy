/** The penalty of a symbol, ISO/IEC 18004:2015 section 7.8.3. */
module QrPenalty {
  import opened Bits
  import opened Zigzag
  import opened QrGrid

  // Rule 1: runs of five or more modules of the same colour.

  /** Five modules of one colour from index i. */
  predicate Window(line: seq<bool>, i: nat) {
    i + 5 <= |line| && line[i + 1] == line[i] && line[i + 2] == line[i] && line[i + 3] == line[i] &&
      line[i + 4] == line[i]
  }

  predicate Starts(line: seq<bool>, i: nat) { i < |line| && (i == 0 || line[i - 1] != line[i]) }

  /** One point for every window of five like modules, and two more for the first window of a run:
      a run of length L >= 5 has L - 4 windows, so it scores 3 + (L - 5). */
  function WindowPoints(line: seq<bool>, i: nat): nat {
    if Window(line, i) then (if Starts(line, i) then 3 else 1) else 0
  }

  /** The points of the windows that begin at index i or later. */
  function RunPenalty(line: seq<bool>, i: nat): nat
    decreases |line| - i
  {
    if i >= |line| then 0 else WindowPoints(line, i) + RunPenalty(line, i + 1)
  }

  ghost predicate Run(line: seq<bool>, i: nat, e: nat) {
    && i < e <= |line| && (forall j :: i <= j < e ==> line[j] == line[i])
    && (e == |line| || line[e] != line[i])
  }

  lemma {:induction false} InsideRun(line: seq<bool>, i: nat, j: nat, e: nat)
    requires Run(line, i, e) && i < j <= e
    ensures RunPenalty(line, j) == (if e - 4 > j then e - 4 - j else 0) + RunPenalty(line, e)
    decreases e - j
  {
    if j < e {
      InsideRun(line, i, j + 1, e);
      assert !Starts(line, j);
      if j + 5 <= e {
        assert Window(line, j);
      } else if j + 5 <= |line| {
        assert line[e] != line[j];
        assert e in {j + 1, j + 2, j + 3, j + 4};
      }
    }
  }

  /** A maximal run contributes three points and one for each module beyond five. */
  lemma WholeRun(line: seq<bool>, i: nat, e: nat)
    requires Run(line, i, e) && Starts(line, i)
    ensures RunPenalty(line, i) == (if e - i >= 5 then 3 + (e - i) - 5 else 0) + RunPenalty(line, e)
  {
    InsideRun(line, i, i + 1, e);
    if e - i >= 5 {
      assert Window(line, i);
    } else if i + 5 <= |line| {
      assert line[e] != line[i];
      assert e in {i + 1, i + 2, i + 3, i + 4};
    }
  }

  method PenaltyRuns(line: seq<bool>) returns (score: nat)
    ensures score == RunPenalty(line, 0)
  {
    score := 0;
    var i := 0;
    while i < |line|
      invariant i <= |line| && (i < |line| ==> Starts(line, i))
      invariant score + RunPenalty(line, i) == RunPenalty(line, 0)
    {
      var run := 1;
      while i + run < |line| && line[i + run] == line[i]
        invariant i + run <= |line|
        invariant forall j :: i <= j < i + run ==> line[j] == line[i]
      {
        run := run + 1;
      }
      WholeRun(line, i, i + run);
      if run >= 5 { score := score + 3 + run - 5; }
      i := i + run;
    }
  }

  // Rule 3: the finder-like pattern.

  function FinderPattern(): seq<bool> { [true, false, true, true, true, false, true] }

  predicate FourLight(line: seq<bool>, i: int) {
    0 <= i && i + 4 <= |line| && !line[i] && !line[i + 1] && !line[i + 2] && !line[i + 3]
  }

  function FinderPoints(line: seq<bool>, i: nat): nat {
    if i + 7 <= |line| && line[i..i + 7] == FinderPattern() then
      (if FourLight(line, i - 4) then 40 else 0) + (if FourLight(line, i + 7) then 40 else 0)
    else 0
  }

  /** The points of the patterns at the first n indices. */
  function FinderPenalty(line: seq<bool>, n: nat): nat {
    if n == 0 then 0 else FinderPenalty(line, n - 1) + FinderPoints(line, n - 1)
  }

  lemma {:induction false} NoFinderBeyond(line: seq<bool>, m: nat, n: nat)
    requires m <= n && m + 7 > |line|
    ensures FinderPenalty(line, n) == FinderPenalty(line, m)
    decreases n
  {
    if m < n { NoFinderBeyond(line, m, n - 1); }
  }

  /** Comparing the number seven modules spell is comparing the modules. */
  lemma PatternValue(w: seq<bool>)
    requires |w| == 7
    ensures Value(w) == 0x5D <==> w == FinderPattern()
  {
    ToBitsOfValue(w);
    PatternBits();
    assert Pow2(7) == 128;
    ValueOfToBits(0x5D, 7);
  }

  lemma NoBits(v: nat)
    ensures ToBits(v, 0) == []
  {}

  lemma NextBit(v: nat, n: nat)
    requires n > 0
    ensures ToBits(v, n) == ToBits(v / 2, n - 1) + [v % 2 == 1]
  {}

  lemma PatternBits()
    ensures ToBits(0x5D, 7) == FinderPattern()
  {
    hide ToBits;
    NoBits(0);
    NextBit(1, 1);
    NextBit(2, 2);
    NextBit(5, 3);
    NextBit(11, 4);
    NextBit(23, 5);
    NextBit(46, 6);
    NextBit(93, 7);
  }

  method SevenModules(line: seq<bool>, i: nat) returns (v: nat)
    requires i + 7 <= |line|
    ensures v == Value(line[i..i + 7])
  {
    v := 0;
    for j := 0 to 7
      invariant v == Value(line[i..i + j])
    {
      assert line[i..i + j + 1][..j] == line[i..i + j];
      v := 2 * v;
      if line[i + j] { v := v + 1; }
    }
  }

  method PenaltyFinderLike(line: seq<bool>) returns (score: nat)
    ensures score == FinderPenalty(line, |line|)
  {
    hide FinderPattern, Value;
    score := 0;
    var i := 0;
    while i + 7 <= |line|
      invariant i <= |line| && score == FinderPenalty(line, i)
    {
      var v := SevenModules(line, i);
      PatternValue(line[i..i + 7]);
      if v == 0x5D {
        if i >= 4 && !line[i - 1] && !line[i - 2] && !line[i - 3] && !line[i - 4] { score := score + 40; }
        if i + 11 <= |line| && !line[i + 7] && !line[i + 8] && !line[i + 9] && !line[i + 10] { score := score + 40; }
      }
      i := i + 1;
    }
    NoFinderBeyond(line, i, |line|);
  }

  // The whole symbol.

  function Row(m: Matrix, n: nat, k: nat): seq<bool> { seq(n, x => At(m, Cell(x, k))) }

  function Col(m: Matrix, n: nat, k: nat): seq<bool> { seq(n, y => At(m, Cell(k, y))) }

  function LinePenalty(line: seq<bool>): nat { RunPenalty(line, 0) + FinderPenalty(line, |line|) }

  function Lines(m: Matrix, n: nat, k: nat): nat {
    if k == 0 then 0
    else Lines(m, n, k - 1) + LinePenalty(Row(m, n, k - 1)) + LinePenalty(Col(m, n, k - 1))
  }

  /** Rule 2: a block of two by two like modules. */
  predicate Block(m: Matrix, n: nat, c: Cell) {
    && c.x + 1 < n && c.y + 1 < n && At(m, Cell(c.x + 1, c.y)) == At(m, c)
    && At(m, Cell(c.x, c.y + 1)) == At(m, c) && At(m, Cell(c.x + 1, c.y + 1)) == At(m, c)
  }

  function CountBlocks(m: Matrix, n: nat, path: seq<Cell>): nat
    decreases |path|
  {
    if path == [] then 0
    else CountBlocks(m, n, path[..|path| - 1]) + (if Block(m, n, path[|path| - 1]) then 1 else 0)
  }

  function CountDark(m: Matrix, path: seq<Cell>): nat
    decreases |path|
  {
    if path == [] then 0
    else CountDark(m, path[..|path| - 1]) + (if At(m, path[|path| - 1]) then 1 else 0)
  }

  function Abs(v: int): nat { if v < 0 then -v else v }

  /** Rule 4: the number of full 5% steps by which the dark share misses one half, as the source counts them. */
  function Balance(dark: nat, total: nat): int
    requires total > 0
  {
    (Abs(20 * dark - 10 * total) + total - 1) / total - 1
  }

  /** The balance term is negative exactly when half the modules are dark. */
  lemma BalanceSign(dark: nat, total: nat)
    requires total > 0
    ensures Balance(dark, total) >= 0 <==> 2 * dark != total
  {
    var dev := Abs(20 * dark - 10 * total);
    if dev == 0 {
      assert (total - 1) / total == 0;
    } else {
      AtLeastOne(dev + total - 1, total);
    }
  }

  /** The dark share is within 5% steps of one half: k steps beyond 45% to 55%, and not within one step less. */
  predicate Within(dark: nat, total: nat, k: int) { (45 - 5 * k) * total <= 100 * dark <= (55 + 5 * k) * total }

  lemma WithinIs(dark: nat, total: nat, k: int)
    ensures Within(dark, total, k) <==> 45 * total - 5 * (k * total) <= 100 * dark <= 55 * total + 5 * (k * total)
  {
    assert (45 - 5 * k) * total == 45 * total - 5 * (k * total);
    assert (55 + 5 * k) * total == 55 * total + 5 * (k * total);
  }

  /** The quotient rounded up, less one. */
  lemma StepsOf(dev: nat, total: nat)
    requires total > 0
    ensures var k := (dev + total - 1) / total - 1;
      k * total < dev <= k * total + total && (k - 1) * total == k * total - total
  {
    var k := (dev + total - 1) / total - 1;
    assert dev + total - 1 == total * (k + 1) + (dev + total - 1) % total;
    assert total * (k + 1) == k * total + total;
  }

  lemma BalanceIs(dark: nat, total: nat)
    requires total > 0 && 2 * dark != total
    ensures var k := Balance(dark, total);
      k >= 0 && Within(dark, total, k) && (k > 0 ==> !Within(dark, total, k - 1))
  {
    BalanceSign(dark, total);
    var k := Balance(dark, total);
    StepsOf(Abs(20 * dark - 10 * total), total);
    WithinIs(dark, total, k);
    WithinIs(dark, total, k - 1);
    hide Within;
  }

  lemma AtLeastOne(a: nat, b: nat)
    requires a >= b > 0
    ensures a / b >= 1
  {
    assert a == b * (a / b) + a % b;
  }

  function Penalty(m: Matrix, n: nat): int
    requires n > 0
  {
    Lines(m, n, n) + 3 * CountBlocks(m, n, RowMajor(n, n)) + 10 * Balance(CountDark(m, RowMajor(n, n)), n * n)
  }

  lemma OddSquare(n: nat)
    requires n % 2 == 1
    ensures n * n % 2 == 1
  {
    var h := n / 2;
    assert n == 2 * h + 1;
    assert n * n == 2 * (2 * h * h + 2 * h) + 1;
  }

  /** The penalty is never negative, because a symbol of odd side cannot be half dark. */
  lemma PenaltyNonNegative(m: Matrix, n: nat)
    requires n % 2 == 1
    ensures Penalty(m, n) >= 0
  {
    OddSquare(n);
    BalanceSign(CountDark(m, RowMajor(n, n)), n * n);
  }

  /** On an even side it can be: the 2 by 2 checkerboard scores -10, which the caller's -1 sentinel would misread. */
  lemma EvenSideCanBeNegative()
    ensures Penalty([[true, false], [false, true]], 2) == -10
  {
    var m: Matrix := [[true, false], [false, true]];
    NoLinePenalty(m);
    TwoByTwo(m);
  }

  lemma NoLinePenalty(m: Matrix)
    ensures Lines(m, 2, 2) == 0
  {
    assert LinePenalty(Row(m, 2, 0)) == 0 && LinePenalty(Row(m, 2, 1)) == 0 by {
      ShortLine(Row(m, 2, 0));
      ShortLine(Row(m, 2, 1));
    }
    assert LinePenalty(Col(m, 2, 0)) == 0 && LinePenalty(Col(m, 2, 1)) == 0 by {
      ShortLine(Col(m, 2, 0));
      ShortLine(Col(m, 2, 1));
    }
    assert Lines(m, 2, 2) == 0 by {
      hide LinePenalty, Row, Col;
      assert Lines(m, 2, 1) == 0;
    }
  }

  lemma FourCells()
    ensures RowMajor(2, 2) == [] + [Cell(0, 0)] + [Cell(1, 0)] + [Cell(0, 1)] + [Cell(1, 1)]
  {
    assert RowPart(0, 2) == [Cell(0, 0), Cell(1, 0)] by { assert RowPart(0, 1) == [Cell(0, 0)]; }
    assert RowPart(1, 2) == [Cell(0, 1), Cell(1, 1)] by { assert RowPart(1, 1) == [Cell(0, 1)]; }
    assert RowMajor(2, 1) == [Cell(0, 0), Cell(1, 0)];
  }

  lemma TwoByTwo(m: Matrix)
    requires m == [[true, false], [false, true]]
    ensures CountDark(m, RowMajor(2, 2)) == 2 && CountBlocks(m, 2, RowMajor(2, 2)) == 0
  {
    hide RowMajor, RowPart;
    FourCells();
    CountSnoc(m, 2, [], Cell(0, 0));
    CountSnoc(m, 2, [] + [Cell(0, 0)], Cell(1, 0));
    CountSnoc(m, 2, [] + [Cell(0, 0)] + [Cell(1, 0)], Cell(0, 1));
    CountSnoc(m, 2, [] + [Cell(0, 0)] + [Cell(1, 0)] + [Cell(0, 1)], Cell(1, 1));
  }

  lemma CountSnoc(m: Matrix, n: nat, path: seq<Cell>, c: Cell)
    ensures CountDark(m, path + [c]) == CountDark(m, path) + (if At(m, c) then 1 else 0)
    ensures CountBlocks(m, n, path + [c]) == CountBlocks(m, n, path) + (if Block(m, n, c) then 1 else 0)
  {
    hide At, Block;
    assert (path + [c])[..|path|] == path;
  }

  lemma ShortLine(line: seq<bool>)
    requires |line| == 2
    ensures LinePenalty(line) == 0
  {
    assert RunPenalty(line, 2) == 0;
    assert RunPenalty(line, 1) == 0;
    assert FinderPenalty(line, 1) == 0;
  }

  /** Row k, or column k on the second pass. */
  method LineScore(g: Grid, k: nat, pass: nat, line: array<bool>) returns (score: nat)
    requires g.Valid() && k < g.n && pass < 2 && line.Length == g.n
    requires line != (g.modules as object)
    modifies line
    ensures score == LinePenalty(if pass == 0 then Row(g.Modules(), g.n, k) else Col(g.Modules(), g.n, k))
  {
    hide RunPenalty, FinderPenalty, At;
    for i := 0 to g.n
      invariant forall j :: 0 <= j < i ==>
        line[j] == if pass == 0 then At(g.Modules(), Cell(j, k)) else At(g.Modules(), Cell(k, j))
    {
      ModuleAt(g, i, k);
      ModuleAt(g, k, i);
      line[i] := if pass == 0 then g.modules[k, i] else g.modules[i, k];
    }
    assert line[..] == if pass == 0 then Row(g.Modules(), g.n, k) else Col(g.Modules(), g.n, k);
    var runs := PenaltyRuns(line[..]);
    var finders := PenaltyFinderLike(line[..]);
    score := runs + finders;
  }

  lemma ModuleAt(g: Grid, x: nat, y: nat)
    requires g.Valid() && x < g.n && y < g.n
    ensures At(g.Modules(), Cell(x, y)) == g.modules[y, x]
  {
    assert Inside(Cell(x, y), g.n);
  }

  method LinePenalties(g: Grid) returns (score: nat)
    requires g.Valid()
    ensures score == Lines(g.Modules(), g.n, g.n)
  {
    hide LinePenalty, Row, Col, Grid.Modules;
    score := 0;
    var line := new bool[g.n];
    for k := 0 to g.n
      invariant score == Lines(g.Modules(), g.n, k)
    {
      var row := LineScore(g, k, 0, line);
      var column := LineScore(g, k, 1, line);
      score := score + row + column;
    }
  }

  method ComputePenalty(g: Grid) returns (score: int)
    requires g.Valid() && g.n > 0
    ensures score == Penalty(g.Modules(), g.n)
  {
    hide Block, At, Lines, CountDark, CountBlocks;
    ghost var m := g.Modules();
    score := LinePenalties(g);
    ghost var lines := score;
    var dark := 0;
    CountNone(m, g.n);
    for y := 0 to g.n
      invariant dark == CountDark(m, RowMajor(g.n, y)) && score == lines + 3 * CountBlocks(m, g.n, RowMajor(g.n, y))
    {
      ghost var above := RowMajor(g.n, y);
      assert above + RowPart(y, 0) == above;
      for x := 0 to g.n
        invariant dark == CountDark(m, above + RowPart(y, x)) &&
          score == lines + 3 * CountBlocks(m, g.n, above + RowPart(y, x))
      {
        assert above + RowPart(y, x + 1) == above + RowPart(y, x) + [Cell(x, y)];
        CountSnoc(m, g.n, above + RowPart(y, x), Cell(x, y));
        BlockAt(g, x, y);
        if g.modules[y, x] { dark := dark + 1; }
        if x + 1 < g.n && y + 1 < g.n {
          var c := g.modules[y, x];
          if g.modules[y, x + 1] == c && g.modules[y + 1, x] == c && g.modules[y + 1, x + 1] == c {
            score := score + 3;
          }
        }
      }
    }
    var total := g.n * g.n;
    score := score + BalanceTerm(dark, total);
  }

  function BalanceTerm(dark: nat, total: nat): (t: int)
    requires total > 0
    ensures t == 10 * Balance(dark, total)
  {
    var dev := Abs(20 * dark - 10 * total);
    var k := (dev + total - 1) / total - 1;
    k * 10
  }

  lemma CountNone(m: Matrix, n: nat)
    ensures CountDark(m, RowMajor(n, 0)) == 0 && CountBlocks(m, n, RowMajor(n, 0)) == 0
  {}

  lemma BlockAt(g: Grid, x: nat, y: nat)
    requires g.Valid() && x < g.n && y < g.n
    ensures At(g.Modules(), Cell(x, y)) == g.modules[y, x]
    ensures Block(g.Modules(), g.n, Cell(x, y)) <==>
      x + 1 < g.n && y + 1 < g.n && g.modules[y, x + 1] == g.modules[y, x] && g.modules[y + 1, x] == g.modules[y, x] &&
        g.modules[y + 1, x + 1] == g.modules[y, x]
  {
    var m := g.Modules();
    assert At(m, Cell(x, y)) == g.modules[y, x];
    if x + 1 < g.n && y + 1 < g.n {
      assert At(m, Cell(x + 1, y)) == g.modules[y, x + 1];
      assert At(m, Cell(x, y + 1)) == g.modules[y + 1, x];
      assert At(m, Cell(x + 1, y + 1)) == g.modules[y + 1, x + 1];
    }
  }
}
