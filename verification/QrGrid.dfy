/** The module grid: counting the free modules and placing the codewords. */
module QrGrid {
  import opened Common
  import opened Gf256
  import opened Segment
  import opened Zigzag

  /** Rows of modules: m[y][x]. */
  type Matrix = seq<seq<bool>>

  ghost predicate Square(m: Matrix, n: nat) {
    |m| == n && forall y :: 0 <= y < n ==> |m[y]| == n
  }

  predicate Inside(c: Cell, n: nat) { 0 <= c.x < n && 0 <= c.y < n }

  /** The module at a cell; light outside the symbol. */
  predicate At(m: Matrix, c: Cell) { 0 <= c.y < |m| && 0 <= c.x < |m[c.y]| && m[c.y][c.x] }

  lemma SameMatrix(a: Matrix, b: Matrix, n: nat)
    requires Square(a, n) && Square(b, n)
    requires forall c :: Inside(c, n) ==> At(a, c) == At(b, c)
    ensures a == b
  {
    forall y | 0 <= y < n ensures a[y] == b[y] {
      forall x | 0 <= x < n ensures a[y][x] == b[y][x] {
        assert At(a, Cell(x, y)) == At(b, Cell(x, y));
      }
    }
  }

  /** The modules along a path. */
  function Read(m: Matrix, path: seq<Cell>): (bits: seq<bool>)
    ensures |bits| == |path|
  {
    seq(|path|, i requires 0 <= i < |path| => At(m, path[i]))
  }

  /** The cells of a path that carry data, in order. */
  function Free(mask: Matrix, path: seq<Cell>): seq<Cell>
    decreases |path|
  {
    if path == [] then []
    else
      var k := |path| - 1;
      Free(mask, path[..k]) + (if At(mask, path[k]) then [] else [path[k]])
  }

  lemma {:induction false} FreeIs(mask: Matrix, path: seq<Cell>)
    requires Distinct(path)
    ensures Distinct(Free(mask, path))
    ensures forall c :: c in Free(mask, path) <==> c in path && !At(mask, c)
    decreases |path|
  {
    if path != [] {
      var k := |path| - 1;
      FreeIs(mask, path[..k]);
      assert path == path[..k] + [path[k]];
      DistinctAppend(Free(mask, path[..k]), [path[k]]);
    }
  }

  lemma FreeNone(mask: Matrix)
    ensures Free(mask, []) == []
  {}

  lemma FreeAppend(mask: Matrix, path: seq<Cell>, c: Cell)
    ensures Free(mask, path + [c]) == Free(mask, path) + (if At(mask, c) then [] else [c])
  {
    assert (path + [c])[..|path|] == path;
  }

  /** All modules, row by row. */
  function RowPart(y: nat, cells: nat): seq<Cell>
    decreases cells
  {
    if cells == 0 then [] else RowPart(y, cells - 1) + [Cell(cells - 1, y)]
  }

  function RowMajor(n: nat, rows: nat): seq<Cell>
    decreases rows
  {
    if rows == 0 then [] else RowMajor(n, rows - 1) + RowPart(rows - 1, n)
  }

  lemma {:induction false} RowPartIs(y: nat, cells: nat)
    ensures Distinct(RowPart(y, cells))
    ensures forall c: Cell :: c in RowPart(y, cells) <==> c.y == y && 0 <= c.x < cells
    decreases cells
  {
    if cells > 0 {
      RowPartIs(y, cells - 1);
      DistinctAppend(RowPart(y, cells - 1), [Cell(cells - 1, y)]);
    }
  }

  lemma NothingDistinct<T>()
    ensures Distinct<T>([])
  {}

  lemma {:induction false} RowMajorIs(n: nat, rows: nat)
    ensures Distinct(RowMajor(n, rows))
    ensures forall c: Cell :: c in RowMajor(n, rows) <==> 0 <= c.y < rows && 0 <= c.x < n
    decreases rows
  {
    hide Distinct, RowPart;
    if rows == 0 {
      NothingDistinct<Cell>();
    } else {
      RowMajorIs(n, rows - 1);
      RowPartIs(rows - 1, n);
      DistinctAppend(RowMajor(n, rows - 1), RowPart(rows - 1, n));
    }
  }

  lemma {:induction false} DistinctSize<T>(s: seq<T>)
    requires Distinct(s)
    ensures |Elements(s)| == |s|
    decreases |s|
  {
    if s != [] {
      var k := |s| - 1;
      DistinctSize(s[..k]);
      assert Elements(s) == Elements(s[..k]) + {s[k]};
    }
  }

  ghost predicate TimingColumnReserved(mask: Matrix) {
    forall y :: 0 <= y < |mask| ==> At(mask, Cell(6, y))
  }

  /** The row-major count of free modules is the capacity of the zigzag. */
  lemma RowMajorCountIsCapacity(mask: Matrix, n: nat)
    requires Square(mask, n) && n % 2 == 1 && n >= 7 && TimingColumnReserved(mask)
    ensures |Free(mask, RowMajor(n, n))| == |Free(mask, Whole(n))|
  {
    var a, b := Free(mask, RowMajor(n, n)), Free(mask, Whole(n));
    RowMajorIs(n, n);
    WholeIs(n);
    FreeIs(mask, RowMajor(n, n));
    FreeIs(mask, Whole(n));
    forall c: Cell ensures c in Elements(a) <==> c in Elements(b) {
      if c.x == 6 && 0 <= c.y < n { assert At(mask, Cell(6, c.y)); }
    }
    assert Elements(a) == Elements(b);
    DistinctSize(a);
    DistinctSize(b);
  }

  lemma {:induction false} PathPrefix(n: nat, p: nat, q: nat)
    requires p <= q
    ensures Path(n, p) <= Path(n, q)
    decreases q
  {
    if p < q { PathPrefix(n, p, q - 1); }
  }

  lemma {:induction false} PairPrefix(n: nat, right: int, v: nat, w: nat)
    requires v <= w
    ensures PairPath(n, right, v) <= PairPath(n, right, w)
    decreases w
  {
    if v < w { PairPrefix(n, right, v, w - 1); }
  }

  lemma PrefixUnder<T>(a: seq<T>, b: seq<T>, c: seq<T>)
    requires b <= c
    ensures a + b <= a + c
  {}

  function Pair(n: nat, right: int, vert: nat): seq<Cell> {
    [Cell(right, RowOf(n, right, vert)), Cell(right - 1, RowOf(n, right, vert))]
  }

  /** What the placement loop has done so far is the start of the whole zigzag. */
  lemma StepPrefix(n: nat, p: nat, vert: nat, j: nat)
    requires p < n / 2 && vert < n && j <= 2
    ensures Path(n, p) + PairPath(n, RightOf(n, p), vert) + Pair(n, RightOf(n, p), vert)[..j] <= Whole(n)
  {
    hide *;
    var r := RightOf(n, p);
    var pair := Pair(n, r, vert);
    PairStep(n, r, vert);
    PairPrefix(n, r, vert + 1, n);
    PrefixUnder(PairPath(n, r, vert), pair[..j], pair);
    PrefixUnder(Path(n, p), PairPath(n, r, vert) + pair[..j], PairPath(n, r, n));
    assert Path(n, p) + (PairPath(n, r, vert) + pair[..j]) == Path(n, p) + PairPath(n, r, vert) + pair[..j];
    PassStep(n, p);
    PathPrefix(n, p + 1, n / 2);
    WholeUnfold(n);
  }

  lemma PairStep(n: nat, right: int, vert: nat)
    ensures |Pair(n, right, vert)| == 2
    ensures PairPath(n, right, vert + 1) == PairPath(n, right, vert) + Pair(n, right, vert)
  {}

  lemma PairIs(n: nat, right: int, vert: nat)
    ensures Pair(n, right, vert) == [Cell(right, RowOf(n, right, vert)), Cell(right - 1, RowOf(n, right, vert))]
  {}

  lemma PassStep(n: nat, p: nat)
    ensures Path(n, p + 1) == Path(n, p) + PairPath(n, RightOf(n, p), n)
  {}

  lemma WholeUnfold(n: nat)
    ensures Whole(n) == Path(n, n / 2)
  {}

  lemma PrefixDistinct<T>(a: seq<T>, b: seq<T>)
    requires a <= b && Distinct(b)
    ensures Distinct(a)
  {}

  function PlacedCount(mask: Matrix, path: seq<Cell>, bits: seq<bool>): (i: nat)
    ensures i <= |Free(mask, path)| && i <= |bits|
  {
    var f := Free(mask, path);
    if |f| < |bits| then |f| else |bits|
  }

  /** The first bits stand on the free cells of the path, and nothing else has changed. */
  ghost predicate Placed(mask: Matrix, before: Matrix, after: Matrix, path: seq<Cell>, bits: seq<bool>) {
    var f, i := Free(mask, path), PlacedCount(mask, path, bits);
    && (forall k :: 0 <= k < i ==> At(after, f[k]) == bits[k])
    && (forall c :: c !in f[..i] ==> At(after, c) == At(before, c))
  }

  lemma DistinctLast<T>(a: seq<T>, t: T)
    requires Distinct(a + [t])
    ensures Distinct(a) && t !in a
  {
    PrefixDistinct(a, a + [t]);
    forall i | 0 <= i < |a| ensures a[i] != t {
      assert (a + [t])[i] != (a + [t])[|a|];
    }
  }

  lemma PlacedNone(mask: Matrix, before: Matrix, n: nat, bits: seq<bool>)
    ensures PlacedCount(mask, Path(n, 0), bits) == 0
    ensures Placed(mask, before, before, Path(n, 0), bits)
  {
    assert Free(mask, Path(n, 0)) == [];
  }

  lemma PlacedAll(mask: Matrix, n: nat, bits: seq<bool>)
    requires |bits| <= |Free(mask, Whole(n))|
    ensures PlacedCount(mask, Whole(n), bits) == |bits|
  {}

  /** A reserved module, or a module beyond the last bit, is skipped. */
  lemma PlacedSkip(mask: Matrix, before: Matrix, after: Matrix, path: seq<Cell>, c: Cell, bits: seq<bool>)
    requires Placed(mask, before, after, path, bits)
    requires At(mask, c) || |Free(mask, path)| >= |bits|
    ensures PlacedCount(mask, path + [c], bits) == PlacedCount(mask, path, bits)
    ensures Placed(mask, before, after, path + [c], bits)
  {
    var f, i := Free(mask, path), PlacedCount(mask, path, bits);
    FreeAppend(mask, path, c);
    assert Free(mask, path + [c])[..i] == f[..i];
    forall k | 0 <= k < i ensures Free(mask, path + [c])[k] == f[k] {
      assert f[..i][k] == f[k];
    }
  }

  /** A free module takes the next bit. */
  lemma PlacedWrite(mask: Matrix, before: Matrix, mid: Matrix, after: Matrix, path: seq<Cell>, c: Cell, bits: seq<bool>)
    requires Distinct(path + [c]) && Placed(mask, before, mid, path, bits)
    requires !At(mask, c) && |Free(mask, path)| < |bits|
    requires forall d :: At(after, d) == if d == c then bits[|Free(mask, path)|] else At(mid, d)
    ensures PlacedCount(mask, path + [c], bits) == PlacedCount(mask, path, bits) + 1
    ensures Placed(mask, before, after, path + [c], bits)
  {
    hide Free, At, Distinct;
    var f := Free(mask, path);
    DistinctLast(path, c);
    FreeAppend(mask, path, c);
    FreeIs(mask, path);
    var g := f + [c];
    assert g[..|f| + 1] == g && f[..|f|] == f;
    forall k | 0 <= k < |g| ensures At(after, g[k]) == bits[k] {
      if k < |f| { assert f[k] in f; }
    }
    forall d | d !in g ensures At(after, d) == At(before, d) {
      AppendHas(f, c, d);
    }
  }

  lemma AppendHas<T>(s: seq<T>, t: T, u: T)
    ensures u in s + [t] <==> u in s || u == t
  {}

  class Grid {
    const n: nat
    const modules: array2<bool>
    /** The modules of function patterns and of format and version information. */
    const reserved: array2<bool>

    ghost predicate Valid()
      reads this
    {
      && modules.Length0 == modules.Length1 == n
      && reserved.Length0 == reserved.Length1 == n
      && modules != reserved
    }

    ghost function Modules(): (m: Matrix)
      requires Valid()
      reads this, modules
      ensures Square(m, n)
      ensures forall c :: Inside(c, n) ==> At(m, c) == modules[c.y, c.x]
    {
      seq(n, y requires 0 <= y < n reads this, modules =>
        seq(n, x requires 0 <= x < n reads this, modules => modules[y, x]))
    }

    ghost function Reserved(): (m: Matrix)
      requires Valid()
      reads this, reserved
      ensures Square(m, n)
      ensures forall c :: Inside(c, n) ==> At(m, c) == reserved[c.y, c.x]
    {
      seq(n, y requires 0 <= y < n reads this, reserved =>
        seq(n, x requires 0 <= x < n reads this, reserved => reserved[y, x]))
    }

    constructor (drawn: Matrix, mask: Matrix)
      requires |mask| == |drawn| && Square(drawn, |drawn|) && Square(mask, |mask|)
      ensures Valid() && n == |drawn| && Modules() == drawn && Reserved() == mask
      ensures fresh(modules) && fresh(reserved)
    {
      n := |drawn|;
      modules := new bool[|drawn|, |drawn|]((y, x) requires 0 <= y < |drawn| && 0 <= x < |drawn| => drawn[y][x]);
      reserved := new bool[|drawn|, |drawn|]((y, x) requires 0 <= y < |drawn| && 0 <= x < |drawn| => mask[y][x]);
      new;
      SameMatrix(Modules(), drawn, n);
      SameMatrix(Reserved(), mask, n);
    }

    method RawDataModules() returns (count: nat)
      requires Valid()
      ensures count == |Free(Reserved(), RowMajor(n, n))|
    {
      hide Free, Grid.Reserved;
      FreeNone(Reserved());
      count := 0;
      for y := 0 to n
        invariant count == |Free(Reserved(), RowMajor(n, y))|
      {
        ghost var above := RowMajor(n, y);
        assert above + RowPart(y, 0) == above;
        for x := 0 to n
          invariant count == |Free(Reserved(), above + RowPart(y, x))|
        {
          FreeAppend(Reserved(), above + RowPart(y, x), Cell(x, y));
          assert above + RowPart(y, x + 1) == above + RowPart(y, x) + [Cell(x, y)];
          if !reserved[y, x] { count := count + 1; }
        }
      }
    }

    /** The body of the placement loop: one module of the zigzag. */
    method PlaceModule(cw: seq<Byte>, i: nat, x: nat, y: nat, ghost before: Matrix, ghost done: seq<Cell>)
      returns (next: nat)
      requires Valid() && x < n && y < n && Distinct(done + [Cell(x, y)])
      requires i == PlacedCount(Reserved(), done, Unpack(cw))
      requires Placed(Reserved(), before, Modules(), done, Unpack(cw))
      modifies modules
      ensures Reserved() == old(Reserved())
      ensures next == PlacedCount(Reserved(), done + [Cell(x, y)], Unpack(cw))
      ensures Placed(Reserved(), before, Modules(), done + [Cell(x, y)], Unpack(cw))
    {
      hide Unpack, BitsOf, Placed;
      ghost var mid, c, mask, bits := Modules(), Cell(x, y), Reserved(), Unpack(cw);
      assert At(mask, c) == reserved[y, x];
      next := i;
      if !reserved[y, x] && i < 8 * |cw| {
        UnpackAt(cw, i / 8, i % 8);
        assert i < |bits| && bits[i] == BitsOf(cw[i / 8])[i % 8];
        modules[y, x] := BitsOf(cw[i / 8])[i % 8];
        next := i + 1;
        assert Reserved() == mask;
        forall d: Cell ensures At(Modules(), d) == if d == c then bits[i] else At(mid, d) {
          if Inside(d, n) {}
        }
        PlacedWrite(mask, before, mid, Modules(), done, c, bits);
      } else {
        PlacedSkip(mask, before, mid, done, c, bits);
      }
    }

    /** The two modules of one row of a column pair, right then left. */
    method PlaceTwo(cw: seq<Byte>, first: nat, right: nat, y: nat, ghost before: Matrix, ghost done: seq<Cell>)
      returns (i: nat)
      requires Valid() && 1 <= right < n && y < n
      requires Distinct(done + [Cell(right, y), Cell(right - 1, y)])
      requires first == PlacedCount(Reserved(), done, Unpack(cw))
      requires Placed(Reserved(), before, Modules(), done, Unpack(cw))
      modifies modules
      ensures Reserved() == old(Reserved())
      ensures i == PlacedCount(Reserved(), done + [Cell(right, y), Cell(right - 1, y)], Unpack(cw))
      ensures Placed(Reserved(), before, Modules(), done + [Cell(right, y), Cell(right - 1, y)], Unpack(cw))
    {
      hide Unpack, Placed, PlacedCount, Distinct;
      ghost var mask, bits := Reserved(), Unpack(cw);
      ghost var pair := [Cell(right, y), Cell(right - 1, y)];
      i := first;
      assert done + pair[..0] == done;
      for j := 0 to 2
        invariant Reserved() == mask
        invariant i == PlacedCount(mask, done + pair[..j], bits)
        invariant Placed(mask, before, Modules(), done + pair[..j], bits)
      {
        var x := right - j;
        assert pair[j] == Cell(x, y);
        assert done + pair[..j + 1] == done + pair[..j] + [Cell(x, y)];
        assert done + pair[..j + 1] <= done + pair;
        PrefixDistinct(done + pair[..j + 1], done + pair);
        i := PlaceModule(cw, i, x, y, before, done + pair[..j]);
      }
      assert pair[..2] == pair;
    }

    /** One column pair, upward or downward. */
    method PlacePair(cw: seq<Byte>, first: nat, right: nat, ghost before: Matrix, ghost p: nat) returns (i: nat)
      requires Valid() && p < n / 2 && right == RightOf(n, p) && 1 <= right < n
      requires Distinct(Whole(n))
      requires first == PlacedCount(Reserved(), Path(n, p), Unpack(cw))
      requires Placed(Reserved(), before, Modules(), Path(n, p), Unpack(cw))
      modifies modules
      ensures Reserved() == old(Reserved())
      ensures i == PlacedCount(Reserved(), Path(n, p + 1), Unpack(cw))
      ensures Placed(Reserved(), before, Modules(), Path(n, p + 1), Unpack(cw))
    {
      hide Unpack, Placed, PlacedCount, PairPath, Path, Whole, Distinct;
      ghost var mask, bits := Reserved(), Unpack(cw);
      i := first;
      var upward := (right + 1) / 2 % 2 == 0;
      PairZero(n, right);
      assert Path(n, p) + PairPath(n, right, 0) == Path(n, p);
      for vert := 0 to n
        invariant Reserved() == mask
        invariant i == PlacedCount(mask, Path(n, p) + PairPath(n, right, vert), bits)
        invariant Placed(mask, before, Modules(), Path(n, p) + PairPath(n, right, vert), bits)
      {
        var y := vert;
        if upward { y := n - 1 - vert; }
        ghost var done := Path(n, p) + PairPath(n, right, vert);
        PairStep(n, right, vert);
        PairIs(n, right, vert);
        assert done + Pair(n, right, vert) == Path(n, p) + PairPath(n, right, vert + 1);
        assert Pair(n, right, vert)[..2] == Pair(n, right, vert);
        StepPrefix(n, p, vert, 2);
        PrefixDistinct(done + Pair(n, right, vert), Whole(n));
        i := PlaceTwo(cw, i, right, y, before, done);
      }
      PassStep(n, p);
    }

    method PlaceCodewords(cw: seq<Byte>)
      requires Valid() && n % 2 == 1 && n >= 7
      requires 8 * |cw| <= |Free(Reserved(), Whole(n))|
      modifies modules
      ensures Reserved() == old(Reserved())
      ensures Placed(Reserved(), old(Modules()), Modules(), Whole(n), Unpack(cw))
    {
      hide Unpack, Placed, PlacedCount, Path, Whole;
      ghost var mask, before, bits := Reserved(), Modules(), Unpack(cw);
      WholeIs(n);
      WholeUnfold(n);
      PlacedNone(mask, before, n, bits);
      var i, right := 0, n - 1;
      ghost var p := 0;
      while right >= 1
        invariant p <= n / 2
        invariant right == (if n - 1 - 2 * p >= 6 then n - 1 - 2 * p else if p == n / 2 then -1 else n - 2 - 2 * p)
        invariant Reserved() == mask
        invariant i == PlacedCount(mask, Path(n, p), bits)
        invariant Placed(mask, before, Modules(), Path(n, p), bits)
        decreases right
      {
        if right == 6 { right := 5; }
        i := PlacePair(cw, i, right, before, p);
        right := right - 2;
        p := p + 1;
      }
      PlacedAll(mask, n, bits);
      // The capacity panic cannot happen here.
      assert i == 8 * |cw|;
    }
  }

  lemma PairZero(n: nat, right: int)
    ensures PairPath(n, right, 0) == []
  {}
}
