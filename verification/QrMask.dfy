/** Data masking and the choice of the mask, ISO/IEC 18004:2015 section 7.8. */
module QrMask {
  import opened Zigzag
  import opened QrGrid

  /** Whether mask pattern k inverts the module at column x, row y. */
  predicate MaskBit(k: nat, x: nat, y: nat)
    requires k < 8
  {
    match k
    case 0 => (x + y) % 2 == 0
    case 1 => y % 2 == 0
    case 2 => x % 3 == 0
    case 3 => (x + y) % 3 == 0
    case 4 => (x / 3 + y / 2) % 2 == 0
    case 5 => x * y % 2 + x * y % 3 == 0
    case 6 => (x * y % 2 + x * y % 3) % 2 == 0
    case _ => ((x + y) % 2 + x * y % 3) % 2 == 0
  }

  predicate Flips(mask: Matrix, k: nat, c: Cell)
    requires k < 8
  {
    0 <= c.x && 0 <= c.y && !At(mask, c) && MaskBit(k, c.x, c.y)
  }

  /** The symbol with mask pattern k applied to its free modules. */
  function Masked(m: Matrix, mask: Matrix, k: nat): Matrix
    requires k < 8
  {
    seq(|m|, y requires 0 <= y < |m| =>
      seq(|m[y]|, x requires 0 <= x < |m[y]| => m[y][x] != Flips(mask, k, Cell(x, y))))
  }

  lemma MaskedAt(m: Matrix, mask: Matrix, k: nat, n: nat)
    requires k < 8 && Square(m, n)
    ensures Square(Masked(m, mask, k), n)
    ensures forall c :: Inside(c, n) ==> At(Masked(m, mask, k), c) == (At(m, c) != Flips(mask, k, c))
  {
    hide Flips;
  }

  /** Masking is its own inverse. */
  lemma MaskedTwice(m: Matrix, mask: Matrix, k: nat, n: nat)
    requires k < 8 && Square(m, n)
    ensures Masked(Masked(m, mask, k), mask, k) == m
  {
    hide Flips, Masked, At;
    MaskedAt(m, mask, k, n);
    MaskedAt(Masked(m, mask, k), mask, k, n);
    SameMatrix(Masked(Masked(m, mask, k), mask, k), m, n);
  }

  method ApplyMask(g: Grid, k: nat)
    requires g.Valid() && k < 8
    modifies g.modules
    ensures g.Reserved() == old(g.Reserved())
    ensures g.Modules() == Masked(old(g.Modules()), g.Reserved(), k)
  {
    hide MaskBit, Masked, At;
    ghost var before, mask := g.Modules(), g.Reserved();
    MaskedAt(before, mask, k, g.n);
    for y := 0 to g.n
      invariant g.Reserved() == mask
      invariant forall c :: Inside(c, g.n) ==> At(g.Modules(), c) == (At(before, c) != (c.y < y && Flips(mask, k, c)))
    {
      for x := 0 to g.n
        invariant g.Reserved() == mask
        invariant forall c :: Inside(c, g.n) ==>
          At(g.Modules(), c) == (At(before, c) != ((c.y < y || (c.y == y && c.x < x)) && Flips(mask, k, c)))
      {
        ghost var c := Cell(x, y);
        assert At(g.Modules(), c) == g.modules[y, x] && At(mask, c) == g.reserved[y, x];
        if !g.reserved[y, x] && MaskBit(k, x, y) {
          g.modules[y, x] := !g.modules[y, x];
          assert g.Reserved() == mask;
        }
      }
    }
    SameMatrix(g.Modules(), Masked(before, mask, k), g.n);
  }

  // Format information.

  /** Ten steps of division by the BCH(15,5) generator 0x537. */
  function FormatRemainder(rem: bv32, steps: nat): bv32
    decreases steps
  {
    if steps == 0 then rem else FormatRemainder((rem << 1) ^ ((rem >> 9) * 0x537), steps - 1)
  }

  /** The 15-bit format information for level M and mask k. */
  function FormatBits(k: nat): bv32
    requires k < 8
  {
    var data := k as bv32;
    ((data << 10) | FormatRemainder(data, 10)) ^ 0x5412
  }

  predicate BitAt(word: bv32, i: nat)
    requires i < 15
  {
    (word >> i) & 1 == 1
  }

  predicate FormatBit(k: nat, i: nat)
    requires k < 8 && i < 15
  {
    BitAt(FormatBits(k), i)
  }

  /** The bit of the first copy, around the top left finder, that a module carries, or -1. */
  function FirstCopy(c: Cell): (i: int)
    ensures -1 <= i < 15
  {
    if c.x == 8 && 0 <= c.y <= 5 then c.y
    else if c.x == 8 && c.y == 7 then 6
    else if c.x == 8 && c.y == 8 then 7
    else if c.x == 7 && c.y == 8 then 8
    else if c.y == 8 && 0 <= c.x <= 5 then 14 - c.x
    else -1
  }

  /** The bit of the second copy, beside the other finders, that a module carries, 15 for the dark module, or -1. */
  function SecondCopy(n: nat, c: Cell): (i: int)
    ensures -1 <= i <= 15
  {
    if c.y == 8 && n - 8 <= c.x < n then n - 1 - c.x
    else if c.x == 8 && n - 7 <= c.y < n then c.y - (n - 15)
    else if c.x == 8 && c.y == n - 8 then 15
    else -1
  }

  function FormatIndex(n: nat, c: Cell): int {
    if FirstCopy(c) >= 0 then FirstCopy(c) else SecondCopy(n, c)
  }

  predicate FormatDark(k: nat, i: nat)
    requires k < 8 && i <= 15
  {
    i == 15 || FormatBit(k, i)
  }

  ghost predicate FormatReserved(mask: Matrix, n: nat) {
    forall c :: Inside(c, n) && FormatIndex(n, c) >= 0 ==> At(mask, c)
  }

  /** after is before with the format information for mask k drawn. */
  ghost predicate Drawn(before: Matrix, after: Matrix, k: nat, n: nat)
    requires k < 8
  {
    && Square(after, n)
    && forall c :: Inside(c, n) ==>
      At(after, c) == if FormatIndex(n, c) >= 0 then FormatDark(k, FormatIndex(n, c)) else At(before, c)
  }

  method SetFunction(g: Grid, x: nat, y: nat, dark: bool)
    requires g.Valid() && x < g.n && y < g.n
    modifies g.modules, g.reserved
    ensures forall c :: Inside(c, g.n) ==> At(g.Reserved(), c) == (c == Cell(x, y) || At(old(g.Reserved()), c))
    ensures forall c :: Inside(c, g.n) ==>
      At(g.Modules(), c) == if c == Cell(x, y) then dark else At(old(g.Modules()), c)
  {
    g.modules[y, x] := dark;
    g.reserved[y, x] := true;
  }

  /** The part of the first copy down the column. */
  predicate Column8(c: Cell) { c.x == 8 && (c.y <= 5 || c.y == 7 || c.y == 8) }

  method DrawColumn(g: Grid, k: nat)
    requires g.Valid() && k < 8 && g.n >= 21
    modifies g.modules, g.reserved
    ensures forall c :: Inside(c, g.n) ==> At(g.Reserved(), c) == (Column8(c) || At(old(g.Reserved()), c))
    ensures forall c :: Inside(c, g.n) ==>
      At(g.Modules(), c) == if Column8(c) then FormatBit(k, FirstCopy(c)) else At(old(g.Modules()), c)
  {
    hide FormatBit, At;
    ghost var before, mask, n := g.Modules(), g.Reserved(), g.n;
    for i := 0 to 6
      invariant forall c :: Inside(c, n) ==> At(g.Reserved(), c) == ((c.x == 8 && c.y < i) || At(mask, c))
      invariant forall c :: Inside(c, n) ==>
        At(g.Modules(), c) == if c.x == 8 && c.y < i then FormatBit(k, c.y) else At(before, c)
    {
      SetFunction(g, 8, i, FormatBit(k, i));
    }
    SetFunction(g, 8, 7, FormatBit(k, 6));
    SetFunction(g, 8, 8, FormatBit(k, 7));
  }

  method DrawFirstCopy(g: Grid, k: nat)
    requires g.Valid() && k < 8 && g.n >= 21
    modifies g.modules, g.reserved
    ensures forall c :: Inside(c, g.n) ==> At(g.Reserved(), c) == (FirstCopy(c) >= 0 || At(old(g.Reserved()), c))
    ensures forall c :: Inside(c, g.n) ==>
      At(g.Modules(), c) == if FirstCopy(c) >= 0 then FormatBit(k, FirstCopy(c)) else At(old(g.Modules()), c)
  {
    hide FormatBit, At;
    DrawColumn(g, k);
    SetFunction(g, 7, 8, FormatBit(k, 8));
    ghost var half, halfMask, n := g.Modules(), g.Reserved(), g.n;
    for i := 9 to 15
      invariant forall c :: Inside(c, n) ==> At(g.Reserved(), c) == ((c.y == 8 && 14 - i < c.x <= 5) || At(halfMask, c))
      invariant forall c :: Inside(c, n) ==>
        At(g.Modules(), c) == if c.y == 8 && 14 - i < c.x <= 5 then FormatBit(k, 14 - c.x) else At(half, c)
    {
      SetFunction(g, 14 - i, 8, FormatBit(k, i));
    }
  }

  method DrawSecondCopy(g: Grid, k: nat)
    requires g.Valid() && k < 8 && g.n >= 21
    modifies g.modules, g.reserved
    ensures forall c :: Inside(c, g.n) ==> At(g.Reserved(), c) == (SecondCopy(g.n, c) >= 0 || At(old(g.Reserved()), c))
    ensures forall c :: Inside(c, g.n) ==>
      At(g.Modules(), c) == if SecondCopy(g.n, c) >= 0 then FormatDark(k, SecondCopy(g.n, c))
        else At(old(g.Modules()), c)
  {
    hide FormatBit, At;
    ghost var before, mask, n := g.Modules(), g.Reserved(), g.n;
    for i := 0 to 8
      invariant forall c :: Inside(c, n) ==> At(g.Reserved(), c) == ((c.y == 8 && n - 1 - i < c.x) || At(mask, c))
      invariant forall c :: Inside(c, n) ==>
        At(g.Modules(), c) == if c.y == 8 && n - 1 - i < c.x then FormatBit(k, n - 1 - c.x) else At(before, c)
    {
      SetFunction(g, g.n - 1 - i, 8, FormatBit(k, i));
    }
    ghost var half, halfMask := g.Modules(), g.Reserved();
    for i := 8 to 15
      invariant forall c :: Inside(c, n) ==>
        At(g.Reserved(), c) == ((c.x == 8 && n - 7 <= c.y < n - 15 + i) || At(halfMask, c))
      invariant forall c :: Inside(c, n) ==>
        At(g.Modules(), c) ==
          if c.x == 8 && n - 7 <= c.y < n - 15 + i then FormatBit(k, c.y - (n - 15)) else At(half, c)
    {
      SetFunction(g, 8, g.n - 15 + i, FormatBit(k, i));
    }
    SetFunction(g, 8, g.n - 8, true);
  }

  /** Draws the format information and reserves its modules; where they are reserved already, no reservation changes. */
  method DrawFormatBits(g: Grid, k: nat)
    requires g.Valid() && k < 8 && g.n >= 21
    modifies g.modules, g.reserved
    ensures forall c :: Inside(c, g.n) ==> At(g.Reserved(), c) == (FormatIndex(g.n, c) >= 0 || At(old(g.Reserved()), c))
    ensures FormatReserved(g.Reserved(), g.n)
    ensures FormatReserved(old(g.Reserved()), g.n) ==> g.Reserved() == old(g.Reserved())
    ensures Drawn(old(g.Modules()), g.Modules(), k, g.n)
  {
    hide FormatBit, At;
    ghost var mask := g.Reserved();
    DrawFirstCopy(g, k);
    DrawSecondCopy(g, k);
    if FormatReserved(mask, g.n) { SameMatrix(g.Reserved(), mask, g.n); }
  }

  /** The matrix with the format information for mask k drawn. */
  function Drawing(before: Matrix, k: nat, n: nat): Matrix
    requires k < 8
  {
    seq(n, y => seq(n, x =>
      if FormatIndex(n, Cell(x, y)) >= 0 then FormatDark(k, FormatIndex(n, Cell(x, y))) else At(before, Cell(x, y))))
  }

  lemma DrawingAt(before: Matrix, k: nat, n: nat)
    requires k < 8
    ensures Drawn(before, Drawing(before, k, n), k, n)
  {
    hide FormatDark, FormatIndex;
  }

  lemma DrawnIs(before: Matrix, after: Matrix, k: nat, n: nat)
    requires k < 8 && Drawn(before, after, k, n)
    ensures after == Drawing(before, k, n)
  {
    hide FormatDark, FormatIndex, Drawing, At;
    DrawingAt(before, k, n);
    SameMatrix(after, Drawing(before, k, n), n);
  }

  /** The finished symbol: mask k applied to the placed codewords, and its format information drawn. */
  function Symbol(placed: Matrix, mask: Matrix, k: nat, n: nat): Matrix
    requires k < 8
  {
    Drawing(Masked(placed, mask, k), k, n)
  }

  /** What the modules are between two trials: as placed, except that a format drawing may remain. */
  ghost predicate BetweenTrials(placed: Matrix, now: Matrix, n: nat) {
    && Square(placed, n) && Square(now, n)
    && forall c :: Inside(c, n) && FormatIndex(n, c) < 0 ==> At(now, c) == At(placed, c)
  }

  /** A trial does not depend on the trials before it. */
  lemma TrialIndependent(placed: Matrix, now: Matrix, mask: Matrix, k: nat, n: nat)
    requires k < 8 && BetweenTrials(placed, now, n) && FormatReserved(mask, n)
    ensures Drawing(Masked(now, mask, k), k, n) == Symbol(placed, mask, k, n)
  {
    hide FormatDark, FormatIndex, Drawing, At, Flips, Masked;
    MaskedAt(now, mask, k, n);
    MaskedAt(placed, mask, k, n);
    DrawingAt(Masked(now, mask, k), k, n);
    DrawingAt(Masked(placed, mask, k), k, n);
    SameMatrix(Drawing(Masked(now, mask, k), k, n), Symbol(placed, mask, k, n), n);
  }

  /** Masking the trial symbol again restores every module but the format information. */
  lemma TrialUndone(placed: Matrix, mask: Matrix, k: nat, n: nat)
    requires k < 8 && Square(placed, n) && FormatReserved(mask, n)
    ensures BetweenTrials(placed, Masked(Symbol(placed, mask, k, n), mask, k), n)
  {
    hide FormatDark, FormatIndex, Drawing, At, Flips, Masked;
    MaskedAt(placed, mask, k, n);
    DrawingAt(Masked(placed, mask, k), k, n);
    MaskedAt(Symbol(placed, mask, k, n), mask, k, n);
  }
}
