/** abc042_d, "Iroha and a Grid": the number of right/down paths from the
    top-left to the bottom-right cell of an h x w grid that avoid the bottom-left
    a x b corner, modulo 1_000_000_007. */
module Abc042D {
  import opened Text

  datatype Input = Input(h: int, w: int, a: int, b: int)

  const Modulus: nat := 1_000_000_007

  /** `ParsedInput::try_from`: exactly one line holding `h`, `w`, `a`, `b`
      (usize, in that order, further words ignored). */
  function Parse(lines: seq<string>): (r: Result<Input>)
    ensures r.Ok? ==> |lines| == 1
    ensures r.Ok? ==> 0 <= r.value.h <= UsizeMax && 0 <= r.value.w <= UsizeMax
    ensures r.Ok? ==> 0 <= r.value.a <= UsizeMax && 0 <= r.value.b <= UsizeMax
  {
    if |lines| != 1 then Err("input must be 1 line")
    else
      var words := Tokens(lines[0]);
      if |words| < 1 then Err("missing `h`")
      else match ParseInt(words[0], 0, UsizeMax)
        case None => Err("`h` must be positive integer")
        case Some(h) =>
          if |words| < 2 then Err("missing `w`")
          else match ParseInt(words[1], 0, UsizeMax)
            case None => Err("`w` must be positive integer")
            case Some(w) =>
              if |words| < 3 then Err("missing `a`")
              else match ParseInt(words[2], 0, UsizeMax)
                case None => Err("`a` must be positive integer")
                case Some(a) =>
                  if |words| < 4 then Err("missing `b`")
                  else match ParseInt(words[3], 0, UsizeMax)
                    case None => Err("`b` must be positive integer")
                    case Some(b) => Ok(Input(h, w, a, b))
  }

  /** The number of right/down paths from (0, 0) to row `y`, column `x` that
      never enter a cell of a row from `top` on and a column before `b`. */
  function Paths(top: nat, b: nat, y: nat, x: nat): int
    decreases y + x
  {
    if y >= top && x < b then 0
    else if y == 0 && x == 0 then 1
    else (if y > 0 then Paths(top, b, y - 1, x) else 0) + (if x > 0 then Paths(top, b, y, x - 1) else 0)
  }

  /** The first row the corner blocks, in the rows `solve` computes: h - a, or
      1 when a == h (the code then treats its initial row of ones as a free row
      above the grid). */
  function Top(h: nat, a: nat): nat {
    if a < h then h - a else 1
  }

  /** The first column of row `y` that `solve` computes (and later reads). */
  function Lo(top: nat, b: nat, y: nat): nat {
    if y >= top then b else 0
  }

  /** Row `row` of the table holds the path counts of grid row `y`, reduced,
      from column Lo on. */
  ghost predicate RowHolds(grid: array2<nat>, row: nat, top: nat, b: nat, y: nat)
    requires row < grid.Length0
    reads grid
  {
    forall x :: Lo(top, b, y) <= x < grid.Length1 ==> grid[row, x] == Paths(top, b, y, x) % Modulus
  }

  /** One step of the addition in `solve`: two reduced counts added, with a
      single subtraction of the modulus, give the reduced sum. */
  lemma AddReduced(p: int, q: int)
    ensures var s := p % Modulus + q % Modulus;
            (if s >= Modulus then s - Modulus else s) == (p + q) % Modulus
  {
    var s := p % Modulus + q % Modulus;
    assert p + q == Modulus * (p / Modulus + q / Modulus) + s;
    if s >= Modulus {
      assert p + q == Modulus * (p / Modulus + q / Modulus + 1) + (s - Modulus);
    }
  }

  /** The inner loop of either loop of `solve`: fill row `cur` of the table
      with grid row `y` from column `from` on, out of the previous row held in
      the other table row. Cell `from` copies the cell above (the cell to its
      left is blocked or off the grid); each later cell adds the cell above and
      the one to its left, reduced by one subtraction. */
  method FillRow(grid: array2<nat>, cur: nat, from: nat, ghost top: nat, ghost b: nat, ghost y: nat)
    requires grid.Length0 == 2 && cur < 2 && 1 <= y
    requires from == Lo(top, b, y) < grid.Length1
    requires RowHolds(grid, 1 - cur, top, b, y - 1)
    modifies grid
    ensures RowHolds(grid, cur, top, b, y)
  {
    assert Paths(top, b, y, from) == Paths(top, b, y - 1, from) by {
      if from > 0 {
        assert Paths(top, b, y, from - 1) == 0;
      }
    }
    grid[cur, from] := grid[1 - cur, from];
    for x := from + 1 to grid.Length1
      invariant forall x' :: from <= x' < x ==> grid[cur, x'] == Paths(top, b, y, x') % Modulus
      invariant RowHolds(grid, 1 - cur, top, b, y - 1)
    {
      ghost var above, left := Paths(top, b, y - 1, x), Paths(top, b, y, x - 1);
      assert grid[1 - cur, x] == above % Modulus;
      assert grid[cur, x - 1] == left % Modulus;
      assert Paths(top, b, y, x) == above + left;
      AddReduced(above, left);
      grid[cur, x] := grid[1 - cur, x] + grid[cur, x - 1];
      if grid[cur, x] >= Modulus {
        grid[cur, x] := grid[cur, x] - Modulus;
      }
    }
  }

  /** `solve`'s table: two rows of `w` counts, the current one at `idx`. The
      first loop fills the free rows 1 .. h - a - 1 completely, the second the
      corner's rows from column `b` on; the answer is the last cell of the last row. */
  method PathCount(h: nat, w: nat, a: nat, b: nat) returns (r: nat)
    requires a <= h && 1 <= w && (a > 0 ==> b < w)
    ensures r < Modulus
    ensures r == Paths(Top(h, a), b, Top(h, a) + a - 1, w - 1) % Modulus
  {
    var top := Top(h, a);
    var grid := new nat[2, w]((i, j) => if i == 0 then 1 else 0);
    var idx := 0;
    ghost var y := 0;
    assert RowHolds(grid, 0, top, b, 0) by {
      forall x | 0 <= x < w ensures grid[0, x] == Paths(top, b, 0, x) % Modulus {
        FirstRow(top, b, x);
      }
    }
    var i := 1;
    while i < h - a
      invariant 1 <= i && y == i - 1 && y < top
      invariant idx < 2 && RowHolds(grid, idx, top, b, y)
    {
      idx := 1 - idx;
      y := y + 1;
      FillRow(grid, idx, 0, top, b, y);
      i := i + 1;
    }
    for i := h - a to h
      invariant y == top - 1 + (i - (h - a))
      invariant idx < 2 && RowHolds(grid, idx, top, b, y)
    {
      idx := 1 - idx;
      y := y + 1;
      FillRow(grid, idx, b, top, b, y);
    }
    r := grid[idx, w - 1];
  }

  /** `solve`: the reduced count, printed. Subtracting `a` from `h`, indexing
      column `b` and `w - 1` are only safe under its precondition. */
  method Solve(input: Input) returns (r: Result<string>)
    requires 0 <= input.a <= input.h && 1 <= input.w && 0 <= input.b
    requires input.a > 0 ==> input.b < input.w
    ensures r.Ok?
    ensures var top := Top(input.h, input.a);
            r.value == NatToString(Paths(top, input.b, top + input.a - 1, input.w - 1) % Modulus)
  {
    var count := PathCount(input.h, input.w, input.a, input.b);
    r := Ok(NatToString(count));
  }

  /** With 1 <= a < h, as the puzzle guarantees, the table's rows are the grid's rows. */
  lemma SolvedRowsAreGridRows(h: nat, a: nat)
    requires a < h
    ensures Top(h, a) == h - a && Top(h, a) + a - 1 == h - 1
  {}

  /** Every cell of the top row is reached one way, straight along the row. */
  lemma {:induction false} FirstRow(top: nat, b: nat, x: nat)
    requires top > 0
    ensures Paths(top, b, 0, x) == 1
  {
    if x > 0 {
      FirstRow(top, b, x - 1);
    }
  }

  /** Binomial coefficients by Pascal's rule. */
  function Choose(n: nat, k: nat): nat
    decreases n
  {
    if k == 0 || k == n then 1
    else if k > n then 0
    else Choose(n - 1, k - 1) + Choose(n - 1, k)
  }

  /** With nothing blocked (b == 0) the count is the binomial coefficient
      C(y + x, x): choose which of the y + x moves go right. */
  lemma {:induction false} UnblockedIsBinomial(top: nat, y: nat, x: nat)
    ensures Paths(top, 0, y, x) == Choose(y + x, x)
    decreases y + x
  {
    if y == 0 {
      FirstRowFree(top, x);
    } else if x == 0 {
      FirstColumnFree(top, y);
    } else {
      UnblockedIsBinomial(top, y - 1, x);
      UnblockedIsBinomial(top, y, x - 1);
      assert y + x - 1 == (y - 1) + x;
    }
  }

  lemma {:induction false} FirstRowFree(top: nat, x: nat)
    ensures Paths(top, 0, 0, x) == 1
  {
    if x > 0 {
      FirstRowFree(top, x - 1);
    }
  }

  lemma {:induction false} FirstColumnFree(top: nat, y: nat)
    ensures Paths(top, 0, y, 0) == 1
  {
    if y > 0 {
      FirstColumnFree(top, y - 1);
    }
  }

  lemma {:induction false} PathsNonNegative(top: nat, b: nat, y: nat, x: nat)
    ensures Paths(top, b, y, x) >= 0
    decreases y + x
  {
    if !(y >= top && x < b) && !(y == 0 && x == 0) {
      if y > 0 { PathsNonNegative(top, b, y - 1, x); }
      if x > 0 { PathsNonNegative(top, b, y, x - 1); }
    }
  }

  /** Blocking the corner only removes paths: the count never exceeds the
      unblocked count C(y + x, x). */
  lemma {:induction false} BlockingRemovesPaths(top: nat, b: nat, y: nat, x: nat)
    ensures Paths(top, b, y, x) <= Paths(top, 0, y, x)
    decreases y + x
  {
    if y >= top && x < b {
      PathsNonNegative(top, 0, y, x);
    } else if !(y == 0 && x == 0) {
      if y > 0 { BlockingRemovesPaths(top, b, y - 1, x); }
      if x > 0 { BlockingRemovesPaths(top, b, y, x - 1); }
    }
  }

  /** With only the top row free, the cells of column `b` below it are reached
      one way only: along the top row to column b, then straight down. */
  lemma {:induction false} EdgeColumn(b: nat, y: nat)
    ensures Paths(1, b, y, b) == 1
  {
    if y == 0 {
      FirstRow(1, b, b);
    } else {
      EdgeColumn(b, y - 1);
      if b > 0 {
        assert Paths(1, b, y, b - 1) == 0;
      }
    }
  }

  /** The third sample: h = w = 100000 and a = b = 99999 leave a single path. */
  lemma Example3()
    ensures Paths(Top(100000, 99999), 99999, Top(100000, 99999) + 99999 - 1, 100000 - 1) % Modulus == 1
  {
    EdgeColumn(99999, 99999);
  }

  /** The first sample: a 2 x 3 grid without its bottom-left cell has two paths. */
  lemma Example1()
    ensures Paths(Top(2, 1), 1, Top(2, 1) + 1 - 1, 3 - 1) % Modulus == 2
  {
    assert Paths(1, 1, 0, 0) == 1;
    assert Paths(1, 1, 0, 1) == 1;
    assert Paths(1, 1, 0, 2) == 1;
    assert Paths(1, 1, 1, 0) == 0;
    assert Paths(1, 1, 1, 1) == 1;
    assert Paths(1, 1, 1, 2) == 2;
  }

  /** The second sample, row by row: a 10 x 7 grid without its 3 x 4
      bottom-left corner has 3570 paths. */
  lemma Example2(h: nat, w: nat, a: nat, b: nat)
    requires h == 10 && w == 7 && a == 3 && b == 4
    ensures Paths(Top(h, a), b, Top(h, a) + a - 1, w - 1) % Modulus == 3570
  {
    var v := Paths(Top(h, a), b, Top(h, a) + a - 1, w - 1);
    Example2Value(h, w, a, b);
    assert v == 3570;
    SmallResidue(v);
  }

  lemma SmallResidue(v: int)
    requires 0 <= v < Modulus
    ensures v % Modulus == v
  {
  }

  lemma Example2Value(h: nat, w: nat, a: nat, b: nat)
    requires h == 10 && w == 7 && a == 3 && b == 4
    ensures Paths(Top(h, a), b, Top(h, a) + a - 1, w - 1) == 3570
  {
    assert Top(h, a) == 7 && Top(h, a) + a - 1 == 9 && w - 1 == 6;
    Example2Row9();
  }

  lemma Example2Row0()
    ensures Paths(7, 4, 0, 0) == 1
    ensures Paths(7, 4, 0, 1) == 1
    ensures Paths(7, 4, 0, 2) == 1
    ensures Paths(7, 4, 0, 3) == 1
    ensures Paths(7, 4, 0, 4) == 1
    ensures Paths(7, 4, 0, 5) == 1
    ensures Paths(7, 4, 0, 6) == 1
  {
    assert Paths(7, 4, 0, 0) == 1;
    assert Paths(7, 4, 0, 1) == 1;
    assert Paths(7, 4, 0, 2) == 1;
    assert Paths(7, 4, 0, 3) == 1;
    assert Paths(7, 4, 0, 4) == 1;
    assert Paths(7, 4, 0, 5) == 1;
    assert Paths(7, 4, 0, 6) == 1;
  }

  lemma Example2Row1()
    ensures Paths(7, 4, 1, 0) == 1
    ensures Paths(7, 4, 1, 1) == 2
    ensures Paths(7, 4, 1, 2) == 3
    ensures Paths(7, 4, 1, 3) == 4
    ensures Paths(7, 4, 1, 4) == 5
    ensures Paths(7, 4, 1, 5) == 6
    ensures Paths(7, 4, 1, 6) == 7
  {
    Example2Row0();
    assert Paths(7, 4, 1, 0) == 1;
    assert Paths(7, 4, 1, 1) == 2;
    assert Paths(7, 4, 1, 2) == 3;
    assert Paths(7, 4, 1, 3) == 4;
    assert Paths(7, 4, 1, 4) == 5;
    assert Paths(7, 4, 1, 5) == 6;
    assert Paths(7, 4, 1, 6) == 7;
  }

  lemma Example2Row2()
    ensures Paths(7, 4, 2, 0) == 1
    ensures Paths(7, 4, 2, 1) == 3
    ensures Paths(7, 4, 2, 2) == 6
    ensures Paths(7, 4, 2, 3) == 10
    ensures Paths(7, 4, 2, 4) == 15
    ensures Paths(7, 4, 2, 5) == 21
    ensures Paths(7, 4, 2, 6) == 28
  {
    Example2Row1();
    assert Paths(7, 4, 2, 0) == 1;
    assert Paths(7, 4, 2, 1) == 3;
    assert Paths(7, 4, 2, 2) == 6;
    assert Paths(7, 4, 2, 3) == 10;
    assert Paths(7, 4, 2, 4) == 15;
    assert Paths(7, 4, 2, 5) == 21;
    assert Paths(7, 4, 2, 6) == 28;
  }

  lemma Example2Row3()
    ensures Paths(7, 4, 3, 0) == 1
    ensures Paths(7, 4, 3, 1) == 4
    ensures Paths(7, 4, 3, 2) == 10
    ensures Paths(7, 4, 3, 3) == 20
    ensures Paths(7, 4, 3, 4) == 35
    ensures Paths(7, 4, 3, 5) == 56
    ensures Paths(7, 4, 3, 6) == 84
  {
    Example2Row2();
    assert Paths(7, 4, 3, 0) == 1;
    assert Paths(7, 4, 3, 1) == 4;
    assert Paths(7, 4, 3, 2) == 10;
    assert Paths(7, 4, 3, 3) == 20;
    assert Paths(7, 4, 3, 4) == 35;
    assert Paths(7, 4, 3, 5) == 56;
    assert Paths(7, 4, 3, 6) == 84;
  }

  lemma Example2Row4()
    ensures Paths(7, 4, 4, 0) == 1
    ensures Paths(7, 4, 4, 1) == 5
    ensures Paths(7, 4, 4, 2) == 15
    ensures Paths(7, 4, 4, 3) == 35
    ensures Paths(7, 4, 4, 4) == 70
    ensures Paths(7, 4, 4, 5) == 126
    ensures Paths(7, 4, 4, 6) == 210
  {
    Example2Row3();
    assert Paths(7, 4, 4, 0) == 1;
    assert Paths(7, 4, 4, 1) == 5;
    assert Paths(7, 4, 4, 2) == 15;
    assert Paths(7, 4, 4, 3) == 35;
    assert Paths(7, 4, 4, 4) == 70;
    assert Paths(7, 4, 4, 5) == 126;
    assert Paths(7, 4, 4, 6) == 210;
  }

  lemma Example2Row5()
    ensures Paths(7, 4, 5, 0) == 1
    ensures Paths(7, 4, 5, 1) == 6
    ensures Paths(7, 4, 5, 2) == 21
    ensures Paths(7, 4, 5, 3) == 56
    ensures Paths(7, 4, 5, 4) == 126
    ensures Paths(7, 4, 5, 5) == 252
    ensures Paths(7, 4, 5, 6) == 462
  {
    Example2Row4();
    assert Paths(7, 4, 5, 0) == 1;
    assert Paths(7, 4, 5, 1) == 6;
    assert Paths(7, 4, 5, 2) == 21;
    assert Paths(7, 4, 5, 3) == 56;
    assert Paths(7, 4, 5, 4) == 126;
    assert Paths(7, 4, 5, 5) == 252;
    assert Paths(7, 4, 5, 6) == 462;
  }

  lemma Example2Row6()
    ensures Paths(7, 4, 6, 0) == 1
    ensures Paths(7, 4, 6, 1) == 7
    ensures Paths(7, 4, 6, 2) == 28
    ensures Paths(7, 4, 6, 3) == 84
    ensures Paths(7, 4, 6, 4) == 210
    ensures Paths(7, 4, 6, 5) == 462
    ensures Paths(7, 4, 6, 6) == 924
  {
    Example2Row5();
    assert Paths(7, 4, 6, 0) == 1;
    assert Paths(7, 4, 6, 1) == 7;
    assert Paths(7, 4, 6, 2) == 28;
    assert Paths(7, 4, 6, 3) == 84;
    assert Paths(7, 4, 6, 4) == 210;
    assert Paths(7, 4, 6, 5) == 462;
    assert Paths(7, 4, 6, 6) == 924;
  }

  lemma Example2Row7()
    ensures Paths(7, 4, 7, 4) == 210
    ensures Paths(7, 4, 7, 5) == 672
    ensures Paths(7, 4, 7, 6) == 1596
  {
    Example2Row6();
    assert Paths(7, 4, 7, 3) == 0;
    assert Paths(7, 4, 7, 4) == 210;
    assert Paths(7, 4, 7, 5) == 672;
    assert Paths(7, 4, 7, 6) == 1596;
  }

  lemma Example2Row8()
    ensures Paths(7, 4, 8, 4) == 210
    ensures Paths(7, 4, 8, 5) == 882
    ensures Paths(7, 4, 8, 6) == 2478
  {
    Example2Row7();
    assert Paths(7, 4, 8, 3) == 0;
    assert Paths(7, 4, 8, 4) == 210;
    assert Paths(7, 4, 8, 5) == 882;
    assert Paths(7, 4, 8, 6) == 2478;
  }

  lemma Example2Row9()
    ensures Paths(7, 4, 9, 4) == 210
    ensures Paths(7, 4, 9, 5) == 1092
    ensures Paths(7, 4, 9, 6) == 3570
  {
    Example2Row8();
    assert Paths(7, 4, 9, 3) == 0;
    assert Paths(7, 4, 9, 4) == 210;
    assert Paths(7, 4, 9, 5) == 1092;
    assert Paths(7, 4, 9, 6) == 3570;
  }

  lemma ParseExample()
    ensures Parse(["2 3 1 1"]) == Ok(Input(2, 3, 1, 1))
  {
    ParseExampleWords();
    ParseExampleNumbers();
  }

  lemma ParseExampleNumbers()
    ensures ParseInt("2", 0, UsizeMax) == Some(2)
    ensures ParseInt("3", 0, UsizeMax) == Some(3)
    ensures ParseInt("1", 0, UsizeMax) == Some(1)
  {
    ParseIntToString(2, 0, UsizeMax);
    ParseIntToString(3, 0, UsizeMax);
    ParseIntToString(1, 0, UsizeMax);
  }

  lemma ParseExampleWords()
    ensures Tokens("2 3 1 1") == ["2", "3", "1", "1"]
  {
    assert Unwords(["2", "3", "1", "1"]) == "2 3 1 1";
    TokensOfUnwords(["2", "3", "1", "1"]);
  }

  /** The canonical line of the four values, with any further words after them. */
  function Render(input: Input, extra: seq<string>): seq<string> {
    [Unwords([IntToString(input.h), IntToString(input.w), IntToString(input.a), IntToString(input.b)] + extra)]
  }

  /** Parsing the canonical line of any four usize values gives them back,
      whatever words follow them. */
  lemma {:induction false} ParseRender(input: Input, extra: seq<string>)
    requires 0 <= input.h <= UsizeMax && 0 <= input.w <= UsizeMax
    requires 0 <= input.a <= UsizeMax && 0 <= input.b <= UsizeMax
    requires forall i :: 0 <= i < |extra| ==> IsWord(extra[i])
    ensures Parse(Render(input, extra)) == Ok(input)
  {
    var ws := [IntToString(input.h), IntToString(input.w), IntToString(input.a), IntToString(input.b)] + extra;
    IntToStringIsWord(input.h);
    IntToStringIsWord(input.w);
    IntToStringIsWord(input.a);
    IntToStringIsWord(input.b);
    TokensOfUnwords(ws);
    ParseIntToString(input.h, 0, UsizeMax);
    ParseIntToString(input.w, 0, UsizeMax);
    ParseIntToString(input.a, 0, UsizeMax);
    ParseIntToString(input.b, 0, UsizeMax);
  }

  lemma ParseErrorLineCount()
    ensures Parse(["2 3 1 1", "1"]) == Err("input must be 1 line")
  {}

  /** Each value reported missing, in order. */
  lemma ParseErrorMissing()
    ensures Parse([""]) == Err("missing `h`")
    ensures Parse(["2"]) == Err("missing `w`")
    ensures Parse(["2 3"]) == Err("missing `a`")
    ensures Parse(["2 3 1"]) == Err("missing `b`")
  {
    ParseExampleNumbers();
    assert Unwords(["2"]) == "2";
    TokensOfUnwords(["2"]);
    assert Unwords(["2", "3"]) == "2 3";
    TokensOfUnwords(["2", "3"]);
    assert Unwords(["2", "3", "1"]) == "2 3 1";
    TokensOfUnwords(["2", "3", "1"]);
  }

  lemma ParseErrorH()
    ensures Parse(["h 3 1 1"]) == Err("`h` must be positive integer")
  {
    assert Unwords(["h", "3", "1", "1"]) == "h 3 1 1";
    TokensOfUnwords(["h", "3", "1", "1"]);
    assert !IsDigit('h');
  }

  lemma ParseErrorW()
    ensures Parse(["2 w 1 1"]) == Err("`w` must be positive integer")
  {
    ParseExampleNumbers();
    assert Unwords(["2", "w", "1", "1"]) == "2 w 1 1";
    TokensOfUnwords(["2", "w", "1", "1"]);
    assert !IsDigit('w');
  }

  lemma ParseErrorA()
    ensures Parse(["2 3 a 1"]) == Err("`a` must be positive integer")
  {
    ParseExampleNumbers();
    assert Unwords(["2", "3", "a", "1"]) == "2 3 a 1";
    TokensOfUnwords(["2", "3", "a", "1"]);
    assert !IsDigit('a');
  }

  lemma ParseErrorB()
    ensures Parse(["2 3 1 b"]) == Err("`b` must be positive integer")
  {
    ParseExampleNumbers();
    assert Unwords(["2", "3", "1", "b"]) == "2 3 1 b";
    TokensOfUnwords(["2", "3", "1", "b"]);
    assert !IsDigit('b');
  }
}
