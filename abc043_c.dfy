/** abc043_c, "Be Together": turn every integer of a list into one common
    integer, paying (x - y)^2 for turning x into y, at least total cost. */
module Abc043C {
  import opened Text

  datatype Input = Input(n: int, a: seq<int>)

  const Lowest: int := -100
  const Highest: int := 100

  /** `ParsedInput::try_from`: exactly two lines; line 0, trimmed, is `n` as a
      usize (never compared with the list); line 1's words are the i32 list. */
  function Parse(lines: seq<string>): (r: Result<Input>)
    ensures r.Ok? ==> |lines| == 2 && 0 <= r.value.n <= UsizeMax
    ensures r.Ok? ==> |r.value.a| == |Tokens(lines[1])|
    ensures r.Ok? ==> forall i :: 0 <= i < |r.value.a| ==> IsI32(r.value.a[i])
  {
    if |lines| != 2 then Err("input must be 2 lines")
    else match ParseInt(Trim(lines[0]), 0, UsizeMax)
      case None => Err("`n` must be positive integer")
      case Some(n) =>
        match ParseInts(Tokens(lines[1]), I32Min, I32Max)
        case None => Err("list items must be integers")
        case Some(a) => Ok(Input(n, a))
  }

  /** The total cost of turning every element into `c`. */
  function Cost(a: seq<int>, c: int): int {
    if a == [] then 0 else Cost(a[..|a| - 1], c) + (a[|a| - 1] - c) * (a[|a| - 1] - c)
  }

  lemma {:induction false} CostNonNegative(a: seq<int>, c: int)
    ensures Cost(a, c) >= 0
  {
    if a != [] {
      CostNonNegative(a[..|a| - 1], c);
    }
  }

  /** The least cost over the targets `Lowest..hi` (and `I32Max`, the starting
      value, when that range is empty). */
  function BestBelow(a: seq<int>, hi: int): int
    requires Lowest <= hi
    decreases hi - Lowest
  {
    if hi == Lowest then I32Max
    else
      var prev := BestBelow(a, hi - 1);
      if Cost(a, hi - 1) < prev then Cost(a, hi - 1) else prev
  }

  /** The best cost found so far never increases as more targets are tried. */
  lemma BestBelowNeverIncreases(a: seq<int>, hi: int)
    requires Lowest <= hi
    ensures BestBelow(a, hi + 1) <= BestBelow(a, hi)
  {}

  /** The loop of `solve`: the cost of every target -100..=100, keeping the
      least. Sums and squares are i32, so every cost must fit in an i32. */
  method BestCost(a: seq<int>) returns (best: int)
    requires forall c :: Lowest <= c <= Highest ==> Cost(a, c) <= I32Max
    ensures best >= 0
    ensures forall c :: Lowest <= c <= Highest ==> best <= Cost(a, c)
    ensures exists c :: Lowest <= c <= Highest && best == Cost(a, c)
    ensures best == BestBelow(a, Highest + 1)
  {
    best := I32Max;
    var c := Lowest;
    while c <= Highest
      invariant Lowest <= c <= Highest + 1
      invariant best == BestBelow(a, c)
      invariant forall d :: Lowest <= d < c ==> best <= Cost(a, d)
      invariant c > Lowest ==> exists d :: Lowest <= d < c && best == Cost(a, d)
      invariant c == Lowest ==> best == I32Max
    {
      var cost := Cost(a, c);
      if cost < best {
        best := cost;
      }
      c := c + 1;
    }
    CostNonNegative(a, Lowest);
    var d :| Lowest <= d < c && best == Cost(a, d);
    CostNonNegative(a, d);
  }

  /** `solve`: the least cost, printed. */
  method Solve(input: Input) returns (r: Result<string>)
    requires forall c :: Lowest <= c <= Highest ==> Cost(input.a, c) <= I32Max
    ensures r.Ok?
    ensures exists c :: (Lowest <= c <= Highest && r.value == IntToString(Cost(input.a, c)) &&
                         forall d :: Lowest <= d <= Highest ==> Cost(input.a, c) <= Cost(input.a, d))
  {
    var best := BestCost(input.a);
    r := Ok(IntToString(best));
  }

  function Sum(a: seq<int>): int {
    if a == [] then 0 else Sum(a[..|a| - 1]) + a[|a| - 1]
  }

  function SumSquares(a: seq<int>): int {
    if a == [] then 0 else SumSquares(a[..|a| - 1]) + a[|a| - 1] * a[|a| - 1]
  }

  /** Moving the target from c to d changes the cost by n e^2 + 2 e (n c - S),
      with e = d - c: the cost is a quadratic in the target, least near the mean S / n. */
  lemma {:induction false} CostShift(a: seq<int>, c: int, d: int)
    ensures Cost(a, d) - Cost(a, c) == |a| * ((d - c) * (d - c)) + (2 * (d - c)) * (|a| * c - Sum(a))
  {
    if a != [] {
      var p, x := a[..|a| - 1], a[|a| - 1];
      var sq, f := (d - c) * (d - c), 2 * (d - c);
      var g := |p| * c - Sum(p);
      CostShift(p, c, d);
      SquareShift(x, c, d);
      Combine(|p|, sq, f, g, c - x, Cost(p, d) - Cost(p, c), (x - d) * (x - d) - (x - c) * (x - c));
      MulSucc(|p|, c);
      MulSucc(|p|, sq);
      assert |a| * c - Sum(a) == g + (c - x);
    }
  }

  lemma SquareShift(x: int, c: int, d: int)
    ensures (x - d) * (x - d) - (x - c) * (x - c) == (d - c) * (d - c) + (2 * (d - c)) * (c - x)
  {}

  lemma Combine(m: int, sq: int, f: int, g: int, h: int, dp: int, dx: int)
    requires dp == m * sq + f * g && dx == sq + f * h
    ensures dp + dx == (m + 1) * sq + f * (g + h)
  {}

  lemma MulSucc(m: int, c: int)
    ensures (m + 1) * c == m * c + c
  {}

  /** A target within half a step of the mean (|n c - S| <= n / 2) costs no
      more than any other integer target: the brute force's answer is the cost
      at the rounded mean. */
  lemma RoundedMeanIsOptimal(a: seq<int>, c: int, d: int)
    requires 2 * (|a| * c - Sum(a)) <= |a| && 2 * (Sum(a) - |a| * c) <= |a|
    ensures Cost(a, c) <= Cost(a, d)
  {
    CostShift(a, c, d);
    QuadraticNonNegative(|a|, d - c, |a| * c - Sum(a));
  }

  /** n e^2 + 2 e g >= 0 for every integer e once |2 g| <= n. */
  lemma QuadraticNonNegative(n: int, e: int, g: int)
    requires 0 <= n && 2 * g <= n && -(2 * g) <= n
    ensures n * (e * e) + (2 * e) * g >= 0
  {
    if e != 0 {
      var f: nat := if e > 0 then e else -e;
      assert e * e == f * f;
      MulLeft(f, f, 1);
      MulLeft(n, f * f, f);
      if e > 0 {
        MulLeft(f, 2 * g, -n);
        assert (2 * e) * g == f * (2 * g);
      } else {
        MulLeft(f, n, 2 * g);
        assert (2 * e) * g == -(f * (2 * g));
      }
    }
  }

  lemma MulLeft(k: nat, x: int, y: int)
    requires x >= y
    ensures k * x >= k * y
  {
    assert k * x - k * y == k * (x - y);
  }

  /** When some target c in range is no costlier than every other target in range,
      the loop's answer is exactly its cost. */
  lemma MinimumOf(a: seq<int>, c: int)
    requires Lowest <= c <= Highest && Cost(a, c) <= I32Max
    requires forall d :: Lowest <= d <= Highest ==> Cost(a, c) <= Cost(a, d)
    ensures BestBelow(a, Highest + 1) == Cost(a, c)
  {
    BestBelowIsLeast(a, Highest + 1);
  }

  /** BestBelow(a, hi) is the least cost of the targets below hi, or the starting value. */
  lemma {:induction false} BestBelowIsLeast(a: seq<int>, hi: int)
    requires Lowest <= hi
    ensures BestBelow(a, hi) <= I32Max
    ensures forall d :: Lowest <= d < hi ==> BestBelow(a, hi) <= Cost(a, d)
    ensures BestBelow(a, hi) == I32Max || exists d :: Lowest <= d < hi && BestBelow(a, hi) == Cost(a, d)
    decreases hi - Lowest
  {
    if hi > Lowest {
      BestBelowIsLeast(a, hi - 1);
      if Cost(a, hi - 1) < BestBelow(a, hi - 1) {
        assert BestBelow(a, hi) == Cost(a, hi - 1);
      }
    }
  }

  /** The answer for `a` when c is its rounded mean. */
  lemma AnswerAtMean(a: seq<int>, c: int)
    requires Lowest <= c <= Highest && Cost(a, c) <= I32Max
    requires 2 * (|a| * c - Sum(a)) <= |a| && 2 * (Sum(a) - |a| * c) <= |a|
    ensures BestBelow(a, Highest + 1) == Cost(a, c)
  {
    forall d | Lowest <= d <= Highest ensures Cost(a, c) <= Cost(a, d) {
      RoundedMeanIsOptimal(a, c, d);
    }
    MinimumOf(a, c);
  }

  lemma Example1()
    ensures BestBelow([4, 8], Highest + 1) == 8
  {
    assert [4, 8][..1] == [4];
    assert [4, 8][..0] == [];
    assert Sum([4]) == 4;
    assert Sum([4, 8]) == 12;
    assert Cost([4], 6) == 4;
    assert Cost([4, 8], 6) == 8;
    AnswerAtMean([4, 8], 6);
  }

  lemma Example2()
    ensures BestBelow([1, 1, 3], Highest + 1) == 3
  {
    assert [1, 1, 3][..2] == [1, 1];
    assert [1, 1, 3][..1] == [1];
    assert [1, 1, 3][..0] == [];
    assert Sum([1]) == 1;
    assert Sum([1, 1]) == 2;
    assert Sum([1, 1, 3]) == 5;
    assert Cost([1], 2) == 1;
    assert Cost([1, 1], 2) == 2;
    assert Cost([1, 1, 3], 2) == 3;
    AnswerAtMean([1, 1, 3], 2);
  }

  lemma Example3()
    ensures BestBelow([4, 2, 5], Highest + 1) == 5
  {
    assert [4, 2, 5][..2] == [4, 2];
    assert [4, 2, 5][..1] == [4];
    assert [4, 2, 5][..0] == [];
    assert Sum([4]) == 4;
    assert Sum([4, 2]) == 6;
    assert Sum([4, 2, 5]) == 11;
    assert Cost([4], 4) == 0;
    assert Cost([4, 2], 4) == 4;
    assert Cost([4, 2, 5], 4) == 5;
    AnswerAtMean([4, 2, 5], 4);
  }

  lemma Example4()
    ensures BestBelow([-100, -100, -100, -100], Highest + 1) == 0
  {
    assert [-100, -100, -100, -100][..3] == [-100, -100, -100];
    assert [-100, -100, -100, -100][..2] == [-100, -100];
    assert [-100, -100, -100, -100][..1] == [-100];
    assert [-100, -100, -100, -100][..0] == [];
    assert Sum([-100]) == -100;
    assert Sum([-100, -100]) == -200;
    assert Sum([-100, -100, -100]) == -300;
    assert Sum([-100, -100, -100, -100]) == -400;
    assert Cost([-100], -100) == 0;
    assert Cost([-100, -100], -100) == 0;
    assert Cost([-100, -100, -100], -100) == 0;
    assert Cost([-100, -100, -100, -100], -100) == 0;
    AnswerAtMean([-100, -100, -100, -100], -100);
  }

  lemma ParseExample()
    ensures Parse(["2", "4 8"]) == Ok(Input(2, [4, 8]))
  {
    FirstLineTwo();
    FourEight();
  }

  lemma FirstLineTwo()
    ensures ParseInt(Trim("2"), 0, UsizeMax) == Some(2)
  {
    assert Trim("2") == "2";
  }

  lemma FourEight()
    ensures ParseInts(Tokens("4 8"), I32Min, I32Max) == Some([4, 8])
  {
    assert Tokens("4 8") == ["4", "8"] by {
      assert Unwords(["4", "8"]) == "4 8";
      TokensOfUnwords(["4", "8"]);
    }
    EightAlone();
    assert ParseInt("4", I32Min, I32Max) == Some(4);
    assert ["4", "8"][1..] == ["8"];
    assert [4] + [8] == [4, 8];
  }

  lemma EightAlone()
    ensures ParseInts(["8"], I32Min, I32Max) == Some([8])
  {
    assert ParseInt("8", I32Min, I32Max) == Some(8);
    assert ["8"][1..] == [];
    assert [8] + [] == [8];
  }

  lemma ParseErrorLineCount()
    ensures Parse(["2"]) == Err("input must be 2 lines")
  {}

  lemma ParseErrorN()
    ensures Parse(["a", "4 8"]) == Err("`n` must be positive integer")
    ensures Parse(["-2", "4 8"]) == Err("`n` must be positive integer")
  {
    assert Trim("a") == "a";
    assert Trim("-2") == "-2";
  }

  lemma ParseErrorItem()
    ensures Parse(["2", "4 x"]) == Err("list items must be integers")
  {
    FirstLineTwo();
    FourThenLetter();
  }

  lemma FourThenLetter()
    ensures ParseInts(Tokens("4 x"), I32Min, I32Max) == None
  {
    assert Tokens("4 x") == ["4", "x"] by {
      assert Unwords(["4", "x"]) == "4 x";
      TokensOfUnwords(["4", "x"]);
    }
    assert ParseInt("4", I32Min, I32Max) == Some(4);
    assert ["4", "x"][1..] == ["x"];
    assert ParseInts(["x"], I32Min, I32Max) == None;
  }

  /** The two lines of a test case, the count padded with spaces, which the
      trim removes. */
  function Render(input: Input): seq<string> {
    [" " + IntToString(input.n) + " ", Unwords(Numerals(input.a))]
  }

  /** Parsing the lines of any usize count and list of i32 values gives them back. */
  lemma {:induction false} ParseRender(input: Input)
    requires 0 <= input.n <= UsizeMax
    requires forall i :: 0 <= i < |input.a| ==> IsI32(input.a[i])
    ensures Parse(Render(input)) == Ok(input)
  {
    IntToStringIsWord(input.n);
    TrimPadded(IntToString(input.n));
    ParseIntToString(input.n, 0, UsizeMax);
    NumeralsAreWords(input.a);
    TokensOfUnwords(Numerals(input.a));
    ParseNumerals(input.a, I32Min, I32Max);
  }
}
