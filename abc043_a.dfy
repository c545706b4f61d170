/** abc043_a, "Children and Candies": the candies needed to give 1, 2, ..., n
    candies to n children. */
module Abc043A {
  import opened Text

  datatype Input = Input(n: int)

  /** `ParsedInput::try_from`: exactly one line; only its first word is read, as an i32. */
  function Parse(lines: seq<string>): (r: Result<Input>)
    ensures r.Ok? ==> |lines| == 1 && I32Min <= r.value.n <= I32Max
  {
    if |lines| != 1 then Err("input must be 1 line")
    else
      var words := Tokens(lines[0]);
      if |words| < 1 then Err("missing `n`")
      else match ParseInt(words[0], I32Min, I32Max)
        case None => Err("`n` must be positive integer")
        case Some(n) => Ok(Input(n))
  }

  /** 1 + 2 + ... + n, the reference the closed form is checked against. */
  function SumTo(n: nat): nat {
    if n == 0 then 0 else SumTo(n - 1) + n
  }

  /** `solve`: `n * (n + 1) / 2` in i32; the product must not overflow (a debug
      build panics). The product is never negative, so Rust's truncating division
      and Dafny's agree. */
  function Solve(input: Input): (r: Result<string>)
    requires input.n * (input.n + 1) <= I32Max
    ensures r.Ok?
  {
    Ok(IntToString(input.n * (input.n + 1) / 2))
  }

  /** n (n + 1) is even and equals twice 1 + ... + n, so the division is exact. */
  lemma {:induction false} ClosedForm(n: nat)
    ensures n * (n + 1) == 2 * SumTo(n)
  {
    if n > 0 {
      ClosedForm(n - 1);
      assert n * (n + 1) == (n - 1) * n + 2 * n;
    }
  }

  /** For n >= 1 the answer is the decimal rendering of 1 + 2 + ... + n. */
  lemma SolveIsSum(input: Input)
    requires 0 <= input.n && input.n * (input.n + 1) <= I32Max
    ensures Solve(input) == Ok(IntToString(SumTo(input.n)))
  {
    var k := SumTo(input.n);
    ClosedForm(input.n);
    assert input.n * (input.n + 1) / 2 == (2 * k) / 2 == k;
  }

  /** For a negative n (which parses, despite the message) the answer is
      1 + ... + (-n - 1): the product n (n + 1) is the same as for -n - 1. */
  lemma SolveNegative(input: Input)
    requires input.n < 0 && input.n * (input.n + 1) <= I32Max
    ensures Solve(input) == Ok(IntToString(SumTo(-input.n - 1)))
  {
    var m := -input.n - 1;
    var k := SumTo(m);
    ClosedForm(m);
    assert input.n * (input.n + 1) == m * (m + 1);
    assert input.n * (input.n + 1) / 2 == (2 * k) / 2 == k;
  }

  function Render(input: Input, extra: seq<string>): seq<string> {
    [Unwords([IntToString(input.n)] + extra)]
  }

  /** Parsing the canonical line of any i32 gives it back, whatever words follow it. */
  lemma {:induction false} ParseRender(input: Input, extra: seq<string>)
    requires I32Min <= input.n <= I32Max
    requires forall i :: 0 <= i < |extra| ==> IsWord(extra[i])
    ensures Parse(Render(input, extra)) == Ok(input)
  {
    IntToStringIsWord(input.n);
    TokensOfUnwords([IntToString(input.n)] + extra);
    ParseIntToString(input.n, I32Min, I32Max);
  }

  lemma Example1()
    ensures Parse(["3"]) == Ok(Input(3))
    ensures Solve(Input(3)) == Ok("6")
  {
    assert Render(Input(3), []) == ["3"] by {
      assert [IntToString(3)] + [] == ["3"];
    }
    ParseRender(Input(3), []);
  }

  lemma Example2()
    ensures Parse(["10"]) == Ok(Input(10))
    ensures Solve(Input(10)) == Ok("55")
  {
    Example2Parse();
    Example2Solve();
  }

  lemma Example2Parse()
    ensures Parse(["10"]) == Ok(Input(10))
  {
    assert Render(Input(10), []) == ["10"] by {
      assert IntToString(10) == "10";
      assert [IntToString(10)] + [] == ["10"];
    }
    ParseRender(Input(10), []);
  }

  lemma Example2Solve()
    ensures Solve(Input(10)) == Ok("55")
  {
    assert 10 * (10 + 1) / 2 == 55;
    assert IntToString(55) == "55";
  }

  lemma Example3()
    ensures Parse(["1"]) == Ok(Input(1))
    ensures Solve(Input(1)) == Ok("1")
  {
    assert Render(Input(1), []) == ["1"] by {
      assert [IntToString(1)] + [] == ["1"];
    }
    ParseRender(Input(1), []);
  }

  lemma Errors()
    ensures Parse(["3", "1"]) == Err("input must be 1 line")
    ensures Parse([""]) == Err("missing `n`")
    ensures Parse(["a 5 7"]) == Err("`n` must be positive integer")
  {
    assert Tokens("a 5 7") == ["a", "5", "7"] by {
      assert Unwords(["a", "5", "7"]) == "a 5 7";
      TokensOfUnwords(["a", "5", "7"]);
    }
  }
}
