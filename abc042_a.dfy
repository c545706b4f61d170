/** abc042_a, "Iroha and Haiku": can three phrase lengths be arranged as 5-7-5? */
module Abc042A {
  import opened Text

  datatype Input = Input(a: int, b: int, c: int)

  /** `ParsedInput::try_from`: exactly one line whose first three words are i32
      values `a`, `b`, `c`, checked in that order; further words are ignored.
      The message says "positive integer" but negative values parse. */
  function Parse(lines: seq<string>): (r: Result<Input>)
    ensures r.Ok? ==> |lines| == 1 && IsI32(r.value.a) && IsI32(r.value.b) && IsI32(r.value.c)
  {
    if |lines| != 1 then Err("input must be 1 line")
    else
      var words := Tokens(lines[0]);
      if |words| < 1 then Err("missing `a`")
      else match ParseInt(words[0], I32Min, I32Max)
        case None => Err("`a` must be positive integer")
        case Some(a) =>
          if |words| < 2 then Err("missing `b`")
          else match ParseInt(words[1], I32Min, I32Max)
            case None => Err("`b` must be positive integer")
            case Some(b) =>
              if |words| < 3 then Err("missing `c`")
              else match ParseInt(words[2], I32Min, I32Max)
                case None => Err("`c` must be positive integer")
                case Some(c) => Ok(Input(a, b, c))
  }

  /** `solve`: "YES" for the three orders of 5, 5, 7, otherwise "NO". */
  function Solve(input: Input): (r: Result<string>)
    ensures r.Ok? && (r.value == "YES" || r.value == "NO")
  {
    match (input.a, input.b, input.c)
    case (5, 5, 7) => Ok("YES")
    case (5, 7, 5) => Ok("YES")
    case (7, 5, 5) => Ok("YES")
    case _ => Ok("NO")
  }

  /** The answer is "YES" exactly when the three lengths are, as a multiset, {5, 5, 7}. */
  lemma SolveIsHaikuMultiset(input: Input)
    ensures Solve(input).value == "YES" <==> multiset{input.a, input.b, input.c} == multiset{5, 5, 7}
  {
    var m := multiset{input.a, input.b, input.c};
    if m == multiset{5, 5, 7} {
      assert m[5] == 2 && m[7] == 1;
      assert input.a in m && input.b in m && input.c in m;
      assert input.a == 5 || input.a == 7;
      assert input.b == 5 || input.b == 7;
      assert input.c == 5 || input.c == 7;
    }
  }

  function Render(input: Input, extra: seq<string>): seq<string> {
    [Unwords([IntToString(input.a), IntToString(input.b), IntToString(input.c)] + extra)]
  }

  /** Parsing the canonical line of any i32 triple gives it back, whatever words follow it. */
  lemma {:induction false} ParseRender(input: Input, extra: seq<string>)
    requires IsI32(input.a) && IsI32(input.b) && IsI32(input.c)
    requires forall i :: 0 <= i < |extra| ==> IsWord(extra[i])
    ensures Parse(Render(input, extra)) == Ok(input)
  {
    var ws := [IntToString(input.a), IntToString(input.b), IntToString(input.c)] + extra;
    IntToStringIsWord(input.a);
    IntToStringIsWord(input.b);
    IntToStringIsWord(input.c);
    TokensOfUnwords(ws);
    ParseIntToString(input.a, I32Min, I32Max);
    ParseIntToString(input.b, I32Min, I32Max);
    ParseIntToString(input.c, I32Min, I32Max);
  }

  lemma Example1()
    ensures Parse(["5 5 7"]) == Ok(Input(5, 5, 7))
    ensures Solve(Input(5, 5, 7)) == Ok("YES")
  {
    assert Render(Input(5, 5, 7), []) == ["5 5 7"] by {
      assert [IntToString(5), IntToString(5), IntToString(7)] + [] == ["5", "5", "7"];
      assert Unwords(["5", "5", "7"]) == "5 5 7";
    }
    ParseRender(Input(5, 5, 7), []);
  }

  lemma Example2()
    ensures Parse(["7 7 5"]) == Ok(Input(7, 7, 5))
    ensures Solve(Input(7, 7, 5)) == Ok("NO")
  {
    assert Render(Input(7, 7, 5), []) == ["7 7 5"] by {
      assert [IntToString(7), IntToString(7), IntToString(5)] + [] == ["7", "7", "5"];
      assert Unwords(["7", "7", "5"]) == "7 7 5";
    }
    ParseRender(Input(7, 7, 5), []);
  }

  /** A negative length parses although the message speaks of positive integers. */
  lemma NegativeParses()
    ensures Parse(["-5 5 7"]) == Ok(Input(-5, 5, 7))
  {
    assert Render(Input(-5, 5, 7), []) == ["-5 5 7"] by {
      assert IntToString(-5) == "-5";
      assert [IntToString(-5), IntToString(5), IntToString(7)] + [] == ["-5", "5", "7"];
      assert Unwords(["-5", "5", "7"]) == "-5 5 7";
    }
    ParseRender(Input(-5, 5, 7), []);
  }

  lemma ErrorLineCount()
    ensures Parse(["5 5 7", "1"]) == Err("input must be 1 line")
  {}

  lemma ErrorMissing()
    ensures Parse([""]) == Err("missing `a`")
    ensures Parse(["5"]) == Err("missing `b`")
    ensures Parse(["5 7"]) == Err("missing `c`")
  {
    FiveSeven();
    assert Tokens("5") == ["5"] by {
      assert Unwords(["5"]) == "5";
      TokensOfUnwords(["5"]);
    }
    assert Tokens("5 7") == ["5", "7"] by {
      assert Unwords(["5", "7"]) == "5 7";
      TokensOfUnwords(["5", "7"]);
    }
  }

  lemma ErrorA()
    ensures Parse(["a 5 7"]) == Err("`a` must be positive integer")
  {
    assert Tokens("a 5 7") == ["a", "5", "7"] by {
      assert Unwords(["a", "5", "7"]) == "a 5 7";
      TokensOfUnwords(["a", "5", "7"]);
    }
  }

  lemma ErrorB()
    ensures Parse(["5 b 7"]) == Err("`b` must be positive integer")
  {
    FiveSeven();
    WordsOfFiveB();
  }

  lemma ErrorC()
    ensures Parse(["5 7 c"]) == Err("`c` must be positive integer")
  {
    FiveSeven();
    WordsOfFiveSevenC();
  }

  lemma FiveSeven()
    ensures ParseInt("5", I32Min, I32Max) == Some(5)
    ensures ParseInt("7", I32Min, I32Max) == Some(7)
  {
    assert IntToString(5) == "5" && IntToString(7) == "7";
    ParseIntToString(5, I32Min, I32Max);
    ParseIntToString(7, I32Min, I32Max);
  }

  lemma WordsOfFiveB()
    ensures Tokens("5 b 7") == ["5", "b", "7"]
  {
    assert Unwords(["5", "b", "7"]) == "5 b 7";
    TokensOfUnwords(["5", "b", "7"]);
  }

  lemma WordsOfFiveSevenC()
    ensures Tokens("5 7 c") == ["5", "7", "c"]
  {
    assert Unwords(["5", "7", "c"]) == "5 7 c";
    TokensOfUnwords(["5", "7", "c"]);
  }
}
