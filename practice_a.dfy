/** practice_a, "Welcome to AtCoder": read an integer `a`, two integers `b c`
    and a string `s` on three lines, print `a + b + c` and `s`. */
module PracticeA {
  import opened Text

  datatype Input = Input(a: int, b: int, c: int, s: string)

  /** `ParsedInput::try_from`: exactly three lines; line 0 is `a` as a whole
      (neither split nor trimmed); `b` and `c` are the first two words of line 1
      (any further words are ignored); line 2 is `s` verbatim. */
  function Parse(lines: seq<string>): (r: Result<Input>)
    ensures r.Ok? ==> |lines| == 3 && r.value.s == lines[2]
    ensures r.Ok? ==> IsI32(r.value.a) && IsI32(r.value.b) && IsI32(r.value.c)
    ensures |lines| != 3 ==> r == Err("input must be 3 lines")
  {
    if |lines| != 3 then Err("input must be 3 lines")
    else match ParseInt(lines[0], I32Min, I32Max)
      case None => Err("`a` must be integer")
      case Some(a) =>
        var words := Tokens(lines[1]);
        if |words| < 1 then Err("missing `b`")
        else match ParseInt(words[0], I32Min, I32Max)
          case None => Err("`b` must be integer")
          case Some(b) =>
            if |words| < 2 then Err("missing `c`")
            else match ParseInt(words[1], I32Min, I32Max)
              case None => Err("`c` must be integer")
              case Some(c) => Ok(Input(a, b, c, lines[2]))
  }

  /** `solve`: the sum, one space, then `s`. The i32 sum is computed as
      `(a + b) + c` and panics on overflow in a debug build, so callers must
      keep both additions in range. */
  function Solve(input: Input): (r: Result<string>)
    requires IsI32(input.a + input.b) && IsI32(input.a + input.b + input.c)
    ensures r.Ok?
  {
    Ok(IntToString(input.a + input.b + input.c) + " " + input.s)
  }

  /** Reading the answer line back: the word before the first space parses to
      `a + b + c`, and everything after that space is `s` unchanged. */
  lemma SolveReadsBack(input: Input)
    requires IsI32(input.a + input.b) && IsI32(input.a + input.b + input.c)
    ensures var line := Solve(input).value;
            var k := |Word(line)|;
            k < |line| && line[k] == ' ' &&
            ParseInt(line[..k], I32Min, I32Max) == Some(input.a + input.b + input.c) &&
            line[k + 1..] == input.s
  {
    var sum := input.a + input.b + input.c;
    var t := IntToString(sum);
    var line := Solve(input).value;
    IntToStringIsWord(sum);
    Regroup(t, " ", input.s);
    WordOfPrefix(t, " " + input.s);
    assert line[..|t|] == t;
    assert line[|t| + 1..] == input.s;
    ParseIntToString(sum, I32Min, I32Max);
  }

  lemma Regroup(x: string, y: string, z: string)
    ensures x + y + z == x + (y + z)
  {
  }

  /** The three lines a well-formed test case consists of, with any extra words after `b c`. */
  function Render(input: Input, extra: seq<string>): seq<string> {
    [IntToString(input.a), Unwords([IntToString(input.b), IntToString(input.c)] + extra), input.s]
  }

  /** Parsing the canonical rendering of any i32 triple and string gives them
      back, whatever words follow `b c` on line 1. */
  lemma {:induction false} ParseRender(input: Input, extra: seq<string>)
    requires IsI32(input.a) && IsI32(input.b) && IsI32(input.c)
    requires forall i :: 0 <= i < |extra| ==> IsWord(extra[i])
    ensures Parse(Render(input, extra)) == Ok(input)
  {
    var ws := [IntToString(input.b), IntToString(input.c)] + extra;
    IntToStringIsWord(input.b);
    IntToStringIsWord(input.c);
    assert forall i :: 0 <= i < |ws| ==> IsWord(ws[i]) by {
      forall i | 2 <= i < |ws| ensures IsWord(ws[i]) { assert ws[i] == extra[i - 2]; }
    }
    TokensOfUnwords(ws);
    assert Tokens(Render(input, extra)[1]) == ws;
    ParseIntToString(input.a, I32Min, I32Max);
    ParseIntToString(input.b, I32Min, I32Max);
    ParseIntToString(input.c, I32Min, I32Max);
  }

  lemma Example1()
    ensures Parse(["1", "2 3", "test"]) == Ok(Input(1, 2, 3, "test"))
    ensures Solve(Input(1, 2, 3, "test")) == Ok("6 test")
  {
    var input := Input(1, 2, 3, "test");
    assert [IntToString(2), IntToString(3)] + [] == ["2", "3"];
    assert Unwords(["2", "3"]) == "2 3";
    assert Render(input, []) == ["1", "2 3", "test"];
    ParseRender(input, []);
    assert IntToString(6) == "6";
    assert "6" + " " + "test" == "6 test";
  }

  lemma Example2Parse()
    ensures Parse(["72", "128 256", "myonmyon"]) == Ok(Input(72, 128, 256, "myonmyon"))
  {
    Example2Words();
    Example2Numbers();
  }

  lemma Example2Words()
    ensures Tokens("128 256") == ["128", "256"]
  {
    assert Unwords(["128", "256"]) == "128 256";
    TokensOfUnwords(["128", "256"]);
  }

  lemma Example2Numbers()
    ensures ParseInt("72", I32Min, I32Max) == Some(72)
    ensures ParseInt("128", I32Min, I32Max) == Some(128)
    ensures ParseInt("256", I32Min, I32Max) == Some(256)
  {
    assert IntToString(72) == "72";
    assert IntToString(128) == "128";
    assert IntToString(256) == "256";
    ParseIntToString(72, I32Min, I32Max);
    ParseIntToString(128, I32Min, I32Max);
    ParseIntToString(256, I32Min, I32Max);
  }

  lemma Example2Solve()
    ensures Solve(Input(72, 128, 256, "myonmyon")) == Ok("456 myonmyon")
  {
    assert IntToString(456) == "456";
    assert "456" + " " + "myonmyon" == "456 myonmyon";
  }

  lemma ErrorLineCount()
    ensures Parse(["1", "2 3"]) == Err("input must be 3 lines")
  {}

  lemma ErrorA()
    ensures Parse(["a", "2 3", "test"]) == Err("`a` must be integer")
    ensures Parse([" 1", "2 3", "test"]) == Err("`a` must be integer")
  {}

  lemma ErrorMissing()
    ensures Parse(["1", "", "test"]) == Err("missing `b`")
    ensures Parse(["1", "2", "test"]) == Err("missing `c`")
  {
    assert ParseInt("1", I32Min, I32Max) == Some(1);
    assert ParseInt("2", I32Min, I32Max) == Some(2);
    assert Tokens("2") == ["2"] by { TokensOfUnwords(["2"]); }
  }

  lemma ErrorB()
    ensures Parse(["1", "b 3", "test"]) == Err("`b` must be integer")
  {
    assert ParseInt("1", I32Min, I32Max) == Some(1);
    assert Tokens("b 3") == ["b", "3"] by { TokensOfUnwords(["b", "3"]); }
  }

  lemma ErrorC()
    ensures Parse(["1", "2 c", "test"]) == Err("`c` must be integer")
  {
    assert ParseInt("1", I32Min, I32Max) == Some(1);
    assert ParseInt("2", I32Min, I32Max) == Some(2);
    assert Tokens("2 c") == ["2", "c"] by { TokensOfUnwords(["2", "c"]); }
  }
}
