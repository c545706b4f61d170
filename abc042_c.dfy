/** abc042_c, "Iroha's Obsession": the least amount of at least `n` yen whose
    decimal notation uses none of the disliked digits `d`. */
module Abc042C {
  import opened Text

  datatype Input = Input(n: int, k: int, d: seq<int>)

  const InvalidDigit: string := "`d` must be list of decimal digits"

  /** `ParsedInput::try_from`: exactly two lines; line 0 holds `n` (i32) and
      `k` (usize) in that order, further words ignored; line 1's words are the
      digits, each a u8. `k` is never compared with the number of digits. */
  function Parse(lines: seq<string>): (r: Result<Input>)
    ensures r.Ok? ==> |lines| == 2 && I32Min <= r.value.n <= I32Max && 0 <= r.value.k <= UsizeMax
    ensures r.Ok? ==> |r.value.d| == |Tokens(lines[1])|
    ensures r.Ok? ==> forall i :: 0 <= i < |r.value.d| ==> 0 <= r.value.d[i] <= U8Max
  {
    if |lines| != 2 then Err("input must be 2 lines")
    else
      var words := Tokens(lines[0]);
      if |words| < 1 then Err("missing `n`")
      else match ParseInt(words[0], I32Min, I32Max)
        case None => Err("`n` must be positive integer")
        case Some(n) =>
          if |words| < 2 then Err("missing `k`")
          else match ParseInt(words[1], 0, UsizeMax)
            case None => Err("`k` must be positive integer")
            case Some(k) =>
              match ParseInts(Tokens(lines[1]), 0, U8Max)
              case None => Err("`d` must be list of positive integers")
              case Some(d) => Ok(Input(n, k, d))
  }

  predicate AllDecimal(d: seq<int>) {
    forall i :: 0 <= i < |d| ==> 0 <= d[i] <= 9
  }

  /** No decimal digit of `m` is one of the disliked digits. */
  predicate Avoids(m: nat, d: seq<int>) {
    var s := NatToString(m);
    forall i :: 0 <= i < |s| ==> DigitValue(s[i]) !in d
  }

  /** The same test against the table of disliked digits `solve` builds. */
  predicate AvoidsTable(m: nat, table: seq<bool>)
    requires |table| == 10
  {
    var s := NatToString(m);
    forall i :: 0 <= i < |s| ==> !table[DigitValue(s[i])]
  }

  /** `m` is the answer: the least amount from `n` on that avoids `d`. */
  predicate IsAnswer(n: int, d: seq<int>, m: int) {
    0 <= n <= m && Avoids(m, d) && forall k :: n <= k < m ==> !Avoids(k, d)
  }

  /** The first loop of `solve`: mark each disliked digit in a ten-entry table,
      failing at the first value outside 0..=9. */
  method DislikedTable(d: seq<int>) returns (r: Result<seq<bool>>)
    ensures r.Err? <==> !AllDecimal(d)
    ensures r.Err? ==> r.msg == InvalidDigit
    ensures r.Ok? ==> |r.value| == 10 && forall x :: 0 <= x < 10 ==> (r.value[x] <==> x in d)
  {
    var digits := new bool[10](_ => false);
    for i := 0 to |d|
      invariant AllDecimal(d[..i])
      invariant forall x :: 0 <= x < 10 ==> (digits[x] <==> x in d[..i])
    {
      if !(0 <= d[i] <= 9) {
        return Err(InvalidDigit);
      }
      digits[d[i]] := true;
      assert d[..i + 1] == d[..i] + [d[i]];
    }
    assert d[..|d|] == d;
    return Ok(digits[..]);
  }

  /** The `all` test on the digits of `m`'s decimal notation. */
  method Acceptable(m: nat, table: seq<bool>) returns (ok: bool)
    requires |table| == 10
    ensures ok <==> AvoidsTable(m, table)
  {
    var s := NatToString(m);
    for i := 0 to |s|
      invariant forall j :: 0 <= j < i ==> !table[DigitValue(s[j])]
    {
      if table[DigitValue(s[i])] {
        return false;
      }
    }
    return true;
  }

  /** The second loop of `solve`: count up from `n` until an acceptable amount.
      A negative `n` panics on the '-' of its notation, and counting past
      i32::MAX panics, so the source needs an acceptable amount in `n..=i32::MAX`. */
  method Search(n: int, table: seq<bool>) returns (ans: int)
    requires |table| == 10
    requires 0 <= n && exists m :: n <= m <= I32Max && AvoidsTable(m, table)
    ensures n <= ans <= I32Max && AvoidsTable(ans, table)
    ensures forall k :: n <= k < ans ==> !AvoidsTable(k, table)
  {
    ghost var w :| n <= w <= I32Max && AvoidsTable(w, table);
    ans := n;
    while true
      invariant n <= ans <= w
      invariant forall k :: n <= k < ans ==> !AvoidsTable(k, table)
      decreases w - ans
    {
      var ok := Acceptable(ans, table);
      if ok {
        break;
      }
      ans := ans + 1;
    }
  }

  /** With the table built from `d`, the two tests agree. */
  lemma TableAgrees(table: seq<bool>, d: seq<int>, m: nat)
    requires |table| == 10 && forall x :: 0 <= x < 10 ==> (table[x] <==> x in d)
    ensures AvoidsTable(m, table) <==> Avoids(m, d)
  {
    var s := NatToString(m);
    forall i | 0 <= i < |s| ensures 0 <= DigitValue(s[i]) < 10 {
      assert IsDigit(s[i]);
    }
  }

  /** `solve`: the answer's decimal notation, or the error for a value outside
      0..=9 in `d`. */
  method Solve(input: Input) returns (r: Result<string>)
    requires AllDecimal(input.d) ==> 0 <= input.n && exists m :: input.n <= m <= I32Max && Avoids(m, input.d)
    ensures r.Err? <==> !AllDecimal(input.d)
    ensures r.Err? ==> r.msg == InvalidDigit
    ensures r.Ok? ==> exists m :: m <= I32Max && IsAnswer(input.n, input.d, m) && r.value == NatToString(m)
  {
    var t := DislikedTable(input.d);
    if t.Err? {
      return Err(t.msg);
    }
    var table := t.value;
    ghost var m :| input.n <= m <= I32Max && Avoids(m, input.d);
    TableAgrees(table, input.d, m);
    var ans := Search(input.n, table);
    TableAgrees(table, input.d, ans);
    forall k | input.n <= k < ans ensures !Avoids(k, input.d) {
      TableAgrees(table, input.d, k);
    }
    r := Ok(NatToString(ans));
  }

  /** The first digit of a number of two or more digits is that of the number
      without its last digit. */
  lemma LeadingDigit(m: nat)
    requires m >= 10
    ensures NatToString(m)[0] == NatToString(m / 10)[0]
  {}

  lemma ThousandsLeadWithOne(m: nat)
    requires 1000 <= m < 2000
    ensures NatToString(m)[0] == '1'
  {
    LeadingDigit(m);
    LeadingDigit(m / 10);
    LeadingDigit(m / 100);
    assert m / 10 / 10 == m / 100;
    assert m / 100 / 10 == 1;
  }

  lemma Example1()
    ensures IsAnswer(1000, [1, 3, 4, 5, 6, 7, 8, 9], 2000)
  {
    var d := [1, 3, 4, 5, 6, 7, 8, 9];
    forall k | 1000 <= k < 2000 ensures !Avoids(k, d) {
      ThousandsAreDisliked(k);
    }
    TwoThousandAvoids();
  }

  lemma ThousandsAreDisliked(k: nat)
    requires 1000 <= k < 2000
    ensures !Avoids(k, [1, 3, 4, 5, 6, 7, 8, 9])
  {
    ThousandsLeadWithOne(k);
    assert DigitValue(NatToString(k)[0]) == 1;
  }

  lemma TwoThousandAvoids()
    ensures Avoids(2000, [1, 3, 4, 5, 6, 7, 8, 9])
  {
    var d := [1, 3, 4, 5, 6, 7, 8, 9];
    var s := NatToString(2000);
    TwoThousandNotation();
    forall i | 0 <= i < |s| ensures DigitValue(s[i]) !in d {
      assert s[i] == '2' || s[i] == '0';
    }
  }

  lemma TwoThousandNotation()
    ensures NatToString(2000) == "2000"
  {
    assert NatToString(2) == "2";
    assert NatToString(20) == "20";
    assert NatToString(200) == "200";
  }

  lemma ThousandNotation()
    ensures NatToString(1000) == "1000"
  {
    assert NatToString(1) == "1";
    assert NatToString(10) == "10";
    assert NatToString(100) == "100";
  }

  lemma ParseExample()
    ensures Parse(["1000 8", "1 31 4"]) == Ok(Input(1000, 8, [1, 31, 4]))
  {
    ParseExampleFirstLine();
    ParseExampleWords();
    ParseThree();
  }

  lemma ParseExampleWords()
    ensures Tokens("1000 8") == ["1000", "8"]
    ensures Tokens("1 31 4") == ["1", "31", "4"]
  {
    assert Unwords(["1000", "8"]) == "1000 8";
    TokensOfUnwords(["1000", "8"]);
    assert Unwords(["1", "31", "4"]) == "1 31 4";
    TokensOfUnwords(["1", "31", "4"]);
  }

  lemma ParseExampleFirstLine()
    ensures ParseInt("1000", I32Min, I32Max) == Some(1000)
    ensures ParseInt("8", 0, UsizeMax) == Some(8)
  {
    ThousandNotation();
    ParseIntToString(1000, I32Min, I32Max);
    ParseIntToString(8, 0, UsizeMax);
  }

  lemma ParseThree()
    ensures ParseInts(["1", "31", "4"], 0, U8Max) == Some([1, 31, 4])
  {
    assert ParseInt("31", 0, U8Max) == Some(31) by {
      assert NatToString(31) == "31";
      ParseIntToString(31, 0, U8Max);
    }
    assert ParseInt("1", 0, U8Max) == Some(1);
    assert ParseInt("4", 0, U8Max) == Some(4);
    assert ["1", "31", "4"][1..] == ["31", "4"];
    assert ["31", "4"][1..] == ["4"];
    assert ["4"][1..] == [];
    assert ParseInts([], 0, U8Max) == Some([]);
    assert ParseInts(["4"], 0, U8Max) == Some([4] + []);
    assert [4] + [] == [4];
    assert ParseInts(["31", "4"], 0, U8Max) == Some([31] + [4]);
    assert [31] + [4] == [31, 4];
    assert [1] + [31, 4] == [1, 31, 4];
  }

  /** "31" parses as a u8, so the digit list is only rejected by `solve`. */
  lemma InvalidDigitExample()
    ensures !AllDecimal([1, 31, 4])
  {
    assert [1, 31, 4][1] == 31;
  }

  lemma ParseErrors()
    ensures Parse(["1000 8", "1", "1"]) == Err("input must be 2 lines")
    ensures Parse(["", "1"]) == Err("missing `n`")
    ensures Parse(["n 8", "1"]) == Err("`n` must be positive integer")
  {
    assert Tokens("n 8") == ["n", "8"] by {
      assert Unwords(["n", "8"]) == "n 8";
      TokensOfUnwords(["n", "8"]);
    }
  }

  lemma ParseErrorsK()
    ensures Parse(["7", "1"]) == Err("missing `k`")
    ensures Parse(["7 k", "1"]) == Err("`k` must be positive integer")
  {
    assert ParseInt("7", I32Min, I32Max) == Some(7);
    assert Tokens("7") == ["7"] by {
      assert Unwords(["7"]) == "7";
      TokensOfUnwords(["7"]);
    }
    assert Tokens("7 k") == ["7", "k"] by {
      assert Unwords(["7", "k"]) == "7 k";
      TokensOfUnwords(["7", "k"]);
    }
  }

  lemma ParseErrorD()
    ensures Parse(["7 2", "1 a"]) == Err("`d` must be list of positive integers")
  {
    SevenTwo();
    LetterInDigits();
  }

  lemma SevenTwo()
    ensures Tokens("7 2") == ["7", "2"]
    ensures ParseInt("7", I32Min, I32Max) == Some(7) && ParseInt("2", 0, UsizeMax) == Some(2)
  {
    assert Unwords(["7", "2"]) == "7 2";
    TokensOfUnwords(["7", "2"]);
  }

  lemma LetterInDigits()
    ensures ParseInts(Tokens("1 a"), 0, U8Max) == None
  {
    assert Tokens("1 a") == ["1", "a"] by {
      assert Unwords(["1", "a"]) == "1 a";
      TokensOfUnwords(["1", "a"]);
    }
    assert ParseInt("a", 0, U8Max) == None;
  }

  /** The canonical two lines: "n k" with any further words, then the digits. */
  function Render(input: Input, extra: seq<string>): seq<string> {
    [Unwords([IntToString(input.n), IntToString(input.k)] + extra), Unwords(Numerals(input.d))]
  }

  /** Parsing the canonical lines of an i32 `n`, a usize `k` and a list of u8
      values gives them back, whatever words follow `k`. */
  lemma {:induction false} ParseRender(input: Input, extra: seq<string>)
    requires I32Min <= input.n <= I32Max && 0 <= input.k <= UsizeMax
    requires forall i :: 0 <= i < |input.d| ==> 0 <= input.d[i] <= U8Max
    requires forall i :: 0 <= i < |extra| ==> IsWord(extra[i])
    ensures Parse(Render(input, extra)) == Ok(input)
  {
    var ws := [IntToString(input.n), IntToString(input.k)] + extra;
    IntToStringIsWord(input.n);
    IntToStringIsWord(input.k);
    TokensOfUnwords(ws);
    ParseIntToString(input.n, I32Min, I32Max);
    ParseIntToString(input.k, 0, UsizeMax);
    NumeralsAreWords(input.d);
    TokensOfUnwords(Numerals(input.d));
    ParseNumerals(input.d, 0, U8Max);
  }
}
