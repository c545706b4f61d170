/** abc042_b, "Iroha Loves Strings": order `n` strings so that their
    concatenation is the lexicographically smallest, and print it. */
module Abc042B {
  import opened Text

  datatype Input = Input(n: int, l: int, s: seq<string>)

  /** `ParsedInput::try_from`: line 0 holds `n` and `l` (usize, in that order,
      further words ignored); then the input must be exactly n + 1 lines, the
      last n of which are the strings, verbatim. `l` is never compared with the
      strings' lengths. */
  function Parse(lines: seq<string>): (r: Result<Input>)
    ensures r.Ok? ==> 0 <= r.value.n && |lines| == r.value.n + 1 && r.value.s == lines[1..]
    ensures r.Ok? ==> 0 <= r.value.l <= UsizeMax
    ensures lines == [] ==> r == Err("input must be (n + 1) lines")
  {
    if lines == [] then Err("input must be (n + 1) lines")
    else
      var words := Tokens(lines[0]);
      if |words| < 1 then Err("missing `n`")
      else match ParseInt(words[0], 0, UsizeMax)
        case None => Err("`n` must be positive integer")
        case Some(n) =>
          if |words| < 2 then Err("missing `l`")
          else match ParseInt(words[1], 0, UsizeMax)
            case None => Err("`l` must be positive integer")
            case Some(l) =>
              if |lines| != n + 1 then Err("input must be (n + 1) lines")
              else Ok(Input(n, l, lines[1..]))
  }

  /** The order of `String` in Rust: byte-wise lexicographic on UTF-8, which is
      the code-point order on characters; a proper prefix comes first. */
  predicate LexLe(x: string, y: string)
    ensures x <= y ==> LexLe(x, y)
  {
    x == [] || (y != [] && (x[0] < y[0] || (x[0] == y[0] && LexLe(x[1..], y[1..]))))
  }

  lemma {:induction false} LexLeReflexive(x: string)
    ensures LexLe(x, x)
  {
    if x != [] {
      LexLeReflexive(x[1..]);
    }
  }

  lemma {:induction false} LexLeTotal(x: string, y: string)
    ensures LexLe(x, y) || LexLe(y, x)
  {
    if x != [] && y != [] && x[0] == y[0] {
      LexLeTotal(x[1..], y[1..]);
    }
  }

  lemma {:induction false} LexLeAntisymmetric(x: string, y: string)
    requires LexLe(x, y) && LexLe(y, x)
    ensures x == y
  {
    if x != [] && y != [] {
      LexLeAntisymmetric(x[1..], y[1..]);
      assert x == [x[0]] + x[1..] && y == [y[0]] + y[1..];
    }
  }

  lemma {:induction false} LexLeTransitive(x: string, y: string, z: string)
    requires LexLe(x, y) && LexLe(y, z)
    ensures LexLe(x, z)
  {
    if x != [] && y != [] && z != [] && x[0] == y[0] && y[0] == z[0] {
      LexLeTransitive(x[1..], y[1..], z[1..]);
    }
  }

  predicate Sorted(s: seq<string>) {
    forall i, j :: 0 <= i < j < |s| ==> LexLe(s[i], s[j])
  }

  /** `x` inserted into a sorted sequence before the first element it precedes. */
  function Insert(x: string, s: seq<string>): (r: seq<string>)
    requires Sorted(s)
    ensures Sorted(r)
    ensures multiset(r) == multiset(s) + multiset{x}
  {
    if s == [] then [x]
    else if LexLe(x, s[0]) then
      assert forall j :: 0 < j < |s| ==> LexLe(x, s[j]) by {
        forall j | 0 < j < |s| ensures LexLe(x, s[j]) { LexLeTransitive(x, s[0], s[j]); }
      }
      [x] + s
    else
      LexLeTotal(x, s[0]);
      var rest := Insert(x, s[1..]);
      assert s == [s[0]] + s[1..];
      HeadPrecedesInsert(x, s, rest);
      [s[0]] + rest
  }

  /** The head of a sorted sequence precedes everything once `x`, which it
      precedes, is inserted into its tail. */
  lemma HeadPrecedesInsert(x: string, s: seq<string>, rest: seq<string>)
    requires s != [] && Sorted(s) && LexLe(s[0], x)
    requires multiset(rest) == multiset(s[1..]) + multiset{x}
    ensures forall j :: 0 <= j < |rest| ==> LexLe(s[0], rest[j])
  {
    forall j | 0 <= j < |rest| ensures LexLe(s[0], rest[j]) {
      assert rest[j] in multiset(rest);
      if rest[j] != x {
        assert rest[j] in multiset(s[1..]);
        var k :| 0 <= k < |s[1..]| && s[1..][k] == rest[j];
        assert s[k + 1] == rest[j];
      }
    }
  }

  /** `fragments.sort()`: the strings in ascending order, as a permutation of the input. */
  function SortFragments(s: seq<string>): (r: seq<string>)
    ensures Sorted(r)
    ensures multiset(r) == multiset(s)
  {
    if s == [] then []
    else
      assert s == s[..|s| - 1] + [s[|s| - 1]];
      Insert(s[|s| - 1], SortFragments(s[..|s| - 1]))
  }

  /** `join("")`: the strings one after another. */
  function Concat(s: seq<string>): string {
    if s == [] then [] else s[0] + Concat(s[1..])
  }

  function TotalLength(s: seq<string>): nat {
    if s == [] then 0 else |s[0]| + TotalLength(s[1..])
  }

  /** `solve`: the sorted strings, concatenated. */
  function Solve(input: Input): (r: Result<string>)
    ensures r.Ok?
  {
    Ok(Concat(SortFragments(input.s)))
  }

  /** Two sorted arrangements of the same strings are the same sequence: the
      answer does not depend on the order the strings were given in. */
  lemma {:induction false} SortedPermutationUnique(p: seq<string>, q: seq<string>)
    requires Sorted(p) && Sorted(q) && multiset(p) == multiset(q)
    ensures p == q
  {
    if p != [] {
      SameHead(p, q);
      SortedPermutationUnique(p[1..], q[1..]);
      assert p == [p[0]] + p[1..] && q == [q[0]] + q[1..];
    }
  }

  /** Two sorted arrangements of the same strings start alike, and what
      follows is again two sorted arrangements of the same strings. */
  lemma SameHead(p: seq<string>, q: seq<string>)
    requires Sorted(p) && Sorted(q) && multiset(p) == multiset(q) && p != []
    ensures q != [] && p[0] == q[0]
    ensures Sorted(p[1..]) && Sorted(q[1..]) && multiset(p[1..]) == multiset(q[1..])
  {
    assert p[0] in multiset(q);
    assert q != [];
    assert q[0] in multiset(p);
    HeadIsLeast(p, q[0]);
    HeadIsLeast(q, p[0]);
    LexLeAntisymmetric(p[0], q[0]);
    DropHead(p);
    DropHead(q);
  }

  /** The first element of a sorted sequence precedes every element of it. */
  lemma HeadIsLeast(p: seq<string>, x: string)
    requires Sorted(p) && x in multiset(p)
    ensures LexLe(p[0], x)
  {
    var i :| 0 <= i < |p| && p[i] == x;
    if i == 0 {
      LexLeReflexive(x);
    }
  }

  lemma DropHead(p: seq<string>)
    requires p != []
    ensures multiset(p[1..]) == multiset(p) - multiset{p[0]}
  {
    assert p == [p[0]] + p[1..];
  }

  lemma SolveIgnoresOrder(s: seq<string>, t: seq<string>)
    requires multiset(s) == multiset(t)
    ensures Solve(Input(|s|, 0, s)) == Solve(Input(|t|, 0, t))
  {
    SortedPermutationUnique(SortFragments(s), SortFragments(t));
  }

  lemma {:induction false} ConcatLength(s: seq<string>)
    ensures |Concat(s)| == TotalLength(s)
  {
    if s != [] {
      ConcatLength(s[1..]);
    }
  }

  lemma {:induction false} TotalLengthOfPermutation(s: seq<string>, t: seq<string>)
    requires multiset(s) == multiset(t)
    ensures TotalLength(s) == TotalLength(t)
    decreases |s|
  {
    if s != [] {
      assert s[0] in multiset(t);
      var k :| 0 <= k < |t| && t[k] == s[0];
      var t' := t[..k] + t[k + 1..];
      assert t == t[..k] + [t[k]] + t[k + 1..];
      assert s == [s[0]] + s[1..];
      assert multiset(t) == multiset(t[..k]) + multiset{t[k]} + multiset(t[k + 1..]);
      assert multiset(t') == multiset(t[..k]) + multiset(t[k + 1..]);
      assert multiset(t') == multiset(t) - multiset{s[0]};
      DropHead(s);
      assert multiset(s[1..]) == multiset(t');
      TotalLengthOfPermutation(s[1..], t');
      TotalLengthRemove(t, k);
    }
  }

  lemma {:induction false} TotalLengthRemove(t: seq<string>, k: int)
    requires 0 <= k < |t|
    ensures TotalLength(t) == |t[k]| + TotalLength(t[..k] + t[k + 1..])
  {
    if k > 0 {
      TotalLengthRemove(t[1..], k - 1);
      assert t[1..][..k - 1] + t[1..][k..] == (t[..k] + t[k + 1..])[1..];
    } else {
      assert t[..k] + t[k + 1..] == t[1..];
    }
  }

  /** The answer is exactly as long as all the strings together. */
  lemma SolveLength(input: Input)
    ensures |Solve(input).value| == TotalLength(input.s)
  {
    var r := SortFragments(input.s);
    ConcatLength(r);
    TotalLengthOfPermutation(r, input.s);
  }

  /** Comparing two concatenations block by block: equal leading blocks of the
      same length drop out of the comparison, ... */
  lemma {:induction false} LexLeSamePrefix(x: string, u: string, v: string)
    requires LexLe(u, v)
    ensures LexLe(x + u, x + v)
  {
    if x != [] {
      LexLeSamePrefix(x[1..], u, v);
      assert (x + u)[0] == x[0] == (x + v)[0];
      assert (x + u)[1..] == x[1..] + u && (x + v)[1..] == x[1..] + v;
    } else {
      assert x + u == u && x + v == v;
    }
  }

  /** ... and a strictly smaller leading block of the same length decides it. */
  lemma {:induction false} LexLeStrictPrefix(x: string, y: string, u: string, v: string)
    requires |x| == |y| && LexLe(x, y) && x != y
    ensures LexLe(x + u, y + v)
  {
    assert x != [];
    assert x == [x[0]] + x[1..] && y == [y[0]] + y[1..];
    if x[0] == y[0] {
      LexLeStrictPrefix(x[1..], y[1..], u, v);
      assert (x + u)[1..] == x[1..] + u && (y + v)[1..] == y[1..] + v;
    }
  }

  predicate AllOfLength(s: seq<string>, l: int) {
    forall i :: 0 <= i < |s| ==> |s[i]| == l
  }

  /** When all strings have one length, the sorted arrangement gives the
      smallest concatenation of all arrangements. */
  lemma {:induction false} SortedConcatenationIsLeast(p: seq<string>, t: seq<string>, l: int)
    requires Sorted(p) && multiset(p) == multiset(t) && AllOfLength(t, l)
    ensures LexLe(Concat(p), Concat(t))
  {
    if p != [] {
      assert t[0] in multiset(p) && p[0] in multiset(t);
      var k :| 0 <= k < |t| && t[k] == p[0];
      HeadIsLeast(p, t[0]);
      assert |p[0]| == |t[0]|;
      if p[0] == t[0] {
        DropHead(p);
        DropHead(t);
        assert AllOfLength(t[1..], l) by {
          forall i | 0 <= i < |t[1..]| ensures |t[1..][i]| == l { assert t[1..][i] == t[i + 1]; }
        }
        SortedConcatenationIsLeast(p[1..], t[1..], l);
        LexLeSamePrefix(p[0], Concat(p[1..]), Concat(t[1..]));
      } else {
        LexLeStrictPrefix(p[0], t[0], Concat(p[1..]), Concat(t[1..]));
      }
    }
  }

  /** The answer is the least concatenation of the strings in any order, given
      that every string has the same length (as the puzzle guarantees). */
  lemma SolveIsLeastConcatenation(input: Input, t: seq<string>, l: int)
    requires multiset(t) == multiset(input.s) && AllOfLength(t, l)
    ensures LexLe(Solve(input).value, Concat(t))
  {
    SortedConcatenationIsLeast(SortFragments(input.s), t, l);
  }

  /** With strings of different lengths sorting is not enough: "b" < "ba", yet
      "bab" is smaller than "bba". */
  lemma UnequalLengthsNotLeast()
    ensures Sorted(["b", "ba"])
    ensures !LexLe(Concat(["b", "ba"]), Concat(["ba", "b"]))
  {
    assert LexLe("b", "ba");
    assert ["b", "ba"][1..] == ["ba"] && ["ba"][1..] == [];
    assert ["ba", "b"][1..] == ["b"] && ["b"][1..] == [];
    assert Concat(["b", "ba"]) == "bba";
    assert Concat(["ba", "b"]) == "bab";
    assert "bba"[1..] == "ba" && "bab"[1..] == "ab";
  }

  lemma Example1()
    ensures Solve(Input(3, 3, ["dxx", "axx", "cxx"])) == Ok("axxcxxdxx")
  {
    var s := ["dxx", "axx", "cxx"];
    var r := ["axx", "cxx", "dxx"];
    ExampleSorted();
    ExamplePermutation();
    SortedPermutationUnique(SortFragments(s), r);
    ExampleConcat();
  }

  lemma ExampleSorted()
    ensures Sorted(["axx", "cxx", "dxx"])
  {
    assert LexLe("axx", "cxx") && LexLe("cxx", "dxx") && LexLe("axx", "dxx");
  }

  lemma ExamplePermutation()
    ensures multiset(["dxx", "axx", "cxx"]) == multiset(["axx", "cxx", "dxx"])
  {
    calc {
      multiset(["dxx", "axx", "cxx"]);
      multiset{"dxx"} + multiset{"axx"} + multiset{"cxx"};
      multiset(["axx", "cxx", "dxx"]);
    }
  }

  lemma ExampleConcat()
    ensures Concat(["axx", "cxx", "dxx"]) == "axxcxxdxx"
  {
    var r := ["axx", "cxx", "dxx"];
    assert r[1..] == ["cxx", "dxx"] && r[1..][1..] == ["dxx"] && r[1..][1..][1..] == [];
    assert Concat(r) == "axx" + ("cxx" + ("dxx" + ""));
  }

  lemma ParseExample()
    ensures Parse(["3 3", "dxx", "axx", "cxx"]) == Ok(Input(3, 3, ["dxx", "axx", "cxx"]))
  {
    assert Tokens("3 3") == ["3", "3"] by {
      assert Unwords(["3", "3"]) == "3 3";
      TokensOfUnwords(["3", "3"]);
    }
    assert ParseInt("3", 0, UsizeMax) == Some(3);
    assert ["3 3", "dxx", "axx", "cxx"][1..] == ["dxx", "axx", "cxx"];
  }

  lemma ParseErrorLines()
    ensures Parse(["3 3", "dxx"]) == Err("input must be (n + 1) lines")
  {
    assert ParseInt("3", 0, UsizeMax) == Some(3);
    assert Tokens("3 3") == ["3", "3"] by {
      assert Unwords(["3", "3"]) == "3 3";
      TokensOfUnwords(["3", "3"]);
    }
  }

  lemma ParseErrorMissingN()
    ensures Parse([""]) == Err("missing `n`")
  {
  }

  lemma ParseErrorMissingL()
    ensures Parse(["3"]) == Err("missing `l`")
  {
    assert ParseInt("3", 0, UsizeMax) == Some(3);
    assert Tokens("3") == ["3"] by {
      assert Unwords(["3"]) == "3";
      TokensOfUnwords(["3"]);
    }
  }

  lemma ParseErrorN()
    ensures Parse(["a 3"]) == Err("`n` must be positive integer")
  {
    assert Tokens("a 3") == ["a", "3"] by {
      assert Unwords(["a", "3"]) == "a 3";
      TokensOfUnwords(["a", "3"]);
    }
  }

  lemma ParseErrorL()
    ensures Parse(["3 l", "dxx", "axx", "cxx"]) == Err("`l` must be positive integer")
  {
    assert ParseInt("3", 0, UsizeMax) == Some(3);
    assert Tokens("3 l") == ["3", "l"] by {
      assert Unwords(["3", "l"]) == "3 l";
      TokensOfUnwords(["3", "l"]);
    }
  }

  /** The canonical input for the strings `s`: "n l" with any further words,
      then one line per string. */
  function Render(l: int, s: seq<string>, extra: seq<string>): seq<string> {
    [Unwords([IntToString(|s|), IntToString(l)] + extra)] + s
  }

  /** Parsing the canonical input gives back the count, `l` and the strings,
      verbatim, whatever they hold. */
  lemma {:induction false} ParseRender(l: int, s: seq<string>, extra: seq<string>)
    requires 0 <= l <= UsizeMax && |s| <= UsizeMax
    requires forall i :: 0 <= i < |extra| ==> IsWord(extra[i])
    ensures Parse(Render(l, s, extra)) == Ok(Input(|s|, l, s))
  {
    var ws := [IntToString(|s|), IntToString(l)] + extra;
    IntToStringIsWord(|s|);
    IntToStringIsWord(l);
    TokensOfUnwords(ws);
    ParseIntToString(|s|, 0, UsizeMax);
    ParseIntToString(l, 0, UsizeMax);
    var lines := Render(l, s, extra);
    assert lines[0] == Unwords(ws) && lines[1..] == s;
  }
}
