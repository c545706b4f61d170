/** Text handling shared by every solver: the fallible results they return,
    Rust's `split_ascii_whitespace`, the integer `str::parse` of the types the
    solvers use, and integer `to_string`. */
module Text {

  datatype Option<T> = None | Some(value: T)

  /** A solver's fallible result; the error is the fixed message the Rust code returns. */
  datatype Result<T> = Ok(value: T) | Err(msg: string)

  const I32Min: int := -0x8000_0000
  const I32Max: int := 0x7fff_ffff
  const U8Max: int := 0xff
  // `usize` on a 64-bit target
  const UsizeMax: int := 0xffff_ffff_ffff_ffff

  /** The values of Rust's `i32`. */
  predicate IsI32(v: int) {
    I32Min <= v <= I32Max
  }

  /** The five characters `split_ascii_whitespace` and ASCII `trim` treat as whitespace. */
  predicate IsAsciiSpace(c: char) {
    c == ' ' || c == '\t' || c == '\n' || c == '\r' || c == '\U{C}'
  }

  predicate NoSpace(s: string) {
    forall i :: 0 <= i < |s| ==> !IsAsciiSpace(s[i])
  }

  /** The longest prefix of `s` without whitespace. */
  function Word(s: string): (w: string)
    ensures |w| <= |s| && w == s[..|w|] && NoSpace(w)
    ensures |w| < |s| ==> IsAsciiSpace(s[|w|])
  {
    if s == [] || IsAsciiSpace(s[0]) then [] else [s[0]] + Word(s[1..])
  }

  /** `split_ascii_whitespace`: the maximal runs of non-whitespace characters, in order. */
  function Tokens(s: string): (ts: seq<string>)
    ensures forall i :: 0 <= i < |ts| ==> ts[i] != [] && NoSpace(ts[i])
    decreases |s|
  {
    if s == [] then []
    else if IsAsciiSpace(s[0]) then Tokens(s[1..])
    else
      var w := Word(s);
      [w] + Tokens(s[|w|..])
  }

  /** The tokens joined by single spaces: the canonical line a parser reads. */
  function Unwords(ts: seq<string>): string {
    if ts == [] then []
    else if |ts| == 1 then ts[0]
    else ts[0] + " " + Unwords(ts[1..])
  }

  predicate IsWord(t: string) {
    t != [] && NoSpace(t)
  }

  /** ASCII `trim`: whitespace removed at both ends. */
  function Trim(s: string): (t: string)
    ensures |t| <= |s|
    ensures t != [] ==> !IsAsciiSpace(t[0]) && !IsAsciiSpace(t[|t| - 1])
    ensures NoSpace(s) ==> t == s
    decreases |s|
  {
    if s != [] && IsAsciiSpace(s[0]) then Trim(s[1..])
    else if s != [] && IsAsciiSpace(s[|s| - 1]) then Trim(s[..|s| - 1])
    else s
  }

  lemma {:induction false} WordOfPrefix(w: string, rest: string)
    requires NoSpace(w)
    requires rest == [] || IsAsciiSpace(rest[0])
    ensures Word(w + rest) == w
    decreases |w|
  {
    if w == [] {
      assert w + rest == rest;
    } else {
      assert (w + rest)[0] == w[0];
      assert (w + rest)[1..] == w[1..] + rest;
      WordOfPrefix(w[1..], rest);
    }
  }

  lemma TokensOfWordThen(w: string, rest: string)
    requires IsWord(w)
    requires rest == [] || IsAsciiSpace(rest[0])
    ensures Tokens(w + rest) == [w] + Tokens(rest)
  {
    WordOfPrefix(w, rest);
    assert (w + rest)[|w|..] == rest;
  }

  /** Reading back a line of single-space-separated words gives the words. */
  lemma {:induction false} TokensOfUnwords(ts: seq<string>)
    requires forall i :: 0 <= i < |ts| ==> IsWord(ts[i])
    ensures Tokens(Unwords(ts)) == ts
  {
    if ts == [] {
    } else if |ts| == 1 {
      TokensOfWordThen(ts[0], []);
      assert ts[0] + [] == ts[0];
    } else {
      var rest := Unwords(ts[1..]);
      TokensOfUnwords(ts[1..]);
      assert Tokens(" " + rest) == Tokens(rest) by {
        assert (" " + rest)[1..] == rest;
      }
      assert ts[0] + " " + rest == ts[0] + (" " + rest);
      TokensOfWordThen(ts[0], " " + rest);
      assert ts == [ts[0]] + ts[1..];
    }
  }

  predicate IsDigit(c: char) {
    '0' <= c <= '9'
  }

  predicate AllDigits(s: string) {
    forall i :: 0 <= i < |s| ==> IsDigit(s[i])
  }

  function DigitValue(c: char): int {
    c as int - '0' as int
  }

  function DigitChar(d: nat): char
    requires d < 10
  {
    ('0' as int + d) as char
  }

  /** The value of a run of decimal digits, most significant first. */
  function DigitsValue(s: string): nat
    requires AllDigits(s)
  {
    if s == [] then 0 else DigitsValue(s[..|s| - 1]) * 10 + DigitValue(s[|s| - 1])
  }

  /** `to_string` of a non-negative integer: its decimal digits, without leading zeros. */
  function NatToString(n: nat): (s: string)
    ensures s != [] && AllDigits(s) && DigitsValue(s) == n
    ensures |s| > 1 ==> s[0] != '0'
  {
    if n < 10 then [DigitChar(n)]
    else
      var p := NatToString(n / 10);
      var s := p + [DigitChar(n % 10)];
      assert s[..|s| - 1] == p;
      s
  }

  /** `to_string` of an integer: a '-' before the digits when negative. */
  function IntToString(v: int): string {
    if v < 0 then "-" + NatToString(-v) else NatToString(v)
  }

  /** Rust's `str::parse` for an integer type whose values are `lo..=hi`:
      an optional '+' (or '-' when the type is signed), then one or more ASCII
      digits, whose value must lie in the range. */
  function ParseInt(t: string, lo: int, hi: int): (r: Option<int>)
    ensures r.Some? ==> lo <= r.value <= hi
  {
    if t == [] then None
    else if (t[0] == '+' || t[0] == '-') && |t| == 1 then None
    else
      var neg := t[0] == '-' && lo < 0;
      var digits := if t[0] == '+' || neg then t[1..] else t;
      if !AllDigits(digits) then None
      else
        var v: int := if neg then 0 - DigitsValue(digits) else DigitsValue(digits);
        if lo <= v <= hi then Some(v) else None
  }

  lemma NatToStringIsWord(n: nat)
    ensures IsWord(NatToString(n))
  {
    var s := NatToString(n);
    forall i | 0 <= i < |s| ensures !IsAsciiSpace(s[i]) {
      assert IsDigit(s[i]);
    }
  }

  lemma IntToStringIsWord(v: int)
    ensures IsWord(IntToString(v))
  {
    NatToStringIsWord(if v < 0 then -v else v);
  }

  /** Parsing what `to_string` printed gives the value back, for any integer type holding it. */
  lemma ParseIntToString(v: int, lo: int, hi: int)
    requires lo <= v <= hi
    ensures ParseInt(IntToString(v), lo, hi) == Some(v)
  {
    if v < 0 {
      var t := IntToString(v);
      assert t[1..] == NatToString(-v);
    } else {
      var t := NatToString(v);
      assert IsDigit(t[0]);
    }
  }

  /** `split_ascii_whitespace().map(parse).collect::<Result<Vec<_>, _>>()`:
      every word parsed, or None as soon as one word does not parse. */
  function ParseInts(words: seq<string>, lo: int, hi: int): (r: Option<seq<int>>)
    ensures r.Some? ==> |r.value| == |words|
    ensures r.Some? ==> forall i :: 0 <= i < |words| ==> ParseInt(words[i], lo, hi) == Some(r.value[i])
    ensures r.None? ==> exists i :: 0 <= i < |words| && ParseInt(words[i], lo, hi).None?
  {
    if words == [] then Some([])
    else match ParseInt(words[0], lo, hi)
      case None => None
      case Some(x) =>
        match ParseInts(words[1..], lo, hi)
        case None => None
        case Some(rest) => Some([x] + rest)
  }

  /** Each value's `to_string`, in order: the words of a canonical list line. */
  function Numerals(vs: seq<int>): (ts: seq<string>)
    ensures |ts| == |vs|
    ensures forall i :: 0 <= i < |vs| ==> ts[i] == IntToString(vs[i])
  {
    seq(|vs|, i requires 0 <= i < |vs| => IntToString(vs[i]))
  }

  lemma NumeralsAreWords(vs: seq<int>)
    ensures forall i :: 0 <= i < |vs| ==> IsWord(Numerals(vs)[i])
  {
    forall i | 0 <= i < |vs| ensures IsWord(Numerals(vs)[i]) {
      IntToStringIsWord(vs[i]);
    }
  }

  /** Parsing the words `to_string` printed for a list of values of the type gives the list back. */
  lemma {:induction false} ParseNumerals(vs: seq<int>, lo: int, hi: int)
    requires forall i :: 0 <= i < |vs| ==> lo <= vs[i] <= hi
    ensures ParseInts(Numerals(vs), lo, hi) == Some(vs)
    decreases |vs|
  {
    if vs != [] {
      ParseIntToString(vs[0], lo, hi);
      assert Numerals(vs)[1..] == Numerals(vs[1..]);
      ParseNumerals(vs[1..], lo, hi);
      assert [vs[0]] + vs[1..] == vs;
    }
  }

  /** Trimming a word padded with a space on each side gives the word. */
  lemma TrimPadded(w: string)
    requires IsWord(w)
    ensures Trim(" " + w + " ") == w
  {
    var s := " " + w + " ";
    var t := w + " ";
    assert s[0] == ' ' && s[1..] == t;
    assert t[0] == w[0] && t[|t| - 1] == ' ' && t[..|t| - 1] == w;
    assert !IsAsciiSpace(w[0]) && !IsAsciiSpace(w[|w| - 1]);
    assert Trim(w) == w;
    assert Trim(t) == Trim(w);
  }
}
