/** abc043_b, "Unhappy Hacking": a keyboard with keys '0', '1' and backspace 'B'. */
module Abc043B {
  import opened Text

  datatype Input = Input(s: string)

  /** `ParsedInput::try_from`: exactly one line, kept verbatim as the keystrokes. */
  function Parse(lines: seq<string>): (r: Result<Input>)
    ensures r.Ok? <==> |lines| == 1
    ensures r.Ok? ==> r.value.s == lines[0]
    ensures r.Err? ==> r.msg == "input must be 1 line"
  {
    if |lines| != 1 then Err("input must be 1 line") else Ok(Input(lines[0]))
  }

  predicate IsKey(c: char) {
    c == '0' || c == '1' || c == 'B'
  }

  predicate AllKeys(s: string) {
    forall i :: 0 <= i < |s| ==> IsKey(s[i])
  }

  /** The editor after one keystroke: a digit is appended, 'B' deletes the last
      character and does nothing on an empty editor. */
  function Press(text: string, key: char): string {
    if key == 'B' then (if text == [] then [] else text[..|text| - 1])
    else text + [key]
  }

  /** The editor's text after the keystrokes `s`, starting empty. */
  function Typed(s: string): string {
    if s == [] then [] else Press(Typed(s[..|s| - 1]), s[|s| - 1])
  }

  /** `solve`: replay the keystrokes into a buffer; any character other than
      '0', '1' or 'B' fails the whole call and no partial text is returned. */
  method Solve(input: Input) returns (r: Result<string>)
    ensures r.Err? <==> !AllKeys(input.s)
    ensures r.Err? ==> r.msg == "invalid character in input"
    ensures r.Ok? ==> r.value == Typed(input.s)
  {
    var line: string := [];
    var i := 0;
    while i < |input.s|
      invariant 0 <= i <= |input.s|
      invariant AllKeys(input.s[..i])
      invariant line == Typed(input.s[..i])
    {
      var c := input.s[i];
      TypedStep(input.s, i);
      if c == '0' || c == '1' {
        line := line + [c];
      } else if c == 'B' {
        if line != [] {
          line := line[..|line| - 1];
        }
      } else {
        return Err("invalid character in input");
      }
      i := i + 1;
    }
    assert input.s[..i] == input.s;
    return Ok(line);
  }

  /** One more keystroke: the prefix up to `i` extended by `s[i]`. */
  lemma TypedStep(s: string, i: nat)
    requires i < |s|
    ensures Typed(s[..i + 1]) == Press(Typed(s[..i]), s[i])
    ensures AllKeys(s[..i + 1]) <==> AllKeys(s[..i]) && IsKey(s[i])
  {
    assert s[..i + 1][..i] == s[..i];
    assert s[..i + 1][i] == s[i];
    var p, q := s[..i], s[..i + 1];
    if AllKeys(p) && IsKey(s[i]) {
      forall k | 0 <= k < |q| ensures IsKey(q[k]) {
        if k < i { assert q[k] == p[k]; }
      }
    }
    if AllKeys(q) {
      forall k | 0 <= k < |p| ensures IsKey(p[k]) {
        assert p[k] == q[k];
      }
    }
  }

  /** The text holds only '0' and '1', and is no longer than the keystrokes. */
  lemma {:induction false} TypedShape(s: string)
    requires AllKeys(s)
    ensures |Typed(s)| <= |s|
    ensures forall i :: 0 <= i < |Typed(s)| ==> Typed(s)[i] == '0' || Typed(s)[i] == '1'
  {
    if s != [] {
      var p := s[..|s| - 1];
      assert AllKeys(p) by {
        forall i | 0 <= i < |p| ensures IsKey(p[i]) { assert p[i] == s[i]; }
      }
      TypedShape(p);
    }
  }

  /** Typing a digit and then 'B' leaves the text as it was. */
  lemma TypeThenErase(s: string, c: char)
    requires c == '0' || c == '1'
    ensures Typed(s + [c, 'B']) == Typed(s)
  {
    var t := s + [c, 'B'];
    assert t[..|t| - 1] == s + [c];
    assert (s + [c])[..|s|] == s;
    assert Typed(s + [c]) == Typed(s) + [c];
    assert (Typed(s) + [c])[..|Typed(s)|] == Typed(s);
  }

  /** Backspaces typed on the empty editor are ignored. */
  lemma {:induction false} LeadingBackspace(s: string)
    ensures Typed(['B'] + s) == Typed(s)
  {
    if s == [] {
      assert Typed(['B']) == Press(Typed([]), 'B');
    } else {
      var p := s[..|s| - 1];
      assert (['B'] + s)[..|s|] == ['B'] + p;
      LeadingBackspace(p);
    }
  }

  lemma Example1()
    ensures Typed("01B0") == "00"
  {
    assert "01B0"[..3] == "01B";
    assert "01B"[..2] == "01";
    assert "01"[..1] == "0";
    assert "0"[..0] == "";
  }

  lemma Example2()
    ensures Typed("0BB1") == "1"
  {
    assert "0BB1"[..3] == "0BB";
    assert "0BB"[..2] == "0B";
    assert "0B"[..1] == "0";
    assert "0"[..0] == "";
  }

  lemma InvalidExample()
    ensures !AllKeys("0BAB1")
  {
    assert !IsKey("0BAB1"[2]);
  }
}
