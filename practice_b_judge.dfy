/** practice_b, "Interactive Sorting": the first n capital letters are put in
    an order only the judge knows, by printing queries "? x y" and reading the
    judge's answer, '<' or '>'. This module is the judge side: the answer line
    read after each query, the order the answers may follow, and the record a
    sort leaves behind. */
module PracticeBJudge {
  import opened Text

  /** A query "? x y": does x come before y? */
  type Query = (char, char)

  /** How a sort ends: it returned `Ok(())`, it returned an error, or it
      panicked on a `usize` subtraction below zero. */
  datatype Status = Done | Failed(msg: string) | Underflow

  /** What a sort leaves: the buffer, the queries it printed, in order, and how
      it ended. */
  datatype Outcome = Outcome(buf: seq<char>, asked: seq<Query>, status: Status)

  /** `o`, preceded by the queries `first`. */
  function After(first: seq<Query>, o: Outcome): Outcome {
    o.(asked := first + o.asked)
  }

  lemma {:induction false} Assoc(x: seq<Query>, y: seq<Query>, z: seq<Query>)
    ensures x + y + z == x + (y + z)
  {
  }

  lemma {:induction false} AppendNothing(x: seq<Query>)
    ensures x + [] == x && [] + x == x
  {
  }

  /** `read_turn_input`: the first character of the line read (its newline
      included), which fails only when the read hits end of input. */
  function ReadTurn(line: string): (r: Result<char>)
    ensures r.Err? <==> line == []
    ensures r.Ok? ==> r.value == line[0]
    ensures r.Err? ==> r.msg == "missing `ans`"
  {
    if line == [] then Err("missing `ans`") else Ok(line[0])
  }

  /** The judge on the other side of stdin and stdout: `reply(x, y)` is the
      line it sends after "? x y"; `log` is every query printed so far. */
  class Judge {
    const reply: (char, char) -> string
    ghost var log: seq<Query>

    constructor (reply: (char, char) -> string)
      ensures this.reply == reply && log == []
    {
      this.reply := reply;
      log := [];
    }

    /** Print "? x y", flush, and read the answer with `read_turn_input`. */
    method Ask(x: char, y: char) returns (ans: Result<char>)
      modifies this
      ensures log == old(log) + [(x, y)]
      ensures ans == ReadTurn(reply(x, y))
    {
      log := log + [(x, y)];
      ans := ReadTurn(reply(x, y));
    }
  }

  /** No answer line is missing. */
  predicate Responsive(reply: (char, char) -> string) {
    forall x, y :: reply(x, y) != []
  }

  /** The judge answers from a hidden order: '<' when x ranks below y, and '>'
      otherwise. */
  predicate Honest(reply: (char, char) -> string, rank: char -> int) {
    forall x, y :: ReadTurn(reply(x, y)) == Ok(if rank(x) < rank(y) then '<' else '>')
  }

  lemma {:induction false} HonestIsResponsive(reply: (char, char) -> string, rank: char -> int)
    requires Honest(reply, rank)
    ensures Responsive(reply)
  {
    forall x, y ensures reply(x, y) != [] {
      assert ReadTurn(reply(x, y)).Ok?;
    }
  }

  /** The buffer follows the hidden order. */
  predicate SortedBy(s: seq<char>, rank: char -> int) {
    forall i, k :: 0 <= i < k < |s| ==> rank(s[i]) <= rank(s[k])
  }

  /** The letters at `i` and `j` exchanged (`<[char]>::swap`). */
  function Swap(s: seq<char>, i: nat, j: nat): (t: seq<char>)
    requires i < |s| && j < |s|
    ensures |t| == |s|
  {
    s[i := s[j]][j := s[i]]
  }

  lemma {:induction false} SwapFacts(s: seq<char>, i: nat, j: nat)
    requires i < |s| && j < |s|
    ensures var t := Swap(s, i, j);
      && multiset(t) == multiset(s) && t[i] == s[j] && t[j] == s[i]
      && forall k :: 0 <= k < |s| && k != i && k != j ==> t[k] == s[k]
  {
  }

  /** `t` is `s` with only the letters in [lo, hi) moved among themselves. */
  predicate Rearranged(s: seq<char>, t: seq<char>, lo: int, hi: int) {
    && |t| == |s| && multiset(t) == multiset(s)
    && forall k :: 0 <= k < |s| && (k < lo || hi <= k) ==> t[k] == s[k]
  }

  /** Two rearrangements inside [lo, hi) make one. */
  lemma {:induction false} RearrangedTrans(s: seq<char>, c: seq<char>, t: seq<char>, lo: int, hi: int, a: int, b: int, a': int, b': int)
    requires Rearranged(s, c, a, b) && Rearranged(c, t, a', b')
    requires lo <= a && b <= hi && lo <= a' && b' <= hi
    ensures Rearranged(s, t, lo, hi)
  {
  }

  lemma {:induction false} RearrangedSelf(s: seq<char>, lo: int, hi: int)
    ensures Rearranged(s, s, lo, hi)
  {
  }

  lemma {:induction false} RearrangedWiden(s: seq<char>, t: seq<char>, lo: int, hi: int, a: int, b: int)
    requires Rearranged(s, t, a, b) && lo <= a && b <= hi
    ensures Rearranged(s, t, lo, hi)
  {
  }

  lemma {:induction false} SwapRearranged(s: seq<char>, i: nat, j: nat)
    requires i <= j < |s|
    ensures Rearranged(s, Swap(s, i, j), i, j + 1)
  {
    SwapFacts(s, i, j);
  }

  /** A rearrangement of [lo, hi) leaves the slices around it as they were. */
  lemma {:induction false} RearrangedSlices(s: seq<char>, t: seq<char>, lo: nat, hi: nat)
    requires lo <= hi <= |s| && Rearranged(s, t, lo, hi)
    ensures t[..lo] == s[..lo] && t[hi..] == s[hi..]
  {
    assert forall k :: 0 <= k < |t[hi..]| ==> t[hi..][k] == t[hi + k];
    assert forall k :: 0 <= k < |s[hi..]| ==> s[hi..][k] == s[hi + k];
  }

  /** Two buffers equal outside [lo, hi) hold the same letters exactly when
      their [lo, hi) ranges do. */
  lemma {:induction false} MiddlePermutation(s: seq<char>, t: seq<char>, lo: nat, hi: nat)
    requires lo <= hi <= |s| == |t|
    requires s[..lo] == t[..lo] && s[hi..] == t[hi..]
    ensures multiset(s) == multiset(t) <==> multiset(s[lo..hi]) == multiset(t[lo..hi])
  {
    assert s == s[..lo] + s[lo..hi] + s[hi..];
    assert t == t[..lo] + t[lo..hi] + t[hi..];
    assert multiset(s) == multiset(s[..lo]) + multiset(s[lo..hi]) + multiset(s[hi..]);
    assert multiset(t) == multiset(s[..lo]) + multiset(t[lo..hi]) + multiset(s[hi..]);
    if multiset(s) == multiset(t) {
      assert multiset(s[lo..hi]) == multiset(s) - multiset(s[..lo]) - multiset(s[hi..]);
    }
  }

  /** A rearrangement of [lo, hi) keeps the letters of that range. */
  lemma {:induction false} RearrangedMiddle(s: seq<char>, t: seq<char>, lo: nat, hi: nat)
    requires lo <= hi <= |s| && Rearranged(s, t, lo, hi)
    ensures multiset(s[lo..hi]) == multiset(t[lo..hi])
  {
    RearrangedSlices(s, t, lo, hi);
    MiddlePermutation(s, t, lo, hi);
  }

  /** After a reordering of a range, each letter of the range was already
      somewhere in it: at `m`. */
  lemma {:induction false} Reordered(s: seq<char>, t: seq<char>, lo: nat, hi: nat, k: nat) returns (m: nat)
    requires lo <= k < hi <= |s| == |t|
    requires multiset(s[lo..hi]) == multiset(t[lo..hi])
    ensures lo <= m < hi && s[m] == t[k]
  {
    assert t[k] == t[lo..hi][k - lo];
    assert t[k] in multiset(s[lo..hi]);
    assert t[k] in s[lo..hi];
    var m' :| 0 <= m' < hi - lo && s[lo..hi][m'] == t[k];
    m := lo + m';
  }

  /** A bound every letter of a range keeps under `rank` survives a
      reordering of the range. */
  lemma {:induction false} RanksAtMost(s: seq<char>, t: seq<char>, lo: nat, hi: nat, rank: char -> int, v: int)
    requires lo <= hi <= |s| == |t|
    requires multiset(s[lo..hi]) == multiset(t[lo..hi])
    requires forall k :: lo <= k < hi ==> rank(s[k]) <= v
    ensures forall k :: lo <= k < hi ==> rank(t[k]) <= v
  {
    forall k | lo <= k < hi
      ensures rank(t[k]) <= v
    {
      var m := Reordered(s, t, lo, hi, k);
    }
  }

  lemma {:induction false} RanksAtLeast(s: seq<char>, t: seq<char>, lo: nat, hi: nat, rank: char -> int, v: int)
    requires lo <= hi <= |s| == |t|
    requires multiset(s[lo..hi]) == multiset(t[lo..hi])
    requires forall k :: lo <= k < hi ==> v <= rank(s[k])
    ensures forall k :: lo <= k < hi ==> v <= rank(t[k])
  {
    forall k | lo <= k < hi
      ensures v <= rank(t[k])
    {
      var m := Reordered(s, t, lo, hi, k);
    }
  }
}
