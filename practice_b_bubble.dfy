/** practice_b's `bubble_sort`, the strategy the program runs: n passes over
    the buffer, each asking about every adjacent pair and swapping the pair
    when the answer is '>'. */
module PracticeBBubble {
  import opened Text
  import opened PracticeBJudge

  /** The inner loop `for j in from..(n - 1)`, run on buffer `s` from `j` on. */
  function Pass(reply: (char, char) -> string, s: seq<char>, j: nat): (o: Outcome)
    ensures |o.buf| == |s| && o.status != Underflow
    decreases |s| - j
  {
    if j + 1 >= |s| then Outcome(s, [], Done)
    else
      match ReadTurn(reply(s[j], s[j + 1]))
      case Err(msg) => Outcome(s, [(s[j], s[j + 1])], Failed(msg))
      case Ok(ans) =>
        After([(s[j], s[j + 1])], Pass(reply, if ans == '>' then Swap(s, j, j + 1) else s, j + 1))
  }

  /** `k` more rounds of the outer loop, the first error ending them all. */
  function Passes(reply: (char, char) -> string, s: seq<char>, k: nat): (o: Outcome)
    ensures |o.buf| == |s| && o.status != Underflow
    decreases k
  {
    if k == 0 then Outcome(s, [], Done)
    else
      var p := Pass(reply, s, 0);
      if p.status != Done then p else After(p.asked, Passes(reply, p.buf, k - 1))
  }

  /** What `bubble_sort` does to buffer `s`: one round per letter. */
  function Bubble(reply: (char, char) -> string, s: seq<char>): (o: Outcome)
    ensures |o.buf| == |s| && o.status != Underflow
  {
    Passes(reply, s, |s|)
  }

  /** One round of `bubble_sort`'s outer loop: its inner loop over the adjacent pairs. */
  method BubblePass(a: array<char>, judge: Judge) returns (r: Status)
    modifies a, judge
    ensures var o := Pass(judge.reply, old(a[..]), 0);
      a[..] == o.buf && judge.log == old(judge.log) + o.asked && r == o.status
  {
    ghost var start := a[..];
    ghost var done: seq<Query> := [];
    var n := a.Length;
    if n == 0 {
      return Done;
    }
    for j := 0 to n - 1
      invariant judge.log == old(judge.log) + done
      invariant Pass(judge.reply, start, 0) == After(done, Pass(judge.reply, a[..], j))
    {
      ghost var cur := a[..];
      var x, y := a[j], a[j + 1];
      var ans := judge.Ask(x, y);
      if ans.Err? {
        assert Pass(judge.reply, cur, j) == Outcome(cur, [(x, y)], Failed(ans.msg));
        return Failed(ans.msg);
      }
      if ans.value == '>' {
        a[j], a[j + 1] := y, x;
        assert a[..] == Swap(cur, j, j + 1);
      }
      assert Pass(judge.reply, cur, j) == After([(x, y)], Pass(judge.reply, a[..], j + 1));
      Assoc(done, [(x, y)], Pass(judge.reply, a[..], j + 1).asked);
      Assoc(old(judge.log), done, [(x, y)]);
      done := done + [(x, y)];
    }
    return Done;
  }

  /** `bubble_sort`: the buffer, the queries and the result are those of `Bubble`. */
  method BubbleSort(a: array<char>, judge: Judge) returns (r: Status)
    modifies a, judge
    ensures var o := Bubble(judge.reply, old(a[..]));
      a[..] == o.buf && judge.log == old(judge.log) + o.asked && r == o.status
  {
    var n := a.Length;
    ghost var s0 := a[..];
    ghost var done: seq<Query> := [];
    for p := 0 to n
      invariant judge.log == old(judge.log) + done
      invariant Bubble(judge.reply, s0) == After(done, Passes(judge.reply, a[..], n - p))
    {
      ghost var start := a[..];
      r := BubblePass(a, judge);
      ghost var pass := Pass(judge.reply, start, 0);
      Assoc(old(judge.log), done, pass.asked);
      if r != Done {
        assert Passes(judge.reply, start, n - p) == pass;
        assert Bubble(judge.reply, s0).asked == done + pass.asked;
        return;
      }
      assert Passes(judge.reply, start, n - p) == After(pass.asked, Passes(judge.reply, a[..], n - p - 1));
      Assoc(done, pass.asked, Passes(judge.reply, a[..], n - p - 1).asked);
      done := done + pass.asked;
    }
    assert Passes(judge.reply, a[..], 0) == Outcome(a[..], [], Done);
    assert done + [] == done;
    return Done;
  }

  // Every round only exchanges neighbours, so the letters stay the same.

  lemma {:induction false} PassPermutation(reply: (char, char) -> string, s: seq<char>, j: nat)
    ensures multiset(Pass(reply, s, j).buf) == multiset(s)
    decreases |s| - j
  {
    if j + 1 < |s| {
      var ans := ReadTurn(reply(s[j], s[j + 1]));
      if ans.Ok? {
        PassPermutation(reply, if ans.value == '>' then Swap(s, j, j + 1) else s, j + 1);
      }
    }
  }

  lemma {:induction false} PassesPermutation(reply: (char, char) -> string, s: seq<char>, k: nat)
    ensures multiset(Passes(reply, s, k).buf) == multiset(s)
    decreases k
  {
    if k > 0 {
      PassPermutation(reply, s, 0);
      PassesPermutation(reply, Pass(reply, s, 0).buf, k - 1);
    }
  }

  /** Whatever the judge answers, even when a read fails, `bubble_sort`
      leaves a rearrangement of the letters it was given. */
  lemma {:induction false} BubblePermutation(reply: (char, char) -> string, s: seq<char>)
    ensures multiset(Bubble(reply, s).buf) == multiset(s)
  {
    PassesPermutation(reply, s, |s|);
  }

  // One query per inner iteration, whatever the answers.

  lemma {:induction false} PassCount(reply: (char, char) -> string, s: seq<char>, j: nat)
    requires Responsive(reply) && j < |s|
    ensures Pass(reply, s, j).status == Done
    ensures |Pass(reply, s, j).asked| == |s| - 1 - j
    decreases |s| - j
  {
    if j + 1 < |s| {
      var ans := ReadTurn(reply(s[j], s[j + 1]));
      assert ans.Ok?;
      PassCount(reply, if ans.value == '>' then Swap(s, j, j + 1) else s, j + 1);
    }
  }

  lemma {:induction false} PassesCount(reply: (char, char) -> string, s: seq<char>, k: nat)
    requires Responsive(reply) && s != []
    ensures Passes(reply, s, k).status == Done
    ensures |Passes(reply, s, k).asked| == k * (|s| - 1)
    decreases k
  {
    if k > 0 {
      PassCount(reply, s, 0);
      PassesCount(reply, Pass(reply, s, 0).buf, k - 1);
      assert k * (|s| - 1) == (|s| - 1) + (k - 1) * (|s| - 1);
    }
  }

  /** When every answer line arrives, `bubble_sort` succeeds after exactly
      n * (n - 1) queries, n being the number of letters; so none for n <= 1. */
  lemma {:induction false} BubbleQueryCount(reply: (char, char) -> string, s: seq<char>)
    requires Responsive(reply)
    ensures Bubble(reply, s).status == Done
    ensures |Bubble(reply, s).asked| == |s| * (|s| - 1)
  {
    if s != [] {
      PassesCount(reply, s, |s|);
    }
  }

  // It fails only at the end of input, right after the query that went unanswered.

  /** The sort ended in error, with the missing-answer message, on its last query. */
  predicate FailedOnLast(reply: (char, char) -> string, o: Outcome) {
    o.status.Failed? ==>
      o.status.msg == "missing `ans`" && o.asked != [] && reply(o.asked[|o.asked| - 1].0, o.asked[|o.asked| - 1].1) == []
  }

  lemma {:induction false} PassFailure(reply: (char, char) -> string, s: seq<char>, j: nat)
    ensures Pass(reply, s, j).status != Underflow
    ensures FailedOnLast(reply, Pass(reply, s, j))
    decreases |s| - j
  {
    if j + 1 < |s| {
      var ans := ReadTurn(reply(s[j], s[j + 1]));
      if ans.Ok? {
        var t := if ans.value == '>' then Swap(s, j, j + 1) else s;
        PassFailure(reply, t, j + 1);
        var rest := Pass(reply, t, j + 1);
        if rest.status.Failed? {
          assert ([(s[j], s[j + 1])] + rest.asked)[|rest.asked|] == rest.asked[|rest.asked| - 1];
        }
      }
    }
  }

  lemma {:induction false} PassesFailure(reply: (char, char) -> string, s: seq<char>, k: nat)
    ensures Passes(reply, s, k).status != Underflow
    ensures FailedOnLast(reply, Passes(reply, s, k))
    decreases k
  {
    if k > 0 {
      var p := Pass(reply, s, 0);
      PassFailure(reply, s, 0);
      if p.status == Done {
        PassesFailure(reply, p.buf, k - 1);
        var rest := Passes(reply, p.buf, k - 1);
        if rest.status.Failed? {
          assert (p.asked + rest.asked)[|p.asked| + |rest.asked| - 1] == rest.asked[|rest.asked| - 1];
        }
      }
    }
  }

  /** `bubble_sort` never panics, and returns an error only when the answer to
      its last query is missing, with the message "missing `ans`". */
  lemma {:induction false} BubbleFailure(reply: (char, char) -> string, s: seq<char>)
    ensures Bubble(reply, s).status != Underflow
    ensures FailedOnLast(reply, Bubble(reply, s))
  {
    PassesFailure(reply, s, |s|);
  }

  // With honest answers the buffer ends up sorted.

  /** Every position from `m` on ranks at least as high as every position before it. */
  predicate Settled(s: seq<char>, rank: char -> int, m: int) {
    forall i, k :: 0 <= i < k < |s| && m <= k ==> rank(s[i]) <= rank(s[k])
  }

  /** The state of a round at pair `j`, when the round started from a buffer
      settled from `m`: the letter at `j` ranks highest so far, positions
      after `j` are as settled as before, and those the round has passed from
      `m - 1` on are settled. */
  predicate PassState(s: seq<char>, rank: char -> int, j: nat, m: int)
    requires j < |s|
  {
    (forall i :: 0 <= i < j ==> rank(s[i]) <= rank(s[j]))
    && (forall i, k :: 0 <= i < k < |s| && m <= k && j < k ==> rank(s[i]) <= rank(s[k]))
    && (forall i, k :: 0 <= i < k < j && m - 1 <= k ==> rank(s[i]) <= rank(s[k]))
  }

  /** One step of a round keeps its state. */
  lemma {:induction false} PassStep(rank: char -> int, s: seq<char>, t: seq<char>, j: nat, m: int)
    requires j + 1 < |s| && PassState(s, rank, j, m)
    requires t == if rank(s[j]) < rank(s[j + 1]) then s else Swap(s, j, j + 1)
    ensures PassState(t, rank, j + 1, m)
  {
    SwapFacts(s, j, j + 1);
    assert rank(t[j]) <= rank(t[j + 1]);
    forall i, k | 0 <= i < k < j + 1 && m - 1 <= k
      ensures rank(t[i]) <= rank(t[k])
    {
      if k == j && t != s {
        assert rank(s[i]) <= rank(s[j + 1]);
      }
    }
    forall i, k | 0 <= i < k < |t| && m <= k && j + 1 < k
      ensures rank(t[i]) <= rank(t[k])
    {
      if i == j {
        assert rank(s[j + 1]) <= rank(s[k]);
      }
    }
  }

  /** One step of a round under an honest judge: the pair is compared and
      swapped exactly when it is out of order. */
  lemma {:induction false} HonestStep(reply: (char, char) -> string, rank: char -> int, s: seq<char>, j: nat) returns (t: seq<char>)
    requires Honest(reply, rank) && j + 1 < |s|
    ensures t == if rank(s[j]) < rank(s[j + 1]) then s else Swap(s, j, j + 1)
    ensures Pass(reply, s, j) == After([(s[j], s[j + 1])], Pass(reply, t, j + 1))
  {
    t := if rank(s[j]) < rank(s[j + 1]) then s else Swap(s, j, j + 1);
    assert ReadTurn(reply(s[j], s[j + 1])) == Ok(if rank(s[j]) < rank(s[j + 1]) then '<' else '>');
  }

  /** A round that reached the last pair leaves the buffer settled one
      position further down. */
  lemma {:induction false} PassEnds(s: seq<char>, rank: char -> int, j: nat, m: int)
    requires j + 1 == |s| && PassState(s, rank, j, m)
    ensures Settled(s, rank, m - 1)
  {
    forall i, k | 0 <= i < k < |s| && m - 1 <= k
      ensures rank(s[i]) <= rank(s[k])
    {
      if k < j {
        assert rank(s[i]) <= rank(s[k]);
      }
    }
  }

  lemma {:induction false} PassSettles(reply: (char, char) -> string, rank: char -> int, s: seq<char>, j: nat, m: int)
    requires Honest(reply, rank)
    requires j < |s| && PassState(s, rank, j, m)
    ensures Pass(reply, s, j).status == Done
    ensures Settled(Pass(reply, s, j).buf, rank, m - 1)
    decreases |s| - j
  {
    if j + 1 < |s| {
      var t := HonestStep(reply, rank, s, j);
      PassStep(rank, s, t, j, m);
      PassSettles(reply, rank, t, j + 1, m);
    } else {
      PassEnds(s, rank, j, m);
    }
  }

  lemma {:induction false} PassesSort(reply: (char, char) -> string, rank: char -> int, s: seq<char>, k: nat)
    requires Honest(reply, rank) && Settled(s, rank, k)
    ensures Passes(reply, s, k).status == Done
    ensures SortedBy(Passes(reply, s, k).buf, rank)
    decreases k
  {
    if k > 0 {
      if s != [] {
        PassSettles(reply, rank, s, 0, k);
      }
      PassesSort(reply, rank, Pass(reply, s, 0).buf, k - 1);
    }
  }

  /** Against a judge that answers from a hidden order, `bubble_sort`
      succeeds and leaves the letters in that order. */
  lemma {:induction false} BubbleSorts(reply: (char, char) -> string, rank: char -> int, s: seq<char>)
    requires Honest(reply, rank)
    ensures Bubble(reply, s).status == Done
    ensures SortedBy(Bubble(reply, s).buf, rank)
  {
    PassesSort(reply, rank, s, |s|);
  }
}
