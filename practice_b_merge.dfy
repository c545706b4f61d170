/** practice_b's merge sort (`merge_sort`, `ms_top_down_split_merge`,
    `ms_top_down_merge`), marked as not working in the source. A merge reads
    one buffer and writes the other; the recursion passes the buffer `a` and
    its copy `b` in the same roles at every level, so `b` is never written and
    every merge reads the original, unsorted letters. */
module PracticeBMerge {
  import opened Text
  import opened PracticeBJudge

  /** `t` with `out` written over it from position `begin` on. */
  function Splice(t: seq<char>, begin: nat, out: seq<char>): (u: seq<char>)
    requires begin + |out| <= |t|
    ensures |u| == |t|
  {
    t[..begin] + out + t[begin + |out|..]
  }

  /** The state of the loop of `ms_top_down_merge` before it writes position
      `begin + |out|`: the letters written so far, the cursor `i` into the left
      run [begin, mid) and `j` into the right run [mid, end), the queries
      printed, and whether a read has failed. */
  datatype Merging = Merging(out: seq<char>, i: nat, j: nat, asked: seq<Query>, status: Status)

  /** The cursors stay in their runs, and every letter written is one they passed. */
  predicate InRuns(m: Merging, begin: nat, mid: nat, end: nat) {
    begin <= m.i <= mid <= m.j <= end && |m.out| == (m.i - begin) + (m.j - mid)
  }

  /** The runs [begin, mid) and [mid, end) lie in `src`. */
  predicate Runs(src: seq<char>, begin: nat, mid: nat, end: nat) {
    var fit := begin <= mid <= end <= |src|;
    fit
  }

  /** The loop goes on: no read has failed, and some run still has a letter. */
  predicate Pending(m: Merging, mid: nat, end: nat, n: nat) {
    m.i <= mid <= m.j <= end <= n && (m.i < mid || m.j < end) && m.status == Done
  }

  /** One pass of the loop body, at a position some run still has a letter for:
      the left letter when the right run is spent, the right letter when the
      left run is spent, and otherwise the one the judge puts first. */
  function MergeStep(reply: (char, char) -> string, src: seq<char>, mid: nat, end: nat, m: Merging): (m': Merging)
    requires Pending(m, mid, end, |src|)
    ensures m'.status != Underflow
    ensures m'.asked == m.asked + if m.i < mid && m.j < end then [(src[m.i], src[m.j])] else []
    ensures m'.status != Done ==> m'.out == m.out && m'.i == m.i && m'.j == m.j
    ensures m'.status == Done ==>
      || (m.i < mid && m'.i == m.i + 1 && m'.j == m.j && m'.out == m.out + [src[m.i]])
      || (m.j < end && m'.i == m.i && m'.j == m.j + 1 && m'.out == m.out + [src[m.j]])
  {
    if m.i >= mid then m.(out := m.out + [src[m.j]], j := m.j + 1)
    else if m.j < end && m.i != m.j then
      var q := m.asked + [(src[m.i], src[m.j])];
      match ReadTurn(reply(src[m.i], src[m.j]))
      case Err(e) => m.(asked := q, status := Failed(e))
      case Ok(ans) =>
        if ans == '<' then m.(out := m.out + [src[m.i]], i := m.i + 1, asked := q)
        else m.(out := m.out + [src[m.j]], j := m.j + 1, asked := q)
    else m.(out := m.out + [src[m.i]], i := m.i + 1)
  }

  /** The loop of `ms_top_down_merge` before position `k`. */
  function MergeTo(reply: (char, char) -> string, src: seq<char>, begin: nat, mid: nat, end: nat, k: nat): (m: Merging)
    requires Runs(src, begin, mid, end) && begin <= k <= end
    ensures InRuns(m, begin, mid, end) && m.status != Underflow
    ensures m.status == Done ==> |m.out| == k - begin
    ensures m.status != Done ==> |m.out| < k - begin
    decreases k
  {
    if k == begin then Merging([], begin, mid, [], Done)
    else
      var m := MergeTo(reply, src, begin, mid, end, k - 1);
      if m.status != Done then m else MergeStep(reply, src, mid, end, m)
  }

  /** `ms_top_down_merge` over the runs [begin, mid) and [mid, end) of `src`. */
  function Merge(reply: (char, char) -> string, src: seq<char>, begin: nat, mid: nat, end: nat): (m: Merging)
    requires Runs(src, begin, mid, end)
    ensures m.status == Done ==> m.i == mid && m.j == end && |m.out| == end - begin
    ensures m.status != Done ==> |m.out| < end - begin
    ensures m.status != Underflow
  {
    MergeTo(reply, src, begin, mid, end, end)
  }

  /** What `ms_top_down_merge(src, begin, mid, end, dst)` leaves in `dst`. */
  function MergeInto(reply: (char, char) -> string, dst: seq<char>, src: seq<char>, begin: nat, mid: nat, end: nat): (o: Outcome)
    requires begin <= mid <= end <= |src| == |dst|
    ensures |o.buf| == |dst| && o.status != Underflow
  {
    var m := Merge(reply, src, begin, mid, end);
    Outcome(Splice(dst, begin, m.out), m.asked, m.status)
  }

  /** `ms_top_down_split_merge(a, begin, end, b)`: the buffer `a` becomes; `b`
      is only read. */
  function SplitMerge(reply: (char, char) -> string, a: seq<char>, b: seq<char>, begin: nat, end: nat): (o: Outcome)
    requires begin <= end <= |a| == |b|
    ensures |o.buf| == |a| && o.status != Underflow
    decreases end - begin
  {
    if end <= begin + 1 then Outcome(a, [], Done)
    else
      var mid := (end + begin) / 2;
      var L := SplitMerge(reply, a, b, begin, mid);
      if L.status != Done then L
      else
        var R := SplitMerge(reply, L.buf, b, mid, end);
        if R.status != Done then After(L.asked, R)
        else After(L.asked + R.asked, MergeInto(reply, R.buf, b, begin, mid, end))
  }

  /** `merge_sort`: `b` starts as a copy of the buffer. */
  function Mergesort(reply: (char, char) -> string, s: seq<char>): (o: Outcome)
    ensures |o.buf| == |s| && o.status != Underflow
  {
    SplitMerge(reply, s, s, 0, |s|)
  }

  /** The merge sort as evidently intended: sort both halves, then merge the
      sorted halves. The buffer is left as it was when a read fails. */
  function MergesortFixed(reply: (char, char) -> string, s: seq<char>): (o: Outcome)
    ensures |o.buf| == |s| && o.status != Underflow
    decreases |s|
  {
    if |s| <= 1 then Outcome(s, [], Done)
    else
      var mid := |s| / 2;
      var L := MergesortFixed(reply, s[..mid]);
      if L.status != Done then Outcome(s, L.asked, L.status)
      else
        var R := MergesortFixed(reply, s[mid..]);
        if R.status != Done then Outcome(s, L.asked + R.asked, R.status)
        else
          var m := Merge(reply, L.buf + R.buf, 0, mid, |s|);
          Outcome(if m.status == Done then m.out else s, L.asked + R.asked + m.asked, m.status)
  }

  // The methods.

  /** `ms_top_down_merge(src, begin, mid, end, dst)`: writes `dst[begin..end]`
      from the two runs of `src`, asking the judge while both runs have letters. */
  method MsMerge(src: array<char>, begin: nat, mid: nat, end: nat, dst: array<char>, judge: Judge) returns (r: Status)
    requires begin <= mid <= end <= src.Length == dst.Length && src != dst
    modifies dst, judge
    ensures var o := MergeInto(judge.reply, old(dst[..]), src[..], begin, mid, end);
      dst[..] == o.buf && judge.log == old(judge.log) + o.asked && r == o.status
  {
    ghost var s := src[..];
    ghost var d0 := dst[..];
    ghost var m := MergeTo(judge.reply, s, begin, mid, end, begin);
    SpliceNothing(d0, begin);
    AppendNothing(old(judge.log));
    var i, j, k := begin, mid, begin;
    r := Done;
    // The `?` on a failed read returns from inside the loop.
    while k < end && r == Done
      invariant src[..] == s
      invariant MergeAt(judge.reply, s, begin, mid, end, k, m, d0, dst[..], old(judge.log), judge.log)
      invariant r == m.status && i == m.i && j == m.j
      decreases end - k
    {
      r, i, j, m := MergeNext(src, begin, mid, end, dst, i, j, k, judge, s, d0, old(judge.log), m);
      k := k + 1;
    }
    MergeAtEnd(judge.reply, s, begin, mid, end, k, m, d0, dst[..], old(judge.log), judge.log);
  }

  /** The loop of `ms_top_down_merge` has reached position `k` in the state
      `m`: `d` is `d0` with the letters written so far, and `log` is `log0`
      with the queries printed so far. */
  ghost predicate MergeAt(reply: (char, char) -> string, s: seq<char>, begin: nat, mid: nat, end: nat, k: nat, m: Merging,
                          d0: seq<char>, d: seq<char>, log0: seq<Query>, log: seq<Query>) {
    var at := Runs(s, begin, mid, end) && begin <= k <= end && |d0| == |s|
      && m == MergeTo(reply, s, begin, mid, end, k)
      && d == Splice(d0, begin, m.out) && log == log0 + m.asked;
    at
  }

  /** Once the loop has reached `end`, or a read has failed, the state is what
      `MergeInto` says the whole merge leaves. */
  lemma {:induction false} MergeAtEnd(reply: (char, char) -> string, s: seq<char>, begin: nat, mid: nat, end: nat, k: nat, m: Merging,
                                      d0: seq<char>, d: seq<char>, log0: seq<Query>, log: seq<Query>)
    requires MergeAt(reply, s, begin, mid, end, k, m, d0, d, log0, log) && (k == end || m.status != Done)
    ensures var o := MergeInto(reply, d0, s, begin, mid, end);
      d == o.buf && log == log0 + o.asked && m.status == o.status
  {
    if k < end {
      MergeStopped(reply, s, begin, mid, end, k, end);
    }
  }

  /** The loop state after one more pass, from the state before it. */
  method MergeNext(src: array<char>, begin: nat, mid: nat, end: nat, dst: array<char>, i: nat, j: nat, k: nat, judge: Judge,
                   ghost s: seq<char>, ghost d0: seq<char>, ghost log0: seq<Query>, ghost m: Merging)
      returns (r: Status, i': nat, j': nat, ghost m': Merging)
    requires src[..] == s && src != dst && k < end
    requires MergeAt(judge.reply, s, begin, mid, end, k, m, d0, dst[..], log0, judge.log)
    requires m.status == Done && i == m.i && j == m.j
    modifies dst, judge
    ensures MergeAt(judge.reply, s, begin, mid, end, k + 1, m', d0, dst[..], log0, judge.log)
    ensures r == m'.status && i' == m'.i && j' == m'.j
  {
    ghost var m0 := MergeToNext(judge.reply, s, begin, mid, end, k);
    r, i', j', m' := MergeTurn(src, mid, end, dst, i, j, k, judge, begin, s, d0, log0, m);
  }

  /** One pass of the loop body of `ms_top_down_merge`, writing `dst[k]`. */
  method MergeTurn(src: array<char>, mid: nat, end: nat, dst: array<char>, i: nat, j: nat, k: nat, judge: Judge,
                   ghost begin: nat, ghost s: seq<char>, ghost d0: seq<char>, ghost log0: seq<Query>, ghost m: Merging)
      returns (r: Status, i': nat, j': nat, ghost m': Merging)
    requires begin <= mid <= end <= src.Length == dst.Length == |d0| && src != dst && src[..] == s
    requires InRuns(m, begin, mid, end) && Pending(m, mid, end, src.Length)
    requires i == m.i && j == m.j && k == begin + |m.out|
    requires dst[..] == Splice(d0, begin, m.out) && judge.log == log0 + m.asked
    modifies dst, judge
    ensures m' == MergeStep(judge.reply, s, mid, end, m)
    ensures r == m'.status && i' == m'.i && j' == m'.j
    ensures dst[..] == Splice(d0, begin, m'.out) && judge.log == log0 + m'.asked
  {
    m' := MergeStep(judge.reply, s, mid, end, m);
    var isI := true;
    if i >= mid {
      isI := false;
    } else if j < end && i != j {
      var ans := judge.Ask(src[i], src[j]);
      Assoc(log0, m.asked, [(src[i], src[j])]);
      if ans.Err? {
        return Failed(ans.msg), i, j, m';
      }
      isI := ans.value == '<';
    }
    SpliceNext(d0, begin, m.out, if isI then src[i] else src[j]);
    if isI {
      dst[k] := src[i];
      i', j' := i + 1, j;
    } else {
      dst[k] := src[j];
      i', j' := i, j + 1;
    }
    r := Done;
  }

  /** `ms_top_down_split_merge(a, begin, end, b)`: `b` is not in its frame. */
  method MsSplitMerge(a: array<char>, begin: nat, end: nat, b: array<char>, judge: Judge) returns (r: Status)
    requires begin <= end <= a.Length == b.Length && a != b
    modifies a, judge
    ensures var o := SplitMerge(judge.reply, old(a[..]), b[..], begin, end);
      a[..] == o.buf && judge.log == old(judge.log) + o.asked && r == o.status
    decreases end - begin
  {
    if end <= begin + 1 {
      AppendNothing(old(judge.log));
      return Done;
    }
    var mid := (end + begin) / 2;
    ghost var L := SplitMerge(judge.reply, a[..], b[..], begin, mid);
    r := MsSplitMerge(a, begin, mid, b, judge);
    if r != Done {
      return;
    }
    ghost var R := SplitMerge(judge.reply, a[..], b[..], mid, end);
    r := MsSplitMerge(a, mid, end, b, judge);
    Assoc(old(judge.log), L.asked, R.asked);
    if r != Done {
      return;
    }
    ghost var M := MergeInto(judge.reply, a[..], b[..], begin, mid, end);
    r := MsMerge(b, begin, mid, end, a, judge);
    Assoc(old(judge.log), L.asked + R.asked, M.asked);
  }

  /** `merge_sort`: the buffer, the queries and the ending are those of `Mergesort`. */
  method MergeSort(a: array<char>, judge: Judge) returns (r: Status)
    modifies a, judge
    ensures var o := Mergesort(judge.reply, old(a[..]));
      a[..] == o.buf && judge.log == old(judge.log) + o.asked && r == o.status
  {
    var b := new char[a.Length](k requires 0 <= k < a.Length reads a => a[k]);
    assert b[..] == a[..];
    r := MsSplitMerge(a, 0, a.Length, b, judge);
  }

  // Splicing.

  /** Inside [begin, begin + |out|) a splice holds `out`, elsewhere `t`. */
  lemma {:induction false} SpliceAt(t: seq<char>, begin: nat, out: seq<char>)
    requires begin + |out| <= |t|
    ensures forall k :: 0 <= k < |t| ==>
      Splice(t, begin, out)[k] == if begin <= k < begin + |out| then out[k - begin] else t[k]
  {
    var u := Splice(t, begin, out);
    forall k | 0 <= k < |t|
      ensures u[k] == if begin <= k < begin + |out| then out[k - begin] else t[k]
    {
      if k < begin {
        assert u[k] == t[..begin][k];
      } else if k < begin + |out| {
        assert u[k] == (t[..begin] + out)[k];
      } else {
        assert u[k] == t[begin + |out|..][k - begin - |out|];
      }
    }
  }

  lemma {:induction false} SpliceNothing(t: seq<char>, begin: nat)
    requires begin <= |t|
    ensures Splice(t, begin, []) == t
  {
    SpliceAt(t, begin, []);
    assert forall k :: 0 <= k < |t| ==> Splice(t, begin, [])[k] == t[k];
  }

  lemma {:induction false} SpliceNext(t: seq<char>, begin: nat, out: seq<char>, x: char)
    requires begin + |out| < |t|
    ensures Splice(t, begin, out)[begin + |out| := x] == Splice(t, begin, out + [x])
  {
    SpliceAt(t, begin, out);
    SpliceAt(t, begin, out + [x]);
    var u := Splice(t, begin, out)[begin + |out| := x];
    var v := Splice(t, begin, out + [x]);
    forall k | 0 <= k < |t|
      ensures u[k] == v[k]
    {
      if begin <= k < begin + |out| {
        assert (out + [x])[k - begin] == out[k - begin];
      }
    }
  }

  /** `t` and `t'` agree outside [lo, hi). */
  predicate AgreeOutside(t: seq<char>, t': seq<char>, lo: int, hi: int) {
    |t'| == |t| && forall k :: 0 <= k < |t| && (k < lo || hi <= k) ==> t'[k] == t[k]
  }

  lemma {:induction false} AgreeTrans(t: seq<char>, c: seq<char>, t': seq<char>, lo: int, hi: int, a: int, b: int, a': int, b': int)
    requires AgreeOutside(t, c, a, b) && AgreeOutside(c, t', a', b')
    requires lo <= a && b <= hi && lo <= a' && b' <= hi
    ensures AgreeOutside(t, t', lo, hi)
  {
  }

  /** Writing the whole of [begin, begin + |out|) hides what was there. */
  lemma {:induction false} SpliceOver(t: seq<char>, t': seq<char>, begin: nat, out: seq<char>)
    requires begin + |out| <= |t| && AgreeOutside(t, t', begin, begin + |out|)
    ensures Splice(t', begin, out) == Splice(t, begin, out)
  {
    SpliceAt(t', begin, out);
    SpliceAt(t, begin, out);
    var u, v := Splice(t', begin, out), Splice(t, begin, out);
    assert forall k :: 0 <= k < |t| ==> u[k] == v[k];
  }

  // The merge loop.

  /** The loop state at `k` and the step that leads to `k + 1`. */
  lemma {:induction false} MergeToNext(reply: (char, char) -> string, src: seq<char>, begin: nat, mid: nat, end: nat, k: nat) returns (m: Merging)
    requires Runs(src, begin, mid, end) && begin <= k < end
    ensures m == MergeTo(reply, src, begin, mid, end, k)
    ensures m.status == Done ==>
      Pending(m, mid, end, |src|) && MergeTo(reply, src, begin, mid, end, k + 1) == MergeStep(reply, src, mid, end, m)
    ensures m.status != Done ==> MergeTo(reply, src, begin, mid, end, k + 1) == m
  {
    m := MergeTo(reply, src, begin, mid, end, k);
  }

  /** The loop state at `k` and the step that led to it from `k - 1`. */
  lemma {:induction false} MergeToPrev(reply: (char, char) -> string, src: seq<char>, begin: nat, mid: nat, end: nat, k: nat) returns (m: Merging)
    requires Runs(src, begin, mid, end) && begin < k <= end
    ensures m == MergeTo(reply, src, begin, mid, end, k - 1)
    ensures m.status == Done ==>
      Pending(m, mid, end, |src|) && MergeTo(reply, src, begin, mid, end, k) == MergeStep(reply, src, mid, end, m)
    ensures m.status != Done ==> MergeTo(reply, src, begin, mid, end, k) == m
  {
    m := MergeTo(reply, src, begin, mid, end, k - 1);
  }

  /** After a failed read the loop has returned: later positions change nothing. */
  lemma {:induction false} MergeStopped(reply: (char, char) -> string, src: seq<char>, begin: nat, mid: nat, end: nat, k: nat, k': nat)
    requires Runs(src, begin, mid, end) && begin <= k <= k' <= end
    requires MergeTo(reply, src, begin, mid, end, k).status != Done
    ensures MergeTo(reply, src, begin, mid, end, k') == MergeTo(reply, src, begin, mid, end, k)
    decreases k' - k
  {
    if k < k' {
      MergeStopped(reply, src, begin, mid, end, k, k' - 1);
      var m := MergeToPrev(reply, src, begin, mid, end, k');
    }
  }

  /** The letters written are exactly those the cursors `i` and `j` have passed. */
  predicate Passed(src: seq<char>, begin: nat, mid: nat, out: seq<char>, i: nat, j: nat) {
    var passed := begin <= i <= mid <= j <= |src|
      && multiset(out) == multiset(src[begin..i]) + multiset(src[mid..j]);
    passed
  }

  /** The loop has reached `k`, and its letters are those its cursors passed. */
  predicate LettersAt(reply: (char, char) -> string, src: seq<char>, begin: nat, mid: nat, end: nat, k: nat) {
    var passed := Runs(src, begin, mid, end) && begin <= k <= end
      && (var m := MergeTo(reply, src, begin, mid, end, k); Passed(src, begin, mid, m.out, m.i, m.j));
    passed
  }

  lemma {:induction false} MergeToLetters(reply: (char, char) -> string, src: seq<char>, begin: nat, mid: nat, end: nat, k: nat)
    requires Runs(src, begin, mid, end) && begin <= k <= end
    ensures LettersAt(reply, src, begin, mid, end, k)
  {
    LettersStart(reply, src, begin, mid, end);
    var j := begin;
    while j < k
      invariant begin <= j <= k && LettersAt(reply, src, begin, mid, end, j)
    {
      LettersNext(reply, src, begin, mid, end, j);
      j := j + 1;
    }
  }

  lemma {:induction false} LettersStart(reply: (char, char) -> string, src: seq<char>, begin: nat, mid: nat, end: nat)
    requires Runs(src, begin, mid, end)
    ensures LettersAt(reply, src, begin, mid, end, begin)
  {
    var m := MergeTo(reply, src, begin, mid, end, begin);
    assert m.out == [];
    assert src[begin..begin] == [] && src[mid..mid] == [];
  }

  /** One pass writes the letter under the cursor it advances. */
  lemma {:induction false} LettersNext(reply: (char, char) -> string, src: seq<char>, begin: nat, mid: nat, end: nat, k: nat)
    requires Runs(src, begin, mid, end) && begin <= k < end
    requires LettersAt(reply, src, begin, mid, end, k)
    ensures LettersAt(reply, src, begin, mid, end, k + 1)
  {
    var p := MergeToNext(reply, src, begin, mid, end, k);
    var m := MergeTo(reply, src, begin, mid, end, k + 1);
    PassedStep(src, begin, mid, end, p, m);
  }

  /** Passing a letter of either run, or none, keeps the letters those passed. */
  lemma {:induction false} PassedStep(src: seq<char>, begin: nat, mid: nat, end: nat, p: Merging, m: Merging)
    requires end <= |src| && Passed(src, begin, mid, p.out, p.i, p.j) && p.j <= end
    requires
      || (m.out == p.out && m.i == p.i && m.j == p.j)
      || (p.i < mid && m.i == p.i + 1 && m.j == p.j && m.out == p.out + [src[p.i]])
      || (p.j < end && m.i == p.i && m.j == p.j + 1 && m.out == p.out + [src[p.j]])
    ensures Passed(src, begin, mid, m.out, m.i, m.j)
  {
    if m.out == p.out && m.i == p.i && m.j == p.j {
    } else if m.i == p.i + 1 {
      TakeLeft(src, begin, mid, p, m);
    } else {
      TakeRight(src, begin, mid, p, m);
    }
  }

  lemma {:induction false} TakeLeft(src: seq<char>, begin: nat, mid: nat, p: Merging, m: Merging)
    requires Passed(src, begin, mid, p.out, p.i, p.j) && p.i < mid
    requires m.i == p.i + 1 && m.j == p.j && m.out == p.out + [src[p.i]]
    ensures Passed(src, begin, mid, m.out, m.i, m.j)
  {
    assert src[begin..p.i + 1] == src[begin..p.i] + [src[p.i]];
  }

  lemma {:induction false} TakeRight(src: seq<char>, begin: nat, mid: nat, p: Merging, m: Merging)
    requires Passed(src, begin, mid, p.out, p.i, p.j) && p.j < |src|
    requires m.i == p.i && m.j == p.j + 1 && m.out == p.out + [src[p.j]]
    ensures Passed(src, begin, mid, m.out, m.i, m.j)
  {
    assert src[mid..p.j + 1] == src[mid..p.j] + [src[p.j]];
  }

  /** A completed merge writes every letter of both runs, each once. */
  lemma {:induction false} MergeLetters(reply: (char, char) -> string, src: seq<char>, begin: nat, mid: nat, end: nat)
    requires Runs(src, begin, mid, end)
    ensures var m := Merge(reply, src, begin, mid, end);
      m.status == Done ==> multiset(m.out) == multiset(src[begin..end])
  {
    MergeToLetters(reply, src, begin, mid, end, end);
    assert src[begin..end] == src[begin..mid] + src[mid..end];
  }

  /** At most one query per letter written, and none for a letter written
      once a run is spent. */
  lemma {:induction false} MergeToQueries(reply: (char, char) -> string, src: seq<char>, begin: nat, mid: nat, end: nat, k: nat)
    requires Runs(src, begin, mid, end) && begin <= k <= end
    ensures var m := MergeTo(reply, src, begin, mid, end, k);
      && (m.status == Done ==> |m.asked| <= |m.out| && (|m.asked| == |m.out| ==> |m.out| == 0 || |m.out| < end - begin))
      && (m.status != Done ==> |m.asked| <= |m.out| + 1 && |m.out| + 2 <= end - begin)
    decreases k
  {
    if k > begin {
      MergeToQueries(reply, src, begin, mid, end, k - 1);
      var m := MergeToPrev(reply, src, begin, mid, end, k);
      if m.status == Done {
          }
    }
  }

  /** `ms_top_down_merge` prints at most `end - begin - 1` queries. */
  lemma {:induction false} MergeQueries(reply: (char, char) -> string, src: seq<char>, begin: nat, mid: nat, end: nat)
    requires Runs(src, begin, mid, end)
    ensures var m := Merge(reply, src, begin, mid, end);
      (begin < end ==> |m.asked| <= end - begin - 1) && (begin == end ==> m.asked == [])
  {
    MergeToQueries(reply, src, begin, mid, end, end);
  }

  /** A judge that always answers lets the merge finish. */
  lemma {:induction false} MergeToDone(reply: (char, char) -> string, src: seq<char>, begin: nat, mid: nat, end: nat, k: nat)
    requires Responsive(reply)
    requires Runs(src, begin, mid, end) && begin <= k <= end
    ensures MergeTo(reply, src, begin, mid, end, k).status == Done
    decreases k
  {
    if k > begin {
      MergeToDone(reply, src, begin, mid, end, k - 1);
      var m := MergeToPrev(reply, src, begin, mid, end, k);
      if m.i < mid && m.j < end {
        assert reply(src[m.i], src[m.j]) != [];
      }
    }
  }

  // Merging sorted runs.

  /** The letters in [lo, hi) follow the hidden order. */
  predicate SortedRun(s: seq<char>, rank: char -> int, lo: nat, hi: nat) {
    forall x, y :: lo <= x < y < hi && y < |s| ==> rank(s[x]) <= rank(s[y])
  }

  /** The loop invariant behind a sorted merge: what is written is sorted and
      ranks at most the next letter of each run. */
  predicate Ordered(src: seq<char>, rank: char -> int, mid: nat, end: nat, m: Merging) {
    var ordered :=
      && m.i <= mid <= m.j <= end <= |src|
      && m.status == Done && SortedBy(m.out, rank)
      && (m.out != [] && m.i < mid ==> rank(m.out[|m.out| - 1]) <= rank(src[m.i]))
      && (m.out != [] && m.j < end ==> rank(m.out[|m.out| - 1]) <= rank(src[m.j]));
    ordered
  }

  lemma {:induction false} StepOrdered(reply: (char, char) -> string, rank: char -> int, src: seq<char>, begin: nat, mid: nat, end: nat, m: Merging)
    requires Honest(reply, rank)
    requires InRuns(m, begin, mid, end) && Pending(m, mid, end, |src|)
    requires SortedRun(src, rank, begin, mid) && SortedRun(src, rank, mid, end)
    requires Ordered(src, rank, mid, end, m)
    ensures Ordered(src, rank, mid, end, MergeStep(reply, src, mid, end, m))
  {
    var m' := MergeStep(reply, src, mid, end, m);
    if m.i < mid && m.j < end {
      assert ReadTurn(reply(src[m.i], src[m.j])) == Ok(if rank(src[m.i]) < rank(src[m.j]) then '<' else '>');
    }
    assert m'.status == Done;
    var x := m'.out[|m.out|];
    assert m'.out == m.out + [x];
    forall a, b | 0 <= a < b < |m'.out|
      ensures rank(m'.out[a]) <= rank(m'.out[b])
    {
      if b == |m.out| {
        assert rank(m.out[a]) <= rank(m.out[|m.out| - 1]);
      }
    }
  }

  /** The merge loop before position `k` is `Ordered`. */
  predicate OrderedAt(reply: (char, char) -> string, rank: char -> int, src: seq<char>, begin: nat, mid: nat, end: nat, k: nat) {
    var ordered := Runs(src, begin, mid, end) && begin <= k <= end
      && Ordered(src, rank, mid, end, MergeTo(reply, src, begin, mid, end, k));
    ordered
  }

  lemma {:induction false} MergeToOrdered(reply: (char, char) -> string, rank: char -> int, src: seq<char>, begin: nat, mid: nat, end: nat, k: nat)
    requires Honest(reply, rank)
    requires Runs(src, begin, mid, end) && begin <= k <= end
    requires SortedRun(src, rank, begin, mid) && SortedRun(src, rank, mid, end)
    ensures OrderedAt(reply, rank, src, begin, mid, end, k)
  {
    var j := begin;
    OrderedStart(reply, rank, src, begin, mid, end);
    while j < k
      invariant begin <= j <= k
      invariant OrderedAt(reply, rank, src, begin, mid, end, j)
    {
      OrderedNext(reply, rank, src, begin, mid, end, j);
      j := j + 1;
    }
  }

  lemma {:induction false} OrderedStart(reply: (char, char) -> string, rank: char -> int, src: seq<char>, begin: nat, mid: nat, end: nat)
    requires Runs(src, begin, mid, end)
    ensures OrderedAt(reply, rank, src, begin, mid, end, begin)
  {
    assert MergeTo(reply, src, begin, mid, end, begin).out == [];
  }

  lemma {:induction false} OrderedNext(reply: (char, char) -> string, rank: char -> int, src: seq<char>, begin: nat, mid: nat, end: nat, k: nat)
    requires Honest(reply, rank)
    requires Runs(src, begin, mid, end) && begin <= k < end
    requires SortedRun(src, rank, begin, mid) && SortedRun(src, rank, mid, end)
    requires OrderedAt(reply, rank, src, begin, mid, end, k)
    ensures OrderedAt(reply, rank, src, begin, mid, end, k + 1)
  {
    var m := MergeToNext(reply, src, begin, mid, end, k);
    StepOrdered(reply, rank, src, begin, mid, end, m);
  }

  /** With an honest judge, two sorted runs merge into a sorted range. */
  lemma {:induction false} MergeSortedRuns(reply: (char, char) -> string, rank: char -> int, src: seq<char>, begin: nat, mid: nat, end: nat)
    requires Honest(reply, rank)
    requires Runs(src, begin, mid, end)
    requires SortedRun(src, rank, begin, mid) && SortedRun(src, rank, mid, end)
    ensures Merge(reply, src, begin, mid, end).status == Done
    ensures SortedBy(Merge(reply, src, begin, mid, end).out, rank)
  {
    MergeToOrdered(reply, rank, src, begin, mid, end, end);
  }

  // The recursion as written.

  /** One level of `ms_top_down_split_merge` unfolded: the left part `L`, and
      the right part `R` run on what `L` left. */
  lemma {:induction false} SplitMergeParts(reply: (char, char) -> string, a: seq<char>, b: seq<char>, begin: nat, end: nat) returns (L: Outcome, R: Outcome)
    requires begin + 2 <= end <= |a| == |b|
    ensures var mid := (end + begin) / 2;
      && begin < mid < end
      && L == SplitMerge(reply, a, b, begin, mid)
      && (L.status == Done ==> R == SplitMerge(reply, L.buf, b, mid, end))
      && SplitMerge(reply, a, b, begin, end) ==
        if L.status != Done then L
        else if R.status != Done then After(L.asked, R)
        else After(L.asked + R.asked, MergeInto(reply, R.buf, b, begin, mid, end))
  {
    var mid := (end + begin) / 2;
    L := SplitMerge(reply, a, b, begin, mid);
    R := if L.status == Done then SplitMerge(reply, L.buf, b, mid, end) else L;
  }

  /** `ms_top_down_split_merge(a, begin, end, b)` writes only `a[begin..end]`. */
  lemma {:induction false} SplitMergeFrame(reply: (char, char) -> string, a: seq<char>, b: seq<char>, begin: nat, end: nat)
    requires begin <= end <= |a| == |b|
    ensures AgreeOutside(a, SplitMerge(reply, a, b, begin, end).buf, begin, end)
    decreases end - begin
  {
    if end > begin + 1 {
      var mid := (end + begin) / 2;
      var L, R := SplitMergeParts(reply, a, b, begin, end);
      SplitMergeFrame(reply, a, b, begin, mid);
      if L.status == Done {
        SplitMergeFrame(reply, L.buf, b, mid, end);
        AgreeTrans(a, L.buf, R.buf, begin, end, begin, mid, mid, end);
        if R.status == Done {
          var m := Merge(reply, b, begin, mid, end);
          SpliceAt(R.buf, begin, m.out);
          AgreeTrans(a, R.buf, Splice(R.buf, begin, m.out), begin, end, begin, end, begin, begin + |m.out|);
        }
      }
    }
  }

  /** When it completes, a call on at least two letters leaves in
      `a[begin..end]` only what its own last merge wrote: the merge of the
      runs of `b`, whatever the calls before it did. */
  lemma {:induction false} SplitMergeTop(reply: (char, char) -> string, a: seq<char>, b: seq<char>, begin: nat, end: nat)
    requires begin + 2 <= end <= |a| == |b|
    ensures var o := SplitMerge(reply, a, b, begin, end);
      var m := Merge(reply, b, begin, (end + begin) / 2, end);
      o.status == Done ==> m.status == Done && o.buf == Splice(a, begin, m.out)
  {
    var mid := (end + begin) / 2;
    var L, R := SplitMergeParts(reply, a, b, begin, end);
    if L.status == Done && R.status == Done {
      var m := Merge(reply, b, begin, mid, end);
      SplitMergeFrame(reply, a, b, begin, mid);
      SplitMergeFrame(reply, L.buf, b, mid, end);
      AgreeTrans(a, L.buf, R.buf, begin, end, begin, mid, mid, end);
      if m.status == Done {
        SpliceOver(a, R.buf, begin, m.out);
      }
    }
  }

  /** A judge that always answers lets the recursion finish. */
  lemma {:induction false} SplitMergeDone(reply: (char, char) -> string, a: seq<char>, b: seq<char>, begin: nat, end: nat)
    requires Responsive(reply)
    requires begin <= end <= |a| == |b|
    ensures SplitMerge(reply, a, b, begin, end).status == Done
    decreases end - begin
  {
    if end > begin + 1 {
      var mid := (end + begin) / 2;
      var L, R := SplitMergeParts(reply, a, b, begin, end);
      SplitMergeDone(reply, a, b, begin, mid);
      SplitMergeDone(reply, L.buf, b, mid, end);
      MergeToDone(reply, b, begin, mid, end, end);
    }
  }

  /** `merge_sort` as written: a completed sort leaves the merge of the two
      unsorted halves of the input, which holds the input's letters. */
  lemma {:induction false} MergesortAsWritten(reply: (char, char) -> string, s: seq<char>)
    ensures var o := Mergesort(reply, s);
      && (o.status == Done ==> o.buf == if |s| <= 1 then s else Merge(reply, s, 0, |s| / 2, |s|).out)
      && (o.status == Done ==> multiset(o.buf) == multiset(s))
      && (Responsive(reply) ==> o.status == Done)
  {
    if Responsive(reply) {
      SplitMergeDone(reply, s, s, 0, |s|);
    }
    if |s| >= 2 {
      var m := Merge(reply, s, 0, |s| / 2, |s|);
      SplitMergeTop(reply, s, s, 0, |s|);
      if m.status == Done {
        assert Splice(s, 0, m.out) == m.out;
        MergeLetters(reply, s, 0, |s| / 2, |s|);
        assert s[0..|s|] == s;
      }
    }
  }

  /** With an honest judge, `merge_sort` on three letters in reverse of the
      judge's order completes with the middle, the last, then the first letter:
      not in the judge's order. */
  lemma {:induction false} MergesortUnsorted(reply: (char, char) -> string, rank: char -> int, s: seq<char>)
    requires Honest(reply, rank)
    requires |s| == 3 && rank(s[2]) < rank(s[1]) < rank(s[0])
    ensures Mergesort(reply, s).status == Done
    ensures Mergesort(reply, s).buf == [s[1], s[2], s[0]]
    ensures !SortedBy(Mergesort(reply, s).buf, rank)
  {
    HonestIsResponsive(reply, rank);
    MergesortAsWritten(reply, s);
    assert ReadTurn(reply(s[0], s[1])) == Ok('>');
    assert ReadTurn(reply(s[0], s[2])) == Ok('>');
    MergeOfThree(reply, s, 0, |s| / 2, |s|);
  }

  /** A merge of a one-letter run with a two-letter run whose letters the
      judge both puts first. */
  lemma {:induction false} MergeOfThree(reply: (char, char) -> string, s: seq<char>, b: nat, md: nat, e: nat)
    requires md == b + 1 && e == md + 2 && e <= |s|
    requires ReadTurn(reply(s[b], s[md])) == Ok('>') && ReadTurn(reply(s[b], s[md + 1])) == Ok('>')
    ensures Merge(reply, s, b, md, e).out == [s[md], s[md + 1], s[b]]
  {
    var m2 := SecondTaken(reply, s, b, md, e);
    var m := MergeToNext(reply, s, b, md, e, b + 2);
    assert MergeStep(reply, s, md, e, m2).out == [s[md], s[md + 1]] + [s[b]];
  }

  /** Two right-run letters taken in turn, each after a '>' answer. */
  lemma {:induction false} SecondTaken(reply: (char, char) -> string, s: seq<char>, b: nat, md: nat, e: nat) returns (m2: Merging)
    requires b < md && md + 1 < e <= |s| && b + 2 <= e
    requires ReadTurn(reply(s[b], s[md])) == Ok('>') && ReadTurn(reply(s[b], s[md + 1])) == Ok('>')
    ensures m2 == MergeTo(reply, s, b, md, e, b + 2)
    ensures m2 == Merging([s[md], s[md + 1]], b, md + 2, [(s[b], s[md]), (s[b], s[md + 1])], Done)
  {
    var m1 := FirstTaken(reply, s, b, md, e);
    var m := MergeToNext(reply, s, b, md, e, b + 1);
    m2 := MergeStep(reply, s, md, e, m1);
    assert m2.out == [s[md]] + [s[md + 1]];
    assert m2.asked == [(s[b], s[md])] + [(s[b], s[md + 1])];
  }

  lemma {:induction false} FirstTaken(reply: (char, char) -> string, s: seq<char>, b: nat, md: nat, e: nat) returns (m1: Merging)
    requires b < md < e <= |s|
    requires ReadTurn(reply(s[b], s[md])) == Ok('>')
    ensures m1 == MergeTo(reply, s, b, md, e, b + 1)
    ensures m1 == Merging([s[md]], b, md + 1, [(s[b], s[md])], Done)
  {
    var m0 := MergeToNext(reply, s, b, md, e, b);
    m1 := MergeStep(reply, s, md, e, m0);
    assert m1.out == [] + [s[md]];
    assert m1.asked == [] + [(s[b], s[md])];
  }

  /** The same, for the judge whose hidden order is Z..A. */
  lemma {:induction false} MergesortUnsortedOnABC()
    ensures Mergesort((x: char, y: char) => if x > y then "<\n" else ">\n", "ABC").buf == "BCA"
  {
    var reply := (x: char, y: char) => if x > y then "<\n" else ">\n";
    var rank := (c: char) => -(c as int);
    assert Honest(reply, rank) by {
      forall x: char, y: char
        ensures ReadTurn(reply(x, y)) == Ok(if rank(x) < rank(y) then '<' else '>')
      {
      }
    }
    MergesortUnsorted(reply, rank, "ABC");
  }

  // The corrected recursion.

  /** Two sorted halves side by side are two sorted runs. */
  lemma {:induction false} HalvesAreRuns(l: seq<char>, r: seq<char>, rank: char -> int)
    requires SortedBy(l, rank) && SortedBy(r, rank)
    ensures SortedRun(l + r, rank, 0, |l|) && SortedRun(l + r, rank, |l|, |l| + |r|)
  {
    var c := l + r;
    forall x, y | |l| <= x < y < |l| + |r|
      ensures rank(c[x]) <= rank(c[y])
    {
      assert c[x] == r[x - |l|] && c[y] == r[y - |l|];
    }
  }

  /** With an honest judge the corrected merge sort completes, and leaves the
      input's letters in the judge's order. */
  lemma {:induction false} MergesortFixedSorts(reply: (char, char) -> string, rank: char -> int, s: seq<char>)
    requires Honest(reply, rank)
    ensures var o := MergesortFixed(reply, s);
      o.status == Done && SortedBy(o.buf, rank) && multiset(o.buf) == multiset(s)
    decreases |s|
  {
    if |s| > 1 {
      var mid := |s| / 2;
      var L := MergesortFixed(reply, s[..mid]);
      MergesortFixedSorts(reply, rank, s[..mid]);
      var R := MergesortFixed(reply, s[mid..]);
      MergesortFixedSorts(reply, rank, s[mid..]);
      FixedJoin(reply, rank, s, L.buf, R.buf);
    }
  }

  /** Merging the sorted halves of the corrected sort. */
  lemma {:induction false} FixedJoin(reply: (char, char) -> string, rank: char -> int, s: seq<char>, l: seq<char>, r: seq<char>)
    requires Honest(reply, rank) && |s| > 1
    requires |l| == |s| / 2 && SortedBy(l, rank) && multiset(l) == multiset(s[..|s| / 2])
    requires |r| == |s| - |s| / 2 && SortedBy(r, rank) && multiset(r) == multiset(s[|s| / 2..])
    ensures var m := Merge(reply, l + r, 0, |s| / 2, |s|);
      m.status == Done && SortedBy(m.out, rank) && multiset(m.out) == multiset(s)
  {
    HalvesAreRuns(l, r, rank);
    MergeSortedRuns(reply, rank, l + r, 0, |s| / 2, |s|);
    JoinLetters(reply, s, l, r);
  }

  /** Merging the halves keeps the letters of the whole. */
  lemma {:induction false} JoinLetters(reply: (char, char) -> string, s: seq<char>, l: seq<char>, r: seq<char>)
    requires |s| > 1 && |l| == |s| / 2 && |r| == |s| - |s| / 2
    requires multiset(l) == multiset(s[..|s| / 2]) && multiset(r) == multiset(s[|s| / 2..])
    ensures var m := Merge(reply, l + r, 0, |s| / 2, |s|);
      m.status == Done ==> multiset(m.out) == multiset(s)
  {
    var c := l + r;
    MergeLetters(reply, c, 0, |s| / 2, |s|);
    assert c[0..|s|] == c;
    assert multiset(c) == multiset(l) + multiset(r);
    assert s == s[..|s| / 2] + s[|s| / 2..];
    assert multiset(s) == multiset(s[..|s| / 2]) + multiset(s[|s| / 2..]);
  }
}
