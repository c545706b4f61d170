/** practice_b's `quick_sort` (Lomuto partition around the last letter),
    which the program marks as not working, and the repair of its bug. */
module PracticeBQuick {
  import opened Text
  import opened PracticeBJudge

  /** Whether the partition moves `x` before the pivot: a letter equal to the
      pivot is not asked about and goes before it, any other goes before it
      when the answer is '<'. */
  predicate GoesLeft(reply: (char, char) -> string, pivot: char, x: char) {
    x == pivot || ReadTurn(reply(x, pivot)) == Ok('<')
  }

  /** The queries the partition prints for the letters of [lo, j), in
      order: one for each letter other than the pivot. */
  function Queries(s: seq<char>, pivot: char, lo: nat, j: nat): (qs: seq<Query>)
    requires lo <= j <= |s|
    ensures |qs| <= j - lo
    ensures (forall k :: lo <= k < j ==> s[k] != pivot) ==> |qs| == j - lo
    decreases j - lo
  {
    if j == lo then []
    else Queries(s, pivot, lo, j - 1) + (if s[j - 1] == pivot then [] else [(s[j - 1], pivot)])
  }

  /** One iteration of `qs_partition`'s loop at position `j`: the buffer
      after it, the next place `i` for a letter that goes first, the query
      printed (none when the letter is the pivot itself) and whether the
      answer could be read. */
  datatype Turn = Turn(buf: seq<char>, next: nat, q: seq<Query>, status: Status)

  function ScanTurn(reply: (char, char) -> string, s: seq<char>, pivot: char, i: nat, j: nat): (t: Turn)
    requires i <= j < |s|
    ensures |t.buf| == |s| && i <= t.next <= i + 1 && t.status != Underflow
    ensures t.q == (if s[j] == pivot then [] else [(s[j], pivot)])
    ensures t.buf == (if t.next == i + 1 then Swap(s, i, j) else s)
    ensures t.status == Done <==> s[j] == pivot || reply(s[j], pivot) != []
    ensures t.status == Done ==> (t.next == i + 1 <==> GoesLeft(reply, pivot, s[j]))
  {
    if s[j] == pivot then Turn(Swap(s, i, j), i + 1, [], Done)
    else
      match ReadTurn(reply(s[j], pivot))
      case Err(msg) => Turn(s, i, [(s[j], pivot)], Failed(msg))
      case Ok(ans) =>
        if ans == '<' then Turn(Swap(s, i, j), i + 1, [(s[j], pivot)], Done)
        else Turn(s, i, [(s[j], pivot)], Done)
  }

  /** Where `qs_partition`'s loop stands once it has reached position `j`. */
  datatype Scanned = Scanned(buf: seq<char>, i: nat, asked: seq<Query>, status: Status)

  /** The loop `for j in lo..hi` of `qs_partition` run from `lo` up to (not
      including) `j`; the first error ends it. */
  function ScanTo(reply: (char, char) -> string, s: seq<char>, pivot: char, lo: nat, j: nat): (c: Scanned)
    requires lo <= j < |s|
    ensures |c.buf| == |s| && lo <= c.i <= j && c.status != Underflow
    decreases j - lo
  {
    if j == lo then Scanned(s, lo, [], Done)
    else
      var c := ScanTo(reply, s, pivot, lo, j - 1);
      if c.status != Done then c
      else
        var t := ScanTurn(reply, c.buf, pivot, c.i, j - 1);
        Scanned(t.buf, t.next, c.asked + t.q, t.status)
  }

  /** The outcome of `qs_partition` and the position `p` it returns. */
  datatype Split = Split(out: Outcome, p: int)

  /** `qs_partition(a, lo, hi)`: the pivot is the letter at `hi`, moved to its
      place `i` after the loop. */
  function Partition(reply: (char, char) -> string, s: seq<char>, lo: nat, hi: nat): (r: Split)
    requires lo <= hi < |s|
    ensures |r.out.buf| == |s| && r.out.status != Underflow
    ensures r.out.status == Done ==> lo <= r.p <= hi
  {
    var c := ScanTo(reply, s, s[hi], lo, hi);
    if c.status != Done then Split(Outcome(c.buf, c.asked, c.status), c.i)
    else Split(Outcome(Swap(c.buf, c.i, hi), c.asked, Done), c.i)
  }

  /** `qs_iter(a, lo, hi)`. As written (`repaired` false) a partition that
      returns 0 makes the left call's `p - 1` go below zero, which panics;
      repaired, the left part is sorted only when it is not empty. */
  function QuickRange(reply: (char, char) -> string, s: seq<char>, lo: nat, hi: nat, repaired: bool): (o: Outcome)
    requires lo <= hi + 1 && hi < |s|
    ensures |o.buf| == |s|
    ensures repaired ==> o.status != Underflow
    decreases hi - lo + 1, 1
  {
    if lo >= hi then Outcome(s, [], Done)
    else
      var P := Partition(reply, s, lo, hi);
      if P.out.status != Done then P.out
      else if P.p == 0 && !repaired then P.out.(status := Underflow)
      else After(P.out.asked, Halves(reply, P.out.buf, lo, P.p, hi, repaired))
  }

  /** The two calls of `qs_iter` once the partition has put the pivot at `p`. */
  function Halves(reply: (char, char) -> string, s: seq<char>, lo: nat, p: nat, hi: nat, repaired: bool): (o: Outcome)
    requires lo <= p <= hi < |s| && (p == 0 ==> repaired)
    ensures |o.buf| == |s|
    ensures repaired ==> o.status != Underflow
    decreases hi - lo + 1, 0
  {
    var L := if p == 0 then Outcome(s, [], Done) else QuickRange(reply, s, lo, p - 1, repaired);
    if L.status != Done then L else After(L.asked, QuickRange(reply, L.buf, p + 1, hi, repaired))
  }

  /** `quick_sort` as written: `a.len() - 1` goes below zero on an empty buffer. */
  function Quick(reply: (char, char) -> string, s: seq<char>): (o: Outcome)
    ensures |o.buf| == |s|
    ensures s == [] ==> o.status == Underflow
  {
    if s == [] then Outcome(s, [], Underflow) else QuickRange(reply, s, 0, |s| - 1, false)
  }

  /** `quick_sort` repaired: an empty buffer is already sorted, and so is an
      empty left part. */
  function QuickFixed(reply: (char, char) -> string, s: seq<char>): (o: Outcome)
    ensures |o.buf| == |s| && o.status != Underflow
  {
    if s == [] then Outcome(s, [], Done) else QuickRange(reply, s, 0, |s| - 1, true)
  }

  // The program's functions, proved to do what the functions above say.

  /** `a.swap(i, j)`. */
  method Exchange(a: array<char>, i: nat, j: nat)
    requires i < a.Length && j < a.Length
    modifies a
    ensures a[..] == Swap(old(a[..]), i, j)
  {
    a[i], a[j] := a[j], a[i];
  }

  /** The body of `qs_partition`'s loop: the letter at `j` is compared with
      the pivot (unless it equals the pivot) and swapped into place `i` when
      it goes first. */
  method PartitionStep(a: array<char>, pivot: char, i: nat, j: nat, judge: Judge) returns (r: Status, next: nat)
    requires i <= j < a.Length
    modifies a, judge
    ensures var t := ScanTurn(judge.reply, old(a[..]), pivot, i, j);
      a[..] == t.buf && next == t.next && r == t.status && judge.log == old(judge.log) + t.q
  {
    var ans := '<';
    if a[j] != pivot {
      var read := judge.Ask(a[j], pivot);
      if read.Err? {
        return Failed(read.msg), i;
      }
      ans := read.value;
    } else {
      AppendNothing(old(judge.log));
    }
    next := i;
    if ans == '<' {
      Exchange(a, i, j);
      next := i + 1;
    }
    r := Done;
  }

  /** The loop of `qs_partition` has reached position `j` in the state `c`:
      the buffer is `buf`, the next place is `i`, and `log` is `log0` with
      the queries printed so far. */
  ghost predicate ScanAt(reply: (char, char) -> string, s0: seq<char>, pivot: char, lo: nat, j: nat, c: Scanned,
                         buf: seq<char>, i: nat, log0: seq<Query>, log: seq<Query>) {
    var at := lo <= j < |s0| && c == ScanTo(reply, s0, pivot, lo, j)
      && buf == c.buf && i == c.i && log == log0 + c.asked;
    at
  }

  /** `PartitionStep`, seen as the move from `ScanTo(.., j)` to `ScanTo(.., j + 1)`. */
  method PartitionTurn(a: array<char>, pivot: char, i: nat, j: nat, judge: Judge,
                       ghost s0: seq<char>, ghost lo: nat, ghost log0: seq<Query>, ghost c: Scanned)
    returns (r: Status, next: nat, ghost c': Scanned)
    requires j + 1 < |s0| && c.status == Done
    requires ScanAt(judge.reply, s0, pivot, lo, j, c, a[..], i, log0, judge.log)
    modifies a, judge
    ensures ScanAt(judge.reply, s0, pivot, lo, j + 1, c', a[..], next, log0, judge.log)
    ensures r == c'.status
  {
    ghost var t := ScanTurn(judge.reply, a[..], pivot, i, j);
    r, next := PartitionStep(a, pivot, i, j, judge);
    Assoc(log0, c.asked, t.q);
    c' := Scanned(t.buf, t.next, c.asked + t.q, t.status);
  }

  /** Once the loop has reached `hi`, or a read has failed, the state is what
      `Partition` says, before the pivot is moved to `i`. */
  lemma {:induction false} ScanAtEnd(reply: (char, char) -> string, s0: seq<char>, lo: nat, j: nat, hi: nat, c: Scanned,
                                     buf: seq<char>, i: nat, log0: seq<Query>, log: seq<Query>)
    requires j <= hi < |s0| && ScanAt(reply, s0, s0[hi], lo, j, c, buf, i, log0, log)
    requires j == hi || c.status != Done
    ensures var P := Partition(reply, s0, lo, hi);
      && log == log0 + P.out.asked && c.status == P.out.status
      && (c.status != Done ==> buf == P.out.buf)
      && (c.status == Done ==> i < |buf| && Swap(buf, i, hi) == P.out.buf && P.p == i)
  {
    PartitionOf(reply, s0, lo, j, hi);
  }

  /** `qs_partition`: the buffer, the queries and the result are those of `Partition`. */
  method QsPartition(a: array<char>, lo: nat, hi: nat, judge: Judge) returns (r: Status, p: nat)
    requires lo <= hi < a.Length
    modifies a, judge
    ensures var P := Partition(judge.reply, old(a[..]), lo, hi);
      a[..] == P.out.buf && judge.log == old(judge.log) + P.out.asked && r == P.out.status
      && (r == Done ==> p == P.p)
  {
    ghost var s0 := a[..];
    var pivot := a[hi];
    var i := lo;
    var j := lo;
    r, p := Done, lo;
    ghost var c := ScanTo(judge.reply, s0, pivot, lo, j);
    AppendNothing(old(judge.log));
    while j < hi && r == Done
      invariant j <= hi && ScanAt(judge.reply, s0, pivot, lo, j, c, a[..], i, old(judge.log), judge.log)
      invariant r == c.status
      decreases hi - j
    {
      r, i, c := PartitionTurn(a, pivot, i, j, judge, s0, lo, old(judge.log), c);
      j := j + 1;
    }
    ScanAtEnd(judge.reply, s0, lo, j, hi, c, a[..], i, old(judge.log), judge.log);
    if r == Done {
      Exchange(a, i, hi);
      p := i;
    }
  }

  /** `qs_iter`: the buffer, the queries and the ending are those of `QuickRange`. */
  method QsIter(a: array<char>, lo: nat, hi: nat, judge: Judge) returns (r: Status)
    requires lo <= hi + 1 && hi < a.Length
    modifies a, judge
    ensures var o := QuickRange(judge.reply, old(a[..]), lo, hi, false);
      a[..] == o.buf && judge.log == old(judge.log) + o.asked && r == o.status
    decreases hi - lo + 1, 1
  {
    if lo >= hi {
      return Done;
    }
    ghost var P := Partition(judge.reply, a[..], lo, hi);
    var p;
    r, p := QsPartition(a, lo, hi, judge);
    if r == Done && p == 0 {
      r := Underflow;
    } else if r == Done {
      ghost var H := Halves(judge.reply, a[..], lo, p, hi, false);
      r := QsHalves(a, lo, p, hi, judge);
      Assoc(old(judge.log), P.out.asked, H.asked);
    }
  }

  /** `qs_iter(a, lo, p - 1)` then `qs_iter(a, p + 1, hi)`. */
  method QsHalves(a: array<char>, lo: nat, p: nat, hi: nat, judge: Judge) returns (r: Status)
    requires 0 < p && lo <= p <= hi < a.Length
    modifies a, judge
    ensures var o := Halves(judge.reply, old(a[..]), lo, p, hi, false);
      a[..] == o.buf && judge.log == old(judge.log) + o.asked && r == o.status
    decreases hi - lo + 1, 0
  {
    ghost var L := QuickRange(judge.reply, a[..], lo, p - 1, false);
    r := QsIter(a, lo, p - 1, judge);
    if r == Done {
      ghost var R := QuickRange(judge.reply, a[..], p + 1, hi, false);
      r := QsIter(a, p + 1, hi, judge);
      Assoc(old(judge.log), L.asked, R.asked);
    }
  }

  /** `quick_sort`: the buffer, the queries and the ending are those of `Quick`. */
  method QuickSort(a: array<char>, judge: Judge) returns (r: Status)
    modifies a, judge
    ensures var o := Quick(judge.reply, old(a[..]));
      a[..] == o.buf && judge.log == old(judge.log) + o.asked && r == o.status
  {
    if a.Length == 0 {
      AppendNothing(old(judge.log));
      return Underflow;
    }
    r := QsIter(a, 0, a.Length - 1, judge);
  }

  // The partition loop.

  /** `Partition` read off the scan where the loop of `qs_partition` stops:
      at the pivot, or at the first missing answer. */
  lemma {:induction false} PartitionOf(reply: (char, char) -> string, s: seq<char>, lo: nat, j: nat, hi: nat)
    requires lo <= j <= hi < |s|
    requires j == hi || ScanTo(reply, s, s[hi], lo, j).status != Done
    ensures var c := ScanTo(reply, s, s[hi], lo, j);
      Partition(reply, s, lo, hi)
        == if c.status != Done then Split(Outcome(c.buf, c.asked, c.status), c.i)
           else Split(Outcome(Swap(c.buf, c.i, hi), c.asked, Done), c.i)
  {
    if j < hi {
      ScanStopped(reply, s, s[hi], lo, j, hi);
    }
  }

  lemma {:induction false} ScanStopped(reply: (char, char) -> string, s: seq<char>, pivot: char, lo: nat, j: nat, k: nat)
    requires lo <= j <= k < |s|
    requires ScanTo(reply, s, pivot, lo, j).status != Done
    ensures ScanTo(reply, s, pivot, lo, k) == ScanTo(reply, s, pivot, lo, j)
    decreases k - j
  {
    if j < k {
      ScanStopped(reply, s, pivot, lo, j, k - 1);
    }
  }

  /** One iteration exchanges at most the letters at `i` and `j`. */
  lemma {:induction false} TurnFrame(reply: (char, char) -> string, s: seq<char>, pivot: char, i: nat, j: nat)
    requires i <= j < |s|
    ensures Rearranged(s, ScanTurn(reply, s, pivot, i, j).buf, i, j + 1)
  {
    var t := ScanTurn(reply, s, pivot, i, j);
    if t.next == i + 1 {
      SwapRearranged(s, i, j);
    }
  }

  lemma {:induction false} ScanFrame(reply: (char, char) -> string, s: seq<char>, pivot: char, lo: nat, j: nat)
    requires lo <= j < |s|
    ensures Rearranged(s, ScanTo(reply, s, pivot, lo, j).buf, lo, j)
  {
    var k := lo;
    RearrangedSelf(s, lo, lo);
    assert FrameAt(reply, s, pivot, lo, lo);
    while k < j
      invariant lo <= k <= j && FrameAt(reply, s, pivot, lo, k)
    {
      FrameNext(reply, s, pivot, lo, k);
      k := k + 1;
    }
  }

  /** The scan up to `j` has only rearranged [lo, j). */
  predicate FrameAt(reply: (char, char) -> string, s: seq<char>, pivot: char, lo: nat, j: nat) {
    var framed := lo <= j < |s| && Rearranged(s, ScanTo(reply, s, pivot, lo, j).buf, lo, j);
    framed
  }

  /** `ScanTo` one position further: the scan so far and the turn taken at
      `j - 1`, if any. */
  lemma {:induction false} ScanToStep(reply: (char, char) -> string, s: seq<char>, pivot: char, lo: nat, j: nat) returns (c: Scanned, t: Turn)
    requires lo < j < |s|
    ensures c == ScanTo(reply, s, pivot, lo, j - 1)
    ensures c.status == Done ==> c.i <= j - 1 < |c.buf|
    ensures c.status == Done ==> t == ScanTurn(reply, c.buf, pivot, c.i, j - 1)
    ensures c.status == Done ==> ScanTo(reply, s, pivot, lo, j) == Scanned(t.buf, t.next, c.asked + t.q, t.status)
    ensures c.status != Done ==> ScanTo(reply, s, pivot, lo, j) == c
  {
    c := ScanTo(reply, s, pivot, lo, j - 1);
    t := if c.status == Done then ScanTurn(reply, c.buf, pivot, c.i, j - 1) else Turn(c.buf, c.i, [], c.status);
  }

  lemma {:induction false} FrameNext(reply: (char, char) -> string, s: seq<char>, pivot: char, lo: nat, j: nat)
    requires j + 1 < |s| && FrameAt(reply, s, pivot, lo, j)
    ensures FrameAt(reply, s, pivot, lo, j + 1)
  {
    var c, t := ScanToStep(reply, s, pivot, lo, j + 1);
    if c.status == Done {
      TurnFrame(reply, c.buf, pivot, c.i, j);
      RearrangedTrans(s, c.buf, t.buf, lo, j + 1, lo, j, c.i, j + 1);
    } else {
      RearrangedWiden(s, c.buf, lo, j + 1, lo, j);
    }
  }

  /** The letters of `buf` in [lo, i) go before the pivot and those in [i, j) do not. */
  predicate Splits(reply: (char, char) -> string, pivot: char, buf: seq<char>, lo: nat, i: nat, j: nat) {
    var splits := lo <= i <= j <= |buf|
      && (forall k :: lo <= k < i ==> GoesLeft(reply, pivot, buf[k]))
      && (forall k :: i <= k < j ==> !GoesLeft(reply, pivot, buf[k]));
    splits
  }

  /** The scan up to `j` `Splits` its buffer at `i`, unless a read failed. */
  predicate SplitsAt(reply: (char, char) -> string, s: seq<char>, pivot: char, lo: nat, j: nat) {
    var splits := lo <= j < |s|
      && (var c := ScanTo(reply, s, pivot, lo, j); c.status == Done ==> Splits(reply, pivot, c.buf, lo, c.i, j));
    splits
  }

  /** One iteration keeps the letters in [lo, i) before the pivot and
      those in [i, j) after it, `j` included. */
  lemma {:induction false} TurnSplits(reply: (char, char) -> string, s: seq<char>, pivot: char, lo: nat, i: nat, j: nat)
    requires j < |s| && Splits(reply, pivot, s, lo, i, j)
    ensures var t := ScanTurn(reply, s, pivot, i, j);
      t.status == Done ==> Splits(reply, pivot, t.buf, lo, t.next, j + 1)
  {
    var t := ScanTurn(reply, s, pivot, i, j);
    if t.status == Done && t.next == i + 1 {
      SwapFacts(s, i, j);
    }
  }

  /** While no read fails, the letters in [lo, i) go before the pivot and
      those in [i, j) do not. */
  lemma {:induction false} ScanSplits(reply: (char, char) -> string, s: seq<char>, pivot: char, lo: nat, j: nat)
    requires lo <= j < |s|
    ensures var c := ScanTo(reply, s, pivot, lo, j);
      c.status == Done ==>
        && (forall k :: lo <= k < c.i ==> GoesLeft(reply, pivot, c.buf[k]))
        && (forall k :: c.i <= k < j ==> !GoesLeft(reply, pivot, c.buf[k]))
  {
    var k := lo;
    assert SplitsAt(reply, s, pivot, lo, lo);
    while k < j
      invariant lo <= k <= j && SplitsAt(reply, s, pivot, lo, k)
    {
      SplitsNext(reply, s, pivot, lo, k);
      k := k + 1;
    }
  }

  lemma {:induction false} SplitsNext(reply: (char, char) -> string, s: seq<char>, pivot: char, lo: nat, j: nat)
    requires j + 1 < |s| && SplitsAt(reply, s, pivot, lo, j)
    ensures SplitsAt(reply, s, pivot, lo, j + 1)
  {
    var c, t := ScanToStep(reply, s, pivot, lo, j + 1);
    if c.status == Done {
      TurnSplits(reply, c.buf, pivot, lo, c.i, j);
    }
  }

  /** The scan asks about each letter of [lo, j) other than the pivot, in
      order, while no read fails. */
  lemma {:induction false} ScanAsks(reply: (char, char) -> string, s: seq<char>, pivot: char, lo: nat, j: nat)
    requires lo <= j < |s|
    ensures var c := ScanTo(reply, s, pivot, lo, j);
      c.status == Done ==> c.asked == Queries(s, pivot, lo, j)
  {
    var k := lo;
    assert AsksAt(reply, s, pivot, lo, lo);
    while k < j
      invariant lo <= k <= j && AsksAt(reply, s, pivot, lo, k)
    {
      AsksNext(reply, s, pivot, lo, k);
      k := k + 1;
    }
  }

  /** The scan up to `j` has printed `Queries`, unless a read failed. */
  predicate AsksAt(reply: (char, char) -> string, s: seq<char>, pivot: char, lo: nat, j: nat) {
    var asks := lo <= j < |s|
      && (var c := ScanTo(reply, s, pivot, lo, j); c.status == Done ==> c.asked == Queries(s, pivot, lo, j));
    asks
  }

  lemma {:induction false} AsksNext(reply: (char, char) -> string, s: seq<char>, pivot: char, lo: nat, j: nat)
    requires j + 1 < |s| && AsksAt(reply, s, pivot, lo, j)
    ensures AsksAt(reply, s, pivot, lo, j + 1)
  {
    var c, t := ScanToStep(reply, s, pivot, lo, j + 1);
    if c.status == Done {
      ScanFrame(reply, s, pivot, lo, j);
      assert c.buf[j] == s[j];
    }
  }

  /** With a judge that always answers, no read of the scan fails. */
  lemma {:induction false} ScanAnswered(reply: (char, char) -> string, s: seq<char>, pivot: char, lo: nat, j: nat)
    requires Responsive(reply)
    requires lo <= j < |s|
    ensures ScanTo(reply, s, pivot, lo, j).status == Done
    decreases j - lo
  {
    if j > lo {
      ScanAnswered(reply, s, pivot, lo, j - 1);
      var c := ScanTo(reply, s, pivot, lo, j - 1);
      var t := ScanTurn(reply, c.buf, pivot, c.i, j - 1);
      assert reply(c.buf[j - 1], pivot) != [];
    }
  }

  /** When every letter of [lo, j) is answered '>', nothing moves. */
  lemma {:induction false} ScanNoneLeft(reply: (char, char) -> string, s: seq<char>, pivot: char, lo: nat, j: nat)
    requires lo <= j < |s|
    requires forall k :: lo <= k < j ==> s[k] != pivot && ReadTurn(reply(s[k], pivot)) == Ok('>')
    ensures var c := ScanTo(reply, s, pivot, lo, j);
      c.status == Done && c.i == lo && c.buf == s
    decreases j - lo
  {
    if j > lo {
      ScanNoneLeft(reply, s, pivot, lo, j - 1);
    }
  }

  /** `qs_partition` only moves letters inside [lo, hi]. */
  lemma {:induction false} PartitionFrame(reply: (char, char) -> string, s: seq<char>, lo: nat, hi: nat)
    requires lo <= hi < |s|
    ensures Rearranged(s, Partition(reply, s, lo, hi).out.buf, lo, hi + 1)
  {
    var c := ScanTo(reply, s, s[hi], lo, hi);
    ScanFrame(reply, s, s[hi], lo, hi);
    var P := Partition(reply, s, lo, hi);
    if c.status == Done {
      SwapRearranged(c.buf, c.i, hi);
      RearrangedTrans(s, c.buf, P.out.buf, lo, hi + 1, lo, hi, c.i, hi + 1);
    } else {
      RearrangedTrans(s, c.buf, c.buf, lo, hi + 1, lo, hi, lo, lo);
    }
  }

  /** `qs_partition` puts the pivot at `p`, the letters that go before it in
      [lo, p) and the others in (p, hi], rearranging [lo, hi] only; it asks
      once about each letter of [lo, hi) other than the pivot. */
  lemma {:induction false} PartitionSplits(reply: (char, char) -> string, s: seq<char>, lo: nat, hi: nat)
    requires lo <= hi < |s|
    ensures var P := Partition(reply, s, lo, hi);
      && Rearranged(s, P.out.buf, lo, hi + 1)
      && (P.out.status == Done ==>
            && P.out.buf[P.p] == s[hi]
            && (forall k :: lo <= k < P.p ==> GoesLeft(reply, s[hi], P.out.buf[k]))
            && (forall k :: P.p < k <= hi ==> !GoesLeft(reply, s[hi], P.out.buf[k]))
            && P.out.asked == Queries(s, s[hi], lo, hi))
      && (Responsive(reply) ==> P.out.status == Done)
  {
    var c := ScanTo(reply, s, s[hi], lo, hi);
    PartitionFrame(reply, s, lo, hi);
    ScanFrame(reply, s, s[hi], lo, hi);
    ScanSplits(reply, s, s[hi], lo, hi);
    ScanAsks(reply, s, s[hi], lo, hi);
    if Responsive(reply) {
      ScanAnswered(reply, s, s[hi], lo, hi);
    }
    if c.status == Done {
      SwapFacts(c.buf, c.i, hi);
    }
  }

  // Sorting: the letters of the range are only rearranged, whatever the
  // judge answers, and they end up in the judge's order once repaired.

  /** `QuickRange` one level down: the partition and what follows it. */
  lemma {:induction false} QuickRangeParts(reply: (char, char) -> string, s: seq<char>, lo: nat, hi: nat, repaired: bool)
    returns (P: Split)
    requires lo < hi < |s|
    ensures P == Partition(reply, s, lo, hi)
    ensures P.out.status != Done ==> QuickRange(reply, s, lo, hi, repaired) == P.out
    ensures P.out.status == Done && P.p == 0 && !repaired ==>
      QuickRange(reply, s, lo, hi, repaired) == P.out.(status := Underflow)
    ensures P.out.status == Done && (P.p != 0 || repaired) ==>
      && lo <= P.p <= hi
      && QuickRange(reply, s, lo, hi, repaired) == After(P.out.asked, Halves(reply, P.out.buf, lo, P.p, hi, repaired))
  {
    P := Partition(reply, s, lo, hi);
  }

  /** `Halves` one level down: the left half, and the right half after it. */
  lemma {:induction false} HalvesParts(reply: (char, char) -> string, s: seq<char>, lo: nat, p: nat, hi: nat, repaired: bool)
    returns (L: Outcome)
    requires lo <= p <= hi < |s| && (p == 0 ==> repaired)
    ensures L == if p == 0 then Outcome(s, [], Done) else QuickRange(reply, s, lo, p - 1, repaired)
    ensures |L.buf| == |s|
    ensures L.status != Done ==> Halves(reply, s, lo, p, hi, repaired) == L
    ensures L.status == Done ==>
      Halves(reply, s, lo, p, hi, repaired) == After(L.asked, QuickRange(reply, L.buf, p + 1, hi, repaired))
  {
    L := if p == 0 then Outcome(s, [], Done) else QuickRange(reply, s, lo, p - 1, repaired);
  }

  lemma {:induction false} QuickRangeFrame(reply: (char, char) -> string, s: seq<char>, lo: nat, hi: nat, repaired: bool)
    requires lo <= hi + 1 && hi < |s|
    ensures Rearranged(s, QuickRange(reply, s, lo, hi, repaired).buf, lo, hi + 1)
    decreases hi - lo + 1, 1
  {
    var o := QuickRange(reply, s, lo, hi, repaired);
    if lo < hi {
      var P := QuickRangeParts(reply, s, lo, hi, repaired);
      PartitionFrame(reply, s, lo, hi);
      if P.out.status == Done && (P.p != 0 || repaired) {
        HalvesFrame(reply, P.out.buf, lo, P.p, hi, repaired);
        RearrangedTrans(s, P.out.buf, o.buf, lo, hi + 1, lo, hi + 1, lo, hi + 1);
      }
    }
  }

  lemma {:induction false} HalvesFrame(reply: (char, char) -> string, s: seq<char>, lo: nat, p: nat, hi: nat, repaired: bool)
    requires lo <= p <= hi < |s| && (p == 0 ==> repaired)
    ensures Rearranged(s, Halves(reply, s, lo, p, hi, repaired).buf, lo, hi + 1)
    decreases hi - lo + 1, 0
  {
    var L := HalvesParts(reply, s, lo, p, hi, repaired);
    LeftPartFrame(reply, s, lo, p, repaired);
    if L.status == Done {
      QuickRangeFrame(reply, L.buf, p + 1, hi, repaired);
      var R := QuickRange(reply, L.buf, p + 1, hi, repaired);
      RearrangedTrans(s, L.buf, R.buf, lo, hi + 1, lo, p, p + 1, hi + 1);
    } else {
      RearrangedWiden(s, L.buf, lo, hi + 1, lo, p);
    }
  }

  /** The left half of `qs_iter`, skipped when the pivot landed at 0. */
  lemma {:induction false} LeftPartFrame(reply: (char, char) -> string, s: seq<char>, lo: nat, p: nat, repaired: bool)
    requires lo <= p < |s| && (p == 0 ==> repaired)
    ensures Rearranged(s, (if p == 0 then Outcome(s, [], Done) else QuickRange(reply, s, lo, p - 1, repaired)).buf, lo, p)
    decreases p - lo, 2
  {
    if p == 0 {
      RearrangedSelf(s, lo, p);
    } else {
      QuickRangeFrame(reply, s, lo, p - 1, repaired);
    }
  }

  /** Whatever the judge answers, `quick_sort` as written leaves a
      rearrangement of the letters it was given. */
  lemma {:induction false} QuickPermutation(reply: (char, char) -> string, s: seq<char>)
    ensures multiset(Quick(reply, s).buf) == multiset(s)
  {
    if s != [] {
      QuickRangeFrame(reply, s, 0, |s| - 1, false);
    }
  }

  /** The letters of [lo, hi] are in the order `rank`. */
  predicate SortedRange(s: seq<char>, rank: char -> int, lo: nat, hi: nat)
    requires hi < |s|
  {
    forall x, y :: lo <= x < y <= hi ==> rank(s[x]) <= rank(s[y])
  }

  /** With an honest judge, a letter goes before the pivot exactly when it is
      the pivot or ranks below it. */
  lemma {:induction false} GoesLeftHonest(reply: (char, char) -> string, rank: char -> int, pivot: char, x: char)
    requires Honest(reply, rank)
    ensures GoesLeft(reply, pivot, x) <==> x == pivot || rank(x) < rank(pivot)
  {
    assert ReadTurn(reply(x, pivot)) == Ok(if rank(x) < rank(pivot) then '<' else '>');
  }

  lemma {:induction false} QuickRangeSorts(reply: (char, char) -> string, rank: char -> int, s: seq<char>, lo: nat, hi: nat)
    requires Honest(reply, rank)
    requires lo <= hi + 1 && hi < |s|
    ensures var o := QuickRange(reply, s, lo, hi, true);
      o.status == Done && SortedRange(o.buf, rank, lo, hi)
    decreases hi - lo + 1, 2
  {
    if lo < hi {
      HonestIsResponsive(reply, rank);
      PartitionSplits(reply, s, lo, hi);
      var P := Partition(reply, s, lo, hi);
      var b := P.out.buf;
      forall k | lo <= k < P.p
        ensures rank(b[k]) <= rank(b[P.p])
      {
        GoesLeftHonest(reply, rank, s[hi], b[k]);
      }
      forall k | P.p < k <= hi
        ensures rank(b[P.p]) <= rank(b[k])
      {
        GoesLeftHonest(reply, rank, s[hi], b[k]);
      }
      HalvesSorts(reply, rank, b, lo, P.p, hi);
    }
  }

  lemma {:induction false} HalvesSorts(reply: (char, char) -> string, rank: char -> int, s: seq<char>, lo: nat, p: nat, hi: nat)
    requires Honest(reply, rank)
    requires lo <= p <= hi < |s|
    requires forall k :: lo <= k < p ==> rank(s[k]) <= rank(s[p])
    requires forall k :: p < k <= hi ==> rank(s[p]) <= rank(s[k])
    ensures var o := Halves(reply, s, lo, p, hi, true);
      o.status == Done && SortedRange(o.buf, rank, lo, hi)
    decreases hi - lo + 1, 1
  {
    LeftSorted(reply, rank, s, lo, p, hi);
    var L := if p == 0 then Outcome(s, [], Done) else QuickRange(reply, s, lo, p - 1, true);
    RightSorted(reply, rank, L.buf, lo, p, hi);
  }

  /** The first call, `qs_iter(a, lo, p - 1)`, sorts [lo, p) and keeps the
      pivot between the two parts. */
  lemma {:induction false} LeftSorted(reply: (char, char) -> string, rank: char -> int, s: seq<char>, lo: nat, p: nat, hi: nat)
    requires Honest(reply, rank)
    requires lo <= p <= hi < |s|
    requires forall k :: lo <= k < p ==> rank(s[k]) <= rank(s[p])
    requires forall k :: p < k <= hi ==> rank(s[p]) <= rank(s[k])
    ensures var L := if p == 0 then Outcome(s, [], Done) else QuickRange(reply, s, lo, p - 1, true);
      && L.status == Done
      && (forall x, y :: lo <= x < y < p ==> rank(L.buf[x]) <= rank(L.buf[y]))
      && (forall k :: lo <= k < p ==> rank(L.buf[k]) <= rank(L.buf[p]))
      && (forall k :: p < k <= hi ==> rank(L.buf[p]) <= rank(L.buf[k]))
    decreases hi - lo + 1, 0
  {
    if p != 0 {
      QuickRangeSorts(reply, rank, s, lo, p - 1);
      LeftHalf(reply, rank, s, lo, p, hi);
    }
  }

  /** The second call, `qs_iter(a, p + 1, hi)`, sorts (p, hi], which then
      follows the pivot and the sorted [lo, p). */
  lemma {:induction false} RightSorted(reply: (char, char) -> string, rank: char -> int, s: seq<char>, lo: nat, p: nat, hi: nat)
    requires Honest(reply, rank)
    requires lo <= p <= hi < |s|
    requires forall x, y :: lo <= x < y < p ==> rank(s[x]) <= rank(s[y])
    requires forall k :: lo <= k < p ==> rank(s[k]) <= rank(s[p])
    requires forall k :: p < k <= hi ==> rank(s[p]) <= rank(s[k])
    ensures var R := QuickRange(reply, s, p + 1, hi, true);
      R.status == Done && SortedRange(R.buf, rank, lo, hi)
    decreases hi - lo + 1, 0
  {
    var R := QuickRange(reply, s, p + 1, hi, true);
    QuickRangeSorts(reply, rank, s, p + 1, hi);
    RightHalf(reply, rank, s, lo, p, hi);
    KeptBefore(s, R.buf, rank, lo, p);
    JoinSorted(R.buf, rank, lo, p, hi);
  }

  /** Letters left in place keep their order and their place below the pivot. */
  lemma {:induction false} KeptBefore(s: seq<char>, b: seq<char>, rank: char -> int, lo: nat, p: nat)
    requires p < |s| && p < |b| && forall k :: lo <= k <= p ==> b[k] == s[k]
    requires forall x, y :: lo <= x < y < p ==> rank(s[x]) <= rank(s[y])
    requires forall k :: lo <= k < p ==> rank(s[k]) <= rank(s[p])
    ensures forall x, y :: lo <= x < y < p ==> rank(b[x]) <= rank(b[y])
    ensures forall k :: lo <= k < p ==> rank(b[k]) <= rank(b[p])
  {
  }

  /** Sorting [lo, p - 1] keeps its letters at or below the pivot at `p`, and
      leaves the pivot and the letters after it where they are. */
  lemma {:induction false} LeftHalf(reply: (char, char) -> string, rank: char -> int, s: seq<char>, lo: nat, p: nat, hi: nat)
    requires lo <= p <= hi < |s| && 0 < p
    requires forall k :: lo <= k < p ==> rank(s[k]) <= rank(s[p])
    requires forall k :: p < k <= hi ==> rank(s[p]) <= rank(s[k])
    ensures var L := QuickRange(reply, s, lo, p - 1, true);
      && L.buf[p] == s[p]
      && (forall k :: lo <= k < p ==> rank(L.buf[k]) <= rank(L.buf[p]))
      && (forall k :: p < k <= hi ==> rank(L.buf[p]) <= rank(L.buf[k]))
  {
    var L := QuickRange(reply, s, lo, p - 1, true);
    var pivot := s[p];
    QuickRangeFrame(reply, s, lo, p - 1, true);
    RearrangedMiddle(s, L.buf, lo, p);
    RanksAtMost(s, L.buf, lo, p, rank, rank(pivot));
  }

  /** Sorting [p + 1, hi] keeps its letters at or above the pivot at `p`, and
      leaves the pivot and the letters before it where they are. */
  lemma {:induction false} RightHalf(reply: (char, char) -> string, rank: char -> int, s: seq<char>, lo: nat, p: nat, hi: nat)
    requires lo <= p <= hi < |s|
    requires forall k :: lo <= k < p ==> rank(s[k]) <= rank(s[p])
    requires forall k :: p < k <= hi ==> rank(s[p]) <= rank(s[k])
    ensures var R := QuickRange(reply, s, p + 1, hi, true);
      && (forall k :: lo <= k <= p ==> R.buf[k] == s[k])
      && (forall k :: p < k <= hi ==> rank(R.buf[p]) <= rank(R.buf[k]))
  {
    var R := QuickRange(reply, s, p + 1, hi, true);
    var pivot := s[p];
    QuickRangeFrame(reply, s, p + 1, hi, true);
    RearrangedMiddle(s, R.buf, p + 1, hi + 1);
    RanksAtLeast(s, R.buf, p + 1, hi + 1, rank, rank(pivot));
  }

  /** Two sorted runs on either side of a letter no smaller than the first
      and no larger than the second make one sorted run. */
  lemma {:induction false} JoinSorted(b: seq<char>, rank: char -> int, lo: nat, p: nat, hi: nat)
    requires lo <= p <= hi < |b|
    requires forall x, y :: lo <= x < y < p ==> rank(b[x]) <= rank(b[y])
    requires SortedRange(b, rank, p + 1, hi)
    requires forall k :: lo <= k < p ==> rank(b[k]) <= rank(b[p])
    requires forall k :: p < k <= hi ==> rank(b[p]) <= rank(b[k])
    ensures SortedRange(b, rank, lo, hi)
  {
  }

  /** The repaired `quick_sort` puts the letters in the judge's order, with
      every read answered. */
  lemma {:induction false} QuickFixedSorts(reply: (char, char) -> string, rank: char -> int, s: seq<char>)
    requires Honest(reply, rank)
    ensures var o := QuickFixed(reply, s);
      o.status == Done && SortedBy(o.buf, rank) && multiset(o.buf) == multiset(s)
  {
    if s != [] {
      var o := QuickRange(reply, s, 0, |s| - 1, true);
      assert QuickFixed(reply, s) == o;
      QuickRangeSorts(reply, rank, s, 0, |s| - 1);
      QuickRangeFrame(reply, s, 0, |s| - 1, true);
      forall i, k | 0 <= i < k < |o.buf|
        ensures rank(o.buf[i]) <= rank(o.buf[k])
      {
      }
    }
  }

  // The bug: `p - 1` below zero.

  /** With an honest judge, `quick_sort` as written panics whenever the last
      letter ranks strictly below all the others: the partition returns 0 and
      `qs_iter(a, 0, p - 1)` subtracts 1 from 0. An empty buffer panics at
      `a.len() - 1`. */
  lemma {:induction false} QuickUnderflow(reply: (char, char) -> string, rank: char -> int, s: seq<char>)
    requires Honest(reply, rank)
    requires 2 <= |s|
    requires forall k :: 0 <= k < |s| - 1 ==> rank(s[|s| - 1]) < rank(s[k])
    ensures Quick(reply, s).status == Underflow
    ensures Quick(reply, []).status == Underflow
  {
    var hi := |s| - 1;
    forall k | 0 <= k < hi
      ensures s[k] != s[hi] && ReadTurn(reply(s[k], s[hi])) == Ok('>')
    {
      assert ReadTurn(reply(s[k], s[hi])) == Ok(if rank(s[k]) < rank(s[hi]) then '<' else '>');
    }
    ScanNoneLeft(reply, s, s[hi], 0, hi);
  }

  /** Two letters "AB" and a judge whose hidden order is "BA": the program's
      own starting buffer for n = 2 makes `quick_sort` panic. */
  lemma {:induction false} QuickUnderflowOnAB()
    ensures Quick((x: char, y: char) => if x > y then "<\n" else ">\n", "AB").status == Underflow
  {
    var reply := (x: char, y: char) => if x > y then "<\n" else ">\n";
    var rank := (c: char) => -(c as int);
    assert Honest(reply, rank) by {
      forall x: char, y: char
        ensures ReadTurn(reply(x, y)) == Ok(if rank(x) < rank(y) then '<' else '>')
      {
      }
    }
    QuickUnderflow(reply, rank, "AB");
  }
}
