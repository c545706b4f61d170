/** practice_b's `main` and `read_init_input`: read "N Q", take the first N
    capital letters, sort them with the algorithm `SORT_ALGO` names by asking
    the judge, and print "! " followed by the letters. */
module PracticeBMain {
  import opened Text
  import opened PracticeBJudge
  import Bubble = PracticeBBubble
  import Quick = PracticeBQuick
  import Merge = PracticeBMerge

  /** The `SortAlgorithms` enum; `SORT_ALGO` picks bubble sort. */
  datatype SortAlgorithm = BubbleSort | QuickSort | MergeSort

  const SortAlgo: SortAlgorithm := BubbleSort

  /** The first line of the input: the number of letters and the query budget. */
  datatype Init = Init(n: nat, q: int)

  /** How `main` ends: the answer line printed, an error returned, or a panic
      (the subtraction that underflows in `quick_sort`). */
  datatype Ending = Printed(line: string) | Returned(msg: string) | Panicked

  /** What `main` does: how it ends and the queries it prints first. */
  datatype Session = Session(ending: Ending, asked: seq<Query>)

  /** `read_init_input` on the line read: `n` as a usize, then `q` as an i32,
      each reported missing or malformed in that order; later words are ignored. */
  function ReadInit(line: string): (r: Result<Init>)
    ensures r.Ok? ==> r.value.n <= UsizeMax && I32Min <= r.value.q <= I32Max
    ensures r.Err? ==> r.msg in {"missing `n`", "`n` must be integer", "missing `q`", "`q` must be integer"}
  {
    var words := Tokens(line);
    if |words| < 1 then Err("missing `n`")
    else match ParseInt(words[0], 0, UsizeMax)
      case None => Err("`n` must be integer")
      case Some(n) =>
        if |words| < 2 then Err("missing `q`")
        else match ParseInt(words[1], I32Min, I32Max)
          case None => Err("`q` must be integer")
          case Some(q) => Ok(Init(n, q))
  }

  /** `('A'..='Z').take(n)`: the first `n` capital letters, all 26 when `n` is larger. */
  function Letters(n: nat): (s: seq<char>)
    ensures |s| == if n < 26 then n else 26
    ensures forall i :: 0 <= i < |s| ==> s[i] == ('A' as int + i) as char
    ensures forall i, j :: 0 <= i < j < |s| ==> s[i] < s[j]
  {
    seq(if n < 26 then n else 26, i requires 0 <= i < 26 => ('A' as int + i) as char)
  }

  /** The sort `algo` names, run on the letters. */
  function SortWith(algo: SortAlgorithm, reply: (char, char) -> string, s: seq<char>): (o: Outcome)
    ensures |o.buf| == |s|
  {
    match algo
    case BubbleSort => Bubble.Bubble(reply, s)
    case QuickSort => Quick.Quick(reply, s)
    case MergeSort => Merge.Mergesort(reply, s)
  }

  /** The answer line `println!("! {}", result)` when the sort succeeded. */
  function Finish(status: Status, buf: seq<char>): Ending {
    match status
    case Done => Printed("! " + buf)
    case Failed(msg) => Returned(msg)
    case Underflow => Panicked
  }

  /** `main` with the first line `line`, sorting with `algo`. */
  function Main(algo: SortAlgorithm, reply: (char, char) -> string, line: string): (m: Session)
    ensures ReadInit(line).Err? ==> m == Session(Returned(ReadInit(line).msg), [])
    ensures m.ending.Printed? ==> ReadInit(line).Ok?
    ensures m.ending.Printed? ==> |m.ending.line| == 2 + |Letters(ReadInit(line).value.n)|
    ensures m.ending.Printed? ==> m.ending.line[..2] == "! "
    ensures m.ending == Panicked ==> algo == QuickSort
  {
    match ReadInit(line)
    case Err(msg) => Session(Returned(msg), [])
    case Ok(init) =>
      var o := SortWith(algo, reply, Letters(init.n));
      Session(Finish(o.status, o.buf), o.asked)
  }

  /** `main`: the letters go into a buffer that the chosen sort rearranges in place. */
  method Run(line: string, algo: SortAlgorithm, judge: Judge) returns (e: Ending)
    modifies judge
    ensures var m := Main(algo, judge.reply, line);
      e == m.ending && judge.log == old(judge.log) + m.asked
  {
    var init := ReadInit(line);
    if init.Err? {
      AppendNothing(old(judge.log));
      return Returned(init.msg);
    }
    var len := if init.value.n < 26 then init.value.n else 26;
    var a := new char[len](i requires 0 <= i < 26 => ('A' as int + i) as char);
    assert a[..] == Letters(init.value.n);
    var r: Status;
    match algo {
      case BubbleSort => r := Bubble.BubbleSort(a, judge);
      case QuickSort => r := Quick.QuickSort(a, judge);
      case MergeSort => r := Merge.MergeSort(a, judge);
    }
    e := Finish(r, a[..]);
  }

  // Properties of `main` as it is configured, with bubble sort.

  /** Against a judge answering from a hidden order, `main` prints "! " and the
      first N letters (all 26 when N is larger) in that order. */
  lemma {:induction false} MainSorts(reply: (char, char) -> string, rank: char -> int, line: string, init: Init)
    requires Honest(reply, rank) && ReadInit(line) == Ok(init)
    ensures var e := Main(SortAlgo, reply, line).ending;
      && e.Printed? && |e.line| >= 2 && e.line[..2] == "! "
      && SortedBy(e.line[2..], rank)
      && multiset(e.line[2..]) == multiset(Letters(init.n))
  {
    var s := Letters(init.n);
    Bubble.BubbleSorts(reply, rank, s);
    Bubble.BubblePermutation(reply, s);
    var buf := Bubble.Bubble(reply, s).buf;
    assert ("! " + buf)[..2] == "! " && ("! " + buf)[2..] == buf;
  }

  /** With every answer line present, `main` asks about every adjacent pair in
      every round: n'(n' - 1) queries for n' letters, which is within the budget
      `q` exactly when n'(n' - 1) <= q. */
  lemma {:induction false} MainQueryCount(reply: (char, char) -> string, line: string, init: Init)
    requires Responsive(reply) && ReadInit(line) == Ok(init)
    ensures var n := |Letters(init.n)|;
      Main(SortAlgo, reply, line).ending.Printed? && |Main(SortAlgo, reply, line).asked| == n * (n - 1)
  {
    Bubble.BubbleQueryCount(reply, Letters(init.n));
  }

  /** A missing answer line ends `main` with "missing `ans`", and only bubble
      sort's own answers are read: `main` never panics with bubble sort. */
  lemma {:induction false} MainNeverPanics(reply: (char, char) -> string, line: string)
    ensures Main(SortAlgo, reply, line).ending != Panicked
    ensures Main(SortAlgo, reply, line).ending.Returned? ==>
      Main(SortAlgo, reply, line).ending.msg in
        {"missing `n`", "`n` must be integer", "missing `q`", "`q` must be integer", "missing `ans`"}
  {
    match ReadInit(line) {
      case Err(_) =>
      case Ok(init) =>
        Bubble.BubbleFailure(reply, Letters(init.n));
    }
  }

  // The two algorithms marked "not working", run by `main`.

  /** With quick sort, `main` panics on an empty buffer, and on two or more
      letters when the judge ranks the letters in reverse alphabetical order. */
  lemma {:induction false} MainQuickPanics(reply: (char, char) -> string, rank: char -> int, line: string, init: Init)
    requires Honest(reply, rank) && ReadInit(line) == Ok(init)
    requires forall c: char, d: char :: c < d ==> rank(d) < rank(c)
    requires init.n != 1
    ensures Main(QuickSort, reply, line).ending == Panicked
  {
    var s := Letters(init.n);
    if init.n == 0 {
      assert s == [];
      Quick.QuickUnderflow(reply, rank, "AB");
    } else {
      forall k | 0 <= k < |s| - 1
        ensures rank(s[|s| - 1]) < rank(s[k])
      {
        assert s[k] < s[|s| - 1];
      }
      Quick.QuickUnderflow(reply, rank, s);
    }
  }

  /** With merge sort and three letters ranked C before B before A, `main`
      prints "! BCA": not the order the judge gave. */
  lemma {:induction false} MainMergeUnsorted(reply: (char, char) -> string, rank: char -> int, line: string, init: Init)
    requires Honest(reply, rank) && ReadInit(line) == Ok(init) && init.n == 3
    requires rank('C') < rank('B') < rank('A')
    ensures Main(MergeSort, reply, line).ending == Printed("! BCA")
    ensures !SortedBy("BCA", rank)
  {
    var s := Letters(init.n);
    ThreeLetters(init.n);
    Merge.MergesortUnsorted(reply, rank, s);
  }

  lemma {:induction false} ThreeLetters(n: nat)
    requires n == 3
    ensures var s := Letters(n);
      && |s| == 3 && s[0] == 'A' && s[1] == 'B' && s[2] == 'C'
      && [s[1], s[2], s[0]] == "BCA" && "! " + [s[1], s[2], s[0]] == "! BCA"
  {
    assert "! " + "BCA" == "! BCA";
  }

  // Reading the first line.

  /** The canonical first line of any usize N and i32 Q reads back as (N, Q),
      whatever words follow. */
  lemma {:induction false} ReadInitRender(init: Init, extra: seq<string>)
    requires init.n <= UsizeMax && I32Min <= init.q <= I32Max
    requires forall i :: 0 <= i < |extra| ==> IsWord(extra[i])
    ensures ReadInit(Unwords([IntToString(init.n), IntToString(init.q)] + extra)) == Ok(init)
  {
    var ws := [IntToString(init.n), IntToString(init.q)] + extra;
    IntToStringIsWord(init.n);
    IntToStringIsWord(init.q);
    TokensOfUnwords(ws);
    ParseIntToString(init.n, 0, UsizeMax);
    ParseIntToString(init.q, I32Min, I32Max);
  }

  /** The sample's first line "5 7". */
  lemma ReadInitExample()
    ensures ReadInit("5 7") == Ok(Init(5, 7))
  {
    assert IntToString(5) == "5" && IntToString(7) == "7";
    assert Unwords(["5", "7"]) == "5 7";
    assert [IntToString(5), IntToString(7)] + [] == ["5", "7"];
    ReadInitRender(Init(5, 7), []);
  }

  lemma ReadInitMissing()
    ensures ReadInit("") == Err("missing `n`")
    ensures ReadInit("5") == Err("missing `q`")
  {
    assert IntToString(5) == "5";
    ParseIntToString(5, 0, UsizeMax);
    assert Unwords(["5"]) == "5";
    TokensOfUnwords(["5"]);
  }

  /** A negative N is not a usize. */
  lemma ReadInitNegative()
    ensures ReadInit("-5 7") == Err("`n` must be integer")
  {
    assert Unwords(["-5", "7"]) == "-5 7";
    TokensOfUnwords(["-5", "7"]);
    assert !IsDigit('-');
  }

  lemma ReadInitMalformedQ()
    ensures ReadInit("5 x") == Err("`q` must be integer")
  {
    assert IntToString(5) == "5";
    ParseIntToString(5, 0, UsizeMax);
    assert Unwords(["5", "x"]) == "5 x";
    TokensOfUnwords(["5", "x"]);
    assert !IsDigit('x');
  }
}
