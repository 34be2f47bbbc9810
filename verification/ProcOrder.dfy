/**
 The order of the process table (djeti/sys_proc_pool.c:259-303): the sort value of
 a column, the comparator with its tie-break on the pid, and what the sorted
 frame depends on.
 */
module ProcOrder {
  import opened ProcessFields
  import opened MergeSort
  import opened CIntegers

  /** The values of a record that the table is sorted by. */
  datatype Values = Values(
    pid: int, ppid: int, priority: int, nice: int, threads: int, vsize: nat, rss: nat, shr: nat,
    utime: nat, stime: nat, cutime: nat, cstime: nat, cpuPct: real, memPct: real, command: string)

  /** Records of processes: pid_t is a 32-bit signed integer, and pids are positive. */
  type Row = v: Values | 0 < v.pid < 0x8000_0000
    witness Values(1, 0, 0, 0, 0, 0, 0, 0, 0, 0, 0, 0, 0.0, 0.0, "")

  function SortValue(r: Values, key: Field): int {
    match key
    case Pid => U32(r.pid)
    case Ppid => U32(r.ppid)
    case Priority => U64(r.priority)
    case Nice => U64(r.nice)
    case Threads => U64(r.threads)
    case Virt => r.vsize
    case Res => r.rss
    case Shr => r.shr
    case CpuPct => (r.cpuPct * 100.0).Floor
    case Memory => (r.memPct * 100.0).Floor
    case Time => U64(r.utime + r.stime + r.cutime + r.cstime)
    case _ => U32(r.pid)
  }

  /** strcmp, as -1, 0 or 1. */
  function StrCmp(a: string, b: string): int {
    if a == [] then (if b == [] then 0 else -1)
    else if b == [] then 1
    else if a[0] < b[0] then -1
    else if a[0] > b[0] then 1
    else StrCmp(a[1..], b[1..])
  }

  function CompareKeys(key: Field, a: Values, b: Values): int {
    if key == Command then StrCmp(a.command, b.command)
    else
      var va, vb := SortValue(a, key), SortValue(b, key);
      if va < vb then -1 else if va > vb then 1 else 0
  }

  /** sorted_compare. */
  function Compare(key: Field, desc: bool, a: Row, b: Row): int {
    var c := CompareKeys(key, a, b);
    var d := if c == 0 then Int32(U32(a.pid) - U32(b.pid)) else c;
    if desc then -d else d
  }

  function Comparator(key: Field, desc: bool): (Row, Row) -> int {
    (a: Row, b: Row) => Compare(key, desc, a, b)
  }

  // --------------------------------------------------------- total order ----

  ghost function AllRows(): iset<Row> {
    iset r: Row | r.pid > 0
  }

  lemma {:induction false} StrCmpIsAntisymmetric(a: string, b: string)
    ensures StrCmp(a, b) == -StrCmp(b, a)
    ensures StrCmp(a, b) == 0 <==> a == b
  {
    if a != [] && b != [] && a[0] == b[0] {
      StrCmpIsAntisymmetric(a[1..], b[1..]);
      assert a == [a[0]] + a[1..] && b == [b[0]] + b[1..];
    }
  }

  lemma {:induction false} StrCmpIsTransitive(a: string, b: string, c: string)
    requires StrCmp(a, b) <= 0 && StrCmp(b, c) <= 0
    ensures StrCmp(a, c) <= 0
    ensures StrCmp(a, b) < 0 || StrCmp(b, c) < 0 ==> StrCmp(a, c) < 0
  {
    if a != [] && b != [] && c != [] && a[0] == b[0] == c[0] {
      StrCmpIsTransitive(a[1..], b[1..], c[1..]);
    }
  }

  /** The tie-break is the difference of the pids: it does not wrap around for positive pids. */
  lemma PidDifference(a: Row, b: Row)
    ensures Int32(U32(a.pid) - U32(b.pid)) == a.pid - b.pid
  {
  }

  lemma KeysAntisymmetric(key: Field, a: Values, b: Values)
    ensures CompareKeys(key, a, b) == -CompareKeys(key, b, a)
  {
    StrCmpIsAntisymmetric(a.command, b.command);
  }

  lemma KeysTransitive(key: Field, a: Values, b: Values, c: Values)
    requires CompareKeys(key, a, b) <= 0 && CompareKeys(key, b, c) <= 0
    ensures CompareKeys(key, a, c) <= 0
    ensures CompareKeys(key, a, b) < 0 || CompareKeys(key, b, c) < 0 ==> CompareKeys(key, a, c) < 0
  {
    if key == Command {
      StrCmpIsTransitive(a.command, b.command, c.command);
    }
  }

  /** Descending order compares the other way round, tie-break included. */
  lemma DescendingIsReverse(key: Field, desc: bool, a: Row, b: Row)
    ensures Compare(key, desc, a, b) == -Compare(key, desc, b, a) == Compare(key, !desc, b, a)
    ensures Compare(key, desc, a, b) == 0 <==> a.pid == b.pid && CompareKeys(key, a, b) == 0
  {
    KeysAntisymmetric(key, a, b);
    PidDifference(a, b);
    PidDifference(b, a);
  }

  lemma AscendingTransitive(key: Field, a: Row, b: Row, c: Row)
    requires Compare(key, false, a, b) <= 0 && Compare(key, false, b, c) <= 0
    ensures Compare(key, false, a, c) <= 0
  {
    KeysAntisymmetric(key, a, b);
    KeysTransitive(key, a, b, c);
    PidDifference(a, b);
    PidDifference(b, c);
    PidDifference(a, c);
  }

  /** For every column and direction the comparator is a total preorder, strict between different pids. */
  lemma ComparatorIsOrder(key: Field, desc: bool)
    ensures Compares(Comparator(key, desc), AllRows())
    ensures forall a: Row, b: Row :: a.pid != b.pid ==> Comparator(key, desc)(a, b) != 0
  {
    var cmp := Comparator(key, desc);
    forall a: Row, b: Row ensures (cmp(a, b) < 0 <==> cmp(b, a) > 0) && (a.pid != b.pid ==> cmp(a, b) != 0) {
      DescendingIsReverse(key, desc, a, b);
    }
    forall a: Row, b: Row, c: Row | cmp(a, b) <= 0 && cmp(b, c) <= 0 ensures cmp(a, c) <= 0 {
      if desc {
        DescendingIsReverse(key, false, a, b);
        DescendingIsReverse(key, false, b, c);
        DescendingIsReverse(key, false, a, c);
        AscendingTransitive(key, c, b, a);
      } else {
        AscendingTransitive(key, a, b, c);
      }
    }
  }

  // ----------------------------------------------------- the sorted frame ----

  ghost predicate DistinctPids<T>(row: T -> Row, s: seq<T>) {
    forall i, j :: 0 <= i < j < |s| ==> row(s[i]).pid != row(s[j]).pid
  }

  /** Every element compares less than all that follow. */
  ghost predicate Ascends<T>(cmp: (Row, Row) -> int, row: T -> Row, s: seq<T>) {
    forall i, j :: 0 <= i < j < |s| ==> cmp(row(s[i]), row(s[j])) < 0
  }

  /** qsort_r of the frame. */
  function SortFrame<T>(key: Field, desc: bool, row: T -> Row, s: seq<T>): seq<T> {
    Passes(Comparator(key, desc), row, s, 1)
  }

  lemma {:induction false} SameElements<T>(s: seq<T>, t: seq<T>, x: T)
    requires multiset(s) == multiset(t)
    ensures x in s <==> x in t
  {
    assert x in s <==> x in multiset(s);
    assert x in t <==> x in multiset(t);
  }

  lemma HeadIsLeast<T>(cmp: (Row, Row) -> int, row: T -> Row, s: seq<T>, x: T)
    requires Ascends(cmp, row, s) && x in s
    ensures s[0] == x || cmp(row(s[0]), row(x)) < 0
  {
    var i :| 0 <= i < |s| && s[i] == x;
  }

  lemma SameHead<T>(cmp: (Row, Row) -> int, row: T -> Row, s: seq<T>, t: seq<T>)
    requires Compares(cmp, AllRows()) && Ascends(cmp, row, s) && Ascends(cmp, row, t) && multiset(s) == multiset(t)
    requires s != [] && t != []
    ensures s[0] == t[0]
  {
    SameElements(s, t, s[0]);
    SameElements(s, t, t[0]);
    HeadIsLeast(cmp, row, s, t[0]);
    HeadIsLeast(cmp, row, t, s[0]);
  }

  lemma Tails<T>(cmp: (Row, Row) -> int, row: T -> Row, s: seq<T>, t: seq<T>)
    requires Ascends(cmp, row, s) && Ascends(cmp, row, t) && multiset(s) == multiset(t)
    requires s != [] && t != [] && s[0] == t[0]
    ensures Ascends(cmp, row, s[1..]) && Ascends(cmp, row, t[1..]) && multiset(s[1..]) == multiset(t[1..])
  {
    FirstAndRest(s);
    FirstAndRest(t);
    assert multiset(s[1..]) == multiset(s) - multiset{s[0]};
    assert multiset(t[1..]) == multiset(t) - multiset{t[0]};
  }

  /** There is one way to put elements in strict order. */
  lemma {:induction false} OneOrder<T>(cmp: (Row, Row) -> int, row: T -> Row, s: seq<T>, t: seq<T>)
    requires Compares(cmp, AllRows()) && Ascends(cmp, row, s) && Ascends(cmp, row, t) && multiset(s) == multiset(t)
    ensures s == t
  {
    SameLength(s, t);
    if s != [] {
      SameHead(cmp, row, s, t);
      Tails(cmp, row, s, t);
      OneOrder(cmp, row, s[1..], t[1..]);
      SamePieces(s, t);
    }
  }

  lemma SamePieces<T>(s: seq<T>, t: seq<T>)
    requires s != [] && t != [] && s[0] == t[0] && s[1..] == t[1..]
    ensures s == t
  {
    assert s == [s[0]] + s[1..] && t == [t[0]] + t[1..];
  }

  lemma SameLength<T>(s: seq<T>, t: seq<T>)
    requires multiset(s) == multiset(t)
    ensures |s| == |t|
  {
    assert |multiset(s)| == |s| && |multiset(t)| == |t|;
  }

  ghost function Position<T>(row: T -> Row, s: seq<T>, x: T): int {
    if s == [] then 0 else if row(s[0]).pid == row(x).pid then 0 else 1 + Position(row, s[1..], x)
  }

  lemma {:induction false} PositionAt<T>(row: T -> Row, s: seq<T>, i: nat)
    requires DistinctPids(row, s) && i < |s|
    ensures Position(row, s, s[i]) == i
  {
    if i > 0 {
      PositionAt(row, s[1..], i - 1);
    }
  }

  /** The frame holds the same records, in strictly ascending order of the comparator. */
  lemma FrameIsSorted<T>(key: Field, desc: bool, row: T -> Row, s: seq<T>)
    requires DistinctPids(row, s)
    ensures multiset(SortFrame(key, desc, row, s)) == multiset(s)
    ensures Ascends(Comparator(key, desc), row, SortFrame(key, desc, row, s))
  {
    var cmp, rank := Comparator(key, desc), (x: T) => Position(row, s, x);
    ComparatorIsOrder(key, desc);
    forall i, j | 0 <= i < j < |s| ensures rank(s[i]) < rank(s[j]) {
      PositionAt(row, s, i);
      PositionAt(row, s, j);
    }
    StableSort(cmp, AllRows(), row, rank, s);
    StrictlySorted(key, desc, row, rank, s, Passes(cmp, row, s, 1));
  }

  lemma StrictlySorted<T>(key: Field, desc: bool, row: T -> Row, rank: T -> int, s: seq<T>, t: seq<T>)
    requires DistinctPids(row, s) && multiset(t) == multiset(s) && Sorted(Comparator(key, desc), row, rank, t)
    requires forall i, j :: 0 <= i < j < |s| ==> rank(s[i]) < rank(s[j])
    ensures Ascends(Comparator(key, desc), row, t)
  {
    var cmp := Comparator(key, desc);
    ComparatorIsOrder(key, desc);
    forall i, j | 0 <= i < j < |t| ensures cmp(row(t[i]), row(t[j])) < 0 {
      assert Before(cmp, row, rank, t[i], t[j]);
      SameElements(s, t, t[i]);
      SameElements(s, t, t[j]);
      var k :| 0 <= k < |s| && s[k] == t[i];
      var l :| 0 <= l < |s| && s[l] == t[j];
      assert k != l;
      assert row(s[k]).pid != row(s[l]).pid;
    }
  }

  lemma PermutedPids<T>(row: T -> Row, s: seq<T>, t: seq<T>)
    requires DistinctPids(row, s) && multiset(s) == multiset(t)
    ensures DistinctPids(row, t)
  {
    forall i, j | 0 <= i < j < |t| ensures row(t[i]).pid != row(t[j]).pid {
      if row(t[i]).pid == row(t[j]).pid {
        SameElements(s, t, t[i]);
        SameElements(s, t, t[j]);
        var k :| 0 <= k < |s| && s[k] == t[i];
        var l :| 0 <= l < |s| && s[l] == t[j];
        assert k == l;
        TwiceInside(t, i, j);
        OnceInside(row, s, k);
      }
    }
  }

  lemma TwiceInside<T>(t: seq<T>, i: nat, j: nat)
    requires i < j < |t| && t[i] == t[j]
    ensures multiset(t)[t[i]] >= 2
  {
    assert t == t[..i] + [t[i]] + t[i + 1..j] + [t[j]] + t[j + 1..];
  }

  lemma OnceInside<T>(row: T -> Row, s: seq<T>, k: nat)
    requires DistinctPids(row, s) && k < |s|
    ensures multiset(s)[s[k]] == 1
  {
    assert s == s[..k] + [s[k]] + s[k + 1..];
    assert s[k] !in s[..k] && s[k] !in s[k + 1..];
  }

  /** The frame does not depend on the order in which the directory lists the processes. */
  lemma FrameIgnoresScanOrder<T>(key: Field, desc: bool, row: T -> Row, s: seq<T>, t: seq<T>)
    requires DistinctPids(row, s) && multiset(s) == multiset(t)
    ensures SortFrame(key, desc, row, s) == SortFrame(key, desc, row, t)
  {
    PermutedPids(row, s, t);
    FrameIsSorted(key, desc, row, s);
    FrameIsSorted(key, desc, row, t);
    ComparatorIsOrder(key, desc);
    OneOrder(Comparator(key, desc), row, SortFrame(key, desc, row, s), SortFrame(key, desc, row, t));
  }

  function Reverse<T>(s: seq<T>): (r: seq<T>)
    ensures |r| == |s| && forall i :: 0 <= i < |s| ==> r[i] == s[|s| - 1 - i]
  {
    if s == [] then [] else Reverse(s[1..]) + [s[0]]
  }

  lemma {:induction false} ReverseKeeps<T>(s: seq<T>)
    ensures multiset(Reverse(s)) == multiset(s)
  {
    if s != [] {
      ReverseKeeps(s[1..]);
      FirstAndRest(s);
    }
  }

  lemma ReverseAscends<T>(key: Field, desc: bool, row: T -> Row, u: seq<T>)
    requires Ascends(Comparator(key, desc), row, u)
    ensures Ascends(Comparator(key, !desc), row, Reverse(u))
  {
    var r := Reverse(u);
    forall i, j | 0 <= i < j < |r| ensures Compare(key, !desc, row(r[i]), row(r[j])) < 0 {
      var x, y := u[|u| - 1 - j], u[|u| - 1 - i];
      assert Comparator(key, desc)(row(x), row(y)) < 0;
      DescendingIsReverse(key, desc, row(x), row(y));
    }
  }

  /** The other direction shows exactly the reverse of the frame. */
  lemma TogglingReverses<T>(key: Field, desc: bool, row: T -> Row, s: seq<T>)
    requires DistinctPids(row, s)
    ensures SortFrame(key, !desc, row, s) == Reverse(SortFrame(key, desc, row, s))
  {
    var u, d := SortFrame(key, desc, row, s), SortFrame(key, !desc, row, s);
    FrameIsSorted(key, desc, row, s);
    FrameIsSorted(key, !desc, row, s);
    ComparatorIsOrder(key, !desc);
    ReverseAscends(key, desc, row, u);
    ReverseKeeps(u);
    OneOrder(Comparator(key, !desc), row, d, Reverse(u));
  }

  // -------------------------------------------- what the columns sort by ----

  /** Columns of numbers. */
  lemma NumberColumns(a: Values, b: Values)
    ensures CompareKeys(Virt, a, b) < 0 <==> a.vsize < b.vsize
    ensures CompareKeys(Res, a, b) < 0 <==> a.rss < b.rss
    ensures CompareKeys(Shr, a, b) < 0 <==> a.shr < b.shr
    ensures 0 <= a.threads < TWO_63 && 0 <= b.threads < TWO_63 ==>
              (CompareKeys(Threads, a, b) < 0 <==> a.threads < b.threads)
    ensures a.utime + a.stime + a.cutime + a.cstime < TWO_64 && b.utime + b.stime + b.cutime + b.cstime < TWO_64 ==>
              (CompareKeys(Time, a, b) < 0 <==>
               a.utime + a.stime + a.cutime + a.cstime < b.utime + b.stime + b.cutime + b.cstime)
  {
  }

  /** Columns of process numbers; columns without a value of their own sort by pid. */
  lemma PidColumns(a: Values, b: Values, key: Field)
    requires 0 <= a.pid < 0x8000_0000 && 0 <= b.pid < 0x8000_0000
    ensures key in {Pid, User, State, GpuId, Type, GpuRate, EncRate, DecRate, CpuUsage, CpuMemUsage} ==>
              (CompareKeys(key, a, b) < 0 <==> a.pid < b.pid)
    ensures 0 <= a.ppid < 0x8000_0000 && 0 <= b.ppid < 0x8000_0000 ==>
              (CompareKeys(Ppid, a, b) < 0 <==> a.ppid < b.ppid)
  {
  }

  /** The shares are compared by hundredths of a percent: a hundredth decides, and no order is inverted. */
  lemma ShareColumns(a: Values, b: Values)
    ensures a.cpuPct + 0.01 <= b.cpuPct ==> CompareKeys(CpuPct, a, b) < 0
    ensures a.cpuPct <= b.cpuPct ==> CompareKeys(CpuPct, a, b) <= 0
    ensures a.memPct + 0.01 <= b.memPct ==> CompareKeys(Memory, a, b) < 0
    ensures a.memPct <= b.memPct ==> CompareKeys(Memory, a, b) <= 0
  {
    assert a.cpuPct + 0.01 <= b.cpuPct ==> a.cpuPct * 100.0 + 1.0 <= b.cpuPct * 100.0;
    assert a.memPct + 0.01 <= b.memPct ==> a.memPct * 100.0 + 1.0 <= b.memPct * 100.0;
  }

  /** Commands are compared at the first place where they differ; a command comes before its continuations. */
  lemma {:induction false} CommandColumn(a: Values, b: Values, k: nat)
    requires k <= |a.command| && k <= |b.command| && a.command[..k] == b.command[..k]
    ensures k < |a.command| && k < |b.command| && a.command[k] < b.command[k] ==> CompareKeys(Command, a, b) < 0
    ensures k == |a.command| < |b.command| ==> CompareKeys(Command, a, b) < 0
    ensures k == |a.command| == |b.command| ==> CompareKeys(Command, a, b) == 0
  {
    FirstDifference(a.command, b.command, k);
  }

  lemma {:induction false} FirstDifference(s: string, t: string, k: nat)
    requires k <= |s| && k <= |t| && s[..k] == t[..k]
    ensures StrCmp(s, t) == StrCmp(s[k..], t[k..])
  {
    if k > 0 {
      assert s[0] == s[..k][0] == t[..k][0] == t[0];
      assert s[1..][..k - 1] == s[..k][1..] && t[1..][..k - 1] == t[..k][1..];
      FirstDifference(s[1..], t[1..], k - 1);
      assert s[1..][k - 1..] == s[k..] && t[1..][k - 1..] == t[k..];
    } else {
      assert s[0..] == s && t[0..] == t;
    }
  }

  /**
   Ascending frames begin with the least value, descending ones with the
   greatest; equal values are ordered by pid.
   */
  lemma FrameFollowsColumn<T>(key: Field, desc: bool, row: T -> Row, frame: seq<T>, i: nat, j: nat)
    requires Ascends(Comparator(key, desc), row, frame) && i < j < |frame|
    ensures var a, b := row(frame[i]), row(frame[j]);
      && (!desc ==> CompareKeys(key, a, b) < 0 || (CompareKeys(key, a, b) == 0 && a.pid < b.pid))
      && (desc ==> CompareKeys(key, a, b) > 0 || (CompareKeys(key, a, b) == 0 && a.pid > b.pid))
  {
    var a, b := row(frame[i]), row(frame[j]);
    assert Comparator(key, desc)(a, b) < 0;
    PidDifference(a, b);
  }

  // ------------------------------------------- priority and nice columns ----

  /**
   Priority and nice are compared as unsigned integers. Two processes are in
   numerical order if and only if both values are negative or neither is.
   */
  lemma SignedColumnsNeedOneSign(r: Values, x: CInt, y: CInt)
    ensures (CompareKeys(Nice, r.(nice := x), r.(nice := y)) < 0 <==> x < y) <==> (x < 0 <==> y < 0)
    ensures (CompareKeys(Priority, r.(priority := x), r.(priority := y)) < 0 <==> x < y) <==> (x < 0 <==> y < 0)
  {
    assert U64(x) == if x < 0 then x + TWO_64 else x;
    assert U64(y) == if y < 0 then y + TWO_64 else y;
  }

  /** A process with nice value -5 is listed after one with nice value 0. */
  lemma NegativeNiceComesLast(r: Values)
    ensures CompareKeys(Nice, r.(nice := -5), r.(nice := 0)) > 0
  {
    SignedColumnsNeedOneSign(r, -5, 0);
  }
}
