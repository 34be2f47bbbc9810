/**
 HASH_SRT (include/uthash.h:889-971): the application-order list of a table is
 sorted in place by relinking; bucket chains are not touched.
 */
module HashSort {
  import opened Sequences
  import opened HashBuckets
  import opened UtHashTable
  import opened Arithmetic
  import opened MergeSort

  /** The comparison sees whole elements. */
  function Itself(h: Handle): Handle {
    h
  }

  /** Links of a run that is still to be taken: forward only, the last element's link is of no interest. */
  ghost predicate RunLinks(c: seq<Handle>)
    reads c`next
  {
    forall i {:trigger c[i].next} :: 0 <= i < |c| - 1 ==> c[i].next == c[i + 1]
  }

  /** Links of the rest of the list: forward only, to its end. */
  ghost predicate RestLinks(c: seq<Handle>)
    reads c`next
  {
    forall i {:trigger c[i].next} :: 0 <= i < |c| ==> c[i].next == At(c, i + 1)
  }

  /** Links of the elements already merged; the tail's forward link is still open. */
  ghost predicate OutLinks(c: seq<Handle>)
    reads c`next, c`prev
  {
    && (forall i {:trigger c[i].next} :: 0 <= i < |c| - 1 ==> c[i].next == c[i + 1])
    && (forall i {:trigger c[i].prev} :: 0 <= i < |c| ==> c[i].prev == At(c, i - 1))
  }

  /** The element becomes the new tail of the merged list. */
  method Append(list: Handle?, tail: Handle?, e: Handle, ghost out: seq<Handle>) returns (list': Handle?)
    requires OutLinks(out) && Distinct(out) && e !in out
    requires list == At(out, 0) && tail == Last(out)
    modifies out`next, e`prev
    ensures OutLinks(out + [e]) && list' == At(out + [e], 0)
    ensures forall h :: h in out && h != tail ==> h.next == old(h.next)
  {
    list' := list;
    if tail != null {
      assert tail == out[|out| - 1];
      tail.next := e;
    } else {
      list' := e;
    }
    e.prev := tail;
    ghost var c := out + [e];
    forall i | 0 <= i < |c| ensures (i < |c| - 1 ==> c[i].next == c[i + 1]) && c[i].prev == At(c, i - 1) {
      if i < |out| {
        assert c[i] == out[i];
        assert i < |out| - 1 ==> out[i] != out[|out| - 1];
      }
    }
  }

  // ------------------------------------------------------------ one merge ----

  /** Merged elements, left run and rest of the list share no element. */
  ghost predicate Apart3(a: seq<Handle>, b: seq<Handle>, c: seq<Handle>) {
    && Distinct(a) && Distinct(b) && Distinct(c)
    && (forall h :: h in a ==> h !in b && h !in c)
    && (forall h :: h in b ==> h !in c)
  }

  /** State of the merge loop. */
  ghost predicate Merging(list: Handle?, tail: Handle?, p: Handle?, psize: nat, q: Handle?,
                          out: seq<Handle>, run: seq<Handle>, rest: seq<Handle>)
    reads out`next, out`prev, run`next, rest`next
  {
    && OutLinks(out) && list == At(out, 0) && tail == Last(out)
    && RunLinks(run) && |run| == psize && (psize > 0 ==> p == At(run, 0))
    && RestLinks(rest) && q == At(rest, 0)
    && Apart3(out, run, rest)
  }

  lemma DropFirst(c: seq<Handle>)
    requires Distinct(c) && c != []
    ensures Distinct(c[1..]) && c[0] in c && c[0] !in c[1..]
    ensures forall h :: h in c[1..] ==> h in c
  {
  }

  lemma MoveLeft(out: seq<Handle>, run: seq<Handle>, rest: seq<Handle>)
    requires Apart3(out, run, rest) && run != []
    ensures Apart3(out + [run[0]], run[1..], rest)
  {
    DropFirst(run);
  }

  lemma MoveRight(out: seq<Handle>, run: seq<Handle>, rest: seq<Handle>)
    requires Apart3(out, run, rest) && rest != []
    ensures Apart3(out + [rest[0]], run, rest[1..])
  {
    DropFirst(rest);
  }

  /** Takes the head of the left run. */
  method TakeLeft(list: Handle?, tail: Handle?, p: Handle?, psize: nat, q: Handle?,
                  ghost out: seq<Handle>, ghost run: seq<Handle>, ghost rest: seq<Handle>)
    returns (list': Handle?, p': Handle?)
    requires Merging(list, tail, p, psize, q, out, run, rest) && psize > 0
    modifies out`next, run`prev
    ensures Merging(list', run[0], p', psize - 1, q, out + [run[0]], run[1..], rest)
  {
    p' := p.next;
    assert |run| > 1 ==> p' == run[1];
    MoveLeft(out, run, rest);
    assert forall i :: 0 <= i < |rest| ==> rest[i] !in out;
    list' := Append(list, tail, p, out);
    assert forall i :: 0 <= i < |run[1..]| ==> run[1..][i] == run[i + 1];
  }

  /** Takes the head of the rest. */
  method TakeRight(list: Handle?, tail: Handle?, p: Handle?, psize: nat, q: Handle?,
                   ghost out: seq<Handle>, ghost run: seq<Handle>, ghost rest: seq<Handle>)
    returns (list': Handle?, q': Handle?)
    requires Merging(list, tail, p, psize, q, out, run, rest) && q != null
    modifies out`next, rest`prev
    ensures Merging(list', rest[0], p, psize, q', out + [rest[0]], run, rest[1..])
  {
    q' := q.next;
    assert q' == At(rest, 1);
    MoveRight(out, run, rest);
    assert forall i :: 0 <= i < |run| ==> run[i] !in out;
    assert forall i :: 0 <= i < |rest| ==> rest[i] !in out;
    list' := Append(list, tail, q, out);
    assert forall i :: 0 <= i < |rest[1..]| ==> rest[1..][i] == rest[i + 1];
  }

  lemma LeftNext(cmp: (Handle, Handle) -> int, out: seq<Handle>, p: seq<Handle>, q: seq<Handle>)
    requires p != [] && (q == [] || cmp(p[0], q[0]) <= 0)
    ensures out + Merge(cmp, Itself, p, q) == (out + [p[0]]) + Merge(cmp, Itself, p[1..], q)
  {
  }

  lemma RightNext(cmp: (Handle, Handle) -> int, out: seq<Handle>, p: seq<Handle>, q: seq<Handle>)
    requires q != [] && (p == [] || cmp(p[0], q[0]) > 0)
    ensures out + Merge(cmp, Itself, p, q) == (out + [q[0]]) + Merge(cmp, Itself, p, q[1..])
  {
  }

  /** The right run: at most n elements at the beginning of the rest. */
  function RightRun(rest: seq<Handle>, n: nat): seq<Handle> {
    rest[..Min(n, |rest|)]
  }

  /** What is merged so far, and what the loop will still append. */
  ghost predicate Owes(cmp: (Handle, Handle) -> int, out: seq<Handle>, run: seq<Handle>, rest: seq<Handle>, qsize: nat,
                       all: seq<Handle>, after: seq<Handle>) {
    && all == out + Merge(cmp, Itself, run, RightRun(rest, qsize))
    && after == rest[Min(qsize, |rest|)..]
  }

  lemma OwesLeft(cmp: (Handle, Handle) -> int, out: seq<Handle>, run: seq<Handle>, rest: seq<Handle>, qsize: nat,
                 all: seq<Handle>, after: seq<Handle>)
    requires Owes(cmp, out, run, rest, qsize, all, after) && run != []
    requires qsize == 0 || rest == [] || cmp(run[0], rest[0]) <= 0
    ensures Owes(cmp, out + [run[0]], run[1..], rest, qsize, all, after)
  {
    LeftNext(cmp, out, run, RightRun(rest, qsize));
  }

  lemma OwesRight(cmp: (Handle, Handle) -> int, out: seq<Handle>, run: seq<Handle>, rest: seq<Handle>, qsize: nat,
                  all: seq<Handle>, after: seq<Handle>)
    requires Owes(cmp, out, run, rest, qsize, all, after) && rest != [] && qsize > 0
    requires run == [] || cmp(run[0], rest[0]) > 0
    ensures Owes(cmp, out + [rest[0]], run, rest[1..], qsize - 1, all, after)
  {
    RightNext(cmp, out, run, RightRun(rest, qsize));
    WithoutFirst(rest, qsize);
  }

  lemma WithoutFirst(rest: seq<Handle>, n: nat)
    requires rest != [] && n > 0
    ensures RightRun(rest, n)[1..] == RightRun(rest[1..], n - 1) && RightRun(rest, n) != []
            && RightRun(rest, n)[0] == rest[0]
    ensures rest[1..][Min(n - 1, |rest| - 1)..] == rest[Min(n, |rest|)..]
  {
    var tail := rest[1..];
    assert forall i :: 0 <= i < |tail| ==> tail[i] == rest[i + 1];
  }

  /** The state of a pass: what is merged, and what is still to be merged. */
  ghost predicate Passing(list: Handle?, tail: Handle?, p: Handle?, out: seq<Handle>, rest: seq<Handle>)
    reads out`next, out`prev, rest`next
  {
    && OutLinks(out) && list == At(out, 0) && tail == Last(out)
    && RestLinks(rest) && p == At(rest, 0) && Apart3(out, [], rest)
  }

  lemma Splits(out: seq<Handle>, rest: seq<Handle>, n: nat)
    requires Apart3(out, [], rest) && n <= |rest|
    ensures Apart3(out, rest[..n], rest[n..])
  {
  }

  /** The elements are among those of all. */
  ghost predicate From(c: seq<Handle>, all: seq<Handle>) {
    forall i :: 0 <= i < |c| ==> c[i] in all
  }

  lemma FromNext(out: seq<Handle>, run: seq<Handle>, all: seq<Handle>)
    requires From(out, all) && From(run, all) && run != []
    ensures From(out + [run[0]], all) && From(run[1..], all)
  {
  }

  /** One element is appended to the merged list: the smaller head, the left one if they compare equal. */
  method MergeOne(cmp: (Handle, Handle) -> int, list: Handle?, tail: Handle?, p: Handle?, psize: nat, q: Handle?,
                  qsize: nat, ghost out: seq<Handle>, ghost run: seq<Handle>, ghost rest: seq<Handle>,
                  ghost all: seq<Handle>, ghost after: seq<Handle>)
    returns (list': Handle?, tail': Handle?, p': Handle?, psize': nat, q': Handle?, qsize': nat, ghost left: bool)
    requires Merging(list, tail, p, psize, q, out, run, rest) && Owes(cmp, out, run, rest, qsize, all, after)
    requires psize != 0 || (qsize != 0 && q != null)
    modifies out`next, run`prev, rest`prev
    ensures left ==> psize > 0 && psize' == psize - 1 && qsize' == qsize
    ensures left ==> Merging(list', tail', p', psize', q', out + [run[0]], run[1..], rest)
    ensures left ==> Owes(cmp, out + [run[0]], run[1..], rest, qsize', all, after)
    ensures !left ==> rest != [] && qsize > 0 && qsize' == qsize - 1 && psize' == psize
    ensures !left ==> Merging(list', tail', p', psize', q', out + [rest[0]], run, rest[1..])
    ensures !left ==> Owes(cmp, out + [rest[0]], run, rest[1..], qsize', all, after)
  {
    p', psize', q', qsize' := p, psize, q, qsize;
    if psize != 0 && (qsize == 0 || q == null || cmp(p, q) <= 0) {
      OwesLeft(cmp, out, run, rest, qsize, all, after);
      list', p' := TakeLeft(list, tail, p, psize, q, out, run, rest);
      tail', psize', left := p, psize - 1, true;
    } else {
      OwesRight(cmp, out, run, rest, qsize, all, after);
      list', q' := TakeRight(list, tail, p, psize, q, out, run, rest);
      tail', qsize', left := q, qsize - 1, false;
    }
  }

  /** One merge of two runs, appended to the list of elements already merged. */
  method MergeRuns(cmp: (Handle, Handle) -> int, list: Handle?, tail: Handle?, p: Handle?, psize: nat, q: Handle?,
                   qsize: nat, ghost out: seq<Handle>, ghost run: seq<Handle>, ghost rest: seq<Handle>,
                   ghost elements: seq<Handle>)
    returns (list': Handle?, tail': Handle?, q': Handle?, ghost out': seq<Handle>, ghost rest': seq<Handle>)
    requires Merging(list, tail, p, psize, q, out, run, rest)
    requires From(out, elements) && From(run, elements) && From(rest, elements)
    modifies elements`next, elements`prev
    ensures out' == out + Merge(cmp, Itself, run, RightRun(rest, qsize))
    ensures rest' == rest[Min(qsize, |rest|)..]
    ensures Passing(list', tail', q', out', rest')
  {
    ghost var all, after := out + Merge(cmp, Itself, run, RightRun(rest, qsize)), rest[Min(qsize, |rest|)..];
    list', tail', q', out', rest' := list, tail, q, out, rest;
    var l, m, n := p, psize, qsize;
    ghost var run' := run;
    while m != 0 || (n != 0 && q' != null)
      invariant Merging(list', tail', l, m, q', out', run', rest') && Owes(cmp, out', run', rest', n, all, after)
      invariant From(out', elements) && From(run', elements) && From(rest', elements)
      decreases |run'| + |rest'|
    {
      ghost var left;
      list', tail', l, m, q', n, left := MergeOne(cmp, list', tail', l, m, q', n, out', run', rest', all, after);
      if left {
        FromNext(out', run', elements);
        out', run' := out' + [run'[0]], run'[1..];
      } else {
        FromNext(out', rest', elements);
        out', rest' := out' + [rest'[0]], rest'[1..];
      }
    }
  }

  // ------------------------------------------------------------- one pass ----

  /** Steps over at most k elements; psize of them were there. */
  method SkipRun(p: Handle, k: nat, ghost rest: seq<Handle>) returns (q: Handle?, psize: nat)
    requires RestLinks(rest) && p == At(rest, 0) && k > 0
    ensures psize == Min(k, |rest|) && q == At(rest, psize)
  {
    q, psize := p, 0;
    var i := 0;
    while i < k
      invariant i == psize <= k && psize < |rest| && q == rest[psize]
    {
      psize := psize + 1;
      q := q.next;
      if q == null {
        break;
      }
      i := i + 1;
    }
  }

  /** Taking the first run off the rest starts a merge. */
  lemma StartsMerge(list: Handle?, tail: Handle?, p: Handle?, q: Handle?, out: seq<Handle>, rest: seq<Handle>, n: nat)
    requires Passing(list, tail, p, out, rest) && 0 < n <= |rest| && q == At(rest, n)
    ensures Merging(list, tail, p, n, q, out, rest[..n], rest[n..])
  {
    Splits(out, rest, n);
    assert forall i :: 0 <= i < n ==> rest[..n][i] == rest[i];
    assert forall i :: 0 <= i < |rest| - n ==> rest[n..][i] == rest[n + i];
  }

  /** out' and rest' are what a merge of the next two runs of length k makes of out and rest. */
  ghost predicate Progress(cmp: (Handle, Handle) -> int, k: nat, out: seq<Handle>, rest: seq<Handle>,
                           out': seq<Handle>, rest': seq<Handle>)
    requires k > 0
  {
    && out' + MergePass(cmp, Itself, rest', k) == out + MergePass(cmp, Itself, rest, k)
    && rest' == rest[Min(2 * k, |rest|)..] && From(out', out + rest)
  }

  lemma PassSplits(cmp: (Handle, Handle) -> int, k: nat, rest: seq<Handle>, run: seq<Handle>, right: seq<Handle>)
    requires k > 0 && rest != [] && run == rest[..Min(k, |rest|)] && right == rest[Min(k, |rest|)..]
    ensures RightRun(right, k) == rest[Min(k, |rest|)..Min(2 * k, |rest|)]
    ensures right[Min(k, |right|)..] == rest[Min(2 * k, |rest|)..]
    ensures MergePass(cmp, Itself, rest, k) ==
            Merge(cmp, Itself, run, RightRun(right, k)) + MergePass(cmp, Itself, right[Min(k, |right|)..], k)
  {
    assert RightRun(right, k) == rest[Min(k, |rest|)..Min(2 * k, |rest|)];
  }

  lemma MergedFrom(cmp: (Handle, Handle) -> int, run: seq<Handle>, right: seq<Handle>, rest: seq<Handle>)
    requires From(run, rest) && From(right, rest)
    ensures From(Merge(cmp, Itself, run, right), rest)
  {
    var m := Merge(cmp, Itself, run, right);
    MergeKeeps(cmp, Itself, run, right);
    forall i | 0 <= i < |m| ensures m[i] in rest {
      assert m[i] in multiset(m);
      assert m[i] in multiset(run) || m[i] in multiset(right);
    }
  }

  lemma FromParts(out: seq<Handle>, rest: seq<Handle>, n: nat)
    requires n <= |rest|
    ensures From(out, out + rest) && From(rest[..n], out + rest) && From(rest[n..], out + rest)
  {
  }

  lemma MakesProgress(cmp: (Handle, Handle) -> int, k: nat, out: seq<Handle>, rest: seq<Handle>, run: seq<Handle>,
                      right: seq<Handle>)
    requires k > 0 && rest != [] && run == rest[..Min(k, |rest|)] && right == rest[Min(k, |rest|)..]
    ensures Progress(cmp, k, out, rest, out + Merge(cmp, Itself, run, RightRun(right, k)), right[Min(k, |right|)..])
  {
    PassSplits(cmp, k, rest, run, right);
    MergedFrom(cmp, run, RightRun(right, k), rest);
    Regroup(out, Merge(cmp, Itself, run, RightRun(right, k)), MergePass(cmp, Itself, right[Min(k, |right|)..], k));
  }

  lemma Regroup(a: seq<Handle>, b: seq<Handle>, c: seq<Handle>)
    ensures (a + b) + c == a + (b + c)
  {
  }

  /** Two runs of the rest are merged. */
  method MergeNext(cmp: (Handle, Handle) -> int, list: Handle?, tail: Handle?, p: Handle, k: nat,
                   ghost out: seq<Handle>, ghost rest: seq<Handle>)
    returns (list': Handle?, tail': Handle?, q: Handle?, ghost out': seq<Handle>, ghost rest': seq<Handle>)
    requires Passing(list, tail, p, out, rest) && k > 0
    modifies out`next, out`prev, rest`next, rest`prev
    ensures Passing(list', tail', q, out', rest') && Progress(cmp, k, out, rest, out', rest')
  {
    var psize;
    q, psize := SkipRun(p, k, rest);
    ghost var run, right := rest[..psize], rest[psize..];
    StartsMerge(list, tail, p, q, out, rest, psize);
    FromParts(out, rest, psize);
    MakesProgress(cmp, k, out, rest, run, right);
    list', tail', q, out', rest' := MergeRuns(cmp, list, tail, p, psize, q, k, out, run, right, out + rest);
  }

  /** The invariant of a pass. */
  ghost predicate Passed(cmp: (Handle, Handle) -> int, k: nat, order: seq<Handle>, out: seq<Handle>, rest: seq<Handle>,
                         n: nat)
    requires k > 0
  {
    && out + MergePass(cmp, Itself, rest, k) == MergePass(cmp, Itself, order, k)
    && From(out, order) && From(rest, order)
    && (n == 0 ==> rest == order)
    && (n == 1 ==> rest == order[Min(2 * k, |order|)..])
    && (n >= 2 ==> |order| > 2 * k)
    && (n == 0 ==> out == [])
  }

  lemma NextPassed(cmp: (Handle, Handle) -> int, k: nat, order: seq<Handle>, out: seq<Handle>, rest: seq<Handle>,
                   n: nat, out': seq<Handle>, rest': seq<Handle>)
    requires k > 0 && rest != []
    requires Passed(cmp, k, order, out, rest, n) && Progress(cmp, k, out, rest, out', rest')
    ensures Passed(cmp, k, order, out', rest', n + 1) && |rest'| < |rest|
  {
    forall i | 0 <= i < |out'| ensures out'[i] in order {
      assert out'[i] in out || out'[i] in rest;
    }
  }

  /** The merges of a pass. */
  method MergeAll(cmp: (Handle, Handle) -> int, list: Handle, k: nat, ghost order: seq<Handle>)
    returns (list': Handle?, tail: Handle?, nmerges: nat, ghost out: seq<Handle>)
    requires RestLinks(order) && Distinct(order) && list == At(order, 0) && k > 0
    modifies order`next, order`prev
    ensures Passing(list', tail, null, out, []) && Passed(cmp, k, order, out, [], nmerges)
  {
    var p: Handle? := list;
    list', tail, nmerges, out := null, null, 0, [];
    ghost var rest := order;
    while p != null
      invariant Passing(list', tail, p, out, rest) && Passed(cmp, k, order, out, rest, nmerges)
      decreases |rest|
    {
      ghost var out0, rest0 := out, rest;
      list', tail, p, out, rest := MergeNext(cmp, list', tail, p, k, out, rest);
      NextPassed(cmp, k, order, out0, rest0, nmerges, out, rest);
      nmerges := nmerges + 1;
    }
  }

  method Close(tail: Handle, ghost s: seq<Handle>)
    requires OutLinks(s) && Distinct(s) && tail == Last(s)
    modifies s`next
    ensures Linked(s)
  {
    assert s[|s| - 1] == tail;
    tail.next := null;
  }

  /** One pass over the list; a single merge means that the list is sorted. */
  method Pass(cmp: (Handle, Handle) -> int, list: Handle, k: nat, ghost order: seq<Handle>)
    returns (list': Handle?, tail: Handle?, nmerges: nat, ghost out: seq<Handle>)
    requires Linked(order) && Distinct(order) && list == At(order, 0) && k > 0
    modifies order`next, order`prev
    ensures out == MergePass(cmp, Itself, order, k)
    ensures Linked(out) && Distinct(out) && list' == At(out, 0) && tail == Last(out)
    ensures forall i :: 0 <= i < |out| ==> out[i] in order
    ensures nmerges <= 1 <==> |order| <= 2 * k
  {
    list', tail, nmerges, out := MergeAll(cmp, list, k, order);
    PassDone(cmp, k, order, out, nmerges);
    Close(tail, out);
  }

  lemma PassDone(cmp: (Handle, Handle) -> int, k: nat, order: seq<Handle>, out: seq<Handle>, n: nat)
    requires k > 0 && Passed(cmp, k, order, out, [], n) && order != []
    ensures out == MergePass(cmp, Itself, order, k) && out != [] && out[|out| - 1] in order
    ensures n <= 1 <==> |order| <= 2 * k
  {
    assert out + MergePass(cmp, Itself, [], k) == out;
  }

  // ------------------------------------------------------------- the sort ----

  /** Passes over runs of doubling length until a pass makes a single merge. */
  method SortList(cmp: (Handle, Handle) -> int, head: Handle, ghost order: seq<Handle>)
    returns (list: Handle?, tail: Handle?, ghost sorted: seq<Handle>)
    requires Linked(order) && Distinct(order) && head == At(order, 0)
    modifies order`next, order`prev
    ensures sorted == Passes(cmp, Itself, order, 1)
    ensures Linked(sorted) && Distinct(sorted) && list == At(sorted, 0) && tail == Last(sorted)
  {
    var insize, looping := 1, true;
    list, tail, sorted := head, null, order;
    while looping
      invariant insize > 0 && Linked(sorted) && Distinct(sorted) && list == At(sorted, 0) && |sorted| == |order|
      invariant forall i :: 0 <= i < |sorted| ==> sorted[i] in order
      invariant if looping then Passes(cmp, Itself, sorted, insize) == Passes(cmp, Itself, order, 1)
                else sorted == Passes(cmp, Itself, order, 1) && tail == Last(sorted)
      decreases looping, |order| - insize
    {
      var nmerges;
      list, tail, nmerges, sorted := Pass(cmp, list, insize, sorted);
      if nmerges <= 1 {
        looping := false;
      }
      insize := insize * 2;
    }
  }

  /** The elements a comparison function is asked about. */
  ghost function ElementSet(order: seq<Handle>): iset<Handle> {
    iset h | h in order
  }

  /** Position in a list. */
  ghost function PosIn(order: seq<Handle>, h: Handle): int {
    if order == [] then 0 else if order[0] == h then 0 else 1 + PosIn(order[1..], h)
  }

  lemma {:induction false} PosInAt(order: seq<Handle>, i: nat)
    requires Distinct(order) && i < |order|
    ensures PosIn(order, order[i]) == i
  {
    if i > 0 {
      PosInAt(order[1..], i - 1);
    }
  }

  /** The same keys in another order. */
  lemma PermutedKeys(order: seq<Handle>, sorted: seq<Handle>, hash: Key -> nat)
    requires KeysOk(order, hash) && Distinct(sorted) && multiset(order) == multiset(sorted)
    ensures KeysOk(sorted, hash) && Elements(sorted) == Elements(order) && |sorted| == |order|
  {
    forall i | 0 <= i < |sorted| ensures sorted[i] in order {
      assert sorted[i] in multiset(sorted);
    }
    forall i | 0 <= i < |order| ensures order[i] in sorted {
      assert order[i] in multiset(order);
    }
    assert |multiset(order)| == |order| && |multiset(sorted)| == |sorted|;
  }

  /** The order is sorted, and the elements and keys are the same. */
  method SortOrder(t: HashTable, cmp: (Handle, Handle) -> int)
    requires t.ListOk() && t.head != null
    modifies t`head, t`tail, t`order, t.order`next, t.order`prev
    ensures t.ListOk() && t.order == Passes(cmp, Itself, old(t.order), 1)
    ensures Elements(t.order) == Elements(old(t.order)) && |t.order| == |old(t.order)|
  {
    ghost var order, sorted := t.order, [];
    var list, tail;
    list, tail, sorted := SortList(cmp, t.head, order);
    PassesKeep(cmp, Itself, order, 1);
    PermutedKeys(order, sorted, t.hash);
    t.head, t.tail, t.order := list, tail, sorted;
  }

  /** HASH_SRT on a table. */
  method SortTable(t: HashTable, cmp: (Handle, Handle) -> int)
    requires t.Valid()
    modifies t`head, t`tail, t`order, t.order`next, t.order`prev
    ensures t.Valid() && t.order == Passes(cmp, Itself, old(t.order), 1)
  {
    if t.head != null {
      SortOrder(t, cmp);
    }
  }

  /**
   What the sort promises: the application order becomes a permutation of the
   old one that is sorted by cmp, with elements that compare equal in their old
   order, and every key is bound to the element it was bound to before.
   */
  lemma SortIsStable(cmp: (Handle, Handle) -> int, order: seq<Handle>)
    requires Distinct(order)
    ensures multiset(Passes(cmp, Itself, order, 1)) == multiset(order)
    ensures Compares(cmp, ElementSet(order)) ==>
              Sorted(cmp, Itself, h => PosIn(order, h), Passes(cmp, Itself, order, 1))
    ensures forall key, out :: Binds(Passes(cmp, Itself, order, 1), key, out) <==> Binds(order, key, out)
  {
    var sorted := Passes(cmp, Itself, order, 1);
    PassesKeep(cmp, Itself, order, 1);
    if Compares(cmp, ElementSet(order)) {
      SortedByPosition(cmp, order);
    }
    forall i | 0 <= i < |sorted| ensures sorted[i] in order {
      assert sorted[i] in multiset(sorted);
    }
    forall i | 0 <= i < |order| ensures order[i] in sorted {
      assert order[i] in multiset(order);
    }
  }

  lemma SortedByPosition(cmp: (Handle, Handle) -> int, order: seq<Handle>)
    requires Distinct(order) && Compares(cmp, ElementSet(order))
    ensures Sorted(cmp, Itself, h => PosIn(order, h), Passes(cmp, Itself, order, 1))
  {
    var rank := h => PosIn(order, h);
    forall i, j | 0 <= i < j < |order| ensures rank(order[i]) < rank(order[j]) {
      PosInAt(order, i);
      PosInAt(order, j);
    }
    StableSort(cmp, ElementSet(order), Itself, rank, order);
  }
}
