/**
 Monitored and other GPUs (src/interface_options.c:65-107): the array of options
 lists the devices of both lists, monitored ones first, and entries move between
 the lists after their flags were edited.
 */
module MonitoredGpus {
  import opened Sequences
  import opened IntrusiveList
  import opened FdinfoCallbacks

  /** nvtop_interface_gpu_opts. */
  datatype GpuOpts = GpuOpts(toDraw: int, doNotMonitor: bool, linkedGpu: Node)

  function Gpus(os: seq<GpuOpts>): (r: seq<Node>)
    ensures |r| == |os|
  {
    seq(|os|, i requires 0 <= i < |os| => os[i].linkedGpu)
  }

  // ------------------------------------------------------- what is wanted ----

  /** The entries with the given flag, in their order. */
  function Flagged(os: seq<GpuOpts>, doNotMonitor: bool): (r: seq<GpuOpts>)
    ensures |r| <= |os| && forall i :: 0 <= i < |r| ==> r[i].doNotMonitor == doNotMonitor
  {
    if os == [] then []
    else
      var before, o := Flagged(os[..|os| - 1], doNotMonitor), os[|os| - 1];
      if o.doNotMonitor == doNotMonitor then before + [o] else before
  }

  /** Monitored entries: the old ones first, then those that were not. */
  function NowMonitored(mon: seq<GpuOpts>, non: seq<GpuOpts>): seq<GpuOpts> {
    Flagged(mon, false) + Flagged(non, false)
  }

  /** The other entries: those that were not monitored first. */
  function NowOther(mon: seq<GpuOpts>, non: seq<GpuOpts>): seq<GpuOpts> {
    Flagged(non, true) + Flagged(mon, true)
  }

  /** At least one GPU is monitored. */
  function FixedMonitored(mon: seq<GpuOpts>, non: seq<GpuOpts>): seq<GpuOpts> {
    var m, n := NowMonitored(mon, non), NowOther(mon, non);
    if m == [] && n != [] then [n[0].(doNotMonitor := false)] else m
  }

  function FixedOther(mon: seq<GpuOpts>, non: seq<GpuOpts>): seq<GpuOpts> {
    var m, n := NowMonitored(mon, non), NowOther(mon, non);
    if m == [] && n != [] then n[1..] else n
  }

  lemma FlaggedNext(os: seq<GpuOpts>, j: nat, doNotMonitor: bool)
    requires j < |os|
    ensures Flagged(os[..j + 1], doNotMonitor)
            == Flagged(os[..j], doNotMonitor) + if os[j].doNotMonitor == doNotMonitor then [os[j]] else []
  {
    assert os[..j + 1][..j] == os[..j];
  }

  lemma {:induction false} FlaggedJoin(a: seq<GpuOpts>, b: seq<GpuOpts>, doNotMonitor: bool)
    ensures Flagged(a + b, doNotMonitor) == Flagged(a, doNotMonitor) + Flagged(b, doNotMonitor)
  {
    if b == [] {
      assert a + b == a;
    } else {
      assert (a + b)[..|a + b| - 1] == a + b[..|b| - 1];
      FlaggedJoin(a, b[..|b| - 1], doNotMonitor);
    }
  }

  lemma {:induction false} FlaggedTwice(a: seq<GpuOpts>, flag: bool, other: bool)
    ensures Flagged(Flagged(a, flag), other) == if flag == other then Flagged(a, flag) else []
  {
    if a != [] {
      FlaggedTwice(a[..|a| - 1], flag, other);
      FlaggedJoin(Flagged(a[..|a| - 1], flag), [a[|a| - 1]], other);
    }
  }

  lemma {:induction false} FlagsShareOut(a: seq<GpuOpts>)
    ensures multiset(Flagged(a, false)) + multiset(Flagged(a, true)) == multiset(a)
  {
    if a != [] {
      FlagsShareOut(a[..|a| - 1]);
      assert a == a[..|a| - 1] + [a[|a| - 1]];
    }
  }

  /** The entries with the flag keep their order. */
  lemma {:induction false} FlaggedInOrder(os: seq<GpuOpts>, flag: bool) returns (at: seq<nat>)
    ensures |at| == |Flagged(os, flag)| && forall i, j :: 0 <= i < j < |at| ==> at[i] < at[j]
    ensures forall i :: 0 <= i < |at| ==> at[i] < |os| && Flagged(os, flag)[i] == os[at[i]]
    ensures forall k: nat :: k < |os| && os[k].doNotMonitor == flag ==> k in at
  {
    at := [];
    if os != [] {
      var n := |os| - 1;
      at := FlaggedInOrder(os[..n], flag);
      if os[n].doNotMonitor == flag {
        at := at + [n];
      }
    }
  }

  /** If no device is to be monitored, it is the first of those that were not, or else the first of all. */
  lemma OneIsKept(mon: seq<GpuOpts>, non: seq<GpuOpts>)
    requires mon + non != [] && forall i :: 0 <= i < |mon + non| ==> (mon + non)[i].doNotMonitor
    ensures var first := if non != [] then non[0] else mon[0];
      FixedMonitored(mon, non) == [first.(doNotMonitor := false)] && FixedOther(mon, non) == (non + mon)[1..]
  {
    assert forall i :: 0 <= i < |mon| ==> (mon + non)[i] == mon[i];
    assert forall i :: 0 <= i < |non| ==> (mon + non)[|mon| + i] == non[i];
    AllFlagged(mon, true);
    AllFlagged(non, true);
  }

  lemma NowIsPermutation(mon: seq<GpuOpts>, non: seq<GpuOpts>)
    ensures multiset(NowMonitored(mon, non) + NowOther(mon, non)) == multiset(mon + non)
    ensures |NowMonitored(mon, non)| + |NowOther(mon, non)| == |mon| + |non|
  {
    FlagsShareOut(mon);
    FlagsShareOut(non);
    var all, now := mon + non, NowMonitored(mon, non) + NowOther(mon, non);
    assert multiset(now) == multiset(all);
    assert |multiset(all)| == |all| && |multiset(now)| == |now|;
  }

  lemma FirstOf(m: seq<GpuOpts>, n: seq<GpuOpts>)
    requires m == [] && n != []
    ensures Gpus([n[0].(doNotMonitor := false)] + n[1..]) == Gpus(m + n)
  {
  }

  /**
   No device is lost or duplicated; afterwards the flags say in which list a
   device is, and some device is monitored if there is any.
   */
  lemma FixedIsPermutation(mon: seq<GpuOpts>, non: seq<GpuOpts>)
    ensures multiset(NowMonitored(mon, non) + NowOther(mon, non)) == multiset(mon + non)
    ensures Gpus(FixedMonitored(mon, non) + FixedOther(mon, non)) == Gpus(NowMonitored(mon, non) + NowOther(mon, non))
    ensures forall i :: 0 <= i < |FixedMonitored(mon, non)| ==> !FixedMonitored(mon, non)[i].doNotMonitor
    ensures forall i :: 0 <= i < |FixedOther(mon, non)| ==> FixedOther(mon, non)[i].doNotMonitor
    ensures mon + non != [] ==> FixedMonitored(mon, non) != []
  {
    NowIsPermutation(mon, non);
    var m, n := NowMonitored(mon, non), NowOther(mon, non);
    if m == [] && n != [] {
      FirstOf(m, n);
    }
  }

  lemma StaysFixed(m: seq<GpuOpts>, n: seq<GpuOpts>)
    requires Flagged(m, false) == m && Flagged(m, true) == [] && Flagged(n, true) == n && Flagged(n, false) == []
    requires m == [] ==> n == []
    ensures FixedMonitored(m, n) == m && FixedOther(m, n) == n
  {
    assert NowMonitored(m, n) == m && NowOther(m, n) == n;
  }

  /** Entries whose flags are right stay where they are: fixing again changes nothing. */
  lemma FixingTwiceChangesNothing(mon: seq<GpuOpts>, non: seq<GpuOpts>)
    ensures var m, n := FixedMonitored(mon, non), FixedOther(mon, non);
      FixedMonitored(m, n) == m && FixedOther(m, n) == n
  {
    var m, n := FixedMonitored(mon, non), FixedOther(mon, non);
    FixedIsPermutation(mon, non);
    AllFlagged(m, false);
    AllFlagged(n, true);
    StaysFixed(m, n);
  }

  lemma {:induction false} AllFlagged(os: seq<GpuOpts>, flag: bool)
    requires forall i :: 0 <= i < |os| ==> os[i].doNotMonitor == flag
    ensures Flagged(os, flag) == os && Flagged(os, !flag) == []
  {
    if os != [] {
      var before, last := os[..|os| - 1], os[|os| - 1];
      AllFlagged(before, flag);
      assert last.doNotMonitor == flag && os == before + [last];
      assert Flagged(os, flag) == Flagged(before, flag) + [last];
    }
  }

  // ---------------------------------------------------- moves in the array ----

  /** Entry idx at the end, the ones behind it one place further down. */
  function ToEnd(o: seq<GpuOpts>, idx: nat): (r: seq<GpuOpts>)
    requires idx < |o|
    ensures |r| == |o|
    ensures forall i :: 0 <= i < |o| ==> r[i] == if i < idx then o[i] else if i < |o| - 1 then o[i + 1] else o[idx]
  {
    o[..idx] + o[idx + 1..] + [o[idx]]
  }

  /** The entry is saved, the ones behind it move down, and it becomes the last one. */
  method RotateToEnd(a: array<GpuOpts>, idx: nat)
    requires idx < a.Length
    modifies a
    ensures a[..] == ToEnd(old(a[..]), idx)
  {
    ghost var o := a[..];
    var save := a[idx];
    for k := idx to a.Length - 1
      invariant forall i :: idx <= i < k ==> a[i] == o[i + 1]
      invariant forall i :: 0 <= i < a.Length && (i < idx || i >= k) ==> a[i] == o[i]
    {
      a[k] := a[k + 1];
    }
    a[a.Length - 1] := save;
  }

  /** Entry idx at the given place, the ones in between one place further up. */
  function Forward(o: seq<GpuOpts>, idx: nat, place: nat): (r: seq<GpuOpts>)
    requires place <= idx < |o|
    ensures |r| == |o|
    ensures forall i :: 0 <= i < |o| ==>
              r[i] == if i == place then o[idx] else if place < i <= idx then o[i - 1] else o[i]
  {
    o[..place] + [o[idx]] + o[place..idx] + o[idx + 1..]
  }

  /** The entry moves forward to the given place, the ones in between move up. */
  method RotateForward(a: array<GpuOpts>, idx: nat, place: nat)
    requires place <= idx < a.Length
    modifies a
    ensures a[..] == Forward(old(a[..]), idx, place)
  {
    ghost var o := a[..];
    var save := a[idx];
    var k := idx;
    while k > place
      invariant place <= k <= idx
      invariant forall i :: k < i <= idx ==> a[i] == o[i - 1]
      invariant forall i :: 0 <= i < a.Length && (i <= k || i > idx) ==> a[i] == o[i]
    {
      a[k] := a[k - 1];
      k := k - 1;
    }
    a[place] := save;
  }

  // ------------------------------------------------------------- the sweep ----

  /** Lists and array agree: the array lists the devices of the first list, then those of the second. */
  ghost predicate InStep(a: array<GpuOpts>, monitored: Node, mon: seq<GpuOpts>, other: Node, non: seq<GpuOpts>)
    reads a, monitored, other, Gpus(mon), Gpus(non)
  {
    && a[..] == mon + non && Lists(monitored, Gpus(mon), other, Gpus(non))
  }

  ghost predicate Lists(monitored: Node, ms: seq<Node>, other: Node, ns: seq<Node>)
    reads monitored, other, ms, ns
  {
    Ring(monitored, ms) && Ring(other, ns) && Apart(monitored, ms, other, ns)
  }

  ghost predicate Among(os: seq<GpuOpts>, all: set<Node>) {
    forall i :: 0 <= i < |os| ==> os[i].linkedGpu in all
  }

  lemma GpusWithout(os: seq<GpuOpts>, k: nat)
    requires k < |os|
    ensures Gpus(Without(os, k)) == Without(Gpus(os), k)
  {
  }

  lemma GpusJoin(a: seq<GpuOpts>, b: seq<GpuOpts>)
    ensures Gpus(a + b) == Gpus(a) + Gpus(b)
  {
  }

  /** The array after entry idx went to the end. */
  lemma DemotedArray(mon: seq<GpuOpts>, non: seq<GpuOpts>, idx: nat, o: seq<GpuOpts>)
    requires idx < |mon| && o == ToEnd(mon + non, idx)
    ensures o == Without(mon, idx) + (non + [mon[idx]])
    ensures Gpus(non + [mon[idx]]) == Gpus(non) + [Gpus(mon)[idx]]
  {
    GpusJoin(non, [mon[idx]]);
  }

  /** The array after entry idx moved forward to the end of the monitored ones. */
  lemma PromotedArray(mon: seq<GpuOpts>, non: seq<GpuOpts>, k: nat, o: seq<GpuOpts>)
    requires k < |non|
    requires o == Forward(mon + non, |mon| + k, |mon|)
    ensures o == (mon + [non[k]]) + Without(non, k)
    ensures Gpus(mon + [non[k]]) == Gpus(mon) + [Gpus(non)[k]]
  {
    GpusJoin(mon, [non[k]]);
  }

  /** Entry idx of the monitored ones goes to the end of the others. */
  method Demote(device: Node, idx: nat, a: array<GpuOpts>, ghost monitored: Node, ghost mon: seq<GpuOpts>,
                other: Node, ghost non: seq<GpuOpts>)
    requires InStep(a, monitored, mon, other, non) && idx < |mon| && device == Gpus(mon)[idx]
    modifies a, monitored, other, Gpus(mon), Gpus(non)
    ensures InStep(a, monitored, Without(mon, idx), other, non + [mon[idx]])
  {
    ghost var mon', non' := Without(mon, idx), non + [mon[idx]];
    DemotedArray(mon, non, idx, ToEnd(a[..], idx));
    GpusWithout(mon, idx);
    DemoteNode(device, monitored, Gpus(mon), other, Gpus(non), idx);
    assert Lists(monitored, Gpus(mon'), other, Gpus(non'));
    RotateToEnd(a, idx);
  }

  /** Entry k of the others goes to the end of the monitored ones. */
  method Promote(device: Node, idx: nat, a: array<GpuOpts>, monitored: Node, numMonitored: nat, ghost mon: seq<GpuOpts>,
                 ghost other: Node, ghost non: seq<GpuOpts>, ghost k: nat)
    requires InStep(a, monitored, mon, other, non) && k < |non| && device == Gpus(non)[k]
    requires numMonitored == |mon| && idx == |mon| + k
    modifies a, monitored, other, Gpus(mon), Gpus(non)
    ensures InStep(a, monitored, mon + [non[k]], other, Without(non, k))
  {
    ghost var mon', non' := mon + [non[k]], Without(non, k);
    PromotedArray(mon, non, k, Forward(a[..], idx, numMonitored));
    GpusWithout(non, k);
    PromoteNode(device, monitored, Gpus(mon), other, Gpus(non), k);
    assert Lists(monitored, Gpus(mon'), other, Gpus(non'));
    RotateForward(a, idx, numMonitored);
  }

  method DemoteNode(device: Node, ghost monitored: Node, ghost ms: seq<Node>, other: Node, ghost ns: seq<Node>,
                    ghost k: nat)
    requires Lists(monitored, ms, other, ns) && k < |ms| && device == ms[k]
    modifies monitored, other, ms, ns
    ensures Lists(monitored, Without(ms, k), other, ns + [device])
  {
    MoveTail(device, monitored, ms, k, other, ns);
  }

  method PromoteNode(device: Node, monitored: Node, ghost ms: seq<Node>, ghost other: Node, ghost ns: seq<Node>,
                     ghost k: nat)
    requires Lists(monitored, ms, other, ns) && k < |ns| && device == ns[k]
    modifies monitored, other, ms, ns
    ensures Lists(monitored, ms + [device], other, Without(ns, k))
  {
    ApartSymmetric(monitored, ms, other, ns);
    MoveTail(device, other, ns, k, monitored, ms);
    ApartSymmetric(other, Without(ns, k), monitored, ms + [device]);
  }

  lemma ApartSymmetric(a: Node, s: seq<Node>, b: Node, t: seq<Node>)
    requires Apart(a, s, b, t)
    ensures Apart(b, t, a, s)
  {
  }

  /** The first j monitored entries have been looked at. */
  ghost predicate Demoted(j: nat, mon0: seq<GpuOpts>, non0: seq<GpuOpts>, mon: seq<GpuOpts>, non: seq<GpuOpts>) {
    && j <= |mon0|
    && mon == Flagged(mon0[..j], false) + mon0[j..] && non == non0 + Flagged(mon0[..j], true)
  }

  lemma DemotedNext(j: nat, mon0: seq<GpuOpts>, non0: seq<GpuOpts>, mon: seq<GpuOpts>, non: seq<GpuOpts>)
    requires Demoted(j, mon0, non0, mon, non) && j < |mon0|
    ensures |Flagged(mon0[..j], false)| < |mon| && mon[|Flagged(mon0[..j], false)|] == mon0[j]
    ensures mon0[j].doNotMonitor ==>
              Demoted(j + 1, mon0, non0, Without(mon, |Flagged(mon0[..j], false)|), non + [mon0[j]])
    ensures !mon0[j].doNotMonitor ==> Demoted(j + 1, mon0, non0, mon, non)
    ensures |Flagged(mon0[..j + 1], false)| == |Flagged(mon0[..j], false)| + if mon0[j].doNotMonitor then 0 else 1
  {
    FlaggedNext(mon0, j, false);
    FlaggedNext(mon0, j, true);
    assert mon0[j..] == [mon0[j]] + mon0[j + 1..];
  }

  lemma DropAmong(os: seq<GpuOpts>, k: nat, all: set<Node>)
    requires Among(os, all) && k < |os|
    ensures Among(Without(os, k), all) && os[k].linkedGpu in all
  {
  }

  /** The state of the first loop. */
  ghost predicate Demoting(a: array<GpuOpts>, monitored: Node, other: Node, all: set<Node>, device: Node?, j: nat,
                           idx: nat, mon0: seq<GpuOpts>, non0: seq<GpuOpts>, mon: seq<GpuOpts>, non: seq<GpuOpts>)
    reads a, monitored, other, Gpus(mon), Gpus(non)
  {
    && InStep(a, monitored, mon, other, non) && Among(mon, all) && Among(non, all)
    && Demoted(j, mon0, non0, mon, non) && idx == |Flagged(mon0[..j], false)|
    && device == Nth(monitored, Gpus(mon), idx)
  }

  /** One round of the first loop. */
  method DemoteOne(device: Node, a: array<GpuOpts>, ghost monitored: Node, other: Node, ghost all: set<Node>,
                   ghost j: nat, idx: nat, ghost mon0: seq<GpuOpts>, ghost non0: seq<GpuOpts>,
                   ghost mon: seq<GpuOpts>, ghost non: seq<GpuOpts>)
    returns (following: Node, idx': nat, ghost mon': seq<GpuOpts>, ghost non': seq<GpuOpts>)
    requires Demoting(a, monitored, other, all, device, j, idx, mon0, non0, mon, non) && j < |mon0|
    modifies a, monitored, other, all
    ensures Demoting(a, monitored, other, all, following, j + 1, idx', mon0, non0, mon', non')
  {
    DemotedNext(j, mon0, non0, mon, non);
    following, idx', mon', non' := device.next, idx, mon, non;
    assert a[idx] == mon[idx];
    if a[idx].doNotMonitor {
      DropAmong(mon, idx, all);
      Demote(device, idx, a, monitored, mon, other, non);
      mon', non' := Without(mon, idx), non + [mon[idx]];
    } else {
      idx' := idx + 1;
    }
  }

  lemma DemoteStarts(a: array<GpuOpts>, monitored: Node, other: Node, all: set<Node>, mon: seq<GpuOpts>,
                     non: seq<GpuOpts>)
    requires InStep(a, monitored, mon, other, non) && Among(mon, all) && Among(non, all)
    ensures Demoting(a, monitored, other, all, monitored.next, 0, 0, mon, non, mon, non)
  {
  }

  /** The loop goes on as long as there is an entry left. */
  lemma DemoteEnds(a: array<GpuOpts>, monitored: Node, other: Node, all: set<Node>, device: Node?, j: nat, idx: nat,
                   mon0: seq<GpuOpts>, non0: seq<GpuOpts>, mon: seq<GpuOpts>, non: seq<GpuOpts>)
    requires Demoting(a, monitored, other, all, device, j, idx, mon0, non0, mon, non)
    ensures j <= |mon0| && device != null && (device == monitored <==> j == |mon0|)
  {
  }

  method DemoteLoop(a: array<GpuOpts>, monitored: Node, ghost mon0: seq<GpuOpts>, other: Node, ghost non0: seq<GpuOpts>,
                    ghost all: set<Node>)
    returns (idx: nat, ghost mon: seq<GpuOpts>, ghost non: seq<GpuOpts>)
    requires Demoting(a, monitored, other, all, monitored.next, 0, 0, mon0, non0, mon0, non0)
    modifies a, monitored, other, all
    ensures Demoting(a, monitored, other, all, monitored, |mon0|, idx, mon0, non0, mon, non)
  {
    idx, mon, non := 0, mon0, non0;
    var device := monitored.next;
    ghost var j := 0;
    while device != monitored
      invariant Demoting(a, monitored, other, all, device, j, idx, mon0, non0, mon, non)
      decreases |mon0| - j
    {
      DemoteEnds(a, monitored, other, all, device, j, idx, mon0, non0, mon, non);
      device, idx, mon, non := DemoteOne(device, a, monitored, other, all, j, idx, mon0, non0, mon, non);
      j := j + 1;
    }
    DemoteEnds(a, monitored, other, all, device, j, idx, mon0, non0, mon, non);
  }

  /** The first loop: monitored entries that shall not be monitored. */
  method DemoteFlagged(a: array<GpuOpts>, monitored: Node, ghost mon0: seq<GpuOpts>, other: Node,
                       ghost non0: seq<GpuOpts>, ghost all: set<Node>)
    returns (idx: nat, ghost mon: seq<GpuOpts>, ghost non: seq<GpuOpts>)
    requires InStep(a, monitored, mon0, other, non0) && Among(mon0, all) && Among(non0, all)
    modifies a, monitored, other, all
    ensures InStep(a, monitored, mon, other, non) && Among(mon, all) && Among(non, all)
    ensures mon == Flagged(mon0, false) && non == non0 + Flagged(mon0, true) && idx == |mon|
  {
    DemoteStarts(a, monitored, other, all, mon0, non0);
    idx, mon, non := DemoteLoop(a, monitored, mon0, other, non0, all);
    assert mon0[..|mon0|] == mon0;
  }

  /** The first j other entries have been looked at; k of them stay. */
  ghost predicate Promoted(j: nat, k: nat, mon0: seq<GpuOpts>, non0: seq<GpuOpts>, mon: seq<GpuOpts>,
                           non: seq<GpuOpts>) {
    && j <= |non0| && k == |Flagged(non0[..j], true)|
    && mon == mon0 + Flagged(non0[..j], false) && non == Flagged(non0[..j], true) + non0[j..]
  }

  lemma PromotedNext(j: nat, k: nat, mon0: seq<GpuOpts>, non0: seq<GpuOpts>, mon: seq<GpuOpts>, non: seq<GpuOpts>)
    requires Promoted(j, k, mon0, non0, mon, non) && j < |non0|
    ensures k < |non| && non[k] == non0[j]
    ensures !non0[j].doNotMonitor ==> Promoted(j + 1, k, mon0, non0, mon + [non0[j]], Without(non, k))
    ensures non0[j].doNotMonitor ==> Promoted(j + 1, k + 1, mon0, non0, mon, non)
  {
    FlaggedNext(non0, j, false);
    FlaggedNext(non0, j, true);
    assert non0[j..] == [non0[j]] + non0[j + 1..];
  }

  ghost predicate Promoting(a: array<GpuOpts>, monitored: Node, other: Node, all: set<Node>, device: Node?, j: nat,
                            k: nat, idx: nat, numMonitored: nat, mon0: seq<GpuOpts>, non0: seq<GpuOpts>,
                            mon: seq<GpuOpts>, non: seq<GpuOpts>)
    reads a, monitored, other, Gpus(mon), Gpus(non)
  {
    && InStep(a, monitored, mon, other, non) && Among(mon, all) && Among(non, all)
    && Promoted(j, k, mon0, non0, mon, non) && numMonitored == |mon| && idx == numMonitored + k
    && device == Nth(other, Gpus(non), k)
  }

  /** One round of the second loop. */
  method PromoteOne(device: Node, a: array<GpuOpts>, monitored: Node, ghost other: Node, ghost all: set<Node>,
                    ghost j: nat, ghost k: nat, idx: nat, numMonitored: nat, ghost mon0: seq<GpuOpts>,
                    ghost non0: seq<GpuOpts>, ghost mon: seq<GpuOpts>, ghost non: seq<GpuOpts>)
    returns (following: Node, numMonitored': nat, ghost k': nat, ghost mon': seq<GpuOpts>, ghost non': seq<GpuOpts>)
    requires Promoting(a, monitored, other, all, device, j, k, idx, numMonitored, mon0, non0, mon, non) && j < |non0|
    modifies a, monitored, other, all
    ensures Promoting(a, monitored, other, all, following, j + 1, k', idx + 1, numMonitored', mon0, non0, mon', non')
  {
    PromotedNext(j, k, mon0, non0, mon, non);
    following, numMonitored', k', mon', non' := device.next, numMonitored, k, mon, non;
    assert a[idx] == (mon + non)[idx] == non[k];
    if !a[idx].doNotMonitor {
      DropAmong(non, k, all);
      Promote(device, idx, a, monitored, numMonitored, mon, other, non, k);
      numMonitored', mon', non' := numMonitored + 1, mon + [non[k]], Without(non, k);
    } else {
      k' := k + 1;
    }
  }

  lemma PromoteStarts(a: array<GpuOpts>, monitored: Node, other: Node, all: set<Node>, mon: seq<GpuOpts>,
                      non: seq<GpuOpts>)
    requires InStep(a, monitored, mon, other, non) && Among(mon, all) && Among(non, all)
    ensures Promoting(a, monitored, other, all, other.next, 0, 0, |mon|, |mon|, mon, non, mon, non)
  {
  }

  /** The loop goes on as long as there is an entry left. */
  lemma PromoteEnds(a: array<GpuOpts>, monitored: Node, other: Node, all: set<Node>, device: Node?, j: nat, k: nat,
                    idx: nat, numMonitored: nat, mon0: seq<GpuOpts>, non0: seq<GpuOpts>, mon: seq<GpuOpts>,
                    non: seq<GpuOpts>)
    requires Promoting(a, monitored, other, all, device, j, k, idx, numMonitored, mon0, non0, mon, non)
    ensures j <= |non0| && device != null && (device == other <==> j == |non0|)
  {
  }

  method PromoteLoop(a: array<GpuOpts>, monitored: Node, start: nat, ghost mon0: seq<GpuOpts>, other: Node,
                     ghost non0: seq<GpuOpts>, ghost all: set<Node>)
    returns (idx: nat, numMonitored: nat, ghost k: nat, ghost mon: seq<GpuOpts>, ghost non: seq<GpuOpts>)
    requires Promoting(a, monitored, other, all, other.next, 0, 0, start, start, mon0, non0, mon0, non0)
    modifies a, monitored, other, all
    ensures Promoting(a, monitored, other, all, other, |non0|, k, idx, numMonitored, mon0, non0, mon, non)
  {
    idx, numMonitored, mon, non := start, start, mon0, non0;
    var device := other.next;
    ghost var j := 0;
    k := 0;
    while device != other
      invariant Promoting(a, monitored, other, all, device, j, k, idx, numMonitored, mon0, non0, mon, non)
      decreases |non0| - j
    {
      PromoteEnds(a, monitored, other, all, device, j, k, idx, numMonitored, mon0, non0, mon, non);
      device, numMonitored, k, mon, non :=
        PromoteOne(device, a, monitored, other, all, j, k, idx, numMonitored, mon0, non0, mon, non);
      idx, j := idx + 1, j + 1;
    }
    PromoteEnds(a, monitored, other, all, device, j, k, idx, numMonitored, mon0, non0, mon, non);
  }

  /** The second loop: other entries that shall be monitored. */
  method PromoteFlagged(a: array<GpuOpts>, monitored: Node, start: nat, ghost mon0: seq<GpuOpts>, other: Node,
                        ghost non0: seq<GpuOpts>, ghost all: set<Node>)
    returns (idx: nat, numMonitored: nat, ghost mon: seq<GpuOpts>, ghost non: seq<GpuOpts>)
    requires InStep(a, monitored, mon0, other, non0) && Among(mon0, all) && Among(non0, all) && start == |mon0|
    modifies a, monitored, other, all
    ensures InStep(a, monitored, mon, other, non) && Among(mon, all) && Among(non, all)
    ensures mon == mon0 + Flagged(non0, false) && non == Flagged(non0, true)
    ensures numMonitored == |mon| && idx == a.Length
  {
    ghost var k;
    PromoteStarts(a, monitored, other, all, mon0, non0);
    idx, numMonitored, k, mon, non := PromoteLoop(a, monitored, start, mon0, other, non0, all);
    assert non0[..|non0|] == non0;
    assert a.Length == |a[..]| == |mon| + |non|;
  }

  lemma SweptIsWanted(mon0: seq<GpuOpts>, non0: seq<GpuOpts>)
    ensures Flagged(mon0, false) + Flagged(non0 + Flagged(mon0, true), false) == NowMonitored(mon0, non0)
    ensures Flagged(non0 + Flagged(mon0, true), true) == NowOther(mon0, non0)
  {
    FlaggedJoin(non0, Flagged(mon0, true), false);
    FlaggedJoin(non0, Flagged(mon0, true), true);
    FlaggedTwice(mon0, true, false);
    FlaggedTwice(mon0, true, true);
  }

  /** Without any monitored device, the first one becomes monitored. */
  method KeepOne(a: array<GpuOpts>, monitored: Node, other: Node, ghost non: seq<GpuOpts>, ghost all: set<Node>)
    requires InStep(a, monitored, [], other, non) && non != [] && Among(non, all)
    modifies a, monitored, other, all
    ensures InStep(a, monitored, [non[0].(doNotMonitor := false)], other, non[1..])
  {
    ghost var first := non[0].(doNotMonitor := false);
    KeepNode(monitored, other, Gpus(non), all);
    a[0] := a[0].(doNotMonitor := false);
    assert Gpus([first]) == [Gpus(non)[0]] && Gpus(non[1..]) == Without(Gpus(non), 0);
    assert a[..] == [first] + non[1..];
  }

  method KeepNode(monitored: Node, other: Node, ghost ns: seq<Node>, ghost all: set<Node>)
    requires Lists(monitored, [], other, ns) && ns != [] && forall i :: 0 <= i < |ns| ==> ns[i] in all
    modifies monitored, other, all
    ensures Lists(monitored, [ns[0]], other, Without(ns, 0))
  {
    ApartSymmetric(monitored, [], other, ns);
    assert other.next == ns[0];
    Move(other.next, other, ns, 0, monitored, []);
    assert [ns[0]] + [] == [ns[0]];
    ApartSymmetric(other, Without(ns, 0), monitored, [ns[0]]);
  }

  // ------------------------------------------------------------ callbacks ----

  /** The callbacks after all devices of the list were enabled or disabled. */
  function EnabledAll(es: seq<Callback<Node>>, gpus: seq<Node>, enable: bool): (r: seq<Callback<Node>>)
    ensures |r| == |es|
  {
    if gpus == [] then es else Enabled(EnabledAll(es, gpus[..|gpus| - 1], enable), gpus[|gpus| - 1], enable)
  }

  lemma {:induction false} EnabledAllAt(es: seq<Callback<Node>>, gpus: seq<Node>, enable: bool, i: nat)
    requires i < |es|
    ensures EnabledAll(es, gpus, enable)[i] == if es[i].gpu in gpus then es[i].(active := enable) else es[i]
  {
    if gpus != [] {
      EnabledAllAt(es, gpus[..|gpus| - 1], enable, i);
      assert es[i].gpu in gpus <==> es[i].gpu in gpus[..|gpus| - 1] || es[i].gpu == gpus[|gpus| - 1];
    }
  }

  method EnableList(registry: Registry<Node>, head: Node, ghost gpus: seq<Node>, enable: bool)
    requires Ring(head, gpus)
    modifies registry
    ensures registry.entries == EnabledAll(old(registry.entries), gpus, enable)
  {
    var device := head.next;
    ghost var i := 0;
    while device != head
      invariant i <= |gpus| && device == Nth(head, gpus, i) && Ring(head, gpus)
      invariant registry.entries == EnabledAll(old(registry.entries), gpus[..i], enable)
      decreases |gpus| - i
    {
      assert gpus[..i + 1][..i] == gpus[..i];
      registry.Enable(device, enable);
      device := device.next;
      i := i + 1;
    }
    assert gpus[..i] == gpus;
  }

  /** Monitored devices enabled, then the others disabled. */
  function Followed(es: seq<Callback<Node>>, mon: seq<Node>, other: seq<Node>): (r: seq<Callback<Node>>)
    ensures |r| == |es|
  {
    EnabledAll(EnabledAll(es, mon, true), other, false)
  }

  /** Callbacks of the listed devices are active exactly if the device is monitored. */
  ghost predicate FollowMonitoring(es: seq<Callback<Node>>, mon: seq<Node>, other: seq<Node>) {
    forall i :: 0 <= i < |es| && (es[i].gpu in mon || es[i].gpu in other) ==> (es[i].active <==> es[i].gpu in mon)
  }

  /** No callback is added, dropped or moved, and those of devices in neither list are as before. */
  lemma CallbacksFollow(es: seq<Callback<Node>>, a: Node, mon: seq<Node>, b: Node, other: seq<Node>)
    requires Apart(a, mon, b, other)
    ensures FollowMonitoring(Followed(es, mon, other), mon, other)
    ensures forall i :: 0 <= i < |es| ==> Followed(es, mon, other)[i].gpu == es[i].gpu
    ensures forall i :: 0 <= i < |es| && es[i].gpu !in mon && es[i].gpu !in other ==>
              Followed(es, mon, other)[i] == es[i]
  {
    forall i | 0 <= i < |es|
      ensures Followed(es, mon, other)[i]
              == if es[i].gpu in mon || es[i].gpu in other then es[i].(active := es[i].gpu in mon) else es[i]
    {
      EnabledAllAt(es, mon, true, i);
      EnabledAllAt(EnabledAll(es, mon, true), other, false, i);
    }
  }

  // -------------------------------------------------------------- the whole ----

  /** The two loops. */
  method Sweep(numDevices: nat, monitored: Node, other: Node, a: array<GpuOpts>,
               ghost mon: seq<GpuOpts>, ghost non: seq<GpuOpts>, ghost all: set<Node>)
    returns (numMonitored: nat)
    requires InStep(a, monitored, mon, other, non) && numDevices == a.Length && Among(mon, all) && Among(non, all)
    modifies a, monitored, other, all
    ensures InStep(a, monitored, NowMonitored(mon, non), other, NowOther(mon, non)) && Among(NowOther(mon, non), all)
    ensures numMonitored == |NowMonitored(mon, non)|
  {
    var idx;
    ghost var m, n;
    idx, m, n := DemoteFlagged(a, monitored, mon, other, non, all);
    idx, numMonitored, m, n := PromoteFlagged(a, monitored, idx, m, other, n, all);
    SweptIsWanted(mon, non);
    assert idx == numDevices;
  }

  lemma AmongOwn(os: seq<GpuOpts>, all: set<Node>)
    requires forall e :: e in Gpus(os) ==> e in all
    ensures Among(os, all)
  {
    forall i | 0 <= i < |os| ensures os[i].linkedGpu in all {
      assert Gpus(os)[i] == os[i].linkedGpu;
    }
  }

  /** Both loops, and the monitored device there always is. */
  method SweepAndKeepOne(numDevices: nat, monitored: Node, other: Node, a: array<GpuOpts>,
                         ghost mon: seq<GpuOpts>, ghost non: seq<GpuOpts>)
    returns (numMonitored: nat)
    requires InStep(a, monitored, mon, other, non) && numDevices == a.Length
    modifies a, monitored, other, Gpus(mon), Gpus(non)
    ensures InStep(a, monitored, FixedMonitored(mon, non), other, FixedOther(mon, non))
    ensures numMonitored == |FixedMonitored(mon, non)|
  {
    ghost var all := (set e | e in Gpus(mon)) + (set e | e in Gpus(non));
    AmongOwn(mon, all);
    AmongOwn(non, all);
    numMonitored := Sweep(numDevices, monitored, other, a, mon, non, all);
    numMonitored := KeepAtLeastOne(numDevices, numMonitored, monitored, other, a, NowMonitored(mon, non),
                                   NowOther(mon, non), all);
  }

  /** There is always a monitored device, if there is any. */
  method KeepAtLeastOne(numDevices: nat, numMonitored: nat, monitored: Node, other: Node, a: array<GpuOpts>,
                        ghost m: seq<GpuOpts>, ghost n: seq<GpuOpts>, ghost all: set<Node>)
    returns (number: nat)
    requires InStep(a, monitored, m, other, n) && Among(n, all) && numDevices == a.Length && numMonitored == |m|
    modifies a, monitored, other, all
    ensures m == [] && n != [] ==>
              InStep(a, monitored, [n[0].(doNotMonitor := false)], other, n[1..]) && number == 1
    ensures m != [] || n == [] ==> InStep(a, monitored, m, other, n) && number == |m|
  {
    number := numMonitored;
    assert numDevices == |a[..]| == |m| + |n|;
    if numDevices > 0 && number == 0 {
      KeepOne(a, monitored, other, n, all);
      number := number + 1;
    }
  }

  method EnableMonitored(registry: Registry<Node>, monitored: Node, ghost ms: seq<Node>, other: Node,
                         ghost ns: seq<Node>)
    requires Ring(monitored, ms) && Ring(other, ns) && Apart(monitored, ms, other, ns)
    modifies registry
    ensures registry.entries == Followed(old(registry.entries), ms, ns)
    ensures FollowMonitoring(registry.entries, ms, ns)
  {
    CallbacksFollow(registry.entries, monitored, ms, other, ns);
    EnableList(registry, monitored, ms, true);
    EnableList(registry, other, ns, false);
  }

  /** interface_check_and_fix_monitored_gpus. */
  method CheckAndFixMonitoredGpus(numDevices: nat, monitored: Node, other: Node, a: array<GpuOpts>,
                                  registry: Registry<Node>, ghost mon: seq<GpuOpts>, ghost non: seq<GpuOpts>)
    returns (numMonitored: nat)
    requires InStep(a, monitored, mon, other, non) && numDevices == a.Length
    modifies a, monitored, other, Gpus(mon), Gpus(non), registry
    ensures InStep(a, monitored, FixedMonitored(mon, non), other, FixedOther(mon, non))
    ensures numMonitored == |FixedMonitored(mon, non)|
    ensures registry.entries
            == Followed(old(registry.entries), Gpus(FixedMonitored(mon, non)), Gpus(FixedOther(mon, non)))
    ensures FollowMonitoring(registry.entries, Gpus(FixedMonitored(mon, non)), Gpus(FixedOther(mon, non)))
  {
    ghost var m, n := FixedMonitored(mon, non), FixedOther(mon, non);
    numMonitored := SweepAndKeepOne(numDevices, monitored, other, a, mon, non);
    EnableMonitored(registry, monitored, Gpus(m), other, Gpus(n));
  }
}
